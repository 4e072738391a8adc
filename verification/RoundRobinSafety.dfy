/** When round robin, in either direction, can come to a switch without a policy to switch to: exactly which
    configurations are safe from it, over all runs. */
module RoundRobinSafety {
  import opened Workload
  import opened TaskIds
  import opened Packing
  import opened PackingTheorems
  import opened Tracking
  import opened Batches
  import opened Switching
  import opened Window
  import opened System

  /** After no run from sys does a batch arrive that asks for a switch without a policy to switch to. */
  ghost predicate NeverStuck(u: Setup, sys: Sys) {
    forall states: seq<Sys>, events: seq<Event>, e: Event ::
      Run(u, states, events) && states[0] == sys && e.Offers? && Counted(states[|events|].switch)
      ==> SwitchDefined(u, states[|events|], e)
  }

  lemma OneEventRun(u: Setup, sys: Sys, e: Event, t: Sys)
    requires Legal(u, sys, e) && t == System.Next(u, sys, e)
    ensures Run(u, [sys, t], [e])
  {
  }

  lemma StuckAfter(u: Setup, sys: Sys, states: seq<Sys>, events: seq<Event>, e: Event)
    requires Run(u, states, events) && states[0] == sys && e.Offers? && Counted(states[|events|].switch)
    requires !SwitchDefined(u, states[|events|], e)
    ensures !NeverStuck(u, sys)
  {
  }

  lemma NothingToSwitchTo(u: Setup, sys: Sys, e: Event)
    requires e.Offers? && Counted(sys.switch) && u.cfg.enabled && !u.cfg.criteria.TaskDist?
    requires if u.cfg.fixed then sys.switch.window > 0 else NewWindow(sys, e.offers) > 0
    requires sys.switch.received && sys.switch.counts[sys.switch.cur] >= sys.switch.window
    requires !Listed(u.cfg.table, sys.switch.cur)
    ensures !SwitchDefined(u, sys, e)
  {
    assert Due(u.cfg, sys.switch, NewWindow(sys, e.offers));
  }

  // ----- opening a window

  lemma FirstOfFlat(queue: seq<Job>, unused: Res)
    requires queue != [] && Positive(queue) && queue[0].spec.cpu > 0.0
    ensures WindowSize(queue, unused) > 0 <==> queue[0].spec.cpu <= unused.cpu && queue[0].spec.ram <= unused.ram
  {
    assert queue[0] in queue;
    NextInstance(queue, 0, 0);
    assert queue[..0] == [];
    var flat := Flat(queue);
    assert Filled(flat, 0) == ZERO;
    assert Filled(flat, 1) == Res(flat[0].cpu, flat[0].ram, 0.0);
  }

  lemma RecordOne(o: Offer)
    ensures Record(map[], [o]) == map[o.agent := Count(Agg(o), Agg(o))]
  {
    assert [o][..0] == [];
    assert Record(map[], [o][..0]) == map[];
  }

  lemma SumOne(amounts: map<string, Res>, k: string)
    requires amounts.Keys == {k}
    ensures SumOver({k}, amounts) == ZERO.Plus(amounts[k])
  {
    SumOverAny({k}, amounts, k);
    assert {k} - {k} == {};
  }

  /** The unused resources of the cluster grow by the first offer of a new agent. */
  lemma NewAgent(hosts: Hosts, o: Offer)
    requires o.agent !in hosts
    ensures Clusterwide(Record(hosts, [o])).unused == Clusterwide(hosts).unused.Plus(Agg(o))
  {
    assert [o][..0] == [] && Record(hosts, []) == hosts;
    var after := Record(hosts, [o]);
    assert after == hosts[o.agent := Count(Agg(o), Agg(o))];
    SumOverAny(after.Keys, Unused(after), o.agent);
    assert after.Keys - {o.agent} == hosts.Keys;
    SumOverSame(hosts.Keys, Unused(after), Unused(hosts));
  }

  function AtLeastZero(x: real): real {
    if x >= 0.0 then x else 0.0
  }

  /** An offer of CPU and memory. */
  function Plain(agent: string, cpu: real, ram: real): Offer {
    Offer("offer", "host", agent, [Resource("cpus", cpu), Resource("mem", ram)], [])
  }

  lemma PlainAgg(agent: string, cpu: real, ram: real)
    ensures Agg(Plain(agent, cpu, ram)) == Res(cpu, ram, 0.0)
  {
    forall name
      ensures Amount(Plain(agent, cpu, ram).resources, name)
              == (if "cpus" == name then cpu else 0.0) + if "mem" == name then ram else 0.0
    {
      AmountOne(Resource("cpus", cpu), name);
      AmountOne(Resource("mem", ram), name);
      AmountConcat([Resource("cpus", cpu)], [Resource("mem", ram)], name);
      assert Plain(agent, cpu, ram).resources == [Resource("cpus", cpu)] + [Resource("mem", ram)];
    }
  }

  /** Whatever is used, a new agent can bring room for the first task. */
  lemma OpensWindow(sys: Sys) returns (o: Offer)
    requires sys.queue != [] && Positive(sys.queue) && sys.queue[0].spec.cpu > 0.0 && "another" !in sys.hosts
    ensures NewWindow(sys, [o]) > 0
  {
    var unused, spec := Clusterwide(sys.hosts).unused, sys.queue[0].spec;
    var cpu, ram := AtLeastZero(spec.cpu - unused.cpu), AtLeastZero(spec.ram - unused.ram);
    o := Plain("another", cpu, ram);
    PlainAgg("another", cpu, ram);
    NewAgent(sys.hosts, o);
    FirstOfFlat(sys.queue, unused.Plus(Agg(o)));
  }

  // ----- a batch that the deployed policy does not use

  /** With the window closed no policy does anything. */
  lemma ClosedConsumes(p: Policy, c: Ctx, o: Offer, queue: seq<Job>, scheduled: int)
    requires !Open(c, scheduled)
    ensures Consume(p, c, o, queue, scheduled) == Fresh(queue, scheduled)
  {
    var taken := ConsumeTakes(p, c, o, queue, scheduled);
  }

  /** Half of what the first task needs. */
  function Scarce(job: Job): Offer {
    Plain("agent", job.spec.cpu / 2.0, job.spec.ram)
  }

  lemma ScarceWindow(load: seq<Job>, sys: Sys)
    requires load != [] && Positive(load) && load[0].spec.cpu > 0.0 && sys.queue == load && sys.hosts == map[]
    ensures NewWindow(sys, [Scarce(load[0])]) == 0
  {
    var o := Scarce(load[0]);
    PlainAgg("agent", load[0].spec.cpu / 2.0, load[0].spec.ram);
    NewAgent(map[], o);
    FirstOfFlat(load, Agg(o));
  }

  /** A first batch too small to open a window: nothing is switched or launched, but offers count as received. */
  lemma IdleBatch(u: Setup, load: seq<Job>, sys: Sys, e: Event)
    requires Init(u, sys, load) && u.cfg.enabled && !u.cfg.fixed && sys.switch.window == 0
    requires load != [] && load[0].spec.cpu > 0.0 && e == Offers([Scarce(load[0])], BinPacking, load)
    ensures Legal(u, sys, e)
    ensures var t := System.Next(u, sys, e);
            && t.queue == load && t.hosts.Keys == {"agent"} && t.switch.received && Counted(t.switch)
            && t.switch.cur == sys.switch.cur && t.switch.window == 0 && t.switch.counts[t.switch.cur] == 0
  {
    var o := Scarce(load[0]);
    ScarceWindow(load, sys);
    assert Cover(load, 0, 0) == 0;
    var s := Switched(u, sys, e);
    ClosedConsumes(s.cur, Context(u, s), o, load, 0);
    RecordOne(o);
    assert e.offers[..0] == [];
    var start := Batch(load, 0, Recorded(sys, [o]), []);
    assert ConsumeAll(s.cur, Context(u, s), u.reqs, start, [o][..0]) == start;
    assert Consumed(u, sys, e) == Step(s.cur, Context(u, s), u.reqs, start, o);
  }

  /** Started with an unlisted policy and no fixed window: the first window that opens finds nothing to switch to. */
  lemma UnlistedGetsStuck(u: Setup, load: seq<Job>, sys: Sys)
    requires Init(u, sys, load) && u.cfg.enabled && !u.cfg.fixed && !u.cfg.criteria.TaskDist?
    requires sys.switch.window == 0 && load != [] && load[0].spec.cpu > 0.0 && !Listed(u.cfg.table, sys.switch.cur)
    ensures !NeverStuck(u, sys)
  {
    var idle := Offers([Scarce(load[0])], BinPacking, load);
    IdleBatch(u, load, sys, idle);
    var t := System.Next(u, sys, idle);
    var o := OpensWindow(t);
    var e := Offers([o], BinPacking, load);
    NothingToSwitchTo(u, t, e);
    OneEventRun(u, sys, idle, t);
    StuckAfter(u, sys, [sys, t], [idle], e);
  }

  // ----- offers that no policy can refuse

  ghost function Larger(a: real, b: real): real {
    if a >= b then a else b
  }

  /** At least what any queued task needs of each resource. */
  ghost function Bound(classMapWatts: bool, queue: seq<Job>): real {
    if queue == [] then 0.0
    else
      var spec := queue[0].spec;
      Larger(Larger(spec.cpu, spec.ram),
             Larger(WattsToConsider(spec, classMapWatts, Big("", 0.0)).value, Bound(classMapWatts, queue[1..])))
  }

  function Big(host: string, amount: real): Offer {
    Offer("big", host, "agent", [Resource("cpus", amount), Resource("mem", amount), Resource("watts", amount)], [])
  }

  lemma BigAgg(host: string, amount: real)
    ensures Agg(Big(host, amount)) == Res(amount, amount, amount)
  {
    var rs := Big(host, amount).resources;
    assert rs[..2][..1] == [rs[0]] && [rs[0]][..0] == [];
    assert Amount(rs[..2][..1], "cpus") == amount && Amount(rs[..2][..1], "mem") == 0.0 && Amount(rs[..2][..1], "watts") == 0.0;
    assert Amount(rs[..2], "cpus") == amount && Amount(rs[..2], "mem") == amount && Amount(rs[..2], "watts") == 0.0;
  }

  lemma {:induction false} BoundHolds(classMapWatts: bool, queue: seq<Job>, k: nat)
    requires k < |queue|
    ensures var spec, bound := queue[k].spec, Bound(classMapWatts, queue);
            spec.cpu <= bound && spec.ram <= bound && WattsToConsider(spec, classMapWatts, Big("", 0.0)).value <= bound
  {
    if k > 0 {
      BoundHolds(classMapWatts, queue[1..], k - 1);
    }
  }

  lemma BigFits(c: Ctx, host: string, queue: seq<Job>, k: nat)
    requires k < |queue|
    ensures Fits(c, Big(host, Bound(c.classMapWatts, queue)), ZERO, queue[k].spec)
  {
    BoundHolds(c.classMapWatts, queue, k);
    BigAgg(host, Bound(c.classMapWatts, queue));
  }

  /** A big offer of the first task's host is used by every policy whose window is open. */
  lemma BigTaken(p: Policy, c: Ctx, queue: seq<Job>, scheduled: int)
    requires queue != [] && Open(c, scheduled)
    ensures Consume(p, c, Big(queue[0].spec.host, Bound(c.classMapWatts, queue)), queue, scheduled).picks != []
  {
    var o := Big(queue[0].spec.host, Bound(c.classMapWatts, queue));
    forall k: nat | k < |queue|
      ensures Fits(c, o, ZERO, queue[k].spec)
    {
      BigFits(c, queue[0].spec.host, queue, k);
    }
    assert Candidate(c, o, queue, 0);
    if p == MaxMin {
      MaxMinDeclinesIff(c, o, queue, scheduled);
      assert !ShutOut(c, o, queue, 0);
    } else {
      DeclinesIffNoCandidate(p, c, o, queue, scheduled);
    }
  }

  // ----- using up a window

  lemma {:induction false} InstanceIdsSize(name: string, n: int)
    requires n >= 0
    ensures |InstanceIds(name, n)| == n
    decreases n
  {
    if n > 0 {
      InstanceIdsSize(name, n - 1);
    }
  }

  lemma {:induction false} PendingIdsSize(queue: seq<Job>)
    requires Positive(queue)
    ensures |PendingIds(queue)| == Instances(queue)
  {
    if queue != [] {
      var front, last := queue[..|queue| - 1], queue[|queue| - 1];
      assert queue == front + [last] && last in queue && forall j :: j in front ==> j in queue;
      PendingIdsSize(front);
      PendingIdsConcat(front, [last]);
      OneTaskIds(last);
      InstanceIdsSize(last.spec.name, last.n);
    }
  }

  /** Scheduled and pending instances add up to the same before and after. */
  lemma CountKept(p: Policy, c: Ctx, reqs: map<string, Res>, b: Batch, offers: seq<Offer>)
    requires Positive(b.queue)
    ensures var g := ConsumeAll(p, c, reqs, b, offers);
            Positive(g.queue) && Instances(g.queue) + g.scheduled == Instances(b.queue) + b.scheduled
  {
    var g := ConsumeAll(p, c, reqs, b, offers);
    ConsumeAllProgress(p, c, reqs, b, offers);
    PendingIdsSize(b.queue);
    PendingIdsSize(g.queue);
    assert |PendingIds(g.queue) + LoggedIds(g.answers)| == |PendingIds(b.queue) + LoggedIds(b.answers)|;
  }

  lemma BigStep(p: Policy, c: Ctx, reqs: map<string, Res>, b: Batch)
    requires Positive(b.queue) && b.queue != [] && Open(c, b.scheduled)
    ensures Step(p, c, reqs, b, Big(b.queue[0].spec.host, Bound(c.classMapWatts, b.queue))).scheduled > b.scheduled
  {
    var o := Big(b.queue[0].spec.host, Bound(c.classMapWatts, b.queue));
    BigTaken(p, c, b.queue, b.scheduled);
    ConsumeProgress(p, c, o, b.queue, b.scheduled);
  }

  lemma ConsumeMore(p: Policy, c: Ctx, reqs: map<string, Res>, b: Batch, offers: seq<Offer>, o: Offer)
    ensures ConsumeAll(p, c, reqs, b, offers + [o]) == Step(p, c, reqs, ConsumeAll(p, c, reqs, b, offers), o)
  {
    assert (offers + [o])[..|offers|] == offers;
  }

  /** After the given offers, further ones can be made that bring the count to n. */
  lemma {:induction false} FillWindow(p: Policy, c: Ctx, reqs: map<string, Res>, b: Batch, start: seq<Offer>, n: nat) returns (offers: seq<Offer>)
    requires Positive(b.queue) && b.scheduled == 0 && c.switching && n <= c.window && n <= Instances(b.queue)
    requires forall o :: o in start ==> o.agent == "agent"
    ensures start <= offers && forall o :: o in offers ==> o.agent == "agent"
    ensures ConsumeAll(p, c, reqs, b, offers).scheduled >= n
    decreases n
  {
    if n == 0 {
      offers := start;
      ConsumeAllProgress(p, c, reqs, b, offers);
    } else {
      offers := FillWindow(p, c, reqs, b, start, n - 1);
      var m := ConsumeAll(p, c, reqs, b, offers);
      CountKept(p, c, reqs, b, offers);
      if m.scheduled < n {
        var o := Big(m.queue[0].spec.host, Bound(c.classMapWatts, m.queue));
        BigStep(p, c, reqs, m);
        ConsumeMore(p, c, reqs, b, offers, o);
        offers := offers + [o];
      }
    }
  }

  // ----- what else a batch leaves as it was

  lemma {:induction false} ActivateAllKeys(hosts: Hosts, reqs: map<string, Res>, tasks: seq<TaskInfo>)
    ensures ActivateAll(hosts, reqs, tasks).Keys == hosts.Keys
  {
    if tasks != [] {
      ActivateAllKeys(hosts, reqs, tasks[..|tasks| - 1]);
    }
  }

  lemma {:induction false} ConsumeAllKeys(p: Policy, c: Ctx, reqs: map<string, Res>, b: Batch, offers: seq<Offer>)
    ensures ConsumeAll(p, c, reqs, b, offers).hosts.Keys == b.hosts.Keys
  {
    if offers != [] {
      var m, o := ConsumeAll(p, c, reqs, b, offers[..|offers| - 1]), offers[|offers| - 1];
      ConsumeAllKeys(p, c, reqs, b, offers[..|offers| - 1]);
      ActivateAllKeys(m.hosts, reqs, Infos(c, o, Consume(p, c, o, m.queue, m.scheduled).picks));
    }
  }

  lemma {:induction false} RecordKnown(hosts: Hosts, offers: seq<Offer>)
    requires offers != [] && forall o :: o in offers ==> o.agent == offers[0].agent
    ensures Record(hosts, offers) == Record(hosts, [offers[0]])
  {
    if |offers| > 1 {
      var front, last := offers[..|offers| - 1], offers[|offers| - 1];
      assert offers == front + [last] && last in offers && forall o :: o in front ==> o in offers;
      RecordKnown(hosts, front);
    } else {
      assert offers == [offers[0]];
    }
  }

  lemma {:induction false} SubsequenceSpecs(a: seq<Job>, b: seq<Job>, j: Job) returns (k: Job)
    requires Subsequence(a, b) && j in a
    ensures k in b && k.spec == j.spec
  {
    if a[0].spec == b[0].spec && a[0].n <= b[0].n && Subsequence(a[1..], b[1..]) {
      if j == a[0] {
        k := b[0];
      } else {
        assert j in a[1..];
        k := SubsequenceSpecs(a[1..], b[1..], j);
      }
    } else {
      k := SubsequenceSpecs(a, b[1..], j);
    }
  }

  ghost predicate NeedCpu(queue: seq<Job>) {
    forall j :: j in queue ==> j.spec.cpu > 0.0
  }

  lemma StillNeedCpu(p: Policy, c: Ctx, reqs: map<string, Res>, b: Batch, offers: seq<Offer>)
    requires Positive(b.queue) && NeedCpu(b.queue)
    ensures NeedCpu(ConsumeAll(p, c, reqs, b, offers).queue)
  {
    var g := ConsumeAll(p, c, reqs, b, offers);
    ConsumeAllProgress(p, c, reqs, b, offers);
    forall j | j in g.queue
      ensures j.spec.cpu > 0.0
    {
      var k := SubsequenceSpecs(g.queue, b.queue, j);
    }
  }

  // ----- an unlisted first policy

  /** Exactly the first task's needs. */
  function RoomFor(job: Job): Offer {
    Plain("agent", job.spec.cpu, job.spec.ram)
  }

  lemma {:induction false} FlatNeedsCpu(queue: seq<Job>, k: nat)
    requires NeedCpu(queue) && k < |Flat(queue)|
    ensures Flat(queue)[k].cpu > 0.0
  {
    var front, last := queue[..|queue| - 1], queue[|queue| - 1];
    assert last in queue && forall j :: j in front ==> j in queue;
    if k < |Flat(front)| {
      FlatNeedsCpu(front, k);
    }
  }

  /** Room for one instance and no more is a window of one. */
  lemma WindowOfOne(load: seq<Job>)
    requires Positive(load) && NeedCpu(load) && Instances(load) >= 2
    ensures load != [] && WindowSize(load, Agg(RoomFor(load[0]))) == 1 && Cover(load, 1, 0) == 1
  {
    var flat, o := Flat(load), RoomFor(load[0]);
    assert load[0] in load;
    PlainAgg("agent", load[0].spec.cpu, load[0].spec.ram);
    FlatLength(load);
    NextInstance(load, 0, 0);
    FlatNeedsCpu(load, 1);
    assert load[..0] == [];
    assert Filled(flat, 0) == ZERO;
    assert Filled(flat, 1) == Res(flat[0].cpu, flat[0].ram, 0.0);
    assert Filled(flat, 2).cpu == flat[0].cpu + flat[1].cpu;
    AcceptedFound(flat, Agg(o), 0, 1);
    InstancesNext(load, 0);
    CoverFound(load, 1, 0, 1);
  }

  /** The window that the first batch is consumed with. */
  ghost predicate Opens(u: Setup, load: seq<Job>, sys: Sys, w: nat) {
    if u.cfg.fixed then w == sys.switch.window > 0 else w == 1 && Instances(load) >= 2
  }

  /** A first batch that begins with RoomFor deploys the first policy for that window. */
  lemma FirstDeployed(u: Setup, load: seq<Job>, sys: Sys, e: Event, w: nat)
    requires Init(u, sys, load) && NeedCpu(load) && load != [] && u.cfg.enabled && u.cfg.first.Some? && Opens(u, load, sys, w)
    requires e.Offers? && e.sorted == load && [RoomFor(load[0])] <= e.offers && forall o :: o in e.offers ==> o.agent == "agent"
    ensures SwitchDefined(u, sys, e) && Legal(u, sys, e) && Recorded(sys, e.offers).Keys == {"agent"}
    ensures var s := Switched(u, sys, e);
            Counted(s) && s.cur == u.cfg.first.value && s.window == w && s.counts[s.cur] == 0 && !s.received
  {
    var o := RoomFor(load[0]);
    RecordKnown(map[], e.offers);
    RecordOne(o);
    NewAgent(map[], o);
    assert Clusterwide(map[]).unused == ZERO;
    assert ZERO.Plus(Agg(o)) == Agg(o);
    if !u.cfg.fixed {
      WindowOfOne(load);
    }
    assert Due(u.cfg, sys.switch, NewWindow(sys, e.offers));
    assert load[..0] == [] && load[..1] == [load[0]];
  }

  /** The batch uses up the window, in one or more offers. */
  lemma FirstUsesWindow(u: Setup, load: seq<Job>, sys: Sys, w: nat) returns (e: Event, t: Sys)
    requires Init(u, sys, load) && NeedCpu(load) && load != [] && u.cfg.enabled && u.cfg.first.Some? && Opens(u, load, sys, w)
    requires w <= Instances(load)
    ensures Legal(u, sys, e) && t == System.Next(u, sys, e)
    ensures Counted(t.switch) && t.switch.received && t.switch.cur == u.cfg.first.value && t.switch.window == w
    ensures t.switch.counts[t.switch.cur] == w && t.hosts.Keys == {"agent"}
    ensures Positive(t.queue) && NeedCpu(t.queue) && Instances(t.queue) == Instances(load) - w
  {
    var p, c := u.cfg.first.value, Ctx(u.wattsAsAResource, u.classMapWatts, true, w);
    RecordOne(RoomFor(load[0]));
    var hosts := Record(map[], [RoomFor(load[0])]);
    var start := Batch(load, 0, hosts, []);
    var offers := FillWindow(p, c, u.reqs, start, [RoomFor(load[0])], w);
    e := Offers(offers, BinPacking, load);
    FirstDeployed(u, load, sys, e, w);
    RecordKnown(map[], offers);
    t := System.Next(u, sys, e);
    assert Consumed(u, sys, e) == ConsumeAll(p, c, u.reqs, start, offers);
    ConsumeAllProgress(p, c, u.reqs, start, offers);
    CountKept(p, c, u.reqs, start, offers);
    ConsumeAllKeys(p, c, u.reqs, start, offers);
    StillNeedCpu(p, c, u.reqs, start, offers);
  }

  /** An unlisted first policy: once it has used up its window, there is nothing to switch to. */
  lemma UnlistedFirstGetsStuck(u: Setup, load: seq<Job>, sys: Sys, w: nat)
    requires Init(u, sys, load) && NeedCpu(load) && load != [] && u.cfg.enabled && !u.cfg.criteria.TaskDist?
    requires u.cfg.first.Some? && !Listed(u.cfg.table, u.cfg.first.value) && Opens(u, load, sys, w) && w <= Instances(load)
    ensures !NeverStuck(u, sys)
  {
    var e, t := FirstUsesWindow(u, load, sys, w);
    var o := RoomFor(load[0]);
    if !u.cfg.fixed {
      assert t.queue != [] && t.queue[0] in t.queue;
      o := OpensWindow(t);
    }
    var next := Offers([o], BinPacking, load);
    NothingToSwitchTo(u, t, next);
    OneEventRun(u, sys, e, t);
    StuckAfter(u, sys, [sys, t], [e], next);
  }

  // ----- the exact conditions

  lemma SafeNeverStuck(u: Setup, load: seq<Job>, sys: Sys)
    requires Init(u, sys, load) && Safe(u, sys.switch)
    ensures NeverStuck(u, sys)
  {
    forall states: seq<Sys>, events: seq<Event>, e: Event |
      Run(u, states, events) && states[0] == sys && e.Offers? && Counted(states[|events|].switch)
      ensures SwitchDefined(u, states[|events|], e)
    {
      SwitchAlwaysDefined(u, load, states, events, |events|, e);
    }
  }

  /** Without a fixed window: safe exactly when the policy the scheduler is started with is listed, and so is the first
      policy to deploy if one is configured. */
  lemma FreeWindowSafeIff(u: Setup, load: seq<Job>, sys: Sys)
    requires Init(u, sys, load) && u.cfg.enabled && !u.cfg.criteria.TaskDist? && NeedCpu(load) && Instances(load) >= 2
    requires !u.cfg.fixed && sys.switch.window == 0
    ensures NeverStuck(u, sys) <==> Listed(u.cfg.table, sys.switch.cur) && FirstListed(u.cfg)
  {
    assert load != [] && load[0] in load;
    if !Listed(u.cfg.table, sys.switch.cur) {
      UnlistedGetsStuck(u, load, sys);
    } else if !FirstListed(u.cfg) {
      UnlistedFirstGetsStuck(u, load, sys, 1);
    } else {
      SafeNeverStuck(u, load, sys);
    }
  }

  /** With a fixed window: safe, whatever policy the scheduler is started with, exactly when the window is zero, or the first
      policy to deploy is listed, or none is configured and the table is not empty. */
  lemma FixedWindowSafeIff(u: Setup, load: seq<Job>, sys: Sys)
    requires Init(u, sys, load) && u.cfg.enabled && !u.cfg.criteria.TaskDist? && NeedCpu(load) && load != []
    requires u.cfg.fixed && sys.switch.window <= Instances(load)
    ensures NeverStuck(u, sys) <==> sys.switch.window == 0 || (FirstListed(u.cfg) && |u.cfg.table| > 0)
  {
    if sys.switch.window == 0 || (FirstListed(u.cfg) && |u.cfg.table| > 0) {
      SafeNeverStuck(u, load, sys);
    } else if !FirstListed(u.cfg) {
      UnlistedFirstGetsStuck(u, load, sys, sys.switch.window);
    } else {
      var e := Offers([RoomFor(load[0])], BinPacking, load);
      assert Run(u, [sys], []);
      assert Due(u.cfg, sys.switch, NewWindow(sys, e.offers));
      StuckAfter(u, sys, [sys], [], e);
    }
  }
}
