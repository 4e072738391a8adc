/** Over whole runs the tracker's figures are the totals minus what the active tasks need, and they stay
    non-negative as long as the offers do not exceed them. */
module Accounting {
  import opened Workload
  import opened TaskIds
  import opened Packing
  import opened PackingTheorems
  import opened Tracking
  import opened Batches
  import opened Window
  import opened System

  /** The scheduler together with the tasks that were launched and have not ended: id and agent. */
  datatype World = World(sys: Sys, active: map<string, string>)

  ghost function OnAgent(active: map<string, string>, agent: string): set<string> {
    set id | id in active && active[id] == agent
  }

  /** Every agent's unused amount is its total minus the requirements of the tasks active on it. */
  ghost predicate Balanced(reqs: map<string, Res>, hosts: Hosts, active: map<string, string>) {
    && active.Keys <= reqs.Keys
    && (forall id :: id in active ==> active[id] in hosts)
    && forall a :: a in hosts ==> hosts[a].unused == hosts[a].total.Minus(SumOver(OnAgent(active, a), reqs))
  }

  lemma ActivateBalanced(reqs: map<string, Res>, hosts: Hosts, active: map<string, string>, id: string, agent: string)
    requires Balanced(reqs, hosts, active) && id in reqs && id !in active && agent in hosts
    ensures Balanced(reqs, Activate(hosts, reqs, id, agent), active[id := agent])
  {
    var after := active[id := agent];
    assert OnAgent(after, agent) - {id} == OnAgent(active, agent);
    SumOverAny(OnAgent(after, agent), reqs, id);
    forall a | a in hosts && a != agent
      ensures OnAgent(after, a) == OnAgent(active, a)
    {
    }
  }

  lemma ReleaseBalanced(reqs: map<string, Res>, hosts: Hosts, active: map<string, string>, id: string)
    requires Balanced(reqs, hosts, active) && id in active
    ensures Balanced(reqs, Release(hosts, reqs, id, active[id]), active - {id})
  {
    var after, agent := active - {id}, active[id];
    assert OnAgent(active, agent) - {id} == OnAgent(after, agent);
    SumOverAny(OnAgent(active, agent), reqs, id);
    forall a | a in hosts && a != agent
      ensures OnAgent(after, a) == OnAgent(active, a)
    {
    }
  }

  lemma {:induction false} RecordBalanced(reqs: map<string, Res>, hosts: Hosts, active: map<string, string>, offers: seq<Offer>)
    requires Balanced(reqs, hosts, active)
    ensures Balanced(reqs, Record(hosts, offers), active)
    ensures forall a :: a in hosts ==> a in Record(hosts, offers) && Record(hosts, offers)[a] == hosts[a]
    ensures forall o :: o in offers ==> o.agent in Record(hosts, offers)
  {
    if offers != [] {
      var last := offers[|offers| - 1];
      RecordBalanced(reqs, hosts, active, offers[..|offers| - 1]);
      assert offers == offers[..|offers| - 1] + [last];
      var before := Record(hosts, offers[..|offers| - 1]);
      if last.agent !in before {
        assert OnAgent(active, last.agent) == {};
      }
    }
  }

  // ----- the tasks an answer makes active

  ghost function Activated(active: map<string, string>, tasks: seq<TaskInfo>): map<string, string> {
    if tasks == [] then active
    else Activated(active, tasks[..|tasks| - 1])[tasks[|tasks| - 1].id := tasks[|tasks| - 1].agent]
  }

  ghost function ActivatedBy(active: map<string, string>, answers: seq<Answer>): map<string, string> {
    if answers == [] then active
    else
      var before := ActivatedBy(active, answers[..|answers| - 1]);
      match answers[|answers| - 1]
      case Launched(_, tasks) => Activated(before, tasks)
      case Declined(_, _) => before
  }

  lemma {:induction false} ActivatedKeys(active: map<string, string>, tasks: seq<TaskInfo>)
    ensures forall id :: id in Activated(active, tasks) <==> id in active || id in InfoIds(tasks)
  {
    if tasks != [] {
      ActivatedKeys(active, tasks[..|tasks| - 1]);
    }
  }

  lemma {:induction false} TasksBalanced(reqs: map<string, Res>, hosts: Hosts, active: map<string, string>, tasks: seq<TaskInfo>)
    requires Balanced(reqs, hosts, active) && NoDuplicates(InfoIds(tasks))
    requires forall id :: id in InfoIds(tasks) ==> id in reqs && id !in active
    requires forall t :: t in tasks ==> t.agent in hosts
    ensures Balanced(reqs, ActivateAll(hosts, reqs, tasks), Activated(active, tasks))
    ensures ActivateAll(hosts, reqs, tasks).Keys == hosts.Keys
  {
    if tasks != [] {
      var front, last := tasks[..|tasks| - 1], tasks[|tasks| - 1];
      assert tasks == front + [last];
      assert forall id :: id in InfoIds(front) ==> InfoIds(front)[id] <= InfoIds(tasks)[id];
      TasksBalanced(reqs, hosts, active, front);
      ActivatedKeys(active, front);
      assert InfoIds(tasks)[last.id] == InfoIds(front)[last.id] + 1;
      ActivateBalanced(reqs, ActivateAll(hosts, reqs, front), Activated(active, front), last.id, last.agent);
    }
  }

  // ----- a batch

  /** Everything pending is listed, nothing pending was launched before, and the figures are balanced. */
  ghost predicate Accounted(reqs: map<string, Res>, logged: multiset<string>, active: map<string, string>, b: Batch) {
    && Positive(b.queue)
    && NoDuplicates(PendingIds(b.queue) + (logged + LoggedIds(b.answers)))
    && (forall id :: id in PendingIds(b.queue) ==> id in reqs)
    && (forall id :: id in active ==> id in logged + LoggedIds(b.answers))
    && Balanced(reqs, b.hosts, active)
  }

  /** Nothing is launched: the answer makes no task active. */
  lemma DeclineAccounted(p: Policy, c: Ctx, reqs: map<string, Res>, logged: multiset<string>, active: map<string, string>, b: Batch, o: Offer)
    requires Accounted(reqs, logged, active, b)
    requires b.queue == [] || Consume(p, c, o, b.queue, b.scheduled).picks == []
    ensures var g := Step(p, c, reqs, b, o);
            && g.answers == b.answers + [Declined(o.id, if b.queue == [] then Long else Default)] && g.hosts == b.hosts
            && Accounted(reqs, logged, active, g)
  {
    var g := Step(p, c, reqs, b, o);
    StepProgress(p, c, reqs, b, o);
    AnswerLogged(b.answers, Declined(o.id, if b.queue == [] then Long else Default));
    if b.queue != [] {
      StepIds(p, c, reqs, b, o);
    }
    assert PendingIds(g.queue) == PendingIds(b.queue) && LoggedIds(g.answers) == LoggedIds(b.answers);
  }

  /** The tasks launched on o are listed, unique, new, and placed on its agent. */
  lemma LaunchFresh(p: Policy, c: Ctx, reqs: map<string, Res>, logged: multiset<string>, active: map<string, string>, b: Batch, o: Offer)
    requires Accounted(reqs, logged, active, b) && b.queue != []
    ensures var f := Consume(p, c, o, b.queue, b.scheduled);
            var tasks := Infos(c, o, f.picks);
            && NoDuplicates(InfoIds(tasks)) && (forall id :: id in InfoIds(tasks) ==> id in reqs && id !in active)
            && NoDuplicates(PendingIds(f.queue) + (logged + (LoggedIds(b.answers) + InfoIds(tasks))))
            && forall id :: id in PendingIds(f.queue) ==> id in reqs
  {
    var f := Consume(p, c, o, b.queue, b.scheduled);
    StepIds(p, c, reqs, b, o);
    InfosIds(c, o, f.picks);
    Fresh3(PendingIds(f.queue), PickIds(f.picks), logged, LoggedIds(b.answers));
    assert forall id :: id in PickIds(f.picks) || id in PendingIds(f.queue) ==> id in PendingIds(b.queue);
  }

  /** The launched tasks become active. */
  lemma LaunchAccounted(p: Policy, c: Ctx, reqs: map<string, Res>, logged: multiset<string>, active: map<string, string>, b: Batch, o: Offer)
    requires Accounted(reqs, logged, active, b) && o.agent in b.hosts
    requires b.queue != [] && Consume(p, c, o, b.queue, b.scheduled).picks != []
    ensures var g, tasks := Step(p, c, reqs, b, o), Infos(c, o, Consume(p, c, o, b.queue, b.scheduled).picks);
            && g.answers == b.answers + [Launched(o.id, tasks)] && g.hosts.Keys == b.hosts.Keys
            && Accounted(reqs, logged, Activated(active, tasks), g)
  {
    var tasks := Infos(c, o, Consume(p, c, o, b.queue, b.scheduled).picks);
    StepProgress(p, c, reqs, b, o);
    LaunchFresh(p, c, reqs, logged, active, b, o);
    AnswerLogged(b.answers, Launched(o.id, tasks));
    TasksBalanced(reqs, b.hosts, active, tasks);
    ActivatedKeys(active, tasks);
  }

  lemma ActivatedByOne(active: map<string, string>, a: Answer)
    ensures ActivatedBy(active, [a]) == if a.Launched? then Activated(active, a.tasks) else active
  {
    assert [a][..0] == [];
  }

  lemma StepAccounted(p: Policy, c: Ctx, reqs: map<string, Res>, logged: multiset<string>, active: map<string, string>, b: Batch, o: Offer)
    returns (a: Answer)
    requires Accounted(reqs, logged, active, b) && o.agent in b.hosts
    ensures Step(p, c, reqs, b, o).answers == b.answers + [a]
    ensures Accounted(reqs, logged, ActivatedBy(active, [a]), Step(p, c, reqs, b, o))
    ensures Step(p, c, reqs, b, o).hosts.Keys == b.hosts.Keys
  {
    if b.queue == [] || Consume(p, c, o, b.queue, b.scheduled).picks == [] {
      a := Declined(o.id, if b.queue == [] then Long else Default);
      DeclineAccounted(p, c, reqs, logged, active, b, o);
    } else {
      a := Launched(o.id, Infos(c, o, Consume(p, c, o, b.queue, b.scheduled).picks));
      LaunchAccounted(p, c, reqs, logged, active, b, o);
    }
    ActivatedByOne(active, a);
  }

  /** Ids about to be launched are unique and were not launched before. */
  lemma Fresh3(pending: multiset<string>, picked: multiset<string>, logged: multiset<string>, recent: multiset<string>)
    requires NoDuplicates((pending + picked) + (logged + recent))
    ensures NoDuplicates(picked) && NoDuplicates(pending + (logged + (recent + picked)))
    ensures forall id :: id in picked ==> id !in logged + recent
  {
    var all := (pending + picked) + (logged + recent);
    assert all == pending + (logged + (recent + picked));
    forall id | id in picked
      ensures picked[id] == 1 && id !in logged + recent
    {
      assert all[id] == 1;
    }
  }

  lemma {:induction false} ActivatedByConcat(active: map<string, string>, a: seq<Answer>, b: seq<Answer>)
    ensures ActivatedBy(active, a + b) == ActivatedBy(ActivatedBy(active, a), b)
  {
    if b == [] {
      assert a + b == a;
    } else {
      assert (a + b)[..|a + b| - 1] == a + b[..|b| - 1];
      ActivatedByConcat(active, a, b[..|b| - 1]);
    }
  }

  lemma {:induction false} BatchAccounted(p: Policy, c: Ctx, reqs: map<string, Res>, logged: multiset<string>,
                                          active: map<string, string>, b: Batch, offers: seq<Offer>)
    requires Accounted(reqs, logged, active, b) && b.answers == []
    requires forall o :: o in offers ==> o.agent in b.hosts
    ensures var g := ConsumeAll(p, c, reqs, b, offers);
            Accounted(reqs, logged, ActivatedBy(active, g.answers), g) && g.hosts.Keys == b.hosts.Keys
  {
    if offers != [] {
      var front, last := offers[..|offers| - 1], offers[|offers| - 1];
      assert offers == front + [last];
      BatchAccounted(p, c, reqs, logged, active, b, front);
      var m := ConsumeAll(p, c, reqs, b, front);
      var a := StepAccounted(p, c, reqs, logged, ActivatedBy(active, m.answers), m, last);
      ActivatedByConcat(active, m.answers, [a]);
    }
  }

  // ----- runs

  /** A task reports a terminal state only while it is active, and from the agent it runs on. */
  ghost predicate LegalWorld(u: Setup, w: World, e: Event) {
    Legal(u, w.sys, e) && (e.Terminal? ==> e.id in w.active && w.active[e.id] == e.agent)
  }

  ghost function NextWorld(u: Setup, w: World, e: Event): World
    requires LegalWorld(u, w, e)
  {
    var sys := System.Next(u, w.sys, e);
    match e
    case Offers(_, _, _) => World(sys, ActivatedBy(w.active, Consumed(u, w.sys, e).answers))
    case Terminal(id, _) => World(sys, w.active - {id})
  }

  /** The step that leads to world k. */
  ghost predicate WorldStepTo(u: Setup, worlds: seq<World>, events: seq<Event>, k: nat)
    requires 1 <= k <= |events| && |worlds| == |events| + 1
  {
    LegalWorld(u, worlds[k - 1], events[k - 1]) && worlds[k] == NextWorld(u, worlds[k - 1], events[k - 1])
  }

  ghost predicate WorldRun(u: Setup, worlds: seq<World>, events: seq<Event>) {
    |worlds| == |events| + 1 && forall k: nat :: 1 <= k <= |events| ==> WorldStepTo(u, worlds, events, k)
  }

  ghost predicate WorldInv(u: Setup, load: seq<Job>, w: World) {
    && Inv(u, load, w.sys) && DistinctNames(load) && Positive(load)
    && (forall id :: id in PendingIds(load) ==> id in u.reqs)
    && (forall id :: id in w.active ==> id in LoggedIds(w.sys.log))
    && Balanced(u.reqs, w.sys.hosts, w.active)
  }

  /** The batch as the policy finds it. */
  ghost function StartOf(u: Setup, sys: Sys, e: Event): Batch
    requires Legal(u, sys, e) && e.Offers?
  {
    var s := Switched(u, sys, e);
    Batch(e.sorted, s.counts[s.cur], Recorded(sys, e.offers), [])
  }

  lemma StartAccounted(u: Setup, load: seq<Job>, w: World, e: Event)
    requires WorldInv(u, load, w) && e.Offers? && LegalWorld(u, w, e)
    ensures Accounted(u.reqs, LoggedIds(w.sys.log), w.active, StartOf(u, w.sys, e))
    ensures forall o :: o in e.offers ==> o.agent in StartOf(u, w.sys, e).hosts
  {
    var sys, s := w.sys, Switched(u, w.sys, e);
    PreparedKeeps(s.cur, if u.cfg.enabled then s.inWindow else |sys.queue|, sys.queue, e.sorted);
    RecordBalanced(u.reqs, sys.hosts, w.active, e.offers);
    IdsUniqueIffNamesDistinct(load);
    assert PendingIds(e.sorted) + (LoggedIds(sys.log) + LoggedIds([])) == PendingIds(load);
  }

  lemma OffersKeepWorldInv(u: Setup, load: seq<Job>, w: World, e: Event)
    requires WorldInv(u, load, w) && e.Offers? && LegalWorld(u, w, e)
    ensures WorldInv(u, load, NextWorld(u, w, e))
  {
    var s, b := Switched(u, w.sys, e), Consumed(u, w.sys, e);
    NextKeepsInv(u, load, w.sys, e);
    StartAccounted(u, load, w, e);
    BatchAccounted(s.cur, Context(u, s), u.reqs, LoggedIds(w.sys.log), w.active, StartOf(u, w.sys, e), e.offers);
    LoggedIdsConcat(w.sys.log, b.answers);
  }

  lemma NextKeepsWorldInv(u: Setup, load: seq<Job>, w: World, e: Event, t: World)
    requires WorldInv(u, load, w) && LegalWorld(u, w, e) && t == NextWorld(u, w, e)
    ensures WorldInv(u, load, t)
  {
    if e.Offers? {
      OffersKeepWorldInv(u, load, w, e);
    } else {
      NextKeepsInv(u, load, w.sys, e);
      ReleaseBalanced(u.reqs, w.sys.hosts, w.active, e.id);
    }
  }

  lemma InitWorldInv(u: Setup, load: seq<Job>, w: World)
    requires Init(u, w.sys, load) && w.active == map[]
    ensures WorldInv(u, load, w)
  {
    assert LoggedIds(w.sys.log) == multiset{};
  }

  lemma StepKeepsWorldInv(u: Setup, load: seq<Job>, worlds: seq<World>, events: seq<Event>, k: nat)
    requires |worlds| == |events| + 1 && 1 <= k <= |events| && WorldStepTo(u, worlds, events, k) && WorldInv(u, load, worlds[k - 1])
    ensures WorldInv(u, load, worlds[k])
  {
    NextKeepsWorldInv(u, load, worlds[k - 1], events[k - 1], worlds[k]);
  }

  lemma {:induction false} RunKeepsWorldInv(u: Setup, load: seq<Job>, worlds: seq<World>, events: seq<Event>, k: nat)
    requires WorldRun(u, worlds, events) && Init(u, worlds[0].sys, load) && worlds[0].active == map[] && k < |worlds|
    ensures WorldInv(u, load, worlds[k])
  {
    if k == 0 {
      InitWorldInv(u, load, worlds[0]);
    } else {
      RunKeepsWorldInv(u, load, worlds, events, k - 1);
      StepKeepsWorldInv(u, load, worlds, events, k);
    }
  }

  /** In every state of every run an agent's unused amount is its total minus the needs of its active tasks. */
  lemma UnusedIsTotalMinusActive(u: Setup, load: seq<Job>, worlds: seq<World>, events: seq<Event>, k: nat, agent: string)
    requires WorldRun(u, worlds, events) && Init(u, worlds[0].sys, load) && worlds[0].active == map[] && k < |worlds|
    requires agent in worlds[k].sys.hosts
    ensures OnAgent(worlds[k].active, agent) <= u.reqs.Keys
    ensures var count := worlds[k].sys.hosts[agent];
            count.unused == count.total.Minus(SumOver(OnAgent(worlds[k].active, agent), u.reqs))
  {
    RunKeepsWorldInv(u, load, worlds, events, k);
  }

  // ----- the whole cluster

  lemma {:induction false} SumOverUnion(a: set<string>, b: set<string>, amounts: map<string, Res>)
    requires a <= amounts.Keys && b <= amounts.Keys && a !! b
    ensures SumOver(a + b, amounts) == SumOver(a, amounts).Plus(SumOver(b, amounts))
    decreases b
  {
    if b == {} {
      assert a + b == a;
    } else {
      var k :| k in b;
      assert a + b - {k} == a + (b - {k});
      SumOverAny(a + b, amounts, k);
      SumOverAny(b, amounts, k);
      SumOverUnion(a, b - {k}, amounts);
    }
  }

  /** The tasks active on some of the agents. */
  ghost function OnAgents(active: map<string, string>, agents: set<string>): set<string> {
    set id | id in active && active[id] in agents
  }

  lemma {:induction false} AgentsBalance(reqs: map<string, Res>, hosts: Hosts, active: map<string, string>, agents: set<string>)
    requires Balanced(reqs, hosts, active) && agents <= hosts.Keys
    ensures SumOver(agents, Unused(hosts)) == SumOver(agents, Totals(hosts)).Minus(SumOver(OnAgents(active, agents), reqs))
    decreases agents
  {
    if agents == {} {
      assert OnAgents(active, agents) == {};
    } else {
      var a :| a in agents;
      var rest := agents - {a};
      AgentsBalance(reqs, hosts, active, rest);
      SumOverAny(agents, Unused(hosts), a);
      SumOverAny(agents, Totals(hosts), a);
      OneMoreAgent(reqs, active, agents, a);
      Regroup(SumOver(rest, Totals(hosts)), SumOver(OnAgents(active, rest), reqs), hosts[a].total, SumOver(OnAgent(active, a), reqs));
    }
  }

  lemma OneMoreAgent(reqs: map<string, Res>, active: map<string, string>, agents: set<string>, a: string)
    requires active.Keys <= reqs.Keys && a in agents
    ensures SumOver(OnAgents(active, agents), reqs)
            == SumOver(OnAgents(active, agents - {a}), reqs).Plus(SumOver(OnAgent(active, a), reqs))
  {
    assert OnAgents(active, agents) == OnAgents(active, agents - {a}) + OnAgent(active, a);
    SumOverUnion(OnAgents(active, agents - {a}), OnAgent(active, a), reqs);
  }

  lemma Regroup(a: Res, b: Res, x: Res, y: Res)
    ensures a.Minus(b).Plus(x.Minus(y)) == a.Plus(x).Minus(b.Plus(y))
  {
  }

  /** What is unused in the cluster is what all agents have minus what all active tasks need. */
  lemma ClusterBalance(reqs: map<string, Res>, hosts: Hosts, active: map<string, string>)
    requires Balanced(reqs, hosts, active)
    ensures Clusterwide(hosts).unused == Clusterwide(hosts).total.Minus(SumOver(active.Keys, reqs))
    ensures Clusterwide(hosts).total == SumOver(hosts.Keys, Totals(hosts))
  {
    AgentsBalance(reqs, hosts, active, hosts.Keys);
    assert OnAgents(active, hosts.Keys) == active.Keys;
  }

  /** In every state of every run v pending instances fit, by CPU and RAM, what all agents have minus what all active tasks need,
      exactly when v is at most the window computed for the next batch. */
  lemma WindowFillsFree(u: Setup, load: seq<Job>, worlds: seq<World>, events: seq<Event>, k: nat, offers: seq<Offer>, v: nat)
    requires WorldRun(u, worlds, events) && Init(u, worlds[0].sys, load) && worlds[0].active == map[] && k < |worlds|
    requires forall s :: s in Flat(worlds[k].sys.queue) ==> s.cpu >= 0.0 && s.ram >= 0.0
    requires 1 <= v <= |Flat(worlds[k].sys.queue)|
    ensures worlds[k].active.Keys <= u.reqs.Keys
    ensures var flat, hosts := Flat(worlds[k].sys.queue), Recorded(worlds[k].sys, offers);
            var free := SumOver(hosts.Keys, Totals(hosts)).Minus(SumOver(worlds[k].active.Keys, u.reqs));
            SumBy(flat[..v], (s: Spec) => s.cpu) <= free.cpu && SumBy(flat[..v], (s: Spec) => s.ram) <= free.ram
            <==> v <= NewWindow(worlds[k].sys, offers)
  {
    var w := worlds[k];
    RunKeepsWorldInv(u, load, worlds, events, k);
    RecordBalanced(u.reqs, w.sys.hosts, w.active, offers);
    ClusterBalance(u.reqs, Recorded(w.sys, offers), w.active);
    WindowIsLargest(w.sys.queue, Clusterwide(Recorded(w.sys, offers)).unused, v);
  }

  // ----- no agent is overcommitted: CPU and RAM always, watts if they are metered

  /** Watts are a resource and the task is tested with its watts attribute, the one the tracker charges. */
  ghost predicate Metered(c: Ctx, spec: Spec) {
    c.wattsAsAResource && !(c.classMapWatts && spec.classWatts.Some?)
  }

  ghost predicate PickListed(metered: bool, c: Ctx, reqs: map<string, Res>, job: Job) {
    && job.n >= 1 && TaskId(job.spec.name, job.n) in reqs && reqs[TaskId(job.spec.name, job.n)] == Charge(job.spec)
    && (metered ==> Metered(c, job.spec))
  }

  ghost predicate QueueListed(metered: bool, c: Ctx, reqs: map<string, Res>, queue: seq<Job>) {
    && Positive(queue) && ListsAll(reqs, queue)
    && (metered ==> forall j :: j in queue ==> Metered(c, j.spec))
  }

  ghost predicate Listings(metered: bool, c: Ctx, reqs: map<string, Res>, f: Fill) {
    QueueListed(metered, c, reqs, f.queue) && forall j :: j in f.picks ==> PickListed(metered, c, reqs, j)
  }

  lemma TakeListings(metered: bool, reqs: map<string, Res>, c: Ctx, o: Offer, f: Fill, i: nat)
    requires Listings(metered, c, reqs, f) && i < |f.queue|
    ensures Listings(metered, c, reqs, Take(c, o, f, i))
  {
    var job := f.queue[i];
    assert job in f.queue;
    assert Lists(reqs, job);
    LaunchPositive(f.queue, i);
    LaunchReplaces(f.queue, i);
    forall j | j in Launch(f.queue, i)
      ensures Lists(reqs, j) && (metered ==> Metered(c, j.spec))
    {
      assert j in f.queue || j in Rest(job);
    }
  }

  lemma {:induction false} TakeAllListings(metered: bool, reqs: map<string, Res>, c: Ctx, o: Offer, f: Fill, taken: seq<nat>)
    requires Guarded(c, o, f, taken) && Listings(metered, c, reqs, f)
    ensures Listings(metered, c, reqs, TakeAll(c, o, f, taken))
    decreases |taken|
  {
    if taken != [] {
      TakeListings(metered, reqs, c, o, f, taken[0]);
      TakeAllListings(metered, reqs, c, o, Take(c, o, f, taken[0]), taken[1..]);
    }
  }

  /** What launching picks on one offer takes from its agent, and from nobody else. */
  lemma {:induction false} PicksCharged(metered: bool, reqs: map<string, Res>, hosts: Hosts, c: Ctx, o: Offer, picks: seq<Job>)
    requires o.agent in hosts && forall j :: j in picks ==> PickListed(metered, c, reqs, j)
    ensures var after := ActivateAll(hosts, reqs, Infos(c, o, picks));
            && after.Keys == hosts.Keys && (forall a :: a in hosts && a != o.agent ==> after[a] == hosts[a])
            && after[o.agent].unused.cpu == hosts[o.agent].unused.cpu - PickNeeds(c, o, picks).cpu
            && after[o.agent].unused.ram == hosts[o.agent].unused.ram - PickNeeds(c, o, picks).ram
            && (metered ==> after[o.agent].unused.watts == hosts[o.agent].unused.watts - PickNeeds(c, o, picks).watts)
  {
    if picks != [] {
      var front, last := picks[..|picks| - 1], picks[|picks| - 1];
      assert last in picks && picks == front + [last];
      PicksCharged(metered, reqs, hosts, c, o, front);
      assert Infos(c, o, picks)[..|front|] == Infos(c, o, front);
    }
  }

  ghost predicate AtLeastZero(metered: bool, amount: Res) {
    amount.cpu >= 0.0 && amount.ram >= 0.0 && (metered ==> amount.watts >= 0.0)
  }

  ghost predicate NoneNegative(metered: bool, hosts: Hosts) {
    forall a :: a in hosts ==> AtLeastZero(metered, hosts[a].unused)
  }

  /** The offer stays within what the tracker thinks its agent has left. */
  ghost predicate Covered(metered: bool, hosts: Hosts, o: Offer) {
    o.agent in hosts && AtLeastZero(metered, Agg(o)) && AtLeastZero(metered, hosts[o.agent].unused.Minus(Agg(o)))
  }

  /** The picks on an offer are listed and, if there are any, within the offer. */
  lemma ConsumeListed(metered: bool, p: Policy, c: Ctx, reqs: map<string, Res>, o: Offer, queue: seq<Job>, scheduled: int)
    requires QueueListed(metered, c, reqs, queue)
    ensures var f := Consume(p, c, o, queue, scheduled);
            && Listings(metered, c, reqs, f) && (f.picks != [] ==> Within(c, o, PickNeeds(c, o, f.picks)))
  {
    var taken := ConsumeTakes(p, c, o, queue, scheduled);
    TakeAllListings(metered, reqs, c, o, Fresh(queue, scheduled), taken);
    ConsumeProgress(p, c, o, queue, scheduled);
  }

  /** Only the offer's own agent changes, and it is not overcommitted. */
  lemma StepCovered(metered: bool, p: Policy, c: Ctx, reqs: map<string, Res>, b: Batch, o: Offer)
    requires QueueListed(metered, c, reqs, b.queue) && NoneNegative(metered, b.hosts) && Covered(metered, b.hosts, o)
    ensures var g := Step(p, c, reqs, b, o);
            && QueueListed(metered, c, reqs, g.queue) && NoneNegative(metered, g.hosts)
            && g.hosts.Keys == b.hosts.Keys && forall a :: a in b.hosts && a != o.agent ==> g.hosts[a] == b.hosts[a]
  {
    if b.queue != [] {
      ConsumeListed(metered, p, c, reqs, o, b.queue, b.scheduled);
      PicksCharged(metered, reqs, b.hosts, c, o, Consume(p, c, o, b.queue, b.scheduled).picks);
    }
  }

  /** No agent appears in two offers of the batch. */
  ghost predicate OnePerAgent(offers: seq<Offer>) {
    forall i, j :: 0 <= i < j < |offers| ==> offers[i].agent != offers[j].agent
  }

  lemma {:induction false} BatchCovered(metered: bool, p: Policy, c: Ctx, reqs: map<string, Res>, b: Batch, offers: seq<Offer>)
    requires QueueListed(metered, c, reqs, b.queue) && NoneNegative(metered, b.hosts)
    requires OnePerAgent(offers) && forall o :: o in offers ==> Covered(metered, b.hosts, o)
    ensures var g := ConsumeAll(p, c, reqs, b, offers);
            && QueueListed(metered, c, reqs, g.queue) && NoneNegative(metered, g.hosts) && g.hosts.Keys == b.hosts.Keys
            && forall a :: a in b.hosts && (forall o :: o in offers ==> o.agent != a) ==> g.hosts[a] == b.hosts[a]
  {
    if offers != [] {
      var front, last := offers[..|offers| - 1], offers[|offers| - 1];
      assert offers == front + [last];
      BatchCovered(metered, p, c, reqs, b, front);
      var m := ConsumeAll(p, c, reqs, b, front);
      forall o | o in front
        ensures o.agent != last.agent
      {
        var i :| 0 <= i < |front| && front[i] == o;
        assert offers[i] == o && offers[|front|] == last;
      }
      assert Covered(metered, b.hosts, last);
      StepCovered(metered, p, c, reqs, m, last);
    }
  }

  /** The offers of the batch do not exceed what the tracker has, one offer per agent. */
  ghost predicate Generous(metered: bool, u: Setup, sys: Sys, e: Event) {
    e.Offers? ==> OnePerAgent(e.offers) && forall o :: o in e.offers ==> Covered(metered, Recorded(sys, e.offers), o)
  }

  ghost predicate CoveredInv(metered: bool, u: Setup, sys: Sys) {
    QueueListed(metered, Context(u, sys.switch), u.reqs, sys.queue) && NoneNegative(metered, sys.hosts)
  }

  lemma {:induction false} RecordNoneNegative(metered: bool, hosts: Hosts, offers: seq<Offer>)
    requires NoneNegative(metered, hosts) && forall o :: o in offers ==> AtLeastZero(metered, Agg(o))
    ensures NoneNegative(metered, Record(hosts, offers))
  {
    if offers != [] {
      assert offers[|offers| - 1] in offers;
      RecordNoneNegative(metered, hosts, offers[..|offers| - 1]);
    }
  }

  lemma NextKeepsCovered(metered: bool, u: Setup, sys: Sys, e: Event)
    requires CoveredInv(metered, u, sys) && Legal(u, sys, e) && Generous(metered, u, sys, e)
    requires forall id :: id in u.reqs ==> AtLeastZero(metered, u.reqs[id])
    ensures CoveredInv(metered, u, System.Next(u, sys, e))
  {
    if e.Offers? {
      var s := Switched(u, sys, e);
      PreparedKeeps(s.cur, if u.cfg.enabled then s.inWindow else |sys.queue|, sys.queue, e.sorted);
      forall j | j in e.sorted
        ensures j in sys.queue
      {
        assert j in multiset(sys.queue);
      }
      forall o | o in e.offers
        ensures AtLeastZero(metered, Agg(o))
      {
        assert Covered(metered, Recorded(sys, e.offers), o);
      }
      RecordNoneNegative(metered, sys.hosts, e.offers);
      BatchCovered(metered, s.cur, Context(u, s), u.reqs, Batch(e.sorted, s.counts[s.cur], Recorded(sys, e.offers), []), e.offers);
    }
  }

  /** If no offer exceeds its agent's unused amounts and no batch has two offers of one agent, then no agent's unused CPU or
      RAM is ever negative; and if every task is metered, neither are unused watts. */
  lemma {:induction false} NeverOvercommitted(metered: bool, u: Setup, load: seq<Job>, states: seq<Sys>, events: seq<Event>, k: nat)
    requires Run(u, states, events) && Init(u, states[0], load) && k < |states|
    requires metered ==> forall j :: j in load ==> Metered(Context(u, states[0].switch), j.spec)
    requires forall id :: id in u.reqs ==> AtLeastZero(metered, u.reqs[id])
    requires forall t :: 0 <= t < |events| ==> Generous(metered, u, states[t], events[t])
    ensures NoneNegative(metered, states[k].hosts) && CoveredInv(metered, u, states[k])
  {
    if k > 0 {
      NeverOvercommitted(metered, u, load, states, events, k - 1);
      assert StepTo(u, states, events, k);
      NextKeepsCovered(metered, u, states[k - 1], events[k - 1]);
    }
  }

  /** The other way round: one task charged by class, first-fit, and the first offer of an agent. The task fits by its class
      watts, the offer has less than its watts attribute, and the tracker charges that attribute. */
  lemma ClassWattsOvercommit(c: Ctx, reqs: map<string, Res>, o: Offer, job: Job, b: Batch)
    requires c.wattsAsAResource && c.classMapWatts && !c.switching && job.n == 1 && Placeable(c, o, ZERO, job.spec)
    requires Lists(reqs, job) && AtLeastZero(true, Agg(o)) && Agg(o).watts < job.spec.watts
    requires b == Batch([job], 0, Record(map[], [o]), [])
    ensures Covered(true, b.hosts, o) && NoneNegative(true, b.hosts)
    ensures !NoneNegative(true, Step(FirstFit, c, reqs, b, o).hosts)
  {
    assert [o][..0] == [];
    var f := Fresh([job], 0);
    FirstStep(c, o, f, 0);
    var infos := Infos(c, o, [job]);
    assert infos[..0] == [] && infos == [Info(c, o, job)];
    assert f.picks + [job] == [job];
    assert TaskId(job.spec.name, 1) in reqs && reqs[TaskId(job.spec.name, 1)].watts == job.spec.watts;
    assert b.hosts == map[o.agent := Count(Agg(o), Agg(o))];
    assert ActivateAll(b.hosts, reqs, infos) == Activate(b.hosts, reqs, TaskId(job.spec.name, 1), o.agent);
    assert Step(FirstFit, c, reqs, b, o).hosts == ActivateAll(b.hosts, reqs, infos);
    assert Step(FirstFit, c, reqs, b, o).hosts[o.agent].unused.watts == Agg(o).watts - job.spec.watts;
  }
}
