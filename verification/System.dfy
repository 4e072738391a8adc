/** The whole scheduler over a run: offers arrive in batches, tasks end, policies switch.
    Scheduler.dfy proves that its methods make exactly these steps. */
module System {
  import opened Workload
  import opened TaskIds
  import opened Packing
  import opened Tracking
  import opened Batches
  import opened Switching
  import opened Window

  datatype Setup = Setup(wattsAsAResource: bool, classMapWatts: bool, cfg: Config, reqs: map<string, Res>)

  datatype Sys = Sys(queue: seq<Job>, switch: Switch, hosts: Hosts, log: seq<Answer>)

  /** A callback of the driver. `nearest` and `sorted` are what the task-distribution criterion and the sort of the
      queue came to. */
  datatype Event =
    | Offers(offers: seq<Offer>, nearest: Policy, sorted: seq<Job>)
    | Terminal(id: string, agent: string)

  ghost function Context(u: Setup, s: Switch): Ctx {
    Ctx(u.wattsAsAResource, u.classMapWatts, u.cfg.enabled, s.window)
  }

  ghost predicate SortedByWatts(queue: seq<Job>) {
    forall i, j :: 0 <= i < j < |queue| ==> queue[i].spec.watts <= queue[j].spec.watts
  }

  /** What a policy does to the queue before it consumes: first-fit nothing, the others sort its first n entries. */
  ghost predicate PreparedBy(p: Policy, n: nat, before: seq<Job>, after: seq<Job>) {
    if p == FirstFit then after == before
    else && n <= |before| && |after| == |before|
         && after[n..] == before[n..] && multiset(after[..n]) == multiset(before[..n]) && SortedByWatts(after[..n])
  }

  /** With switching on only the tasks of the window are sorted, otherwise all. */
  ghost predicate Prepared(u: Setup, s: Switch, before: seq<Job>, after: seq<Job>) {
    PreparedBy(s.cur, if u.cfg.enabled then s.inWindow else |before|, before, after)
  }

  // ----- one batch of offers

  /** The tracker after a batch arrived, before anything is launched. */
  ghost function Recorded(sys: Sys, offers: seq<Offer>): Hosts {
    Record(sys.hosts, offers)
  }

  ghost function NewWindow(sys: Sys, offers: seq<Offer>): nat {
    WindowSize(sys.queue, Clusterwide(Recorded(sys, offers)).unused)
  }

  ghost predicate SwitchDefined(u: Setup, sys: Sys, e: Event)
    requires e.Offers? && Counted(sys.switch)
  {
    Defined(u.cfg, sys.switch, NewWindow(sys, e.offers), e.nearest)
  }

  ghost function Switched(u: Setup, sys: Sys, e: Event): Switch
    requires e.Offers? && Counted(sys.switch) && SwitchDefined(u, sys, e)
  {
    var w := NewWindow(sys, e.offers);
    SwitchStep(u.cfg, sys.switch, w, Cover(sys.queue, w, 0), e.nearest)
  }

  ghost function Consumed(u: Setup, sys: Sys, e: Event): Batch
    requires e.Offers? && Counted(sys.switch) && SwitchDefined(u, sys, e)
  {
    var s := Switched(u, sys, e);
    ConsumeAll(s.cur, Context(u, s), u.reqs, Batch(e.sorted, s.counts[s.cur], Recorded(sys, e.offers), []), e.offers)
  }

  ghost predicate Legal(u: Setup, sys: Sys, e: Event) {
    && Counted(sys.switch)
    && (e.Offers? ==> SwitchDefined(u, sys, e) && Prepared(u, Switched(u, sys, e), sys.queue, e.sorted))
  }

  ghost function Next(u: Setup, sys: Sys, e: Event): Sys
    requires Legal(u, sys, e)
  {
    match e
    case Offers(offers, _, _) =>
      var s, b := Switched(u, sys, e), Consumed(u, sys, e);
      Sys(b.queue, s.(counts := s.counts[s.cur := b.scheduled], received := true), b.hosts, sys.log + b.answers)
    case Terminal(id, agent) => sys.(hosts := Release(sys.hosts, u.reqs, id, agent))
  }

  /** A batch in the order the scheduler goes through it: record, switch, prepare, consume. */
  lemma BatchIsNext(u: Setup, sys: Sys, e: Event, s: Switch, b: Batch)
    requires e.Offers? && Counted(sys.switch) && SwitchDefined(u, sys, e) && s == Switched(u, sys, e)
    requires Counted(s) && Prepared(u, s, sys.queue, e.sorted)
    requires b == ConsumeAll(s.cur, Context(u, s), u.reqs, Batch(e.sorted, s.counts[s.cur], Recorded(sys, e.offers), []), e.offers)
    ensures Legal(u, sys, e)
    ensures Next(u, sys, e)
            == Sys(b.queue, s.(counts := s.counts[s.cur := b.scheduled], received := true), b.hosts, sys.log + b.answers)
  {
  }

  lemma ReorderedNames(p: Policy, n: nat, before: seq<Job>, after: seq<Job>)
    requires PreparedBy(p, n, before, after) && Positive(before) && DistinctNames(before)
    ensures DistinctNames(after) && Positive(after)
  {
    PreparedKeeps(p, n, before, after);
    IdsUniqueIffNamesDistinct(before);
    IdsUniqueIffNamesDistinct(after);
  }

  /** Names stay distinct through a batch. */
  lemma BatchNames(p: Policy, c: Ctx, reqs: map<string, Res>, b: Batch, offers: seq<Offer>)
    requires Positive(b.queue) && DistinctNames(b.queue) && b.answers == []
    ensures DistinctNames(ConsumeAll(p, c, reqs, b, offers).queue) && Positive(ConsumeAll(p, c, reqs, b, offers).queue)
  {
    var g := ConsumeAll(p, c, reqs, b, offers);
    ConsumeAllProgress(p, c, reqs, b, offers);
    IdsUniqueIffNamesDistinct(b.queue);
    IdsUniqueIffNamesDistinct(g.queue);
    assert LoggedIds(b.answers) == multiset{};
    forall id | id in PendingIds(g.queue)
      ensures PendingIds(g.queue)[id] == 1
    {
      assert (PendingIds(g.queue) + LoggedIds(g.answers))[id] == PendingIds(b.queue)[id];
    }
  }

  /** And so they do when the queue is prepared before. */
  lemma PreparedBatchNames(p: Policy, n: nat, before: seq<Job>, c: Ctx, reqs: map<string, Res>, b: Batch, offers: seq<Offer>)
    requires PreparedBy(p, n, before, b.queue) && Positive(before) && DistinctNames(before) && b.answers == []
    ensures DistinctNames(ConsumeAll(p, c, reqs, b, offers).queue)
  {
    ReorderedNames(p, n, before, b.queue);
    BatchNames(p, c, reqs, b, offers);
  }

  // ----- runs

  ghost predicate Init(u: Setup, sys: Sys, load: seq<Job>) {
    && sys.queue == load && sys.log == [] && sys.hosts == map[]
    && Positive(load) && DistinctNames(load)
    && ListsAll(u.reqs, load) && (forall id :: id in u.reqs <==> id in PendingIds(load))
    && Counted(sys.switch) && (forall p: Policy :: sys.switch.counts[p] == 0) && sys.switch.window >= 0
    && sys.switch.inWindow == 0 && !sys.switch.received
  }

  /** The callback that leads to state k. */
  ghost predicate StepTo(u: Setup, states: seq<Sys>, events: seq<Event>, k: nat)
    requires 1 <= k <= |events| && |states| == |events| + 1
  {
    Legal(u, states[k - 1], events[k - 1]) && states[k] == Next(u, states[k - 1], events[k - 1])
  }

  /** The callbacks between two states. */
  ghost predicate Run(u: Setup, states: seq<Sys>, events: seq<Event>) {
    |states| == |events| + 1 && forall k: nat :: 1 <= k <= |events| ==> StepTo(u, states, events, k)
  }

  /** Exactly-once launching and the switching discipline, as one invariant. */
  ghost predicate Inv(u: Setup, load: seq<Job>, sys: Sys) {
    && Positive(sys.queue)
    && PendingIds(sys.queue) + LoggedIds(sys.log) == PendingIds(load)
    && SwitchInv(u.cfg, sys.switch)
  }

  lemma PreparedKeeps(p: Policy, n: nat, before: seq<Job>, after: seq<Job>)
    requires PreparedBy(p, n, before, after) && Positive(before)
    ensures Positive(after) && multiset(after) == multiset(before) && PendingIds(after) == PendingIds(before)
  {
    if p != FirstFit {
      assert before == before[..n] + before[n..] && after == after[..n] + after[n..];
    }
    PendingIdsReordered(before, after);
    forall j | j in after
      ensures j.n >= 1
    {
      assert j in multiset(before);
    }
  }

  /** What a batch does to the ids and to the count of the deployed policy. */
  lemma BatchConserves(u: Setup, sys: Sys, e: Event)
    requires e.Offers? && Positive(sys.queue) && Legal(u, sys, e) && Counted(Switched(u, sys, e))
    ensures var s, b, t := Switched(u, sys, e), Consumed(u, sys, e), Next(u, sys, e);
            && Positive(t.queue)
            && PendingIds(t.queue) + LoggedIds(t.log) == PendingIds(sys.queue) + LoggedIds(sys.log)
            && |LoggedIds(t.log)| - |LoggedIds(sys.log)| == b.scheduled - s.counts[s.cur] >= 0
            && (u.cfg.enabled && s.counts[s.cur] <= s.window ==> b.scheduled <= s.window)
  {
    var s, b := Switched(u, sys, e), Consumed(u, sys, e);
    var start := Batch(e.sorted, s.counts[s.cur], Recorded(sys, e.offers), []);
    PreparedKeeps(s.cur, if u.cfg.enabled then s.inWindow else |sys.queue|, sys.queue, e.sorted);
    ConsumeAllProgress(s.cur, Context(u, s), u.reqs, start, e.offers);
    LoggedIdsConcat(sys.log, b.answers);
    IdsMove(PendingIds(b.queue), LoggedIds(b.answers), PendingIds(sys.queue), LoggedIds(sys.log));
  }

  lemma ConsumptionKeepsInv(cfg: Config, s: Switch, scheduled: int)
    requires SwitchInv(cfg, s) && s.counts[s.cur] <= scheduled && (cfg.enabled ==> scheduled <= s.window)
    ensures SwitchInv(cfg, s.(counts := s.counts[s.cur := scheduled], received := true))
  {
  }

  lemma NextKeepsInv(u: Setup, load: seq<Job>, sys: Sys, e: Event)
    requires Inv(u, load, sys) && Legal(u, sys, e)
    ensures Inv(u, load, Next(u, sys, e))
  {
    if e.Offers? {
      var w := NewWindow(sys, e.offers);
      SwitchKeepsInv(u.cfg, sys.switch, w, Cover(sys.queue, w, 0), e.nearest);
      var s, b := Switched(u, sys, e), Consumed(u, sys, e);
      BatchConserves(u, sys, e);
      ConsumptionKeepsInv(u.cfg, s, b.scheduled);
      assert Next(u, sys, e).switch == s.(counts := s.counts[s.cur := b.scheduled], received := true);
    }
  }

  lemma InitInv(u: Setup, load: seq<Job>, sys: Sys)
    requires Init(u, sys, load)
    ensures Inv(u, load, sys)
  {
    assert LoggedIds(sys.log) == multiset{};
  }

  lemma RunStep(u: Setup, states: seq<Sys>, events: seq<Event>, k: nat)
    requires Run(u, states, events) && k < |events|
    ensures Legal(u, states[k], events[k]) && states[k + 1] == Next(u, states[k], events[k])
  {
    assert StepTo(u, states, events, k + 1);
  }

  lemma RunKeepsInv(u: Setup, load: seq<Job>, states: seq<Sys>, events: seq<Event>, k: nat)
    requires Run(u, states, events) && Init(u, states[0], load) && k < |states|
    ensures Inv(u, load, states[k])
  {
    InitInv(u, load, states[0]);
    InvStays(u, load, states, events, k);
  }

  lemma {:induction false} InvStays(u: Setup, load: seq<Job>, states: seq<Sys>, events: seq<Event>, k: nat)
    requires Run(u, states, events) && Inv(u, load, states[0]) && k < |states|
    ensures Inv(u, load, states[k])
  {
    if k > 0 {
      InvStays(u, load, states, events, k - 1);
      EventKeepsInv(u, load, states, events, k - 1);
    }
  }

  lemma EventKeepsInv(u: Setup, load: seq<Job>, states: seq<Sys>, events: seq<Event>, k: nat)
    requires Run(u, states, events) && k < |events| && Inv(u, load, states[k])
    ensures Inv(u, load, states[k + 1])
  {
    RunStep(u, states, events, k);
    NextKeepsInv(u, load, states[k], events[k]);
  }

  /** In every state of every run, whatever the offers, the policies and the switches: launched and pending ids
      together are the ids of the workload, no id occurs twice, and the queue is empty (which is when Shutdown
      is closed) exactly when every id has been launched. */
  lemma ExactlyOnce(u: Setup, load: seq<Job>, states: seq<Sys>, events: seq<Event>, k: nat)
    requires Run(u, states, events) && Init(u, states[0], load) && k < |states|
    ensures var launched, pending := LoggedIds(states[k].log), PendingIds(states[k].queue);
            && launched + pending == PendingIds(load)
            && NoDuplicates(launched) && NoDuplicates(pending) && launched !! pending
            && (states[k].queue == [] <==> launched == PendingIds(load))
  {
    RunKeepsInv(u, load, states, events, k);
    IdsUniqueIffNamesDistinct(load);
    Split(LoggedIds(states[k].log), PendingIds(states[k].queue), PendingIds(load));
    var queue := states[k].queue;
    if queue != [] {
      assert queue[0] in queue;
      FirstInstancePending(queue, 0);
    }
  }

  /** Two parts of a duplicate-free whole. */
  lemma Split(a: multiset<string>, b: multiset<string>, whole: multiset<string>)
    requires b + a == whole && NoDuplicates(whole)
    ensures a + b == whole && NoDuplicates(a) && NoDuplicates(b) && a !! b
    ensures b == multiset{} <==> a == whole
  {
    forall id
      ensures a[id] + b[id] == whole[id] <= 1
    {
    }
    if a == whole {
      forall id
        ensures b[id] == 0
      {
      }
      assert b == multiset{};
    }
  }

  /** With switching on, the deployed policy has scheduled at most the window since its count was reset, and the
      count of every other policy is zero. */
  lemma WindowRespected(u: Setup, load: seq<Job>, states: seq<Sys>, events: seq<Event>, k: nat, p: Policy)
    requires Run(u, states, events) && Init(u, states[0], load) && k < |states| && u.cfg.enabled
    ensures p in states[k].switch.counts
    ensures 0 <= states[k].switch.counts[p] <= if p == states[k].switch.cur then states[k].switch.window else 0
  {
    RunKeepsInv(u, load, states, events, k);
  }

  // ----- switching never gets stuck, and sorting is always possible

  ghost predicate Safe(u: Setup, s: Switch) {
    Configurable(u.cfg, s.cur, s.window, s.received)
  }

  /** If the criterion is the task distribution over a table, or only listed policies get deployed to stay, then in every
      state of every run a switch finds a policy, whatever the offers and whatever the classification of the tasks. */
  lemma {:induction false} SwitchAlwaysDefined(u: Setup, load: seq<Job>, states: seq<Sys>, events: seq<Event>, k: nat, e: Event)
    requires Run(u, states, events) && Init(u, states[0], load) && k < |states|
    requires Safe(u, states[0].switch) && e.Offers?
    ensures Counted(states[k].switch) && Safe(u, states[k].switch) && SwitchDefined(u, states[k], e)
  {
    RunKeepsInv(u, load, states, events, k);
    if k > 0 {
      SwitchAlwaysDefined(u, load, states, events, k - 1, e);
      assert StepTo(u, states, events, k);
      NextConfigurable(u, states[k - 1], events[k - 1]);
    }
    DefinedWhenConfigurable(u, states[k], e);
  }

  lemma DefinedWhenConfigurable(u: Setup, sys: Sys, e: Event)
    requires e.Offers? && Counted(sys.switch) && Safe(u, sys.switch)
    ensures SwitchDefined(u, sys, e) && Safe(u, Switched(u, sys, e).(received := true))
  {
    var w := NewWindow(sys, e.offers);
    ConfigurableDefined(u.cfg, sys.switch, w, Cover(sys.queue, w, 0), e.nearest);
  }

  lemma NextConfigurable(u: Setup, sys: Sys, e: Event)
    requires Legal(u, sys, e) && Safe(u, sys.switch)
    ensures Safe(u, Next(u, sys, e).switch)
  {
    if e.Offers? {
      DefinedWhenConfigurable(u, sys, e);
    }
  }

  /** Where switching is on, the slice of tasks that a policy sorts never exceeds the queue. */
  lemma SortPrefixLegal(u: Setup, load: seq<Job>, states: seq<Sys>, events: seq<Event>, k: nat, e: Event)
    requires Run(u, states, events) && Init(u, states[0], load) && k < |states|
    requires u.cfg.enabled && e.Offers?
    ensures Counted(states[k].switch)
    ensures SwitchDefined(u, states[k], e) ==> Switched(u, states[k], e).inWindow <= |states[k].queue|
  {
    RunKeepsInv(u, load, states, events, k);
  }

  /** With a fixed window the number of tasks in the window is never computed, so no policy ever sorts the queue. */
  lemma FixedWindowNeverSorts(u: Setup, load: seq<Job>, states: seq<Sys>, events: seq<Event>, k: nat)
    requires Run(u, states, events) && Init(u, states[0], load) && k < |events|
    requires u.cfg.enabled && u.cfg.fixed && events[k].Offers?
    ensures events[k].sorted == states[k].queue
  {
    RunKeepsInv(u, load, states, events, k);
    RunStep(u, states, events, k);
    assert events[k].sorted[0..] == events[k].sorted && states[k].queue[0..] == states[k].queue;
  }

  // ----- the window between two switches

  /** Event e makes the scheduler switch. */
  ghost predicate Switches(u: Setup, sys: Sys, e: Event) {
    e.Offers? && Counted(sys.switch) && Due(u.cfg, sys.switch, NewWindow(sys, e.offers))
  }

  /** From state a to state b the deployed policy and its window stay and every launch is counted. */
  ghost predicate SameDeployment(a: Sys, b: Sys) {
    && Counted(a.switch) && Counted(b.switch)
    && b.switch.cur == a.switch.cur && b.switch.window == a.switch.window
    && |LoggedIds(b.log)| - |LoggedIds(a.log)| == b.switch.counts[b.switch.cur] - a.switch.counts[a.switch.cur]
  }

  lemma {:induction false} LaunchesCounted(u: Setup, load: seq<Job>, states: seq<Sys>, events: seq<Event>, i: nat, k: nat)
    requires Run(u, states, events) && Init(u, states[0], load) && i <= k < |states|
    requires u.cfg.enabled && forall t :: i <= t < k ==> !Switches(u, states[t], events[t])
    ensures SameDeployment(states[i], states[k])
    decreases k - i
  {
    if i == k {
      RunKeepsInv(u, load, states, events, i);
    } else {
      LaunchesCounted(u, load, states, events, i, k - 1);
      EventCounted(u, load, states, events, k - 1);
      DeploymentTrans(states[i], states[k - 1], states[k]);
    }
  }

  lemma EventCounted(u: Setup, load: seq<Job>, states: seq<Sys>, events: seq<Event>, k: nat)
    requires Run(u, states, events) && Init(u, states[0], load) && k < |events|
    requires u.cfg.enabled && !Switches(u, states[k], events[k])
    ensures SameDeployment(states[k], states[k + 1])
  {
    RunKeepsInv(u, load, states, events, k);
    RunStep(u, states, events, k);
    StepCounted(u, load, states[k], events[k]);
  }

  lemma DeploymentTrans(a: Sys, b: Sys, d: Sys)
    requires SameDeployment(a, b) && SameDeployment(b, d)
    ensures SameDeployment(a, d)
  {
  }

  lemma StepCounted(u: Setup, load: seq<Job>, sys: Sys, e: Event)
    requires Inv(u, load, sys) && Legal(u, sys, e) && u.cfg.enabled && !Switches(u, sys, e)
    ensures SameDeployment(sys, Next(u, sys, e))
  {
    if e.Offers? {
      BatchConserves(u, sys, e);
    }
  }

  /** As long as nothing is switched, no more than the window is launched. */
  lemma LaunchesWithoutSwitch(u: Setup, load: seq<Job>, states: seq<Sys>, events: seq<Event>, i: nat, k: nat)
    requires Run(u, states, events) && Init(u, states[0], load) && i <= k < |states|
    requires u.cfg.enabled && forall t :: i <= t < k ==> !Switches(u, states[t], events[t])
    ensures |LoggedIds(states[k].log)| - |LoggedIds(states[i].log)| <= states[k].switch.window
  {
    LaunchesCounted(u, load, states, events, i, k);
    WindowRespected(u, load, states, events, i, states[i].switch.cur);
    WindowRespected(u, load, states, events, k, states[k].switch.cur);
  }
}
