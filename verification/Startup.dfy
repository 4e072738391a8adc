/** Building a scheduler: from a workload and a configuration to the first state of the run model.
    Models scheduler.go, as far as the scheduler is concerned, and buildScheduler of schedulers/store.go. */
module Startup {
  import opened Workload
  import opened TaskIds
  import opened Packing
  import opened Tracking
  import opened Switching
  import opened System
  import opened Scheduler

  /** The queue as a value. */
  method Denote(ts: seq<Task>) returns (queue: seq<Job>)
    ensures queue == Jobs(ts)
  {
    queue := [];
    for i := 0 to |ts|
      invariant queue == Jobs(ts)[..i]
    {
      queue := queue + [Job(ts[i].spec, ts[i].instances.n)];
    }
  }

  /** The factory's four policies. */
  method NewPolicies() returns (policies: map<Policy, PolicyState>)
    ensures Factory(policies) && Unlinked([], policies) && fresh(policies.Values)
    ensures forall p: Policy :: policies[p].numTasksScheduled == 0
  {
    var ff := new PolicyState(FirstFit);
    var bp := new PolicyState(BinPacking);
    var mgm := new PolicyState(MaxGreedyMins);
    var mm := new PolicyState(MaxMin);
    policies := map[FirstFit := ff, BinPacking := bp, MaxGreedyMins := mgm, MaxMin := mm];
    forall p: Policy
      ensures p in policies && policies[p].kind == p
    {
      match p case FirstFit => case BinPacking => case MaxGreedyMins => case MaxMin =>
    }
  }

  /** The configuration lets every switch find a policy. */
  ghost predicate Switchworthy(config: map<Policy, real>, fixed: bool, criteria: Criteria, first: Option<Policy>, start: Policy,
                               window: nat) {
    || (fixed && window == 0)
    || if criteria.TaskDist? then exists p: Policy :: Configured(config, p) != 0.0
       else && (exists p: Policy :: Configured(config, p) != 0.0)
            && (first.Some? ==> Configured(config, first.value) != 0.0)
            && (!fixed ==> Configured(config, start) != 0.0)
  }

  lemma SwitchworthyIsConfigurable(config: map<Policy, real>, cfg: Config, start: Policy, window: nat)
    requires IsTable(cfg.table, config)
    requires cfg.enabled ==> Switchworthy(config, cfg.fixed, cfg.criteria, cfg.first, start, window)
    ensures Configurable(cfg, start, window, false)
  {
    if cfg.enabled && !NeverDue(cfg, window) {
      var p: Policy :| Configured(config, p) != 0.0;
      assert Listed(cfg.table, p);
    }
  }

  /** A scheduler as it comes out of its constructor, over linked policies that have scheduled nothing. */
  ghost predicate JustMade(s: BaseScheduler, driver: Driver, load: seq<Job>)
    reads s, driver, s.tracker`perHost, s.policies.Values`numTasksScheduled
  {
    && s.pending == load && s.schedWindowSize >= 0 && s.numTasksInSchedWindow == 0 && !s.hasReceivedResourceOffers
    && driver.calls == [] && s.tracker.perHost == map[]
    && forall p :: p in s.policies ==> s.policies[p].numTasksScheduled == 0
  }

  lemma StartsRun(s: BaseScheduler, driver: Driver, load: seq<Job>)
    requires JustMade(s, driver, load) && Factory(s.policies) && Positive(load) && DistinctNames(load)
    requires ListsAll(s.tracker.reqs, load) && forall id :: id in s.tracker.reqs <==> id in PendingIds(load)
    ensures Init(s.Settings(), s.Abs(driver), load)
  {
    assert s.tracker.View() == map[];
  }

  lemma JobsPositive(ts: seq<Task>)
    requires forall i :: 0 <= i < |ts| ==> ts[i].instances.n >= 1
    ensures Positive(Jobs(ts))
  {
  }

  /** The scheduler, its tracker and the driver over policies that are ready. */
  method Assemble(ts: seq<Task>, start: Policy, policies: map<Policy, PolicyState>, reqs: map<string, Res>,
                  wattsAsAResource: bool, classMapWatts: bool, cfg: Config, window: nat)
    returns (s: BaseScheduler, driver: Driver)
    requires |ts| > 0 && Separate(ts) && DistinctNames(Jobs(ts)) && forall i :: 0 <= i < |ts| ==> ts[i].instances.n >= 1
    requires AllConfigured(ts, classMapWatts) || (!cfg.enabled && start == FirstFit)
    requires Factory(policies) && forall p: Policy :: policies[p].numTasksScheduled == 0
    requires Distinct(cfg.table) && Sorted(cfg.table) && Linked(cfg.table, policies) && Unlinked(cfg.table, policies)
    requires Configurable(cfg, start, window, false)
    ensures s.Valid() && s.curSchedPolicy.kind == start && s.cfg == cfg && s.policies == policies && s.tracker.reqs == reqs
    ensures s.wattsAsAResource == wattsAsAResource && s.classMapWatts == classMapWatts && s.schedWindowSize == window
    ensures JustMade(s, driver, old(Jobs(ts)))
  {
    ghost var load := Jobs(ts);
    var tracker := new Tracker(reqs);
    s := new BaseScheduler(ts, start, policies, tracker, wattsAsAResource, classMapWatts, cfg, window);
    driver := new Driver();
    assert s.pending == load;
  }

  /** The requirement table, and the policies with their switch table and links. */
  method Prepare(ts: seq<Task>, config: map<Policy, real>, order: seq<Policy>)
    returns (reqs: map<string, Res>, policies: map<Policy, PolicyState>, table: seq<Entry>)
    requires DistinctNames(Jobs(ts)) && Iteration(order)
    ensures ListsAll(reqs, Jobs(ts)) && forall id :: id in reqs <==> id in PendingIds(Jobs(ts))
    ensures Factory(policies) && forall p: Policy :: policies[p].numTasksScheduled == 0
    ensures IsTable(table, config) && Linked(table, policies) && Unlinked(table, policies)
  {
    var queue := Denote(ts);
    reqs := InitTaskResourceRequirements(queue);
    policies := NewPolicies();
    table := InitSchedPolicyCharacteristics(policies, config, order);
    assert Jobs(ts) == queue;
  }

  /** Elektron starting up. What comes out is valid and an initial state of the run model. */
  method Start(ts: seq<Task>, start: Policy, config: map<Policy, real>, order: seq<Policy>, wattsAsAResource: bool,
               classMapWatts: bool, enabled: bool, fixed: bool, first: Option<Policy>, criteria: Criteria, window: nat)
    returns (s: BaseScheduler, driver: Driver)
    requires |ts| > 0 && Separate(ts) && DistinctNames(Jobs(ts)) && Iteration(order)
    requires forall i :: 0 <= i < |ts| ==> ts[i].instances.n >= 1
    requires AllConfigured(ts, classMapWatts) || (!enabled && start == FirstFit)
    requires enabled ==> Switchworthy(config, fixed, criteria, first, start, window)
    ensures s.Valid() && IsTable(s.cfg.table, config) && s.curSchedPolicy.kind == start && s.schedWindowSize == window
    ensures s.cfg.enabled == enabled && s.cfg.fixed == fixed && s.cfg.first == first && s.cfg.criteria == criteria
    ensures s.wattsAsAResource == wattsAsAResource && s.classMapWatts == classMapWatts
    ensures Init(s.Settings(), s.Abs(driver), old(Jobs(ts)))
  {
    ghost var load := Jobs(ts);
    JobsPositive(ts);
    var reqs, policies, table := Prepare(ts, config, order);
    var cfg := Config(enabled, fixed, first, criteria, table);
    SwitchworthyIsConfigurable(config, cfg, start, window);
    s, driver := Assemble(ts, start, policies, reqs, wattsAsAResource, classMapWatts, cfg, window);
    StartsRun(s, driver, load);
  }
}
