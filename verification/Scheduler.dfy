/** The scheduler object: how its policies consume offers, step by step and in place.
    Models schedulers/base.go, first-fit.go, bin-packing.go, MaxGreedyMins.go, MaxMin.go and helpers.go. */
module Scheduler {
  import opened Sorting
  import opened Workload
  import opened TaskIds
  import opened Packing
  import opened Tracking
  import opened Batches
  import opened Switching
  import opened Window
  import opened Clusters
  import opened Distribution
  import opened System
  import opened Deployments

  /** The Mesos driver, as far as offers are concerned: it remembers what it was told. */
  class Driver {
    var calls: seq<Answer>

    constructor ()
      ensures calls == []
    {
      calls := [];
    }

    method LaunchTasks(offerId: string, tasks: seq<TaskInfo>)
      modifies this
      ensures calls == old(calls) + [Launched(offerId, tasks)]
    {
      calls := calls + [Launched(offerId, tasks)];
    }

    method DeclineOffer(offerId: string, filter: Filter)
      modifies this
      ensures calls == old(calls) + [Declined(offerId, filter)]
    {
      calls := calls + [Declined(offerId, filter)];
    }
  }

  ghost predicate Separate(ts: seq<Task>) {
    forall i, j :: 0 <= i < j < |ts| ==> ts[i].instances != ts[j].instances
  }

  lemma JobsAre(ts: seq<Task>, queue: seq<Job>)
    requires |queue| == |ts| && forall i :: 0 <= i < |ts| ==> queue[i] == Job(ts[i].spec, ts[i].instances.n)
    ensures Jobs(ts) == queue
  {
  }

  lemma JobsWithout(ts: seq<Task>, k: nat)
    requires k < |ts|
    ensures Jobs(Without(ts, k)) == Without(Jobs(ts), k)
  {
    var queue := Without(Jobs(ts), k);
    WithoutAt(ts, k);
    WithoutAt(Jobs(ts), k);
    JobsAre(Without(ts, k), queue);
  }

  lemma {:induction false} JobsReordered(a: seq<Task>, b: seq<Task>)
    requires multiset(a) == multiset(b)
    ensures multiset(Jobs(a)) == multiset(Jobs(b))
  {
    if a == [] {
      assert |multiset(b)| == 0;
    } else {
      var k, rest := Matching(a, b);
      JobsReordered(a[1..], rest);
      assert a[1..] == Without(a, 0);
      JobsWithout(a, 0);
      JobsWithout(b, k);
      MultisetWithout(Jobs(a), 0);
      MultisetWithout(Jobs(b), k);
    }
  }

  lemma JobsConcat(a: seq<Task>, b: seq<Task>)
    ensures Jobs(a + b) == Jobs(a) + Jobs(b)
  {
  }

  /** Sorting the first n tasks, as it shows in what the queue denotes. */
  lemma SortedQueue(before: seq<Task>, n: nat, sorted: seq<Task>, key: Task -> real)
    requires n <= |before| && multiset(sorted) == multiset(before[..n]) && |sorted| == n && Separate(before)
    requires SortedBy(sorted, key) && forall t: Task :: key(t) == t.spec.watts
    ensures Separate(sorted + before[n..]) && multiset(sorted + before[n..]) == multiset(before)
    ensures PreparedBy(MaxMin, n, Jobs(before), Jobs(sorted + before[n..]))
    ensures forall i :: 0 <= i < |before| ==> (sorted + before[n..])[i] in before
  {
    var after := sorted + before[n..];
    assert before == before[..n] + before[n..];
    JobsConcat(before[..n], before[n..]);
    JobsConcat(sorted, before[n..]);
    JobsReordered(before[..n], sorted);
    DistinctReordered(before, after, (t: Task) => t.instances);
    forall i, j | 0 <= i < j < n
      ensures Jobs(sorted)[i].spec.watts <= Jobs(sorted)[j].spec.watts
    {
      assert key(sorted[i]) <= key(sorted[j]);
    }
    forall i | 0 <= i < |before|
      ensures after[i] in before
    {
      assert after[i] in multiset(before);
    }
  }

  /** No task makes the watts lookup fail. */
  ghost predicate AllConfigured(ts: seq<Task>, classMapWatts: bool) {
    forall i :: 0 <= i < |ts| ==> WattsConfigured(ts[i].spec, classMapWatts)
  }

  ghost predicate Ready(ts: seq<Task>, counters: set<Counter>)
    reads set t | t in ts :: t.instances
  {
    forall i :: 0 <= i < |ts| ==> ts[i].instances in counters && ts[i].instances.n >= 1
  }

  lemma StillReady(ts: seq<Task>, sorted: seq<Task>, counters: set<Counter>, classMapWatts: bool)
    requires Ready(ts, counters) && forall i :: 0 <= i < |sorted| ==> sorted[i] in ts
    ensures Ready(sorted, counters) && (AllConfigured(ts, classMapWatts) ==> AllConfigured(sorted, classMapWatts))
  {
  }

  method SortTasks(ts: seq<Task>, n: nat) returns (sorted: seq<Task>)
    requires n <= |ts| && Separate(ts)
    ensures Separate(sorted) && |sorted| == |ts| && PreparedBy(MaxMin, n, Jobs(ts), Jobs(sorted))
    ensures forall i :: 0 <= i < |sorted| ==> sorted[i] in ts
  {
    var key := (t: Task) => t.spec.watts;
    var front := Sort(ts[..n], key);
    sorted := front + ts[n..];
    SortedQueue(ts, n, front, key);
  }

  class BaseScheduler {
    const wattsAsAResource: bool
    const classMapWatts: bool
    const cfg: Config
    const policies: map<Policy, PolicyState>
    const tracker: Tracker
    ghost const counters: set<Counter>
    ghost const configured: bool

    var curSchedPolicy: PolicyState
    var tasksCreated: int
    var tasks: seq<Task>
    var shutdown: bool
    var schedWindowSize: int
    var numTasksInSchedWindow: nat
    var hasReceivedResourceOffers: bool
    ghost var pending: seq<Job>

    constructor (ts: seq<Task>, start: Policy, policies: map<Policy, PolicyState>, tracker: Tracker,
                 wattsAsAResource: bool, classMapWatts: bool, cfg: Config, window: nat)
      requires |ts| > 0 && Factory(policies)
      requires forall i, j :: 0 <= i < j < |ts| ==> ts[i].instances != ts[j].instances
      requires forall i :: 0 <= i < |ts| ==> ts[i].instances.n >= 1
      ensures Queued() && pending == Jobs(ts) && tasks == ts && curSchedPolicy == policies[start]
      ensures this.policies == policies && this.tracker == tracker && this.cfg == cfg
      ensures this.wattsAsAResource == wattsAsAResource && this.classMapWatts == classMapWatts
      ensures schedWindowSize == window && numTasksInSchedWindow == 0 && !hasReceivedResourceOffers && !shutdown
      ensures counters == (set t | t in ts :: t.instances) && configured == AllConfigured(ts, classMapWatts)
    {
      this.wattsAsAResource, this.classMapWatts, this.cfg := wattsAsAResource, classMapWatts, cfg;
      this.policies, this.tracker := policies, tracker;
      counters, configured := set t | t in ts :: t.instances, AllConfigured(ts, classMapWatts);
      curSchedPolicy := policies[start];
      tasksCreated, tasks, shutdown := 0, ts, false;
      schedWindowSize, numTasksInSchedWindow, hasReceivedResourceOffers := window, 0, false;
      pending := Jobs(ts);
    }

    /** The queue denotes `pending`, no two tasks share a counter, and Shutdown is closed when nothing is left. */
    ghost predicate Queued()
      reads this`tasks, this`pending, this`shutdown, counters
    {
      && |pending| == |tasks|
      && (forall i :: 0 <= i < |tasks| ==> tasks[i].instances in counters)
      && (forall i :: 0 <= i < |tasks| ==> pending[i] == Job(tasks[i].spec, tasks[i].instances.n))
      && (forall i, j :: 0 <= i < j < |tasks| ==> tasks[i].instances != tasks[j].instances)
      && (forall i :: 0 <= i < |tasks| ==> tasks[i].instances.n >= 1)
      && (configured ==> AllConfigured(tasks, classMapWatts))
      && (shutdown <==> tasks == [])
    }

    /** The settings under a given window. */
    ghost function At(window: int): Ctx {
      Ctx(wattsAsAResource, classMapWatts, cfg.enabled, window)
    }

    method NewTask(offer: Offer, task: Task) returns (info: TaskInfo)
      modifies this`tasksCreated
      ensures tasksCreated == old(tasksCreated) + 1
      ensures info == Info(At(schedWindowSize), offer, Job(task.spec, task.instances.n))
      ensures info.cpu == task.spec.cpu && info.ram == task.spec.ram && (!wattsAsAResource ==> info.watts == None)
    {
      tasksCreated := tasksCreated + 1;
      var watts: Option<real> := None;
      if wattsAsAResource {
        var wattsToConsider := WattsToConsider(task.spec, classMapWatts, offer);
        if !wattsToConsider.failed {
          watts := Some(wattsToConsider.value);
        }
      }
      info := TaskInfo(TaskId(task.spec.name, Number(task.instances.n)), offer.agent, task.spec.cpu, task.spec.ram, watts);
    }

    /** A failing watts lookup ends the process here. */
    method TakeOffer(offer: Offer, spec: Spec, used: Res) returns (fits: bool)
      requires WattsConfigured(spec, classMapWatts)
      ensures fits <==> Fits(At(schedWindowSize), offer, used, spec)
    {
      var cpus, mem, watts := OfferAgg(offer);
      var wattsConsideration := WattsToConsider(spec, classMapWatts, offer);
      if wattsConsideration.failed {
        assert false;
      }
      fits := cpus >= used.cpu + spec.cpu && mem >= used.ram + spec.ram
              && (!wattsAsAResource || watts >= used.watts + wattsConsideration.value);
    }

    /** First-fit looks at the untouched offer, and goes on after a failing watts lookup. */
    method TakeWholeOffer(offer: Offer, spec: Spec) returns (fits: bool)
      ensures fits <==> Fits(At(schedWindowSize), offer, ZERO, spec)
    {
      var cpus, mem, watts := OfferAgg(offer);
      var wattsConsideration := WattsToConsider(spec, classMapWatts, offer).value;
      fits := cpus >= spec.cpu && mem >= spec.ram && (!wattsAsAResource || watts >= wattsConsideration);
    }

    /** Closing a closed channel would panic. */
    method CloseShutdown()
      requires !shutdown
      modifies this`shutdown
      ensures shutdown
    {
      shutdown := true;
    }

    /** The part every policy shares once an instance was put on an offer: one instance less, removal of a task
        that has none left, and closing Shutdown when that empties the queue. */
    method Commit(p: PolicyState, i: nat, task: Task)
      requires Queued() && i < |tasks| && tasks[i] == task
      modifies this`tasks, this`pending, this`shutdown, p`numTasksScheduled, task.instances
      ensures Queued() && pending == Launch(old(pending), i)
      ensures p.numTasksScheduled == old(p.numTasksScheduled) + 1
      ensures task.instances.n == old(task.instances.n) - 1
      ensures task.instances.n >= 1 ==> tasks == old(tasks)
    {
      task.instances.n := task.instances.n - 1;
      p.numTasksScheduled := p.numTasksScheduled + 1;
      pending := Launch(pending, i);
      if task.instances.n <= 0 {
        tasks := tasks[..i] + tasks[i + 1..];
        if |tasks| <= 0 {
          CloseShutdown();
        }
      }
    }

    /** If the task fits the rest of the offer, one instance is launched and charged to the totals. */
    method CheckFit(p: PolicyState, i: nat, task: Task, wattsConsideration: real, offer: Offer, used: Res)
      returns (taken: bool, info: Option<TaskInfo>, total: Res)
      requires Queued() && configured && i < |tasks| && tasks[i] == task
      requires wattsConsideration == WattsToConsider(task.spec, classMapWatts, offer).value
      modifies this`tasks, this`pending, this`shutdown, this`tasksCreated, p`numTasksScheduled, counters
      ensures Queued() && (taken <==> Fits(At(schedWindowSize), offer, used, task.spec))
      ensures !taken ==> pending == old(pending) && tasks == old(tasks) && total == used
                         && p.numTasksScheduled == old(p.numTasksScheduled) && task.instances.n == old(task.instances.n)
      ensures taken ==> pending == Launch(old(pending), i) && total == used.Plus(Need(At(schedWindowSize), offer, task.spec))
                        && info == Some(Info(At(schedWindowSize), offer, old(pending)[i]))
                        && p.numTasksScheduled == old(p.numTasksScheduled) + 1
                        && task.instances.n == old(task.instances.n) - 1
                        && (task.instances.n >= 1 ==> tasks == old(tasks))
    {
      total, info := used, None;
      taken := TakeOffer(offer, task.spec, used);
      if taken {
        total := Res(used.cpu + task.spec.cpu, used.ram + task.spec.ram, used.watts + wattsConsideration);
        var taskToSchedule := NewTask(offer, task);
        info := Some(taskToSchedule);
        Commit(p, i, task);
      }
    }

    lemma InfosMore(c: Ctx, o: Offer, picks: seq<Job>, job: Job)
      ensures Infos(c, o, picks + [job]) == Infos(c, o, picks) + [Info(c, o, job)]
    {
    }

    // ----- one offer under each policy

    /** The result of a policy on one offer. */
    ghost predicate Filled(p: PolicyState, infos: seq<TaskInfo>, o: Offer, goal: Fill)
      reads this`pending, this`schedWindowSize, p`numTasksScheduled
    {
      pending == goal.queue && p.numTasksScheduled == goal.scheduled && infos == Infos(At(schedWindowSize), o, goal.picks)
    }

    /** The totals and the launched tasks agree with the value f. */
    ghost predicate Tracks(p: PolicyState, offer: Offer, used: Res, infos: seq<TaskInfo>, f: Fill)
      reads this`pending, this`schedWindowSize, p`numTasksScheduled
    {
      && f.queue == pending && f.scheduled == p.numTasksScheduled && f.used == used
      && infos == Infos(At(schedWindowSize), offer, f.picks)
    }

    /** CheckFit, with the launched task added to the offer's tasks. */
    method Place(p: PolicyState, i: nat, task: Task, offer: Offer, used0: Res, infos0: seq<TaskInfo>, ghost f: Fill)
      returns (taken: bool, used: Res, infos: seq<TaskInfo>)
      requires Queued() && configured && i < |tasks| && tasks[i] == task && Tracks(p, offer, used0, infos0, f)
      modifies this`tasks, this`pending, this`shutdown, this`tasksCreated, p`numTasksScheduled, counters
      ensures Queued() && (taken <==> Fits(At(schedWindowSize), offer, f.used, task.spec))
      ensures !taken ==> Tracks(p, offer, used, infos, f) && tasks == old(tasks) && task.instances.n == old(task.instances.n)
      ensures taken ==> Tracks(p, offer, used, infos, Take(At(schedWindowSize), offer, f, i))
                        && task.instances.n == old(task.instances.n) - 1
                        && (task.instances.n >= 1 ==> tasks == old(tasks))
    {
      infos := infos0;
      InfosMore(At(schedWindowSize), offer, f.picks, f.queue[i]);
      var wattsConsideration := WattsToConsider(task.spec, classMapWatts, offer).value;
      var info;
      taken, info, used := CheckFit(p, i, task, wattsConsideration, offer, used0);
      if taken {
        infos := infos0 + [info.value];
      }
    }

    method FillMaxMin(p: PolicyState, offer: Offer) returns (infos: seq<TaskInfo>)
      requires Queued() && configured
      modifies this`tasks, this`pending, this`shutdown, this`tasksCreated, p`numTasksScheduled, counters
      ensures Queued() && Filled(p, infos, offer, Consume(MaxMin, At(schedWindowSize), offer, old(pending), old(p.numTasksScheduled)))
    {
      ghost var c := At(schedWindowSize);
      ghost var s := Cursors(Fresh(pending, p.numTasksScheduled), 0, 0, false, true);
      ghost var goal := Scan(c, offer, s.f, s.i, s.index, s.direction, s.start);
      infos := [];
      var used := ZERO;
      var direction, start := false, true;
      var index := 0;
      var i := 0;
      while i < |tasks|
        invariant Queued() && s.i == i && s.index == index && s.direction == direction && s.start == start
        invariant Tracks(p, offer, used, infos, s.f)
        invariant CursorOk(|s.f.queue|, s.i, s.index, s.direction, s.start)
        invariant Scan(c, offer, s.f, s.i, s.index, s.direction, s.start) == goal
        decreases Total(s.f.queue), |s.f.queue| - s.i
      {
        if cfg.enabled && p.numTasksScheduled >= schedWindowSize {
          break;
        }
        ghost var t := Try(c, offer, s);
        ScanTry(c, offer, s, t);
        if direction && start {
          index := 0;
        } else if start {
          index := |tasks| - i - 1;
        }
        TryCases(c, offer, s, index, t);
        var task := tasks[index];
        if HostMismatch(offer.hostname, task.spec.host) {
          i := i + 1;
          s := t;
          continue;
        }
        var taken;
        taken, used, infos := Place(p, index, task, offer, used, infos, s.f);
        if taken {
          direction := !direction;
          start := true;
        } else {
          if direction {
            index := index + 1;
          } else {
            index := index - 1;
          }
          start := false;
          i := i + 1;
        }
        s := t;
      }
    }

    /** Launches instances of one task while it has any, the window is open and the offer has room. */
    method DrainTask(p: PolicyState, i: nat, task: Task, offer: Offer, used0: Res, infos0: seq<TaskInfo>, ghost f0: Fill)
      returns (used: Res, infos: seq<TaskInfo>)
      requires Queued() && configured && i < |tasks| && tasks[i] == task && Tracks(p, offer, used0, infos0, f0)
      modifies this`tasks, this`pending, this`shutdown, this`tasksCreated, p`numTasksScheduled, counters
      ensures Queued() && Tracks(p, offer, used, infos, Drain(At(schedWindowSize), offer, f0, i))
    {
      ghost var c := At(schedWindowSize);
      ghost var f := f0;
      used, infos := used0, infos0;
      while task.instances.n > 0
        invariant Queued() && Tracks(p, offer, used, infos, f)
        invariant task.instances.n > 0 ==> i < |tasks| && tasks[i] == task && Drain(c, offer, f, i) == Drain(c, offer, f0, i)
        invariant task.instances.n <= 0 ==> f == Drain(c, offer, f0, i)
        decreases task.instances.n
      {
        if cfg.enabled && p.numTasksScheduled >= schedWindowSize {
          DrainStop(c, offer, f, i);
          break;
        }
        var taken;
        taken, used, infos := Place(p, i, task, offer, used, infos, f);
        if !taken {
          DrainStop(c, offer, f, i);
          break;
        }
        ghost var t := Take(c, offer, f, i);
        DrainTake(c, offer, f, i, t);
        f := t;
      }
    }

    /** The pass from the lightest task up, shared by bin-packing and max-greedymins. */
    method GreedyPass(p: PolicyState, offer: Offer, used0: Res, infos0: seq<TaskInfo>, ghost f0: Fill)
      returns (infos: seq<TaskInfo>)
      requires Queued() && configured && Tracks(p, offer, used0, infos0, f0)
      modifies this`tasks, this`pending, this`shutdown, this`tasksCreated, p`numTasksScheduled, counters
      ensures Queued() && Filled(p, infos, offer, Greedy(At(schedWindowSize), offer, f0, 0))
    {
      ghost var c := At(schedWindowSize);
      ghost var goal := Greedy(c, offer, f0, 0);
      ghost var f := f0;
      var used := used0;
      infos := infos0;
      var i := 0;
      while i < |tasks|
        invariant 0 <= i && Queued() && Tracks(p, offer, used, infos, f)
        invariant Greedy(c, offer, f, i) == goal
        decreases |f.queue| - i
      {
        var task := tasks[i];
        GreedyStep(c, offer, f, i);
        if HostMismatch(offer.hostname, task.spec.host) {
          i := i + 1;
          continue;
        }
        used, infos := DrainTask(p, i, task, offer, used, infos, f);
        f := Drain(c, offer, f, i);
        i := i + 1;
      }
    }

    method FillBinPacking(p: PolicyState, offer: Offer) returns (infos: seq<TaskInfo>)
      requires Queued() && configured
      modifies this`tasks, this`pending, this`shutdown, this`tasksCreated, p`numTasksScheduled, counters
      ensures Queued() && Filled(p, infos, offer, Consume(BinPacking, At(schedWindowSize), offer, old(pending), old(p.numTasksScheduled)))
    {
      infos := GreedyPass(p, offer, ZERO, [], Fresh(pending, p.numTasksScheduled));
    }

    method FillMaxGreedyMins(p: PolicyState, offer: Offer) returns (infos: seq<TaskInfo>)
      requires Queued() && configured
      modifies this`tasks, this`pending, this`shutdown, this`tasksCreated, p`numTasksScheduled, counters
      ensures Queued() && Filled(p, infos, offer, Consume(MaxGreedyMins, At(schedWindowSize), offer, old(pending), old(p.numTasksScheduled)))
    {
      ghost var c := At(schedWindowSize);
      ghost var f := Fresh(pending, p.numTasksScheduled);
      ghost var goal := Heaviest(c, offer, f, |pending|);
      infos := [];
      var used := ZERO;
      var i := |tasks| - 1;
      while i >= 0
        invariant -1 <= i < |tasks| && Queued() && Tracks(p, offer, used, infos, f)
        invariant Heaviest(c, offer, f, i + 1) == goal
      {
        if cfg.enabled && p.numTasksScheduled >= schedWindowSize {
          break;
        }
        var task := tasks[i];
        HeaviestStep(c, offer, f, i + 1);
        if HostMismatch(offer.hostname, task.spec.host) {
          i := i - 1;
          continue;
        }
        var taken;
        taken, used, infos := Place(p, i, task, offer, used, infos, f);
        if taken {
          f := Take(c, offer, f, i);
          break;
        }
        i := i - 1;
      }
      assert f == goal;
      infos := GreedyPass(p, offer, used, infos, f);
    }

    method FillFirstFit(p: PolicyState, offer: Offer) returns (infos: seq<TaskInfo>)
      requires Queued()
      modifies this`tasks, this`pending, this`shutdown, this`tasksCreated, p`numTasksScheduled, counters
      ensures Queued() && Filled(p, infos, offer, Consume(FirstFit, At(schedWindowSize), offer, old(pending), old(p.numTasksScheduled)))
    {
      ghost var c := At(schedWindowSize);
      ghost var f := Fresh(pending, p.numTasksScheduled);
      ghost var goal := First(c, offer, f, 0);
      infos := [];
      for i := 0 to |tasks|
        invariant Queued() && tasks == old(tasks) && Tracks(p, offer, ZERO, infos, f) && f == Fresh(old(pending), old(p.numTasksScheduled))
        invariant First(c, offer, f, i) == goal
      {
        if cfg.enabled && p.numTasksScheduled >= schedWindowSize {
          break;
        }
        var task := tasks[i];
        FirstStep(c, offer, f, i);
        if HostMismatch(offer.hostname, task.spec.host) {
          continue;
        }
        var fits := TakeWholeOffer(offer, task.spec);
        if fits {
          InfosMore(c, offer, f.picks, f.queue[i]);
          var taskToSchedule := NewTask(offer, task);
          infos := infos + [taskToSchedule];
          Commit(p, i, task);
          return;
        }
      }
    }

    // ----- a batch of offers

    /** Sorts the first n tasks of the queue by watts. */
    method SortNTasks(n: nat)
      requires Queued() && n <= |tasks|
      modifies this`tasks, this`pending
      ensures Queued() && PreparedBy(MaxMin, n, old(pending), pending)
    {
      assert pending == Jobs(tasks);
      var sorted := SortTasks(tasks, n);
      ghost var queue := Jobs(sorted);
      StillReady(tasks, sorted, counters, classMapWatts);
      tasks := sorted;
      pending := queue;
    }

    /** Tells the driver and the tracker about the tasks launched on an offer. */
    method LaunchTasks(driver: Driver, offerId: string, infos: seq<TaskInfo>)
      requires tracker.Valid()
      modifies driver, tracker.perHost.Values`unused
      ensures driver.calls == old(driver.calls) + [Launched(offerId, infos)]
      ensures tracker.Valid() && tracker.View() == ActivateAll(old(tracker.View()), tracker.reqs, infos)
    {
      driver.LaunchTasks(offerId, infos);
      for k := 0 to |infos|
        invariant tracker.Valid() && tracker.View() == ActivateAll(old(tracker.View()), tracker.reqs, infos[..k])
        invariant driver.calls == old(driver.calls) + [Launched(offerId, infos)]
      {
        assert infos[..k + 1][..k] == infos[..k];
        tracker.OnTaskActive(infos[k].id, infos[k].agent);
      }
      assert infos[..|infos|] == infos;
    }

    /** The state of a batch. */
    ghost function BatchView(driver: Driver, p: PolicyState, since: nat): Batch
      reads this`pending, p`numTasksScheduled, driver, tracker`perHost, tracker.perHost.Values`total, tracker.perHost.Values`unused
      requires since <= |driver.calls|
    {
      Batch(pending, p.numTasksScheduled, tracker.View(), driver.calls[since..])
    }

    /** First-fit can do without watts. */
    ghost predicate CanUse(p: PolicyState) {
      p.kind == FirstFit || configured
    }

    method FillOffer(p: PolicyState, offer: Offer) returns (infos: seq<TaskInfo>)
      requires Queued() && CanUse(p)
      modifies this`tasks, this`pending, this`shutdown, this`tasksCreated, p`numTasksScheduled, counters
      ensures Queued() && Filled(p, infos, offer, Consume(p.kind, At(schedWindowSize), offer, old(pending), old(p.numTasksScheduled)))
    {
      match p.kind {
        case FirstFit => infos := FillFirstFit(p, offer);
        case BinPacking => infos := FillBinPacking(p, offer);
        case MaxGreedyMins => infos := FillMaxGreedyMins(p, offer);
        case MaxMin => infos := FillMaxMin(p, offer);
      }
    }

    /** An offer is launched on if there is something to launch, else declined. */
    method AnswerOffer(driver: Driver, offerId: string, infos: seq<TaskInfo>)
      requires tracker.Valid()
      modifies driver, tracker.perHost.Values`unused
      ensures tracker.Valid() && tracker.View() == ActivateAll(old(tracker.View()), tracker.reqs, infos)
      ensures driver.calls == old(driver.calls) + [AnswerFor(offerId, infos)]
    {
      if infos != [] {
        LaunchTasks(driver, offerId, infos);
      } else {
        driver.DeclineOffer(offerId, Default);
      }
    }

    /** An offer while tasks are pending: the policy fills it and it is answered. */
    method FillAndAnswer(p: PolicyState, driver: Driver, offer: Offer)
      requires Queued() && CanUse(p) && tracker.Valid() && !shutdown
      modifies this`tasks, this`pending, this`shutdown, this`tasksCreated, p`numTasksScheduled, counters
      modifies driver, tracker.perHost.Values`unused
      ensures Queued() && tracker.Valid()
      ensures var c := At(schedWindowSize);
              var g := Consume(p.kind, c, offer, old(pending), old(p.numTasksScheduled));
              var infos := Infos(c, offer, g.picks);
              && pending == g.queue && p.numTasksScheduled == g.scheduled
              && tracker.View() == ActivateAll(old(tracker.View()), tracker.reqs, infos)
              && driver.calls == old(driver.calls) + [AnswerFor(offer.id, infos)]
    {
      ghost var view := tracker.View();
      var infos := FillOffer(p, offer);
      assert tracker.View() == view;
      AnswerOffer(driver, offer.id, infos);
    }

    /** One offer: declined for long once Shutdown is closed, otherwise filled by the policy. */
    method ConsumeOffer(p: PolicyState, driver: Driver, offer: Offer, ghost since: nat)
      requires Queued() && CanUse(p) && tracker.Valid() && since <= |driver.calls|
      modifies this`tasks, this`pending, this`shutdown, this`tasksCreated, p`numTasksScheduled, counters
      modifies driver, tracker.perHost.Values`unused
      ensures Queued() && tracker.Valid() && since <= |driver.calls| && driver.calls[..since] == old(driver.calls[..since])
      ensures BatchView(driver, p, since)
              == Step(p.kind, At(schedWindowSize), tracker.reqs, old(BatchView(driver, p, since)), offer)
    {
      ghost var before := BatchView(driver, p, since);
      if shutdown {
        driver.DeclineOffer(offer.id, Long);
      } else {
        ghost var c := At(schedWindowSize);
        ghost var infos := Infos(c, offer, Consume(p.kind, c, offer, pending, p.numTasksScheduled).picks);
        FillAndAnswer(p, driver, offer);
        FilledStep(p.kind, c, tracker.reqs, before, offer, infos);
      }
    }

    /** The queue is prepared for the policy. */
    method SortQueue(p: PolicyState)
      requires Queued() && (cfg.enabled && p.kind != FirstFit ==> numTasksInSchedWindow <= |tasks|)
      modifies this`tasks, this`pending
      ensures Queued()
      ensures PreparedBy(p.kind, if cfg.enabled then numTasksInSchedWindow else |old(pending)|, old(pending), pending)
    {
      if p.kind != FirstFit {
        if cfg.enabled {
          SortNTasks(numTasksInSchedWindow);
        } else {
          SortNTasks(|tasks|);
        }
      }
    }

    method ConsumeEach(p: PolicyState, driver: Driver, offers: seq<Offer>, ghost since: nat)
      requires Queued() && CanUse(p) && tracker.Valid() && since == |driver.calls|
      modifies this`tasks, this`pending, this`shutdown, this`tasksCreated, p`numTasksScheduled, counters
      modifies driver, tracker.perHost.Values`unused
      ensures Queued() && tracker.Valid() && since <= |driver.calls| && driver.calls[..since] == old(driver.calls)
      ensures BatchView(driver, p, since)
              == ConsumeAll(p.kind, At(schedWindowSize), tracker.reqs, old(BatchView(driver, p, since)), offers)
    {
      ghost var start := BatchView(driver, p, since);
      ghost var c := At(schedWindowSize);
      for k := 0 to |offers|
        invariant Queued() && tracker.Valid() && since <= |driver.calls| && driver.calls[..since] == old(driver.calls)
        invariant BatchView(driver, p, since) == ConsumeAll(p.kind, c, tracker.reqs, start, offers[..k])
      {
        assert offers[..k + 1][..k] == offers[..k];
        ConsumeOffer(p, driver, offers[k], since);
      }
      assert offers[..|offers|] == offers;
    }

    /** ConsumeOffers of the deployed policy. `sorted` is the queue as the policy found it after sorting. */
    method ConsumeOffers(p: PolicyState, driver: Driver, offers: seq<Offer>) returns (ghost sorted: seq<Job>)
      requires Queued() && CanUse(p) && tracker.Valid() && (cfg.enabled && p.kind != FirstFit ==> numTasksInSchedWindow <= |tasks|)
      modifies this`tasks, this`pending, this`shutdown, this`tasksCreated, p`numTasksScheduled, counters
      modifies driver, tracker.perHost.Values`unused
      ensures Queued() && tracker.Valid() && |old(driver.calls)| <= |driver.calls|
      ensures driver.calls[..|old(driver.calls)|] == old(driver.calls)
      ensures PreparedBy(p.kind, if cfg.enabled then numTasksInSchedWindow else |old(pending)|, old(pending), sorted)
      ensures BatchView(driver, p, |old(driver.calls)|)
              == ConsumeAll(p.kind, At(schedWindowSize), tracker.reqs,
                            Batch(sorted, old(p.numTasksScheduled), old(tracker.View()), []), offers)
    {
      SortQueue(p);
      sorted := pending;
      ghost var since := |driver.calls|;
      assert driver.calls[since..] == [] && driver.calls[..since] == driver.calls;
      assert BatchView(driver, p, since) == Batch(sorted, old(p.numTasksScheduled), old(tracker.View()), []);
      ConsumeEach(p, driver, offers, since);
    }

    // ----- switching and the driver's callbacks

    ghost function Settings(): Setup {
      Setup(wattsAsAResource, classMapWatts, cfg, tracker.reqs)
    }

    ghost function Counts(): map<Policy, int>
      reads policies.Values`numTasksScheduled
    {
      map p | p in policies :: policies[p].numTasksScheduled
    }

    ghost function SwitchView(): Switch
      reads this`curSchedPolicy, this`schedWindowSize, this`numTasksInSchedWindow, this`hasReceivedResourceOffers
      reads policies.Values`numTasksScheduled
    {
      Switch(curSchedPolicy.kind, Counts(), schedWindowSize, numTasksInSchedWindow, hasReceivedResourceOffers)
    }

    /** The value the scheduler, its policies, its tracker and the driver stand for. */
    ghost function Abs(driver: Driver): Sys
      reads this, policies.Values, tracker`perHost, tracker.perHost.Values`total, tracker.perHost.Values`unused, driver
    {
      Sys(pending, SwitchView(), tracker.View(), driver.calls)
    }

    /** Listed policies have their neighbours in the table as links, others have none. */
    ghost predicate LinksOk()
      requires Factory(policies)
      reads policies.Values`nextPolicyName, policies.Values`prevPolicyName
    {
      Linked(cfg.table, policies) && Unlinked(cfg.table, policies)
    }

    /** The policies are the factory's, the deployed one is among them, and they are linked along a sorted table. */
    ghost predicate WellLinked()
      reads this`curSchedPolicy
      reads policies.Values`nextPolicyName, policies.Values`prevPolicyName
    {
      && Factory(policies) && curSchedPolicy == policies[curSchedPolicy.kind]
      && Distinct(cfg.table) && Sorted(cfg.table) && LinksOk()
    }

    /** A due switch has somewhere to go. */
    ghost predicate Switchable()
      reads this`curSchedPolicy, this`numTasksInSchedWindow, this`schedWindowSize, this`hasReceivedResourceOffers
      reads policies.Values`nextPolicyName, policies.Values`prevPolicyName
    {
      && WellLinked() && Configurable(cfg, curSchedPolicy.kind, schedWindowSize, hasReceivedResourceOffers)
      && (cfg.fixed ==> numTasksInSchedWindow == 0)
    }

    /** The next batch will find a policy to switch to. */
    ghost predicate LastsOneBatch()
      reads this`curSchedPolicy, this`schedWindowSize
    {
      Configurable(cfg, curSchedPolicy.kind, schedWindowSize, true)
    }

    ghost predicate Valid()
      reads this, counters, tracker`perHost
      reads policies.Values`nextPolicyName, policies.Values`prevPolicyName
    {
      && Queued() && DistinctNames(pending) && Switchable() && tracker.Valid()
      && (configured || (!cfg.enabled && curSchedPolicy.kind == FirstFit))
    }

    /** The queue as a value: what reading the counters of all tasks gives. */
    method Snapshot() returns (queue: seq<Job>)
      requires Queued()
      ensures queue == pending
    {
      queue := [];
      for i := 0 to |tasks|
        invariant queue == pending[..i]
      {
        queue := queue + [Job(tasks[i].spec, tasks[i].instances.n)];
      }
    }

    /** The k-means outcome speaks about every pending task, and of two clusters only. */
    ghost predicate Classifies(km: KMeans)
      reads this`pending
    {
      |km.labels| >= |pending| && forall l :: l in km.labels ==> l < 2
    }

    /** The name of the policy that the switching criterion asks for. */
    method SwitchBasedOn(km: KMeans) returns (target: Option<Policy>, ghost nearest: Policy)
      requires Queued() && DistinctNames(pending) && WellLinked() && schedWindowSize >= 1 && Classifies(km)
      requires cfg.criteria.TaskDist? ==> |cfg.table| > 0
      requires !hasReceivedResourceOffers ==> cfg.first.None?
      ensures target == Target(cfg, SwitchView(), nearest)
      ensures cfg.criteria.TaskDist? ==> target == Some(nearest)
      ensures cfg.criteria.TaskDist? ==> target.Some? && Suits(cfg.table, schedWindowSize, pending, km, target.value)
    {
      nearest := BinPacking;
      match cfg.criteria {
        case TaskDist =>
          var queue := Snapshot();
          assert Positive(queue);
          var ratio := GetTaskDistributionInWindow(schedWindowSize, queue, km);
          var p := SwitchTaskDistBased(cfg.table, ratio);
          nearest := p;
          target := Some(p);
        case RoundRobin =>
          if !hasReceivedResourceOffers {
            target := if |cfg.table| == 0 then None else Some(cfg.table[0].policy);
          } else {
            target := curSchedPolicy.nextPolicyName;
            if Listed(cfg.table, curSchedPolicy.kind) {
              assert LinkedAt(cfg.table, policies, Position(cfg.table, curSchedPolicy.kind));
            }
          }
        case RevRoundRobin =>
          if !hasReceivedResourceOffers {
            target := if |cfg.table| == 0 then None else Some(cfg.table[|cfg.table| - 1].policy);
          } else {
            target := curSchedPolicy.prevPolicyName;
            if Listed(cfg.table, curSchedPolicy.kind) {
              assert LinkedAt(cfg.table, policies, Position(cfg.table, curSchedPolicy.kind));
            }
          }
      }
    }

    /** Deploys the target and resets the count of the policy deployed so far. */
    method Deploy(target: Option<Policy>)
      requires Factory(policies) && curSchedPolicy == policies[curSchedPolicy.kind] && target.Some?
      modifies this`curSchedPolicy, curSchedPolicy`numTasksScheduled
      ensures curSchedPolicy == policies[target.value]
      ensures SwitchView() == var s := old(SwitchView()); s.(cur := target.value, counts := s.counts[s.cur := 0])
    {
      var bsps := curSchedPolicy;
      curSchedPolicy := policies[target.value];
      bsps.numTasksScheduled := 0;
    }

    /** The window that the unused resources of the cluster allow, and the number of tasks in it. */
    method ComputeWindow() returns (newSchedWindowSize: nat, inWindow: nat)
      requires Queued() && tracker.Valid()
      ensures newSchedWindowSize == WindowSize(pending, Clusterwide(tracker.View()).unused)
      ensures inWindow == Cover(pending, newSchedWindowSize, 0) <= |tasks|
    {
      var count := tracker.GetClusterwideResourceAvailability();
      var queue := Snapshot();
      assert Positive(queue);
      newSchedWindowSize, inWindow := Apply(queue, count.unused);
    }

    /** The next policy, once a switch is decided, or none if round robin comes from an unlisted policy. Only now does the new window replace the old one. */
    method ChooseNext(newSchedWindowSize: nat, km: KMeans) returns (target: Option<Policy>, ghost nearest: Policy)
      requires Queued() && DistinctNames(pending) && WellLinked() && Classifies(km) && cfg.enabled
      requires cfg.criteria.TaskDist? ==> |cfg.table| > 0
      requires if cfg.fixed then schedWindowSize > 0 else newSchedWindowSize > 0
      modifies this`schedWindowSize
      ensures schedWindowSize == if cfg.fixed then old(schedWindowSize) else newSchedWindowSize
      ensures target == Target(cfg, old(SwitchView()), nearest)
      ensures Consults(cfg, old(SwitchView())) ==>
                target == Some(nearest) && Suits(cfg.table, schedWindowSize, pending, km, target.value)
    {
      nearest := BinPacking;
      ghost var s := SwitchView();
      if !cfg.fixed {
        schedWindowSize := newSchedWindowSize;
      }
      if !hasReceivedResourceOffers && cfg.first.Some? {
        target := cfg.first;
      } else {
        target, nearest := SwitchBasedOn(km);
      }
      assert SwitchView() == s.(window := schedWindowSize);
    }

    /** Switches if the window is used up. */
    method SwitchIfUsedUp(newSchedWindowSize: nat, km: KMeans) returns (ghost nearest: Policy)
      requires Queued() && DistinctNames(pending) && Switchable() && Classifies(km) && cfg.enabled
      requires if cfg.fixed then schedWindowSize > 0 else newSchedWindowSize > 0
      modifies this`curSchedPolicy, this`schedWindowSize, policies.Values`numTasksScheduled
      ensures UsedUp(old(SwitchView())) && Consults(cfg, old(SwitchView())) ==>
                curSchedPolicy.kind == nearest && Suits(cfg.table, schedWindowSize, pending, km, curSchedPolicy.kind)
      ensures Factory(policies) && curSchedPolicy == policies[curSchedPolicy.kind] && LinksOk()
      ensures tracker.View() == old(tracker.View())
      ensures var s := old(SwitchView());
              if UsedUp(s) then
                && Target(cfg, s, nearest).Some?
                && SwitchView() == s.(cur := Target(cfg, s, nearest).value, counts := s.counts[s.cur := 0],
                                      window := if cfg.fixed then s.window else newSchedWindowSize)
              else SwitchView() == s
    {
      nearest := BinPacking;
      if !hasReceivedResourceOffers || curSchedPolicy.numTasksScheduled >= schedWindowSize {
        var target;
        ConfigurableDefined(cfg, SwitchView(), newSchedWindowSize, numTasksInSchedWindow, BinPacking);
        target, nearest := ChooseNext(newSchedWindowSize, km);
        Deploy(target);
      }
    }

    /** Sizes the window unless it is fixed. */
    method ResizeWindow() returns (newSchedWindowSize: nat)
      requires Queued() && tracker.Valid()
      modifies this`numTasksInSchedWindow
      ensures var w := WindowSize(pending, Clusterwide(old(tracker.View())).unused);
              && newSchedWindowSize == (if cfg.fixed then 0 else w)
              && numTasksInSchedWindow == (if cfg.fixed then old(numTasksInSchedWindow) else Cover(pending, w, 0))
    {
      newSchedWindowSize := 0;
      if !cfg.fixed {
        newSchedWindowSize, numTasksInSchedWindow := ComputeWindow();
      }
    }

    /** Sizes the window and switches within it. */
    method SwitchWithin(km: KMeans) returns (ghost nearest: Policy)
      requires Valid() && Classifies(km) && cfg.enabled
      modifies this`curSchedPolicy, this`schedWindowSize, this`numTasksInSchedWindow, policies.Values`numTasksScheduled
      ensures Factory(policies) && curSchedPolicy == policies[curSchedPolicy.kind] && LinksOk()
      ensures tracker.View() == old(tracker.View()) && (cfg.fixed ==> numTasksInSchedWindow == 0)
      ensures var s, w := old(SwitchView()), WindowSize(pending, Clusterwide(old(tracker.View())).unused);
              Due(cfg, s, w) && Consults(cfg, s) ==>
                curSchedPolicy.kind == nearest && Suits(cfg.table, schedWindowSize, pending, km, curSchedPolicy.kind)
      ensures var w := WindowSize(pending, Clusterwide(old(tracker.View())).unused);
              Outcome(cfg, old(SwitchView()), SwitchView(), w, Cover(pending, w, 0), nearest)
    {
      nearest := BinPacking;
      ghost var before, view := SwitchView(), tracker.View();
      var newSchedWindowSize := ResizeWindow();
      assert tracker.View() == view && Counts() == before.counts;
      if (!cfg.fixed && newSchedWindowSize > 0) || (cfg.fixed && schedWindowSize > 0) {
        nearest := SwitchIfUsedUp(newSchedWindowSize, km);
      }
    }

    method SwitchIfNecessary(km: KMeans) returns (ghost nearest: Policy)
      requires Valid() && Classifies(km)
      modifies this`curSchedPolicy, this`schedWindowSize, this`numTasksInSchedWindow, policies.Values`numTasksScheduled
      ensures Valid() && LastsOneBatch() && tracker.View() == old(tracker.View())
      ensures var w := WindowSize(pending, Clusterwide(old(tracker.View())).unused);
              && Defined(cfg, old(SwitchView()), w, nearest)
              && SwitchView() == SwitchStep(cfg, old(SwitchView()), w, Cover(pending, w, 0), nearest)
              && (Due(cfg, old(SwitchView()), w) && Consults(cfg, old(SwitchView())) ==>
                    curSchedPolicy.kind == nearest && Suits(cfg.table, schedWindowSize, pending, km, curSchedPolicy.kind))
    {
      nearest := BinPacking;
      ghost var before := SwitchView();
      ghost var w := WindowSize(pending, Clusterwide(tracker.View()).unused);
      if cfg.enabled {
        nearest := SwitchWithin(km);
      }
      OutcomeIsStep(cfg, before, SwitchView(), w, Cover(pending, w, 0), nearest);
    }

    /** ConsumeOffers, as it shows in the queue, the tracker and the driver. */
    method ConsumeBatch(driver: Driver, offers: seq<Offer>) returns (ghost sorted: seq<Job>, ghost b: Batch)
      requires Queued() && CanUse(curSchedPolicy) && tracker.Valid() && DistinctNames(pending)
      requires cfg.enabled && curSchedPolicy.kind != FirstFit ==> numTasksInSchedWindow <= |tasks|
      modifies this`tasks, this`pending, this`shutdown, this`tasksCreated, this`hasReceivedResourceOffers
      modifies curSchedPolicy`numTasksScheduled, counters, driver, tracker.perHost.Values`unused
      ensures Queued() && DistinctNames(pending) && hasReceivedResourceOffers
      ensures PreparedBy(curSchedPolicy.kind, if cfg.enabled then numTasksInSchedWindow else |old(pending)|, old(pending), sorted)
      ensures b == ConsumeAll(curSchedPolicy.kind, At(schedWindowSize), tracker.reqs,
                              Batch(sorted, old(curSchedPolicy.numTasksScheduled), old(tracker.View()), []), offers)
      ensures pending == b.queue && tracker.View() == b.hosts && driver.calls == old(driver.calls) + b.answers
      ensures curSchedPolicy.numTasksScheduled == b.scheduled
    {
      ghost var before, start := driver.calls, curSchedPolicy.numTasksScheduled;
      ghost var p, n, c := curSchedPolicy.kind, if cfg.enabled then numTasksInSchedWindow else |pending|, At(schedWindowSize);
      ghost var queue, view := pending, tracker.View();
      sorted := ConsumeOffers(curSchedPolicy, driver, offers);
      hasReceivedResourceOffers := true;
      b := BatchView(driver, curSchedPolicy, |before|);
      assert driver.calls == before + driver.calls[|before|..];
      PreparedBatchNames(p, n, queue, c, tracker.reqs, Batch(sorted, start, view, []), offers);
    }

    /** Only the deployed policy's count changes. */
    twostate lemma OneCount(p: Policy)
      requires Factory(policies) && forall q: Policy :: q != p ==> policies[q].numTasksScheduled == old(policies[q].numTasksScheduled)
      ensures Counts() == old(Counts())[p := policies[p].numTasksScheduled]
    {
    }

    method RecordAndSwitch(offers: seq<Offer>, km: KMeans) returns (ghost nearest: Policy)
      requires Valid() && Classifies(km)
      modifies this`curSchedPolicy, this`schedWindowSize, this`numTasksInSchedWindow
      modifies policies.Values`numTasksScheduled, tracker`perHost
      ensures Valid() && LastsOneBatch() && tracker.View() == Record(old(tracker.View()), offers)
      ensures fresh(tracker.perHost.Values - old(tracker.perHost.Values))
      ensures var w := WindowSize(pending, Clusterwide(tracker.View()).unused);
              && Defined(cfg, old(SwitchView()), w, nearest)
              && SwitchView() == SwitchStep(cfg, old(SwitchView()), w, Cover(pending, w, 0), nearest)
              && (Due(cfg, old(SwitchView()), w) && Consults(cfg, old(SwitchView())) ==>
                    curSchedPolicy.kind == nearest && Suits(cfg.table, schedWindowSize, pending, km, curSchedPolicy.kind))
      ensures cfg.enabled ==> numTasksInSchedWindow <= |pending|
    {
      tracker.RecordTotalResourceAvailability(offers);
      assert Valid();
      nearest := SwitchIfNecessary(km);
    }

    /** The deployed policy consumes the batch; from then on offers have been received. */
    method ConsumeSwitched(driver: Driver, offers: seq<Offer>) returns (ghost sorted: seq<Job>, ghost b: Batch)
      requires Valid() && LastsOneBatch() && (cfg.enabled ==> numTasksInSchedWindow <= |pending|)
      modifies this`tasks, this`pending, this`shutdown, this`tasksCreated, this`hasReceivedResourceOffers
      modifies curSchedPolicy`numTasksScheduled, counters, driver, tracker.perHost.Values`unused
      ensures Valid() && hasReceivedResourceOffers
      ensures PreparedBy(curSchedPolicy.kind, if cfg.enabled then numTasksInSchedWindow else |old(pending)|, old(pending), sorted)
      ensures b == ConsumeAll(curSchedPolicy.kind, At(schedWindowSize), tracker.reqs,
                              Batch(sorted, old(curSchedPolicy.numTasksScheduled), old(tracker.View()), []), offers)
      ensures pending == b.queue
      ensures SwitchView() == var s := old(SwitchView()); s.(counts := s.counts[s.cur := b.scheduled], received := true)
      ensures tracker.View() == b.hosts && driver.calls == old(driver.calls) + b.answers
    {
      label Before:
      sorted, b := ConsumeBatch(driver, offers);
      OneCount@Before(curSchedPolicy.kind);
    }

    /** A batch of offers: record, switch if necessary, consume with whatever is deployed then. */
    method ResourceOffers(driver: Driver, offers: seq<Offer>, km: KMeans) returns (ghost e: Event)
      requires Valid() && Classifies(km)
      modifies this`curSchedPolicy, this`schedWindowSize, this`numTasksInSchedWindow, this`hasReceivedResourceOffers
      modifies this`tasks, this`pending, this`shutdown, this`tasksCreated, counters
      modifies policies.Values`numTasksScheduled, driver, tracker`perHost, tracker.perHost.Values`unused
      ensures Valid() && e.Offers? && e.offers == offers
      ensures Legal(Settings(), old(Abs(driver)), e)
      ensures Abs(driver) == System.Next(Settings(), old(Abs(driver)), e)
      ensures var s, w := old(SwitchView()), NewWindow(old(Abs(driver)), offers);
              Due(cfg, s, w) && Consults(cfg, s) ==> Suits(cfg.table, schedWindowSize, old(pending), km, curSchedPolicy.kind)
      ensures Advised(Settings(), old(Abs(driver)), e, km)
    {
      ghost var sys := Abs(driver);
      ghost var nearest := RecordAndSwitch(offers, km);
      ghost var s := SwitchView();
      ghost var sorted, b := ConsumeSwitched(driver, offers);
      e := Offers(offers, nearest, sorted);
      BatchIsNext(Settings(), sys, e, s, b);
    }

    /** A status update. Only the terminal states touch what is modelled here. */
    method StatusUpdate(driver: Driver, terminal: bool, taskId: string, agent: string)
      requires Valid()
      modifies tracker.perHost.Values`unused
      ensures Valid()
      ensures Abs(driver) == if terminal then System.Next(Settings(), old(Abs(driver)), Terminal(taskId, agent)) else old(Abs(driver))
    {
      if terminal {
        tracker.OnTaskTerminal(taskId, agent);
      }
    }
  }
}
