/** The ratio of light to heavy task instances in a scheduling window.
    Models GetTaskDistributionInWindow of def/taskUtils.go. */
module Distribution {
  import opened Workload
  import opened TaskIds
  import opened Window
  import opened Clusters

  /** The task that reaches past the window and how many of its instances lie outside. */
  datatype Exceeding = Exceeding(taskName: string, instsToDiscard: int)

  ghost function Discarded(e: Exceeding, spec: Spec): int {
    if spec.name == e.taskName then e.instsToDiscard else 0
  }

  /** Instances of the jobs that lie inside the window. */
  ghost function Inside(jobs: seq<Job>, e: Exceeding): int {
    if jobs == [] then 0
    else
      var last := jobs[|jobs| - 1];
      Inside(jobs[..|jobs| - 1], e) + last.n - Discarded(e, last.spec)
  }

  method GetTotalInstances(jobs: seq<Job>, e: Exceeding) returns (total: int)
    ensures total == Inside(jobs, e)
  {
    total := 0;
    for i := 0 to |jobs|
      invariant total == Inside(jobs[..i], e)
    {
      assert jobs[..i + 1][..i] == jobs[..i];
      if jobs[i].spec.name == e.taskName {
        total := total + (jobs[i].n - e.instsToDiscard);
      } else {
        total := total + jobs[i].n;
      }
    }
    assert jobs[..|jobs|] == jobs;
  }

  /** The first k tasks make up the window; e is what the last of them holds beyond it. */
  ghost predicate EndsAt(queue: seq<Job>, windowSize: int, k: nat, e: Exceeding) {
    && k <= |queue| && k == Cover(queue, windowSize, 0) && windowSize >= 1
    && if Instances(queue[..k]) >= windowSize
       then k >= 1 && e == Exceeding(queue[k - 1].spec.name, Instances(queue[..k]) - windowSize)
       else k == |queue| && e == Exceeding("", 0)
  }

  method GetTasksInWindow(windowSize: int, queue: seq<Job>) returns (inWindow: seq<Job>, e: Exceeding)
    requires windowSize >= 1
    ensures EndsAt(queue, windowSize, |inWindow|, e) && inWindow <= queue
  {
    inWindow, e := [], Exceeding("", 0);
    var tasksTraversed := 0;
    for t := 0 to |queue|
      invariant inWindow == queue[..t] && e == Exceeding("", 0)
      invariant tasksTraversed == Instances(queue[..t])
      invariant forall s :: 0 <= s <= t ==> Instances(queue[..s]) < windowSize
    {
      InstancesNext(queue, t);
      inWindow := inWindow + [queue[t]];
      tasksTraversed := tasksTraversed + queue[t].n;
      if tasksTraversed >= windowSize {
        e := Exceeding(queue[t].spec.name, tasksTraversed - windowSize);
        break;
      }
    }
    EndFound(queue, windowSize, |inWindow|, e);
  }

  lemma EndFound(queue: seq<Job>, windowSize: int, k: nat, e: Exceeding)
    requires windowSize >= 1 && k <= |queue| && forall s :: 0 <= s < k ==> Instances(queue[..s]) < windowSize
    requires if Instances(queue[..k]) >= windowSize
             then k >= 1 && e == Exceeding(queue[k - 1].spec.name, Instances(queue[..k]) - windowSize)
             else k == |queue| && e == Exceeding("", 0)
    ensures EndsAt(queue, windowSize, k, e)
  {
    CoverFound(queue, windowSize, 0, k);
  }

  /** The jobs that a classification put into cluster x. */
  ghost function Labelled(jobs: seq<Job>, labels: seq<nat>, x: nat): seq<Job>
    requires |labels| >= |jobs|
  {
    if jobs == [] then []
    else
      var rest := Labelled(jobs[..|jobs| - 1], labels, x);
      if labels[|jobs| - 1] == x then rest + [jobs[|jobs| - 1]] else rest
  }

  /** A task is in cluster x exactly when it stands somewhere with label x. */
  lemma {:induction false} LabelledMember(jobs: seq<Job>, labels: seq<nat>, x: nat, job: Job)
    requires |labels| >= |jobs|
    ensures job in Labelled(jobs, labels, x) <==> exists i :: 0 <= i < |jobs| && jobs[i] == job && labels[i] == x
  {
    if jobs != [] {
      var n := |jobs| - 1;
      LabelledMember(jobs[..n], labels, x, job);
      assert forall i :: 0 <= i < n ==> jobs[..n][i] == jobs[i];
    }
  }

  method Classify(jobs: seq<Job>, k: nat, km: KMeans) returns (ordered: seq<TaskCluster>, ghost clusters: map<nat, seq<Job>>)
    requires |km.labels| >= |jobs|
    ensures forall x :: TasksOf(clusters, x) == if km.trained then Labelled(jobs, km.labels, x) else []
    ensures multiset(ordered) == multiset(Scored(clusters, k, km.median)) && SortedByScore(ordered) && |ordered| == k
  {
    var byClass: map<nat, seq<Job>> := map[];
    if km.trained {
      for i := 0 to |jobs|
        invariant forall x :: TasksOf(byClass, x) == Labelled(jobs[..i], km.labels, x)
      {
        assert jobs[..i + 1][..i] == jobs[..i];
        var classIndex := km.labels[i];
        if classIndex in byClass {
          byClass := byClass[classIndex := byClass[classIndex] + [jobs[i]]];
        } else {
          byClass := byClass[classIndex := [jobs[i]]];
        }
      }
      assert jobs[..|jobs|] == jobs;
    }
    clusters := byClass;
    ordered := LabelAndOrder(byClass, k, km.median);
  }

  ghost function Min(a: int, b: int): int {
    if a <= b then a else b
  }

  // ----- the ratio, on values

  /** What the last task of the window holds beyond it. */
  ghost function Surplus(queue: seq<Job>, windowSize: int): Exceeding
    requires windowSize >= 1
  {
    var k := Cover(queue, windowSize, 0);
    if Instances(queue[..k]) >= windowSize && k >= 1
    then Exceeding(queue[k - 1].spec.name, Instances(queue[..k]) - windowSize)
    else Exceeding("", 0)
  }

  /** The window's tasks that went to cluster x. */
  ghost function InCluster(windowSize: int, queue: seq<Job>, km: KMeans, x: nat): seq<Job>
    requires |km.labels| >= |queue|
  {
    Labelled(queue[..Cover(queue, windowSize, 0)], km.labels, x)
  }

  datatype Shares = Shares(light: seq<Job>, heavy: seq<Job>)

  /** The light and the heavy tasks of the window, or None if cluster 1 is empty. */
  ghost function SharesOf(windowSize: int, queue: seq<Job>, km: KMeans): Option<Shares>
    requires |km.labels| >= |queue|
  {
    var c0, c1 := InCluster(windowSize, queue, km, 0), InCluster(windowSize, queue, km, 1);
    if !km.trained || c1 == [] then None
    else if Greater(Average(c0, km.median), Average(c1, km.median)) then Some(Shares(c1, c0))
    else Some(Shares(c0, c1))
  }

  /** A queue the scheduler can hold, and a classification of its tasks into two clusters. */
  ghost predicate Classified(windowSize: int, queue: seq<Job>, km: KMeans) {
    && windowSize >= 1 && DistinctNames(queue) && Positive(queue)
    && |km.labels| >= |queue| && forall l :: l in km.labels ==> l < 2
  }

  /** Light and heavy instances are those of the window, and there are heavy ones. */
  lemma RatioDefined(windowSize: int, queue: seq<Job>, km: KMeans)
    requires Classified(windowSize, queue, km) && SharesOf(windowSize, queue, km).Some?
    ensures var s, e := SharesOf(windowSize, queue, km).value, Surplus(queue, windowSize);
            && Inside(s.light, e) + Inside(s.heavy, e) == Min(windowSize, Instances(queue))
            && Inside(s.light, e) >= |s.light| && Inside(s.heavy, e) >= |s.heavy| >= 1
  {
    var s, e := SharesOf(windowSize, queue, km).value, Surplus(queue, windowSize);
    var inWindow := queue[..Cover(queue, windowSize, 0)];
    assert queue[..|queue|] == queue;
    WindowFacts(queue, windowSize, inWindow, e);
    CountsAddUp(inWindow, km.labels, e, s.light, s.heavy);
  }

  ghost function Ratio(windowSize: int, queue: seq<Job>, km: KMeans): Option<real>
    requires Classified(windowSize, queue, km)
  {
    match SharesOf(windowSize, queue, km)
    case None => None
    case Some(s) =>
      var e := Surplus(queue, windowSize);
      RatioDefined(windowSize, queue, km);
      Some(Inside(s.light, e) as real / Inside(s.heavy, e) as real)
  }

  /** The light tasks are those of one label and the heavy ones those of the other, and on average the light ones do not take
      more power. */
  lemma LightIsLighter(windowSize: int, queue: seq<Job>, km: KMeans)
    requires Classified(windowSize, queue, km)
    ensures SharesOf(windowSize, queue, km).Some? <==> km.trained && InCluster(windowSize, queue, km, 1) != []
    ensures SharesOf(windowSize, queue, km).Some? ==>
              var s := SharesOf(windowSize, queue, km).value;
              && (s == Shares(InCluster(windowSize, queue, km, 0), InCluster(windowSize, queue, km, 1))
                  || s == Shares(InCluster(windowSize, queue, km, 1), InCluster(windowSize, queue, km, 0)))
              && s.heavy != []
              && (s.light != [] ==> Average(s.light, km.median).value <= Average(s.heavy, km.median).value)
  {
  }

  /** What a ratio r of so many light to so many heavy instances is. */
  ghost predicate IsRatio(r: real, light: int, heavy: int) {
    && heavy >= 1 && r * heavy as real == light as real
    && (r == 1.0 <==> light == heavy) && (r > 1.0 <==> light > heavy)
  }

  /** The ratio is the quotient of light and heavy instances: 1 if there are as many of both, above 1 exactly when the light
      ones are more, and undefined exactly without light and heavy tasks to tell apart. */
  lemma RatioMeans(windowSize: int, queue: seq<Job>, km: KMeans)
    requires Classified(windowSize, queue, km)
    ensures Ratio(windowSize, queue, km).Some? <==> SharesOf(windowSize, queue, km).Some?
    ensures Ratio(windowSize, queue, km).Some? ==>
              var s, e := SharesOf(windowSize, queue, km).value, Surplus(queue, windowSize);
              IsRatio(Ratio(windowSize, queue, km).value, Inside(s.light, e), Inside(s.heavy, e))
  {
    if SharesOf(windowSize, queue, km).Some? {
      var s, e := SharesOf(windowSize, queue, km).value, Surplus(queue, windowSize);
      RatioDefined(windowSize, queue, km);
      RatioOfCounts(Inside(s.light, e), Inside(s.heavy, e));
    }
  }

  lemma RatioOfCounts(light: int, heavy: int)
    requires heavy >= 1
    ensures IsRatio(light as real / heavy as real, light, heavy)
  {
    QuotientMeans(light as real, heavy as real);
  }

  lemma QuotientMeans(light: real, heavy: real)
    requires heavy > 0.0
    ensures var r := light / heavy;
            r * heavy == light && (r == 1.0 <==> light == heavy) && (r > 1.0 <==> light > heavy)
  {
    var r := light / heavy;
    assert r * heavy - heavy == (r - 1.0) * heavy;
  }

  /** The one-cluster error is raised when cluster 1 is empty. When all tasks went to cluster 1 instead, no error is
      raised: that is the one case in which the ratio is zero. */
  lemma OneClusterMissedIff(windowSize: int, queue: seq<Job>, km: KMeans)
    requires Classified(windowSize, queue, km)
    ensures Ratio(windowSize, queue, km) == Some(0.0)
            <==> km.trained && InCluster(windowSize, queue, km, 0) == [] && InCluster(windowSize, queue, km, 1) != []
  {
    var shares := SharesOf(windowSize, queue, km);
    if shares.Some? {
      RatioDefined(windowSize, queue, km);
      var light, heavy := Inside(shares.value.light, Surplus(queue, windowSize)), Inside(shares.value.heavy, Surplus(queue, windowSize));
      assert light as real / heavy as real == 0.0 <==> light == 0;
    }
  }

  /** The light-to-heavy ratio of the window, or None when no two clusters could be told apart. */
  method GetTaskDistributionInWindow(windowSize: int, queue: seq<Job>, km: KMeans) returns (ratio: Option<real>)
    requires Classified(windowSize, queue, km)
    ensures ratio == Ratio(windowSize, queue, km)
    ensures ratio.Some? <==> SharesOf(windowSize, queue, km).Some?
    ensures ratio.Some? ==> var s, e := SharesOf(windowSize, queue, km).value, Surplus(queue, windowSize);
                            IsRatio(ratio.value, Inside(s.light, e), Inside(s.heavy, e))
  {
    RatioMeans(windowSize, queue, km);
    var inWindow, e := GetTasksInWindow(windowSize, queue);
    assert inWindow == queue[..Cover(queue, windowSize, 0)] && e == Surplus(queue, windowSize);
    ghost var clusters;
    var ordered;
    ordered, clusters := Classify(inWindow, 2, km);
    TwoClusters(ordered, clusters, km.median);
    if |ordered[1].tasks| == 0 {
      return None;
    }
    assert SharesOf(windowSize, queue, km) == Some(Shares(ordered[0].tasks, ordered[1].tasks));
    RatioDefined(windowSize, queue, km);
    var lpcTasksTotalInst := GetTotalInstances(ordered[0].tasks, e);
    var hpcTasksTotalInst := GetTotalInstances(ordered[1].tasks, e);
    ratio := Some(lpcTasksTotalInst as real / hpcTasksTotalInst as real);
  }

  ghost predicate HasInside(job: Job, e: Exceeding) {
    job.n - Discarded(e, job.spec) >= 1
  }

  lemma WindowFacts(queue: seq<Job>, windowSize: int, inWindow: seq<Job>, e: Exceeding)
    requires DistinctNames(queue) && Positive(queue) && EndsAt(queue, windowSize, |inWindow|, e) && inWindow <= queue
    ensures Inside(inWindow, e) == Min(windowSize, Instances(queue))
    ensures forall j :: j in inWindow ==> HasInside(j, e)
  {
    assert inWindow == queue[..|inWindow|];
    WindowCounted(queue, windowSize, |inWindow|, e);
    forall s | 0 <= s < |inWindow|
      ensures HasInside(inWindow[s], e)
    {
      EachInside(queue, windowSize, |inWindow|, e, s);
    }
  }

  /** The two clusters a and b of the window share its instances, each holding at least one for every task. */
  lemma CountsAddUp(inWindow: seq<Job>, labels: seq<nat>, e: Exceeding, a: seq<Job>, b: seq<Job>)
    requires forall j :: j in inWindow ==> HasInside(j, e)
    requires |labels| >= |inWindow| && forall l :: l in labels ==> l < 2
    requires var c0, c1 := Labelled(inWindow, labels, 0), Labelled(inWindow, labels, 1);
             (a == c0 && b == c1) || (a == c1 && b == c0)
    ensures Inside(a, e) + Inside(b, e) == Inside(inWindow, e)
    ensures Inside(a, e) >= |a| && Inside(b, e) >= |b|
  {
    InsideSplits(inWindow, labels, e);
    InsidePositive(inWindow, labels, 0, e);
    InsidePositive(inWindow, labels, 1, e);
  }

  /** Of two clusters the one with the larger average comes last; if neither is larger, cluster 1. */
  lemma TwoClusters(ordered: seq<TaskCluster>, clusters: map<nat, seq<Job>>, median: Spec -> real)
    requires multiset(ordered) == multiset(Scored(clusters, 2, median)) && |ordered| == 2 && SortedByScore(ordered)
    ensures var c0, c1 := TasksOf(clusters, 0), TasksOf(clusters, 1);
            [ordered[0].tasks, ordered[1].tasks]
            == if Greater(Average(c0, median), Average(c1, median)) then [c1, c0] else [c0, c1]
  {
    var s := Scored(clusters, 2, median);
    var sizes := Sizes(clusters, 2, median);
    assert s == [s[0], s[1]] && ordered == [ordered[0], ordered[1]];
    assert Wins(sizes, 0, 1) == Wins(sizes, 0, 0) == 0 && Wins(sizes, 1, 0) == 0;
    assert Score(sizes, 0) == if Greater(sizes[0], sizes[1]) then 1 else 0;
    assert Wins(sizes, 1, 1) == if Greater(sizes[0], sizes[1]) then 0 else 1;
    assert Score(sizes, 1) == Wins(sizes, 1, 1);
    SamePair(s[0], s[1], ordered[0], ordered[1]);
  }

  lemma SamePair<T>(a: T, b: T, x: T, y: T)
    requires multiset{a, b} == multiset{x, y}
    ensures (x == a && y == b) || (x == b && y == a)
  {
    assert x in multiset{a, b};
    if x == a {
      assert multiset{b} == multiset{a, b} - multiset{a} == multiset{x, y} - multiset{x} == multiset{y};
      assert y in multiset{b};
    } else {
      assert multiset{a} == multiset{a, b} - multiset{b} == multiset{x, y} - multiset{x} == multiset{y};
      assert y in multiset{a};
    }
  }

  lemma {:induction false} InsideSplits(jobs: seq<Job>, labels: seq<nat>, e: Exceeding)
    requires |labels| >= |jobs| && forall l :: l in labels ==> l < 2
    ensures Inside(Labelled(jobs, labels, 0), e) + Inside(Labelled(jobs, labels, 1), e) == Inside(jobs, e)
  {
    if jobs != [] {
      var n := |jobs| - 1;
      InsideSplits(jobs[..n], labels, e);
      assert labels[n] in labels;
      var rest := Labelled(jobs[..n], labels, labels[n]);
      assert (rest + [jobs[n]])[..|rest|] == rest;
    }
  }

  lemma {:induction false} InsidePositive(jobs: seq<Job>, labels: seq<nat>, x: nat, e: Exceeding)
    requires |labels| >= |jobs| && forall j :: j in jobs ==> HasInside(j, e)
    ensures Inside(Labelled(jobs, labels, x), e) >= |Labelled(jobs, labels, x)|
  {
    if jobs != [] {
      var n := |jobs| - 1;
      InsidePositive(jobs[..n], labels, x, e);
      assert jobs[n] in jobs;
      var rest := Labelled(jobs[..n], labels, x);
      assert (rest + [jobs[n]])[..|rest|] == rest;
    }
  }

  lemma {:induction false} InsideOfOthers(queue: seq<Job>, k: nat, e: Exceeding)
    requires k <= |queue| && forall s :: 0 <= s < k ==> Discarded(e, queue[s].spec) == 0
    ensures Inside(queue[..k], e) == Instances(queue[..k])
  {
    if k > 0 {
      assert queue[..k][..k - 1] == queue[..k - 1];
      InsideOfOthers(queue, k - 1, e);
    }
  }

  lemma WindowCounted(queue: seq<Job>, windowSize: int, k: nat, e: Exceeding)
    requires DistinctNames(queue) && Positive(queue) && EndsAt(queue, windowSize, k, e)
    ensures Inside(queue[..k], e) == Min(windowSize, Instances(queue))
  {
    assert queue[..|queue|] == queue;
    if Instances(queue[..k]) >= windowSize {
      forall s | 0 <= s < k - 1
        ensures Discarded(e, queue[s].spec) == 0
      {
        assert queue[s].spec.name != queue[k - 1].spec.name;
      }
      InsideOfOthers(queue, k - 1, e);
      assert queue[..k][..k - 1] == queue[..k - 1];
      InstancesNext(queue, k - 1);
      InstancesMonotone(queue, k, |queue|);
    } else {
      InsideOfOthers(queue, k, e);
    }
  }

  /** Every task of the window has an instance inside it. */
  lemma EachInside(queue: seq<Job>, windowSize: int, k: nat, e: Exceeding, s: nat)
    requires DistinctNames(queue) && Positive(queue) && EndsAt(queue, windowSize, k, e) && s < k
    ensures HasInside(queue[s], e)
  {
    assert queue[s] in queue;
    if s == k - 1 {
      InstancesNext(queue, s);
    } else {
      assert queue[s].spec.name != queue[k - 1].spec.name;
    }
  }
}
