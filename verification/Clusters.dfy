/** Sizing clusters of tasks by average power and ordering them by a pairwise tournament.
    Models clusterSizeAvgMMMPU and labelAndOrder of def/taskUtils.go. */
module Clusters {
  import opened Workload
  import Sorting

  /** The outcome of k-means training: whether it succeeded, the nearest centroid of each task, and the median of
      each task's power observations. */
  datatype KMeans = KMeans(trained: bool, labels: seq<nat>, median: Spec -> real)

  datatype TaskCluster = TaskCluster(index: nat, tasks: seq<Job>, sizeScore: nat)

  // ----- cluster sizes and the tournament

  ghost function SumMedians(tasks: seq<Job>, median: Spec -> real): real {
    if tasks == [] then 0.0
    else SumMedians(tasks[..|tasks| - 1], median) + median(tasks[|tasks| - 1].spec)
  }

  /** The average power of a cluster; None is the not-a-number of an empty one. */
  ghost function Average(tasks: seq<Job>, median: Spec -> real): Option<real> {
    if tasks == [] then None else Some(SumMedians(tasks, median) / |tasks| as real)
  }

  /** The average is the mean: what it weighs with the number of tasks is the sum of the parts, whatever the parts. Together
      with AverageOfOne this says what it is. */
  lemma AverageSplits(a: seq<Job>, b: seq<Job>, median: Spec -> real)
    requires a != [] && b != []
    ensures Average(a + b, median).Some? && Average(a, median).Some? && Average(b, median).Some?
    ensures Average(a + b, median).value * |a + b| as real
            == Average(a, median).value * |a| as real + Average(b, median).value * |b| as real
  {
    SumMediansConcat(a, b, median);
    MeanTimesCount(a, median);
    MeanTimesCount(b, median);
    MeanTimesCount(a + b, median);
  }

  lemma MeanTimesCount(tasks: seq<Job>, median: Spec -> real)
    requires tasks != []
    ensures Average(tasks, median).Some? && Average(tasks, median).value * |tasks| as real == SumMedians(tasks, median)
  {
  }

  lemma {:induction false} SumMediansConcat(a: seq<Job>, b: seq<Job>, median: Spec -> real)
    ensures SumMedians(a + b, median) == SumMedians(a, median) + SumMedians(b, median)
  {
    if b == [] {
      assert a + b == a;
    } else {
      assert (a + b)[..|a + b| - 1] == a + b[..|b| - 1];
      SumMediansConcat(a, b[..|b| - 1], median);
    }
  }

  lemma AverageOfOne(job: Job, median: Spec -> real)
    ensures Average([job], median) == Some(median(job.spec))
  {
    assert [job][..0] == [];
    assert SumMedians([job], median) == median(job.spec);
  }

  lemma {:induction false} SumMediansBetween(tasks: seq<Job>, median: Spec -> real, lo: real, hi: real)
    requires forall j :: j in tasks ==> lo <= median(j.spec) <= hi
    ensures lo * |tasks| as real <= SumMedians(tasks, median) <= hi * |tasks| as real
  {
    if tasks != [] {
      assert tasks[|tasks| - 1] in tasks;
      SumMediansBetween(tasks[..|tasks| - 1], median, lo, hi);
    }
  }

  /** The average lies between the smallest and the largest median: tasks of one median have that average. */
  lemma AverageBetween(tasks: seq<Job>, median: Spec -> real, lo: real, hi: real)
    requires tasks != [] && forall j :: j in tasks ==> lo <= median(j.spec) <= hi
    ensures Average(tasks, median).Some? && lo <= Average(tasks, median).value <= hi
    ensures lo == hi ==> Average(tasks, median) == Some(lo)
  {
    SumMediansBetween(tasks, median, lo, hi);
    QuotientBetween(lo, hi, SumMedians(tasks, median), |tasks| as real);
  }

  lemma QuotientBetween(lo: real, hi: real, sum: real, n: real)
    requires n > 0.0 && lo * n <= sum <= hi * n
    ensures lo <= sum / n <= hi
  {
    CancelCount(lo, sum / n, n);
    CancelCount(sum / n, hi, n);
  }

  lemma CancelCount(x: real, y: real, n: real)
    requires n > 0.0 && x * n <= y * n
    ensures x <= y
  {
    assert x == x * n / n && y == y * n / n;
  }

  method ClusterSizeAvgMMMPU(tasks: seq<Job>, median: Spec -> real) returns (size: Option<real>)
    ensures size == Average(tasks, median)
  {
    var total := 0.0;
    var count := 0;
    for i := 0 to |tasks|
      invariant count == i && total == SumMedians(tasks[..i], median)
    {
      assert tasks[..i + 1][..i] == tasks[..i];
      total := total + median(tasks[i].spec);
      count := count + 1;
    }
    assert tasks[..|tasks|] == tasks;
    size := if count == 0 then None else Some(total / count as real);
  }

  /** Floating-point "greater": false as soon as one side is not a number. */
  predicate Greater(a: Option<real>, b: Option<real>) {
    a.Some? && b.Some? && a.value > b.value
  }

  /** The outcome of the one comparison between clusters x and y: the earlier one wins if it is greater,
      otherwise the later one. */
  ghost predicate Beats(sizes: seq<Option<real>>, x: nat, y: nat)
    requires x < |sizes| && y < |sizes|
  {
    if x < y then Greater(sizes[x], sizes[y]) else x > y && !Greater(sizes[y], sizes[x])
  }

  /** The wins of x over the clusters below hi. */
  ghost function Wins(sizes: seq<Option<real>>, x: nat, hi: nat): (w: nat)
    requires x < |sizes| && hi <= |sizes|
    ensures w <= hi
  {
    if hi == 0 then 0 else Wins(sizes, x, hi - 1) + if Beats(sizes, x, hi - 1) then 1 else 0
  }

  ghost function Score(sizes: seq<Option<real>>, x: nat): nat
    requires x < |sizes|
  {
    Wins(sizes, x, |sizes|)
  }

  function TasksOf(clusters: map<nat, seq<Job>>, x: nat): seq<Job> {
    if x in clusters then clusters[x] else []
  }

  ghost function Sizes(clusters: map<nat, seq<Job>>, k: nat, median: Spec -> real): seq<Option<real>> {
    seq(k, x requires 0 <= x < k => Average(TasksOf(clusters, x), median))
  }

  /** Every cluster with its score, in index order. */
  ghost function Scored(clusters: map<nat, seq<Job>>, k: nat, median: Spec -> real): seq<TaskCluster> {
    seq(k, x requires 0 <= x < k =>
        TaskCluster(x, TasksOf(clusters, x), Score(Sizes(clusters, k, median), x)))
  }

  ghost predicate SortedByScore(cs: seq<TaskCluster>) {
    forall i, j :: 0 <= i < j < |cs| ==> cs[i].sizeScore <= cs[j].sizeScore
  }

  /** The number of clusters that x has been compared with after round i reached j: all below the bound. */
  ghost function Met(k: nat, x: nat, i: nat, j: nat): nat
    requires x < k && i <= k && j <= k
  {
    if x < i then k else if x == i then j else if x < j then (if i + 1 <= k then i + 1 else k) else i
  }

  ghost predicate TalliedAt(sized: seq<TaskCluster>, clusters: map<nat, seq<Job>>, sizes: seq<Option<real>>, i: nat, j: nat, x: nat)
    requires i <= |sizes| && j <= |sizes| && x < |sizes| == |sized|
  {
    sized[x] == TaskCluster(x, TasksOf(clusters, x), Wins(sizes, x, Met(|sizes|, x, i, j)))
  }

  /** Each cluster has the wins against those it has met. */
  ghost predicate Tallied(sized: seq<TaskCluster>, clusters: map<nat, seq<Job>>, sizes: seq<Option<real>>, i: nat, j: nat)
    requires i <= |sizes| && j <= |sizes|
  {
    |sized| == |sizes| && forall x :: 0 <= x < |sizes| ==> TalliedAt(sized, clusters, sizes, i, j, x)
  }

  /** Orders the clusters by the number of others they won against. */
  method LabelAndOrder(clusters: map<nat, seq<Job>>, k: nat, median: Spec -> real) returns (ordered: seq<TaskCluster>)
    ensures multiset(ordered) == multiset(Scored(clusters, k, median)) && SortedByScore(ordered) && |ordered| == k
  {
    var sized := InitClusters(clusters, k);
    ghost var sizes := Sizes(clusters, k, median);
    var i := 0;
    while i < k - 1
      invariant 0 <= i <= k && (k >= 1 ==> i <= k - 1)
      invariant Tallied(sized, clusters, sizes, i, i)
    {
      sized := CompareWithLater(sized, clusters, k, median, i, sizes);
      i := i + 1;
    }
    AllPairs(sized, clusters, sizes, i);
    assert sized == Scored(clusters, k, median);
    ordered := SortByScore(sized);
  }

  method SortByScore(cs: seq<TaskCluster>) returns (ordered: seq<TaskCluster>)
    ensures multiset(ordered) == multiset(cs) && SortedByScore(ordered) && |ordered| == |cs|
  {
    var key := (c: TaskCluster) => c.sizeScore as real;
    ordered := Sorting.Sort(cs, key);
    forall a, b | 0 <= a < b < |ordered|
      ensures ordered[a].sizeScore <= ordered[b].sizeScore
    {
      assert key(ordered[a]) <= key(ordered[b]);
    }
  }

  /** Cluster i against every later one. */
  method CompareWithLater(before: seq<TaskCluster>, clusters: map<nat, seq<Job>>, k: nat, median: Spec -> real, i: nat,
                          ghost sizes: seq<Option<real>>)
    returns (sized: seq<TaskCluster>)
    requires |sizes| == k && forall x :: 0 <= x < k ==> sizes[x] == Average(TasksOf(clusters, x), median)
    requires i + 1 < k && Tallied(before, clusters, sizes, i, i)
    ensures Tallied(sized, clusters, sizes, i + 1, i + 1)
  {
    sized := before;
    var sizeI := ClusterSizeAvgMMMPU(TasksOf(clusters, i), median);
    StartRow(sized, clusters, sizes, i);
    for j := i + 1 to k
      invariant Tallied(sized, clusters, sizes, i, j)
    {
      var sizeJ := ClusterSizeAvgMMMPU(TasksOf(clusters, j), median);
      NextPair(sized, clusters, sizes, i, j);
      if Greater(sizeI, sizeJ) {
        sized := AddWin(sized, i);
      } else {
        sized := AddWin(sized, j);
      }
    }
    EndRow(sized, clusters, sizes, i);
  }

  method InitClusters(clusters: map<nat, seq<Job>>, k: nat) returns (sized: seq<TaskCluster>)
    ensures |sized| == k && forall x :: 0 <= x < k ==> sized[x] == TaskCluster(x, TasksOf(clusters, x), 0)
  {
    sized := [];
    for i := 0 to k
      invariant |sized| == i
      invariant forall x :: 0 <= x < i ==> sized[x] == TaskCluster(x, TasksOf(clusters, x), 0)
    {
      sized := sized + [TaskCluster(i, TasksOf(clusters, i), 0)];
    }
  }

  lemma StartRow(sized: seq<TaskCluster>, clusters: map<nat, seq<Job>>, sizes: seq<Option<real>>, i: nat)
    requires i + 1 <= |sizes| && Tallied(sized, clusters, sizes, i, i)
    ensures Tallied(sized, clusters, sizes, i, i + 1)
  {
    assert Wins(sizes, i, i + 1) == Wins(sizes, i, i);
    var next := i + 1;
    forall x | 0 <= x < |sizes|
      ensures TalliedAt(sized, clusters, sizes, i, next, x)
    {
      assert TalliedAt(sized, clusters, sizes, i, i, x);
    }
  }

  function AddWin(sized: seq<TaskCluster>, x: nat): seq<TaskCluster>
    requires x < |sized|
  {
    sized[x := sized[x].(sizeScore := sized[x].sizeScore + 1)]
  }

  lemma NextPair(sized: seq<TaskCluster>, clusters: map<nat, seq<Job>>, sizes: seq<Option<real>>, i: nat, j: nat)
    requires i < j < |sizes| && Tallied(sized, clusters, sizes, i, j)
    ensures Tallied(AddWin(sized, if Greater(sizes[i], sizes[j]) then i else j), clusters, sizes, i, j + 1)
  {
    assert Wins(sizes, i, j + 1) == Wins(sizes, i, j) + if Beats(sizes, i, j) then 1 else 0;
    assert Wins(sizes, j, i + 1) == Wins(sizes, j, i) + if Beats(sizes, j, i) then 1 else 0;
    var after := AddWin(sized, if Greater(sizes[i], sizes[j]) then i else j);
    var next := j + 1;
    forall x | 0 <= x < |sizes|
      ensures TalliedAt(after, clusters, sizes, i, next, x)
    {
      assert TalliedAt(sized, clusters, sizes, i, j, x);
    }
  }

  lemma EndRow(sized: seq<TaskCluster>, clusters: map<nat, seq<Job>>, sizes: seq<Option<real>>, i: nat)
    requires i < |sizes| && Tallied(sized, clusters, sizes, i, |sizes|)
    ensures Tallied(sized, clusters, sizes, i + 1, i + 1)
  {
    var next := i + 1;
    forall x | 0 <= x < |sizes|
      ensures TalliedAt(sized, clusters, sizes, next, next, x)
    {
      assert TalliedAt(sized, clusters, sizes, i, |sizes|, x);
    }
  }

  lemma AllPairs(sized: seq<TaskCluster>, clusters: map<nat, seq<Job>>, sizes: seq<Option<real>>, i: nat)
    requires i <= |sizes| <= i + 1 && Tallied(sized, clusters, sizes, i, i)
    ensures |sized| == |sizes|
    ensures forall x :: 0 <= x < |sizes| ==> sized[x] == TaskCluster(x, TasksOf(clusters, x), Score(sizes, x))
  {
    if |sizes| == i + 1 {
      StartRow(sized, clusters, sizes, i);
    }
    forall x | 0 <= x < |sizes|
      ensures sized[x] == TaskCluster(x, TasksOf(clusters, x), Score(sizes, x))
    {
      assert TalliedAt(sized, clusters, sizes, i, |sizes|, x);
    }
  }
}
