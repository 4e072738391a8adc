/** The scheduling window: how many pending instances the free resources of the cluster can take.
    Models utilities/schedUtils/schedUtils.go and the window part of def/taskUtils.go. */
module Window {
  import opened Workload
  import opened TaskIds

  ghost function Instances(queue: seq<Job>): int {
    if queue == [] then 0 else Instances(queue[..|queue| - 1]) + queue[|queue| - 1].n
  }

  /** The pending instances one by one, in queue order. */
  ghost function Flat(queue: seq<Job>): seq<Spec> {
    if queue == [] then []
    else Flat(queue[..|queue| - 1]) + Copies(queue[|queue| - 1].spec, queue[|queue| - 1].n)
  }

  ghost function Copies(spec: Spec, n: int): seq<Spec> {
    seq(if n >= 0 then n else 0, _ => spec)
  }

  /** CPU and RAM of the first w instances. */
  ghost function Filled(flat: seq<Spec>, w: nat): Res
    requires w <= |flat|
  {
    if w == 0 then ZERO else Filled(flat, w - 1).Plus(Res(flat[w - 1].cpu, flat[w - 1].ram, 0.0))
  }

  ghost predicate Free(filled: Res, unused: Res) {
    filled.cpu <= unused.cpu && filled.ram <= unused.ram
  }

  /** The number of leading instances that are accepted one after the other, counting on from w. */
  ghost function Accepted(flat: seq<Spec>, unused: Res, w: nat): (r: nat)
    requires w <= |flat|
    ensures w <= r <= |flat|
    decreases |flat| - w
  {
    if w < |flat| && Free(Filled(flat, w + 1), unused) then Accepted(flat, unused, w + 1) else w
  }

  ghost function WindowSize(queue: seq<Job>, unused: Res): nat {
    Accepted(Flat(queue), unused, 0)
  }

  /** The number of tasks in the shortest prefix, counting on from k, that holds at least w instances. */
  ghost function Cover(queue: seq<Job>, w: int, k: nat): (r: nat)
    requires k <= |queue|
    ensures k <= r <= |queue|
    ensures r < |queue| ==> Instances(queue[..r]) >= w
    ensures forall s :: k <= s < r ==> Instances(queue[..s]) < w
    decreases |queue| - k
  {
    if k == |queue| || Instances(queue[..k]) >= w then k else Cover(queue, w, k + 1)
  }

  lemma {:induction false} FlatLength(queue: seq<Job>)
    requires Positive(queue)
    ensures |Flat(queue)| == Instances(queue)
  {
    if queue != [] {
      assert forall j :: j in queue[..|queue| - 1] ==> j in queue;
      assert queue[|queue| - 1] in queue;
      FlatLength(queue[..|queue| - 1]);
    }
  }

  lemma {:induction false} FlatPrefix(queue: seq<Job>, k: nat)
    requires k <= |queue|
    ensures Flat(queue[..k]) <= Flat(queue)
    decreases |queue|
  {
    if k < |queue| {
      assert queue[..|queue| - 1][..k] == queue[..k];
      FlatPrefix(queue[..|queue| - 1], k);
    } else {
      assert queue[..k] == queue;
    }
  }

  lemma {:induction false} FilledPrefix(a: seq<Spec>, b: seq<Spec>, w: nat)
    requires w <= |a| && a <= b
    ensures Filled(a, w) == Filled(b, w)
  {
    if w > 0 {
      FilledPrefix(a, b, w - 1);
    }
  }

  lemma {:induction false} InstancesMonotone(queue: seq<Job>, a: nat, b: nat)
    requires Positive(queue) && a <= b <= |queue|
    ensures Instances(queue[..a]) + (b - a) <= Instances(queue[..b])
    decreases b
  {
    if a < b {
      assert queue[..b][..b - 1] == queue[..b - 1];
      assert queue[b - 1] in queue;
      InstancesMonotone(queue, a, b - 1);
    }
  }

  lemma {:induction false} CoverFound(queue: seq<Job>, w: int, k: nat, r: nat)
    requires k <= r <= |queue| && (r < |queue| ==> Instances(queue[..r]) >= w)
    requires forall s :: k <= s < r ==> Instances(queue[..s]) < w
    ensures Cover(queue, w, k) == r
    decreases r - k
  {
    if k < r {
      CoverFound(queue, w, k + 1, r);
    }
  }

  lemma {:induction false} AcceptedFound(flat: seq<Spec>, unused: Res, w: nat, r: nat)
    requires w <= r <= |flat| && forall v :: w < v <= r ==> Free(Filled(flat, v), unused)
    requires r < |flat| ==> !Free(Filled(flat, r + 1), unused)
    ensures Accepted(flat, unused, w) == r
    decreases r - w
  {
    if w < r {
      AcceptedFound(flat, unused, w + 1, r);
    }
  }

  lemma {:induction false} AcceptedMeans(flat: seq<Spec>, unused: Res, w: nat)
    requires w <= |flat|
    ensures var r := Accepted(flat, unused, w);
            && (forall v :: w < v <= r ==> Free(Filled(flat, v), unused))
            && (r < |flat| ==> !Free(Filled(flat, r + 1), unused))
    decreases |flat| - w
  {
    if w < |flat| && Free(Filled(flat, w + 1), unused) {
      AcceptedMeans(flat, unused, w + 1);
    }
  }

  /** The instance that ends the window and everything behind it. */
  lemma {:induction false} FilledGrows(flat: seq<Spec>, a: nat, b: nat)
    requires a <= b <= |flat| && forall s :: s in flat ==> s.cpu >= 0.0 && s.ram >= 0.0
    ensures Filled(flat, a).cpu <= Filled(flat, b).cpu && Filled(flat, a).ram <= Filled(flat, b).ram
    decreases b
  {
    if a < b {
      assert flat[b - 1] in flat;
      FilledGrows(flat, a, b - 1);
    }
  }

  lemma {:induction false} FilledSums(flat: seq<Spec>, w: nat)
    requires w <= |flat|
    ensures Filled(flat, w).cpu == SumBy(flat[..w], (s: Spec) => s.cpu)
    ensures Filled(flat, w).ram == SumBy(flat[..w], (s: Spec) => s.ram)
  {
    if w > 0 {
      FilledSums(flat, w - 1);
      assert flat[..w] == flat[..w - 1] + [flat[w - 1]];
      SumByMore(flat[..w - 1], flat[w - 1], (s: Spec) => s.cpu);
      SumByMore(flat[..w - 1], flat[w - 1], (s: Spec) => s.ram);
    }
  }

  /** There are as many pending instances as pending ids. */
  lemma {:induction false} InstancesArePending(queue: seq<Job>)
    requires Positive(queue)
    ensures Instances(queue) == |PendingIds(queue)|
  {
    if queue != [] {
      var front, last := queue[..|queue| - 1], queue[|queue| - 1];
      assert queue == front + [last] && last in queue;
      InstancesArePending(front);
      PendingIdsConcat(front, [last]);
      assert [last][1..] == [];
      InstanceIdsSize(last.spec.name, last.n);
    }
  }

  lemma {:induction false} InstanceIdsSize(name: string, n: nat)
    ensures |InstanceIds(name, n)| == n
  {
    if n > 0 {
      InstanceIdsSize(name, n - 1);
    }
  }

  /** With non-negative needs the window is the largest number of leading instances whose summed CPU and RAM
      are unused: it fits if it is not zero, and no larger number fits. */
  lemma WindowIsLargest(queue: seq<Job>, unused: Res, v: nat)
    requires forall s :: s in Flat(queue) ==> s.cpu >= 0.0 && s.ram >= 0.0
    requires 1 <= v <= |Flat(queue)|
    ensures SumBy(Flat(queue)[..v], (s: Spec) => s.cpu) <= unused.cpu && SumBy(Flat(queue)[..v], (s: Spec) => s.ram) <= unused.ram
            <==> v <= WindowSize(queue, unused)
  {
    var flat, w := Flat(queue), WindowSize(queue, unused);
    FilledSums(flat, v);
    AcceptedMeans(flat, unused, 0);
    if v > w {
      FilledGrows(flat, w + 1, v);
    }
  }

  /** The first w instances have been accepted and fill cpu and ram. */
  ghost predicate FilledTo(flat: seq<Spec>, unused: Res, w: nat, cpu: real, ram: real) {
    && w <= |flat| && Filled(flat, w) == Res(cpu, ram, 0.0)
    && forall v :: 0 < v <= w ==> Free(Filled(flat, v), unused)
  }

  /** The window ends before instance w + 1. */
  ghost predicate Ends(flat: seq<Spec>, unused: Res, w: nat) {
    w < |flat| && !Free(Filled(flat, w + 1), unused)
  }

  /** Trying the next instance extends the window or ends it. */
  lemma TryNext(flat: seq<Spec>, unused: Res, w: nat, cpu: real, ram: real)
    requires w < |flat| && FilledTo(flat, unused, w, cpu, ram)
    ensures if cpu + flat[w].cpu <= unused.cpu && ram + flat[w].ram <= unused.ram
            then FilledTo(flat, unused, w + 1, cpu + flat[w].cpu, ram + flat[w].ram)
            else Ends(flat, unused, w)
  {
    assert Filled(flat, w + 1) == Res(cpu + flat[w].cpu, ram + flat[w].ram, 0.0);
  }

  /** Instance a of task t is the next one to try. */
  lemma TryInstance(queue: seq<Job>, t: nat, a: nat, unused: Res, w: nat, cpu: real, ram: real)
    requires t < |queue| && Positive(queue) && a < queue[t].n && w == Instances(queue[..t]) + a
    requires FilledTo(Flat(queue), unused, w, cpu, ram)
    ensures if cpu + queue[t].spec.cpu <= unused.cpu && ram + queue[t].spec.ram <= unused.ram
            then FilledTo(Flat(queue), unused, w + 1, cpu + queue[t].spec.cpu, ram + queue[t].spec.ram)
            else Ends(Flat(queue), unused, w)
  {
    NextInstance(queue, t, a);
    TryNext(Flat(queue), unused, w, cpu, ram);
  }

  /** The window size and the number of tasks that contribute to it. The second equals the number of tasks that
      the window classifier looks at for that size, so sorting that many leading tasks is always possible. */
  method Apply(queue: seq<Job>, unused: Res) returns (newSchedWindow: nat, numberOfTasksTraversed: nat)
    requires Positive(queue)
    ensures newSchedWindow == WindowSize(queue, unused)
    ensures numberOfTasksTraversed == Cover(queue, newSchedWindow, 0) <= |queue|
  {
    newSchedWindow, numberOfTasksTraversed := 0, 0;
    var filledCPU, filledRAM := 0.0, 0.0;
    var done := false;
    ghost var flat := Flat(queue);
    var t := 0;
    while t < |queue| && !done
      invariant 0 <= t <= |queue|
      invariant FilledTo(flat, unused, newSchedWindow, filledCPU, filledRAM)
      invariant !done ==> newSchedWindow == Instances(queue[..t]) && numberOfTasksTraversed == t
      invariant done ==> Ends(flat, unused, newSchedWindow) && numberOfTasksTraversed == Cover(queue, newSchedWindow, 0)
      decreases |queue| - t, !done
    {
      var task := queue[t];
      assert task in queue;
      numberOfTasksTraversed := numberOfTasksTraversed + 1;
      var i := task.n;
      while i > 0 && !done
        invariant 0 <= i <= task.n
        invariant newSchedWindow == Instances(queue[..t]) + (task.n - i)
        invariant FilledTo(flat, unused, newSchedWindow, filledCPU, filledRAM)
        invariant done ==> i > 0 && Ends(flat, unused, newSchedWindow)
        invariant numberOfTasksTraversed == if done && i == task.n then t else t + 1
        decreases i, !done
      {
        TryInstance(queue, t, task.n - i, unused, newSchedWindow, filledCPU, filledRAM);
        if filledCPU + task.spec.cpu <= unused.cpu && filledRAM + task.spec.ram <= unused.ram {
          filledCPU, filledRAM := filledCPU + task.spec.cpu, filledRAM + task.spec.ram;
          newSchedWindow := newSchedWindow + 1;
          i := i - 1;
        } else {
          done := true;
          if i == task.n {
            numberOfTasksTraversed := numberOfTasksTraversed - 1;
          }
        }
      }
      if done {
        CoverAt(queue, newSchedWindow, numberOfTasksTraversed, t, task.n - i);
      } else {
        InstancesNext(queue, t);
        t := t + 1;
      }
    }
    if !done {
      CoverAll(queue);
    }
    AcceptedFound(flat, unused, 0, newSchedWindow);
  }

  lemma NextInstance(queue: seq<Job>, t: nat, a: nat)
    requires t < |queue| && Positive(queue) && a < queue[t].n
    ensures Instances(queue[..t]) + a < |Flat(queue)|
    ensures Instances(queue[..t]) >= 0 && Flat(queue)[Instances(queue[..t]) + a] == queue[t].spec
  {
    var upTo := queue[..t + 1];
    assert upTo[..t] == queue[..t] && upTo[t] == queue[t];
    FlatPrefix(queue, t + 1);
    FlatLength(queue[..t]);
    assert Flat(upTo) == Flat(queue[..t]) + Copies(queue[t].spec, queue[t].n);
  }

  /** A prefix of t tasks and a further instances is covered by t tasks if a is zero and by t + 1 otherwise. */
  lemma CoverAt(queue: seq<Job>, w: int, r: nat, t: nat, a: nat)
    requires t < |queue| && Positive(queue) && a < queue[t].n
    requires w == Instances(queue[..t]) + a && r == if a == 0 then t else t + 1
    ensures Cover(queue, w, 0) == r
  {
    assert queue[..t + 1][..t] == queue[..t];
    forall s | 0 <= s < r
      ensures Instances(queue[..s]) < w
    {
      InstancesMonotone(queue, s, t);
    }
    CoverFound(queue, w, 0, r);
  }

  lemma InstancesNext(queue: seq<Job>, t: nat)
    requires t < |queue|
    ensures Instances(queue[..t + 1]) == Instances(queue[..t]) + queue[t].n
  {
    assert queue[..t + 1][..t] == queue[..t];
  }

  lemma CoverAll(queue: seq<Job>)
    requires Positive(queue)
    ensures |Flat(queue)| == Instances(queue) == Instances(queue[..|queue|])
    ensures Cover(queue, Instances(queue), 0) == |queue|
  {
    assert queue[..|queue|] == queue;
    FlatLength(queue);
    forall s | 0 <= s < |queue|
      ensures Instances(queue[..s]) < Instances(queue)
    {
      InstancesMonotone(queue, s, |queue|);
    }
    CoverFound(queue, Instances(queue), 0, |queue|);
  }
}
