/** What one resource offer does to the queue under each scheduling policy, on values.
    The methods of Scheduler.dfy are proved against these functions. */
module Packing {
  import opened Sorting
  import opened Workload

  datatype Policy = FirstFit | BinPacking | MaxGreedyMins | MaxMin

  /** The scheduler's settings while it consumes offers. */
  datatype Ctx = Ctx(wattsAsAResource: bool, classMapWatts: bool, switching: bool, window: int)

  /** The state threaded through one offer: the queue, the policy's count of scheduled instances,
      the totals charged to the offer, and the instances picked so far (`n` is the instance number). */
  datatype Fill = Fill(queue: seq<Job>, scheduled: int, used: Res, picks: seq<Job>)

  /** The policy may still schedule: switching is off or the window is not exhausted. */
  predicate Open(c: Ctx, scheduled: int) {
    !(c.switching && scheduled >= c.window)
  }

  function Need(c: Ctx, o: Offer, spec: Spec): Res {
    Res(spec.cpu, spec.ram, WattsToConsider(spec, c.classMapWatts, o).value)
  }

  ghost predicate Within(c: Ctx, o: Offer, used: Res) {
    && used.cpu <= Agg(o).cpu && used.ram <= Agg(o).ram
    && (c.wattsAsAResource ==> used.watts <= Agg(o).watts)
  }

  ghost predicate Fits(c: Ctx, o: Offer, used: Res, spec: Spec) {
    Within(c, o, used.Plus(Need(c, o, spec)))
  }

  predicate Matches(o: Offer, spec: Spec) {
    !HostMismatch(o.hostname, spec.host)
  }

  ghost predicate Placeable(c: Ctx, o: Offer, used: Res, spec: Spec) {
    Matches(o, spec) && Fits(c, o, used, spec)
  }

  /** The queue after one instance of entry i was launched. */
  function Launch(queue: seq<Job>, i: nat): (after: seq<Job>)
    requires i < |queue|
    ensures |after| == if queue[i].n <= 1 then |queue| - 1 else |queue|
  {
    if queue[i].n <= 1 then Without(queue, i) else queue[i := queue[i].(n := queue[i].n - 1)]
  }

  function Take(c: Ctx, o: Offer, f: Fill, i: nat): Fill
    requires i < |f.queue|
  {
    var job := f.queue[i];
    Fill(Launch(f.queue, i), f.scheduled + 1, f.used.Plus(Need(c, o, job.spec)), f.picks + [job])
  }

  // ----- the four policies

  /** Instances of entry i are taken until it runs out, stops fitting or the window closes. */
  ghost function Drain(c: Ctx, o: Offer, f: Fill, i: nat): (g: Fill)
    requires i < |f.queue|
    ensures |f.queue| - 1 <= |g.queue| <= |f.queue|
    decreases f.queue[i].n
  {
    if !Open(c, f.scheduled) || !Fits(c, o, f.used, f.queue[i].spec) then f
    else if f.queue[i].n <= 1 then Take(c, o, f, i)
    else Drain(c, o, Take(c, o, f, i), i)
  }

  lemma DrainTake(c: Ctx, o: Offer, f: Fill, i: nat, t: Fill)
    requires i < |f.queue| && Open(c, f.scheduled) && Fits(c, o, f.used, f.queue[i].spec) && t == Take(c, o, f, i)
    ensures t.queue == Launch(f.queue, i) && t.scheduled == f.scheduled + 1
    ensures t.used == f.used.Plus(Need(c, o, f.queue[i].spec)) && t.picks == f.picks + [f.queue[i]]
    ensures f.queue[i].n <= 1 ==> Drain(c, o, f, i) == t
    ensures f.queue[i].n > 1 ==> Drain(c, o, f, i) == Drain(c, o, t, i)
  {
  }

  lemma DrainStop(c: Ctx, o: Offer, f: Fill, i: nat)
    requires i < |f.queue| && !(Open(c, f.scheduled) && Fits(c, o, f.used, f.queue[i].spec))
    ensures Drain(c, o, f, i) == f
  {
  }

  /** The greedy pass from entry i on. The cursor always moves one entry up, also after a removal. */
  ghost function Greedy(c: Ctx, o: Offer, f: Fill, i: nat): Fill
    decreases |f.queue| - i
  {
    if i >= |f.queue| then f
    else if !Matches(o, f.queue[i].spec) then Greedy(c, o, f, i + 1)
    else Greedy(c, o, Drain(c, o, f, i), i + 1)
  }

  lemma GreedyStep(c: Ctx, o: Offer, f: Fill, i: nat)
    requires i < |f.queue|
    ensures Greedy(c, o, f, i) == Greedy(c, o, if Matches(o, f.queue[i].spec) then Drain(c, o, f, i) else f, i + 1)
  {
  }

  /** One instance of the last placeable entry among 0..i-1. */
  ghost function Heaviest(c: Ctx, o: Offer, f: Fill, i: nat): Fill
    requires i <= |f.queue|
  {
    if i == 0 || !Open(c, f.scheduled) then f
    else if Placeable(c, o, f.used, f.queue[i - 1].spec) then Take(c, o, f, i - 1)
    else Heaviest(c, o, f, i - 1)
  }

  /** One instance of the first placeable entry from i on. */
  ghost function First(c: Ctx, o: Offer, f: Fill, i: nat): Fill
    decreases |f.queue| - i
  {
    if i >= |f.queue| || !Open(c, f.scheduled) then f
    else if Placeable(c, o, f.used, f.queue[i].spec) then Take(c, o, f, i)
    else First(c, o, f, i + 1)
  }

  lemma HeaviestStep(c: Ctx, o: Offer, f: Fill, i: nat)
    requires 0 < i <= |f.queue| && Open(c, f.scheduled)
    ensures Heaviest(c, o, f, i) == if Placeable(c, o, f.used, f.queue[i - 1].spec) then Take(c, o, f, i - 1)
                                    else Heaviest(c, o, f, i - 1)
  {
  }

  lemma FirstStep(c: Ctx, o: Offer, f: Fill, i: nat)
    requires i < |f.queue| && Open(c, f.scheduled)
    ensures First(c, o, f, i) == if Placeable(c, o, f.used, f.queue[i].spec) then Take(c, o, f, i) else First(c, o, f, i + 1)
  {
  }

  /** The cursor of the max-min scan over n entries after i failed tries: fresh, walking up from the front,
      or walking down from the back. */
  predicate CursorOk(n: nat, i: nat, index: int, direction: bool, start: bool) {
    start || (if direction then 0 <= index <= i else n - 1 - i <= index <= n - 1)
  }

  /** The entry a try looks at. */
  function Cursor(n: nat, i: nat, index: int, direction: bool, start: bool): (k: int)
    requires i < n && CursorOk(n, i, index, direction, start)
    ensures 0 <= k < n
    ensures direction ==> k <= i
    ensures !direction ==> n - 1 - i <= k
  {
    if start then (if direction then 0 else n - i - 1) else index
  }

  ghost function Total(queue: seq<Job>): nat {
    if queue == [] then 0 else Total(queue[1..]) + if queue[0].n > 0 then queue[0].n else 1
  }

  lemma {:induction false} TotalConcat(a: seq<Job>, b: seq<Job>)
    ensures Total(a + b) == Total(a) + Total(b)
  {
    if a == [] {
      assert a + b == b;
    } else {
      assert (a + b)[1..] == a[1..] + b;
      TotalConcat(a[1..], b);
    }
  }

  /** Changing one entry changes the total by that entry's share. */
  lemma TotalReplace(front: seq<Job>, before: seq<Job>, after: seq<Job>, back: seq<Job>)
    ensures Total(front + after + back) - Total(after) == Total(front + before + back) - Total(before)
  {
    TotalConcat(front + before, back);
    TotalConcat(front, before);
    TotalConcat(front + after, back);
    TotalConcat(front, after);
  }

  lemma TotalOne(job: Job)
    ensures Total([job]) == if job.n > 0 then job.n else 1
  {
    assert [job][1..] == [];
  }

  /** Launching is replacing one entry by what is left of it. */
  lemma LaunchReplaces(queue: seq<Job>, i: nat)
    requires i < |queue|
    ensures queue == queue[..i] + [queue[i]] + queue[i + 1..]
    ensures Launch(queue, i) == queue[..i] + Rest(queue[i]) + queue[i + 1..]
  {
    assert queue[..i] + [] + queue[i + 1..] == queue[..i] + queue[i + 1..];
  }

  function Rest(job: Job): seq<Job> {
    if job.n <= 1 then [] else [job.(n := job.n - 1)]
  }

  lemma TotalLaunch(queue: seq<Job>, i: nat)
    requires i < |queue|
    ensures Total(Launch(queue, i)) == Total(queue) - 1
  {
    var job := queue[i];
    LaunchReplaces(queue, i);
    TotalReplace(queue[..i], [job], Rest(job), queue[i + 1..]);
    TotalOne(job);
    TotalOne(job.(n := job.n - 1));
  }

  /** The two-directional scan. It ends because every try either launches an instance or uses up one of
      the |queue| tries. A mismatch leaves the cursor where it is. */
  ghost function Scan(c: Ctx, o: Offer, f: Fill, i: nat, index: int, direction: bool, start: bool): Fill
    requires CursorOk(|f.queue|, i, index, direction, start)
    decreases Total(f.queue), |f.queue| - i
  {
    if i >= |f.queue| || !Open(c, f.scheduled) then f
    else
      var k := Cursor(|f.queue|, i, index, direction, start);
      if !Matches(o, f.queue[k].spec) then Scan(c, o, f, i + 1, k, direction, start)
      else if Fits(c, o, f.used, f.queue[k].spec) then
        (TotalLaunch(f.queue, k);
         Scan(c, o, Take(c, o, f, k), i, k, !direction, true))
      else Scan(c, o, f, i + 1, if direction then k + 1 else k - 1, direction, false)
  }

  /** The variables of the scan loop. */
  datatype Cursors = Cursors(f: Fill, i: nat, index: int, direction: bool, start: bool)

  ghost predicate Trying(c: Ctx, s: Cursors) {
    s.i < |s.f.queue| && Open(c, s.f.scheduled) && CursorOk(|s.f.queue|, s.i, s.index, s.direction, s.start)
  }

  /** One try of the scan: a mismatch, a launch, or a task that does not fit. */
  ghost function Try(c: Ctx, o: Offer, s: Cursors): (t: Cursors)
    requires Trying(c, s)
    ensures CursorOk(|t.f.queue|, t.i, t.index, t.direction, t.start)
  {
    var k := Cursor(|s.f.queue|, s.i, s.index, s.direction, s.start);
    if !Matches(o, s.f.queue[k].spec) then s.(i := s.i + 1, index := k)
    else if Fits(c, o, s.f.used, s.f.queue[k].spec) then Cursors(Take(c, o, s.f, k), s.i, k, !s.direction, true)
    else s.(i := s.i + 1, index := if s.direction then k + 1 else k - 1, start := false)
  }

  lemma ScanTry(c: Ctx, o: Offer, s: Cursors, t: Cursors)
    requires Trying(c, s) && t == Try(c, o, s)
    ensures Scan(c, o, s.f, s.i, s.index, s.direction, s.start) == Scan(c, o, t.f, t.i, t.index, t.direction, t.start)
    ensures Total(t.f.queue) < Total(s.f.queue) || (t.f.queue == s.f.queue && t.i == s.i + 1)
  {
    TotalLaunch(s.f.queue, Cursor(|s.f.queue|, s.i, s.index, s.direction, s.start));
  }

  /** The three outcomes of a try at entry k. */
  lemma TryCases(c: Ctx, o: Offer, s: Cursors, k: nat, t: Cursors)
    requires Trying(c, s) && k == Cursor(|s.f.queue|, s.i, s.index, s.direction, s.start) && t == Try(c, o, s)
    ensures !Matches(o, s.f.queue[k].spec) ==> t == s.(i := s.i + 1, index := k)
    ensures Placeable(c, o, s.f.used, s.f.queue[k].spec) ==>
              t == Cursors(Take(c, o, s.f, k), s.i, k, !s.direction, true)
    ensures Matches(o, s.f.queue[k].spec) && !Fits(c, o, s.f.used, s.f.queue[k].spec) ==>
              t == s.(i := s.i + 1, index := if s.direction then k + 1 else k - 1, start := false)
  {
  }

  function Fresh(queue: seq<Job>, scheduled: int): Fill {
    Fill(queue, scheduled, ZERO, [])
  }

  ghost function Consume(p: Policy, c: Ctx, o: Offer, queue: seq<Job>, scheduled: int): Fill {
    var f := Fresh(queue, scheduled);
    match p
    case FirstFit => First(c, o, f, 0)
    case BinPacking => Greedy(c, o, f, 0)
    case MaxGreedyMins => Greedy(c, o, Heaviest(c, o, f, |queue|), 0)
    case MaxMin => Scan(c, o, f, 0, 0, false, true)
  }

  // ----- every policy only takes placeable instances

  ghost predicate Guarded(c: Ctx, o: Offer, f: Fill, taken: seq<nat>)
    decreases |taken|
  {
    taken == [] ||
    var i := taken[0];
    && i < |f.queue| && Open(c, f.scheduled) && Placeable(c, o, f.used, f.queue[i].spec)
    && Guarded(c, o, Take(c, o, f, i), taken[1..])
  }

  ghost function TakeAll(c: Ctx, o: Offer, f: Fill, taken: seq<nat>): Fill
    requires Guarded(c, o, f, taken)
    decreases |taken|
  {
    if taken == [] then f else TakeAll(c, o, Take(c, o, f, taken[0]), taken[1..])
  }

  lemma TakeFirst(c: Ctx, o: Offer, f: Fill, i: nat, rest: seq<nat>)
    requires i < |f.queue| && Open(c, f.scheduled) && Placeable(c, o, f.used, f.queue[i].spec)
    requires Guarded(c, o, Take(c, o, f, i), rest)
    ensures Guarded(c, o, f, [i] + rest)
    ensures TakeAll(c, o, f, [i] + rest) == TakeAll(c, o, Take(c, o, f, i), rest)
  {
    assert ([i] + rest)[1..] == rest;
  }

  lemma {:induction false} TakeMore(c: Ctx, o: Offer, f: Fill, a: seq<nat>, b: seq<nat>)
    requires Guarded(c, o, f, a) && Guarded(c, o, TakeAll(c, o, f, a), b)
    ensures Guarded(c, o, f, a + b)
    ensures TakeAll(c, o, f, a + b) == TakeAll(c, o, TakeAll(c, o, f, a), b)
    decreases |a|
  {
    if a == [] {
      assert a + b == b;
    } else {
      assert (a + b)[1..] == a[1..] + b;
      TakeMore(c, o, Take(c, o, f, a[0]), a[1..], b);
    }
  }

  lemma {:induction false} DrainTakes(c: Ctx, o: Offer, f: Fill, i: nat) returns (taken: seq<nat>)
    requires i < |f.queue| && Matches(o, f.queue[i].spec)
    ensures Guarded(c, o, f, taken) && TakeAll(c, o, f, taken) == Drain(c, o, f, i)
    decreases f.queue[i].n
  {
    taken := [];
    if Open(c, f.scheduled) && Fits(c, o, f.used, f.queue[i].spec) {
      if f.queue[i].n > 1 {
        taken := DrainTakes(c, o, Take(c, o, f, i), i);
      }
      TakeFirst(c, o, f, i, taken);
      taken := [i] + taken;
    }
  }

  lemma {:induction false} GreedyTakes(c: Ctx, o: Offer, f: Fill, i: nat) returns (taken: seq<nat>)
    ensures Guarded(c, o, f, taken) && TakeAll(c, o, f, taken) == Greedy(c, o, f, i)
    decreases |f.queue| - i
  {
    taken := [];
    if i < |f.queue| {
      if !Matches(o, f.queue[i].spec) {
        taken := GreedyTakes(c, o, f, i + 1);
      } else {
        var now := DrainTakes(c, o, f, i);
        var later := GreedyTakes(c, o, Drain(c, o, f, i), i + 1);
        TakeMore(c, o, f, now, later);
        taken := now + later;
      }
    }
  }

  lemma {:induction false} HeaviestTakes(c: Ctx, o: Offer, f: Fill, i: nat) returns (taken: seq<nat>)
    requires i <= |f.queue|
    ensures Guarded(c, o, f, taken) && TakeAll(c, o, f, taken) == Heaviest(c, o, f, i)
  {
    taken := [];
    if i > 0 && Open(c, f.scheduled) {
      if Placeable(c, o, f.used, f.queue[i - 1].spec) {
        TakeFirst(c, o, f, i - 1, []);
        taken := [i - 1] + [];
      } else {
        taken := HeaviestTakes(c, o, f, i - 1);
      }
    }
  }

  lemma {:induction false} FirstTakes(c: Ctx, o: Offer, f: Fill, i: nat) returns (taken: seq<nat>)
    ensures Guarded(c, o, f, taken) && TakeAll(c, o, f, taken) == First(c, o, f, i)
    decreases |f.queue| - i
  {
    taken := [];
    if i < |f.queue| && Open(c, f.scheduled) {
      if Placeable(c, o, f.used, f.queue[i].spec) {
        TakeFirst(c, o, f, i, []);
        taken := [i] + [];
      } else {
        taken := FirstTakes(c, o, f, i + 1);
      }
    }
  }

  lemma {:induction false} ScanTakes(c: Ctx, o: Offer, f: Fill, i: nat, index: int, direction: bool, start: bool)
    returns (taken: seq<nat>)
    requires CursorOk(|f.queue|, i, index, direction, start)
    ensures Guarded(c, o, f, taken)
    ensures TakeAll(c, o, f, taken) == Scan(c, o, f, i, index, direction, start)
    decreases Total(f.queue), |f.queue| - i
  {
    taken := [];
    if i < |f.queue| && Open(c, f.scheduled) {
      var k := Cursor(|f.queue|, i, index, direction, start);
      if !Matches(o, f.queue[k].spec) {
        taken := ScanTakes(c, o, f, i + 1, k, direction, start);
      } else if Fits(c, o, f.used, f.queue[k].spec) {
        TotalLaunch(f.queue, k);
        taken := ScanTakes(c, o, Take(c, o, f, k), i, k, !direction, true);
        TakeFirst(c, o, f, k, taken);
        taken := [k] + taken;
      } else {
        taken := ScanTakes(c, o, f, i + 1, if direction then k + 1 else k - 1, direction, false);
      }
    }
  }

  /** Whatever the policy, consuming an offer is a sequence of launches, each of an instance that matched
      the host and fitted what was left of the offer while the window was open. */
  lemma ConsumeTakes(p: Policy, c: Ctx, o: Offer, queue: seq<Job>, scheduled: int) returns (taken: seq<nat>)
    ensures Guarded(c, o, Fresh(queue, scheduled), taken)
    ensures TakeAll(c, o, Fresh(queue, scheduled), taken) == Consume(p, c, o, queue, scheduled)
  {
    var f := Fresh(queue, scheduled);
    match p
    case FirstFit => taken := FirstTakes(c, o, f, 0);
    case BinPacking => taken := GreedyTakes(c, o, f, 0);
    case MaxGreedyMins =>
      taken := HeaviestTakes(c, o, f, |queue|);
      var rest := GreedyTakes(c, o, TakeAll(c, o, f, taken), 0);
      TakeMore(c, o, f, taken, rest);
      taken := taken + rest;
    case MaxMin => taken := ScanTakes(c, o, f, 0, 0, false, true);
  }
}
