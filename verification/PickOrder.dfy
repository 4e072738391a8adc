/** The order in which policies pick tasks. For max-min, when no task asks for a host and switching is off: its
    cursor machine against a description by "lowest" and "highest" fitting entries. */
module PickOrder {
  import opened Workload
  import opened Packing
  import opened PackingTheorems

  ghost predicate FitsAt(c: Ctx, o: Offer, f: Fill, k: nat) {
    k < |f.queue| && Fits(c, o, f.used, f.queue[k].spec)
  }

  /** The lowest fitting entry in lo..hi-1. */
  ghost function Lowest(c: Ctx, o: Offer, f: Fill, lo: nat, hi: nat): (r: Option<nat>)
    requires lo <= hi <= |f.queue|
    ensures r.Some? ==> lo <= r.value < hi && FitsAt(c, o, f, r.value) && forall k :: lo <= k < r.value ==> !FitsAt(c, o, f, k)
    ensures r.None? ==> forall k :: lo <= k < hi ==> !FitsAt(c, o, f, k)
    decreases hi - lo
  {
    if lo == hi then None else if FitsAt(c, o, f, lo) then Some(lo) else Lowest(c, o, f, lo + 1, hi)
  }

  /** The highest fitting entry in 0..hi-1. */
  ghost function Highest(c: Ctx, o: Offer, f: Fill, hi: nat): (r: Option<nat>)
    requires hi <= |f.queue|
    ensures r.Some? ==> r.value < hi && FitsAt(c, o, f, r.value) && forall k :: r.value < k < hi ==> !FitsAt(c, o, f, k)
    ensures r.None? ==> forall k :: 0 <= k < hi ==> !FitsAt(c, o, f, k)
  {
    if hi == 0 then None else if FitsAt(c, o, f, hi - 1) then Some(hi - 1) else Highest(c, o, f, hi - 1)
  }

  /** The entry the next pick takes, if any. */
  ghost function Pick(c: Ctx, o: Offer, f: Fill, failed: nat, front: bool): Option<nat>
    requires failed <= |f.queue|
  {
    if front then Lowest(c, o, f, 0, |f.queue| - failed) else Highest(c, o, f, |f.queue| - failed)
  }

  /** The entries passed over on the way to pick k. */
  ghost function Passed(f: Fill, failed: nat, front: bool, k: nat): nat
    requires k < |f.queue| - failed
  {
    if front then k else |f.queue| - failed - 1 - k
  }

  /** Picks alternate between the front and the back. With n entries queued and `failed` tries used up, a front
      pick is the lowest fitting of the first n - failed entries and a back pick the highest fitting of them;
      the entries passed over add to `failed`. The first side without a fit ends the offer. */
  ghost function Alternate(c: Ctx, o: Offer, f: Fill, failed: nat, front: bool): Fill
    decreases Total(f.queue)
  {
    if failed >= |f.queue| then f
    else
      var pick := Pick(c, o, f, failed, front);
      if pick.None? then f
      else
        (TotalLaunch(f.queue, pick.value);
         Alternate(c, o, Take(c, o, f, pick.value), failed + Passed(f, failed, front, pick.value), !front))
  }

  ghost predicate NoHosts(o: Offer, queue: seq<Job>) {
    forall k :: 0 <= k < |queue| ==> Matches(o, queue[k].spec)
  }

  lemma NoHostsLaunch(o: Offer, queue: seq<Job>, i: nat)
    requires i < |queue| && NoHosts(o, queue)
    ensures NoHosts(o, Launch(queue, i))
  {
    forall k | 0 <= k < |Launch(queue, i)|
      ensures Matches(o, Launch(queue, i)[k].spec)
    {
      var q := if queue[i].n <= 1 && k >= i then k + 1 else k;
      assert Launch(queue, i)[k].spec == queue[q].spec;
    }
  }

  /** One failed try. */
  lemma Miss(c: Ctx, o: Offer, f: Fill, i: nat, index: int, direction: bool, start: bool, k: nat)
    requires !c.switching && NoHosts(o, f.queue) && i < |f.queue|
    requires CursorOk(|f.queue|, i, index, direction, start) && k == Cursor(|f.queue|, i, index, direction, start)
    requires !FitsAt(c, o, f, k)
    ensures Scan(c, o, f, i, index, direction, start)
            == Scan(c, o, f, i + 1, if direction then k + 1 else k - 1, direction, false)
  {
    var s := Cursors(f, i, index, direction, start);
    ScanTry(c, o, s, Try(c, o, s));
  }

  /** One launch. */
  lemma Hit(c: Ctx, o: Offer, f: Fill, i: nat, index: int, direction: bool, start: bool, k: nat)
    requires !c.switching && NoHosts(o, f.queue) && i < |f.queue|
    requires CursorOk(|f.queue|, i, index, direction, start) && k == Cursor(|f.queue|, i, index, direction, start)
    requires FitsAt(c, o, f, k)
    ensures Scan(c, o, f, i, index, direction, start) == Scan(c, o, Take(c, o, f, k), i, k, !direction, true)
  {
    var s := Cursors(f, i, index, direction, start);
    ScanTry(c, o, s, Try(c, o, s));
  }

  /** From a cursor at entry `at`, going up, the scan takes the first fit it meets. */
  lemma {:induction false} ScanUp(c: Ctx, o: Offer, f: Fill, failed: nat, at: nat, index: int, start: bool, k: nat)
    requires !c.switching && NoHosts(o, f.queue)
    requires at <= k < |f.queue| - failed && FitsAt(c, o, f, k) && forall q :: at <= q < k ==> !FitsAt(c, o, f, q)
    requires at == if start then 0 else index
    ensures CursorOk(|f.queue|, failed + at, index, true, start)
    ensures Scan(c, o, f, failed + at, index, true, start)
            == Scan(c, o, Take(c, o, f, k), failed + k, k, false, true)
    decreases k - at
  {
    if at == k {
      Hit(c, o, f, failed + at, index, true, start, k);
    } else {
      Miss(c, o, f, failed + at, index, true, start, at);
      ScanUp(c, o, f, failed, at + 1, at + 1, false, k);
    }
  }

  lemma {:induction false} ScanUpNone(c: Ctx, o: Offer, f: Fill, failed: nat, at: nat, index: int, start: bool)
    requires !c.switching && NoHosts(o, f.queue)
    requires at <= |f.queue| - failed && forall q :: at <= q < |f.queue| - failed ==> !FitsAt(c, o, f, q)
    requires at == if start then 0 else index
    ensures CursorOk(|f.queue|, failed + at, index, true, start)
    ensures Scan(c, o, f, failed + at, index, true, start) == f
    decreases |f.queue| - at
  {
    if failed + at < |f.queue| {
      Miss(c, o, f, failed + at, index, true, start, at);
      ScanUpNone(c, o, f, failed, at + 1, at + 1, false);
    }
  }

  /** From a cursor at entry hi - 1, going down, the scan takes the first fit it meets. */
  lemma {:induction false} ScanDown(c: Ctx, o: Offer, f: Fill, hi: nat, index: int, start: bool, k: nat)
    requires !c.switching && NoHosts(o, f.queue)
    requires k < hi <= |f.queue| && FitsAt(c, o, f, k) && forall q :: k < q < hi ==> !FitsAt(c, o, f, q)
    requires start || index == hi - 1
    ensures CursorOk(|f.queue|, |f.queue| - hi, index, false, start)
    ensures Scan(c, o, f, |f.queue| - hi, index, false, start)
            == Scan(c, o, Take(c, o, f, k), |f.queue| - 1 - k, k, true, true)
    decreases hi
  {
    var i := |f.queue| - hi;
    if k == hi - 1 {
      Hit(c, o, f, i, index, false, start, k);
    } else {
      Miss(c, o, f, i, index, false, start, hi - 1);
      assert |f.queue| - (hi - 1) == i + 1;
      ScanDown(c, o, f, hi - 1, hi - 2, false, k);
    }
  }

  lemma {:induction false} ScanDownNone(c: Ctx, o: Offer, f: Fill, hi: nat, index: int, start: bool)
    requires !c.switching && NoHosts(o, f.queue)
    requires hi <= |f.queue| && forall q :: 0 <= q < hi ==> !FitsAt(c, o, f, q)
    requires start || index == hi - 1
    ensures CursorOk(|f.queue|, |f.queue| - hi, index, false, start)
    ensures Scan(c, o, f, |f.queue| - hi, index, false, start) == f
    decreases hi
  {
    if hi > 0 {
      Miss(c, o, f, |f.queue| - hi, index, false, start, hi - 1);
      ScanDownNone(c, o, f, hi - 1, hi - 2, false);
    }
  }

  /** The scan makes the same next pick. */
  lemma ScanPicks(c: Ctx, o: Offer, f: Fill, failed: nat, index: int, front: bool)
    requires !c.switching && NoHosts(o, f.queue) && failed <= |f.queue|
    ensures var pick := Pick(c, o, f, failed, front);
            Scan(c, o, f, failed, index, front, true)
            == if pick.None? then f
               else Scan(c, o, Take(c, o, f, pick.value), failed + Passed(f, failed, front, pick.value), pick.value, !front, true)
  {
    var pick := Pick(c, o, f, failed, front);
    if front {
      if pick.None? { ScanUpNone(c, o, f, failed, 0, index, true); } else { ScanUp(c, o, f, failed, 0, index, true, pick.value); }
    } else {
      var hi := |f.queue| - failed;
      if pick.None? { ScanDownNone(c, o, f, hi, index, true); } else { ScanDown(c, o, f, hi, index, true, pick.value); }
    }
  }

  /** The state after pick k. */
  ghost predicate Goes(c: Ctx, o: Offer, f: Fill, failed: nat, front: bool, k: nat, t: Fill, next: nat)
    requires failed <= |f.queue|
  {
    && Pick(c, o, f, failed, front) == Some(k) && k < |f.queue| - failed
    && t == Take(c, o, f, k) && next == failed + Passed(f, failed, front, k)
  }

  lemma ScanGoes(c: Ctx, o: Offer, f: Fill, failed: nat, index: int, front: bool, k: nat, t: Fill, next: nat)
    requires !c.switching && NoHosts(o, f.queue) && failed <= |f.queue| && Goes(c, o, f, failed, front, k, t, next)
    ensures Scan(c, o, f, failed, index, front, true) == Scan(c, o, t, next, k, !front, true)
  {
    ScanPicks(c, o, f, failed, index, front);
  }

  lemma AlternateGoes(c: Ctx, o: Offer, f: Fill, failed: nat, front: bool, k: nat, t: Fill, next: nat)
    requires failed < |f.queue| && Goes(c, o, f, failed, front, k, t, next)
    ensures Alternate(c, o, f, failed, front) == Alternate(c, o, t, next, !front)
    ensures Total(t.queue) < Total(f.queue)
  {
    TotalLaunch(f.queue, k);
  }

  lemma {:induction false} ScanAlternates(c: Ctx, o: Offer, f: Fill, failed: nat, index: int, front: bool)
    requires !c.switching && NoHosts(o, f.queue)
    ensures Scan(c, o, f, failed, index, front, true) == Alternate(c, o, f, failed, front)
    decreases Total(f.queue)
  {
    if failed < |f.queue| {
      match Pick(c, o, f, failed, front) {
        case None => ScanPicks(c, o, f, failed, index, front);
        case Some(k) =>
          var t, next := Take(c, o, f, k), failed + Passed(f, failed, front, k);
          ScanGoes(c, o, f, failed, index, front, k, t, next);
          AlternateGoes(c, o, f, failed, front, k, t, next);
          NoHostsLaunch(o, f.queue, k);
          ScanAlternates(c, o, t, next, k, !front);
      }
    }
  }

  /** Max-min on an offer: back, front, back, ... from an untouched offer. */
  lemma MaxMinAlternates(c: Ctx, o: Offer, queue: seq<Job>, scheduled: int)
    requires !c.switching && NoHosts(o, queue)
    ensures Consume(MaxMin, c, o, queue, scheduled) == Alternate(c, o, Fresh(queue, scheduled), 0, false)
  {
    ScanAlternates(c, o, Fresh(queue, scheduled), 0, 0, false);
  }

  lemma {:induction false} AlternateKeepsPicks(c: Ctx, o: Offer, f: Fill, failed: nat, front: bool)
    ensures f.picks <= Alternate(c, o, f, failed, front).picks
    decreases Total(f.queue)
  {
    if failed < |f.queue| {
      match Pick(c, o, f, failed, front) {
        case None =>
        case Some(k) =>
          var t, next := Take(c, o, f, k), failed + Passed(f, failed, front, k);
          AlternateGoes(c, o, f, failed, front, k, t, next);
          AlternateKeepsPicks(c, o, t, next, !front);
      }
    }
  }

  /** On a queue sorted by watts, the first pick is a heaviest task among those that fit the offer. */
  lemma FirstPickHeaviest(c: Ctx, o: Offer, queue: seq<Job>, scheduled: int, k: nat)
    requires !c.switching && NoHosts(o, queue)
    requires forall i, j :: 0 <= i < j < |queue| ==> queue[i].spec.watts <= queue[j].spec.watts
    requires FitsAt(c, o, Fresh(queue, scheduled), k)
    ensures var picks := Consume(MaxMin, c, o, queue, scheduled).picks;
            picks != [] && queue[k].spec.watts <= picks[0].spec.watts
  {
    var f := Fresh(queue, scheduled);
    MaxMinAlternates(c, o, queue, scheduled);
    var top := Pick(c, o, f, 0, false).value;
    var t, next := Take(c, o, f, top), |queue| - 1 - top;
    AlternateGoes(c, o, f, 0, false, top, t, next);
    AlternateKeepsPicks(c, o, t, next, true);
    assert t.picks[0] == queue[top];
  }

  /** One pick from the front. */
  lemma FrontPick(c: Ctx, o: Offer, t: Fill, failed: nat, m: nat) returns (low: nat)
    requires failed + m < |t.queue| && FitsAt(c, o, t, m)
    ensures low <= m && t.picks + [t.queue[low]] <= Alternate(c, o, t, failed, true).picks
  {
    low := Pick(c, o, t, failed, true).value;
    AlternateGoes(c, o, t, failed, true, low, Take(c, o, t, low), failed + low);
    AlternateKeepsPicks(c, o, Take(c, o, t, low), failed + low, false);
  }

  /** One pick from the back. */
  lemma BackPick(c: Ctx, o: Offer, f: Fill, top: nat)
    requires FitsAt(c, o, f, top) && forall q :: top < q < |f.queue| ==> !FitsAt(c, o, f, q)
    ensures Alternate(c, o, f, 0, false) == Alternate(c, o, Take(c, o, f, top), |f.queue| - 1 - top, true)
  {
    assert Pick(c, o, f, 0, false) == Some(top);
    AlternateGoes(c, o, f, 0, false, top, Take(c, o, f, top), |f.queue| - 1 - top);
  }

  lemma TwoPicks(c: Ctx, o: Offer, f: Fill, t: Fill, top: nat, m: nat) returns (low: nat)
    requires FitsAt(c, o, f, top) && t == Take(c, o, f, top) && forall q :: top < q < |f.queue| ==> !FitsAt(c, o, f, q)
    requires m < top && FitsAt(c, o, t, m)
    ensures low <= m && t.queue[low] == f.queue[low]
    ensures f.picks + [f.queue[top]] + [t.queue[low]] <= Alternate(c, o, f, 0, false).picks
  {
    BackPick(c, o, f, top);
    low := FrontPick(c, o, t, |f.queue| - 1 - top, m);
  }

  /** The second pick comes from the other end: after the heaviest task that fits, a lightest one among those that still fit. */
  lemma SecondPickLightest(c: Ctx, o: Offer, queue: seq<Job>, scheduled: int, top: nat, m: nat)
    requires !c.switching && NoHosts(o, queue)
    requires forall i, j :: 0 <= i < j < |queue| ==> queue[i].spec.watts <= queue[j].spec.watts
    requires FitsAt(c, o, Fresh(queue, scheduled), top)
    requires forall q :: top < q < |queue| ==> !FitsAt(c, o, Fresh(queue, scheduled), q)
    requires m < top && FitsAt(c, o, Take(c, o, Fresh(queue, scheduled), top), m)
    ensures var picks := Consume(MaxMin, c, o, queue, scheduled).picks;
            |picks| >= 2 && picks[0] == queue[top] && picks[1].spec.watts <= queue[m].spec.watts
  {
    var f := Fresh(queue, scheduled);
    var low := TwoPicks(c, o, f, Take(c, o, f, top), top, m);
    MaxMinAlternates(c, o, queue, scheduled);
    assert f.picks + [queue[top]] + [queue[low]] == [queue[top], queue[low]];
  }

  // ----- the first picks of first-fit and max-greedymins

  /** First-fit launches exactly one instance, of the first candidate in queue order. */
  lemma {:induction false} FirstTakesLowest(c: Ctx, o: Offer, f: Fill, i: nat, k: nat)
    requires Open(c, f.scheduled) && i <= k < |f.queue| && Placeable(c, o, f.used, f.queue[k].spec)
    requires forall j :: i <= j < k ==> !Placeable(c, o, f.used, f.queue[j].spec)
    ensures First(c, o, f, i) == Take(c, o, f, k)
    decreases k - i
  {
    if i < k {
      FirstTakesLowest(c, o, f, i + 1, k);
    }
  }

  lemma FirstFitPicksFirst(c: Ctx, o: Offer, queue: seq<Job>, scheduled: int, k: nat)
    requires Open(c, scheduled) && Candidate(c, o, queue, k) && forall j: nat :: j < k ==> !Candidate(c, o, queue, j)
    ensures var g := Consume(FirstFit, c, o, queue, scheduled);
            g.picks == [queue[k]] && g.queue == Launch(queue, k) && g.scheduled == scheduled + 1
  {
    var f := Fresh(queue, scheduled);
    forall j | 0 <= j < k
      ensures !Placeable(c, o, f.used, f.queue[j].spec)
    {
      assert !Candidate(c, o, queue, j);
    }
    FirstTakesLowest(c, o, f, 0, k);
  }

  lemma {:induction false} DrainKeepsPicks(c: Ctx, o: Offer, f: Fill, i: nat)
    requires i < |f.queue|
    ensures f.picks <= Drain(c, o, f, i).picks
    decreases f.queue[i].n
  {
    if Open(c, f.scheduled) && Fits(c, o, f.used, f.queue[i].spec) && f.queue[i].n > 1 {
      DrainKeepsPicks(c, o, Take(c, o, f, i), i);
    }
  }

  lemma {:induction false} GreedyKeepsPicks(c: Ctx, o: Offer, f: Fill, i: nat)
    ensures f.picks <= Greedy(c, o, f, i).picks
    decreases |f.queue| - i
  {
    if i < |f.queue| {
      if Matches(o, f.queue[i].spec) {
        DrainKeepsPicks(c, o, f, i);
        GreedyKeepsPicks(c, o, Drain(c, o, f, i), i + 1);
      } else {
        GreedyKeepsPicks(c, o, f, i + 1);
      }
    }
  }

  lemma {:induction false} HeaviestTakesHighest(c: Ctx, o: Offer, f: Fill, i: nat, k: nat) returns (top: nat)
    requires k < i <= |f.queue| && Open(c, f.scheduled) && Placeable(c, o, f.used, f.queue[k].spec)
    ensures k <= top < i && Heaviest(c, o, f, i) == Take(c, o, f, top)
  {
    if Placeable(c, o, f.used, f.queue[i - 1].spec) {
      top := i - 1;
    } else {
      top := HeaviestTakesHighest(c, o, f, i - 1, k);
    }
  }

  /** On a queue sorted by watts, the first pick of max-greedymins is a heaviest task among the candidates. */
  lemma GreedyMinsFirstHeaviest(c: Ctx, o: Offer, queue: seq<Job>, scheduled: int, k: nat)
    requires Open(c, scheduled) && Candidate(c, o, queue, k)
    requires forall i, j :: 0 <= i < j < |queue| ==> queue[i].spec.watts <= queue[j].spec.watts
    ensures var picks := Consume(MaxGreedyMins, c, o, queue, scheduled).picks;
            picks != [] && queue[k].spec.watts <= picks[0].spec.watts
  {
    var f := Fresh(queue, scheduled);
    var top := HeaviestTakesHighest(c, o, f, |queue|, k);
    GreedyKeepsPicks(c, o, Take(c, o, f, top), 0);
    assert Take(c, o, f, top).picks[0] == queue[top];
  }
}
