/** What a greedy pass leaves in the queue. The pass moves its cursor up after removing an entry, so it steps over
    the entry that slid into the freed place. Switching makes no difference while the window is not used up. */
module Leftovers {
  import opened Sorting
  import opened Workload
  import opened TaskIds
  import opened Packing

  /** The same settings with switching off. */
  function Off(c: Ctx): Ctx {
    c.(switching := false)
  }

  lemma {:induction false} DrainOff(c: Ctx, o: Offer, f: Fill, i: nat)
    requires i < |f.queue|
    ensures var g := Drain(c, o, f, i);
            f.scheduled <= g.scheduled && (Open(c, g.scheduled) ==> Drain(Off(c), o, f, i) == g)
    decreases f.queue[i].n
  {
    if Open(c, f.scheduled) && Fits(c, o, f.used, f.queue[i].spec) {
      assert Take(c, o, f, i) == Take(Off(c), o, f, i);
      if f.queue[i].n > 1 {
        DrainOff(c, o, Take(c, o, f, i), i);
      }
    }
  }

  /** A pass that does not use up the window does what it would do with switching off. */
  lemma {:induction false} GreedyOff(c: Ctx, o: Offer, f: Fill, i: nat)
    ensures var g := Greedy(c, o, f, i);
            f.scheduled <= g.scheduled && (Open(c, g.scheduled) ==> Greedy(Off(c), o, f, i) == g)
    decreases |f.queue| - i
  {
    if i < |f.queue| {
      if Matches(o, f.queue[i].spec) {
        DrainOff(c, o, f, i);
        GreedyOff(c, o, Drain(c, o, f, i), i + 1);
      } else {
        GreedyOff(c, o, f, i + 1);
      }
    }
  }

  /** The entries the pass from i steps over. */
  ghost function Skipped(c: Ctx, o: Offer, f: Fill, i: nat): seq<Job>
    decreases |f.queue| - i
  {
    if i >= |f.queue| then []
    else if !Matches(o, f.queue[i].spec) then Skipped(c, o, f, i + 1)
    else
      var g := Drain(c, o, f, i);
      (if |g.queue| < |f.queue| && i < |g.queue| then [g.queue[i]] else []) + Skipped(c, o, g, i + 1)
  }

  ghost predicate AllNonNegative(queue: seq<Job>) {
    forall j :: j in queue ==> NonNegative(j.spec)
  }

  ghost predicate Below(a: Res, b: Res) {
    a.cpu <= b.cpu && a.ram <= b.ram && a.watts <= b.watts
  }

  /** Draining changes only entry i, and ends because it ran out or because it no longer fits. */
  lemma {:induction false} DrainOutcome(c: Ctx, o: Offer, f: Fill, i: nat)
    requires i < |f.queue| && !c.switching && Positive(f.queue) && AllNonNegative(f.queue)
    ensures var g, job := Drain(c, o, f, i), f.queue[i];
            && Positive(g.queue) && AllNonNegative(g.queue)
            && Below(f.used, g.used) && f.picks <= g.picks
            && if |g.queue| < |f.queue|
               then g.queue == Without(f.queue, i) && job.(n := 1) in g.picks[|f.picks|..]
               else |g.queue| == |f.queue| && !Fits(c, o, g.used, job.spec) && 1 <= g.queue[i].n <= job.n
                    && g.queue == f.queue[i := job.(n := g.queue[i].n)]
    decreases f.queue[i].n
  {
    var job := f.queue[i];
    assert job in f.queue;
    if Fits(c, o, f.used, job.spec) {
      var t := Take(c, o, f, i);
      assert Below(f.used, t.used);
      if job.n > 1 {
        assert forall j :: j in t.queue ==> j in f.queue || j == job.(n := job.n - 1);
        DrainOutcome(c, o, t, i);
        var g := Drain(c, o, t, i);
        if |g.queue| < |t.queue| {
          assert Without(t.queue, i) == Without(f.queue, i);
          assert g.picks[|f.picks|..] == [job] + g.picks[|t.picks|..];
        }
      } else {
        assert forall j :: j in t.queue ==> j in f.queue;
      }
    }
  }

  /** What a later part of the pass may do to an earlier one. */
  ghost predicate Extends(f: Fill, g: Fill, i: nat) {
    && Below(f.used, g.used) && f.picks <= g.picks
    && i <= |f.queue| && i <= |g.queue| && g.queue[..i] == f.queue[..i]
  }

  lemma {:induction false} GreedyExtends(c: Ctx, o: Offer, f: Fill, i: nat)
    requires i <= |f.queue| && !c.switching && Positive(f.queue) && AllNonNegative(f.queue)
    ensures Extends(f, Greedy(c, o, f, i), i)
    decreases |f.queue| - i
  {
    if i < |f.queue| {
      if !Matches(o, f.queue[i].spec) {
        GreedyExtends(c, o, f, i + 1);
        KeepsPrefix(f.queue, Greedy(c, o, f, i + 1).queue, i);
      } else {
        var d := Drain(c, o, f, i);
        DrainOutcome(c, o, f, i);
        assert d.queue[..i] == f.queue[..i];
        if i < |d.queue| {
          GreedyExtends(c, o, d, i + 1);
          KeepsPrefix(d.queue, Greedy(c, o, d, i + 1).queue, i);
        }
      }
    }
  }

  lemma KeepsPrefix<T>(a: seq<T>, b: seq<T>, i: nat)
    requires i < |a| && i < |b| && a[..i + 1] == b[..i + 1]
    ensures a[..i] == b[..i] && a[i] == b[i]
  {
    assert a[..i + 1][..i] == a[..i] && b[..i + 1][..i] == b[..i];
    assert a[i] == a[..i + 1][i] && b[i] == b[..i + 1][i];
  }

  /** Entry p was untouched and directly followed an entry whose last instance went out in this pass. */
  ghost predicate FollowsLaunched(queue: seq<Job>, launched: seq<Job>, job: Job, p: nat) {
    0 < p < |queue| && queue[p] == job && queue[p - 1].(n := 1) in launched
  }

  /** The instances launched between f and g. */
  ghost function Since(f: Fill, g: Fill): seq<Job> {
    if |f.picks| <= |g.picks| then g.picks[|f.picks|..] else []
  }

  /** What follows a launched task behind entry i did so before entry i was drained. */
  lemma FollowsEarlier(before: seq<Job>, after: seq<Job>, i: nat, late: seq<Job>, all: seq<Job>, job: Job, p: nat) returns (q: nat)
    requires i < |before| && p > i + 1 && FollowsLaunched(after, late, job, p) && forall j :: j in late ==> j in all
    requires after == Without(before, i) || (|after| == |before| && after == before[i := after[i]])
    ensures q > i && FollowsLaunched(before, all, job, q)
  {
    q := if |after| < |before| then p + 1 else p;
  }

  /** The skipped entries: each survives the pass untouched, directly behind a task that was launched out. */
  lemma {:induction false} SkippedFollow(c: Ctx, o: Offer, f: Fill, i: nat, job: Job)
    requires i <= |f.queue| && !c.switching && Positive(f.queue) && AllNonNegative(f.queue)
    requires job in Skipped(c, o, f, i)
    ensures job in Greedy(c, o, f, i).queue
    ensures exists p: nat :: p > i && FollowsLaunched(f.queue, Since(f, Greedy(c, o, f, i)), job, p)
    decreases |f.queue| - i
  {
    if !Matches(o, f.queue[i].spec) {
      SkippedFollow(c, o, f, i + 1, job);
    } else {
      var d := Drain(c, o, f, i);
      DrainOutcome(c, o, f, i);
      assert i + 1 <= |d.queue|;
      GreedyExtends(c, o, d, i + 1);
      var g := Greedy(c, o, d, i + 1);
      var launched := Since(f, g);
      assert launched == d.picks[|f.picks|..] + g.picks[|d.picks|..];
      if |d.queue| < |f.queue| && job == d.queue[i] {
        KeepsPrefix(d.queue, g.queue, i);
        assert FollowsLaunched(f.queue, launched, job, i + 1);
      } else {
        SkippedFollow(c, o, d, i + 1, job);
        var p: nat :| p > i + 1 && FollowsLaunched(d.queue, Since(d, g), job, p);
        var q := FollowsEarlier(f.queue, d.queue, i, Since(d, g), launched, job, p);
      }
    }
  }

  /** A queued task that could still be placed after the pass is one of the skipped ones. */
  lemma {:induction false} LeftoverSkipped(c: Ctx, o: Offer, f: Fill, i: nat, k: nat)
    requires i <= |f.queue| && !c.switching && Positive(f.queue) && AllNonNegative(f.queue)
    requires i <= k < |Greedy(c, o, f, i).queue|
    requires Placeable(c, o, Greedy(c, o, f, i).used, Greedy(c, o, f, i).queue[k].spec)
    ensures Greedy(c, o, f, i).queue[k] in Skipped(c, o, f, i)
    decreases |f.queue| - i
  {
    if i < |f.queue| {
      if !Matches(o, f.queue[i].spec) {
        GreedyExtends(c, o, f, i + 1);
        KeepsPrefix(f.queue, Greedy(c, o, f, i + 1).queue, i);
        LeftoverSkipped(c, o, f, i + 1, k);
      } else {
        var d := Drain(c, o, f, i);
        DrainOutcome(c, o, f, i);
        if i < |d.queue| {
          GreedyExtends(c, o, d, i + 1);
          KeepsPrefix(d.queue, Greedy(c, o, d, i + 1).queue, i);
          if k > i {
            LeftoverSkipped(c, o, d, i + 1, k);
          }
        }
      }
    }
  }

  /** Nothing queued could still be placed on what is left of the offer. */
  ghost predicate Packed(c: Ctx, o: Offer, g: Fill) {
    forall k :: 0 <= k < |g.queue| ==> !Placeable(c, o, g.used, g.queue[k].spec)
  }

  /** The documented "until no more task can fit the offer" holds of a greedy pass exactly when no entry that
      it stepped over could still be placed; every such entry directly followed a task launched out in the pass. */
  lemma GreedyPackedIff(c: Ctx, o: Offer, f: Fill)
    requires !c.switching && Positive(f.queue) && AllNonNegative(f.queue)
    ensures var g := Greedy(c, o, f, 0);
            Packed(c, o, g) <==> forall j :: j in Skipped(c, o, f, 0) ==> !Placeable(c, o, g.used, j.spec)
  {
    var g := Greedy(c, o, f, 0);
    if Packed(c, o, g) {
      forall j | j in Skipped(c, o, f, 0)
        ensures !Placeable(c, o, g.used, j.spec)
      {
        SkippedFollow(c, o, f, 0, j);
      }
    } else {
      var k :| 0 <= k < |g.queue| && Placeable(c, o, g.used, g.queue[k].spec);
      LeftoverSkipped(c, o, f, 0, k);
    }
  }

  /** A task that could still be placed directly followed one that was launched out in the pass, unless the window is
      used up. */
  lemma GreedyLeftover(c: Ctx, o: Offer, f: Fill, k: nat)
    requires Open(c, Greedy(c, o, f, 0).scheduled) && Positive(f.queue) && AllNonNegative(f.queue)
    requires k < |Greedy(c, o, f, 0).queue|
    requires Placeable(c, o, Greedy(c, o, f, 0).used, Greedy(c, o, f, 0).queue[k].spec)
    ensures exists p: nat :: FollowsLaunched(f.queue, Since(f, Greedy(c, o, f, 0)), Greedy(c, o, f, 0).queue[k], p)
  {
    GreedyOff(c, o, f, 0);
    LeftoverSkipped(Off(c), o, f, 0, k);
    SkippedFollow(Off(c), o, f, 0, Greedy(c, o, f, 0).queue[k]);
  }

  lemma {:induction false} HeaviestNonNegative(c: Ctx, o: Offer, f: Fill, i: nat)
    requires i <= |f.queue| && Positive(f.queue) && AllNonNegative(f.queue)
    ensures Positive(Heaviest(c, o, f, i).queue) && AllNonNegative(Heaviest(c, o, f, i).queue)
  {
    if i > 0 && Open(c, f.scheduled) {
      if Placeable(c, o, f.used, f.queue[i - 1].spec) {
        var job := f.queue[i - 1];
        assert job in f.queue;
        LaunchReplaces(f.queue, i - 1);
        assert forall j :: j in Launch(f.queue, i - 1) ==> j in f.queue || j in Rest(job);
      } else {
        HeaviestNonNegative(c, o, f, i - 1);
      }
    }
  }
}
