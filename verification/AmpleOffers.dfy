/** Greedy passes over offers with room for everything that matches the host: packed exactly when no two neighbours match. */
module AmpleOffers {
  import opened Workload
  import opened TaskIds
  import opened Packing
  import opened Leftovers
  import opened Forecast

  /** What the tasks from j on would take together. */
  ghost function Demand(c: Ctx, o: Offer, queue: seq<Job>, used: Res, j: nat): Res
    decreases |queue| - j
  {
    if j >= |queue| then used
    else Demand(c, o, queue, if Matches(o, queue[j].spec) then Charged(used, Need(c, o, queue[j].spec), queue[j].n) else used, j + 1)
  }

  /** All pending instances that match the host fit together. */
  ghost predicate Ample(c: Ctx, o: Offer, queue: seq<Job>, used: Res, j: nat) {
    Within(c, o, Demand(c, o, queue, used, j))
  }

  /** Tasks p - 1 and p match the host. */
  ghost predicate Neighbours(o: Offer, queue: seq<Job>, p: nat) {
    0 < p < |queue| && Matches(o, queue[p - 1].spec) && Matches(o, queue[p].spec)
  }

  lemma {:induction false} DemandGrows(c: Ctx, o: Offer, queue: seq<Job>, a: Res, b: Res, j: nat)
    requires AllNonNegative(queue) && Positive(queue) && Below(a, b)
    ensures Below(a, Demand(c, o, queue, a, j)) && Below(Demand(c, o, queue, a, j), Demand(c, o, queue, b, j))
    decreases |queue| - j
  {
    if j < |queue| {
      assert queue[j] in queue;
      var need, n := Need(c, o, queue[j].spec), queue[j].n;
      NeedNonNegative(c, o, queue[j]);
      ChargedAtLeast(a, need, n);
      if Matches(o, queue[j].spec) {
        DemandGrows(c, o, queue, Charged(a, need, n), Charged(b, need, n), j + 1);
      } else {
        DemandGrows(c, o, queue, a, b, j + 1);
      }
    }
  }

  lemma {:induction false} AllRoom(c: Ctx, o: Offer, used: Res, spec: Spec, n: int)
    requires n >= 1 && Below(ZERO, Need(c, o, spec)) && Within(c, o, Charged(used, Need(c, o, spec), n))
    ensures Room(c, o, used, spec, n) == n
    decreases n
  {
    var need := Need(c, o, spec);
    ChargeNone(used, need);
    ChargeOne(used, need, n - 1);
    ChargedAtLeast(used.Plus(need), need, n - 1);
    if n > 1 {
      AllRoom(c, o, used.Plus(need), spec, n - 1);
    }
  }

  /** On an ample offer every matching task that is reached is launched out. */
  lemma AmpleStep(c: Ctx, o: Offer, queue: seq<Job>, used: Res, j: nat)
    requires AllNonNegative(queue) && Positive(queue) && j < |queue| && Ample(c, o, queue, used, j)
    ensures After(c, o, queue, used, j) == if Matches(o, queue[j].spec) then j + 2 else j + 1
    ensures ChargedBy(c, o, used, queue[j])
            == if Matches(o, queue[j].spec) then Charged(used, Need(c, o, queue[j].spec), queue[j].n) else used
    ensures Demand(c, o, queue, used, j) == Demand(c, o, queue, ChargedBy(c, o, used, queue[j]), j + 1)
  {
    assert queue[j] in queue;
    var need := Need(c, o, queue[j].spec);
    NeedNonNegative(c, o, queue[j]);
    ChargeNone(used, need);
    if Matches(o, queue[j].spec) {
      var next := Charged(used, need, queue[j].n);
      DemandGrows(c, o, queue, next, next, j + 1);
      AllRoom(c, o, used, queue[j].spec, queue[j].n);
    }
  }

  lemma DemandNext(c: Ctx, o: Offer, queue: seq<Job>, used: Res, j: nat)
    requires AllNonNegative(queue) && Positive(queue)
    ensures Below(Demand(c, o, queue, used, j + 1), Demand(c, o, queue, used, j))
  {
    if j < |queue| {
      assert queue[j] in queue;
      var need, n := Need(c, o, queue[j].spec), queue[j].n;
      NeedNonNegative(c, o, queue[j]);
      ChargedAtLeast(used, need, n);
      DemandGrows(c, o, queue, used, if Matches(o, queue[j].spec) then Charged(used, need, n) else used, j + 1);
    }
  }

  /** Where two neighbours match, the pass on an ample offer steps over a task that matches, and what is charged in the end
      leaves room for it. */
  lemma {:induction false} AmpleMisses(c: Ctx, o: Offer, queue: seq<Job>, used: Res, j: nat, p: nat) returns (q: nat)
    requires AllNonNegative(queue) && Positive(queue) && Ample(c, o, queue, used, j) && j < p && Neighbours(o, queue, p)
    ensures q < |queue| && SteppedOver(c, o, queue, used, j, q)
    ensures Placeable(c, o, UsedAfter(c, o, queue, used, j), queue[q].spec)
    decreases |queue| - j
  {
    var next := ChargedBy(c, o, used, queue[j]);
    AmpleStep(c, o, queue, used, j);
    if !Matches(o, queue[j].spec) {
      q := AmpleMisses(c, o, queue, next, j + 1, p);
    } else if Matches(o, queue[j + 1].spec) {
      q := j + 1;
      RoomLeft(c, o, queue, next, j + 1);
    } else {
      DemandNext(c, o, queue, next, j + 1);
      q := AmpleMisses(c, o, queue, next, j + 2, p);
    }
  }

  /** What the pass charges from j on is at most the demand. */
  lemma {:induction false} UsedWithinDemand(c: Ctx, o: Offer, queue: seq<Job>, used: Res, j: nat)
    requires AllNonNegative(queue) && Positive(queue)
    ensures Below(UsedAfter(c, o, queue, used, j), Demand(c, o, queue, used, j))
    decreases |queue| - j
  {
    if j < |queue| {
      assert queue[j] in queue;
      var need, n := Need(c, o, queue[j].spec), queue[j].n;
      var next, after := ChargedBy(c, o, used, queue[j]), After(c, o, queue, used, j);
      UsedWithinDemand(c, o, queue, next, after);
      NeedNonNegative(c, o, queue[j]);
      ChargeNone(used, need);
      RoomIsLargest(c, o, used, queue[j].spec, n);
      ChargedGrows(used, need, Takes(c, o, used, queue[j]), n);
      if after == j + 2 {
        DemandNext(c, o, queue, next, j + 1);
      }
      DemandGrows(c, o, queue, next, if Matches(o, queue[j].spec) then Charged(used, need, n) else used, j + 1);
    }
  }

  /** Stepping over task q leaves room for it if everything would have fit. */
  lemma RoomLeft(c: Ctx, o: Offer, queue: seq<Job>, used: Res, q: nat)
    requires AllNonNegative(queue) && Positive(queue) && q < |queue| && Matches(o, queue[q].spec) && Ample(c, o, queue, used, q)
    ensures Placeable(c, o, UsedAfter(c, o, queue, used, q + 1), queue[q].spec)
  {
    assert queue[q] in queue;
    var need, n := Need(c, o, queue[q].spec), queue[q].n;
    NeedNonNegative(c, o, queue[q]);
    ChargeNone(used, need);
    ChargedGrows(used, need, 1, n);
    UsedWithinDemand(c, o, queue, used, q + 1);
    DemandShift(c, o, queue, used, need, q + 1);
    DemandGrows(c, o, queue, used.Plus(need), Charged(used, need, n), q + 1);
  }

  /** A charge made before shows in the end. */
  lemma {:induction false} DemandShift(c: Ctx, o: Offer, queue: seq<Job>, used: Res, extra: Res, j: nat)
    ensures Demand(c, o, queue, used.Plus(extra), j) == Demand(c, o, queue, used, j).Plus(extra)
    decreases |queue| - j
  {
    if j < |queue| {
      var need, n := Need(c, o, queue[j].spec), queue[j].n;
      assert Charged(used.Plus(extra), need, n) == Charged(used, need, n).Plus(extra);
      DemandShift(c, o, queue, if Matches(o, queue[j].spec) then Charged(used, need, n) else used, extra, j + 1);
    }
  }

  lemma {:induction false} SteppedOverMatches(c: Ctx, o: Offer, queue: seq<Job>, used: Res, j: nat, p: nat)
    requires SteppedOver(c, o, queue, used, j, p)
    ensures j < p < |queue| && Matches(o, queue[p - 1].spec)
    decreases |queue| - j
  {
    if !(p == j + 1 && After(c, o, queue, used, j) == j + 2) {
      SteppedOverMatches(c, o, queue, ChargedBy(c, o, used, queue[j]), After(c, o, queue, used, j), p);
    }
  }

  /** If everything that matches the host would fit together and the window is not used up, the pass packs the offer exactly
      when no two neighbours in the queue match the host. */
  lemma AmplePackedIff(c: Ctx, o: Offer, f: Fill)
    requires Open(c, Greedy(c, o, f, 0).scheduled) && Positive(f.queue) && AllNonNegative(f.queue)
    requires Ample(Off(c), o, f.queue, f.used, 0)
    ensures Packed(c, o, Greedy(c, o, f, 0)) <==> forall p: nat :: !Neighbours(o, f.queue, p)
  {
    GreedyOff(c, o, f, 0);
    PassPackedIff(Off(c), o, f);
    if p: nat :| Neighbours(o, f.queue, p) {
      var q := AmpleMisses(Off(c), o, f.queue, f.used, 0, p);
    } else {
      forall p: nat | p < |f.queue| && SteppedOver(Off(c), o, f.queue, f.used, 0, p)
        ensures !Placeable(Off(c), o, UsedAfter(Off(c), o, f.queue, f.used, 0), f.queue[p].spec)
      {
        SteppedOverMatches(Off(c), o, f.queue, f.used, 0, p);
        assert !Neighbours(o, f.queue, p);
      }
    }
  }
}
