/** A closed condition under which a greedy pass packs an offer: no task fits beside the whole of its lighter neighbour. */
module TightOffers {
  import opened Workload
  import opened TaskIds
  import opened Packing
  import opened Leftovers
  import opened Forecast

  /** Task p and the one before it match the host, and p fits after all instances of the one before it. */
  ghost predicate Tight(c: Ctx, o: Offer, queue: seq<Job>, used: Res, p: nat) {
    && 0 < p < |queue| && Matches(o, queue[p - 1].spec) && Matches(o, queue[p].spec)
    && Fits(c, o, Charged(used, Need(c, o, queue[p - 1].spec), queue[p - 1].n), queue[p].spec)
  }

  lemma {:induction false} UsedGrows(c: Ctx, o: Offer, queue: seq<Job>, used: Res, j: nat)
    requires AllNonNegative(queue)
    ensures Below(used, UsedAfter(c, o, queue, used, j))
    decreases |queue| - j
  {
    if j < |queue| {
      assert queue[j] in queue;
      NeedNonNegative(c, o, queue[j]);
      ChargedAtLeast(used, Need(c, o, queue[j].spec), Takes(c, o, used, queue[j]));
      UsedGrows(c, o, queue, ChargedBy(c, o, used, queue[j]), After(c, o, queue, used, j));
    }
  }

  lemma FitsLess(c: Ctx, o: Offer, a: Res, b: Res, spec: Spec)
    requires Below(a, b) && Fits(c, o, b, spec)
    ensures Fits(c, o, a, spec)
  {
  }

  /** A task that is stepped over and still finds room in the end is tight. */
  lemma {:induction false} MissedIsTight(c: Ctx, o: Offer, queue: seq<Job>, used: Res, j: nat, p: nat)
    requires AllNonNegative(queue) && p < |queue| && SteppedOver(c, o, queue, used, j, p)
    requires Placeable(c, o, UsedAfter(c, o, queue, used, j), queue[p].spec)
    ensures Tight(c, o, queue, used, p)
    decreases |queue| - j
  {
    var next := ChargedBy(c, o, used, queue[j]);
    assert queue[j] in queue;
    if p == j + 1 && After(c, o, queue, used, j) == j + 2 {
      UsedGrows(c, o, queue, next, j + 2);
      FitsLess(c, o, next, UsedAfter(c, o, queue, next, j + 2), queue[p].spec);
    } else {
      NeedNonNegative(c, o, queue[j]);
      ChargedAtLeast(used, Need(c, o, queue[j].spec), Takes(c, o, used, queue[j]));
      MissedIsTight(c, o, queue, next, After(c, o, queue, used, j), p);
      FitsLess(c, o, Charged(used, Need(c, o, queue[p - 1].spec), queue[p - 1].n),
               Charged(next, Need(c, o, queue[p - 1].spec), queue[p - 1].n), queue[p].spec);
    }
  }

  /** Without a tight task the pass packs the offer, unless it uses up the window. */
  lemma PackedIfNoneTight(c: Ctx, o: Offer, f: Fill)
    requires Open(c, Greedy(c, o, f, 0).scheduled) && Positive(f.queue) && AllNonNegative(f.queue)
    requires forall p: nat :: !Tight(c, o, f.queue, f.used, p)
    ensures Packed(c, o, Greedy(c, o, f, 0))
  {
    GreedyOff(c, o, f, 0);
    PassPackedIff(Off(c), o, f);
    forall p: nat | p < |f.queue| && SteppedOver(Off(c), o, f.queue, f.used, 0, p)
      ensures !Placeable(Off(c), o, UsedAfter(Off(c), o, f.queue, f.used, 0), f.queue[p].spec)
    {
      if Placeable(Off(c), o, UsedAfter(Off(c), o, f.queue, f.used, 0), f.queue[p].spec) {
        MissedIsTight(Off(c), o, f.queue, f.used, 0, p);
        assert Tight(c, o, f.queue, f.used, p);
      }
    }
  }
}
