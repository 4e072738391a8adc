/** When bin-packing and max-greedymins leave an offer packed, told from the queue and the offer, as long as they do not
    use up the window. */
module PackedOffers {
  import opened Workload
  import opened TaskIds
  import opened Packing
  import opened PackingTheorems
  import opened Leftovers
  import opened Forecast
  import opened TightOffers
  import opened AmpleOffers

  /** The window is not used up at the end of the offer, or switching is off. */
  ghost predicate WindowLeft(p: Policy, c: Ctx, o: Offer, queue: seq<Job>, scheduled: int) {
    Open(c, Consume(p, c, o, queue, scheduled).scheduled)
  }

  /** Bin-packing leaves an offer packed exactly when the forecast on the sorted queue says so. */
  lemma BinPackingPackedIff(c: Ctx, o: Offer, queue: seq<Job>, scheduled: int)
    requires WindowLeft(BinPacking, c, o, queue, scheduled) && Positive(queue) && AllNonNegative(queue)
    ensures Packed(c, o, Consume(BinPacking, c, o, queue, scheduled)) <==> NoneMissed(Off(c), o, queue, ZERO)
  {
    GreedyOff(c, o, Fresh(queue, scheduled), 0);
    PassPackedIff(Off(c), o, Fresh(queue, scheduled));
  }

  /** Task k is the last that fits the offer on its host: the one max-greedymins takes first. */
  ghost predicate Top(c: Ctx, o: Offer, queue: seq<Job>, k: nat) {
    k < |queue| && Placeable(c, o, ZERO, queue[k].spec)
    && forall q :: k < q < |queue| ==> !Placeable(c, o, ZERO, queue[q].spec)
  }

  lemma {:induction false} HeaviestIsTop(c: Ctx, o: Offer, f: Fill, i: nat, k: nat)
    requires k < i <= |f.queue| && Open(c, f.scheduled) && Placeable(c, o, f.used, f.queue[k].spec)
    requires forall q :: k < q < i ==> !Placeable(c, o, f.used, f.queue[q].spec)
    ensures Heaviest(c, o, f, i) == Take(c, o, f, k)
  {
    if k < i - 1 {
      HeaviestIsTop(c, o, f, i - 1, k);
    }
  }

  lemma {:induction false} HeaviestCounts(c: Ctx, o: Offer, f: Fill, i: nat)
    requires i <= |f.queue|
    ensures f.scheduled <= Heaviest(c, o, f, i).scheduled
  {
    if i > 0 && Open(c, f.scheduled) && !Placeable(c, o, f.used, f.queue[i - 1].spec) {
      HeaviestCounts(c, o, f, i - 1);
    }
  }

  /** Max-greedymins leaves an offer packed exactly when the forecast says so for the queue and the offer that one instance
      of the last fitting task has been taken from. */
  lemma GreedyMinsPackedIff(c: Ctx, o: Offer, queue: seq<Job>, scheduled: int, k: nat)
    requires WindowLeft(MaxGreedyMins, c, o, queue, scheduled) && Positive(queue) && AllNonNegative(queue)
    requires Top(c, o, queue, k)
    ensures Packed(c, o, Consume(MaxGreedyMins, c, o, queue, scheduled))
            <==> NoneMissed(Off(c), o, Launch(queue, k), Need(c, o, queue[k].spec))
  {
    var f := Fresh(queue, scheduled);
    HeaviestNonNegative(c, o, f, |queue|);
    HeaviestCounts(c, o, f, |queue|);
    GreedyOff(c, o, Heaviest(c, o, f, |queue|), 0);
    HeaviestIsTop(c, o, f, |queue|, k);
    assert ZERO.Plus(Need(c, o, queue[k].spec)) == Need(c, o, queue[k].spec);
    PassPackedIff(Off(c), o, Take(c, o, f, k));
  }

  /** If no task fits the offer at all, there is nothing max-greedymins could have missed. */
  lemma GreedyMinsIdlePacked(c: Ctx, o: Offer, queue: seq<Job>, scheduled: int)
    requires WindowLeft(MaxGreedyMins, c, o, queue, scheduled) && Positive(queue) && AllNonNegative(queue)
    requires forall k: nat :: !Candidate(c, o, queue, k)
    ensures Packed(c, o, Consume(MaxGreedyMins, c, o, queue, scheduled))
  {
    var f := Fresh(queue, scheduled);
    forall k | 0 <= k < |queue|
      ensures !Placeable(c, o, f.used, f.queue[k].spec)
    {
      assert !Candidate(c, o, queue, k);
    }
    HeaviestCounts(c, o, f, |queue|);
    GreedyOff(c, o, Heaviest(c, o, f, |queue|), 0);
    HeaviestIdle(c, o, f, |queue|);
    forall p: nat | Tight(c, o, queue, ZERO, p)
      ensures false
    {
      assert queue[p - 1] in queue;
      NeedNonNegative(c, o, queue[p - 1]);
      ChargedAtLeast(ZERO, Need(c, o, queue[p - 1].spec), queue[p - 1].n);
      FitsLess(c, o, ZERO, Charged(ZERO, Need(c, o, queue[p - 1].spec), queue[p - 1].n), queue[p].spec);
    }
    PackedIfNoneTight(c, o, f);
  }

  /** Bin-packing on a queue and an offer without a tight task. */
  lemma BinPackingPackedIfNoneTight(c: Ctx, o: Offer, queue: seq<Job>, scheduled: int)
    requires WindowLeft(BinPacking, c, o, queue, scheduled) && Positive(queue) && AllNonNegative(queue)
    requires forall p: nat :: !Tight(c, o, queue, ZERO, p)
    ensures Packed(c, o, Consume(BinPacking, c, o, queue, scheduled))
  {
    PackedIfNoneTight(c, o, Fresh(queue, scheduled));
  }

  /** Bin-packing on an offer with room for everything that matches its host. */
  lemma BinPackingAmplePackedIff(c: Ctx, o: Offer, queue: seq<Job>, scheduled: int)
    requires WindowLeft(BinPacking, c, o, queue, scheduled) && Positive(queue) && AllNonNegative(queue)
    requires Ample(Off(c), o, queue, ZERO, 0)
    ensures Packed(c, o, Consume(BinPacking, c, o, queue, scheduled)) <==> forall p: nat :: !Neighbours(o, queue, p)
  {
    AmplePackedIff(c, o, Fresh(queue, scheduled));
  }
}
