/** Properties of consuming one offer: conservation of instances, offer safety and work conservation. */
module PackingTheorems {
  import opened Workload
  import opened TaskIds
  import opened Packing

  ghost function PickIds(picks: seq<Job>): multiset<string> {
    if picks == [] then multiset{}
    else
      var last := picks[|picks| - 1];
      PickIds(picks[..|picks| - 1]) + multiset{TaskId(last.spec.name, Number(last.n))}
  }

  ghost function PickNeeds(c: Ctx, o: Offer, picks: seq<Job>): Res {
    if picks == [] then ZERO
    else PickNeeds(c, o, picks[..|picks| - 1]).Plus(Need(c, o, picks[|picks| - 1].spec))
  }

  /** The tasks of a are among those of b, in the same order. */
  ghost predicate Subsequence(a: seq<Job>, b: seq<Job>) {
    a == [] || (b != [] && ((a[0].spec == b[0].spec && a[0].n <= b[0].n && Subsequence(a[1..], b[1..]))
                            || Subsequence(a, b[1..])))
  }

  lemma {:induction false} SubsequenceRefl(a: seq<Job>)
    ensures Subsequence(a, a)
  {
    if a != [] {
      SubsequenceRefl(a[1..]);
    }
  }

  lemma {:induction false} SubsequenceTrans(a: seq<Job>, b: seq<Job>, d: seq<Job>)
    requires Subsequence(a, b) && Subsequence(b, d)
    ensures Subsequence(a, d)
    decreases |b| + |d|
  {
    if a != [] {
      if b[0].spec == d[0].spec && b[0].n <= d[0].n && Subsequence(b[1..], d[1..]) {
        if a[0].spec == b[0].spec && a[0].n <= b[0].n && Subsequence(a[1..], b[1..]) {
          SubsequenceTrans(a[1..], b[1..], d[1..]);
        } else {
          SubsequenceTrans(a, b[1..], d[1..]);
        }
      } else {
        SubsequenceTrans(a, b, d[1..]);
      }
    }
  }

  lemma {:induction false} LaunchSubsequence(queue: seq<Job>, i: nat)
    requires i < |queue|
    ensures Subsequence(Launch(queue, i), queue)
  {
    var after := Launch(queue, i);
    if i == 0 {
      SubsequenceRefl(queue[1..]);
      if queue[0].n > 1 {
        assert after[1..] == queue[1..];
      } else {
        assert after == queue[1..];
      }
    } else {
      LaunchSubsequence(queue[1..], i - 1);
      assert after[0] == queue[0];
      assert after[1..] == Launch(queue[1..], i - 1);
    }
  }

  lemma OneTaskIds(job: Job)
    ensures PendingIds([job]) == InstanceIds(job.spec.name, job.n)
  {
    assert [job][1..] == [];
  }

  lemma RestIds(job: Job)
    requires job.n >= 1
    ensures PendingIds([job]) == PendingIds(Rest(job)) + multiset{TaskId(job.spec.name, job.n)}
  {
    OneTaskIds(job);
    OneTaskIds(job.(n := job.n - 1));
  }

  /** The launched id is the one identifier that leaves the pending set. */
  lemma LaunchConservesIds(queue: seq<Job>, i: nat)
    requires i < |queue| && queue[i].n >= 1
    ensures PendingIds(queue) == PendingIds(Launch(queue, i)) + multiset{TaskId(queue[i].spec.name, queue[i].n)}
  {
    var front, job, back := queue[..i], [queue[i]], queue[i + 1..];
    LaunchReplaces(queue, i);
    RestIds(queue[i]);
    ConcatThree(front, job, back);
    ConcatThree(front, Rest(queue[i]), back);
  }

  lemma ConcatThree(a: seq<Job>, b: seq<Job>, d: seq<Job>)
    ensures PendingIds(a + b + d) == PendingIds(a) + PendingIds(b) + PendingIds(d)
  {
    PendingIdsConcat(a + b, d);
    PendingIdsConcat(a, b);
  }

  /** What holds of the queue and the picks between the start and any later moment of one offer. */
  ghost predicate QueueProgress(c: Ctx, f: Fill, g: Fill) {
    && f.picks <= g.picks
    && Positive(g.queue)
    && Subsequence(g.queue, f.queue)
    && PendingIds(g.queue) + PickIds(g.picks) == PendingIds(f.queue) + PickIds(f.picks)
    && g.scheduled - f.scheduled == |g.picks| - |f.picks|
    && (c.switching && f.scheduled <= c.window ==> g.scheduled <= c.window)
  }

  /** What holds of the offer. */
  ghost predicate OfferProgress(c: Ctx, o: Offer, f: Fill, g: Fill) {
    && f.picks <= g.picks
    && (f.used == PickNeeds(c, o, f.picks) ==> g.used == PickNeeds(c, o, g.picks))
    && (|f.picks| < |g.picks| || Within(c, o, f.used) ==> Within(c, o, g.used))
    && (forall k :: |f.picks| <= k < |g.picks| ==> Matches(o, g.picks[k].spec) && g.picks[k].n >= 1)
  }

  ghost predicate Progress(c: Ctx, o: Offer, f: Fill, g: Fill) {
    QueueProgress(c, f, g) && OfferProgress(c, o, f, g)
  }

  lemma PickMore(c: Ctx, o: Offer, picks: seq<Job>, job: Job)
    requires job.n >= 1
    ensures PickIds(picks + [job]) == PickIds(picks) + multiset{TaskId(job.spec.name, job.n)}
    ensures PickNeeds(c, o, picks + [job]) == PickNeeds(c, o, picks).Plus(Need(c, o, job.spec))
  {
    assert (picks + [job])[..|picks|] == picks;
  }

  lemma TakeQueueProgress(c: Ctx, o: Offer, f: Fill, i: nat)
    requires i < |f.queue| && Open(c, f.scheduled) && Positive(f.queue)
    ensures QueueProgress(c, f, Take(c, o, f, i))
  {
    assert f.queue[i] in f.queue;
    LaunchSubsequence(f.queue, i);
    LaunchConservesIds(f.queue, i);
    LaunchPositive(f.queue, i);
    PickMore(c, o, f.picks, f.queue[i]);
  }

  lemma TakeOfferProgress(c: Ctx, o: Offer, f: Fill, i: nat)
    requires i < |f.queue| && Placeable(c, o, f.used, f.queue[i].spec) && f.queue[i].n >= 1
    ensures OfferProgress(c, o, f, Take(c, o, f, i))
  {
    PickMore(c, o, f.picks, f.queue[i]);
  }

  lemma TakeProgress(c: Ctx, o: Offer, f: Fill, i: nat)
    requires i < |f.queue| && Open(c, f.scheduled) && Placeable(c, o, f.used, f.queue[i].spec)
    requires Positive(f.queue)
    ensures Progress(c, o, f, Take(c, o, f, i))
  {
    assert f.queue[i] in f.queue;
    TakeQueueProgress(c, o, f, i);
    TakeOfferProgress(c, o, f, i);
  }

  lemma LaunchPositive(queue: seq<Job>, i: nat)
    requires i < |queue| && Positive(queue)
    ensures Positive(Launch(queue, i))
  {
    LaunchReplaces(queue, i);
    forall j | j in Launch(queue, i)
      ensures j.n >= 1
    {
      assert j in queue || j in Rest(queue[i]);
    }
  }

  lemma ProgressTrans(c: Ctx, o: Offer, f: Fill, g: Fill, h: Fill)
    requires Progress(c, o, f, g) && Progress(c, o, g, h)
    ensures Progress(c, o, f, h)
  {
    SubsequenceTrans(h.queue, g.queue, f.queue);
    forall k | |f.picks| <= k < |h.picks|
      ensures Matches(o, h.picks[k].spec) && h.picks[k].n >= 1
    {
      if k < |g.picks| {
        assert h.picks[k] == g.picks[k];
      }
    }
  }

  lemma {:induction false} TakeAllProgress(c: Ctx, o: Offer, f: Fill, taken: seq<nat>)
    requires Guarded(c, o, f, taken) && Positive(f.queue)
    ensures Progress(c, o, f, TakeAll(c, o, f, taken))
    decreases |taken|
  {
    if taken == [] {
      SubsequenceRefl(f.queue);
    } else {
      var g := Take(c, o, f, taken[0]);
      TakeProgress(c, o, f, taken[0]);
      TakeAllProgress(c, o, g, taken[1..]);
      ProgressTrans(c, o, f, g, TakeAll(c, o, g, taken[1..]));
    }
  }

  /** Offer safety and conservation, for every policy and every offer: the launched instances sum to at most
      what was offered and all match its host, each launched id leaves the pending set, the window is not
      overrun, and what stays queued keeps its order. */
  lemma ConsumeProgress(p: Policy, c: Ctx, o: Offer, queue: seq<Job>, scheduled: int)
    requires Positive(queue)
    ensures Progress(c, o, Fresh(queue, scheduled), Consume(p, c, o, queue, scheduled))
    ensures Consume(p, c, o, queue, scheduled).used == PickNeeds(c, o, Consume(p, c, o, queue, scheduled).picks)
  {
    var taken := ConsumeTakes(p, c, o, queue, scheduled);
    TakeAllProgress(c, o, Fresh(queue, scheduled), taken);
  }

  // ----- work conservation

  lemma {:induction false} DrainIdle(c: Ctx, o: Offer, f: Fill, i: nat)
    requires i < |f.queue|
    ensures |Drain(c, o, f, i).picks| >= |f.picks|
    ensures Open(c, f.scheduled) && Fits(c, o, f.used, f.queue[i].spec) ==> |Drain(c, o, f, i).picks| > |f.picks|
    decreases f.queue[i].n
  {
    if Open(c, f.scheduled) && Fits(c, o, f.used, f.queue[i].spec) && f.queue[i].n > 1 {
      DrainIdle(c, o, Take(c, o, f, i), i);
    }
  }

  lemma {:induction false} GreedyIdle(c: Ctx, o: Offer, f: Fill, i: nat)
    requires Open(c, f.scheduled)
    ensures |Greedy(c, o, f, i).picks| >= |f.picks|
    ensures |Greedy(c, o, f, i).picks| == |f.picks|
            <==> forall k :: i <= k < |f.queue| ==> !Placeable(c, o, f.used, f.queue[k].spec)
    decreases |f.queue| - i
  {
    if i < |f.queue| {
      if Placeable(c, o, f.used, f.queue[i].spec) {
        var g := Drain(c, o, f, i);
        DrainIdle(c, o, f, i);
        GreedyGrows(c, o, g, i + 1);
      } else {
        GreedyIdle(c, o, f, i + 1);
      }
    }
  }

  lemma {:induction false} GreedyGrows(c: Ctx, o: Offer, f: Fill, i: nat)
    ensures |Greedy(c, o, f, i).picks| >= |f.picks|
    decreases |f.queue| - i
  {
    if i < |f.queue| {
      if Matches(o, f.queue[i].spec) {
        DrainIdle(c, o, f, i);
        GreedyGrows(c, o, Drain(c, o, f, i), i + 1);
      } else {
        GreedyGrows(c, o, f, i + 1);
      }
    }
  }

  lemma {:induction false} HeaviestIdle(c: Ctx, o: Offer, f: Fill, i: nat)
    requires i <= |f.queue| && Open(c, f.scheduled)
    ensures if forall k :: 0 <= k < i ==> !Placeable(c, o, f.used, f.queue[k].spec)
            then Heaviest(c, o, f, i) == f
            else |Heaviest(c, o, f, i).picks| > |f.picks|
  {
    if i > 0 && !Placeable(c, o, f.used, f.queue[i - 1].spec) {
      HeaviestIdle(c, o, f, i - 1);
    }
  }

  lemma {:induction false} FirstIdle(c: Ctx, o: Offer, f: Fill, i: nat)
    requires Open(c, f.scheduled)
    ensures if forall k :: i <= k < |f.queue| ==> !Placeable(c, o, f.used, f.queue[k].spec)
            then First(c, o, f, i) == f
            else |First(c, o, f, i).picks| > |f.picks|
    decreases |f.queue| - i
  {
    if i < |f.queue| && !Placeable(c, o, f.used, f.queue[i].spec) {
      FirstIdle(c, o, f, i + 1);
    }
  }

  /** Queue entry k could be launched on the untouched offer. */
  ghost predicate Candidate(c: Ctx, o: Offer, queue: seq<Job>, k: nat) {
    k < |queue| && Placeable(c, o, ZERO, queue[k].spec)
  }

  /** First-fit, bin-packing and max-greedymins decline an offer exactly when no queued task is a candidate. */
  lemma DeclinesIffNoCandidate(p: Policy, c: Ctx, o: Offer, queue: seq<Job>, scheduled: int)
    requires p != MaxMin && Open(c, scheduled)
    ensures Consume(p, c, o, queue, scheduled).picks == [] <==> forall k: nat :: !Candidate(c, o, queue, k)
  {
    var f := Fresh(queue, scheduled);
    assert forall k: nat :: k < |queue| ==> (Candidate(c, o, queue, k) <==> Placeable(c, o, f.used, f.queue[k].spec));
    match p
    case FirstFit => FirstIdle(c, o, f, 0);
    case BinPacking => GreedyIdle(c, o, f, 0);
    case MaxGreedyMins =>
      HeaviestIdle(c, o, f, |queue|);
      if forall k :: 0 <= k < |queue| ==> !Placeable(c, o, f.used, f.queue[k].spec) {
        GreedyIdle(c, o, f, 0);
      } else {
        GreedyGrows(c, o, Heaviest(c, o, f, |queue|), 0);
      }
  }

  /** Entry k is shut out by the stalled max-min cursor: above it a task for another host, and above that a
      task that matches the host but does not fit. */
  ghost predicate ShutOut(c: Ctx, o: Offer, queue: seq<Job>, k: nat) {
    exists m, a :: k < m < a < |queue| && !Matches(o, queue[m].spec) && Blocks(c, o, queue, a)
  }

  ghost predicate Blocks(c: Ctx, o: Offer, queue: seq<Job>, a: nat) {
    a < |queue| && Matches(o, queue[a].spec) && !Fits(c, o, ZERO, queue[a].spec)
  }

  /** Once a candidate failed, a task for another host stops the cursor for the rest of the offer. */
  lemma {:induction false} ScanStalls(c: Ctx, o: Offer, f: Fill, i: nat, index: int, direction: bool)
    requires CursorOk(|f.queue|, i, index, direction, false)
    requires 0 <= index < |f.queue| && !Matches(o, f.queue[index].spec)
    ensures Scan(c, o, f, i, index, direction, false) == f
    decreases |f.queue| - i
  {
    if i < |f.queue| && Open(c, f.scheduled) {
      ScanStalls(c, o, f, i + 1, index, direction);
    }
  }

  lemma {:induction false} ScanGrows(c: Ctx, o: Offer, f: Fill, i: nat, index: int, direction: bool, start: bool)
    requires CursorOk(|f.queue|, i, index, direction, start)
    ensures |Scan(c, o, f, i, index, direction, start).picks| >= |f.picks|
    decreases Total(f.queue), |f.queue| - i
  {
    if i < |f.queue| && Open(c, f.scheduled) {
      var k := Cursor(|f.queue|, i, index, direction, start);
      if !Matches(o, f.queue[k].spec) {
        ScanGrows(c, o, f, i + 1, k, direction, start);
      } else if Fits(c, o, f.used, f.queue[k].spec) {
        TotalLaunch(f.queue, k);
        ScanGrows(c, o, Take(c, o, f, k), i, k, !direction, true);
      } else {
        ScanGrows(c, o, f, i + 1, if direction then k + 1 else k - 1, direction, false);
      }
    }
  }

  /** The first descent of the scan, with the top i entries rejected. `start` tells whether none of them blocks;
      if one does, no entry for another host lies below it so far. */
  ghost predicate Descended(c: Ctx, o: Offer, f: Fill, i: nat, start: bool) {
    && Open(c, f.scheduled) && f.used == ZERO && f.picks == [] && i <= |f.queue|
    && (forall k: nat :: |f.queue| - i <= k ==> !Candidate(c, o, f.queue, k))
    && (start <==> forall a: nat :: |f.queue| - i <= a ==> !Blocks(c, o, f.queue, a))
    && (!start ==> forall m, a :: |f.queue| - i <= m < a < |f.queue| && Blocks(c, o, f.queue, a) ==> Matches(o, f.queue[m].spec))
  }

  /** The scan reaches a candidate: it takes it, and that candidate is not shut out. */
  lemma DescentTakes(c: Ctx, o: Offer, f: Fill, i: nat, start: bool)
    requires Descended(c, o, f, i, start) && i < |f.queue| && Candidate(c, o, f.queue, |f.queue| - 1 - i)
    ensures Scan(c, o, f, i, |f.queue| - 1 - i, false, start).picks != []
    ensures !ShutOut(c, o, f.queue, |f.queue| - 1 - i)
  {
    var k := |f.queue| - 1 - i;
    TotalLaunch(f.queue, k);
    ScanGrows(c, o, Take(c, o, f, k), i, k, true, true);
  }

  /** The scan stalls: every candidate below is shut out. */
  lemma DescentStalls(c: Ctx, o: Offer, f: Fill, i: nat)
    requires Descended(c, o, f, i, false) && i < |f.queue| && !Matches(o, f.queue[|f.queue| - 1 - i].spec)
    ensures Scan(c, o, f, i, |f.queue| - 1 - i, false, false).picks == []
    ensures forall b: nat :: Candidate(c, o, f.queue, b) ==> ShutOut(c, o, f.queue, b)
  {
    var k := |f.queue| - 1 - i;
    ScanStalls(c, o, f, i, k, false);
    var a: nat :| |f.queue| - i <= a && Blocks(c, o, f.queue, a);
    forall b: nat | Candidate(c, o, f.queue, b)
      ensures ShutOut(c, o, f.queue, b)
    {
      assert b < k < a < |f.queue|;
    }
  }

  /** A rejected entry takes the descent one further. */
  lemma DescentOn(c: Ctx, o: Offer, f: Fill, i: nat, start: bool)
    requires Descended(c, o, f, i, start) && i < |f.queue| && !Candidate(c, o, f.queue, |f.queue| - 1 - i)
    ensures Matches(o, f.queue[|f.queue| - 1 - i].spec) ==> Descended(c, o, f, i + 1, false)
    ensures !Matches(o, f.queue[|f.queue| - 1 - i].spec) && start ==> Descended(c, o, f, i + 1, true)
  {
    if Matches(o, f.queue[|f.queue| - 1 - i].spec) {
      assert Blocks(c, o, f.queue, |f.queue| - 1 - i);
    }
  }

  lemma {:induction false} DescentIdle(c: Ctx, o: Offer, f: Fill, i: nat, start: bool)
    requires Descended(c, o, f, i, start)
    ensures Scan(c, o, f, i, |f.queue| - 1 - i, false, start).picks == []
            <==> forall k: nat :: Candidate(c, o, f.queue, k) ==> ShutOut(c, o, f.queue, k)
    decreases |f.queue| - i
  {
    if i < |f.queue| {
      var k := |f.queue| - 1 - i;
      if Candidate(c, o, f.queue, k) {
        DescentTakes(c, o, f, i, start);
      } else if Matches(o, f.queue[k].spec) {
        DescentOn(c, o, f, i, start);
        DescentIdle(c, o, f, i + 1, false);
      } else if start {
        DescentOn(c, o, f, i, start);
        DescentIdle(c, o, f, i + 1, true);
      } else {
        DescentStalls(c, o, f, i);
      }
    }
  }

  /** Max-min declines an offer exactly when every candidate is shut out. */
  lemma MaxMinDeclinesIff(c: Ctx, o: Offer, queue: seq<Job>, scheduled: int)
    requires Open(c, scheduled)
    ensures Consume(MaxMin, c, o, queue, scheduled).picks == []
            <==> forall k: nat :: Candidate(c, o, queue, k) ==> ShutOut(c, o, queue, k)
  {
    var f := Fresh(queue, scheduled);
    assert forall i, index :: CursorOk(|queue|, i, index, false, true);
    DescentIdle(c, o, f, 0, true);
    ScanIgnoresIndex(c, o, f, 0, 0, |queue| - 1, false);
  }

  /** A fresh cursor does not look at the old index. */
  lemma ScanIgnoresIndex(c: Ctx, o: Offer, f: Fill, i: nat, a: int, b: int, direction: bool)
    ensures Scan(c, o, f, i, a, direction, true) == Scan(c, o, f, i, b, direction, true)
  {
  }

  /** With no host constraint max-min declines only what nobody can use. */
  lemma MaxMinDeclinesIffNoCandidate(c: Ctx, o: Offer, queue: seq<Job>, scheduled: int)
    requires Open(c, scheduled) && forall j :: j in queue ==> Matches(o, j.spec)
    ensures Consume(MaxMin, c, o, queue, scheduled).picks == [] <==> forall k: nat :: !Candidate(c, o, queue, k)
  {
    MaxMinDeclinesIff(c, o, queue, scheduled);
    assert forall m :: 0 <= m < |queue| ==> queue[m] in queue;
  }

  // ----- the fit test

  /** What a task has to be for an untouched offer: for that host, and no larger than the offer in any resource. */
  ghost predicate NoLarger(c: Ctx, o: Offer, spec: Spec) {
    && (spec.host == "" || spec.host <= o.hostname)
    && spec.cpu <= Amount(o.resources, "cpus") && spec.ram <= Amount(o.resources, "mem")
    && (c.wattsAsAResource ==> WattsToConsider(spec, c.classMapWatts, o).value <= Amount(o.resources, "watts"))
  }

  /** A single task is launched, under every policy, exactly when it is no larger than the offer, which it may fill up. */
  lemma OneTaskLaunchedIff(p: Policy, c: Ctx, o: Offer, job: Job, scheduled: int)
    requires Open(c, scheduled)
    ensures Consume(p, c, o, [job], scheduled).picks != [] <==> NoLarger(c, o, job.spec)
  {
    assert Candidate(c, o, [job], 0) <==> NoLarger(c, o, job.spec);
    if p == MaxMin {
      MaxMinDeclinesIff(c, o, [job], scheduled);
    } else {
      DeclinesIffNoCandidate(p, c, o, [job], scheduled);
    }
  }
}
