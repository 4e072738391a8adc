/** Whether a greedy pass will leave an offer packed, told from the queue and the offer alone, before the pass.
    Nothing is removed and no counter changes here: the original queue is walked by index, two places at a time
    after a task that will be launched out. */
module Forecast {
  import opened Sorting
  import opened Workload
  import opened TaskIds
  import opened Packing
  import opened Leftovers

  /** m times x, by adding up. */
  function Times(m: int, x: real): real {
    if m <= 0 then 0.0 else Times(m - 1, x) + x
  }

  /** The amount charged after m more instances of one need. */
  function Charged(used: Res, need: Res, m: int): Res {
    Res(used.cpu + Times(m, need.cpu), used.ram + Times(m, need.ram), used.watts + Times(m, need.watts))
  }

  /** How many of n instances still fit. */
  ghost function Room(c: Ctx, o: Offer, used: Res, spec: Spec, n: int): nat
    decreases n
  {
    if n <= 0 || !Fits(c, o, used, spec) then 0 else 1 + Room(c, o, used.Plus(Need(c, o, spec)), spec, n - 1)
  }

  lemma ChargeOne(used: Res, need: Res, m: nat)
    ensures Charged(used.Plus(need), need, m) == Charged(used, need, m + 1)
  {
  }

  lemma ChargeNone(used: Res, need: Res)
    ensures Charged(used, need, 0) == used && Charged(used, need, 1) == used.Plus(need)
  {
  }

  lemma NeedNonNegative(c: Ctx, o: Offer, job: Job)
    requires NonNegative(job.spec)
    ensures Below(ZERO, Need(c, o, job.spec))
  {
  }

  /** With needs of at least zero a larger number of instances charges no less. */
  lemma {:induction false} ChargedGrows(used: Res, need: Res, m: nat, n: nat)
    requires Below(ZERO, need) && m <= n
    ensures Below(Charged(used, need, m), Charged(used, need, n))
    decreases n - m
  {
    if m < n {
      ChargedGrows(used, need, m, n - 1);
    }
  }

  lemma ChargedAtLeast(used: Res, need: Res, m: nat)
    requires Below(ZERO, need)
    ensures Below(used, Charged(used, need, m))
  {
    ChargeNone(used, need);
    ChargedGrows(used, need, 0, m);
  }

  /** Room is the largest number, up to n, of instances whose needs together stay within the offer. */
  lemma {:induction false} RoomIsLargest(c: Ctx, o: Offer, used: Res, spec: Spec, n: int)
    requires n >= 0
    ensures var m, need := Room(c, o, used, spec, n), Need(c, o, spec);
            && m <= n && (m > 0 ==> Within(c, o, Charged(used, need, m)))
            && (m < n ==> !Within(c, o, Charged(used, need, m + 1)))
    decreases n
  {
    var need := Need(c, o, spec);
    ChargeNone(used, need);
    if n > 0 && Fits(c, o, used, spec) {
      var m := Room(c, o, used.Plus(need), spec, n - 1);
      RoomIsLargest(c, o, used.Plus(need), spec, n - 1);
      ChargeOne(used, need, m);
      ChargeOne(used, need, m + 1);
    }
  }

  /** Draining launches as many instances as there is room for. */
  lemma {:induction false} DrainIsRoom(c: Ctx, o: Offer, f: Fill, i: nat)
    requires i < |f.queue| && !c.switching && f.queue[i].n >= 1
    ensures var g, job := Drain(c, o, f, i), f.queue[i];
            var m := Room(c, o, f.used, job.spec, job.n);
            && g.used == Charged(f.used, Need(c, o, job.spec), m)
            && g.queue == if m == job.n then Without(f.queue, i) else f.queue[i := job.(n := job.n - m)]
    decreases f.queue[i].n
  {
    var job := f.queue[i];
    var need := Need(c, o, job.spec);
    ChargeNone(f.used, need);
    if Fits(c, o, f.used, job.spec) {
      var t := Take(c, o, f, i);
      ChargeOne(f.used, need, Room(c, o, t.used, job.spec, job.n - 1));
      if job.n > 1 {
        DrainIsRoom(c, o, t, i);
        WithoutReplaced(f.queue, i, job.(n := job.n - 1));
      } else {
        assert Room(c, o, t.used, job.spec, 0) == 0;
      }
    }
  }

  lemma WithoutReplaced(queue: seq<Job>, i: nat, job: Job)
    requires i < |queue|
    ensures Without(queue[i := job], i) == Without(queue, i)
  {
  }

  // ----- the pass over the original queue

  /** What task j of the queue will take. */
  ghost function Takes(c: Ctx, o: Offer, used: Res, job: Job): nat {
    if Matches(o, job.spec) then Room(c, o, used, job.spec, job.n) else 0
  }

  /** The place the pass goes to after task j: past its neighbour if the task is launched out. */
  ghost function After(c: Ctx, o: Offer, queue: seq<Job>, used: Res, j: nat): nat
    requires j < |queue|
  {
    if Matches(o, queue[j].spec) && Takes(c, o, used, queue[j]) == queue[j].n then j + 2 else j + 1
  }

  ghost function ChargedBy(c: Ctx, o: Offer, used: Res, job: Job): Res {
    Charged(used, Need(c, o, job.spec), Takes(c, o, used, job))
  }

  /** What will be charged to the offer in the end. */
  ghost function UsedAfter(c: Ctx, o: Offer, queue: seq<Job>, used: Res, j: nat): Res
    decreases |queue| - j
  {
    if j >= |queue| then used
    else UsedAfter(c, o, queue, ChargedBy(c, o, used, queue[j]), After(c, o, queue, used, j))
  }

  /** Place p will be stepped over. */
  ghost predicate SteppedOver(c: Ctx, o: Offer, queue: seq<Job>, used: Res, j: nat, p: nat)
    decreases |queue| - j
  {
    j < |queue|
    && ((p == j + 1 < |queue| && After(c, o, queue, used, j) == j + 2)
        || SteppedOver(c, o, queue, ChargedBy(c, o, used, queue[j]), After(c, o, queue, used, j), p))
  }

  /** The cursor i of the pass over the shrinking queue stands where place j of the original queue is. */
  ghost predicate SamePlace(f: Fill, i: nat, queue: seq<Job>, j: nat) {
    if i <= |f.queue| && j <= |queue| then f.queue[i..] == queue[j..] else i >= |f.queue| && j >= |queue|
  }

  /** From f to g entry i is gone exactly when task j is forecast to be launched out; then the neighbour of task j, if it has
      one, has slid into its place. */
  ghost predicate LaunchedOut(c: Ctx, o: Offer, f: Fill, i: nat, queue: seq<Job>, j: nat, g: Fill)
    requires j < |queue|
  {
    && (|g.queue| < |f.queue| <==> After(c, o, queue, f.used, j) == j + 2)
    && (|g.queue| < |f.queue| && i < |g.queue| ==> j + 1 < |queue| && g.queue[i] == queue[j + 1])
    && (|g.queue| < |f.queue| && i >= |g.queue| ==> j + 1 == |queue|)
  }

  /** One task of the pass and one step of the forecast. */
  lemma SameStep(c: Ctx, o: Offer, f: Fill, i: nat, queue: seq<Job>, j: nat, g: Fill)
    requires !c.switching && i < |f.queue| && j < |queue| && SamePlace(f, i, queue, j) && f.queue[i].n >= 1
    requires g == (if Matches(o, f.queue[i].spec) then Drain(c, o, f, i) else f)
    ensures f.queue[i] == queue[j] && g.used == ChargedBy(c, o, f.used, queue[j])
    ensures SamePlace(g, i + 1, queue, After(c, o, queue, f.used, j))
    ensures LaunchedOut(c, o, f, i, queue, j, g)
  {
    assert f.queue[i] == f.queue[i..][0] == queue[j..][0];
    assert f.queue[i + 1..] == f.queue[i..][1..] == queue[j..][1..] == queue[j + 1..];
    ChargeNone(f.used, Need(c, o, f.queue[i].spec));
    if Matches(o, f.queue[i].spec) {
      DrainIsRoom(c, o, f, i);
      if |g.queue| < |f.queue| {
        assert g.queue[i..] == f.queue[i + 1..];
        if i < |g.queue| {
          assert g.queue[i + 1..] == g.queue[i..][1..] == queue[j + 1..][1..] == queue[j + 2..];
          assert g.queue[i] == g.queue[i..][0] == queue[j + 1..][0];
        }
      } else {
        assert g.queue[i + 1..] == f.queue[i + 1..];
      }
    }
  }

  /** The tasks are those at the places that will be stepped over. */
  ghost predicate Foretold(c: Ctx, o: Offer, queue: seq<Job>, used: Res, j: nat, skipped: seq<Job>) {
    forall job :: job in skipped <==> exists p: nat :: p < |queue| && SteppedOver(c, o, queue, used, j, p) && queue[p] == job
  }

  /** The forecast is right about the amounts and about the entries stepped over. */
  lemma {:induction false} ForecastRight(c: Ctx, o: Offer, f: Fill, i: nat, queue: seq<Job>, j: nat)
    requires !c.switching && Positive(f.queue) && AllNonNegative(f.queue) && SamePlace(f, i, queue, j)
    ensures Greedy(c, o, f, i).used == UsedAfter(c, o, queue, f.used, j)
    ensures Foretold(c, o, queue, f.used, j, Skipped(c, o, f, i))
    decreases |f.queue| - i
  {
    if i < |f.queue| {
      assert f.queue[i] in f.queue;
      var g := if Matches(o, f.queue[i].spec) then Drain(c, o, f, i) else f;
      SameStep(c, o, f, i, queue, j, g);
      if Matches(o, f.queue[i].spec) {
        DrainOutcome(c, o, f, i);
      }
      ForecastRight(c, o, g, i + 1, queue, After(c, o, queue, f.used, j));
      SkippedStep(c, o, f, i, queue, j, g);
    }
  }

  /** The entry stepped over at this task, on both sides. */
  lemma SkippedStep(c: Ctx, o: Offer, f: Fill, i: nat, queue: seq<Job>, j: nat, g: Fill)
    requires i < |f.queue| && j < |queue| && g == (if Matches(o, f.queue[i].spec) then Drain(c, o, f, i) else f)
    requires g.used == ChargedBy(c, o, f.used, queue[j])
    requires LaunchedOut(c, o, f, i, queue, j, g)
    requires Foretold(c, o, queue, g.used, After(c, o, queue, f.used, j), Skipped(c, o, g, i + 1))
    ensures Foretold(c, o, queue, f.used, j, Skipped(c, o, f, i))
  {
    var here := if |g.queue| < |f.queue| && i < |g.queue| then [g.queue[i]] else [];
    assert Skipped(c, o, f, i) == here + Skipped(c, o, g, i + 1);
    forall p: nat
      ensures SteppedOver(c, o, queue, f.used, j, p)
              <==> (p == j + 1 && here != []) || SteppedOver(c, o, queue, g.used, After(c, o, queue, f.used, j), p)
    {
    }
    if here != [] {
      assert SteppedOver(c, o, queue, f.used, j, j + 1);
    }
  }

  /** No task that will be stepped over will find room in what will be left. */
  ghost predicate NoneMissed(c: Ctx, o: Offer, queue: seq<Job>, used: Res) {
    forall p: nat :: p < |queue| && SteppedOver(c, o, queue, used, 0, p)
                     ==> !Placeable(c, o, UsedAfter(c, o, queue, used, 0), queue[p].spec)
  }

  /** A greedy pass leaves the offer packed exactly when that is forecast. */
  lemma PassPackedIff(c: Ctx, o: Offer, f: Fill)
    requires !c.switching && Positive(f.queue) && AllNonNegative(f.queue)
    ensures Packed(c, o, Greedy(c, o, f, 0)) <==> NoneMissed(c, o, f.queue, f.used)
  {
    GreedyPackedIff(c, o, f);
    ForecastRight(c, o, f, 0, f.queue, 0);
  }
}
