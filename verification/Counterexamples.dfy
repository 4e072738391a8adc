/** Concrete inputs on which a plausible or documented property does not hold. The exact conditions are proved in
    PackedOffers, PackingTheorems, Ranking, Distribution, RunningAverage, ProgressiveExtrema, Accounting and RoundRobinSafety. */
module Counterexamples {
  import opened Workload
  import opened TaskIds
  import opened Packing
  import opened PackingTheorems
  import opened Leftovers
  import A = RunningAverage
  import B = Batches
  import C = Clusters
  import D = Distribution
  import F = Forecast
  import G = Accounting
  import K = Tracking
  import P = PackedOffers
  import R = Ranking
  import T = TightOffers
  import W = Window
  import X = ProgressiveExtrema
  import S = Switching

  const CPU_ONLY := Ctx(false, false, false, 0)

  const HOST_A := Offer("offer", "alpha", "agent", [Resource("cpus", 10.0), Resource("mem", 10.0)], [])

  function Needs(name: string, cpu: real, host: string): Job {
    Job(Spec(name, cpu, 1.0, 1.0, host, None), 1)
  }

  lemma Offered()
    ensures Agg(HOST_A).cpu == 10.0 && Agg(HOST_A).ram == 10.0
  {
    var rs := HOST_A.resources;
    assert rs[..1][..0] == [] && rs[..1] == [rs[0]];
    assert Amount(rs[..1], "cpus") == 10.0 && Amount(rs[..1], "mem") == 0.0;
  }

  /** Two small tasks and plenty of room: the greedy pass launches the first and steps over the second. */
  lemma GreedyNotPacked()
    ensures var queue := [Needs("a", 1.0, ""), Needs("b", 1.0, "")];
            Positive(queue) && AllNonNegative(queue) && !Packed(CPU_ONLY, HOST_A, Consume(BinPacking, CPU_ONLY, HOST_A, queue, 0))
  {
    var a, b := Needs("a", 1.0, ""), Needs("b", 1.0, "");
    var f := Fresh([a, b], 0);
    Offered();
    GreedyStep(CPU_ONLY, HOST_A, f, 0);
    var g := Drain(CPU_ONLY, HOST_A, f, 0);
    assert g.queue == [b];
    assert Greedy(CPU_ONLY, HOST_A, f, 0) == g;
    assert Placeable(CPU_ONLY, HOST_A, g.used, g.queue[0].spec);
  }

  /** The condition of TightOffers.PackedIfNoneTight is not necessary: b would fit beside a, but a is stepped over, does not fit any
      more, and b is launched. */
  lemma TightYetPacked(queue: seq<Job>)
    requires queue == [Needs("x", 9.0, ""), Needs("a", 2.0, ""), Needs("b", 1.0, "")]
    ensures Positive(queue) && AllNonNegative(queue) && T.Tight(CPU_ONLY, HOST_A, queue, ZERO, 2)
    ensures Packed(CPU_ONLY, HOST_A, Consume(BinPacking, CPU_ONLY, HOST_A, queue, 0))
  {
    Offered();
    var need0, need2 := Need(CPU_ONLY, HOST_A, queue[0].spec), Need(CPU_ONLY, HOST_A, queue[2].spec);
    var used1 := F.Charged(ZERO, need0, 1);
    var used2 := F.Charged(used1, need2, 1);
    assert F.Room(CPU_ONLY, HOST_A, ZERO, queue[0].spec, 1) == 1;
    assert F.After(CPU_ONLY, HOST_A, queue, ZERO, 0) == 2 && F.ChargedBy(CPU_ONLY, HOST_A, ZERO, queue[0]) == used1;
    assert F.Room(CPU_ONLY, HOST_A, used1, queue[2].spec, 1) == 1;
    assert F.After(CPU_ONLY, HOST_A, queue, used1, 2) == 4 && F.ChargedBy(CPU_ONLY, HOST_A, used1, queue[2]) == used2;
    assert F.UsedAfter(CPU_ONLY, HOST_A, queue, used2, 4) == used2;
    assert F.UsedAfter(CPU_ONLY, HOST_A, queue, ZERO, 0) == F.UsedAfter(CPU_ONLY, HOST_A, queue, used1, 2) == used2;
    forall p: nat | p < 3 && F.SteppedOver(CPU_ONLY, HOST_A, queue, ZERO, 0, p)
      ensures p == 1
    {
      assert !F.SteppedOver(CPU_ONLY, HOST_A, queue, used2, 4, p);
      assert !F.SteppedOver(CPU_ONLY, HOST_A, queue, used1, 2, p);
    }
    P.BinPackingPackedIff(CPU_ONLY, HOST_A, queue, 0);
  }

  /** Max-min declines an offer that the lightest task would fit: the heaviest does not fit, and the one in between
      is for another host. */
  lemma MaxMinDeclinesUsableOffer()
    ensures var queue := [Needs("a", 1.0, ""), Needs("b", 1.0, "beta"), Needs("c", 99.0, "")];
            Consume(MaxMin, CPU_ONLY, HOST_A, queue, 0).picks == [] && Candidate(CPU_ONLY, HOST_A, queue, 0)
  {
    var queue := [Needs("a", 1.0, ""), Needs("b", 1.0, "beta"), Needs("c", 99.0, "")];
    Offered();
    assert HostMismatch("alpha", "beta") by {
      assert "beta"[0] != "alpha"[0];
    }
    assert Blocks(CPU_ONLY, HOST_A, queue, 2) && !Matches(HOST_A, queue[1].spec);
    assert ShutOut(CPU_ONLY, HOST_A, queue, 0);
    MaxMinDeclinesIff(CPU_ONLY, HOST_A, queue, 0);
  }

  function Uses(name: string, watts: real): Job {
    Job(Spec(name, 1.0, 1.0, watts, "", None), 1)
  }

  /** Three clusters, the one in the middle empty: each wins once, so nothing is ordered. */
  lemma EmptyClusterBreaksRanks()
    ensures var watts := (s: Spec) => s.watts;
            var clusters: map<nat, seq<Job>> := map[0 := [Uses("heavy", 2.0)], 2 := [Uses("light", 1.0)]];
            && !R.Ranks(C.Sizes(clusters, 3, watts))
            && forall x :: 0 <= x < 3 ==> C.Scored(clusters, 3, watts)[x].sizeScore == 1
  {
    var watts := (s: Spec) => s.watts;
    var clusters: map<nat, seq<Job>> := map[0 := [Uses("heavy", 2.0)], 2 := [Uses("light", 1.0)]];
    var sizes := C.Sizes(clusters, 3, watts);
    C.AverageOfOne(Uses("heavy", 2.0), watts);
    C.AverageOfOne(Uses("light", 1.0), watts);
    assert sizes == [Some(2.0), None, Some(1.0)];
    assert C.Greater(sizes[0], sizes[2]) && sizes[1].None?;
    R.RanksIffConsistent(sizes);
    OneWinEach(sizes);
  }

  lemma OneWinEach(sizes: seq<Option<real>>)
    requires sizes == [Some(2.0), None, Some(1.0)]
    ensures C.Score(sizes, 0) == 1 && C.Score(sizes, 1) == 1 && C.Score(sizes, 2) == 1
  {
    assert C.Wins(sizes, 0, 0) == 0 && C.Wins(sizes, 0, 1) == 0 && C.Wins(sizes, 0, 2) == 0;
    assert C.Wins(sizes, 1, 0) == 0 && C.Wins(sizes, 1, 1) == 1 && C.Wins(sizes, 1, 2) == 1;
    assert C.Wins(sizes, 2, 0) == 0 && C.Wins(sizes, 2, 1) == 0 && C.Wins(sizes, 2, 2) == 1;
  }

  /** One task, labelled 1: a single cluster, and yet a ratio. */
  lemma OneClusterNoError()
    ensures var queue, km := [Uses("a", 1.0)], C.KMeans(true, [1], (s: Spec) => s.watts);
            D.Classified(1, queue, km) && D.Ratio(1, queue, km) == Some(0.0)
  {
    var queue, km := [Uses("a", 1.0)], C.KMeans(true, [1], (s: Spec) => s.watts);
    assert queue[..0] == [] && queue[..1] == queue;
    assert W.Instances(queue[..0]) == 0;
    assert W.Cover(queue, 1, 0) == W.Cover(queue, 1, 1) == 1;
    assert D.Labelled(queue[..0], km.labels, 0) == [] && D.Labelled(queue[..0], km.labels, 1) == [];
    assert D.InCluster(1, queue, km, 0) == [] && D.InCluster(1, queue, km, 1) == queue;
    D.OneClusterMissedIff(1, queue, km);
  }

  /** Two values with size 2, then one with size 1: the average is still that of two values. */
  method AveragesMoreThanAsked() returns (average: real)
    ensures average == 2.5
  {
    var package := new A.Singleton();
    average := package.Calc(A.Data("a", 1.0), 2);
    average := package.Calc(A.Data("b", 2.0), 2);
    assert package.Window() == [A.Data("a", 1.0), A.Data("b", 2.0)];
    average := package.Calc(A.Data("c", 3.0), 1);
    assert package.Window() == [A.Data("b", 2.0), A.Data("c", 3.0)];
    SumOfTwo(A.Data("b", 2.0), A.Data("c", 3.0));
  }

  lemma SumOfTwo(x: A.Data, y: A.Data)
    ensures A.WindowSum([x, y]) == x.val + y.val
  {
    assert [x, y][..1] == [x];
    A.SumOne(x);
  }

  /** Host b is uncapped and does not answer, so host a, already at 50, is taken to 25. */
  lemma FailureBreaksPhases()
    ensures var s := X.State(map["a" := 50.0], ["a"], map["a" := 50.0]);
            X.Phased(s, ["a", "b"]) && !X.Phased(X.High(s, ["b", "a"], {"a"}), ["a", "b"])
  {
    var s := X.State(map["a" := 50.0], ["a"], map["a" := 50.0]);
    var hosts, victims := ["a", "b"], ["b", "a"];
    assert X.Level(s, "a") == 1 && X.Level(s, "b") == 0;
    assert hosts[0] == victims[1] && hosts[1] == victims[0];
    X.HighKeepsPhasedIff(s, hosts, victims, {"a"});
    assert hosts[1] in hosts && hosts[0] in hosts;
  }

  /** A task of 20 watts that counts 5 on an offer of 10: it is launched, and its agent has 10 watts less than none unused. */
  lemma ClassWattsGoNegative(job: Job, offer: Offer, b: B.Batch)
    requires job == Job(Spec("a", 1.0, 1.0, 20.0, "", Some(map["A" := 5.0])), 1)
    requires offer == Offer("offer", "alpha", "agent", [Resource("cpus", 10.0), Resource("mem", 10.0), Resource("watts", 10.0)],
                            [Attribute("class", "A")])
    requires b == B.Batch([job], 0, K.Record(map[], [offer]), [])
    ensures G.Covered(true, b.hosts, offer)
    ensures !G.NoneNegative(true, B.Step(FirstFit, Ctx(true, true, false, 0), map[TaskId("a", 1) := K.Charge(job.spec)], b, offer).hosts)
  {
    var rs := offer.resources;
    assert rs[..2][..1] == [rs[0]] && rs[..1][..0] == [] && rs[..2][1] == rs[1] && rs[..1] == [rs[0]];
    assert Amount([rs[0]], "cpus") == 10.0 && Amount([rs[0]], "mem") == 0.0 && Amount([rs[0]], "watts") == 0.0;
    assert Amount(rs[..2], "cpus") == 10.0 && Amount(rs[..2], "mem") == 10.0 && Amount(rs[..2], "watts") == 0.0;
    assert Agg(offer) == Res(10.0, 10.0, 10.0);
    assert PowerClass(offer.attributes) == "A";
    assert Need(Ctx(true, true, false, 0), offer, job.spec) == Res(1.0, 1.0, 5.0);
    G.ClassWattsOvercommit(Ctx(true, true, false, 0), map[TaskId("a", 1) := K.Charge(job.spec)], offer, job, b);
  }

  /** Round-robin with an unlisted policy deployed has no policy to go to. */
  lemma UnlistedPolicyStuck()
    ensures var cfg := S.Config(true, false, Some(MaxMin), S.RoundRobin, [S.Entry(BinPacking, 1.0)]);
            forall counts, window, n, nearest ::
              S.Target(cfg, S.Switch(MaxMin, counts, window, n, true), nearest) == None
  {
  }
}
