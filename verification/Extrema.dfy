/** The extrema power capper: a stack of capped hosts. Models powerCap/extrema.go. */
module Extrema {
  import opened Workload
  import opened Sorting
  import opened PowerHistory
  import opened RaplCap

  datatype Caps = Caps(capped: map<string, bool>, order: seq<string>)

  predicate Marked(capped: map<string, bool>, host: string) {
    host in capped && capped[host]
  }

  /** The first host of the list that is not capped. */
  function FirstUncapped(capped: map<string, bool>, victims: seq<string>): (r: Option<string>)
    ensures r.None? <==> forall h :: h in victims ==> Marked(capped, h)
    ensures r.Some? ==> r.value in victims && !Marked(capped, r.value)
  {
    if victims == [] then None
    else if !Marked(capped, victims[0]) then Some(victims[0])
    else FirstUncapped(capped, victims[1..])
  }

  /** A high line caps the first uncapped victim. */
  function High(c: Caps, victims: seq<string>): Caps {
    match FirstUncapped(c.capped, victims)
    case None => c
    case Some(host) => Caps(c.capped[host := true], c.order + [host])
  }

  /** A low line uncaps the host that was capped last. */
  function Low(c: Caps): Caps {
    if c.order == [] then c
    else Caps(c.capped[c.order[|c.order| - 1] := false], c.order[..|c.order| - 1])
  }

  // ----- properties

  /** The list is free of duplicates and holds exactly the hosts marked capped. */
  ghost predicate Inv(c: Caps) {
    NoRepeats(c.order) && forall h :: h in c.order <==> Marked(c.capped, h)
  }

  lemma HighKeepsInv(c: Caps, victims: seq<string>)
    requires Inv(c)
    ensures Inv(High(c, victims))
  {
  }

  lemma LowKeepsInv(c: Caps)
    requires Inv(c)
    ensures Inv(Low(c))
  {
    var d := Low(c);
    if c.order != [] {
      var n := |c.order| - 1;
      assert c.order == d.order + [c.order[n]];
      assert forall h :: h in c.order <==> h in d.order || h == c.order[n];
      forall h | h in d.order
        ensures h != c.order[n]
      {
        var i :| 0 <= i < n && d.order[i] == h;
        assert c.order[i] == h;
      }
    }
  }

  /** The host that is capped has the highest mean power among those not capped yet. */
  lemma {:induction false} HottestUncapped(h: Histories, capped: map<string, bool>, victims: seq<string>, other: string)
    requires VictimOrder(h, victims) && other in h && !Marked(capped, other)
    ensures FirstUncapped(capped, victims).Some? && FirstUncapped(capped, victims).value in h
    ensures NodeMean(h, other) <= NodeMean(h, FirstUncapped(capped, victims).value)
  {
    var k := FirstUncappedAt(capped, victims, other);
    var j :| 0 <= j < |victims| && victims[j] == other;
    assert k <= j;
  }

  lemma {:induction false} FirstUncappedAt(capped: map<string, bool>, victims: seq<string>, other: string) returns (k: nat)
    requires other in victims && !Marked(capped, other)
    ensures k < |victims| && FirstUncapped(capped, victims) == Some(victims[k])
    ensures forall j :: 0 <= j < |victims| && !Marked(capped, victims[j]) ==> k <= j
  {
    if !Marked(capped, victims[0]) {
      k := 0;
    } else {
      assert victims == [victims[0]] + victims[1..];
      var rest := FirstUncappedAt(capped, victims[1..], other);
      k := rest + 1;
      forall j | 0 <= j < |victims| && !Marked(capped, victims[j])
        ensures k <= j
      {
        assert victims[j] == victims[1..][j - 1];
      }
    }
  }

  /** A line of the controller that does something. */
  datatype Round = Cap(victims: seq<string>) | Uncap

  ghost function Apply(c: Caps, r: Round): Caps {
    match r case Cap(victims) => High(c, victims) case Uncap => Low(c)
  }

  ghost function ApplyAll(c: Caps, rounds: seq<Round>): Caps {
    if rounds == [] then c else Apply(ApplyAll(c, rounds[..|rounds| - 1]), rounds[|rounds| - 1])
  }

  /** Caps minus uncaps. */
  ghost function Depth(rounds: seq<Round>): int {
    if rounds == [] then 0 else Depth(rounds[..|rounds| - 1]) + if rounds[|rounds| - 1].Cap? then 1 else -1
  }

  /** Every cap finds an uncapped host, and no uncap reaches below the start. */
  ghost predicate Effective(c: Caps, rounds: seq<Round>) {
    rounds == [] ||
    var front, last := rounds[..|rounds| - 1], rounds[|rounds| - 1];
    && Effective(c, front)
    && (last.Cap? ==> FirstUncapped(ApplyAll(c, front).capped, last.victims).Some?)
    && Depth(rounds) >= 0
  }

  /** The hosts capped before the rounds stay at the bottom of the stack. */
  lemma {:induction false} StackGrows(c: Caps, rounds: seq<Round>)
    requires Inv(c) && Effective(c, rounds)
    ensures var d := ApplyAll(c, rounds);
            Inv(d) && Depth(rounds) >= 0 && |d.order| == |c.order| + Depth(rounds) && d.order[..|c.order|] == c.order
  {
    if rounds != [] {
      var front, last := rounds[..|rounds| - 1], rounds[|rounds| - 1];
      var m := ApplyAll(c, front);
      StackGrows(c, front);
      match last {
        case Cap(victims) => HighKeepsInv(m, victims);
        case Uncap => LowKeepsInv(m);
      }
    }
  }

  /** Any balanced stretch of effective rounds, k caps followed by k uncaps for instance, gives back the same list
      and the same capped hosts: hosts are released in the reverse of the order in which they were capped. */
  lemma BalancedRestores(c: Caps, rounds: seq<Round>)
    requires Inv(c) && Effective(c, rounds) && Depth(rounds) == 0
    ensures ApplyAll(c, rounds).order == c.order
    ensures forall h :: Marked(ApplyAll(c, rounds).capped, h) <==> Marked(c.capped, h)
  {
    StackGrows(c, rounds);
    assert ApplyAll(c, rounds).order[..|c.order|] == ApplyAll(c, rounds).order;
  }

  // ----- what the machines are told

  /** What the remote end is told in one line: 50 percent for a host added to the list, 100 for one taken off. */
  ghost function Commands(before: Caps, after: Caps): seq<Request> {
    if |after.order| > |before.order| then [Request(after.order[|after.order| - 1], 50.0)]
    else if |after.order| < |before.order| then [Request(before.order[|before.order| - 1], 100.0)]
    else []
  }

  /** Request i is the last one to its host. */
  ghost predicate LastTo(requests: seq<Request>, i: nat) {
    i < |requests| && forall j :: i < j < |requests| ==> requests[j].host != requests[i].host
  }

  /** Nothing but 50 and 100 percent was asked for; the last thing a host was told is 50 if it is marked capped and 100 if not,
      and a marked host was told something. */
  ghost predicate Told(requests: seq<Request>, c: Caps) {
    && (forall i :: 0 <= i < |requests| ==> requests[i].percentage == 50.0 || requests[i].percentage == 100.0)
    && (forall i: nat :: LastTo(requests, i) ==> (requests[i].percentage == 50.0 <==> Marked(c.capped, requests[i].host)))
    && (forall h :: Marked(c.capped, h) ==> exists i: nat :: LastTo(requests, i) && requests[i].host == h)
  }

  /** One more request, after which its host is marked as it was told and all others as before. */
  lemma ToldMore(requests: seq<Request>, c: Caps, one: Request, d: Caps)
    requires Told(requests, c) && one.percentage in {50.0, 100.0}
    requires Marked(d.capped, one.host) <==> one.percentage == 50.0
    requires forall h :: h != one.host ==> (Marked(d.capped, h) <==> Marked(c.capped, h))
    ensures Told(requests + [one], d)
  {
    var after := requests + [one];
    forall i: nat | LastTo(after, i)
      ensures after[i].percentage == 50.0 <==> Marked(d.capped, after[i].host)
    {
      if i < |requests| {
        assert after[|requests|] == one && after[i] == requests[i];
        assert forall j :: i < j < |requests| ==> after[j] == requests[j];
        assert LastTo(requests, i);
      }
    }
    forall h | Marked(d.capped, h)
      ensures exists i: nat :: LastTo(after, i) && after[i].host == h
    {
      if h == one.host {
        assert LastTo(after, |requests|);
      } else {
        var i: nat :| LastTo(requests, i) && requests[i].host == h;
        assert LastTo(after, i);
      }
    }
  }

  lemma HighTold(requests: seq<Request>, c: Caps, victims: seq<string>)
    requires Inv(c) && Told(requests, c)
    ensures Told(requests + Commands(c, High(c, victims)), High(c, victims))
  {
    match FirstUncapped(c.capped, victims)
    case None => assert requests + [] == requests;
    case Some(host) => ToldMore(requests, c, Request(host, 50.0), High(c, victims));
  }

  lemma LowTold(requests: seq<Request>, c: Caps)
    requires Inv(c) && Told(requests, c)
    ensures Told(requests + Commands(c, Low(c)), Low(c))
  {
    if c.order == [] {
      assert requests + [] == requests;
    } else {
      ToldMore(requests, c, Request(c.order[|c.order| - 1], 100.0), Low(c));
    }
  }

  /** All requests of a stretch of rounds. */
  ghost function Sent(c: Caps, rounds: seq<Round>): seq<Request> {
    if rounds == [] then []
    else Sent(c, rounds[..|rounds| - 1]) + Commands(ApplyAll(c, rounds[..|rounds| - 1]), ApplyAll(c, rounds))
  }

  /** After any rounds from the start the hosts marked capped are exactly those that were last told 50 percent. */
  lemma {:induction false} RunTold(rounds: seq<Round>)
    ensures Inv(ApplyAll(Caps(map[], []), rounds)) && Told(Sent(Caps(map[], []), rounds), ApplyAll(Caps(map[], []), rounds))
  {
    if rounds != [] {
      var front, last := rounds[..|rounds| - 1], rounds[|rounds| - 1];
      RunTold(front);
      var m, sent := ApplyAll(Caps(map[], []), front), Sent(Caps(map[], []), front);
      match last {
        case Cap(victims) =>
          HighKeepsInv(m, victims);
          HighTold(sent, m, victims);
        case Uncap =>
          LowKeepsInv(m);
          LowTold(sent, m);
      }
    }
  }

  class Controller {
    const monitor: Monitor
    const rapl: Rapl
    const hiThreshold: real
    const loThreshold: real
    /** How many requests the remote end had received before. */
    ghost const earlier: nat
    var cappedHosts: map<string, bool>
    var orderCapped: seq<string>

    constructor (monitor: Monitor, rapl: Rapl, hiThreshold: real, loThreshold: real)
      ensures this.monitor == monitor && this.rapl == rapl && this.hiThreshold == hiThreshold && this.loThreshold == loThreshold
      ensures View() == Caps(map[], []) && InStep() && earlier == |rapl.requests|
    {
      this.earlier := |rapl.requests|;
      this.monitor, this.rapl, this.hiThreshold, this.loThreshold := monitor, rapl, hiThreshold, loThreshold;
      cappedHosts, orderCapped := map[], [];
    }

    ghost function View(): Caps
      reads this
    {
      Caps(cappedHosts, orderCapped)
    }

    /** The requests of this controller agree with its marks. */
    ghost predicate InStep()
      reads this, rapl
    {
      Inv(View()) && earlier <= |rapl.requests| && Told(rapl.requests[earlier..], View())
    }

    /** Caps the first victim that is not capped yet. */
    method CapFirst(order: seq<string>)
      requires InStep()
      modifies this`cappedHosts, this`orderCapped, rapl`requests
      ensures InStep() && View() == High(old(View()), order)
      ensures rapl.requests == old(rapl.requests) + Commands(old(View()), View())
    {
      ghost var before, sent := View(), rapl.requests;
      HighKeepsInv(View(), order);
      HighTold(sent[earlier..], View(), order);
      for k := 0 to |order|
        invariant View() == old(View()) && rapl.requests == old(rapl.requests)
        invariant FirstUncapped(cappedHosts, order) == FirstUncapped(cappedHosts, order[k..])
      {
        assert order[k..][1..] == order[k + 1..];
        if !Marked(cappedHosts, order[k]) {
          cappedHosts := cappedHosts[order[k] := true];
          orderCapped := orderCapped + [order[k]];
          var err := rapl.Cap(order[k], 50.0);
          break;
        }
      }
      assert rapl.requests[earlier..] == sent[earlier..] + Commands(before, View());
    }

    /** Uncaps the host that was capped last. */
    method UncapLast()
      requires InStep()
      modifies this`cappedHosts, this`orderCapped, rapl`requests
      ensures InStep() && View() == Low(old(View()))
      ensures rapl.requests == old(rapl.requests) + Commands(old(View()), View())
    {
      ghost var before, sent := View(), rapl.requests;
      LowTold(sent[earlier..], View());
      LowKeepsInv(View());
      if |orderCapped| > 0 {
        var host := orderCapped[|orderCapped| - 1];
        orderCapped := orderCapped[..|orderCapped| - 1];
        cappedHosts := cappedHosts[host := false];
        var err := rapl.Cap(host, 100.0);
      }
      assert rapl.requests[earlier..] == sent[earlier..] + Commands(before, View());
    }

    /** One line of readings. A failing command changes nothing: the host stays noted as capped or released. */
    method Line(readings: seq<Reading>) returns (clusterMean: real, ghost victims: seq<string>)
      requires monitor.Valid() && InStep() && forall x :: x in readings ==> x.host in monitor.powerHistories
      modifies this`cappedHosts, this`orderCapped, monitor, rapl`requests
      ensures rapl.requests == old(rapl.requests) + Commands(old(View()), View())
      ensures monitor.Valid() && InStep()
      ensures monitor.powerHistories == Noted(old(monitor.powerHistories), readings)
      ensures monitor.clusterPowerHist == Write(old(monitor.clusterPowerHist), TotalPower(readings) * RAPL_UNITS)
      ensures clusterMean == Mean(Readings(monitor.clusterPowerHist))
      ensures clusterMean > hiThreshold ==> VictimOrder(monitor.powerHistories, victims) && View() == High(old(View()), victims)
      ensures clusterMean <= hiThreshold && clusterMean < loThreshold ==> View() == Low(old(View()))
      ensures clusterMean <= hiThreshold && clusterMean >= loThreshold ==> View() == old(View())
    {
      victims := [];
      clusterMean := monitor.Record(readings);
      if clusterMean > hiThreshold {
        var order := monitor.Victims();
        victims := order;
        CapFirst(order);
      } else if clusterMean < loThreshold {
        UncapLast();
      }
    }
  }
}
