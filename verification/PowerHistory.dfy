/** Ring histories of power readings, their averages, and the choice of victims.
    Models pcp/utils.go, pcp/victim.go and the history part of the controllers in powerCap/. */
module PowerHistory {
  import opened Workload
  import opened Sorting

  /** A ring as seen from its current element, which is the oldest one. Slots never written hold nothing. */
  type Ring = seq<Option<real>>

  function NewRing(n: nat): Ring {
    seq(n, _ => None)
  }

  /** Sets the current element and moves on. */
  function Write(ring: Ring, value: real): Ring
    requires ring != []
  {
    ring[1..] + [Some(value)]
  }

  ghost function Readings(ring: Ring): seq<real> {
    if ring == [] then []
    else
      var last := ring[|ring| - 1];
      Readings(ring[..|ring| - 1]) + if last.Some? then [last.value] else []
  }

  ghost function Sum(values: seq<real>): real {
    if values == [] then 0.0 else Sum(values[..|values| - 1]) + values[|values| - 1]
  }

  ghost function Mean(values: seq<real>): real {
    if values == [] then 0.0 else Sum(values) / |values| as real
  }

  lemma {:induction false} SumConcat(a: seq<real>, b: seq<real>)
    ensures Sum(a + b) == Sum(a) + Sum(b)
  {
    if b == [] {
      assert a + b == a;
    } else {
      assert (a + b)[..|a + b| - 1] == a + b[..|b| - 1];
      SumConcat(a, b[..|b| - 1]);
    }
  }

  lemma MeanTimesCount(values: seq<real>)
    requires values != []
    ensures Mean(values) * |values| as real == Sum(values)
  {
  }

  /** The mean of a single value is the value, and means weigh with the number of values. */
  lemma MeanSplits(a: seq<real>, b: seq<real>, value: real)
    requires a != [] && b != []
    ensures Mean([value]) == value
    ensures Mean(a + b) * |a + b| as real == Mean(a) * |a| as real + Mean(b) * |b| as real
  {
    assert [value][..0] == [];
    assert Sum([value]) == value;
    SumConcat(a, b);
    MeanTimesCount(a);
    MeanTimesCount(b);
    MeanTimesCount(a + b);
  }

  method Tally(history: Ring) returns (total: real, count: nat)
    ensures total == Sum(Readings(history)) && count == |Readings(history)|
  {
    total, count := 0.0, 0;
    for k := 0 to |history|
      invariant total == Sum(Readings(history[..k])) && count == |Readings(history[..k])|
    {
      assert history[..k + 1][..k] == history[..k];
      if history[k].Some? {
        ghost var r := Readings(history[..k]);
        assert (r + [history[k].value])[..|r|] == r;
        total := total + history[k].value;
        count := count + 1;
      } else {
        assert Readings(history[..k + 1]) == Readings(history[..k]) + [];
        assert Readings(history[..k + 1]) == Readings(history[..k]);
      }
    }
    assert history[..|history|] == history;
  }

  method AverageClusterPowerHistory(history: Ring) returns (average: real)
    ensures average == Mean(Readings(history))
  {
    var total, count := Tally(history);
    average := if count == 0 then 0.0 else total / count as real;
  }

  /** Four readings, two packages and two memories, make up one moment of a node. */
  method AverageNodePowerHistory(history: Ring) returns (average: real)
    ensures average == 4.0 * Mean(Readings(history))
  {
    var total, count := Tally(history);
    if count == 0 {
      return 0.0;
    }
    var moments := count as real / 4.0;
    average := total / moments;
    assert total / (count as real / 4.0) == 4.0 * (total / count as real);
  }

  ghost function WriteAll(ring: Ring, values: seq<real>): (r: Ring)
    requires ring != []
    ensures |r| == |ring|
  {
    if values == [] then ring else Write(WriteAll(ring, values[..|values| - 1]), values[|values| - 1])
  }

  ghost function Somes(values: seq<real>): Ring {
    seq(|values|, k requires 0 <= k < |values| => Some(values[k]))
  }

  /** The last n values, or all of them. */
  ghost function Recent(values: seq<real>, n: nat): seq<real> {
    if |values| <= n then values else values[|values| - n..]
  }

  lemma RecentMore(n: nat, values: seq<real>, value: real)
    requires n >= 1
    ensures Recent(values + [value], n) == (if |values| < n then values else values[|values| - n + 1..]) + [value]
    ensures Recent(values, n) == if |values| < n then values else values[|values| - n..]
  {
  }

  /** Writing into a ring of empty slots followed by readings. */
  lemma WriteSomes(empty: nat, values: seq<real>, value: real)
    requires empty + |values| >= 1
    ensures Write(NewRing(empty) + Somes(values), value)
            == if empty > 0 then NewRing(empty - 1) + Somes(values + [value]) else Somes(values[1..] + [value])
  {
    if empty > 0 {
      assert (NewRing(empty) + Somes(values))[1..] == NewRing(empty - 1) + Somes(values);
      assert Somes(values + [value]) == Somes(values) + [Some(value)];
    } else {
      assert NewRing(0) + Somes(values) == Somes(values);
      assert Somes(values[1..] + [value]) == Somes(values)[1..] + [Some(value)];
    }
  }

  lemma {:induction false} RingHoldsRecent(n: nat, values: seq<real>)
    requires n >= 1
    ensures WriteAll(NewRing(n), values) == NewRing(n - |Recent(values, n)|) + Somes(Recent(values, n))
  {
    if values == [] {
      assert NewRing(n) + Somes([]) == NewRing(n);
    } else {
      var front, last := values[..|values| - 1], values[|values| - 1];
      assert values == front + [last];
      RingHoldsRecent(n, front);
      RecentMore(n, front, last);
      WriteSomes(n - |Recent(front, n)|, Recent(front, n), last);
      if |front| >= n {
        assert Recent(front, n)[1..] == front[|front| - n + 1..];
        assert NewRing(0) + Somes(Recent(values, n)) == Somes(Recent(values, n));
      }
    }
  }

  lemma {:induction false} ReadingsOfSomes(empty: nat, values: seq<real>)
    ensures Readings(NewRing(empty) + Somes(values)) == values
    decreases |values|, empty
  {
    var ring := NewRing(empty) + Somes(values);
    if values != [] {
      ReadingsOfSomes(empty, values[..|values| - 1]);
      assert ring[..|ring| - 1] == NewRing(empty) + Somes(values[..|values| - 1]);
    } else if empty > 0 {
      ReadingsOfSomes(empty - 1, values);
      assert ring[..|ring| - 1] == NewRing(empty - 1) + Somes(values);
    }
  }

  /** After any number of writes into a fresh ring of n slots, what is averaged are the last n values written. */
  lemma RingAverages(n: nat, values: seq<real>)
    requires n >= 1
    ensures Mean(Readings(WriteAll(NewRing(n), values))) == Mean(Recent(values, n))
  {
    RingHoldsRecent(n, values);
    ReadingsOfSomes(n - |Recent(values, n)|, Recent(values, n));
  }

  // ----- the histories of a cluster

  /** Two to the minus 32. */
  const RAPL_UNITS: real := 1.0 / 4294967296.0

  datatype Reading = Reading(host: string, power: real)

  type Histories = map<string, Ring>

  ghost predicate Rings(h: Histories) {
    forall name :: name in h ==> h[name] != []
  }

  ghost function Noted(h: Histories, readings: seq<Reading>): (r: Histories)
    requires Rings(h) && forall x :: x in readings ==> x.host in h
    ensures Rings(r) && r.Keys == h.Keys
  {
    if readings == [] then h
    else
      var last := readings[|readings| - 1];
      assert last in readings;
      var before := Noted(h, readings[..|readings| - 1]);
      before[last.host := Write(before[last.host], last.power)]
  }

  ghost function TotalPower(readings: seq<Reading>): real {
    if readings == [] then 0.0 else TotalPower(readings[..|readings| - 1]) + readings[|readings| - 1].power
  }

  /** The readings of a line are added up, whatever host they come from. */
  lemma {:induction false} TotalPowerSplits(a: seq<Reading>, b: seq<Reading>, one: Reading)
    ensures TotalPower([one]) == one.power
    ensures TotalPower(a + b) == TotalPower(a) + TotalPower(b)
  {
    assert [one][..0] == [];
    if b == [] {
      assert a + b == a;
    } else {
      assert (a + b)[..|a + b| - 1] == a + b[..|b| - 1];
      TotalPowerSplits(a, b[..|b| - 1], one);
    }
  }

  ghost function NodeMean(h: Histories, name: string): real
    requires name in h
  {
    4.0 * Mean(Readings(h[name]))
  }

  /** An order of all hosts by falling mean power; equal means may come in any order. */
  ghost predicate VictimOrder(h: Histories, order: seq<string>) {
    && (forall name :: name in order <==> name in h)
    && NoRepeats(order)
    && (forall i, j :: 0 <= i < j < |order| ==> NodeMean(h, order[i]) >= NodeMean(h, order[j]))
  }

  datatype Victim = Victim(watts: real, host: string)

  class Monitor {
    var powerHistories: Histories
    var clusterPowerHist: Ring

    constructor (hosts: set<string>)
      ensures Valid() && powerHistories == map h | h in hosts :: NewRing(20)
      ensures clusterPowerHist == NewRing(5)
    {
      powerHistories := map h | h in hosts :: NewRing(20);
      clusterPowerHist := NewRing(5);
    }

    ghost predicate Valid()
      reads this
    {
      Rings(powerHistories) && clusterPowerHist != []
    }

    /** Notes one line of readings and gives the mean power of the cluster. */
    method Record(readings: seq<Reading>) returns (clusterMean: real)
      requires Valid() && forall x :: x in readings ==> x.host in powerHistories
      modifies this
      ensures Valid() && powerHistories == Noted(old(powerHistories), readings)
      ensures clusterPowerHist == Write(old(clusterPowerHist), TotalPower(readings) * RAPL_UNITS)
      ensures clusterMean == Mean(Readings(clusterPowerHist))
    {
      var totalPower := Note(readings);
      clusterPowerHist := Write(clusterPowerHist, totalPower * RAPL_UNITS);
      clusterMean := AverageClusterPowerHistory(clusterPowerHist);
    }

    /** Writes each reading into its host's ring and adds them up. */
    method Note(readings: seq<Reading>) returns (totalPower: real)
      requires Valid() && forall x :: x in readings ==> x.host in powerHistories
      modifies this`powerHistories
      ensures Valid() && powerHistories == Noted(old(powerHistories), readings) && totalPower == TotalPower(readings)
    {
      totalPower := 0.0;
      for k := 0 to |readings|
        invariant Valid() && powerHistories == Noted(old(powerHistories), readings[..k])
        invariant totalPower == TotalPower(readings[..k])
      {
        assert readings[..k + 1][..k] == readings[..k];
        var r := readings[k];
        assert r in readings;
        powerHistories := powerHistories[r.host := Write(powerHistories[r.host], r.power)];
        totalPower := totalPower + r.power;
      }
      assert readings[..|readings|] == readings;
    }

    /** All hosts, those with the highest mean power first. */
    method Victims() returns (order: seq<string>)
      requires Valid()
      ensures VictimOrder(powerHistories, order)
    {
      var victims := GatherVictims();
      var key := (v: Victim) => -v.watts;
      var sorted := Sort(victims, key);
      order := seq(|sorted|, k requires 0 <= k < |sorted| => sorted[k].host);
      SortedVictims(powerHistories, victims, sorted, key);
    }

    /** One victim per host, in the order of some map iteration. */
    method GatherVictims() returns (victims: seq<Victim>)
      requires Valid()
      ensures Gathered(powerHistories, {}, victims)
    {
      victims := [];
      var rest := powerHistories.Keys;
      while rest != {}
        invariant rest <= powerHistories.Keys && Gathered(powerHistories, rest, victims)
        decreases rest
      {
        var name :| name in rest;
        var histMean := AverageNodePowerHistory(powerHistories[name]);
        var victim := Victim(histMean, name);
        GatherOne(powerHistories, rest, victims, victim);
        victims := victims + [victim];
        rest := rest - {name};
      }
    }
  }

  /** One victim for each host that is not among the rest. */
  ghost predicate Gathered(h: Histories, rest: set<string>, victims: seq<Victim>) {
    && (forall v :: v in victims ==> v.host in h && v.host !in rest && v.watts == NodeMean(h, v.host))
    && (forall name :: name in h && name !in rest ==> exists v :: v in victims && v.host == name)
    && DistinctBy(victims, (v: Victim) => v.host)
  }

  lemma GatherOne(h: Histories, rest: set<string>, victims: seq<Victim>, one: Victim)
    requires Gathered(h, rest, victims) && one.host in rest && rest <= h.Keys && one.watts == NodeMean(h, one.host)
    ensures Gathered(h, rest - {one.host}, victims + [one])
  {
    var after := victims + [one];
    assert forall v :: v in after <==> v in victims || v == one;
    forall i, j | 0 <= i < j < |after|
      ensures after[i].host != after[j].host
    {
      assert after[i] in victims;
      if j < |victims| {
        assert ((v: Victim) => v.host)(victims[i]) != ((v: Victim) => v.host)(victims[j]);
      }
    }
  }

  lemma SameHosts(h: Histories, victims: seq<Victim>, sorted: seq<Victim>)
    requires multiset(sorted) == multiset(victims) && Gathered(h, {}, victims)
    ensures forall k :: 0 <= k < |sorted| ==> sorted[k].host in h && sorted[k].watts == NodeMean(h, sorted[k].host)
    ensures forall name :: name in h ==> exists k :: 0 <= k < |sorted| && sorted[k].host == name
    ensures forall i, j :: 0 <= i < j < |sorted| ==> sorted[i].host != sorted[j].host
  {
    var key := (v: Victim) => v.host;
    DistinctReordered(victims, sorted, key);
    forall i, j | 0 <= i < j < |sorted|
      ensures sorted[i].host != sorted[j].host
    {
      assert key(sorted[i]) != key(sorted[j]);
    }
    forall k | 0 <= k < |sorted|
      ensures sorted[k].host in h && sorted[k].watts == NodeMean(h, sorted[k].host)
    {
      assert sorted[k] in multiset(victims);
    }
    forall name | name in h
      ensures exists k :: 0 <= k < |sorted| && sorted[k].host == name
    {
      var v :| v in victims && v.host == name;
      assert v in multiset(sorted);
    }
  }

  lemma SortedVictims(h: Histories, victims: seq<Victim>, sorted: seq<Victim>, key: Victim -> real)
    requires multiset(sorted) == multiset(victims) && |sorted| == |victims| && SortedBy(sorted, key)
    requires forall v: Victim :: key(v) == -v.watts
    requires Gathered(h, {}, victims)
    ensures VictimOrder(h, seq(|sorted|, k requires 0 <= k < |sorted| => sorted[k].host))
  {
    var order := seq(|sorted|, k requires 0 <= k < |sorted| => sorted[k].host);
    SameHosts(h, victims, sorted);
    forall i, j | 0 <= i < j < |order|
      ensures NodeMean(h, order[i]) >= NodeMean(h, order[j])
    {
      assert key(sorted[i]) <= key(sorted[j]);
    }
    forall name | name in h
      ensures name in order
    {
      var k :| 0 <= k < |sorted| && sorted[k].host == name;
      assert order[k] == name;
    }
  }

  // ----- the means after any number of lines

  /** The readings of one host, in order. */
  ghost function Of(readings: seq<Reading>, name: string): seq<real> {
    if readings == [] then []
    else
      var last := readings[|readings| - 1];
      Of(readings[..|readings| - 1], name) + if last.host == name then [last.power] else []
  }

  lemma WriteMore(ring: Ring, values: seq<real>, value: real)
    requires ring != []
    ensures WriteAll(ring, values + [value]) == Write(WriteAll(ring, values), value)
  {
    assert (values + [value])[..|values|] == values;
  }

  /** A host's ring receives the host's readings and nothing else. */
  lemma {:induction false} NotedWrites(h: Histories, readings: seq<Reading>, name: string)
    requires Rings(h) && name in h && forall x :: x in readings ==> x.host in h
    ensures Noted(h, readings)[name] == WriteAll(h[name], Of(readings, name))
  {
    if readings != [] {
      var front, last := readings[..|readings| - 1], readings[|readings| - 1];
      assert last in readings;
      NotedWrites(h, front, name);
      if last.host == name {
        WriteMore(h[name], Of(front, name), last.power);
      } else {
        assert Of(readings, name) == Of(front, name);
      }
    }
  }

  ghost function Joined(lines: seq<seq<Reading>>): seq<Reading> {
    if lines == [] then [] else Joined(lines[..|lines| - 1]) + lines[|lines| - 1]
  }

  /** The totals that went into the cluster's ring. */
  ghost function Totals(lines: seq<seq<Reading>>): seq<real> {
    if lines == [] then [] else Totals(lines[..|lines| - 1]) + [TotalPower(lines[|lines| - 1]) * RAPL_UNITS]
  }

  ghost predicate Known(hosts: set<string>, lines: seq<seq<Reading>>) {
    forall x :: x in Joined(lines) ==> x.host in hosts
  }

  ghost function NewRings(hosts: set<string>): (h: Histories)
    ensures Rings(h)
  {
    map h | h in hosts :: NewRing(20)
  }

  /** The monitor's fields after a number of lines. */
  ghost function HistoriesAfter(hosts: set<string>, lines: seq<seq<Reading>>): Histories
    requires Known(hosts, lines)
  {
    Noted(NewRings(hosts), Joined(lines))
  }

  ghost function ClusterAfter(lines: seq<seq<Reading>>): (r: Ring)
    ensures r != []
  {
    WriteAll(NewRing(5), Totals(lines))
  }

  lemma NoteMore(h: Histories, readings: seq<Reading>, last: Reading)
    requires Rings(h) && last.host in h && forall x :: x in readings ==> x.host in h
    ensures Noted(h, readings + [last]) == Noted(h, readings)[last.host := Write(Noted(h, readings)[last.host], last.power)]
  {
    assert (readings + [last])[..|readings|] == readings;
  }

  lemma {:induction false} NotedConcat(h: Histories, a: seq<Reading>, b: seq<Reading>)
    requires Rings(h) && (forall x :: x in a ==> x.host in h) && forall x :: x in b ==> x.host in h
    ensures Noted(h, a + b) == Noted(Noted(h, a), b)
  {
    if b == [] {
      assert a + b == a;
    } else {
      var front, last := b[..|b| - 1], b[|b| - 1];
      assert last in b && b == front + [last] && a + b == a + front + [last];
      NotedConcat(h, a, front);
      NoteMore(h, a + front, last);
      NoteMore(Noted(h, a), front, last);
    }
  }

  lemma JoinMore(hosts: set<string>, lines: seq<seq<Reading>>, line: seq<Reading>)
    requires Known(hosts, lines + [line])
    ensures Joined(lines + [line]) == Joined(lines) + line
    ensures Known(hosts, lines) && forall x :: x in line ==> x.host in hosts
  {
    assert (lines + [line])[..|lines|] == lines;
    assert Joined(lines + [line]) == Joined(lines) + line;
  }

  /** One more line, as Record takes it. */
  lemma LineAfter(hosts: set<string>, lines: seq<seq<Reading>>, line: seq<Reading>)
    requires Known(hosts, lines + [line])
    ensures Known(hosts, lines) && forall x :: x in line ==> x.host in hosts
    ensures HistoriesAfter(hosts, lines + [line]) == Noted(HistoriesAfter(hosts, lines), line)
    ensures ClusterAfter(lines + [line]) == Write(ClusterAfter(lines), TotalPower(line) * RAPL_UNITS)
  {
    JoinMore(hosts, lines, line);
    NotedConcat(NewRings(hosts), Joined(lines), line);
    TotalsMore(lines, line);
    WriteMore(NewRing(5), Totals(lines), TotalPower(line) * RAPL_UNITS);
  }

  lemma TotalsMore(lines: seq<seq<Reading>>, line: seq<Reading>)
    ensures Totals(lines + [line]) == Totals(lines) + [TotalPower(line) * RAPL_UNITS]
  {
    assert (lines + [line])[..|lines|] == lines;
  }

  /** The totals are those of the lines, in units of two to the minus 32. */
  lemma {:induction false} TotalsScaled(lines: seq<seq<Reading>>)
    ensures |Totals(lines)| == |lines|
    ensures forall i :: 0 <= i < |lines| ==> Totals(lines)[i] * 4294967296.0 == TotalPower(lines[i])
  {
    if lines != [] {
      var front, last := lines[..|lines| - 1], lines[|lines| - 1];
      TotalsScaled(front);
      assert lines == front + [last];
      TotalsMore(front, last);
      assert TotalPower(last) * RAPL_UNITS * 4294967296.0 == TotalPower(last);
    }
  }

  /** After any lines a host's mean is four times the plain mean of its last 20 readings, and the cluster's the plain mean of
      the last 5 totals. */
  lemma MeansAfter(hosts: set<string>, lines: seq<seq<Reading>>, name: string)
    requires Known(hosts, lines) && name in hosts
    ensures NodeMean(HistoriesAfter(hosts, lines), name) == 4.0 * Mean(Recent(Of(Joined(lines), name), 20))
    ensures Mean(Readings(ClusterAfter(lines))) == Mean(Recent(Totals(lines), 5))
  {
    NotedWrites(NewRings(hosts), Joined(lines), name);
    RingAverages(20, Of(Joined(lines), name));
    RingAverages(5, Totals(lines));
  }
}
