/** The progressive extrema power capper: hosts are capped in phases, 100, 50, 25 and 12.5 percent.
    Models powerCap/progressiveExtrema.go. */
module ProgressiveExtrema {
  import opened Workload
  import opened Sorting
  import opened PowerHistory
  import opened RaplCap

  // ----- cap values

  /** Half away from zero. */
  function Round(num: real): int {
    (num + if num >= 0.0 then 0.5 else -0.5).Floor
  }

  function Pow10(precision: nat): real {
    if precision == 0 then 1.0 else 10.0 * Pow10(precision - 1)
  }

  function GetNextCapValue(curCapValue: real, precision: nat): real
    requires Pow10(precision) != 0.0
  {
    Round(curCapValue / 2.0 * Pow10(precision)) as real / Pow10(precision)
  }

  lemma Hundred()
    ensures Pow10(2) == 100.0
  {
    assert Pow10(0) == 1.0 && Pow10(1) == 10.0;
  }

  /** With two decimals the next value is half of the current one exactly when that half has two decimals. */
  lemma NextCapIsHalfIff(v: real)
    requires v >= 0.0
    ensures Pow10(2) == 100.0
    ensures GetNextCapValue(v, 2) == v / 2.0 <==> (50.0 * v).Floor as real == 50.0 * v
  {
    Hundred();
    var x := v / 2.0 * 100.0;
    assert x == 50.0 * v;
    var r := (x + 0.5).Floor;
    assert Round(x) == r;
    if x.Floor as real == x {
      assert r == x.Floor;
    }
    assert r as real / 100.0 == v / 2.0 <==> r as real == x;
  }

  const LOWER_CAP_LIMIT := 12.5

  // ----- the controller's state and its two kinds of rounds, on values

  /** The three structures kept in parallel: hosts that can be capped further, the hosts that can be uncapped in
      the order of their first cap, and the cap value of each of those. */
  datatype State = State(capped: map<string, real>, order: seq<string>, values: map<string, real>)

  /** The first host of the list that is not capped at all and answers. */
  function Fresh(s: State, hosts: seq<string>, ok: set<string>): Option<string> {
    if hosts == [] then None
    else if hosts[0] !in s.capped && hosts[0] !in s.values && hosts[0] in ok then Some(hosts[0])
    else Fresh(s, hosts[1..], ok)
  }

  function ValueOf(s: State, host: string): real {
    if host in s.values then s.values[host] else 0.0
  }

  /** The first host of the list that can be capped further and answers. */
  function Further(s: State, hosts: seq<string>, ok: set<string>): Option<string> {
    if hosts == [] then None
    else if hosts[0] in s.capped && ValueOf(s, hosts[0]) > LOWER_CAP_LIMIT && hosts[0] in ok then Some(hosts[0])
    else Further(s, hosts[1..], ok)
  }

  function CapTo(s: State, host: string, value: real): State {
    if value <= LOWER_CAP_LIMIT then State(s.capped - {host}, s.order, s.values[host := value])
    else State(s.capped[host := value], s.order, s.values[host := value])
  }

  /** A high round caps a fresh host at 50, else halves the value of a host that is already capped. */
  ghost function High(s: State, hosts: seq<string>, ok: set<string>): State {
    match Fresh(s, hosts, ok)
    case Some(host) => State(s.capped[host := 50.0], s.order + [host], s.values[host := 50.0])
    case None =>
      match Further(s, hosts, ok)
      case None => s
      case Some(host) => (Hundred(); CapTo(s, host, GetNextCapValue(ValueOf(s, host), 2)))
  }

  /** The list without the first occurrence of x. */
  function Dropped(order: seq<string>, x: string): seq<string> {
    if order == [] then []
    else if order[0] == x then order[1..]
    else [order[0]] + Dropped(order[1..], x)
  }

  /** A low round doubles the value of one host of lowest value; at 100 the host is forgotten. */
  ghost function Low(s: State, host: string, ok: set<string>): State {
    if s.order == [] || host !in s.values then s
    else
      var value := s.values[host] * 2.0;
      if value > 100.0 || host !in ok then s
      else if value >= 100.0 then State(s.capped - {host}, Dropped(s.order, host), s.values - {host})
      else if value > LOWER_CAP_LIMIT then State(s.capped[host := value], s.order, s.values[host := value])
      else s
  }

  // ----- consistency, whatever fails

  /** The list has no duplicates and exactly the keys of the values; the hosts that can be capped further are those
      strictly above the limit, with equal values; values are 50, 25 or 12.5. */
  ghost predicate Consistent(s: State) {
    && NoRepeats(s.order)
    && (forall h :: h in s.order <==> h in s.values)
    && (forall h :: h in s.capped <==> h in s.values && s.values[h] > LOWER_CAP_LIMIT)
    && (forall h :: h in s.capped ==> s.capped[h] == s.values[h])
    && (forall h :: h in s.values ==> s.values[h] == 50.0 || s.values[h] == 25.0 || s.values[h] == 12.5)
  }

  lemma Halves()
    ensures Pow10(2) == 100.0
    ensures GetNextCapValue(50.0, 2) == 25.0 && GetNextCapValue(25.0, 2) == 12.5
  {
    NextCapIsHalfIff(50.0);
    NextCapIsHalfIff(25.0);
    assert (50.0 * 50.0).Floor as real == 2500.0 && (50.0 * 25.0).Floor as real == 1250.0;
  }

  lemma {:induction false} FreshMeans(s: State, hosts: seq<string>, ok: set<string>)
    ensures var r := Fresh(s, hosts, ok);
            && (r.Some? ==> r.value in hosts && r.value !in s.capped && r.value !in s.values && r.value in ok)
            && (r.None? ==> forall h :: h in hosts && h in ok ==> h in s.capped || h in s.values)
  {
    if hosts != [] {
      FreshMeans(s, hosts[1..], ok);
      assert hosts == [hosts[0]] + hosts[1..];
    }
  }

  lemma {:induction false} FurtherMeans(s: State, hosts: seq<string>, ok: set<string>)
    ensures var r := Further(s, hosts, ok);
            && (r.Some? ==> r.value in hosts && r.value in s.capped && ValueOf(s, r.value) > LOWER_CAP_LIMIT && r.value in ok)
            && (r.None? ==> forall h :: h in hosts && h in ok && h in s.capped ==> ValueOf(s, h) <= LOWER_CAP_LIMIT)
  {
    if hosts != [] {
      FurtherMeans(s, hosts[1..], ok);
      assert hosts == [hosts[0]] + hosts[1..];
    }
  }

  lemma FreshKeepsConsistent(s: State, host: string)
    requires Consistent(s) && host !in s.values
    ensures Consistent(State(s.capped[host := 50.0], s.order + [host], s.values[host := 50.0]))
  {
  }

  lemma CapToKeepsConsistent(s: State, host: string, value: real)
    requires Consistent(s) && host in s.capped && value in {25.0, 12.5}
    ensures Consistent(CapTo(s, host, value))
  {
  }

  lemma HighKeepsConsistent(s: State, hosts: seq<string>, ok: set<string>)
    requires Consistent(s)
    ensures Consistent(High(s, hosts, ok))
  {
    FreshMeans(s, hosts, ok);
    match Fresh(s, hosts, ok)
    case Some(host) => FreshKeepsConsistent(s, host);
    case None =>
      FurtherMeans(s, hosts, ok);
      match Further(s, hosts, ok)
      case None =>
      case Some(host) =>
        Halves();
        CapToKeepsConsistent(s, host, GetNextCapValue(ValueOf(s, host), 2));
  }

  lemma {:induction false} DroppedMeans(order: seq<string>, x: string)
    requires NoRepeats(order)
    ensures NoRepeats(Dropped(order, x)) && forall h :: h in Dropped(order, x) <==> h in order && h != x
  {
    if order != [] {
      var rest := order[1..];
      assert order == [order[0]] + rest;
      assert forall i, j :: 0 <= i < j < |rest| ==> rest[i] == order[i + 1] && rest[j] == order[j + 1];
      assert order[0] !in rest;
      DroppedMeans(rest, x);
    }
  }

  lemma LowKeepsConsistent(s: State, host: string, ok: set<string>)
    requires Consistent(s)
    ensures Consistent(Low(s, host, ok))
  {
    if host in s.values && s.values[host] == 50.0 {
      DroppedMeans(s.order, host);
    }
  }

  lemma {:induction false} FreshAt(s: State, hosts: seq<string>, ok: set<string>, other: nat) returns (k: nat)
    requires other < |hosts| && hosts[other] !in s.capped && hosts[other] !in s.values && hosts[other] in ok
    ensures k <= other && Fresh(s, hosts, ok) == Some(hosts[k])
  {
    if hosts[0] !in s.capped && hosts[0] !in s.values && hosts[0] in ok {
      k := 0;
    } else {
      var rest := FreshAt(s, hosts[1..], ok, other - 1);
      k := rest + 1;
    }
  }

  /** A fresh victim has the highest mean power among the uncapped hosts that answer. */
  lemma FreshHottest(h: Histories, s: State, victims: seq<string>, ok: set<string>, other: string)
    requires VictimOrder(h, victims) && other in h && other in ok && other !in s.capped && other !in s.values
    ensures var r := Fresh(s, victims, ok);
            r.Some? && r.value in h && NodeMean(h, other) <= NodeMean(h, r.value)
  {
    var at :| 0 <= at < |victims| && victims[at] == other;
    var k := FreshAt(s, victims, ok, at);
    assert victims[k] in victims;
  }

  lemma {:induction false} FurtherAt(s: State, hosts: seq<string>, ok: set<string>, other: nat) returns (k: nat)
    requires other < |hosts| && hosts[other] in s.capped && ValueOf(s, hosts[other]) > LOWER_CAP_LIMIT && hosts[other] in ok
    ensures k <= other && Further(s, hosts, ok) == Some(hosts[k])
  {
    if hosts[0] in s.capped && ValueOf(s, hosts[0]) > LOWER_CAP_LIMIT && hosts[0] in ok {
      k := 0;
    } else {
      var rest := FurtherAt(s, hosts[1..], ok, other - 1);
      k := rest + 1;
    }
  }

  /** A host that is capped further has the highest mean power among the answering hosts that are capped above the limit. */
  lemma FurtherHottest(h: Histories, s: State, victims: seq<string>, ok: set<string>, other: string)
    requires VictimOrder(h, victims) && other in h && other in ok && other in s.capped && ValueOf(s, other) > 12.5
    ensures var r := Further(s, victims, ok);
            r.Some? && r.value in h && NodeMean(h, other) <= NodeMean(h, r.value)
  {
    var at :| 0 <= at < |victims| && victims[at] == other;
    var k := FurtherAt(s, victims, ok, at);
    assert victims[k] in victims;
  }

  // ----- levels

  /** 0 uncapped, then 1, 2 and 3 for 50, 25 and 12.5 percent. */
  ghost function Level(s: State, host: string): nat {
    if host !in s.values then 0
    else if s.values[host] >= 50.0 then 1 else if s.values[host] >= 25.0 then 2 else 3
  }

  ghost function Levels(s: State, hosts: seq<string>): nat {
    if hosts == [] then 0 else Level(s, hosts[0]) + Levels(s, hosts[1..])
  }

  /** All hosts of the cluster, each once. */
  ghost predicate Cluster(hosts: seq<string>) {
    NoRepeats(hosts)
  }

  /** t differs from s by one level of one host. */
  ghost predicate OneLevel(s: State, t: State, host: string, step: int) {
    Level(t, host) == Level(s, host) + step && forall h :: h != host ==> Level(t, h) == Level(s, h)
  }

  lemma {:induction false} LevelsSame(s: State, t: State, hosts: seq<string>)
    requires forall h :: h in hosts ==> Level(t, h) == Level(s, h)
    ensures Levels(t, hosts) == Levels(s, hosts)
  {
    if hosts != [] {
      assert hosts == [hosts[0]] + hosts[1..];
      LevelsSame(s, t, hosts[1..]);
    }
  }

  lemma {:induction false} LevelsChange(s: State, t: State, hosts: seq<string>, host: string, step: int)
    requires NoRepeats(hosts) && host in hosts && OneLevel(s, t, host, step)
    ensures Levels(t, hosts) == Levels(s, hosts) + step
  {
    var rest := hosts[1..];
    assert hosts == [hosts[0]] + rest;
    assert forall i, j :: 0 <= i < j < |rest| ==> rest[i] == hosts[i + 1] && rest[j] == hosts[j + 1];
    assert hosts[0] !in rest;
    if hosts[0] == host {
      LevelsSame(s, t, rest);
    } else {
      LevelsChange(s, t, rest, host, step);
    }
  }

  lemma {:induction false} LevelsBound(s: State, hosts: seq<string>)
    ensures Levels(s, hosts) <= 3 * |hosts|
    ensures Levels(s, hosts) == 3 * |hosts| <==> forall h :: h in hosts ==> Level(s, h) == 3
    ensures Levels(s, hosts) == 0 <==> forall h :: h in hosts ==> Level(s, h) == 0
  {
    if hosts != [] {
      assert hosts == [hosts[0]] + hosts[1..];
      LevelsBound(s, hosts[1..]);
    }
  }

  /** Victims of a high round, and the tracked hosts, are hosts of the cluster. */
  ghost predicate Within(s: State, hosts: seq<string>) {
    forall h :: h in s.values ==> h in hosts
  }

  ghost predicate SameHosts(victims: seq<string>, hosts: seq<string>) {
    forall h :: h in victims <==> h in hosts
  }

  /** A high round with every host answering raises exactly one host by one level, unless all are at 12.5. */
  lemma HighRaises(s: State, hosts: seq<string>, victims: seq<string>, ok: set<string>)
    requires Consistent(s) && Within(s, hosts) && SameHosts(victims, hosts) && forall h :: h in hosts ==> h in ok
    ensures Within(High(s, victims, ok), hosts)
    ensures if forall h :: h in hosts ==> Level(s, h) == 3 then High(s, victims, ok) == s
            else exists h :: h in hosts && OneLevel(s, High(s, victims, ok), h, 1)
  {
    FreshMeans(s, victims, ok);
    FurtherMeans(s, victims, ok);
    Halves();
    var t := High(s, victims, ok);
    match Fresh(s, victims, ok)
    case Some(host) => assert OneLevel(s, t, host, 1);
    case None =>
      match Further(s, victims, ok)
      case Some(host) => assert OneLevel(s, t, host, 1);
      case None =>
        forall h | h in hosts
          ensures Level(s, h) == 3
        {
          assert h in victims && h in ok;
        }
  }

  /** No tracked host has a lower value. */
  ghost predicate Lowest(s: State, host: string) {
    host in s.values && forall h :: h in s.values ==> s.values[host] <= s.values[h]
  }

  /** A low round with the host answering lowers exactly that host by one level. */
  lemma LowLowers(s: State, hosts: seq<string>, host: string, ok: set<string>)
    requires Consistent(s) && Within(s, hosts) && host in ok
    requires s.order != [] ==> Lowest(s, host)
    ensures Within(Low(s, host, ok), hosts)
    ensures if s.order == [] then Low(s, host, ok) == s else host in hosts && OneLevel(s, Low(s, host, ok), host, -1)
  {
    DroppedMeans(s.order, host);
    if s.order != [] {
      assert s.order[0] in s.values;
    }
  }

  // ----- runs

  datatype Line = Hi(victims: seq<string>, ok: set<string>) | Lo(host: string, ok: set<string>) | Idle

  ghost function Apply(s: State, r: Line): State {
    match r case Hi(victims, ok) => High(s, victims, ok) case Lo(host, ok) => Low(s, host, ok) case Idle => s
  }

  ghost function ApplyAll(s: State, rounds: seq<Line>): State {
    if rounds == [] then s else Apply(ApplyAll(s, rounds[..|rounds| - 1]), rounds[|rounds| - 1])
  }

  /** The victims are the hosts of the cluster; the host to uncap has a lowest value. */
  ghost predicate Legal(s: State, hosts: seq<string>, r: Line) {
    match r
    case Hi(victims, _) => SameHosts(victims, hosts)
    case Lo(host, _) => s.order != [] ==> Lowest(s, host)
    case Idle => true
  }

  ghost predicate LegalRun(s: State, hosts: seq<string>, rounds: seq<Line>) {
    rounds == [] || (LegalRun(s, hosts, rounds[..|rounds| - 1])
                     && Legal(ApplyAll(s, rounds[..|rounds| - 1]), hosts, rounds[|rounds| - 1]))
  }

  ghost predicate Answers(r: Line, hosts: seq<string>) {
    match r
    case Hi(_, ok) => forall h :: h in hosts ==> h in ok
    case Lo(host, ok) => host in ok
    case Idle => true
  }

  const EMPTY := State(map[], [], map[])

  /** The structures stay consistent over every run, whichever commands fail. */
  lemma {:induction false} RunConsistent(hosts: seq<string>, rounds: seq<Line>)
    requires LegalRun(EMPTY, hosts, rounds)
    ensures Consistent(ApplyAll(EMPTY, rounds)) && Within(ApplyAll(EMPTY, rounds), hosts)
  {
    if rounds != [] {
      var front, last := rounds[..|rounds| - 1], rounds[|rounds| - 1];
      var m := ApplyAll(EMPTY, front);
      RunConsistent(hosts, front);
      match last {
        case Hi(victims, ok) =>
          HighKeepsConsistent(m, victims, ok);
          FreshMeans(m, victims, ok);
          FurtherMeans(m, victims, ok);
        case Lo(host, ok) => LowKeepsConsistent(m, host, ok);
        case Idle =>
      }
    }
  }

  /** The sum of levels as a walk between 0 and 3 per host: up on high rounds, down on low ones. */
  ghost function Walk(top: nat, rounds: seq<Line>): nat {
    if rounds == [] then 0
    else
      var before := Walk(top, rounds[..|rounds| - 1]);
      match rounds[|rounds| - 1]
      case Hi(_, _) => if before < top then before + 1 else before
      case Lo(_, _) => if before > 0 then before - 1 else 0
      case Idle => before
  }

  /** With no command failing, whatever the victims and ties were, the sum of levels depends on nothing but the
      sequence of high and low rounds. */
  lemma {:induction false} LevelsFollowWalk(hosts: seq<string>, rounds: seq<Line>)
    requires Cluster(hosts) && LegalRun(EMPTY, hosts, rounds)
    requires forall r :: r in rounds ==> Answers(r, hosts)
    ensures Levels(ApplyAll(EMPTY, rounds), hosts) == Walk(3 * |hosts|, rounds)
  {
    if rounds == [] {
      LevelsBound(EMPTY, hosts);
    } else {
      var front, last := rounds[..|rounds| - 1], rounds[|rounds| - 1];
      assert last in rounds && forall r :: r in front ==> r in rounds;
      LevelsFollowWalk(hosts, front);
      RunConsistent(hosts, front);
      StepFollowsWalk(ApplyAll(EMPTY, front), hosts, last);
    }
  }

  lemma StepFollowsWalk(s: State, hosts: seq<string>, r: Line)
    requires Cluster(hosts) && Consistent(s) && Within(s, hosts) && Legal(s, hosts, r) && Answers(r, hosts)
    ensures var before, after := Levels(s, hosts), Levels(Apply(s, r), hosts);
            match r
            case Hi(_, _) => after == if before < 3 * |hosts| then before + 1 else before
            case Lo(_, _) => after == if before > 0 then before - 1 else 0
            case Idle => after == before
  {
    LevelsBound(s, hosts);
    match r
    case Hi(victims, ok) =>
      HighRaises(s, hosts, victims, ok);
      if !(forall h :: h in hosts ==> Level(s, h) == 3) {
        var h :| h in hosts && OneLevel(s, High(s, victims, ok), h, 1);
        LevelsChange(s, High(s, victims, ok), hosts, h, 1);
      }
    case Lo(host, ok) =>
      LowLowers(s, hosts, host, ok);
      if s.order != [] {
        LevelsChange(s, Low(s, host, ok), hosts, host, -1);
      }
    case Idle =>
  }

  /** From any state of any run, as many high rounds as levels are missing to three per host cap every host at 12.5. */
  lemma HighRoundsSaturate(hosts: seq<string>, first: seq<Line>, highs: seq<Line>)
    requires Cluster(hosts) && LegalRun(EMPTY, hosts, first + highs)
    requires forall r :: r in first + highs ==> Answers(r, hosts)
    requires (forall r :: r in highs ==> r.Hi?) && Walk(3 * |hosts|, first) + |highs| >= 3 * |hosts|
    ensures forall h :: h in hosts ==> Level(ApplyAll(EMPTY, first + highs), h) == 3
  {
    LevelsFollowWalk(hosts, first + highs);
    HighWalk(3 * |hosts|, first, highs);
    LevelsBound(ApplyAll(EMPTY, first + highs), hosts);
  }

  lemma {:induction false} WalkBelowTop(top: nat, rounds: seq<Line>)
    ensures Walk(top, rounds) <= top
  {
    if rounds != [] {
      WalkBelowTop(top, rounds[..|rounds| - 1]);
    }
  }

  lemma {:induction false} HighWalk(top: nat, first: seq<Line>, highs: seq<Line>)
    requires forall r :: r in highs ==> r.Hi?
    ensures Walk(top, first + highs) == if Walk(top, first) + |highs| <= top then Walk(top, first) + |highs| else top
  {
    if highs == [] {
      assert first + highs == first;
      WalkBelowTop(top, first);
    } else {
      var all := first + highs;
      assert highs[|highs| - 1] in highs && all[|all| - 1] == highs[|highs| - 1];
      assert all[..|all| - 1] == first + highs[..|highs| - 1];
      HighWalk(top, first, highs[..|highs| - 1]);
    }
  }

  /** As many low rounds as the sum of levels release every host. */
  lemma LowRoundsRelease(hosts: seq<string>, first: seq<Line>, lows: seq<Line>)
    requires Cluster(hosts) && LegalRun(EMPTY, hosts, first + lows)
    requires forall r :: r in first + lows ==> Answers(r, hosts)
    requires (forall r :: r in lows ==> r.Lo?) && |lows| >= Walk(3 * |hosts|, first)
    ensures ApplyAll(EMPTY, first + lows).order == [] && ApplyAll(EMPTY, first + lows).values == map[]
  {
    var s := ApplyAll(EMPTY, first + lows);
    assert s.order != [] ==> s.order[0] in s.order;
    LevelsFollowWalk(hosts, first + lows);
    LowWalk(3 * |hosts|, first, lows);
    LevelsBound(s, hosts);
    RunConsistent(hosts, first + lows);
    assert forall h :: h in s.values ==> h in hosts && Level(s, h) >= 1;
    assert s.values.Keys == {};
  }

  lemma {:induction false} LowWalk(top: nat, first: seq<Line>, lows: seq<Line>)
    requires forall r :: r in lows ==> r.Lo?
    ensures Walk(top, first + lows) == if Walk(top, first) >= |lows| then Walk(top, first) - |lows| else 0
  {
    if lows == [] {
      assert first + lows == first;
    } else {
      var all := first + lows;
      assert lows[|lows| - 1] in lows && all[|all| - 1] == lows[|lows| - 1];
      assert all[..|all| - 1] == first + lows[..|lows| - 1];
      LowWalk(top, first, lows[..|lows| - 1]);
    }
  }

  // ----- nobody is capped twice while somebody is not capped at all

  /** If some host is at 25 percent or below, then no host is uncapped. */
  ghost predicate Phased(s: State, hosts: seq<string>) {
    (exists h :: h in hosts && Level(s, h) >= 2) ==> forall h :: h in hosts ==> Level(s, h) >= 1
  }

  lemma LowKeepsPhased(s: State, hosts: seq<string>, host: string, ok: set<string>)
    requires Consistent(s) && Within(s, hosts) && Phased(s, hosts) && (s.order != [] ==> Lowest(s, host))
    ensures Phased(Low(s, host, ok), hosts)
  {
    DroppedMeans(s.order, host);
  }

  /** A high round breaks the discipline exactly when some host is uncapped, none of the uncapped hosts answers,
      and a capped host does. */
  lemma HighKeepsPhasedIff(s: State, hosts: seq<string>, victims: seq<string>, ok: set<string>)
    requires Consistent(s) && Within(s, hosts) && Phased(s, hosts) && SameHosts(victims, hosts)
    ensures !Phased(High(s, victims, ok), hosts)
            <==> && (exists h :: h in hosts && Level(s, h) == 0)
                 && (forall h :: h in hosts && Level(s, h) == 0 ==> h !in ok)
                 && (exists h :: h in hosts && Level(s, h) >= 1 && h in ok)
  {
    FreshMeans(s, victims, ok);
    FurtherMeans(s, victims, ok);
    Halves();
    var t := High(s, victims, ok);
    match Fresh(s, victims, ok)
    case Some(host) => assert host in hosts && Level(s, host) == 0;
    case None =>
      match Further(s, victims, ok)
      case Some(host) => assert host in hosts && Level(s, host) >= 1 && Level(t, host) >= 2;
      case None =>
  }

  /** With no command failing the discipline holds over every run. */
  lemma {:induction false} RunPhased(hosts: seq<string>, rounds: seq<Line>)
    requires LegalRun(EMPTY, hosts, rounds) && forall r :: r in rounds ==> Answers(r, hosts)
    ensures Phased(ApplyAll(EMPTY, rounds), hosts)
  {
    if rounds != [] {
      var front, last := rounds[..|rounds| - 1], rounds[|rounds| - 1];
      var m := ApplyAll(EMPTY, front);
      assert last in rounds && forall r :: r in front ==> r in rounds;
      RunPhased(hosts, front);
      RunConsistent(hosts, front);
      match last {
        case Hi(victims, ok) => HighKeepsPhasedIff(m, hosts, victims, ok);
        case Lo(host, ok) => LowKeepsPhased(m, hosts, host, ok);
        case Idle =>
      }
    }
  }

  // ----- what the hosts are told

  function NextPhase(value: real): real {
    Hundred();
    GetNextCapValue(value, 2)
  }

  /** The commands of the search for a fresh victim: 50 to each, until one answers. */
  ghost function FreshTries(s: State, hosts: seq<string>, ok: set<string>): seq<Request> {
    if hosts == [] then []
    else if hosts[0] in s.capped || hosts[0] in s.values then FreshTries(s, hosts[1..], ok)
    else [Request(hosts[0], 50.0)] + if hosts[0] in ok then [] else FreshTries(s, hosts[1..], ok)
  }

  /** The commands of the search for a host to cap further: its next phase to each, until one answers. */
  ghost function FurtherTries(s: State, hosts: seq<string>, ok: set<string>): seq<Request> {
    if hosts == [] then []
    else if hosts[0] !in s.capped || ValueOf(s, hosts[0]) <= LOWER_CAP_LIMIT then FurtherTries(s, hosts[1..], ok)
    else [Request(hosts[0], NextPhase(ValueOf(s, hosts[0])))] + if hosts[0] in ok then [] else FurtherTries(s, hosts[1..], ok)
  }

  ghost function LowTries(s: State, host: string): seq<Request> {
    if s.order == [] || host !in s.values then [] else [Request(host, s.values[host] * 2.0)]
  }

  /** All commands of a round. */
  ghost function Commands(s: State, r: Line): seq<Request> {
    match r
    case Hi(victims, ok) =>
      FreshTries(s, victims, ok) + if Fresh(s, victims, ok).Some? then [] else FurtherTries(s, victims, ok)
    case Lo(host, _) => LowTries(s, host)
    case Idle => []
  }

  /** Every percentage asked for is one of the four phases. */
  ghost predicate PhasesOnly(requests: seq<Request>) {
    forall r :: r in requests ==> r.percentage in {12.5, 25.0, 50.0, 100.0}
  }

  lemma {:induction false} FreshTriesPhases(s: State, hosts: seq<string>, ok: set<string>)
    ensures PhasesOnly(FreshTries(s, hosts, ok))
  {
    if hosts != [] {
      FreshTriesPhases(s, hosts[1..], ok);
    }
  }

  lemma {:induction false} FurtherTriesPhases(s: State, hosts: seq<string>, ok: set<string>)
    requires Consistent(s)
    ensures PhasesOnly(FurtherTries(s, hosts, ok))
  {
    if hosts != [] {
      Halves();
      FurtherTriesPhases(s, hosts[1..], ok);
    }
  }

  lemma CommandsArePhases(s: State, r: Line)
    requires Consistent(s)
    ensures PhasesOnly(Commands(s, r))
  {
    match r
    case Hi(victims, ok) =>
      FreshTriesPhases(s, victims, ok);
      FurtherTriesPhases(s, victims, ok);
    case _ =>
  }

  /** The last command of a search, and whether it is answered. */
  lemma {:induction false} LastFreshTry(s: State, hosts: seq<string>, ok: set<string>)
    ensures var tries, found := FreshTries(s, hosts, ok), Fresh(s, hosts, ok);
            if found.Some? then tries != [] && tries[|tries| - 1] == Request(found.value, 50.0) && found.value in ok
            else forall t :: t in tries ==> t.host !in ok
  {
    if hosts != [] {
      LastFreshTry(s, hosts[1..], ok);
    }
  }

  lemma {:induction false} LastFurtherTry(s: State, hosts: seq<string>, ok: set<string>)
    ensures var tries, found := FurtherTries(s, hosts, ok), Further(s, hosts, ok);
            if found.Some? then tries != [] && tries[|tries| - 1] == Request(found.value, NextPhase(ValueOf(s, found.value)))
                                && found.value in ok
            else forall t :: t in tries ==> t.host !in ok
  {
    if hosts != [] {
      LastFurtherTry(s, hosts[1..], ok);
    }
  }

  /** The answering hosts of a round. */
  ghost function Answering(r: Line): set<string> {
    match r case Hi(_, ok) => ok case Lo(_, ok) => ok case Idle => {}
  }

  /** The new values are what the last command set, if it was answered: 100 forgets the host, anything else is its value.
      Without an answered command nothing changes. */
  ghost predicate Follows(s: State, commands: seq<Request>, ok: set<string>, after: State) {
    if commands == [] || commands[|commands| - 1].host !in ok then after == s
    else
      var last := commands[|commands| - 1];
      after.values == if last.percentage == 100.0 then s.values - {last.host} else s.values[last.host := last.percentage]
  }

  lemma FreshFollows(s: State, victims: seq<string>, ok: set<string>)
    requires Fresh(s, victims, ok).Some?
    ensures Follows(s, Commands(s, Hi(victims, ok)), ok, High(s, victims, ok))
  {
    LastFreshTry(s, victims, ok);
    assert Commands(s, Hi(victims, ok)) == FreshTries(s, victims, ok);
  }

  lemma LastOfBoth(a: seq<Request>, b: seq<Request>)
    requires b != []
    ensures (a + b)[|a + b| - 1] == b[|b| - 1]
  {
  }

  lemma FurtherFollows(s: State, victims: seq<string>, ok: set<string>)
    requires Consistent(s) && Fresh(s, victims, ok).None? && Further(s, victims, ok).Some?
    ensures Follows(s, Commands(s, Hi(victims, ok)), ok, High(s, victims, ok))
  {
    var host := Further(s, victims, ok).value;
    LastFurtherTry(s, victims, ok);
    FurtherMeans(s, victims, ok);
    Halves();
    LastOfBoth(FreshTries(s, victims, ok), FurtherTries(s, victims, ok));
    assert NextPhase(ValueOf(s, host)) in {25.0, 12.5};
    assert High(s, victims, ok).values == s.values[host := NextPhase(ValueOf(s, host))];
  }

  lemma NoneFollows(s: State, victims: seq<string>, ok: set<string>)
    requires Fresh(s, victims, ok).None? && Further(s, victims, ok).None?
    ensures Follows(s, Commands(s, Hi(victims, ok)), ok, High(s, victims, ok))
  {
    LastFreshTry(s, victims, ok);
    LastFurtherTry(s, victims, ok);
    var a, b := FreshTries(s, victims, ok), FurtherTries(s, victims, ok);
    assert forall t: Request :: t in a + b ==> t.host !in ok;
  }

  /** What is noted down follows the commands of the round. */
  lemma NotedAsCommanded(s: State, r: Line)
    requires Consistent(s)
    ensures Follows(s, Commands(s, r), Answering(r), Apply(s, r))
  {
    match r
    case Hi(victims, ok) =>
      if Fresh(s, victims, ok).Some? {
        FreshFollows(s, victims, ok);
      } else if Further(s, victims, ok).Some? {
        FurtherFollows(s, victims, ok);
      } else {
        NoneFollows(s, victims, ok);
      }
    case _ =>
  }

  // ----- the controller

  class Controller {
    const monitor: Monitor
    const rapl: Rapl
    const hiThreshold: real
    const loThreshold: real
    var cappedVictims: map<string, real>
    var orderCapped: seq<string>
    var orderCappedVictims: map<string, real>

    constructor (monitor: Monitor, rapl: Rapl, hiThreshold: real, loThreshold: real)
      ensures this.monitor == monitor && this.rapl == rapl && this.hiThreshold == hiThreshold && this.loThreshold == loThreshold
      ensures View() == EMPTY
    {
      this.monitor, this.rapl, this.hiThreshold, this.loThreshold := monitor, rapl, hiThreshold, loThreshold;
      cappedVictims, orderCapped, orderCappedVictims := map[], [], map[];
    }

    ghost function View(): State
      reads this
    {
      State(cappedVictims, orderCapped, orderCappedVictims)
    }

    /** Caps a fresh victim if one answers; collects the hosts that can be capped further. */
    method CapFresh(victims: seq<string>) returns (found: bool, already: seq<string>)
      modifies this, rapl`requests
      ensures rapl.requests == old(rapl.requests) + FreshTries(old(View()), victims, rapl.reachable)
      ensures var r := Fresh(old(View()), victims, rapl.reachable);
              && (found <==> r.Some?)
              && (found ==> View() == State(old(cappedVictims)[r.value := 50.0], old(orderCapped) + [r.value],
                                            old(orderCappedVictims)[r.value := 50.0]))
              && (!found ==> View() == old(View()) && already == Already(old(View()), victims))
    {
      found, already := false, [];
      for i := 0 to |victims|
        invariant !found && View() == old(View())
        invariant rapl.requests + FreshTries(old(View()), victims[i..], rapl.reachable)
                  == old(rapl.requests) + FreshTries(old(View()), victims, rapl.reachable)
        invariant already == Already(old(View()), victims[..i])
        invariant Fresh(old(View()), victims, rapl.reachable) == Fresh(old(View()), victims[i..], rapl.reachable)
      {
        assert victims[..i + 1][..i] == victims[..i] && victims[i..][1..] == victims[i + 1..];
        var host := victims[i];
        if host !in cappedVictims {
          if host in orderCappedVictims {
            continue;
          }
          var err := rapl.Cap(host, 50.0);
          if !err {
            cappedVictims := cappedVictims[host := 50.0];
            found := true;
            orderCapped := orderCapped + [host];
            orderCappedVictims := orderCappedVictims[host := 50.0];
            break;
          }
        } else {
          already := already + [host];
        }
      }
      assert victims[..|victims|] == victims;
    }

    /** Notes a further cap; at the limit the host cannot be capped any further. */
    method NoteCap(host: string, newCapValue: real)
      modifies this`cappedVictims, this`orderCappedVictims
      ensures View() == CapTo(old(View()), host, newCapValue)
    {
      if newCapValue <= LOWER_CAP_LIMIT {
        cappedVictims := cappedVictims - {host};
        orderCappedVictims := orderCappedVictims[host := newCapValue];
      } else {
        cappedVictims := cappedVictims[host := newCapValue];
        orderCappedVictims := orderCappedVictims[host := newCapValue];
      }
    }

    /** Halves the value of the first of the given hosts that answers. */
    method CapFurther(already: seq<string>, ghost victims: seq<string>)
      requires Consistent(View()) && already == Already(View(), victims)
      modifies this, rapl`requests
      ensures rapl.requests == old(rapl.requests) + FurtherTries(old(View()), victims, rapl.reachable)
      ensures Pow10(2) == 100.0
      ensures View() == match Further(old(View()), victims, rapl.reachable)
                        case None => old(View())
                        case Some(host) => CapTo(old(View()), host, GetNextCapValue(ValueOf(old(View()), host), 2))
    {
      ghost var s, ok, sent := View(), rapl.reachable, rapl.requests;
      Halves();
      AlreadyFurther(s, victims, ok);
      AlreadyTries(s, victims, ok);
      for i := 0 to |already|
        invariant View() == s
        invariant rapl.requests + FurtherTries(s, already[i..], ok) == sent + FurtherTries(s, already, ok)
        invariant Further(s, already, ok) == Further(s, already[i..], ok)
      {
        assert already[i..][1..] == already[i + 1..];
        var host := already[i];
        AlreadyCapped(s, victims, host);
        var capValue := if host in orderCappedVictims then orderCappedVictims[host] else 0.0;
        if capValue > LOWER_CAP_LIMIT {
          var newCapValue := GetNextCapValue(capValue, 2);
          var err := rapl.Cap(host, newCapValue);
          if !err {
            NoteCap(host, newCapValue);
            break;
          }
        }
      }
    }

    /** Some host of lowest value, as sorting the pairs of the map puts one first. */
    method PickLowest() returns (host: string)
      requires orderCappedVictims != map[]
      ensures Lowest(View(), host)
    {
      host :| host in orderCappedVictims;
      var rest := orderCappedVictims.Keys - {host};
      while rest != {}
        invariant rest <= orderCappedVictims.Keys && host in orderCappedVictims
        invariant forall h :: h in orderCappedVictims && h !in rest ==> orderCappedVictims[host] <= orderCappedVictims[h]
        decreases rest
      {
        var h :| h in rest;
        if orderCappedVictims[h] < orderCappedVictims[host] {
          host := h;
        }
        rest := rest - {h};
      }
    }

    /** Takes the host off the list. */
    method Unlist(host: string)
      modifies this`orderCapped
      ensures orderCapped == Dropped(old(orderCapped), host)
    {
      for i := 0 to |orderCapped|
        invariant orderCapped == old(orderCapped)
        invariant Dropped(orderCapped, host) == orderCapped[..i] + Dropped(orderCapped[i..], host)
      {
        assert orderCapped[i..][1..] == orderCapped[i + 1..];
        if orderCapped[i] == host {
          orderCapped := orderCapped[..i] + orderCapped[i + 1..];
          break;
        }
        assert orderCapped[..i + 1] == orderCapped[..i] + [orderCapped[i]];
      }
    }

    method Uncap() returns (ghost host: string)
      requires Consistent(View())
      modifies this, rapl`requests
      ensures rapl.requests == old(rapl.requests) + LowTries(old(View()), host)
      ensures (old(orderCapped) != [] ==> Lowest(old(View()), host)) && View() == Low(old(View()), host, rapl.reachable)
    {
      host := "";
      if |orderCapped| > 0 {
        assert orderCapped[0] in orderCappedVictims;
        var hostToUncap := PickLowest();
        host := hostToUncap;
        var newUncapValue := orderCappedVictims[hostToUncap] * 2.0;
        var err := rapl.Cap(hostToUncap, newUncapValue);
        if !err {
          if newUncapValue >= 100.0 {
            Unlist(hostToUncap);
            orderCappedVictims := orderCappedVictims - {hostToUncap};
            cappedVictims := cappedVictims - {hostToUncap};
          } else if newUncapValue > LOWER_CAP_LIMIT {
            orderCappedVictims := orderCappedVictims[hostToUncap := newUncapValue];
            cappedVictims := cappedVictims[hostToUncap := newUncapValue];
          }
        }
      }
    }

    /** A high round over the given victims. */
    method CapOne(victims: seq<string>)
      requires Consistent(View())
      modifies this, rapl`requests
      ensures View() == High(old(View()), victims, rapl.reachable)
      ensures rapl.requests == old(rapl.requests) + Commands(old(View()), Hi(victims, rapl.reachable))
    {
      var newVictimFound, alreadyCappedHosts := CapFresh(victims);
      if !newVictimFound {
        CapFurther(alreadyCappedHosts, victims);
      }
    }

    /** One line of readings: `r` is the round it amounts to. */
    method Line(readings: seq<Reading>) returns (clusterMean: real, ghost r: Line)
      requires monitor.Valid() && Consistent(View()) && PhasesOnly(rapl.requests)
      requires forall x :: x in readings ==> x.host in monitor.powerHistories
      modifies this, monitor, rapl`requests
      ensures monitor.Valid() && Consistent(View())
      ensures rapl.requests == old(rapl.requests) + Commands(old(View()), r) && PhasesOnly(rapl.requests)
      ensures monitor.powerHistories == Noted(old(monitor.powerHistories), readings)
      ensures monitor.clusterPowerHist == Write(old(monitor.clusterPowerHist), TotalPower(readings) * RAPL_UNITS)
      ensures clusterMean == Mean(Readings(monitor.clusterPowerHist))
      ensures clusterMean >= hiThreshold ==> r.Hi? && r.ok == rapl.reachable && VictimOrder(monitor.powerHistories, r.victims)
      ensures clusterMean < hiThreshold && clusterMean < loThreshold ==>
                r.Lo? && r.ok == rapl.reachable && (old(orderCapped) != [] ==> Lowest(old(View()), r.host))
      ensures clusterMean < hiThreshold && clusterMean >= loThreshold ==> r.Idle?
      ensures View() == Apply(old(View()), r)
    {
      r := Idle;
      ghost var before := View();
      clusterMean := monitor.Record(readings);
      if clusterMean >= hiThreshold {
        var victims := monitor.Victims();
        r := Hi(victims, rapl.reachable);
        HighKeepsConsistent(View(), victims, rapl.reachable);
        CapOne(victims);
      } else if clusterMean < loThreshold {
        ghost var host := Uncap();
        LowKeepsConsistent(before, host, rapl.reachable);
        r := Lo(host, rapl.reachable);
      }
      CommandsArePhases(before, r);
    }
  }

  /** The listed hosts that can be capped further. */
  ghost function Already(s: State, victims: seq<string>): seq<string> {
    if victims == [] then []
    else
      var before, last := Already(s, victims[..|victims| - 1]), victims[|victims| - 1];
      if last in s.capped then before + [last] else before
  }

  lemma {:induction false} AlreadyCapped(s: State, victims: seq<string>, host: string)
    requires host in Already(s, victims)
    ensures host in s.capped
  {
    var before, last := Already(s, victims[..|victims| - 1]), victims[|victims| - 1];
    if last !in s.capped || host != last {
      AlreadyCapped(s, victims[..|victims| - 1], host);
    }
  }

  lemma {:induction false} FurtherConcat(s: State, a: seq<string>, b: seq<string>, ok: set<string>)
    ensures Further(s, a + b, ok) == if Further(s, a, ok).Some? then Further(s, a, ok) else Further(s, b, ok)
  {
    if a == [] {
      assert a + b == b;
    } else {
      assert (a + b)[1..] == a[1..] + b;
      FurtherConcat(s, a[1..], b, ok);
    }
  }

  /** Looking only at the collected hosts finds the same host. */
  lemma {:induction false} AlreadyFurther(s: State, victims: seq<string>, ok: set<string>)
    ensures Further(s, Already(s, victims), ok) == Further(s, victims, ok)
  {
    if victims != [] {
      var front, last := victims[..|victims| - 1], victims[|victims| - 1];
      assert victims == front + [last];
      AlreadyFurther(s, front, ok);
      FurtherConcat(s, front, [last], ok);
      FurtherConcat(s, Already(s, front), [last], ok);
      assert [last][1..] == [];
    }
  }

  lemma {:induction false} TriesConcat(s: State, a: seq<string>, b: seq<string>, ok: set<string>)
    ensures FurtherTries(s, a + b, ok)
            == FurtherTries(s, a, ok) + if Further(s, a, ok).Some? then [] else FurtherTries(s, b, ok)
  {
    if a == [] {
      assert a + b == b;
    } else {
      assert (a + b)[1..] == a[1..] + b;
      TriesConcat(s, a[1..], b, ok);
    }
  }

  /** Looking only at the collected hosts sends the same commands. */
  lemma {:induction false} AlreadyTries(s: State, victims: seq<string>, ok: set<string>)
    ensures FurtherTries(s, Already(s, victims), ok) == FurtherTries(s, victims, ok)
  {
    if victims != [] {
      var front, last := victims[..|victims| - 1], victims[|victims| - 1];
      assert victims == front + [last];
      AlreadyTries(s, front, ok);
      AlreadyFurther(s, front, ok);
      TriesConcat(s, front, [last], ok);
      TriesConcat(s, Already(s, front), [last], ok);
      assert [last][1..] == [];
    }
  }
}
