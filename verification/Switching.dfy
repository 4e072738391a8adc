/** Scheduling policies, the switch table and the choice of the next policy.
    Models schedulers/store.go and the selectors of schedulers/schedPolicy.go. */
module Switching {
  import opened Workload
  import opened Packing
  import opened Sorting

  /** The state shared by all scheduling policies. A name is a policy; None is the empty name. */
  class PolicyState {
    const kind: Policy
    var numTasksScheduled: int
    var taskDist: real
    var nextPolicyName: Option<Policy>
    var prevPolicyName: Option<Policy>

    constructor (kind: Policy)
      ensures this.kind == kind && numTasksScheduled == 0
      ensures nextPolicyName == None && prevPolicyName == None
    {
      this.kind := kind;
      numTasksScheduled, taskDist, nextPolicyName, prevPolicyName := 0, 0.0, None, None;
    }

    method UpdateLinks(next: Option<Policy>, prev: Option<Policy>)
      modifies this`nextPolicyName, this`prevPolicyName
      ensures nextPolicyName == next && prevPolicyName == prev
    {
      nextPolicyName, prevPolicyName := next, prev;
    }
  }

  /** The factory: one object per policy. */
  ghost predicate Factory(policies: map<Policy, PolicyState>) {
    forall p: Policy :: p in policies && policies[p].kind == p
  }

  // ----- the switch table

  datatype Entry = Entry(policy: Policy, taskDist: real)

  ghost predicate Distinct(table: seq<Entry>) {
    forall i, j :: 0 <= i < j < |table| ==> table[i].policy != table[j].policy
  }

  ghost predicate Sorted(table: seq<Entry>) {
    forall i, j :: 0 <= i < j < |table| ==> table[i].taskDist <= table[j].taskDist
  }

  ghost predicate Listed(table: seq<Entry>, p: Policy) {
    exists i :: 0 <= i < |table| && table[i].policy == p
  }

  /** The configured policies, those with a distribution other than zero, sorted by it. */
  ghost predicate IsTable(table: seq<Entry>, config: map<Policy, real>) {
    && Distinct(table) && Sorted(table)
    && (forall i :: 0 <= i < |table| ==> table[i].taskDist == Configured(config, table[i].policy) != 0.0)
    && (forall p: Policy :: Configured(config, p) != 0.0 ==> Listed(table, p))
  }

  function Configured(config: map<Policy, real>, p: Policy): real {
    if p in config then config[p] else 0.0
  }

  function Next(table: seq<Entry>, i: nat): Policy
    requires i < |table|
  {
    table[(i + 1) % |table|].policy
  }

  function Prev(table: seq<Entry>, i: nat): Policy
    requires i < |table|
  {
    if i == 0 then table[|table| - 1].policy else table[i - 1].policy
  }

  /** Entry i is linked to its neighbours in the table. */
  ghost predicate LinkedAt(table: seq<Entry>, policies: map<Policy, PolicyState>, i: nat)
    requires Factory(policies) && i < |table|
    reads policies.Values`nextPolicyName, policies.Values`prevPolicyName
  {
    && policies[table[i].policy].nextPolicyName == Some(Next(table, i))
    && policies[table[i].policy].prevPolicyName == Some(Prev(table, i))
  }

  /** The links of the listed policies follow the table around. */
  ghost predicate Linked(table: seq<Entry>, policies: map<Policy, PolicyState>)
    requires Factory(policies)
    reads policies.Values`nextPolicyName, policies.Values`prevPolicyName
  {
    forall i :: 0 <= i < |table| ==> LinkedAt(table, policies, i)
  }

  /** Policies that are not listed have no links: their names are empty. */
  ghost predicate Unlinked(table: seq<Entry>, policies: map<Policy, PolicyState>)
    requires Factory(policies)
    reads policies.Values`nextPolicyName, policies.Values`prevPolicyName
  {
    forall p: Policy :: !Listed(table, p) ==> policies[p].nextPolicyName == None && policies[p].prevPolicyName == None
  }

  /** Every policy once: the order in which a map iteration happens to visit them. */
  ghost predicate Iteration(order: seq<Policy>) {
    && |order| == 4 && (forall p: Policy :: p in order)
    && forall i, j :: 0 <= i < j < 4 ==> order[i] != order[j]
  }

  /** Sorts the pairs of policy and distribution and leaves out the zero ones. */
  method BuildTable(config: map<Policy, real>, order: seq<Policy>) returns (table: seq<Entry>)
    requires Iteration(order)
    ensures IsTable(table, config)
  {
    var pairs := seq(4, i requires 0 <= i < 4 => Entry(order[i], Configured(config, order[i])));
    var key := (e: Entry) => e.taskDist;
    var sorted := Sort(pairs, key);
    DistinctReordered(pairs, sorted, (e: Entry) => e.policy);
    table := [];
    for i := 0 to |sorted|
      invariant forall e :: e in table <==> e in sorted[..i] && e.taskDist != 0.0
      invariant Distinct(table) && Sorted(table)
    {
      if sorted[i].taskDist != 0.0 {
        forall j | 0 <= j < |table|
          ensures table[j].policy != sorted[i].policy && table[j].taskDist <= sorted[i].taskDist
        {
          assert table[j] in sorted[..i];
          var k :| 0 <= k < i && table[j] == sorted[k];
          assert key(sorted[k]) <= key(sorted[i]);
        }
        table := table + [sorted[i]];
      }
    }
    assert sorted[..|sorted|] == sorted;
    TableComplete(order, pairs, sorted, table, config);
  }

  lemma TableComplete(order: seq<Policy>, pairs: seq<Entry>, sorted: seq<Entry>, table: seq<Entry>, config: map<Policy, real>)
    requires Iteration(order) && |pairs| == |sorted| == 4 && multiset(pairs) == multiset(sorted)
    requires forall i :: 0 <= i < 4 ==> pairs[i] == Entry(order[i], Configured(config, order[i]))
    requires forall e :: e in table <==> e in sorted && e.taskDist != 0.0
    ensures forall i :: 0 <= i < |table| ==> table[i].taskDist == Configured(config, table[i].policy) != 0.0
    ensures forall p: Policy :: Configured(config, p) != 0.0 ==> Listed(table, p)
  {
    forall i | 0 <= i < |table|
      ensures table[i].taskDist == Configured(config, table[i].policy) != 0.0
    {
      assert table[i] in table && table[i] in multiset(pairs);
    }
    forall p: Policy | Configured(config, p) != 0.0
      ensures Listed(table, p)
    {
      assert p in order;
      var i :| 0 <= i < 4 && order[i] == p;
      assert pairs[i] in multiset(sorted);
      assert pairs[i] in table;
    }
  }

  /** Fills the table and writes the links into the listed policies. */
  method InitSchedPolicyCharacteristics(policies: map<Policy, PolicyState>, config: map<Policy, real>, order: seq<Policy>)
    returns (table: seq<Entry>)
    requires Factory(policies) && Iteration(order)
    modifies policies.Values
    ensures IsTable(table, config) && Linked(table, policies)
    ensures old(Unlinked([], policies)) ==> Unlinked(table, policies)
    ensures forall p: Policy :: policies[p].taskDist == Configured(config, p)
    ensures forall p: Policy :: policies[p].numTasksScheduled == old(policies[p].numTasksScheduled)
  {
    for i := 0 to 4
      invariant forall j :: 0 <= j < i ==> policies[order[j]].taskDist == Configured(config, order[j])
      invariant forall p: Policy :: policies[p].numTasksScheduled == old(policies[p].numTasksScheduled)
      invariant forall p: Policy :: policies[p].nextPolicyName == old(policies[p].nextPolicyName)
                                    && policies[p].prevPolicyName == old(policies[p].prevPolicyName)
    {
      policies[order[i]].taskDist := Configured(config, order[i]);
    }
    forall p: Policy
      ensures policies[p].taskDist == Configured(config, p)
    {
      assert p in order;
    }
    table := BuildTable(config, order);
    WriteLinks(policies, table);
  }

  method WriteLinks(policies: map<Policy, PolicyState>, table: seq<Entry>)
    requires Factory(policies) && Distinct(table)
    modifies policies.Values
    ensures Linked(table, policies)
    ensures forall p: Policy :: !Listed(table, p) ==> policies[p].nextPolicyName == old(policies[p].nextPolicyName)
                                                      && policies[p].prevPolicyName == old(policies[p].prevPolicyName)
    ensures forall p: Policy :: policies[p].taskDist == old(policies[p].taskDist)
                                && policies[p].numTasksScheduled == old(policies[p].numTasksScheduled)
  {
    for i := 0 to |table|
      invariant forall j :: 0 <= j < i ==> LinkedAt(table, policies, j)
      invariant forall p: Policy :: !Listed(table, p) ==> policies[p].nextPolicyName == old(policies[p].nextPolicyName)
                                                          && policies[p].prevPolicyName == old(policies[p].prevPolicyName)
      invariant forall p: Policy :: policies[p].taskDist == old(policies[p].taskDist)
                                    && policies[p].numTasksScheduled == old(policies[p].numTasksScheduled)
    {
      var prev := if i == 0 then table[|table| - 1].policy else table[i - 1].policy;
      var next := table[(i + 1) % |table|].policy;
      label Before:
      policies[table[i].policy].UpdateLinks(Some(next), Some(prev));
      forall j | 0 <= j < i
        ensures LinkedAt(table, policies, j)
      {
        assert old@Before(LinkedAt(table, policies, j));
        assert policies[table[j].policy] != policies[table[i].policy];
      }
    }
  }

  // ----- round robin

  /** The position of a listed policy. */
  ghost function Position(table: seq<Entry>, p: Policy): (i: nat)
    requires Listed(table, p)
    ensures i < |table| && table[i].policy == p
  {
    var i :| 0 <= i < |table| && table[i].policy == p;
    i
  }

  lemma PositionAt(table: seq<Entry>, i: nat)
    requires Distinct(table) && i < |table|
    ensures Listed(table, table[i].policy) && Position(table, table[i].policy) == i
  {
  }

  /** One step around a circle of n places. */
  lemma Wraps(i: nat, n: nat)
    requires i < n
    ensures (i + 1) % n == if i + 1 == n then 0 else i + 1
  {
  }

  /** The policy k forward switches after p. */
  ghost function Around(table: seq<Entry>, p: Policy, k: nat): (q: Policy)
    requires Listed(table, p)
    ensures Listed(table, q)
  {
    if k == 0 then p
    else
      var i := Position(table, Around(table, p, k - 1));
      assert table[(i + 1) % |table|].policy == Next(table, i);
      Next(table, i)
  }

  /** The policy k backward switches after p. */
  ghost function Back(table: seq<Entry>, p: Policy, k: nat): (q: Policy)
    requires Listed(table, p)
    ensures Listed(table, q)
  {
    if k == 0 then p else Prev(table, Position(table, Back(table, p, k - 1)))
  }

  /** next and prev undo each other. */
  lemma PrevOfNext(table: seq<Entry>, i: nat)
    requires Distinct(table) && i < |table|
    ensures Listed(table, Next(table, i)) && Prev(table, Position(table, Next(table, i))) == table[i].policy
  {
    Wraps(i, |table|);
    PositionAt(table, if i + 1 == |table| then 0 else i + 1);
  }

  lemma NextOfPrev(table: seq<Entry>, i: nat)
    requires Distinct(table) && i < |table|
    ensures Listed(table, Prev(table, i)) && Next(table, Position(table, Prev(table, i))) == table[i].policy
  {
    var m := if i == 0 then |table| - 1 else i - 1;
    Wraps(m, |table|);
    PositionAt(table, m);
  }

  /** The place k steps after place i. */
  ghost function Shift(i: nat, k: nat, n: nat): nat {
    if i + k < n then i + k else i + k - n
  }

  lemma NextAt(table: seq<Entry>, i: nat)
    requires i < |table|
    ensures Shift(i, 1, |table|) < |table| && Next(table, i) == table[Shift(i, 1, |table|)].policy
  {
    Wraps(i, |table|);
  }

  lemma {:induction false} AroundAt(table: seq<Entry>, p: Policy, k: nat)
    requires Distinct(table) && Listed(table, p) && k <= |table|
    ensures Shift(Position(table, p), k, |table|) < |table|
    ensures Around(table, p, k) == table[Shift(Position(table, p), k, |table|)].policy
  {
    if k > 0 {
      var n, i := |table|, Position(table, p);
      AroundAt(table, p, k - 1);
      var j := Shift(i, k - 1, n);
      PositionAt(table, j);
      assert Around(table, p, k) == Next(table, j);
      NextAt(table, j);
      assert Shift(j, 1, n) == Shift(i, k, n);
    }
  }

  /** Among |table| forward switches from a listed policy, one deploys q: every listed policy gets its turn. */
  lemma EachListedDeployed(table: seq<Entry>, p: Policy, q: Policy) returns (k: nat)
    requires Distinct(table) && Listed(table, p) && Listed(table, q)
    ensures 1 <= k <= |table| && Around(table, p, k) == q
  {
    var n, i, j := |table|, Position(table, p), Position(table, q);
    k := if j > i then j - i else n + j - i;
    AroundAt(table, p, k);
  }

  /** No policy is deployed twice within |table| forward switches. */
  lemma NoneDeployedTwice(table: seq<Entry>, p: Policy, k: nat, m: nat)
    requires Distinct(table) && Listed(table, p) && 1 <= k < m <= |table|
    ensures Around(table, p, k) != Around(table, p, m)
  {
    AroundAt(table, p, k);
    AroundAt(table, p, m);
  }

  /** The place k steps before place i. */
  ghost function Retreat(i: nat, k: nat, n: nat): int {
    if i >= k then i - k else i + n - k
  }

  lemma PrevAt(table: seq<Entry>, i: nat)
    requires i < |table|
    ensures 0 <= Retreat(i, 1, |table|) < |table| && Prev(table, i) == table[Retreat(i, 1, |table|)].policy
  {
  }

  lemma {:induction false} BackAt(table: seq<Entry>, p: Policy, k: nat)
    requires Distinct(table) && Listed(table, p) && k <= |table|
    ensures 0 <= Retreat(Position(table, p), k, |table|) < |table|
    ensures Back(table, p, k) == table[Retreat(Position(table, p), k, |table|)].policy
  {
    if k > 0 {
      var n, i := |table|, Position(table, p);
      BackAt(table, p, k - 1);
      var j := Retreat(i, k - 1, n);
      PositionAt(table, j);
      assert Back(table, p, k) == Prev(table, j);
      PrevAt(table, j);
      assert Retreat(j, 1, n) == Retreat(i, k, n);
    }
  }

  /** Among |table| backward switches from a listed policy, one deploys q. */
  lemma EachListedBack(table: seq<Entry>, p: Policy, q: Policy) returns (k: nat)
    requires Distinct(table) && Listed(table, p) && Listed(table, q)
    ensures 1 <= k <= |table| && Back(table, p, k) == q
  {
    var n, i, j := |table|, Position(table, p), Position(table, q);
    k := if i > j then i - j else i + n - j;
    BackAt(table, p, k);
  }

  /** No policy is deployed twice within |table| backward switches. */
  lemma NoneBackTwice(table: seq<Entry>, p: Policy, k: nat, m: nat)
    requires Distinct(table) && Listed(table, p) && 1 <= k < m <= |table|
    ensures Back(table, p, k) != Back(table, p, m)
  {
    BackAt(table, p, k);
    BackAt(table, p, m);
  }

  /** Backward switches retrace forward ones. */
  lemma {:induction false} BackRetraces(table: seq<Entry>, p: Policy, k: nat, m: nat)
    requires Distinct(table) && Listed(table, p) && m <= k
    ensures Back(table, Around(table, p, k), m) == Around(table, p, k - m)
    decreases m
  {
    if m > 0 {
      BackRetraces(table, p, k, m - 1);
      PrevOfNext(table, Position(table, Around(table, p, k - m)));
    }
  }

  // ----- nearest distribution

  ghost function Distance(a: real, b: real): real {
    if a >= b then a - b else b - a
  }

  /** Entry i is as near to the value as any. */
  ghost predicate Nearest(table: seq<Entry>, value: real, i: nat) {
    i < |table| && forall j :: 0 <= j < |table| ==> Distance(table[i].taskDist, value) <= Distance(table[j].taskDist, value)
  }

  /** Bin-packing when no ratio could be formed, else a listed policy of minimal distance to the ratio. */
  method SwitchTaskDistBased(table: seq<Entry>, ratio: Option<real>) returns (p: Policy)
    requires |table| > 0 && Sorted(table)
    ensures ratio.None? ==> p == BinPacking
    ensures ratio.Some? ==> exists i: nat :: Nearest(table, ratio.value, i) && p == table[i].policy
  {
    if ratio.None? {
      return BinPacking;
    }
    var taskDist := ratio.value;
    if taskDist < table[0].taskDist {
      assert Nearest(table, taskDist, 0);
      return table[0].policy;
    } else if taskDist > table[|table| - 1].taskDist {
      assert Nearest(table, taskDist, |table| - 1);
      return table[|table| - 1].policy;
    }
    var low, high := 0, |table| - 1;
    while low <= high
      invariant 0 <= low <= high + 1 <= |table|
      invariant forall j :: 0 <= j < low ==> table[j].taskDist < taskDist
      invariant forall j :: high < j < |table| ==> taskDist < table[j].taskDist
      decreases high - low
    {
      var mid := (low + high) / 2;
      if taskDist < table[mid].taskDist {
        high := mid - 1;
      } else if taskDist > table[mid].taskDist {
        low := mid + 1;
      } else {
        assert Nearest(table, taskDist, mid);
        return table[mid].policy;
      }
    }
    var lowDiff := table[low].taskDist - taskDist;
    var highDiff := taskDist - table[high].taskDist;
    if highDiff > lowDiff {
      assert Nearest(table, taskDist, low);
      p := table[low].policy;
    } else {
      assert Nearest(table, taskDist, high);
      p := table[high].policy;
    }
  }

  // ----- the switching state machine

  datatype Criteria = TaskDist | RoundRobin | RevRoundRobin

  datatype Config = Config(enabled: bool, fixed: bool, first: Option<Policy>, criteria: Criteria, table: seq<Entry>)

  /** The deployed policy, how much each policy has scheduled since its count was reset, the window, the number of
      leading tasks it covers, and whether any offers have been consumed. */
  datatype Switch = Switch(cur: Policy, counts: map<Policy, int>, window: int, inWindow: nat, received: bool)

  /** The name of the next policy; None is the empty name, under which no policy is found. `nearest` is the outcome
      of the task-distribution criterion, which needs a table. */
  ghost function Target(cfg: Config, s: Switch, nearest: Policy): Option<Policy> {
    if !s.received && cfg.first.Some? then cfg.first
    else if |cfg.table| == 0 then None
    else
      match cfg.criteria
      case TaskDist => Some(nearest)
      case RoundRobin =>
        if !s.received then Some(cfg.table[0].policy)
        else if Listed(cfg.table, s.cur) then Some(Next(cfg.table, Position(cfg.table, s.cur))) else None
      case RevRoundRobin =>
        if !s.received then Some(cfg.table[|cfg.table| - 1].policy)
        else if Listed(cfg.table, s.cur) then Some(Prev(cfg.table, Position(cfg.table, s.cur))) else None
  }

  /** A new window was found (or is fixed) and the deployed policy has used up its own, if it had any. */
  ghost predicate Due(cfg: Config, s: Switch, newWindow: nat)
    requires s.cur in s.counts
  {
    && cfg.enabled
    && (if cfg.fixed then s.window > 0 else newWindow > 0)
    && (!s.received || s.counts[s.cur] >= s.window)
  }

  ghost predicate Counted(s: Switch) {
    forall p: Policy :: p in s.counts
  }

  /** If a switch is due, some policy is found to switch to. */
  ghost predicate Defined(cfg: Config, s: Switch, newWindow: nat, nearest: Policy)
    requires Counted(s)
  {
    Due(cfg, s, newWindow) ==> Target(cfg, s, nearest).Some?
  }

  /** SwitchIfNecessary. The count that is reset is the one of the policy that was deployed before the switch. */
  ghost function SwitchStep(cfg: Config, s: Switch, newWindow: nat, newInWindow: nat, nearest: Policy): (t: Switch)
    requires Counted(s) && Defined(cfg, s, newWindow, nearest)
    ensures Counted(t) && t.received == s.received
  {
    if !cfg.enabled then s
    else
      var inWindow := if cfg.fixed then s.inWindow else newInWindow;
      if Due(cfg, s, newWindow) then
        Switch(Target(cfg, s, nearest).value, s.counts[s.cur := 0], if cfg.fixed then s.window else newWindow,
               inWindow, s.received)
      else s.(inWindow := inWindow)
  }

  /** What every reachable switching state satisfies. */
  ghost predicate SwitchInv(cfg: Config, s: Switch) {
    && Counted(s)
    && (forall p: Policy :: s.counts[p] >= 0)
    && (cfg.enabled ==> s.window >= 0 && s.counts[s.cur] <= s.window && forall p: Policy :: p != s.cur ==> s.counts[p] == 0)
    && (cfg.fixed ==> s.inWindow == 0)
  }

  lemma SwitchKeepsInv(cfg: Config, s: Switch, newWindow: nat, newInWindow: nat, nearest: Policy)
    requires SwitchInv(cfg, s) && Defined(cfg, s, newWindow, nearest)
    ensures var t := SwitchStep(cfg, s, newWindow, newInWindow, nearest);
            SwitchInv(cfg, t) && (Due(cfg, s, newWindow) ==> t.counts[t.cur] == 0)
  {
  }

  /** The fixed window is zero, so that nothing is ever due. */
  ghost predicate NeverDue(cfg: Config, window: int) {
    cfg.fixed && window <= 0
  }

  /** A first policy that is configured is listed. */
  ghost predicate FirstListed(cfg: Config) {
    cfg.first.Some? ==> Listed(cfg.table, cfg.first.value)
  }

  /** Round robin does not run into an unlisted policy. Before any offers have been consumed, a scheduler with a fixed
      window is about to leave the policy it was started with; any other may stay with it and switch from it later. */
  ghost predicate StaysListed(cfg: Config, cur: Policy, received: bool) {
    if received then Listed(cfg.table, cur)
    else |cfg.table| > 0 && FirstListed(cfg) && (!cfg.fixed ==> Listed(cfg.table, cur))
  }

  /** Every switch from here on finds a policy. */
  ghost predicate Configurable(cfg: Config, cur: Policy, window: int, received: bool) {
    cfg.enabled && !NeverDue(cfg, window) ==>
      if cfg.criteria.TaskDist? then |cfg.table| > 0 else StaysListed(cfg, cur, received)
  }

  lemma EndsListed(table: seq<Entry>)
    requires |table| > 0
    ensures Listed(table, table[0].policy) && Listed(table, table[|table| - 1].policy)
    ensures forall i: nat :: i < |table| ==> Listed(table, Next(table, i)) && Listed(table, Prev(table, i))
  {
    forall i: nat | i < |table|
      ensures Listed(table, Next(table, i)) && Listed(table, Prev(table, i))
    {
      Wraps(i, |table|);
    }
  }

  /** A target of round robin is listed. */
  lemma TargetListed(cfg: Config, s: Switch, nearest: Policy)
    requires !cfg.criteria.TaskDist? && StaysListed(cfg, s.cur, s.received)
    ensures Target(cfg, s, nearest).Some? && Listed(cfg.table, Target(cfg, s, nearest).value)
  {
    EndsListed(cfg.table);
  }

  /** A switch finds a policy, and once this batch has been consumed the next one will. */
  lemma ConfigurableDefined(cfg: Config, s: Switch, newWindow: nat, newInWindow: nat, nearest: Policy)
    requires Counted(s) && Configurable(cfg, s.cur, s.window, s.received)
    ensures Defined(cfg, s, newWindow, nearest)
    ensures var t := SwitchStep(cfg, s, newWindow, newInWindow, nearest);
            Configurable(cfg, t.cur, t.window, s.received) && Configurable(cfg, t.cur, t.window, true)
  {
    if cfg.enabled && !NeverDue(cfg, s.window) && !cfg.criteria.TaskDist? {
      TargetListed(cfg, s, nearest);
    }
  }

  /** The deployed policy has nothing left to do in its window, or none was deployed for a window yet. */
  ghost predicate UsedUp(s: Switch)
    requires Counted(s)
  {
    !s.received || s.counts[s.cur] >= s.window
  }

  /** SwitchStep as the code does it: first the number of tasks in the window, then the switch if one is due. */
  ghost predicate Outcome(cfg: Config, s: Switch, t: Switch, newWindow: nat, newInWindow: nat, nearest: Policy)
    requires Counted(s)
  {
    var mid := if cfg.enabled && !cfg.fixed then s.(inWindow := newInWindow) else s;
    if cfg.enabled && (if cfg.fixed then s.window > 0 else newWindow > 0) && UsedUp(mid)
    then Target(cfg, mid, nearest).Some?
         && t == mid.(cur := Target(cfg, mid, nearest).value, counts := mid.counts[mid.cur := 0],
                      window := if cfg.fixed then mid.window else newWindow)
    else t == mid
  }

  lemma OutcomeIsStep(cfg: Config, s: Switch, t: Switch, newWindow: nat, newInWindow: nat, nearest: Policy)
    requires Counted(s) && Configurable(cfg, s.cur, s.window, s.received) && Outcome(cfg, s, t, newWindow, newInWindow, nearest)
    ensures Defined(cfg, s, newWindow, nearest) && t == SwitchStep(cfg, s, newWindow, newInWindow, nearest)
    ensures Configurable(cfg, t.cur, t.window, s.received) && Configurable(cfg, t.cur, t.window, true)
  {
    ConfigurableDefined(cfg, s, newWindow, newInWindow, nearest);
  }

  /** With a round-robin criterion and offers already consumed, a due switch goes one step around the table. */
  lemma RoundRobinStep(cfg: Config, s: Switch, newWindow: nat, newInWindow: nat, nearest: Policy, start: Policy, k: nat)
    requires Counted(s) && Defined(cfg, s, newWindow, nearest) && Due(cfg, s, newWindow) && s.received
    requires cfg.criteria.RoundRobin? && Listed(cfg.table, start) && s.cur == Around(cfg.table, start, k)
    ensures SwitchStep(cfg, s, newWindow, newInWindow, nearest).cur == Around(cfg.table, start, k + 1)
  {
  }

  /** The reverse criterion goes one step back. */
  lemma RevRoundRobinStep(cfg: Config, s: Switch, newWindow: nat, newInWindow: nat, nearest: Policy, start: Policy, k: nat)
    requires Counted(s) && Defined(cfg, s, newWindow, nearest) && Due(cfg, s, newWindow) && s.received
    requires cfg.criteria.RevRoundRobin? && Listed(cfg.table, start) && s.cur == Back(cfg.table, start, k)
    ensures SwitchStep(cfg, s, newWindow, newInWindow, nearest).cur == Back(cfg.table, start, k + 1)
  {
  }

  /** The policy k switches after p, in either direction. */
  ghost function Turn(table: seq<Entry>, reverse: bool, p: Policy, k: nat): (q: Policy)
    requires Listed(table, p)
    ensures Listed(table, q) && (k == 0 ==> q == p)
  {
    if reverse then Back(table, p, k) else Around(table, p, k)
  }

  lemma EachTurn(table: seq<Entry>, reverse: bool, p: Policy, q: Policy) returns (k: nat)
    requires Distinct(table) && Listed(table, p) && Listed(table, q)
    ensures 1 <= k <= |table| && Turn(table, reverse, p, k) == q
  {
    if reverse { k := EachListedBack(table, p, q); } else { k := EachListedDeployed(table, p, q); }
  }

  lemma NoTurnTwice(table: seq<Entry>, reverse: bool, p: Policy, k: nat, m: nat)
    requires Distinct(table) && Listed(table, p) && 1 <= k < m <= |table|
    ensures Turn(table, reverse, p, k) != Turn(table, reverse, p, m)
  {
    if reverse { NoneBackTwice(table, p, k, m); } else { NoneDeployedTwice(table, p, k, m); }
  }

  /** A switch under either round-robin criterion, once offers have been consumed. */
  lemma TurnStep(cfg: Config, s: Switch, newWindow: nat, newInWindow: nat, nearest: Policy, start: Policy, k: nat)
    requires Counted(s) && Defined(cfg, s, newWindow, nearest) && cfg.enabled && s.received && !cfg.criteria.TaskDist?
    requires Listed(cfg.table, start) && s.cur == Turn(cfg.table, cfg.criteria.RevRoundRobin?, start, k)
    ensures SwitchStep(cfg, s, newWindow, newInWindow, nearest).cur
            == Turn(cfg.table, cfg.criteria.RevRoundRobin?, start, if Due(cfg, s, newWindow) then k + 1 else k)
  {
    if Due(cfg, s, newWindow) {
      if cfg.criteria.RoundRobin? {
        RoundRobinStep(cfg, s, newWindow, newInWindow, nearest, start, k);
      } else {
        RevRoundRobinStep(cfg, s, newWindow, newInWindow, nearest, start, k);
      }
    }
  }
}
