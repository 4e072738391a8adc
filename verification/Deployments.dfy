/** What a switch deploys and for how long, in every run: the policy that suits the new window, the ends and the neighbours of
    the table under round robin, and a deployment that ends only when its window is used up. */
module Deployments {
  import opened Workload
  import opened TaskIds
  import opened Packing
  import opened Tracking
  import opened Batches
  import opened Clusters
  import opened Distribution
  import opened Switching
  import opened Window
  import opened System
  import opened Runs

  /** What the task-distribution criterion asks for in a window: a listed policy whose distribution is nearest to the ratio of
      light to heavy instances, or bin-packing without a ratio. */
  ghost predicate Suits(table: seq<Entry>, window: int, queue: seq<Job>, km: KMeans, p: Policy) {
    && Classified(window, queue, km)
    && var ratio := Ratio(window, queue, km);
       if ratio.None? then p == BinPacking
       else exists i: nat :: Nearest(table, ratio.value, i) && p == table[i].policy
  }

  /** A switch would ask the task-distribution criterion. */
  ghost predicate Consults(cfg: Config, s: Switch) {
    cfg.criteria.TaskDist? && (s.received || cfg.first.None?)
  }

  /** The window a switch installs. */
  ghost function Installed(u: Setup, sys: Sys, offers: seq<Offer>): int {
    if u.cfg.fixed then sys.switch.window else NewWindow(sys, offers)
  }

  /** The outcome that the event carries is one the criterion can come to, given this classification of the tasks. */
  ghost predicate Advised(u: Setup, sys: Sys, e: Event, km: KMeans) {
    Switches(u, sys, e) && Consults(u.cfg, sys.switch) ==>
      Suits(u.cfg.table, Installed(u, sys, e.offers), sys.queue, km, e.nearest)
  }

  // ----- which policy

  /** In every run a switch under the task-distribution criterion deploys a listed policy nearest to the ratio of the window it
      installs, or bin-packing without a ratio; before any offers were consumed, the configured first policy if there is one. */
  lemma NearestDeployed(u: Setup, states: seq<Sys>, events: seq<Event>, kms: seq<KMeans>, k: nat)
    requires Run(u, states, events) && k < |events| == |kms| && u.cfg.criteria.TaskDist? && Switches(u, states[k], events[k])
    requires forall t :: 0 <= t < |events| ==> Advised(u, states[t], events[t], kms[t])
    ensures if !states[k].switch.received && u.cfg.first.Some? then states[k + 1].switch.cur == u.cfg.first.value
            else Suits(u.cfg.table, states[k + 1].switch.window, states[k].queue, kms[k], states[k + 1].switch.cur)
  {
    RunStep(u, states, events, k);
    assert Advised(u, states[k], events[k], kms[k]);
  }

  /** A policy of least distribution. */
  ghost predicate Least(table: seq<Entry>, p: Policy) {
    exists i :: 0 <= i < |table| && table[i].policy == p && forall j :: 0 <= j < |table| ==> table[i].taskDist <= table[j].taskDist
  }

  /** A policy of greatest distribution. */
  ghost predicate Greatest(table: seq<Entry>, p: Policy) {
    exists i :: 0 <= i < |table| && table[i].policy == p && forall j :: 0 <= j < |table| ==> table[j].taskDist <= table[i].taskDist
  }

  /** Without a configured first policy, round robin starts with a policy of least distribution and reverse round robin with one
      of greatest. */
  lemma FirstOfTurn(u: Setup, states: seq<Sys>, events: seq<Event>, k: nat)
    requires Run(u, states, events) && k < |events| && Switches(u, states[k], events[k]) && !states[k].switch.received
    requires !u.cfg.criteria.TaskDist? && Sorted(u.cfg.table)
    ensures if u.cfg.first.Some? then states[k + 1].switch.cur == u.cfg.first.value
            else if u.cfg.criteria.RoundRobin? then Least(u.cfg.table, states[k + 1].switch.cur)
            else Greatest(u.cfg.table, states[k + 1].switch.cur)
  {
    RunStep(u, states, events, k);
    if u.cfg.first.None? {
      var table := u.cfg.table;
      assert |table| > 0;
      assert forall j :: 0 <= j < |table| ==> table[0].taskDist <= table[j].taskDist <= table[|table| - 1].taskDist;
    }
  }

  /** Entry i of the table is policy p, and q is the policy behind it; behind the last comes the first. */
  ghost predicate ComesBefore(table: seq<Entry>, p: Policy, q: Policy, i: nat) {
    && i < |table| && table[i].policy == p
    && if i + 1 < |table| then table[i + 1].policy == q else table[0].policy == q
  }

  lemma TurnNeighbours(cfg: Config, s: Switch, nearest: Policy, to: Policy) returns (i: nat)
    requires s.received && !cfg.criteria.TaskDist? && Listed(cfg.table, s.cur) && Target(cfg, s, nearest) == Some(to)
    ensures if cfg.criteria.RoundRobin? then ComesBefore(cfg.table, s.cur, to, i) else ComesBefore(cfg.table, to, s.cur, i)
  {
    i := Position(cfg.table, s.cur);
    NextComes(cfg.table, i);
    if cfg.criteria.RevRoundRobin? {
      i := if i == 0 then |cfg.table| - 1 else i - 1;
    }
  }

  /** The neighbours of entry i. */
  lemma NextComes(table: seq<Entry>, i: nat)
    requires i < |table|
    ensures ComesBefore(table, table[i].policy, Switching.Next(table, i), i)
    ensures ComesBefore(table, Prev(table, i), table[i].policy, if i == 0 then |table| - 1 else i - 1)
  {
    Remainder(i, |table|);
  }

  lemma Remainder(i: nat, n: nat)
    requires i < n
    ensures (i + 1) % n == if i + 1 < n then i + 1 else 0
  {
  }

  /** Once offers have been consumed, round robin goes from a listed policy to the one behind it in the table, of the next higher
      distribution, and reverse round robin to the one before it. */
  lemma NextOfTurn(u: Setup, states: seq<Sys>, events: seq<Event>, k: nat) returns (i: nat)
    requires Run(u, states, events) && k < |events| && Switches(u, states[k], events[k]) && states[k].switch.received
    requires !u.cfg.criteria.TaskDist? && Listed(u.cfg.table, states[k].switch.cur)
    ensures if u.cfg.criteria.RoundRobin? then ComesBefore(u.cfg.table, states[k].switch.cur, states[k + 1].switch.cur, i)
            else ComesBefore(u.cfg.table, states[k + 1].switch.cur, states[k].switch.cur, i)
  {
    RunStep(u, states, events, k);
    i := TurnNeighbours(u.cfg, states[k].switch, events[k].nearest, states[k + 1].switch.cur);
  }

  // ----- for how long

  /** A switch installs the new window, unless the window is fixed; nothing else changes it. */
  lemma WindowInstalled(u: Setup, states: seq<Sys>, events: seq<Event>, k: nat)
    requires Run(u, states, events) && k < |events|
    ensures states[k + 1].switch.window
            == if Switches(u, states[k], events[k]) then Installed(u, states[k], events[k].offers) else states[k].switch.window
    ensures !Switches(u, states[k], events[k]) ==> states[k + 1].switch.cur == states[k].switch.cur
  {
    RunStep(u, states, events, k);
  }

  lemma {:induction false} ReceivedStays(u: Setup, states: seq<Sys>, events: seq<Event>, i: nat, k: nat)
    requires Run(u, states, events) && i <= k < |states| && states[i].switch.received
    ensures states[k].switch.received
    decreases k - i
  {
    if i < k {
      ReceivedStays(u, states, events, i, k - 1);
      RunStep(u, states, events, k - 1);
    }
  }

  /** A switch once offers have been consumed comes when the window is used up, and not before. */
  lemma UsedUpAtSwitch(u: Setup, load: seq<Job>, sys: Sys, e: Event)
    requires Inv(u, load, sys) && u.cfg.enabled && sys.switch.received && Switches(u, sys, e)
    ensures sys.switch.counts[sys.switch.cur] == sys.switch.window
  {
  }

  /** The first switch and its batch. */
  lemma SwitchEvent(u: Setup, load: seq<Job>, states: seq<Sys>, events: seq<Event>, s: nat)
    requires Run(u, states, events) && Init(u, states[0], load) && s < |events| && Switches(u, states[s], events[s])
    ensures states[s + 1].switch.received && Counted(states[s + 1].switch)
    ensures |LoggedIds(states[s + 1].log)| - |LoggedIds(states[s].log)| == states[s + 1].switch.counts[states[s + 1].switch.cur]
  {
    RunKeepsInv(u, load, states, events, s);
    RunStep(u, states, events, s);
    SwitchingBatch(u, load, states[s], events[s]);
  }

  /** Between a switch and the next one exactly the window of that deployment is launched, no less and no more. */
  lemma DeploymentUsesWindow(u: Setup, load: seq<Job>, states: seq<Sys>, events: seq<Event>, s: nat, k: nat)
    requires Run(u, states, events) && Init(u, states[0], load) && s < k < |events| && u.cfg.enabled
    requires Switches(u, states[s], events[s]) && Switches(u, states[k], events[k])
    requires forall t :: s < t < k ==> !Switches(u, states[t], events[t])
    ensures |LoggedIds(states[k].log)| - |LoggedIds(states[s].log)| == states[s + 1].switch.window
  {
    SwitchEvent(u, load, states, events, s);
    LaunchesCounted(u, load, states, events, s + 1, k);
    ReceivedStays(u, states, events, s + 1, k);
    RunKeepsInv(u, load, states, events, k);
    UsedUpAtSwitch(u, load, states[k], events[k]);
  }

  // ----- what is sorted

  /** The shortest prefix of n tasks that holds w pending instances. */
  ghost predicate Holds(queue: seq<Job>, n: nat, w: int) {
    n <= |queue| && Instances(queue[..n]) >= w && forall s :: 0 <= s < n ==> Instances(queue[..s]) < w
  }

  lemma WindowHeld(queue: seq<Job>, unused: Res)
    requires Positive(queue)
    ensures Holds(queue, Cover(queue, WindowSize(queue, unused), 0), WindowSize(queue, unused))
  {
    assert queue[..|queue|] == queue;
    FlatLength(queue);
  }

  /** What a policy finds, lightest first up to n. */
  ghost predicate SortedUpTo(p: Policy, before: seq<Job>, after: seq<Job>, n: nat) {
    if p == FirstFit then after == before
    else && n <= |after| == |before| && after[n..] == before[n..] && multiset(after[..n]) == multiset(before[..n])
         && forall i, j :: 0 <= i < j < n ==> after[i].spec.watts <= after[j].spec.watts
  }

  lemma PreparedUpTo(p: Policy, n: nat, before: seq<Job>, after: seq<Job>)
    requires PreparedBy(p, n, before, after)
    ensures SortedUpTo(p, before, after, n)
  {
    if p != FirstFit {
      assert forall i :: 0 <= i < n ==> after[..n][i] == after[i];
    }
  }

  /** Every policy but first-fit sorts by watts, lightest first: without switching the whole queue, and with it, unless the window is
      fixed, exactly the shortest prefix of tasks that holds the window, leaving the rest of the queue as it is. */
  lemma SortsTheWindow(u: Setup, load: seq<Job>, states: seq<Sys>, events: seq<Event>, k: nat) returns (n: nat)
    requires Run(u, states, events) && Init(u, states[0], load) && k < |events| && events[k].Offers?
    requires !(u.cfg.enabled && u.cfg.fixed)
    ensures if u.cfg.enabled then Holds(states[k].queue, n, NewWindow(states[k], events[k].offers)) else n == |states[k].queue|
    ensures SortedUpTo(states[k + 1].switch.cur, states[k].queue, events[k].sorted, n)
  {
    var sys, e := states[k], events[k];
    RunKeepsInv(u, load, states, events, k);
    RunStep(u, states, events, k);
    WindowHeld(sys.queue, Clusterwide(Recorded(sys, e.offers)).unused);
    n := if u.cfg.enabled then Switched(u, sys, e).inWindow else |sys.queue|;
    PreparedUpTo(Switched(u, sys, e).cur, n, sys.queue, e.sorted);
  }
}
