/** Per-agent and clusterwide resource availability.
    Models utilities/trackResourceUsage.go and the requirement table of def/taskUtils.go. */
module Tracking {
  import opened Workload
  import opened TaskIds

  // ----- what each task id needs

  /** The requirement table over the instances 1..n of one task. */
  ghost predicate Lists(reqs: map<string, Res>, job: Job) {
    forall k: nat :: 1 <= k <= job.n ==> TaskId(job.spec.name, k) in reqs
                                         && reqs[TaskId(job.spec.name, k)] == Charge(job.spec)
  }

  function Charge(spec: Spec): Res {
    Res(spec.cpu, spec.ram, spec.watts)
  }

  ghost predicate ListsAll(reqs: map<string, Res>, queue: seq<Job>) {
    forall j :: j in queue ==> Lists(reqs, j)
  }

  /** Id names an instance of the job above number i. */
  ghost predicate NamesAbove(job: Job, i: int, id: string) {
    exists k: nat :: i < k && IsInstance(job, k, id)
  }

  /** Id carries the needs of the last task in the queue that has an instance of that name. */
  ghost predicate Latest(reqs: map<string, Res>, queue: seq<Job>, id: string) {
    exists t :: 0 <= t < |queue| && LatestAt(reqs, queue, id, t)
  }

  ghost predicate LatestAt(reqs: map<string, Res>, queue: seq<Job>, id: string, t: nat)
    requires t < |queue|
  {
    && Names(queue[t], id) && id in reqs && reqs[id] == Charge(queue[t].spec)
    && forall s :: t < s < |queue| ==> !Names(queue[s], id)
  }

  /** Records the requirement of every instance. Where two tasks share a name the later one overwrites the earlier; with
      distinct names no entry overwrites another. */
  method InitTaskResourceRequirements(queue: seq<Job>) returns (reqs: map<string, Res>)
    ensures forall id :: id in reqs <==> id in PendingIds(queue)
    ensures forall id :: id in reqs ==> Latest(reqs, queue, id)
    ensures DistinctNames(queue) ==> ListsAll(reqs, queue)
  {
    reqs := map[];
    for t := 0 to |queue|
      invariant forall id :: id in reqs ==> Latest(reqs, queue[..t], id)
      invariant forall id :: id in reqs <==> exists j :: j in queue[..t] && Names(j, id)
    {
      var job := queue[t];
      ghost var before := reqs;
      var i := job.n;
      while i > 0
        invariant i <= job.n
        invariant forall id :: id in reqs <==> id in before || NamesAbove(job, i, id)
        invariant forall id :: id in reqs ==> reqs[id] == if NamesAbove(job, i, id) then Charge(job.spec) else before[id]
      {
        OneMore(job, i);
        reqs := reqs[TaskId(job.spec.name, i) := Charge(job.spec)];
        i := i - 1;
      }
      assert forall id :: NamesAbove(job, i, id) <==> Names(job, id);
      assert queue[..t + 1] == queue[..t] + [job];
      forall id | id in reqs
        ensures Latest(reqs, queue[..t + 1], id)
      {
        LatestExtends(before, reqs, queue, t, id);
      }
    }
    assert queue[..|queue|] == queue;
    forall id
      ensures id in reqs <==> id in PendingIds(queue)
    {
      PendingIdsMember(queue, id);
    }
    if DistinctNames(queue) {
      LatestLists(reqs, queue);
    }
  }

  lemma LatestExtends(before: map<string, Res>, after: map<string, Res>, queue: seq<Job>, t: nat, id: string)
    requires t < |queue| && id in after && (id in before || Names(queue[t], id))
    requires id in before ==> Latest(before, queue[..t], id)
    requires after[id] == if Names(queue[t], id) then Charge(queue[t].spec) else before[id]
    ensures Latest(after, queue[..t + 1], id)
  {
    var longer := queue[..t + 1];
    assert longer == queue[..t] + [queue[t]];
    if Names(queue[t], id) {
      assert LatestAt(after, longer, id, t);
    } else {
      var s :| 0 <= s < t && LatestAt(before, queue[..t], id, s);
      assert LatestAt(after, longer, id, s);
    }
  }

  /** With distinct names the last task of a name is the only one. */
  lemma LatestLists(reqs: map<string, Res>, queue: seq<Job>)
    requires DistinctNames(queue)
    requires forall id :: id in reqs <==> exists j :: j in queue && Names(j, id)
    requires forall id :: id in reqs ==> Latest(reqs, queue, id)
    ensures ListsAll(reqs, queue)
  {
    forall s, k: nat | 0 <= s < |queue| && 1 <= k <= queue[s].n
      ensures TaskId(queue[s].spec.name, k) in reqs && reqs[TaskId(queue[s].spec.name, k)] == Charge(queue[s].spec)
    {
      var id := TaskId(queue[s].spec.name, k);
      assert IsInstance(queue[s], k, id) && queue[s] in queue;
      assert Names(queue[s], id);
      assert Latest(reqs, queue, id);
      var t :| 0 <= t < |queue| && LatestAt(reqs, queue, id, t);
      if t != s {
        assert queue[t].spec.name != queue[s].spec.name;
        NamesApart(queue[s], queue[t], k, id);
      }
    }
  }

  lemma OneMore(job: Job, i: nat)
    requires 1 <= i <= job.n
    ensures forall id :: NamesAbove(job, i - 1, id) <==> NamesAbove(job, i, id) || id == TaskId(job.spec.name, i)
  {
    assert IsInstance(job, i, TaskId(job.spec.name, i));
  }

  lemma NamesApart(a: Job, b: Job, k: nat, id: string)
    requires a.spec.name != b.spec.name && IsInstance(a, k, id)
    ensures !Names(b, id)
  {
    forall m: nat | IsInstance(b, m, id)
      ensures false
    {
      TaskIdInjective(a.spec.name, k, b.spec.name, m);
    }
  }

  // ----- availability

  datatype Count = Count(total: Res, unused: Res)

  type Hosts = map<string, Count>

  /** An agent is recorded with the amounts of its first offer; later offers change nothing. */
  ghost function Record(hosts: Hosts, offers: seq<Offer>): Hosts {
    if offers == [] then hosts
    else
      var before := Record(hosts, offers[..|offers| - 1]);
      var last := offers[|offers| - 1];
      if last.agent in before then before else before[last.agent := Count(Agg(last), Agg(last))]
  }

  /** Offer k is the first of its agent. */
  ghost predicate FirstOf(offers: seq<Offer>, k: nat) {
    k < |offers| && forall j :: 0 <= j < k ==> offers[j].agent != offers[k].agent
  }

  lemma {:induction false} RecordKeeps(hosts: Hosts, offers: seq<Offer>)
    ensures forall a :: a in hosts ==> a in Record(hosts, offers) && Record(hosts, offers)[a] == hosts[a]
    ensures forall j :: 0 <= j < |offers| ==> offers[j].agent in Record(hosts, offers)
    ensures forall a :: a in Record(hosts, offers) && a !in hosts ==> exists j :: 0 <= j < |offers| && offers[j].agent == a
  {
    if offers != [] {
      var front := offers[..|offers| - 1];
      RecordKeeps(hosts, front);
      assert forall j :: 0 <= j < |front| ==> front[j] == offers[j];
    }
  }

  /** Known agents keep their figures, new ones start with what their first offer holds, all of it unused, and no others appear. */
  lemma {:induction false} RecordsFirst(hosts: Hosts, offers: seq<Offer>, a: string)
    ensures a in Record(hosts, offers) <==> a in hosts || exists j :: 0 <= j < |offers| && offers[j].agent == a
    ensures a in hosts ==> Record(hosts, offers)[a] == hosts[a]
    ensures a !in hosts ==> forall k: nat :: FirstOf(offers, k) && offers[k].agent == a ==>
                                               Record(hosts, offers)[a] == Count(Agg(offers[k]), Agg(offers[k]))
  {
    RecordKeeps(hosts, offers);
    if a !in hosts {
      forall k: nat | FirstOf(offers, k) && offers[k].agent == a
        ensures Record(hosts, offers)[a] == Count(Agg(offers[k]), Agg(offers[k]))
      {
        RecordFirstOf(hosts, offers, k);
      }
    }
  }

  lemma {:induction false} RecordFirstOf(hosts: Hosts, offers: seq<Offer>, k: nat)
    requires FirstOf(offers, k) && offers[k].agent !in hosts
    ensures offers[k].agent in Record(hosts, offers)
    ensures Record(hosts, offers)[offers[k].agent] == Count(Agg(offers[k]), Agg(offers[k]))
    decreases |offers|
  {
    var front := offers[..|offers| - 1];
    if k < |front| {
      assert FirstOf(front, k);
      RecordFirstOf(hosts, front, k);
    } else {
      RecordKeeps(hosts, front);
    }
  }

  /** A launched task's requirement leaves its agent's unused amount; unknown ids and agents are ignored. */
  function Activate(hosts: Hosts, reqs: map<string, Res>, id: string, agent: string): Hosts {
    if id in reqs && agent in hosts then
      hosts[agent := hosts[agent].(unused := hosts[agent].unused.Minus(reqs[id]))]
    else hosts
  }

  function Release(hosts: Hosts, reqs: map<string, Res>, id: string, agent: string): Hosts {
    if id in reqs && agent in hosts then
      hosts[agent := hosts[agent].(unused := hosts[agent].unused.Plus(reqs[id]))]
    else hosts
  }

  ghost function SumOver(keys: set<string>, amounts: map<string, Res>): Res
    requires keys <= amounts.Keys
  {
    if keys == {} then ZERO
    else
      var k :| k in keys;
      SumOver(keys - {k}, amounts).Plus(amounts[k])
  }

  /** The sum does not depend on the order of iteration. */
  lemma {:induction false} SumOverAny(keys: set<string>, amounts: map<string, Res>, k: string)
    requires keys <= amounts.Keys && k in keys
    ensures SumOver(keys, amounts) == SumOver(keys - {k}, amounts).Plus(amounts[k])
  {
    var first :| first in keys && SumOver(keys, amounts) == SumOver(keys - {first}, amounts).Plus(amounts[first]);
    if first != k {
      SumOverAny(keys - {first}, amounts, k);
      SumOverAny(keys - {k}, amounts, first);
      var rest := keys - {first, k};
      assert keys - {first} - {k} == rest && keys - {k} - {first} == rest;
      var s := SumOver(rest, amounts);
      assert SumOver(keys, amounts) == s.Plus(amounts[k]).Plus(amounts[first]);
      assert SumOver(keys - {k}, amounts) == s.Plus(amounts[first]);
    }
  }

  /** Moving one key from the rest into a running sum keeps the sum. */
  lemma SumOverStep(sum: Res, rest: set<string>, amounts: map<string, Res>, k: string, goal: Res)
    requires rest <= amounts.Keys && k in rest && sum.Plus(SumOver(rest, amounts)) == goal
    ensures sum.Plus(amounts[k]).Plus(SumOver(rest - {k}, amounts)) == goal
  {
    SumOverAny(rest, amounts, k);
  }

  lemma {:induction false} SumOverSame(keys: set<string>, a: map<string, Res>, b: map<string, Res>)
    requires keys <= a.Keys && keys <= b.Keys && forall k :: k in keys ==> a[k] == b[k]
    ensures SumOver(keys, a) == SumOver(keys, b)
  {
    if keys != {} {
      var k :| k in keys;
      SumOverAny(keys, a, k);
      SumOverAny(keys, b, k);
      SumOverSame(keys - {k}, a, b);
    }
  }

  ghost function Unused(hosts: Hosts): map<string, Res> {
    map a | a in hosts :: hosts[a].unused
  }

  ghost function Totals(hosts: Hosts): map<string, Res> {
    map a | a in hosts :: hosts[a].total
  }

  /** The clusterwide figures are the sums over all recorded agents. */
  ghost function Clusterwide(hosts: Hosts): Count {
    Count(SumOver(hosts.Keys, Totals(hosts)), SumOver(hosts.Keys, Unused(hosts)))
  }

  class ResourceCount {
    var total: Res
    var unused: Res

    constructor (amount: Res)
      ensures total == amount && unused == amount
    {
      total, unused := amount, amount;
    }

    method IncrUnusedResources(tr: Res)
      modifies this`unused
      ensures unused == old(unused).Plus(tr)
    {
      unused := unused.Plus(tr);
    }

    method DecrUnusedResources(tr: Res)
      modifies this`unused
      ensures unused == old(unused).Minus(tr)
    {
      unused := unused.Minus(tr);
    }
  }

  class Tracker {
    const reqs: map<string, Res>
    var perHost: map<string, ResourceCount>

    constructor (reqs: map<string, Res>)
      ensures Valid() && perHost == map[] && this.reqs == reqs
    {
      this.reqs := reqs;
      perHost := map[];
    }

    ghost predicate Valid()
      reads this`perHost
    {
      forall a, b :: a in perHost && b in perHost && a != b ==> perHost[a] != perHost[b]
    }

    ghost function View(): Hosts
      reads this`perHost, perHost.Values`total, perHost.Values`unused
    {
      map a | a in perHost :: Count(perHost[a].total, perHost[a].unused)
    }

    method RecordTotalResourceAvailability(offers: seq<Offer>)
      requires Valid()
      modifies this`perHost
      ensures Valid() && View() == Record(old(View()), offers)
      ensures fresh(perHost.Values - old(perHost.Values))
    {
      for k := 0 to |offers|
        invariant Valid() && View() == Record(old(View()), offers[..k])
        invariant fresh(perHost.Values - old(perHost.Values))
      {
        assert offers[..k + 1][..k] == offers[..k];
        var offer := offers[k];
        if offer.agent !in perHost {
          var cpu, mem, watts := OfferAgg(offer);
          var count := new ResourceCount(Res(cpu, mem, watts));
          perHost := perHost[offer.agent := count];
        }
      }
      assert offers[..|offers|] == offers;
    }

    /** ON_TASK_ACTIVE_STATE. */
    method OnTaskActive(taskId: string, agent: string)
      requires Valid()
      modifies perHost.Values`unused
      ensures Valid() && View() == Activate(old(View()), reqs, taskId, agent)
    {
      if taskId in reqs && agent in perHost {
        perHost[agent].DecrUnusedResources(reqs[taskId]);
      }
    }

    /** ON_TASK_TERMINAL_STATE. */
    method OnTaskTerminal(taskId: string, agent: string)
      requires Valid()
      modifies perHost.Values`unused
      ensures Valid() && View() == Release(old(View()), reqs, taskId, agent)
    {
      if taskId in reqs && agent in perHost {
        perHost[agent].IncrUnusedResources(reqs[taskId]);
      }
    }

    method GetClusterwideResourceAvailability() returns (count: Count)
      requires Valid()
      ensures count == Clusterwide(View())
    {
      var total, unused := ZERO, ZERO;
      var rest := perHost.Keys;
      ghost var view := View();
      ghost var goal := Clusterwide(view);
      assert view.Keys == rest;
      while rest != {}
        invariant rest <= view.Keys
        invariant total.Plus(SumOver(rest, Totals(view))) == goal.total
        invariant unused.Plus(SumOver(rest, Unused(view))) == goal.unused
        decreases rest
      {
        var agent :| agent in rest;
        SumOverStep(total, rest, Totals(view), agent, goal.total);
        SumOverStep(unused, rest, Unused(view), agent, goal.unused);
        total := total.Plus(perHost[agent].total);
        unused := unused.Plus(perHost[agent].unused);
        rest := rest - {agent};
      }
      count := Count(total, unused);
    }
  }
}
