/** The identifiers of launched task instances: "electron-<name>-<instance>".
    Models newTask in schedulers/base.go and the requirement table of def/taskUtils.go. */
module TaskIds {
  import opened Sorting
  import opened Workload

  function Digit(d: nat): char
    requires d < 10
  {
    "0123456789"[d]
  }

  /** Decimal rendering of an instance number. */
  function Decimal(k: nat): (s: string)
    ensures s != []
    ensures '-' !in s
  {
    if k < 10 then [Digit(k)] else Decimal(k / 10) + [Digit(k % 10)]
  }

  lemma {:induction false} DecimalInjective(i: nat, j: nat)
    requires Decimal(i) == Decimal(j)
    ensures i == j
  {
    var s, t := Decimal(i), Decimal(j);
    assert s[|s| - 1] == Digit(i % 10) && t[|t| - 1] == Digit(j % 10);
    if i >= 10 && j >= 10 {
      assert Decimal(i / 10) == s[..|s| - 1] == t[..|t| - 1] == Decimal(j / 10);
      DecimalInjective(i / 10, j / 10);
    }
  }

  /** Instance numbers are at least 1 in every reachable state. */
  function Number(n: int): nat {
    if n >= 0 then n else 0
  }

  function TaskId(name: string, k: nat): string {
    "electron-" + name + "-" + Decimal(k)
  }

  /** The last dash of a string splits it in only one way. */
  lemma LastDashSplits(a: string, d: string, b: string, e: string)
    requires a + "-" + d == b + "-" + e
    requires '-' !in d && '-' !in e
    ensures a == b && d == e
  {
    var s := a + "-" + d;
    assert s[|a|] == '-' && s[|b|] == '-';
    assert forall k :: |a| < k < |s| ==> s[k] == d[k - |a| - 1] && s[k] in d;
    assert forall k :: |b| < k < |s| ==> s[k] == e[k - |b| - 1] && s[k] in e;
    assert |a| == |b|;
    assert a == s[..|a|] && b == s[..|b|];
    assert d == s[|a| + 1..] && e == s[|b| + 1..];
  }

  /** Two instances share an identifier only if they are the same instance of tasks with the same name:
      names may contain dashes and digits, the instance number cannot. */
  lemma TaskIdInjective(a: string, i: nat, b: string, j: nat)
    requires TaskId(a, i) == TaskId(b, j)
    ensures a == b && i == j
  {
    LastDashSplits("electron-" + a, Decimal(i), "electron-" + b, Decimal(j));
    assert a == ("electron-" + a)[9..] && b == ("electron-" + b)[9..];
    DecimalInjective(i, j);
  }

  /** A string of digits read as a decimal number. */
  ghost function ReadDecimal(s: string): int {
    if s == [] then 0 else 10 * ReadDecimal(s[..|s| - 1]) + (s[|s| - 1] as int - '0' as int)
  }

  lemma {:induction false} DecimalReads(k: nat)
    ensures ReadDecimal(Decimal(k)) == k
    ensures forall i :: 0 <= i < |Decimal(k)| ==> '0' <= Decimal(k)[i] <= '9'
  {
    var s := Decimal(k);
    assert Digit(k % 10) as int - '0' as int == k % 10;
    if k >= 10 {
      DecimalReads(k / 10);
      assert s[..|s| - 1] == Decimal(k / 10);
    } else {
      assert s[..0] == [];
    }
  }

  /** An id spells the task's name and, in decimal digits, the instance number. */
  lemma TaskIdSpells(name: string, k: nat)
    ensures exists digits :: && TaskId(name, k) == "electron-" + name + "-" + digits && ReadDecimal(digits) == k
                             && forall i :: 0 <= i < |digits| ==> '0' <= digits[i] <= '9'
  {
    DecimalReads(k);
  }

  /** Identifiers of the instances 1..n of one task. */
  ghost function InstanceIds(name: string, n: int): multiset<string>
    decreases n
  {
    if n <= 0 then multiset{} else multiset{TaskId(name, n)} + InstanceIds(name, n - 1)
  }

  /** Identifiers of all instances still pending in a queue. */
  ghost function PendingIds(queue: seq<Job>): multiset<string> {
    if queue == [] then multiset{}
    else InstanceIds(queue[0].spec.name, queue[0].n) + PendingIds(queue[1..])
  }

  lemma {:induction false} PendingIdsConcat(a: seq<Job>, b: seq<Job>)
    ensures PendingIds(a + b) == PendingIds(a) + PendingIds(b)
  {
    if a == [] {
      assert a + b == b;
    } else {
      assert (a + b)[1..] == a[1..] + b;
      PendingIdsConcat(a[1..], b);
    }
  }

  ghost predicate IsInstance(job: Job, k: nat, id: string) {
    1 <= k <= job.n && id == TaskId(job.spec.name, k)
  }

  ghost predicate Names(job: Job, id: string) {
    exists k: nat :: IsInstance(job, k, id)
  }

  lemma {:induction false} InstanceIdsCount(job: Job, id: string)
    ensures InstanceIds(job.spec.name, job.n)[id] == if Names(job, id) then 1 else 0
    decreases job.n
  {
    if job.n > 0 {
      var fewer := job.(n := job.n - 1);
      InstanceIdsCount(fewer, id);
      OneInstanceLess(job, fewer, id);
      assert Names(job, id) <==> id == TaskId(job.spec.name, job.n) || Names(fewer, id);
    }
  }

  lemma OneInstanceLess(job: Job, fewer: Job, id: string)
    requires job.n > 0 && fewer == job.(n := job.n - 1)
    ensures Names(job, id) <==> id == TaskId(job.spec.name, job.n) || Names(fewer, id)
    ensures id != TaskId(job.spec.name, job.n) || !Names(fewer, id)
  {
    if id == TaskId(job.spec.name, job.n) {
      assert IsInstance(job, job.n, id);
      forall k: nat | IsInstance(fewer, k, id)
        ensures false
      {
        TaskIdInjective(job.spec.name, job.n, job.spec.name, k);
      }
    } else {
      assert forall k: nat :: IsInstance(job, k, id) <==> IsInstance(fewer, k, id);
    }
  }

  /** An id is pending exactly when it names an instance of some queued task. */
  lemma {:induction false} PendingIdsMember(queue: seq<Job>, id: string)
    ensures id in PendingIds(queue) <==> exists j :: j in queue && Names(j, id)
  {
    if queue != [] {
      InstanceIdsCount(queue[0], id);
      PendingIdsMember(queue[1..], id);
      assert queue == [queue[0]] + queue[1..];
    }
  }

  ghost predicate DistinctNames(queue: seq<Job>) {
    forall i, j :: 0 <= i < j < |queue| ==> queue[i].spec.name != queue[j].spec.name
  }

  ghost predicate Positive(queue: seq<Job>) {
    forall j :: j in queue ==> j.n >= 1
  }

  ghost predicate NoDuplicates(ids: multiset<string>) {
    forall id :: id in ids ==> ids[id] == 1
  }

  /** Identifiers are unique over the whole workload exactly when task names are. Names are the only thing a
      workload author has to keep apart: the validators do not compare them. */
  lemma {:induction false} IdsUniqueIffNamesDistinct(queue: seq<Job>)
    requires Positive(queue)
    ensures NoDuplicates(PendingIds(queue)) <==> DistinctNames(queue)
  {
    if queue != [] {
      var rest := queue[1..];
      assert queue == [queue[0]] + rest;
      IdsUniqueIffNamesDistinct(rest);
      if DistinctNames(queue) {
        forall id | id in PendingIds(queue)
          ensures PendingIds(queue)[id] == 1
        {
          InstanceIdsCount(queue[0], id);
          HeadIdsApart(queue, id);
        }
      } else {
        NamesClash(queue);
      }
    }
  }

  lemma HeadIdsApart(queue: seq<Job>, id: string)
    requires queue != [] && DistinctNames(queue)
    ensures id !in InstanceIds(queue[0].spec.name, queue[0].n) || id !in PendingIds(queue[1..])
  {
    InstanceIdsCount(queue[0], id);
    PendingIdsMember(queue[1..], id);
    forall j, k: nat, m: nat | j in queue[1..] && IsInstance(j, k, id) && IsInstance(queue[0], m, id)
      ensures false
    {
      TaskIdInjective(queue[0].spec.name, m, j.spec.name, k);
    }
  }

  lemma FirstInstancePending(queue: seq<Job>, i: nat)
    requires i < |queue| && queue[i].n >= 1
    ensures TaskId(queue[i].spec.name, 1) in PendingIds(queue)
  {
    var id := TaskId(queue[i].spec.name, 1);
    assert IsInstance(queue[i], 1, id);
    assert Names(queue[i], id);
    PendingIdsMember(queue, id);
  }

  /** Two tasks with one name share the identifier of their first instance. */
  lemma NamesClash(queue: seq<Job>)
    requires Positive(queue) && !DistinctNames(queue)
    ensures !NoDuplicates(PendingIds(queue))
  {
    var i, j :| 0 <= i < j < |queue| && queue[i].spec.name == queue[j].spec.name;
    var front, back := queue[..j], queue[j..];
    assert front + back == queue && queue[i] in queue && queue[j] in queue;
    PendingIdsConcat(front, back);
    FirstInstancePending(front, i);
    FirstInstancePending(back, 0);
    assert PendingIds(queue)[TaskId(queue[i].spec.name, 1)] >= 2;
  }

  lemma PendingIdsWithout(queue: seq<Job>, k: nat)
    requires k < |queue|
    ensures PendingIds(queue) == InstanceIds(queue[k].spec.name, queue[k].n) + PendingIds(Without(queue, k))
  {
    var back := queue[k..];
    assert queue == queue[..k] + back;
    PendingIdsConcat(queue[..k], back);
    PendingIdsConcat(queue[..k], queue[k + 1..]);
    assert back[1..] == queue[k + 1..];
  }

  /** Reordering a queue keeps its identifiers. */
  lemma {:induction false} PendingIdsReordered(a: seq<Job>, b: seq<Job>)
    requires multiset(a) == multiset(b)
    ensures PendingIds(a) == PendingIds(b)
  {
    if a == [] {
      assert |multiset(b)| == 0;
    } else {
      var k, rest := Matching(a, b);
      PendingIdsReordered(a[1..], rest);
      PendingIdsWithout(b, k);
    }
  }
}
