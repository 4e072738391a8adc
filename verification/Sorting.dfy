/** Sorting by a numeric key. The source uses Go's sort package, often with a comparator that is not strict;
    callers of this module rely on nothing but "an ordered permutation". */
module Sorting {

  ghost predicate SortedBy<T>(s: seq<T>, key: T -> real) {
    forall i, j :: 0 <= i < j < |s| ==> key(s[i]) <= key(s[j])
  }

  method Sort<T>(s: seq<T>, key: T -> real) returns (sorted: seq<T>)
    ensures multiset(sorted) == multiset(s) && |sorted| == |s|
    ensures SortedBy(sorted, key)
  {
    sorted := [];
    for n := 0 to |s|
      invariant multiset(sorted) == multiset(s[..n]) && |sorted| == n && SortedBy(sorted, key)
    {
      assert s[..n + 1] == s[..n] + [s[n]];
      sorted := Insert(sorted, s[n], key);
    }
    assert s[..|s|] == s;
  }

  method Insert<T>(s: seq<T>, x: T, key: T -> real) returns (r: seq<T>)
    requires SortedBy(s, key)
    ensures multiset(r) == multiset(s + [x]) && |r| == |s| + 1
    ensures SortedBy(r, key)
  {
    var at := |s|;
    while at > 0 && key(s[at - 1]) > key(x)
      invariant 0 <= at <= |s|
      invariant forall i :: at <= i < |s| ==> key(s[i]) > key(x)
    {
      at := at - 1;
    }
    r := s[..at] + [x] + s[at..];
    InsertedOnce(s, x, at);
    InsertedInOrder(s, x, at, key);
  }

  lemma InsertedOnce<T>(s: seq<T>, x: T, at: nat)
    requires at <= |s|
    ensures multiset(s[..at] + [x] + s[at..]) == multiset(s + [x])
  {
    assert s == s[..at] + s[at..];
  }

  lemma InsertedInOrder<T>(s: seq<T>, x: T, at: nat, key: T -> real)
    requires at <= |s| && SortedBy(s, key) && (at > 0 ==> key(s[at - 1]) <= key(x))
    requires forall i :: at <= i < |s| ==> key(s[i]) > key(x)
    ensures SortedBy(s[..at] + [x] + s[at..], key)
  {
    var r := s[..at] + [x] + s[at..];
    forall i, j | 0 <= i < j < |r|
      ensures key(r[i]) <= key(r[j])
    {
      assert r[i] == if i < at then s[i] else if i == at then x else s[i - 1];
      assert r[j] == if j < at then s[j] else if j == at then x else s[j - 1];
    }
  }

  // ----- reorderings

  /** The sequence without its element k. */
  function Without<T>(s: seq<T>, k: nat): seq<T>
    requires k < |s|
  {
    s[..k] + s[k + 1..]
  }

  lemma WithoutAt<T>(s: seq<T>, k: nat)
    requires k < |s|
    ensures |Without(s, k)| == |s| - 1
    ensures forall i :: 0 <= i < |s| - 1 ==> Without(s, k)[i] == s[if i < k then i else i + 1]
  {
  }

  lemma MultisetWithout<T>(s: seq<T>, k: nat)
    requires k < |s|
    ensures multiset(s) == multiset{s[k]} + multiset(Without(s, k))
  {
    assert s == s[..k] + [s[k]] + s[k + 1..];
  }

  /** Where the first element of a went in b. */
  lemma Matching<T>(a: seq<T>, b: seq<T>) returns (k: nat, rest: seq<T>)
    requires a != [] && multiset(a) == multiset(b)
    ensures k < |b| && b[k] == a[0] && rest == Without(b, k) && multiset(rest) == multiset(a[1..])
  {
    assert a[0] in multiset(b);
    k :| 0 <= k < |b| && b[k] == a[0];
    rest := Without(b, k);
    MultisetWithout(a, 0);
    MultisetWithout(b, k);
    assert Without(a, 0) == a[1..];
    assert multiset(a[1..]) == multiset(a) - multiset{a[0]} == multiset(rest);
  }

  ghost predicate NoRepeats<T>(s: seq<T>) {
    forall i, j :: 0 <= i < j < |s| ==> s[i] != s[j]
  }

  ghost predicate DistinctBy<T, K>(s: seq<T>, key: T -> K) {
    forall i, j :: 0 <= i < j < |s| ==> key(s[i]) != key(s[j])
  }

  /** Keys that are distinct stay distinct when the sequence is reordered. */
  lemma {:induction false} DistinctReordered<T, K>(a: seq<T>, b: seq<T>, key: T -> K)
    requires multiset(a) == multiset(b) && DistinctBy(a, key)
    ensures DistinctBy(b, key)
  {
    if a == [] {
      assert |multiset(b)| == 0;
    } else {
      var k, rest := Matching(a, b);
      DistinctReordered(a[1..], rest, key);
      InsertedDistinct(a, b, k, rest, key);
    }
  }

  lemma InsertedDistinct<T, K>(a: seq<T>, b: seq<T>, k: nat, rest: seq<T>, key: T -> K)
    requires a != [] && DistinctBy(a, key) && k < |b| && b[k] == a[0] && rest == Without(b, k)
    requires multiset(rest) == multiset(a[1..]) && DistinctBy(rest, key)
    ensures DistinctBy(b, key)
  {
    forall i | 0 <= i < |b| && i != k
      ensures b[i] in a[1..] && key(b[i]) != key(b[k])
    {
      assert b[i] == rest[if i < k then i else i - 1];
      assert b[i] in multiset(rest);
      var j :| 0 <= j < |a[1..]| && a[1..][j] == b[i];
      assert a[j + 1] == b[i];
    }
    forall i, j | 0 <= i < j < |b|
      ensures key(b[i]) != key(b[j])
    {
      if i != k && j != k {
        assert b[i] == rest[if i < k then i else i - 1] && b[j] == rest[if j < k then j else j - 1];
      }
    }
  }
}
