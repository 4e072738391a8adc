/** When the pairwise tournament of LabelAndOrder ranks the clusters: exactly when no two sizes that are
    out of order have an empty cluster between them. */
module Ranking {
  import opened Workload
  import opened Clusters

  type Size = Option<real>

  /** No empty cluster lies between a larger and a later, smaller one. */
  ghost predicate Consistent(sizes: seq<Size>) {
    forall i, m, j :: 0 <= i < m < j < |sizes| && sizes[m].None? ==> !Greater(sizes[i], sizes[j])
  }

  /** Every rank 0..k-1 is the score of exactly one cluster. */
  ghost predicate Ranks(sizes: seq<Size>) {
    && (forall x, y :: 0 <= x < y < |sizes| ==> Score(sizes, x) != Score(sizes, y))
    && (forall x :: 0 <= x < |sizes| ==> Score(sizes, x) < |sizes|)
  }

  ghost function Beaten(sizes: seq<Size>, x: nat, hi: nat): set<nat>
    requires x < |sizes| && hi <= |sizes|
  {
    set y: nat | y < hi && Beats(sizes, x, y)
  }

  lemma {:induction false} WinsCount(sizes: seq<Size>, x: nat, hi: nat)
    requires x < |sizes| && hi <= |sizes|
    ensures |Beaten(sizes, x, hi)| == Wins(sizes, x, hi)
  {
    if hi > 0 {
      WinsCount(sizes, x, hi - 1);
      var before := Beaten(sizes, x, hi - 1);
      assert Beaten(sizes, x, hi) == before + if Beats(sizes, x, hi - 1) then {hi - 1} else {};
    } else {
      assert Beaten(sizes, x, 0) == {};
    }
  }

  ghost function Numbers(n: nat): (s: set<nat>)
    ensures forall y: nat :: y in s <==> y < n
    ensures |s| == n
  {
    if n == 0 then {} else Numbers(n - 1) + {n - 1}
  }

  lemma SubsetCount<T>(a: set<T>, b: set<T>)
    requires a <= b
    ensures |a| <= |b| && (|a| == |b| ==> a == b)
  {
    assert b == a + (b - a);
  }

  lemma {:induction false} ConsistentTransitive(sizes: seq<Size>, x: nat, y: nat, z: nat)
    requires Consistent(sizes) && x < |sizes| && y < |sizes| && z < |sizes|
    requires Beats(sizes, x, y) && Beats(sizes, y, z)
    ensures Beats(sizes, x, z)
  {
  }

  /** A winner of a consistent tournament has the higher score. */
  lemma BeatsScore(sizes: seq<Size>, x: nat, y: nat)
    requires Consistent(sizes) && x < |sizes| && y < |sizes| && Beats(sizes, x, y)
    ensures Score(sizes, y) < Score(sizes, x) < |sizes|
  {
    var k := |sizes|;
    WinsCount(sizes, x, k);
    WinsCount(sizes, y, k);
    forall z | z in Beaten(sizes, y, k)
      ensures z in Beaten(sizes, x, k)
    {
      ConsistentTransitive(sizes, x, y, z);
    }
    SubsetCount(Beaten(sizes, y, k) + {y}, Beaten(sizes, x, k));
    SubsetCount(Beaten(sizes, x, k) + {x}, Numbers(k));
  }

  lemma ScoreBound(sizes: seq<Size>, x: nat)
    requires x < |sizes|
    ensures Score(sizes, x) < |sizes|
  {
    WinsCount(sizes, x, |sizes|);
    SubsetCount(Beaten(sizes, x, |sizes|) + {x}, Numbers(|sizes|));
  }

  // ----- the converse: distinct scores leave no room for a cycle

  /** The clusters whose score is below s. */
  ghost function Lower(sizes: seq<Size>, s: nat): set<nat> {
    set y: nat | y < |sizes| && Score(sizes, y) < s
  }

  /** Injective scores hit every rank, so s of them lie below s. */
  lemma {:induction false} LowerCount(sizes: seq<Size>, s: nat)
    requires Ranks(sizes) && s <= |sizes|
    ensures |Lower(sizes, s)| == s
    decreases |sizes| - s
  {
    if s == |sizes| {
      assert Lower(sizes, s) == Numbers(s);
    } else {
      LowerCount(sizes, s + 1);
      LowerAtMost(sizes, s);
      var top := Lower(sizes, s + 1) - Lower(sizes, s);
      forall a, b | a in top && b in top
        ensures a == b
      {
        assert Score(sizes, a) == s && Score(sizes, b) == s;
      }
      assert Lower(sizes, s + 1) == Lower(sizes, s) + top;
      AtMostOne(top);
    }
  }

  lemma AtMostOne<T>(s: set<T>)
    requires forall a, b :: a in s && b in s ==> a == b
    ensures |s| <= 1
  {
    if s != {} {
      var a :| a in s;
      assert s == {a};
    }
  }

  lemma {:induction false} LowerAtMost(sizes: seq<Size>, s: nat)
    requires Ranks(sizes) && s <= |sizes|
    ensures |Lower(sizes, s)| <= s
  {
    if s == 0 {
      assert Lower(sizes, 0) == {};
    } else {
      LowerAtMost(sizes, s - 1);
      var top := Lower(sizes, s) - Lower(sizes, s - 1);
      forall a, b | a in top && b in top
        ensures a == b
      {
        assert Score(sizes, a) == s - 1 && Score(sizes, b) == s - 1;
      }
      assert Lower(sizes, s) == Lower(sizes, s - 1) + top;
      AtMostOne(top);
    }
  }

  /** With distinct scores a cluster beats exactly those of lower score. */
  lemma {:induction false} BeatsExactlyLower(sizes: seq<Size>, x: nat)
    requires Ranks(sizes) && x < |sizes|
    ensures Beaten(sizes, x, |sizes|) == Lower(sizes, Score(sizes, x))
    decreases |sizes| - Score(sizes, x)
  {
    var k, s := |sizes|, Score(sizes, x);
    forall y | y in Beaten(sizes, x, k)
      ensures y in Lower(sizes, s)
    {
      assert x !in Beaten(sizes, y, k) && y != x;
      if Score(sizes, y) > s {
        BeatsExactlyLower(sizes, y);
      }
    }
    WinsCount(sizes, x, k);
    LowerCount(sizes, s);
    SubsetCount(Beaten(sizes, x, k), Lower(sizes, s));
  }

  lemma CycleBreaksRanks(sizes: seq<Size>, i: nat, m: nat, j: nat)
    requires i < m < j < |sizes| && sizes[m].None? && Greater(sizes[i], sizes[j])
    ensures !Ranks(sizes)
  {
    assert j in Beaten(sizes, i, |sizes|) && i in Beaten(sizes, m, |sizes|) && m in Beaten(sizes, j, |sizes|);
    if Ranks(sizes) {
      BeatsExactlyLower(sizes, i);
      BeatsExactlyLower(sizes, m);
      BeatsExactlyLower(sizes, j);
    }
  }

  /** The tournament hands out the ranks 0..k-1, each once, exactly when the sizes are consistent. */
  lemma RanksIffConsistent(sizes: seq<Size>)
    ensures Ranks(sizes) <==> Consistent(sizes)
  {
    if Consistent(sizes) {
      forall x, y | 0 <= x < y < |sizes|
        ensures Score(sizes, x) != Score(sizes, y)
      {
        if Beats(sizes, x, y) { BeatsScore(sizes, x, y); } else { BeatsScore(sizes, y, x); }
      }
      forall x | 0 <= x < |sizes|
        ensures Score(sizes, x) < |sizes|
      {
        ScoreBound(sizes, x);
      }
    } else {
      var i, m, j :| 0 <= i < m < j < |sizes| && sizes[m].None? && Greater(sizes[i], sizes[j]);
      CycleBreaksRanks(sizes, i, m, j);
    }
  }

  /** Two clusters, all that the scheduler ever asks for, are ranked whether empty or not. */
  lemma TwoAlwaysRank(sizes: seq<Size>)
    requires |sizes| <= 2
    ensures Ranks(sizes)
  {
    RanksIffConsistent(sizes);
  }

  /** Sorting by score puts non-empty clusters in non-decreasing order of average power. */
  lemma OrderedByAverage(ordered: seq<TaskCluster>, clusters: map<nat, seq<Job>>, k: nat, median: Spec -> real, i: nat, j: nat)
    requires multiset(ordered) == multiset(Scored(clusters, k, median)) && SortedByScore(ordered)
    requires forall x :: 0 <= x < k ==> TasksOf(clusters, x) != []
    requires i < j < |ordered|
    ensures ordered[i].tasks != [] && ordered[j].tasks != []
    ensures Average(ordered[i].tasks, median).value <= Average(ordered[j].tasks, median).value
  {
    var sizes := Sizes(clusters, k, median);
    assert ordered[i] in multiset(ordered) && ordered[j] in multiset(ordered);
    assert ordered[i] in Scored(clusters, k, median) && ordered[j] in Scored(clusters, k, median);
    var x, y := ordered[i].index, ordered[j].index;
    if x != y && !Beats(sizes, y, x) {
      BeatsScore(sizes, x, y);
    }
  }
}
