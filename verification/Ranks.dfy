/**
  Ascending lists of ranks: the ranks of a count array that hold exactly `k` cards.
  The classifier's four buckets and the single-rank hands of the splitters are such lists.
 */
module Ranks {
  import opened Cards
  import opened Hands

  /** The ranks of `lo..hi` (inclusive) that hold exactly `k` cards, ascending. */
  function RanksWith(c: Counts, k: int, lo: int, hi: int): (s: seq<int>)
    requires 0 <= lo && hi < RANKS
    ensures forall r :: r in s <==> lo <= r <= hi && c[r] == k
    ensures Ascending(s)
    decreases |c| - lo, hi
  {
    if lo > hi then []
    else
      var rest := RanksWith(c, k, lo + 1, hi);
      assert forall i :: 0 <= i < |rest| ==> rest[i] in rest;
      if c[lo] == k then [lo] + rest else rest
  }

  lemma NoRanksWith(c: Counts, k: int, lo: int, hi: int)
    requires 0 <= lo && hi < RANKS && forall r :: lo <= r <= hi ==> c[r] != k
    ensures RanksWith(c, k, lo, hi) == []
  {
    AscendingUnique(RanksWith(c, k, lo, hi), []);
  }

  lemma {:induction false} RanksWithSnoc(c: Counts, k: int, lo: int, hi: int)
    requires 0 <= lo <= hi < RANKS
    ensures RanksWith(c, k, lo, hi) == RanksWith(c, k, lo, hi - 1) + (if c[hi] == k then [hi] else [])
    decreases hi - lo
  {
    if lo < hi {
      RanksWithSnoc(c, k, lo + 1, hi);
    } else {
      assert RanksWith(c, k, lo + 1, hi) == [];
    }
  }

  /** An ascending list is determined by its members. */
  lemma {:induction false} AscendingUnique(a: seq<int>, b: seq<int>)
    requires Ascending(a) && Ascending(b)
    requires forall x :: x in a <==> x in b
    ensures a == b
    decreases |a|
  {
    assert b != [] ==> b[0] in b && b[0] in a;
    if a != [] {
      assert a[0] in a && a[0] in b;
      assert b[0] in b && b[0] in a;
      assert a[0] == b[0];
      assert a == [a[0]] + a[1..];
      assert b == [b[0]] + b[1..];
      forall x
        ensures x in a[1..] <==> x in b[1..]
      {
        assert x in a[1..] <==> x in a && x != a[0];
        assert x in b[1..] <==> x in b && x != b[0];
      }
      AscendingUnique(a[1..], b[1..]);
    }
  }

  /** The ascending list of `n` consecutive ranks. */
  function Consecutive(lo: int, n: nat): (s: seq<int>)
    ensures |s| == n
    ensures forall i :: 0 <= i < n ==> s[i] == lo + i
  {
    seq(n, i => lo + i)
  }

  lemma ConsecutiveMembers(lo: int, n: nat)
    ensures Ascending(Consecutive(lo, n))
    ensures forall x :: x in Consecutive(lo, n) <==> lo <= x < lo + n
  {
    forall x | lo <= x < lo + n
      ensures x in Consecutive(lo, n)
    {
      assert Consecutive(lo, n)[x - lo] == x;
    }
  }

  /** An ascending list spanning exactly its own length has no gap. */
  lemma {:induction false} NoGaps(s: seq<int>, i: nat)
    requires Ascending(s) && i < |s|
    requires s[|s| - 1] - s[0] == |s| - 1
    ensures s[i] == s[0] + i
  {
    AtLeastIndex(s, i);
    AtMostIndex(s, i);
  }

  lemma {:induction false} AtLeastIndex(s: seq<int>, i: nat)
    requires Ascending(s) && i < |s|
    ensures s[i] >= s[0] + i
  {
    if i > 0 {
      AtLeastIndex(s, i - 1);
    }
  }

  lemma {:induction false} AtMostIndex(s: seq<int>, i: nat)
    requires Ascending(s) && i < |s|
    ensures s[i] <= s[|s| - 1] - (|s| - 1 - i)
    decreases |s| - i
  {
    if i + 1 < |s| {
      AtMostIndex(s, i + 1);
    }
  }

  lemma AscendingDistinct(s: seq<int>, r: int)
    requires Ascending(s)
    ensures multiset(s)[r] == if r in s then 1 else 0
  {
    if r in s {
      var k :| 0 <= k < |s| && s[k] == r;
      assert s == s[..k] + [s[k]] + s[k + 1..];
      assert r !in s[..k] && r !in s[k + 1..];
    }
  }
}
