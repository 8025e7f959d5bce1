/**
  Ranks, rank-count arrays and hands of the Landlord game.

  A rank-count array (`points[]`, `cards[]` in the source) is a sequence of 15 integers, one per
  rank from 3 (index 0) to the red joker (index 14).  Entries are plain integers: the pair-chain
  extraction can drive an entry below zero.
 */
module Cards {
  import opened Lists

  const CARD_3 := 0
  const CARD_T := 7
  const CARD_Q := 9
  const CARD_K := 10
  const CARD_A := 11
  const CARD_2 := 12
  const BLACK_JOKER := 13
  const RED_JOKER := 14
  const RANKS := 15

  type Counts = c: seq<int> | |c| == RANKS witness [0, 0, 0, 0, 0, 0, 0, 0, 0, 0, 0, 0, 0, 0, 0]

  const ZERO: Counts := [0, 0, 0, 0, 0, 0, 0, 0, 0, 0, 0, 0, 0, 0, 0]

  ghost predicate NonNegative(c: Counts) {
    forall r :: 0 <= r < RANKS ==> 0 <= c[r]
  }

  ghost predicate AtMost(c: Counts, d: Counts) {
    forall r :: 0 <= r < RANKS ==> c[r] <= d[r]
  }

  /** What one deck allows a seat to hold: up to four of a rank, one of each joker, 20 cards. */
  ghost predicate Legal(c: Counts) {
    && (forall r :: 0 <= r <= CARD_2 ==> 0 <= c[r] <= 4)
    && 0 <= c[BLACK_JOKER] <= 1
    && 0 <= c[RED_JOKER] <= 1
    && Sum(c) <= 20
  }

  // ----- sums over ranks

  function SumTo(c: seq<int>, n: nat): int
    requires n <= |c|
  {
    if n == 0 then 0 else SumTo(c, n - 1) + c[n - 1]
  }

  function Sum(c: seq<int>): int {
    SumTo(c, |c|)
  }

  lemma {:induction false} SumToSplit(a: seq<int>, b: seq<int>, c: seq<int>, n: nat)
    requires n <= |a| && n <= |b| && n <= |c|
    requires forall i :: 0 <= i < n ==> c[i] == a[i] + b[i]
    ensures SumTo(c, n) == SumTo(a, n) + SumTo(b, n)
  {
    if n > 0 {
      SumToSplit(a, b, c, n - 1);
    }
  }

  lemma {:induction false} SumToMonotone(a: seq<int>, b: seq<int>, n: nat)
    requires n <= |a| && n <= |b|
    requires forall i :: 0 <= i < n ==> a[i] <= b[i]
    ensures SumTo(a, n) <= SumTo(b, n)
  {
    if n > 0 {
      SumToMonotone(a, b, n - 1);
    }
  }

  lemma {:induction false} SumToUpdate(a: seq<int>, k: nat, v: int, n: nat)
    requires k < |a| && n <= |a|
    ensures SumTo(a[k := v], n) == SumTo(a, n) + (if k < n then v - a[k] else 0)
  {
    if n > 0 {
      SumToUpdate(a, k, v, n - 1);
    }
  }

  lemma {:induction false} SumOfZero(n: nat)
    requires n <= RANKS
    ensures SumTo(ZERO, n) == 0
  {
    if n > 0 {
      SumOfZero(n - 1);
    }
  }

  /** The sum written out, rank by rank. */
  lemma SumUnrolled(c: Counts)
    ensures Sum(c) == c[0] + c[1] + c[2] + c[3] + c[4] + c[5] + c[6] + c[7] + c[8] + c[9]
                      + c[10] + c[11] + c[12] + c[13] + c[14]
  {
    assert SumTo(c, 1) == c[0];
    assert SumTo(c, 2) == SumTo(c, 1) + c[1];
    assert SumTo(c, 3) == SumTo(c, 2) + c[2];
    assert SumTo(c, 4) == SumTo(c, 3) + c[3];
    assert SumTo(c, 5) == SumTo(c, 4) + c[4];
    assert SumTo(c, 6) == SumTo(c, 5) + c[5];
    assert SumTo(c, 7) == SumTo(c, 6) + c[6];
    assert SumTo(c, 8) == SumTo(c, 7) + c[7];
    assert SumTo(c, 9) == SumTo(c, 8) + c[8];
    assert SumTo(c, 10) == SumTo(c, 9) + c[9];
    assert SumTo(c, 11) == SumTo(c, 10) + c[10];
    assert SumTo(c, 12) == SumTo(c, 11) + c[11];
    assert SumTo(c, 13) == SumTo(c, 12) + c[12];
    assert SumTo(c, 14) == SumTo(c, 13) + c[13];
    assert SumTo(c, 15) == SumTo(c, 14) + c[14];
  }

  // ----- cards

  /** Card numbers 0..51 are four suits of 13 ranks; 52 and 53 are the jokers. */
  function CardToPoint(card: int): (point: int)
    ensures 0 <= card <= 53 <==> point != -1
    ensures 0 <= card <= 53 ==> 0 <= point < RANKS
  {
    if 0 <= card <= 51 then card % 13
    else if card == 52 || card == 53 then card - 52 + 13
    else -1
  }

  /** The cards of a rank: one of each suit, card 52 for the black joker and 53 for the red one. */
  lemma CardsOfRank(card: int, r: int)
    requires 0 <= r < RANKS
    ensures CardToPoint(card) == r <==>
      if r == BLACK_JOKER then card == 52
      else if r == RED_JOKER then card == 53
      else card in {r, 13 + r, 26 + r, 39 + r}
  {
    if 0 <= card <= 51 {
      var suit, point := card / 13, card % 13;
      assert card == 13 * suit + point && 0 <= suit <= 3;
    }
  }

  ghost predicate ValidCards(v: seq<int>) {
    forall i :: 0 <= i < |v| ==> 0 <= v[i] <= 53
  }

  /** How many cards of each rank a list of cards holds. */
  function CountsOf(v: seq<int>): Counts
    requires ValidCards(v)
  {
    if v == [] then ZERO
    else
      var c := CountsOf(v[..|v| - 1]);
      var p := CardToPoint(v[|v| - 1]);
      c[p := c[p] + 1]
  }

  method CardVecToPointArr(v: seq<int>, points: array<int>)
    requires ValidCards(v)
    requires points.Length == RANKS
    modifies points
    ensures points[..] == CountsOf(v)
  {
    for r := 0 to RANKS
      invariant forall k :: 0 <= k < r ==> points[k] == 0
    {
      points[r] := 0;
    }
    assert points[..] == ZERO;
    assert v[..0] == [];
    for i := 0 to |v|
      invariant points[..] == CountsOf(v[..i])
    {
      assert v[..i + 1][..i] == v[..i];
      var p := CardToPoint(v[i]);
      ghost var before := points[..];
      points[p] := points[p] + 1;
      assert points[..] == before[p := before[p] + 1];
    }
    assert v[..|v|] == v;
  }

  lemma {:induction false} CountsOfConcat(a: seq<int>, b: seq<int>)
    requires ValidCards(a) && ValidCards(b)
    ensures ValidCards(a + b)
    ensures forall r :: 0 <= r < RANKS ==> CountsOf(a + b)[r] == CountsOf(a)[r] + CountsOf(b)[r]
  {
    if b == [] {
      assert a + b == a;
    } else {
      var b' := b[..|b| - 1];
      CountsOfConcat(a, b');
      assert (a + b)[..|a + b| - 1] == a + b';
    }
  }

  lemma CountsOfOne(card: int)
    requires 0 <= card <= 53
    ensures CountsOf([card]) == ZERO[CardToPoint(card) := 1]
  {
    assert [card][..0] == [];
  }

  lemma CountsOfMiddle(front: seq<int>, card: int, back: seq<int>, r: int)
    requires ValidCards(front) && 0 <= card <= 53 && ValidCards(back) && 0 <= r < RANKS
    ensures ValidCards(front + [card] + back) && ValidCards(front + back)
    ensures CountsOf(front + [card] + back)[r] == CountsOf(front + back)[r] + (if r == CardToPoint(card) then 1 else 0)
  {
    hide CountsOf, CardToPoint;
    CountsOfConcat(front + [card], back);
    CountsOfConcat(front, [card]);
    CountsOfConcat(front, back);
    CountsOfOne(card);
  }

  lemma CountsOfRemove(v: seq<int>, k: nat)
    requires ValidCards(v) && k < |v|
    ensures ValidCards(v[..k] + v[k + 1..])
    ensures forall r :: 0 <= r < RANKS ==>
      CountsOf(v)[r] == CountsOf(v[..k] + v[k + 1..])[r] + (if r == CardToPoint(v[k]) then 1 else 0)
  {
    hide CountsOf, CardToPoint;
    assert v == v[..k] + [v[k]] + v[k + 1..];
    forall r | 0 <= r < RANKS
      ensures CountsOf(v)[r] == CountsOf(v[..k] + v[k + 1..])[r] + (if r == CardToPoint(v[k]) then 1 else 0)
    {
      CountsOfMiddle(v[..k], v[k], v[k + 1..], r);
    }
  }

  /** Counting depends only on which cards are held, not on their order. */
  lemma {:induction false} CountsOfMultiset(a: seq<int>, b: seq<int>)
    requires ValidCards(a) && ValidCards(b)
    requires multiset(a) == multiset(b)
    ensures CountsOf(a) == CountsOf(b)
    decreases |a|
  {
    if a == [] {
      assert |multiset(b)| == 0;
    } else {
      hide CountsOf, CardToPoint;
      assert a[0] in multiset(b);
      var k := IndexOf(b, a[0]);
      var a', b' := a[..0] + a[1..], b[..k] + b[k + 1..];
      RemoveSame(a, 0, b, k);
      CountsOfRemove(a, 0);
      CountsOfRemove(b, k);
      CountsOfMultiset(a', b');
      OneMoreAt(CountsOf(a), CountsOf(b), CountsOf(a'), CardToPoint(a[0]));
    }
  }

  lemma OneMoreAt(c: Counts, d: Counts, base: Counts, p: int)
    requires forall r :: 0 <= r < RANKS ==> c[r] == base[r] + (if r == p then 1 else 0)
    requires forall r :: 0 <= r < RANKS ==> d[r] == base[r] + (if r == p then 1 else 0)
    ensures c == d
  {
  }

  lemma EqualAtAllRanks(c: Counts, d: Counts)
    requires forall r :: 0 <= r < RANKS ==> c[r] == d[r]
    ensures c == d
  {
  }

  lemma {:induction false} CountsOfSum(v: seq<int>)
    requires ValidCards(v)
    ensures NonNegative(CountsOf(v))
    ensures Sum(CountsOf(v)) == |v|
  {
    if v == [] {
      SumOfZero(RANKS);
    } else {
      var w := v[..|v| - 1];
      CountsOfSum(w);
      var p := CardToPoint(v[|v| - 1]);
      SumToUpdate(CountsOf(w), p, CountsOf(w)[p] + 1, RANKS);
    }
  }

  /** A fresh array with the given contents. */
  method CopyOf(c: seq<int>) returns (a: array<int>)
    ensures fresh(a) && a[..] == c
  {
    a := new int[|c|];
    for i := 0 to |c|
      invariant a[..i] == c[..i]
    {
      a[i] := c[i];
    }
  }
}
