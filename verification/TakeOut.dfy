/**
  Moving concrete cards in and out of a hand of cards: `takeOutHand`, `RecoveryHandCards`,
  `RemoveExtraCards` and `IsSameCardsInfo`.
 */
module TakeOut {
  import opened Cards
  import opened Lists

  // ----- taking out the cards a count array asks for

  /** The cards taken: each card in order, as long as its rank is still asked for. */
  function Taken(cards: seq<int>, points: Counts): (t: seq<int>)
    requires ValidCards(cards)
    ensures ValidCards(t)
  {
    if cards == [] then []
    else
      var p := CardToPoint(cards[0]);
      if points[p] > 0 then [cards[0]] + Taken(cards[1..], points[p := points[p] - 1])
      else Taken(cards[1..], points)
  }

  function Kept(cards: seq<int>, points: Counts): (k: seq<int>)
    requires ValidCards(cards)
    ensures ValidCards(k)
  {
    if cards == [] then []
    else
      var p := CardToPoint(cards[0]);
      if points[p] > 0 then Kept(cards[1..], points[p := points[p] - 1])
      else [cards[0]] + Kept(cards[1..], points)
  }

  lemma {:induction false} TakenIsAskedFor(cards: seq<int>, points: Counts, x: int)
    requires ValidCards(cards) && x in Taken(cards, points)
    ensures x in cards && points[CardToPoint(x)] > 0
    decreases |cards|
  {
    if cards != [] {
      var p := CardToPoint(cards[0]);
      assert cards == [cards[0]] + cards[1..];
      if points[p] > 0 {
        if x != cards[0] {
          TakenIsAskedFor(cards[1..], points[p := points[p] - 1], x);
        }
      } else {
        TakenIsAskedFor(cards[1..], points, x);
      }
    }
  }

  /** Of a rank the cards held first are taken. */
  lemma {:induction false} TakenAreFirst(cards: seq<int>, points: Counts, i: nat, j: nat)
    requires ValidCards(cards) && Distinct(cards) && i < j < |cards|
    requires CardToPoint(cards[i]) == CardToPoint(cards[j]) && cards[j] in Taken(cards, points)
    ensures cards[i] in Taken(cards, points)
    decreases |cards|
  {
    var p := CardToPoint(cards[0]);
    TakenIsAskedFor(cards, points, cards[j]);
    if i > 0 {
      var next := if points[p] > 0 then points[p := points[p] - 1] else points;
      assert cards[j] in Taken(cards[1..], next);
      TakenAreFirst(cards[1..], next, i - 1, j - 1);
    }
  }

  /** The erasing loop of `takeOutHand`. */
  method TakeCards(cards: seq<int>, points: array<int>) returns (taken: seq<int>, rest: seq<int>)
    requires ValidCards(cards) && points.Length == RANKS
    modifies points
    ensures taken == Taken(cards, old(points[..])) && rest == Kept(cards, old(points[..]))
  {
    hide Taken, Kept;
    taken, rest := [], cards;
    ghost var allTaken, allKept := Taken(cards, points[..]), Kept(cards, points[..]);
    var it := 0;
    while it < |rest|
      invariant it <= |rest| && ValidCards(rest)
      invariant taken + Taken(rest[it..], points[..]) == allTaken
      invariant rest[..it] + Kept(rest[it..], points[..]) == allKept
      decreases |rest| - it
    {
      var card := rest[it];
      var point := CardToPoint(card);
      ghost var c, r := points[..], rest;
      assert r[it..] == [card] + r[it + 1..];
      TakeStep(card, r[it + 1..], c);
      if points[point] > 0 {
        points[point] := points[point] - 1;
        assert points[..] == c[point := c[point] - 1];
        TakenStep(taken, card, Taken(r[it + 1..], points[..]));
        taken := taken + [card];
        rest := rest[..it] + rest[it + 1..];
        assert rest[it..] == r[it + 1..] && rest[..it] == r[..it];
      } else {
        TakenStep(r[..it], card, Kept(r[it + 1..], c));
        it := it + 1;
        assert r[..it] == r[..it - 1] + [card];
      }
    }
    TakeEnd();
    assert rest[it..] == [] && rest[..it] == rest;
  }

  /** What becomes of the first card. */
  lemma TakeStep(card: int, tail: seq<int>, points: Counts)
    requires 0 <= card <= 53 && ValidCards(tail)
    ensures ValidCards([card] + tail)
    ensures var p := CardToPoint(card);
      if points[p] > 0 then
        && Taken([card] + tail, points) == [card] + Taken(tail, points[p := points[p] - 1])
        && Kept([card] + tail, points) == Kept(tail, points[p := points[p] - 1])
      else
        && Taken([card] + tail, points) == Taken(tail, points)
        && Kept([card] + tail, points) == [card] + Kept(tail, points)
  {
    assert ([card] + tail)[1..] == tail;
  }

  lemma TakeEnd()
    ensures forall points: Counts :: Taken([], points) == [] && Kept([], points) == []
  {
  }

  lemma TakenStep(a: seq<int>, x: int, b: seq<int>)
    ensures a + ([x] + b) == a + [x] + b
  {
  }

  /** No card is lost or doubled. */
  lemma {:induction false} TakenConserves(cards: seq<int>, points: Counts)
    requires ValidCards(cards)
    ensures multiset(cards) == multiset(Taken(cards, points)) + multiset(Kept(cards, points))
  {
    if cards != [] {
      var card, tail := cards[0], cards[1..];
      var p := CardToPoint(card);
      TakenConserves(tail, if points[p] > 0 then points[p := points[p] - 1] else points);
      assert cards == [card] + tail;
      assert multiset(cards) == multiset{card} + multiset(tail);
    }
  }

  function Clip(asked: int, held: int): int {
    if asked <= 0 then 0 else if asked <= held then asked else held
  }

  lemma CountsOfCons(card: int, tail: seq<int>, r: int)
    requires 0 <= card <= 53 && ValidCards(tail) && 0 <= r < RANKS
    ensures CountsOf([card] + tail)[r] == CountsOf(tail)[r] + (if r == CardToPoint(card) then 1 else 0)
  {
    CountsOfConcat([card], tail);
    CountsOfOne(card);
  }

  /** Of every rank, as many cards are taken as are asked for, or all that are held. */
  lemma {:induction false} TakenCounts(cards: seq<int>, points: Counts, r: int)
    requires ValidCards(cards) && 0 <= r < RANKS
    ensures CountsOf(Taken(cards, points))[r] == Clip(points[r], CountsOf(cards)[r])
  {
    hide Taken, Kept, CountsOf;
    TakeEnd();
    if cards == [] {
      CountsOfNone(r);
    } else {
      var card, tail := cards[0], cards[1..];
      assert cards == [card] + tail;
      var p := CardToPoint(card);
      var rest := if points[p] > 0 then points[p := points[p] - 1] else points;
      TakeStep(card, tail, points);
      TakenCounts(tail, rest, r);
      CountsOfSum(tail);
      CountsOfCons(card, tail, r);
      if points[p] > 0 {
        CountsOfCons(card, Taken(tail, rest), r);
      }
    }
  }

  lemma CountsOfNone(r: int)
    requires 0 <= r < RANKS
    ensures CountsOf([])[r] == 0
  {
  }

  /** Asking for no more than is held takes exactly what is asked for. */
  lemma TakenExactly(cards: seq<int>, points: Counts)
    requires ValidCards(cards) && NonNegative(points) && AtMost(points, CountsOf(cards))
    ensures CountsOf(Taken(cards, points)) == points
  {
    forall r | 0 <= r < RANKS
      ensures CountsOf(Taken(cards, points))[r] == points[r]
    {
      TakenCounts(cards, points, r);
    }
  }

  lemma {:induction false} AskingNothing(cards: seq<int>)
    requires ValidCards(cards)
    ensures Taken(cards, ZERO) == [] && Kept(cards, ZERO) == cards
  {
    if cards != [] {
      AskingNothing(cards[1..]);
    }
  }

  // ----- removing given cards

  /** `s` without one copy of each card of `gone` that it holds. */
  function RemoveAll(s: seq<int>, gone: seq<int>): seq<int> {
    if gone == [] then s else RemoveAll(RemoveFirst(s, gone[0]), gone[1..])
  }

  method EraseFirst(s: seq<int>, x: int) returns (rest: seq<int>)
    ensures rest == RemoveFirst(s, x)
  {
    var i := FindIndex(s, x);
    rest := if i < |s| then s[..i] + s[i + 1..] else s;
  }

  method RemoveCards(s: seq<int>, gone: seq<int>) returns (rest: seq<int>)
    ensures rest == RemoveAll(s, gone)
  {
    rest := s;
    for k := 0 to |gone|
      invariant RemoveAll(rest, gone[k..]) == RemoveAll(s, gone)
    {
      assert gone[k..][1..] == gone[k + 1..];
      rest := EraseFirst(rest, gone[k]);
    }
  }

  lemma {:induction false} RemoveAllCards(s: seq<int>, gone: seq<int>)
    ensures multiset(RemoveAll(s, gone)) == multiset(s) - multiset(gone)
    decreases |gone|
  {
    if gone != [] {
      RemoveFirstMultiset(s, gone[0]);
      assert gone == [gone[0]] + gone[1..];
      RemoveAllCards(RemoveFirst(s, gone[0]), gone[1..]);
    }
  }

  lemma ValidMultiset(a: seq<int>, b: seq<int>)
    requires ValidCards(b) && multiset(a) <= multiset(b)
    ensures ValidCards(a)
  {
    forall i | 0 <= i < |a|
      ensures 0 <= a[i] <= 53
    {
      assert a[i] in multiset(a);
      assert a[i] in multiset(b);
      assert a[i] in b;
    }
  }

  // ----- comparing two lists of cards

  /** Two lists hold the same cards in whatever order. */
  ghost predicate SameCards(a: seq<int>, b: seq<int>) {
    multiset(a) == multiset(b)
  }

  ghost predicate Sorted(s: seq<int>) {
    forall i, j :: 0 <= i < j < |s| ==> s[i] <= s[j]
  }

  /** The place of `x` in a sorted list. */
  method Place(s: seq<int>, x: int) returns (i: nat)
    requires Sorted(s)
    ensures i <= |s|
    ensures (forall j :: 0 <= j < i ==> s[j] < x) && forall j :: i <= j < |s| ==> x <= s[j]
  {
    i := 0;
    while i < |s| && s[i] < x
      invariant i <= |s|
      invariant forall j :: 0 <= j < i ==> s[j] < x
    {
      i := i + 1;
    }
  }

  /** `std::sort` on a copy. */
  method SortedCopy(v: seq<int>) returns (s: seq<int>)
    ensures Sorted(s) && multiset(s) == multiset(v)
  {
    s := [];
    for k := 0 to |v|
      invariant Sorted(s) && multiset(s) == multiset(v[..k])
    {
      var i := Place(s, v[k]);
      assert v[..k + 1] == v[..k] + [v[k]];
      assert s == s[..i] + s[i..];
      s := s[..i] + [v[k]] + s[i..];
    }
    assert v[..|v|] == v;
  }

  lemma FirstIsLeast(a: seq<int>, b: seq<int>)
    requires Sorted(a) && Sorted(b) && multiset(a) == multiset(b) && a != []
    ensures b != [] && a[0] == b[0]
  {
    assert a[0] in multiset(a);
    assert a[0] in multiset(b);
    assert b[0] in multiset(b);
    assert b[0] in multiset(a);
  }

  /** Only one sorted list holds given elements. */
  lemma {:induction false} SortedUnique(a: seq<int>, b: seq<int>)
    requires Sorted(a) && Sorted(b) && multiset(a) == multiset(b)
    ensures a == b
    decreases |a|
  {
    if a == [] {
      assert |multiset(b)| == 0;
    } else {
      FirstIsLeast(a, b);
      assert a == [a[0]] + a[1..] && b == [b[0]] + b[1..];
      assert multiset(a[1..]) == multiset(a) - multiset{a[0]};
      assert multiset(b[1..]) == multiset(b) - multiset{b[0]};
      SortedUnique(a[1..], b[1..]);
    }
  }

  lemma SameSize(a: seq<int>, b: seq<int>)
    requires SameCards(a, b)
    ensures |a| == |b|
  {
    assert |multiset(a)| == |a| && |multiset(b)| == |b|;
  }

  /** Sizes first, then two sorted copies element by element: the lists hold the same cards. */
  method IsSameCardsInfo(vecCards1: seq<int>, vecCards2: seq<int>) returns (same: bool)
    ensures same <==> SameCards(vecCards1, vecCards2)
  {
    if |vecCards1| != |vecCards2| {
      if SameCards(vecCards1, vecCards2) {
        SameSize(vecCards1, vecCards2);
      }
      return false;
    }
    var vec1 := SortedCopy(vecCards1);
    var vec2 := SortedCopy(vecCards2);
    assert |multiset(vec1)| == |vec1| && |multiset(vec2)| == |vec2|;
    assert |multiset(vecCards1)| == |vecCards1| && |multiset(vecCards2)| == |vecCards2|;
    for index := 0 to |vec1|
      invariant vec1[..index] == vec2[..index]
    {
      if vec1[index] != vec2[index] {
        if SameCards(vecCards1, vecCards2) {
          SortedUnique(vec1, vec2);
        }
        return false;
      }
    }
    assert vec1 == vec1[..|vec1|] == vec2[..|vec2|] == vec2;
    return true;
  }
}
