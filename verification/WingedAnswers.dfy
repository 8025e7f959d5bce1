/**
  What the search for higher hands answers to a winged hand, once its kickers are searched for as
  the source does it, and which answers can be printed.
 */
module WingedAnswers {
  import opened Cards
  import opened Hands
  import opened HandMaps
  import opened Options
  import opened Lists
  import opened Printer
  import opened Ranks
  import opened Singles
  import opened Runs
  import opened SoloChains
  import opened Splitters
  import opened HigherSearch
  import opened FindKicker

  // ----- the split the kicker search looks at

  /** The counts once the body of a hand like `body` is taken away. */
  function Rest(points: Counts, body: Hand): Counts {
    seq(RANKS, r requires 0 <= r < RANKS => points[r] - if InBody(body, r) then 3 else 0)
  }

  lemma RestLegal(points: Counts, body: Hand)
    requires Legal(points) && NeedsKicker(body.ty) && FitsAt(body, points, body.key)
    ensures Legal(Rest(points, body))
  {
    hide FitsAt;
    forall r | 0 <= r < RANKS && InBody(body, r)
      ensures points[r] >= 3
    {
      FitsMeansHeld(body, points, r);
    }
    SumToMonotone(Rest(points, body), points, RANKS);
  }

  lemma FitsMeansHeld(body: Hand, points: Counts, r: int)
    requires NeedsKicker(body.ty) && FitsAt(body, points, body.key) && 0 <= r < RANKS && InBody(body, r)
    ensures points[r] >= 3
  {
  }

  /** A shaped split of at most these counts. */
  ghost predicate Within(m: HandMap, points: Counts) {
    MapShaped(m) && forall r :: 0 <= r < RANKS ==> MapTotal(m, r) <= points[r]
  }

  lemma SplitWithin(kind: int, points: Counts)
    requires 1 <= kind <= 3 && Legal(points)
    ensures Within(KindOf(kind, points, false).m, points)
  {
    hide KindOf;
    KindFinished(kind, points, false);
    forall r | 0 <= r < RANKS
      ensures MapTotal(KindOf(kind, points, false).m, r) <= points[r]
    {
      SplitConserves(kind, points, false, r);
    }
  }

  /** The kickers for a body are searched for in what is left beside it. */
  ghost predicate Asks(search: Hand -> KickerSearch, points: Counts, body: Hand)
    requires Legal(points) && NeedsKicker(body.ty) && FitsAt(body, points, body.key)
  {
    RestLegal(points, body);
    var rest := Rest(points, body);
    exists kind: int, stray: nat -> int ::
      1 <= kind <= 3 && search(body) == KickerAnswer(rest, KindOf(kind, rest, false).m, body, stray)
  }

  ghost predicate RunsSearch(search: Hand -> KickerSearch, points: Counts) {
    && Legal(points)
    && forall body: Hand :: NeedsKicker(body.ty) && FitsAt(body, points, body.key) ==> Asks(search, points, body)
  }

  lemma Asked(search: Hand -> KickerSearch, points: Counts, body: Hand) returns (m: HandMap, stray: nat -> int)
    requires Legal(points) && NeedsKicker(body.ty) && FitsAt(body, points, body.key)
    requires Asks(search, points, body)
    ensures Legal(Rest(points, body)) && Within(m, Rest(points, body))
    ensures search(body) == KickerAnswer(Rest(points, body), m, body, stray)
  {
    hide KickerAnswer, KindOf, FitsAt, Legal, Rest, Within;
    RestLegal(points, body);
    var rest := Rest(points, body);
    var kind: int, s: nat -> int :|
      1 <= kind <= 3 && search(body) == KickerAnswer(rest, KindOf(kind, rest, false).m, body, s);
    SplitWithin(kind, rest);
    m, stray := KindOf(kind, rest, false).m, s;
  }

  // ----- one kicker

  /** A rank beside the trio's own that holds enough cards. */
  predicate Free(points: Counts, r: int, need: int, key: int) {
    0 <= r < RANKS && r != key && points[r] >= need
  }

  lemma InMapHeld(h: Hand, m: HandMap, points: Counts, r: int)
    requires Within(m, points) && In(h, m) && 0 <= r < RANKS
    ensures At(h, r) <= points[r] && Shaped(h)
  {
    AtMostMapTotal(h, m, r);
    MapShapedMember(h, m);
  }

  lemma {:induction false} FirstHeldFacts(points: Counts, r: nat, top: int, need: int, key: int)
    requires top < RANKS
    ensures var o := FirstHeld(points, r, top, need, key);
      if o.None? then forall s :: r <= s <= top ==> !Free(points, s, need, key)
      else r <= o.value <= top && Free(points, o.value, need, key)
    decreases RANKS - r
  {
    if r <= top && !(points[r] >= need && r != key) {
      FirstHeldFacts(points, r + 1, top, need, key);
    }
  }

  lemma {:induction false} FirstOtherFacts(hands: seq<Hand>, i: nat, key: int)
    requires i <= |hands|
    ensures var o := FirstOther(hands, i, key);
      o.Some? ==> o.value != key && exists j :: i <= j < |hands| && hands[j].key == o.value
    decreases |hands| - i
  {
    if i < |hands| && hands[i].key == key {
      FirstOtherFacts(hands, i + 1, key);
    }
  }

  lemma {:induction false} LinkedFacts(chains: seq<Hand>, i: nat, j: nat, key: int)
    ensures var o := Linked(chains, i, j, key);
      o.Some? ==> o.value != key && exists k :: 0 <= k < |chains| && chains[k].key == o.value
    decreases |chains| - i, |chains| - j
  {
    if i < |chains| {
      if j >= |chains| {
        LinkedFacts(chains, i + 1, i + 2, key);
      } else {
        LinkedFacts(chains, i, j + 1, key);
      }
    }
  }

  lemma {:induction false} SpareEndFacts(chains: seq<Hand>, i: nat, key: int)
    requires i <= |chains|
    ensures var o := SpareEnd(chains, i, key);
      o.Some? ==> o.value != key && exists k :: 0 <= k < |chains| && InBodyOf(chains[k], o.value)
    decreases |chains| - i
  {
    if i < |chains| && chains[i].len <= 5 {
      SpareEndFacts(chains, i + 1, key);
    }
  }

  predicate InBodyOf(chain: Hand, r: int) {
    chain.len > 5 && chain.key <= r < chain.key + chain.len
  }

  lemma ChainRankHeld(m: HandMap, points: Counts, k: nat, r: int)
    requires Within(m, points) && k < |m.soloChain| && m.soloChain[k].key <= r < m.soloChain[k].key + m.soloChain[k].len
    ensures 0 <= r <= CARD_A && points[r] >= 1
  {
    var h := m.soloChain[k];
    assert h in Of(m, SoloChain);
    InMapHeld(h, m, points, 0);
    InMapHeld(h, m, points, r);
  }

  lemma ChainStartHeld(m: HandMap, points: Counts, k: nat)
    requires Within(m, points) && k < |m.soloChain|
    ensures 0 <= m.soloChain[k].key <= CARD_A && points[m.soloChain[k].key] >= 1
  {
    var h := m.soloChain[k];
    assert h in Of(m, SoloChain);
    InMapHeld(h, m, points, 0);
    ChainRankHeld(m, points, k, h.key);
  }

  lemma SoloHeld(m: HandMap, points: Counts, k: nat)
    requires Within(m, points) && k < |m.solo|
    ensures 0 <= m.solo[k].key <= RED_JOKER && points[m.solo[k].key] >= 1
  {
    var h := m.solo[k];
    assert h in Of(m, Solo);
    InMapHeld(h, m, points, 0);
    InMapHeld(h, m, points, h.key);
  }

  lemma PairHeld(m: HandMap, points: Counts, ty: HandType)
    requires Within(m, points) && (ty == Pair || ty == PairChain) && Of(m, ty) != []
    ensures 0 <= Of(m, ty)[0].key <= CARD_2 && points[Of(m, ty)[0].key] >= 2
  {
    var h := Of(m, ty)[0];
    assert h in Of(m, ty);
    InMapHeld(h, m, points, 0);
    InMapHeld(h, m, points, h.key);
  }

  /** A single kicker is found iff a card of another rank is left, and it is such a card. */
  lemma SoloKickerFacts(points: Counts, m: HandMap, key: int)
    requires Within(m, points)
    ensures var o := SoloKicker(points, m, key);
      if o.None? then forall r :: !Free(points, r, 1, key) else Free(points, o.value, 1, key)
  {
    hide Within, FirstOther, Linked, SpareEnd, FirstHeld;
    FirstOtherFacts(m.solo, 0, key);
    LinkedFacts(m.soloChain, 0, 1, key);
    SpareEndFacts(m.soloChain, 0, key);
    FirstHeldFacts(points, CARD_3, RED_JOKER, 1, key);
    if FirstOther(m.solo, 0, key).Some? {
      var k :| 0 <= k < |m.solo| && m.solo[k].key == FirstOther(m.solo, 0, key).value;
      SoloHeld(m, points, k);
    } else if Linked(m.soloChain, 0, 1, key).Some? {
      var k :| 0 <= k < |m.soloChain| && m.soloChain[k].key == Linked(m.soloChain, 0, 1, key).value;
      ChainStartHeld(m, points, k);
    } else if SpareEnd(m.soloChain, 0, key).Some? {
      var k :| 0 <= k < |m.soloChain| && InBodyOf(m.soloChain[k], SpareEnd(m.soloChain, 0, key).value);
      ChainRankHeld(m, points, k, SpareEnd(m.soloChain, 0, key).value);
    }
  }

  /** A pair is found iff another rank up to the two is held twice, and it is such a rank. */
  lemma PairKickerFacts(points: Counts, m: HandMap, key: int)
    requires Within(m, points) && 0 <= key < RANKS && points[key] <= 1
    ensures var o := PairKicker(points, m, key);
      if o.None? then forall r :: r <= CARD_2 ==> !Free(points, r, 2, key)
      else o.value <= CARD_2 && Free(points, o.value, 2, key)
  {
    hide Within, FirstHeld;
    FirstHeldFacts(points, CARD_3, CARD_2, 2, key);
    if m.pair != [] {
      PairHeld(m, points, Pair);
    } else if m.pairChain != [] {
      PairHeld(m, points, PairChain);
    }
  }

  /** Solo `i` is the first one that is not of the trio's own rank. */
  predicate IsFirstOther(hands: seq<Hand>, key: int, i: int) {
    0 <= i < |hands| && hands[i].key != key && forall j :: 0 <= j < i ==> hands[j].key == key
  }

  predicate IsFirstLong(chains: seq<Hand>, i: int) {
    0 <= i < |chains| && chains[i].len > 5 && forall j :: 0 <= j < i ==> chains[j].len <= 5
  }

  /** Chain `j` starts, not at the trio's own rank, where chain `i` before it ends. */
  predicate Meets(chains: seq<Hand>, i: int, j: int, key: int) {
    && 0 <= i < j < |chains| && chains[i].key + chains[i].len - 1 == chains[j].key && chains[j].key != key
  }

  lemma {:induction false} FirstOtherIs(hands: seq<Hand>, key: int, from: nat, i: int)
    requires from <= i && IsFirstOther(hands, key, i)
    ensures FirstOther(hands, from, key) == Some(hands[i].key)
    decreases i - from
  {
    if from < i {
      FirstOtherIs(hands, key, from + 1, i);
    }
  }

  lemma {:induction false} SpareEndIs(chains: seq<Hand>, key: int, from: nat, i: int)
    requires from <= i && IsFirstLong(chains, i)
    ensures SpareEnd(chains, from, key)
      == Some(if chains[i].key != key then chains[i].key else chains[i].key + chains[i].len - 1)
    decreases i - from
  {
    if from < i {
      SpareEndIs(chains, key, from + 1, i);
    }
  }

  lemma {:induction false} NoneOther(hands: seq<Hand>, from: nat, key: int)
    requires from <= |hands| && forall i :: 0 <= i < |hands| ==> hands[i].key == key
    ensures FirstOther(hands, from, key) == None
    decreases |hands| - from
  {
    if from < |hands| {
      NoneOther(hands, from + 1, key);
    }
  }

  lemma {:induction false} NoneLong(chains: seq<Hand>, from: nat, key: int)
    requires from <= |chains| && forall i :: 0 <= i < |chains| ==> chains[i].len <= 5
    ensures SpareEnd(chains, from, key) == None
    decreases |chains| - from
  {
    if from < |chains| {
      NoneLong(chains, from + 1, key);
    }
  }

  lemma {:induction false} LinkedMeets(chains: seq<Hand>, i: nat, j: nat, key: int)
    requires i < j
    ensures match Linked(chains, i, j, key)
      case None => forall a, b :: Meets(chains, a, b, key) ==> a < i || (a == i && b < j)
      case Some(r) => exists a, b :: Meets(chains, a, b, key) && chains[b].key == r
    decreases |chains| - i, |chains| - j
  {
    if i < |chains| {
      if j >= |chains| {
        LinkedMeets(chains, i + 1, i + 2, key);
      } else if !Meets(chains, i, j, key) {
        LinkedMeets(chains, i, j + 1, key);
      }
    }
  }

  /** The scan of the counts finds the lowest rank that is free. */
  lemma {:induction false} FirstHeldIsLowest(points: Counts, r: nat, top: int, need: int, key: int)
    requires top < RANKS
    ensures FirstHeld(points, r, top, need, key).Some? ==>
      forall s :: r <= s < FirstHeld(points, r, top, need, key).value ==> !Free(points, s, need, key)
    decreases RANKS - r
  {
    if r <= top && !(points[r] >= need && r != key) {
      FirstHeldIsLowest(points, r + 1, top, need, key);
    }
  }

  ghost predicate NoneMeets(chains: seq<Hand>, key: int) {
    forall a, b :: !Meets(chains, a, b, key)
  }

  /** The lowest free rank of `..top`. */
  ghost predicate IsLowestFree(points: Counts, r: int, top: int, need: int, key: int) {
    r <= top && Free(points, r, need, key) && forall s :: s < r ==> !Free(points, s, need, key)
  }

  /** A trio gets the first solo of another rank, if there is one. */
  lemma SoloFirst(points: Counts, m: HandMap, key: int, i: int)
    requires IsFirstOther(m.solo, key, i)
    ensures SoloKicker(points, m, key) == Some(m.solo[i].key)
  {
    FirstOtherIs(m.solo, key, 0, i);
  }

  /** Without one, a chain's start at which an earlier chain ends. */
  lemma LinkSecond(points: Counts, m: HandMap, key: int)
    requires (forall j :: 0 <= j < |m.solo| ==> m.solo[j].key == key) && !NoneMeets(m.soloChain, key)
    ensures exists a, b :: Meets(m.soloChain, a, b, key) && SoloKicker(points, m, key) == Some(m.soloChain[b].key)
  {
    hide SpareEnd, FirstHeld;
    NoneOther(m.solo, 0, key);
    LinkedMeets(m.soloChain, 0, 1, key);
  }

  /** Without that, an end of the first chain longer than five: the low one, but for the trio's own rank. */
  lemma SpareThird(points: Counts, m: HandMap, key: int, i: int)
    requires (forall j :: 0 <= j < |m.solo| ==> m.solo[j].key == key) && NoneMeets(m.soloChain, key)
    requires IsFirstLong(m.soloChain, i)
    ensures var chain := m.soloChain[i];
      SoloKicker(points, m, key) == Some(if chain.key != key then chain.key else chain.key + chain.len - 1)
  {
    hide FirstHeld;
    NoneOther(m.solo, 0, key);
    LinkedMeets(m.soloChain, 0, 1, key);
    SpareEndIs(m.soloChain, key, 0, i);
  }

  /** Only then is the lowest rank that is left taken from wherever it is. */
  lemma LowestLast(points: Counts, m: HandMap, key: int, r: int)
    requires (forall j :: 0 <= j < |m.solo| ==> m.solo[j].key == key) && NoneMeets(m.soloChain, key)
    requires forall j :: 0 <= j < |m.soloChain| ==> m.soloChain[j].len <= 5
    requires IsLowestFree(points, r, RED_JOKER, 1, key)
    ensures SoloKicker(points, m, key) == Some(r)
  {
    NoneOther(m.solo, 0, key);
    LinkedMeets(m.soloChain, 0, 1, key);
    NoneLong(m.soloChain, 0, key);
    FirstHeldFacts(points, CARD_3, RED_JOKER, 1, key);
    FirstHeldIsLowest(points, CARD_3, RED_JOKER, 1, key);
  }

  /** A trio gets the first pair; else the start of a first pair chain longer than three; else the lowest pair left. */
  lemma PairKickerOrder(points: Counts, m: HandMap, key: int, r: int)
    requires IsLowestFree(points, r, CARD_2, 2, key)
    ensures PairKicker(points, m, key) == Some(
      if m.pair != [] then m.pair[0].key
      else if m.pairChain != [] && 3 < m.pairChain[0].len then m.pairChain[0].key
      else r)
  {
    FirstHeldFacts(points, CARD_3, CARD_2, 2, key);
    FirstHeldIsLowest(points, CARD_3, CARD_2, 2, key);
  }

  // ----- trios with a kicker: the search is exact

  /** A hand of `h`'s kind that is higher and held. */
  ghost predicate HeldHigher(x: Hand, h: Hand, points: Counts) {
    WellFormed(x) && x.ty == h.ty && h.key < x.key && forall r :: 0 <= r < RANKS ==> At(x, r) <= points[r]
  }

  predicate WingedTrio(ty: HandType) {
    ty == TrioSolo || ty == TrioPair
  }

  function KickersNeeded(ty: HandType): int {
    if ty == TrioPair then 2 else 1
  }

  function KickerTop(ty: HandType): int {
    if ty == TrioPair then CARD_2 else RED_JOKER
  }

  /** What the kicker search makes of a trio that fits: a kicker that is left, if any is. */
  lemma TrioKicker(points: Counts, search: Hand -> KickerSearch, body: Hand)
    requires RunsSearch(search, points)
    requires WingedTrio(body.ty) && FitsAt(body, points, body.key)
    ensures match search(body)
      case NoKicker => forall r :: r <= KickerTop(body.ty) ==> !Free(points, r, KickersNeeded(body.ty), body.key)
      case Found(k) =>
        |k| == 1 && k[0] <= KickerTop(body.ty) && Free(points, k[0], KickersNeeded(body.ty), body.key)
  {
    hide Within, SoloKicker, PairKicker, Legal, MapShaped;
    assert Asks(search, points, body);
    var m, stray := Asked(search, points, body);
    var rest := Rest(points, body);
    assert forall r :: 0 <= r < RANKS && r != body.key ==> rest[r] == points[r];
    if body.ty == TrioSolo {
      SoloKickerFacts(rest, m, body.key);
    } else {
      FewLeft(points, body);
      PairKickerFacts(rest, m, body.key);
    }
    assert forall r, need :: Free(rest, r, need, body.key) <==> Free(points, r, need, body.key);
  }

  lemma FewLeft(points: Counts, body: Hand)
    requires Legal(points) && WingedTrio(body.ty) && FitsAt(body, points, body.key)
    ensures Rest(points, body)[body.key] <= 1
  {
  }

  /** A trio and a free rank make a held hand, and a held hand is made of such. */
  lemma HeldTrioIff(h: Hand, points: Counts, x: Hand)
    requires WingedTrio(h.ty) && 0 <= h.key && Legal(points) && x.len == 0 && |x.kicker| == 1
    ensures HeldHigher(x, h, points) <==>
      && x.ty == h.ty && h.key < x.key && FitsAt(BodyAt(h, x.key), points, x.key)
      && x.kicker[0] <= KickerTop(h.ty) && Free(points, x.kicker[0], KickersNeeded(h.ty), x.key)
  {
    var k := x.kicker[0];
    assert x.kicker == [k];
    assert forall r :: multiset(x.kicker)[r] == if r == k then 1 else 0;
    if x.ty == h.ty && h.key < x.key && 0 <= k <= KickerTop(h.ty) && k != x.key {
      if FitsAt(BodyAt(h, x.key), points, x.key) && Free(points, k, KickersNeeded(h.ty), x.key) {
        assert x.key <= CARD_2;
        assert WellFormed(x);
        assert forall r :: 0 <= r < RANKS ==> At(x, r) <= points[r];
      }
      if HeldHigher(x, h, points) {
        assert At(x, x.key) == 3 && At(x, k) == KickersNeeded(h.ty);
      }
    }
  }

  /**
    To a trio with a kicker the search gives the lowest trio above it, with a kicker that is left
    beside it; it gives no answer iff no hand of the kind that is held beats it.
   */
  lemma TrioSearchExact(h: Hand, points: Counts, search: Hand -> KickerSearch)
    requires WingedTrio(h.ty) && 0 <= h.key && RunsSearch(search, points)
    ensures var g := NextHigher(h, points, search);
      if g.ty == Nothing then forall x :: !HeldHigher(x, h, points)
      else HeldHigher(g, h, points) && forall x :: HeldHigher(x, h, points) ==> g.key <= x.key
  {
    hide Legal, RunsSearch, FirstFit, HeldHigher, Free, WellFormed;
    SearchedAreLegal(points, search);
    var g := NextHigher(h, points, search);
    var key := FirstFit(h, points, h.key + 1);
    FirstFitLowest(h, points);
    forall x | HeldHigher(x, h, points)
      ensures key != -1 && key <= x.key && g.ty != Nothing
    {
      HeldHasOneKicker(h, points, x);
      HeldTrioIff(h, points, x);
      OtherKicker(h, points, search, x, key);
    }
    if g.ty != Nothing {
      TrioKicker(points, search, BodyAt(h, key));
      HeldTrioIff(h, points, g);
    }
  }

  lemma HeldHasOneKicker(h: Hand, points: Counts, x: Hand)
    requires WingedTrio(h.ty) && HeldHigher(x, h, points)
    ensures x.len == 0 && |x.kicker| == 1
  {
  }

  lemma FirstFitLowest(h: Hand, points: Counts)
    requires WingedTrio(h.ty) && 0 <= h.key
    ensures var key := FirstFit(h, points, h.key + 1);
      && (key != -1 ==> h.key < key && FitsAt(BodyAt(h, key), points, key))
      && forall k :: h.key < k && FitsAt(BodyAt(h, k), points, k) ==> key != -1 && key <= k
  {
    var key := FirstFit(h, points, h.key + 1);
    forall k | h.key < k && FitsAt(BodyAt(h, k), points, k)
      ensures key != -1 && key <= k
    {
      assert FitsAt(h, points, k);
    }
  }

  /** If another hand is held, a kicker is left beside the first trio that fits: its own, or its trio. */
  lemma AnotherIsFree(h: Hand, points: Counts, x: Hand, key: int)
    requires WingedTrio(h.ty) && Legal(points) && |x.kicker| == 1
    requires FitsAt(BodyAt(h, x.key), points, x.key)
    requires x.kicker[0] <= KickerTop(h.ty) && Free(points, x.kicker[0], KickersNeeded(h.ty), x.key)
    ensures exists r :: r <= KickerTop(h.ty) && Free(points, r, KickersNeeded(h.ty), key)
  {
    assert Free(points, if x.key == key then x.kicker[0] else x.key, KickersNeeded(h.ty), key);
  }

  lemma SearchedAreLegal(points: Counts, search: Hand -> KickerSearch)
    requires RunsSearch(search, points)
    ensures Legal(points)
  {
  }

  lemma FreeIsFound(points: Counts, search: Hand -> KickerSearch, body: Hand)
    requires RunsSearch(search, points) && WingedTrio(body.ty) && FitsAt(body, points, body.key)
    requires exists r :: r <= KickerTop(body.ty) && Free(points, r, KickersNeeded(body.ty), body.key)
    ensures search(body).Found?
  {
    TrioKicker(points, search, body);
  }

  lemma OtherKicker(h: Hand, points: Counts, search: Hand -> KickerSearch, x: Hand, key: int)
    requires WingedTrio(h.ty) && 0 <= h.key && RunsSearch(search, points)
    requires key == FirstFit(h, points, h.key + 1) && |x.kicker| == 1
    requires h.key < x.key && FitsAt(BodyAt(h, x.key), points, x.key)
    requires x.kicker[0] <= KickerTop(h.ty) && Free(points, x.kicker[0], KickersNeeded(h.ty), x.key)
    ensures NextHigher(h, points, search).ty != Nothing
  {
    hide RunsSearch, FirstFit, Free, Legal, FitsAt;
    SearchedAreLegal(points, search);
    FirstFitLowest(h, points);
    AnotherIsFree(h, points, x, key);
    FreeIsFound(points, search, BodyAt(h, key));
  }

  // ----- kickers for a chain

  lemma {:induction false} ChainWingsFacts(chain: Hand, body: Hand, other: int, need: int)
    ensures |ChainWings(chain, body, other, need)| <= if need > 0 then need else 0
    ensures forall x :: x in ChainWings(chain, body, other, need) ==> chain.key <= x < chain.key + chain.len
    decreases chain.len
  {
    if need > 0 && chain.len > 5 {
      ChainWingsFacts(chain.(key := chain.key + 1, len := chain.len - 1), body, other, need - 1);
      ChainWingsFacts(chain.(len := chain.len - 1), body, other, need - 1);
    }
  }

  lemma {:induction false} AllChainWingsFacts(
    m: HandMap, points: Counts, i: nat, body: Hand, stray: nat -> int, need: int)
    requires Within(m, points) && i <= |m.soloChain|
    ensures forall x :: x in AllChainWings(m, i, body, stray, need) ==> 0 <= x <= CARD_A && points[x] >= 1
    decreases |m.soloChain| - i
  {
    hide Within, ChainWings, KeyRead;
    if i < |m.soloChain| && need > 0 {
      var chain := m.soloChain[i];
      var wings := ChainWings(chain, body, KeyRead(m.solo, i, stray), need);
      AllChainWingsFacts(m, points, i + 1, body, stray, need - |wings|);
      ChainWingsFacts(chain, body, KeyRead(m.solo, i, stray), need);
      forall x | x in wings
        ensures 0 <= x <= CARD_A && points[x] >= 1
      {
        ChainRankHeld(m, points, i, x);
      }
    }
  }

  lemma {:induction false} LowestHeldFacts(points: Counts, r: nat, need: int)
    ensures |LowestHeld(points, r, need)| <= if need > 0 then need else 0
    ensures forall x :: x in LowestHeld(points, r, need) ==> r <= x <= RED_JOKER && points[x] >= 1
    ensures Ascending(LowestHeld(points, r, need))
    decreases RANKS - r
  {
    if r <= RED_JOKER && need > 0 {
      LowestHeldFacts(points, r + 1, need - 1);
      LowestHeldFacts(points, r + 1, need);
      var rest := LowestHeld(points, r + 1, need - 1);
      assert forall i :: 0 <= i < |rest| ==> rest[i] in rest;
    }
  }

  /** The ranks that fill up are the lowest held: one that is not among them is above them, and they are enough. */
  lemma {:induction false} LowestHeldIs(points: Counts, r: nat, need: int, s: int)
    requires 0 <= need && r <= s <= RED_JOKER && points[s] >= 1
    ensures var low := LowestHeld(points, r, need);
      s in low || (|low| == need && forall x :: x in low ==> x < s)
    decreases RANKS - r
  {
    if need > 0 && r < s {
      LowestHeldIs(points, r + 1, need - 1, s);
      LowestHeldIs(points, r + 1, need, s);
    }
  }

  /** The kickers taken from solos are those off the body. */
  lemma {:induction false} OutsideKeysIff(solos: seq<Hand>, body: Hand, r: int)
    ensures r in OutsideKeys(solos, body) <==> r in Keys(solos) && !InBody(body, r)
  {
    if solos != [] {
      var n := |solos| - 1;
      OutsideKeysIff(solos[..n], body, r);
      assert Keys(solos) == Keys(solos[..n]) + [solos[n].key];
    }
  }

  lemma OutsideKeysHeld(m: HandMap, points: Counts, body: Hand)
    requires Within(m, points)
    ensures forall x :: x in OutsideKeys(m.solo, body) ==> 0 <= x <= RED_JOKER && points[x] >= 1
  {
    hide Within, OutsideKeys;
    forall x | x in OutsideKeys(m.solo, body)
      ensures 0 <= x <= RED_JOKER && points[x] >= 1
    {
      var i :| 0 <= i < |m.solo| && m.solo[i].key == x;
      SoloHeld(m, points, i);
    }
  }

  /** Every kicker offered for a chain is a rank of which a card is left. */
  lemma WingsHeld(points: Counts, m: HandMap, body: Hand, stray: nat -> int)
    requires Within(m, points)
    ensures forall x :: x in Wings(points, m, body, stray) ==> 0 <= x <= RED_JOKER && points[x] >= 1
  {
    hide Within, OutsideKeys, AllChainWings, LowestHeld;
    var solos := OutsideKeys(m.solo, body);
    OutsideKeysHeld(m, points, body);
    AllChainWingsFacts(m, points, 0, body, stray, body.len - |solos|);
    var found := solos + AllChainWings(m, 0, body, stray, body.len - |solos|);
    LowestHeldFacts(points, CARD_3, body.len - |found|);
  }

  /** As many kickers as the body needs, each a rank of which a card is left. */
  ghost predicate RightKickers(body: Hand, points: Counts, k: seq<int>) {
    && |k| == (if IsChain(body.ty) then body.len else 1)
    && forall i :: 0 <= i < |k| ==> 0 <= k[i] < RANKS && points[k[i]] >= 1
  }

  lemma KickersRight(points: Counts, search: Hand -> KickerSearch, body: Hand)
    requires RunsSearch(search, points)
    requires NeedsKicker(body.ty) && FitsAt(body, points, body.key) && search(body).Found?
    ensures RightKickers(body, Rest(points, body), search(body).kicker)
  {
    hide Wings, SoloKicker, PairKicker, Legal, Within, FitsAt;
    if WingedTrio(body.ty) {
      TrioKicker(points, search, body);
      assert forall r :: 0 <= r < RANKS && r != body.key ==> Rest(points, body)[r] == points[r];
    } else {
      assert Asks(search, points, body);
      var m, stray := Asked(search, points, body);
      WingsHeld(Rest(points, body), m, body, stray);
      var k := search(body).kicker;
      assert forall i :: 0 <= i < |k| ==> k[i] in Wings(Rest(points, body), m, body, stray);
    }
  }

  /** A chain gives away ranks down to length five, each of them once. */
  lemma {:induction false} ChainWingsCount(chain: Hand, body: Hand, other: int, need: int)
    ensures var w := ChainWings(chain, body, other, need);
      && |w| == (if need <= 0 || chain.len <= 5 then 0 else if need < chain.len - 5 then need else chain.len - 5)
      && Distinct(w)
      && var low := chain.key < body.key || body.key + body.len <= other;
        w != [] ==> w[0] == if low then chain.key else chain.key + chain.len - 1
    decreases chain.len
  {
    if need > 0 && chain.len > 5 {
      var low, high := chain.(key := chain.key + 1, len := chain.len - 1), chain.(len := chain.len - 1);
      ChainWingsCount(low, body, other, need - 1);
      ChainWingsCount(high, body, other, need - 1);
      ChainWingsFacts(low, body, other, need - 1);
      ChainWingsFacts(high, body, other, need - 1);
      var w := ChainWings(chain, body, other, need);
      assert forall j :: 1 <= j < |w| ==> w[j] == w[1..][j - 1] && w[1..][j - 1] in w[1..];
    }
  }

  /** Chain `i` gives its ranks next, by the key of solo `i`, or of what lies where that would be. */
  lemma ChainReadsSolo(m: HandMap, i: nat, body: Hand, stray: nat -> int, need: int)
    requires i < |m.soloChain| && 0 < need
    ensures var other := if i < |m.solo| then m.solo[i].key else stray(i);
      ChainWings(m.soloChain[i], body, other, need) <= AllChainWings(m, i, body, stray, need)
  {
    hide ChainWings;
  }

  /** Solos off the body come first, in their order: if there are enough, nothing else is taken. */
  lemma WingsTakeSolosFirst(points: Counts, m: HandMap, body: Hand, stray: nat -> int)
    requires IsChain(body.ty) && 1 <= body.len && KickerAnswer(points, m, body, stray).Found?
    ensures var k, solos := KickerAnswer(points, m, body, stray).kicker, OutsideKeys(m.solo, body);
      if |solos| >= body.len then k == solos[..body.len] else solos <= k
  {
    hide OutsideKeys, AllChainWings, LowestHeld;
    var solos := OutsideKeys(m.solo, body);
    var w := Wings(points, m, body, stray);
    assert w[..|solos|] == solos;
    assert |solos| >= body.len ==> w[..body.len] == w[..|solos|][..body.len];
    assert |solos| < body.len ==> w[..body.len][..|solos|] == w[..|solos|];
  }

  // ----- when the kickers of a chain are all there

  /** Kickers of different ranks, none of them a rank of the body. */
  ghost predicate Solid(body: Hand, k: seq<int>) {
    Distinct(k) && forall x :: x in k ==> !InBody(body, x)
  }

  /** What is offered before the counts are scanned: solos, then what longer solo chains can spare. */
  function FirstWings(m: HandMap, body: Hand, stray: nat -> int): seq<int> {
    var solos := OutsideKeys(m.solo, body);
    solos + AllChainWings(m, 0, body, stray, body.len - |solos|)
  }

  /**
    The ranks scanned last are not compared with those found first: the kickers are solid iff the
    first ones are, and the lowest ranks that fill up avoid them and the body.
   */
  lemma SolidIff(points: Counts, m: HandMap, body: Hand, stray: nat -> int)
    requires IsChain(body.ty) && 1 <= body.len && KickerAnswer(points, m, body, stray).Found?
    ensures var first := FirstWings(m, body, stray);
      Solid(body, KickerAnswer(points, m, body, stray).kicker) <==>
        if |first| >= body.len then Solid(body, first[..body.len])
        else
          && Solid(body, first)
          && forall x :: x in LowestHeld(points, CARD_3, body.len - |first|) ==> x !in first && !InBody(body, x)
  {
    hide OutsideKeys, AllChainWings, LowestHeld, InBody;
    var first := FirstWings(m, body, stray);
    var low := LowestHeld(points, CARD_3, body.len - |first|);
    LowestHeldFacts(points, CARD_3, body.len - |first|);
    assert Wings(points, m, body, stray) == first + low;
    if |first| >= body.len {
      assert (first + low)[..body.len] == first[..body.len];
    } else {
      assert (first + low)[..body.len] == first + low;
      SolidConcat(body, first, low);
    }
  }

  lemma SolidConcat(body: Hand, first: seq<int>, low: seq<int>)
    requires Ascending(low)
    ensures Solid(body, first + low) <==>
      Solid(body, first) && forall x :: x in low ==> x !in first && !InBody(body, x)
  {
    hide InBody;
    var all := first + low;
    assert forall i :: 0 <= i < |low| ==> all[|first| + i] == low[i];
    assert forall i :: 0 <= i < |first| ==> all[i] == first[i];
    assert forall x :: x in all <==> x in first || x in low;
    if Solid(body, all) {
      FirstStaysDistinct(first, low);
    } else if Distinct(first) && forall x :: x in low ==> x !in first {
      forall i, j | 0 <= i < j < |all|
        ensures all[i] != all[j]
      {
        assert j >= |first| ==> all[j] in low;
        assert i < |first| ==> all[i] in first;
      }
    }
  }

  lemma FirstStaysDistinct(first: seq<int>, low: seq<int>)
    requires Distinct(first + low)
    ensures Distinct(first) && forall x :: x in low ==> x !in first
  {
    var all := first + low;
    forall i, j | 0 <= i < j < |first|
      ensures first[i] != first[j]
    {
      assert all[i] != all[j];
    }
    forall i, j | 0 <= i < |first| && 0 <= j < |low|
      ensures first[i] != low[j]
    {
      assert all[i] != all[|first| + j];
    }
  }

  lemma {:induction false} OutsideKeysSolid(solos: seq<Hand>, body: Hand)
    requires Ascending(Keys(solos))
    ensures Ascending(OutsideKeys(solos, body)) && Solid(body, OutsideKeys(solos, body))
    ensures forall x :: x in OutsideKeys(solos, body) ==> x in Keys(solos)
  {
    if solos != [] {
      var n := |solos| - 1;
      assert Keys(solos) == Keys(solos[..n]) + [solos[n].key];
      OutsideKeysSolid(solos[..n], body);
      var before := OutsideKeys(solos[..n], body);
      forall i | 0 <= i < |before|
        ensures before[i] < solos[n].key
      {
        assert before[i] in before;
        var j :| 0 <= j < n && Keys(solos[..n])[j] == before[i];
        assert Keys(solos)[j] < Keys(solos)[n];
      }
    }
  }

  predicate WingedChain(ty: HandType) {
    ty == TrioChainSolo || ty == TrioChainPair
  }

  /** Solid kickers beside the body of a chain are held with it, every card of them. */
  lemma SolidIsHeld(points: Counts, body: Hand, k: seq<int>, r: int)
    requires WingedChain(body.ty) && FitsAt(body, points, body.key) && NonNegative(points) && 0 <= r < RANKS
    requires RightKickers(body, Rest(points, body), k) && Solid(body, k)
    ensures At(body.(ty := TrioChainSolo, kicker := k), r) <= points[r]
  {
    DistinctOnce(k, r);
    if r in k {
      var i :| 0 <= i < |k| && k[i] == r;
      assert Rest(points, body)[k[i]] >= 1;
    } else if InBody(body, r) {
      FitsMeansHeld(body, points, r);
    }
  }

  lemma {:induction false} DistinctOnce(k: seq<int>, r: int)
    requires Distinct(k)
    ensures multiset(k)[r] == if r in k then 1 else 0
  {
    if r in k {
      var i :| 0 <= i < |k| && k[i] == r;
      assert k == k[..i] + [k[i]] + k[i + 1..];
      assert r !in k[..i] && r !in k[i + 1..];
    }
  }

  // ----- splits of cards that go together in no way

  /** Nothing held three times, no three pairs and no five ranks in a row, not both jokers. */
  ghost predicate Loose(c: Counts) {
    && (forall r :: 0 <= r < RANKS ==> 0 <= c[r] <= 2)
    && !HasNuke(c)
    && (forall s :: 0 <= s <= CARD_Q ==> !ThreePairs(c, s))
    && (forall s :: 0 <= s <= CARD_T ==> !FiveFrom(c, s))
  }

  lemma LooseChains(c: Counts)
    requires Loose(c)
    ensures TrioChains(c, CARD_3) == [] && Minus(c, []) == c
    ensures PairChains(c, CARD_3) == [] && AfterPairs(c, []) == c
    ensures BombHands(c) == [] && AfterBombs(c) == c
  {
    hide FiveFrom, ThreePairs, TrioChains, PairChains;
    if TrioChains(c, CARD_3) != [] {
      TrioChainNeedsThree(c);
    }
    if PairChains(c, CARD_3) != [] {
      PairChainNeedsThree(c);
    }
    AscendingUnique(RanksWith(AfterNuke(c), 4, CARD_3, CARD_2), []);
  }

  /** Loose cards are split into single ranks. */
  lemma LooseSplit(kind: int, c: Counts)
    requires 1 <= kind <= 3 && Legal(c) && Loose(c)
    ensures KindOf(kind, c, false).m == NormalMap(c, EMPTY)
  {
    hide Loose, Legal, SoloSplit, TrioChains, PairChains, BombHands, AfterBombs, Minus, AfterPairs, NormalMap;
    LooseChains(c);
    LooseIsNonNegative(c);
    NoFiveNoChain(c);
  }

  lemma LooseIsNonNegative(c: Counts)
    requires Loose(c)
    ensures NonNegative(c) && forall s :: 0 <= s <= CARD_T ==> !FiveFrom(c, s)
  {
  }

  /** A split without kickers ends by taking single ranks; no solo is found before that. */
  lemma EndsWithNormal(kind: int, c: Counts)
    requires 1 <= kind <= 3 && Legal(c)
    ensures exists s :: KindOf(kind, c, false) == NormalStage(s) && s.m.solo == []
  {
    hide SoloSplit, TrioChains, PairChains, BombHands, AfterBombs, Minus, AfterPairs, NormalMap, AfterNormal, Legal;
    StartSound(c);
    BombStageSound(Start(c), c);
    TrioChainStageSound(BombStage(Start(c)), c);
    var s :=
      if kind == 1 then PairChainStage(TrioChainStage(BombStage(SoloStage(Start(c)))))
      else if kind == 2 then PairChainStage(SoloStage(TrioChainStage(BombStage(Start(c)))))
      else TrioChainStage(PairChainStage(BombStage(SoloStage(Start(c)))));
    assert KindOf(kind, c, false) == NormalStage(s);
  }

  lemma SolosAscend(kind: int, c: Counts)
    requires 1 <= kind <= 3 && Legal(c)
    ensures Ascending(Keys(KindOf(kind, c, false).m.solo))
  {
    hide KindOf, Legal, NormalStage;
    EndsWithNormal(kind, c);
    var s :| KindOf(kind, c, false) == NormalStage(s) && s.m.solo == [];
    NormalSolosAscend(s);
  }

  lemma NormalSolosAscend(s: Split)
    requires s.m.solo == []
    ensures Ascending(Keys(NormalStage(s).m.solo))
  {
    hide AfterNuke;
    assert Keys(NormalStage(s).m.solo) == NormalRanks(s.left, 1);
  }

  /**
    Without a solo chain of six or more: the kickers are solid iff enough solos lie outside the body,
    or the lowest ranks left that fill up are neither among them nor in the body.
   */
  lemma SolidWithoutSpareIff(points: Counts, kind: int, body: Hand, stray: nat -> int)
    requires IsChain(body.ty) && 1 <= body.len && 1 <= kind <= 3 && Legal(points)
    requires var m := KindOf(kind, points, false).m;
      KickerAnswer(points, m, body, stray).Found? && forall i :: 0 <= i < |m.soloChain| ==> m.soloChain[i].len <= 5
    ensures var m := KindOf(kind, points, false).m;
      var solos := OutsideKeys(m.solo, body);
      Solid(body, KickerAnswer(points, m, body, stray).kicker) <==>
        || |solos| >= body.len
        || forall x :: x in LowestHeld(points, CARD_3, body.len - |solos|) ==> x !in solos && !InBody(body, x)
  {
    hide KindOf, KickerAnswer, InBody, LowestHeld, OutsideKeys, Legal;
    var m := KindOf(kind, points, false).m;
    var solos := OutsideKeys(m.solo, body);
    NothingSpare(m, 0, body, stray, body.len - |solos|);
    assert FirstWings(m, body, stray) == solos;
    SolidIff(points, m, body, stray);
    SolosAscend(kind, points);
    OutsideKeysSolid(m.solo, body);
    if |solos| >= body.len {
      assert solos == solos[..body.len] + solos[body.len..];
      assert forall x :: x in solos[..body.len] ==> x in solos;
    }
  }

  lemma {:induction false} NothingSpare(m: HandMap, i: nat, body: Hand, stray: nat -> int, need: int)
    requires i <= |m.soloChain| && forall j :: 0 <= j < |m.soloChain| ==> m.soloChain[j].len <= 5
    ensures AllChainWings(m, i, body, stray, need) == []
    decreases |m.soloChain| - i
  {
    hide KeyRead;
    if i < |m.soloChain| && need > 0 {
      NothingSpare(m, i + 1, body, stray, need);
    }
  }

  // ----- which answers can be printed

  /** Every answer can be printed, but for fours with two: their kickers are never set. */
  lemma AnswerPrintableIff(h: Hand, points: Counts, search: Hand -> KickerSearch)
    requires 0 <= h.key && (IsChain(h.ty) ==> 1 <= h.len) && RunsSearch(search, points)
    requires NextHigher(h, points, search).ty != Nothing
    ensures Printable(NextHigher(h, points, search)) <==> h.ty != FourDualSolo && h.ty != FourDualPair
  {
    hide Legal, RunsSearch, FirstFit;
    var k := FirstFit(h, points, h.key + 1);
    if NeedsKicker(h.ty) {
      assert FitsAt(BodyAt(h, k), points, k);
      KickersRight(points, search, BodyAt(h, k));
    }
  }

  /** The driver prints every answer it goes through: it stays in bounds iff it answers no four with two. */
  lemma {:induction false} IteratesPrintableIff(h: Hand, points: Counts, search: Hand -> KickerSearch, i: nat)
    requires 0 <= h.key && (IsChain(h.ty) ==> 1 <= h.len) && RunsSearch(search, points)
    requires i < |Iterates(h, points, search)|
    ensures Printable(Iterates(h, points, search)[i]) <==> h.ty != FourDualSolo && h.ty != FourDualPair
    decreases i
  {
    hide NextHigher, Legal, RunsSearch, Printable;
    var higher := NextHigher(h, points, search);
    assert Iterates(h, points, search) == [higher] + Iterates(higher, points, search);
    AnswerPrintableIff(h, points, search);
    AnswerKind(h, points, search);
    if i > 0 {
      IteratesPrintableIff(higher, points, search, i - 1);
    }
  }

  // ----- two answers to a chain with wings

  /** 333444 with the pairs 55 and 66 on the table; 444555 and the pairs 77 and 88 held. */
  const WINGED := Hand(TrioChainPair, 0, 2, [2, 3])
  const HOLDING: Counts := [0, 3, 3, 0, 2, 2, 0, 0, 0, 0, 0, 0, 0, 0, 0]

  const BETTER := Hand(TrioChainPair, 1, 2, [4, 5])

  lemma WingedLegal()
    ensures Legal(HOLDING) && WellFormed(WINGED) && WellFormed(BETTER)
  {
    SumUnrolled(HOLDING);
  }

  lemma BetterIsHeld(r: int)
    requires 0 <= r < RANKS
    ensures At(BETTER, r) <= HOLDING[r]
  {
    assert BETTER.kicker == [4] + [5];
    assert multiset(BETTER.kicker)[r] == if r == 4 || r == 5 then 1 else 0;
  }

  /** 444555 and one 3 held. */
  const ONE_LEFT: Counts := [1, 3, 3, 0, 0, 0, 0, 0, 0, 0, 0, 0, 0, 0, 0]

  /** The body of the answer to 333444 with wings. */
  const UPPER := Hand(TrioChainPair, 1, 2, [])

  /** What is offered beside 444555 from loose cards: the single ones, then the lowest ranks. */
  ghost predicate Offers(rest: Counts, solos: seq<int>, k: seq<int>) {
    && Loose(rest) && rest[1] != 1 && rest[2] != 1
    && Ascending(solos) && (forall r :: r in solos <==> 0 <= r <= RED_JOKER && rest[r] == 1)
    && k == solos + LowestHeld(rest, CARD_3, 2 - |solos|) && |k| == 2
  }

  lemma LooseAnswer(rest: Counts, kind: int, stray: nat -> int, solos: seq<int>, k: seq<int>)
    requires 1 <= kind <= 3 && Legal(rest) && Offers(rest, solos, k)
    ensures KickerAnswer(rest, KindOf(kind, rest, false).m, UPPER, stray) == Found(k)
  {
    hide Legal, Loose, KindOf, LowestHeld, NormalMap, OutsideKeys;
    LooseSplit(kind, rest);
    LooseSolos(rest, solos);
    assert solos + [] == solos;
    assert Wings(rest, NormalMap(rest, EMPTY), UPPER, stray) == k;
  }

  lemma OnlyAnswer(points: Counts, search: Hand -> KickerSearch, solos: seq<int>, k: seq<int>)
    requires RunsSearch(search, points) && FitsAt(WINGED, points, 1) && Offers(Rest(points, UPPER), solos, k)
    ensures NextHigher(WINGED, points, search) == Hand(TrioChainSolo, 1, 2, k)
  {
    hide Legal, KindOf, RunsSearch, Offers, KickerAnswer;
    var rest := Rest(points, UPPER);
    FirstFitIs(WINGED, points, 1, 1);
    RunsAsks(search, points, UPPER);
    RestLegal(points, UPPER);
    var kind: int, stray: nat -> int :|
      1 <= kind <= 3 && search(UPPER) == KickerAnswer(rest, KindOf(kind, rest, false).m, UPPER, stray);
    LooseAnswer(rest, kind, stray, solos, k);
  }

  lemma RunsAsks(search: Hand -> KickerSearch, points: Counts, body: Hand)
    requires RunsSearch(search, points) && NeedsKicker(body.ty) && FitsAt(body, points, body.key)
    ensures Legal(points) && Asks(search, points, body)
  {
  }

  lemma LooseSolos(rest: Counts, solos: seq<int>)
    requires Loose(rest) && Ascending(solos) && rest[1] != 1 && rest[2] != 1
    requires forall r :: r in solos <==> 0 <= r <= RED_JOKER && rest[r] == 1
    ensures NormalMap(rest, EMPTY).soloChain == [] && OutsideKeys(NormalMap(rest, EMPTY).solo, UPPER) == solos
  {
    AscendingUnique(NormalRanks(rest, 1), solos);
    AllOutside(NormalMap(rest, EMPTY).solo, UPPER);
    assert Keys(NormalMap(rest, EMPTY).solo) == solos;
  }

  lemma {:induction false} AllOutside(hands: seq<Hand>, body: Hand)
    requires forall i :: 0 <= i < |hands| ==> !InBody(body, hands[i].key)
    ensures OutsideKeys(hands, body) == Keys(hands)
  {
    if hands != [] {
      AllOutside(hands[..|hands| - 1], body);
    }
  }

  /** The one 3 is offered twice: an answer with a card that is not held. */
  lemma OneLeftOfferedTwice(search: Hand -> KickerSearch)
    requires RunsSearch(search, ONE_LEFT)
    ensures Legal(ONE_LEFT) && NextHigher(WINGED, ONE_LEFT, search) == Hand(TrioChainSolo, 1, 2, [0, 0])
    ensures At(NextHigher(WINGED, ONE_LEFT, search), 0) == 2 && ONE_LEFT[0] == 1
  {
    hide Legal, RunsSearch;
    hide NextHigher, Loose;
    OneLeftLegal();
    var rest := Rest(ONE_LEFT, UPPER);
    assert rest == [1, 0, 0, 0, 0, 0, 0, 0, 0, 0, 0, 0, 0, 0, 0];
    LowestIsThree(rest);
    OnlyAnswer(ONE_LEFT, search, [0], [0, 0]);
    assert multiset([0, 0])[0] == 2;
  }

  lemma LowestIsThree(rest: Counts)
    requires rest == [1, 0, 0, 0, 0, 0, 0, 0, 0, 0, 0, 0, 0, 0, 0]
    ensures LowestHeld(rest, 0, 1) == [0] && Loose(rest)
  {
    assert LowestHeld(rest, 1, 0) == [];
  }

  lemma OneLeftLegal()
    ensures Legal(ONE_LEFT)
  {
    SumUnrolled(ONE_LEFT);
  }

  /**
    A chain with pair wings is answered with solo wings, which do not beat it, although the hand with
    the pairs is held: to 333444 with 55 and 66 the answer is 444555 with a 7 and an 8.
   */
  lemma PairWingsAreNotBeaten(search: Hand -> KickerSearch)
    requires RunsSearch(search, HOLDING)
    ensures Legal(HOLDING) && WellFormed(WINGED) && WellFormed(BETTER)
    ensures NextHigher(WINGED, HOLDING, search) == Hand(TrioChainSolo, 1, 2, [4, 5])
    ensures !IsHandHigherThan(NextHigher(WINGED, HOLDING, search), WINGED)
    ensures IsHandHigherThan(BETTER, WINGED) && forall r :: 0 <= r < RANKS ==> At(BETTER, r) <= HOLDING[r]
  {
    hide NextHigher, At, Legal, WellFormed, RunsSearch;
    WingedLegal();
    hide Loose;
    var rest := Rest(HOLDING, UPPER);
    assert rest == [0, 0, 0, 0, 2, 2, 0, 0, 0, 0, 0, 0, 0, 0, 0];
    PairsAreLowest(rest);
    OnlyAnswer(HOLDING, search, [], [4, 5]);
    forall r | 0 <= r < RANKS { BetterIsHeld(r); }
  }

  lemma PairsAreLowest(rest: Counts)
    requires rest == [0, 0, 0, 0, 2, 2, 0, 0, 0, 0, 0, 0, 0, 0, 0]
    ensures LowestHeld(rest, 0, 2) == [4, 5] && Loose(rest)
  {
    assert LowestHeld(rest, 6, 0) == [];
    assert LowestHeld(rest, 5, 1) == [5];
    assert LowestHeld(rest, 4, 2) == [4, 5];
    assert LowestHeld(rest, 2, 2) == [4, 5];
  }

  /** Such a search exists, whatever is held. */
  lemma SearchExists(points: Counts)
    requires Legal(points)
    ensures exists search :: RunsSearch(search, points)
  {
    hide KindOf, KickerAnswer, FitsAt;
    var stray: nat -> int := i => 0;
    var search: Hand -> KickerSearch := body =>
      if Legal(Rest(points, body)) then
        KickerAnswer(Rest(points, body), KindOf(1, Rest(points, body), false).m, body, stray)
      else NoKicker;
    forall body: Hand | NeedsKicker(body.ty) && FitsAt(body, points, body.key)
      ensures Asks(search, points, body)
    {
      RestLegal(points, body);
      var rest, kind := Rest(points, body), 1;
      assert 1 <= kind <= 3 && search(body) == KickerAnswer(rest, KindOf(kind, rest, false).m, body, stray);
    }
    assert RunsSearch(search, points);
  }
}
