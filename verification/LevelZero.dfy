/**
  How a level-0 robot picks a hand of its split: the lowest hand to lead with (`findLowestHand`),
  the first hand that beats the table to answer with (`findHigherHand`).
 */
module LevelZero {
  import opened Cards
  import opened Hands
  import opened HandMaps

  // ----- leading

  /** Whether the first hand of a later type replaces the best one so far. */
  predicate Replaces(first: Hand, best: Hand) {
    best.ty == Bomb || first.key < best.key
    || (first.key == best.key && GetHandCount(first) > GetHandCount(best))
  }

  /** The choice after looking at the first `n` lists. */
  function LowestUpTo(lists: seq<seq<Hand>>, n: nat): Hand
    requires n <= |lists|
  {
    if n == 0 then NOTHING
    else
      var best := LowestUpTo(lists, n - 1);
      if lists[n - 1] == [] then best
      else if best.ty == Nothing || Replaces(lists[n - 1][0], best) then lists[n - 1][0]
      else best
  }

  function LowestHand(m: HandMap): Hand {
    LowestUpTo(InOrder(m), |InOrder(m)|)
  }

  method FindLowestHand(m: HandMap) returns (hand: Hand)
    ensures hand == LowestHand(m)
  {
    hand := NOTHING;
    var lists := InOrder(m);
    for n := 0 to |lists|
      invariant hand == LowestUpTo(lists, n)
    {
      var hands := lists[n];
      if hands != [] {
        if hand.ty == Nothing {
          hand := hands[0];
        } else if hand.ty == Bomb || hands[0].key < hand.key
            || (hands[0].key == hand.key && GetHandCount(hands[0]) > GetHandCount(hand)) {
          hand := hands[0];
        }
      }
    }
  }

  /** Real hands in every list, and bombs only in the last. */
  ghost predicate BombsLast(lists: seq<seq<Hand>>) {
    && (forall i :: 0 <= i < |lists| && lists[i] != [] ==> lists[i][0].ty != Nothing)
    && (forall i :: 0 <= i < |lists| - 1 && lists[i] != [] ==> lists[i][0].ty != Bomb)
  }

  /** `h` goes before `g`: lower key, or the same key and no fewer cards. */
  predicate NoHigher(h: Hand, g: Hand) {
    h.key < g.key || (h.key == g.key && GetHandCount(g) <= GetHandCount(h))
  }

  lemma {:induction false} LowestUpToFacts(lists: seq<seq<Hand>>, n: nat)
    requires n <= |lists| && BombsLast(lists)
    ensures var best := LowestUpTo(lists, n);
      if best.ty == Nothing then best == NOTHING && forall i :: 0 <= i < n ==> lists[i] == []
      else
        && (exists i :: 0 <= i < n && lists[i] != [] && best == lists[i][0])
        && (forall i :: 0 <= i < n && lists[i] != [] ==> NoHigher(best, lists[i][0]))
  {
    if n > 0 {
      LowestUpToFacts(lists, n - 1);
    }
  }

  lemma InOrderBombsLast(m: HandMap)
    requires MapShaped(m)
    ensures BombsLast(InOrder(m))
  {
  }

  lemma InOrderComplete(m: HandMap, i: nat)
    requires i < |InOrder(m)| && InOrder(m)[i] != []
    ensures In(InOrder(m)[i][0], m)
  {
    var ty := [TrioChainPair, TrioChainSolo, TrioChain, PairChain, SoloChain, TrioPair, TrioSolo,
               Trio, Pair, Solo, Bomb][i];
    assert InOrder(m)[i][0] in Of(m, ty);
  }

  lemma EmptyMap(m: HandMap)
    ensures (forall i :: 0 <= i < |InOrder(m)| ==> InOrder(m)[i] == []) <==> m == EMPTY
  {
    var s := InOrder(m);
    assert |s| == 11;
    if forall i :: 0 <= i < |s| ==> s[i] == [] {
      assert s[0] == [] && s[1] == [] && s[2] == [] && s[3] == [] && s[4] == [] && s[5] == [];
      assert s[6] == [] && s[7] == [] && s[8] == [] && s[9] == [] && s[10] == [];
    }
  }

  /**
    A lead exists iff the split is not empty; it is the first hand of some type, of the lowest key
    among the first hands of all types, and of the most cards among those with that key.
   */
  lemma LowestHandIsLowest(m: HandMap)
    requires MapShaped(m)
    ensures LowestHand(m) == NOTHING <==> m == EMPTY
    ensures LowestHand(m) != NOTHING ==> In(LowestHand(m), m)
    ensures LowestHand(m) != NOTHING ==>
      forall i :: 0 <= i < |InOrder(m)| && InOrder(m)[i] != [] ==> NoHigher(LowestHand(m), InOrder(m)[i][0])
  {
    var lists := InOrder(m);
    InOrderBombsLast(m);
    LowestUpToFacts(lists, |lists|);
    EmptyMap(m);
    var best := LowestHand(m);
    if best.ty != Nothing {
      var i :| 0 <= i < |lists| && lists[i] != [] && best == lists[i][0];
      InOrderComplete(m, i);
    }
  }

  /** List `i` is the first of those whose first hand no other first hand goes before. */
  ghost predicate IsFirstLowest(lists: seq<seq<Hand>>, n: nat, i: int)
    requires n <= |lists|
  {
    && 0 <= i < n && lists[i] != []
    && (forall j :: 0 <= j < i && lists[j] != [] ==> !NoHigher(lists[j][0], lists[i][0]))
    && (forall j :: i < j < n && lists[j] != [] ==> NoHigher(lists[i][0], lists[j][0]))
  }

  lemma {:induction false} LowestUpToFirst(lists: seq<seq<Hand>>, n: nat)
    requires n <= |lists| && BombsLast(lists)
    ensures LowestUpTo(lists, n).ty != Nothing ==>
      exists i :: IsFirstLowest(lists, n, i) && LowestUpTo(lists, n) == lists[i][0]
  {
    if n > 0 {
      LowestUpToFirst(lists, n - 1);
      LowestUpToFacts(lists, n - 1);
      var best := LowestUpTo(lists, n - 1);
      if best.ty == Nothing || (lists[n - 1] != [] && Replaces(lists[n - 1][0], best)) {
        assert LowestUpTo(lists, n).ty != Nothing ==> IsFirstLowest(lists, n, n - 1);
      } else {
        var i :| IsFirstLowest(lists, n - 1, i) && best == lists[i][0];
        assert IsFirstLowest(lists, n, i);
      }
    }
  }

  /** The lead is the first hand of the first list that none goes before: ties go to the kind listed earlier. */
  lemma LeadIsFirstLowest(m: HandMap)
    requires MapShaped(m) && m != EMPTY
    ensures exists i :: IsFirstLowest(InOrder(m), 11, i) && LowestHand(m) == InOrder(m)[i][0]
  {
    InOrderBombsLast(m);
    LowestHandIsLowest(m);
    LowestUpToFirst(InOrder(m), 11);
    LowestUpToFacts(InOrder(m), 11);
  }

  lemma {:induction false} NothingUpTo(lists: seq<seq<Hand>>, n: nat)
    requires n <= |lists| && forall i :: 0 <= i < n ==> lists[i] == []
    ensures LowestUpTo(lists, n) == NOTHING
  {
    if n > 0 {
      NothingUpTo(lists, n - 1);
    }
  }

  /** With nothing but bombs the first one is led. */
  lemma FirstBombIsLed(bombs: seq<Hand>)
    requires bombs != []
    ensures LowestHand(EMPTY.(bomb := bombs)) == bombs[0]
  {
    var lists := InOrder(EMPTY.(bomb := bombs));
    NothingUpTo(lists, 10);
    assert lists[10] == bombs;
  }

  /** The lead has the lowest key of the whole split iff the first hand of some list is as low as any hand. */
  lemma LeadIsLowestIff(m: HandMap)
    requires MapShaped(m) && m != EMPTY
    ensures (forall h :: In(h, m) ==> LowestHand(m).key <= h.key)
      <==> forall h :: In(h, m) ==>
        exists i :: 0 <= i < |InOrder(m)| && InOrder(m)[i] != [] && InOrder(m)[i][0].key <= h.key
  {
    var lists, lead := InOrder(m), LowestHand(m);
    LowestHandIsLowest(m);
    InOrderBombsLast(m);
    LowestUpToFacts(lists, |lists|);
    var k :| 0 <= k < |lists| && lists[k] != [] && lead == lists[k][0];
  }

  // ----- answering

  predicate SameKindHigher(h: Hand, cur: Hand) {
    h.key > cur.key && (IsChain(cur.ty) ==> h.len == cur.len)
  }

  /** The first hand of the list, from index `i` on, that has a higher key and the same length. */
  function FirstHigher(hands: seq<Hand>, cur: Hand, i: nat): (h: Hand)
    requires i <= |hands|
    decreases |hands| - i
  {
    if i == |hands| then NOTHING
    else if SameKindHigher(hands[i], cur) then hands[i]
    else FirstHigher(hands, cur, i + 1)
  }

  function HigherHand(m: HandMap, cur: Hand): Hand {
    var same := FirstHigher(Of(m, cur.ty), cur, 0);
    if same.ty == Nothing && m.bomb != [] then m.bomb[0] else same
  }

  method FindHigherHandNotBomb(m: HandMap, cur: Hand) returns (hand: Hand)
    ensures hand == FirstHigher(Of(m, cur.ty), cur, 0)
  {
    var hands := Of(m, cur.ty);
    for i := 0 to |hands|
      invariant FirstHigher(hands, cur, i) == FirstHigher(hands, cur, 0)
    {
      if IsChain(cur.ty) {
        if hands[i].key > cur.key && hands[i].len == cur.len {
          return hands[i];
        }
      } else if hands[i].key > cur.key {
        return hands[i];
      }
    }
    hand := NOTHING;
  }

  method FindHigherHand(m: HandMap, cur: Hand) returns (hand: Hand)
    ensures hand == HigherHand(m, cur)
  {
    hand := FindHigherHandNotBomb(m, cur);
    if hand.ty == Nothing && (cur.ty != Bomb || cur.ty != Nuke) {
      if m.bomb != [] {
        hand := m.bomb[0];
      }
    }
  }

  lemma {:induction false} FirstHigherFacts(hands: seq<Hand>, cur: Hand, i: nat)
    requires i <= |hands| && forall j :: 0 <= j < |hands| ==> hands[j].ty != Nothing
    ensures var h := FirstHigher(hands, cur, i);
      if h.ty == Nothing then h == NOTHING && forall j :: i <= j < |hands| ==> !SameKindHigher(hands[j], cur)
      else h in hands && SameKindHigher(h, cur)
    decreases |hands| - i
  {
    if i < |hands| {
      FirstHigherFacts(hands, cur, i + 1);
    }
  }

  lemma OfShaped(m: HandMap, ty: HandType)
    requires MapShaped(m)
    ensures forall j :: 0 <= j < |Of(m, ty)| ==> Of(m, ty)[j].ty != Nothing
    ensures ty != Bomb ==> forall j :: 0 <= j < |Of(m, ty)| ==> Of(m, ty)[j].ty == ty
  {
  }

  lemma BombFile(m: HandMap, h: Hand)
    requires MapShaped(m) && In(h, m)
    ensures h.ty == Bomb || h.ty == Nuke ==> h in m.bomb
    ensures h.ty != Bomb && h.ty != Nuke ==> h in Of(m, h.ty)
    ensures h.ty == Nuke ==> h.key == BLACK_JOKER
    ensures h.ty == Bomb ==> h.key <= CARD_2
  {
    var ty :| h in Of(m, ty);
    var i :| 0 <= i < |Of(m, ty)| && Of(m, ty)[i] == h;
  }

  /** The answer is a hand of the split, and it beats the table whenever any hand of it does. */
  lemma HigherHandFinds(m: HandMap, cur: Hand, g: Hand)
    requires MapShaped(m) && cur.key <= RED_JOKER && (cur.ty == Bomb ==> cur.key <= CARD_2)
    ensures HigherHand(m, cur) == NOTHING || In(HigherHand(m, cur), m)
    ensures In(g, m) && IsHandHigherThan(g, cur) ==> IsHandHigherThan(HigherHand(m, cur), cur)
  {
    OfShaped(m, cur.ty);
    FirstHigherFacts(Of(m, cur.ty), cur, 0);
    if m.bomb != [] {
      assert m.bomb[0] in Of(m, Bomb);
    }
    if In(g, m) && IsHandHigherThan(g, cur) {
      BombFile(m, g);
      AnswerBeats(m, cur, g);
    }
  }

  lemma AnswerBeats(m: HandMap, cur: Hand, g: Hand)
    requires MapShaped(m) && (cur.ty == Bomb ==> cur.key <= CARD_2)
    requires IsHandHigherThan(g, cur)
    requires if g.ty == Bomb || g.ty == Nuke then g in m.bomb else g in Of(m, g.ty)
    requires g.ty == Nuke ==> g.key == BLACK_JOKER
    ensures IsHandHigherThan(HigherHand(m, cur), cur)
  {
    var hands := Of(m, cur.ty);
    OfShaped(m, cur.ty);
    FirstHigherFacts(hands, cur, 0);
    if cur.ty == Bomb || g.ty == cur.ty {
      var j :| 0 <= j < |hands| && hands[j] == g;
      assert SameKindHigher(hands[j], cur);
    } else {
      assert m.bomb != [];
      assert m.bomb[0].ty == Bomb || m.bomb[0].ty == Nuke;
    }
  }

  /** Index `i` holds the first hand from `from` on that has a higher key and the same length. */
  ghost predicate IsFirstHigher(hands: seq<Hand>, cur: Hand, from: nat, i: int) {
    && from <= i < |hands| && SameKindHigher(hands[i], cur)
    && forall k :: from <= k < i ==> !SameKindHigher(hands[k], cur)
  }

  /** Bombs are kept back: the first hand of the kind asked for that is higher is the answer. */
  lemma AnswersInKindFirst(m: HandMap, cur: Hand, j: nat)
    requires MapShaped(m) && j < |Of(m, cur.ty)| && SameKindHigher(Of(m, cur.ty)[j], cur)
    ensures exists i :: IsFirstHigher(Of(m, cur.ty), cur, 0, i) && HigherHand(m, cur) == Of(m, cur.ty)[i]
  {
    OfShaped(m, cur.ty);
    FirstHigherIs(Of(m, cur.ty), cur, 0, j);
  }

  /** Without one the first bomb of the split is spent, the nuke if there is one; without bombs nothing is. */
  lemma ElseFirstBomb(m: HandMap, cur: Hand)
    requires MapShaped(m) && forall j :: 0 <= j < |Of(m, cur.ty)| ==> !SameKindHigher(Of(m, cur.ty)[j], cur)
    ensures HigherHand(m, cur) == if m.bomb != [] then m.bomb[0] else NOTHING
  {
    OfShaped(m, cur.ty);
    FirstHigherFacts(Of(m, cur.ty), cur, 0);
  }

  lemma {:induction false} FirstHigherIs(hands: seq<Hand>, cur: Hand, from: nat, j: nat)
    requires from <= j < |hands| && SameKindHigher(hands[j], cur)
    ensures exists i :: IsFirstHigher(hands, cur, from, i) && FirstHigher(hands, cur, from) == hands[i]
    decreases |hands| - from
  {
    if SameKindHigher(hands[from], cur) {
      assert IsFirstHigher(hands, cur, from, from);
    } else {
      FirstHigherIs(hands, cur, from + 1, j);
      var i :| IsFirstHigher(hands, cur, from + 1, i) && FirstHigher(hands, cur, from + 1) == hands[i];
      assert IsFirstHigher(hands, cur, from, i);
    }
  }
}
