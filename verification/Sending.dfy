/**
  From a chosen hand to the cards that are sent, and the guard that checks them
  (the tail of `RbtOutGetTakeOutCard`).
 */
module Sending {
  import opened Cards
  import opened Hands
  import opened Printer
  import opened Classifier
  import opened HandMaps
  import opened Splitters
  import opened ShortChains
  import opened SoloChains
  import opened GameBook
  import opened TakeOut
  import opened HigherSearch
  import opened LevelZero

  /** The cards sent and the cards kept. */
  datatype Sent = Sent(out: seq<int>, kept: seq<int>)

  ghost function TakeHand(cards: seq<int>, hand: Hand): (s: Sent)
    requires ValidCards(cards) && Printable(hand)
    ensures ValidCards(s.out) && ValidCards(s.kept)
  {
    Sent(Taken(cards, Print(hand)), Kept(cards, Print(hand)))
  }

  /** What the server will take the cards for. */
  function Recognised(cards: seq<int>): Hand
    requires ValidCards(cards)
  {
    GetHand(CountsOf(cards))
  }

  /** Leading: an unrecognised choice is replaced by the lowest hand, without being taken back. */
  ghost function SendLead(cards: seq<int>, hand: Hand, m: HandMap): (s: Sent)
    requires ValidCards(cards) && Printable(hand) && Printable(LowestHand(m))
    ensures ValidCards(s.out) && ValidCards(s.kept)
  {
    var s := TakeHand(cards, hand);
    if Recognised(s.out).ty == Nothing then TakeHand(s.kept, LowestHand(m)) else s
  }

  /** Answering: a choice that is recognised but does not beat the table is taken back. */
  ghost function SendAnswer(cards: seq<int>, hand: Hand, cur: Hand): (s: Sent)
    requires ValidCards(cards) && Printable(hand)
    ensures ValidCards(s.out) && ValidCards(s.kept)
  {
    var s := TakeHand(cards, hand);
    if Recognised(s.out).ty != Nothing && !IsHandHigherThan(Recognised(s.out), cur) then Sent([], s.kept + s.out)
    else s
  }

  /** What may go out as an answer. */
  predicate Acceptable(out: seq<int>, cur: Hand)
    requires ValidCards(out)
  {
    out == [] || Recognised(out).ty == Nothing || IsHandHigherThan(Recognised(out), cur)
  }

  lemma TakeHandConserves(cards: seq<int>, hand: Hand)
    requires ValidCards(cards) && Printable(hand)
    ensures var s := TakeHand(cards, hand);
      && multiset(cards) == multiset(s.out) + multiset(s.kept)
      && Bucketable(CountsOf(s.out))
  {
    var s := TakeHand(cards, hand);
    TakenConserves(cards, Print(hand));
    PrintBounded(hand);
    CountsOfSum(cards);
    forall r | 0 <= r < RANKS
      ensures 0 <= CountsOf(s.out)[r] <= 4
    {
      TakenCounts(cards, Print(hand), r);
    }
  }

  /**
    Whatever hand a strategy picks, an answer conserves the cards - old hand = new hand + output -
    and is empty, or unrecognisable, or strictly beats the table.
   */
  lemma AnswerIsSafe(cards: seq<int>, hand: Hand, cur: Hand)
    requires ValidCards(cards) && Printable(hand)
    ensures var s := SendAnswer(cards, hand, cur);
      && multiset(cards) == multiset(s.kept) + multiset(s.out)
      && Acceptable(s.out, cur)
  {
    TakeHandConserves(cards, hand);
  }

  /** An answer comes to nothing iff it took no card, or is recognised and does not beat the table. */
  lemma NothingGoesOutIff(cards: seq<int>, hand: Hand, cur: Hand)
    requires ValidCards(cards) && Printable(hand)
    ensures var first, s := TakeHand(cards, hand).out, SendAnswer(cards, hand, cur);
      && (s.out == [] <==>
            first == [] || (Recognised(first).ty != Nothing && !IsHandHigherThan(Recognised(first), cur)))
      && (s.out != [] ==> s.out == first)
  {
  }

  /** A lead conserves the cards exactly when the first choice was recognised or took nothing. */
  lemma LeadConservesIff(cards: seq<int>, hand: Hand, m: HandMap)
    requires ValidCards(cards) && Printable(hand) && Printable(LowestHand(m))
    ensures var (first, s) := (TakeHand(cards, hand), SendLead(cards, hand, m));
      multiset(cards) == multiset(s.kept) + multiset(s.out)
      <==> Recognised(first.out).ty != Nothing || first.out == []
  {
    var first := TakeHand(cards, hand);
    TakeHandConserves(cards, hand);
    if Recognised(first.out).ty == Nothing {
      TakeHandConserves(first.kept, LowestHand(m));
      var s := SendLead(cards, hand, m);
      assert multiset(cards) == multiset(first.out) + (multiset(s.kept) + multiset(s.out));
      assert |multiset(first.out)| == |first.out|;
      if first.out != [] {
        assert |multiset(cards)| == |first.out| + |multiset(s.kept) + multiset(s.out)|;
      }
    }
  }

  // ----- recognition

  /**
    Every hand a splitter emits is recognised as itself - type, key, length and kickers - except a
    solo chain of four, and with at most 18 cards there is none.
   */
  lemma SplitHandsRecognised(kind: int, c: Counts, searchKicker: bool, h: Hand)
    requires 1 <= kind <= 5 && Legal(c) && In(h, KindOf(kind, c, searchKicker).m)
    ensures Printable(h)
    ensures GetHand(Print(h)) == h <==> !ChainOfFour(h)
    ensures Sum(c) <= 18 ==> !ChainOfFour(h)
  {
    SplitHandsShaped(kind, c, searchKicker, h);
    PrintIsAt(h);
    if ChainOfFour(h) {
      ShortSoloChainIsLost(h);
    } else {
      GetHandUndoesPrint(h);
    }
  }

  // ----- level 0

  /** A hand that can lie on the table: read by the classifier from cards of one deck. */
  ghost predicate OnTable(cur: Hand) {
    && 0 <= cur.key <= RED_JOKER
    && (cur.ty == Bomb ==> cur.key <= CARD_2)
    && (cur.ty == SoloChain ==> 5 <= cur.len)
  }

  lemma NukeOnTable(c: Counts)
    requires GetHand(c).ty == Nuke
    ensures GetHand(c).key == BLACK_JOKER
  {
  }

  /** Every recognised play is such a hand. */
  lemma PlayedIsOnTable(c: Counts)
    requires Legal(c) && GetHand(c).ty != Nothing
    ensures OnTable(GetHand(c))
  {
    hide GetHand, Sum, Bucket;
    if GetHand(c).ty == Nuke {
      NukeOnTable(c);
    } else {
      var s := GetHandReads(c);
      var body := s[BodyMult(GetHand(c).ty)];
      assert body[0] in body;
    }
  }

  ghost predicate Holds(cards: seq<int>, h: Hand)
    requires ValidCards(cards)
  {
    forall r :: 0 <= r < RANKS ==> At(h, r) <= CountsOf(cards)[r]
  }

  lemma PrintNotZero(h: Hand)
    requires Shaped(h)
    ensures Printable(h) && Print(h) != ZERO
  {
    PrintIsAt(h);
    assert 0 <= h.key < RANKS && InBody(h, h.key);
    assert Print(h)[h.key] > 0;
    assert ZERO[h.key] == 0;
  }

  /** Taking out a hand that is held in full takes exactly its cards. */
  lemma HeldHandIsTaken(cards: seq<int>, h: Hand)
    requires ValidCards(cards) && Shaped(h) && Holds(cards, h)
    ensures Printable(h)
    ensures CountsOf(TakeHand(cards, h).out) == Print(h)
    ensures TakeHand(cards, h).out != []
  {
    PrintIsAt(h);
    TakenExactly(cards, Print(h));
    PrintNotZero(h);
  }

  /** A well-formed hand that is held in full is recognised as itself. */
  lemma HeldHandIsSent(cards: seq<int>, h: Hand)
    requires ValidCards(cards) && WellFormed(h) && Holds(cards, h)
    ensures Printable(h) && TakeHand(cards, h).out != []
    ensures Recognised(TakeHand(cards, h).out) == h
  {
    HeldHandIsTaken(cards, h);
    GetHandUndoesPrint(h);
  }

  /** The cards held are the counts the split was made from. */
  ghost predicate Matches(cards: seq<int>, c: Counts) {
    ValidCards(cards) && Legal(c) && CountsOf(cards) == c
  }

  /** Every hand of the split is held in full, and is well formed or a chain of four. */
  lemma SplitHandHeld(cards: seq<int>, c: Counts, kind: int, h: Hand)
    requires Matches(cards, c) && 1 <= kind <= 5 && In(h, KindOf(kind, c, true).m)
    ensures Shaped(h) && Holds(cards, h)
    ensures WellFormed(h) || (h.ty == SoloChain && h.len == 4)
    ensures |cards| <= 18 ==> WellFormed(h)
  {
    CountsOfSum(cards);
    SplitHandsShaped(kind, c, true, h);
  }

  /** The level-0 answer is nothing at all, or a well-formed hand of the split, held in full. */
  lemma AnswerHeld(cards: seq<int>, c: Counts, kind: int, cur: Hand)
    requires Matches(cards, c) && 1 <= kind <= 5 && OnTable(cur)
    ensures var h := HigherHand(KindOf(kind, c, true).m, cur);
      h == NOTHING || (In(h, KindOf(kind, c, true).m) && WellFormed(h) && Holds(cards, h))
  {
    var m := KindOf(kind, c, true).m;
    KindFinished(kind, c, true);
    HigherHandFinds(m, cur, NOTHING);
    var h := HigherHand(m, cur);
    if h != NOTHING {
      SplitHandHeld(cards, c, kind, h);
      if h.ty == SoloChain {
        AnswerKeepsLength(m, cur);
      }
    }
  }

  /** A well-formed hand held in full gets past the guard exactly when it beats the table. */
  lemma GuardDecides(cards: seq<int>, h: Hand, cur: Hand)
    requires ValidCards(cards) && WellFormed(h) && Holds(cards, h)
    ensures Printable(h)
    ensures if IsHandHigherThan(h, cur)
      then SendAnswer(cards, h, cur).out != [] && Recognised(SendAnswer(cards, h, cur).out) == h
      else SendAnswer(cards, h, cur).out == []
  {
    HeldHandIsSent(cards, h);
  }

  lemma NothingIsSent(cards: seq<int>, cur: Hand)
    requires ValidCards(cards)
    ensures SendAnswer(cards, NOTHING, cur).out == []
  {
    AskingNothing(cards);
    assert Print(NOTHING) == ZERO;
  }

  /**
    Level 0, answering: the robot passes exactly when no hand of its split beats the table; else it
    sends a hand of the split, recognised as itself, that does.
   */
  lemma LevelZeroAnswers(cards: seq<int>, c: Counts, kind: int, cur: Hand, g: Hand)
    requires Matches(cards, c) && 1 <= kind <= 5 && OnTable(cur)
    ensures var m := KindOf(kind, c, true).m; var h := HigherHand(m, cur);
      && Printable(h)
      && (var s := SendAnswer(cards, h, cur);
          if s.out == [] then In(g, m) ==> !IsHandHigherThan(g, cur)
          else In(h, m) && WellFormed(h) && Recognised(s.out) == h && IsHandHigherThan(h, cur))
  {
    var m := KindOf(kind, c, true).m;
    var h := HigherHand(m, cur);
    KindFinished(kind, c, true);
    HigherHandFinds(m, cur, g);
    AnswerHeld(cards, c, kind, cur);
    if h == NOTHING {
      NothingIsSent(cards, cur);
    } else {
      GuardDecides(cards, h, cur);
    }
  }

  /** A chain is only answered with a chain of the same length, so never with one of four. */
  lemma AnswerKeepsLength(m: HandMap, cur: Hand)
    requires MapShaped(m) && OnTable(cur)
    requires HigherHand(m, cur).ty == SoloChain
    ensures HigherHand(m, cur).len >= 5
  {
    OfShaped(m, cur.ty);
    FirstHigherFacts(Of(m, cur.ty), cur, 0);
    var h := FirstHigher(Of(m, cur.ty), cur, 0);
    if h.ty != Nothing {
      var j :| 0 <= j < |Of(m, cur.ty)| && Of(m, cur.ty)[j] == h;
    }
  }

  /** A seat with cards always has a lead: well formed and held in full. */
  lemma LeadHeld(cards: seq<int>, c: Counts, kind: int)
    requires Matches(cards, c) && 1 <= kind <= 3 && 1 <= |cards|
    ensures var h := LowestHand(KindOf(kind, c, true).m);
      h != NOTHING && In(h, KindOf(kind, c, true).m) && WellFormed(h) && Holds(cards, h)
  {
    CountsOfSum(cards);
    SplitNotEmpty(kind, c, true);
    KindFinished(kind, c, true);
    LowestHandIsLowest(KindOf(kind, c, true).m);
    SplitHandHeld(cards, c, kind, LowestHand(KindOf(kind, c, true).m));
    NeverLedWithFour(kind, c);
  }

  /**
    Level 0, leading: whatever the seat holds, the lowest hand of its split is recognised as itself
    and sent at the first attempt.
   */
  lemma LevelZeroLeads(cards: seq<int>, c: Counts, kind: int)
    requires Matches(cards, c) && 1 <= kind <= 3 && 1 <= |cards|
    ensures var m := KindOf(kind, c, true).m; var h := LowestHand(m);
      && In(h, m) && Printable(h)
      && (var s := SendLead(cards, h, m);
          s == TakeHand(cards, h) && s.out != [] && Recognised(s.out) == h && WellFormed(h)
          && multiset(cards) == multiset(s.kept) + multiset(s.out))
  {
    var h := LowestHand(KindOf(kind, c, true).m);
    LeadHeld(cards, c, kind);
    HeldHandIsSent(cards, h);
    TakeHandConserves(cards, h);
  }

  /** What a level-0 robot sends: its lowest hand if it leads, else its first higher hand. */
  ghost function LevelZeroSends(cards: seq<int>, c: Counts, kind: int, free: bool, cur: Hand): (s: Sent)
    requires Matches(cards, c) && 1 <= kind <= 3 && OnTable(cur)
    ensures ValidCards(s.out) && ValidCards(s.kept)
  {
    var m := KindOf(kind, c, true).m;
    ChoicesPrintable(cards, c, kind, cur);
    if free then SendLead(cards, LowestHand(m), m) else SendAnswer(cards, HigherHand(m, cur), cur)
  }

  lemma ChoicesPrintable(cards: seq<int>, c: Counts, kind: int, cur: Hand)
    requires Matches(cards, c) && OnTable(cur) && 1 <= kind <= 3
    ensures Printable(LowestHand(KindOf(kind, c, true).m)) && Printable(HigherHand(KindOf(kind, c, true).m, cur))
  {
    var m := KindOf(kind, c, true).m;
    KindFinished(kind, c, true);
    LowestHandIsLowest(m);
    if LowestHand(m) != NOTHING {
      SplitHandsShaped(kind, c, true, LowestHand(m));
      PrintIsAt(LowestHand(m));
    }
    LevelZeroAnswers(cards, c, kind, cur, NOTHING);
  }

  /** A level-0 answer: a hand of the split that beats the table, or a justified pass. */
  ghost predicate GoodAnswer(out: seq<int>, m: HandMap, cur: Hand)
    requires ValidCards(out)
  {
    if out == [] then forall g :: In(g, m) ==> !IsHandHigherThan(g, cur)
    else WellFormed(Recognised(out)) && In(Recognised(out), m) && IsHandHigherThan(Recognised(out), cur)
  }

  /** A level-0 lead: the lowest among the first hands of all kinds of the split, recognised as itself. */
  ghost predicate GoodLead(out: seq<int>, m: HandMap)
    requires ValidCards(out)
  {
    out != [] && WellFormed(Recognised(out)) && Recognised(out) == LowestHand(m)
  }

  lemma AnswerIsGood(cards: seq<int>, c: Counts, kind: int, cur: Hand)
    requires Matches(cards, c) && OnTable(cur) && 1 <= kind <= 3
    ensures Printable(HigherHand(KindOf(kind, c, true).m, cur))
    ensures var m := KindOf(kind, c, true).m;
      GoodAnswer(SendAnswer(cards, HigherHand(m, cur), cur).out, m, cur)
  {
    var m := KindOf(kind, c, true).m;
    LevelZeroAnswers(cards, c, kind, cur, NOTHING);
    var out := SendAnswer(cards, HigherHand(m, cur), cur).out;
    forall g | out == [] && In(g, m)
      ensures !IsHandHigherThan(g, cur)
    {
      LevelZeroAnswers(cards, c, kind, cur, g);
    }
  }

  lemma LeadIsGood(cards: seq<int>, c: Counts, kind: int)
    requires Matches(cards, c) && 1 <= kind <= 3 && 1 <= |cards|
    ensures Printable(LowestHand(KindOf(kind, c, true).m))
    ensures var s := SendLead(cards, LowestHand(KindOf(kind, c, true).m), KindOf(kind, c, true).m);
      GoodLead(s.out, KindOf(kind, c, true).m) && multiset(cards) == multiset(s.kept) + multiset(s.out)
  {
    LeadHeld(cards, c, kind);
    LevelZeroLeads(cards, c, kind);
  }

  /**
    Level-0 play end to end: what goes out is justified by the split and made of cards that are
    held - old cards = cards kept + cards sent.
   */
  lemma LevelZeroIsSound(cards: seq<int>, c: Counts, kind: int, free: bool, cur: Hand)
    requires Matches(cards, c) && 1 <= kind <= 3 && OnTable(cur)
    requires free ==> 1 <= |cards|
    ensures var s := LevelZeroSends(cards, c, kind, free, cur); var m := KindOf(kind, c, true).m;
      && multiset(cards) == multiset(s.kept) + multiset(s.out)
      && (if free then GoodLead(s.out, m) else GoodAnswer(s.out, m, cur))
  {
    hide KindOf, Printable, LowestHand, HigherHand, SendLead, SendAnswer, GoodAnswer, GoodLead;
    ChoicesPrintable(cards, c, kind, cur);
    if free {
      LeadIsGood(cards, c, kind);
    } else {
      AnswerIsGood(cards, c, kind, cur);
      AnswerIsSafe(cards, HigherHand(KindOf(kind, c, true).m, cur), cur);
    }
  }

  lemma NothingToLead(hand: Hand, m: HandMap)
    requires Printable(hand) && Printable(LowestHand(m))
    ensures SendLead([], hand, m) == Sent([], [])
  {
  }

  /** Level 0 conserves the cards whether it leads or answers, also with no card left. */
  lemma LevelZeroConserves(cards: seq<int>, c: Counts, kind: int, free: bool, cur: Hand)
    requires Matches(cards, c) && 1 <= kind <= 3 && OnTable(cur)
    ensures var s := LevelZeroSends(cards, c, kind, free, cur);
      multiset(cards) == multiset(s.kept) + multiset(s.out)
  {
    hide KindOf, Printable, LowestHand, HigherHand, SendLead, SendAnswer, GoodAnswer, GoodLead;
    if free && cards == [] {
      ChoicesPrintable(cards, c, kind, cur);
      NothingToLead(LowestHand(KindOf(kind, c, true).m), KindOf(kind, c, true).m);
    } else {
      LevelZeroIsSound(cards, c, kind, free, cur);
    }
  }

  // ----- answers from the search through counts

  /** A plain hand in kind that fits legal counts is a hand of the game. */
  lemma BodyWellFormed(cur: Hand, points: Counts, k: int)
    requires Legal(points) && WellFormed(cur) && Plain(cur.ty) && FitsAt(cur, points, k)
    ensures WellFormed(BodyAt(cur, k))
  {
    hide Sum;
  }

  /** What the driver finds for a plain hand on the table goes out, recognised as itself. */
  lemma SearchedAnswerIsSent(cards: seq<int>, cur: Hand, search: Hand -> KickerSearch, g: Hand)
    requires ValidCards(cards) && Legal(CountsOf(cards)) && WellFormed(cur) && Plain(cur.ty)
    requires g in Iterates(cur, CountsOf(cards), search)
    ensures WellFormed(g) && Holds(cards, g) && IsHandHigherThan(g, cur) && Printable(g)
    ensures SendAnswer(cards, g, cur).out != [] && Recognised(SendAnswer(cards, g, cur).out) == g
  {
    hide Recognised, CountsOf, Iterates, SendAnswer;
    IteratesEnumerate(cur, CountsOf(cards), search, g);
    IteratesBeat(cur, CountsOf(cards), search, g);
    BodyWellFormed(cur, CountsOf(cards), g.key);
    GuardDecides(cards, g, cur);
  }

  // ----- a lead that loses cards

  /** 3..A of one suit, and 3..6 and Q..A of another. */
  const NINETEEN_CARDS := FirstCards(12) + [13, 14, 15, 16] + [22, 23, 24]

  lemma FourMore()
    ensures ValidCards([13, 14, 15, 16])
    ensures CountsOf([13, 14, 15, 16]) == [1, 1, 1, 1, 0, 0, 0, 0, 0, 0, 0, 0, 0, 0, 0]
  {
    var s := [13, 14, 15, 16];
    assert s[..3] == [13, 14, 15] && s[..3][..2] == [13, 14] && s[..3][..2][..1] == [13];
    CountsOfOne(13);
    assert CountsOf([13, 14]) == [1, 1, 0, 0, 0, 0, 0, 0, 0, 0, 0, 0, 0, 0, 0];
    assert CountsOf([13, 14, 15]) == [1, 1, 1, 0, 0, 0, 0, 0, 0, 0, 0, 0, 0, 0, 0];
  }

  lemma ThreeMore()
    ensures ValidCards([22, 23, 24])
    ensures CountsOf([22, 23, 24]) == [0, 0, 0, 0, 0, 0, 0, 0, 0, 1, 1, 1, 0, 0, 0]
  {
    var s := [22, 23, 24];
    assert s[..2] == [22, 23] && s[..2][..1] == [22];
    CountsOfOne(22);
    assert CountsOf([22, 23]) == [0, 0, 0, 0, 0, 0, 0, 0, 0, 1, 1, 0, 0, 0, 0];
  }

  lemma NineteenCardsCount()
    ensures ValidCards(NINETEEN_CARDS) && CountsOf(NINETEEN_CARDS) == NINETEEN
  {
    hide CountsOf;
    FourMore();
    ThreeMore();
    FirstCardsCount(12, 0);
    CountsOfConcat(FirstCards(12), [13, 14, 15, 16]);
    CountsOfConcat(FirstCards(12) + [13, 14, 15, 16], [22, 23, 24]);
    forall r | 0 <= r < RANKS
      ensures CountsOf(NINETEEN_CARDS)[r] == NINETEEN[r]
    {
      FirstCardsCount(12, r);
      assert CountsOf(FirstCards(12))[r] == if r <= CARD_A then 1 else 0;
    }
    EqualAtAllRanks(CountsOf(NINETEEN_CARDS), NINETEEN);
  }

  /** Whatever is led in its place, a chain of four that is chosen and held is lost. */
  lemma FourIsLost(cards: seq<int>, m: HandMap)
    requires ValidCards(cards) && Holds(cards, FOUR) && Printable(LowestHand(m))
    ensures Printable(FOUR)
    ensures var s := SendLead(cards, FOUR, m); multiset(cards) != multiset(s.kept) + multiset(s.out)
  {
    HeldHandIsTaken(cards, FOUR);
    ShortSoloChainIsLost(FOUR);
    LeadConservesIff(cards, FOUR, m);
  }

  /**
    Counter-example to conservation: with these nineteen cards every split holds the chain of four;
    a strategy that leads with it loses its cards.
   */
  lemma LeadLosesCards(kind: int)
    requires 1 <= kind <= 3
    ensures ValidCards(NINETEEN_CARDS) && Legal(CountsOf(NINETEEN_CARDS))
    ensures var m := KindOf(kind, CountsOf(NINETEEN_CARDS), true).m;
      && In(FOUR, m) && Printable(FOUR) && Printable(LowestHand(m))
      && (var s := SendLead(NINETEEN_CARDS, FOUR, m);
          multiset(NINETEEN_CARDS) != multiset(s.kept) + multiset(s.out))
  {
    hide KindOf, LowestHand, CountsOf, SendLead, Printable;
    NineteenCardsCount();
    NineteenCardsFail(kind, true);
    var m := KindOf(kind, NINETEEN, true).m;
    ChoicesPrintable(NINETEEN_CARDS, NINETEEN, kind, NOTHING);
    FourIsHeld(NINETEEN_CARDS);
    FourIsLost(NINETEEN_CARDS, m);
  }

  lemma FourIsHeld(cards: seq<int>)
    requires ValidCards(cards) && CountsOf(cards) == NINETEEN
    ensures Holds(cards, FOUR)
  {
    forall r | 0 <= r < RANKS
      ensures At(FOUR, r) <= NINETEEN[r]
    {
      ChainAt(FOUR, r);
    }
  }
}
