/**
  The robot player as a stateful object (`OGLordRobotAI`).

  Counts and card lists are fields the methods reassign.  Level 0 is modelled in full; at other
  levels the hand a strategy picks, and the split it leaves behind, are parameters.
 */
module RobotAI {
  import opened Cards
  import opened Hands
  import opened Printer
  import opened Classifier
  import opened HandMaps
  import Control
  import opened Splitters
  import opened TakeOut
  import opened GameBook
  import opened LevelZero
  import opened Sending

  datatype Position = Lord | UpFarmer | DownFarmer

  // ----- whose lead it is, told from the plays alone

  /** Play `i` is the last one that was recognised. */
  ghost predicate LastRecognised(history: seq<(int, Hand)>, i: int) {
    && 0 <= i < |history| && history[i].1.ty != Nothing
    && forall j :: i < j < |history| ==> history[j].1.ty == Nothing
  }

  ghost predicate NoneRecognised(history: seq<(int, Hand)>) {
    forall j :: 0 <= j < |history| ==> history[j].1.ty == Nothing
  }

  /** The seat whose play was the last one recognised has the lead; before the first the lord has it. */
  ghost predicate HasLead(history: seq<(int, Hand)>, seat: int, lordSeat: int) {
    || (exists i :: LastRecognised(history, i) && history[i].0 == seat)
    || (NoneRecognised(history) && seat == lordSeat)
  }

  /** Seat and hand of the last recognised play, or neither. */
  ghost predicate OnTop(history: seq<(int, Hand)>, seat: int, hand: Hand) {
    || (exists i :: LastRecognised(history, i) && history[i] == (seat, hand) && IsSeat(seat))
    || (NoneRecognised(history) && seat == -1 && hand == NOTHING)
  }

  lemma OnTopAfter(history: seq<(int, Hand)>, seat: int, hand: Hand, play: (int, Hand))
    requires OnTop(history, seat, hand) && IsSeat(play.0)
    ensures if play.1.ty == Nothing then OnTop(history + [play], seat, hand)
      else OnTop(history + [play], play.0, play.1)
  {
    var all := history + [play];
    if play.1.ty != Nothing {
      assert LastRecognised(all, |history|);
    } else if i :| LastRecognised(history, i) && history[i] == (seat, hand) {
      assert LastRecognised(all, i);
    }
  }

  lemma LeadIsOnTop(history: seq<(int, Hand)>, seat: int, hand: Hand, aiSeat: int, lordSeat: int)
    requires OnTop(history, seat, hand) && IsSeat(aiSeat)
    ensures HasLead(history, aiSeat, lordSeat) <==> seat == aiSeat || (seat == -1 && aiSeat == lordSeat)
  {
    if i :| LastRecognised(history, i) && history[i] == (seat, hand) {
      assert forall k :: LastRecognised(history, k) ==> k == i;
    }
  }

  class OGLordRobotAI {
    var level: int
    var aiSeat: int
    var lordSeat: int
    var aiPosition: Position
    var aiCardsVec: seq<int>
    var vecLastTakeOutCards: seq<int>
    var players: seq<Counts>
    var totals: seq<int>
    var remainPoints: Counts
    var otherPoints: Counts
    var handsMap: HandMap
    var curHand: Hand
    var curHandSeat: int
    var downSeat: int
    var upSeat: int
    var leftoverCards: seq<int>
    var lowestControl: int
    var controlNum: int
    var mustHighLevel: bool
    var maxOppNumber: int
    var minOppNumber: int
    var curCaller: int
    var curScore: int
    var callHistory: seq<(int, int)>
    var history: seq<(int, Hand)>

    constructor (argLevel: int)
      ensures level == argLevel && aiSeat == -1 && lordSeat == -1 && curHandSeat == -1
      ensures curHand == NOTHING && aiCardsVec == [] && vecLastTakeOutCards == []
      ensures ValidBook(TheBook())
    {
      level, aiSeat, lordSeat, curHandSeat := argLevel, -1, -1, -1;
      aiPosition := Lord;
      curHand := NOTHING;
      aiCardsVec, vecLastTakeOutCards := [], [];
      players, totals := [UNKNOWN, UNKNOWN, UNKNOWN], [0, 0, 0];
      remainPoints, otherPoints := FULL, FULL;
      handsMap := EMPTY;
      downSeat, upSeat, leftoverCards := -1, -1, [];
      lowestControl, controlNum, mustHighLevel := CARD_2, 0, false;
      curCaller, curScore := -1, 0;
      callHistory, history := [], [];
      maxOppNumber, minOppNumber := 0, 0;
    }

    function TheBook(): Book
      reads `players, `totals, `remainPoints, `otherPoints
    {
      Book(players, totals, remainPoints, otherPoints)
    }

    /** The cards have been dealt. */
    ghost predicate Valid()
      reads this
    {
      && ValidBook(TheBook()) && IsSeat(aiSeat) && -1 <= curHandSeat && -1 <= lordSeat < SEATS
      && ValidCards(aiCardsVec) && ValidCards(vecLastTakeOutCards)
    }

    /** The lord is set, and what lies on the table is the last recognised play. */
    ghost predicate Playing()
      reads this
    {
      && Valid() && IsSeat(lordSeat) && (aiPosition == Lord <==> lordSeat == aiSeat)
      && OnTop(history, curHandSeat, curHand)
    }

    /** The robot may lead: the last recognised play was its own, or there was none and it is the lord. */
    predicate IsFree()
      reads this
      ensures Playing() ==> (IsFree() <==> HasLead(history, aiSeat, lordSeat))
    {
      assert Playing() ==> (HasLead(history, aiSeat, lordSeat) <==>
        curHandSeat == aiSeat || (curHandSeat == -1 && aiSeat == lordSeat)) by {
        if Playing() {
          LeadIsOnTop(history, curHandSeat, curHand, aiSeat, lordSeat);
        }
      }
      (aiPosition == Lord && curHandSeat == -1) || curHandSeat == aiSeat
    }

    // ----- notifications

    /** The deal: own cards become known, the two other seats unknown, nothing lies on the table. */
    method RbtInInitCard(argSeat: int, argHandCard: seq<int>, secondWins: bool, thirdWins: bool)
      requires IsSeat(argSeat) && ValidCards(argHandCard) && ValidCards(vecLastTakeOutCards)
      requires Legal(CountsOf(argHandCard))
      modifies this
      ensures Valid() && level == old(level) && aiSeat == argSeat && lordSeat == -1
      ensures aiCardsVec == argHandCard && vecLastTakeOutCards == old(vecLastTakeOutCards)
      ensures TheBook() == Dealt(argSeat, argHandCard)
      ensures curHand == NOTHING && curHandSeat == -1
      ensures curCaller == -1 && curScore == 0 && callHistory == [] && history == [] && !mustHighLevel
      ensures lowestControl == CARD_2
      ensures controlNum == Control.CalControl(CountsOf(argHandCard), Less(FULL, CountsOf(argHandCard)), CARD_2)
      ensures handsMap ==
        KindOf(if thirdWins then 3 else if secondWins then 2 else 1, CountsOf(argHandCard), true).m
    {
      hide KindOf, CountsOf, Legal, Control.CalControl, Dealt, Less;
      SitDown(argSeat, argHandCard);
      NoteDeal(argHandCard);
      ClearTable();
      SortHandMap(secondWins, thirdWins);
      RateControl();
    }

    method SitDown(argSeat: int, argHandCard: seq<int>)
      modifies `aiSeat, `lordSeat, `aiCardsVec
      ensures aiSeat == argSeat && lordSeat == -1 && aiCardsVec == argHandCard
    {
      aiSeat, lordSeat := argSeat, -1;
      aiCardsVec := argHandCard;
    }

    method RateControl()
      requires IsSeat(aiSeat) && |players| == SEATS && 0 <= lowestControl <= RED_JOKER
      modifies `controlNum, `mustHighLevel
      ensures controlNum == Control.CalControl(players[aiSeat], otherPoints, lowestControl) && !mustHighLevel
    {
      controlNum := Control.ComputeControl(players[aiSeat], otherPoints, lowestControl);
      mustHighLevel := false;
    }

    /** Nothing called, nothing played, and the two is the lowest control. */
    method ClearTable()
      modifies `lowestControl, `curCaller, `curScore, `curHand, `curHandSeat, `callHistory, `history
      ensures lowestControl == CARD_2 && curCaller == -1 && curScore == 0
      ensures curHand == NOTHING && curHandSeat == -1 && callHistory == [] && history == []
    {
      lowestControl := CARD_2;
      curCaller, curScore := -1, 0;
      curHand, curHandSeat := NOTHING, -1;
      callHistory, history := [], [];
    }

    /** Seventeen cards a seat; only the own ones are known; the whole deck is in play. */
    method NoteDeal(argHandCard: seq<int>)
      requires IsSeat(aiSeat) && ValidCards(argHandCard)
      modifies `players, `totals, `remainPoints, `otherPoints
      ensures TheBook() == Dealt(aiSeat, argHandCard) && players[aiSeat] == CountsOf(argHandCard)
      ensures otherPoints == Less(FULL, CountsOf(argHandCard))
    {
      var own := new int[RANKS];
      CardVecToPointArr(argHandCard, own);
      var counts := own[..];
      players, totals := [], [];
      for i := 0 to SEATS
        invariant |players| == i && |totals| == i
        invariant forall j :: 0 <= j < i ==>
          players[j] == (if j == aiSeat then CountsOf(argHandCard) else UNKNOWN) && totals[j] == 17
      {
        players := players + [if i == aiSeat then counts else UNKNOWN];
        totals := totals + [17];
      }
      remainPoints := FULL;
      otherPoints := Less(FULL, players[aiSeat]);
    }

    /** The lord is set and takes the three base cards. */
    method RbtInSetLord(argLordSeat: int, argReceiveCard: seq<int>)
      requires Valid() && IsSeat(argLordSeat) && ValidCards(argReceiveCard) && |argReceiveCard| == 3
      modifies this
      ensures Valid() && lordSeat == argLordSeat && aiSeat == old(aiSeat) && level == old(level)
      ensures TheBook() == LordSet(old(TheBook()), aiSeat, argLordSeat, argReceiveCard)
      ensures aiCardsVec == if argLordSeat == aiSeat then old(aiCardsVec) + argReceiveCard else old(aiCardsVec)
      ensures vecLastTakeOutCards == old(vecLastTakeOutCards)
      ensures curHand == old(curHand) && curHandSeat == old(curHandSeat)
      ensures aiPosition == Lord <==> lordSeat == aiSeat
      ensures aiPosition == DownFarmer <==> aiSeat == (lordSeat + 1) % SEATS
      ensures downSeat == (lordSeat + 1) % SEATS && upSeat == (lordSeat + 2) % SEATS
      ensures leftoverCards == argReceiveCard
      ensures forall seat :: IsSeat(seat) ==> totals[seat] == if seat == argLordSeat then 20 else old(totals[seat])
      ensures history == old(history) && (old(OnTop(history, curHandSeat, curHand)) ==> Playing())
    {
      hide CountsOf, Plus, OnTop;
      SetSeats(argLordSeat, argReceiveCard);
      TakeBaseCards();
    }

    /** The seats relative to the lord, and the cards left over. */
    method SetSeats(argLordSeat: int, argReceiveCard: seq<int>)
      requires IsSeat(aiSeat) && IsSeat(argLordSeat)
      modifies `lordSeat, `downSeat, `upSeat, `aiPosition, `leftoverCards
      ensures lordSeat == argLordSeat && leftoverCards == argReceiveCard
      ensures downSeat == (lordSeat + 1) % SEATS && upSeat == (lordSeat + 2) % SEATS
      ensures aiPosition == Lord <==> lordSeat == aiSeat
      ensures aiPosition == DownFarmer <==> aiSeat == (lordSeat + 1) % SEATS
    {
      lordSeat := argLordSeat;
      downSeat := (lordSeat + 1) % SEATS;
      upSeat := (lordSeat + 2) % SEATS;
      UpdateAiPosition();
      leftoverCards := argReceiveCard;
    }

    /** The lord takes the cards left over. */
    method TakeBaseCards()
      requires Valid() && IsSeat(lordSeat) && ValidCards(leftoverCards)
      modifies `totals, `aiCardsVec, `players
      ensures Valid() && TheBook() == LordSet(old(TheBook()), aiSeat, lordSeat, leftoverCards)
      ensures aiCardsVec == if lordSeat == aiSeat then old(aiCardsVec) + leftoverCards else old(aiCardsVec)
    {
      hide CountsOf, Plus;
      totals := totals[lordSeat := 20];
      if lordSeat == aiSeat {
        aiCardsVec := aiCardsVec + leftoverCards;
      }
      if lordSeat == aiSeat || players[lordSeat][CARD_3] >= 0 {
        players := players[lordSeat := Plus(players[lordSeat], CountsOf(leftoverCards))];
      }
    }

    method UpdateAiPosition()
      requires IsSeat(aiSeat) && IsSeat(lordSeat)
      modifies `aiPosition
      ensures aiPosition == Lord <==> lordSeat == aiSeat
      ensures aiPosition == DownFarmer <==> aiSeat == (lordSeat + 1) % SEATS
    {
      if lordSeat == aiSeat {
        aiPosition := Lord;
      } else {
        var diff := aiSeat - lordSeat;
        aiPosition := if diff == 1 || diff == -2 then DownFarmer else UpFarmer;
      }
    }

    /** A seat has played: the counts go down, and a recognised play becomes the hand to beat. */
    method RbtInTakeOutCard(argSeat: int, argCards: seq<int>)
      requires Valid() && IsSeat(argSeat) && ValidCards(argCards) && Bucketable(CountsOf(argCards))
      modifies `players, `totals, `remainPoints, `otherPoints, `curHand, `curHandSeat, `history
      ensures Valid()
      ensures history == old(history) + [(argSeat, if argCards == [] then NOTHING else Recognised(argCards))]
      ensures TheBook() == Played(old(TheBook()), aiSeat, argSeat, argCards)
      ensures var hand := Recognised(argCards);
        if argCards == [] || hand.ty == Nothing then curHand == old(curHand) && curHandSeat == old(curHandSeat)
        else curHand == hand && curHandSeat == argSeat
      ensures forall seat :: IsSeat(seat) ==>
        totals[seat] == old(totals[seat]) - if seat == argSeat then |argCards| else 0
      ensures forall r :: 0 <= r < RANKS ==>
        && remainPoints[r] == old(remainPoints[r]) - CountsOf(argCards)[r]
        && otherPoints[r] == old(otherPoints[r]) - if argSeat == aiSeat then 0 else CountsOf(argCards)[r]
      ensures old(Playing()) ==> Playing()
    {
      hide Recognised, CountsOf, OnTop;
      ghost var top := OnTop(history, curHandSeat, curHand);
      var hand := NOTHING;
      if |argCards| == 0 {
        PlayedNothing(TheBook(), aiSeat, argSeat);
      } else {
        hand := CountPlay(argSeat, argCards);
      }
      if top {
        OnTopAfter(history, curHandSeat, curHand, (argSeat, hand));
      }
      history := history + [(argSeat, hand)];
      if hand.ty != Nothing {
        curHand, curHandSeat := hand, argSeat;
      }
    }

    method CountPlay(seat: int, cards: seq<int>) returns (hand: Hand)
      requires Valid() && IsSeat(seat) && ValidCards(cards) && Bucketable(CountsOf(cards))
      modifies `players, `totals, `remainPoints, `otherPoints
      ensures Valid() && TheBook() == Played(old(TheBook()), aiSeat, seat, cards)
      ensures hand == Recognised(cards)
    {
      hide GetHand, CountsOf;
      var points := new int[RANKS];
      CardVecToPointArr(cards, points);
      totals := totals[seat := totals[seat] - |cards|];
      SubtractPlay(seat, points);
      hand := ComputeHand(points);
    }

    /** The rank loop: subtract a play from the counts of everyone it concerns. */
    method SubtractPlay(seat: int, points: array<int>)
      requires points.Length == RANKS && IsSeat(seat) && IsSeat(aiSeat) && |players| == SEATS
      modifies `remainPoints, `otherPoints, `players
      ensures remainPoints == Less(old(remainPoints), points[..])
      ensures otherPoints == if seat != aiSeat then Less(old(otherPoints), points[..]) else old(otherPoints)
      ensures players == old(players)[seat := Debited(seat == aiSeat, old(players)[seat], points[..])]
    {
      ghost var all := Debited(seat == aiSeat, players[seat], points[..]);
      var cards := players[seat];
      for i := 0 to RANKS
        invariant players == old(players)
        invariant forall r :: 0 <= r < RANKS ==>
          && remainPoints[r] == old(remainPoints)[r] - (if r < i then points[r] else 0)
          && otherPoints[r] == old(otherPoints)[r] - (if r < i && seat != aiSeat then points[r] else 0)
          && cards[r] == if r < i then all[r] else players[seat][r]
      {
        remainPoints := remainPoints[i := remainPoints[i] - points[i]];
        if seat != aiSeat {
          otherPoints := otherPoints[i := otherPoints[i] - points[i]];
        }
        if seat == aiSeat || cards[CARD_3] >= 0 {
          cards := cards[i := cards[i] - points[i]];
        }
      }
      assert cards == all;
      players := players[seat := cards];
      assert remainPoints == Less(old(remainPoints), points[..]);
      assert otherPoints == if seat != aiSeat then Less(old(otherPoints), points[..]) else old(otherPoints);
    }

    // ----- choosing and sending

    /** The seats a robot plays against: both others before the lord is set or as the lord, else the lord. */
    ghost predicate Opposes(seat: int)
      reads `aiSeat, `lordSeat
    {
      IsSeat(seat) && seat != aiSeat && (lordSeat == -1 || lordSeat == aiSeat || seat == lordSeat)
    }

    /** The most and the fewest cards of an opponent, of seats with 0 to 20 cards. */
    method CountOpponents()
      requires IsSeat(aiSeat) && |totals| == SEATS && -1 <= lordSeat < SEATS
      modifies `maxOppNumber, `minOppNumber
      ensures forall i :: Opposes(i) ==> minOppNumber <= totals[i] <= maxOppNumber
      ensures (forall i :: Opposes(i) ==> 0 <= totals[i] <= 20) ==>
        && (exists i :: Opposes(i) && totals[i] == maxOppNumber)
        && (exists i :: Opposes(i) && totals[i] == minOppNumber)
    {
      maxOppNumber, minOppNumber := 0, 20;
      if lordSeat == -1 || lordSeat == aiSeat {
        for i := 0 to SEATS
          invariant forall j :: 0 <= j < i && j != aiSeat ==> minOppNumber <= totals[j] <= maxOppNumber
          invariant maxOppNumber == 0 || exists j :: 0 <= j < i && j != aiSeat && totals[j] == maxOppNumber
          invariant minOppNumber == 20 || exists j :: 0 <= j < i && j != aiSeat && totals[j] == minOppNumber
        {
          if i != aiSeat {
            if totals[i] > maxOppNumber {
              maxOppNumber := totals[i];
            }
            if totals[i] < minOppNumber {
              minOppNumber := totals[i];
            }
          }
        }
        ghost var other := if aiSeat == 0 then 1 else 0;
        assert Opposes(other);
      } else {
        maxOppNumber := totals[lordSeat];
        minOppNumber := maxOppNumber;
        assert Opposes(lordSeat);
      }
    }

    /** Split the own counts; which of the three splits scores best is left to the flags. */
    method SortHandMap(secondWins: bool, thirdWins: bool)
      requires IsSeat(aiSeat) && |players| == SEATS && |totals| == SEATS && -1 <= lordSeat < SEATS
      requires Legal(players[aiSeat])
      modifies `handsMap, `maxOppNumber, `minOppNumber
      ensures handsMap == KindOf(if thirdWins then 3 else if secondWins then 2 else 1, players[aiSeat], true).m
      ensures forall i :: Opposes(i) ==> minOppNumber <= totals[i] <= maxOppNumber
    {
      hide KindOf, Legal;
      CountOpponents();
      handsMap := SortHandsWithBestKind(players[aiSeat], true, secondWins, thirdWins);
    }

    method TakeOutLvl0(secondWins: bool, thirdWins: bool) returns (hand: Hand)
      requires Valid() && Legal(players[aiSeat])
      modifies `handsMap, `maxOppNumber, `minOppNumber
      ensures handsMap == KindOf(if thirdWins then 3 else if secondWins then 2 else 1, players[aiSeat], true).m
      ensures hand == if IsFree() then LowestHand(handsMap) else HigherHand(handsMap, curHand)
      ensures Playing() ==>
        hand == if HasLead(history, aiSeat, lordSeat) then LowestHand(handsMap) else HigherHand(handsMap, curHand)
    {
      SortHandMap(secondWins, thirdWins);
      if curHandSeat == aiSeat || (aiPosition == Lord && curHandSeat < 0) {
        hand := FindLowestHand(handsMap);
      } else {
        hand := FindHigherHand(handsMap, curHand);
      }
    }

    /** What is left in play sets the lowest control rank and the own controls. */
    method RateTable()
      requires IsSeat(aiSeat) && |players| == SEATS
      modifies `lowestControl, `controlNum
      ensures Control.Rates(remainPoints, players[aiSeat], otherPoints, lowestControl, controlNum)
    {
      lowestControl := Control.GetLowestControl(remainPoints);
      controlNum := Control.ComputeControl(players[aiSeat], otherPoints, lowestControl);
    }

    method TakeOutHand(hand: Hand) returns (takeOutCards: seq<int>)
      requires ValidCards(aiCardsVec) && Printable(hand)
      modifies `aiCardsVec, `vecLastTakeOutCards
      ensures Sent(takeOutCards, aiCardsVec) == TakeHand(old(aiCardsVec), hand)
      ensures vecLastTakeOutCards == takeOutCards
    {
      var points := new int[RANKS];
      HandToPointsArray(hand, points);
      var rest;
      takeOutCards, rest := TakeCards(aiCardsVec, points);
      vecLastTakeOutCards, aiCardsVec := takeOutCards, rest;
    }

    method RecoveryHandCards()
      modifies `aiCardsVec
      ensures aiCardsVec == old(aiCardsVec) + vecLastTakeOutCards
    {
      for i := 0 to |vecLastTakeOutCards|
        invariant aiCardsVec == old(aiCardsVec) + vecLastTakeOutCards[..i]
      {
        aiCardsVec := aiCardsVec + [vecLastTakeOutCards[i]];
      }
    }

    method RemoveExtraCards(vecCurrentCards: seq<int>)
      modifies `aiCardsVec
      ensures aiCardsVec == RemoveAll(old(aiCardsVec), vecCurrentCards)
      ensures multiset(aiCardsVec) == multiset(old(aiCardsVec)) - multiset(vecCurrentCards)
    {
      RemoveAllCards(aiCardsVec, vecCurrentCards);
      aiCardsVec := RemoveCards(aiCardsVec, vecCurrentCards);
    }

    method IsLastTakeOutCards(vecCurrentCards: seq<int>) returns (same: bool)
      ensures same <==> SameCards(vecLastTakeOutCards, vecCurrentCards)
    {
      same := IsSameCardsInfo(vecLastTakeOutCards, vecCurrentCards);
    }

    method Classified(cards: seq<int>) returns (hand: Hand)
      requires ValidCards(cards) && Bucketable(CountsOf(cards))
      ensures hand == Recognised(cards)
    {
      var points := new int[RANKS];
      CardVecToPointArr(cards, points);
      hand := ComputeHand(points);
    }

    /** From a chosen hand to the cards that go out, with the guard that checks them. */
    method SendHand(hand: Hand) returns (vecCards: seq<int>)
      requires Valid() && Printable(hand) && Printable(LowestHand(handsMap))
      modifies `aiCardsVec, `vecLastTakeOutCards
      ensures Valid() && vecLastTakeOutCards == vecCards
      ensures Sent(vecCards, aiCardsVec) ==
        if IsFree() then SendLead(old(aiCardsVec), hand, handsMap) else SendAnswer(old(aiCardsVec), hand, curHand)
      ensures old(Playing()) ==> Playing() && (IsFree() <==> HasLead(history, aiSeat, lordSeat))
    {
      hide GetHand, CountsOf, LowestHand, Printable, IsHandHigherThan;
      TakeHandConserves(aiCardsVec, hand);
      vecCards := TakeOutHand(hand);
      var checkHand := Classified(vecCards);
      if IsFree() {
        if checkHand.ty == Nothing {
          var lowest := FindLowestHand(handsMap);
          vecCards := TakeOutHand(lowest);
        }
      } else if checkHand.ty != Nothing && !IsHandHigherThan(checkHand, curHand) {
        vecCards := TakeBack();
      }
    }

    /** Take the cards just put out back in, and put out none. */
    method TakeBack() returns (vecCards: seq<int>)
      requires ValidCards(aiCardsVec) && ValidCards(vecLastTakeOutCards)
      modifies `aiCardsVec, `vecLastTakeOutCards
      ensures vecCards == [] && vecLastTakeOutCards == []
      ensures aiCardsVec == old(aiCardsVec) + old(vecLastTakeOutCards)
    {
      RecoveryHandCards();
      AskingNothing(aiCardsVec);
      assert Print(NOTHING) == ZERO;
      vecCards := TakeOutHand(NOTHING);
    }

    /**
      The robot's turn.  `choice` and `choiceMap` are what a strategy of another level came up with.

      Answering, at every level: cards are conserved, and what goes out is nothing, or not
      recognisable, or beats the table.  At level 0, with counts that match the cards held, the
      answer is a pass exactly when no hand of the split beats the table; and the lead is the
      lowest among the first hands of all kinds whenever a card is held.
     */
    method RbtOutGetTakeOutCard(choice: Hand, choiceMap: HandMap, secondWins: bool, thirdWins: bool)
      returns (vecCards: seq<int>)
      requires Valid() && Printable(choice) && Printable(LowestHand(choiceMap))
      requires level == 0 ==> Matches(aiCardsVec, players[aiSeat]) && OnTable(curHand)
      modifies `aiCardsVec, `vecLastTakeOutCards, `handsMap
      modifies `lowestControl, `controlNum, `maxOppNumber, `minOppNumber
      ensures Control.Rates(remainPoints, players[aiSeat], otherPoints, lowestControl, controlNum)
      ensures Valid() && ValidCards(vecCards) && vecLastTakeOutCards == vecCards
      ensures level == 0 || !IsFree() ==>
        multiset(old(aiCardsVec)) == multiset(aiCardsVec) + multiset(vecCards)
      ensures level != 0 && !IsFree() ==> Acceptable(vecCards, curHand)
      ensures level != 0 ==> handsMap == choiceMap
      ensures level != 0 && IsFree() ==> Sent(vecCards, aiCardsVec) == SendLead(old(aiCardsVec), choice, choiceMap)
      ensures level != 0 && !IsFree() ==> Sent(vecCards, aiCardsVec) == SendAnswer(old(aiCardsVec), choice, curHand)
      ensures level == 0 ==>
        handsMap == KindOf(if thirdWins then 3 else if secondWins then 2 else 1, players[aiSeat], true).m
      ensures level == 0 && !IsFree() ==> GoodAnswer(vecCards, handsMap, curHand)
      ensures level == 0 && IsFree() && 1 <= |old(aiCardsVec)| ==> GoodLead(vecCards, handsMap)
      ensures old(Playing()) ==> Playing() && (IsFree() <==> HasLead(history, aiSeat, lordSeat))
      ensures old(Playing()) && level == 0 ==>
        if HasLead(history, aiSeat, lordSeat) then old(aiCardsVec) != [] ==> GoodLead(vecCards, handsMap)
        else GoodAnswer(vecCards, handsMap, curHand)
    {
      hide KindOf, Printable, LowestHand, HigherHand, SendLead, SendAnswer, GoodAnswer, GoodLead;
      hide Control.Rates, Legal, CountsOf, Acceptable;
      RateTable();
      if level == 0 {
        vecCards := TurnLevelZero(secondWins, thirdWins);
      } else {
        vecCards := PlayChoice(choice, choiceMap);
      }
    }

    /** The choice of another level goes out; an answer is checked. */
    method PlayChoice(choice: Hand, choiceMap: HandMap) returns (vecCards: seq<int>)
      requires Valid() && Printable(choice) && Printable(LowestHand(choiceMap))
      modifies `aiCardsVec, `vecLastTakeOutCards, `handsMap
      ensures Valid() && ValidCards(vecCards) && vecLastTakeOutCards == vecCards && handsMap == choiceMap
      ensures IsFree() ==> Sent(vecCards, aiCardsVec) == SendLead(old(aiCardsVec), choice, choiceMap)
      ensures !IsFree() ==>
        && Sent(vecCards, aiCardsVec) == SendAnswer(old(aiCardsVec), choice, curHand)
        && multiset(old(aiCardsVec)) == multiset(aiCardsVec) + multiset(vecCards) && Acceptable(vecCards, curHand)
    {
      hide Printable, LowestHand, SendLead, SendAnswer;
      AnswerIsSafe(aiCardsVec, choice, curHand);
      handsMap := choiceMap;
      vecCards := SendHand(choice);
    }

    /** A turn at level 0: what goes out conserves the cards and is a good lead, answer or pass. */
    method TurnLevelZero(secondWins: bool, thirdWins: bool) returns (vecCards: seq<int>)
      requires Valid() && Matches(aiCardsVec, players[aiSeat]) && OnTable(curHand)
      modifies `aiCardsVec, `vecLastTakeOutCards, `handsMap, `maxOppNumber, `minOppNumber
      ensures Valid() && ValidCards(vecCards) && vecLastTakeOutCards == vecCards
      ensures multiset(old(aiCardsVec)) == multiset(aiCardsVec) + multiset(vecCards)
      ensures handsMap == KindOf(if thirdWins then 3 else if secondWins then 2 else 1, players[aiSeat], true).m
      ensures if IsFree() then 1 <= |old(aiCardsVec)| ==> GoodLead(vecCards, handsMap)
        else GoodAnswer(vecCards, handsMap, curHand)
    {
      hide KindOf, GoodAnswer, GoodLead, CountsOf, Legal, LevelZeroSends;
      ghost var cards, c := aiCardsVec, players[aiSeat];
      ghost var kind := if thirdWins then 3 else if secondWins then 2 else 1;
      if !IsFree() || 1 <= |cards| {
        LevelZeroIsSound(cards, c, kind, IsFree(), curHand);
      }
      LevelZeroConserves(cards, c, kind, IsFree(), curHand);
      vecCards := PlayLevelZero(secondWins, thirdWins);
    }

    /** What the level-0 turn of `cards` is specified to put out and to keep, for the split of that kind. */
    ghost predicate SentLevelZero(cards: seq<int>, kind: int, out: seq<int>)
      requires Valid()
      reads this
    {
      && Matches(cards, players[aiSeat]) && OnTable(curHand) && 1 <= kind <= 3
      && handsMap == KindOf(kind, players[aiSeat], true).m
      && Sent(out, aiCardsVec) == LevelZeroSends(cards, players[aiSeat], kind, IsFree(), curHand)
    }

    method PlayLevelZero(secondWins: bool, thirdWins: bool) returns (vecCards: seq<int>)
      requires Valid() && Matches(aiCardsVec, players[aiSeat]) && OnTable(curHand)
      modifies `aiCardsVec, `vecLastTakeOutCards, `handsMap, `maxOppNumber, `minOppNumber
      ensures Valid() && vecLastTakeOutCards == vecCards
      ensures SentLevelZero(old(aiCardsVec), if thirdWins then 3 else if secondWins then 2 else 1, vecCards)
    {
      hide KindOf, Printable, LowestHand, HigherHand, SendLead, SendAnswer, CountsOf, Legal;
      ChoicesPrintable(aiCardsVec, players[aiSeat], if thirdWins then 3 else if secondWins then 2 else 1, curHand);
      var hand := TakeOutLvl0(secondWins, thirdWins);
      vecCards := SendHand(hand);
    }
  }

  /** Playing no cards changes nothing in the book. */
  lemma PlayedNothing(b: Book, aiSeat: int, seat: int)
    requires ValidBook(b) && IsSeat(aiSeat) && IsSeat(seat)
    ensures Played(b, aiSeat, seat, []) == b
  {
    assert Less(b.remain, ZERO) == b.remain;
    assert Less(b.other, ZERO) == b.other;
    assert Debited(seat == aiSeat, b.players[seat], ZERO) == b.players[seat];
  }
}
