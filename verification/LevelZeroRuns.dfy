/**
  Keeping the cards held and the counts noted in step over a whole game (`SendTakeOutCardReq`,
  `RecvTakeOutCardAck`, `RecvGetTrustNotify`, `RecvGetTakeOutCardNotify`).
 */
module LevelZeroRuns {
  import opened Cards
  import opened Classifier
  import opened Hands
  import opened Splitters
  import opened Sending
  import opened HandMaps
  import opened LevelZero
  import opened Printer
  import opened Options
  import opened Lists
  import opened TakeOut
  import opened GameBook
  import Control
  import opened RobotAI

  /** The cards held, the cards last sent, and the own counts noted from notifications. */
  datatype Held = Held(cards: seq<int>, last: seq<int>, own: Counts)

  ghost function HeldBy(robot: OGLordRobotAI): Held
    requires robot.Valid()
    reads robot
  {
    Held(robot.aiCardsVec, robot.vecLastTakeOutCards, robot.players[robot.aiSeat])
  }

  ghost predicate Synced(h: Held) {
    ValidCards(h.cards) && CountsOf(h.cards) == h.own
  }

  /** A request moves cards from the cards held to the cards last sent. */
  function Requested(h: Held, kept: seq<int>, out: seq<int>): Held {
    Held(kept, out, h.own)
  }

  /** A failure signal puts the cards last sent back; the record of them stays. */
  function Failed(h: Held): Held {
    h.(cards := h.cards + h.last)
  }

  /** An own play is noted; if it is not what was sent last, it is also taken from the cards held. */
  ghost function OwnPlayed(h: Held, cards: seq<int>): Held
    requires ValidCards(cards)
  {
    Held(if SameCards(h.last, cards) then h.cards else RemoveAll(h.cards, cards), h.last, Less(h.own, CountsOf(cards)))
  }

  // ----- the state between messages

  /** Nothing is asked of the server: the counts noted are those of the cards held. */
  ghost predicate InStep(robot: OGLordRobotAI)
    reads robot
  {
    robot.Valid() && Matches(robot.aiCardsVec, robot.players[robot.aiSeat]) && OnTable(robot.curHand)
  }

  /** A request is on its way: the cards last sent are missing among those held. */
  ghost predicate Asked(robot: OGLordRobotAI)
    reads robot
  {
    && robot.Valid() && OnTable(robot.curHand)
    && Matches(robot.aiCardsVec + robot.vecLastTakeOutCards, robot.players[robot.aiSeat])
  }

  /**
    What can be noted: another seat's play at any time; the own play as it was asked for, or, once the
    request has failed, different cards that are held.
   */
  ghost predicate Expected(robot: OGLordRobotAI, seatno: int, cards: seq<int>)
    reads robot
  {
    && ValidCards(cards) && Legal(CountsOf(cards))
    && if seatno != robot.aiSeat then InStep(robot)
       else if SameCards(robot.vecLastTakeOutCards, cards) then Asked(robot)
       else InStep(robot) && multiset(cards) <= multiset(robot.aiCardsVec)
  }

  // ----- the handlers

  /** A failed take-out is taken back: what was asked for is held again. */
  method RecvTakeOutCardAck(robot: OGLordRobotAI, gaming: bool, result: Option<int>) returns (ok: bool)
    requires robot.Valid()
    modifies robot`aiCardsVec
    ensures robot.Valid() && (ok <==> gaming && result.Some?)
    ensures HeldBy(robot) == if ok && result.value != 0 then Failed(old(HeldBy(robot))) else old(HeldBy(robot))
    ensures ok && result.value != 0 && old(Asked(robot)) ==> InStep(robot)
  {
    if !gaming || result.None? {
      return false;
    }
    if result.value != 0 {
      robot.RecoveryHandCards();
    }
    return true;
  }

  /** Being put in trust means the last take-out was refused as well. */
  method RecvGetTrustNotify(robot: OGLordRobotAI, gaming: bool, seat: Option<int>, sendOk: bool) returns (ok: bool)
    requires robot.Valid()
    modifies robot`aiCardsVec
    ensures robot.Valid()
    ensures HeldBy(robot) ==
      if gaming && seat == Some(robot.aiSeat) then Failed(old(HeldBy(robot))) else old(HeldBy(robot))
    ensures ok <==> !gaming || (seat.Some? && (seat.value == robot.aiSeat ==> sendOk))
    ensures gaming && seat == Some(robot.aiSeat) && old(Asked(robot)) ==> InStep(robot)
  {
    if !gaming {
      return true;
    }
    if seat.None? {
      return false;
    }
    if robot.aiSeat == seat.value {
      robot.RecoveryHandCards();
      return sendOk;
    }
    return true;
  }

  /** A play is noted; the own one, if it is not what was asked for, is also taken from the cards held. */
  method NoteTakeOut(robot: OGLordRobotAI, seatno: int, cards: seq<int>)
    requires robot.Valid() && IsSeat(seatno) && ValidCards(cards) && Bucketable(CountsOf(cards))
    modifies robot`players, robot`totals, robot`remainPoints, robot`otherPoints
    modifies robot`curHand, robot`curHandSeat, robot`history, robot`aiCardsVec
    ensures robot.Valid()
    ensures HeldBy(robot) ==
      if seatno == robot.aiSeat then OwnPlayed(old(HeldBy(robot)), cards) else old(HeldBy(robot))
    ensures var hand := Recognised(cards);
      robot.curHand == if cards == [] || hand.ty == Nothing then old(robot.curHand) else hand
    ensures old(robot.Playing()) ==> robot.Playing()
    ensures old(Expected(robot, seatno, cards)) ==> InStep(robot)
  {
    hide CountsOf, Recognised, Legal, Debited, RemoveAll, Less;
    ghost var before, cur := HeldBy(robot), robot.curHand;
    robot.RbtInTakeOutCard(seatno, cards);
    if seatno == robot.aiSeat {
      OwnDebited(before.own, CountsOf(cards));
      var same := robot.IsLastTakeOutCards(cards);
      if !same {
        RemovedValid(robot.aiCardsVec, cards);
        robot.RemoveExtraCards(cards);
      }
    }
    if old(Expected(robot, seatno, cards)) {
      TableKept(cur, cards);
      if seatno == robot.aiSeat {
        OwnPlayMatches(before, cards);
      }
    }
  }

  lemma OwnDebited(own: Counts, gone: Counts)
    ensures Debited(true, own, gone) == Less(own, gone)
  {
    DebitedIsLess(true, own, gone);
  }

  /** A recognised play of legal counts can lie on the table. */
  lemma TableKept(cur: Hand, cards: seq<int>)
    requires OnTable(cur) && ValidCards(cards) && Legal(CountsOf(cards))
    ensures Recognised(cards).ty != Nothing ==> OnTable(Recognised(cards))
  {
    hide CountsOf, GetHand;
    if Recognised(cards).ty != Nothing {
      PlayedIsOnTable(CountsOf(cards));
    }
  }

  /** An expected own play leaves counts and cards in step. */
  lemma OwnPlayMatches(h: Held, cards: seq<int>)
    requires ValidCards(h.cards) && ValidCards(h.last) && ValidCards(cards)
    requires if SameCards(h.last, cards) then Matches(h.cards + h.last, h.own)
      else Matches(h.cards, h.own) && multiset(cards) <= multiset(h.cards)
    ensures Matches(OwnPlayed(h, cards).cards, OwnPlayed(h, cards).own)
  {
    hide CountsOf, RemoveAll;
    var held := if SameCards(h.last, cards) then h.cards + h.last else h.cards;
    var left := OwnPlayed(h, cards).cards;
    if SameCards(h.last, cards) {
      assert multiset(held) == multiset(cards) + multiset(left);
    } else {
      RemoveAllCards(h.cards, cards);
      assert multiset(held) == multiset(cards) + multiset(left);
    }
    CountsOfRest(held, cards, left);
    PartAtMost(held, cards);
    CountsOfSum(cards);
    FewerStayLegal(h.own, CountsOf(cards));
  }

  /** What a notified play says: who played, who is next, and which cards. */
  datatype TakeOutNtf = TakeOutNtf(seatno: int, seatnext: int, cards: seq<int>)

  /**
    A play is noted, and if the robot is next it is asked for its cards: at level 0 for a good lead,
    answer or pass, at other levels for what a strategy came up with (`choice`).  An expected play
    leaves it ready to be asked, and asking leaves a request on its way, unless a lead of another
    level is at stake.
   */
  method RecvGetTakeOutCardNotify(
    robot: OGLordRobotAI, gaming: bool, ntf: Option<TakeOutNtf>, choice: Hand, choiceMap: HandMap,
    secondWins: bool, thirdWins: bool, sendOk: bool)
    returns (ok: bool, request: Option<seq<int>>)
    requires robot.Valid() && Printable(choice) && Printable(LowestHand(choiceMap))
    requires gaming && ntf.Some? ==>
      && Noteworthy(ntf.value)
      && (robot.level == 0 && ntf.value.seatnext == robot.aiSeat ==> Expected(robot, ntf.value.seatno, ntf.value.cards))
    modifies robot
    ensures robot.Valid() && robot.aiSeat == old(robot.aiSeat) && robot.level == old(robot.level)
    ensures ok <==> !gaming || (ntf.Some? && (ntf.value.seatnext == robot.aiSeat ==> sendOk))
    ensures request.Some? <==> gaming && ntf.Some? && ntf.value.seatnext == robot.aiSeat
    ensures !gaming || ntf.None? ==> HeldBy(robot) == old(HeldBy(robot))
    ensures gaming && ntf.Some? && request.None? ==>
      && HeldBy(robot) == Noted(old(HeldBy(robot)), robot.aiSeat, ntf.value)
      && (old(Expected(robot, ntf.value.seatno, ntf.value.cards)) ==> InStep(robot))
    ensures request.Some? ==> robot.vecLastTakeOutCards == request.value && ValidCards(request.value)
    ensures request.Some? && old(Expected(robot, ntf.value.seatno, ntf.value.cards)) ==>
      (robot.level == 0 || !robot.IsFree() ==> Asked(robot))
    ensures old(robot.Playing()) && gaming && ntf.Some? ==> robot.Playing()
    ensures request.Some? && robot.level == 0 ==> GoodRequest(robot, request.value)
    ensures request.Some? && robot.level != 0 ==>
      ChoiceSent(robot, Noted(old(HeldBy(robot)), robot.aiSeat, ntf.value).cards, choice, choiceMap, request.value)
  {
    hide CountsOf, GoodAnswer, GoodLead, Recognised, SendLead, SendAnswer, Printable, LowestHand;
    ok, request := true, None;
    if !gaming {
      return;
    }
    if ntf.None? {
      return false, None;
    }
    NoteTakeOut(robot, ntf.value.seatno, ntf.value.cards);
    if ntf.value.seatnext == robot.aiSeat {
      var vecCards := Ask(robot, choice, choiceMap, secondWins, thirdWins);
      ok, request := sendOk, Some(vecCards);
    }
  }

  /** What is held once the play is noted. */
  ghost function Noted(h: Held, aiSeat: int, ntf: TakeOutNtf): Held
  {
    if ntf.seatno == aiSeat && ValidCards(ntf.cards) then OwnPlayed(h, ntf.cards) else h
  }

  /** A play the server can report. */
  ghost predicate Noteworthy(ntf: TakeOutNtf) {
    IsSeat(ntf.seatno) && ValidCards(ntf.cards) && Bucketable(CountsOf(ntf.cards))
  }

  /** The choice of another level went out of `cards`, an answer past the guard. */
  ghost predicate ChoiceSent(
    robot: OGLordRobotAI, cards: seq<int>, choice: Hand, choiceMap: HandMap, out: seq<int>)
    reads robot
  {
    && ValidCards(cards) && Printable(choice) && Printable(LowestHand(choiceMap))
    && Sent(out, robot.aiCardsVec) ==
       if robot.IsFree() then SendLead(cards, choice, choiceMap) else SendAnswer(cards, choice, robot.curHand)
  }

  /**
    A level-0 request is a sound lead, answer or pass for the split it was made from: a lead iff the last
    recognised play was the robot's own, or there was none and it is the lord.
   */
  ghost predicate GoodRequest(robot: OGLordRobotAI, out: seq<int>)
    requires ValidCards(out)
    reads robot
  {
    var leads :=
      if robot.Playing() then HasLead(robot.history, robot.aiSeat, robot.lordSeat) else robot.IsFree();
    if leads then robot.aiCardsVec + out != [] ==> GoodLead(out, robot.handsMap)
    else GoodAnswer(out, robot.handsMap, robot.curHand)
  }

  /** The robot is asked for its cards. */
  method Ask(robot: OGLordRobotAI, choice: Hand, choiceMap: HandMap, secondWins: bool, thirdWins: bool)
    returns (vecCards: seq<int>)
    requires robot.Valid() && Printable(choice) && Printable(LowestHand(choiceMap))
    requires robot.level == 0 ==> InStep(robot)
    modifies robot`aiCardsVec, robot`vecLastTakeOutCards, robot`handsMap
    modifies robot`lowestControl, robot`controlNum, robot`maxOppNumber, robot`minOppNumber
    ensures robot.Valid() && robot.vecLastTakeOutCards == vecCards && ValidCards(vecCards)
    ensures old(InStep(robot)) && (robot.level == 0 || !robot.IsFree()) ==> Asked(robot)
    ensures old(robot.Playing()) ==> robot.Playing()
    ensures robot.level == 0 || !robot.IsFree() ==>
      multiset(old(robot.aiCardsVec)) == multiset(robot.aiCardsVec) + multiset(vecCards)
    ensures robot.level == 0 ==> GoodRequest(robot, vecCards)
    ensures robot.level != 0 ==> ChoiceSent(robot, old(robot.aiCardsVec), choice, choiceMap, vecCards)
  {
    hide CountsOf, GoodAnswer, GoodLead, Legal, KindOf, LowestHand, SendLead, SendAnswer, Printable;
    ghost var cards := robot.aiCardsVec;
    vecCards := robot.RbtOutGetTakeOutCard(choice, choiceMap, secondWins, thirdWins);
    if robot.level == 0 || !robot.IsFree() {
      CountsOfMultiset(cards, robot.aiCardsVec + vecCards);
    }
  }

  lemma RemovedValid(s: seq<int>, gone: seq<int>)
    requires ValidCards(s)
    ensures ValidCards(RemoveAll(s, gone))
  {
    RemoveAllCards(s, gone);
    ValidMultiset(RemoveAll(s, gone), s);
  }

  // ----- rounds and runs

  /**
    One own turn: the cards asked for are played; or they are refused with one failure signal and
    the server plays something else for the seat.
   */
  datatype Round =
    | Accepted(kept: seq<int>, out: seq<int>, noted: seq<int>)
    | Refused(kept: seq<int>, out: seq<int>, substitute: seq<int>)

  /** The request conserves the cards, and the server plays what it was sent or cards of the seat. */
  ghost predicate Fits(h: Held, round: Round) {
    && multiset(h.cards) == multiset(round.kept) + multiset(round.out)
    && match round
       case Accepted(_, out, noted) => SameCards(noted, out)
       case Refused(_, _, substitute) => multiset(substitute) <= multiset(h.cards)
  }

  ghost predicate Differs(round: Round) {
    round.Refused? ==> !SameCards(round.substitute, round.out)
  }

  lemma FitsValid(h: Held, round: Round)
    requires ValidCards(h.cards) && Fits(h, round)
    ensures ValidCards(round.kept) && ValidCards(round.out)
    ensures match round
      case Accepted(_, _, noted) => ValidCards(noted)
      case Refused(_, _, substitute) => ValidCards(substitute)
  {
    ValidMultiset(round.kept, h.cards);
    ValidMultiset(round.out, h.cards);
    match round
    case Accepted(_, _, noted) => ValidMultiset(noted, h.cards);
    case Refused(_, _, substitute) => ValidMultiset(substitute, h.cards);
  }

  ghost function After(h: Held, round: Round): Held
    requires ValidCards(h.cards) && Fits(h, round)
  {
    FitsValid(h, round);
    match round
    case Accepted(kept, out, noted) => OwnPlayed(Requested(h, kept, out), noted)
    case Refused(kept, out, substitute) => OwnPlayed(Failed(Requested(h, kept, out)), substitute)
  }

  /** Taking cards away takes their counts away. */
  lemma CountsOfRest(all: seq<int>, part: seq<int>, rest: seq<int>)
    requires ValidCards(all) && multiset(all) == multiset(part) + multiset(rest)
    ensures ValidCards(part) && ValidCards(rest)
    ensures CountsOf(rest) == Less(CountsOf(all), CountsOf(part))
  {
    ValidMultiset(part, all);
    ValidMultiset(rest, all);
    CountsOfConcat(part, rest);
    CountsOfMultiset(all, part + rest);
    LessOfParts(CountsOf(all), CountsOf(part), CountsOf(rest));
  }

  lemma LessOfParts(all: Counts, part: Counts, rest: Counts)
    requires forall r :: 0 <= r < RANKS ==> all[r] == part[r] + rest[r]
    ensures rest == Less(all, part)
  {
  }

  lemma AcceptedKeepsSync(h: Held, round: Round)
    requires Synced(h) && Fits(h, round) && round.Accepted?
    ensures Synced(After(h, round))
  {
    FitsValid(h, round);
    CountsOfRest(h.cards, round.out, round.kept);
    CountsOfMultiset(round.out, round.noted);
  }

  /** A refused round keeps cards and counts in step iff the substitute differs, or is no card. */
  lemma RefusedKeepsSyncIff(h: Held, round: Round)
    requires Synced(h) && Fits(h, round) && round.Refused?
    ensures Synced(After(h, round)) <==> !SameCards(round.substitute, round.out) || round.substitute == []
  {
    FitsValid(h, round);
    var restored := round.kept + round.out;
    var sub := round.substitute;
    CountsOfMultiset(h.cards, restored);
    if SameCards(round.out, sub) {
      CountsOfSum(sub);
      if sub == [] {
        LessNothing(h.own);
      } else {
        SumAfter(h.own, CountsOf(sub));
      }
    } else {
      RemoveAllCards(restored, sub);
      CountsOfRest(restored, sub, RemoveAll(restored, sub));
    }
  }

  lemma LessNothing(own: Counts)
    ensures Less(own, ZERO) == own
  {
    EqualAtAllRanks(Less(own, ZERO), own);
  }

  lemma SumAfter(own: Counts, gone: Counts)
    requires Sum(gone) != 0
    ensures Less(own, gone) != own
  {
    LessSum(own, gone);
  }

  ghost predicate ValidRun(h: Held, rounds: seq<Round>)
    decreases |rounds|
  {
    rounds != [] ==>
      && ValidCards(h.cards) && Fits(h, rounds[0]) && Differs(rounds[0])
      && ValidRun(After(h, rounds[0]), rounds[1..])
  }

  ghost function AfterRun(h: Held, rounds: seq<Round>): Held
    requires ValidRun(h, rounds)
    decreases |rounds|
  {
    if rounds == [] then h else AfterRun(After(h, rounds[0]), rounds[1..])
  }

  /** Over every run of such rounds the counts noted are the counts of the cards held. */
  lemma {:induction false} RunKeepsSync(h: Held, rounds: seq<Round>)
    requires Synced(h) && ValidRun(h, rounds)
    ensures Synced(AfterRun(h, rounds))
    decreases |rounds|
  {
    if rounds != [] {
      if rounds[0].Accepted? {
        AcceptedKeepsSync(h, rounds[0]);
      } else {
        RefusedKeepsSyncIff(h, rounds[0]);
      }
      RunKeepsSync(After(h, rounds[0]), rounds[1..]);
    }
  }

  // ----- more than one failure signal

  /** Every further failure signal puts the cards last sent back once more. */
  function FailedTimes(h: Held, n: nat): Held {
    if n == 0 then h else Failed(FailedTimes(h, n - 1))
  }

  lemma {:induction false} FailedTimesFacts(h: Held, n: nat)
    requires ValidCards(h.cards) && ValidCards(h.last)
    ensures var f := FailedTimes(h, n);
      && f.last == h.last && f.own == h.own && ValidCards(f.cards)
      && (1 <= n ==> h.cards + h.last <= f.cards)
      && (2 <= n ==> |f.cards| >= |h.cards| + |h.last| + |h.last|)
  {
    if n > 0 {
      FailedTimesFacts(h, n - 1);
    }
  }

  lemma PrefixMultiset(a: seq<int>, b: seq<int>)
    requires a <= b
    ensures multiset(a) <= multiset(b)
  {
    assert b == a + b[|a|..];
  }

  /** Cards too many for the counts noted: they cannot be in step. */
  lemma TooMany(h: Held)
    requires ValidCards(h.cards) && Sum(h.own) != |h.cards|
    ensures !Synced(h)
  {
    CountsOfSum(h.cards);
  }

  /** How many cards are held once the play is noted. */
  lemma HeldAfterPlay(f: Held, played: seq<int>)
    requires ValidCards(f.cards) && ValidCards(played) && multiset(played) <= multiset(f.cards)
    ensures var after := OwnPlayed(f, played);
      && ValidCards(after.cards)
      && |after.cards| == |f.cards| - (if SameCards(f.last, played) then 0 else |played|)
      && Sum(after.own) == Sum(f.own) - |played|
  {
    hide CountsOf, RemoveAll;
    CountsOfSum(played);
    LessSum(f.own, CountsOf(played));
    if !SameCards(f.last, played) {
      RemoveAllCards(f.cards, played);
      ValidMultiset(RemoveAll(f.cards, played), f.cards);
      SizeOfRest(f.cards, played, RemoveAll(f.cards, played));
    }
  }

  lemma AgainOutOfStep(h: Held, kept: seq<int>, out: seq<int>, played: seq<int>, n: nat)
    requires Synced(h) && multiset(h.cards) == multiset(kept) + multiset(out)
    requires multiset(played) <= multiset(h.cards) && 2 <= n && out != []
    ensures ValidCards(played) && !Synced(OwnPlayed(FailedTimes(Requested(h, kept, out), n), played))
  {
    hide CountsOf, RemoveAll, OwnPlayed, FailedTimes;
    ValidMultiset(played, h.cards);
    ValidMultiset(kept, h.cards);
    ValidMultiset(out, h.cards);
    var r := Requested(h, kept, out);
    FailedTimesFacts(r, n);
    var f := FailedTimes(r, n);
    assert multiset(kept + out) == multiset(h.cards);
    SameSize(kept + out, h.cards);
    PrefixMultiset(kept + out, f.cards);
    HeldAfterPlay(f, played);
    CountsOfSum(h.cards);
    if SameCards(out, played) {
      SameSize(out, played);
    }
    TooMany(OwnPlayed(f, played));
  }

  lemma SizeOfRest(all: seq<int>, part: seq<int>, rest: seq<int>)
    requires multiset(part) <= multiset(all) && multiset(rest) == multiset(all) - multiset(part)
    ensures |rest| == |all| - |part|
  {
    assert multiset(all) == multiset(part) + multiset(rest);
    assert |multiset(all)| == |all| && |multiset(part)| == |part| && |multiset(rest)| == |rest|;
  }

  lemma NothingSentAgain(h: Held, n: nat)
    requires h.last == [] && 1 <= n
    ensures FailedTimes(h, n) == Failed(h)
    decreases n
  {
    assert h.cards + h.last == h.cards;
    if n > 1 {
      NothingSentAgain(h, n - 1);
      assert Failed(h) == h;
    }
  }

  /**
    After any number of failure signals for a request and whatever of the seat's cards is then played
    for it, cards and counts are in step iff no card was asked for, or there was one signal and the
    play differs.
   */
  lemma FailuresAgreeIff(h: Held, kept: seq<int>, out: seq<int>, played: seq<int>, n: nat)
    requires Synced(h) && multiset(h.cards) == multiset(kept) + multiset(out)
    requires multiset(played) <= multiset(h.cards) && 1 <= n
    ensures ValidCards(played)
    ensures Synced(OwnPlayed(FailedTimes(Requested(h, kept, out), n), played)) <==>
      out == [] || (n == 1 && !SameCards(played, out))
  {
    hide CountsOf, RemoveAll, Synced;
    SyncedValid(h);
    ValidMultiset(played, h.cards);
    var r := Requested(h, kept, out);
    if n >= 2 && out != [] {
      AgainOutOfStep(h, kept, out, played, n);
    } else {
      var round := Refused(kept, out, played);
      if out == [] {
        NothingSentAgain(r, n);
      } else {
        assert FailedTimes(r, 1) == Failed(FailedTimes(r, 0));
      }
      RefusedKeepsSyncIff(h, round);
      EmptyPlay(played, out);
    }
  }

  /** In particular a second failure signal puts the counts out of step, unless no card was asked for. */
  lemma SecondFailureDoubles(h: Held, kept: seq<int>, out: seq<int>, played: seq<int>)
    requires Synced(h) && multiset(h.cards) == multiset(kept) + multiset(out)
    requires multiset(played) <= multiset(h.cards)
    ensures ValidCards(played)
    ensures Synced(OwnPlayed(Failed(Failed(Requested(h, kept, out))), played)) <==> out == []
  {
    hide Synced, OwnPlayed;
    var r := Requested(h, kept, out);
    FailuresAgreeIff(h, kept, out, played, 2);
    assert FailedTimes(r, 1) == Failed(FailedTimes(r, 0));
    assert FailedTimes(r, 2) == Failed(FailedTimes(r, 1));
  }

  lemma SyncedValid(h: Held)
    requires Synced(h)
    ensures ValidCards(h.cards)
  {
  }

  lemma EmptyPlay(played: seq<int>, out: seq<int>)
    ensures SameCards(played, out) ==> (played == [] <==> out == [])
  {
    if SameCards(played, out) {
      SameSize(played, out);
    }
  }

  // ----- whole games at level 0

  /**
    One own turn at level 0: which split scores best, whether the seat leads, what is to be beaten,
    and what the server says: the same cards in some order, or a failure and a substitute.
   */
  datatype Turn = Turn(kind: int, free: bool, cur: Hand, reply: Reply)

  datatype Reply = Noted(cards: seq<int>) | Substituted(cards: seq<int>)

  /** Counts in step with the cards held, and no more of them than one deck allows. */
  ghost predicate Ready(h: Held) {
    Synced(h) && Legal(h.own)
  }

  ghost function Sends(h: Held, t: Turn): Sent
    requires Ready(h) && 1 <= t.kind <= 3 && OnTable(t.cur)
  {
    LevelZeroSends(h.cards, h.own, t.kind, t.free, t.cur)
  }

  function RoundOf(s: Sent, reply: Reply): Round {
    match reply
    case Noted(cards) => Accepted(s.kept, s.out, cards)
    case Substituted(cards) => Refused(s.kept, s.out, cards)
  }

  /** The seat still has a card to lead with, and the server answers as described. */
  ghost predicate PossibleTurn(h: Held, t: Turn)
    requires Ready(h)
  {
    && 1 <= t.kind <= 3 && OnTable(t.cur) && (t.free ==> h.cards != [])
    && match t.reply
       case Noted(cards) => SameCards(cards, Sends(h, t).out)
       case Substituted(cards) => multiset(cards) <= multiset(h.cards) && !SameCards(cards, Sends(h, t).out)
  }

  ghost predicate GoodTurn(h: Held, t: Turn)
    requires Ready(h) && 1 <= t.kind <= 3 && OnTable(t.cur)
  {
    var m, out := KindOf(t.kind, h.own, true).m, Sends(h, t).out;
    ValidCards(out) && if t.free then GoodLead(out, m) else GoodAnswer(out, m, t.cur)
  }

  lemma TurnFits(h: Held, t: Turn)
    requires Ready(h) && PossibleTurn(h, t)
    ensures GoodTurn(h, t)
    ensures Fits(h, RoundOf(Sends(h, t), t.reply)) && Differs(RoundOf(Sends(h, t), t.reply))
  {
    hide KindOf, LevelZeroSends, GoodLead, GoodAnswer;
    LevelZeroIsSound(h.cards, h.own, t.kind, t.free, t.cur);
  }

  ghost function AfterTurn(h: Held, t: Turn): Held
    requires Ready(h) && PossibleTurn(h, t)
  {
    TurnFits(h, t);
    After(h, RoundOf(Sends(h, t), t.reply))
  }

  lemma FewerStayLegal(own: Counts, gone: Counts)
    requires Legal(own) && NonNegative(gone) && AtMost(gone, own)
    ensures Legal(Less(own, gone))
  {
    LessSum(own, gone);
    SumToMonotone(ZERO, gone, RANKS);
    SumOfZero(RANKS);
  }

  /** Cards noted for the seat come out of the cards held. */
  lemma RoundStaysLegal(h: Held, round: Round)
    requires Ready(h) && Fits(h, round)
    ensures Legal(After(h, round).own)
  {
    FitsValid(h, round);
    var noted := if round.Accepted? then round.noted else round.substitute;
    assert multiset(noted) <= multiset(h.cards);
    PartAtMost(h.cards, noted);
    CountsOfSum(noted);
    FewerStayLegal(h.own, CountsOf(noted));
  }

  lemma PartAtMost(all: seq<int>, part: seq<int>)
    requires ValidCards(all) && ValidCards(part) && multiset(part) <= multiset(all)
    ensures AtMost(CountsOf(part), CountsOf(all))
  {
    hide CountsOf, RemoveAll;
    var rest := RemoveAll(all, part);
    RemoveAllCards(all, part);
    assert multiset(all) == multiset(part) + multiset(rest);
    CountsOfRest(all, part, rest);
    CountsOfSum(rest);
    NotLess(CountsOf(all), CountsOf(part), CountsOf(rest));
  }

  lemma NotLess(all: Counts, part: Counts, rest: Counts)
    requires rest == Less(all, part) && NonNegative(rest)
    ensures AtMost(part, all)
  {
    assert forall r :: 0 <= r < RANKS ==> rest[r] == all[r] - part[r];
  }

  lemma TurnIsSound(h: Held, t: Turn)
    requires Ready(h) && PossibleTurn(h, t)
    ensures GoodTurn(h, t) && Ready(AfterTurn(h, t))
  {
    hide Sends, GoodTurn;
    TurnFits(h, t);
    var round := RoundOf(Sends(h, t), t.reply);
    RoundStaysLegal(h, round);
    if round.Accepted? {
      AcceptedKeepsSync(h, round);
    } else {
      RefusedKeepsSyncIff(h, round);
    }
  }

  ghost predicate PossibleGame(h: Held, turns: seq<Turn>)
    requires Ready(h)
    decreases |turns|
  {
    turns != [] ==>
      && PossibleTurn(h, turns[0])
      && (TurnIsSound(h, turns[0]); PossibleGame(AfterTurn(h, turns[0]), turns[1..]))
  }

  /** Every turn of the game is a good one, and the counts are right after each. */
  ghost predicate GoodGame(h: Held, turns: seq<Turn>)
    decreases |turns|
  {
    && Ready(h)
    && (turns != [] ==>
          && PossibleTurn(h, turns[0])
          && GoodTurn(h, turns[0])
          && GoodGame(AfterTurn(h, turns[0]), turns[1..]))
  }

  /**
    Over a whole game at level 0, with refusals: at every own turn the robot leads with the lowest
    hand of its split, or answers with a hand of it that beats the table, or passes because none
    does; and after every turn the counts noted are those of the cards held.
   */
  lemma {:induction false} LevelZeroGameIsGood(h: Held, turns: seq<Turn>)
    requires Ready(h) && PossibleGame(h, turns)
    ensures GoodGame(h, turns)
    decreases |turns|
  {
    if turns != [] {
      TurnIsSound(h, turns[0]);
      LevelZeroGameIsGood(AfterTurn(h, turns[0]), turns[1..]);
    }
  }

  // ----- from the deal on

  lemma {:induction false} DistinctOnce(s: seq<int>, x: int)
    requires Distinct(s)
    ensures multiset(s)[x] <= 1
    decreases |s|
  {
    if s != [] {
      DistinctOnce(s[1..], x);
      assert s == [s[0]] + s[1..];
      assert s[0] !in s[1..];
    }
  }

  /** At most twenty different cards of one deck have legal counts. */
  lemma DeckLegal(cards: seq<int>)
    requires Distinct(cards) && ValidCards(cards) && |cards| <= 20
    ensures Legal(CountsOf(cards))
  {
    hide CountsOf;
    var deck := FirstCards(54);
    DeckIsFull();
    forall x
      ensures multiset(cards)[x] <= multiset(deck)[x]
    {
      DistinctOnce(cards, x);
      if x in multiset(cards) {
        assert x in cards;
        assert deck[x] == x;
        assert x in multiset(deck);
      }
    }
    PartAtMost(deck, cards);
    CountsOfSum(cards);
  }

  /** The cards a seat holds once the lord has taken the base cards. */
  function FirstHeld(aiSeat: int, lordSeat: int, cards: seq<int>, base: seq<int>): seq<int> {
    if lordSeat == aiSeat then cards + base else cards
  }

  /** Seventeen cards and the three base cards, all different. */
  ghost predicate OneDeal(cards: seq<int>, base: seq<int>) {
    |cards| == 17 && |base| == 3 && ValidCards(cards + base) && Distinct(cards + base)
  }

  lemma DealParts(cards: seq<int>, base: seq<int>)
    requires OneDeal(cards, base)
    ensures ValidCards(cards) && ValidCards(base) && Legal(CountsOf(cards)) && Legal(CountsOf(cards + base))
  {
    var all := cards + base;
    assert forall i :: 0 <= i < |cards| ==> cards[i] == all[i];
    assert forall i :: 0 <= i < |base| ==> base[i] == all[|cards| + i];
    DeckLegal(cards);
    DeckLegal(all);
  }

  /** After the deal and the base cards a seat, lord or farmer, is ready for a game. */
  lemma DealReady(aiSeat: int, lordSeat: int, cards: seq<int>, base: seq<int>, last: seq<int>)
    requires IsSeat(aiSeat) && IsSeat(lordSeat) && OneDeal(cards, base)
    ensures ValidCards(cards) && ValidCards(base)
    ensures var b := LordSet(Dealt(aiSeat, cards), aiSeat, lordSeat, base);
      Ready(Held(FirstHeld(aiSeat, lordSeat, cards, base), last, b.players[aiSeat]))
  {
    DealParts(cards, base);
    hide CountsOf;
    CountsOfConcat(cards, base);
    EqualAtAllRanks(CountsOf(cards + base), Plus(CountsOf(cards), CountsOf(base)));
  }

  /** So from any deal on, whatever the others play and the server refuses, every own turn is good. */
  lemma GameFromDeal(
    aiSeat: int, lordSeat: int, cards: seq<int>, base: seq<int>, last: seq<int>, turns: seq<Turn>, h: Held)
    requires IsSeat(aiSeat) && IsSeat(lordSeat) && OneDeal(cards, base) && ValidCards(cards) && ValidCards(base)
    requires var b := LordSet(Dealt(aiSeat, cards), aiSeat, lordSeat, base);
      h == Held(FirstHeld(aiSeat, lordSeat, cards, base), last, b.players[aiSeat])
    requires Ready(h) ==> PossibleGame(h, turns)
    ensures GoodGame(h, turns)
  {
    DealReady(aiSeat, lordSeat, cards, base, last);
    LevelZeroGameIsGood(h, turns);
  }

  /** Deal, lord and base cards: the robot can be asked for its cards at any time from now on. */
  method StartGame(
    robot: OGLordRobotAI, seat: int, cards: seq<int>, lordSeat: int, base: seq<int>, secondWins: bool, thirdWins: bool)
    requires IsSeat(seat) && IsSeat(lordSeat) && OneDeal(cards, base) && ValidCards(robot.vecLastTakeOutCards)
    modifies robot
    ensures InStep(robot) && robot.aiSeat == seat && robot.level == old(robot.level)
    ensures robot.aiCardsVec == FirstHeld(seat, lordSeat, cards, base) && robot.curHand == NOTHING
    ensures robot.Playing() && robot.lordSeat == lordSeat && robot.history == []
  {
    hide CountsOf, LordSet, Dealt, KindOf, Control.CalControl;
    DealParts(cards, base);
    robot.RbtInInitCard(seat, cards, secondWins, thirdWins);
    robot.RbtInSetLord(lordSeat, base);
    DealReady(seat, lordSeat, cards, base, robot.vecLastTakeOutCards);
  }

  /**
    From the deal to the first turn: the lord, and no other seat, is asked at once when the base cards
    are there; at level 0 it leads, and every other seat would answer.
   */
  method OpenGame(
    robot: OGLordRobotAI, seat: int, cards: seq<int>, lordSeat: int, base: seq<int>,
    choice: Hand, choiceMap: HandMap, secondWins: bool, thirdWins: bool)
    returns (request: Option<seq<int>>)
    requires IsSeat(seat) && IsSeat(lordSeat) && OneDeal(cards, base) && ValidCards(robot.vecLastTakeOutCards)
    requires Printable(choice) && Printable(LowestHand(choiceMap))
    modifies robot
    ensures robot.Playing() && robot.history == [] && (request.Some? <==> lordSeat == seat)
    ensures request.None? ==> InStep(robot) && robot.aiCardsVec == cards
    ensures request.Some? ==> ValidCards(request.value) && robot.vecLastTakeOutCards == request.value
    ensures request.Some? && old(robot.level) == 0 ==>
      && Asked(robot) && request.value != [] && GoodLead(request.value, robot.handsMap)
      && multiset(cards + base) == multiset(robot.aiCardsVec) + multiset(request.value)
  {
    hide Printable, LowestHand, GoodLead, GoodAnswer, CountsOf;
    StartGame(robot, seat, cards, lordSeat, base, secondWins, thirdWins);
    request := None;
    if robot.lordSeat == robot.aiSeat {
      var vecCards := Ask(robot, choice, choiceMap, secondWins, thirdWins);
      request := Some(vecCards);
      if robot.level == 0 {
        LeadIsThere(robot.aiCardsVec + vecCards, cards + base, vecCards, robot.handsMap);
      }
    }
  }

  lemma LeadIsThere(after: seq<int>, before: seq<int>, out: seq<int>, m: HandMap)
    requires multiset(after) == multiset(before) && before != [] && ValidCards(out)
    requires after != [] ==> GoodLead(out, m)
    ensures GoodLead(out, m) && out != []
  {
    assert before[0] in multiset(before) && before[0] in multiset(after);
  }
}
