/**
  The robot's book-keeping of a game: own and known counts, card totals per seat, the counts still
  in play and the counts the other two seats hold (`RbtInInitCard`, `RbtInSetLord`,
  `RbtInTakeOutCard`).
 */
module GameBook {
  import opened Cards

  const SEATS := 3

  /** The whole deck: four of each rank, one of each joker. */
  const FULL: Counts := [4, 4, 4, 4, 4, 4, 4, 4, 4, 4, 4, 4, 4, 1, 1]

  /** The cards numbered below `n`. */
  function FirstCards(n: nat): seq<int> {
    seq(n, i => i)
  }

  lemma QuotientStep(n: nat, r: int)
    requires 0 <= r <= CARD_2
    ensures (n + 1 + CARD_2 - r) / 13 == (n + CARD_2 - r) / 13 + (if n % 13 == r then 1 else 0)
  {
    var q, m := n / 13, n % 13;
    assert n == 13 * q + m;
    assert (n + 1 + CARD_2 - r) / 13 == if m >= r then q + 1 else q;
    assert (n + CARD_2 - r) / 13 == if m > r then q + 1 else q;
  }

  lemma {:induction false} FirstCardsCount(n: nat, r: int)
    requires n <= 52 && 0 <= r < RANKS
    ensures ValidCards(FirstCards(n))
    ensures CountsOf(FirstCards(n))[r] == if r <= CARD_2 then (n + CARD_2 - r) / 13 else 0
  {
    if n > 0 {
      FirstCardsCount(n - 1, r);
      assert FirstCards(n)[..n - 1] == FirstCards(n - 1);
      if r <= CARD_2 {
        QuotientStep(n - 1, r);
      }
    }
  }

  /** The 54 card numbers are the whole deck. */
  lemma DeckIsFull()
    ensures ValidCards(FirstCards(54)) && CountsOf(FirstCards(54)) == FULL
  {
    var suits, jokers := FirstCards(52), [52, 53];
    assert FirstCards(54) == suits + jokers;
    assert jokers[..1] == [52];
    CountsOfOne(52);
    assert CountsOf(jokers) == ZERO[BLACK_JOKER := 1][RED_JOKER := 1];
    FirstCardsCount(52, 0);
    CountsOfConcat(suits, jokers);
    forall r | 0 <= r < RANKS
      ensures CountsOf(FirstCards(54))[r] == FULL[r]
    {
      FirstCardsCount(52, r);
    }
    EqualAtAllRanks(CountsOf(FirstCards(54)), FULL);
  }

  /** What is noted for a seat whose cards are not known. */
  const UNKNOWN: Counts := [-1, -1, -1, -1, -1, -1, -1, -1, -1, -1, -1, -1, -1, -1, -1]

  datatype Book = Book(players: seq<Counts>, totals: seq<int>, remain: Counts, other: Counts)

  predicate IsSeat(seat: int) {
    0 <= seat < SEATS
  }

  predicate ValidBook(b: Book) {
    |b.players| == SEATS && |b.totals| == SEATS
  }

  function Plus(a: Counts, b: Counts): Counts {
    seq(RANKS, r requires 0 <= r < RANKS => a[r] + b[r])
  }

  function Less(a: Counts, b: Counts): Counts {
    seq(RANKS, r requires 0 <= r < RANKS => a[r] - b[r])
  }

  /** A seat's counts are kept only if they are known: the robot's own, or noted before. */
  predicate Known(b: Book, aiSeat: int, seat: int)
    requires ValidBook(b) && IsSeat(seat)
  {
    seat == aiSeat || b.players[seat][CARD_3] >= 0
  }

  function Dealt(aiSeat: int, cards: seq<int>): (b: Book)
    requires IsSeat(aiSeat) && ValidCards(cards)
    ensures ValidBook(b)
  {
    Book([UNKNOWN, UNKNOWN, UNKNOWN][aiSeat := CountsOf(cards)], [17, 17, 17], FULL, Less(FULL, CountsOf(cards)))
  }

  function LordSet(b: Book, aiSeat: int, lordSeat: int, base: seq<int>): (b': Book)
    requires ValidBook(b) && IsSeat(aiSeat) && IsSeat(lordSeat) && ValidCards(base)
    ensures ValidBook(b')
  {
    var b1 := b.(totals := b.totals[lordSeat := 20]);
    if Known(b, aiSeat, lordSeat) then
      b1.(players := b.players[lordSeat := Plus(b.players[lordSeat], CountsOf(base))])
    else b1
  }

  /** Setting the lord: its total is 20 and, if its counts are kept, they grow by the base cards; no others change. */
  lemma LordTakesBase(b: Book, aiSeat: int, lordSeat: int, base: seq<int>, seat: int, r: int)
    requires ValidBook(b) && IsSeat(aiSeat) && IsSeat(lordSeat) && ValidCards(base) && IsSeat(seat) && 0 <= r < RANKS
    ensures var b' := LordSet(b, aiSeat, lordSeat, base);
      && b'.totals[seat] == (if seat == lordSeat then 20 else b.totals[seat])
      && b'.players[seat][r] == b.players[seat][r] +
         (if seat == lordSeat && (seat == aiSeat || b.players[seat][CARD_3] >= 0) then CountsOf(base)[r] else 0)
      && b'.remain == b.remain && b'.other == b.other
  {
  }

  /**
    A seat's counts after a play: the own ones go down rank by rank; another seat's do as long as the
    noted threes, the rank that goes down first, are not negative.
   */
  function Debited(own: bool, p: Counts, c: Counts): Counts {
    var threes := if own || p[CARD_3] >= 0 then p[CARD_3] - c[CARD_3] else p[CARD_3];
    seq(RANKS, r requires 0 <= r < RANKS =>
      if r == CARD_3 then threes else if own || threes >= 0 then p[r] - c[r] else p[r])
  }

  /** The own counts go down by the play, and so do another seat's that hold it. */
  lemma DebitedIsLess(own: bool, p: Counts, c: Counts)
    requires own || (p[CARD_3] >= 0 && p[CARD_3] >= c[CARD_3])
    ensures Debited(own, p, c) == Less(p, c)
  {
  }

  /**
    Of another seat's counts: nothing changes if they are not known; all go down if it holds the threes it
    plays; and if it does not, the threes alone do, and it is no longer known.
   */
  lemma DebitedOfOthers(p: Counts, c: Counts, r: int)
    requires 0 <= r < RANKS
    ensures Debited(false, p, c)[r] ==
      if p[CARD_3] < 0 || (p[CARD_3] < c[CARD_3] && r != CARD_3) then p[r] else p[r] - c[r]
  {
  }

  function Played(b: Book, aiSeat: int, seat: int, cards: seq<int>): (b': Book)
    requires ValidBook(b) && IsSeat(aiSeat) && IsSeat(seat) && ValidCards(cards)
    ensures ValidBook(b')
  {
    var c := CountsOf(cards);
    Book(
      b.players[seat := Debited(seat == aiSeat, b.players[seat], c)],
      b.totals[seat := b.totals[seat] - |cards|],
      Less(b.remain, c),
      if seat != aiSeat then Less(b.other, c) else b.other)
  }

  // ----- what counting cards never changes

  /** Others' cards plus own cards, less the cards still in play, at one rank. */
  function Gap(b: Book, aiSeat: int, r: int): int
    requires ValidBook(b) && IsSeat(aiSeat) && 0 <= r < RANKS
  {
    b.other[r] + b.players[aiSeat][r] - b.remain[r]
  }

  /** A play by any seat, known or not. */
  datatype Play = Play(seat: int, cards: seq<int>)

  ghost predicate ValidPlays(plays: seq<Play>) {
    forall i :: 0 <= i < |plays| ==> IsSeat(plays[i].seat) && ValidCards(plays[i].cards)
  }

  function PlayAll(b: Book, aiSeat: int, plays: seq<Play>): (b': Book)
    requires ValidBook(b) && IsSeat(aiSeat) && ValidPlays(plays)
    ensures ValidBook(b')
    decreases |plays|
  {
    if plays == [] then b
    else
      var p := plays[|plays| - 1];
      Played(PlayAll(b, aiSeat, plays[..|plays| - 1]), aiSeat, p.seat, p.cards)
  }

  /** No run of plays changes the gap at any rank. */
  lemma {:induction false} PlaysKeepGap(b: Book, aiSeat: int, plays: seq<Play>, r: int)
    requires ValidBook(b) && IsSeat(aiSeat) && ValidPlays(plays) && 0 <= r < RANKS
    ensures Gap(PlayAll(b, aiSeat, plays), aiSeat, r) == Gap(b, aiSeat, r)
    decreases |plays|
  {
    if plays != [] {
      PlaysKeepGap(b, aiSeat, plays[..|plays| - 1], r);
    }
  }

  /** From the deal on the gap is zero for a farmer and the base cards for the lord. */
  lemma GapFromDeal(aiSeat: int, lordSeat: int, cards: seq<int>, base: seq<int>, plays: seq<Play>, r: int)
    requires IsSeat(aiSeat) && IsSeat(lordSeat) && ValidCards(cards) && ValidCards(base) && ValidPlays(plays)
    requires 0 <= r < RANKS
    ensures var b := LordSet(Dealt(aiSeat, cards), aiSeat, lordSeat, base);
      Gap(PlayAll(b, aiSeat, plays), aiSeat, r) == if lordSeat == aiSeat then CountsOf(base)[r] else 0
  {
    var b := LordSet(Dealt(aiSeat, cards), aiSeat, lordSeat, base);
    PlaysKeepGap(b, aiSeat, plays, r);
  }

  // ----- what each count is

  /** How many cards a seat has played. */
  function CardsPlayed(plays: seq<Play>, seat: int): nat {
    if plays == [] then 0
    else
      var n := |plays| - 1;
      CardsPlayed(plays[..n], seat) + if plays[n].seat == seat then |plays[n].cards| else 0
  }

  /** How many cards of rank `r` these seats have played. */
  function RankPlayed(plays: seq<Play>, seats: set<int>, r: int): int
    requires ValidPlays(plays) && 0 <= r < RANKS
  {
    if plays == [] then 0
    else
      var n := |plays| - 1;
      RankPlayed(plays[..n], seats, r) + if plays[n].seat in seats then CountsOf(plays[n].cards)[r] else 0
  }

  /** Each seat's total goes down by the cards of its own plays. */
  lemma {:induction false} TotalsAfter(b: Book, aiSeat: int, plays: seq<Play>, seat: int)
    requires ValidBook(b) && IsSeat(aiSeat) && IsSeat(seat) && ValidPlays(plays)
    ensures PlayAll(b, aiSeat, plays).totals[seat] == b.totals[seat] - CardsPlayed(plays, seat)
  {
    if plays != [] {
      TotalsAfter(b, aiSeat, plays[..|plays| - 1], seat);
    }
  }

  /** Own counts, the counts in play and those of the others go down by the plays of the seats they are about. */
  lemma {:induction false} CountsAfter(b: Book, aiSeat: int, plays: seq<Play>, r: int)
    requires ValidBook(b) && IsSeat(aiSeat) && ValidPlays(plays) && 0 <= r < RANKS
    ensures var b', seats := PlayAll(b, aiSeat, plays), {0, 1, 2};
      && b'.remain[r] == b.remain[r] - RankPlayed(plays, seats, r)
      && b'.other[r] == b.other[r] - RankPlayed(plays, seats - {aiSeat}, r)
      && b'.players[aiSeat][r] == b.players[aiSeat][r] - RankPlayed(plays, {aiSeat}, r)
  {
    hide CountsOf;
    if plays != [] {
      CountsAfter(b, aiSeat, plays[..|plays| - 1], r);
      var p := plays[|plays| - 1];
      assert p.seat in {0, 1, 2};
      DebitedIsLess(true, PlayAll(b, aiSeat, plays[..|plays| - 1]).players[aiSeat], CountsOf(p.cards));
    }
  }

  /** A seat whose cards are not known stays so. */
  lemma {:induction false} UnknownAfter(b: Book, aiSeat: int, plays: seq<Play>, seat: int)
    requires ValidBook(b) && IsSeat(aiSeat) && IsSeat(seat) && ValidPlays(plays)
    requires seat != aiSeat && b.players[seat] == UNKNOWN
    ensures PlayAll(b, aiSeat, plays).players[seat] == UNKNOWN
  {
    hide CountsOf;
    if plays != [] {
      UnknownAfter(b, aiSeat, plays[..|plays| - 1], seat);
      UnknownUndebited(CountsOf(plays[|plays| - 1].cards));
    }
  }

  lemma UnknownUndebited(c: Counts)
    ensures Debited(false, UNKNOWN, c) == UNKNOWN
  {
    assert forall r :: 0 <= r < RANKS ==> Debited(false, UNKNOWN, c)[r] == UNKNOWN[r];
  }

  /**
    The whole book at any time of a game: the lord began with 20 cards and the farmers with 17; of each
    rank the deck less all plays is in play, the deck less the cards dealt and the others' plays is
    taken to be with the others, and the seat holds its cards, with the base cards if it is the lord,
    less its own plays; of the other seats nothing is known.
   */
  lemma BookFromDeal(
    aiSeat: int, lordSeat: int, cards: seq<int>, base: seq<int>, plays: seq<Play>, seat: int, r: int)
    requires IsSeat(aiSeat) && IsSeat(lordSeat) && ValidCards(cards) && ValidCards(base) && ValidPlays(plays)
    requires IsSeat(seat) && 0 <= r < RANKS
    ensures var b := PlayAll(LordSet(Dealt(aiSeat, cards), aiSeat, lordSeat, base), aiSeat, plays);
      && b.totals[seat] == (if seat == lordSeat then 20 else 17) - CardsPlayed(plays, seat)
      && b.remain[r] == (if r <= CARD_2 then 4 else 1) - RankPlayed(plays, {0, 1, 2}, r)
      && b.other[r] == (if r <= CARD_2 then 4 else 1) - CountsOf(cards)[r] - RankPlayed(plays, {0, 1, 2} - {aiSeat}, r)
      && b.players[aiSeat][r]
         == CountsOf(cards)[r] + (if aiSeat == lordSeat then CountsOf(base)[r] else 0) - RankPlayed(plays, {aiSeat}, r)
      && (seat != aiSeat ==> b.players[seat] == UNKNOWN)
  {
    hide CountsOf, PlayAll, RankPlayed, CardsPlayed;
    var b := LordSet(Dealt(aiSeat, cards), aiSeat, lordSeat, base);
    TotalsAfter(b, aiSeat, plays, seat);
    CountsAfter(b, aiSeat, plays, r);
    if seat != aiSeat {
      UnknownAfter(b, aiSeat, plays, seat);
    }
  }

  function TotalOf(b: Book): int
    requires ValidBook(b)
  {
    b.totals[0] + b.totals[1] + b.totals[2]
  }

  lemma LessSum(a: Counts, b: Counts)
    ensures Sum(Less(a, b)) == Sum(a) - Sum(b)
  {
    SumToSplit(Less(a, b), b, a, RANKS);
  }

  /** Once the lord is set, the three seats' totals always add up to the cards still in play. */
  lemma {:induction false} TotalsAddUp(aiSeat: int, lordSeat: int, cards: seq<int>, base: seq<int>, plays: seq<Play>)
    requires IsSeat(aiSeat) && IsSeat(lordSeat) && ValidCards(cards) && ValidCards(base) && ValidPlays(plays)
    ensures var b := PlayAll(LordSet(Dealt(aiSeat, cards), aiSeat, lordSeat, base), aiSeat, plays);
      TotalOf(b) == Sum(b.remain)
    decreases |plays|
  {
    var b := LordSet(Dealt(aiSeat, cards), aiSeat, lordSeat, base);
    if plays == [] {
      SumUnrolled(FULL);
    } else {
      TotalsAddUp(aiSeat, lordSeat, cards, base, plays[..|plays| - 1]);
      var p := plays[|plays| - 1];
      var before := PlayAll(b, aiSeat, plays[..|plays| - 1]);
      LessSum(before.remain, CountsOf(p.cards));
      CountsOfSum(p.cards);
    }
  }
}
