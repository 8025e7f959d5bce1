/**
  Extraction of bombs, trios and of everything left over (`getBomb`, `getTrio`, `getNormalHand`).

  Each method works in place on the count array and is proved equal to a declarative description:
  the hands are the ranks with a given count, ascending, and those ranks are cleared.
 */
module Singles {
  import opened Cards
  import opened Hands
  import opened Ranks
  import opened HandMaps

  /** The counts with every rank of `lo..hi` that holds exactly `k` cards emptied. */
  function Clear(c: Counts, k: int, lo: int, hi: int): Counts {
    seq(RANKS, r requires 0 <= r < RANKS => if lo <= r <= hi && c[r] == k then 0 else c[r])
  }

  predicate HasNuke(c: Counts) {
    c[BLACK_JOKER] == 1 && c[RED_JOKER] == 1
  }

  function NukeHands(c: Counts): seq<Hand> {
    if HasNuke(c) then [Hand(Nuke, BLACK_JOKER, 0, [])] else []
  }

  function AfterNuke(c: Counts): Counts {
    if HasNuke(c) then c[BLACK_JOKER := 0][RED_JOKER := 0] else c
  }

  // ----- getBomb

  function BombHands(c: Counts): seq<Hand> {
    NukeHands(c) + HandsOf(Bomb, RanksWith(AfterNuke(c), 4, CARD_3, CARD_2))
  }

  function AfterBombs(c: Counts): Counts {
    Clear(AfterNuke(c), 4, CARD_3, CARD_2)
  }

  method TakeNuke(cards: array<int>) returns (hands: seq<Hand>)
    requires cards.Length == RANKS
    modifies cards
    ensures hands == NukeHands(old(cards[..]))
    ensures cards[..] == AfterNuke(old(cards[..]))
  {
    hands := [];
    if cards[BLACK_JOKER] == 1 && cards[RED_JOKER] == 1 {
      hands := [Hand(Nuke, BLACK_JOKER, 0, [])];
      cards[BLACK_JOKER] := 0;
      cards[RED_JOKER] := 0;
    }
  }

  method TakeEqual(cards: array<int>, k: int, ty: HandType) returns (hands: seq<Hand>)
    requires cards.Length == RANKS && k != 0
    modifies cards
    ensures hands == HandsOf(ty, RanksWith(old(cards[..]), k, CARD_3, CARD_2))
    ensures cards[..] == Clear(old(cards[..]), k, CARD_3, CARD_2)
  {
    ghost var c := cards[..];
    hands := [];
    for i := CARD_3 to CARD_2 + 1
      invariant hands == HandsOf(ty, RanksWith(c, k, CARD_3, i - 1))
      invariant cards[..] == Clear(c, k, CARD_3, i - 1)
    {
      RanksWithSnoc(c, k, CARD_3, i);
      if cards[i] == k {
        HandsOfSnoc(ty, RanksWith(c, k, CARD_3, i - 1), i);
        hands := hands + [Hand(ty, i, 0, [])];
        cards[i] := 0;
      }
    }
  }

  method GetBomb(cards: array<int>) returns (hands: seq<Hand>)
    requires cards.Length == RANKS
    modifies cards
    ensures hands == BombHands(old(cards[..]))
    ensures cards[..] == AfterBombs(old(cards[..]))
  {
    hands := TakeNuke(cards);
    var bombs := TakeEqual(cards, 4, Bomb);
    hands := hands + bombs;
  }

  /** Bombs take exactly the ranks held four times and the two jokers; nothing else moves. */
  lemma BombsConserve(c: Counts, r: int)
    requires 0 <= r < RANKS
    ensures Total(BombHands(c), r) + AfterBombs(c)[r] == c[r]
    ensures r <= CARD_2 ==> AfterBombs(c)[r] != 4
    ensures 0 <= c[r] ==> 0 <= AfterBombs(c)[r]
    ensures !HasNuke(AfterBombs(c))
  {
    TotalConcat(NukeHands(c), HandsOf(Bomb, RanksWith(AfterNuke(c), 4, CARD_3, CARD_2)), r);
    TotalHandsOf(Bomb, RanksWith(AfterNuke(c), 4, CARD_3, CARD_2), r);
    NukeTotal(c, r);
  }

  lemma NukeTotal(c: Counts, r: int)
    requires 0 <= r < RANKS
    ensures Total(NukeHands(c), r) + AfterNuke(c)[r] == c[r]
  {
    if HasNuke(c) {
      var h := Hand(Nuke, BLACK_JOKER, 0, []);
      assert NukeHands(c)[1..] == [];
      assert multiset(h.kicker)[r] == 0;
    }
  }

  // ----- getTrio

  function TrioHands(c: Counts): seq<Hand> {
    HandsOf(Trio, RanksWith(c, 3, CARD_3, CARD_2))
  }

  function AfterTrios(c: Counts): Counts {
    Clear(c, 3, CARD_3, CARD_2)
  }

  method GetTrio(cards: array<int>) returns (hands: seq<Hand>)
    requires cards.Length == RANKS
    modifies cards
    ensures hands == TrioHands(old(cards[..]))
    ensures cards[..] == AfterTrios(old(cards[..]))
  {
    hands := TakeEqual(cards, 3, Trio);
  }

  lemma TriosConserve(c: Counts, r: int)
    requires 0 <= r < RANKS
    ensures Total(TrioHands(c), r) + AfterTrios(c)[r] == c[r]
    ensures r <= CARD_2 ==> AfterTrios(c)[r] != 3
  {
    TotalHandsOf(Trio, RanksWith(c, 3, CARD_3, CARD_2), r);
  }

  // ----- getNormalHand

  function NormalRanks(c: Counts, k: int): seq<int> {
    RanksWith(AfterNuke(c), k, CARD_3, RED_JOKER)
  }

  /** The map with every rank of count 4, 3, 2 and 1 appended to bombs, trios, pairs and solos. */
  function NormalMap(c: Counts, m: HandMap): HandMap {
    m.(bomb := m.bomb + NukeHands(c) + HandsOf(Bomb, NormalRanks(c, 4)),
       trio := m.trio + HandsOf(Trio, NormalRanks(c, 3)),
       pair := m.pair + HandsOf(Pair, NormalRanks(c, 2)),
       solo := m.solo + HandsOf(Solo, NormalRanks(c, 1)))
  }

  /** What no single-rank hand can take: ranks driven negative, or above four. */
  function AfterNormal(c: Counts): Counts {
    seq(RANKS, r requires 0 <= r < RANKS => if 1 <= AfterNuke(c)[r] <= 4 then 0 else AfterNuke(c)[r])
  }

  /** Of up to four cards of a rank nothing is left over; a negative count stays as it is. */
  lemma AfterNormalAt(c: Counts, r: int)
    requires 0 <= r < RANKS && c[r] <= 4
    ensures AfterNormal(c)[r] == if c[r] < 0 then c[r] else 0
  {
  }

  /** The hands of type `ty` for the ranks up to `hi` that hold exactly `k` cards. */
  ghost function UpTo(ty: HandType, c: Counts, k: int, hi: int): seq<Hand>
    requires hi < RANKS
  {
    HandsOf(ty, RanksWith(c, k, CARD_3, hi))
  }

  lemma UpToSnoc(ty: HandType, c: Counts, k: int, hi: int)
    requires 0 <= hi < RANKS
    ensures UpTo(ty, c, k, hi) == UpTo(ty, c, k, hi - 1) + (if c[hi] == k then [Hand(ty, hi, 0, [])] else [])
  {
    RanksWithSnoc(c, k, CARD_3, hi);
    HandsOfSnoc(ty, RanksWith(c, k, CARD_3, hi - 1), hi);
  }

  lemma UpToNothing(c: Counts)
    ensures forall ty, k :: UpTo(ty, c, k, -1) == []
  {
  }

  method GetNormalHand(cards: array<int>, m: HandMap) returns (m': HandMap)
    requires cards.Length == RANKS
    modifies cards
    ensures m' == NormalMap(old(cards[..]), m)
    ensures cards[..] == AfterNormal(old(cards[..]))
  {
    hide HandsOf, RanksWith;
    var nuke := TakeNuke(cards);
    ghost var c := cards[..];
    var bombs, trios, pairs, solos := [], [], [], [];
    UpToNothing(c);
    for i := CARD_3 to RED_JOKER + 1
      invariant bombs == UpTo(Bomb, c, 4, i - 1)
      invariant trios == UpTo(Trio, c, 3, i - 1)
      invariant pairs == UpTo(Pair, c, 2, i - 1)
      invariant solos == UpTo(Solo, c, 1, i - 1)
      invariant forall r :: 0 <= r < RANKS ==> cards[r] == if r < i && 1 <= c[r] <= 4 then 0 else c[r]
    {
      UpToSnoc(Bomb, c, 4, i);
      UpToSnoc(Trio, c, 3, i);
      UpToSnoc(Pair, c, 2, i);
      UpToSnoc(Solo, c, 1, i);
      if cards[i] == 4 {
        bombs := bombs + [Hand(Bomb, i, 0, [])];
        cards[i] := 0;
      } else if cards[i] == 3 {
        trios := trios + [Hand(Trio, i, 0, [])];
        cards[i] := 0;
      }
      if cards[i] == 2 {
        pairs := pairs + [Hand(Pair, i, 0, [])];
        cards[i] := 0;
      }
      if cards[i] == 1 {
        solos := solos + [Hand(Solo, i, 0, [])];
        cards[i] := 0;
      }
    }
    m' := m.(bomb := m.bomb + nuke + bombs, trio := m.trio + trios,
             pair := m.pair + pairs, solo := m.solo + solos);
  }

  /** The leftover hands and the leftover counts add up to what was there. */
  lemma NormalConserves(c: Counts, m: HandMap, r: int)
    requires 0 <= r < RANKS
    ensures MapTotal(NormalMap(c, m), r) + AfterNormal(c)[r] == MapTotal(m, r) + c[r]
  {
    hide HandsOf, RanksWith, Total;
    TotalHandsOf(Bomb, NormalRanks(c, 4), r);
    TotalHandsOf(Trio, NormalRanks(c, 3), r);
    TotalHandsOf(Pair, NormalRanks(c, 2), r);
    TotalHandsOf(Solo, NormalRanks(c, 1), r);
    NukeTotal(c, r);
    TotalConcat(m.bomb + NukeHands(c), HandsOf(Bomb, NormalRanks(c, 4)), r);
    TotalConcat(m.bomb, NukeHands(c), r);
    TotalConcat(m.trio, HandsOf(Trio, NormalRanks(c, 3)), r);
    TotalConcat(m.pair, HandsOf(Pair, NormalRanks(c, 2)), r);
    TotalConcat(m.solo, HandsOf(Solo, NormalRanks(c, 1)), r);
  }
}
