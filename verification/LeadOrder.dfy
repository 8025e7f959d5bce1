/**
  Where the lead of a level-0 robot is not its lowest hand: a nuke is listed before the bombs.
 */
module LeadOrder {
  import opened Cards
  import opened Hands
  import opened Ranks
  import opened HandMaps
  import opened Singles
  import opened Runs
  import opened SoloChains
  import opened Splitters
  import opened LevelZero

  /** Four threes and both jokers. */
  const NUKE_AND_BOMB: Counts := [4, 0, 0, 0, 0, 0, 0, 0, 0, 0, 0, 0, 0, 1, 1]

  const NUKE := Hand(Nuke, BLACK_JOKER, 0, [])
  const THREES := Hand(Bomb, CARD_3, 0, [])

  lemma BothLegal()
    ensures Legal(NUKE_AND_BOMB) && HasNuke(NUKE_AND_BOMB)
    ensures AfterNuke(NUKE_AND_BOMB) == ZERO[CARD_3 := 4]
    ensures forall s :: 0 <= s <= CARD_T ==> !FiveFrom(NUKE_AND_BOMB, s)
  {
    SumUnrolled(NUKE_AND_BOMB);
  }

  lemma BombsOfBoth()
    ensures Legal(NUKE_AND_BOMB) && BombHands(NUKE_AND_BOMB) == [NUKE, THREES] && AfterBombs(NUKE_AND_BOMB) == ZERO
    ensures SoloSplit(NUKE_AND_BOMB) == Pool(NUKE_AND_BOMB, [])
  {
    hide HasNuke, AfterNuke, Legal, FiveFrom, SoloSplit;
    BothLegal();
    FourOfThree();
    NoFiveNoChain(NUKE_AND_BOMB);
  }

  lemma FourOfThree()
    ensures RanksWith(ZERO[CARD_3 := 4], 4, CARD_3, CARD_2) == [CARD_3]
    ensures Clear(ZERO[CARD_3 := 4], 4, CARD_3, CARD_2) == ZERO
  {
    NoRanksWith(ZERO[CARD_3 := 4], 4, 1, CARD_2);
  }

  lemma NoChainsOfZero()
    ensures TrioChains(ZERO, CARD_3) == [] && PairChains(ZERO, CARD_3) == []
  {
    hide TrioChains, PairChains;
    if TrioChains(ZERO, CARD_3) != [] {
      TrioChainNeedsThree(ZERO);
    }
    if PairChains(ZERO, CARD_3) != [] {
      PairChainNeedsThree(ZERO);
    }
  }

  lemma NothingOfZero()
    ensures TrioChains(ZERO, CARD_3) == [] && Minus(ZERO, []) == ZERO
    ensures PairChains(ZERO, CARD_3) == [] && AfterPairs(ZERO, []) == ZERO
    ensures SoloSplit(ZERO) == Pool(ZERO, [])
    ensures forall m :: NormalMap(ZERO, m) == m
  {
    hide TrioChains, PairChains, NormalMap, SoloSplit;
    NoChainsOfZero();
    NoFiveNoChain(ZERO);
    forall m
      ensures NormalMap(ZERO, m) == m
    {
      NothingNormal(m);
    }
  }

  lemma NothingNormal(m: HandMap)
    ensures NormalMap(ZERO, m) == m
  {
    hide RanksWith;
    NoRanksWith(ZERO, 1, CARD_3, RED_JOKER);
    NoRanksWith(ZERO, 2, CARD_3, RED_JOKER);
    NoRanksWith(ZERO, 3, CARD_3, RED_JOKER);
    NoRanksWith(ZERO, 4, CARD_3, RED_JOKER);
  }

  lemma BothSplit(kind: int)
    requires 1 <= kind <= 3 && Legal(NUKE_AND_BOMB)
    ensures KindOf(kind, NUKE_AND_BOMB, true).m == EMPTY.(bomb := [NUKE, THREES])
  {
    hide SoloSplit, TrioChains, PairChains, BombHands, AfterBombs, Minus, AfterPairs, NormalMap;
    BombsOfBoth();
    NothingOfZero();
  }

  /** Of these six cards every split leads the nuke, although it holds the bomb of threes as well. */
  lemma NukeLedBeforeBomb(kind: int)
    requires 1 <= kind <= 3
    ensures Legal(NUKE_AND_BOMB)
    ensures var m := KindOf(kind, NUKE_AND_BOMB, true).m;
      LowestHand(m) == NUKE && In(THREES, m) && THREES.key < NUKE.key
  {
    hide KindOf, LowestHand, Legal, In;
    BombsOfBoth();
    BothSplit(kind);
    FirstBombIsLed([NUKE, THREES]);
    FiledAsBomb(EMPTY.(bomb := [NUKE, THREES]), 1);
  }

  lemma FiledAsBomb(m: HandMap, i: nat)
    requires i < |m.bomb|
    ensures In(m.bomb[i], m)
  {
    assert m.bomb[i] in Of(m, Bomb);
  }
}
