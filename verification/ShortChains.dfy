/**
  When a split holds a solo chain of four, and why it is never led with.

  The one shape that the wide trim cuts too far needs nineteen of the at most twenty cards.  It
  leaves pairs at the four lowest ranks; kinds 1 to 3 make a pair chain of them, which goes before
  the chain of four.
 */
module ShortChains {
  import opened Cards
  import opened Hands
  import opened Printer
  import opened Classifier
  import opened HandMaps
  import opened LevelZero
  import Kickers
  import opened Singles
  import opened Runs
  import opened SoloChains
  import opened Splitters
  import opened ChargeHand

  predicate ChainOfFour(h: Hand) {
    h.ty == SoloChain && h.len == 4
  }

  /** Two or three cards at each of the four lowest ranks, hardly a third one, and a gap above. */
  predicate FourPairsLow(c: Counts) {
    && 2 <= c[0] <= 3 && 2 <= c[1] <= 3 && 2 <= c[2] <= 3 && 2 <= c[3] <= 3
    && c[4] <= 1
    && c[0] + c[1] <= 5 && c[1] + c[2] <= 5 && c[2] + c[3] <= 5
  }

  // ----- the shape fills the hand of cards

  /** What the bad shape takes at least: every rank of 3..A, seven of them twice. */
  function ShapeNeeds(r: int): int {
    (if 0 <= r <= CARD_A then 1 else 0) + (if 0 <= r <= 3 || 9 <= r <= CARD_A then 1 else 0)
  }

  lemma ShapeTakes(p: Pool, k: nat, c0: Counts, r: int)
    requires k < |p.chains| && IsSolo(p.chains[k], 5) && Conserves(p, c0) && CutTooFar(p.c, p.chains[k])
    requires 0 <= r < RANKS
    ensures c0[r] >= ShapeNeeds(r) + Total(p.chains[..k] + p.chains[k + 1..], r)
  {
    TotalErase(p.chains, k, r);
    ChainAt(p.chains[k], r);
  }

  lemma ShapeSum(shape: Counts)
    requires forall r :: 0 <= r < RANKS ==> shape[r] == ShapeNeeds(r)
    ensures Sum(shape) == 19
  {
    SumUnrolled(shape);
  }

  lemma RoomForBoth(h: Hand, c0: Counts)
    requires IsSolo(h, 4)
    requires forall r :: 0 <= r < RANKS ==> c0[r] >= ShapeNeeds(r) + (if InBody(h, r) then 1 else 0)
    ensures Sum(c0) >= 23
  {
    hide ShapeNeeds;
    var shape: Counts := seq(RANKS, r requires 0 <= r < RANKS => ShapeNeeds(r));
    var body: Counts := seq(RANKS, r requires 0 <= r < RANKS => if InBody(h, r) then 1 else 0);
    var both: Counts := seq(RANKS, r requires 0 <= r < RANKS => shape[r] + body[r]);
    ShapeSum(shape);
    SumOfBody(body, h.key, h.len, 1, RANKS);
    SumToSplit(shape, body, both, RANKS);
    SumToMonotone(both, c0, RANKS);
  }

  /** There is no room for a second chain beside it. */
  lemma ShapeIsAlone(p: Pool, k: nat, c0: Counts)
    requires k < |p.chains| && IsSolo(p.chains[k], 5) && Conserves(p, c0) && CutTooFar(p.c, p.chains[k])
    requires SoloList(p.chains, 4) && Sum(c0) <= 20
    ensures |p.chains| == 1
  {
    hide ShapeNeeds, CutTooFar, Total;
    if |p.chains| > 1 {
      var others := p.chains[..k] + p.chains[k + 1..];
      var h := others[0];
      assert h == p.chains[if k == 0 then 1 else 0];
      forall r | 0 <= r < RANKS
        ensures c0[r] >= ShapeNeeds(r) + (if InBody(h, r) then 1 else 0)
      {
        ShapeTakes(p, k, c0, r);
        AtMostTotal(others, h, r);
        ChainAt(h, r);
      }
      RoomForBoth(h, c0);
    }
  }

  const FOUR := Hand(SoloChain, 4, 4, [])

  /** Both trims on a lone chain of the bad shape: ranks 4..7 stay, all others go back. */
  lemma ShapeIsCut(m: Pool)
    requires |m.chains| == 1 && IsSolo(m.chains[0], 5) && CutTooFar(m.c, m.chains[0])
    ensures var (c, h) := TrimWide(m.c, m.chains[0]);
      h == FOUR && c == AddRange(AddRange(m.c, 0, 4), 8, 12) && TrimNarrow(c, h) == (c, h)
  {
    var (c, h) := TrimWide(m.c, m.chains[0]);
    assert NarrowEnds(c, 4, 7) == (4, 7);
    assert AddRange(AddRange(c, 4, 4), 8, 8) == c;
  }

  lemma LoneChainSplit(d: Counts)
    requires NonNegative(d) && |Merged(d).chains| == 1
    requires CutTooFar(Merged(d).c, Merged(d).chains[0])
    ensures SoloSplit(d) == Pool(AddRange(AddRange(Merged(d).c, 0, 4), 8, 12), [FOUR])
  {
    var m := Merged(d);
    ShapeIsCut(m);
    var (c, h) := TrimWide(m.c, m.chains[0]);
    assert WideUpTo(m, 0) == m;
    assert WideUpTo(m, 1) == Pool(c, [h]);
    assert NarrowUpTo(Pool(c, [h]), 0) == Pool(c, [h]);
    assert NarrowUpTo(Pool(c, [h]), 1) == Pool(c, [h]);
  }

  /** The counts that carry the bad shape leave pairs at the four lowest ranks. */
  lemma ShapeLeavesPairs(m: Pool, d: Counts)
    requires |m.chains| == 1 && IsSolo(m.chains[0], 5) && Conserves(m, d) && CutTooFar(m.c, m.chains[0])
    requires Sum(d) <= 20
    ensures FourPairsLow(AddRange(AddRange(m.c, 0, 4), 8, 12))
  {
    var h := m.chains[0];
    forall r | 0 <= r < RANKS
      ensures d[r] == m.c[r] + (if r <= CARD_A then 1 else 0)
    {
      assert m.chains[1..] == [];
      assert m.c[r] + Total(m.chains, r) == d[r];
      ChainAt(h, r);
    }
    SumUnrolled(d);
  }

  /** A chain shorter than five is the chain of four from the fifth rank on, over low pairs. */
  lemma ShortChainShape(d: Counts, h: Hand)
    requires NonNegative(d) && Sum(d) <= 20 && h in SoloSplit(d).chains && h.len < 5
    ensures h == FOUR && FourPairsLow(SoloSplit(d).c)
  {
    hide SoloSplit, Merged, CutTooFar, FourPairsLow, TrimWide;
    ShortChainIff(d);
    assert exists i :: 0 <= i < |SoloSplit(d).chains| && !IsSolo(SoloSplit(d).chains[i], 5);
    var m := Merged(d);
    var j :| 0 <= j < |m.chains| && CutTooFar(WideUpTo(m, j).c, m.chains[j]);
    WideUpToFacts(m, j, d);
    ShapeIsAlone(WideUpTo(m, j), j, d);
    assert WideUpTo(m, 0) == m;
    LoneChainSplit(d);
    ShapeLeavesPairs(m, d);
  }

  // ----- exactly which counts lead to it

  /** The counts that end in a chain of four: five ranks with nothing to spare between two wide ends. */
  predicate LeavesFour(c: Counts) {
    && c[0] >= 2 && c[1] >= 2 && c[2] >= 2 && c[3] >= 2
    && c[4] == 1 && c[5] == 1 && c[6] >= 1 && c[7] >= 1 && c[8] == 1
    && c[9] >= 2 && c[10] >= 2 && c[11] >= 2
  }

  const LOW_FIVE := Hand(SoloChain, 0, 5, [])
  const LOW_SIX := Hand(SoloChain, 0, 6, [])
  const HIGH_FIVE := Hand(SoloChain, 5, 5, [])
  const HIGH_SEVEN := Hand(SoloChain, 5, 7, [])
  const WHOLE := Hand(SoloChain, 0, 12, [])

  /** Ranks 3..Q are there, and the ranks 7 and J just once. */
  predicate TwoFives(c: Counts) {
    && c[0] >= 1 && c[1] >= 1 && c[2] >= 1 && c[3] >= 1 && c[4] == 1
    && c[5] >= 1 && c[6] >= 1 && c[7] >= 1 && c[8] == 1 && c[9] >= 1
  }

  /** The loose cards once both are taken. */
  function AfterFives(c: Counts): Counts {
    SubRange(SubRange(c, 0, 5, 1), 5, 10, 1)
  }

  lemma TwoFivesExtracted(c: Counts)
    requires TwoFives(c)
    ensures Extract(Pool(c, []), 0) == Pool(AfterFives(c), [LOW_FIVE, HIGH_FIVE])
  {
    hide Extract;
    var p0 := Pool(c, []);
    ExtractTakes(p0, 0);
    var p1 := Pool(SubRange(c, 0, 5, 1), [LOW_FIVE]);
    assert [] + [LOW_FIVE] == [LOW_FIVE];
    ExtractSkips(p1, 0, 5);
    ExtractTakes(p1, 5);
    var p2 := Pool(AfterFives(c), [LOW_FIVE, HIGH_FIVE]);
    assert [LOW_FIVE] + [HIGH_FIVE] == [LOW_FIVE, HIGH_FIVE];
    ExtractStops(p2, 5);
  }

  /** The high chain takes the king and the ace. */
  function AfterHigh(c: Counts): Counts {
    c[10 := c[10] - 1][11 := c[11] - 1]
  }

  lemma HighExtended(c: Counts)
    requires c[10] >= 1 && c[11] >= 1
    ensures Extend(c, HIGH_FIVE) == (AfterHigh(c), HIGH_SEVEN)
  {
    var c1 := c[10 := c[10] - 1];
    assert Extend(AfterHigh(c), HIGH_SEVEN) == (AfterHigh(c), HIGH_SEVEN);
    assert Extend(c1, Hand(SoloChain, 5, 6, [])) == (AfterHigh(c), HIGH_SEVEN);
  }

  lemma BothExtended(c: Counts, d: Counts, low: Hand)
    requires Extend(c, LOW_FIVE) == (d, low) && d[10] >= 1 && d[11] >= 1
    ensures ExtendUpTo(Pool(c, [LOW_FIVE, HIGH_FIVE]), 2) == Pool(AfterHigh(d), [low, HIGH_SEVEN])
  {
    var p := Pool(c, [LOW_FIVE, HIGH_FIVE]);
    HighExtended(d);
    assert ExtendUpTo(p, 0) == p;
    assert ExtendUpTo(p, 1) == Pool(d, [low, HIGH_FIVE]);
  }

  lemma WholeMerged()
    ensures Merge([LOW_FIVE, HIGH_SEVEN], 0) == [WHOLE]
  {
    assert NextChain([LOW_FIVE, HIGH_SEVEN], 0, 1) == 1;
    assert Joined([LOW_FIVE, HIGH_SEVEN], 0, 1) == [WHOLE];
    assert Merge([WHOLE], 1) == [WHOLE];
  }

  lemma SixNotMerged()
    ensures Merge([LOW_SIX, HIGH_SEVEN], 0) == [LOW_SIX, HIGH_SEVEN]
  {
    var chains := [LOW_SIX, HIGH_SEVEN];
    assert NextChain(chains, 0, 2) == 2;
    assert NextChain(chains, 1, 2) == 2;
    assert Merge(chains, 2) == chains;
    assert Merge(chains, 1) == chains;
  }

  lemma LeavesFourMerged(c: Counts)
    requires NonNegative(c) && LeavesFour(c)
    ensures Merged(c) == Pool(AfterHigh(AfterFives(c)), [WHOLE])
  {
    hide Extract, Extend, ExtendUpTo, Merge;
    var d := AfterFives(c);
    TwoFivesExtracted(c);
    LowStays(d);
    BothExtended(d, d, LOW_FIVE);
    WholeMerged();
  }

  lemma LowStays(c: Counts)
    requires c[5] <= 0
    ensures Extend(c, LOW_FIVE) == (c, LOW_FIVE)
  {
  }

  lemma LowTakesSix(c: Counts)
    requires c[5] >= 1 && c[6] <= 0
    ensures Extend(c, LOW_FIVE) == (c[5 := c[5] - 1], LOW_SIX)
  {
    assert Extend(c[5 := c[5] - 1], LOW_SIX) == (c[5 := c[5] - 1], LOW_SIX);
  }

  /** With a second 8 the low chain takes it, and the two chains no longer meet. */
  lemma SecondEightParts(c: Counts)
    requires NonNegative(c) && TwoFives(c) && c[5] >= 2 && c[6] == 1 && c[10] >= 1 && c[11] >= 1
    ensures |Merged(c).chains| == 2
  {
    hide Extract, Extend, ExtendUpTo, Merge;
    var d := AfterFives(c);
    TwoFivesExtracted(c);
    LowTakesSix(d);
    BothExtended(d, d[5 := d[5] - 1], LOW_SIX);
    SixNotMerged();
  }

  lemma SpareAtEnds(c: Counts)
    requires c[0] > 0 && c[1] > 0 && c[2] > 0 && c[3] > 0 && c[4] <= 0
    requires c[8] <= 0 && c[9] > 0 && c[10] > 0 && c[11] > 0
    ensures CutTooFar(c, WHOLE)
  {
    assert SpareUp(c, 4, 3) == 0;
    assert SpareUp(c, 2, 5) == 2;
    assert SpareDown(c, 8, 4) == 0;
    assert SpareDown(c, 10, 6) == 2;
  }

  lemma LeavesFourFails(c: Counts)
    requires NonNegative(c) && LeavesFour(c)
    ensures !SoloList(SoloSplit(c).chains, 5)
  {
    hide Merged, SoloSplit, CutTooFar;
    LeavesFourMerged(c);
    SpareAtEnds(AfterHigh(AfterFives(c)));
    ShortChainIff(c);
    var m := Merged(c);
    assert WideUpTo(m, 0) == m;
    assert CutTooFar(WideUpTo(m, 0).c, m.chains[0]);
  }

  /** What the bad shape says about the counts it came from. */
  lemma ShapeCounts(m: Pool, d: Counts)
    requires |m.chains| == 1 && IsSolo(m.chains[0], 5) && Conserves(m, d) && CutTooFar(m.c, m.chains[0])
    ensures TwoFives(d) && d[10] >= 2 && d[11] >= 2 && d[9] >= 2
    ensures d[0] >= 2 && d[1] >= 2 && d[2] >= 2 && d[3] >= 2
  {
    var h := m.chains[0];
    forall r | 0 <= r < RANKS
      ensures d[r] == m.c[r] + (if r <= CARD_A then 1 else 0)
    {
      assert m.chains[1..] == [];
      assert m.c[r] + Total(m.chains, r) == d[r];
      ChainAt(h, r);
    }
  }

  lemma FailsLeavesFour(d: Counts)
    requires NonNegative(d) && Sum(d) <= 20 && !SoloList(SoloSplit(d).chains, 5)
    ensures LeavesFour(d)
  {
    hide SoloSplit, Merged, CutTooFar;
    ShortChainIff(d);
    var m := Merged(d);
    var j :| 0 <= j < |m.chains| && CutTooFar(WideUpTo(m, j).c, m.chains[j]);
    WideUpToFacts(m, j, d);
    ShapeIsAlone(WideUpTo(m, j), j, d);
    assert WideUpTo(m, 0) == m;
    ShapeCounts(m, d);
    SumUnrolled(d);
    if d[5] >= 2 {
      SecondEightParts(d);
    }
  }

  /**
    The input condition: of at most twenty cards the solo-chain split makes a chain shorter than
    five iff the four lowest ranks and Q, K, A are held twice, 7, 8 and J once, and 9 and T at all.
   */
  lemma ShortChainIffLeavesFour(c: Counts)
    requires NonNegative(c) && Sum(c) <= 20
    ensures !SoloList(SoloSplit(c).chains, 5) <==> LeavesFour(c)
  {
    if LeavesFour(c) {
      LeavesFourFails(c);
    } else if !SoloList(SoloSplit(c).chains, 5) {
      FailsLeavesFour(c);
    }
  }

  // ----- the stages after it

  lemma BombsKeepPairs(s: Split)
    requires FourPairsLow(s.left)
    ensures FourPairsLow(BombStage(s).left)
  {
  }

  lemma TrioChainsKeepPairs(s: Split)
    requires FourPairsLow(s.left)
    ensures FourPairsLow(TrioChainStage(s).left)
  {
    forall r | 0 <= r <= 4
      ensures TrioChainStage(s).left[r] == s.left[r]
    {
      TrioChainsTake(s.left, CARD_3, r);
    }
  }

  /** The pairs become a pair chain from the lowest rank or the one above it. */
  lemma PairsAreChained(c: Counts)
    requires FourPairsLow(c)
    ensures PairChains(c, CARD_3) != [] && PairChains(c, CARD_3)[0].key <= 1
  {
    assert RunEnd(c, 2, 2) == 4;
    assert RunEnd(c, 0, 2) == 4;
    var h := Hand(PairChain, 0, 4, []);
    assert OptimizePair(c, h).key <= 1;
  }

  /** The solo chains come before the pair chains, with stages in between that keep the pairs. */
  lemma ShortThenPairs(s: Split, t: Split, h: Hand)
    requires NonNegative(s.left) && Sum(s.left) <= 20 && h in SoloStage(s).m.soloChain && h.len < 5
    requires t == SoloStage(s) || t == BombStage(SoloStage(s)) || t == TrioChainStage(BombStage(SoloStage(s)))
    ensures h == FOUR && PairChainStage(t).m.pairChain != [] && PairChainStage(t).m.pairChain[0].key <= 1
  {
    ShortChainShape(s.left, h);
    BombsKeepPairs(SoloStage(s));
    TrioChainsKeepPairs(BombStage(SoloStage(s)));
    PairsAreChained(t.left);
  }

  lemma FourUnderPairs1(c: Counts, h: Hand)
    requires Legal(c) && h in Kind1(c, true).m.soloChain && h.len < 5
    ensures h == FOUR && Kind1(c, true).m.pairChain != [] && Kind1(c, true).m.pairChain[0].key <= 1
  {
    var t := TrioChainStage(BombStage(SoloStage(Start(c))));
    FinishKeepsChains(PairChainStage(t), true);
    ShortThenPairs(Start(c), t, h);
  }

  lemma FourUnderPairs2(c: Counts, h: Hand)
    requires Legal(c) && h in Kind2(c, true).m.soloChain && h.len < 5
    ensures h == FOUR && Kind2(c, true).m.pairChain != [] && Kind2(c, true).m.pairChain[0].key <= 1
  {
    StartSound(c);
    BombStageSound(Start(c), c);
    TrioChainStageSound(BombStage(Start(c)), c);
    var s := TrioChainStage(BombStage(Start(c)));
    SumToMonotone(s.left, c, RANKS);
    FinishKeepsChains(PairChainStage(SoloStage(s)), true);
    ShortThenPairs(s, SoloStage(s), h);
  }

  lemma FourUnderPairs3(c: Counts, h: Hand)
    requires Legal(c) && h in Kind3(c, true).m.soloChain && h.len < 5
    ensures h == FOUR && Kind3(c, true).m.pairChain != [] && Kind3(c, true).m.pairChain[0].key <= 1
  {
    var t := BombStage(SoloStage(Start(c)));
    FinishKeepsChains(TrioChainStage(PairChainStage(t)), true);
    ShortThenPairs(Start(c), t, h);
  }

  lemma FinishKeepsChains(s: Split, searchKicker: bool)
    ensures Finish(s, searchKicker).m.soloChain == s.m.soloChain
    ensures Finish(s, searchKicker).m.pairChain == s.m.pairChain
  {
    Kickers.AttachFrame(NormalStage(s).m);
  }

  /**
    In a split of kind 1 to 3, whatever is held, a solo chain shorter than five lies above a pair
    chain that starts at one of the two lowest ranks.
   */
  lemma FourUnderPairs(kind: int, c: Counts, h: Hand)
    requires 1 <= kind <= 3 && Legal(c)
    requires h in KindOf(kind, c, true).m.soloChain && h.len < 5
    ensures h == FOUR
    ensures var m := KindOf(kind, c, true).m; m.pairChain != [] && m.pairChain[0].key <= 1
  {
    match kind
    case 1 => FourUnderPairs1(c, h);
    case 2 => FourUnderPairs2(c, h);
    case _ => FourUnderPairs3(c, h);
  }

  lemma LowestUnderPairs(m: HandMap)
    requires MapShaped(m) && m.pairChain != []
    ensures LowestHand(m).key <= m.pairChain[0].key
  {
    hide LowestHand;
    LowestHandIsLowest(m);
    assert InOrder(m)[3] == m.pairChain;
  }

  lemma LowestFourIsFiled(m: HandMap)
    requires MapShaped(m) && ChainOfFour(LowestHand(m))
    ensures LowestHand(m) in m.soloChain
  {
    hide LowestHand;
    LowestHandIsLowest(m);
    ByType(LowestHand(m), m);
  }

  /** So the lowest hand of such a split is never a chain of four. */
  lemma NeverLedWithFour(kind: int, c: Counts)
    requires 1 <= kind <= 3 && Legal(c)
    ensures !ChainOfFour(LowestHand(KindOf(kind, c, true).m))
  {
    hide KindOf, LowestHand, MapShaped;
    KindFinished(kind, c, true);
    var m := KindOf(kind, c, true).m;
    if ChainOfFour(LowestHand(m)) {
      LowestFourIsFiled(m);
      FourUnderPairs(kind, c, LowestHand(m));
      LowestUnderPairs(m);
    }
  }

  // ----- the same for whole splits

  /** Nothing is held three times: what kind 5 takes before its solo chains. */
  predicate NoThree(c: Counts) {
    c[0] != 3 && c[1] != 3 && c[2] != 3 && c[3] != 3 && c[9] != 3 && c[10] != 3 && c[11] != 3
  }

  /** What the solo-chain stage of each kind starts from. */
  ghost function SoloInput(kind: int, c: Counts): (d: Counts)
    requires 1 <= kind <= 5 && Legal(c)
  {
    if kind == 2 then TrioChainStage(BombStage(Start(c))).left
    else if kind == 5 then TrioStage(BombStage(Start(c))).left
    else c
  }

  lemma SoloInputFacts(kind: int, c: Counts)
    requires 1 <= kind <= 5 && Legal(c)
    ensures NonNegative(SoloInput(kind, c)) && AtMost(SoloInput(kind, c), c)
    ensures KindOf(kind, c, true).m.soloChain == SoloSplit(SoloInput(kind, c)).chains
    ensures KindOf(kind, c, false).m.soloChain == SoloSplit(SoloInput(kind, c)).chains
  {
    StartSound(c);
    BombStageSound(Start(c), c);
    var b := BombStage(Start(c));
    match kind
    case 1 =>
      Kind1Finished(c, true);
      Kind1Finished(c, false);
    case 2 =>
      TrioChainStageSound(b, c);
      FinishKeepsChains(PairChainStage(SoloStage(TrioChainStage(b))), true);
      FinishKeepsChains(PairChainStage(SoloStage(TrioChainStage(b))), false);
    case 3 =>
      Kind3Finished(c, true);
      Kind3Finished(c, false);
    case 4 =>
      Kind4Finished(c, true);
      Kind4Finished(c, false);
    case _ =>
      TrioStageSound(b, c);
      FinishKeepsChains(SoloStage(TrioStage(b)), true);
      FinishKeepsChains(SoloStage(TrioStage(b)), false);
  }

  /** Twenty cards with the two wide ends leave no room for a bomb, a nuke or linked trios. */
  lemma LittleToSpare(c: Counts)
    requires Legal(c) && LeavesFour(c)
    ensures !HasNuke(c)
    ensures forall r :: 0 <= r <= CARD_2 ==> c[r] <= 3
    ensures forall r :: 0 <= r < CARD_2 ==> c[r] + c[r + 1] <= 5
    ensures c[4] <= 2 && c[5] <= 2 && c[6] <= 2 && c[7] <= 2 && c[8] <= 2 && c[12] <= 2
  {
    SumUnrolled(c);
  }

  lemma NothingTaken(c: Counts, r: int)
    requires Legal(c) && LeavesFour(c) && 0 <= r < RANKS
    ensures BombStage(Start(c)).left[r] == c[r]
    ensures TrioChainStage(BombStage(Start(c))).left[r] == c[r]
    ensures NoThree(c) ==> TrioStage(BombStage(Start(c))).left[r] == c[r]
  {
    hide TrioChains, Sum;
    LittleToSpare(c);
    var left := BombStage(Start(c)).left;
    assert left == c;
    TrioChainsTake(left, CARD_3, r);
  }

  /** Of a rank that is no joker these stages take no card, or at least three. */
  lemma TakenByThrees(kind: int, c: Counts, r: int)
    requires (kind == 2 || kind == 5) && Legal(c) && 0 <= r <= CARD_2
    ensures SoloInput(kind, c)[r] == c[r] || SoloInput(kind, c)[r] <= c[r] - 3
    ensures kind == 5 ==> SoloInput(kind, c)[r] != 3
  {
    TrioChainsTake(BombStage(Start(c)).left, CARD_3, r);
  }

  /** With nineteen cards left nothing was taken. */
  lemma LeavesFourBefore(kind: int, c: Counts)
    requires (kind == 2 || kind == 5) && Legal(c) && LeavesFour(SoloInput(kind, c))
    ensures LeavesFour(c) && (kind == 5 ==> NoThree(c))
  {
    hide SoloInput;
    SumUnrolled(c);
    var d := SoloInput(kind, c);
    forall r | 0 <= r <= CARD_2
      ensures d[r] == c[r] || d[r] <= c[r] - 3
      ensures kind == 5 ==> d[r] != 3
    {
      TakenByThrees(kind, c, r);
    }
  }

  lemma SoloInputSame(kind: int, c: Counts)
    requires 1 <= kind <= 5 && Legal(c) && LeavesFour(c) && (kind == 5 ==> NoThree(c))
    ensures SoloInput(kind, c) == c
  {
    forall r | 0 <= r < RANKS
      ensures SoloInput(kind, c)[r] == c[r]
    {
      NothingTaken(c, r);
    }
  }

  lemma LeavesFourIff(kind: int, c: Counts)
    requires 1 <= kind <= 5 && Legal(c)
    ensures LeavesFour(SoloInput(kind, c)) <==> LeavesFour(c) && (kind == 5 ==> NoThree(c))
  {
    if LeavesFour(c) && (kind == 5 ==> NoThree(c)) {
      SoloInputSame(kind, c);
    } else if LeavesFour(SoloInput(kind, c)) && (kind == 2 || kind == 5) {
      LeavesFourBefore(kind, c);
    }
  }

  lemma FourIsEmitted(d: Counts, chains: seq<Hand>)
    requires NonNegative(d) && Sum(d) <= 20 && chains == SoloSplit(d).chains && LeavesFour(d)
    ensures FOUR in chains
  {
    hide SoloSplit;
    ShortChainIffLeavesFour(d);
    var i :| 0 <= i < |chains| && !IsSolo(chains[i], 5);
    assert IsSolo(chains[i], 4);
    ShortChainShape(d, chains[i]);
  }

  /**
    When a split emits a hand that is not recognised, told from the input alone: iff the counts have
    the one shape - and, for kind 5, which takes trios first, no rank of it is held three times.
   */
  lemma SplitEmitsFourIff(kind: int, c: Counts, searchKicker: bool)
    requires 1 <= kind <= 5 && Legal(c)
    ensures FOUR in KindOf(kind, c, searchKicker).m.soloChain <==> LeavesFour(c) && (kind == 5 ==> NoThree(c))
    ensures forall h :: In(h, KindOf(kind, c, searchKicker).m) && ChainOfFour(h) ==>
      h == FOUR && LeavesFour(c) && (kind == 5 ==> NoThree(c))
  {
    hide KindOf, SoloInput, SoloSplit, LeavesFour, NoThree, Legal, In;
    var m, d := KindOf(kind, c, searchKicker).m, SoloInput(kind, c);
    SoloInputFacts(kind, c);
    SoloInputSum(kind, c);
    LeavesFourIff(kind, c);
    if LeavesFour(d) {
      FourIsEmitted(d, m.soloChain);
    }
    if FOUR in m.soloChain {
      SoloMemberShort(d, FOUR);
    }
    forall h | In(h, m) && ChainOfFour(h)
      ensures h == FOUR && LeavesFour(d)
    {
      FiledAsChain(kind, c, searchKicker, h);
      SoloMemberShort(d, h);
    }
  }

  lemma SoloInputSum(kind: int, c: Counts)
    requires 1 <= kind <= 5 && Legal(c)
    ensures NonNegative(SoloInput(kind, c)) && Sum(SoloInput(kind, c)) <= 20
  {
    hide SoloInput;
    SoloInputFacts(kind, c);
    SumToMonotone(SoloInput(kind, c), c, RANKS);
  }

  lemma FiledAsChain(kind: int, c: Counts, searchKicker: bool, h: Hand)
    requires 1 <= kind <= 5 && Legal(c) && In(h, KindOf(kind, c, searchKicker).m) && ChainOfFour(h)
    ensures h in KindOf(kind, c, searchKicker).m.soloChain
  {
    hide KindOf, Ledger, Shaped, SoloSplit;
    KindFinished(kind, c, searchKicker);
    ByType(h, KindOf(kind, c, searchKicker).m);
  }

  lemma SoloMemberShort(d: Counts, h: Hand)
    requires NonNegative(d) && Sum(d) <= 20 && h in SoloSplit(d).chains && h.len < 5
    ensures h == FOUR && LeavesFour(d)
  {
    hide SoloSplit;
    ShortChainShape(d, h);
    ShortChainIffLeavesFour(d);
    if SoloList(SoloSplit(d).chains, 5) {
      SoloMember(SoloSplit(d).chains, 5, h);
      assert false;
    }
  }

  /**
    Rating the hands of a split reads the table for solo chains within its bounds, whatever number
    of cards the opponents hold, except for the one shape and an opponent with four cards or more.
   */
  lemma RatedInTableIff(kind: int, c: Counts, searchKicker: bool, maxOppCardNum: int)
    requires 1 <= kind <= 5 && Legal(c)
    ensures (forall h :: In(h, KindOf(kind, c, searchKicker).m) ==> InTable(h, maxOppCardNum))
      <==> !(LeavesFour(c) && (kind == 5 ==> NoThree(c)) && maxOppCardNum >= 4)
  {
    hide KindOf, LeavesFour, NoThree, Legal, In;
    var m := KindOf(kind, c, searchKicker).m;
    SplitEmitsFourIff(kind, c, searchKicker);
    forall h | In(h, m) && !InTable(h, maxOppCardNum)
      ensures LeavesFour(c) && (kind == 5 ==> NoThree(c)) && maxOppCardNum >= 4
    {
      SplitChainLength(kind, c, searchKicker, h);
    }
    if FOUR in m.soloChain {
      FiledIsIn(FOUR, m);
      assert !InTable(FOUR, 4);
    }
  }

  lemma FiledIsIn(h: Hand, m: HandMap)
    requires h in m.soloChain
    ensures In(h, m)
  {
    assert h in Of(m, SoloChain);
  }

  lemma SplitChainLength(kind: int, c: Counts, searchKicker: bool, h: Hand)
    requires 1 <= kind <= 5 && Legal(c) && In(h, KindOf(kind, c, searchKicker).m) && h.ty == SoloChain
    ensures 4 <= h.len <= 12
  {
    hide KindOf, SoloInput, SoloSplit, LeavesFour, Legal, In, MapShaped, Ledger;
    KindFinished(kind, c, searchKicker);
    MapShapedMember(h, KindOf(kind, c, searchKicker).m);
    ByType(h, KindOf(kind, c, searchKicker).m);
    SoloInputFacts(kind, c);
    SoloInputSum(kind, c);
    if h.len < 5 {
      SoloMemberShort(SoloInput(kind, c), h);
    }
  }

  /** 3..A once over, and 3..6 and Q..A a second time. */
  const NINETEEN: Counts := [2, 2, 2, 2, 1, 1, 1, 1, 1, 2, 2, 2, 0, 0, 0]

  /** Of these nineteen cards every kind of split makes the chain of four, which is read as nothing. */
  lemma NineteenCardsFail(kind: int, searchKicker: bool)
    requires 1 <= kind <= 5
    ensures Legal(NINETEEN) && Sum(NINETEEN) == 19
    ensures In(FOUR, KindOf(kind, NINETEEN, searchKicker).m)
    ensures Printable(FOUR) && GetHand(Print(FOUR)) == NOTHING
  {
    hide KindOf, GetHand;
    SumUnrolled(NINETEEN);
    SplitEmitsFourIff(kind, NINETEEN, searchKicker);
    assert FOUR in Of(KindOf(kind, NINETEEN, searchKicker).m, SoloChain);
    ShortSoloChainIsLost(FOUR);
  }
}
