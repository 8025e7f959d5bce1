/**
  The five ways to split a seat's cards into hands (`splitCardsToHandsKind1..5`), as pipelines of
  extraction stages, and the ledger every stage keeps.
 */
module Splitters {
  import opened Cards
  import opened Hands
  import opened Ranks
  import opened HandMaps
  import opened Singles
  import opened Runs
  import opened SoloChains
  import opened Kickers

  /** Hands found so far and counts not yet spent. */
  datatype Split = Split(m: HandMap, left: Counts)

  function Start(c: Counts): Split {
    Split(EMPTY, c)
  }

  function SoloStage(s: Split): Split
    requires NonNegative(s.left)
  {
    var p := SoloSplit(s.left);
    Split(s.m.(soloChain := p.chains), p.c)
  }

  function BombStage(s: Split): Split {
    Split(s.m.(bomb := BombHands(s.left)), AfterBombs(s.left))
  }

  function TrioStage(s: Split): Split {
    Split(s.m.(trio := TrioHands(s.left)), AfterTrios(s.left))
  }

  function TrioChainStage(s: Split): Split {
    var hands := TrioChains(s.left, CARD_3);
    Split(s.m.(trioChain := hands), Minus(s.left, hands))
  }

  function PairChainStage(s: Split): Split {
    var hands := PairChains(s.left, CARD_3);
    Split(s.m.(pairChain := hands), AfterPairs(s.left, hands))
  }

  function NormalStage(s: Split): Split {
    Split(NormalMap(s.left, s.m), AfterNormal(s.left))
  }

  function KickerStage(s: Split, searchKicker: bool): Split {
    if searchKicker then s.(m := Attach(s.m)) else s
  }

  // ----- the ledger

  /** Hands, unspent counts and double debits add up to the input, and no rank is overdrawn. */
  ghost predicate Ledger(s: Split, c: Counts) {
    forall r :: 0 <= r < RANKS ==>
      && MapTotal(s.m, r) + s.left[r] + 2 * Debits(s.m.pairChain, r) == c[r]
      && 0 <= s.left[r] + 2 * Debits(s.m.pairChain, r)
  }

  /** The ranks of trios and of trio-chain bodies are used up. */
  ghost predicate Spent(s: Split) {
    && (forall i, r :: 0 <= i < |s.m.trioChain| && 0 <= r < RANKS && InBody(s.m.trioChain[i], r) ==> s.left[r] <= 0)
    && (forall i :: 0 <= i < |s.m.trio| ==> 0 <= s.m.trio[i].key < RANKS && s.left[s.m.trio[i].key] <= 0)
  }

  /** Everything a split in progress satisfies. */
  ghost predicate Sound(s: Split, c: Counts) {
    && Legal(c)
    && Ledger(s, c)
    && Spent(s)
    && MapShaped(s.m)
    && (s.m.pairChain == [] ==> NonNegative(s.left))
  }

  ghost predicate NoFours(s: Split) {
    forall r :: 0 <= r <= CARD_2 ==> s.left[r] <= 3
  }

  lemma StartSound(c: Counts)
    requires Legal(c)
    ensures Sound(Start(c), c)
  {
  }

  lemma LeftAtMost(s: Split, c: Counts, r: int)
    requires Sound(s, c) && 0 <= r < RANKS
    ensures s.left[r] <= c[r] <= 4
    ensures CARD_2 < r ==> s.left[r] <= 1
  {
  }

  /** What one extraction stage has to show: cards move from the counts to new hands. */
  ghost predicate Moves(s: Split, t: Split, r: int)
    requires 0 <= r < RANKS
  {
    && MapTotal(t.m, r) + t.left[r] + 2 * Debits(t.m.pairChain, r)
       == MapTotal(s.m, r) + s.left[r] + 2 * Debits(s.m.pairChain, r)
    && 0 <= t.left[r] + 2 * Debits(t.m.pairChain, r)
    && t.left[r] <= s.left[r]
    && (t.m.pairChain == [] ==> 0 <= t.left[r])
  }

  lemma StepSound(s: Split, t: Split, c: Counts)
    requires Sound(s, c) && MapShaped(t.m) && Spent(t)
    requires forall r :: 0 <= r < RANKS ==> Moves(s, t, r)
    ensures Sound(t, c)
    ensures NoFours(s) ==> NoFours(t)
  {
    hide MapTotal, MapShaped, Debits, Spent;
    forall r | 0 <= r < RANKS
      ensures MapTotal(t.m, r) + t.left[r] + 2 * Debits(t.m.pairChain, r) == c[r]
      ensures 0 <= t.left[r] + 2 * Debits(t.m.pairChain, r)
      ensures t.m.pairChain == [] ==> 0 <= t.left[r]
      ensures t.left[r] <= s.left[r]
    {
      assert Moves(s, t, r);
    }
  }

  lemma SpentKept(s: Split, t: Split)
    requires Spent(s) && t.m.trioChain == s.m.trioChain && t.m.trio == s.m.trio
    requires AtMost(t.left, s.left)
    ensures Spent(t)
  {
  }

  lemma MovesDown(s: Split, t: Split)
    requires forall r :: 0 <= r < RANKS ==> Moves(s, t, r)
    ensures AtMost(t.left, s.left)
  {
    forall r | 0 <= r < RANKS
      ensures t.left[r] <= s.left[r]
    {
      assert Moves(s, t, r);
    }
  }

  lemma HandsOfShaped(ty: HandType, c: Counts, k: int)
    requires ty == Trio || ty == Bomb || ty == Pair
    ensures AllShaped(HandsOf(ty, RanksWith(c, k, CARD_3, CARD_2)), ty)
  {
    var ranks := RanksWith(c, k, CARD_3, CARD_2);
    forall i | 0 <= i < |ranks|
      ensures 0 <= ranks[i] <= CARD_2
    {
      assert ranks[i] in ranks;
    }
  }

  lemma SoloStageRank(s: Split, r: int)
    requires NonNegative(s.left) && s.m.soloChain == [] && s.m.pairChain == [] && 0 <= r < RANKS
    ensures Moves(s, SoloStage(s), r)
  {
    assert Conserves(SoloSplit(s.left), s.left);
  }

  lemma SoloListShaped(hands: seq<Hand>, least: int)
    requires SoloList(hands, least) && 1 <= least
    ensures AllShaped(hands, SoloChain)
  {
    forall i | 0 <= i < |hands|
      ensures Shaped(hands[i]) && hands[i].ty == SoloChain
    {
      assert IsSolo(hands[i], least);
    }
  }

  lemma SoloStageSound(s: Split, c: Counts)
    requires Sound(s, c) && s.m.soloChain == [] && s.m.pairChain == []
    ensures Sound(SoloStage(s), c) && NonNegative(SoloStage(s).left)
    ensures NoFours(s) ==> NoFours(SoloStage(s))
  {
    hide Ledger, Spent, Moves, Shaped, SoloSplit;
    var t := SoloStage(s);
    forall r | 0 <= r < RANKS { SoloStageRank(s, r); }
    SoloListShaped(t.m.soloChain, 4);
    MovesDown(s, t);
    SpentKept(s, t);
    StepSound(s, t, c);
  }

  lemma BombStageSound(s: Split, c: Counts)
    requires Sound(s, c) && s.m.bomb == [] && s.m.pairChain == []
    ensures Sound(BombStage(s), c) && NoFours(BombStage(s)) && NonNegative(BombStage(s).left)
  {
    hide Ledger, Spent, Moves, Shaped, BombHands, AfterBombs;
    var t := BombStage(s);
    forall r | 0 <= r < RANKS
      ensures Moves(s, t, r)
      ensures r <= CARD_2 ==> t.left[r] <= 3
    {
      BombStageRank(s, c, r);
    }
    BombsShaped(s.left);
    MovesDown(s, t);
    SpentKept(s, t);
    StepSound(s, t, c);
  }

  lemma BombStageRank(s: Split, c: Counts, r: int)
    requires Sound(s, c) && s.m.bomb == [] && s.m.pairChain == [] && 0 <= r < RANKS
    ensures Moves(s, BombStage(s), r)
    ensures r <= CARD_2 ==> BombStage(s).left[r] <= 3
  {
    hide BombHands, AfterBombs, Spent, MapShaped;
    BombsConserve(s.left, r);
    LeftAtMost(s, c, r);
  }

  lemma BombsShaped(c: Counts)
    ensures forall i :: 0 <= i < |BombHands(c)| ==>
      (BombHands(c)[i].ty == Bomb || BombHands(c)[i].ty == Nuke) && Shaped(BombHands(c)[i])
  {
    HandsOfShaped(Bomb, AfterNuke(c), 4);
  }

  lemma TrioStageRank(s: Split, r: int)
    requires NonNegative(s.left) && s.m.trio == [] && s.m.pairChain == [] && 0 <= r < RANKS
    ensures Moves(s, TrioStage(s), r)
  {
    TriosConserve(s.left, r);
  }

  lemma TrioStageSound(s: Split, c: Counts)
    requires Sound(s, c) && NoFours(s) && s.m.trio == [] && s.m.pairChain == []
    ensures Sound(TrioStage(s), c) && NoFours(TrioStage(s)) && NonNegative(TrioStage(s).left)
  {
    hide Ledger, Spent, Moves, Shaped, AfterTrios;
    var t := TrioStage(s);
    forall r | 0 <= r < RANKS { TrioStageRank(s, r); }
    HandsOfShaped(Trio, s.left, 3);
    MovesDown(s, t);
    TriosSpent(s, t);
    StepSound(s, t, c);
  }

  lemma TriosSpent(s: Split, t: Split)
    requires Spent(s) && t == TrioStage(s) && AtMost(t.left, s.left)
    ensures Spent(t)
  {
    var ranks := RanksWith(s.left, 3, CARD_3, CARD_2);
    forall i | 0 <= i < |t.m.trio|
      ensures 0 <= t.m.trio[i].key < RANKS && t.left[t.m.trio[i].key] <= 0
    {
      assert t.m.trio[i].key == ranks[i];
      assert ranks[i] in ranks;
    }
  }

  lemma TrioChainStageRank(s: Split, c: Counts, r: int)
    requires Sound(s, c) && s.m.trioChain == [] && 0 <= r < RANKS
    ensures Moves(s, TrioChainStage(s), r)
  {
    TrioChainsTake(s.left, CARD_3, r);
  }

  lemma TrioChainStageSound(s: Split, c: Counts)
    requires Sound(s, c) && NoFours(s) && s.m.trioChain == []
    ensures Sound(TrioChainStage(s), c) && NoFours(TrioChainStage(s))
  {
    hide Ledger, Spent, Moves, Shaped, TrioChains;
    var t := TrioChainStage(s);
    TrioChainsShaped(s.left, CARD_3);
    forall r | 0 <= r < RANKS { TrioChainStageRank(s, c, r); }
    MovesDown(s, t);
    TrioChainsSpent(s, t);
    StepSound(s, t, c);
  }

  lemma TrioChainsSpent(s: Split, t: Split)
    requires Spent(s) && NoFours(s) && t == TrioChainStage(s) && AtMost(t.left, s.left)
    ensures Spent(t)
  {
    var hands := t.m.trioChain;
    TrioChainsShaped(s.left, CARD_3);
    forall i, r | 0 <= i < |hands| && 0 <= r < RANKS && InBody(hands[i], r)
      ensures t.left[r] <= 0
    {
      AtMostTotal(hands, hands[i], r);
      TrioChainsTake(s.left, CARD_3, r);
    }
  }

  lemma PairChainStageRank(s: Split, c: Counts, r: int)
    requires Sound(s, c) && s.m.pairChain == [] && 0 <= r < RANKS
    ensures Moves(s, PairChainStage(s), r)
  {
    PairChainsTake(s.left, CARD_3, r);
    if PairChains(s.left, CARD_3) == [] {
      assert Total(PairChains(s.left, CARD_3), r) == 0;
    }
  }

  lemma PairChainStageSound(s: Split, c: Counts)
    requires Sound(s, c) && s.m.pairChain == []
    ensures Sound(PairChainStage(s), c)
    ensures NoFours(s) ==> NoFours(PairChainStage(s))
  {
    hide Ledger, Spent, Moves, Shaped, PairChains;
    var t := PairChainStage(s);
    PairChainsShaped(s.left, CARD_3);
    forall r | 0 <= r < RANKS { PairChainStageRank(s, c, r); }
    MovesDown(s, t);
    SpentKept(s, t);
    StepSound(s, t, c);
  }

  lemma NormalStageLedger(s: Split, c: Counts)
    requires Sound(s, c)
    ensures Ledger(NormalStage(s), c)
    ensures forall r :: 0 <= r < RANKS ==> NormalStage(s).left[r] <= 0
    ensures s.m.pairChain == [] ==> NormalStage(s).left == ZERO
  {
    hide MapTotal, AfterNormal, Spent, MapShaped;
    var t := NormalStage(s);
    forall r | 0 <= r < RANKS
      ensures MapTotal(t.m, r) + t.left[r] == MapTotal(s.m, r) + s.left[r]
      ensures t.left[r] == if s.left[r] < 0 then s.left[r] else 0
    {
      NormalConserves(s.left, s.m, r);
      LeftAtMost(s, c, r);
      AfterNormalAt(s.left, r);
    }
  }

  lemma NormalRanksBelow(s: Split, c: Counts, k: int, i: int)
    requires Sound(s, c) && 1 <= k <= 4 && 0 <= i < |NormalRanks(s.left, k)|
    ensures 0 <= NormalRanks(s.left, k)[i] <= RED_JOKER
    ensures 2 <= k ==> NormalRanks(s.left, k)[i] <= CARD_2
  {
    assert NormalRanks(s.left, k)[i] in NormalRanks(s.left, k);
    LeftAtMost(s, c, NormalRanks(s.left, k)[i]);
  }

  lemma NormalHandsShaped(s: Split, c: Counts, ty: HandType, k: int)
    requires Sound(s, c)
    requires (ty, k) in {(Bomb, 4), (Trio, 3), (Pair, 2), (Solo, 1)}
    ensures AllShaped(HandsOf(ty, NormalRanks(s.left, k)), ty)
  {
    forall i | 0 <= i < |NormalRanks(s.left, k)|
      ensures Shaped(HandsOf(ty, NormalRanks(s.left, k))[i])
    {
      NormalRanksBelow(s, c, k, i);
    }
  }

  lemma ConcatShaped(a: seq<Hand>, b: seq<Hand>, ty: HandType)
    requires AllShaped(a, ty) && AllShaped(b, ty)
    ensures AllShaped(a + b, ty)
  {
  }

  lemma NormalListsShaped(s: Split, c: Counts)
    requires Sound(s, c)
    ensures MapShaped(NormalMap(s.left, s.m))
  {
    NormalHandsShaped(s, c, Trio, 3);
    NormalHandsShaped(s, c, Pair, 2);
    NormalHandsShaped(s, c, Solo, 1);
    ConcatShaped(s.m.trio, HandsOf(Trio, NormalRanks(s.left, 3)), Trio);
    ConcatShaped(s.m.pair, HandsOf(Pair, NormalRanks(s.left, 2)), Pair);
    ConcatShaped(s.m.solo, HandsOf(Solo, NormalRanks(s.left, 1)), Solo);
    NormalBombsShaped(s, c);
  }

  lemma NormalBombsShaped(s: Split, c: Counts)
    requires Sound(s, c)
    ensures var bombs := s.m.bomb + NukeHands(s.left) + HandsOf(Bomb, NormalRanks(s.left, 4));
      forall i :: 0 <= i < |bombs| ==> (bombs[i].ty == Bomb || bombs[i].ty == Nuke) && Shaped(bombs[i])
  {
    assert MapShaped(s.m);
    hide Shaped, NukeHands, NormalRanks, Sound;
    NormalHandsShaped(s, c, Bomb, 4);
    NukeShaped(s.left);
  }

  lemma NukeShaped(c: Counts)
    ensures forall i :: 0 <= i < |NukeHands(c)| ==> NukeHands(c)[i].ty == Nuke && Shaped(NukeHands(c)[i])
  {
  }

  lemma NormalKey(s: Split, k: int, r: int)
    requires r in NormalRanks(s.left, k)
    ensures 0 <= r < RANKS && AfterNuke(s.left)[r] == k
    ensures 0 < k ==> s.left[r] == k
  {
  }

  /** What comes out of the last extraction stage is ready for the kicker search. */
  lemma NormalStageAttachable(s: Split, c: Counts)
    requires Sound(s, c) && s.m.solo == [] && s.m.pair == []
    ensures Attachable(NormalStage(s).m)
  {
    var m := NormalStage(s).m;
    NormalListsShaped(s, c);
    assert Keys(m.solo) == NormalRanks(s.left, 1);
    assert Keys(m.pair) == NormalRanks(s.left, 2);
    NormalJokers(s);
    NormalBodies(s);
    NormalTrios(s);
  }

  lemma NormalJokers(s: Split)
    ensures !(BLACK_JOKER in NormalRanks(s.left, 1) && RED_JOKER in NormalRanks(s.left, 1))
  {
  }

  lemma NormalBodies(s: Split)
    requires Spent(s)
    ensures forall i, r :: 0 <= i < |s.m.trioChain| && r in NormalRanks(s.left, 2) ==> !InBody(s.m.trioChain[i], r)
  {
    forall i, r | 0 <= i < |s.m.trioChain| && r in NormalRanks(s.left, 2)
      ensures !InBody(s.m.trioChain[i], r)
    {
      NormalKey(s, 2, r);
    }
  }

  lemma NormalTrios(s: Split)
    requires Spent(s)
    ensures var trios := s.m.trio + HandsOf(Trio, NormalRanks(s.left, 3));
      forall i :: 0 <= i < |trios| ==>
        trios[i].key !in NormalRanks(s.left, 1) && trios[i].key !in NormalRanks(s.left, 2)
  {
    var threes := NormalRanks(s.left, 3);
    var trios := s.m.trio + HandsOf(Trio, threes);
    forall i | 0 <= i < |trios|
      ensures trios[i].key !in NormalRanks(s.left, 1) && trios[i].key !in NormalRanks(s.left, 2)
    {
      var r := trios[i].key;
      if i < |s.m.trio| {
        assert r == s.m.trio[i].key;
        assert s.left[r] <= 0;
      } else {
        assert r == threes[i - |s.m.trio|];
        assert r in threes;
      }
    }
  }

  /** The end of every split: leftovers, then kickers if asked for. */
  function Finish(s: Split, searchKicker: bool): Split {
    KickerStage(NormalStage(s), searchKicker)
  }

  /** What holds of a finished split. */
  ghost predicate Finished(s: Split, c: Counts) {
    && Ledger(s, c)
    && MapShaped(s.m)
    && (forall r :: 0 <= r < RANKS ==> s.left[r] <= 0)
    && (s.m.pairChain == [] ==> s.left == ZERO)
  }

  lemma FinishFinished(s: Split, searchKicker: bool, c: Counts)
    requires Sound(s, c) && s.m.solo == [] && s.m.pair == []
    ensures Finished(Finish(s, searchKicker), c)
    ensures Finish(s, searchKicker).m.soloChain == s.m.soloChain
    ensures Finish(s, searchKicker).m.pairChain == s.m.pairChain
  {
    var n := NormalStage(s);
    NormalStageLedger(s, c);
    NormalListsShaped(s, c);
    if searchKicker {
      NormalStageAttachable(s, c);
      assert FitsIn(n.m, c);
      AttachFacts(n.m, c);
    }
  }

  // ----- the five kinds

  function Kind1(c: Counts, searchKicker: bool): Split
    requires Legal(c)
  {
    Finish(PairChainStage(TrioChainStage(BombStage(SoloStage(Start(c))))), searchKicker)
  }

  function Kind2(c: Counts, searchKicker: bool): Split
    requires Legal(c)
  {
    var s := BombStage(Start(c));
    StartSound(c);
    BombStageSound(Start(c), c);
    TrioChainStageSound(s, c);
    Finish(PairChainStage(SoloStage(TrioChainStage(s))), searchKicker)
  }

  function Kind3(c: Counts, searchKicker: bool): Split
    requires Legal(c)
  {
    Finish(TrioChainStage(PairChainStage(BombStage(SoloStage(Start(c))))), searchKicker)
  }

  function Kind4(c: Counts, searchKicker: bool): Split
    requires Legal(c)
  {
    Finish(BombStage(SoloStage(Start(c))), searchKicker)
  }

  function Kind5(c: Counts, searchKicker: bool): Split
    requires Legal(c)
  {
    var s := BombStage(Start(c));
    StartSound(c);
    BombStageSound(Start(c), c);
    TrioStageSound(s, c);
    Finish(SoloStage(TrioStage(s)), searchKicker)
  }

  function KindOf(kind: int, c: Counts, searchKicker: bool): Split
    requires 1 <= kind <= 5 && Legal(c)
  {
    match kind
    case 1 => Kind1(c, searchKicker)
    case 2 => Kind2(c, searchKicker)
    case 3 => Kind3(c, searchKicker)
    case 4 => Kind4(c, searchKicker)
    case _ => Kind5(c, searchKicker)
  }

  lemma Kind1Finished(c: Counts, searchKicker: bool)
    requires Legal(c)
    ensures Finished(Kind1(c, searchKicker), c)
    ensures Kind1(c, searchKicker).m.soloChain == SoloSplit(c).chains
  {
    StartSound(c);
    var s1 := SoloStage(Start(c));
    SoloStageSound(Start(c), c);
    var s2 := BombStage(s1);
    BombStageSound(s1, c);
    var s3 := TrioChainStage(s2);
    TrioChainStageSound(s2, c);
    PairChainStageSound(s3, c);
    FinishFinished(PairChainStage(s3), searchKicker, c);
  }

  lemma Kind2Finished(c: Counts, searchKicker: bool)
    requires Legal(c)
    ensures Finished(Kind2(c, searchKicker), c)
    ensures exists d: Counts ::
      NonNegative(d) && AtMost(d, c) && Kind2(c, searchKicker).m.soloChain == SoloSplit(d).chains
  {
    StartSound(c);
    var s1 := BombStage(Start(c));
    BombStageSound(Start(c), c);
    var s2 := TrioChainStage(s1);
    TrioChainStageSound(s1, c);
    var s3 := SoloStage(s2);
    SoloStageSound(s2, c);
    PairChainStageSound(s3, c);
    FinishFinished(PairChainStage(s3), searchKicker, c);
    assert NonNegative(s2.left) && AtMost(s2.left, c);
  }

  lemma Kind3Finished(c: Counts, searchKicker: bool)
    requires Legal(c)
    ensures Finished(Kind3(c, searchKicker), c)
    ensures Kind3(c, searchKicker).m.soloChain == SoloSplit(c).chains
  {
    StartSound(c);
    var s1 := SoloStage(Start(c));
    SoloStageSound(Start(c), c);
    var s2 := BombStage(s1);
    BombStageSound(s1, c);
    var s3 := PairChainStage(s2);
    PairChainStageSound(s2, c);
    TrioChainStageSound(s3, c);
    FinishFinished(TrioChainStage(s3), searchKicker, c);
  }

  lemma Kind4Finished(c: Counts, searchKicker: bool)
    requires Legal(c)
    ensures Finished(Kind4(c, searchKicker), c)
    ensures Kind4(c, searchKicker).m.soloChain == SoloSplit(c).chains
    ensures Kind4(c, searchKicker).m.pairChain == []
  {
    StartSound(c);
    var s1 := SoloStage(Start(c));
    SoloStageSound(Start(c), c);
    BombStageSound(s1, c);
    FinishFinished(BombStage(s1), searchKicker, c);
  }

  lemma Kind5Finished(c: Counts, searchKicker: bool)
    requires Legal(c)
    ensures Finished(Kind5(c, searchKicker), c)
    ensures exists d: Counts ::
      NonNegative(d) && AtMost(d, c) && Kind5(c, searchKicker).m.soloChain == SoloSplit(d).chains
    ensures Kind5(c, searchKicker).m.pairChain == []
  {
    StartSound(c);
    var s1 := BombStage(Start(c));
    BombStageSound(Start(c), c);
    var s2 := TrioStage(s1);
    TrioStageSound(s1, c);
    SoloStageSound(s2, c);
    FinishFinished(SoloStage(s2), searchKicker, c);
    assert NonNegative(s2.left) && AtMost(s2.left, c);
  }

  lemma KindFinished(kind: int, c: Counts, searchKicker: bool)
    requires 1 <= kind <= 5 && Legal(c)
    ensures Finished(KindOf(kind, c, searchKicker), c)
    ensures exists d: Counts ::
      NonNegative(d) && AtMost(d, c) && KindOf(kind, c, searchKicker).m.soloChain == SoloSplit(d).chains
    ensures kind >= 4 ==> KindOf(kind, c, searchKicker).m.pairChain == []
  {
    assert NonNegative(c) && AtMost(c, c);
    match kind
    case 1 => Kind1Finished(c, searchKicker);
    case 2 => Kind2Finished(c, searchKicker);
    case 3 => Kind3Finished(c, searchKicker);
    case 4 => Kind4Finished(c, searchKicker);
    case _ => Kind5Finished(c, searchKicker);
  }

  // ----- what each kind takes first

  lemma SoloSplitLeaves(c: Counts)
    requires NonNegative(c)
    ensures SoloSplit(c).c == Minus(c, SoloSplit(c).chains)
  {
    hide SoloSplit;
    var p := SoloSplit(c);
    assert forall r :: 0 <= r < RANKS ==> p.c[r] + Total(p.chains, r) == c[r];
  }

  lemma BombsLeave(c: Counts)
    ensures AfterBombs(c) == Minus(c, BombHands(c))
  {
    hide BombHands, AfterBombs;
    forall r | 0 <= r < RANKS
      ensures AfterBombs(c)[r] == c[r] - Total(BombHands(c), r)
    {
      BombsConserve(c, r);
    }
  }

  lemma TriosLeave(c: Counts)
    ensures AfterTrios(c) == Minus(c, TrioHands(c))
  {
    hide TrioHands, AfterTrios;
    forall r | 0 <= r < RANKS
      ensures AfterTrios(c)[r] == c[r] - Total(TrioHands(c), r)
    {
      TriosConserve(c, r);
    }
  }

  lemma NormalKeepsChains(s: Split)
    ensures NormalStage(s).m.soloChain == s.m.soloChain && NormalStage(s).m.trioChain == s.m.trioChain
    ensures NormalStage(s).m.pairChain == s.m.pairChain && s.m.bomb <= NormalStage(s).m.bomb
    ensures s.m.trio <= NormalStage(s).m.trio
  {
  }

  /** Kind 1: solo chains from all cards, then bombs, then trio chains, then pair chains from what is left. */
  lemma OrderOfKind1(c: Counts)
    requires Legal(c)
    ensures var m := Kind1(c, false).m;
      var d1 := Minus(c, m.soloChain);
      var d2 := Minus(d1, BombHands(d1));
      && m.soloChain == SoloSplit(c).chains && BombHands(d1) <= m.bomb
      && m.trioChain == TrioChains(d2, CARD_3)
      && m.pairChain == PairChains(Minus(d2, m.trioChain), CARD_3)
  {
    hide SoloSplit, BombHands, AfterBombs, TrioChains, PairChains, Minus, AfterPairs, NormalMap, AfterNormal;
    SoloSplitLeaves(c);
    BombsLeave(SoloSplit(c).c);
    NormalKeepsChains(PairChainStage(TrioChainStage(BombStage(SoloStage(Start(c))))));
  }

  /** Kind 2: bombs and trio chains from all cards, then solo chains, then pair chains. */
  lemma OrderOfKind2(c: Counts)
    requires Legal(c)
    ensures var m := Kind2(c, false).m;
      var d1 := Minus(c, BombHands(c));
      var d2 := Minus(d1, m.trioChain);
      && BombHands(c) <= m.bomb && m.trioChain == TrioChains(d1, CARD_3)
      && NonNegative(d2) && m.soloChain == SoloSplit(d2).chains
      && m.pairChain == PairChains(Minus(d2, m.soloChain), CARD_3)
  {
    hide SoloSplit, BombHands, AfterBombs, TrioChains, PairChains, Minus, AfterPairs, NormalMap, AfterNormal;
    StartSound(c);
    BombStageSound(Start(c), c);
    var s := TrioChainStage(BombStage(Start(c)));
    TrioChainStageSound(BombStage(Start(c)), c);
    BombsLeave(c);
    SoloSplitLeaves(s.left);
    NormalKeepsChains(PairChainStage(SoloStage(s)));
  }

  /** Kind 3: like kind 1, but pair chains before trio chains, with the debit past each pair chain. */
  lemma OrderOfKind3(c: Counts)
    requires Legal(c)
    ensures var m := Kind3(c, false).m;
      var d1 := Minus(c, m.soloChain);
      var d2 := Minus(d1, BombHands(d1));
      && m.soloChain == SoloSplit(c).chains && BombHands(d1) <= m.bomb
      && m.pairChain == PairChains(d2, CARD_3)
      && m.trioChain == TrioChains(AfterPairs(d2, m.pairChain), CARD_3)
  {
    hide SoloSplit, BombHands, AfterBombs, TrioChains, PairChains, Minus, AfterPairs, NormalMap, AfterNormal;
    SoloSplitLeaves(c);
    BombsLeave(SoloSplit(c).c);
    NormalKeepsChains(TrioChainStage(PairChainStage(BombStage(SoloStage(Start(c))))));
  }

  /** Kind 4: solo chains from all cards, then bombs, and no other chains. */
  lemma OrderOfKind4(c: Counts)
    requires Legal(c)
    ensures var m := Kind4(c, false).m;
      && m.soloChain == SoloSplit(c).chains && BombHands(Minus(c, m.soloChain)) <= m.bomb
      && m.trioChain == [] && m.pairChain == []
  {
    hide SoloSplit, BombHands, AfterBombs, Minus, NormalMap, AfterNormal;
    SoloSplitLeaves(c);
    NormalKeepsChains(BombStage(SoloStage(Start(c))));
  }

  /** Kind 5: bombs and trios from all cards, then solo chains, and no other chains. */
  lemma OrderOfKind5(c: Counts)
    requires Legal(c)
    ensures var m := Kind5(c, false).m;
      var d1 := Minus(c, BombHands(c));
      var d2 := Minus(d1, TrioHands(d1));
      && BombHands(c) <= m.bomb && TrioHands(d1) <= m.trio
      && NonNegative(d2) && m.soloChain == SoloSplit(d2).chains
      && m.trioChain == [] && m.pairChain == []
  {
    hide SoloSplit, BombHands, AfterBombs, TrioHands, AfterTrios, Minus, NormalMap, AfterNormal;
    StartSound(c);
    BombStageSound(Start(c), c);
    TrioStageSound(BombStage(Start(c)), c);
    BombsLeave(c);
    TriosLeave(AfterBombs(c));
    NormalKeepsChains(SoloStage(TrioStage(BombStage(Start(c)))));
  }

  /** Kickers are given out last, over the lists of the same split without them. */
  lemma KickersLast(kind: int, c: Counts)
    requires 1 <= kind <= 5 && Legal(c)
    ensures KindOf(kind, c, true).m == Attach(KindOf(kind, c, false).m)
  {
    hide SoloStage, BombStage, TrioStage, TrioChainStage, PairChainStage, NormalStage, Attach;
  }

  // ----- main results

  /**
    Splitting never over-commits: rank by rank the hands hold at most the input; hands, signed
    residue and the double debits of pair chains add up to it exactly; without a pair chain - and
    so always for kinds 4 and 5 - the hands hold exactly the input.
   */
  lemma SplitConserves(kind: int, c: Counts, searchKicker: bool, r: int)
    requires 1 <= kind <= 5 && Legal(c) && 0 <= r < RANKS
    ensures var s := KindOf(kind, c, searchKicker);
      && MapTotal(s.m, r) + s.left[r] + 2 * Debits(s.m.pairChain, r) == c[r]
      && MapTotal(s.m, r) <= c[r]
      && s.left[r] <= 0
      && (s.m.pairChain == [] || kind >= 4 ==> MapTotal(s.m, r) == c[r])
  {
    KindFinished(kind, c, searchKicker);
    var s := KindOf(kind, c, searchKicker);
    assert s.m.pairChain == [] ==> Debits(s.m.pairChain, r) == 0;
  }

  lemma SplitSoloChains(kind: int, c: Counts, searchKicker: bool)
    requires 1 <= kind <= 5 && Legal(c)
    ensures SoloList(KindOf(kind, c, searchKicker).m.soloChain, 4)
    ensures Sum(c) <= 18 ==> SoloList(KindOf(kind, c, searchKicker).m.soloChain, 5)
  {
    KindFinished(kind, c, searchKicker);
    var m := KindOf(kind, c, searchKicker).m;
    var d: Counts :| NonNegative(d) && AtMost(d, c) && m.soloChain == SoloSplit(d).chains;
    SumToMonotone(d, c, RANKS);
    if Sum(c) <= 18 {
      EighteenCardsSuffice(d);
    }
  }

  lemma SoloMember(hands: seq<Hand>, least: int, h: Hand)
    requires SoloList(hands, least) && h in hands
    ensures IsSolo(h, least)
  {
  }

  /** Every hand of a split is a hand of the game, held in full, except for chains of four. */
  lemma SplitHandsShaped(kind: int, c: Counts, searchKicker: bool, h: Hand)
    requires 1 <= kind <= 5 && Legal(c) && In(h, KindOf(kind, c, searchKicker).m)
    ensures Shaped(h) && (WellFormed(h) || (h.ty == SoloChain && h.len == 4))
    ensures Sum(c) <= 18 ==> WellFormed(h)
    ensures forall r :: 0 <= r < RANKS ==> At(h, r) <= c[r]
  {
    var m := KindOf(kind, c, searchKicker).m;
    forall r | 0 <= r < RANKS
      ensures At(h, r) <= c[r]
    {
      SplitConserves(kind, c, searchKicker, r);
      AtMostMapTotal(h, m, r);
    }
    KindFinished(kind, c, searchKicker);
    MapShapedMember(h, m);
    if h.ty == SoloChain {
      ByType(h, m);
      SplitSoloChains(kind, c, searchKicker);
      SoloMember(m.soloChain, 4, h);
      if Sum(c) <= 18 {
        SoloMember(m.soloChain, 5, h);
      }
    }
  }

  /** In a shaped map a hand is filed under its own type. */
  lemma ByType(h: Hand, m: HandMap)
    requires MapShaped(m) && In(h, m) && h.ty != Nuke
    ensures h in Of(m, h.ty)
  {
    var ty :| h in Of(m, ty);
    var i :| 0 <= i < |Of(m, ty)| && Of(m, ty)[i] == h;
  }

  lemma {:induction false} EmptyTotal(hands: seq<Hand>, r: int)
    requires hands == []
    ensures Total(hands, r) == 0
  {
  }

  lemma EmptyMapTotal(r: int)
    ensures MapTotal(EMPTY, r) == 0
  {
    EmptyTotal([], r);
  }

  /** A seat that holds a card is never left without a hand to play. */
  lemma SplitNotEmpty(kind: int, c: Counts, searchKicker: bool)
    requires 1 <= kind <= 5 && Legal(c) && Sum(c) >= 1
    ensures KindOf(kind, c, searchKicker).m != EMPTY
  {
    hide KindOf, MapTotal;
    if KindOf(kind, c, searchKicker).m == EMPTY {
      forall r | 0 <= r < RANKS
        ensures c[r] <= 0
      {
        SplitConserves(kind, c, searchKicker, r);
        EmptyMapTotal(r);
      }
      SumToMonotone(c, ZERO, RANKS);
      SumOfZero(RANKS);
    }
  }

  // ----- the cards a split forgets

  /** The split in progress right before pair chains are taken. */
  function BeforePairs(kind: int, c: Counts): Split
    requires 1 <= kind <= 3 && Legal(c)
  {
    if kind == 1 then TrioChainStage(BombStage(SoloStage(Start(c))))
    else if kind == 2 then
      StartSound(c);
      BombStageSound(Start(c), c);
      TrioChainStageSound(BombStage(Start(c)), c);
      SoloStage(TrioChainStage(BombStage(Start(c))))
    else BombStage(SoloStage(Start(c)))
  }

  lemma BeforePairsSound(kind: int, c: Counts)
    requires 1 <= kind <= 3 && Legal(c)
    ensures Sound(BeforePairs(kind, c), c) && NonNegative(BeforePairs(kind, c).left)
    ensures BeforePairs(kind, c).m.pairChain == [] && NoFours(BeforePairs(kind, c))
    ensures kind == 3 ==> BeforePairs(kind, c).m.trioChain == []
  {
    StartSound(c);
    match kind
    case 1 =>
      SoloStageSound(Start(c), c);
      BombStageSound(SoloStage(Start(c)), c);
      TrioChainStageSound(BombStage(SoloStage(Start(c))), c);
    case 2 =>
      BombStageSound(Start(c), c);
      TrioChainStageSound(BombStage(Start(c)), c);
      SoloStageSound(TrioChainStage(BombStage(Start(c))), c);
    case _ =>
      SoloStageSound(Start(c), c);
      BombStageSound(SoloStage(Start(c)), c);
  }

  /** The split right before the leftovers are taken. */
  function BeforeNormal(kind: int, c: Counts): Split
    requires 1 <= kind <= 3 && Legal(c)
  {
    var p := PairChainStage(BeforePairs(kind, c));
    if kind == 3 then TrioChainStage(p) else p
  }

  lemma KindIsFinish(kind: int, c: Counts, searchKicker: bool)
    requires 1 <= kind <= 3 && Legal(c)
    ensures KindOf(kind, c, searchKicker) == Finish(BeforeNormal(kind, c), searchKicker)
  {
  }

  /** Loose cards of rank `r` that no pair chain takes. */
  function SpareBesidePairs(kind: int, c: Counts, r: int): int
    requires 1 <= kind <= 3 && Legal(c) && 0 <= r < RANKS
  {
    BeforePairs(kind, c).left[r] - Total(PairChains(BeforePairs(kind, c).left, CARD_3), r)
  }

  lemma SpareIsThere(kind: int, c: Counts, r: int)
    requires 1 <= kind <= 3 && Legal(c) && 0 <= r < RANKS
    ensures 0 <= SpareBesidePairs(kind, c, r) <= 4
  {
    BeforePairsSound(kind, c);
    LeftAtMost(BeforePairs(kind, c), c, r);
    PairChainsTake(BeforePairs(kind, c).left, CARD_3, r);
  }

  /** What is left at the end is what the double debits overdrew. */
  lemma LeftIsOverdrawn(kind: int, c: Counts, searchKicker: bool, r: int)
    requires 1 <= kind <= 3 && Legal(c) && 0 <= r < RANKS
    ensures var s := KindOf(kind, c, searchKicker);
      var after := SpareBesidePairs(kind, c, r) - 2 * Debits(s.m.pairChain, r);
      s.left[r] == if after < 0 then after else 0
    ensures KindOf(kind, c, searchKicker).m.pairChain == PairChains(BeforePairs(kind, c).left, CARD_3)
  {
    hide BeforePairs, KindOf, PairChains, TrioChains, AfterNormal;
    KindIsFinish(kind, c, searchKicker);
    Kickers.AttachFrame(NormalStage(BeforeNormal(kind, c)).m);
    var p := PairChainStage(BeforePairs(kind, c));
    SpareIsThere(kind, c, r);
    TrioChainsTake(p.left, CARD_3, r);
    AfterNormalAt(BeforeNormal(kind, c).left, r);
  }

  /**
    The exact loss: if a pair chain - what is left of a maximal run of pairs - ends right below a
    rank, two of the cards loose at that rank are in no hand, or one if there is just one; at all
    other ranks none is lost.
   */
  lemma SplitForgets(kind: int, c: Counts, searchKicker: bool, r: int)
    requires 1 <= kind <= 3 && Legal(c) && 0 <= r < RANKS
    ensures var lost := c[r] - MapTotal(KindOf(kind, c, searchKicker).m, r);
      var loose := BeforePairs(kind, c).left;
      && 0 <= loose[r]
      && lost == (if !PairsEndBelow(loose, r) then 0 else if loose[r] < 2 then loose[r] else 2)
  {
    hide BeforePairs, KindOf, PairChains, PairsEndBelow;
    BeforePairsSound(kind, c);
    SplitConserves(kind, c, searchKicker, r);
    LeftIsOverdrawn(kind, c, searchKicker, r);
    SpareIsThere(kind, c, r);
    DebitedIff(BeforePairs(kind, c).left, r);
  }

  /** Three pairs 3..5 and a single 6. */
  const PAIRS_AND_SIX: Counts := [2, 2, 2, 1, 0, 0, 0, 0, 0, 0, 0, 0, 0, 0, 0]

  lemma {:induction false} NoTrioChain(c: Counts, i: int)
    requires 0 <= i && forall r :: 0 <= r < RANKS ==> c[r] < 3
    ensures TrioChains(c, i) == []
    decreases RANKS - i
  {
    if i <= CARD_K {
      NoTrioChain(c, i + 1);
    }
  }

  lemma {:induction false} NoPairChain(c: Counts, i: int)
    requires 0 <= i && forall r :: i <= r < RANKS ==> c[r] < 2
    ensures PairChains(c, i) == []
    decreases RANKS - i
  {
    if i <= CARD_Q {
      NoPairChain(c, i + 1);
    }
  }

  lemma {:induction false} NoSoloChain(c: Counts, i: int)
    requires 0 <= i <= CARD_2 && forall r :: i <= r < RANKS ==> c[r] < 1
    ensures Extract(Pool(c, []), i) == Pool(c, [])
    decreases RANKS - i
  {
    if i <= CARD_T {
      NoSoloChain(c, i + 1);
    }
  }

  lemma PairsAndSixNoSolo()
    ensures NonNegative(PAIRS_AND_SIX) && SoloSplit(PAIRS_AND_SIX) == Pool(PAIRS_AND_SIX, [])
  {
    assert Reach(PAIRS_AND_SIX, 0, 2) == 3;
    assert Reach(PAIRS_AND_SIX, 0, 0) == 3;
    NoSoloChain(PAIRS_AND_SIX, 4);
  }

  lemma PairsAndSixPairs()
    ensures PairChains(PAIRS_AND_SIX, 0) == [Hand(PairChain, 0, 3, [])]
    ensures AfterPairs(PAIRS_AND_SIX, [Hand(PairChain, 0, 3, [])])[3] == -1
  {
    assert RunEnd(PAIRS_AND_SIX, 1, 2) == 3;
    assert RunEnd(PAIRS_AND_SIX, 0, 2) == 3;
    NoPairChain(PAIRS_AND_SIX, 4);
    assert multiset(Hand(PairChain, 0, 3, []).kicker)[3] == 0;
    assert [Hand(PairChain, 0, 3, [])][1..] == [];
  }

  lemma PairsAndSixStages() returns (s: Split)
    ensures Legal(PAIRS_AND_SIX)
    ensures s == TrioChainStage(BombStage(SoloStage(Start(PAIRS_AND_SIX))))
    ensures s.left == PAIRS_AND_SIX
  {
    hide SoloSplit, TrioChains, Legal, TrioChainStage, BombStage;
    PairsAndSixLegal();
    PairsAndSixNoSolo();
    NoTrioChain(PAIRS_AND_SIX, 0);
    UntouchedByStages(PAIRS_AND_SIX);
    s := TrioChainStage(BombStage(SoloStage(Start(PAIRS_AND_SIX))));
  }

  lemma PairsAndSixLegal()
    ensures Legal(PAIRS_AND_SIX)
  {
    SumUnrolled(PAIRS_AND_SIX);
  }

  /** Without solo chains, bombs and linked trios the first three stages take nothing. */
  lemma UntouchedByStages(c: Counts)
    requires NonNegative(c) && SoloSplit(c) == Pool(c, []) && TrioChains(c, CARD_3) == []
    requires !HasNuke(c) && forall r :: 0 <= r <= CARD_2 ==> c[r] != 4
    ensures TrioChainStage(BombStage(SoloStage(Start(c)))).left == c
  {
    hide SoloSplit, TrioChains;
    assert AfterBombs(c) == c;
    MinusNothing(c);
  }

  lemma NegativeStays(s: Split, r: int)
    requires 0 <= r <= CARD_2 && s.left[r] < 0
    ensures NormalStage(s).left[r] == s.left[r]
  {
  }

  lemma PairChainForgets(s: Split, c: Counts, r: int)
    requires Legal(c) && 0 <= r <= CARD_2 && s == PairChainStage(TrioChainStage(BombStage(SoloStage(Start(c)))))
    requires s.left[r] == -1 && Debits(s.m.pairChain, r) == 1
    ensures MapTotal(Kind1(c, false).m, r) == c[r] - 1
  {
    SplitConserves(1, c, false, r);
    NegativeStays(s, r);
    assert KindOf(1, c, false) == NormalStage(s);
  }

  /** The double debit makes kinds 1 to 3 forget a card: here the six is in no hand of kind 1. */
  lemma PairChainForgetsACard()
    ensures Legal(PAIRS_AND_SIX) && PAIRS_AND_SIX[3] == 1
    ensures MapTotal(Kind1(PAIRS_AND_SIX, false).m, 3) == 0
  {
    hide SoloSplit, TrioChains, BombHands, AfterBombs, PairChains, Legal;
    var s := PairsAndSixStages();
    PairsAndSixPairs();
    assert Debits([Hand(PairChain, 0, 3, [])], 3) == 1 by {
      assert [Hand(PairChain, 0, 3, [])][1..] == [];
    }
    PairChainForgets(PairChainStage(s), PAIRS_AND_SIX, 3);
  }

  // ----- the splits as the source runs them

  method SplitCardsToHandsKind1(cards: array<int>, searchKicker: bool) returns (m: HandMap)
    requires cards.Length == RANKS && Legal(cards[..])
    modifies cards
    ensures Split(m, cards[..]) == Kind1(old(cards[..]), searchKicker)
  {
    m := EMPTY;
    var solos := GetSoloChain(cards);
    var bombs := GetBomb(cards);
    var trioChains := GetTrioChain(cards);
    var pairChains := GetPairChain(cards);
    m := m.(soloChain := solos, bomb := bombs, trioChain := trioChains, pairChain := pairChains);
    m := GetNormalHand(cards, m);
    if searchKicker {
      m := FindKickerForTrioOrTrioChain(m);
    }
  }

  method SplitCardsToHandsKind2(cards: array<int>, searchKicker: bool) returns (m: HandMap)
    requires cards.Length == RANKS && Legal(cards[..])
    modifies cards
    ensures Split(m, cards[..]) == Kind2(old(cards[..]), searchKicker)
  {
    ghost var c := cards[..];
    m := EMPTY;
    var bombs := GetBomb(cards);
    var trioChains := GetTrioChain(cards);
    StartSound(c);
    BombStageSound(Start(c), c);
    TrioChainStageSound(BombStage(Start(c)), c);
    var solos := GetSoloChain(cards);
    var pairChains := GetPairChain(cards);
    m := m.(bomb := bombs, trioChain := trioChains, soloChain := solos, pairChain := pairChains);
    m := GetNormalHand(cards, m);
    if searchKicker {
      m := FindKickerForTrioOrTrioChain(m);
    }
  }

  method SplitCardsToHandsKind3(cards: array<int>, searchKicker: bool) returns (m: HandMap)
    requires cards.Length == RANKS && Legal(cards[..])
    modifies cards
    ensures Split(m, cards[..]) == Kind3(old(cards[..]), searchKicker)
  {
    m := EMPTY;
    var solos := GetSoloChain(cards);
    var bombs := GetBomb(cards);
    var pairChains := GetPairChain(cards);
    var trioChains := GetTrioChain(cards);
    m := m.(soloChain := solos, bomb := bombs, pairChain := pairChains, trioChain := trioChains);
    m := GetNormalHand(cards, m);
    if searchKicker {
      m := FindKickerForTrioOrTrioChain(m);
    }
  }

  method SplitCardsToHandsKind4(cards: array<int>, searchKicker: bool) returns (m: HandMap)
    requires cards.Length == RANKS && Legal(cards[..])
    modifies cards
    ensures Split(m, cards[..]) == Kind4(old(cards[..]), searchKicker)
  {
    m := EMPTY;
    var solos := GetSoloChain(cards);
    var bombs := GetBomb(cards);
    m := m.(soloChain := solos, bomb := bombs);
    m := GetNormalHand(cards, m);
    if searchKicker {
      m := FindKickerForTrioOrTrioChain(m);
    }
  }

  method SplitCardsToHandsKind5(cards: array<int>, searchKicker: bool) returns (m: HandMap)
    requires cards.Length == RANKS && Legal(cards[..])
    modifies cards
    ensures Split(m, cards[..]) == Kind5(old(cards[..]), searchKicker)
  {
    ghost var c := cards[..];
    m := EMPTY;
    var bombs := GetBomb(cards);
    var trios := GetTrio(cards);
    StartSound(c);
    BombStageSound(Start(c), c);
    TrioStageSound(BombStage(Start(c)), c);
    var solos := GetSoloChain(cards);
    m := m.(bomb := bombs, trio := trios, soloChain := solos);
    m := GetNormalHand(cards, m);
    if searchKicker {
      m := FindKickerForTrioOrTrioChain(m);
    }
  }

  /**
    `sortHandsWithBestKind`: the best of kinds 1, 2 and 3.  Which one scores best is left to the
    two flags: whatever the scores are, the result is one of the three splits of the same cards.
   */
  method SortHandsWithBestKind(points: Counts, searchKicker: bool, secondWins: bool, thirdWins: bool)
    returns (m: HandMap)
    requires Legal(points)
    ensures m == KindOf(if thirdWins then 3 else if secondWins then 2 else 1, points, searchKicker).m
  {
    hide Kind1, Kind2, Kind3, Legal;
    var copy := CopyOf(points);
    m := SplitCardsToHandsKind1(copy, searchKicker);
    copy := CopyOf(points);
    var tmp := SplitCardsToHandsKind2(copy, searchKicker);
    if secondWins {
      m := tmp;
    }
    copy := CopyOf(points);
    tmp := SplitCardsToHandsKind3(copy, searchKicker);
    if thirdWins {
      m := tmp;
    }
  }

  /** The lowest solo a split reports; a split without solos reports the red joker. */
  function LowestSolo(m: HandMap): int {
    if m.solo != [] then m.solo[0].key else RED_JOKER
  }

  /** Of ascending solos it is the lowest; without solos it is the red joker. */
  lemma LowestSoloIs(m: HandMap)
    requires Ascending(Keys(m.solo))
    ensures if m.solo == [] then LowestSolo(m) == RED_JOKER
      else LowestSolo(m) in Keys(m.solo) && forall r :: r in Keys(m.solo) ==> LowestSolo(m) <= r
  {
    if m.solo != [] {
      assert Keys(m.solo)[0] == m.solo[0].key;
    }
  }

  /**
    `sortHandsLordOnly1Card`: kind 5 if its lowest solo is higher, else kind 4.  The number of solos,
    which is compared first, is never counted up: both are 0.
   */
  method SortHandsLordOnly1Card(points: Counts, searchKicker: bool) returns (m: HandMap)
    requires Legal(points)
    ensures var (m4, m5) := (KindOf(4, points, searchKicker).m, KindOf(5, points, searchKicker).m);
      && (m == m4 || m == m5)
      && LowestSolo(m4) <= LowestSolo(m) && LowestSolo(m5) <= LowestSolo(m)
      && (m != m4 ==> LowestSolo(m4) < LowestSolo(m))
  {
    hide Kind4, Kind5, Legal;
    var soloCount, tmpSoloCount := 0, 0;
    var copy := CopyOf(points);
    m := SplitCardsToHandsKind4(copy, searchKicker);
    copy := CopyOf(points);
    var tmp := SplitCardsToHandsKind5(copy, searchKicker);
    if tmpSoloCount < soloCount || (tmpSoloCount == soloCount && LowestSolo(tmp) > LowestSolo(m)) {
      m := tmp;
    }
  }
}
