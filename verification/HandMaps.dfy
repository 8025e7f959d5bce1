/**
  The map from hand types to lists of hands that a split fills in.

  A nuke is kept with the bombs, as in the source.
 */
module HandMaps {
  import opened Hands

  datatype HandMap = HandMap(
    trioChainPair: seq<Hand>,
    trioChainSolo: seq<Hand>,
    trioChain: seq<Hand>,
    pairChain: seq<Hand>,
    soloChain: seq<Hand>,
    trioPair: seq<Hand>,
    trioSolo: seq<Hand>,
    trio: seq<Hand>,
    pair: seq<Hand>,
    solo: seq<Hand>,
    bomb: seq<Hand>)

  const EMPTY := HandMap([], [], [], [], [], [], [], [], [], [], [])

  /** `handMap[ty]`: a type never filled in has no hands. */
  function Of(m: HandMap, ty: HandType): seq<Hand> {
    match ty
    case TrioChainPair => m.trioChainPair
    case TrioChainSolo => m.trioChainSolo
    case TrioChain => m.trioChain
    case PairChain => m.pairChain
    case SoloChain => m.soloChain
    case TrioPair => m.trioPair
    case TrioSolo => m.trioSolo
    case Trio => m.trio
    case Pair => m.pair
    case Solo => m.solo
    case Bomb => m.bomb
    case Nothing | FourDualPair | FourDualSolo | Nuke => []
  }

  /** The lists of the map in the order an ordered map visits its keys; bombs come last. */
  function InOrder(m: HandMap): seq<seq<Hand>> {
    [m.trioChainPair, m.trioChainSolo, m.trioChain, m.pairChain, m.soloChain, m.trioPair, m.trioSolo,
     m.trio, m.pair, m.solo, m.bomb]
  }

  /** Cards of rank `r` in all hands of the map. */
  function MapTotal(m: HandMap, r: int): int {
    Total(m.trioChainPair, r) + Total(m.trioChainSolo, r) + Total(m.trioChain, r)
    + Total(m.pairChain, r) + Total(m.soloChain, r) + Total(m.trioPair, r) + Total(m.trioSolo, r)
    + Total(m.trio, r) + Total(m.pair, r) + Total(m.solo, r) + Total(m.bomb, r)
  }

  ghost predicate In(h: Hand, m: HandMap) {
    exists ty :: h in Of(m, ty)
  }

  lemma AtMostMapTotal(h: Hand, m: HandMap, r: int)
    requires In(h, m)
    ensures At(h, r) <= MapTotal(m, r)
  {
    hide At, Total;
    var ty :| h in Of(m, ty);
    AtMostTotal(Of(m, ty), h, r);
  }

  ghost predicate AllShaped(hs: seq<Hand>, ty: HandType) {
    forall i :: 0 <= i < |hs| ==> hs[i].ty == ty && Shaped(hs[i])
  }

  /** Every list holds shaped hands of its own type; a nuke counts as a bomb. */
  ghost predicate MapShaped(m: HandMap) {
    && AllShaped(m.trioChainPair, TrioChainPair)
    && AllShaped(m.trioChainSolo, TrioChainSolo)
    && AllShaped(m.trioChain, TrioChain)
    && AllShaped(m.pairChain, PairChain)
    && AllShaped(m.soloChain, SoloChain)
    && AllShaped(m.trioPair, TrioPair)
    && AllShaped(m.trioSolo, TrioSolo)
    && AllShaped(m.trio, Trio)
    && AllShaped(m.pair, Pair)
    && AllShaped(m.solo, Solo)
    && forall i :: 0 <= i < |m.bomb| ==> (m.bomb[i].ty == Bomb || m.bomb[i].ty == Nuke) && Shaped(m.bomb[i])
  }

  lemma MapShapedMember(h: Hand, m: HandMap)
    requires MapShaped(m) && In(h, m)
    ensures Shaped(h)
  {
    var ty :| h in Of(m, ty);
    var i :| 0 <= i < |Of(m, ty)| && Of(m, ty)[i] == h;
  }

  // ----- hands of a single rank

  function HandsOf(ty: HandType, ranks: seq<int>): (hs: seq<Hand>)
    ensures |hs| == |ranks|
    ensures forall i :: 0 <= i < |hs| ==> hs[i] == Hand(ty, ranks[i], 0, [])
  {
    seq(|ranks|, i requires 0 <= i < |ranks| => Hand(ty, ranks[i], 0, []))
  }

  function Keys(hs: seq<Hand>): (ks: seq<int>)
    ensures |ks| == |hs|
    ensures forall i :: 0 <= i < |ks| ==> ks[i] == hs[i].key
  {
    seq(|hs|, i requires 0 <= i < |hs| => hs[i].key)
  }

  lemma {:induction false} TotalHandsOf(ty: HandType, ranks: seq<int>, r: int)
    requires !IsChain(ty) && ty != Nuke
    requires Ascending(ranks)
    ensures Total(HandsOf(ty, ranks), r) == if r in ranks then BodyMult(ty) else 0
    decreases |ranks|
  {
    if ranks != [] {
      hide At;
      var hs := HandsOf(ty, ranks);
      TotalHandsOf(ty, ranks[1..], r);
      assert hs[1..] == HandsOf(ty, ranks[1..]);
      assert ranks == [ranks[0]] + ranks[1..];
      assert ranks[0] !in ranks[1..];
      SingleAt(hs[0], r);
    }
  }

  lemma SingleAt(h: Hand, r: int)
    requires !IsChain(h.ty) && h.ty != Nuke && h.kicker == []
    ensures At(h, r) == if r == h.key then BodyMult(h.ty) else 0
  {
    assert multiset(h.kicker)[r] == 0;
  }

  lemma HandsOfSnoc(ty: HandType, ranks: seq<int>, r: int)
    ensures HandsOf(ty, ranks + [r]) == HandsOf(ty, ranks) + [Hand(ty, r, 0, [])]
  {
  }

  /** The place of a type in the enumeration, by which the map is ordered; only a few have lists. */
  function Place(ty: HandType): int {
    match ty
    case Nothing => 0
    case TrioChainPair => 1
    case TrioChainSolo => 2
    case TrioChain => 3
    case PairChain => 4
    case SoloChain => 5
    case TrioPair => 6
    case TrioSolo => 7
    case Trio => 8
    case Pair => 9
    case Solo => 10
    case FourDualPair => 11
    case FourDualSolo => 12
    case Bomb => 14
    case Nuke => 15
  }

  /** The lists are gone through by type, in the order of the enumeration, and none is left out. */
  lemma InOrderByType(m: HandMap, ty: HandType)
    ensures Of(m, ty) != [] ==>
      && (ty != Bomb ==> 1 <= Place(ty) <= 10 && InOrder(m)[Place(ty) - 1] == Of(m, ty))
      && (ty == Bomb ==> InOrder(m)[10] == Of(m, ty) && Place(Solo) < Place(Bomb))
  {
  }
}
