/**
  Hands: what they are, what cards they stand for, how many cards they hold and which beats which.
 */
module Hands {
  import opened Cards

  datatype HandType =
    | Nothing
    | TrioChainPair
    | TrioChainSolo
    | TrioChain
    | PairChain
    | SoloChain
    | TrioPair
    | TrioSolo
    | Trio
    | Pair
    | Solo
    | FourDualPair
    | FourDualSolo
    | Bomb
    | Nuke

  /** `len` is 0 and `kicker` is empty where the source leaves the field unset. */
  datatype Hand = Hand(ty: HandType, key: int, len: int, kicker: seq<int>)

  const NOTHING := Hand(Nothing, 0, 0, [])

  predicate IsChain(ty: HandType) {
    ty == SoloChain || ty == PairChain || ty == TrioChain || ty == TrioChainSolo || ty == TrioChainPair
  }

  // ----- the cards a hand stands for

  function BodyMult(ty: HandType): int {
    match ty
    case Nothing => 0
    case Solo | SoloChain | Nuke => 1
    case Pair | PairChain => 2
    case Trio | TrioSolo | TrioPair | TrioChain | TrioChainSolo | TrioChainPair => 3
    case Bomb | FourDualSolo | FourDualPair => 4
  }

  function KickMult(ty: HandType): int {
    match ty
    case TrioSolo | TrioChainSolo | FourDualSolo => 1
    case TrioPair | TrioChainPair | FourDualPair => 2
    case _ => 0
  }

  /** Number of consecutive ranks in the body of a hand. */
  function Span(h: Hand): int {
    if IsChain(h.ty) then h.len else if h.ty == Nuke then 2 else 1
  }

  predicate InBody(h: Hand, r: int) {
    h.key <= r < h.key + Span(h)
  }

  /** Cards of rank `r` in hand `h`: body plus kickers, counted with multiplicity. */
  function At(h: Hand, r: int): (n: int)
    ensures 0 <= n
  {
    (if InBody(h, r) then BodyMult(h.ty) else 0) + KickMult(h.ty) * multiset(h.kicker)[r]
  }

  /** Cards of rank `r` in a list of hands. */
  function Total(hs: seq<Hand>, r: int): (n: int)
    ensures 0 <= n
  {
    if hs == [] then 0 else At(hs[0], r) + Total(hs[1..], r)
  }

  lemma {:induction false} TotalConcat(a: seq<Hand>, b: seq<Hand>, r: int)
    ensures Total(a + b, r) == Total(a, r) + Total(b, r)
  {
    if a == [] {
      assert a + b == b;
    } else {
      TotalConcat(a[1..], b, r);
      assert (a + b)[1..] == a[1..] + b;
    }
  }

  lemma TotalSplitAt(hs: seq<Hand>, k: nat, r: int)
    requires k < |hs|
    ensures Total(hs, r) == Total(hs[..k], r) + At(hs[k], r) + Total(hs[k + 1..], r)
  {
    assert hs == hs[..k] + hs[k..];
    TotalConcat(hs[..k], hs[k..], r);
    assert hs[k..][1..] == hs[k + 1..];
  }

  lemma TotalUpdate(hs: seq<Hand>, k: nat, h: Hand, r: int)
    requires k < |hs|
    ensures Total(hs[k := h], r) == Total(hs, r) - At(hs[k], r) + At(h, r)
  {
    TotalSplitAt(hs, k, r);
    TotalSplitAt(hs[k := h], k, r);
  }

  lemma TotalErase(hs: seq<Hand>, k: nat, r: int)
    requires k < |hs|
    ensures Total(hs[..k] + hs[k + 1..], r) == Total(hs, r) - At(hs[k], r)
  {
    TotalSplitAt(hs, k, r);
    TotalConcat(hs[..k], hs[k + 1..], r);
  }

  lemma AtMostTotal(hs: seq<Hand>, h: Hand, r: int)
    requires h in hs
    ensures At(h, r) <= Total(hs, r)
  {
    var k :| 0 <= k < |hs| && hs[k] == h;
    TotalSplitAt(hs, k, r);
  }

  // ----- well-formed hands

  ghost predicate Ascending(s: seq<int>) {
    forall i, j :: 0 <= i < j < |s| ==> s[i] < s[j]
  }

  /** Kickers in the order the classifier reports them: ascending, in range, off the body. */
  ghost predicate GoodKickers(h: Hand, n: int, top: int) {
    && |h.kicker| == n
    && Ascending(h.kicker)
    && (forall i :: 0 <= i < |h.kicker| ==> 0 <= h.kicker[i] <= top && !InBody(h, h.kicker[i]))
    && !(BLACK_JOKER in h.kicker && RED_JOKER in h.kicker)
  }

  ghost predicate PlainChain(h: Hand, least: int) {
    0 <= h.key && least <= h.len && h.key + h.len - 1 <= CARD_A
  }

  /** A hand of the game, but for the length of a solo chain. */
  ghost predicate Shaped(h: Hand) {
    match h.ty
    case Nothing => false
    case Solo => 0 <= h.key <= RED_JOKER && h.len == 0 && h.kicker == []
    case Pair | Trio | Bomb => 0 <= h.key <= CARD_2 && h.len == 0 && h.kicker == []
    case Nuke => h.key == BLACK_JOKER && h.len == 0 && h.kicker == []
    case TrioSolo => 0 <= h.key <= CARD_2 && h.len == 0 && GoodKickers(h, 1, RED_JOKER)
    case TrioPair => 0 <= h.key <= CARD_2 && h.len == 0 && GoodKickers(h, 1, CARD_2)
    case FourDualSolo => 0 <= h.key <= CARD_2 && h.len == 0 && GoodKickers(h, 2, RED_JOKER)
    case FourDualPair => 0 <= h.key <= CARD_2 && h.len == 0 && GoodKickers(h, 2, CARD_2)
    case SoloChain => PlainChain(h, 1) && h.kicker == []
    case PairChain => PlainChain(h, 3) && h.kicker == []
    case TrioChain => PlainChain(h, 2) && h.kicker == []
    case TrioChainSolo => PlainChain(h, 2) && h.len <= 5 && GoodKickers(h, h.len, RED_JOKER)
    case TrioChainPair => PlainChain(h, 2) && h.len <= 5 && GoodKickers(h, h.len, CARD_2)
  }

  /** A hand the server accepts: shaped, and a solo chain holds at least five cards. */
  ghost predicate WellFormed(h: Hand) {
    Shaped(h) && (h.ty == SoloChain ==> 5 <= h.len)
  }

  // ----- counting the cards of a hand

  function GetHandCount(h: Hand): int {
    match h.ty
    case Solo => 1
    case Pair | Nuke => 2
    case Trio => 3
    case Bomb | TrioSolo => 4
    case TrioPair => 5
    case FourDualSolo => 6
    case FourDualPair => 8
    case SoloChain => h.len
    case PairChain => 2 * h.len
    case TrioChain => 3 * h.len
    case TrioChainSolo => 4 * h.len
    case TrioChainPair => 5 * h.len
    case Nothing => 0
  }

  lemma {:induction false} SumOfBody(c: Counts, lo: int, span: nat, mult: int, n: nat)
    requires 0 <= lo && lo + span <= RANKS && n <= RANKS
    requires forall r :: 0 <= r < RANKS ==> c[r] == if lo <= r < lo + span then mult else 0
    ensures SumTo(c, n) == mult * (if n <= lo then 0 else if n <= lo + span then n - lo else span)
  {
    if n > 0 {
      SumOfBody(c, lo, span, mult, n - 1);
    }
  }

  lemma {:induction false} SumOfMembers(c: Counts, k: seq<int>)
    requires forall i :: 0 <= i < |k| ==> 0 <= k[i] < RANKS
    requires forall r :: 0 <= r < RANKS ==> c[r] == multiset(k)[r]
    ensures Sum(c) == |k|
    decreases |k|
  {
    if k == [] {
      assert c == ZERO;
      SumOfZero(RANKS);
    } else {
      var last := k[|k| - 1];
      var k' := k[..|k| - 1];
      assert k == k' + [last];
      SumOfMembers(c[last := c[last] - 1], k');
      SumToUpdate(c, last, c[last] - 1, RANKS);
    }
  }

  lemma SumOfKickers(c: Counts, k: seq<int>, mult: int)
    requires 0 <= mult <= 2
    requires forall i :: 0 <= i < |k| ==> 0 <= k[i] < RANKS
    requires forall r :: 0 <= r < RANKS ==> c[r] == mult * multiset(k)[r]
    ensures Sum(c) == mult * |k|
  {
    var unit: Counts := seq(RANKS, r => multiset(k)[r]);
    SumOfMembers(unit, k);
    if mult == 0 {
      assert c == ZERO;
      SumOfZero(RANKS);
    } else if mult == 1 {
      assert c == unit;
    } else {
      SumToSplit(unit, unit, c, RANKS);
    }
  }

  /** How many kickers a hand of this kind and length carries. */
  function KickerSlots(h: Hand): int {
    match h.ty
    case TrioSolo | TrioPair => 1
    case FourDualSolo | FourDualPair => 2
    case TrioChainSolo | TrioChainPair => h.len
    case _ => 0
  }

  /** Enough structure to count the cards of a hand: everything in range, one kicker per slot. */
  ghost predicate Countable(h: Hand) {
    && 0 <= h.key && 0 <= Span(h) && h.key + Span(h) <= RANKS
    && (forall i :: 0 <= i < |h.kicker| ==> 0 <= h.kicker[i] < RANKS)
    && |h.kicker| == KickerSlots(h)
  }

  lemma SumOfParts(h: Hand, c: Counts)
    requires Countable(h)
    requires forall r :: 0 <= r < RANKS ==> c[r] == At(h, r)
    ensures Sum(c) == BodyMult(h.ty) * Span(h) + KickMult(h.ty) * |h.kicker|
  {
    var body: Counts := seq(RANKS, r => if InBody(h, r) then BodyMult(h.ty) else 0);
    var kick: Counts := seq(RANKS, r => KickMult(h.ty) * multiset(h.kicker)[r]);
    SumOfBody(body, h.key, Span(h), BodyMult(h.ty), RANKS);
    SumOfKickers(kick, h.kicker, KickMult(h.ty));
    SumToSplit(body, kick, c, RANKS);
  }

  /** The number of cards a hand reports is the number of cards it stands for. */
  lemma HandCountIsSum(h: Hand, c: Counts)
    requires Countable(h) && h.ty != Nothing
    requires forall r :: 0 <= r < RANKS ==> c[r] == At(h, r)
    ensures Sum(c) == GetHandCount(h)
  {
    SumOfParts(h, c);
  }

  // ----- which hand beats which

  predicate IsHandHigherThan(h0: Hand, h1: Hand) {
    if h1.ty == Nuke then false
    else if h1.ty == Bomb then h0.ty == Nuke || (h0.ty == Bomb && h0.key > h1.key)
    else if h0.ty == Nuke || h0.ty == Bomb then true
    else if h0.ty == h1.ty && h0.key > h1.key then (if IsChain(h0.ty) then h0.len == h1.len else true)
    else false
  }

  /** `IsHandHigherThan` is a strict partial order on all hands. */
  lemma HigherIsStrictPartialOrder(a: Hand, b: Hand, c: Hand)
    ensures !IsHandHigherThan(a, a)
    ensures IsHandHigherThan(a, b) ==> !IsHandHigherThan(b, a)
    ensures IsHandHigherThan(a, b) && IsHandHigherThan(b, c) ==> IsHandHigherThan(a, c)
  {
  }

  /** Two plain hands of different kinds, or chains of different lengths, never beat each other. */
  lemma IncomparableKinds(a: Hand, b: Hand)
    requires a.ty != Bomb && a.ty != Nuke && b.ty != Bomb && b.ty != Nuke
    ensures (IsHandHigherThan(a, b) || IsHandHigherThan(b, a))
      <==> a.ty == b.ty && a.key != b.key && (IsChain(a.ty) ==> a.len == b.len)
  {
  }

  /** A nuke beats bombs, and both beat all else. */
  function Power(ty: HandType): int {
    match ty
    case Nuke => 2
    case Bomb => 1
    case _ => 0
  }

  /** The higher power beats; of the same kind, and of one length, the higher key does; a nuke is not beaten. */
  lemma HigherIff(a: Hand, b: Hand)
    ensures IsHandHigherThan(a, b) <==>
      || Power(a.ty) > Power(b.ty)
      || (a.ty == b.ty && a.ty != Nuke && a.key > b.key && (IsChain(a.ty) ==> a.len == b.len))
  {
  }
}
