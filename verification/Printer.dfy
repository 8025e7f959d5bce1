/**
  From a hand to the rank counts it stands for (`handToPointsArray`).

  The source writes entries one after the other, so a later write wins; `Print` is that order of
  writes.  On well-formed hands the writes never collide and `Print` is the additive count `At`.
 */
module Printer {
  import opened Cards
  import opened Hands
  import opened Ranks

  /** Every array index the printer touches is in range. */
  ghost predicate Printable(h: Hand) {
    match h.ty
    case Nothing | Nuke => true
    case Solo | Pair | Trio | Bomb => InRange(h.key)
    case TrioSolo | TrioPair => InRange(h.key) && |h.kicker| >= 1 && InRange(h.kicker[0])
    case FourDualSolo | FourDualPair =>
      InRange(h.key) && |h.kicker| >= 2 && InRange(h.kicker[0]) && InRange(h.kicker[1])
    case SoloChain | PairChain | TrioChain => BodyInRange(h)
    case TrioChainSolo | TrioChainPair =>
      && BodyInRange(h)
      && h.len <= |h.kicker|
      && forall i :: 0 <= i < h.len ==> InRange(h.kicker[i])
  }

  predicate InRange(r: int) {
    0 <= r < RANKS
  }

  predicate BodyInRange(h: Hand) {
    0 < h.len ==> InRange(h.key) && InRange(h.key + h.len - 1)
  }

  /** The array after the first `n` rounds of the printing loop of a chain. */
  ghost function ChainPrint(h: Hand, n: nat): Counts
    requires IsChain(h.ty) && Printable(h) && n <= h.len
  {
    if n == 0 then ZERO
    else
      var c := ChainPrint(h, n - 1)[h.key + n - 1 := BodyMult(h.ty)];
      if KickMult(h.ty) == 0 then c else c[h.kicker[n - 1] := KickMult(h.ty)]
  }

  ghost function Print(h: Hand): Counts
    requires Printable(h)
  {
    match h.ty
    case Nothing => ZERO
    case Nuke => ZERO[BLACK_JOKER := 1][RED_JOKER := 1]
    case Solo => ZERO[h.key := 1]
    case Pair => ZERO[h.key := 2]
    case Trio => ZERO[h.key := 3]
    case Bomb => ZERO[h.key := 4]
    case TrioSolo => ZERO[h.key := 3][h.kicker[0] := 1]
    case TrioPair => ZERO[h.key := 3][h.kicker[0] := 2]
    case FourDualSolo => ZERO[h.key := 4][h.kicker[0] := 1][h.kicker[1] := 1]
    case FourDualPair => ZERO[h.key := 4][h.kicker[0] := 2][h.kicker[1] := 2]
    case SoloChain | PairChain | TrioChain | TrioChainSolo | TrioChainPair =>
      if h.len <= 0 then ZERO else ChainPrint(h, h.len)
  }

  method HandToPointsArray(h: Hand, points: array<int>)
    requires points.Length == RANKS && Printable(h)
    modifies points
    ensures points[..] == Print(h)
  {
    for r := 0 to RANKS
      invariant forall k :: 0 <= k < r ==> points[k] == 0
    {
      points[r] := 0;
    }
    assert points[..] == ZERO;
    match h.ty {
      case Nothing =>
      case Nuke =>
        points[BLACK_JOKER] := 1;
        points[RED_JOKER] := 1;
      case Solo => points[h.key] := 1;
      case Pair => points[h.key] := 2;
      case Trio => points[h.key] := 3;
      case TrioSolo =>
        points[h.key] := 3;
        points[h.kicker[0]] := 1;
      case TrioPair =>
        points[h.key] := 3;
        points[h.kicker[0]] := 2;
      case Bomb => points[h.key] := 4;
      case FourDualSolo =>
        points[h.key] := 4;
        points[h.kicker[0]] := 1;
        points[h.kicker[1]] := 1;
      case FourDualPair =>
        points[h.key] := 4;
        points[h.kicker[0]] := 2;
        points[h.kicker[1]] := 2;
      case _ => PrintChainLoop(h, points);
    }
  }

  method PrintChainLoop(h: Hand, points: array<int>)
    requires points.Length == RANKS && IsChain(h.ty) && Printable(h)
    requires points[..] == ZERO
    modifies points
    ensures points[..] == Print(h)
  {
    var i := 0;
    while i < h.len
      invariant 0 <= i && (i <= h.len || i == 0)
      invariant points[..] == if i == 0 then ZERO else ChainPrint(h, i)
    {
      points[h.key + i] := if h.ty == SoloChain then 1 else if h.ty == PairChain then 2 else 3;
      if h.ty == TrioChainSolo {
        points[h.kicker[i]] := 1;
      } else if h.ty == TrioChainPair {
        points[h.kicker[i]] := 2;
      }
      i := i + 1;
    }
  }

  lemma {:induction false} PlainChainPrint(h: Hand, n: nat, r: int)
    requires IsChain(h.ty) && Printable(h) && KickMult(h.ty) == 0 && n <= h.len && 0 <= r < RANKS
    ensures ChainPrint(h, n)[r] == if h.key <= r < h.key + n then BodyMult(h.ty) else 0
  {
    if n > 0 {
      PlainChainPrint(h, n - 1, r);
    }
  }

  lemma {:induction false} WingedChainPrint(h: Hand, n: nat, r: int)
    requires IsChain(h.ty) && Printable(h) && KickMult(h.ty) > 0 && n <= h.len && 0 <= r < RANKS
    requires forall i :: 0 <= i < n ==> !InBody(h, h.kicker[i])
    ensures ChainPrint(h, n)[r] ==
      if h.key <= r < h.key + n then BodyMult(h.ty)
      else if r in h.kicker[..n] then KickMult(h.ty)
      else 0
  {
    if n > 0 {
      WingedChainPrint(h, n - 1, r);
      assert h.kicker[..n] == h.kicker[..n - 1] + [h.kicker[n - 1]];
    }
  }

  /** On hands of the game, printing is counting: no write of the printer hides another. */
  lemma PrintIsAt(h: Hand)
    requires Shaped(h)
    ensures Printable(h)
    ensures forall r :: 0 <= r < RANKS ==> Print(h)[r] == At(h, r)
  {
    forall r | 0 <= r < RANKS
      ensures Print(h)[r] == At(h, r)
    {
      if KickMult(h.ty) > 0 {
        AscendingDistinct(h.kicker, r);
        WingedPrintIsAt(h, r);
      } else if IsChain(h.ty) {
        PlainChainPrint(h, h.len, r);
      }
    }
  }

  lemma WingedPrintIsAt(h: Hand, r: int)
    requires Shaped(h) && KickMult(h.ty) > 0 && Printable(h) && 0 <= r < RANKS
    ensures Print(h)[r] ==
      if InBody(h, r) then BodyMult(h.ty) else if r in h.kicker then KickMult(h.ty) else 0
  {
    if IsChain(h.ty) {
      WingedChainPrint(h, h.len, r);
      assert h.kicker[..h.len] == h.kicker;
    } else if |h.kicker| == 1 {
      assert h.kicker == [h.kicker[0]];
    } else {
      assert h.kicker == [h.kicker[0], h.kicker[1]];
    }
  }

  /** The printed array holds as many cards as the hand reports. */
  lemma PrintedSum(h: Hand)
    requires Shaped(h)
    ensures Printable(h) && Sum(Print(h)) == GetHandCount(h)
  {
    PrintIsAt(h);
    HandCountIsSum(h, Print(h));
  }

  /** Whatever hand is printed, no entry is negative or above four. */
  lemma PrintBounded(h: Hand)
    requires Printable(h)
    ensures forall r :: 0 <= r < RANKS ==> 0 <= Print(h)[r] <= 4
  {
    if IsChain(h.ty) && h.len > 0 {
      ChainPrintBounded(h, h.len);
    }
  }

  lemma {:induction false} ChainPrintBounded(h: Hand, n: nat)
    requires IsChain(h.ty) && Printable(h) && n <= h.len
    ensures forall r :: 0 <= r < RANKS ==> 0 <= ChainPrint(h, n)[r] <= 4
  {
    if n > 0 {
      ChainPrintBounded(h, n - 1);
    }
  }
}
