/**
  Searching a count array for the next higher hand of the same kind (`findHigherHandFromPoints`)
  and the loop that drives the search to its end (`findBestHigherHandFromPoints`).
 */
module HigherSearch {
  import opened Cards
  import opened Hands

  /** What the kicker search answers for a body: nothing, or the kickers to attach. */
  datatype KickerSearch = NoKicker | Found(kicker: seq<int>)

  /** Cards needed at each rank of the body. */
  function Needed(ty: HandType): int {
    match ty
    case SoloChain | Solo => 1
    case PairChain | Pair => 2
    case TrioChain | TrioChainSolo | TrioChainPair | Trio | TrioSolo | TrioPair => 3
    case _ => 4
  }

  predicate NeedsKicker(ty: HandType) {
    ty == TrioSolo || ty == TrioPair || ty == TrioChainSolo || ty == TrioChainPair
  }

  /** The counts hold the body of a hand like `h` with key `k`. */
  ghost predicate FitsAt(h: Hand, points: Counts, k: int) {
    if IsChain(h.ty) then
      0 <= k && k + h.len - 1 <= CARD_A && forall r :: k <= r < k + h.len ==> points[r] >= Needed(h.ty)
    else
      0 <= k <= RED_JOKER && points[k] >= Needed(h.ty)
  }

  /** Naive search: try every key from `k` upwards. -1 if none fits. */
  ghost function FirstFit(h: Hand, points: Counts, k: int): (key: int)
    requires 0 <= k && (IsChain(h.ty) ==> 1 <= h.len)
    ensures key == -1 <==> forall j :: k <= j ==> !FitsAt(h, points, j)
    ensures key != -1 ==> k <= key <= RED_JOKER && FitsAt(h, points, key)
    ensures key != -1 ==> forall j :: k <= j < key ==> !FitsAt(h, points, j)
    decreases RANKS - k
  {
    if k > RED_JOKER then -1
    else if FitsAt(h, points, k) then k
    else FirstFit(h, points, k + 1)
  }

  lemma FirstFitIs(h: Hand, points: Counts, k: int, key: int)
    requires 0 <= k && (IsChain(h.ty) ==> 1 <= h.len)
    requires k <= key && FitsAt(h, points, key)
    requires forall j :: k <= j < key ==> !FitsAt(h, points, j)
    ensures FirstFit(h, points, k) == key
  {
  }

  /** The plain hand of `h`'s kind at key `k`: kickers are not chosen yet. */
  function BodyAt(h: Hand, k: int): Hand {
    Hand(h.ty, k, if IsChain(h.ty) then h.len else 0, [])
  }

  /**
    The next higher hand: the lowest key above `h.key` that fits.  A winged hand also needs an
    answer from the kicker search, which turns a chain with pair wings into one with solo wings.
   */
  ghost function NextHigher(h: Hand, points: Counts, search: Hand -> KickerSearch): (higher: Hand)
    requires 0 <= h.key && (IsChain(h.ty) ==> 1 <= h.len)
    ensures higher.ty != Nothing ==> h.key < higher.key <= RED_JOKER && FitsAt(h, points, higher.key)
    ensures higher.ty != Nothing ==> (IsChain(higher.ty) <==> IsChain(h.ty))
    ensures higher.ty != Nothing && IsChain(h.ty) ==> higher.len == h.len
  {
    var k := FirstFit(h, points, h.key + 1);
    if k == -1 || h.ty == Nothing then NOTHING
    else if !NeedsKicker(h.ty) then BodyAt(h, k)
    else WithKickers(BodyAt(h, k), search(BodyAt(h, k)))
  }

  function WithKickers(body: Hand, answer: KickerSearch): Hand {
    match answer
    case NoKicker => NOTHING
    case Found(k) => body.(ty := if body.ty == TrioChainPair then TrioChainSolo else body.ty, kicker := k)
  }

  // ----- the search as the source runs it

  /** Chain body: scan upwards and jump over a whole failed run at once.  -1 if none fits. */
  method ScanChain(h: Hand, points: array<int>) returns (key: int)
    requires points.Length == RANKS && IsChain(h.ty) && 0 <= h.key && 1 <= h.len
    ensures key == FirstFit(h, points[..], h.key + 1)
  {
    var number := if h.ty == SoloChain then 1 else if h.ty == PairChain then 2 else 3;
    var i := h.key + 1;
    var maxKey := CARD_A - h.len + 1;
    ghost var c := points[..];
    key := -1;
    while i <= maxKey
      invariant h.key < i
      invariant forall j :: h.key < j < i ==> !FitsAt(h, c, j)
      decreases RANKS - i
    {
      if points[i] >= number {
        var start, end := i, i;
        while end - start != h.len - 1 && end + 1 <= CARD_A && points[end + 1] >= number
          invariant start <= end <= CARD_A && end - start <= h.len - 1
          invariant forall r :: start <= r <= end ==> c[r] >= number
        {
          end := end + 1;
        }
        if end - start == h.len - 1 {
          FirstFitIs(h, c, h.key + 1, start);
          return start;
        }
        RunTooShort(h, c, start, end);
        i := end + 1;
        EmptyBreaks(h, c, i);
      } else {
        EmptyBreaks(h, c, i);
      }
      i := i + 1;
    }
    NothingBeyond(h, c, i);
  }

  /** A run that ends too early carries no chain at any of its ranks. */
  lemma RunTooShort(h: Hand, c: Counts, start: int, end: int)
    requires IsChain(h.ty) && 0 <= start <= end <= CARD_A && end - start < h.len - 1
    requires end + 1 > CARD_A || c[end + 1] < Needed(h.ty)
    ensures forall j :: start <= j <= end ==> !FitsAt(h, c, j)
  {
  }

  lemma EmptyBreaks(h: Hand, c: Counts, i: int)
    requires IsChain(h.ty) && 1 <= h.len && 0 <= i <= CARD_2
    requires i > CARD_A || c[i] < Needed(h.ty)
    ensures !FitsAt(h, c, i)
  {
  }

  lemma NothingBeyond(h: Hand, c: Counts, i: int)
    requires IsChain(h.ty) && 1 <= h.len && 0 <= h.key < i && i > CARD_A - h.len + 1
    requires forall j :: h.key < j < i ==> !FitsAt(h, c, j)
    ensures FirstFit(h, c, h.key + 1) == -1
  {
  }

  method ScanSingle(h: Hand, points: array<int>) returns (key: int)
    requires points.Length == RANKS && !IsChain(h.ty) && 0 <= h.key
    ensures key == FirstFit(h, points[..], h.key + 1)
  {
    var number := Needed(h.ty);
    ghost var c := points[..];
    key := -1;
    var i := h.key + 1;
    while i <= RED_JOKER
      invariant h.key < i
      invariant forall j :: h.key < j < i ==> !FitsAt(h, c, j)
    {
      if points[i] >= number {
        FirstFitIs(h, c, h.key + 1, i);
        return i;
      }
      i := i + 1;
    }
  }

  method FindHigherHandFromPoints(h: Hand, points: array<int>, search: Hand -> KickerSearch)
    returns (higher: Hand)
    requires points.Length == RANKS && 0 <= h.key && (IsChain(h.ty) ==> 1 <= h.len)
    ensures higher == NextHigher(h, points[..], search)
  {
    var key;
    if IsChain(h.ty) {
      key := ScanChain(h, points);
    } else {
      key := ScanSingle(h, points);
    }
    if key == -1 || h.ty == Nothing {
      return NOTHING;
    }
    higher := BodyAt(h, key);
    if NeedsKicker(higher.ty) {
      higher := WithKickers(higher, search(higher));
    }
  }

  // ----- repeating the search

  /** All answers when each answer is fed back as the next question. */
  ghost function Iterates(h: Hand, points: Counts, search: Hand -> KickerSearch): seq<Hand>
    requires 0 <= h.key && (IsChain(h.ty) ==> 1 <= h.len)
    decreases RANKS - h.key
  {
    var higher := NextHigher(h, points, search);
    if higher.ty == Nothing then [] else [higher] + Iterates(higher, points, search)
  }

  predicate Plain(ty: HandType) {
    ty == Solo || ty == Pair || ty == Trio || ty == Bomb || ty == SoloChain || ty == PairChain || ty == TrioChain
  }

  /** The kinds for which an answer is a body without kickers: fours with two get none. */
  predicate Bare(ty: HandType) {
    ty != Nothing && ty != Nuke && !NeedsKicker(ty)
  }

  /** Answers rise strictly, so the driver's endless loop ends for every kind of hand. */
  lemma {:induction false} IteratesRise(h: Hand, points: Counts, search: Hand -> KickerSearch, i: nat)
    requires 0 <= h.key && (IsChain(h.ty) ==> 1 <= h.len)
    requires i < |Iterates(h, points, search)|
    ensures h.key < Iterates(h, points, search)[i].key <= RED_JOKER
    ensures forall j :: 0 <= j < i ==> Iterates(h, points, search)[j].key < Iterates(h, points, search)[i].key
    decreases RANKS - h.key
  {
    var higher := NextHigher(h, points, search);
    var rest := Iterates(higher, points, search);
    if i > 0 {
      IteratesRise(higher, points, search, i - 1);
      forall j | 0 <= j < i
        ensures Iterates(h, points, search)[j].key < Iterates(h, points, search)[i].key
      {
        if j > 0 {
          assert Iterates(h, points, search)[j] == rest[j - 1];
        }
      }
    }
  }

  /**
    Repeating the search enumerates exactly the keys above `h.key` at which the hand fits: a hand
    is among the answers iff it is the plain hand at such a key.
   */
  lemma {:induction false} IteratesEnumerate(h: Hand, points: Counts, search: Hand -> KickerSearch, g: Hand)
    requires 0 <= h.key && (IsChain(h.ty) ==> 1 <= h.len) && Bare(h.ty)
    ensures g in Iterates(h, points, search)
      <==> h.key < g.key && FitsAt(h, points, g.key) && g == BodyAt(h, g.key)
    decreases RANKS - h.key
  {
    var higher := NextHigher(h, points, search);
    if higher.ty != Nothing {
      IteratesEnumerate(higher, points, search, g);
      assert FitsAt(higher, points, g.key) <==> FitsAt(h, points, g.key);
    }
  }

  lemma BodyFits(h: Hand, points: Counts, k: int, r: int)
    requires h.ty != Nothing && h.ty != Nuke && NonNegative(points) && FitsAt(h, points, k) && 0 <= r < RANKS
    ensures At(BodyAt(h, k), r) <= points[r]
  {
    var g := BodyAt(h, k);
    assert multiset(g.kicker)[r] == 0;
    assert BodyMult(g.ty) == Needed(g.ty);
  }

  /** The ranks at which the body of a hand can lie: chains in 3..A, single ranks up to the red joker. */
  predicate BodyInRanks(g: Hand) {
    0 <= g.key && if IsChain(g.ty) then g.key + g.len - 1 <= CARD_A else g.key <= RED_JOKER
  }

  /** The hand lies within its ranks and its cards are there. */
  ghost predicate IsHeld(g: Hand, points: Counts) {
    BodyInRanks(g) && forall r :: 0 <= r < RANKS ==> At(g, r) <= points[r]
  }

  /** The body of a hand fits at a key iff its cards are there, rank by rank. */
  lemma FitsIff(h: Hand, points: Counts, k: int)
    requires h.ty != Nothing && h.ty != Nuke && NonNegative(points)
    ensures FitsAt(h, points, k) <==> IsHeld(BodyAt(h, k), points)
  {
    var g := BodyAt(h, k);
    assert forall r :: multiset(g.kicker)[r] == 0;
    if IsHeld(g, points) {
      forall r | k <= r < k + Span(g)
        ensures points[r] >= Needed(h.ty)
      {
        assert At(g, r) == Needed(h.ty);
      }
    } else if FitsAt(h, points, k) {
      forall r | 0 <= r < RANKS { BodyFits(h, points, k, r); }
    }
  }

  /**
    So repeating the search for a hand without wings enumerates exactly the hands of its kind and length above
    it that are held, card by card.
   */
  lemma IteratesAreHeld(h: Hand, points: Counts, search: Hand -> KickerSearch, g: Hand)
    requires 0 <= h.key && (IsChain(h.ty) ==> 1 <= h.len) && Bare(h.ty) && NonNegative(points)
    ensures g in Iterates(h, points, search) <==>
      && g == Hand(h.ty, g.key, if IsChain(h.ty) then h.len else 0, []) && h.key < g.key
      && IsHeld(g, points)
  {
    hide Iterates, FitsAt;
    IteratesEnumerate(h, points, search, g);
    FitsIff(h, points, g.key);
  }

  /**
    Winged or not, an answer lies at the lowest key above the one asked about at which the body is held,
    and a hand without wings gets none only if there is no such key.
   */
  lemma AnswerIsLowest(h: Hand, points: Counts, search: Hand -> KickerSearch)
    requires 0 <= h.key && (IsChain(h.ty) ==> 1 <= h.len) && h.ty != Nothing && h.ty != Nuke && NonNegative(points)
    ensures var g := NextHigher(h, points, search);
      if g.ty != Nothing then
        && h.key < g.key && IsHeld(BodyAt(h, g.key), points)
        && forall k :: h.key < k < g.key ==> !IsHeld(BodyAt(h, k), points)
      else
        Bare(h.ty) ==> forall k :: h.key < k ==> !IsHeld(BodyAt(h, k), points)
  {
    hide FitsAt, IsHeld, FirstFit;
    forall k
      ensures FitsAt(h, points, k) <==> IsHeld(BodyAt(h, k), points)
    {
      FitsIff(h, points, k);
    }
    FirstFitFacts(h, points, h.key + 1);
  }

  lemma FirstFitFacts(h: Hand, points: Counts, k: int)
    requires 0 <= k && (IsChain(h.ty) ==> 1 <= h.len)
    ensures var key := FirstFit(h, points, k);
      if key == -1 then forall j :: k <= j ==> !FitsAt(h, points, j)
      else k <= key && FitsAt(h, points, key) && forall j :: k <= j < key ==> !FitsAt(h, points, j)
  {
  }

  /** Every plain answer beats the hand it was asked about and is made of cards that are there. */
  lemma IteratesBeat(h: Hand, points: Counts, search: Hand -> KickerSearch, g: Hand)
    requires 0 <= h.key && (IsChain(h.ty) ==> 1 <= h.len) && Plain(h.ty) && NonNegative(points)
    requires g in Iterates(h, points, search)
    ensures IsHandHigherThan(g, h)
    ensures forall r :: 0 <= r < RANKS ==> At(g, r) <= points[r]
  {
    IteratesEnumerate(h, points, search, g);
    forall r | 0 <= r < RANKS
      ensures At(g, r) <= points[r]
    {
      BodyFits(h, points, g.key, r);
    }
  }

  /**
    Exactly when an answer beats the hand it was asked about: unless that is a chain with pair
    wings, which is answered with solo wings, or a nuke.
   */
  lemma AnswerBeatsIff(h: Hand, points: Counts, search: Hand -> KickerSearch)
    requires 0 <= h.key && (IsChain(h.ty) ==> 1 <= h.len)
    requires NextHigher(h, points, search).ty != Nothing
    ensures IsHandHigherThan(NextHigher(h, points, search), h) <==> h.ty != TrioChainPair && h.ty != Nuke
  {
    hide FirstFit;
  }

  /** On legal counts a nuke gets no answer at all. */
  lemma NukeIsNotAnswered(h: Hand, points: Counts, search: Hand -> KickerSearch)
    requires h.ty == Nuke && h.key == BLACK_JOKER && Legal(points)
    ensures NextHigher(h, points, search) == NOTHING
  {
  }

  /** So on legal counts the driver sees only answers that beat the table, but for pair wings. */
  lemma {:induction false} IteratesBeatIff(h: Hand, points: Counts, search: Hand -> KickerSearch, i: nat)
    requires 0 <= h.key && (IsChain(h.ty) ==> 1 <= h.len) && (h.ty == Nuke ==> h.key == BLACK_JOKER)
    requires Legal(points) && i < |Iterates(h, points, search)|
    ensures IsHandHigherThan(Iterates(h, points, search)[i], h) <==> h.ty != TrioChainPair
    decreases i
  {
    hide NextHigher;
    var higher := NextHigher(h, points, search);
    var rest := Iterates(higher, points, search);
    assert Iterates(h, points, search) == [higher] + rest;
    AnswerBeatsIff(h, points, search);
    if h.ty == Nuke {
      NukeIsNotAnswered(h, points, search);
    }
    AnswerKind(h, points, search);
    if i > 0 {
      IteratesRise(higher, points, search, i - 1);
      IteratesKind(higher, points, search, i - 1);
    }
  }

  /** The kind of an answer. */
  function AnswerType(ty: HandType): HandType {
    if ty == TrioChainPair then TrioChainSolo else ty
  }

  lemma AnswerKind(h: Hand, points: Counts, search: Hand -> KickerSearch)
    requires 0 <= h.key && (IsChain(h.ty) ==> 1 <= h.len)
    ensures NextHigher(h, points, search).ty in {Nothing, AnswerType(h.ty)}
  {
    hide FirstFit;
  }

  lemma {:induction false} IteratesKind(h: Hand, points: Counts, search: Hand -> KickerSearch, i: nat)
    requires 0 <= h.key && (IsChain(h.ty) ==> 1 <= h.len) && i < |Iterates(h, points, search)|
    ensures Iterates(h, points, search)[i].ty == AnswerType(h.ty)
    ensures IsChain(h.ty) ==> Iterates(h, points, search)[i].len == h.len
    decreases i
  {
    hide NextHigher;
    var higher := NextHigher(h, points, search);
    assert Iterates(h, points, search) == [higher] + Iterates(higher, points, search);
    AnswerKind(h, points, search);
    if i > 0 {
      IteratesKind(higher, points, search, i - 1);
    }
  }

  /** The first accepted answer is the one with the lowest key. */
  lemma FirstAccepted(
    cur: Hand, points: Counts, search: Hand -> KickerSearch, accept: Hand -> bool, seen: seq<Hand>, higher: Hand)
    requires 0 <= cur.key && (IsChain(cur.ty) ==> 1 <= cur.len)
    requires seen + [higher] <= Iterates(cur, points, search)
    requires forall g :: g in seen ==> !accept(g)
    ensures higher in Iterates(cur, points, search)
    ensures forall g :: g in Iterates(cur, points, search) && g.key < higher.key ==> !accept(g)
  {
    var all := Iterates(cur, points, search);
    var n := |seen|;
    assert (seen + [higher])[n] == higher;
    forall g | g in all && g.key < higher.key
      ensures !accept(g)
    {
      var i :| 0 <= i < |all| && all[i] == g;
      if i < n {
        assert (seen + [higher])[i] == g;
      } else {
        IteratesRise(cur, points, search, i);
      }
    }
  }

  /** What the driver returns: the lowest accepted answer, or one of those kept, or nothing. */
  ghost predicate Driven(all: seq<Hand>, accept: Hand -> bool, keep: Hand -> bool, hand: Hand) {
    if exists g :: g in all && accept(g) then
      hand in all && accept(hand) && forall g :: g in all && g.key < hand.key ==> !accept(g)
    else if exists g :: g in all && keep(g) then hand in all && keep(hand)
    else hand == NOTHING
  }

  lemma IteratesStep(now: Hand, points: Counts, search: Hand -> KickerSearch, seen: seq<Hand>)
    requires 0 <= now.key && (IsChain(now.ty) ==> 1 <= now.len)
    requires NextHigher(now, points, search).ty != Nothing
    ensures var higher := NextHigher(now, points, search);
      && seen + Iterates(now, points, search) == seen + [higher] + Iterates(higher, points, search)
      && seen + [higher] <= seen + Iterates(now, points, search)
  {
    hide NextHigher;
    var higher := NextHigher(now, points, search);
    var rest := Iterates(higher, points, search);
    assert Iterates(now, points, search) == [higher] + rest;
    hide Iterates;
    JoinedLists(seen, higher, rest);
  }

  lemma JoinedLists(seen: seq<Hand>, h: Hand, rest: seq<Hand>)
    ensures seen + ([h] + rest) == seen + [h] + rest
    ensures seen + [h] <= seen + ([h] + rest)
  {
  }

  /** The driver's loop: stop at the first accepted answer, else gather the answers worth keeping. */
  method CollectHigher(
    cur: Hand, points: array<int>, search: Hand -> KickerSearch, accept: Hand -> bool, keep: Hand -> bool)
    returns (accepted: bool, hand: Hand, higherHands: seq<Hand>)
    requires points.Length == RANKS && 0 <= cur.key && (IsChain(cur.ty) ==> 1 <= cur.len)
    ensures var all := Iterates(cur, points[..], search);
      if accepted then
        hand in all && accept(hand) && forall g :: g in all && g.key < hand.key ==> !accept(g)
      else
        (forall g :: g in all ==> !accept(g)) && forall g :: g in higherHands <==> g in all && keep(g)
  {
    ghost var c := points[..];
    ghost var all := Iterates(cur, c, search);
    ghost var seen: seq<Hand> := [];
    var nowHand := cur;
    accepted, hand, higherHands := false, NOTHING, [];
    while true
      invariant 0 <= nowHand.key && (IsChain(nowHand.ty) ==> 1 <= nowHand.len)
      invariant all == seen + Iterates(nowHand, c, search) && !accepted
      invariant forall g :: g in seen ==> !accept(g)
      invariant forall g :: g in higherHands <==> g in seen && keep(g)
      decreases RANKS - nowHand.key
    {
      var higher := FindHigherHandFromPoints(nowHand, points, search);
      if higher.ty == Nothing {
        break;
      }
      IteratesStep(nowHand, c, search, seen);
      if accept(higher) {
        FirstAccepted(cur, c, search, accept, seen, higher);
        return true, higher, higherHands;
      }
      if keep(higher) {
        higherHands := higherHands + [higher];
      }
      seen := seen + [higher];
      nowHand := higher;
    }
    assert all == seen;
  }

  /**
    The driver: collect the answers worth keeping, return at once on one that is accepted, and
    else return the pick among those kept.  `accept`, `keep` and `pick` stand for the scores.
   */
  method FindBestHigherHandFromPoints(
    cur: Hand, points: array<int>, search: Hand -> KickerSearch,
    accept: Hand -> bool, keep: Hand -> bool, pick: seq<Hand> -> nat) returns (hand: Hand)
    requires points.Length == RANKS && 0 <= cur.key && (IsChain(cur.ty) ==> 1 <= cur.len)
    ensures Driven(Iterates(cur, points[..], search), accept, keep, hand)
  {
    var accepted, found, higherHands := CollectHigher(cur, points, search, accept, keep);
    hand := found;
    if !accepted {
      hand := NOTHING;
      if |higherHands| > 0 {
        var i := pick(higherHands);
        hand := higherHands[if i < |higherHands| then i else 0];
        assert hand in higherHands;
      }
      KeptOrNothing(Iterates(cur, points[..], search), accept, keep, higherHands, hand);
    }
  }

  lemma KeptOrNothing(all: seq<Hand>, accept: Hand -> bool, keep: Hand -> bool, kept: seq<Hand>, hand: Hand)
    requires forall g :: g in all ==> !accept(g)
    requires forall g :: g in kept <==> g in all && keep(g)
    requires if kept == [] then hand == NOTHING else hand in kept
    ensures Driven(all, accept, keep, hand)
  {
    assert kept != [] ==> kept[0] in kept && kept[0] in all && keep(kept[0]);
  }
}
