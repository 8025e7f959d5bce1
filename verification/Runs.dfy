/**
  Extraction of trio chains and pair chains (`getTrioChain`, `getPairChain`, `optimizePairChain`).

  `getPairChain` debits two cards from `keyPoint .. keyPoint + len`, one rank past the chain.  The
  model keeps that debit: counts are signed, and the extra debit is accounted for by `Debits`.
 */
module Runs {
  import opened Cards
  import opened Hands
  import opened HandMaps

  /** First rank at or after `i`, at most one past the ace, that holds fewer than `k` cards. */
  function RunEnd(c: Counts, i: int, k: int): (e: int)
    requires 0 <= i <= CARD_2
    ensures i <= e <= CARD_2
    ensures forall r :: i <= r < e ==> c[r] >= k
    ensures e == CARD_2 || c[e] < k
    decreases |c| - i
  {
    if i <= CARD_A && c[i] >= k then RunEnd(c, i + 1, k) else i
  }

  /** The counts once the cards of `hands` are taken away. */
  function Minus(c: Counts, hands: seq<Hand>): Counts {
    seq(RANKS, r requires 0 <= r < RANKS => c[r] - Total(hands, r))
  }

  function SubRange(c: Counts, lo: int, hi: int, m: int): Counts {
    seq(RANKS, r requires 0 <= r < RANKS => if lo <= r < hi then c[r] - m else c[r])
  }

  /** `for (j = lo; j < hi; ++j) cards[j] -= m`. */
  method SubtractRange(cards: array<int>, lo: int, hi: int, m: int)
    requires cards.Length == RANKS && 0 <= lo <= hi <= RANKS
    modifies cards
    ensures cards[..] == SubRange(old(cards[..]), lo, hi, m)
  {
    for j := lo to hi
      invariant cards[..] == SubRange(old(cards[..]), lo, j, m)
    {
      cards[j] := cards[j] - m;
    }
  }

  /** The do-while loop that walks to the last rank of a run. */
  method WalkRun(cards: array<int>, start: int, k: int) returns (next: int)
    requires cards.Length == RANKS && 0 <= start <= CARD_A && cards[start] >= k
    ensures next == RunEnd(cards[..], start, k) && start < next
  {
    next := start + 1;
    while next <= CARD_A && cards[next] >= k
      invariant start < next <= CARD_2
      invariant RunEnd(cards[..], next, k) == RunEnd(cards[..], start, k)
    {
      next := next + 1;
    }
  }

  // ----- getTrioChain

  /** The maximal runs of trios from rank `i` on that are at least two ranks long. */
  function TrioChains(c: Counts, i: int): seq<Hand>
    requires 0 <= i
    decreases |c| - i
  {
    if i > CARD_K then []
    else if c[i] >= 3 then
      var e := RunEnd(c, i, 3);
      (if e - i >= 2 then [Hand(TrioChain, i, e - i, [])] else []) + TrioChains(c, e + 1)
    else TrioChains(c, i + 1)
  }

  /** One round of the scan: walk the run that starts here and take it if it is long enough. */
  method TakeTrioRun(cards: array<int>, start: int, ghost c: Counts, hands: seq<Hand>)
    returns (hands': seq<Hand>, next: int)
    requires cards.Length == RANKS && 0 <= start <= CARD_K && cards[start] >= 3
    requires cards[..] == Minus(c, hands)
    requires forall r :: start <= r < RANKS ==> cards[r] == c[r]
    modifies cards
    ensures next == RunEnd(c, start, 3) && start < next
    ensures hands' == hands + (if next - start >= 2 then [Hand(TrioChain, start, next - start, [])] else [])
    ensures cards[..] == Minus(c, hands')
    ensures forall r :: next <= r < RANKS ==> cards[r] == c[r]
  {
    RunEndFrame(c, cards[..], start, 3);
    next := WalkRun(cards, start, 3);
    hands' := hands;
    if next - start >= 2 {
      var hand := Hand(TrioChain, start, next - start, []);
      MinusSnoc(c, hands, hand, cards[..]);
      hands' := hands + [hand];
      SubtractRange(cards, start, next, 3);
    }
  }

  method GetTrioChain(cards: array<int>) returns (hands: seq<Hand>)
    requires cards.Length == RANKS
    modifies cards
    ensures hands == TrioChains(old(cards[..]), CARD_3)
    ensures cards[..] == Minus(old(cards[..]), hands)
  {
    hide TrioChains, Minus, RunEnd;
    ghost var c := cards[..];
    ghost var all := TrioChains(c, CARD_3);
    hands := [];
    MinusNothing(c);
    var i := CARD_3;
    while i <= CARD_K
      invariant 0 <= i <= BLACK_JOKER
      invariant hands + TrioChains(c, i) == all
      invariant forall r :: i <= r < RANKS ==> cards[r] == c[r]
      invariant cards[..] == Minus(c, hands)
      decreases RANKS - i
    {
      ghost var before := hands;
      if cards[i] >= 3 {
        ghost var start := i;
        hands, i := TakeTrioRun(cards, i, c, hands);
        TrioChainsStep(c, start, before, hands);
      } else {
        TrioChainsSkip(c, i);
      }
      i := i + 1;
    }
    TrioChainsEnd(c, i);
  }

  lemma MinusNothing(c: Counts)
    ensures Minus(c, []) == c
  {
  }

  lemma TrioChainsSkip(c: Counts, i: int)
    requires 0 <= i <= CARD_K && c[i] < 3
    ensures TrioChains(c, i) == TrioChains(c, i + 1)
  {
  }

  lemma TrioChainsEnd(c: Counts, i: int)
    requires CARD_K < i
    ensures TrioChains(c, i) == []
  {
  }

  lemma TrioChainsStep(c: Counts, i: int, before: seq<Hand>, after: seq<Hand>)
    requires 0 <= i <= CARD_K && c[i] >= 3
    requires var e := RunEnd(c, i, 3);
      after == before + (if e - i >= 2 then [Hand(TrioChain, i, e - i, [])] else [])
    ensures before + TrioChains(c, i) == after + TrioChains(c, RunEnd(c, i, 3) + 1)
  {
  }

  lemma {:induction false} RunEndFrame(c: Counts, d: Counts, i: int, k: int)
    requires 0 <= i <= CARD_2
    requires forall r :: i <= r < RANKS ==> c[r] == d[r]
    ensures RunEnd(c, i, k) == RunEnd(d, i, k)
    decreases |c| - i
  {
    if i <= CARD_A && c[i] >= k {
      RunEndFrame(c, d, i + 1, k);
    }
  }

  /** Taking one more chain subtracts its body. */
  lemma MinusSnoc(c: Counts, hands: seq<Hand>, h: Hand, now: Counts)
    requires IsChain(h.ty) && h.kicker == [] && now == Minus(c, hands)
    ensures Minus(c, hands + [h]) == SubRange(now, h.key, h.key + h.len, BodyMult(h.ty))
  {
    forall r | 0 <= r < RANKS
      ensures Total(hands + [h], r) == Total(hands, r) + (if InBody(h, r) then BodyMult(h.ty) else 0)
    {
      TotalConcat(hands, [h], r);
      assert multiset(h.kicker)[r] == 0;
      assert [h][1..] == [];
    }
  }

  /** A rank within 3..A with three cards and a neighbour from `lo` on that has three as well. */
  predicate TrioLinked(c: Counts, lo: int, r: int)
    requires 0 <= lo
  {
    && lo <= r <= CARD_A && c[r] >= 3
    && ((r + 1 <= CARD_A && c[r + 1] >= 3) || (lo <= r - 1 && c[r - 1] >= 3))
  }

  /** Past a run, linked ranks are those of the run, if it is long enough, and those beyond it. */
  lemma LinkedPastRun(c: Counts, i: int, r: int)
    requires 0 <= i <= CARD_K && c[i] >= 3
    ensures var e := RunEnd(c, i, 3);
      TrioLinked(c, i, r) <==> (e - i >= 2 && i <= r < e) || TrioLinked(c, e + 1, r)
  {
    var e := RunEnd(c, i, 3);
    assert e > i;
    assert r == e + 1 <= CARD_A ==> c[r - 1] < 3;
  }

  /** Cards of a rank in a list of at most one plain chain. */
  lemma OneChainTotal(h: Hand, taken: bool, r: int)
    requires IsChain(h.ty) && h.kicker == []
    ensures Total(if taken then [h] else [], r) == if taken && InBody(h, r) then BodyMult(h.ty) else 0
  {
    assert [h][1..] == [];
    assert multiset(h.kicker)[r] == 0;
  }

  /** Trio chains take three cards of exactly the ranks that have a linked neighbour, once each. */
  lemma {:induction false} TrioChainsTake(c: Counts, i: int, r: int)
    requires 0 <= i && 0 <= r < RANKS
    ensures Total(TrioChains(c, i), r) == if TrioLinked(c, i, r) then 3 else 0
    decreases |c| - i
  {
    hide TrioLinked, Total, TrioChains, RunEnd;
    if i > CARD_K {
      TrioChainsEnd(c, i);
      NotLinkedBeyond(c, i, r);
    } else if c[i] >= 3 {
      var e := RunEnd(c, i, 3);
      RunTotal(c, i, r);
      TrioChainsTake(c, e + 1, r);
      LinkedPastRun(c, i, r);
      NotLinkedBelow(c, e + 1, r);
    } else {
      TrioChainsSkip(c, i);
      TrioChainsTake(c, i + 1, r);
      LinkedPastGap(c, i, r);
    }
  }

  /** The chain of the run that starts here, if it is long enough, and the chains beyond it. */
  lemma RunTotal(c: Counts, i: int, r: int)
    requires 0 <= i <= CARD_K && c[i] >= 3
    ensures var e := RunEnd(c, i, 3);
      Total(TrioChains(c, i), r) == (if e - i >= 2 && i <= r < e then 3 else 0) + Total(TrioChains(c, e + 1), r)
  {
    hide Total;
    var e := RunEnd(c, i, 3);
    var h := Hand(TrioChain, i, e - i, []);
    TotalConcat(if e - i >= 2 then [h] else [], TrioChains(c, e + 1), r);
    OneChainTotal(h, e - i >= 2, r);
  }

  lemma LinkedPastGap(c: Counts, i: int, r: int)
    requires 0 <= i <= CARD_K && c[i] < 3
    ensures TrioLinked(c, i, r) <==> TrioLinked(c, i + 1, r)
  {
  }

  lemma NotLinkedBelow(c: Counts, lo: int, r: int)
    requires 0 <= lo
    ensures r < lo ==> !TrioLinked(c, lo, r)
  {
  }

  lemma NotLinkedBeyond(c: Counts, lo: int, r: int)
    requires CARD_K < lo
    ensures !TrioLinked(c, lo, r)
    ensures Total([], r) == 0
  {
  }

  /** `s .. e` (exclusive) is a run of ranks with `k` cards that cannot be made longer within `lo`..A. */
  ghost predicate MaximalRun(c: Counts, k: int, lo: int, s: int, e: int)
    requires 0 <= lo
  {
    && lo <= s < e <= CARD_2
    && (forall r :: s <= r < e ==> c[r] >= k)
    && (s == lo || c[s - 1] < k)
    && (e == CARD_2 || c[e] < k)
  }

  /** A maximal run starts where the scan finds one, or beyond it. */
  lemma RunsFrom(c: Counts, k: int, i: int, s: int, e: int)
    requires 0 <= i <= CARD_A && c[i] >= k
    ensures MaximalRun(c, k, i, s, e)
      <==> (s == i && e == RunEnd(c, i, k)) || MaximalRun(c, k, RunEnd(c, i, k) + 1, s, e)
  {
    var n := RunEnd(c, i, k);
    if MaximalRun(c, k, i, s, e) {
      var afterRun, afterOther, before := c[n], c[e], c[if s > i then s - 1 else s];
      assert s <= n < e ==> afterRun >= k;
      assert i <= e < n ==> afterOther >= k;
    }
  }

  lemma RunsAfterGap(c: Counts, k: int, i: int, s: int, e: int)
    requires 0 <= i <= CARD_A && c[i] < k
    ensures MaximalRun(c, k, i, s, e) <==> MaximalRun(c, k, i + 1, s, e)
  {
  }

  lemma InTrioChains(c: Counts, i: int, h: Hand)
    requires 0 <= i <= CARD_K && c[i] >= 3
    ensures var e := RunEnd(c, i, 3);
      h in TrioChains(c, i) <==> (e - i >= 2 && h == Hand(TrioChain, i, e - i, [])) || h in TrioChains(c, e + 1)
  {
  }

  lemma NoLongRunBeyond(c: Counts, k: int, lo: int, s: int, e: int)
    requires CARD_K < lo
    ensures !(MaximalRun(c, k, lo, s, e) && e - s >= 2)
  {
  }

  /** The trio chains are exactly the maximal runs of trios that are at least two ranks long. */
  lemma {:induction false} TrioChainsAreRuns(c: Counts, i: int, h: Hand)
    requires 0 <= i
    ensures h in TrioChains(c, i) <==>
      h == Hand(TrioChain, h.key, h.len, []) && h.len >= 2 && MaximalRun(c, 3, i, h.key, h.key + h.len)
    decreases |c| - i
  {
    hide MaximalRun, TrioChains, RunEnd;
    if i > CARD_K {
      TrioChainsEnd(c, i);
      NoLongRunBeyond(c, 3, i, h.key, h.key + h.len);
    } else if c[i] >= 3 {
      InTrioChains(c, i, h);
      RunsFrom(c, 3, i, h.key, h.key + h.len);
      TrioChainsAreRuns(c, RunEnd(c, i, 3) + 1, h);
    } else {
      TrioChainsSkip(c, i);
      RunsAfterGap(c, 3, i, h.key, h.key + h.len);
      TrioChainsAreRuns(c, i + 1, h);
    }
  }

  lemma {:induction false} TrioChainsShaped(c: Counts, i: int)
    requires 0 <= i
    ensures AllShaped(TrioChains(c, i), TrioChain)
    decreases |c| - i
  {
    if i <= CARD_K {
      if c[i] >= 3 {
        TrioChainsShaped(c, RunEnd(c, i, 3) + 1);
      } else {
        TrioChainsShaped(c, i + 1);
      }
    }
  }

  // ----- getPairChain

  /** Shorten a pair chain of more than three ranks while an end rank has cards to spare. */
  function OptimizePair(c: Counts, h: Hand): (h': Hand)
    requires 0 <= h.key && h.key + h.len <= CARD_2
    ensures h'.ty == h.ty && h'.kicker == h.kicker
    ensures h.key <= h'.key && h'.key + h'.len <= h.key + h.len
    ensures 3 <= h.len ==> 3 <= h'.len
    decreases |c|, h.len
  {
    if h.len > 3 then
      var start, end := h.key, h.key + h.len - 1;
      if c[end] > c[start] then OptimizePair(c, h.(len := h.len - 1))
      else if c[start] > 2 then OptimizePair(c, h.(key := h.key + 1, len := h.len - 1))
      else h
    else h
  }

  method OptimizePairChain(cards: array<int>, hand: Hand) returns (h: Hand)
    requires cards.Length == RANKS && 0 <= hand.key && hand.key + hand.len <= CARD_2
    ensures h == OptimizePair(cards[..], hand)
  {
    h := hand;
    while h.len > 3
      invariant 0 <= h.key && h.key + h.len <= CARD_2
      invariant OptimizePair(cards[..], h) == OptimizePair(cards[..], hand)
      decreases h.len
    {
      var start, end := h.key, h.key + h.len - 1;
      if cards[end] > cards[start] {
        h := h.(len := h.len - 1);
      } else if cards[start] > 2 {
        h := h.(key := h.key + 1, len := h.len - 1);
      } else {
        break;
      }
    }
  }

  /** An optimised pair chain is three ranks long, or has nothing to spare at either end. */
  lemma {:induction false} OptimizedEnds(c: Counts, h: Hand)
    requires 0 <= h.key && h.key + h.len <= CARD_2 && 3 <= h.len
    requires forall r :: h.key <= r < h.key + h.len ==> c[r] >= 2
    ensures var o := OptimizePair(c, h);
      o.len == 3 || (c[o.key] == 2 && c[o.key + o.len - 1] == 2)
    decreases h.len
  {
    hide OptimizePair;
    OptimizeStep(c, h);
    if h.len > 3 {
      var start, end := h.key, h.key + h.len - 1;
      assert c[start] >= 2 && c[end] >= 2;
      if c[end] > c[start] {
        OptimizedEnds(c, h.(len := h.len - 1));
      } else if c[start] > 2 {
        OptimizedEnds(c, h.(key := h.key + 1, len := h.len - 1));
      }
    }
  }

  /** Each rank that is cut off holds more than two cards, and no chain of three is cut. */
  lemma {:induction false} OptimizeCutsSpare(c: Counts, h: Hand, r: int)
    requires 0 <= h.key && h.key + h.len <= CARD_2 && h.key <= r < h.key + h.len
    requires forall k :: h.key <= k < h.key + h.len ==> c[k] >= 2
    ensures var o := OptimizePair(c, h);
      r < o.key || o.key + o.len <= r ==> 3 < h.len && c[r] > 2
    decreases h.len
  {
    hide OptimizePair;
    OptimizeStep(c, h);
    if h.len > 3 {
      var start, end := h.key, h.key + h.len - 1;
      assert c[start] >= 2;
      if c[end] > c[start] {
        if r < end {
          OptimizeCutsSpare(c, h.(len := h.len - 1), r);
        }
      } else if c[start] > 2 {
        if start < r {
          OptimizeCutsSpare(c, h.(key := h.key + 1, len := h.len - 1), r);
        }
      }
    }
  }

  /** One cut: the end with more cards goes, the low one if they are equal and more than two; else none. */
  lemma OptimizeStep(c: Counts, h: Hand)
    requires 0 <= h.key && h.key + h.len <= CARD_2
    ensures OptimizePair(c, h) ==
      if h.len <= 3 then h
      else if c[h.key + h.len - 1] > c[h.key] then OptimizePair(c, h.(len := h.len - 1))
      else if c[h.key] > 2 then OptimizePair(c, h.(key := h.key + 1, len := h.len - 1))
      else h
  {
  }

  /** The optimised maximal runs of pairs from rank `i` on that are at least three ranks long. */
  function PairChains(c: Counts, i: int): seq<Hand>
    requires 0 <= i
    decreases |c| - i
  {
    if i > CARD_Q then []
    else if c[i] >= 2 then
      var e := RunEnd(c, i, 2);
      (if e - i >= 3 then [OptimizePair(c, Hand(PairChain, i, e - i, []))] else []) + PairChains(c, e + 1)
    else PairChains(c, i + 1)
  }

  /** How many pair chains end right before rank `r`: each debits two cards of `r` it does not hold. */
  function Debits(hands: seq<Hand>, r: int): (n: int)
    ensures 0 <= n
  {
    if hands == [] then 0
    else (if hands[0].key + hands[0].len == r then 1 else 0) + Debits(hands[1..], r)
  }

  function AfterPairs(c: Counts, hands: seq<Hand>): Counts {
    seq(RANKS, r requires 0 <= r < RANKS => c[r] - Total(hands, r) - 2 * Debits(hands, r))
  }

  /** One round of the scan: walk the run that starts here, shorten it and take it. */
  method TakePairRun(cards: array<int>, start: int, ghost c: Counts, hands: seq<Hand>)
    returns (hands': seq<Hand>, next: int)
    requires cards.Length == RANKS && 0 <= start <= CARD_Q && cards[start] >= 2
    requires cards[..] == AfterPairs(c, hands)
    requires forall r :: start <= r < RANKS ==> cards[r] == c[r]
    modifies cards
    ensures next == RunEnd(c, start, 2) && start < next
    ensures hands' == hands + (if next - start >= 3
                               then [OptimizePair(c, Hand(PairChain, start, next - start, []))]
                               else [])
    ensures cards[..] == AfterPairs(c, hands')
    ensures forall r :: next < r < RANKS ==> cards[r] == c[r]
  {
    RunEndFrame(c, cards[..], start, 2);
    next := WalkRun(cards, start, 2);
    hands' := hands;
    if next - start >= 3 {
      OptimizeFrame(c, cards[..], Hand(PairChain, start, next - start, []));
      var hand := OptimizePairChain(cards, Hand(PairChain, start, next - start, []));
      AfterPairsSnoc(c, hands, hand, cards[..]);
      hands' := hands + [hand];
      SubtractRange(cards, hand.key, hand.key + hand.len + 1, 2);
    }
  }

  method GetPairChain(cards: array<int>) returns (hands: seq<Hand>)
    requires cards.Length == RANKS
    modifies cards
    ensures hands == PairChains(old(cards[..]), CARD_3)
    ensures cards[..] == AfterPairs(old(cards[..]), hands)
  {
    hide PairChains, AfterPairs, RunEnd, OptimizePair;
    ghost var c := cards[..];
    ghost var all := PairChains(c, CARD_3);
    hands := [];
    NothingDebited(c);
    var i := CARD_3;
    while i <= CARD_Q
      invariant 0 <= i <= BLACK_JOKER
      invariant hands + PairChains(c, i) == all
      invariant forall r :: i <= r < RANKS ==> cards[r] == c[r]
      invariant cards[..] == AfterPairs(c, hands)
      decreases RANKS - i
    {
      ghost var before := hands;
      if cards[i] >= 2 {
        ghost var start := i;
        hands, i := TakePairRun(cards, i, c, hands);
        PairChainsStep(c, start, before, hands);
      } else {
        PairChainsSkip(c, i);
      }
      i := i + 1;
    }
    PairChainsEnd(c, i);
  }

  lemma NothingDebited(c: Counts)
    ensures AfterPairs(c, []) == c
  {
  }

  lemma PairChainsSkip(c: Counts, i: int)
    requires 0 <= i <= CARD_Q && c[i] < 2
    ensures PairChains(c, i) == PairChains(c, i + 1)
  {
  }

  lemma PairChainsEnd(c: Counts, i: int)
    requires CARD_Q < i
    ensures PairChains(c, i) == []
  {
  }

  lemma PairChainsStep(c: Counts, i: int, before: seq<Hand>, after: seq<Hand>)
    requires 0 <= i <= CARD_Q && c[i] >= 2
    requires var e := RunEnd(c, i, 2);
      after == before + (if e - i >= 3 then [OptimizePair(c, Hand(PairChain, i, e - i, []))] else [])
    ensures before + PairChains(c, i) == after + PairChains(c, RunEnd(c, i, 2) + 1)
  {
  }

  lemma {:induction false} OptimizeFrame(c: Counts, d: Counts, h: Hand)
    requires 0 <= h.key && h.key + h.len <= CARD_2
    requires forall r :: h.key <= r < RANKS ==> c[r] == d[r]
    ensures OptimizePair(c, h) == OptimizePair(d, h)
    decreases h.len
  {
    if h.len > 3 {
      var start, end := h.key, h.key + h.len - 1;
      if c[end] > c[start] {
        OptimizeFrame(c, d, h.(len := h.len - 1));
      } else if c[start] > 2 {
        OptimizeFrame(c, d, h.(key := h.key + 1, len := h.len - 1));
      }
    }
  }

  lemma {:induction false} DebitsConcat(a: seq<Hand>, b: seq<Hand>, r: int)
    ensures Debits(a + b, r) == Debits(a, r) + Debits(b, r)
  {
    if a == [] {
      assert a + b == b;
    } else {
      DebitsConcat(a[1..], b, r);
      assert (a + b)[1..] == a[1..] + b;
    }
  }

  lemma AfterPairsSnoc(c: Counts, hands: seq<Hand>, h: Hand, now: Counts)
    requires h.ty == PairChain && h.kicker == [] && now == AfterPairs(c, hands) && 0 <= h.len
    ensures AfterPairs(c, hands + [h]) == SubRange(now, h.key, h.key + h.len + 1, 2)
  {
    forall r | 0 <= r < RANKS
      ensures Total(hands + [h], r) == Total(hands, r) + (if InBody(h, r) then 2 else 0)
      ensures Debits(hands + [h], r) == Debits(hands, r) + (if h.key + h.len == r then 1 else 0)
    {
      TotalConcat(hands, [h], r);
      DebitsConcat(hands, [h], r);
      assert multiset(h.kicker)[r] == 0;
      assert [h][1..] == [];
    }
  }

  /** Pair chains never overlap and only take from ranks of 3..A that hold a pair. */
  lemma {:induction false} PairChainsTake(c: Counts, i: int, r: int)
    requires 0 <= i && 0 <= r < RANKS
    ensures Total(PairChains(c, i), r) in {0, 2}
    ensures Total(PairChains(c, i), r) == 2 ==> i <= r <= CARD_A && c[r] >= 2
    decreases |c| - i
  {
    hide PairChains, OptimizePair, Total, Debits;
    if i > CARD_Q {
      PairChainsEnd(c, i);
      NothingFromNone(r);
    } else if c[i] < 2 {
      PairChainsSkip(c, i);
      PairChainsTake(c, i + 1, r);
    } else {
      RunNotEmpty(c, i);
      PairChainsTake(c, RunEnd(c, i, 2) + 1, r);
      RunDebits(c, i, r);
    }
  }

  /** Pair chains from `i` on neither end before their first rank nor overlap the rank they debit. */
  lemma {:induction false} DebitedIsFree(c: Counts, i: int, r: int)
    requires 0 <= i && 0 <= r < RANKS
    ensures Debits(PairChains(c, i), r) <= 1
    ensures Debits(PairChains(c, i), r) == 1 ==> Total(PairChains(c, i), r) == 0
    ensures r <= i ==> Debits(PairChains(c, i), r) == 0
    decreases |c| - i
  {
    hide PairChains, RunEnd, OptimizePair, Total, Debits, InBody;
    if i > CARD_Q {
      PairChainsEnd(c, i);
      NothingFromNone(r);
    } else if c[i] < 2 {
      PairChainsSkip(c, i);
      DebitedIsFree(c, i + 1, r);
    } else {
      var e := RunEnd(c, i, 2);
      RunNotEmpty(c, i);
      DebitedIsFree(c, e + 1, r);
      PairChainsTake(c, e + 1, r);
      RunDebits(c, i, r);
    }
  }

  lemma NothingFromNone(r: int)
    ensures Total([], r) == 0 && Debits([], r) == 0
  {
  }

  /** What the scan that meets a run at `i` takes and debits there: inside the run, and right after. */
  lemma RunDebits(c: Counts, i: int, r: int)
    requires 0 <= i <= CARD_Q && c[i] >= 2
    ensures var (e, all) := (RunEnd(c, i, 2), PairChains(c, i));
      var rest := PairChains(c, e + 1);
      var takes := Total(all, r) - Total(rest, r);
      var debits := Debits(all, r) - Debits(rest, r);
      && debits in {0, 1} && (debits == 1 ==> takes == 0 && i < r <= e)
      && takes in {0, 2} && (takes == 2 ==> i <= r < e)
  {
    hide PairChains, RunEnd, OptimizePair, Total, Debits;
    var e := RunEnd(c, i, 2);
    RunNotEmpty(c, i);
    var h := OptimizePair(c, Hand(PairChain, i, e - i, []));
    var first := if e - i >= 3 then [h] else [];
    PairChainsStep(c, i, [], first);
    OneChainDebit(h, PairChains(c, e + 1), e - i >= 3, r);
    assert [] + PairChains(c, i) == PairChains(c, i);
  }

  lemma RunNotEmpty(c: Counts, i: int)
    requires 0 <= i <= CARD_A && c[i] >= 2
    ensures RunEnd(c, i, 2) > i
  {
  }

  lemma OneChainDebit(h: Hand, rest: seq<Hand>, taken: bool, r: int)
    requires h.ty == PairChain && h.kicker == []
    ensures var all := (if taken then [h] else []) + rest;
      && Total(all, r) == Total(rest, r) + (if taken && InBody(h, r) then 2 else 0)
      && Debits(all, r) == Debits(rest, r) + (if taken && h.key + h.len == r then 1 else 0)
  {
    var first := if taken then [h] else [];
    TotalConcat(first, rest, r);
    DebitsConcat(first, rest, r);
    OneChainTotal(h, taken, r);
    assert [h][1..] == [];
  }

  /** A pair chain ends right below rank `r`: a maximal run of pairs, shortened, does. */
  ghost predicate PairsEndBelow(c: Counts, r: int) {
    exists h :: FromPairRun(c, CARD_3, h) && h.key + h.len == r
  }

  lemma {:induction false} DebitMember(hands: seq<Hand>, r: int)
    ensures Debits(hands, r) > 0 <==> exists h :: h in hands && h.key + h.len == r
    decreases |hands|
  {
    if hands != [] {
      DebitMember(hands[1..], r);
      assert hands == [hands[0]] + hands[1..];
      assert hands[0] in hands;
    }
  }

  /** A rank is debited, once, iff a pair chain ends right below it; then no pair chain takes from it. */
  lemma DebitedIff(c: Counts, r: int)
    requires 0 <= r < RANKS
    ensures Debits(PairChains(c, CARD_3), r) == if PairsEndBelow(c, r) then 1 else 0
    ensures PairsEndBelow(c, r) ==> Total(PairChains(c, CARD_3), r) == 0
  {
    hide FromPairRun, PairChains;
    DebitedIsFree(c, CARD_3, r);
    DebitMember(PairChains(c, CARD_3), r);
    forall h
      ensures h in PairChains(c, CARD_3) <==> FromPairRun(c, CARD_3, h)
    {
      PairChainsAreRuns(c, CARD_3, h);
    }
  }

  /** `h` is what is left of some maximal run of at least three pairs once it is shortened. */
  ghost predicate FromPairRun(c: Counts, i: int, h: Hand)
    requires 0 <= i
  {
    exists s, e :: MaximalRun(c, 2, i, s, e) && e - s >= 3 && h == OptimizePair(c, Hand(PairChain, s, e - s, []))
  }

  /** The pair chains are exactly the maximal runs of at least three pairs, each shortened. */
  lemma {:induction false} PairChainsAreRuns(c: Counts, i: int, h: Hand)
    requires 0 <= i
    ensures h in PairChains(c, i) <==> FromPairRun(c, i, h)
    decreases |c| - i
  {
    hide FromPairRun, RunEnd;
    if i > CARD_Q {
      NoPairRunBeyond(c, i, h);
    } else {
      if c[i] >= 2 {
        PairChainsAreRuns(c, RunEnd(c, i, 2) + 1, h);
        FromPairRunHere(c, i, h);
        FromPairRunBeyond(c, i, h);
      } else {
        PairChainsAreRuns(c, i + 1, h);
        FromPairRunGap(c, i, h);
      }
    }
  }

  lemma NoPairRunBeyond(c: Counts, lo: int, h: Hand)
    requires CARD_Q < lo
    ensures !FromPairRun(c, lo, h)
  {
  }

  /** What a scan makes of the run that starts at `i`. */
  ghost predicate FromRunHere(c: Counts, i: int, h: Hand)
    requires 0 <= i <= CARD_Q
  {
    var n := RunEnd(c, i, 2);
    n - i >= 3 && h == OptimizePair(c, Hand(PairChain, i, n - i, []))
  }

  lemma FromPairRunHere(c: Counts, i: int, h: Hand)
    requires 0 <= i <= CARD_Q && c[i] >= 2
    ensures FromPairRun(c, i, h) ==> FromRunHere(c, i, h) || FromPairRun(c, RunEnd(c, i, 2) + 1, h)
  {
    hide OptimizePair;
    if FromPairRun(c, i, h) {
      var s, e :| MaximalRun(c, 2, i, s, e) && e - s >= 3 && h == OptimizePair(c, Hand(PairChain, s, e - s, []));
      RunsFrom(c, 2, i, s, e);
    }
  }

  lemma FromPairRunBeyond(c: Counts, i: int, h: Hand)
    requires 0 <= i <= CARD_Q && c[i] >= 2
    ensures FromRunHere(c, i, h) || FromPairRun(c, RunEnd(c, i, 2) + 1, h) ==> FromPairRun(c, i, h)
  {
    hide OptimizePair;
    var n := RunEnd(c, i, 2);
    RunsFrom(c, 2, i, i, n);
    if FromPairRun(c, n + 1, h) {
      var s, e :| MaximalRun(c, 2, n + 1, s, e) && e - s >= 3 && h == OptimizePair(c, Hand(PairChain, s, e - s, []));
      RunsFrom(c, 2, i, s, e);
    }
  }

  lemma FromPairRunGap(c: Counts, i: int, h: Hand)
    requires 0 <= i <= CARD_Q && c[i] < 2
    ensures FromPairRun(c, i, h) <==> FromPairRun(c, i + 1, h)
  {
    if FromPairRun(c, i, h) {
      var s, e :| MaximalRun(c, 2, i, s, e) && e - s >= 3 && h == OptimizePair(c, Hand(PairChain, s, e - s, []));
      RunsAfterGap(c, 2, i, s, e);
    }
    if FromPairRun(c, i + 1, h) {
      var s, e :| MaximalRun(c, 2, i + 1, s, e) && e - s >= 3 && h == OptimizePair(c, Hand(PairChain, s, e - s, []));
      RunsAfterGap(c, 2, i, s, e);
    }
  }

  lemma {:induction false} PairChainsShaped(c: Counts, i: int)
    requires 0 <= i
    ensures AllShaped(PairChains(c, i), PairChain)
    decreases |c| - i
  {
    if i <= CARD_Q {
      if c[i] >= 2 {
        PairChainsShaped(c, RunEnd(c, i, 2) + 1);
      } else {
        PairChainsShaped(c, i + 1);
      }
    }
  }

  // ----- counts without chains

  lemma TrioChainNeedsThree(c: Counts)
    requires TrioChains(c, CARD_3) != []
    ensures exists r :: 0 <= r < RANKS && c[r] >= 3
  {
    var h := TrioChains(c, CARD_3)[0];
    TrioChainsAreRuns(c, CARD_3, h);
    assert c[h.key] >= 3;
  }

  predicate ThreePairs(c: Counts, s: int)
    requires 0 <= s <= CARD_Q
  {
    c[s] >= 2 && c[s + 1] >= 2 && c[s + 2] >= 2
  }

  lemma PairChainNeedsThree(c: Counts)
    requires PairChains(c, CARD_3) != []
    ensures exists s :: 0 <= s <= CARD_Q && ThreePairs(c, s)
  {
    hide OptimizePair;
    var h := PairChains(c, CARD_3)[0];
    PairChainsAreRuns(c, CARD_3, h);
    var s, e :| MaximalRun(c, 2, CARD_3, s, e) && e - s >= 3 && h == OptimizePair(c, Hand(PairChain, s, e - s, []));
    assert ThreePairs(c, s);
  }
}
