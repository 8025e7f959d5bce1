/**
  Extraction of solo chains (`getSoloChain`, `expandSoloChain`, `optimizeSoloChain`).

  Five stages over a pool of loose cards and chains: take chains of five, extend them upwards,
  merge chains that meet, trim the spare ranks of wide chains from both sides, then trim single
  ranks.  The high-side trim of the fourth stage removes `ll` ranks where it counted `hl`, as in
  the source; that is what lets one shape of chain end up shorter than five.
 */
module SoloChains {
  import opened Cards
  import opened Hands
  import opened Runs

  /** The loose cards and the chains taken from them so far. */
  datatype Pool = Pool(c: Counts, chains: seq<Hand>)

  /** Every list entry is a solo chain inside 3..A of at least `least` ranks. */
  ghost predicate SoloList(chains: seq<Hand>, least: int) {
    forall k :: 0 <= k < |chains| ==> IsSolo(chains[k], least)
  }

  ghost predicate IsSolo(h: Hand, least: int) {
    h.ty == SoloChain && PlainChain(h, least) && h.kicker == []
  }

  /** No card is lost or invented: loose cards and chains together are the counts `c0`. */
  ghost predicate Conserves(p: Pool, c0: Counts) {
    && NonNegative(p.c)
    && forall r :: 0 <= r < RANKS ==> p.c[r] + Total(p.chains, r) == c0[r]
  }

  lemma ChainAt(h: Hand, r: int)
    requires h.ty == SoloChain && h.kicker == []
    ensures At(h, r) == if h.key <= r < h.key + h.len then 1 else 0
  {
    assert multiset(h.kicker)[r] == 0;
  }

  // ----- stage 1: chains of five

  /** Last rank of the run from `start` that is at most four ranks up. */
  function Reach(c: Counts, start: int, end: int): (e: int)
    requires 0 <= start <= end <= CARD_A
    ensures end <= e <= CARD_A
    ensures end - start <= 4 ==> e - start <= 4
    ensures forall r :: end < r <= e ==> c[r] >= 1
    ensures e - start >= 4 || e == CARD_A || c[e + 1] < 1
    decreases |c| - end
  {
    if end + 1 <= CARD_A && c[end + 1] >= 1 && end - start < 4 then Reach(c, start, end + 1) else end
  }

  /** Take chains of five from rank `i` upwards, staying at a rank while it still starts one. */
  function Extract(p: Pool, i: int): Pool
    requires 0 <= i <= CARD_2
    decreases |p.c| - i, p.c[i]
  {
    if i > CARD_T then p
    else if p.c[i] >= 1 then
      var e := Reach(p.c, i, i);
      if e - i >= 4 then
        Extract(Pool(SubRange(p.c, i, e + 1, 1), p.chains + [Hand(SoloChain, i, e - i + 1, [])]), i)
      else Extract(p, e + 1)
    else Extract(p, i + 1)
  }

  method ExtractChains(cards: array<int>) returns (hands: seq<Hand>)
    requires cards.Length == RANKS
    modifies cards
    ensures Pool(cards[..], hands) == Extract(Pool(old(cards[..]), []), CARD_3)
  {
    ghost var all := Extract(Pool(cards[..], []), CARD_3);
    hands := [];
    var i := CARD_3;
    while i <= CARD_T
      invariant 0 <= i <= CARD_2
      invariant Extract(Pool(cards[..], hands), i) == all
      decreases RANKS - i, if i <= CARD_T then cards[i] else 0
    {
      if cards[i] >= 1 {
        var start, end := i, i;
        while end + 1 <= CARD_A && cards[end + 1] >= 1 && end - start < 4
          invariant start <= end <= CARD_A && end - start <= 4
          invariant Reach(cards[..], start, end) == Reach(cards[..], start, start)
        {
          end := end + 1;
        }
        if end - start >= 4 {
          hands := hands + [Hand(SoloChain, start, end - start + 1, [])];
          SubtractRange(cards, start, end + 1, 1);
        } else {
          i := end + 1;
        }
      } else {
        i := i + 1;
      }
    }
  }

  /** Taking one chain of five keeps the pool sound. */
  lemma TakeFive(p: Pool, i: int, c0: Counts)
    requires 0 <= i <= CARD_T && SoloList(p.chains, 5) && Conserves(p, c0)
    requires forall r :: i <= r <= i + 4 ==> p.c[r] >= 1
    ensures var q := Pool(SubRange(p.c, i, i + 5, 1), p.chains + [Hand(SoloChain, i, 5, [])]);
      SoloList(q.chains, 5) && Conserves(q, c0) && AtMost(q.c, p.c)
  {
    var h := Hand(SoloChain, i, 5, []);
    forall r | 0 <= r < RANKS
      ensures Total(p.chains + [h], r) == Total(p.chains, r) + (if i <= r < i + 5 then 1 else 0)
    {
      TotalConcat(p.chains, [h], r);
      ChainAt(h, r);
      assert [h][1..] == [];
    }
  }

  lemma {:induction false} ExtractFacts(p: Pool, i: int, c0: Counts)
    requires 0 <= i <= CARD_2 && SoloList(p.chains, 5) && Conserves(p, c0)
    ensures SoloList(Extract(p, i).chains, 5) && Conserves(Extract(p, i), c0)
    ensures AtMost(Extract(p, i).c, p.c)
    decreases |p.c| - i, p.c[i]
  {
    hide Conserves, SoloList, AtMost;
    BelowItself(p.c);
    if i <= CARD_T {
      if p.c[i] >= 1 {
        var e := Reach(p.c, i, i);
        if e - i >= 4 {
          TakeFive(p, i, c0);
          var q := Pool(SubRange(p.c, i, e + 1, 1), p.chains + [Hand(SoloChain, i, 5, [])]);
          ExtractFacts(q, i, c0);
          BelowBelow(Extract(q, i).c, q.c, p.c);
        } else {
          ExtractFacts(p, e + 1, c0);
        }
      } else {
        ExtractFacts(p, i + 1, c0);
      }
    }
  }

  lemma BelowItself(c: Counts)
    ensures AtMost(c, c)
  {
  }

  lemma BelowBelow(c: Counts, d: Counts, e: Counts)
    requires AtMost(c, d) && AtMost(d, e)
    ensures AtMost(c, e)
  {
    forall r | 0 <= r < RANKS
      ensures c[r] <= e[r]
    {
      assert c[r] <= d[r];
    }
  }

  /** Five loose ranks in a row from `s`. */
  predicate FiveFrom(c: Counts, s: int)
    requires 0 <= s <= CARD_T
  {
    c[s] >= 1 && c[s + 1] >= 1 && c[s + 2] >= 1 && c[s + 3] >= 1 && c[s + 4] >= 1
  }

  lemma EmptyRankBreaks(c: Counts, d: Counts, s: int, r: int)
    requires 0 <= s <= CARD_T && s <= r <= s + 4 && AtMost(c, d) && d[r] < 1
    ensures !FiveFrom(c, s)
  {
    assert c[r] <= d[r];
  }

  /** The scan skips over whole runs, yet it leaves no five loose ranks in a row behind. */
  lemma {:induction false} ExtractLeavesNoFive(p: Pool, i: int, c0: Counts, s: int)
    requires 0 <= i <= s <= CARD_T && SoloList(p.chains, 5) && Conserves(p, c0)
    ensures !FiveFrom(Extract(p, i).c, s)
    decreases |p.c| - i, p.c[i]
  {
    if p.c[i] >= 1 && Reach(p.c, i, i) - i >= 4 {
      TakeFive(p, i, c0);
      ExtractLeavesNoFive(Pool(SubRange(p.c, i, i + 5, 1), p.chains + [Hand(SoloChain, i, 5, [])]), i, c0, s);
    } else {
      var next := if p.c[i] >= 1 then Reach(p.c, i, i) + 1 else i + 1;
      if s < next {
        ExtractFacts(p, i, c0);
        EmptyRankBreaks(Extract(p, i).c, p.c, s, if p.c[i] >= 1 then next else i);
      } else {
        ExtractLeavesNoFive(p, next, c0, s);
      }
    }
  }

  /** The scan stays at a rank from which it can take five. */
  lemma ExtractTakes(p: Pool, i: int)
    requires 0 <= i <= CARD_T && FiveFrom(p.c, i)
    ensures Extract(p, i) == Extract(Pool(SubRange(p.c, i, i + 5, 1), p.chains + [Hand(SoloChain, i, 5, [])]), i)
  {
    assert Reach(p.c, i, i + 2) == i + 4;
    assert Reach(p.c, i, i) == i + 4;
  }

  /** Where no five start, the scan moves on. */
  lemma {:induction false} ExtractSkips(p: Pool, i: int, j: int)
    requires 0 <= i <= j <= CARD_T && (i < j ==> p.c[j - 1] < 1)
    requires forall s :: i <= s < j ==> !FiveFrom(p.c, s)
    ensures Extract(p, i) == Extract(p, j)
    decreases j - i
  {
    if i < j {
      assert !FiveFrom(p.c, i);
      if p.c[i] >= 1 {
        var e := Reach(p.c, i, i);
        assert e < j - 1;
        ExtractSkips(p, e + 1, j);
      } else {
        ExtractSkips(p, i + 1, j);
      }
    }
  }

  lemma {:induction false} ExtractStops(p: Pool, i: int)
    requires 0 <= i <= CARD_2 && forall s :: i <= s <= CARD_T ==> !FiveFrom(p.c, s)
    ensures Extract(p, i) == p
    decreases |p.c| - i
  {
    if i <= CARD_T {
      assert !FiveFrom(p.c, i);
      if p.c[i] >= 1 {
        ExtractStops(p, Reach(p.c, i, i) + 1);
      } else {
        ExtractStops(p, i + 1);
      }
    }
  }

  /** Past a rank that starts no five the skipping scan gives the same as one that goes rank by rank. */
  lemma {:induction false} SkipOneRank(p: Pool, i: int)
    requires 0 <= i <= CARD_T && !FiveFrom(p.c, i)
    ensures Extract(p, i) == Extract(p, i + 1)
    decreases CARD_T - i
  {
    if p.c[i] >= 1 && p.c[i + 1] >= 1 && i < CARD_T {
      var e := Reach(p.c, i, i);
      ShortReach(p.c, i);
      SameReach(p.c, i);
    }
  }

  lemma ShortReach(c: Counts, i: int)
    requires 0 <= i <= CARD_T && c[i] >= 1 && !FiveFrom(c, i)
    ensures Reach(c, i, i) - i < 4
  {
    var above := (c[i + 1], c[i + 2], c[i + 3], c[i + 4]);
  }

  /** A run shorter than five ends at the same rank, seen from one rank further up. */
  lemma SameReach(c: Counts, i: int)
    requires 0 <= i < CARD_T && c[i] >= 1 && c[i + 1] >= 1 && !FiveFrom(c, i)
    ensures Reach(c, i + 1, i + 1) == Reach(c, i, i)
  {
    ShortReach(c, i);
    hide Reach;
    var e, e' := Reach(c, i, i), Reach(c, i + 1, i + 1);
    var above, above' := c[e + 1], c[e' + 1];
  }

  /**
    So the scan is the naive one: take five from the lowest rank that starts five, as long as it does,
    and go on one rank up where none start.
   */
  lemma ExtractIsNaive(p: Pool, i: int)
    requires 0 <= i <= CARD_T
    ensures Extract(p, i) ==
      if FiveFrom(p.c, i) then
        Extract(Pool(SubRange(p.c, i, i + 5, 1), p.chains + [Hand(SoloChain, i, 5, [])]), i)
      else Extract(p, i + 1)
  {
    if FiveFrom(p.c, i) {
      ExtractTakes(p, i);
    } else {
      SkipOneRank(p, i);
    }
  }

  // ----- stage 2: extend upwards

  /** Extend one chain over the loose ranks right above it. */
  function Extend(c: Counts, h: Hand): (Counts, Hand)
    requires 0 <= h.key && 0 <= h.len
    decreases |c| - h.key - h.len
  {
    var newEnd := h.key + h.len;
    if newEnd <= CARD_A && c[newEnd] > 0 then
      Extend(c[newEnd := c[newEnd] - 1], h.(len := h.len + 1))
    else (c, h)
  }

  /** The pool after the first `k` chains are extended in turn. */
  function ExtendUpTo(p: Pool, k: nat): (q: Pool)
    requires k <= |p.chains| && forall j :: 0 <= j < |p.chains| ==> 0 <= p.chains[j].key && 0 <= p.chains[j].len
    ensures |q.chains| == |p.chains|
    ensures forall j :: k <= j < |p.chains| ==> q.chains[j] == p.chains[j]
  {
    if k == 0 then p
    else
      var q := ExtendUpTo(p, k - 1);
      var (c, h) := Extend(q.c, q.chains[k - 1]);
      Pool(c, q.chains[k - 1 := h])
  }

  method ExtendOne(cards: array<int>, hand: Hand) returns (h: Hand)
    requires cards.Length == RANKS && 0 <= hand.key && 0 <= hand.len
    modifies cards
    ensures (cards[..], h) == Extend(old(cards[..]), hand)
  {
    h := hand;
    var newEnd := h.key + h.len;
    while newEnd <= CARD_A && cards[newEnd] > 0
      invariant 0 <= h.key && 0 <= h.len && newEnd == h.key + h.len
      invariant Extend(cards[..], h) == Extend(old(cards[..]), hand)
      decreases RANKS - newEnd
    {
      h := h.(len := h.len + 1);
      ghost var before := cards[..];
      cards[newEnd] := cards[newEnd] - 1;
      assert cards[..] == before[newEnd := before[newEnd] - 1];
      newEnd := newEnd + 1;
    }
  }

  /** `expandSoloChain`: extend every chain, then merge the chains that meet. */
  method ExpandSoloChain(cards: array<int>, hands: seq<Hand>) returns (hands': seq<Hand>)
    requires cards.Length == RANKS
    requires forall j :: 0 <= j < |hands| ==> 0 <= hands[j].key && 0 <= hands[j].len
    modifies cards
    ensures var extended := ExtendUpTo(Pool(old(cards[..]), hands), |hands|);
      cards[..] == extended.c && hands' == Merge(extended.chains, 0)
  {
    ghost var p := Pool(cards[..], hands);
    hands' := hands;
    for k := 0 to |hands|
      invariant |hands'| == |hands|
      invariant Pool(cards[..], hands') == ExtendUpTo(p, k)
    {
      var h := ExtendOne(cards, hands'[k]);
      hands' := hands'[k := h];
    }
    hands' := MergeChains(hands');
  }

  lemma {:induction false} ExtendFacts(c: Counts, h: Hand)
    requires NonNegative(c) && IsSolo(h, 5)
    ensures var (c', h') := Extend(c, h);
      && NonNegative(c') && IsSolo(h', 5)
      && forall r :: 0 <= r < RANKS ==> c'[r] + At(h', r) == c[r] + At(h, r)
    decreases |c| - h.key - h.len
  {
    var newEnd := h.key + h.len;
    if newEnd <= CARD_A && c[newEnd] > 0 {
      var c1, h1 := c[newEnd := c[newEnd] - 1], h.(len := h.len + 1);
      forall r | 0 <= r < RANKS
        ensures c1[r] + At(h1, r) == c[r] + At(h, r)
      {
        ChainAt(h, r);
        ChainAt(h1, r);
      }
      ExtendFacts(c1, h1);
    }
  }

  /** A chain is extended, upwards only, until the ace or a rank without loose cards is right above it. */
  lemma {:induction false} ExtendIsComplete(c: Counts, h: Hand)
    requires 0 <= h.key && 0 <= h.len
    ensures var (c', h') := Extend(c, h);
      && h' == h.(len := h'.len) && h.len <= h'.len
      && (h'.key + h'.len <= CARD_A ==> c'[h'.key + h'.len] <= 0)
      && forall r :: 0 <= r < RANKS ==>
        c'[r] == c[r] - if h.key + h.len <= r < h'.key + h'.len then 1 else 0
    decreases |c| - h.key - h.len
  {
    var newEnd := h.key + h.len;
    if newEnd <= CARD_A && c[newEnd] > 0 {
      ExtendIsComplete(c[newEnd := c[newEnd] - 1], h.(len := h.len + 1));
    }
  }

  /** Replacing one chain conserves the pool if chain and cards together are conserved. */
  lemma ReplaceConserves(p: Pool, k: nat, c: Counts, h: Hand, c0: Counts)
    requires k < |p.chains| && Conserves(p, c0) && NonNegative(c)
    requires forall r :: 0 <= r < RANKS ==> c[r] + At(h, r) == p.c[r] + At(p.chains[k], r)
    ensures Conserves(Pool(c, p.chains[k := h]), c0)
  {
    forall r | 0 <= r < RANKS
      ensures c[r] + Total(p.chains[k := h], r) == c0[r]
    {
      TotalUpdate(p.chains, k, h, r);
    }
  }

  lemma {:induction false} ExtendUpToFacts(p: Pool, k: nat, c0: Counts)
    requires k <= |p.chains| && SoloList(p.chains, 5) && Conserves(p, c0)
    ensures SoloList(ExtendUpTo(p, k).chains, 5) && Conserves(ExtendUpTo(p, k), c0)
  {
    if k > 0 {
      ExtendUpToFacts(p, k - 1, c0);
      var q := ExtendUpTo(p, k - 1);
      ExtendFacts(q.c, q.chains[k - 1]);
      var (c, h) := Extend(q.c, q.chains[k - 1]);
      ReplaceConserves(q, k - 1, c, h, c0);
    }
  }

  // ----- stage 3: merge chains that meet

  /** First chain from index `j` on that starts where chain `k` ends, or the list's length. */
  function NextChain(chains: seq<Hand>, k: nat, j: nat): (n: nat)
    requires k < |chains| && j <= |chains|
    ensures j <= n <= |chains|
    ensures n < |chains| ==> chains[k].key + chains[k].len == chains[n].key
    ensures forall i :: j <= i < n ==> chains[k].key + chains[k].len != chains[i].key
    decreases |chains| - j
  {
    if j == |chains| || chains[k].key + chains[k].len == chains[j].key then j
    else NextChain(chains, k, j + 1)
  }

  /** Chain `k` with chain `j` appended to it, and chain `j` gone. */
  function Joined(chains: seq<Hand>, k: nat, j: nat): seq<Hand>
    requires k < j < |chains|
  {
    var longer := chains[k := chains[k].(len := chains[k].len + chains[j].len)];
    longer[..j] + longer[j + 1..]
  }

  function Merge(chains: seq<Hand>, k: nat): seq<Hand>
    requires k <= |chains|
    decreases |chains| - k
  {
    if k == |chains| then chains
    else
      var j := NextChain(chains, k, k + 1);
      Merge(if j < |chains| then Joined(chains, k, j) else chains, k + 1)
  }

  method FindNext(hands: seq<Hand>, it: nat) returns (newIt: nat)
    requires it < |hands|
    ensures newIt == NextChain(hands, it, it + 1)
  {
    newIt := it + 1;
    while newIt != |hands| && hands[it].key + hands[it].len != hands[newIt].key
      invariant it < newIt <= |hands|
      invariant NextChain(hands, it, newIt) == NextChain(hands, it, it + 1)
    {
      newIt := newIt + 1;
    }
  }

  method MergeChains(hands: seq<Hand>) returns (hands': seq<Hand>)
    ensures hands' == Merge(hands, 0)
  {
    hide Merge;
    hands' := hands;
    var it := 0;
    while it < |hands'|
      invariant it <= |hands'|
      invariant Merge(hands', it) == Merge(hands, 0)
      decreases |hands'| - it
    {
      var newIt := FindNext(hands', it);
      MergeStep(hands', it);
      if newIt != |hands'| {
        hands' := hands'[it := hands'[it].(len := hands'[it].len + hands'[newIt].len)];
        hands' := hands'[..newIt] + hands'[newIt + 1..];
      }
      it := it + 1;
    }
    MergeEnd(hands');
  }

  lemma MergeStep(chains: seq<Hand>, k: nat)
    requires k < |chains|
    ensures var j := NextChain(chains, k, k + 1);
      Merge(chains, k) == Merge(if j < |chains| then Joined(chains, k, j) else chains, k + 1)
  {
  }

  lemma MergeEnd(chains: seq<Hand>)
    ensures Merge(chains, |chains|) == chains
  {
  }

  lemma {:induction false} NextShift(h: Hand, rest: seq<Hand>, k: nat, j: nat)
    requires k < |rest| && j <= |rest|
    ensures NextChain([h] + rest, k + 1, j + 1) == NextChain(rest, k, j) + 1
    decreases |rest| - j
  {
    if j < |rest| {
      NextShift(h, rest, k, j + 1);
    }
  }

  lemma JoinedShift(h: Hand, rest: seq<Hand>, k: nat, j: nat)
    requires k < j < |rest|
    ensures Joined([h] + rest, k + 1, j + 1) == [h] + Joined(rest, k, j)
  {
  }

  /** What merging makes of a list does not depend on a chain before it that is done with. */
  lemma {:induction false} MergeShift(h: Hand, rest: seq<Hand>, k: nat)
    requires k <= |rest|
    ensures Merge([h] + rest, k + 1) == [h] + Merge(rest, k)
    decreases |rest| - k
  {
    hide Merge, Joined, NextChain;
    if k < |rest| {
      NextShift(h, rest, k, k + 1);
      MergeStep([h] + rest, k + 1);
      MergeStep(rest, k);
      var j := NextChain(rest, k, k + 1);
      if j < |rest| {
        JoinedShift(h, rest, k, j);
        JoinedSize(rest, k, j);
        MergeShift(h, Joined(rest, k, j), k + 1);
      } else {
        MergeShift(h, rest, k + 1);
      }
    } else {
      MergeEnd([h] + rest);
      MergeEnd(rest);
    }
  }

  lemma JoinsFirst(h: Hand, rest: seq<Hand>, j: nat)
    requires j < |rest|
    ensures Joined([h] + rest, 0, j + 1) == [h.(len := h.len + rest[j].len)] + (rest[..j] + rest[j + 1..])
  {
  }

  lemma NextIs(h: Hand, rest: seq<Hand>, j: nat)
    requires j <= |rest| && (forall i :: 0 <= i < j ==> rest[i].key != h.key + h.len)
    requires j < |rest| ==> rest[j].key == h.key + h.len
    ensures NextChain([h] + rest, 0, 1) == j + 1
  {
    hide NextChain;
    var all := [h] + rest;
    var n := NextChain(all, 0, 1);
    assert forall i :: 1 <= i < |all| ==> all[i] == rest[i - 1];
    var meets := if j < |rest| then all[j + 1] else h;
    var met := if n < |all| then all[n] else h;
  }

  /**
    Merging, chain by chain: each takes over the first later chain that starts where it ends, and no
    second one; what is left of the list is merged in the same way.
   */
  lemma {:induction false} MergeFirst(h: Hand, rest: seq<Hand>, j: nat)
    requires j <= |rest| && (forall i :: 0 <= i < j ==> rest[i].key != h.key + h.len)
    requires j < |rest| ==> rest[j].key == h.key + h.len
    ensures Merge([h] + rest, 0) ==
      if j < |rest| then [h.(len := h.len + rest[j].len)] + Merge(rest[..j] + rest[j + 1..], 0)
      else [h] + Merge(rest, 0)
  {
    hide Merge;
    if j < |rest| {
      MergeJoins(h, rest, j);
    } else {
      MergeAlone(h, rest);
    }
  }

  lemma {:induction false} MergeJoins(h: Hand, rest: seq<Hand>, j: nat)
    requires j < |rest| && (forall i :: 0 <= i < j ==> rest[i].key != h.key + h.len)
    requires rest[j].key == h.key + h.len
    ensures Merge([h] + rest, 0) == [h.(len := h.len + rest[j].len)] + Merge(rest[..j] + rest[j + 1..], 0)
  {
    hide Merge, Joined, NextChain;
    var longer, left := h.(len := h.len + rest[j].len), rest[..j] + rest[j + 1..];
    NextIs(h, rest, j);
    MergeStep([h] + rest, 0);
    JoinsFirst(h, rest, j);
    MergeShift(longer, left, 0);
  }

  lemma {:induction false} MergeAlone(h: Hand, rest: seq<Hand>)
    requires forall i :: 0 <= i < |rest| ==> rest[i].key != h.key + h.len
    ensures Merge([h] + rest, 0) == [h] + Merge(rest, 0)
  {
    hide Merge, NextChain;
    NextIs(h, rest, |rest|);
    MergeStep([h] + rest, 0);
    MergeShift(h, rest, 0);
  }

  lemma JoinedList(chains: seq<Hand>, k: nat, j: nat)
    requires k < j < |chains| && SoloList(chains, 5)
    requires chains[k].key + chains[k].len == chains[j].key
    ensures SoloList(Joined(chains, k, j), 5)
  {
    assert IsSolo(chains[k], 5) && IsSolo(chains[j], 5);
    var joined := Joined(chains, k, j);
    forall i | 0 <= i < |joined|
      ensures IsSolo(joined[i], 5)
    {
      assert IsSolo(chains[if i < j then i else i + 1], 5);
    }
  }

  lemma JoinedTotal(chains: seq<Hand>, k: nat, j: nat, r: int)
    requires k < j < |chains| && SoloList(chains, 5)
    requires chains[k].key + chains[k].len == chains[j].key
    ensures Total(Joined(chains, k, j), r) == Total(chains, r)
  {
    var h := chains[k].(len := chains[k].len + chains[j].len);
    TotalUpdate(chains, k, h, r);
    TotalErase(chains[k := h], j, r);
    ChainAt(h, r);
    ChainAt(chains[k], r);
    ChainAt(chains[j], r);
  }

  /** Merging leaves proper chains. */
  lemma {:induction false} MergeList(chains: seq<Hand>, k: nat)
    requires k <= |chains| && SoloList(chains, 5)
    ensures SoloList(Merge(chains, k), 5)
    decreases |chains| - k
  {
    hide SoloList, Joined;
    if k < |chains| {
      var j := NextChain(chains, k, k + 1);
      if j < |chains| {
        JoinedList(chains, k, j);
        JoinedSize(chains, k, j);
        MergeList(Joined(chains, k, j), k + 1);
      } else {
        MergeList(chains, k + 1);
      }
    }
  }

  lemma JoinedSize(chains: seq<Hand>, k: nat, j: nat)
    requires k < j < |chains|
    ensures |Joined(chains, k, j)| == |chains| - 1
  {
  }

  /** Merging moves no card. */
  lemma {:induction false} MergeTotal(chains: seq<Hand>, k: nat, r: int)
    requires k <= |chains| && SoloList(chains, 5)
    ensures Total(Merge(chains, k), r) == Total(chains, r)
    decreases |chains| - k
  {
    hide SoloList, Joined, Total;
    if k < |chains| {
      var j := NextChain(chains, k, k + 1);
      if j < |chains| {
        JoinedList(chains, k, j);
        JoinedTotal(chains, k, j, r);
        JoinedSize(chains, k, j);
        MergeTotal(Joined(chains, k, j), k + 1, r);
      } else {
        MergeTotal(chains, k + 1, r);
      }
    }
  }

  lemma MergeConserves(p: Pool, c0: Counts)
    requires SoloList(p.chains, 5) && Conserves(p, c0)
    ensures SoloList(Merge(p.chains, 0), 5) && Conserves(Pool(p.c, Merge(p.chains, 0)), c0)
  {
    MergeList(p.chains, 0);
    forall r | 0 <= r < RANKS
      ensures p.c[r] + Total(Merge(p.chains, 0), r) == c0[r]
    {
      MergeTotal(p.chains, 0, r);
    }
  }

  // ----- stage 4: trim the spare ranks of wide chains

  /** How many ranks in a row upwards from `r` have loose cards, `most` at most. */
  function SpareUp(c: Counts, r: int, most: int): (n: int)
    requires 0 <= r && 0 <= most && r + most <= RANKS
    ensures 0 <= n <= most
    ensures forall i :: r <= i < r + n ==> c[i] > 0
    ensures n < most ==> c[r + n] <= 0
    decreases |c| - r
  {
    if most > 0 && c[r] > 0 then 1 + SpareUp(c, r + 1, most - 1) else 0
  }

  /** How many ranks in a row downwards from `r` have loose cards, `most` at most. */
  function SpareDown(c: Counts, r: int, most: int): (n: int)
    requires r < RANKS && 0 <= most <= r + 1
    ensures 0 <= n <= most
    ensures forall i :: r - n < i <= r ==> c[i] > 0
    ensures n < most ==> c[r - n] <= 0
    decreases |c|, r
  {
    if most > 0 && c[r] > 0 then 1 + SpareDown(c, r - 1, most - 1) else 0
  }

  function AddRange(c: Counts, lo: int, hi: int): Counts {
    SubRange(c, lo, hi, -1)
  }

  predicate TrimsLow(ll: int, hl: int, most: int) {
    ll >= 3 && (ll >= hl || ll + hl <= most)
  }

  predicate TrimsHigh(ll: int, hl: int, most: int) {
    hl >= 3 && (hl > ll || ll + hl <= most)
  }

  /** Both-sided trim of one chain; the high side gives back `ll` ranks, not `hl`. */
  function TrimWide(c: Counts, h: Hand): (Counts, Hand)
    requires 0 <= h.key && h.key + h.len - 1 <= CARD_A
  {
    var most := h.len - 5;
    if most >= 3 then
      var start, end := h.key, h.key + h.len - 1;
      var ll, hl := SpareUp(c, start, most), SpareDown(c, end, most);
      var newStart := if TrimsLow(ll, hl, most) then start + ll else start;
      var newEnd := if TrimsHigh(ll, hl, most) then end - ll else end;
      (AddRange(AddRange(c, start, newStart), newEnd + 1, end + 1),
       h.(key := newStart, len := newEnd - newStart + 1))
    else (c, h)
  }

  method AddToRange(cards: array<int>, lo: int, hi: int)
    requires cards.Length == RANKS && 0 <= lo && hi <= RANKS
    modifies cards
    ensures cards[..] == AddRange(old(cards[..]), lo, hi)
  {
    var i := lo;
    while i < hi
      invariant lo <= i && (i <= hi || i == lo)
      invariant cards[..] == AddRange(old(cards[..]), lo, i)
    {
      cards[i] := cards[i] + 1;
      i := i + 1;
    }
  }

  method CountSpareUp(cards: array<int>, start: int, most: int) returns (ll: int)
    requires cards.Length == RANKS && 0 <= start && 0 <= most && start + most <= RANKS
    ensures ll == SpareUp(cards[..], start, most)
  {
    ll := 0;
    while ll < most && cards[start + ll] > 0
      invariant 0 <= ll <= most
      invariant ll + SpareUp(cards[..], start + ll, most - ll) == SpareUp(cards[..], start, most)
    {
      ll := ll + 1;
    }
  }

  method CountSpareDown(cards: array<int>, end: int, most: int) returns (hl: int)
    requires cards.Length == RANKS && end < RANKS && 0 <= most <= end + 1
    ensures hl == SpareDown(cards[..], end, most)
  {
    hl := 0;
    while hl < most && cards[end - hl] > 0
      invariant 0 <= hl <= most
      invariant hl + SpareDown(cards[..], end - hl, most - hl) == SpareDown(cards[..], end, most)
    {
      hl := hl + 1;
    }
  }

  method TrimOneWide(cards: array<int>, hand: Hand) returns (h: Hand)
    requires cards.Length == RANKS && 0 <= hand.key && hand.key + hand.len - 1 <= CARD_A
    modifies cards
    ensures (cards[..], h) == TrimWide(old(cards[..]), hand)
  {
    hide SpareUp, SpareDown, SubRange;
    h := hand;
    var start, end := h.key, h.key + h.len - 1;
    var maxPairLen := h.len - 5;
    if maxPairLen >= 3 {
      var ll := CountSpareUp(cards, start, maxPairLen);
      var hl := CountSpareDown(cards, end, maxPairLen);
      var newStart, newEnd := start, end;
      AddNothing(cards[..], start);
      if ll >= 3 && (ll >= hl || ll + hl <= maxPairLen) {
        newStart := start + ll;
        AddToRange(cards, start, newStart);
      }
      AddNothing(cards[..], end + 1);
      if hl >= 3 && (hl > ll || ll + hl <= maxPairLen) {
        newEnd := end - ll;
        AddToRange(cards, newEnd + 1, end + 1);
      }
      h := h.(key := newStart, len := newEnd - newStart + 1);
    }
  }

  lemma AddNothing(c: Counts, r: int)
    ensures AddRange(c, r, r) == c
  {
  }

  /** The one shape the wide trim cuts too far: all twelve ranks, four spare below, three above. */
  predicate CutTooFar(c: Counts, h: Hand)
    requires 0 <= h.key && h.key + h.len - 1 <= CARD_A
  {
    h.len == 12 && SpareUp(c, h.key, 7) == 4 && SpareDown(c, h.key + 11, 7) == 3
  }

  /** A trimmed chain keeps at least five ranks, except for that one shape, which keeps four. */
  lemma TrimWideLength(c: Counts, h: Hand)
    requires IsSolo(h, 5)
    ensures TrimWide(c, h).1.len < 5 <==> CutTooFar(c, h)
    ensures CutTooFar(c, h) ==> TrimWide(c, h).1.len == 4
    ensures IsSolo(TrimWide(c, h).1, 4)
  {
  }

  /** Exactly the lowest `ll` ranks of the chain, but for five of it, have loose cards; and the highest `hl`. */
  ghost predicate SpareLow(c: Counts, h: Hand, ll: int)
    requires 0 <= h.key && h.key + h.len - 1 <= CARD_A
  {
    && 0 <= ll <= h.len - 5 && (forall r :: h.key <= r < h.key + ll ==> c[r] > 0)
    && (ll == h.len - 5 || c[h.key + ll] <= 0)
  }

  ghost predicate SpareHigh(c: Counts, h: Hand, hl: int)
    requires 0 <= h.key && h.key + h.len - 1 <= CARD_A
  {
    && 0 <= hl <= h.len - 5 && (forall r :: h.key + h.len - hl <= r < h.key + h.len ==> c[r] > 0)
    && (hl == h.len - 5 || c[h.key + h.len - 1 - hl] <= 0)
  }

  /**
    A side with at least three loose ranks in a row is cut if it has more than the other - no fewer, on
    the low side - or if a chain of five remains when both are; the cut is as long as the low run on
    either side.
   */
  lemma TrimWideSides(c: Counts, h: Hand, ll: int, hl: int)
    requires IsSolo(h, 5) && SpareLow(c, h, ll) && SpareHigh(c, h, hl)
    ensures var h' := TrimWide(c, h).1;
      var fits := ll + hl + 5 <= h.len;
      && h'.key - h.key == (if 3 <= ll && (hl <= ll || fits) then ll else 0)
      && h.key + h.len - (h'.key + h'.len) == (if 3 <= hl && (ll < hl || fits) then ll else 0)
  {
    SpareLowIs(c, h, ll);
    SpareHighIs(c, h, hl);
    hide SpareUp, SpareDown, SpareLow, SpareHigh, AddRange;
  }

  lemma SpareLowIs(c: Counts, h: Hand, ll: int)
    requires IsSolo(h, 5) && SpareLow(c, h, ll)
    ensures SpareUp(c, h.key, h.len - 5) == ll
  {
    hide SpareUp;
    var n := SpareUp(c, h.key, h.len - 5);
    var next := c[h.key + n];
  }

  lemma SpareHighIs(c: Counts, h: Hand, hl: int)
    requires IsSolo(h, 5) && SpareHigh(c, h, hl)
    ensures SpareDown(c, h.key + h.len - 1, h.len - 5) == hl
  {
    hide SpareDown;
    var end := h.key + h.len - 1;
    var n := SpareDown(c, end, h.len - 5);
    var next := c[end - n];
  }

  lemma TrimWideConserves(c: Counts, h: Hand)
    requires NonNegative(c) && IsSolo(h, 5)
    ensures var (c', h') := TrimWide(c, h);
      && NonNegative(c')
      && forall r :: 0 <= r < RANKS ==> c'[r] + At(h', r) == c[r] + At(h, r)
  {
    TrimWideLength(c, h);
    hide SpareUp, SpareDown;
    var (c', h') := TrimWide(c, h);
    if h.len >= 8 {
      assert c' == AddRange(AddRange(c, h.key, h'.key), h'.key + h'.len, h.key + h.len);
      hide TrimWide;
      CutGivesBack(c, h, h');
    }
  }

  /** Ranks cut off at both ends of a chain are loose again. */
  lemma CutGivesBack(c: Counts, h: Hand, h': Hand)
    requires NonNegative(c) && IsSolo(h, 1) && IsSolo(h', 1)
    requires h.key <= h'.key && h'.key + h'.len <= h.key + h.len
    ensures var c' := AddRange(AddRange(c, h.key, h'.key), h'.key + h'.len, h.key + h.len);
      && NonNegative(c')
      && forall r :: 0 <= r < RANKS ==> c'[r] + At(h', r) == c[r] + At(h, r)
  {
    hide At;
    var c' := AddRange(AddRange(c, h.key, h'.key), h'.key + h'.len, h.key + h.len);
    forall r | 0 <= r < RANKS
      ensures c'[r] + At(h', r) == c[r] + At(h, r)
    {
      ChainAt(h, r);
      ChainAt(h', r);
    }
  }

  /** The shape needs nineteen cards. */
  lemma CutTooFarNeedsNineteen(p: Pool, k: nat, c0: Counts)
    requires k < |p.chains| && IsSolo(p.chains[k], 5) && Conserves(p, c0)
    requires CutTooFar(p.c, p.chains[k])
    ensures Sum(c0) >= 19
  {
    var h := p.chains[k];
    forall r | 0 <= r < RANKS
      ensures c0[r] >= (if r <= CARD_A then 1 else 0) + (if r <= 3 || 9 <= r <= CARD_A then 1 else 0)
    {
      AtMostTotal(p.chains, h, r);
      ChainAt(h, r);
    }
    SumUnrolled(c0);
  }

  function WideUpTo(p: Pool, k: nat): (q: Pool)
    requires k <= |p.chains|
    requires forall j :: 0 <= j < |p.chains| ==> 0 <= p.chains[j].key && p.chains[j].key + p.chains[j].len - 1 <= CARD_A
    ensures |q.chains| == |p.chains|
    ensures forall j :: k <= j < |p.chains| ==> q.chains[j] == p.chains[j]
  {
    if k == 0 then p
    else
      var q := WideUpTo(p, k - 1);
      var (c, h) := TrimWide(q.c, q.chains[k - 1]);
      Pool(c, q.chains[k - 1 := h])
  }

  lemma {:induction false} WideUpToFacts(p: Pool, k: nat, c0: Counts)
    requires k <= |p.chains| && SoloList(p.chains, 5) && Conserves(p, c0)
    ensures SoloList(WideUpTo(p, k).chains, 4) && Conserves(WideUpTo(p, k), c0)
  {
    hide TrimWide, Total, At;
    if k > 0 {
      WideUpToFacts(p, k - 1, c0);
      var q := WideUpTo(p, k - 1);
      assert q.chains[k - 1] == p.chains[k - 1];
      assert IsSolo(q.chains[k - 1], 5) && NonNegative(q.c);
      hide Conserves, NonNegative;
      var (c, h) := TrimWide(q.c, q.chains[k - 1]);
      TrimWideLength(q.c, q.chains[k - 1]);
      TrimWideConserves(q.c, q.chains[k - 1]);
      ReplaceConserves(q, k - 1, c, h, c0);
    }
  }

  /** After the wide trim a chain is short iff it had the one bad shape when its turn came. */
  lemma {:induction false} WideUpToLength(p: Pool, k: nat, j: nat)
    requires j < k <= |p.chains| && SoloList(p.chains, 5)
    ensures WideUpTo(p, k).chains[j].len < 5 <==> CutTooFar(WideUpTo(p, j).c, p.chains[j])
  {
    hide TrimWide, CutTooFar;
    if j == k - 1 {
      TrimWideLength(WideUpTo(p, j).c, p.chains[j]);
    } else {
      WideUpToLength(p, k - 1, j);
    }
  }

  // ----- stage 5: trim single ranks

  /** Drop spare end ranks one at a time while more than five remain; returns the ends kept. */
  function NarrowEnds(c: Counts, start: int, end: int): (e: (int, int))
    requires 0 <= start && end < RANKS
    ensures start <= e.0 && e.1 <= end
    ensures e.1 - e.0 >= (if end - start < 4 then end - start else 4)
    decreases |c|, end - start
  {
    if end - start >= 5 then
      if c[start] > 0 && c[start] >= c[end] then NarrowEnds(c, start + 1, end)
      else if c[end] > c[start] then NarrowEnds(c, start, end - 1)
      else (start, end)
    else (start, end)
  }

  function TrimNarrow(c: Counts, h: Hand): (Counts, Hand)
    requires 0 <= h.key && h.key + h.len - 1 <= CARD_A
  {
    var (start, end) := (h.key, h.key + h.len - 1);
    var (newStart, newEnd) := NarrowEnds(c, start, end);
    (AddRange(AddRange(c, start, newStart), newEnd + 1, end + 1),
     h.(key := newStart, len := newEnd - newStart + 1))
  }

  method TrimOneNarrow(cards: array<int>, hand: Hand) returns (h: Hand)
    requires cards.Length == RANKS && 0 <= hand.key && 0 <= hand.len && hand.key + hand.len - 1 <= CARD_A
    modifies cards
    ensures (cards[..], h) == TrimNarrow(old(cards[..]), hand)
  {
    var start, end := hand.key, hand.key + hand.len - 1;
    var newStart, newEnd := start, end;
    while newEnd - newStart >= 5
      invariant start <= newStart && newEnd <= end && newStart <= newEnd + 1
      invariant NarrowEnds(cards[..], newStart, newEnd) == NarrowEnds(cards[..], start, end)
      decreases newEnd - newStart
    {
      if cards[newStart] > 0 && cards[newStart] >= cards[newEnd] {
        newStart := newStart + 1;
      } else if cards[newEnd] > cards[newStart] {
        newEnd := newEnd - 1;
      } else {
        break;
      }
    }
    AddToRange(cards, start, newStart);
    AddToRange(cards, newEnd + 1, end + 1);
    h := hand.(key := newStart, len := newEnd - newStart + 1);
  }

  lemma TrimNarrowFacts(c: Counts, h: Hand)
    requires NonNegative(c) && IsSolo(h, 4)
    ensures var (c', h') := TrimNarrow(c, h);
      && NonNegative(c') && IsSolo(h', 4)
      && (h'.len < 5 <==> h.len < 5)
      && forall r :: 0 <= r < RANKS ==> c'[r] + At(h', r) == c[r] + At(h, r)
  {
    var (c', h') := TrimNarrow(c, h);
    forall r | 0 <= r < RANKS
      ensures c'[r] + At(h', r) == c[r] + At(h, r)
    {
      ChainAt(h, r);
      ChainAt(h', r);
    }
  }

  /** The chain without its lowest rank, and without its highest. */
  function LowCut(h: Hand): Hand {
    h.(key := h.key + 1, len := h.len - 1)
  }

  function HighCut(h: Hand): Hand {
    h.(len := h.len - 1)
  }

  /**
    One cut: of a chain of more than five the end with more loose cards goes, the low one if they are
    equal, and the rest of the chain is trimmed in the same way; with none at either end it stays.
   */
  lemma NarrowStep(c: Counts, h: Hand)
    requires NonNegative(c) && IsSolo(h, 1)
    ensures var low, high := c[h.key], c[h.key + h.len - 1];
      TrimNarrow(c, h).1 ==
        if h.len <= 5 || (low == 0 && high == 0) then h
        else if low >= high then TrimNarrow(c, LowCut(h)).1
        else TrimNarrow(c, HighCut(h)).1
  {
  }

  /** Both ends of a chain longer than five are without loose cards. */
  predicate EndsBare(c: Counts, h: Hand)
    requires 0 <= h.key && h.key + h.len - 1 <= CARD_A
  {
    5 < h.len ==> c[h.key] == 0 && c[h.key + h.len - 1] == 0
  }

  /** Trimming is complete: what is left has five ranks, or no loose card at either end, then and after. */
  lemma {:induction false} NarrowComplete(c: Counts, h: Hand)
    requires NonNegative(c) && IsSolo(h, 4)
    ensures var (c', h') := TrimNarrow(c, h);
      IsSolo(h', 4) && EndsBare(c, h') && EndsBare(c', h')
    decreases h.len
  {
    TrimNarrowFacts(c, h);
    NarrowStep(c, h);
    if h.len > 5 && c[h.key] >= c[h.key + h.len - 1] && c[h.key] > 0 {
      NarrowComplete(c, LowCut(h));
    } else if h.len > 5 && c[h.key + h.len - 1] > 0 {
      NarrowComplete(c, HighCut(h));
    }
    KeptUntouched(c, h);
  }

  /** No card comes back at a rank that stays in the chain. */
  lemma KeptUntouched(c: Counts, h: Hand)
    requires IsSolo(h, 4)
    ensures var (c', h') := TrimNarrow(c, h);
      forall r :: h'.key <= r < h'.key + h'.len ==> 0 <= r < RANKS && c'[r] == c[r]
  {
  }

  /** Every rank that is cut off held a loose card, and one more now; a chain of five is not cut. */
  lemma {:induction false} NarrowCutsLoose(c: Counts, h: Hand, r: int)
    requires NonNegative(c) && IsSolo(h, 4)
    requires h.key <= r < h.key + h.len
    ensures var (c', h') := TrimNarrow(c, h);
      r < h'.key || h'.key + h'.len <= r ==> 5 < h.len && c[r] > 0 && c'[r] == c[r] + 1
    decreases h.len
  {
    NarrowStep(c, h);
    if h.len > 5 && c[h.key] >= c[h.key + h.len - 1] && c[h.key] > 0 {
      if r > h.key {
        NarrowCutsLoose(c, LowCut(h), r);
      }
    } else if h.len > 5 && c[h.key + h.len - 1] > 0 {
      if r < h.key + h.len - 1 {
        NarrowCutsLoose(c, HighCut(h), r);
      }
    }
  }

  function NarrowUpTo(p: Pool, k: nat): (q: Pool)
    requires k <= |p.chains|
    requires forall j :: 0 <= j < |p.chains| ==> 0 <= p.chains[j].key && p.chains[j].key + p.chains[j].len - 1 <= CARD_A
    ensures |q.chains| == |p.chains|
    ensures forall j :: k <= j < |p.chains| ==> q.chains[j] == p.chains[j]
  {
    if k == 0 then p
    else
      var q := NarrowUpTo(p, k - 1);
      var (c, h) := TrimNarrow(q.c, q.chains[k - 1]);
      Pool(c, q.chains[k - 1 := h])
  }

  lemma {:induction false} NarrowUpToFacts(p: Pool, k: nat, c0: Counts)
    requires k <= |p.chains| && SoloList(p.chains, 4) && Conserves(p, c0)
    ensures SoloList(NarrowUpTo(p, k).chains, 4) && Conserves(NarrowUpTo(p, k), c0)
    ensures forall j :: 0 <= j < |p.chains| ==> (NarrowUpTo(p, k).chains[j].len < 5 <==> p.chains[j].len < 5)
  {
    hide TrimNarrow, Total;
    if k > 0 {
      NarrowUpToFacts(p, k - 1, c0);
      var q := NarrowUpTo(p, k - 1);
      TrimNarrowFacts(q.c, q.chains[k - 1]);
      var (c, h) := TrimNarrow(q.c, q.chains[k - 1]);
      ReplaceConserves(q, k - 1, c, h, c0);
    }
  }

  /** `optimizeSoloChain`: the wide trim over all chains, then the narrow trim over all chains. */
  method OptimizeSoloChain(cards: array<int>, hands: seq<Hand>) returns (hands': seq<Hand>)
    requires cards.Length == RANKS && SoloList(hands, 5) && NonNegative(cards[..])
    modifies cards
    ensures var wide := WideUpTo(Pool(old(cards[..]), hands), |hands|);
      SoloList(wide.chains, 4) && Pool(cards[..], hands') == NarrowUpTo(wide, |hands|)
  {
    hide TrimWide, TrimNarrow, Total;
    ghost var p := Pool(cards[..], hands);
    ghost var c0: Counts := seq(RANKS, r requires 0 <= r < RANKS => p.c[r] + Total(hands, r));
    hands' := hands;
    for k := 0 to |hands|
      invariant |hands'| == |hands|
      invariant Pool(cards[..], hands') == WideUpTo(p, k)
    {
      var h := TrimOneWide(cards, hands'[k]);
      hands' := hands'[k := h];
    }
    WideUpToFacts(p, |hands|, c0);
    ghost var wide := Pool(cards[..], hands');
    for k := 0 to |hands|
      invariant |hands'| == |hands|
      invariant Pool(cards[..], hands') == NarrowUpTo(wide, k)
    {
      var h := TrimOneNarrow(cards, hands'[k]);
      hands' := hands'[k := h];
    }
  }

  // ----- the five stages together

  /** The pool once chains are extracted, extended and merged. */
  function Merged(c: Counts): (p: Pool)
    requires NonNegative(c)
    ensures SoloList(p.chains, 5) && Conserves(p, c)
  {
    var p := Pool(c, []);
    ExtractFacts(p, CARD_3, c);
    var q := Extract(p, CARD_3);
    ExtendUpToFacts(q, |q.chains|, c);
    var e := ExtendUpTo(q, |q.chains|);
    MergeConserves(e, c);
    Pool(e.c, Merge(e.chains, 0))
  }

  /** `getSoloChain`: loose cards and chains after all five stages, conserving every card. */
  function SoloSplit(c: Counts): (p: Pool)
    requires NonNegative(c)
    ensures SoloList(p.chains, 4) && Conserves(p, c)
  {
    var m := Merged(c);
    WideUpToFacts(m, |m.chains|, c);
    var w := WideUpTo(m, |m.chains|);
    NarrowUpToFacts(w, |w.chains|, c);
    NarrowUpTo(w, |w.chains|)
  }

  /** The last chain, and so a lone one, is left with five ranks or without loose cards at its ends. */
  lemma LastChainTrimmed(c: Counts)
    requires NonNegative(c) && SoloSplit(c).chains != []
    ensures var p := SoloSplit(c);
      var h := p.chains[|p.chains| - 1];
      IsSolo(h, 4) && EndsBare(p.c, h)
  {
    hide Merged, WideUpTo, NarrowUpTo, Conserves, EndsBare;
    var m := Merged(c);
    WideUpToFacts(m, |m.chains|, c);
    LastNarrowed(WideUpTo(m, |m.chains|), c);
  }

  lemma LastNarrowed(w: Pool, c0: Counts)
    requires SoloList(w.chains, 4) && Conserves(w, c0) && w.chains != []
    ensures var p := NarrowUpTo(w, |w.chains|);
      var h := p.chains[|w.chains| - 1];
      IsSolo(h, 4) && EndsBare(p.c, h)
  {
    hide TrimNarrow, Total, EndsBare;
    var n := |w.chains|;
    NarrowUpToFacts(w, n - 1, c0);
    var q := NarrowUpTo(w, n - 1);
    NarrowComplete(q.c, q.chains[n - 1]);
  }

  method GetSoloChain(cards: array<int>) returns (hands: seq<Hand>)
    requires cards.Length == RANKS && NonNegative(cards[..])
    modifies cards
    ensures Pool(cards[..], hands) == SoloSplit(old(cards[..]))
  {
    ghost var c := cards[..];
    hands := ExtractChains(cards);
    ExtractFacts(Pool(c, []), CARD_3, c);
    ExtendUpToFacts(Pool(cards[..], hands), |hands|, c);
    hands := ExpandSoloChain(cards, hands);
    assert Pool(cards[..], hands) == Merged(c);
    hands := OptimizeSoloChain(cards, hands);
  }

  /** A split leaves a chain of fewer than five exactly when some chain meets the one bad shape. */
  lemma ShortChainIff(c: Counts)
    requires NonNegative(c)
    ensures !SoloList(SoloSplit(c).chains, 5) <==>
      exists j :: 0 <= j < |Merged(c).chains| && CutTooFar(WideUpTo(Merged(c), j).c, Merged(c).chains[j])
  {
    var m := Merged(c);
    var n := |m.chains|;
    WideUpToFacts(m, n, c);
    var w := WideUpTo(m, n);
    NarrowUpToFacts(w, n, c);
    forall j | 0 <= j < n
      ensures SoloSplit(c).chains[j].len < 5 <==> CutTooFar(WideUpTo(m, j).c, m.chains[j])
    {
      WideUpToLength(m, n, j);
    }
    if !SoloList(SoloSplit(c).chains, 5) {
      var j :| 0 <= j < n && !IsSolo(SoloSplit(c).chains[j], 5);
      assert IsSolo(SoloSplit(c).chains[j], 4);
      assert CutTooFar(WideUpTo(m, j).c, m.chains[j]);
    }
  }

  /** With at most eighteen cards every chain keeps at least five ranks. */
  lemma EighteenCardsSuffice(c: Counts)
    requires NonNegative(c) && Sum(c) <= 18
    ensures SoloList(SoloSplit(c).chains, 5)
  {
    ShortChainIff(c);
    var m := Merged(c);
    forall j | 0 <= j < |m.chains|
      ensures !CutTooFar(WideUpTo(m, j).c, m.chains[j])
    {
      WideUpToFacts(m, j, c);
      if CutTooFar(WideUpTo(m, j).c, m.chains[j]) {
        CutTooFarNeedsNineteen(WideUpTo(m, j), j, c);
      }
    }
  }

  /** Without five ranks in a row there is no chain. */
  lemma NoFiveNoChain(c: Counts)
    requires NonNegative(c) && forall s :: 0 <= s <= CARD_T ==> !FiveFrom(c, s)
    ensures SoloSplit(c) == Pool(c, [])
  {
    ExtractStops(Pool(c, []), CARD_3);
    assert ExtendUpTo(Pool(c, []), 0) == Pool(c, []);
    assert Merge([], 0) == [];
    assert WideUpTo(Pool(c, []), 0) == Pool(c, []);
    assert NarrowUpTo(Pool(c, []), 0) == Pool(c, []);
  }
}
