/**
  Whether an opponent can answer a hand (`isChargeHand`), and the proofs that this search and the
  search for higher hands agree, and of what the hands of its kind in the own split add to it.
 */
module ChargeHand {
  import opened Cards
  import opened Hands
  import opened Runs
  import opened HandMaps
  import opened Options
  import opened HigherSearch

  /** Opponent hand sizes below which a solo chain of 5, 6, .. 12 ranks counts as unanswerable. */
  const SOLO_CHAIN_CHARGE_LEN: seq<int> := [7, 9, 11, 13, 15, 17, 18, 18]

  /** Rating `h` reads that table, if it reads it at all, within its bounds. */
  predicate InTable(h: Hand, maxOppCardNum: int) {
    h.ty == SoloChain && GetHandCount(h) <= maxOppCardNum ==> 0 <= h.len - 5 < |SOLO_CHAIN_CHARGE_LEN|
  }

  /** The entry for a chain; beside the table lies some number `stray`. */
  function ChargeLen(len: int, stray: int): int {
    if 0 <= len - 5 < |SOLO_CHAIN_CHARGE_LEN| then SOLO_CHAIN_CHARGE_LEN[len - 5] else stray
  }

  /** The smallest opponent that can be expected to answer: two cards more for each rank, up to 18. */
  lemma ChargeLenIs(len: int, stray: int)
    requires 5 <= len <= 12
    ensures ChargeLen(len, stray) == if len <= 10 then 2 * len - 3 else 18
  {
  }

  // ----- looking for an answer

  /** Single cards of `len` ranks in a row, from rank `s` up to at most the ace. */
  ghost predicate RunAt(c: Counts, len: int, s: int) {
    0 <= s && s + len - 1 <= CARD_A && forall r :: s <= r < s + len ==> c[r] >= 1
  }

  /** No rank above the key holds enough cards, and no run as long starts above it. */
  ghost predicate Unanswered(h: Hand, opp: Counts)
    requires 0 <= h.key
  {
    match h.ty
    case Solo => forall r :: h.key < r <= RED_JOKER ==> opp[r] < 1
    case Pair => forall r :: h.key < r <= CARD_2 ==> opp[r] < 2
    case Trio | TrioSolo | TrioPair => forall r :: h.key < r <= CARD_2 ==> opp[r] < 3
    case SoloChain => forall s :: h.key < s ==> !RunAt(opp, h.len, s)
    case _ => true
  }

  /** The scan downwards from `top`: no rank above the key holds `need` cards. */
  method NoneAbove(key: int, top: int, need: int, opp: array<int>) returns (none: bool)
    requires opp.Length == RANKS && -1 <= key && top < RANKS
    ensures none <==> forall r :: key < r <= top ==> opp[r] < need
  {
    var i := top;
    while i > key
      invariant forall r :: key < r && i < r <= top ==> opp[r] < need
    {
      if opp[i] >= need {
        return false;
      }
      i := i - 1;
    }
    return true;
  }

  /** The longest run of single cards that starts at one of `start..last`. */
  method LongestRun(start: int, last: int, opp: array<int>) returns (maxLen: int)
    requires opp.Length == RANKS && 0 <= start && last <= CARD_A
    ensures 0 <= maxLen
    ensures forall s :: start <= s <= last ==> RunEnd(opp[..], s, 1) - s <= maxLen
    ensures maxLen > 0 ==> exists s :: start <= s <= last && RunEnd(opp[..], s, 1) - s == maxLen
  {
    maxLen := 0;
    var i := start;
    while i <= last
      invariant start <= i
      invariant 0 <= maxLen
      invariant forall s :: start <= s < i && s <= last ==> RunEnd(opp[..], s, 1) - s <= maxLen
      invariant maxLen > 0 ==> exists s :: start <= s <= last && RunEnd(opp[..], s, 1) - s == maxLen
    {
      var end := i;
      while end <= CARD_A && opp[end] > 0
        invariant i <= end <= CARD_2
        invariant RunEnd(opp[..], end, 1) == RunEnd(opp[..], i, 1)
      {
        end := end + 1;
      }
      if end - i > maxLen {
        maxLen := end - i;
      }
      i := i + 1;
    }
  }

  lemma {:induction false} RunEndWithin(c: Counts, i: int, j: int)
    requires 0 <= i <= j <= CARD_2
    requires forall r :: i <= r < j ==> c[r] >= 1
    ensures RunEnd(c, i, 1) >= j
    decreases j - i
  {
    if i < j {
      RunEndWithin(c, i + 1, j);
    }
  }

  /** A chain can be answered iff some run that starts above its key is at least as long. */
  lemma LongestRunDecides(h: Hand, opp: Counts, maxLen: int)
    requires h.ty == SoloChain && 0 <= h.key && 1 <= h.len
    requires forall s :: h.key + 1 <= s <= CARD_A - h.len + 1 ==> RunEnd(opp, s, 1) - s <= maxLen
    requires maxLen > 0 ==> exists s :: h.key + 1 <= s <= CARD_A - h.len + 1 && RunEnd(opp, s, 1) - s == maxLen
    ensures h.len > maxLen <==> Unanswered(h, opp)
  {
    forall s | h.key < s && RunAt(opp, h.len, s)
      ensures h.len <= maxLen
    {
      RunEndWithin(opp, s, s + h.len);
    }
    if h.len <= maxLen {
      var s :| h.key + 1 <= s <= CARD_A - h.len + 1 && RunEnd(opp, s, 1) - s == maxLen;
      assert RunAt(opp, h.len, s);
    }
  }

  // ----- the two searches agree

  /** The kinds for which charging is decided by looking for an answer of the same kind. */
  predicate Searched(ty: HandType) {
    ty == Solo || ty == Pair || ty == Trio || ty == SoloChain
  }

  /** Kickers play no part in the search for solos, pairs, trios and solo chains. */
  lemma NothingHigherIff(h: Hand, opp: Counts, search: Hand -> KickerSearch)
    requires 0 <= h.key && (h.ty == SoloChain ==> 1 <= h.len) && Searched(h.ty)
    ensures NextHigher(h, opp, search) == NOTHING <==> FirstFit(h, opp, h.key + 1) == -1
  {
  }

  /** An opponent is found to have no answer iff the search for higher hands finds none; jokers never pair. */
  lemma ChargeAgreesWithSearch(h: Hand, opp: Counts, search: Hand -> KickerSearch)
    requires 0 <= h.key && (h.ty == SoloChain ==> 1 <= h.len) && Searched(h.ty) && Legal(opp)
    ensures Unanswered(h, opp) <==> NextHigher(h, opp, search) == NOTHING
  {
    hide FirstFit, NextHigher;
    NothingHigherIff(h, opp, search);
    if h.ty == SoloChain {
      RunsFit(h, opp);
    } else {
      SinglesFit(h, opp);
    }
  }

  lemma RunsFit(h: Hand, opp: Counts)
    requires 0 <= h.key && h.ty == SoloChain && 1 <= h.len
    ensures Unanswered(h, opp) <==> FirstFit(h, opp, h.key + 1) == -1
  {
    var k := FirstFit(h, opp, h.key + 1);
    if k == -1 {
      forall s | h.key < s
        ensures !RunAt(opp, h.len, s)
      {
        assert !FitsAt(h, opp, s);
      }
    } else {
      assert RunAt(opp, h.len, k);
    }
  }

  lemma SinglesFit(h: Hand, opp: Counts)
    requires 0 <= h.key && (h.ty == Solo || h.ty == Pair || h.ty == Trio) && Legal(opp)
    ensures Unanswered(h, opp) <==> FirstFit(h, opp, h.key + 1) == -1
  {
    hide FirstFit, Legal;
    var k := FirstFit(h, opp, h.key + 1);
    OneOfEachJoker(opp);
    if k == -1 {
      forall r | h.key < r <= RED_JOKER
        ensures opp[r] < Needed(h.ty)
      {
        assert !FitsAt(h, opp, r);
      }
    } else {
      assert opp[k] >= Needed(h.ty);
    }
  }

  lemma OneOfEachJoker(opp: Counts)
    requires Legal(opp)
    ensures forall r :: CARD_2 < r <= RED_JOKER ==> opp[r] <= 1
  {
  }

  /** A trio with a kicker is found to have no answer iff no trio above it is there. */
  lemma WingedUnanswered(h: Hand, opp: Counts)
    requires 0 <= h.key && (h.ty == TrioSolo || h.ty == TrioPair) && Legal(opp)
    ensures Unanswered(h, opp) <==> FirstFit(h, opp, h.key + 1) == -1
  {
    hide FirstFit, Legal;
    var k := FirstFit(h, opp, h.key + 1);
    OneOfEachJoker(opp);
    if k == -1 {
      forall r | h.key < r <= RED_JOKER
        ensures opp[r] < 3
      {
        assert !FitsAt(h, opp, r);
      }
    }
  }

  // ----- the hands of the same kind in the own split

  /** The keys of the chains that are `len` ranks long. */
  function KeysOfLength(hands: seq<Hand>, len: int): seq<int> {
    if hands == [] then []
    else
      var n := |hands| - 1;
      KeysOfLength(hands[..n], len) + if hands[n].len == len then [hands[n].key] else []
  }

  /** The keys of the own hands that are of a kind with `h`: trios first without kicker, then with one. */
  function RivalKeys(h: Hand, m: HandMap): seq<int> {
    if h.ty == SoloChain then KeysOfLength(m.soloChain, h.len)
    else Keys(m.trio) + Keys(m.trioSolo) + Keys(m.trioPair)
  }

  /** Rivals of a chain are the chains of the split that are as long. */
  lemma {:induction false} KeysOfLengthIff(hands: seq<Hand>, len: int, r: int)
    ensures r in KeysOfLength(hands, len) <==> exists h :: h in hands && h.len == len && h.key == r
  {
    if hands != [] {
      var n := |hands| - 1;
      KeysOfLengthIff(hands[..n], len, r);
      assert hands == hands[..n] + [hands[n]];
      assert hands[n] in hands;
    }
  }

  /** The order of rival trios: without kicker, with a single one, with a pair. */
  lemma RivalTrios(h: Hand, m: HandMap, i: int)
    requires h.ty != SoloChain
    ensures var keys, a, b := RivalKeys(h, m), |m.trio|, |m.trio| + |m.trioSolo|;
      && |keys| == b + |m.trioPair|
      && (0 <= i < a ==> keys[i] == m.trio[i].key)
      && (a <= i < b ==> keys[i] == m.trioSolo[i - a].key)
      && (b <= i < |keys| ==> keys[i] == m.trioPair[i - b].key)
  {
  }

  function CountAbove(keys: seq<int>, best: int): (n: nat)
    ensures n <= |keys|
  {
    if keys == [] then 0
    else
      var n := |keys| - 1;
      CountAbove(keys[..n], best) + if keys[n] > best then 1 else 0
  }

  lemma {:induction false} CountAboveIs(keys: seq<int>, best: int)
    ensures CountAbove(keys, best) == |set i | 0 <= i < |keys| && keys[i] > best|
  {
    var all := set i | 0 <= i < |keys| && keys[i] > best;
    if keys == [] {
      assert all == {};
    } else {
      var n := |keys| - 1;
      CountAboveIs(keys[..n], best);
      var rest := set i | 0 <= i < n && keys[..n][i] > best;
      assert all == rest + if keys[n] > best then {n} else {};
    }
  }

  lemma {:induction false} CountBelowIs(keys: seq<int>, key: int)
    ensures CountBelow(keys, key) == |set i | 0 <= i < |keys| && keys[i] < key|
  {
    var all := set i | 0 <= i < |keys| && keys[i] < key;
    if keys == [] {
      assert all == {};
    } else {
      var n := |keys| - 1;
      CountBelowIs(keys[..n], key);
      var rest := set i | 0 <= i < n && keys[..n][i] < key;
      assert all == rest + if keys[n] < key then {n} else {};
    }
  }

  function CountBelow(keys: seq<int>, key: int): (n: nat)
    ensures n <= |keys|
  {
    if keys == [] then 0
    else
      var n := |keys| - 1;
      CountBelow(keys[..n], key) + if keys[n] < key then 1 else 0
  }

  /** With `n` own hands above the opponents' best, one of the first `n` own hands is no lower. */
  ghost predicate Backed(key: int, keys: seq<int>, best: int) {
    exists i :: 0 <= i < CountAbove(keys, best) && key <= keys[i]
  }

  /** What is compared with: the highest run as long, but the lowest trio. */
  ghost predicate IsBest(h: Hand, opp: Counts, best: int) {
    if h.ty == SoloChain then
      RunAt(opp, h.len, best) && forall s :: best < s ==> !RunAt(opp, h.len, s)
    else
      0 <= best <= CARD_2 && opp[best] >= 3 && forall r :: 0 <= r < best ==> opp[r] < 3
  }

  /** `getHighestTrio` scans upwards: it finds the lowest trio. */
  method GetHighestTrio(points: array<int>) returns (key: int)
    requires points.Length == RANKS
    ensures key == -1 <==> forall r :: 0 <= r <= CARD_2 ==> points[r] < 3
    ensures key != -1 ==>
      0 <= key <= CARD_2 && points[key] >= 3 && forall r :: 0 <= r < key ==> points[r] < 3
  {
    for i := CARD_3 to CARD_2 + 1
      invariant forall r :: 0 <= r < i ==> points[r] < 3
    {
      if points[i] >= 3 {
        return i;
      }
    }
    return -1;
  }

  /** A rank of 3..K with a card of its own and one of the next rank. */
  predicate Paired(c: Counts, r: int) {
    0 <= r <= CARD_K && c[r] >= 1 && c[r + 1] >= 1
  }

  /** The ranks above `i` are the lower end of a run that ends at `end`. */
  ghost predicate InRun(c: Counts, i: int, end: int) {
    && -1 <= i < end <= CARD_A && (end == CARD_A || c[end + 1] < 1)
    && forall r :: i < r <= end ==> c[r] >= 1
  }

  /** With a run of `len`, the highest one; without, what the scan stopped at: the lowest two in a row. */
  method GetHighestSoloChain(points: array<int>, len: int) returns (start: int)
    requires points.Length == RANKS && 2 <= len
    ensures (exists s :: RunAt(points[..], len, s)) ==>
      RunAt(points[..], len, start) && forall s :: start < s ==> !RunAt(points[..], len, s)
    ensures !(exists s :: RunAt(points[..], len, s)) ==>
      if start == -1 then forall r :: !Paired(points[..], r)
      else Paired(points[..], start) && forall r :: r < start ==> !Paired(points[..], r)
  {
    ghost var c := points[..];
    var end := -1;
    start := -1;
    var i := CARD_A;
    while i >= CARD_3
      invariant -1 <= i <= CARD_A
      invariant forall s :: i < s ==> !RunAt(c, len, s)
      invariant if end < 0 then i == CARD_A || c[i + 1] < 1
        else InRun(c, i, end) && end - i < len
      invariant if start == -1 then forall r :: i < r ==> !Paired(c, r)
        else (i < start && Paired(c, start) && forall r :: i < r < start ==> !Paired(c, r))
    {
      if points[i] > 0 {
        if end < 0 {
          end := i;
        } else {
          start := i;
          if end - start + 1 == len {
            assert RunAt(c, len, start);
            return;
          }
        }
      } else {
        end := -1;
      }
      i := i - 1;
    }
    assert forall s :: !RunAt(c, len, s);
    assert forall r :: r < 0 ==> !Paired(c, r);
  }

  method PushKeys(keys: seq<int>, hands: seq<Hand>) returns (keys': seq<int>)
    ensures keys' == keys + Keys(hands)
  {
    keys' := keys;
    for i := 0 to |hands|
      invariant keys' == keys + Keys(hands)[..i]
    {
      keys' := keys' + [hands[i].key];
    }
  }

  method TypeKeyPoints(h: Hand, m: HandMap) returns (keys: seq<int>)
    ensures keys == RivalKeys(h, m)
  {
    keys := [];
    if h.ty == SoloChain {
      for i := 0 to |m.soloChain|
        invariant keys == KeysOfLength(m.soloChain[..i], h.len)
      {
        assert m.soloChain[..i + 1][..i] == m.soloChain[..i];
        if m.soloChain[i].len == h.len {
          keys := keys + [m.soloChain[i].key];
        }
      }
      assert m.soloChain[..|m.soloChain|] == m.soloChain;
    } else {
      keys := PushKeys(keys, m.trio);
      keys := PushKeys(keys, m.trioSolo);
      keys := PushKeys(keys, m.trioPair);
    }
  }

  /** The two loops over the keys: count those above the opponents' best, then look at as many. */
  method CompareKeys(key: int, keys: seq<int>, best: int) returns (backed: bool)
    ensures backed <==> Backed(key, keys, best)
  {
    var count := 0;
    for i := 0 to |keys|
      invariant count == CountAbove(keys[..i], best)
    {
      assert keys[..i + 1][..i] == keys[..i];
      if keys[i] > best {
        count := count + 1;
      }
    }
    assert keys[..|keys|] == keys;
    for i := 0 to count
      invariant forall j :: 0 <= j < i ==> keys[j] < key
    {
      if key <= keys[i] {
        return true;
      }
    }
    return false;
  }

  // ----- isChargeHand

  /** The first half, which looks at the opponents' cards alone. */
  method ChargesAlone(h: Hand, maxOppCardNum: int, opp: array<int>, stray: int) returns (ret: bool)
    requires opp.Length == RANKS && 0 <= h.key && (h.ty == SoloChain ==> 1 <= h.len)
    ensures ret <==>
      || GetHandCount(h) > maxOppCardNum
      || (h.ty == SoloChain && maxOppCardNum < ChargeLen(h.len, stray))
      || Unanswered(h, opp[..])
  {
    var num := GetHandCount(h);
    if num > maxOppCardNum {
      return true;
    }
    if h.ty == Solo {
      ret := NoneAbove(h.key, RED_JOKER, 1, opp);
    } else if h.ty == Pair {
      ret := NoneAbove(h.key, CARD_2, 2, opp);
    } else if h.ty == Trio || h.ty == TrioSolo || h.ty == TrioPair {
      ret := NoneAbove(h.key, CARD_2, 3, opp);
    } else if h.ty == SoloChain {
      if maxOppCardNum < ChargeLen(h.len, stray) {
        ret := true;
      } else {
        var maxLen := LongestRun(h.key + 1, CARD_A - h.len + 1, opp);
        ret := h.len > maxLen;
        LongestRunDecides(h, opp[..], maxLen);
      }
    } else {
      ret := true;
    }
  }

  /**
    A hand charges if the opponents hold fewer cards than it, if the table or their cards say that
    it has no answer, or if enough own hands of its kind back it.  `stray` is what lies beside the
    table, which the code reads for a chain of four.
   */
  method IsChargeHand(h: Hand, maxOppCardNum: int, opp: array<int>, handMap: Option<HandMap>, stray: int)
    returns (ret: bool)
    requires opp.Length == RANKS && 0 <= h.key && (h.ty == SoloChain ==> 2 <= h.len)
    ensures ret <==>
      || GetHandCount(h) > maxOppCardNum
      || (h.ty == SoloChain && maxOppCardNum < ChargeLen(h.len, stray))
      || Unanswered(h, opp[..])
      || (handMap.Some? && h.ty in {Trio, TrioSolo, TrioPair, SoloChain}
          && exists best :: IsBest(h, opp[..], best) && Backed(h.key, RivalKeys(h, handMap.value), best))
  {
    ret := ChargesAlone(h, maxOppCardNum, opp, stray);
    if handMap.Some? && !ret && h.ty in {Trio, TrioSolo, TrioPair, SoloChain} {
      var keys := TypeKeyPoints(h, handMap.value);
      if |keys| > 0 {
        var best;
        if h.ty == SoloChain {
          best := GetHighestSoloChain(opp, h.len);
        } else {
          best := GetHighestTrio(opp);
        }
        ret := CompareKeys(h.key, keys, best);
        assert IsBest(h, opp[..], best);
        BestIsUnique(h, opp[..], best);
      }
    }
  }

  lemma BestIsUnique(h: Hand, opp: Counts, best: int)
    requires IsBest(h, opp, best)
    ensures forall b :: IsBest(h, opp, b) ==> b == best
  {
  }

  // ----- what the own hands add

  ghost predicate NonDescending(keys: seq<int>) {
    forall i, j :: 0 <= i <= j < |keys| ==> keys[i] <= keys[j]
  }

  lemma {:induction false} BelowComesFirst(keys: seq<int>, key: int)
    requires NonDescending(keys)
    ensures forall i :: 0 <= i < |keys| ==> (keys[i] < key <==> i < CountBelow(keys, key))
  {
    if keys != [] {
      BelowComesFirst(keys[..|keys| - 1], key);
    }
  }

  /** In ascending order: more own hands are above the opponents' best than are below this one. */
  lemma BackedIff(key: int, keys: seq<int>, best: int)
    requires NonDescending(keys)
    ensures Backed(key, keys, best) <==> CountBelow(keys, key) < CountAbove(keys, best)
  {
    BelowComesFirst(keys, key);
    if CountBelow(keys, key) < CountAbove(keys, best) {
      assert key <= keys[CountBelow(keys, key)];
    }
  }

  lemma {:induction false} AllBelow(keys: seq<int>, key: int, n: nat)
    requires n <= |keys| && forall i :: 0 <= i < n ==> keys[i] < key
    ensures n <= CountBelow(keys, key)
  {
    if n < |keys| {
      AllBelow(keys[..|keys| - 1], key, n);
    } else if keys != [] {
      AllBelow(keys[..n - 1], key, n - 1);
    }
  }

  /** In any order a hand with more own hands above the best than below it is backed. */
  lemma EnoughHighBack(key: int, keys: seq<int>, best: int)
    requires CountBelow(keys, key) < CountAbove(keys, best)
    ensures Backed(key, keys, best)
  {
    if !Backed(key, keys, best) {
      AllBelow(keys, key, CountAbove(keys, best));
    }
  }

  /** But trios without kicker come first: with a bare ten and 3 and 4 with kickers, the 4 is backed too. */
  lemma OrderMatters(kicker: seq<int>)
    ensures
      var winged := [Hand(TrioSolo, 0, 0, kicker), Hand(TrioSolo, 1, 0, kicker)];
      var m := EMPTY.(trio := [Hand(Trio, 7, 0, [])], trioSolo := winged);
      var keys := RivalKeys(m.trioSolo[1], m);
      keys == [7, 0, 1] && Backed(1, keys, 5) && CountBelow(keys, 1) == CountAbove(keys, 5) == 1
  {
    var keys := [7, 0, 1];
    assert keys[..2] == [7, 0] && keys[..2][..1] == [7] && [7][..0] == [];
    assert CountAbove([7], 5) == 1 && CountBelow([7], 1) == 0;
    assert CountAbove([7, 0], 5) == 1 && CountBelow([7, 0], 1) == 1;
    assert CountAbove(keys, 5) == 1 && 1 <= keys[0];
  }

  lemma {:induction false} AboveFalls(keys: seq<int>, low: int, high: int)
    requires low <= high
    ensures CountAbove(keys, high) <= CountAbove(keys, low)
  {
    if keys != [] {
      AboveFalls(keys[..|keys| - 1], low, high);
    }
  }

  /**
    Comparing with the lowest trio of the opponents instead of the highest only ever adds hands; in
    ascending order, those with too few own trios above the highest but enough above the lowest.
   */
  lemma LowestTrioOverrates(key: int, keys: seq<int>, lowest: int, highest: int)
    requires lowest <= highest
    ensures Backed(key, keys, highest) ==> Backed(key, keys, lowest)
    ensures NonDescending(keys) ==> (
      Backed(key, keys, lowest) && !Backed(key, keys, highest)
      <==> CountAbove(keys, highest) <= CountBelow(keys, key) < CountAbove(keys, lowest))
  {
    AboveFalls(keys, lowest, highest);
    if NonDescending(keys) {
      BackedIff(key, keys, lowest);
      BackedIff(key, keys, highest);
    }
  }
}
