/**
  The search for kickers when a winged hand is to be beaten (`findKickerFromPoints`), and what it
  makes of the search for higher hands.

  It looks at a split of the counts that are left once the body is taken.  For trios it is exact:
  it finds a kicker iff there is one.  For trio chains it may offer a rank twice.
 */
module FindKicker {
  import opened Cards
  import opened Hands
  import opened HandMaps
  import opened Options
  import opened Splitters
  import opened HigherSearch

  // ----- one kicker for a trio

  /** The first key from index `i` on that is not the trio's own rank. */
  function FirstOther(hands: seq<Hand>, i: nat, key: int): Option<int>
    requires i <= |hands|
    decreases |hands| - i
  {
    if i == |hands| then None
    else if hands[i].key != key then Some(hands[i].key)
    else FirstOther(hands, i + 1, key)
  }

  /** A chain that starts, not at the trio's own rank, where an earlier one ends. */
  function Linked(chains: seq<Hand>, i: nat, j: nat, key: int): Option<int>
    decreases |chains| - i, |chains| - j
  {
    if i >= |chains| then None
    else if j >= |chains| then Linked(chains, i + 1, i + 2, key)
    else if chains[i].key + chains[i].len - 1 == chains[j].key && chains[j].key != key then Some(chains[j].key)
    else Linked(chains, i, j + 1, key)
  }

  /** An end of the first chain that is longer than five. */
  function SpareEnd(chains: seq<Hand>, i: nat, key: int): Option<int>
    requires i <= |chains|
    decreases |chains| - i
  {
    if i == |chains| then None
    else if chains[i].len > 5 then
      Some(if chains[i].key != key then chains[i].key else chains[i].key + chains[i].len - 1)
    else SpareEnd(chains, i + 1, key)
  }

  /** The first rank of `r..top` but the trio's own that holds enough cards. */
  function FirstHeld(points: Counts, r: nat, top: int, need: int, key: int): Option<int>
    requires top < RANKS
    decreases RANKS - r
  {
    if r > top then None
    else if points[r] >= need && r != key then Some(r)
    else FirstHeld(points, r + 1, top, need, key)
  }

  function OrElse(a: Option<int>, b: Option<int>): Option<int> {
    if a.Some? then a else b
  }

  function SoloKicker(points: Counts, m: HandMap, key: int): Option<int> {
    OrElse(FirstOther(m.solo, 0, key),
           OrElse(Linked(m.soloChain, 0, 1, key),
                  OrElse(SpareEnd(m.soloChain, 0, key), FirstHeld(points, CARD_3, RED_JOKER, 1, key))))
  }

  function PairKicker(points: Counts, m: HandMap, key: int): Option<int> {
    if m.pair != [] then Some(m.pair[0].key)
    else if m.pairChain != [] && m.pairChain[0].len > 3 then Some(m.pairChain[0].key)
    else FirstHeld(points, CARD_3, CARD_2, 2, key)
  }

  // ----- kickers for a chain

  function OutsideKeys(solos: seq<Hand>, body: Hand): (keys: seq<int>)
    ensures forall x :: x in keys ==> !InBody(body, x) && exists i :: 0 <= i < |solos| && solos[i].key == x
  {
    if solos == [] then []
    else
      var n := |solos| - 1;
      OutsideKeys(solos[..n], body) + if InBody(body, solos[n].key) then [] else [solos[n].key]
  }

  /** What a chain gives down to length five: its low end, unless it starts in or above the body. */
  function ChainWings(chain: Hand, body: Hand, other: int, need: int): seq<int>
    decreases chain.len
  {
    if need <= 0 || chain.len <= 5 then []
    else if chain.key < body.key || other > body.key + body.len - 1 then
      [chain.key] + ChainWings(chain.(key := chain.key + 1, len := chain.len - 1), body, other, need - 1)
    else
      [chain.key + chain.len - 1] + ChainWings(chain.(len := chain.len - 1), body, other, need - 1)
  }

  /** The key of solo `i`, which the code reads in place of chain `i`; beyond the list lies anything. */
  function KeyRead(solos: seq<Hand>, i: nat, stray: nat -> int): int {
    if i < |solos| then solos[i].key else stray(i)
  }

  function AllChainWings(m: HandMap, i: nat, body: Hand, stray: nat -> int, need: int): seq<int>
    requires i <= |m.soloChain|
    decreases |m.soloChain| - i
  {
    if i == |m.soloChain| || need <= 0 then []
    else
      var wings := ChainWings(m.soloChain[i], body, KeyRead(m.solo, i, stray), need);
      wings + AllChainWings(m, i + 1, body, stray, need - |wings|)
  }

  /** The lowest ranks from `r` on that hold a card, as many as are needed. */
  function LowestHeld(points: Counts, r: nat, need: int): seq<int>
    decreases RANKS - r
  {
    if r > RED_JOKER || need <= 0 then []
    else if points[r] > 0 then [r] + LowestHeld(points, r + 1, need - 1)
    else LowestHeld(points, r + 1, need)
  }

  function Wings(points: Counts, m: HandMap, body: Hand, stray: nat -> int): seq<int> {
    var solos := OutsideKeys(m.solo, body);
    var found := solos + AllChainWings(m, 0, body, stray, body.len - |solos|);
    found + LowestHeld(points, CARD_3, body.len - |found|)
  }

  /** The answer for a body.  The test for the kind of chain assigns, so pair wings are never looked for. */
  function KickerAnswer(points: Counts, m: HandMap, body: Hand, stray: nat -> int): KickerSearch {
    if body.ty == TrioSolo || body.ty == TrioPair then
      var kicker := if body.ty == TrioSolo then SoloKicker(points, m, body.key) else PairKicker(points, m, body.key);
      if kicker.Some? then Found([kicker.value]) else NoKicker
    else
      var wings := Wings(points, m, body, stray);
      if 0 <= body.len <= |wings| then Found(wings[..body.len]) else NoKicker
  }

  // ----- the search as the source runs it

  method SearchOther(hands: seq<Hand>, key: int) returns (found: Option<int>)
    ensures found == FirstOther(hands, 0, key)
  {
    for i := 0 to |hands|
      invariant FirstOther(hands, 0, key) == FirstOther(hands, i, key)
    {
      if hands[i].key != key {
        return Some(hands[i].key);
      }
    }
    return None;
  }

  method SearchLinked(chains: seq<Hand>, key: int) returns (found: Option<int>)
    ensures found == Linked(chains, 0, 1, key)
  {
    if |chains| >= 2 {
      for i := 0 to |chains|
        invariant Linked(chains, 0, 1, key) == Linked(chains, i, i + 1, key)
      {
        for j := i + 1 to |chains|
          invariant Linked(chains, 0, 1, key) == Linked(chains, i, j, key)
        {
          if chains[i].key + chains[i].len - 1 == chains[j].key {
            if chains[j].key != key {
              return Some(chains[j].key);
            }
          }
        }
      }
    }
    return None;
  }

  method SearchSpareEnd(chains: seq<Hand>, key: int) returns (found: Option<int>)
    ensures found == SpareEnd(chains, 0, key)
  {
    for i := 0 to |chains|
      invariant SpareEnd(chains, 0, key) == SpareEnd(chains, i, key)
    {
      if chains[i].len > 5 {
        if chains[i].key != key {
          return Some(chains[i].key);
        } else {
          return Some(chains[i].key + chains[i].len - 1);
        }
      }
    }
    return None;
  }

  method SearchHeld(points: array<int>, top: int, need: int, key: int) returns (found: Option<int>)
    requires points.Length == RANKS && 0 <= top < RANKS
    ensures found == FirstHeld(points[..], CARD_3, top, need, key)
  {
    for i := CARD_3 to top + 1
      invariant FirstHeld(points[..], CARD_3, top, need, key) == FirstHeld(points[..], i, top, need, key)
    {
      if points[i] >= need && i != key {
        return Some(i);
      }
    }
    return None;
  }

  method SearchSolo(points: array<int>, m: HandMap, key: int) returns (found: Option<int>)
    requires points.Length == RANKS
    ensures found == SoloKicker(points[..], m, key)
  {
    found := SearchOther(m.solo, key);
    if found.None? {
      found := SearchLinked(m.soloChain, key);
    }
    if found.None? {
      found := SearchSpareEnd(m.soloChain, key);
    }
    if found.None? {
      found := SearchHeld(points, RED_JOKER, 1, key);
    }
  }

  method SearchPair(points: array<int>, m: HandMap, key: int) returns (found: Option<int>)
    requires points.Length == RANKS
    ensures found == PairKicker(points[..], m, key)
  {
    if |m.pair| > 0 {
      return Some(m.pair[0].key);
    }
    for i := 0 to |m.pairChain|
      invariant i > 0 ==> m.pairChain[0].len <= 3
    {
      if m.pairChain[0].len > 3 {
        return Some(m.pairChain[0].key);
      }
    }
    found := SearchHeld(points, CARD_2, 2, key);
  }

  method TakeWings(chain: Hand, body: Hand, other: int, need: int, k: seq<int>) returns (k': seq<int>)
    ensures k' == k + ChainWings(chain, body, other, need - |k|)
  {
    k' := k;
    var rest := chain;
    while |k'| < need && rest.len > 5
      invariant k' + ChainWings(rest, body, other, need - |k'|) == k + ChainWings(chain, body, other, need - |k|)
      decreases rest.len
    {
      if rest.key < body.key || other > body.key + body.len - 1 {
        k' := k' + [rest.key];
        rest := rest.(key := rest.key + 1, len := rest.len - 1);
      } else {
        k' := k' + [rest.key + rest.len - 1];
        rest := rest.(len := rest.len - 1);
      }
    }
  }

  method PushOutside(solos: seq<Hand>, body: Hand) returns (k: seq<int>)
    requires IsChain(body.ty)
    ensures k == OutsideKeys(solos, body)
  {
    k := [];
    for i := 0 to |solos|
      invariant k == OutsideKeys(solos[..i], body)
    {
      assert solos[..i + 1][..i] == solos[..i];
      if solos[i].key < body.key || solos[i].key > body.key + body.len - 1 {
        k := k + [solos[i].key];
      }
    }
    assert solos[..|solos|] == solos;
  }

  method PushFromChains(m: HandMap, body: Hand, stray: nat -> int, k: seq<int>) returns (k': seq<int>)
    ensures k' == k + AllChainWings(m, 0, body, stray, body.len - |k|)
  {
    hide ChainWings;
    ghost var all := k + AllChainWings(m, 0, body, stray, body.len - |k|);
    k' := k;
    if |k| < body.len {
      for i := 0 to |m.soloChain|
        invariant |k'| < body.len
        invariant k' + AllChainWings(m, i, body, stray, body.len - |k'|) == all
      {
        ghost var before := k';
        var other := if i < |m.solo| then m.solo[i].key else stray(i);
        k' := TakeWings(m.soloChain[i], body, other, body.len, k');
        NextChainWings(m, i, body, stray, before, k');
        if |k'| >= body.len {
          break;
        }
      }
    }
    assert k' + [] == k';
  }

  lemma {:induction false} NextChainWings(m: HandMap, i: nat, body: Hand, stray: nat -> int, k: seq<int>, k': seq<int>)
    requires i < |m.soloChain| && |k| < body.len
    requires k' == k + ChainWings(m.soloChain[i], body, KeyRead(m.solo, i, stray), body.len - |k|)
    ensures k + AllChainWings(m, i, body, stray, body.len - |k|)
      == k' + AllChainWings(m, i + 1, body, stray, body.len - |k'|)
    ensures |k'| >= body.len ==> AllChainWings(m, i + 1, body, stray, body.len - |k'|) == []
  {
    hide ChainWings, KeyRead;
    var wings := ChainWings(m.soloChain[i], body, KeyRead(m.solo, i, stray), body.len - |k|);
    var rest := AllChainWings(m, i + 1, body, stray, body.len - |k'|);
    assert AllChainWings(m, i, body, stray, body.len - |k|) == wings + rest;
    assert k + (wings + rest) == (k + wings) + rest;
  }

  method PushHeld(points: array<int>, need: int, k: seq<int>) returns (k': seq<int>)
    requires points.Length == RANKS
    ensures k' == k + LowestHeld(points[..], CARD_3, need - |k|)
  {
    k' := k;
    for i := CARD_3 to RED_JOKER + 1
      invariant k' + LowestHeld(points[..], i, need - |k'|) == k + LowestHeld(points[..], CARD_3, need - |k|)
    {
      if |k'| < need {
        if points[i] > 0 {
          k' := k' + [i];
        }
      } else {
        break;
      }
    }
  }

  method SearchWings(points: array<int>, m: HandMap, body: Hand, stray: nat -> int) returns (k: seq<int>)
    requires points.Length == RANKS && IsChain(body.ty)
    ensures k == Wings(points[..], m, body, stray)
  {
    hide OutsideKeys, AllChainWings, LowestHeld;
    k := PushOutside(m.solo, body);
    k := PushFromChains(m, body, stray, k);
    k := PushHeld(points, body.len, k);
  }

  /** The search: split what is left without kickers, then look at that split and at the counts. */
  method FindKickerFromPoints(
    points: array<int>, body: Hand, secondWins: bool, thirdWins: bool, stray: nat -> int)
    returns (answer: KickerSearch)
    requires points.Length == RANKS && Legal(points[..])
    requires NeedsKicker(body.ty) && (IsChain(body.ty) ==> 1 <= body.len)
    ensures var kind := if thirdWins then 3 else if secondWins then 2 else 1;
      answer == KickerAnswer(points[..], KindOf(kind, points[..], false).m, body, stray)
  {
    hide KindOf, Wings, SoloKicker, PairKicker, Legal;
    var handsMap := SortHandsWithBestKind(points[..], false, secondWins, thirdWins);
    if body.ty == TrioSolo || body.ty == TrioPair {
      var kicker;
      if body.ty == TrioSolo {
        kicker := SearchSolo(points, handsMap, body.key);
      } else {
        kicker := SearchPair(points, handsMap, body.key);
      }
      answer := if kicker.Some? then Found([kicker.value]) else NoKicker;
    } else {
      var k := SearchWings(points, handsMap, body, stray);
      answer := if |k| >= body.len then Found(k[..body.len]) else NoKicker;
    }
  }
}
