/**
  Attaching solos and pairs as kickers to trio chains and trios (`findKickerForTrioOrTrioChain`).
 */
module Kickers {
  import opened Cards
  import opened Hands
  import opened HandMaps

  predicate IsJoker(r: int) {
    r == BLACK_JOKER || r == RED_JOKER
  }

  // ----- solos for one chain

  /** How many of the solos from index `i` on lie outside the body of chain `t`. */
  function OutsideCount(solos: seq<Hand>, t: Hand, i: nat): nat
    requires i <= |solos|
    decreases |solos| - i
  {
    if i == |solos| then 0
    else (if InBody(t, solos[i].key) then 0 else 1) + OutsideCount(solos, t, i + 1)
  }

  function JokerCount(solos: seq<Hand>, i: nat): nat
    requires i <= |solos|
    decreases |solos| - i
  {
    if i == |solos| then 0
    else (if IsJoker(solos[i].key) then 1 else 0) + JokerCount(solos, i + 1)
  }

  function UsefulSolos(solos: seq<Hand>, t: Hand): int {
    OutsideCount(solos, t, 0) - (if JokerCount(solos, 0) == 2 then 2 else 0)
  }

  /** Move solos outside the body of `t`, from index `i` on, to the kicker list until it is full. */
  function TakeOutside(solos: seq<Hand>, t: Hand, i: nat, k: seq<int>): (seq<int>, seq<Hand>)
    requires i <= |solos|
    decreases |solos| - i
  {
    if |k| < t.len && i < |solos| then
      if InBody(t, solos[i].key) then TakeOutside(solos, t, i + 1, k)
      else TakeOutside(solos[..i] + solos[i + 1..], t, i, k + [solos[i].key])
    else (k, solos)
  }

  // ----- trio chains, then trios

  function WithSolos(m: HandMap): HandMap
    requires m.trioChain != []
  {
    var t := m.trioChain[0];
    var (k, rest) := TakeOutside(m.solo, t, 0, []);
    m.(trioChain := m.trioChain[1..], solo := rest,
       trioChainSolo := m.trioChainSolo + [t.(ty := TrioChainSolo, kicker := k)])
  }

  function WithPairs(m: HandMap): HandMap
    requires m.trioChain != [] && 0 <= m.trioChain[0].len <= |m.pair|
  {
    var t := m.trioChain[0];
    m.(trioChain := m.trioChain[1..], pair := m.pair[t.len..],
       trioChainPair := m.trioChainPair + [t.(ty := TrioChainPair, kicker := Keys(m.pair[..t.len]))])
  }

  /** Give each trio chain in turn its solos, else its pairs; stop at the first that gets neither. */
  function AttachChains(m: HandMap): HandMap
    decreases |m.trioChain|
  {
    if m.trioChain == [] then m
    else if UsefulSolos(m.solo, m.trioChain[0]) >= m.trioChain[0].len then AttachChains(WithSolos(m))
    else if 0 <= m.trioChain[0].len <= |m.pair| then AttachChains(WithPairs(m))
    else m
  }

  predicate PrefersPair(m: HandMap) {
    m.solo == [] || (m.pair != [] && m.pair[0].key < m.solo[0].key)
  }

  function WithPairKicker(m: HandMap): HandMap
    requires m.trio != [] && m.pair != []
  {
    var t := m.trio[0];
    m.(trio := m.trio[1..], pair := m.pair[1..],
       trioPair := m.trioPair + [t.(ty := TrioPair, kicker := [m.pair[0].key])])
  }

  function WithSoloKicker(m: HandMap): HandMap
    requires m.trio != [] && m.solo != []
  {
    var t := m.trio[0];
    m.(trio := m.trio[1..], solo := m.solo[1..],
       trioSolo := m.trioSolo + [t.(ty := TrioSolo, kicker := [m.solo[0].key])])
  }

  function WithKicker(m: HandMap): HandMap
    requires m.trio != [] && (m.solo != [] || m.pair != [])
  {
    if PrefersPair(m) then WithPairKicker(m) else WithSoloKicker(m)
  }

  /** Give each trio the lowest solo or pair left, until trios or kickers run out. */
  function AttachTrios(m: HandMap): (m': HandMap)
    ensures m'.trio == [] || (m'.solo == [] && m'.pair == [])
    decreases |m.trio|
  {
    if m.trio == [] || (m.solo == [] && m.pair == []) then m else AttachTrios(WithKicker(m))
  }

  function Attach(m: HandMap): HandMap {
    AttachTrios(AttachChains(m))
  }

  method CountUseful(solos: seq<Hand>, t: Hand) returns (useful: int)
    ensures useful == UsefulSolos(solos, t)
  {
    useful := 0;
    var jokers := 0;
    for i := 0 to |solos|
      invariant useful + OutsideCount(solos, t, i) == OutsideCount(solos, t, 0)
      invariant jokers + JokerCount(solos, i) == JokerCount(solos, 0)
    {
      if solos[i].key < t.key || solos[i].key > t.key + Span(t) - 1 {
        useful := useful + 1;
      }
      if solos[i].key == BLACK_JOKER || solos[i].key == RED_JOKER {
        jokers := jokers + 1;
      }
    }
    if jokers == 2 {
      useful := useful - 2;
    }
  }

  method TakeSolos(solos: seq<Hand>, t: Hand) returns (k: seq<int>, rest: seq<Hand>)
    ensures (k, rest) == TakeOutside(solos, t, 0, [])
  {
    k, rest := [], solos;
    var it := 0;
    while |k| < t.len && it != |rest|
      invariant it <= |rest|
      invariant TakeOutside(rest, t, it, k) == TakeOutside(solos, t, 0, [])
      decreases |rest| - it
    {
      if rest[it].key < t.key || rest[it].key > t.key + Span(t) - 1 {
        k := k + [rest[it].key];
        rest := rest[..it] + rest[it + 1..];
      } else {
        it := it + 1;
      }
    }
  }

  /** Move the first pairs to the kicker list, one at a time, until it is full. */
  method TakePairs(pairs: seq<Hand>, len: int) returns (k: seq<int>, rest: seq<Hand>)
    requires 0 <= len <= |pairs|
    ensures k == Keys(pairs[..len]) && rest == pairs[len..]
  {
    k, rest := [], pairs;
    while |k| < len && rest != []
      invariant |k| <= len && k == Keys(pairs[..|k|]) && rest == pairs[|k|..]
      decreases |rest|
    {
      k := k + [rest[0].key];
      rest := rest[1..];
    }
  }

  /** Give the first trio the first solo or the first pair. */
  method GiveKicker(m: HandMap) returns (m': HandMap)
    requires m.trio != [] && (m.solo != [] || m.pair != [])
    ensures m' == WithKicker(m)
  {
    var kickerType := Solo;
    if |m.solo| == 0 || (|m.pair| > 0 && m.pair[0].key < m.solo[0].key) {
      kickerType := Pair;
    }
    var trio := m.trio[0];
    m' := m;
    if kickerType == Solo {
      trio := trio.(ty := TrioSolo, kicker := [m.solo[0].key]);
      m' := m'.(solo := m.solo[1..], trioSolo := m.trioSolo + [trio]);
    } else {
      trio := trio.(ty := TrioPair, kicker := [m.pair[0].key]);
      m' := m'.(pair := m.pair[1..], trioPair := m.trioPair + [trio]);
    }
    m' := m'.(trio := m.trio[1..]);
  }

  method FindKickerForTrioOrTrioChain(m: HandMap) returns (m': HandMap)
    ensures m' == Attach(m)
  {
    m' := m;
    while m'.trioChain != []
      invariant AttachChains(m') == AttachChains(m)
      decreases |m'.trioChain|
    {
      var tChain := m'.trioChain[0];
      var useful := CountUseful(m'.solo, tChain);
      if useful >= tChain.len {
        var k, rest := TakeSolos(m'.solo, tChain);
        m' := m'.(trioChain := m'.trioChain[1..], solo := rest,
                  trioChainSolo := m'.trioChainSolo + [tChain.(ty := TrioChainSolo, kicker := k)]);
      } else if 0 <= tChain.len <= |m'.pair| {
        var k, rest := TakePairs(m'.pair, tChain.len);
        m' := m'.(trioChain := m'.trioChain[1..], pair := rest,
                  trioChainPair := m'.trioChainPair + [tChain.(ty := TrioChainPair, kicker := k)]);
      } else {
        break;
      }
    }
    assert m' == AttachChains(m);
    while m'.trio != [] && (m'.solo != [] || m'.pair != [])
      invariant AttachTrios(m') == Attach(m)
      decreases |m'.trio|
    {
      m' := GiveKicker(m');
    }
  }

  // ----- what a split hands over to the kicker search

  /** Solos and pairs ascend, no two jokers, and no trio shares a rank with a kicker it may get. */
  ghost predicate Attachable(m: HandMap) {
    && MapShaped(m)
    && Ascending(Keys(m.solo))
    && Ascending(Keys(m.pair))
    && !(BLACK_JOKER in Keys(m.solo) && RED_JOKER in Keys(m.solo))
    && (forall i, r :: 0 <= i < |m.trioChain| && r in Keys(m.pair) ==> !InBody(m.trioChain[i], r))
    && (forall i :: 0 <= i < |m.trio| ==> m.trio[i].key !in Keys(m.solo) && m.trio[i].key !in Keys(m.pair))
  }

  ghost predicate FitsIn(m: HandMap, c: Counts) {
    forall r :: 0 <= r < RANKS ==> MapTotal(m, r) <= c[r]
  }

  lemma KeyMember(hs: seq<Hand>, i: nat)
    requires i < |hs|
    ensures hs[i].key in Keys(hs)
  {
    assert Keys(hs)[i] == hs[i].key;
  }

  // ----- facts about taking solos

  /** What is known half-way through taking solos: the kickers so far, and the solos left. */
  ghost predicate Taking(solos: seq<Hand>, t: Hand, i: nat, k: seq<int>, keys: set<int>) {
    && i <= |solos| && |k| <= t.len
    && AllShaped(solos, Solo)
    && Ascending(Keys(solos)) && Ascending(k)
    && (forall a, j :: 0 <= a < |k| && i <= j < |solos| ==> k[a] < solos[j].key)
    && (forall a :: 0 <= a < |k| ==> 0 <= k[a] <= RED_JOKER && !InBody(t, k[a]) && k[a] in keys)
    && (forall j :: 0 <= j < |solos| ==> solos[j].key in keys)
  }

  lemma TakeOne(solos: seq<Hand>, t: Hand, i: nat, k: seq<int>, keys: set<int>)
    requires Taking(solos, t, i, k, keys) && |k| < t.len && i < |solos| && !InBody(t, solos[i].key)
    ensures Taking(solos[..i] + solos[i + 1..], t, i, k + [solos[i].key], keys)
  {
    var rest := solos[..i] + solos[i + 1..];
    assert forall j :: 0 <= j < |rest| ==> rest[j] == solos[if j < i then j else j + 1];
    assert forall j :: 0 <= j < |solos| ==> Keys(solos)[j] == solos[j].key;
    assert forall j :: 0 <= j < |rest| ==> Keys(rest)[j] == Keys(solos)[if j < i then j else j + 1];
    assert Shaped(solos[i]);
  }

  lemma {:induction false} OutsideFrame(a: seq<Hand>, b: seq<Hand>, t: Hand, i: nat, j: nat)
    requires i <= |a| && j <= |b| && a[i..] == b[j..]
    ensures OutsideCount(a, t, i) == OutsideCount(b, t, j)
    decreases |a| - i
  {
    assert |a[i..]| == |b[j..]|;
    if i < |a| {
      assert a[i] == a[i..][0] == b[j..][0] == b[j];
      assert a[i + 1..] == a[i..][1..] == b[j..][1..] == b[j + 1..];
      OutsideFrame(a, b, t, i + 1, j + 1);
    }
  }

  /** Kickers taken and solos left: ascending, off the body, full if there were enough. */
  lemma {:induction false} TakeOutsideFacts(solos: seq<Hand>, t: Hand, i: nat, k: seq<int>, keys: set<int>)
    requires Taking(solos, t, i, k, keys)
    ensures var (k', rest) := TakeOutside(solos, t, i, k);
      && Taking(rest, t, |rest|, k', keys)
      && (|k| + OutsideCount(solos, t, i) >= t.len ==> |k'| == t.len)
    decreases |solos| - i
  {
    if |k| < t.len && i < |solos| {
      if InBody(t, solos[i].key) {
        TakeOutsideFacts(solos, t, i + 1, k, keys);
      } else {
        var rest := solos[..i] + solos[i + 1..];
        TakeOne(solos, t, i, k, keys);
        assert rest[i..] == solos[i + 1..];
        OutsideFrame(rest, solos, t, i, i + 1);
        TakeOutsideFacts(rest, t, i, k + [solos[i].key], keys);
      }
    }
  }

  ghost predicate BelowOutside(t: Hand, k: seq<int>, rest: seq<Hand>) {
    forall a, j :: 0 <= a < |k| && 0 <= j < |rest| && !InBody(t, rest[j].key) ==> k[a] < rest[j].key
  }

  /** The solos taken are the lowest that lie outside the body: every such solo left is higher. */
  lemma {:induction false} TakeOutsideLowest(solos: seq<Hand>, t: Hand, i: nat, k: seq<int>, keys: set<int>)
    requires Taking(solos, t, i, k, keys)
    requires forall j :: 0 <= j < i ==> InBody(t, solos[j].key)
    ensures var (k', rest) := TakeOutside(solos, t, i, k);
      BelowOutside(t, k', rest)
    decreases |solos| - i
  {
    if |k| < t.len && i < |solos| {
      if InBody(t, solos[i].key) {
        TakeOutsideLowest(solos, t, i + 1, k, keys);
      } else {
        TakeOne(solos, t, i, k, keys);
        TakeOutsideLowest(solos[..i] + solos[i + 1..], t, i, k + [solos[i].key], keys);
      }
    }
  }

  lemma {:induction false} TakeOutsideConserves(solos: seq<Hand>, t: Hand, i: nat, k: seq<int>, r: int)
    requires i <= |solos| && AllShaped(solos, Solo)
    ensures var (k', rest) := TakeOutside(solos, t, i, k);
      multiset(k')[r] + Total(rest, r) == multiset(k)[r] + Total(solos, r)
    decreases |solos| - i
  {
    if |k| < t.len && i < |solos| {
      if InBody(t, solos[i].key) {
        TakeOutsideConserves(solos, t, i + 1, k, r);
      } else {
        TotalErase(solos, i, r);
        SingleAt(solos[i], r);
        TakeOutsideConserves(solos[..i] + solos[i + 1..], t, i, k + [solos[i].key], r);
      }
    }
  }

  // ----- facts about one attachment

  lemma WithSolosConserves(m: HandMap, r: int)
    requires m.trioChain != [] && m.trioChain[0].ty == TrioChain && m.trioChain[0].kicker == []
    requires AllShaped(m.solo, Solo)
    ensures MapTotal(WithSolos(m), r) == MapTotal(m, r)
  {
    var t := m.trioChain[0];
    var (k, rest) := TakeOutside(m.solo, t, 0, []);
    var w := t.(ty := TrioChainSolo, kicker := k);
    TakeOutsideConserves(m.solo, t, 0, [], r);
    TotalConcat(m.trioChainSolo, [w], r);
    assert [w][1..] == [];
    assert multiset(t.kicker)[r] == 0;
  }

  lemma {:induction false} TotalOfPairs(hs: seq<Hand>, r: int)
    requires AllShaped(hs, Pair)
    ensures Total(hs, r) == 2 * multiset(Keys(hs))[r]
    decreases |hs|
  {
    if hs != [] {
      TotalOfPairs(hs[1..], r);
      SingleAt(hs[0], r);
      assert Keys(hs) == [hs[0].key] + Keys(hs[1..]);
    }
  }

  lemma WithPairsConserves(m: HandMap, r: int)
    requires m.trioChain != [] && m.trioChain[0].ty == TrioChain && m.trioChain[0].kicker == []
    requires 0 <= m.trioChain[0].len <= |m.pair| && AllShaped(m.pair, Pair)
    ensures MapTotal(WithPairs(m), r) == MapTotal(m, r)
  {
    hide At;
    var t := m.trioChain[0];
    var taken, rest := m.pair[..t.len], m.pair[t.len..];
    var w := t.(ty := TrioChainPair, kicker := Keys(taken));
    assert m.pair == taken + rest;
    TotalConcat(taken, rest, r);
    TotalConcat(m.trioChainPair, [w], r);
    assert [w][1..] == [];
    PairWing(t, taken, r);
  }

  /** The wings of a trio chain are the pairs they were made of. */
  lemma PairWing(t: Hand, taken: seq<Hand>, r: int)
    requires t.ty == TrioChain && t.kicker == [] && AllShaped(taken, Pair)
    ensures At(t.(ty := TrioChainPair, kicker := Keys(taken)), r) == At(t, r) + Total(taken, r)
  {
    TotalOfPairs(taken, r);
    assert multiset(t.kicker)[r] == 0;
  }

  lemma WithPairKickerConserves(m: HandMap, r: int)
    requires m.trio != [] && m.pair != []
    requires AllShaped(m.trio, Trio) && AllShaped(m.pair, Pair)
    ensures MapTotal(WithPairKicker(m), r) == MapTotal(m, r)
  {
    var t, p := m.trio[0], m.pair[0];
    var w := t.(ty := TrioPair, kicker := [p.key]);
    SingleAt(t, r);
    SingleAt(p, r);
    TotalConcat(m.trioPair, [w], r);
    assert [w][1..] == [];
    assert At(w, r) == At(t, r) + At(p, r);
  }

  lemma WithSoloKickerConserves(m: HandMap, r: int)
    requires m.trio != [] && m.solo != []
    requires AllShaped(m.trio, Trio) && AllShaped(m.solo, Solo)
    ensures MapTotal(WithSoloKicker(m), r) == MapTotal(m, r)
  {
    var t, p := m.trio[0], m.solo[0];
    var w := t.(ty := TrioSolo, kicker := [p.key]);
    SingleAt(t, r);
    SingleAt(p, r);
    TotalConcat(m.trioSolo, [w], r);
    assert [w][1..] == [];
    assert At(w, r) == At(t, r) + At(p, r);
  }

  /** A winged chain that fits into twenty cards has at most five kickers. */
  lemma AtMostFiveKickers(h: Hand, m: HandMap, c: Counts)
    requires h.ty == TrioChainSolo || h.ty == TrioChainPair
    requires Countable(h) && In(h, m) && FitsIn(m, c) && Sum(c) <= 20
    ensures h.len <= 5
  {
    var p: Counts := seq(RANKS, r requires 0 <= r < RANKS => At(h, r));
    forall r | 0 <= r < RANKS
      ensures p[r] <= c[r]
    {
      AtMostMapTotal(h, m, r);
    }
    SumToMonotone(p, c, RANKS);
    HandCountIsSum(h, p);
  }

  lemma KeysTail(hs: seq<Hand>, n: nat)
    requires n <= |hs| && Ascending(Keys(hs))
    ensures Ascending(Keys(hs[n..])) && Ascending(Keys(hs[..n]))
    ensures forall r :: r in Keys(hs[n..]) ==> r in Keys(hs)
    ensures forall r :: r in Keys(hs[..n]) ==> r in Keys(hs)
    ensures forall i, r :: 0 <= i < n && r in Keys(hs[n..]) ==> hs[i].key < r
  {
    assert Keys(hs[n..]) == Keys(hs)[n..];
    assert Keys(hs[..n]) == Keys(hs)[..n];
  }

  /** Moving the first trio chain, with its wings, out of the trio chains keeps the rest in order. */
  lemma MoveChain(m: HandMap, w: Hand)
    requires Attachable(m) && m.trioChain != [] && Shaped(w)
    ensures w.ty == TrioChainSolo ==>
      Attachable(m.(trioChain := m.trioChain[1..], trioChainSolo := m.trioChainSolo + [w]))
    ensures w.ty == TrioChainPair ==>
      Attachable(m.(trioChain := m.trioChain[1..], trioChainPair := m.trioChainPair + [w]))
  {
  }

  lemma WithSolosAttachable(m: HandMap, c: Counts)
    requires Attachable(m) && FitsIn(m, c) && Sum(c) <= 20
    requires m.trioChain != [] && UsefulSolos(m.solo, m.trioChain[0]) >= m.trioChain[0].len
    ensures Attachable(WithSolos(m)) && FitsIn(WithSolos(m), c)
  {
    hide MapTotal;
    var t := m.trioChain[0];
    var keys := set r | r in Keys(m.solo);
    StartTaking(m, t, keys);
    TakeOutsideFacts(m.solo, t, 0, [], keys);
    var (k, rest) := TakeOutside(m.solo, t, 0, []);
    var w := t.(ty := TrioChainSolo, kicker := k);
    var m' := WithSolos(m);
    forall r | 0 <= r < RANKS
      ensures MapTotal(m', r) <= c[r]
    {
      WithSolosConserves(m, r);
    }
    assert w in Of(m', TrioChainSolo);
    AtMostFiveKickers(w, m', c);
    WingShaped(t, w, k, keys);
    SolosLeft(m, rest, keys);
    MoveChain(m.(solo := rest), w);
  }

  lemma StartTaking(m: HandMap, t: Hand, keys: set<int>)
    requires Attachable(m) && 0 <= t.len && keys == set r | r in Keys(m.solo)
    ensures Taking(m.solo, t, 0, [], keys)
  {
    forall j | 0 <= j < |m.solo|
      ensures m.solo[j].key in keys
    {
      KeyMember(m.solo, j);
    }
  }

  lemma WingShaped(t: Hand, w: Hand, k: seq<int>, keys: set<int>)
    requires Shaped(t) && t.ty == TrioChain && t.len <= 5 && |k| == t.len
    requires w == t.(ty := TrioChainSolo, kicker := k)
    requires Ascending(k) && !(BLACK_JOKER in keys && RED_JOKER in keys)
    requires forall a :: 0 <= a < |k| ==> 0 <= k[a] <= RED_JOKER && !InBody(t, k[a]) && k[a] in keys
    ensures Shaped(w)
  {
    assert forall r :: InBody(w, r) <==> InBody(t, r);
  }

  lemma SolosLeft(m: HandMap, rest: seq<Hand>, keys: set<int>)
    requires Attachable(m) && keys == set r | r in Keys(m.solo)
    requires AllShaped(rest, Solo) && Ascending(Keys(rest))
    requires forall j :: 0 <= j < |rest| ==> rest[j].key in keys
    ensures Attachable(m.(solo := rest))
  {
    forall r | r in Keys(rest)
      ensures r in Keys(m.solo)
    {
      var j :| 0 <= j < |rest| && Keys(rest)[j] == r;
    }
  }

  lemma PairsLeft(m: HandMap, n: nat)
    requires Attachable(m) && n <= |m.pair|
    ensures Attachable(m.(pair := m.pair[n..]))
  {
    KeysTail(m.pair, n);
  }

  lemma WithPairsAttachable(m: HandMap, c: Counts)
    requires Attachable(m) && FitsIn(m, c) && Sum(c) <= 20
    requires m.trioChain != [] && 0 <= m.trioChain[0].len <= |m.pair|
    ensures Attachable(WithPairs(m)) && FitsIn(WithPairs(m), c)
  {
    hide MapTotal;
    var t := m.trioChain[0];
    var k := Keys(m.pair[..t.len]);
    var w := t.(ty := TrioChainPair, kicker := k);
    var m' := WithPairs(m);
    forall r | 0 <= r < RANKS
      ensures MapTotal(m', r) <= c[r]
    {
      WithPairsConserves(m, r);
    }
    KeysTail(m.pair, t.len);
    forall a | 0 <= a < |k|
      ensures 0 <= k[a] <= CARD_2 && !InBody(w, k[a])
    {
      assert k[a] == m.pair[a].key;
      KeyMember(m.pair, a);
      assert InBody(w, k[a]) <==> InBody(t, k[a]);
    }
    assert w in Of(m', TrioChainPair);
    AtMostFiveKickers(w, m', c);
    PairsLeft(m, t.len);
    MoveChain(m.(pair := m.pair[t.len..]), w);
  }

  /** Chains: every round of the loop keeps the map attachable, in the counts, and conserved. */
  lemma {:induction false} AttachChainsFacts(m: HandMap, c: Counts)
    requires Attachable(m) && FitsIn(m, c) && Sum(c) <= 20
    ensures Attachable(AttachChains(m)) && FitsIn(AttachChains(m), c)
    ensures forall r :: 0 <= r < RANKS ==> MapTotal(AttachChains(m), r) == MapTotal(m, r)
    decreases |m.trioChain|
  {
    if m.trioChain != [] {
      var t := m.trioChain[0];
      if UsefulSolos(m.solo, t) >= t.len {
        WithSolosAttachable(m, c);
        forall r | 0 <= r < RANKS { WithSolosConserves(m, r); }
        AttachChainsFacts(WithSolos(m), c);
      } else if 0 <= t.len <= |m.pair| {
        WithPairsAttachable(m, c);
        forall r | 0 <= r < RANKS { WithPairsConserves(m, r); }
        AttachChainsFacts(WithPairs(m), c);
      }
    }
  }

  lemma WithKickerAttachable(m: HandMap)
    requires Attachable(m) && m.trio != [] && (m.solo != [] || m.pair != [])
    ensures Attachable(WithKicker(m))
    ensures forall r :: 0 <= r < RANKS ==> MapTotal(WithKicker(m), r) == MapTotal(m, r)
  {
    hide MapTotal, WithPairKicker, WithSoloKicker;
    if PrefersPair(m) {
      WithPairKickerAttachable(m);
      forall r | 0 <= r < RANKS { WithPairKickerConserves(m, r); }
    } else {
      WithSoloKickerAttachable(m);
      forall r | 0 <= r < RANKS { WithSoloKickerConserves(m, r); }
    }
  }

  lemma WithPairKickerAttachable(m: HandMap)
    requires Attachable(m) && m.trio != [] && m.pair != []
    ensures Attachable(WithPairKicker(m))
  {
    var w := m.trio[0].(ty := TrioPair, kicker := [m.pair[0].key]);
    KeyMember(m.pair, 0);
    assert Shaped(w);
    hide Shaped;
    PairsLeft(m, 1);
    MoveTrio(m.(pair := m.pair[1..]), w);
  }

  /** Moving the first trio, with its kicker, out of the trios keeps the rest in order. */
  lemma MoveTrio(m: HandMap, w: Hand)
    requires Attachable(m) && m.trio != [] && Shaped(w)
    ensures w.ty == TrioPair ==> Attachable(m.(trio := m.trio[1..], trioPair := m.trioPair + [w]))
    ensures w.ty == TrioSolo ==> Attachable(m.(trio := m.trio[1..], trioSolo := m.trioSolo + [w]))
  {
    hide Shaped;
  }

  lemma SolosTail(m: HandMap, n: nat)
    requires Attachable(m) && n <= |m.solo|
    ensures Attachable(m.(solo := m.solo[n..]))
  {
    KeysTail(m.solo, n);
  }

  lemma WithSoloKickerAttachable(m: HandMap)
    requires Attachable(m) && m.trio != [] && m.solo != []
    ensures Attachable(WithSoloKicker(m))
  {
    var w := m.trio[0].(ty := TrioSolo, kicker := [m.solo[0].key]);
    KeyMember(m.solo, 0);
    assert Shaped(w);
    hide Shaped;
    SolosTail(m, 1);
    MoveTrio(m.(solo := m.solo[1..]), w);
  }

  /** The kicker a trio gets is the lowest of all solos and pairs still there. */
  lemma KickerIsLowest(m: HandMap)
    requires Attachable(m) && m.trio != [] && (m.solo != [] || m.pair != [])
    ensures var m' := WithKicker(m);
      var w := if PrefersPair(m) then m'.trioPair[|m'.trioPair| - 1] else m'.trioSolo[|m'.trioSolo| - 1];
      && w.key == m.trio[0].key && |w.kicker| == 1
      && (w.kicker[0] in Keys(m.solo) || w.kicker[0] in Keys(m.pair))
      && (forall r :: r in Keys(m.solo) || r in Keys(m.pair) ==> w.kicker[0] <= r)
  {
    if m.pair != [] {
      KeyMember(m.pair, 0);
      FirstKeyLowest(m.pair);
    }
    if m.solo != [] {
      KeyMember(m.solo, 0);
      FirstKeyLowest(m.solo);
    }
  }

  lemma FirstKeyLowest(hs: seq<Hand>)
    requires hs != [] && Ascending(Keys(hs))
    ensures forall r :: r in Keys(hs) ==> hs[0].key <= r
  {
    assert Keys(hs)[0] == hs[0].key;
  }

  lemma {:induction false} AttachTriosFacts(m: HandMap)
    requires Attachable(m)
    ensures Attachable(AttachTrios(m))
    ensures forall r :: 0 <= r < RANKS ==> MapTotal(AttachTrios(m), r) == MapTotal(m, r)
    decreases |m.trio|
  {
    if m.trio != [] && (m.solo != [] || m.pair != []) {
      WithKickerAttachable(m);
      AttachTriosFacts(WithKicker(m));
    }
  }

  /** The search stops at a trio chain only if neither its solos nor its pairs suffice. */
  lemma {:induction false} AttachChainsStops(m: HandMap)
    requires AllShaped(m.trioChain, TrioChain)
    ensures var m' := AttachChains(m);
      m'.trioChain == []
      || (UsefulSolos(m'.solo, m'.trioChain[0]) < m'.trioChain[0].len && |m'.pair| < m'.trioChain[0].len)
    decreases |m.trioChain|
  {
    if m.trioChain != [] {
      if UsefulSolos(m.solo, m.trioChain[0]) >= m.trioChain[0].len {
        AttachChainsStops(WithSolos(m));
      } else if 0 <= m.trioChain[0].len <= |m.pair| {
        AttachChainsStops(WithPairs(m));
      }
    }
  }

  // ----- which kickers a chain gets

  /** The solos off the body of a chain. */
  function OutsideSolos(m: HandMap, t: Hand): set<int> {
    OutsideOf(Keys(m.solo), t)
  }

  function OutsideOf(keys: seq<int>, t: Hand): set<int> {
    set r | r in keys && !InBody(t, r)
  }

  lemma OutsideOfMore(key: int, keys: seq<int>, t: Hand)
    requires key !in keys
    ensures |OutsideOf([key] + keys, t)| == |OutsideOf(keys, t)| + if InBody(t, key) then 0 else 1
  {
    assert OutsideOf([key] + keys, t) == OutsideOf(keys, t) + if InBody(t, key) then {} else {key};
  }

  lemma {:induction false} OutsideCountIs(solos: seq<Hand>, t: Hand, i: nat)
    requires i <= |solos| && Ascending(Keys(solos))
    ensures OutsideCount(solos, t, i) == |OutsideOf(Keys(solos)[i..], t)|
    decreases |solos| - i
  {
    hide OutsideOf;
    var keys := Keys(solos);
    if i < |solos| {
      OutsideCountIs(solos, t, i + 1);
      assert keys[i..] == [keys[i]] + keys[i + 1..];
      OutsideOfMore(keys[i], keys[i + 1..], t);
    } else {
      assert keys[i..] == [];
      NoneOutside(t);
    }
  }

  lemma NoneOutside(t: Hand)
    ensures OutsideOf([], t) == {}
  {
  }

  lemma {:induction false} OneJoker(solos: seq<Hand>, i: nat)
    requires i <= |solos| && Ascending(Keys(solos))
    requires !(BLACK_JOKER in Keys(solos) && RED_JOKER in Keys(solos))
    ensures JokerCount(solos, i) <= 1
    ensures JokerCount(solos, i) == 1 ==> exists j :: i <= j < |solos| && IsJoker(Keys(solos)[j])
    decreases |solos| - i
  {
    if i < |solos| {
      OneJoker(solos, i + 1);
      assert Keys(solos)[i] == solos[i].key;
    }
  }

  /** The solos counted as useful are those off the body. */
  lemma UsefulAreOutside(m: HandMap, t: Hand)
    requires Attachable(m)
    ensures UsefulSolos(m.solo, t) == |OutsideSolos(m, t)|
  {
    OutsideCountIs(m.solo, t, 0);
    OneJoker(m.solo, 0);
    assert Keys(m.solo)[0..] == Keys(m.solo);
  }

  lemma {:induction false} TakeOutsideKeeps(solos: seq<Hand>, t: Hand, i: nat, k: seq<int>, r: int)
    requires i <= |solos| && (r in Keys(solos) || r in k)
    ensures var (k', rest) := TakeOutside(solos, t, i, k);
      r in k' || r in Keys(rest)
    decreases |solos| - i
  {
    if |k| < t.len && i < |solos| {
      if InBody(t, solos[i].key) {
        TakeOutsideKeeps(solos, t, i + 1, k, r);
      } else {
        var rest := solos[..i] + solos[i + 1..];
        if r in Keys(solos) && r != solos[i].key {
          var j :| 0 <= j < |solos| && Keys(solos)[j] == r;
          assert rest[if j < i then j else j - 1].key == r;
          KeyMember(rest, if j < i then j else j - 1);
        }
        TakeOutsideKeeps(rest, t, i, k + [solos[i].key], r);
      }
    }
  }

  /** Wings of the lowest solos off the body, as many as the chain is long. */
  ghost predicate IsSoloWing(m: HandMap, t: Hand, w: Hand) {
    && w == t.(ty := TrioChainSolo, kicker := w.kicker) && |w.kicker| == t.len && Ascending(w.kicker)
    && (forall r :: r in w.kicker ==> r in OutsideSolos(m, t))
    && (forall r :: r in OutsideSolos(m, t) && r !in w.kicker ==> forall a :: 0 <= a < |w.kicker| ==> w.kicker[a] < r)
  }

  lemma SoloWing(m: HandMap)
    requires Attachable(m) && m.trioChain != [] && UsefulSolos(m.solo, m.trioChain[0]) >= m.trioChain[0].len
    ensures var n := |m.trioChainSolo|;
      |WithSolos(m).trioChainSolo| == n + 1 && IsSoloWing(m, m.trioChain[0], WithSolos(m).trioChainSolo[n])
  {
    hide UsefulSolos, TakeOutside;
    var t := m.trioChain[0];
    var keys := set r | r in Keys(m.solo);
    StartTaking(m, t, keys);
    EnoughOutside(m, t);
    TakeOutsideFacts(m.solo, t, 0, [], keys);
    TakeOutsideLowest(m.solo, t, 0, [], keys);
    var (k, rest) := TakeOutside(m.solo, t, 0, []);
    forall r | r in OutsideSolos(m, t) && r !in k
      ensures forall a :: 0 <= a < |k| ==> k[a] < r
    {
      TakeOutsideKeeps(m.solo, t, 0, [], r);
      var j :| 0 <= j < |rest| && Keys(rest)[j] == r;
    }
  }

  lemma EnoughOutside(m: HandMap, t: Hand)
    requires UsefulSolos(m.solo, t) >= t.len
    ensures OutsideCount(m.solo, t, 0) >= t.len
  {
  }

  lemma {:induction false} AttachChainsExtends(m: HandMap)
    ensures var m' := AttachChains(m);
      m.trioChainSolo <= m'.trioChainSolo && m.trioChainPair <= m'.trioChainPair
    decreases |m.trioChain|
  {
    if m.trioChain != [] {
      if UsefulSolos(m.solo, m.trioChain[0]) >= m.trioChain[0].len {
        AttachChainsExtends(WithSolos(m));
      } else if 0 <= m.trioChain[0].len <= |m.pair| {
        AttachChainsExtends(WithPairs(m));
      }
    }
  }

  /**
    A trio chain takes solos before pairs, and the lowest of either: the lowest solos off its body if
    there are enough, else the lowest pairs if there are enough; else it and all chains after it stay bare.
   */
  lemma ChainKickers(m: HandMap)
    requires Attachable(m) && m.trioChain != []
    ensures var m', t := AttachChains(m), m.trioChain[0];
      if |OutsideSolos(m, t)| >= t.len then
        && |m.trioChainSolo| < |m'.trioChainSolo|
        && IsSoloWing(m, t, m'.trioChainSolo[|m.trioChainSolo|])
      else if |m.pair| >= t.len then
        && |m.trioChainPair| < |m'.trioChainPair|
        && m'.trioChainPair[|m.trioChainPair|] == t.(ty := TrioChainPair, kicker := Keys(m.pair)[..t.len])
        && Ascending(Keys(m.pair))
      else m' == m
  {
    hide TakeOutside, IsSoloWing, UsefulSolos, OutsideSolos;
    var t := m.trioChain[0];
    UsefulAreOutside(m, t);
    assert Shaped(t);
    if UsefulSolos(m.solo, t) >= t.len {
      SoloWing(m);
      AttachChainsExtends(WithSolos(m));
    } else if 0 <= t.len <= |m.pair| {
      AttachChainsExtends(WithPairs(m));
      assert Keys(m.pair[..t.len]) == Keys(m.pair)[..t.len];
    }
  }

  lemma {:induction false} AttachTriosExtends(m: HandMap)
    ensures var m' := AttachTrios(m);
      m.trioSolo <= m'.trioSolo && m.trioPair <= m'.trioPair
    decreases |m.trio|
  {
    if m.trio != [] && (m.solo != [] || m.pair != []) {
      AttachTriosExtends(WithKicker(m));
    }
  }

  /** Key `r` is the lowest of all solos and pairs. */
  ghost predicate IsLowestKey(m: HandMap, r: int) {
    (r in Keys(m.solo) || r in Keys(m.pair)) && forall x :: x in Keys(m.solo) || x in Keys(m.pair) ==> r <= x
  }

  /** The first trio takes the lowest of all solos and pairs, the solo if there are both of that rank. */
  lemma TrioKickers(m: HandMap, r: int)
    requires Attachable(m) && m.trio != [] && IsLowestKey(m, r)
    ensures var m', t := AttachTrios(m), m.trio[0];
      if r in Keys(m.solo) then
        |m.trioSolo| < |m'.trioSolo| && m'.trioSolo[|m.trioSolo|] == t.(ty := TrioSolo, kicker := [r])
      else
        |m.trioPair| < |m'.trioPair| && m'.trioPair[|m.trioPair|] == t.(ty := TrioPair, kicker := [r])
  {
    hide IsLowestKey, PrefersPair, Attachable, Keys;
    LowestIsFirst(m, r);
    var next := WithKicker(m);
    NextKicker(m, next);
    AttachTriosExtends(next);
  }

  lemma NextKicker(m: HandMap, next: HandMap)
    requires m.trio != [] && (m.solo != [] || m.pair != []) && next == WithKicker(m)
    ensures AttachTrios(m) == AttachTrios(next)
  {
  }

  lemma LowestIsFirst(m: HandMap, r: int)
    requires Attachable(m) && IsLowestKey(m, r)
    ensures if r in Keys(m.solo) then m.solo != [] && m.solo[0].key == r && !PrefersPair(m)
      else m.pair != [] && m.pair[0].key == r && PrefersPair(m)
  {
    if m.solo != [] {
      FirstKeyLowest(m.solo);
      KeyMember(m.solo, 0);
    }
    if m.pair != [] {
      FirstKeyLowest(m.pair);
      KeyMember(m.pair, 0);
    }
  }

  /** Chains get their kickers before trios do: giving those to trios leaves the chains as they are. */
  lemma ChainsBeforeTrios(m: HandMap)
    ensures var a, c := Attach(m), AttachChains(m);
      && a.trioChain == c.trioChain && a.trioChainSolo == c.trioChainSolo && a.trioChainPair == c.trioChainPair
  {
    TriosLeaveChains(AttachChains(m));
  }

  lemma {:induction false} TriosLeaveChains(m: HandMap)
    ensures var a := AttachTrios(m);
      && a.trioChain == m.trioChain && a.trioChainSolo == m.trioChainSolo && a.trioChainPair == m.trioChainPair
    decreases |m.trio|
  {
    if m.trio != [] && (m.solo != [] || m.pair != []) {
      TriosLeaveChains(WithKicker(m));
    }
  }

  /** Attaching kickers moves cards between hands and nothing else, and only makes shaped hands. */
  lemma AttachFacts(m: HandMap, c: Counts)
    requires Attachable(m) && FitsIn(m, c) && Sum(c) <= 20
    ensures MapShaped(Attach(m))
    ensures forall r :: 0 <= r < RANKS ==> MapTotal(Attach(m), r) == MapTotal(m, r)
    ensures Attach(m).soloChain == m.soloChain && Attach(m).pairChain == m.pairChain && Attach(m).bomb == m.bomb
    ensures Attach(m).trio == [] || (Attach(m).solo == [] && Attach(m).pair == [])
  {
    AttachChainsFacts(m, c);
    AttachTriosFacts(AttachChains(m));
    AttachFrame(m);
  }

  lemma AttachFrame(m: HandMap)
    ensures Attach(m).soloChain == m.soloChain && Attach(m).pairChain == m.pairChain && Attach(m).bomb == m.bomb
  {
    AttachChainsFrame(m);
    AttachTriosFrame(AttachChains(m));
  }

  lemma {:induction false} AttachChainsFrame(m: HandMap)
    ensures var m' := AttachChains(m);
      m'.soloChain == m.soloChain && m'.pairChain == m.pairChain && m'.bomb == m.bomb
    decreases |m.trioChain|
  {
    if m.trioChain != [] {
      if UsefulSolos(m.solo, m.trioChain[0]) >= m.trioChain[0].len {
        AttachChainsFrame(WithSolos(m));
      } else if 0 <= m.trioChain[0].len <= |m.pair| {
        AttachChainsFrame(WithPairs(m));
      }
    }
  }

  lemma {:induction false} AttachTriosFrame(m: HandMap)
    ensures var m' := AttachTrios(m);
      m'.soloChain == m.soloChain && m'.pairChain == m.pairChain && m'.bomb == m.bomb
    decreases |m.trio|
  {
    if m.trio != [] && (m.solo != [] || m.pair != []) {
      AttachTriosFrame(WithKicker(m));
    }
  }
}
