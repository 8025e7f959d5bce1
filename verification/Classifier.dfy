/**
  From rank counts to a hand (`getHand`), and the proof that it inverts the printer.

  Like the source, the classifier does not look for gaps in solo and pair chains.
 */
module Classifier {
  import opened Cards
  import opened Hands
  import opened Ranks
  import opened Printer

  /** The bucket array has four rows, so no entry may exceed four. */
  ghost predicate Bucketable(c: Counts) {
    forall r :: 0 <= r < RANKS ==> 0 <= c[r] <= 4
  }

  function Bucket(c: Counts, k: int): seq<int> {
    RanksWith(c, k, CARD_3, RED_JOKER)
  }

  function IsRun(s: seq<int>): bool {
    s != [] && s[|s| - 1] - s[0] == |s| - 1
  }

  /** The decision tree over the ranks held once, twice, three times and four times. */
  function Classify(s1: seq<int>, s2: seq<int>, s3: seq<int>, s4: seq<int>): Hand {
    if |s4| == 0 then
      if |s3| >= 2 && s3[|s3| - 1] <= CARD_A && IsRun(s3) then
        if |s1| == 0 && |s2| == 0 then Hand(TrioChain, s3[0], |s3|, [])
        else if |s1| == |s3| && |s2| == 0 then Hand(TrioChainSolo, s3[0], |s3|, s1)
        else if |s2| == |s3| && |s1| == 0 then Hand(TrioChainPair, s3[0], |s3|, s2)
        else NOTHING
      else if |s3| == 0 && |s1| == 0 && |s2| >= 3 && s2[|s2| - 1] <= CARD_A then
        Hand(PairChain, s2[0], |s2|, [])
      else if |s3| == 0 && |s2| == 0 && |s1| >= 5 && s1[|s1| - 1] <= CARD_A then
        Hand(SoloChain, s1[0], |s1|, [])
      else if |s3| == 1 then
        if |s2| == 0 && |s1| == 0 then Hand(Trio, s3[0], 0, [])
        else if |s2| == 1 && |s1| == 0 then Hand(TrioPair, s3[0], 0, s2)
        else if |s2| == 0 && |s1| == 1 then Hand(TrioSolo, s3[0], 0, s1)
        else NOTHING
      else if |s3| == 0 && |s2| == 1 && |s1| == 0 then Hand(Pair, s2[0], 0, [])
      else if |s3| == 0 && |s2| == 0 && |s1| == 1 then Hand(Solo, s1[0], 0, [])
      else NOTHING
    else if |s4| == 1 then
      if |s3| == 0 && |s2| == 0 && |s1| == 0 then Hand(Bomb, s4[0], 0, [])
      else if |s3| == 0 && |s2| == 2 && |s1| == 0 then Hand(FourDualPair, s4[0], 0, s2)
      else if |s3| == 0 && |s2| == 0 && |s1| == 2 then Hand(FourDualSolo, s4[0], 0, s1)
      else NOTHING
    else NOTHING
  }

  function GetHand(c: Counts): Hand {
    if c[BLACK_JOKER] == 1 && c[RED_JOKER] == 1 then
      if Sum(c) == 2 then Hand(Nuke, BLACK_JOKER, 0, []) else NOTHING
    else Classify(Bucket(c, 1), Bucket(c, 2), Bucket(c, 3), Bucket(c, 4))
  }

  /** Push each rank on the row of its count. */
  method FillBuckets(points: array<int>) returns (sorted: seq<seq<int>>)
    requires points.Length == RANKS && Bucketable(points[..])
    ensures |sorted| == 4
    ensures forall k :: 0 <= k < 4 ==> sorted[k] == Bucket(points[..], k + 1)
  {
    ghost var c := points[..];
    sorted := [[], [], [], []];
    for i := 0 to RANKS
      invariant |sorted| == 4
      invariant forall k :: 0 <= k < 4 ==> sorted[k] == RanksWith(c, k + 1, CARD_3, i - 1)
    {
      forall k | 0 <= k < 4
        ensures RanksWith(c, k + 1, CARD_3, i) == sorted[k] + (if c[i] == k + 1 then [i] else [])
      {
        RanksWithSnoc(c, k + 1, CARD_3, i);
      }
      if points[i] > 0 {
        var k := points[i] - 1;
        sorted := sorted[k := sorted[k] + [i]];
      }
    }
  }

  method SumOf(points: array<int>) returns (sum: int)
    ensures sum == Sum(points[..])
  {
    sum := 0;
    for i := 0 to points.Length
      invariant sum == SumTo(points[..], i)
    {
      sum := sum + points[i];
    }
  }

  /** The classifier as the source runs it: fill four buckets rank by rank, then decide. */
  method ComputeHand(points: array<int>) returns (hand: Hand)
    requires points.Length == RANKS && Bucketable(points[..])
    ensures hand == GetHand(points[..])
  {
    hand := NOTHING;
    if points[BLACK_JOKER] == 1 && points[RED_JOKER] == 1 {
      var sum := SumOf(points);
      if sum == 2 {
        hand := Hand(Nuke, BLACK_JOKER, 0, []);
      }
    } else {
      var sorted := FillBuckets(points);
      hand := Classify(sorted[0], sorted[1], sorted[2], sorted[3]);
    }
  }

  // ----- the classifier undoes the printer

  /** What the bucket of count `k` holds when hand `h` is printed. */
  ghost function ExpectedBucket(h: Hand, k: int): seq<int>
    requires Shaped(h)
  {
    if k == BodyMult(h.ty) then Consecutive(h.key, Span(h))
    else if k == KickMult(h.ty) then h.kicker
    else []
  }

  /** The four buckets of a printed hand: its body, its kickers, and nothing else. */
  lemma BucketsOfPrint(h: Hand, k: int)
    requires Shaped(h) && h.ty != Nuke && 1 <= k <= 4
    ensures Printable(h)
    ensures Bucket(Print(h), k) == ExpectedBucket(h, k)
  {
    PrintIsAt(h);
    ConsecutiveMembers(h.key, Span(h));
    forall r
      ensures r in Bucket(Print(h), k) <==> r in ExpectedBucket(h, k)
    {
      AscendingDistinct(h.kicker, r);
      if KickMult(h.ty) > 0 && r in h.kicker {
        assert 0 <= r < RANKS && !InBody(h, r);
      }
    }
    AscendingUnique(Bucket(Print(h), k), ExpectedBucket(h, k));
  }

  /** The decision tree gives a hand back from its body and its kickers. */
  lemma ClassifyExpected(h: Hand)
    requires WellFormed(h) && h.ty != Nuke
    ensures Classify(ExpectedBucket(h, 1), ExpectedBucket(h, 2), ExpectedBucket(h, 3), ExpectedBucket(h, 4)) == h
  {
    var body := Consecutive(h.key, Span(h));
    assert |body| == Span(h) && body[0] == h.key && body[|body| - 1] == h.key + Span(h) - 1;
  }

  /** Classifying a printed hand gives the hand back: type, key, length and kickers. */
  lemma GetHandUndoesPrint(h: Hand)
    requires WellFormed(h)
    ensures Printable(h)
    ensures GetHand(Print(h)) == h
  {
    PrintIsAt(h);
    if h.ty == Nuke {
      PrintedSum(h);
    } else {
      BucketsOfPrint(h, 1);
      BucketsOfPrint(h, 2);
      BucketsOfPrint(h, 3);
      BucketsOfPrint(h, 4);
      JokersApart(h);
      ClassifyExpected(h);
    }
  }

  lemma JokersApart(h: Hand)
    requires Shaped(h) && h.ty != Nuke
    ensures Printable(h)
    ensures !(Print(h)[BLACK_JOKER] == 1 && Print(h)[RED_JOKER] == 1)
  {
    PrintIsAt(h);
    AscendingDistinct(h.kicker, BLACK_JOKER);
    AscendingDistinct(h.kicker, RED_JOKER);
  }

  /** A solo chain of fewer than five cards is never recognised as a chain. */
  lemma ShortSoloChainIsLost(h: Hand)
    requires Shaped(h) && h.ty == SoloChain && h.len < 5
    ensures Printable(h)
    ensures GetHand(Print(h)).ty != SoloChain
    ensures 2 <= h.len ==> GetHand(Print(h)) == NOTHING
  {
    BucketsOfPrint(h, 1);
    BucketsOfPrint(h, 2);
    BucketsOfPrint(h, 3);
    BucketsOfPrint(h, 4);
    JokersApart(h);
  }

  // ----- the printer undoes the classifier

  /** Solo and pair chains are reported without looking for gaps. */
  predicate GapBlind(ty: HandType) {
    ty == SoloChain || ty == PairChain
  }

  /** `s` lists, ascending, the ranks of `c` that hold exactly `k` cards. */
  ghost predicate Lists(c: Counts, k: int, s: seq<int>) {
    Ascending(s) && forall r :: r in s <==> 0 <= r < RANKS && c[r] == k
  }

  /** The ranks the body of the classified hand was read from. */
  function BodyRanks(c: Counts): seq<int> {
    Bucket(c, BodyMult(GetHand(c).ty))
  }

  /** A run is the list of consecutive ranks it spans. */
  lemma RunIsConsecutive(s: seq<int>)
    requires Ascending(s) && IsRun(s)
    ensures s == Consecutive(s[0], |s|)
  {
    forall i | 0 <= i < |s|
      ensures s[i] == s[0] + i
    {
      NoGaps(s, i);
    }
  }

  /** The counts of a classified hand are its body and its kickers and nothing else. */
  lemma BodyAndKickers(c: Counts, h: Hand, body: seq<int>, r: int)
    requires Lists(c, BodyMult(h.ty), body) && Span(h) >= 0 && body == Consecutive(h.key, Span(h))
    requires if KickMult(h.ty) > 0 then Lists(c, KickMult(h.ty), h.kicker) else h.kicker == []
    requires h.ty != Nothing && BodyMult(h.ty) != KickMult(h.ty)
    requires 0 <= r < RANKS && c[r] in {0, BodyMult(h.ty), KickMult(h.ty)}
    ensures c[r] == At(h, r)
  {
    ConsecutiveMembers(h.key, Span(h));
    AscendingDistinct(h.kicker, r);
  }

  /** A kicker of a classified hand is off the body, because it has another count. */
  lemma KickersOffBody(c: Counts, h: Hand, body: seq<int>)
    requires Lists(c, BodyMult(h.ty), body) && Span(h) >= 0 && body == Consecutive(h.key, Span(h))
    requires KickMult(h.ty) > 0 && Lists(c, KickMult(h.ty), h.kicker)
    requires BodyMult(h.ty) != KickMult(h.ty)
    ensures forall i :: 0 <= i < |h.kicker| ==>
      0 <= h.kicker[i] < RANKS && !InBody(h, h.kicker[i]) && c[h.kicker[i]] == KickMult(h.ty)
  {
    ConsecutiveMembers(h.key, Span(h));
    forall i | 0 <= i < |h.kicker|
      ensures 0 <= h.kicker[i] < RANKS && !InBody(h, h.kicker[i]) && c[h.kicker[i]] == KickMult(h.ty)
    {
      assert h.kicker[i] in h.kicker;
    }
  }

  /**
    Which buckets a recognised hand is read from: one for the body, one for the kickers, no other;
    chains end at the ace and are long enough.
   */
  ghost predicate ReadFrom(h: Hand, s: seq<seq<int>>) {
    && |s| == 5 && s[0] == []
    && h.ty != Nothing && h.ty != Nuke
    && s[BodyMult(h.ty)] != []
    && h.key == s[BodyMult(h.ty)][0]
    && Span(h) == |s[BodyMult(h.ty)]|
    && h.kicker == s[KickMult(h.ty)]
    && |h.kicker| == KickerSlots(h)
    && (GapBlind(h.ty) || IsRun(s[BodyMult(h.ty)]))
    && (forall k :: 1 <= k <= 4 && k != BodyMult(h.ty) && k != KickMult(h.ty) ==> s[k] == [])
    && (if IsChain(h.ty) then s[BodyMult(h.ty)][|s[BodyMult(h.ty)]| - 1] <= CARD_A else h.len == 0)
    && (IsChain(h.ty) ==> h.len >= if h.ty == SoloChain then 5 else if h.ty == PairChain then 3 else 2)
  }

  lemma ClassifyStructure(s: seq<seq<int>>)
    requires |s| == 5 && s[0] == []
    requires Classify(s[1], s[2], s[3], s[4]).ty != Nothing
    ensures ReadFrom(Classify(s[1], s[2], s[3], s[4]), s)
  {
  }

  /** With no gap in the body, a hand read from the buckets has exactly these counts. */
  lemma ReadBackCounts(c: Counts, s: seq<seq<int>>, h: Hand)
    requires Legal(c) && ReadFrom(h, s)
    requires forall k :: 1 <= k <= 4 ==> Lists(c, k, s[k])
    requires IsRun(s[BodyMult(h.ty)])
    ensures forall r :: 0 <= r < RANKS ==> c[r] == At(h, r)
    ensures s[BodyMult(h.ty)] == Consecutive(h.key, Span(h))
  {
    var body := s[BodyMult(h.ty)];
    RunIsConsecutive(body);
    forall r | 0 <= r < RANKS
      ensures c[r] == At(h, r)
    {
      assert c[r] > 0 ==> r in s[c[r]];
      BodyAndKickers(c, h, body, r);
    }
  }

  /** Such a hand is well formed. */
  lemma ReadBackWellFormed(c: Counts, s: seq<seq<int>>, h: Hand)
    requires Legal(c) && !(c[BLACK_JOKER] == 1 && c[RED_JOKER] == 1)
    requires ReadFrom(h, s)
    requires forall k :: 1 <= k <= 4 ==> Lists(c, k, s[k])
    requires s[BodyMult(h.ty)] == Consecutive(h.key, Span(h))
    requires forall r :: 0 <= r < RANKS ==> c[r] == At(h, r)
    ensures WellFormed(h)
  {
    var body := s[BodyMult(h.ty)];
    assert body[0] in body && body[|body| - 1] in body;
    assert 0 <= h.key && c[h.key] == BodyMult(h.ty);
    if KickMult(h.ty) > 0 {
      KickersOffBody(c, h, body);
      assert Lists(c, KickMult(h.ty), h.kicker);
      HandCountIsSum(h, c);
      WingedWellFormed(c, h);
    }
  }

  lemma WingedWellFormed(c: Counts, h: Hand)
    requires Legal(c) && !(c[BLACK_JOKER] == 1 && c[RED_JOKER] == 1)
    requires KickMult(h.ty) > 0 && Ascending(h.kicker) && |h.kicker| == KickerSlots(h)
    requires 0 <= h.key && h.key + Span(h) - 1 <= if IsChain(h.ty) then CARD_A else CARD_2
    requires if IsChain(h.ty) then 2 <= h.len else h.len == 0
    requires Sum(c) == GetHandCount(h)
    requires forall i :: 0 <= i < |h.kicker| ==>
      0 <= h.kicker[i] < RANKS && !InBody(h, h.kicker[i]) && c[h.kicker[i]] == KickMult(h.ty)
    ensures WellFormed(h)
  {
  }

  /** Whatever is recognised, gaps included, reports as many cards as there are. */
  lemma ClassifyCounts(c: Counts, s1: seq<int>, s2: seq<int>, s3: seq<int>, s4: seq<int>)
    requires Legal(c) && !(c[BLACK_JOKER] == 1 && c[RED_JOKER] == 1)
    requires Lists(c, 1, s1) && Lists(c, 2, s2) && Lists(c, 3, s3) && Lists(c, 4, s4)
    requires GapBlind(Classify(s1, s2, s3, s4).ty)
    ensures Sum(c) == GetHandCount(Classify(s1, s2, s3, s4))
  {
    var h := Classify(s1, s2, s3, s4);
    var (m, s) := if h.ty == SoloChain then (1, s1) else (2, s2);
    forall i | 0 <= i < |s|
      ensures 0 <= s[i] < RANKS
    {
      assert s[i] in s;
    }
    forall r | 0 <= r < RANKS
      ensures c[r] == m * multiset(s)[r]
    {
      AscendingDistinct(s, r);
      assert c[r] in {0, 1, 2, 3, 4};
    }
    SumOfKickers(c, s, m);
  }

  lemma BucketsList(c: Counts)
    ensures Lists(c, 1, Bucket(c, 1)) && Lists(c, 2, Bucket(c, 2))
    ensures Lists(c, 3, Bucket(c, 3)) && Lists(c, 4, Bucket(c, 4))
  {
  }

  lemma NukeReadsBack(c: Counts)
    requires Legal(c) && c[BLACK_JOKER] == 1 && c[RED_JOKER] == 1 && Sum(c) == 2
    ensures forall r :: 0 <= r < RANKS ==> c[r] == At(GetHand(c), r)
  {
    SumUnrolled(c);
  }

  /** Recognised counts are read from their buckets. */
  lemma GetHandReads(c: Counts) returns (s: seq<seq<int>>)
    requires GetHand(c).ty != Nothing && GetHand(c).ty != Nuke
    ensures s == [[], Bucket(c, 1), Bucket(c, 2), Bucket(c, 3), Bucket(c, 4)]
    ensures !(c[BLACK_JOKER] == 1 && c[RED_JOKER] == 1)
    ensures ReadFrom(GetHand(c), s)
    ensures forall k :: 1 <= k <= 4 ==> Lists(c, k, s[k])
  {
    s := [[], Bucket(c, 1), Bucket(c, 2), Bucket(c, 3), Bucket(c, 4)];
    BucketsList(c);
    ClassifyStructure(s);
  }

  /** Read without a gap: the classified hand prints the very counts it was read from. */
  lemma RunReadsBack(c: Counts)
    requires Legal(c) && GetHand(c).ty != Nothing && GetHand(c).ty != Nuke
    requires IsRun(BodyRanks(c))
    ensures WellFormed(GetHand(c)) && Printable(GetHand(c))
    ensures Print(GetHand(c)) == c
  {
    var s := GetHandReads(c);
    hide GetHand;
    ReadBackCounts(c, s, GetHand(c));
    ReadBackWellFormed(c, s, GetHand(c));
    PrintIsAt(GetHand(c));
  }

  /**
    Every legal count array that is recognised at all is the print of the hand it is recognised
    as - except that a solo or pair chain with gaps is recognised and is not.
   */
  lemma PrintUndoesGetHand(c: Counts)
    requires Legal(c) && GetHand(c).ty != Nothing
    ensures Sum(c) == GetHandCount(GetHand(c))
    ensures Printable(GetHand(c))
    ensures Print(GetHand(c)) == c <==> (GapBlind(GetHand(c).ty) ==> IsRun(BodyRanks(c)))
    ensures Print(GetHand(c)) == c ==> WellFormed(GetHand(c))
  {
    if GetHand(c).ty == Nuke {
      NukeReadsBack(c);
      PrintIsAt(GetHand(c));
    } else {
      var s := GetHandReads(c);
      if GapBlind(GetHand(c).ty) {
        ClassifyCounts(c, Bucket(c, 1), Bucket(c, 2), Bucket(c, 3), Bucket(c, 4));
        GapsNotPrinted(c);
      }
      if IsRun(BodyRanks(c)) {
        RunReadsBack(c);
        PrintedSum(GetHand(c));
      }
    }
  }

  /** Where a solo or pair chain is read from. */
  lemma GapBlindBody(c: Counts)
    requires GapBlind(GetHand(c).ty)
    ensures var (h, s) := (GetHand(c), BodyRanks(c));
      && s != [] && h.key == s[0] && h.len == |s| && s[|s| - 1] <= CARD_A
      && Lists(c, BodyMult(h.ty), s)
  {
    hide GetHand, Bucket;
    var s := GetHandReads(c);
    assert s[BodyMult(GetHand(c).ty)] == BodyRanks(c);
  }

  /** A chain read over a gap prints ranks that were never there. */
  lemma GapsNotPrinted(c: Counts)
    requires Legal(c) && GapBlind(GetHand(c).ty)
    ensures Printable(GetHand(c))
    ensures Print(GetHand(c)) == c ==> IsRun(BodyRanks(c))
  {
    GapBlindBody(c);
    hide GetHand, BodyRanks;
    var h := GetHand(c);
    var s := BodyRanks(c);
    AtMostIndex(s, 0);
    assert s[0] in s && s[|s| - 1] in s;
    PlainChainPrint(h, h.len, s[|s| - 1]);
  }

  /** At least `n` ranks of 3..A hold `k` cards each, and no other rank holds any. */
  ghost predicate Evenly(c: Counts, k: int, n: int) {
    (forall r :: 0 <= r < RANKS ==> c[r] == 0 || (c[r] == k && r <= CARD_A)) && Sum(c) >= k * n
  }

  lemma EvenBuckets(c: Counts, k: int, n: int)
    requires (k == 1 && n == 5) || (k == 2 && n == 3)
    requires Evenly(c, k, n)
    ensures forall j :: 1 <= j <= 4 && j != k ==> Bucket(c, j) == []
    ensures var s := Bucket(c, k);
      && |s| >= n && Sum(c) == k * |s| && s[|s| - 1] <= CARD_A
      && 0 <= s[0] < RANKS && c[s[0]] == k && forall r :: 0 <= r < s[0] ==> c[r] == 0
  {
    forall j | 1 <= j <= 4 && j != k
      ensures Bucket(c, j) == []
    {
      BucketIs(c, j, []);
    }
    BucketsList(c);
    hide Bucket, Sum;
    var s := Bucket(c, k);
    forall i | 0 <= i < |s|
      ensures 0 <= s[i] < RANKS && c[s[i]] == k && s[i] <= CARD_A
    {
      assert s[i] in s;
    }
    forall r | 0 <= r < RANKS
      ensures c[r] == k * multiset(s)[r]
    {
      AscendingDistinct(s, r);
    }
    SumOfKickers(c, s, k);
    assert |s| >= n;
    forall r | 0 <= r < s[0]
      ensures c[r] == 0
    {
      FirstIsLeast(s, r);
    }
  }

  lemma FirstIsLeast(s: seq<int>, r: int)
    requires Ascending(s)
    ensures r in s ==> s[0] <= r
  {
  }

  lemma NoJokers(c: Counts, k: int, n: int)
    requires Evenly(c, k, n)
    ensures !(c[BLACK_JOKER] == 1 && c[RED_JOKER] == 1)
  {
  }

  /** Single ranks up to the ace, five or more, are a solo chain, and pairs, three or more, a pair chain. */
  lemma EvenlyIsChain(c: Counts)
    requires Evenly(c, 1, 5) || Evenly(c, 2, 3)
    ensures var (k, ty) := if Evenly(c, 1, 5) then (1, SoloChain) else (2, PairChain);
      var h := GetHand(c);
      && h.ty == ty && k * h.len == Sum(c) && h.kicker == []
      && 0 <= h.key < RANKS && c[h.key] == k && forall r :: 0 <= r < h.key ==> c[r] == 0
  {
    hide Bucket, Sum, Evenly;
    if Evenly(c, 1, 5) {
      EvenBuckets(c, 1, 5);
      NoJokers(c, 1, 5);
      FirstInRange(c, 1);
    } else {
      EvenBuckets(c, 2, 3);
      NoJokers(c, 2, 3);
      FirstInRange(c, 2);
    }
  }

  lemma FirstInRange(c: Counts, k: int)
    requires Bucket(c, k) != []
    ensures 0 <= Bucket(c, k)[0] < RANKS
  {
    assert Bucket(c, k)[0] in Bucket(c, k);
  }

  /** A hand read as a solo or pair chain holds single ranks, or pairs, alone. */
  lemma ReadEvenly(c: Counts)
    requires Legal(c) && GapBlind(GetHand(c).ty)
    ensures Evenly(c, 1, 5) || Evenly(c, 2, 3)
  {
    var s := GetHandReads(c);
    ClassifyCounts(c, Bucket(c, 1), Bucket(c, 2), Bucket(c, 3), Bucket(c, 4));
    hide GetHand, Bucket, Sum;
    var h := GetHand(c);
    var k := BodyMult(h.ty);
    forall r | 0 <= r < RANKS
      ensures c[r] == 0 || (c[r] == k && r <= CARD_A)
    {
      assert c[r] > 0 ==> r in s[c[r]];
      assert r in s[k] ==> exists i :: 0 <= i < |s[k]| && s[k][i] == r;
    }
  }

  /**
    Exactly what is recognised: the prints of the hands of the game, and single ranks or pairs up to
    the ace, enough of them, whether they are in a row or not.
   */
  lemma RecognisedIff(c: Counts)
    requires Legal(c)
    ensures GetHand(c).ty != Nothing <==>
      || (exists h :: WellFormed(h) && Printable(h) && Print(h) == c)
      || Evenly(c, 1, 5) || Evenly(c, 2, 3)
  {
    hide GetHand, Evenly, Legal, WellFormed, Printable;
    if GetHand(c).ty != Nothing {
      PrintUndoesGetHand(c);
      if GapBlind(GetHand(c).ty) {
        ReadEvenly(c);
      }
    }
    if h :| WellFormed(h) && Printable(h) && Print(h) == c {
      GetHandUndoesPrint(h);
      WellFormedIsHand(h);
    }
    if Evenly(c, 1, 5) || Evenly(c, 2, 3) {
      EvenlyIsChain(c);
    }
  }

  lemma WellFormedIsHand(h: Hand)
    requires WellFormed(h)
    ensures h.ty != Nothing
  {
  }

  /** Five loose ranks with a hole: 3, 4, 5, 6 and 8. */
  const HOLE: Counts := [1, 1, 1, 1, 0, 1, 0, 0, 0, 0, 0, 0, 0, 0, 0]

  lemma BucketIs(c: Counts, k: int, s: seq<int>)
    requires Lists(c, k, s)
    ensures Bucket(c, k) == s
  {
    AscendingUnique(Bucket(c, k), s);
  }

  lemma HoleBuckets()
    ensures Bucket(HOLE, 1) == [0, 1, 2, 3, 5]
    ensures Bucket(HOLE, 2) == [] && Bucket(HOLE, 3) == [] && Bucket(HOLE, 4) == []
  {
    hide Bucket;
    BucketIs(HOLE, 1, [0, 1, 2, 3, 5]);
    BucketIs(HOLE, 2, []);
    BucketIs(HOLE, 3, []);
    BucketIs(HOLE, 4, []);
  }

  lemma HoleLegal()
    ensures Legal(HOLE)
  {
    SumUnrolled(HOLE);
  }

  /** They are reported as the solo chain 3..7, whose cards they are not. */
  lemma HoleIsReportedAsChain()
    ensures Legal(HOLE)
    ensures GetHand(HOLE) == Hand(SoloChain, CARD_3, 5, [])
    ensures Printable(GetHand(HOLE)) && Print(GetHand(HOLE)) != HOLE
  {
    hide Bucket, Legal;
    HoleLegal();
    HoleBuckets();
    var h := Hand(SoloChain, CARD_3, 5, []);
    assert GetHand(HOLE) == h;
    hide GetHand;
    PlainChainPrint(h, 5, 4);
  }
}
