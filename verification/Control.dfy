/**
  The control game (`calControl`): from the lowest control rank upwards, two seats alternately
  spend one card each, at most one card per rank and round; whoever spends last wins the round.
 */
module Control {
  import opened Cards

  /** Both seats' counts and whose turn it is to spend. */
  datatype Table = Table(mine: Counts, opp: Counts, myTurn: bool)

  /** The rank loop of one round from rank `i` on: the seat to move spends here if it can. */
  function Play(t: Table, i: int): Table
    requires 0 <= i <= RANKS
    decreases |t.mine| - i
  {
    if i > RED_JOKER then t
    else if t.myTurn && t.mine[i] > 0 then
      Play(Table(t.mine[i := t.mine[i] - 1], t.opp, false), i + 1)
    else if !t.myTurn && t.opp[i] > 0 then
      Play(Table(t.mine, t.opp[i := t.opp[i] - 1], true), i + 1)
    else Play(t, i + 1)
  }

  /** Control cards: those from rank `lo` on. */
  function SumFrom(c: Counts, lo: int): int
    requires 0 <= lo <= RANKS
    decreases |c| - lo
  {
    if lo == RANKS then 0 else c[lo] + SumFrom(c, lo + 1)
  }

  /** The highest rank from which on at least six cards are in play; the three if there is none. */
  method GetLowestControl(remainPoints: Counts) returns (lowest: int)
    ensures CARD_3 <= lowest <= RED_JOKER
    ensures lowest == CARD_3 || SumFrom(remainPoints, lowest) >= 6
    ensures forall r :: lowest < r < RANKS ==> SumFrom(remainPoints, r) < 6
  {
    var count := 0;
    var i := RED_JOKER;
    while i >= CARD_3
      invariant -1 <= i <= RED_JOKER && count == SumFrom(remainPoints, i + 1)
      invariant forall r :: i < r < RANKS ==> SumFrom(remainPoints, r) < 6
    {
      count := count + remainPoints[i];
      if count >= 6 {
        return i;
      }
      i := i - 1;
    }
    return CARD_3;
  }

  lemma {:induction false} SumFromUpdate(c: Counts, lo: int, k: int, v: int)
    requires 0 <= lo <= RANKS && 0 <= k < RANKS
    ensures SumFrom(c[k := v], lo) == SumFrom(c, lo) + (if lo <= k then v - c[k] else 0)
    decreases RANKS - lo
  {
    if lo < RANKS {
      SumFromUpdate(c, lo + 1, k, v);
    }
  }

  /** Within a round the spender alternates: the two sums drop in step with whose turn it is. */
  lemma {:induction false} PlayAlternates(t: Table, lo: int, i: int)
    requires 0 <= lo <= i <= RANKS
    ensures var q := Play(t, i);
      && SumFrom(q.mine, lo) <= SumFrom(t.mine, lo)
      && SumFrom(q.opp, lo) <= SumFrom(t.opp, lo)
      && (SumFrom(t.mine, lo) - SumFrom(q.mine, lo)) - (SumFrom(t.opp, lo) - SumFrom(q.opp, lo))
         == (if t.myTurn then 1 else 0) - (if q.myTurn then 1 else 0)
    decreases RANKS - i
  {
    if i <= RED_JOKER {
      if t.myTurn && t.mine[i] > 0 {
        SumFromUpdate(t.mine, lo, i, t.mine[i] - 1);
        PlayAlternates(Table(t.mine[i := t.mine[i] - 1], t.opp, false), lo, i + 1);
      } else if !t.myTurn && t.opp[i] > 0 {
        SumFromUpdate(t.opp, lo, i, t.opp[i] - 1);
        PlayAlternates(Table(t.mine, t.opp[i := t.opp[i] - 1], true), lo, i + 1);
      } else {
        PlayAlternates(t, lo, i + 1);
      }
    }
  }

  // ----- what a round is

  /** Whose turn it is after `j` cards: the seats take turns. */
  predicate MineAfter(t: Table, j: nat) {
    t.myTurn == (j % 2 == 0)
  }

  function CardsOf(t: Table, mine: bool, r: int): int
    requires 0 <= r < RANKS
  {
    if mine then t.mine[r] else t.opp[r]
  }

  /** Where the search for card `j` begins: right above the card before. */
  function Above(i: int, s: seq<int>, j: nat): int
    requires j <= |s|
  {
    if j == 0 then i else s[j - 1] + 1
  }

  /** Rank `r` is the least one from `from` on at which that seat holds a card; at `RANKS` there is none. */
  ghost predicate IsLeast(t: Table, mine: bool, from: int, r: int) {
    && 0 <= from <= r <= RANKS
    && (forall k :: from <= k < r ==> CardsOf(t, mine, k) <= 0)
    && (r < RANKS ==> CardsOf(t, mine, r) > 0)
  }

  /** Card `j` of the list is the next one to be spent, or there is none and the list ends. */
  ghost predicate StepOf(t: Table, i: int, s: seq<int>, j: nat)
    requires j <= |s|
  {
    && (j < |s| ==> s[j] < RANKS)
    && IsLeast(t, MineAfter(t, j), Above(i, s, j), if j < |s| then s[j] else RANKS)
  }

  /**
    The ranks spent in a round from rank `i` on: the seats take turns, each spending the least rank it
    holds above the last one, until the seat to move holds none there.
   */
  ghost predicate IsRound(t: Table, i: int, s: seq<int>) {
    forall j :: 0 <= j <= |s| ==> StepOf(t, i, s, j)
  }

  ghost predicate SpentBy(t: Table, s: seq<int>, mine: bool, r: int) {
    exists j :: 0 <= j < |s| && s[j] == r && MineAfter(t, j) == mine
  }

  /** The table once these ranks are spent. */
  ghost predicate Leaves(t: Table, s: seq<int>, q: Table) {
    && q.myTurn == MineAfter(t, |s|)
    && forall mine, r :: 0 <= r < RANKS ==>
      CardsOf(q, mine, r) == CardsOf(t, mine, r) - if SpentBy(t, s, mine, r) then 1 else 0
  }

  /** Spending at rank `i` and going on above it. */
  function SpendAt(t: Table, i: int): Table
    requires 0 <= i < RANKS
  {
    if t.myTurn then Table(t.mine[i := t.mine[i] - 1], t.opp, false)
    else Table(t.mine, t.opp[i := t.opp[i] - 1], true)
  }

  lemma LeastAbove(t: Table, i: int, mine: bool, from: int, r: int)
    requires 0 <= i < RANKS && i < from
    ensures IsLeast(t, mine, from, r) <==> IsLeast(SpendAt(t, i), mine, from, r)
  {
    var u := SpendAt(t, i);
    assert forall k :: i < k < RANKS ==> CardsOf(u, mine, k) == CardsOf(t, mine, k);
  }

  lemma {:induction false} RanksAbove(t: Table, i: int, s: seq<int>, j: nat)
    requires i <= RANKS && IsRound(t, i, s) && j <= |s|
    ensures i <= Above(i, s, j) <= RANKS && (1 <= j ==> i < Above(i, s, j))
  {
    if j > 0 {
      RanksAbove(t, i, s, j - 1);
      assert StepOf(t, i, s, j - 1);
    }
  }

  /** The list begins with `i` and goes on above it iff its tail is a list above `i` once `i` is spent. */
  lemma StepTail(t: Table, i: int, v: seq<int>, j: nat)
    requires 0 <= i < RANKS && j <= |v| && i < Above(i + 1, v, j)
    ensures StepOf(t, i, [i] + v, j + 1) <==> StepOf(SpendAt(t, i), i + 1, v, j)
  {
    LeastAbove(t, i, MineAfter(t, j + 1), Above(i + 1, v, j), if j < |v| then v[j] else RANKS);
  }

  lemma RoundTail(t: Table, i: int, v: seq<int>)
    requires 0 <= i < RANKS && IsRound(t, i, [i] + v)
    ensures IsRound(SpendAt(t, i), i + 1, v)
  {
    hide StepOf, SpendAt;
    var u, next := SpendAt(t, i), i + 1;
    forall j | 0 <= j <= |v|
      ensures StepOf(u, next, v, j)
    {
      assert StepOf(t, i, [i] + v, j + 1);
      RanksAbove(t, i, [i] + v, j + 1);
      StepTail(t, i, v, j);
    }
  }

  lemma StepSkips(t: Table, i: int, s: seq<int>, j: nat)
    requires 0 <= i < RANKS && j <= |s| && CardsOf(t, t.myTurn, i) <= 0
    ensures StepOf(t, i + 1, s, j) ==> StepOf(t, i, s, j)
    ensures StepOf(t, i, s, j) && (j == 0 ==> s == [] || s[0] != i) ==> StepOf(t, i + 1, s, j)
  {
  }

  lemma RoundSkips(t: Table, i: int, s: seq<int>)
    requires 0 <= i < RANKS && IsRound(t, i, s) && (s == [] || s[0] != i)
    ensures CardsOf(t, t.myTurn, i) <= 0 && IsRound(t, i + 1, s)
  {
    assert StepOf(t, i, s, 0);
    hide StepOf;
    var next := i + 1;
    forall j | 0 <= j <= |s|
      ensures StepOf(t, next, s, j)
    {
      StepSkips(t, i, s, j);
    }
  }

  /** The rank loop spends exactly these ranks. */
  lemma {:induction false} PlayIsRound(t: Table, i: int, s: seq<int>)
    requires 0 <= i <= RANKS && IsRound(t, i, s)
    ensures Leaves(t, s, Play(t, i))
    decreases RANKS - i
  {
    hide IsRound, Leaves;
    if i == RANKS {
      NoRoundBeyond(t, s);
    } else if s != [] && s[0] == i {
      RoundSpends(t, i, s);
      assert s == [i] + s[1..];
      RoundTail(t, i, s[1..]);
      PlayIsRound(SpendAt(t, i), i + 1, s[1..]);
      LeavesMore(t, i, s, Play(SpendAt(t, i), i + 1));
    } else {
      RoundSkips(t, i, s);
      PlayIsRound(t, i + 1, s);
    }
  }

  lemma RoundSpends(t: Table, i: int, s: seq<int>)
    requires 0 <= i < RANKS && IsRound(t, i, s) && s != [] && s[0] == i
    ensures CardsOf(t, t.myTurn, i) > 0
    ensures forall j :: 1 <= j < |s| ==> i < s[j]
  {
    assert StepOf(t, i, s, 0);
    forall j | 1 <= j < |s|
      ensures i < s[j]
    {
      RanksAbove(t, i, s, j);
      assert StepOf(t, i, s, j);
    }
  }

  lemma NoRoundBeyond(t: Table, s: seq<int>)
    requires IsRound(t, RANKS, s)
    ensures s == [] && Leaves(t, s, t)
  {
    assert StepOf(t, RANKS, s, 0);
  }

  lemma LeavesMore(t: Table, i: int, s: seq<int>, q: Table)
    requires 0 <= i < RANKS && s != [] && s[0] == i && (forall j :: 1 <= j < |s| ==> i < s[j])
    requires Leaves(SpendAt(t, i), s[1..], q)
    ensures Leaves(t, s, q)
  {
    var u := SpendAt(t, i);
    forall mine, r | 0 <= r < RANKS
      ensures CardsOf(q, mine, r) == CardsOf(t, mine, r) - if SpentBy(t, s, mine, r) then 1 else 0
    {
      assert SpentBy(t, s, mine, r) <==> (r == i && mine == t.myTurn) || SpentBy(u, s[1..], mine, r) by {
        SpentSplits(t, i, s, mine, r);
      }
      assert r == i ==> !SpentBy(u, s[1..], mine, r);
    }
  }

  lemma SpentSplits(t: Table, i: int, s: seq<int>, mine: bool, r: int)
    requires 0 <= i < RANKS && s != [] && s[0] == i
    ensures SpentBy(t, s, mine, r) <==> (r == i && mine == t.myTurn) || SpentBy(SpendAt(t, i), s[1..], mine, r)
  {
    var u, v := SpendAt(t, i), s[1..];
    assert MineAfter(t, 0) == t.myTurn;
    assert forall j: nat :: MineAfter(u, j) == MineAfter(t, j + 1);
    if SpentBy(t, s, mine, r) {
      var j :| 0 <= j < |s| && s[j] == r && MineAfter(t, j) == mine;
      if j > 0 {
        assert v[j - 1] == r && MineAfter(u, j - 1) == mine;
      }
    }
    if SpentBy(u, v, mine, r) {
      var j :| 0 <= j < |v| && v[j] == r && MineAfter(u, j) == mine;
      assert s[j + 1] == r && MineAfter(t, j + 1) == mine;
    }
  }

  /** Every round has such a list of ranks, and only one. */
  lemma {:induction false} RoundExists(t: Table, i: int)
    requires 0 <= i <= RANKS
    ensures exists s :: IsRound(t, i, s)
    decreases RANKS - i
  {
    if i == RANKS {
      assert IsRound(t, i, []);
    } else if CardsOf(t, t.myTurn, i) > 0 {
      RoundExists(SpendAt(t, i), i + 1);
      var v :| IsRound(SpendAt(t, i), i + 1, v);
      RoundGrows(t, i, v);
    } else {
      RoundExists(t, i + 1);
      var s :| IsRound(t, i + 1, s);
      RoundSkipped(t, i, s);
    }
  }

  lemma RoundGrows(t: Table, i: int, v: seq<int>)
    requires 0 <= i < RANKS && CardsOf(t, t.myTurn, i) > 0 && IsRound(SpendAt(t, i), i + 1, v)
    ensures IsRound(t, i, [i] + v)
  {
    assert StepOf(t, i, [i] + v, 0);
    hide StepOf, SpendAt;
    var s := [i] + v;
    forall j | 0 <= j <= |s|
      ensures StepOf(t, i, s, j)
    {
      if j > 0 {
        RanksAbove(SpendAt(t, i), i + 1, v, j - 1);
        StepTail(t, i, v, j - 1);
        assert StepOf(SpendAt(t, i), i + 1, v, j - 1);
      }
    }
  }

  lemma RoundSkipped(t: Table, i: int, s: seq<int>)
    requires 0 <= i < RANKS && CardsOf(t, t.myTurn, i) <= 0 && IsRound(t, i + 1, s)
    ensures IsRound(t, i, s)
  {
    hide StepOf;
    forall j | 0 <= j <= |s|
      ensures StepOf(t, i, s, j)
    {
      StepSkips(t, i, s, j);
    }
  }

  /** A round that I begin with a card to spend is lost iff an even number of ranks is spent. */
  lemma RoundLostIff(t: Table, lo: int, s: seq<int>)
    requires 0 <= lo <= RED_JOKER && t.myTurn && SumFrom(t.mine, lo) > 0 && IsRound(t, lo, s)
    ensures s != [] && (Play(t, lo).myTurn <==> |s| % 2 == 0)
  {
    hide IsRound, Leaves;
    PlayIsRound(t, lo, s);
    LeavesTurn(t, s, Play(t, lo));
    PositiveSumSpends(t, lo, lo);
    if s == [] {
      NothingSpent(t, lo, Play(t, lo));
    }
  }

  lemma LeavesTurn(t: Table, s: seq<int>, q: Table)
    requires Leaves(t, s, q)
    ensures q.myTurn == MineAfter(t, |s|)
  {
  }

  lemma NothingSpent(t: Table, lo: int, q: Table)
    requires Leaves(t, [], q)
    ensures q.mine == t.mine && q.opp == t.opp
  {
    forall r | 0 <= r < RANKS
      ensures q.mine[r] == t.mine[r] && q.opp[r] == t.opp[r]
    {
      assert CardsOf(q, true, r) == CardsOf(t, true, r) && CardsOf(q, false, r) == CardsOf(t, false, r);
    }
  }

  /** A positive sum of control cards, negative entries or not, has a rank to spend from. */
  lemma {:induction false} PositiveSumSpends(t: Table, lo: int, i: int)
    requires 0 <= lo <= i <= RANKS && t.myTurn && SumFrom(t.mine, i) > 0
    ensures SumFrom(Play(t, i).mine, lo) < SumFrom(t.mine, lo)
    decreases RANKS - i
  {
    if t.mine[i] > 0 {
      SumFromUpdate(t.mine, lo, i, t.mine[i] - 1);
      PlayAlternates(Table(t.mine[i := t.mine[i] - 1], t.opp, false), lo, i + 1);
    } else {
      PositiveSumSpends(t, lo, i + 1);
    }
  }

  /** Score of the rounds, control cards left on both sides, and rounds lost. */
  datatype Outcome = Outcome(score: int, mineLeft: int, oppLeft: int, lost: nat)

  function Positive(n: int): nat {
    if n > 0 then n else 0
  }

  /** Rounds are played while both seats have control cards; I always spend first. */
  function Game(mine: Counts, opp: Counts, lo: int): Outcome
    requires 0 <= lo <= RED_JOKER
    decreases |mine|, Positive(SumFrom(mine, lo))
  {
    var (m, o) := (SumFrom(mine, lo), SumFrom(opp, lo));
    if m > 0 && o > 0 then
      var q := Play(Table(mine, opp, true), lo);
      PositiveSumSpends(Table(mine, opp, true), lo, lo);
      var g := Game(q.mine, q.opp, lo);
      if q.myTurn then Outcome(g.score - 1, g.mineLeft, g.oppLeft, g.lost + 1)
      else Outcome(g.score + 10, g.mineLeft, g.oppLeft, g.lost)
    else Outcome(0, m, o, 0)
  }

  /** The value before clamping: ten a round won, minus one a round lost, ten a card kept. */
  function Value(g: Outcome): int {
    g.score + 10 * g.mineLeft
  }

  /**
    The exact account: with M and O control cards at the start, O' of the opponent's left and L
    rounds lost, the value is 10 (M - O + O') - L; it never exceeds 10 M.
   */
  lemma {:induction false} ExactAccount(mine: Counts, opp: Counts, lo: int)
    requires 0 <= lo <= RED_JOKER
    ensures var g := Game(mine, opp, lo);
      && Value(g) == 10 * (SumFrom(mine, lo) - SumFrom(opp, lo) + g.oppLeft) - g.lost
      && Value(g) <= 10 * SumFrom(mine, lo)
      && (g.mineLeft <= 0 || g.oppLeft <= 0)
    decreases Positive(SumFrom(mine, lo))
  {
    if SumFrom(mine, lo) > 0 && SumFrom(opp, lo) > 0 {
      var t := Table(mine, opp, true);
      var q := Play(t, lo);
      PositiveSumSpends(t, lo, lo);
      PlayAlternates(t, lo, lo);
      ExactAccount(q.mine, q.opp, lo);
    }
  }

  // ----- what a game is

  /** A round that I begin, as the ranks it spends tell it: `u` is the table for the next one. */
  ghost predicate RoundFrom(t: Table, lo: int, s: seq<int>, u: Table) {
    IsRound(t, lo, s) && Leaves(t, s, Table(u.mine, u.opp, MineAfter(t, |s|))) && t.myTurn && u.myTurn
  }

  /** An even number of ranks was spent: the opponent spent last. */
  ghost predicate Lost(t: Table, lo: int) {
    exists s :: IsRound(t, lo, s) && |s| % 2 == 0
  }

  ghost predicate GoesOn(t: Table, lo: int)
    requires 0 <= lo <= RED_JOKER
  {
    SumFrom(t.mine, lo) > 0 && SumFrom(t.opp, lo) > 0
  }

  /** The tables of a game: a round lies between neighbours while both seats have control cards. */
  ghost predicate IsGame(tables: seq<Table>, lo: int)
    requires 0 <= lo <= RED_JOKER
  {
    && tables != [] && tables[0].myTurn
    && (|tables| == 1 <==> !GoesOn(tables[0], lo))
    && (|tables| > 1 ==> (exists s :: RoundFrom(tables[0], lo, s, tables[1])) && IsGame(tables[1..], lo))
  }

  ghost function RoundsLost(tables: seq<Table>, lo: int): nat {
    if |tables| <= 1 then 0 else (if Lost(tables[0], lo) then 1 else 0) + RoundsLost(tables[1..], lo)
  }

  /** The list of ranks of a round decides all of it. */
  lemma RoundDecides(t: Table, lo: int, s: seq<int>, u: Table)
    requires 0 <= lo <= RED_JOKER && GoesOn(t, lo) && RoundFrom(t, lo, s, u)
    ensures var q := Play(t, lo);
      q.mine == u.mine && q.opp == u.opp && (q.myTurn <==> Lost(t, lo))
  {
    hide IsRound, Leaves;
    PlayIsRound(t, lo, s);
    RoundLostIff(t, lo, s);
    SameLeft(t, s, Play(t, lo), Table(u.mine, u.opp, MineAfter(t, |s|)));
    if Lost(t, lo) {
      var s' :| IsRound(t, lo, s') && |s'| % 2 == 0;
      RoundLostIff(t, lo, s');
    }
  }

  lemma SameLeft(t: Table, s: seq<int>, q: Table, u: Table)
    requires Leaves(t, s, q) && Leaves(t, s, u)
    ensures q == u
  {
    forall r | 0 <= r < RANKS
      ensures q.mine[r] == u.mine[r] && q.opp[r] == u.opp[r]
    {
      assert CardsOf(q, true, r) == CardsOf(u, true, r) && CardsOf(q, false, r) == CardsOf(u, false, r);
    }
  }

  /**
    The game is its rounds: ten for each round won, minus one for each lost, and the control cards left
    are those of the last table, at which one seat has none.
   */
  lemma {:induction false} GameIsRounds(tables: seq<Table>, lo: int)
    requires 0 <= lo <= RED_JOKER && IsGame(tables, lo)
    ensures var lost := RoundsLost(tables, lo);
      var last := tables[|tables| - 1];
      && !GoesOn(last, lo)
      && Game(tables[0].mine, tables[0].opp, lo)
         == Outcome(10 * (|tables| - 1 - lost) - lost, SumFrom(last.mine, lo), SumFrom(last.opp, lo), lost)
    decreases |tables|
  {
    hide RoundFrom, Lost;
    if |tables| > 1 {
      var s :| RoundFrom(tables[0], lo, s, tables[1]);
      RoundDecides(tables[0], lo, s, tables[1]);
      GameIsRounds(tables[1..], lo);
      StartsMine(tables[0], lo, s, tables[1]);
    }
  }

  lemma StartsMine(t: Table, lo: int, s: seq<int>, u: Table)
    requires RoundFrom(t, lo, s, u)
    ensures t == Table(t.mine, t.opp, true)
  {
  }

  /** Every game ends: there are such tables from any counts on. */
  lemma {:induction false} GameEnds(t: Table, lo: int)
    requires 0 <= lo <= RED_JOKER && t.myTurn
    ensures exists tables :: IsGame(tables, lo) && tables[0] == t
    decreases Positive(SumFrom(t.mine, lo))
  {
    hide RoundFrom;
    if GoesOn(t, lo) {
      var q := Play(t, lo);
      var u := Table(q.mine, q.opp, true);
      PositiveSumSpends(t, lo, lo);
      GameEnds(u, lo);
      var rest :| IsGame(rest, lo) && rest[0] == u;
      RoundThere(t, lo, u);
      var tables := [t] + rest;
      assert tables[1..] == rest;
      assert IsGame(tables, lo);
    } else {
      assert IsGame([t], lo);
    }
  }

  lemma RoundThere(t: Table, lo: int, u: Table)
    requires 0 <= lo <= RED_JOKER && t.myTurn && u == Table(Play(t, lo).mine, Play(t, lo).opp, true)
    ensures exists s :: RoundFrom(t, lo, s, u)
  {
    hide IsRound, Leaves;
    RoundExists(t, lo);
    var s :| IsRound(t, lo, s);
    PlayIsRound(t, lo, s);
    LeavesTurn(t, s, Play(t, lo));
    assert RoundFrom(t, lo, s, u);
  }

  /** `calControl`: the game's value, not below zero, in whole tens. */
  function CalControl(mine: Counts, opp: Counts, lo: int): (r: int)
    requires 0 <= lo <= RED_JOKER
  {
    Positive(Value(Game(mine, opp, lo))) / 10
  }

  /**
    What the number is: with won and lost rounds and my control cards left counted at the end of the game,
    the whole tens of ten for each round won and card left less one for each round lost, but not negative.
   */
  lemma ControlOfGame(tables: seq<Table>, lo: int)
    requires 0 <= lo <= RED_JOKER && IsGame(tables, lo)
    ensures var r := CalControl(tables[0].mine, tables[0].opp, lo);
      var lost := RoundsLost(tables, lo);
      var value := 10 * (|tables| - 1 - lost + SumFrom(tables[|tables| - 1].mine, lo)) - lost;
      if value < 10 then r == 0 else 10 * r <= value < 10 * r + 10
  {
    GameIsRounds(tables, lo);
  }

  /** The result is between nothing and one point a control card; without opposition it is all. */
  lemma ControlBounds(mine: Counts, opp: Counts, lo: int)
    requires 0 <= lo <= RED_JOKER
    ensures 0 <= CalControl(mine, opp, lo) <= Positive(SumFrom(mine, lo))
    ensures SumFrom(opp, lo) <= 0 ==> CalControl(mine, opp, lo) == Positive(SumFrom(mine, lo))
  {
    ExactAccount(mine, opp, lo);
  }

  // ----- the game as the source runs it

  method SumControls(c: array<int>, lo: int) returns (sum: int)
    requires c.Length == RANKS && 0 <= lo <= RED_JOKER
    ensures sum == SumFrom(c[..], lo)
  {
    sum := 0;
    for i := lo to RANKS
      invariant sum + SumFrom(c[..], i) == SumFrom(c[..], lo)
    {
      sum := sum + c[i];
    }
  }

  /** One round, in place; tells whether the last card spent was mine. */
  method PlayRound(mine: array<int>, opp: array<int>, lo: int) returns (mySpent: nat, oppSpent: nat, lastMine: bool)
    requires mine.Length == RANKS && opp.Length == RANKS && mine != opp
    requires 0 <= lo <= RED_JOKER
    modifies mine, opp
    ensures Table(mine[..], opp[..], !lastMine) == Play(Table(old(mine[..]), old(opp[..]), true), lo)
    ensures mySpent == SumFrom(old(mine[..]), lo) - SumFrom(mine[..], lo)
    ensures oppSpent == SumFrom(old(opp[..]), lo) - SumFrom(opp[..], lo)
  {
    var myTurn := true;
    mySpent, oppSpent := 0, 0;
    for i := lo to RANKS
      invariant Play(Table(mine[..], opp[..], myTurn), i) == Play(Table(old(mine[..]), old(opp[..]), true), lo)
      invariant mySpent == SumFrom(old(mine[..]), lo) - SumFrom(mine[..], lo)
      invariant oppSpent == SumFrom(old(opp[..]), lo) - SumFrom(opp[..], lo)
    {
      ghost var m, o := mine[..], opp[..];
      if myTurn && mine[i] > 0 {
        SumFromUpdate(m, lo, i, m[i] - 1);
        mine[i] := mine[i] - 1;
        assert mine[..] == m[i := m[i] - 1] && opp[..] == o;
        mySpent := mySpent + 1;
        myTurn := false;
      } else if !myTurn && opp[i] > 0 {
        SumFromUpdate(o, lo, i, o[i] - 1);
        opp[i] := opp[i] - 1;
        assert opp[..] == o[i := o[i] - 1] && mine[..] == m;
        oppSpent := oppSpent + 1;
        myTurn := true;
      }
    }
    lastMine := !myTurn;
  }

  method ComputeControl(myPoints: Counts, oppPoints: Counts, lowestControl: int) returns (r: int)
    requires 0 <= lowestControl <= RED_JOKER
    ensures r == CalControl(myPoints, oppPoints, lowestControl)
  {
    var myCon := CopyOf(myPoints);
    var oppCon := CopyOf(oppPoints);
    var myConNum := SumControls(myCon, lowestControl);
    var oppConNum := SumControls(oppCon, lowestControl);
    var ret := 0;
    ghost var all := Value(Game(myPoints, oppPoints, lowestControl));
    while myConNum > 0 && oppConNum > 0
      invariant myCon != oppCon && fresh(myCon) && fresh(oppCon)
      invariant myCon.Length == RANKS && oppCon.Length == RANKS
      invariant myConNum == SumFrom(myCon[..], lowestControl)
      invariant oppConNum == SumFrom(oppCon[..], lowestControl)
      invariant ret + Value(Game(myCon[..], oppCon[..], lowestControl)) == all
      decreases Positive(myConNum)
    {
      PositiveSumSpends(Table(myCon[..], oppCon[..], true), lowestControl, lowestControl);
      var mySpent, oppSpent, lastMine := PlayRound(myCon, oppCon, lowestControl);
      myConNum, oppConNum := myConNum - mySpent, oppConNum - oppSpent;
      ret := ret + (if lastMine then 10 else -1);
    }
    ret := ret + 10 * myConNum;
    if ret < 0 {
      ret := 0;
    }
    r := ret / 10;
  }

  /** `lo` is the highest rank from which on six cards are in play, or the three, and `num` the own controls. */
  ghost predicate Rates(remain: Counts, mine: Counts, opp: Counts, lo: int, num: int) {
    && CARD_3 <= lo <= RED_JOKER
    && (lo == CARD_3 || SumFrom(remain, lo) >= 6)
    && (forall r :: lo < r < RANKS ==> SumFrom(remain, r) < 6)
    && num == CalControl(mine, opp, lo)
  }
}
