/**
  The timing wheel and the robot pools together: what a tick does to the robots of the connections
  that have been idle for too long (`Entry::~Entry` calls `DelRobot`).

  A connection object lives as long as it is in the table, and beyond that as long as a delayed
  message holds on to it.  The wheel's entries refer to it weakly.
 */
module IdleConnections {
  import opened Lists
  import W = TimingWheel
  import P = RobotPools

  type Conn = nat

  /** The wheel, the time stamps it implements, and the pools. */
  datatype Link = Link(wheel: W.Wheel, stamps: W.Stamps, pools: P.Pools)

  /**
    What happens: a robot is put to work, its connection comes up, is read from, is closed by the
    server or by the robot itself - `held` tells whether a delayed message keeps the object - and
    the message is done; or time goes on, and the entries that go close their connections in some order.
   */
  datatype Event =
    | Add(fd: P.Fd)
    | Connect(c: Conn)
    | Read(c: Conn)
    | Drop(pool: P.Event, held: bool)
    | Release(c: Conn)
    | Tick(order: seq<Conn>)

  // ----- deleting the robots of several connections

  predicate AllMade(p: P.Pools, order: seq<Conn>) {
    forall i :: 0 <= i < |order| ==> P.Made(p, order[i])
  }

  function DeleteAll(p: P.Pools, order: seq<Conn>): P.Pools
    requires AllMade(p, order)
    decreases |order|
  {
    if order == [] then p
    else
      var q := P.Handle(p, P.Delete(order[0]));
      DeleteAll(q, order[1..])
  }

  /** Their robots, for those of the connections that are in the table. */
  function RobotsOf(p: P.Pools, order: seq<Conn>): seq<P.Robot>
    requires AllMade(p, order)
  {
    if order == [] then []
    else (if P.InTable(p, order[0]) then [p.robot[order[0]]] else []) + RobotsOf(p, order[1..])
  }

  /** Each is in the table, or was deleted before. */
  ghost predicate Clean(p: P.Pools, order: seq<Conn>) {
    forall i :: 0 <= i < |order| ==>
      P.InTable(p, order[i]) || (P.Made(p, order[i]) && order[i] !in p.hasBuffer)
  }

  /** Deleting one connection takes it off the table and leaves the others as they were. */
  lemma DeleteOne(p: P.Pools, c: Conn, gone: set<P.Robot>, all: set<P.Robot>)
    requires P.Sound(p, gone, all) && P.InTable(p, c)
    ensures var q := P.Handle(p, P.Delete(c));
      && P.Sound(q, gone, all)
      && q.task == p.task + [p.robot[c]] && q.robot == p.robot && q.fd == p.fd && q.next == p.next
      && q.hasBuffer == p.hasBuffer - {c}
      && forall d :: P.InTable(q, d) <==> P.InTable(p, d) && d != c
  {
    P.HandleSound(p, P.Delete(c), gone, all);
    P.InTableFacts(p, c);
    assert gone + P.Gone(p, P.Delete(c)) == gone;
  }

  lemma {:induction false} RobotsFrame(p: P.Pools, q: P.Pools, order: seq<Conn>)
    requires p.robot == q.robot && p.fd == q.fd
    requires AllMade(p, order) && forall c :: c in order ==> (P.InTable(p, c) <==> P.InTable(q, c))
    ensures AllMade(q, order)
    ensures RobotsOf(p, order) == RobotsOf(q, order)
    decreases |order|
  {
    if order != [] {
      RobotsFrame(p, q, order[1..]);
    }
  }

  /** Each connection's robot is idle again, once, and nothing else changes hands. */
  lemma {:induction false} DeleteAllReturns(p: P.Pools, order: seq<Conn>, gone: set<P.Robot>, all: set<P.Robot>)
    requires P.Sound(p, gone, all) && Distinct(order) && Clean(p, order)
    ensures AllMade(p, order)
    ensures var q := DeleteAll(p, order);
      && P.Sound(q, gone, all)
      && q.task == p.task + RobotsOf(p, order) && q.robot == p.robot && q.fd == p.fd && q.next == p.next
      && forall d :: P.InTable(q, d) <==> P.InTable(p, d) && d !in order
    decreases |order|
  {
    hide P.Sound;
    if order != [] {
      var c, rest := order[0], order[1..];
      assert order == [c] + rest;
      var q := P.Handle(p, P.Delete(c));
      if P.InTable(p, c) {
        DeleteOne(p, c, gone, all);
      }
      assert Clean(q, rest);
      DeleteAllReturns(q, rest, gone, all);
      RobotsFrame(p, q, rest);
    }
  }

  // ----- the two machines in step

  ghost predicate Coupled(l: Link, gone: set<P.Robot>, all: set<P.Robot>) {
    && W.Refines(l.wheel, l.stamps)
    && P.Sound(l.pools, gone, all)
    && l.stamps.live <= l.stamps.seen
    && (forall c :: c in l.stamps.seen ==> P.Made(l.pools, c))
    && (forall c :: P.InTable(l.pools, c) && c in l.stamps.seen ==> c in l.stamps.live)
  }

  /** Objects that only a delayed message keeps alive. */
  ghost predicate Stale(l: Link, c: Conn) {
    c in l.stamps.live && !P.InTable(l.pools, c) && c in l.pools.hasBuffer
  }

  /**
    Events concern connections in the table; a tick closes whatever the wheel lets go of, in some
    order.
   */
  ghost predicate Possible(l: Link, ev: Event) {
    l.wheel.buckets != []
    && match ev
       case Add(fd) => fd !in l.pools.open
       case Connect(c) => P.InTable(l.pools, c) && c !in l.stamps.seen
       case Read(c) => P.InTable(l.pools, c) && c in l.stamps.seen
       case Drop(pool, _) => !pool.Add? && P.InTable(l.pools, pool.c)
       case Release(c) => c in l.stamps.live && !P.InTable(l.pools, c)
       case Tick(order) =>
         Distinct(order) && AllMade(l.pools, order) && forall c :: c in order <==> c in W.ClosedBy(l.wheel)
  }

  /** The wheel's part in an event. */
  function WheelEvent(l: Link, ev: Event): (e: seq<W.Event>)
    ensures |e| <= 1
  {
    match ev
    case Add(_) => []
    case Connect(c) => [W.Connect(c)]
    case Read(c) => [W.Read(c)]
    case Drop(pool, held) =>
      if !pool.Add? && !held && pool.c in l.stamps.live then [W.Close(pool.c)] else []
    case Release(c) => [W.Close(c)]
    case Tick(_) => [W.Tick]
  }

  ghost function PoolsAfter(l: Link, ev: Event): P.Pools
    requires Possible(l, ev)
  {
    match ev
    case Add(fd) => P.Handle(l.pools, P.Event.Add(fd))
    case Drop(pool, _) => P.Handle(l.pools, pool)
    case Tick(order) => DeleteAll(l.pools, order)
    case _ => l.pools
  }

  ghost function Step(l: Link, ev: Event): Link
    requires Possible(l, ev)
  {
    var e := WheelEvent(l, ev);
    Link(if e == [] then l.wheel else W.Turn(l.wheel, e[0]),
         if e == [] then l.stamps else W.Stamp(l.stamps, e[0]),
         PoolsAfter(l, ev))
  }

  function GoneBy(l: Link, ev: Event): set<P.Robot> {
    if ev.Drop? then P.Gone(l.pools, ev.pool) else {}
  }

  // ----- exactly when a tick is harmless

  /** What a tick does to the pools, one delete after the other. */
  function Deletes(order: seq<Conn>): (evs: seq<P.Event>)
    ensures |evs| == |order|
  {
    seq(|order|, i requires 0 <= i < |order| => P.Delete(order[i]))
  }

  lemma DeletesTail(order: seq<Conn>)
    requires order != []
    ensures Deletes(order)[0] == P.Delete(order[0]) && Deletes(order)[1..] == Deletes(order[1..])
  {
  }

  lemma {:induction false} DeletesAddressed(p: P.Pools, order: seq<Conn>)
    requires AllMade(p, order)
    ensures P.AddressedRun(p, Deletes(order))
    decreases |order|
  {
    if order != [] {
      DeletesTail(order);
      DeletesAddressed(P.Handle(p, P.Delete(order[0])), order[1..]);
    }
  }

  /** A tick is harmless iff each of its deletes is, when its turn comes. */
  ghost predicate HarmlessTick(l: Link, order: seq<Conn>)
    requires AllMade(l.pools, order)
  {
    DeletesAddressed(l.pools, order);
    P.HarmlessRun(l.pools, Deletes(order))
  }

  /** The identities hold before the tick and after every delete of it. */
  ghost predicate SoundTick(l: Link, order: seq<Conn>, gone: set<P.Robot>, all: set<P.Robot>)
    requires AllMade(l.pools, order)
  {
    DeletesAddressed(l.pools, order);
    P.SoundThroughout(l.pools, Deletes(order), gone, all)
  }

  /** Whatever a tick lets go of, in whatever order: the identities hold throughout iff it is harmless. */
  lemma TickSoundIff(l: Link, order: seq<Conn>, gone: set<P.Robot>, all: set<P.Robot>)
    requires Coupled(l, gone, all) && Possible(l, Tick(order))
    ensures SoundTick(l, order, gone, all) <==> HarmlessTick(l, order)
  {
    DeletesAddressed(l.pools, order);
    P.RunSoundIff(l.pools, Deletes(order), gone, all);
  }

  /** A tick that is sound throughout ends soundly, with none of its connections in the table. */
  lemma {:induction false} SoundTickEnds(p: P.Pools, order: seq<Conn>, gone: set<P.Robot>, all: set<P.Robot>)
    requires AllMade(p, order) && P.AddressedRun(p, Deletes(order))
    requires P.SoundThroughout(p, Deletes(order), gone, all)
    ensures var q := DeleteAll(p, order);
      && P.Sound(q, gone, all) && q.robot == p.robot && q.fd == p.fd && q.next == p.next
      && forall d :: P.InTable(q, d) ==> P.InTable(p, d) && d !in order
    decreases |order|
  {
    if order != [] {
      hide P.Sound;
      DeletesTail(order);
      var c := order[0];
      assert gone + P.Gone(p, P.Delete(c)) == gone;
      SoundTickEnds(P.Handle(p, P.Delete(c)), order[1..], gone, all);
      assert order == [c] + order[1..];
      if P.InTable(p, c) {
        SoundInTable(p, c, gone, all);
      }
    }
  }

  lemma SoundInTable(p: P.Pools, c: Conn, gone: set<P.Robot>, all: set<P.Robot>)
    requires P.Sound(p, gone, all) && P.InTable(p, c)
    ensures c in p.hasBuffer
  {
    P.InTableFacts(p, c);
  }

  /** A tick that finds every connection in the table, or deleted before, is harmless. */
  lemma {:induction false} CleanIsHarmless(p: P.Pools, order: seq<Conn>, gone: set<P.Robot>, all: set<P.Robot>)
    requires P.Sound(p, gone, all) && Distinct(order) && Clean(p, order)
    ensures AllMade(p, order) && P.AddressedRun(p, Deletes(order)) && P.HarmlessRun(p, Deletes(order))
    decreases |order|
  {
    DeletesAddressed(p, order);
    if order != [] {
      hide P.Sound;
      DeletesTail(order);
      var c := order[0];
      var q := P.Handle(p, P.Delete(c));
      assert order == [c] + order[1..];
      if P.InTable(p, c) {
        DeleteOne(p, c, gone, all);
        InTableServes(p, c, gone, all);
      }
      assert Clean(q, order[1..]);
      CleanIsHarmless(q, order[1..], gone, all);
    }
  }

  lemma InTableServes(p: P.Pools, c: Conn, gone: set<P.Robot>, all: set<P.Robot>)
    requires P.Sound(p, gone, all) && P.InTable(p, c)
    ensures P.Serves(p, c)
  {
    P.InTableFacts(p, c);
  }

  /** Without stale connections among them a tick closes only what is in the table, or was deleted before. */
  lemma ClosedAreClean(l: Link, order: seq<Conn>, gone: set<P.Robot>, all: set<P.Robot>)
    requires Coupled(l, gone, all) && Possible(l, Tick(order))
    requires forall c :: c in order ==> !Stale(l, c)
    ensures Clean(l.pools, order)
  {
    W.ClosedAreExpiring(l.wheel, l.stamps);
    forall i | 0 <= i < |order|
      ensures P.InTable(l.pools, order[i]) || (P.Made(l.pools, order[i]) && order[i] !in l.pools.hasBuffer)
    {
      assert order[i] in order;
      assert !Stale(l, order[i]);
    }
  }

  /**
    A tick that lets go of no stale connection is harmless: it hands back the robot of each idle
    connection in the table exactly once, at the end of the idle list, and takes exactly these
    connections off the table.
   */
  lemma TickReturnsRobots(l: Link, order: seq<Conn>, gone: set<P.Robot>, all: set<P.Robot>)
    requires Coupled(l, gone, all) && Possible(l, Tick(order))
    requires forall c :: c in order ==> !Stale(l, c)
    ensures HarmlessTick(l, order)
    ensures var q := Step(l, Tick(order)).pools;
      && P.Sound(q, gone, all)
      && q.task == l.pools.task + RobotsOf(l.pools, order)
      && forall c :: P.InTable(q, c) <==>
        P.InTable(l.pools, c) && !(c in W.Expiring(l.stamps) && c in l.stamps.live)
  {
    ClosedAreClean(l, order, gone, all);
    W.ClosedAreExpiring(l.wheel, l.stamps);
    CleanIsHarmless(l.pools, order, gone, all);
    DeleteAllReturns(l.pools, order, gone, all);
  }

  /** A tick that lets go of one connection only breaks the pools iff that is stale and serves no one. */
  lemma StaleExpiryBreaks(l: Link, c: Conn, gone: set<P.Robot>, all: set<P.Robot>)
    requires Coupled(l, gone, all) && Possible(l, Tick([c]))
    ensures !P.Sound(Step(l, Tick([c])).pools, gone, all) <==> Stale(l, c) && !P.Serves(l.pools, c)
  {
    assert c in [c];
    W.ClosedAreExpiring(l.wheel, l.stamps);
    assert AllMade(l.pools, [c]) && P.Made(l.pools, [c][0]);
    P.HandleSoundIff(l.pools, P.Delete(c), gone, all);
    assert gone + P.Gone(l.pools, P.Delete(c)) == gone;
    assert DeleteAll(P.Handle(l.pools, P.Delete(c)), []) == P.Handle(l.pools, P.Delete(c));
    assert [c][1..] == [];
    if P.InTable(l.pools, c) {
      P.InTableFacts(l.pools, c);
    }
  }

  // ----- steps

  lemma WheelStep(l: Link, ev: Event, gone: set<P.Robot>, all: set<P.Robot>)
    requires Coupled(l, gone, all) && Possible(l, ev)
    ensures W.Refines(Step(l, ev).wheel, Step(l, ev).stamps)
  {
    var e := WheelEvent(l, ev);
    if e != [] {
      assert W.Possible(l.stamps, e[0]);
      W.TurnRefines(l.wheel, l.stamps, e[0]);
    }
  }

  lemma AddKeeps(p: P.Pools, fd: P.Fd, gone: set<P.Robot>, all: set<P.Robot>)
    requires P.Sound(p, gone, all) && fd !in p.open
    ensures var q := P.Handle(p, P.Event.Add(fd));
      && P.Sound(q, gone, all)
      && !P.Made(p, p.next)
      && (forall c: Conn :: P.Made(p, c) ==> P.Made(q, c))
      && (forall c: Conn :: P.InTable(q, c) ==> P.InTable(p, c) || c == p.next)
  {
    P.HandleSound(p, P.Event.Add(fd), gone, all);
    assert gone + P.Gone(p, P.Event.Add(fd)) == gone;
  }

  lemma DropKeeps(p: P.Pools, ev: P.Event, gone: set<P.Robot>, all: set<P.Robot>)
    requires P.Sound(p, gone, all) && !ev.Add? && P.InTable(p, ev.c)
    ensures var q := P.Handle(p, ev);
      && P.Sound(q, gone + P.Gone(p, ev), all)
      && q.robot == p.robot && q.fd == p.fd
      && (forall c :: P.InTable(q, c) <==> P.InTable(p, c) && c != ev.c)
  {
    P.InTableFacts(p, ev.c);
    P.HandleSound(p, ev, gone, all);
  }

  lemma TickKeeps(l: Link, order: seq<Conn>, gone: set<P.Robot>, all: set<P.Robot>)
    requires Coupled(l, gone, all) && Possible(l, Tick(order)) && SoundTick(l, order, gone, all)
    ensures var q := DeleteAll(l.pools, order);
      && P.Sound(q, gone, all) && q.robot == l.pools.robot && q.fd == l.pools.fd
      && forall d :: P.InTable(q, d) ==> P.InTable(l.pools, d) && d !in W.ClosedBy(l.wheel)
  {
    DeletesAddressed(l.pools, order);
    SoundTickEnds(l.pools, order, gone, all);
  }

  lemma StepCoupled(l: Link, ev: Event, gone: set<P.Robot>, all: set<P.Robot>)
    requires Coupled(l, gone, all) && Possible(l, ev)
    requires ev.Tick? ==> SoundTick(l, ev.order, gone, all)
    ensures Coupled(Step(l, ev), gone + GoneBy(l, ev), all)
  {
    hide W.Refines, P.Sound, W.Turn, DeleteAll, SoundTick;
    WheelStep(l, ev, gone, all);
    assert GoneBy(l, ev) == {} ==> gone + GoneBy(l, ev) == gone;
    match ev
    case Add(fd) =>
      AddKeeps(l.pools, fd, gone, all);
    case Connect(c) =>
    case Read(c) =>
    case Drop(pool, _) => DropKeeps(l.pools, pool, gone, all);
    case Release(c) =>
    case Tick(order) =>
      ClosedExpire(l, gone, all);
      TickKeeps(l, order, gone, all);
  }

  lemma ClosedExpire(l: Link, gone: set<P.Robot>, all: set<P.Robot>)
    requires Coupled(l, gone, all)
    ensures W.ClosedBy(l.wheel) == W.Expiring(l.stamps) * l.stamps.live
  {
    W.ClosedAreExpiring(l.wheel, l.stamps);
  }

  // ----- runs

  ghost predicate PossibleRun(l: Link, evs: seq<Event>)
    decreases |evs|
  {
    evs != [] ==> Possible(l, evs[0]) && PossibleRun(Step(l, evs[0]), evs[1..])
  }

  ghost function Run(l: Link, evs: seq<Event>): Link
    requires PossibleRun(l, evs)
    decreases |evs|
  {
    if evs == [] then l else Run(Step(l, evs[0]), evs[1..])
  }

  /** Wheel, stamps and pools are sound before and after every event, and throughout every tick. */
  ghost predicate SoundRun(l: Link, evs: seq<Event>, gone: set<P.Robot>, all: set<P.Robot>)
    requires PossibleRun(l, evs)
    decreases |evs|
  {
    && Coupled(l, gone, all)
    && (evs != [] ==>
          && (evs[0].Tick? ==> SoundTick(l, evs[0].order, gone, all))
          && SoundRun(Step(l, evs[0]), evs[1..], gone + GoneBy(l, evs[0]), all))
  }

  ghost predicate HarmlessTicks(l: Link, evs: seq<Event>)
    requires PossibleRun(l, evs)
    decreases |evs|
  {
    evs != [] ==>
      && (evs[0].Tick? ==> HarmlessTick(l, evs[0].order))
      && HarmlessTicks(Step(l, evs[0]), evs[1..])
  }

  lemma {:induction false} RunSoundIff(l: Link, evs: seq<Event>, gone: set<P.Robot>, all: set<P.Robot>)
    requires Coupled(l, gone, all) && PossibleRun(l, evs)
    ensures SoundRun(l, evs, gone, all) <==> HarmlessTicks(l, evs)
    decreases |evs|
  {
    hide Coupled, Step, GoneBy, SoundTick, HarmlessTick;
    if evs != [] {
      if evs[0].Tick? {
        TickSoundIff(l, evs[0].order, gone, all);
      }
      if evs[0].Tick? ==> SoundTick(l, evs[0].order, gone, all) {
        StepCoupled(l, evs[0], gone, all);
        RunSoundIff(Step(l, evs[0]), evs[1..], gone + GoneBy(l, evs[0]), all);
      }
    }
  }

  function Begin(robots: seq<P.Robot>): Link {
    Link(W.START_WHEEL, W.START_STAMPS, P.Initial(robots))
  }

  lemma BeginCoupled(robots: seq<P.Robot>)
    requires Distinct(robots)
    ensures Coupled(Begin(robots), {}, set r | r in robots)
  {
  }

  /**
    From any list of distinct robots, over every interleaving of robots put to work, connects,
    reads, closes of all kinds and ticks: robots stay in exactly one place each and the wheel stays
    the table of last activities, throughout, iff every tick is harmless.
   */
  lemma IdleRobotsReturn(robots: seq<P.Robot>, evs: seq<Event>)
    requires Distinct(robots) && PossibleRun(Begin(robots), evs)
    ensures SoundRun(Begin(robots), evs, {}, set r | r in robots) <==> HarmlessTicks(Begin(robots), evs)
  {
    BeginCoupled(robots);
    RunSoundIff(Begin(robots), evs, {}, set r | r in robots);
  }

  // ----- a run that ends badly

  lemma {:induction false} RunConcat(l: Link, a: seq<Event>, b: seq<Event>)
    requires PossibleRun(l, a) && PossibleRun(Run(l, a), b)
    ensures PossibleRun(l, a + b) && Run(l, a + b) == Run(Run(l, a), b)
    decreases |a|
  {
    if a == [] {
      assert a + b == b;
    } else {
      assert (a + b)[0] == a[0] && (a + b)[1..] == a[1..] + b;
      RunConcat(Step(l, a[0]), a[1..], b);
    }
  }

  /** Robot 1 is back among the idle, and connection 0, off the table, still has its buffer pointer. */
  const STALE_POOLS := P.Pools([1], [], map[], map[0 := 1], map[0 := 7], {0}, 1)

  /** Connection 0 came up at tick 0; now it is tick `n`. */
  ghost predicate Waiting(l: Link, n: nat) {
    Coupled(l, {}, {1}) && l.pools == STALE_POOLS && l.stamps == W.Stamps(n, map[0 := 0], {0}, {0})
  }

  function Idle(k: nat): seq<Event> {
    seq(k, _ => Tick([]))
  }

  const UP_POOLS := P.Pools([], [1], map[7 := 0], map[0 := 1], map[0 := 7], {0}, 1)

  lemma StaleAdded() returns (l: Link)
    ensures Possible(Begin([1]), Add(7)) && l == Step(Begin([1]), Add(7))
    ensures Coupled(l, {}, {1}) && l.pools == UP_POOLS && l.stamps == W.START_STAMPS
  {
    hide W.Refines, P.Sound, W.Turn;
    BeginCoupled([1]);
    assert (set r | r in [1]) == {1};
    l := Step(Begin([1]), Add(7));
    StepCoupled(Begin([1]), Add(7), {}, {1});
    assert {} + GoneBy(Begin([1]), Add(7)) == {};
  }

  lemma StaleConnected(l: Link) returns (l': Link)
    requires Coupled(l, {}, {1}) && l.pools == UP_POOLS && l.stamps == W.START_STAMPS
    ensures Possible(l, Connect(0)) && l' == Step(l, Connect(0))
    ensures Coupled(l', {}, {1}) && l'.pools == UP_POOLS && l'.stamps == W.Stamps(0, map[0 := 0], {0}, {0})
  {
    hide W.Refines, P.Sound, W.Turn;
    BucketsThere(l);
    l' := Step(l, Connect(0));
    StepCoupled(l, Connect(0), {}, {1});
  }

  lemma StaleDropped(l: Link) returns (l': Link)
    requires Coupled(l, {}, {1}) && l.pools == UP_POOLS && l.stamps == W.Stamps(0, map[0 := 0], {0}, {0})
    ensures Possible(l, Drop(P.ServerClose(0), true)) && l' == Step(l, Drop(P.ServerClose(0), true))
    ensures Waiting(l', 0)
  {
    hide W.Refines, P.Sound, W.Turn;
    BucketsThere(l);
    l' := Step(l, Drop(P.ServerClose(0), true));
    StepCoupled(l, Drop(P.ServerClose(0), true), {}, {1});
    assert {} + GoneBy(l, Drop(P.ServerClose(0), true)) == {};
  }

  lemma RunFrom(l: Link, evs: seq<Event>)
    requires evs != [] && Possible(l, evs[0]) && PossibleRun(Step(l, evs[0]), evs[1..])
    ensures PossibleRun(l, evs) && Run(l, evs) == Run(Step(l, evs[0]), evs[1..])
  {
  }

  lemma StaleStarts() returns (l: Link)
    ensures var evs := [Add(7), Connect(0), Drop(P.ServerClose(0), true)];
      PossibleRun(Begin([1]), evs) && l == Run(Begin([1]), evs)
    ensures Waiting(l, 0)
  {
    hide Step, Possible, Coupled, Waiting;
    var l0 := Begin([1]);
    var l1 := StaleAdded();
    var l2 := StaleConnected(l1);
    l := StaleDropped(l2);
    var evs := [Add(7), Connect(0), Drop(P.ServerClose(0), true)];
    assert evs[1..] == [Connect(0), Drop(P.ServerClose(0), true)];
    assert evs[1..][1..] == [Drop(P.ServerClose(0), true)];
    assert evs[1..][1..][1..] == [];
    assert PossibleRun(l, []) && Run(l, []) == l;
    RunFrom(l2, [Drop(P.ServerClose(0), true)]);
    RunFrom(l1, [Connect(0), Drop(P.ServerClose(0), true)]);
    RunFrom(l0, evs);
  }

  lemma BucketsThere(l: Link)
    requires Coupled(l, {}, {1})
    ensures l.wheel.buckets != []
  {
  }

  lemma OneTickWaits(l: Link, n: nat)
    requires Waiting(l, n) && n < 29
    ensures Possible(l, Tick([])) && Waiting(Step(l, Tick([])), n + 1)
  {
    hide W.Refines, P.Sound, W.Turn, P.Handle;
    BucketsThere(l);
    ClosedExpire(l, {}, {1});
    assert W.Expiring(l.stamps) == {};
    assert P.Sound(l.pools, {}, {1});
    StepCoupled(l, Tick([]), {}, {1});
  }

  lemma {:induction false} TicksWait(l: Link, n: nat, k: nat)
    requires Waiting(l, n) && n + k <= 29
    ensures PossibleRun(l, Idle(k)) && Waiting(Run(l, Idle(k)), n + k)
    decreases k
  {
    hide Waiting, Possible, Step;
    if k > 0 {
      OneTickWaits(l, n);
      assert Idle(k)[1..] == Idle(k - 1);
      TicksWait(Step(l, Tick([])), n + 1, k - 1);
    }
  }

  /** After twenty-nine ticks the next one lets go of the connection, and lists its robot twice. */
  lemma ThirtiethTickBreaks(l: Link)
    requires Waiting(l, 29)
    ensures Stale(l, 0) && Possible(l, Tick([0])) && !P.Sound(Step(l, Tick([0])).pools, {}, {1})
  {
    ClosedExpire(l, {}, {1});
    assert W.Expiring(l.stamps) == {0};
    StaleExpiryBreaks(l, 0, {}, {1});
  }

  /**
    Such a run exists: a robot is put to work, its connection comes up and is closed by the server
    while a delayed message holds on to it, and thirty ticks go by.
   */
  lemma StaleRunBreaks()
    ensures var evs := [Add(7), Connect(0), Drop(P.ServerClose(0), true)] + Idle(29) + [Tick([0])];
      && PossibleRun(Begin([1]), evs)
      && !P.Sound(Run(Begin([1]), evs).pools, {}, {1})
  {
    hide Step, Possible, Coupled;
    var l0 := Begin([1]);
    var start := [Add(7), Connect(0), Drop(P.ServerClose(0), true)];
    var l := StaleStarts();
    TicksWait(l, 0, 29);
    RunConcat(l0, start, Idle(29));
    var l' := Run(l, Idle(29));
    ThirtiethTickBreaks(l');
    assert PossibleRun(l', [Tick([0])]) && Run(l', [Tick([0])]) == Step(l', Tick([0])) by {
      assert [Tick([0])][1..] == [];
    }
    RunConcat(l0, start + Idle(29), [Tick([0])]);
  }
}
