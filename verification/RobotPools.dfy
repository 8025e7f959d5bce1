/**
  The pools of idle and busy robots (`AddRobot`, `DelRobot`, `DelRobotAndCloseConnection`, the three
  `MoveRobot..` functions, and the connection table of the TCP server).
 */
module RobotPools {
  import opened Lists

  type Fd = int
  type Conn = nat
  type Robot = int

  /**
    Idle robots, busy robots, the connection table, and of every connection object ever made its
    robot, its descriptor and whether its buffer pointer is still set.
   */
  datatype Pools = Pools(
    task: seq<Robot>, untask: seq<Robot>, open: map<Fd, Conn>,
    robot: map<Conn, Robot>, fd: map<Conn, Fd>, hasBuffer: set<Conn>, next: Conn)

  /** A new connection for the next idle robot, a close by the server, and the two kinds of delete. */
  datatype Event = Add(fd: Fd) | ServerClose(c: Conn) | Delete(c: Conn) | DeleteAndClose(c: Conn)

  function ToUntask(p: Pools, fd: Fd): Pools
    requires p.task != []
  {
    var r := p.task[0];
    Pools(p.task[1..], p.untask + [r], p.open[fd := p.next], p.robot[p.next := r], p.fd[p.next := fd],
          p.hasBuffer + {p.next}, p.next + 1)
  }

  /** Back to the idle robots: appended there, and its first occurrence among the busy ones erased. */
  function ToTask(p: Pools, c: Conn): Pools
    requires c in p.robot
  {
    p.(task := p.task + [p.robot[c]], untask := RemoveFirst(p.untask, p.robot[c]))
  }

  function OffUntask(p: Pools, c: Conn): Pools
    requires c in p.robot
  {
    p.(untask := RemoveFirst(p.untask, p.robot[c]))
  }

  function OffTable(p: Pools, c: Conn): Pools
    requires c in p.fd
  {
    p.(open := p.open - {p.fd[c]})
  }

  function Closed(p: Pools, c: Conn): Pools
    requires c in p.fd
  {
    OffTable(p, c).(hasBuffer := p.hasBuffer - {c})
  }

  predicate Made(p: Pools, c: Conn) {
    c in p.robot && c in p.fd
  }

  /** What an event does; a close by the server leaves the buffer pointer set. */
  function Handle(p: Pools, ev: Event): Pools
    requires ev.Add? || Made(p, ev.c)
  {
    match ev
    case Add(fd) => if p.task == [] then p else ToUntask(p, fd)
    case ServerClose(c) => OffTable(ToTask(p, c), c)
    case Delete(c) => if c in p.hasBuffer then Closed(ToTask(p, c), c) else p
    case DeleteAndClose(c) => if c in p.hasBuffer then OffUntask(Closed(p, c), c) else p
  }

  /** The event concerns a connection still in the table; a new one gets an unused descriptor. */
  predicate Possible(p: Pools, ev: Event) {
    match ev
    case Add(fd) => fd !in p.open
    case ServerClose(c) => InTable(p, c)
    case Delete(c) => InTable(p, c)
    case DeleteAndClose(c) => InTable(p, c)
  }

  predicate InTable(p: Pools, c: Conn) {
    Made(p, c) && p.fd[c] in p.open && p.open[p.fd[c]] == c
  }

  /** The robots an event takes out of the game for good. */
  function Gone(p: Pools, ev: Event): set<Robot> {
    match ev
    case DeleteAndClose(c) => if Made(p, c) && c in p.hasBuffer then {p.robot[c]} else {}
    case _ => {}
  }

  // ----- the invariant

  /** Open connections are made, still have their buffer, and serve pairwise different robots. */
  ghost predicate TableSound(p: Pools) {
    && (forall fd :: fd in p.open ==> InTable(p, p.open[fd]) && p.fd[p.open[fd]] == fd && p.open[fd] in p.hasBuffer)
    && (forall fd, gd :: fd in p.open && gd in p.open && p.robot[p.open[fd]] == p.robot[p.open[gd]] ==> fd == gd)
    && (forall c :: c in p.robot || c in p.fd || c in p.hasBuffer ==> c < p.next)
  }

  /** Busy robots are exactly those of the open connections. */
  ghost predicate BusyMatchesTable(p: Pools)
    requires TableSound(p)
  {
    && (forall fd :: fd in p.open ==> p.robot[p.open[fd]] in p.untask)
    && (forall r :: r in p.untask ==> exists fd :: fd in p.open && p.robot[p.open[fd]] == r)
  }

  /** Every robot is in exactly one place: idle, busy or gone; nothing is listed twice. */
  ghost predicate Partition(p: Pools, gone: set<Robot>, all: set<Robot>) {
    && Distinct(p.task) && Distinct(p.untask)
    && (forall r :: r in all <==> r in p.task || r in p.untask || r in gone)
    && (forall r :: !(r in p.task && r in p.untask))
    && (forall r :: r in gone ==> r !in p.task && r !in p.untask)
  }

  /** Every connection ever made was made for a robot of the game. */
  ghost predicate Known(p: Pools, all: set<Robot>) {
    forall c :: c in p.robot ==> p.robot[c] in all
  }

  ghost predicate Sound(p: Pools, gone: set<Robot>, all: set<Robot>) {
    TableSound(p) && BusyMatchesTable(p) && Partition(p, gone, all) && Known(p, all)
  }

  lemma AddPartition(p: Pools, fd: Fd, gone: set<Robot>, all: set<Robot>)
    requires Partition(p, gone, all) && p.task != []
    ensures Partition(ToUntask(p, fd), gone, all)
  {
    var q := ToUntask(p, fd);
    var r := p.task[0];
    assert p.task == [r] + p.task[1..];
    assert r in p.task && r !in p.untask;
    AppendDistinct(p.untask, r);
    assert forall x :: x in q.task <==> x in p.task && x != r;
    assert forall x :: x in q.untask <==> x in p.untask || x == r;
  }

  lemma AddTable(p: Pools, fd: Fd)
    requires TableSound(p) && BusyMatchesTable(p) && fd !in p.open && p.task != [] && p.task[0] !in p.untask
    ensures TableSound(ToUntask(p, fd)) && BusyMatchesTable(ToUntask(p, fd))
  {
    var q := ToUntask(p, fd);
    var r := p.task[0];
    assert TableSound(q);
    forall x | x in q.untask
      ensures exists gd :: gd in q.open && q.robot[q.open[gd]] == x
    {
      if x == r {
        assert q.robot[q.open[fd]] == x;
      } else {
        var gd :| gd in p.open && p.robot[p.open[gd]] == x;
        assert q.robot[q.open[gd]] == x;
      }
    }
  }

  lemma AddSound(p: Pools, fd: Fd, gone: set<Robot>, all: set<Robot>)
    requires Sound(p, gone, all) && fd !in p.open && p.task != []
    ensures Sound(ToUntask(p, fd), gone, all)
  {
    hide TableSound, BusyMatchesTable;
    assert p.task[0] in p.task;
    AddPartition(p, fd, gone, all);
    AddTable(p, fd);
  }

  /** The descriptor of `c` is open, for `c` or for a later connection of the same robot. */
  predicate Serves(p: Pools, c: Conn) {
    Made(p, c) && p.fd[c] in p.open && p.open[p.fd[c]] in p.robot && p.robot[p.open[p.fd[c]]] == p.robot[c]
  }

  /** Taking a robot's descriptor off the table and the robot off the busy list keeps the two matched. */
  lemma ReleaseMatches(p: Pools, c: Conn, q: Pools)
    requires TableSound(p) && BusyMatchesTable(p) && Distinct(p.untask) && Serves(p, c)
    requires q.robot == p.robot && q.fd == p.fd && q.next == p.next && q.open == p.open - {p.fd[c]}
    requires q.hasBuffer == p.hasBuffer || q.hasBuffer == p.hasBuffer - {c}
    requires q.untask == RemoveFirst(p.untask, p.robot[c])
    ensures TableSound(q) && BusyMatchesTable(q) && Distinct(q.untask)
    ensures forall r :: r in q.untask <==> r in p.untask && r != p.robot[c]
    ensures p.robot[c] in p.untask
  {
    RemoveFirstDistinct(p.untask, p.robot[c]);
    assert TableSound(q);
    forall r | r in q.untask
      ensures exists fd :: fd in q.open && q.robot[q.open[fd]] == r
    {
      var fd :| fd in p.open && p.robot[p.open[fd]] == r;
      assert fd in q.open;
    }
    ServesFacts(p, c);
    forall fd | fd in q.open
      ensures q.robot[q.open[fd]] in q.untask
    {
      assert fd in p.open && p.robot[p.open[fd]] in p.untask;
      assert p.robot[p.open[fd]] != p.robot[c];
    }
  }

  lemma ServesFacts(p: Pools, c: Conn)
    requires TableSound(p) && BusyMatchesTable(p) && Serves(p, c)
    ensures p.robot[c] in p.untask
    ensures forall fd :: fd in p.open && fd != p.fd[c] ==> p.robot[p.open[fd]] != p.robot[c]
  {
    var gd := p.fd[c];
    forall fd | fd in p.open && fd != gd
      ensures p.robot[p.open[fd]] != p.robot[c]
    {
      assert fd in p.open && gd in p.open;
    }
  }

  lemma InTableFacts(p: Pools, c: Conn)
    requires TableSound(p) && InTable(p, c)
    ensures c in p.hasBuffer && Serves(p, c)
  {
    var gd := p.fd[c];
    assert gd in p.open && p.open[gd] == c;
  }

  /** A robot handed back is the last of the idle; the others keep their places. */
  lemma HandsBackLast(p: Pools, c: Conn, ev: Event, gone: set<Robot>, all: set<Robot>)
    requires Sound(p, gone, all) && InTable(p, c) && (ev == ServerClose(c) || ev == Delete(c))
    ensures var q, r := Handle(p, ev), p.robot[c];
      && q.task == p.task + [r] && r !in q.untask && r in p.untask
      && (exists i :: 0 <= i < |p.untask| && p.untask[i] == r && q.untask == p.untask[..i] + p.untask[i + 1..])
      && q.open == p.open - {p.fd[c]}
  {
    InTableFacts(p, c);
    ServesFacts(p, c);
    RemoveFirstDistinct(p.untask, p.robot[c]);
    var i := IndexOf(p.untask, p.robot[c]);
    assert p.untask[i] == p.robot[c];
  }

  lemma ReleaseSound(p: Pools, ev: Event, gone: set<Robot>, all: set<Robot>)
    requires Sound(p, gone, all) && !ev.Add? && Serves(p, ev.c)
    requires ev.ServerClose? || ev.c in p.hasBuffer
    ensures Sound(Handle(p, ev), gone + Gone(p, ev), all)
  {
    var q := Handle(p, ev);
    var r := p.robot[ev.c];
    ServesFacts(p, ev.c);
    ReleaseMatches(p, ev.c, q);
    if !ev.DeleteAndClose? {
      assert r !in p.task;
      AppendDistinct(p.task, r);
      assert forall x :: x in q.task <==> x in p.task || x == r;
    }
  }

  // ----- exactly when an event is harmless

  /** The event concerns a connection that was made, in the table or not. */
  predicate Addressed(p: Pools, ev: Event) {
    match ev
    case Add(fd) => fd !in p.open
    case ServerClose(c) => Made(p, c)
    case Delete(c) => Made(p, c)
    case DeleteAndClose(c) => Made(p, c)
  }

  /** The robot of `c` was deleted, and its descriptor is not in use. */
  predicate LongGone(p: Pools, c: Conn) {
    Made(p, c) && p.robot[c] !in p.task && p.robot[c] !in p.untask && p.fd[c] !in p.open
  }

  predicate Harmless(p: Pools, ev: Event) {
    match ev
    case Add(fd) => true
    case ServerClose(c) => Serves(p, c)
    case Delete(c) => c !in p.hasBuffer || Serves(p, c)
    case DeleteAndClose(c) => c !in p.hasBuffer || Serves(p, c) || LongGone(p, c)
  }

  /** With its descriptor closed or used for another robot, handing back a robot breaks the identities. */
  lemma HandBackBreaks(p: Pools, ev: Event, gone: set<Robot>, all: set<Robot>)
    requires Sound(p, gone, all) && !ev.Add? && Made(p, ev.c) && !Serves(p, ev.c)
    requires ev.ServerClose? || (ev.Delete? && ev.c in p.hasBuffer)
    ensures !Sound(Handle(p, ev), gone + Gone(p, ev), all)
  {
    var q := Handle(p, ev);
    var r := p.robot[ev.c];
    RemoveFirstDistinct(p.untask, r);
    assert q.task[|p.task|] == r;
    if r in p.task {
      var i :| 0 <= i < |p.task| && p.task[i] == r;
      assert q.task[i] == q.task[|p.task|];
    } else if r in p.untask {
      StillOpen(p, ev.c, q);
    }
  }

  /** A busy robot whose connection is another one stays in the table when it leaves the busy list. */
  lemma StillOpen(p: Pools, c: Conn, q: Pools)
    requires TableSound(p) && BusyMatchesTable(p) && Made(p, c) && !Serves(p, c) && p.robot[c] in p.untask
    requires q.robot == p.robot && q.open == p.open - {p.fd[c]} && p.robot[c] !in q.untask
    ensures !(TableSound(q) && BusyMatchesTable(q))
  {
    var r := p.robot[c];
    assert r in p.untask;
    var fd :| fd in p.open && p.robot[p.open[fd]] == r;
    assert fd in q.open && q.robot[q.open[fd]] == r;
  }

  lemma DeletingBreaks(p: Pools, c: Conn, gone: set<Robot>, all: set<Robot>)
    requires Sound(p, gone, all) && Made(p, c) && c in p.hasBuffer && !Serves(p, c) && !LongGone(p, c)
    ensures !Sound(Handle(p, DeleteAndClose(c)), gone + Gone(p, DeleteAndClose(c)), all)
  {
    var q := Handle(p, DeleteAndClose(c));
    var r := p.robot[c];
    RemoveFirstDistinct(p.untask, r);
    if r in p.untask {
      StillOpen(p, c, q);
    } else if r !in p.task {
      assert p.fd[c] in p.open;
      var o := p.open[p.fd[c]];
      assert InTable(p, o) && p.fd[o] == p.fd[c];
      ServesFacts(p, o);
      assert p.robot[o] in q.untask;
    }
  }

  lemma LongGoneSound(p: Pools, c: Conn, gone: set<Robot>, all: set<Robot>)
    requires Sound(p, gone, all) && LongGone(p, c) && c in p.hasBuffer
    ensures Sound(Handle(p, DeleteAndClose(c)), gone + Gone(p, DeleteAndClose(c)), all)
  {
    var q := Handle(p, DeleteAndClose(c));
    RemoveFirstDistinct(p.untask, p.robot[c]);
    assert q.open == p.open && q.untask == p.untask;
    assert gone + Gone(p, DeleteAndClose(c)) == gone;
  }

  /** An event on any connection ever made keeps the identities iff it is harmless. */
  lemma HandleSoundIff(p: Pools, ev: Event, gone: set<Robot>, all: set<Robot>)
    requires Sound(p, gone, all) && Addressed(p, ev)
    ensures Sound(Handle(p, ev), gone + Gone(p, ev), all) <==> Harmless(p, ev)
  {
    hide Sound, Serves, LongGone;
    assert Gone(p, ev) == {} ==> gone + Gone(p, ev) == gone;
    match ev
    case Add(fd) =>
      if p.task != [] {
        AddSound(p, fd, gone, all);
      }
    case ServerClose(c) =>
      if Serves(p, c) {
        ReleaseSound(p, ev, gone, all);
      } else {
        HandBackBreaks(p, ev, gone, all);
      }
    case Delete(c) =>
      if c in p.hasBuffer {
        if Serves(p, c) {
          ReleaseSound(p, ev, gone, all);
        } else {
          HandBackBreaks(p, ev, gone, all);
        }
      }
    case DeleteAndClose(c) =>
      if c in p.hasBuffer {
        if Serves(p, c) {
          ReleaseSound(p, ev, gone, all);
        } else if LongGone(p, c) {
          LongGoneSound(p, c, gone, all);
        } else {
          DeletingBreaks(p, c, gone, all);
        }
      }
  }

  /** In particular every event on a connection in the table is harmless. */
  lemma HandleSound(p: Pools, ev: Event, gone: set<Robot>, all: set<Robot>)
    requires Sound(p, gone, all) && Possible(p, ev)
    ensures Sound(Handle(p, ev), gone + Gone(p, ev), all)
  {
    if !ev.Add? {
      InTableFacts(p, ev.c);
    }
    HandleSoundIff(p, ev, gone, all);
  }

  // ----- runs

  function Initial(robots: seq<Robot>): Pools {
    Pools(robots, [], map[], map[], map[], {}, 0)
  }

  predicate PossibleRun(p: Pools, evs: seq<Event>)
    decreases |evs|
  {
    evs == [] || (Possible(p, evs[0]) && PossibleRun(Handle(p, evs[0]), evs[1..]))
  }

  function Run(p: Pools, evs: seq<Event>): Pools
    requires PossibleRun(p, evs)
    decreases |evs|
  {
    if evs == [] then p else Run(Handle(p, evs[0]), evs[1..])
  }

  function AllGone(p: Pools, evs: seq<Event>): set<Robot>
    requires PossibleRun(p, evs)
    decreases |evs|
  {
    if evs == [] then {} else Gone(p, evs[0]) + AllGone(Handle(p, evs[0]), evs[1..])
  }

  lemma {:induction false} RunSound(p: Pools, evs: seq<Event>, gone: set<Robot>, all: set<Robot>)
    requires Sound(p, gone, all) && PossibleRun(p, evs)
    ensures Sound(Run(p, evs), gone + AllGone(p, evs), all)
    decreases |evs|
  {
    if evs == [] {
      assert gone + AllGone(p, evs) == gone;
    } else {
      HandleSound(p, evs[0], gone, all);
      RunSound(Handle(p, evs[0]), evs[1..], gone + Gone(p, evs[0]), all);
      assert gone + AllGone(p, evs) == gone + Gone(p, evs[0]) + AllGone(Handle(p, evs[0]), evs[1..]);
    }
  }

  /**
    From any list of distinct robots and over every run, each robot is in exactly one of the idle
    list, the busy list and the deleted ones, none is listed twice, and the busy list matches the
    open connections one to one.
   */
  lemma IdentitiesConserved(robots: seq<Robot>, evs: seq<Event>)
    requires Distinct(robots) && PossibleRun(Initial(robots), evs)
    ensures Sound(Run(Initial(robots), evs), AllGone(Initial(robots), evs), set r | r in robots)
  {
    var all := set r | r in robots;
    RunSound(Initial(robots), evs, {}, all);
    assert {} + AllGone(Initial(robots), evs) == AllGone(Initial(robots), evs);
  }

  ghost predicate AddressedRun(p: Pools, evs: seq<Event>)
    decreases |evs|
  {
    evs == [] || (Addressed(p, evs[0]) && AddressedRun(Handle(p, evs[0]), evs[1..]))
  }

  /** The identities hold before and after every event of the run. */
  ghost predicate SoundThroughout(p: Pools, evs: seq<Event>, gone: set<Robot>, all: set<Robot>)
    requires AddressedRun(p, evs)
    decreases |evs|
  {
    Sound(p, gone, all)
    && (evs != [] ==> SoundThroughout(Handle(p, evs[0]), evs[1..], gone + Gone(p, evs[0]), all))
  }

  ghost predicate HarmlessRun(p: Pools, evs: seq<Event>)
    requires AddressedRun(p, evs)
    decreases |evs|
  {
    evs == [] || (Harmless(p, evs[0]) && HarmlessRun(Handle(p, evs[0]), evs[1..]))
  }

  /** Over a run on connections in the table or not, identities hold throughout iff no event harms. */
  lemma {:induction false} RunSoundIff(p: Pools, evs: seq<Event>, gone: set<Robot>, all: set<Robot>)
    requires Sound(p, gone, all) && AddressedRun(p, evs)
    ensures SoundThroughout(p, evs, gone, all) <==> HarmlessRun(p, evs)
    decreases |evs|
  {
    hide Sound, Harmless, Handle, Gone;
    if evs != [] {
      HandleSoundIff(p, evs[0], gone, all);
      if Harmless(p, evs[0]) {
        RunSoundIff(Handle(p, evs[0]), evs[1..], gone + Gone(p, evs[0]), all);
      } else {
        assert !SoundThroughout(Handle(p, evs[0]), evs[1..], gone + Gone(p, evs[0]), all);
      }
    }
  }

  /** Deleting again a connection that was deleted once changes nothing. */
  lemma SecondDeleteIsNothing(p: Pools, c: Conn, first: Event, second: Event)
    requires Made(p, c) && first in {Delete(c), DeleteAndClose(c)} && second in {Delete(c), DeleteAndClose(c)}
    ensures Made(Handle(p, first), c)
    ensures Handle(Handle(p, first), second) == Handle(p, first)
  {
  }

  /**
    After a close by the server the buffer pointer is still set: were a delete to reach the same
    connection object after that, it would list the robot a second time among the idle ones.
   */
  lemma DeleteAfterServerClose(p: Pools, c: Conn, gone: set<Robot>, all: set<Robot>)
    requires Sound(p, gone, all) && InTable(p, c)
    ensures Made(Handle(p, ServerClose(c)), c)
    ensures !Harmless(Handle(p, ServerClose(c)), Delete(c))
    ensures !Distinct(Handle(Handle(p, ServerClose(c)), Delete(c)).task)
  {
    var q := Handle(p, ServerClose(c));
    InTableFacts(p, c);
    var t := Handle(q, Delete(c)).task;
    assert t == p.task + [p.robot[c]] + [p.robot[c]];
    assert t[|p.task|] == t[|p.task| + 1];
  }

  // ----- the pools as the event loop keeps them

  class RobotManager {
    var taskRobotList: seq<Robot>
    var untaskRobotList: seq<Robot>
    var mapConn: map<Fd, Conn>
    var connRobot: map<Conn, Robot>
    var connFd: map<Conn, Fd>
    var bufferExists: set<Conn>
    var nextConn: Conn

    constructor (robots: seq<Robot>)
      ensures State() == Initial(robots)
    {
      taskRobotList, untaskRobotList := robots, [];
      mapConn, connRobot, connFd, bufferExists, nextConn := map[], map[], map[], {}, 0;
    }

    function State(): Pools
      reads this
    {
      Pools(taskRobotList, untaskRobotList, mapConn, connRobot, connFd, bufferExists, nextConn)
    }

    /** A new connection object with the given descriptor, which is not in use, entered in the table. */
    method CreateConnection(fd: Fd) returns (conn: Conn)
      requires fd !in mapConn
      modifies `mapConn, `connFd, `bufferExists, `nextConn
      ensures conn == old(nextConn)
      ensures State() == old(State()).(open := old(mapConn)[fd := conn], fd := old(connFd)[conn := fd],
                                       hasBuffer := old(bufferExists) + {conn}, next := conn + 1)
    {
      conn := nextConn;
      mapConn, connFd := mapConn[fd := conn], connFd[conn := fd];
      bufferExists, nextConn := bufferExists + {conn}, nextConn + 1;
    }

    method MoveRobotFromTaskListToUntaskList(conn: Conn)
      requires taskRobotList != []
      modifies `taskRobotList, `untaskRobotList, `connRobot
      ensures connRobot == old(connRobot)[conn := old(taskRobotList)[0]]
      ensures taskRobotList == old(taskRobotList)[1..]
      ensures untaskRobotList == old(untaskRobotList) + [old(taskRobotList)[0]]
    {
      connRobot := connRobot[conn := taskRobotList[0]];
      taskRobotList := taskRobotList[1..];
      untaskRobotList := untaskRobotList + [connRobot[conn]];
    }

    /** Erase the connection's robot from the busy list, if it is there. */
    method MoveRobotFromUntaskList(conn: Conn)
      requires conn in connRobot
      modifies `untaskRobotList
      ensures State() == OffUntask(old(State()), conn)
    {
      var i := FindIndex(untaskRobotList, connRobot[conn]);
      if i < |untaskRobotList| {
        untaskRobotList := untaskRobotList[..i] + untaskRobotList[i + 1..];
      }
    }

    method MoveRobotFromUntaskListToTaskList(conn: Conn)
      requires conn in connRobot
      modifies `taskRobotList, `untaskRobotList
      ensures State() == ToTask(old(State()), conn)
    {
      taskRobotList := taskRobotList + [connRobot[conn]];
      MoveRobotFromUntaskList(conn);
    }

    method CloseConnection(conn: Conn)
      requires conn in connFd
      modifies `mapConn, `bufferExists
      ensures State() == Closed(old(State()), conn)
    {
      bufferExists := bufferExists - {conn};
      mapConn := mapConn - {connFd[conn]};
    }

    /** The server or the network ended the connection. */
    method CloseEvent(conn: Conn)
      requires Made(State(), conn)
      modifies `taskRobotList, `untaskRobotList, `mapConn
      ensures State() == Handle(old(State()), ServerClose(conn))
    {
      MoveRobotFromUntaskListToTaskList(conn);
      mapConn := mapConn - {connFd[conn]};
    }

    method DelRobot(conn: Conn) returns (ok: bool)
      requires Made(State(), conn)
      modifies `taskRobotList, `untaskRobotList, `mapConn, `bufferExists
      ensures ok <==> conn in old(bufferExists)
      ensures State() == Handle(old(State()), Delete(conn))
    {
      if conn !in bufferExists {
        return false;
      }
      MoveRobotFromUntaskListToTaskList(conn);
      CloseConnection(conn);
      return true;
    }

    method DelRobotAndCloseConnection(conn: Conn) returns (ok: bool)
      requires Made(State(), conn)
      modifies `untaskRobotList, `mapConn, `bufferExists
      ensures ok <==> conn in old(bufferExists)
      ensures State() == Handle(old(State()), DeleteAndClose(conn))
    {
      if conn !in bufferExists {
        return false;
      }
      CloseConnection(conn);
      MoveRobotFromUntaskList(conn);
      return true;
    }

    /**
      Put up to `robotNum` idle robots to work.  `fds` are the descriptors the system hands out, one
      a connection; it runs dry when creating a connection fails.
     */
    method AddRobot(robotNum: int, fds: seq<Fd>) returns (ok: bool, used: nat)
      requires Distinct(fds) && forall i :: 0 <= i < |fds| ==> fds[i] !in mapConn
      modifies this
      ensures used <= |fds| && State() == AddAll(old(State()), fds[..used])
      ensures used <= |old(taskRobotList)|
      ensures robotNum >= 0 ==> used <= robotNum
      ensures ok <==> used == robotNum || used == |old(taskRobotList)|
      ensures !ok ==> used == |fds|
    {
      var n := robotNum;
      used := 0;
      while n != 0 && taskRobotList != []
        invariant used <= |fds| && State() == AddAll(old(State()), fds[..used])
        invariant forall i :: used <= i < |fds| ==> fds[i] !in mapConn
        invariant n == robotNum - used && (robotNum >= 0 ==> 0 <= n)
        invariant |taskRobotList| == |old(taskRobotList)| - used
        decreases |taskRobotList|
      {
        if used == |fds| {
          return false, used;
        }
        var conn := CreateConnection(fds[used]);
        MoveRobotFromTaskListToUntaskList(conn);
        assert fds[..used + 1][..used] == fds[..used];
        used := used + 1;
        n := n - 1;
      }
      ok := true;
    }
  }

  /** One `Add` after another. */
  function AddAll(p: Pools, fds: seq<Fd>): Pools {
    if fds == [] then p else Handle(AddAll(p, fds[..|fds| - 1]), Add(fds[|fds| - 1]))
  }

  /** Connection `c` was made for that robot, with that descriptor. */
  predicate MadeFor(p: Pools, c: Conn, robot: Robot, fd: Fd) {
    c in p.robot && p.robot[c] == robot && c in p.fd && p.fd[c] == fd
  }

  /**
    The idle robots go to work in their order, from the front: the first `n` of them become the last
    busy ones, and each serves the connection made for it.
   */
  lemma {:induction false} AddAllInOrder(p: Pools, fds: seq<Fd>)
    requires |fds| <= |p.task|
    ensures var q, n := AddAll(p, fds), |fds|;
      && q.task == p.task[n..] && q.untask == p.untask + p.task[..n] && q.next == p.next + n
      && forall i :: 0 <= i < n ==> MadeFor(q, p.next + i, p.task[i], fds[i])
    decreases |fds|
  {
    if fds != [] {
      var n := |fds| - 1;
      AddAllInOrder(p, fds[..n]);
      var q := AddAll(p, fds[..n]);
      assert q.task[0] == p.task[n];
      assert p.task[..n] + [p.task[n]] == p.task[..n + 1];
      forall i | 0 <= i <= n
        ensures MadeFor(AddAll(p, fds), p.next + i, p.task[i], fds[i])
      {
        assert i < n ==> MadeFor(q, p.next + i, p.task[i], fds[..n][i]);
      }
    } else {
      assert p.task[..0] == [];
    }
  }
}
