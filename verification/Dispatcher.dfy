/**
  The round-robin dispatcher of the old client (`ChangeStatusForRobot`, `SendReqForRobot`): walk the
  queue of robots once, ask waiting ones to join until enough are asked, and requeue what was seen.
 */
module Dispatcher {
  import opened Lists

  type Fd = int

  datatype Status = WaitSignUp | InitGame | Elsewhere

  datatype Slot = Slot(fd: Fd, count: int)

  /** Slots to requeue, slots not reached, the robots' statuses and the requests sent, in order. */
  datatype Pass = Pass(kept: seq<Slot>, rest: seq<Slot>, status: map<Fd, Status>, sent: seq<Fd>)

  /**
    One pass over the queue.  `status` holds the connected descriptors; slots of dead ones are not
    requeued.  A waiting robot is asked and no longer waits.
   */
  function Walk(q: seq<Slot>, status: map<Fd, Status>, num: int): Pass
    decreases |q|
  {
    if q == [] || num == 0 then Pass([], q, status, [])
    else if q[0].fd !in status then Walk(q[1..], status, num)
    else if status[q[0].fd] == WaitSignUp then
      var p := Walk(q[1..], status[q[0].fd := InitGame], num - 1);
      Pass([Slot(q[0].fd, 1)] + p.kept, p.rest, p.status, [q[0].fd] + p.sent)
    else
      var p := Walk(q[1..], status, num);
      p.(kept := [q[0]] + p.kept)
  }

  /** The connected, waiting robots in the queue. */
  function Waiting(q: seq<Slot>, status: map<Fd, Status>): set<Fd> {
    set i | 0 <= i < |q| && q[i].fd in status && status[q[i].fd] == WaitSignUp :: q[i].fd
  }

  function Members(s: seq<Fd>): set<Fd> {
    set x | x in s
  }

  lemma {:induction false} DistinctSize(s: seq<Fd>)
    requires Distinct(s)
    ensures |Members(s)| == |s|
    decreases |s|
  {
    if s != [] {
      DistinctSize(s[1..]);
      assert s == [s[0]] + s[1..];
      assert Members(s) == Members(s[1..]) + {s[0]};
      assert s[0] !in s[1..];
    }
  }

  lemma WaitingTail(q: seq<Slot>, status: map<Fd, Status>)
    requires q != []
    ensures Waiting(q, status) ==
      Waiting(q[1..], status) + (if q[0].fd in status && status[q[0].fd] == WaitSignUp then {q[0].fd} else {})
  {
    var tail := q[1..];
    forall x | x in Waiting(q, status)
      ensures x == q[0].fd || x in Waiting(tail, status)
    {
      var i :| 0 <= i < |q| && q[i].fd == x && x in status && status[x] == WaitSignUp;
      if i > 0 {
        assert tail[i - 1] == q[i];
      }
    }
    forall x | x in Waiting(tail, status)
      ensures x in Waiting(q, status)
    {
      var i :| 0 <= i < |tail| && tail[i].fd == x;
      assert q[i + 1] == tail[i];
    }
  }

  lemma WaitingAsked(q: seq<Slot>, status: map<Fd, Status>, fd: Fd)
    ensures Waiting(q, status[fd := InitGame]) == Waiting(q, status) - {fd}
  {
  }

  /**
    Only waiting robots of the queue are asked, none twice; they and no others change status; and
    the pass ends early only when enough were asked.
   */
  lemma {:induction false} WalkAsks(q: seq<Slot>, status: map<Fd, Status>, num: int)
    ensures var p := Walk(q, status, num);
      && Distinct(p.sent)
      && Members(p.sent) <= Waiting(q, status)
      && p.status.Keys == status.Keys
      && (forall fd :: fd in status ==> p.status[fd] == if fd in p.sent then InitGame else status[fd])
      && (0 <= num ==> |p.sent| <= num)
      && (num < 0 || |p.sent| < num ==> p.rest == [] && Members(p.sent) == Waiting(q, status))
    decreases |q|
  {
    if q != [] && num != 0 {
      WaitingTail(q, status);
      var fd := q[0].fd;
      if fd in status && status[fd] == WaitSignUp {
        var p := Walk(q[1..], status[fd := InitGame], num - 1);
        WalkAsks(q[1..], status[fd := InitGame], num - 1);
        WaitingAsked(q[1..], status, fd);
        AskOne(p.sent, fd);
      } else {
        WalkAsks(q[1..], status, num);
      }
    }
  }

  lemma AskOne(sent: seq<Fd>, fd: Fd)
    requires Distinct(sent) && fd !in Members(sent)
    ensures Distinct([fd] + sent) && Members([fd] + sent) == Members(sent) + {fd}
  {
  }

  /** Exactly as many requests go out as wanted, or as there are waiting robots, if fewer. */
  lemma RequestsSent(q: seq<Slot>, status: map<Fd, Status>, num: int)
    ensures var n := |Waiting(q, status)|;
      |Walk(q, status, num).sent| == if num < 0 || n <= num then n else num
  {
    var p := Walk(q, status, num);
    WalkAsks(q, status, num);
    DistinctSize(p.sent);
    if 0 <= num && |p.sent| == num {
      SubsetSize(Members(p.sent), Waiting(q, status));
    }
  }

  lemma SubsetSize(a: set<Fd>, b: set<Fd>)
    requires a <= b
    ensures |a| <= |b|
  {
    assert b == a + (b - a);
  }

  function Fds(q: seq<Slot>): seq<Fd> {
    if q == [] then [] else [q[0].fd] + Fds(q[1..])
  }

  /** The descriptors of a list of slots that are still connected, in order. */
  function Connected(q: seq<Slot>, status: map<Fd, Status>): seq<Fd> {
    if q == [] then []
    else if q[0].fd in status then [q[0].fd] + Connected(q[1..], status)
    else Connected(q[1..], status)
  }

  /**
    The new queue is a rotation of the old one: some first part is visited, once, and requeued
    behind the rest without its dead descriptors.
   */
  lemma {:induction false} WalkRotates(q: seq<Slot>, status: map<Fd, Status>, num: int) returns (v: nat)
    ensures v <= |q|
    ensures Walk(q, status, num).rest == q[v..]
    ensures Fds(Walk(q, status, num).kept) == Connected(q[..v], status)
    decreases |q|
  {
    if q == [] || num == 0 {
      v := 0;
    } else {
      var fd := q[0].fd;
      var v' := 0;
      if fd in status && status[fd] == WaitSignUp {
        v' := WalkRotates(q[1..], status[fd := InitGame], num - 1);
        ConnectedFrame(q[1..][..v'], status, status[fd := InitGame]);
      } else {
        v' := WalkRotates(q[1..], status, num);
      }
      v := v' + 1;
      assert q[..v] == [q[0]] + q[1..][..v'];
      assert q[1..][v'..] == q[v..];
    }
  }

  /**
    It asks exactly the waiting robots of the part it visits, and goes no further than the last one it
    asks once enough are asked.
   */
  lemma {:induction false} WalkVisits(q: seq<Slot>, status: map<Fd, Status>, num: int) returns (v: nat)
    ensures v <= |q| && Walk(q, status, num).rest == q[v..]
    ensures var sent := Walk(q, status, num).sent;
      && Members(sent) == Waiting(q[..v], status)
      && (v < |q| ==> |sent| == num) && (v == 0 ==> sent == [])
      && (v > 0 && |sent| == num ==> sent != [] && q[v - 1].fd == sent[|sent| - 1])
    decreases |q|
  {
    hide Waiting, Members;
    if q == [] || num == 0 {
      v := 0;
      NoneVisited(q, status);
    } else {
      var fd := q[0].fd;
      var v' := 0;
      if fd in status && status[fd] == WaitSignUp {
        var asked := status[fd := InitGame];
        v' := WalkVisits(q[1..], asked, num - 1);
        WaitingAsked(q[1..][..v'], status, fd);
        AskedFirst(Walk(q[1..], asked, num - 1).sent, fd);
      } else {
        v' := WalkVisits(q[1..], status, num);
      }
      v := v' + 1;
      OneMoreVisited(q, status, v');
    }
  }

  lemma NoneVisited(q: seq<Slot>, status: map<Fd, Status>)
    ensures Waiting(q[..0], status) == {} && Members([]) == {} && q[0..] == q
  {
  }

  lemma OneMoreVisited(q: seq<Slot>, status: map<Fd, Status>, v: nat)
    requires v < |q|
    ensures q[1..][v..] == q[v + 1..] && (v > 0 ==> q[1..][v - 1] == q[v])
    ensures Waiting(q[..v + 1], status) == Waiting(q[1..][..v], status)
      + (if q[0].fd in status && status[q[0].fd] == WaitSignUp then {q[0].fd} else {})
  {
    assert q[..v + 1][1..] == q[1..][..v];
    WaitingTail(q[..v + 1], status);
  }

  lemma AskedFirst(sent: seq<Fd>, fd: Fd)
    ensures Members([fd] + sent) == Members(sent) + {fd}
  {
  }

  /** A slot that is requeued is as it was, or that of a robot just asked, which is counted once. */
  lemma {:induction false} WalkCounts(q: seq<Slot>, status: map<Fd, Status>, num: int, slot: Slot)
    ensures var p := Walk(q, status, num);
      slot in p.kept ==> slot in q || (slot.count == 1 && slot.fd in p.sent)
    ensures var p := Walk(q, status, num);
      forall fd :: fd in p.sent ==> Slot(fd, 1) in p.kept
    decreases |q|
  {
    if q != [] && num != 0 {
      assert q == [q[0]] + q[1..];
      var fd := q[0].fd;
      if fd in status && status[fd] == WaitSignUp {
        WalkCounts(q[1..], status[fd := InitGame], num - 1, slot);
      } else {
        WalkCounts(q[1..], status, num, slot);
      }
    }
  }

  lemma {:induction false} ConnectedFrame(q: seq<Slot>, a: map<Fd, Status>, b: map<Fd, Status>)
    requires a.Keys == b.Keys
    ensures Connected(q, a) == Connected(q, b)
    decreases |q|
  {
    if q != [] {
      assert q[0].fd in a <==> q[0].fd in a.Keys;
      assert q[0].fd in b <==> q[0].fd in b.Keys;
      ConnectedFrame(q[1..], a, b);
    }
  }

  // ----- the dispatcher as the event loop keeps it

  class EventProcess {
    var taskQueue: seq<Slot>
    var robotStatus: map<Fd, Status>
    var requests: seq<Fd>

    constructor (queue: seq<Slot>, status: map<Fd, Status>)
      ensures taskQueue == queue && robotStatus == status && requests == []
    {
      taskQueue, robotStatus, requests := queue, status, [];
    }

    /** Ask one robot to join; from now on it no longer waits. */
    method SendReqForRobot(fd: Fd)
      requires fd in robotStatus
      modifies `robotStatus, `requests
      ensures robotStatus == old(robotStatus)[fd := InitGame]
      ensures requests == old(requests) + [fd]
    {
      requests := requests + [fd];
      robotStatus := robotStatus[fd := InitGame];
    }

    method ChangeStatusForRobot(robotNum: int)
      modifies this
      ensures var p := Walk(old(taskQueue), old(robotStatus), robotNum);
        && taskQueue == p.rest + p.kept
        && robotStatus == p.status
        && requests == old(requests) + p.sent
    {
      var queueSize, num := |taskQueue|, robotNum;
      ghost var all := Walk(taskQueue, robotStatus, num);
      ghost var kept: seq<Slot>, sent: seq<Fd> := [], [];
      ghost var q := taskQueue;
      while queueSize != 0 && num != 0
        invariant queueSize == |q| && taskQueue == q + kept
        invariant requests == old(requests) + sent
        invariant var p := Walk(q, robotStatus, num);
          all == Pass(kept + p.kept, p.rest, p.status, sent + p.sent)
        decreases queueSize
      {
        queueSize := queueSize - 1;
        var slot := taskQueue[0];
        taskQueue := taskQueue[1..];
        ghost var before := q;
        q := q[1..];
        if slot.fd !in robotStatus {
          continue;
        }
        if robotStatus[slot.fd] == WaitSignUp {
          SendReqForRobot(slot.fd);
          slot := slot.(count := 1);
          num := num - 1;
          sent := sent + [slot.fd];
        }
        taskQueue := taskQueue + [slot];
        kept := kept + [slot];
      }
    }
  }
}
