/**
  The idle timing wheel (`Entry::~Entry`, `ConnectEvent`, `OnReadEvent`, `TimingWheelOnTime`).

  A circular buffer of thirty buckets holds shared references to entries, one entry a connection.
  A connect or a read puts the connection's entry in the newest bucket; a tick pushes an empty
  bucket and, once the buffer is full, drops the oldest.  An entry held by no bucket is destroyed,
  and its destructor closes the connection if that still exists.
 */
module TimingWheel {

  const CAPACITY := 30

  type Conn = nat
  type Entry = nat

  datatype Event = Connect(c: Conn) | Read(c: Conn) | Close(c: Conn) | Tick

  // ----- the wheel

  /** Buckets oldest first, each connection's (weak) entry, each entry's (weak) connection. */
  datatype Wheel = Wheel(
    buckets: seq<set<Entry>>, context: map<Conn, Entry>, owner: map<Entry, Conn>, live: set<Conn>, next: Entry)

  predicate Alive(w: Wheel, e: Entry) {
    exists i :: 0 <= i < |w.buckets| && e in w.buckets[i]
  }

  function InsertNewest(w: Wheel, e: Entry): Wheel
    requires w.buckets != []
  {
    var n := |w.buckets| - 1;
    w.(buckets := w.buckets[n := w.buckets[n] + {e}])
  }

  /** Entries of the oldest bucket that no other bucket holds. */
  function Dropped(w: Wheel): set<Entry> {
    if |w.buckets| < CAPACITY then {}
    else set e | e in w.buckets[0] && forall i :: 1 <= i < |w.buckets| ==> e !in w.buckets[i]
  }

  function ClosedBy(w: Wheel): set<Conn> {
    set e | e in Dropped(w) && e in w.owner && w.owner[e] in w.live :: w.owner[e]
  }

  function Turn(w: Wheel, ev: Event): Wheel
    requires w.buckets != []
  {
    match ev
    case Connect(c) =>
      InsertNewest(Introduced(w, c), w.next)
    case Read(c) =>
      if c in w.context && Alive(w, w.context[c]) then InsertNewest(w, w.context[c]) else w
    case Close(c) => w.(live := w.live - {c})
    case Tick =>
      Wheel(
        if |w.buckets| < CAPACITY then w.buckets + [{}] else w.buckets[1..] + [{}],
        w.context, w.owner, w.live - ClosedBy(w), w.next)
  }

  // ----- the specification: time stamps

  /** Ticks so far, the tick of each tracked connection's last activity, and what was ever connected. */
  datatype Stamps = Stamps(now: nat, last: map<Conn, nat>, seen: set<Conn>, live: set<Conn>)

  /** Connections whose thirtieth idle tick is the next one. */
  function Expiring(s: Stamps): set<Conn> {
    set c | c in s.last && s.last[c] + CAPACITY == s.now + 1
  }

  function Stamp(s: Stamps, ev: Event): Stamps {
    match ev
    case Connect(c) => Stamps(s.now, s.last[c := s.now], s.seen + {c}, s.live + {c})
    case Read(c) => if c in s.last then s.(last := s.last[c := s.now]) else s
    case Close(c) => s.(live := s.live - {c})
    case Tick => Stamps(s.now + 1, s.last - Expiring(s), s.seen, s.live - Expiring(s))
  }

  /** A connection connects once; only a connection that exists is read from or closed. */
  predicate Possible(s: Stamps, ev: Event) {
    match ev
    case Connect(c) => c !in s.seen
    case Read(c) => c in s.live
    case Close(c) => c in s.live
    case Tick => true
  }

  // ----- refinement

  ghost predicate Linked(w: Wheel, s: Stamps) {
    && w.context.Keys == s.seen
    && (forall c :: c in w.context ==> w.context[c] in w.owner && w.owner[w.context[c]] == c)
    && (forall e :: e in w.owner ==> e < w.next && w.owner[e] in w.context && w.context[w.owner[e]] == e)
  }

  ghost predicate Sized(w: Wheel, s: Stamps) {
    && 1 <= |w.buckets| <= CAPACITY
    && |w.buckets| == (if s.now + 1 < CAPACITY then s.now + 1 else CAPACITY)
    && w.live == s.live && s.live <= s.seen && s.last.Keys <= s.seen
  }

  /** Whatever sits in bucket `i` - the bucket of tick `now - (n - 1 - i)` - was active since. */
  ghost predicate BucketsRecent(w: Wheel, s: Stamps) {
    forall i, e :: 0 <= i < |w.buckets| && e in w.buckets[i] ==>
      e in w.owner && w.owner[e] in s.last && s.now - (|w.buckets| - 1 - i) <= s.last[w.owner[e]]
  }

  /** Index of the bucket of tick `t`. */
  function BucketOf(w: Wheel, s: Stamps, t: int): int {
    |w.buckets| - 1 - (s.now - t)
  }

  /** A tracked connection's entry sits in the bucket of its last activity. */
  ghost predicate RecentHeld(w: Wheel, s: Stamps) {
    forall c :: c in s.last && c in w.context ==>
      && 0 <= BucketOf(w, s, s.last[c]) < |w.buckets|
      && w.context[c] in w.buckets[BucketOf(w, s, s.last[c])]
  }

  ghost predicate Refines(w: Wheel, s: Stamps) {
    Sized(w, s) && Linked(w, s) && BucketsRecent(w, s) && RecentHeld(w, s)
  }

  /** An entry is held by some bucket iff fewer than thirty ticks passed since its last insertion. */
  lemma HeldIffRecent(w: Wheel, s: Stamps, c: Conn)
    requires Refines(w, s) && c in s.seen
    ensures c in w.context
    ensures Alive(w, w.context[c]) <==> c in s.last
    ensures c in s.last ==> 0 <= s.now - s.last[c] < CAPACITY
  {
    if c in s.last {
      assert w.context[c] in w.buckets[BucketOf(w, s, s.last[c])];
    }
  }

  /** An entry the oldest bucket alone holds was last active in that bucket's tick. */
  lemma DroppedExpires(w: Wheel, s: Stamps, e: Entry)
    requires Refines(w, s) && e in Dropped(w)
    ensures e in w.owner && w.owner[e] in Expiring(s)
  {
    var c := w.owner[e];
    assert w.context[c] == e;
    assert e in w.buckets[BucketOf(w, s, s.last[c])];
    assert BucketOf(w, s, s.last[c]) == 0;
  }

  lemma ExpiringDrops(w: Wheel, s: Stamps, c: Conn)
    requires Refines(w, s) && c in Expiring(s)
    ensures c in w.context && w.context[c] in Dropped(w) && w.owner[w.context[c]] == c
  {
    var e := w.context[c];
    assert BucketOf(w, s, s.last[c]) == |w.buckets| - CAPACITY;
    assert e in w.buckets[0];
    assert forall i :: 1 <= i < |w.buckets| ==> e !in w.buckets[i];
  }

  lemma ClosedAreExpiring(w: Wheel, s: Stamps)
    requires Refines(w, s)
    ensures ClosedBy(w) == Expiring(s) * s.live
  {
    forall c | c in ClosedBy(w)
      ensures c in Expiring(s) * s.live
    {
      var e :| e in Dropped(w) && e in w.owner && w.owner[e] in w.live && w.owner[e] == c;
      DroppedExpires(w, s, e);
    }
    forall c | c in Expiring(s) * s.live
      ensures c in ClosedBy(w)
    {
      ExpiringDrops(w, s, c);
    }
  }

  /** Putting a linked entry in the newest bucket and stamping its connection with the present. */
  lemma InsertRefines(w: Wheel, s: Stamps, c: Conn)
    requires Sized(w, s) && Linked(w, s) && c in w.context
    requires forall d :: d in s.last ==> s.last[d] <= s.now
    requires BucketsRecent(w, s)
    requires forall d :: d in s.last && d in w.context && d != c ==>
      && 0 <= BucketOf(w, s, s.last[d]) < |w.buckets|
      && w.context[d] in w.buckets[BucketOf(w, s, s.last[d])]
    ensures Refines(InsertNewest(w, w.context[c]), s.(last := s.last[c := s.now]))
  {
    var w', s' := InsertNewest(w, w.context[c]), s.(last := s.last[c := s.now]);
    assert Sized(w', s') && Linked(w', s');
    InsertBucketsRecent(w, s, c);
    hide Sized, BucketsRecent;
    forall d | d in s'.last && d in w'.context
      ensures 0 <= BucketOf(w', s', s'.last[d]) < |w'.buckets|
      ensures w'.context[d] in w'.buckets[BucketOf(w', s', s'.last[d])]
    {
      assert BucketOf(w', s', s'.last[d]) == BucketOf(w, s, s'.last[d]);
    }
  }

  lemma InsertBucketsRecent(w: Wheel, s: Stamps, c: Conn)
    requires Sized(w, s) && Linked(w, s) && c in w.context && BucketsRecent(w, s)
    requires forall d :: d in s.last ==> s.last[d] <= s.now
    ensures BucketsRecent(InsertNewest(w, w.context[c]), s.(last := s.last[c := s.now]))
  {
    var w', s' := InsertNewest(w, w.context[c]), s.(last := s.last[c := s.now]);
    forall i, e | 0 <= i < |w'.buckets| && e in w'.buckets[i]
      ensures e in w'.owner && w'.owner[e] in s'.last && s'.now - (|w'.buckets| - 1 - i) <= s'.last[w'.owner[e]]
    {
      assert e == w.context[c] || e in w.buckets[i];
    }
  }

  lemma StampsPast(w: Wheel, s: Stamps)
    requires Refines(w, s)
    ensures forall d :: d in s.last ==> s.last[d] <= s.now
  {
    forall d | d in s.last
      ensures s.last[d] <= s.now
    {
      assert d in w.context;
      assert BucketOf(w, s, s.last[d]) < |w.buckets|;
    }
  }

  /** The wheel of a new connection, before its entry is put in a bucket. */
  function Introduced(w: Wheel, c: Conn): Wheel {
    w.(context := w.context[c := w.next], owner := w.owner[w.next := c], live := w.live + {c}, next := w.next + 1)
  }

  lemma IntroducedLinked(w: Wheel, s: Stamps, c: Conn)
    requires Refines(w, s) && c !in s.seen
    ensures var (v, t) := (Introduced(w, c), s.(seen := s.seen + {c}, live := s.live + {c}));
      Sized(v, t) && Linked(v, t) && BucketsRecent(v, t)
  {
    assert w.next !in w.owner;
    assert c !in w.context;
  }

  lemma ConnectRefines(w: Wheel, s: Stamps, c: Conn)
    requires Refines(w, s) && c !in s.seen
    ensures Refines(Turn(w, Connect(c)), Stamp(s, Connect(c)))
  {
    var v, t := Introduced(w, c), s.(seen := s.seen + {c}, live := s.live + {c});
    IntroducedLinked(w, s, c);
    StampsPast(w, s);
    forall d | d in t.last && d in v.context && d != c
      ensures 0 <= BucketOf(v, t, t.last[d]) < |v.buckets|
      ensures v.context[d] in v.buckets[BucketOf(v, t, t.last[d])]
    {
      assert BucketOf(v, t, t.last[d]) == BucketOf(w, s, s.last[d]);
    }
    InsertRefines(v, t, c);
  }

  lemma ReadRefines(w: Wheel, s: Stamps, c: Conn)
    requires Refines(w, s) && c in s.live
    ensures Refines(Turn(w, Read(c)), Stamp(s, Read(c)))
  {
    HeldIffRecent(w, s, c);
    StampsPast(w, s);
    if c in s.last {
      InsertRefines(w, s, c);
    }
  }

  lemma TickBucketsRecent(w: Wheel, s: Stamps)
    requires Refines(w, s)
    ensures BucketsRecent(Turn(w, Tick), Stamp(s, Tick))
  {
    var w', s' := Turn(w, Tick), Stamp(s, Tick);
    var shift := if |w.buckets| < CAPACITY then 0 else 1;
    forall i, e | 0 <= i < |w'.buckets| && e in w'.buckets[i]
      ensures e in w'.owner && w'.owner[e] in s'.last && s'.now - (|w'.buckets| - 1 - i) <= s'.last[w'.owner[e]]
    {
      assert e in w.buckets[i + shift];
      if w.owner[e] in Expiring(s) {
        ExpiringDrops(w, s, w.owner[e]);
      }
    }
  }

  lemma TickRecentHeld(w: Wheel, s: Stamps)
    requires Refines(w, s)
    ensures RecentHeld(Turn(w, Tick), Stamp(s, Tick))
  {
    var w', s' := Turn(w, Tick), Stamp(s, Tick);
    var shift := if |w.buckets| < CAPACITY then 0 else 1;
    forall c | c in s'.last && c in w'.context
      ensures 0 <= BucketOf(w', s', s'.last[c]) < |w'.buckets|
      ensures w'.context[c] in w'.buckets[BucketOf(w', s', s'.last[c])]
    {
      var i := BucketOf(w, s, s.last[c]);
      assert w.context[c] in w.buckets[i];
      assert BucketOf(w', s', s'.last[c]) == i - shift;
    }
  }

  lemma TickRefines(w: Wheel, s: Stamps)
    requires Refines(w, s)
    ensures Refines(Turn(w, Tick), Stamp(s, Tick))
  {
    ClosedAreExpiring(w, s);
    TickBucketsRecent(w, s);
    TickRecentHeld(w, s);
    assert Turn(w, Tick).live == Stamp(s, Tick).live;
  }

  lemma CloseRefines(w: Wheel, s: Stamps, c: Conn)
    requires Refines(w, s)
    ensures Refines(Turn(w, Close(c)), Stamp(s, Close(c)))
  {
    var w', s' := Turn(w, Close(c)), Stamp(s, Close(c));
    forall d | d in s'.last && d in w'.context
      ensures 0 <= BucketOf(w', s', s'.last[d]) < |w'.buckets|
      ensures w'.context[d] in w'.buckets[BucketOf(w', s', s'.last[d])]
    {
      assert BucketOf(w', s', s'.last[d]) == BucketOf(w, s, s.last[d]);
    }
  }

  /** Every event keeps wheel and time stamps in step; a tick closes exactly the expired ones. */
  lemma TurnRefines(w: Wheel, s: Stamps, ev: Event)
    requires Refines(w, s) && Possible(s, ev)
    ensures Refines(Turn(w, ev), Stamp(s, ev))
    ensures ev == Tick ==> ClosedBy(w) == Expiring(s) * s.live
  {
    match ev
    case Connect(c) => ConnectRefines(w, s, c);
    case Read(c) => ReadRefines(w, s, c);
    case Close(c) => CloseRefines(w, s, c);
    case Tick =>
      TickRefines(w, s);
      ClosedAreExpiring(w, s);
  }

  // ----- runs

  const START_WHEEL := Wheel([{}], map[], map[], {}, 0)
  const START_STAMPS := Stamps(0, map[], {}, {})

  predicate PossibleRun(evs: seq<Event>)
    decreases |evs|
  {
    evs == [] || (PossibleRun(evs[..|evs| - 1]) && Possible(StampAll(evs[..|evs| - 1]), evs[|evs| - 1]))
  }

  function StampAll(evs: seq<Event>): Stamps
    decreases |evs|
  {
    if evs == [] then START_STAMPS else Stamp(StampAll(evs[..|evs| - 1]), evs[|evs| - 1])
  }

  function TurnAll(evs: seq<Event>): (w: Wheel)
    ensures w.buckets != []
    decreases |evs|
  {
    if evs == [] then START_WHEEL else Turn(TurnAll(evs[..|evs| - 1]), evs[|evs| - 1])
  }

  /** After any interleaving of connects, reads, closes and ticks the wheel is the time stamps. */
  lemma {:induction false} WheelRefinesStamps(evs: seq<Event>)
    requires PossibleRun(evs)
    ensures Refines(TurnAll(evs), StampAll(evs))
    decreases |evs|
  {
    if evs != [] {
      WheelRefinesStamps(evs[..|evs| - 1]);
      TurnRefines(TurnAll(evs[..|evs| - 1]), StampAll(evs[..|evs| - 1]), evs[|evs| - 1]);
    }
  }

  /**
    What a tick after any run closes: exactly the connections that still exist and have their
    thirtieth tick without a connect or a read now - never earlier, never later.
   */
  lemma ClosedAtThirtiethIdleTick(evs: seq<Event>, c: Conn)
    requires PossibleRun(evs)
    ensures var s := StampAll(evs);
      c in ClosedBy(TurnAll(evs)) <==> c in s.live && c in s.last && s.now + 1 - s.last[c] == CAPACITY
  {
    WheelRefinesStamps(evs);
    ClosedAreExpiring(TurnAll(evs), StampAll(evs));
  }

  /** After any run an entry is held iff its connection's last activity is under thirty ticks old. */
  lemma HeldAfterRun(evs: seq<Event>, c: Conn)
    requires PossibleRun(evs) && c in StampAll(evs).seen
    ensures var (w, s) := (TurnAll(evs), StampAll(evs));
      && c in w.context
      && (Alive(w, w.context[c]) <==> c in s.last)
      && (c in s.last ==> 0 <= s.now - s.last[c] < CAPACITY)
  {
    WheelRefinesStamps(evs);
    HeldIffRecent(TurnAll(evs), StampAll(evs), c);
  }

  // ----- activity as one would read it off the run

  function Ticks(evs: seq<Event>): nat {
    if evs == [] then 0 else Ticks(evs[..|evs| - 1]) + (if evs[|evs| - 1] == Tick then 1 else 0)
  }

  /** The tick of the last connect or read of `c` in the run, -1 if there is none. */
  function LastActive(evs: seq<Event>, c: Conn): int {
    if evs == [] then -1
    else if evs[|evs| - 1] == Connect(c) || evs[|evs| - 1] == Read(c) then Ticks(evs[..|evs| - 1])
    else LastActive(evs[..|evs| - 1], c)
  }

  lemma {:induction false} StampsAreActivity(evs: seq<Event>, c: Conn)
    requires PossibleRun(evs)
    ensures var s := StampAll(evs);
      && s.now == Ticks(evs)
      && (c in s.seen <==> LastActive(evs, c) >= 0)
      && (c in s.live ==> c in s.last)
      && (c in s.last ==> s.last[c] == LastActive(evs, c))
      && (c in s.seen ==> (c in s.last <==> s.now - LastActive(evs, c) < CAPACITY))
    decreases |evs|
  {
    if evs != [] {
      StampsAreActivity(evs[..|evs| - 1], c);
    }
  }

  /**
    The wheel against the run itself: an entry is held iff fewer than thirty ticks have passed
    since its connection's last connect or read.
   */
  lemma HeldIffActive(evs: seq<Event>, c: Conn)
    requires PossibleRun(evs) && LastActive(evs, c) >= 0
    ensures c in TurnAll(evs).context
    ensures Alive(TurnAll(evs), TurnAll(evs).context[c]) <==> Ticks(evs) - LastActive(evs, c) < 30
  {
    StampsAreActivity(evs, c);
    HeldAfterRun(evs, c);
  }

  /** A connection is closed by a tick iff it still exists and this is its thirtieth idle tick. */
  lemma ClosedIffIdle(evs: seq<Event>, c: Conn)
    requires PossibleRun(evs)
    ensures c in ClosedBy(TurnAll(evs))
      <==> c in StampAll(evs).live && Ticks(evs + [Tick]) - LastActive(evs, c) == 30
  {
    StampsAreActivity(evs, c);
    ClosedAtThirtiethIdleTick(evs, c);
    assert (evs + [Tick])[..|evs|] == evs;
  }

  // ----- the wheel as the event loop keeps it

  class EventProcess {
    var connectionBuckets: seq<set<Entry>>
    var context: map<Conn, Entry>
    var weakConn: map<Entry, Conn>
    var liveConns: set<Conn>
    var nextEntry: Entry

    constructor ()
      ensures State() == START_WHEEL
    {
      connectionBuckets := [{}];
      context, weakConn, liveConns, nextEntry := map[], map[], {}, 0;
    }

    function State(): Wheel
      reads this
    {
      Wheel(connectionBuckets, context, weakConn, liveConns, nextEntry)
    }

    method Insert(entry: Entry)
      requires connectionBuckets != []
      modifies `connectionBuckets
      ensures State() == InsertNewest(old(State()), entry)
    {
      var back := |connectionBuckets| - 1;
      connectionBuckets := connectionBuckets[back := connectionBuckets[back] + {entry}];
    }

    method ConnectEvent(conn: Conn)
      requires connectionBuckets != []
      modifies this
      ensures State() == Turn(old(State()), Connect(conn))
    {
      var entry := nextEntry;
      nextEntry := nextEntry + 1;
      weakConn := weakConn[entry := conn];
      liveConns := liveConns + {conn};
      context := context[conn := entry];
      Insert(entry);
    }

    /** `weakEntry.lock()`: is the entry still held by some bucket? */
    method Lock(entry: Entry) returns (alive: bool)
      ensures alive <==> Alive(State(), entry)
    {
      alive := false;
      for i := 0 to |connectionBuckets|
        invariant alive <==> exists j :: 0 <= j < i && entry in connectionBuckets[j]
      {
        alive := alive || entry in connectionBuckets[i];
      }
    }

    method OnReadEvent(conn: Conn)
      requires connectionBuckets != [] && conn in context
      modifies `connectionBuckets
      ensures State() == Turn(old(State()), Read(conn))
    {
      var alive := Lock(context[conn]);
      if alive {
        Insert(context[conn]);
      }
    }

    method CloseEvent(conn: Conn)
      requires connectionBuckets != []
      modifies `liveConns
      ensures State() == Turn(old(State()), Close(conn))
    {
      liveConns := liveConns - {conn};
    }

    /**
      Push an empty bucket; a full buffer lets go of its oldest one.  Each entry that was only there
      is destroyed, and its destructor closes its connection if that still exists.
     */
    method TimingWheelOnTime() returns (closed: set<Conn>)
      requires connectionBuckets != []
      modifies `connectionBuckets, `liveConns
      ensures closed == ClosedBy(old(State()))
      ensures State() == Turn(old(State()), Tick)
    {
      closed := {};
      if |connectionBuckets| < CAPACITY {
        connectionBuckets := connectionBuckets + [{}];
      } else {
        ghost var before := State();
        var work := connectionBuckets[0];
        connectionBuckets := connectionBuckets[1..] + [{}];
        while work != {}
          invariant work <= before.buckets[0] && connectionBuckets == before.buckets[1..] + [{}]
          invariant forall e :: e in Dropped(before) && e in weakConn && weakConn[e] in before.live ==>
            e in work || weakConn[e] in closed
          invariant closed <= ClosedBy(before)
          invariant liveConns == before.live - closed
          decreases work
        {
          var entry :| entry in work;
          work := work - {entry};
          var held := Lock(entry);
          if !held {
            assert forall i :: 1 <= i < |before.buckets| ==> connectionBuckets[i - 1] == before.buckets[i];
            assert entry in Dropped(before);
            if entry in weakConn && weakConn[entry] in liveConns {
              closed := closed + {weakConn[entry]};
              liveConns := liveConns - {weakConn[entry]};
            }
          } else {
            StillHeld(before, connectionBuckets, entry);
          }
        }
      }
      assert closed == ClosedBy(old(State()));
    }
  }

  lemma StillHeld(w: Wheel, shifted: seq<set<Entry>>, e: Entry)
    requires |w.buckets| >= CAPACITY && shifted == w.buckets[1..] + [{}]
    requires exists i :: 0 <= i < |shifted| && e in shifted[i]
    ensures e !in Dropped(w)
  {
    var i :| 0 <= i < |shifted| && e in shifted[i];
    assert e in w.buckets[i + 1];
  }
}
