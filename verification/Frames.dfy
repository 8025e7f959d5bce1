/**
  Length-prefixed frames: how a message is written (`SerializeSendMsg`) and how the read loop takes
  frames off the input buffer (`OnReadEvent`).

  A frame is the payload's length and the message id, four bytes each, most significant byte
  first, then the payload.
 */
module Frames {

  type Byte = b: int | 0 <= b < 256

  const WORD := 0x1_0000_0000
  const HALF := 0x8000_0000

  /** A 32-bit value, as the source's `int`. */
  predicate IsInt32(n: int) {
    -HALF <= n < HALF
  }

  datatype Message = Message(id: int, payload: seq<Byte>)

  /** What can be framed: a 32-bit id and a payload that is neither empty nor too long. */
  ghost predicate Framable(m: Message) {
    IsInt32(m.id) && 0 < |m.payload| < HALF
  }

  // ----- writing

  function Unsigned(n: int): int {
    if n < 0 then n + WORD else n
  }

  /** Network byte order of a 32-bit value: shift out a byte at a time. */
  function Hton(n: int): (w: seq<Byte>)
    requires IsInt32(n)
    ensures |w| == 4
  {
    var q0 := Unsigned(n);
    var q1 := q0 / 256;
    var q2 := q1 / 256;
    var q3 := q2 / 256;
    [q3, q2 % 256, q1 % 256, q0 % 256]
  }

  function Ntoh(w: seq<Byte>): (n: int)
    requires |w| == 4
    ensures IsInt32(n)
  {
    var (b0: int, b1: int, b2: int, b3: int) := (w[0], w[1], w[2], w[3]);
    var u := ((b0 * 256 + b1) * 256 + b2) * 256 + b3;
    if u < HALF then u else u - WORD
  }

  lemma NtohUndoesHton(n: int)
    requires IsInt32(n)
    ensures Ntoh(Hton(n)) == n
  {
    var q0 := Unsigned(n);
    var q1 := q0 / 256;
    var q2 := q1 / 256;
    var q3 := q2 / 256;
    assert q0 == q1 * 256 + q0 % 256;
    assert q1 == q2 * 256 + q1 % 256;
    assert q2 == q3 * 256 + q2 % 256;
  }

  /** The number four bytes stand for, the first one being the most significant. */
  function BigEndian(w: seq<Byte>): int
    requires |w| == 4
  {
    var (b0: int, b1: int, b2: int, b3: int) := (w[0], w[1], w[2], w[3]);
    b0 * 0x100_0000 + b1 * 0x1_0000 + b2 * 0x100 + b3
  }

  /** Network byte order: the four bytes stand for the value, or for 2^32 more if it is negative. */
  lemma HtonIsBigEndian(n: int)
    requires IsInt32(n)
    ensures BigEndian(Hton(n)) == if n < 0 then n + WORD else n
  {
    var q0 := Unsigned(n);
    var q1 := q0 / 256;
    var q2 := q1 / 256;
    var q3 := q2 / 256;
    assert q0 == q1 * 256 + q0 % 256;
    assert q1 == q2 * 256 + q1 % 256;
    assert q2 == q3 * 256 + q2 % 256;
  }

  /** A frame is the payload's length, the id, and the payload, in this order. */
  lemma FrameLayout(m: Message)
    requires Framable(m)
    ensures var f := Frame(m);
      && BigEndian(f[..4]) == |m.payload|
      && BigEndian(f[4..8]) == (if m.id < 0 then m.id + WORD else m.id)
      && f[8..] == m.payload
  {
    HtonIsBigEndian(|m.payload|);
    HtonIsBigEndian(m.id);
    assert Frame(m)[..4] == Hton(|m.payload|);
    assert Frame(m)[4..8] == Hton(m.id);
  }

  function Frame(m: Message): (f: seq<Byte>)
    requires Framable(m)
    ensures |f| == 8 + |m.payload|
  {
    Hton(|m.payload|) + Hton(m.id) + m.payload
  }

  method SerializeSendMsg(id: int, payload: seq<Byte>) returns (out: seq<Byte>)
    requires Framable(Message(id, payload))
    ensures out == Frame(Message(id, payload))
  {
    out := [];
    out := out + Hton(|payload|);
    out := out + Hton(id);
    out := out + payload;
  }

  // ----- reading

  /** Why the loop stopped. */
  datatype Stop = Drained | ShortLength | ZeroLength | NegativeLength | ShortId | HandlerClosed

  datatype Reading = Reading(dispatched: seq<Message>, rest: seq<Byte>, stop: Stop)

  /**
    The payload the loop hands on: what the buffer still holds, and past its end whatever the
    freshly allocated memory contains.
   */
  function Payload(buffer: seq<Byte>, len: int, junk: int -> Byte): seq<Byte>
    requires 0 < len
  {
    if len <= |buffer| then buffer[..len]
    else buffer + seq(len - |buffer|, i requires 0 <= i => junk(i))
  }

  /** What taking one frame off the buffer gives. */
  datatype Step = Got(m: Message, rest: seq<Byte>) | End(stop: Stop, rest: seq<Byte>)

  function Next(buffer: seq<Byte>, junk: int -> Byte): (s: Step)
    ensures |buffer| > 0 ==> |s.rest| < |buffer|
    ensures |buffer| == 0 ==> s.End?
  {
    if |buffer| == 0 then End(Drained, [])
    else if |buffer| < 4 then End(ShortLength, [])
    else
      var len := Ntoh(buffer[..4]);
      if len == 0 then End(ZeroLength, buffer[4..])
      else if |buffer| < 8 then End(ShortId, [])
      else if len < 0 then End(NegativeLength, buffer[8..])
      else
        Got(Message(Ntoh(buffer[4..8]), Payload(buffer[8..], len, junk)),
            if len <= |buffer| - 8 then buffer[8 + len..] else [])
  }

  /**
    The frames dispatched from a buffer, from the `k`-th message on.  `closes` tells which handler
    call closes the connection.
   */
  function Read(buffer: seq<Byte>, k: nat, closes: nat -> bool, junk: int -> Byte): Reading
    decreases |buffer|
  {
    match Next(buffer, junk)
    case End(stop, rest) => Reading([], rest, stop)
    case Got(m, rest) =>
      if closes(k) then Reading([m], rest, HandlerClosed)
      else Before([m], Read(rest, k + 1, closes, junk))
  }

  /** Messages dispatched ahead of a reading. */
  function Before(ms: seq<Message>, r: Reading): Reading {
    Reading(ms + r.dispatched, r.rest, r.stop)
  }

  lemma BeforeBefore(a: seq<Message>, b: seq<Message>, r: Reading)
    ensures Before(a, Before(b, r)) == Before(a + b, r)
  {
    assert a + (b + r.dispatched) == a + b + r.dispatched;
  }

  lemma BeforeNone(r: Reading)
    ensures Before([], r) == r
  {
    assert [] + r.dispatched == r.dispatched;
  }

  class InputBuffer {
    var data: seq<Byte>

    constructor (bytes: seq<Byte>)
      ensures data == bytes
    {
      data := bytes;
    }

    /** Take at most `n` bytes off the front. */
    method GetReadBufferData(n: int) returns (bytes: seq<Byte>)
      requires 0 <= n
      modifies this
      ensures bytes == if n <= |old(data)| then old(data)[..n] else old(data)
      ensures data == if n <= |old(data)| then old(data)[n..] else []
    {
      var len := if n <= |data| then n else |data|;
      bytes := data[..len];
      data := data[len..];
    }

    /** One round of the read loop, up to the message that is handed on. */
    method TakeFrame(junk: int -> Byte) returns (step: Step)
      requires |data| > 0
      modifies this
      ensures step == Next(old(data), junk) && data == step.rest
    {
      ghost var buffer := data;
      var word := GetReadBufferData(4);
      if |word| != 4 {
        return End(ShortLength, data);
      }
      assert word == buffer[..4];
      var len := Ntoh(word);
      if len == 0 {
        return End(ZeroLength, data);
      }
      word := GetReadBufferData(4);
      if |word| != 4 {
        return End(ShortId, data);
      }
      assert word == buffer[4..8] && data == buffer[8..];
      var id := Ntoh(word);
      if len < 0 {
        return End(NegativeLength, data);
      }
      var bytes := GetReadBufferData(len);
      var payload := bytes + seq(len - |bytes|, i requires 0 <= i => junk(i));
      assert payload == Payload(buffer[8..], len, junk);
      return Got(Message(id, payload), data);
    }

    /** The read loop of `OnReadEvent`. */
    method OnReadEvent(closes: nat -> bool, junk: int -> Byte) returns (dispatched: seq<Message>, stop: Stop)
      modifies this
      ensures Reading(dispatched, data, stop) == Read(old(data), 0, closes, junk)
    {
      ghost var all := Read(data, 0, closes, junk);
      dispatched := [];
      while |data| > 0
        invariant all == Before(dispatched, Read(data, |dispatched|, closes, junk))
        decreases |data|
      {
        var k := |dispatched|;
        ghost var before := dispatched;
        var step := TakeFrame(junk);
        if step.End? {
          return dispatched, step.stop;
        }
        dispatched := dispatched + [step.m];
        if closes(k) {
          return dispatched, HandlerClosed;
        }
        BeforeBefore(before, [step.m], Read(data, |dispatched|, closes, junk));
      }
      return dispatched, Drained;
    }
  }

  // ----- round trip

  ghost predicate AllFramable(ms: seq<Message>) {
    forall i :: 0 <= i < |ms| ==> Framable(ms[i])
  }

  function Stream(ms: seq<Message>): seq<Byte>
    requires AllFramable(ms)
  {
    if ms == [] then [] else Frame(ms[0]) + Stream(ms[1..])
  }

  /** The first complete frame of a buffer is taken off as it was written. */
  lemma NextFrame(m: Message, tail: seq<Byte>, junk: int -> Byte)
    requires Framable(m)
    ensures Next(Frame(m) + tail, junk) == Got(m, tail)
  {
    var buffer := Frame(m) + tail;
    var len := |m.payload|;
    NtohUndoesHton(len);
    NtohUndoesHton(m.id);
    assert buffer[..4] == Hton(len);
    assert buffer[4..8] == Hton(m.id);
    assert buffer[8..] == m.payload + tail;
    assert Payload(buffer[8..], len, junk) == m.payload;
    assert buffer[8 + len..] == tail;
  }

  lemma ReadFrame(m: Message, tail: seq<Byte>, k: nat, closes: nat -> bool, junk: int -> Byte)
    requires Framable(m)
    ensures Read(Frame(m) + tail, k, closes, junk) ==
      if closes(k) then Reading([m], tail, HandlerClosed) else Before([m], Read(tail, k + 1, closes, junk))
  {
    hide Next;
    NextFrame(m, tail, junk);
  }

  /**
    While no handler closes, the loop dispatches exactly the messages written, in order, and then
    treats whatever follows them.
   */
  lemma {:induction false} ReadStream(ms: seq<Message>, tail: seq<Byte>, k: nat, closes: nat -> bool, junk: int -> Byte)
    requires AllFramable(ms) && forall i :: k <= i < k + |ms| ==> !closes(i)
    ensures Read(Stream(ms) + tail, k, closes, junk) == Before(ms, Read(tail, k + |ms|, closes, junk))
    decreases |ms|
  {
    hide Read, Frame;
    if ms == [] {
      assert Stream(ms) + tail == tail;
      BeforeNone(Read(tail, k, closes, junk));
    } else {
      ReadStream(ms[1..], tail, k + 1, closes, junk);
      ReadFrame(ms[0], Stream(ms[1..]) + tail, k, closes, junk);
      assert Stream(ms) + tail == Frame(ms[0]) + (Stream(ms[1..]) + tail);
      BeforeBefore([ms[0]], ms[1..], Read(tail, k + |ms|, closes, junk));
      assert [ms[0]] + ms[1..] == ms;
    }
  }

  /** Frames that are all there: exactly the messages, in order, and an empty buffer. */
  lemma RoundTrip(ms: seq<Message>, closes: nat -> bool, junk: int -> Byte)
    requires AllFramable(ms) && forall i :: 0 <= i < |ms| ==> !closes(i)
    ensures Read(Stream(ms), 0, closes, junk) == Reading(ms, [], Drained)
  {
    hide Stream;
    ReadStream(ms, [], 0, closes, junk);
    assert Stream(ms) + [] == Stream(ms);
    assert Read([], |ms|, closes, junk) == Reading([], [], Drained);
    assert ms + [] == ms;
  }

  /** A handler that closes stops the loop right after its message; the rest stays in the buffer. */
  lemma ClosingStops(ms: seq<Message>, j: nat, closes: nat -> bool, junk: int -> Byte)
    requires AllFramable(ms) && j < |ms| && closes(j) && forall i :: 0 <= i < j ==> !closes(i)
    ensures Read(Stream(ms), 0, closes, junk) == Reading(ms[..j + 1], Stream(ms[j + 1..]), HandlerClosed)
  {
    hide Read, Frame, Stream;
    StreamSplit(ms, j);
    ReadStream(ms[..j], Frame(ms[j]) + Stream(ms[j + 1..]), 0, closes, junk);
    ReadFrame(ms[j], Stream(ms[j + 1..]), j, closes, junk);
    assert ms[..j] + [ms[j]] == ms[..j + 1];
  }

  lemma {:induction false} StreamSplit(ms: seq<Message>, j: nat)
    requires AllFramable(ms) && j < |ms|
    ensures Stream(ms) == Stream(ms[..j]) + (Frame(ms[j]) + Stream(ms[j + 1..]))
    decreases j
  {
    hide Frame;
    if j == 0 {
      assert Stream(ms[..0]) == [];
    } else {
      StreamSplit(ms[1..], j - 1);
      assert ms[1..][..j - 1] == ms[..j][1..];
      assert ms[1..][j..] == ms[j + 1..];
      assert Stream(ms[..j]) == Frame(ms[0]) + Stream(ms[1..][..j - 1]);
    }
  }

  /**
    A frame that has only partly arrived is not waited for.  What follows the complete frames is
    always used up; nothing but the complete messages is dispatched iff fewer than eight bytes of
    the next frame are there.  Otherwise a message with the right id and length, and made-up bytes
    in place of the missing ones, is dispatched.
   */
  lemma PartialFrame(ms: seq<Message>, m: Message, n: nat, closes: nat -> bool, junk: int -> Byte)
    requires AllFramable(ms) && Framable(m) && n < |Frame(m)|
    requires forall i :: 0 <= i <= |ms| ==> !closes(i)
    ensures var r := Read(Stream(ms) + Frame(m)[..n], 0, closes, junk);
      && r.rest == []
      && (r.dispatched == ms <==> n < 8)
      && (8 <= n ==> exists p ::
            |p| == |m.payload| && m.payload[..n - 8] <= p && r.dispatched == ms + [Message(m.id, p)])
  {
    var tail := Frame(m)[..n];
    ReadStream(ms, tail, 0, closes, junk);
    var r := Read(tail, |ms|, closes, junk);
    if n < 8 {
      PartialHeader(m, n, junk);
      assert ms + [] == ms;
    } else {
      var p := PartialPayload(m, n, junk);
      assert Read([], |ms| + 1, closes, junk) == Reading([], [], Drained);
      assert r.dispatched == [Message(m.id, p)];
      assert |ms + r.dispatched| > |ms|;
    }
  }

  lemma PartialHeader(m: Message, n: nat, junk: int -> Byte)
    requires Framable(m) && n < 8
    ensures Next(Frame(m)[..n], junk).End? && Next(Frame(m)[..n], junk).rest == []
  {
    var tail := Frame(m)[..n];
    if 4 <= n {
      NtohUndoesHton(|m.payload|);
      assert tail[..4] == Hton(|m.payload|);
    }
  }

  lemma PartialPayload(m: Message, n: nat, junk: int -> Byte) returns (p: seq<Byte>)
    requires Framable(m) && 8 <= n < |Frame(m)|
    ensures Next(Frame(m)[..n], junk) == Got(Message(m.id, p), [])
    ensures |p| == |m.payload| && m.payload[..n - 8] <= p
  {
    hide Hton, Ntoh;
    var tail := Frame(m)[..n];
    var len := |m.payload|;
    NtohUndoesHton(len);
    NtohUndoesHton(m.id);
    assert tail[..4] == Hton(len);
    assert tail[4..8] == Frame(m)[4..8] == Hton(m.id);
    assert tail[8..] == m.payload[..n - 8];
    p := Payload(tail[8..], len, junk);
  }

  /** Where the loop stops on a header that is no frame: the length, and the id if it is read, are used up. */
  lemma BadHeaderStops(len: int, id: int, more: seq<Byte>, k: nat, closes: nat -> bool, junk: int -> Byte)
    requires IsInt32(len) && IsInt32(id)
    ensures len == 0 ==> Read(Hton(len) + more, k, closes, junk) == Reading([], more, ZeroLength)
    ensures len < 0 ==> Read(Hton(len) + Hton(id) + more, k, closes, junk) == Reading([], more, NegativeLength)
  {
    hide Hton, Ntoh;
    NtohUndoesHton(len);
    var short, long := Hton(len) + more, Hton(len) + Hton(id) + more;
    assert short[..4] == Hton(len) && short[4..] == more;
    assert long[..4] == Hton(len) && long[8..] == more;
  }
}
