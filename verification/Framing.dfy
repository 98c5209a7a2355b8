/** Sending whole frames over a connection and recovering them from it, however the bytes
    arrive; the registration handshake; the pid inside a stop request. */
module Framing {
  import opened RingBytes
  import opened Varint
  import opened Wire
  import opened Codec
  import opened Network

  datatype Received = Got(buf: seq<byte>) | Lost

  method SendMessage(conn: Conn, m: Message)
    requires WellFormed(m)
    modifies conn`sent
    ensures conn.sent == old(conn.sent) + Frame(m)
  {
    var buf := Marshal(m);
    conn.Write(buf);
  }

  // Getting a frame off a connection

  /** The stream begins with as many bytes as its first five announce. */
  predicate WholeFrame(q: seq<byte>) {
    |q| >= 5 && FrameSize(q[..5]) <= |q|
  }

  /** Reads of one byte up to five bytes, and then of all that is missing, come from `got` to
      `need` bytes before the connection has no more to offer. */
  predicate Delivers(chunks: seq<nat>, got: nat, need: nat)
    decreases |chunks|
  {
    got >= need ||
    (chunks != [] && Delivers(chunks[1..], got + Min(chunks[0], if got < 5 then 1 else need - got), need))
  }

  /** What the chunks come to once k of them that are not empty are gone; -1 when there are
      not as many. */
  function Offered(chunks: seq<nat>, k: nat): int
    decreases |chunks|
  {
    if chunks == [] then (if k == 0 then 0 else -1)
    else if k == 0 then chunks[0] + Offered(chunks[1..], 0)
    else Offered(chunks[1..], if chunks[0] == 0 then k else k - 1)
  }

  lemma {:induction false} OfferedAtLeast(chunks: seq<nat>, k: nat)
    ensures Offered(chunks, k) >= -1 && (k == 0 ==> Offered(chunks, k) >= 0)
    decreases |chunks|
  {
    if chunks != [] { OfferedAtLeast(chunks[1..], if k == 0 || chunks[0] == 0 then k else k - 1); }
  }

  /** A frame is delivered exactly when, after five reads that are not empty, the rest of them
      offer all of it but its first five bytes. */
  lemma {:induction false} DeliversIff(chunks: seq<nat>, got: nat, need: nat)
    requires got <= need && 5 <= need
    ensures var k := if got < 5 then 5 - got else 0;
            Delivers(chunks, got, need) <==> Offered(chunks, k) >= need - got - k
    decreases |chunks|
  {
    OfferedAtLeast(chunks, if got < 5 then 5 - got else 0);
    if chunks != [] {
      var n := Min(chunks[0], if got < 5 then 1 else need - got);
      DeliversIff(chunks[1..], got + n, need);
      OfferedAtLeast(chunks[1..], 0);
    }
  }

  /** getMessageBuffer: five bytes one at a time, then as many more as they announce. A whole
      frame is returned, and exactly it taken, if and only if the connection delivers it. */
  method GetMessageBuffer(conn: Conn) returns (r: Received)
    modifies conn`pending, conn`chunks
    ensures r.Got? <==>
              WholeFrame(old(conn.pending)) && Delivers(old(conn.chunks), 0, FrameSize(old(conn.pending)[..5]))
    ensures r.Got? ==> var size := FrameSize(old(conn.pending)[..5]);
              r.buf == old(conn.pending)[..size] && conn.pending == old(conn.pending)[size..]
    ensures r.Lost? ==> conn.chunks == []
  {
    ghost var q := conn.pending;
    ghost var whole := WholeFrame(q);
    ghost var need := if whole then FrameSize(q[..5]) else 0;
    var buf: seq<byte> := [];
    var l := 0;
    while l < 5
      invariant l == |buf| <= 5 && q == buf + conn.pending
      invariant whole ==> (Delivers(old(conn.chunks), 0, need) <==> Delivers(conn.chunks, l, need))
      decreases |conn.chunks|
    {
      var d := conn.Read(1);
      if d.failed { return Lost; }
      if |d.bytes| != 0 {
        buf := buf + d.bytes;
        l := l + |d.bytes|;
      }
    }
    var (remlen, _) := Uvarint(buf[1..5]);
    assert buf == q[..5] && buf[1..5] == q[..5][1..];
    r := ReadRest(conn, buf, 5 + remlen);
  }

  /** The second loop: all that is missing of a frame whose size is known. */
  method ReadRest(conn: Conn, head: seq<byte>, size: nat) returns (r: Received)
    requires 5 <= |head| <= size
    modifies conn`pending, conn`chunks
    ensures var q := head + old(conn.pending);
            && (r.Got? <==> size <= |q| && Delivers(old(conn.chunks), |head|, size))
            && (r.Got? ==> r.buf == q[..size] && conn.pending == q[size..])
    ensures r.Lost? ==> conn.chunks == []
  {
    ghost var q := head + conn.pending;
    var buf, l := head, |head|;
    while l < size
      invariant 5 <= l == |buf| <= size && q == buf + conn.pending
      invariant size <= |q| ==> (Delivers(old(conn.chunks), |head|, size) <==> Delivers(conn.chunks, l, size))
      decreases |conn.chunks|
    {
      var d := conn.Read(size - l);
      if d.failed { return Lost; }
      buf := buf + d.bytes;
      l := l + |d.bytes|;
    }
    assert buf == q[..l] && conn.pending == q[l..];
    return Got(buf);
  }

  /** What GetMessageBuffer returns from a stream that starts with m's frame is that frame,
      and what it leaves is what followed, exactly when the body is below 2^28 bytes. */
  lemma FirstFrameIff(m: Message, rest: seq<byte>, buf: seq<byte>, left: seq<byte>)
    requires Frame(m) + rest == buf + left
    requires |buf| >= 5 && |buf| == FrameSize(buf[..5])
    ensures buf == Frame(m) && left == rest <==> |Body(m)| < TWO_28
  {
    assert buf[..5] == (buf + left)[..5] == Frame(m)[..5];
    FrameSizeIff(m);
    if |buf| == |Frame(m)| {
      assert buf == (buf + left)[..|buf|] == Frame(m);
      assert left == (buf + left)[|buf|..] == rest;
    }
  }

  /** A stream that starts with a frame starts with a whole frame, of the frame's size. */
  lemma FrameIsWhole(m: Message, rest: seq<byte>)
    requires WellFormed(m) && |Body(m)| < TWO_28
    ensures var q := Frame(m) + rest;
            && WholeFrame(q) && FrameSize(q[..5]) == Wire.Len(m)
            && q[..Wire.Len(m)] == Frame(m) && q[Wire.Len(m)..] == rest
    ensures DecodeAs(KindOf(m), Frame(m)) == Decoded(m, |Wire.Encode(m)|)
  {
    FrameSizeIff(m);
    FrameRoundTrip(m);
    assert (Frame(m) + rest)[..5] == Frame(m)[..5];
  }

  // Registration

  datatype Reply = Answer(code: byte) | Rejected(why: Result)

  /** What the agent makes of what it has read for an acknowledgement. */
  function ReplyIn(buf: seq<byte>): Reply {
    match DecodeAs(ACK, buf)
    case Decoded(m, _) => if m.Ack? then Answer(m.code) else Rejected(WrongType)
    case ErrType => Rejected(WrongType)
    case Panic => Rejected(OutOfRange)
  }

  /** What the agent has read for an acknowledgement: a frame, or nothing. */
  function FrameRead(q: seq<byte>, chunks: seq<nat>): seq<byte> {
    if WholeFrame(q) && Delivers(chunks, 0, FrameSize(q[..5])) then q[..FrameSize(q[..5])] else []
  }

  /** The agent's side: one frame out, one frame in, read directly off the connection.
      Whatever follows the frame stays in the stream, for the ring to read. */
  method Register(conn: Conn, keepAlive: uint16, name: seq<byte>) returns (r: Reply)
    modifies conn
    ensures conn.sent == old(conn.sent) + Frame(Wire.Register(keepAlive, name))
    ensures r == ReplyIn(FrameRead(old(conn.pending), old(conn.chunks)))
    ensures var buf := FrameRead(old(conn.pending), old(conn.chunks));
            if buf == [] then conn.chunks == [] else conn.pending == old(conn.pending)[|buf|..]
  {
    SendMessage(conn, Wire.Register(keepAlive, name));
    r := ReceiveAck(conn);
  }

  /** getAckMessage: it ignores the error of the read and decodes what there is. */
  method ReceiveAck(conn: Conn) returns (r: Reply)
    modifies conn`pending, conn`chunks
    ensures r == ReplyIn(FrameRead(old(conn.pending), old(conn.chunks)))
    ensures var buf := FrameRead(old(conn.pending), old(conn.chunks));
            if buf == [] then conn.chunks == [] else conn.pending == old(conn.pending)[|buf|..]
  {
    var got := GetMessageBuffer(conn);
    var msg := new AckMessage(0);
    var d := msg.Decode(if got.Lost? then [] else got.buf);
    r := if d.Done? then Answer(msg.returnCode) else Rejected(d);
  }

  /** The agent gets the acknowledgement that was sent, and leaves what follows it, exactly
      when the connection delivers six bytes; otherwise it decodes nothing, out of range. */
  lemma AckReadIff(code: byte, rest: seq<byte>, chunks: seq<nat>)
    ensures var q := Frame(Ack(code)) + rest; var buf := FrameRead(q, chunks);
            && (ReplyIn(buf) == Answer(code) <==> Delivers(chunks, 0, 6))
            && (ReplyIn(buf) == Rejected(OutOfRange) <==> !Delivers(chunks, 0, 6))
            && (Delivers(chunks, 0, 6) ==> q[|buf|..] == rest)
    ensures Delivers(chunks, 0, 6) <==> Offered(chunks, 5) >= 1
  {
    FrameIsWhole(Ack(code), rest);
    DeliversIff(chunks, 0, 6);
  }

  /** A stream without a whole frame is always decoded as nothing, out of range. */
  lemma ShortStreamRejected(q: seq<byte>, chunks: seq<nat>)
    requires !WholeFrame(q)
    ensures ReplyIn(FrameRead(q, chunks)) == Rejected(OutOfRange)
  {
  }

  /** A connection that fails after five bytes of an acknowledgement. */
  method FailingConnection() returns (r: Reply)
    ensures r == Rejected(OutOfRange)
  {
    var conn := new Conn(Frame(Ack(0)), [1, 1, 1, 1, 1], 0);
    r := ReceiveAck(conn);
    assert Frame(Ack(0)) + [] == Frame(Ack(0));
    AckReadIff(0, [], [1, 1, 1, 1, 1]);
    assert Offered([1, 1, 1, 1, 1], 5) == Offered([], 0);
  }

  datatype Client = Client(name: seq<byte>, keepAlive: uint16)

  const DEFAULT_KEEP_ALIVE := 60 * 60 * 2

  /** The client a registration asks for. */
  function Requested(keepAlive: uint16, name: seq<byte>): Client {
    Client(name, if keepAlive == 0 then DEFAULT_KEEP_ALIVE else keepAlive)
  }

  datatype Admission = Admitted(client: Client) | Refused(lost: bool)

  /** What the master makes of what it has read for a registration. */
  function AdmissionIn(buf: seq<byte>): Admission {
    if buf == [] then Refused(true)
    else match DecodeAs(REGISTER, buf)
      case Decoded(m, _) => if m.Register? then Admitted(Requested(m.keepAlive, m.name)) else Refused(false)
      case _ => Refused(false)
  }

  class Master {
    var clients: map<seq<byte>, Client>

    constructor ()
      ensures clients == map[]
    {
      clients := map[];
    }

    /** createClient: a register frame is read off the new connection and acknowledged, and
        then the client is published, unless one of its name already is. */
    method CreateClient(conn: Conn) returns (r: Admission)
      modifies this, conn
      ensures r == AdmissionIn(FrameRead(old(conn.pending), old(conn.chunks)))
      ensures var buf := FrameRead(old(conn.pending), old(conn.chunks));
              if buf == [] then conn.chunks == [] else conn.pending == old(conn.pending)[|buf|..]
      ensures r.Refused? ==> conn.sent == old(conn.sent) && clients == old(clients)
      ensures r.Admitted? ==>
                && conn.sent == old(conn.sent) + Frame(Ack(0))
                && clients == map[r.client.name := r.client] + old(clients)
    {
      var got := GetMessageBuffer(conn);
      if got.Lost? { return Refused(true); }
      var msg := new RegisterMessage(0, []);
      var d := msg.Decode(got.buf);
      if !d.Done? { return Refused(false); }
      if msg.keepAlive == 0 { msg.keepAlive := DEFAULT_KEEP_ALIVE; }
      var client := Client(msg.name, msg.keepAlive);
      SendMessage(conn, Ack(0));
      if client.name !in clients { clients := clients[client.name := client]; }
      return Admitted(client);
    }
  }

  /** A registration that was sent is admitted, as the client it asks for, exactly when the
      connection delivers its frame; otherwise the connection is refused as lost. */
  lemma AdmittedIff(keepAlive: uint16, name: seq<byte>, rest: seq<byte>, chunks: seq<nat>)
    requires |name| < TWO_28 - 2
    ensures var q := Frame(Wire.Register(keepAlive, name)) + rest; var buf := FrameRead(q, chunks);
            var there := Delivers(chunks, 0, 7 + |name|);
            && (AdmissionIn(buf) == Admitted(Requested(keepAlive, name)) <==> there)
            && (AdmissionIn(buf) == Refused(true) <==> !there)
            && (there ==> q[|buf|..] == rest)
    ensures Delivers(chunks, 0, 7 + |name|) <==> Offered(chunks, 5) >= 2 + |name|
  {
    FrameIsWhole(Wire.Register(keepAlive, name), rest);
    DeliversIff(chunks, 0, 7 + |name|);
  }

  // The pid in a stop request

  /** The four-byte buffer StopProcess writes the pid into; PidPanic when it does not fit. */
  datatype PidBuffer = PidBytes(b: seq<byte>) | PidPanic

  function PutPid(pid: int): PidBuffer {
    var v := PutVarint(pid);
    if |v| <= 4 then PidBytes(Overlay(Zeros(4), v)) else PidPanic
  }

  lemma PidFitsIff(pid: int)
    ensures PutPid(pid).PidBytes? <==> -0x800_0000 <= pid < 0x800_0000
  {
    PutUvarintLength(if pid >= 0 then 2 * pid else -2 * pid - 1, 4);
    assert Shift7(1, 4) == TWO_28;
  }

  /** The pid the agent reads out of a stop request, carried in a frame with anything after
      it, is the pid the master was asked to stop; the master's buffer holds every pid from
      1 up to, and not including, 2^27. */
  lemma StopPidRoundTrip(pid: int, pad: seq<byte>)
    ensures 1 <= pid < 0x800_0000 ==> PutPid(pid).PidBytes?
    ensures pid >= 0x800_0000 ==> PutPid(pid).PidPanic?
    ensures PutPid(pid).PidBytes? ==>
              var d := DecodeAs(STOP, Frame(Payload(STOP, PutPid(pid).b)) + pad);
              && d.Decoded? && d.msg == Payload(STOP, PutPid(pid).b)
              && Varint.Varint(d.msg.payload).0 == pid
  {
    PidFitsIff(pid);
    if PutPid(pid).PidBytes? {
      PaddedFrameDecodes(Payload(STOP, PutPid(pid).b), pad);
      PidReadBack(pid);
    }
  }

  /** A frame decodes to its message whatever follows it. */
  lemma PaddedFrameDecodes(m: Message, pad: seq<byte>)
    requires WellFormed(m) && |Body(m)| < TWO_28
    ensures DecodeAs(KindOf(m), Frame(m) + pad) == Decoded(m, |Wire.Encode(m)|)
  {
    FrameIsPadded(m);
    var zeros := Zeros(Wire.Len(m) - |Wire.Encode(m)|);
    assert Frame(m) + pad == Wire.Encode(m) + (zeros + pad);
    DecodeEncoded(m, zeros + pad);
  }

  lemma PidReadBack(pid: int)
    requires PutPid(pid).PidBytes?
    ensures Varint.Varint(PutPid(pid).b).0 == pid
  {
    PidFitsIff(pid);
    VarintPut(pid, Zeros(4)[|PutVarint(pid)|..]);
  }
}
