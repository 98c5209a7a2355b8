/** The agent's side of the ring, called in sequence: messages written into the outgoing
    ring, and frames peeked, decoded and committed from the incoming one. */
module Agent {
  import opened RingBytes
  import opened Wire
  import opened Network
  import Codec
  import Rings = RingBuffer

  datatype Sized = Sized(mtype: byte, total: nat)

  /** What PeekMessage finds. */
  datatype Peeked = Peeked(m: Message) | NoMessage(error: Rings.Error) | UnknownByte | Undecodable

  /** Why the processor's loop ends. */
  datatype Stop = NoData(error: Rings.Error) | Unknown | Bad | Uncommitted | Emptied

  function PeekedIn(mtype: byte, frame: seq<byte>): Peeked {
    match NewMessage(mtype)
    case UnknownType => UnknownByte
    case New(k) => match DecodeAs(k, frame) case Decoded(m, _) => Peeked(m) case _ => Undecodable
  }

  /** The frame at the front of what the ring holds, and its message; with `wait` the error
      of a wait for bytes that are not there. */
  function FrontOf(q: seq<byte>, size: nat, wait: Rings.Error): Peeked {
    if |q| < 5 then NoMessage(wait) else
    var total := FrameSize(q[..5]);
    if total > |q| then NoMessage(if total > size then Rings.BufferFull else wait)
    else PeekedIn(q[0], q[..total])
  }

  /** What the processor's loop comes to: the messages handed on, what is left in the ring,
      and why it ended. */
  datatype Drain = Drain(handled: seq<Message>, left: seq<byte>, why: Stop)

  function After(m: seq<Message>, d: Drain): Drain { d.(handled := m + d.handled) }

  /** The loop on a ring that holds q and gets no more: frame by frame, each dropped once its
      message has been handed on. */
  function Drained(q: seq<byte>, size: nat, wait: Rings.Error, running: bool): Drain
    decreases |q|
  {
    match FrontOf(q, size, wait)
    case NoMessage(e) => Drain([], q, NoData(e))
    case UnknownByte => Drain([], q, Unknown)
    case Undecodable => Drain([], q, Bad)
    case Peeked(m) =>
      var rest := q[FrameSize(q[..5])..];
      if !running && rest == [] then Drain([m], rest, Emptied)
      else After([m], Drained(rest, size, wait, running))
  }

  /** The beginning of a frame that has not arrived whole. */
  ghost predicate StartsAFrame(rest: seq<byte>) {
    exists m :: WellFormed(m) && |Body(m)| < TWO_28 && |rest| < Len(m) && rest == Frame(m)[..|rest|]
  }

  lemma PartialFrame(rest: seq<byte>)
    requires StartsAFrame(rest) && |rest| >= 5
    ensures FrameSize(rest[..5]) > |rest|
  {
    var m :| WellFormed(m) && |Body(m)| < TWO_28 && |rest| < Len(m) && rest == Frame(m)[..|rest|];
    FrameSizeIff(m);
    assert rest[..5] == Frame(m)[..5];
  }

  /** The frame at the front of the stream tells its own type and length, and decodes to
      the message it was made of. */
  lemma FrontFrame(ms: seq<Message>, rest: seq<byte>)
    requires ms != [] && WellFormed(ms[0]) && |Body(ms[0])| < TWO_28
    ensures var s := Frames(ms) + rest; var m := ms[0];
            && |s| >= Len(m) >= 5 && FrameSize(s[..5]) == Len(m)
            && PeekedIn(s[0], s[..Len(m)]) == Peeked(m)
            && s[Len(m)..] == Frames(ms[1..]) + rest
  {
    var s, m := Frames(ms) + rest, ms[0];
    assert s == Frame(m) + (Frames(ms[1..]) + rest);
    FrameSizeIff(m);
    assert s[..5] == Frame(m)[..5] && s[..Len(m)] == Frame(m);
    FrameIsPadded(m);
    FrameRoundTrip(m);
    NewOfTypeByte(KindOf(m), s[0]);
  }

  /** Of a stream of whole frames and the start of one more, the loop hands on exactly the
      messages of the whole frames, in order, and leaves exactly the rest. It ends because the
      rest is not a frame yet, or, told to stop, because nothing is left. */
  lemma {:induction false} FramesDrained(ms: seq<Message>, rest: seq<byte>, size: nat, wait: Rings.Error, running: bool)
    requires Sendable(ms) && StartsAFrame(rest)
    ensures var d := Drained(Frames(ms) + rest, size, wait, running);
            && d.handled == ms && d.left == rest
            && (d.why == Emptied <==> !running && rest == [] && ms != [])
            && (d.why == Emptied || d.why == NoData(wait) || d.why == NoData(Rings.BufferFull))
  {
    if ms == [] {
      assert Frames(ms) + rest == rest;
      if |rest| >= 5 { PartialFrame(rest); }
    } else {
      FrontFrame(ms, rest);
      FramesDrained(ms[1..], rest, size, wait, running);
      NothingLeft(ms[1..], rest);
      assert [ms[0]] + ms[1..] == ms;
    }
  }

  lemma NothingLeft(ms: seq<Message>, rest: seq<byte>)
    ensures Frames(ms) + rest == [] <==> ms == [] && rest == []
  {
    if ms == [] { assert Frames(ms) == []; } else { assert |Frames(ms)| >= |Frame(ms[0])| >= 5; }
  }

  lemma OverlayFront(was: seq<byte>, bytes: seq<byte>)
    ensures |bytes| <= |was| ==> Overlay(was, bytes)[..|bytes|] == bytes
    ensures |bytes| > |was| ==> Overlay(was, bytes) == bytes[..|was|]
  {
  }

  /** What writing a message comes to; OutOfRange when the scratch array is too short for
      the encoding. */
  datatype Sent = Sent(n: nat) | NotSent(error: Rings.Error) | OutOfRange

  /** The queue once n bytes have been sent for a message: they are its encoding, or, past
      the Len() bytes reserved for it, whatever was in the ring. */
  predicate Appended(q: seq<byte>, q': seq<byte>, m: Message) {
    var n := |Encode(m)|;
    && |q'| == |q| + n && q'[..|q|] == q
    && q'[|q|..][..Min(n, Len(m))] == Encode(m)[..Min(n, Len(m))]
  }

  lemma AppendedWhole(q: seq<byte>, q': seq<byte>, m: Message)
    requires Appended(q, q', m) && |Encode(m)| <= Len(m)
    ensures q' == q + Encode(m)
  {
    var e := Encode(m);
    assert e[..|e|] == e && q'[|q|..][..|e|] == q'[|q|..];
    Rejoined(q, q', e);
  }

  lemma Rejoined(q: seq<byte>, q': seq<byte>, e: seq<byte>)
    requires |q'| == |q| + |e| && q'[..|q|] == q && q'[|q|..] == e
    ensures q' == q + e
  {
  }

  class Server {
    const in_: Rings.Buffer
    const out: Rings.Buffer
    var running: bool
    var outtmp: array<byte>

    ghost predicate Valid() reads this, in_, out {
      && in_.Valid() && out.Valid() && in_.size >= 5
      && outtmp != out.buf && outtmp != in_.buf
    }

    constructor (in_: Rings.Buffer, out: Rings.Buffer)
      requires in_.Valid() && out.Valid() && in_.size >= 5
      ensures Valid() && fresh(outtmp) && this.in_ == in_ && this.out == out
    {
      this.in_, this.out, running := in_, out, true;
      outtmp := new byte[0];
    }

    /** Appends the message's compact encoding to the outgoing ring. Where the free cells go
        round the end of the array it is encoded in the scratch array and copied in, and
        otherwise in place; what is appended is the same. An encoding longer than Len() is
        more than was reserved: it may be too long for the scratch array, and in place its end
        is not written. */
    method WriteMessage(m: Message) returns (r: Sent)
      requires Valid() && WellFormed(m)
      modifies this`outtmp, outtmp, out`gate, out`pseq, out.buf
      ensures Valid() && (outtmp == old(outtmp) || fresh(outtmp))
      ensures if r.Sent? then Appended(old(out.Contents()), out.Contents(), m) && r.n == |Encode(m)|
              else out.Contents() == old(out.Contents())
      ensures r.NotSent? ==> r.error == if out.done then Rings.Eof else Rings.WouldBlock
      ensures r.OutOfRange? <==>
                && !out.done && |old(out.Contents())| + Len(m) <= out.size
                && Cell(old(out.pseq), out.size) + Len(m) > out.size
                && |Encode(m)| > Len(m) && |Encode(m)| > old(outtmp.Length)
      ensures |Encode(m)| <= Len(m) ==>
                && (r.Sent? <==> !out.done && |old(out.Contents())| + Len(m) <= out.size)
                && (r.Sent? ==> out.Contents() == old(out.Contents()) + Encode(m))
    {
      var l := Codec.LenOf(m);
      var w := out.WriteWait(l);
      if w.Err? { return NotSent(w.error); }
      ghost var q := out.Contents();
      if w.value.wrap { r := WriteAround(m, l); } else { r := WriteInPlace(m, w.value.lo, w.value.hi); }
      if |Encode(m)| <= Len(m) { AppendedWhole(q, out.Contents(), m); }
    }

    /** Encodes in the scratch array, made longer if need be, and copies that in. */
    method WriteAround(m: Message, l: nat) returns (r: Sent)
      requires Valid() && WellFormed(m) && l == Len(m)
      requires !out.done && |out.Contents()| + l <= out.size
      modifies this`outtmp, outtmp, out`gate, out`pseq, out.buf
      ensures Valid() && (outtmp == old(outtmp) || fresh(outtmp))
      ensures if r.Sent? then Appended(old(out.Contents()), out.Contents(), m) && r.n == |Encode(m)|
              else out.Contents() == old(out.Contents())
      ensures r.NotSent? ==> r.error == Rings.WouldBlock
      ensures r.OutOfRange? <==> |Encode(m)| > l && |Encode(m)| > old(outtmp.Length)
      ensures |Encode(m)| <= Len(m) ==> r.Sent?
    {
      if outtmp.Length < l { outtmp := Codec.ZeroedBuffer(l); }
      ghost var was := outtmp[..];
      var n := Codec.EncodeInto(m, outtmp);
      OverlayFront(was, Encode(m));
      if n > outtmp.Length { return OutOfRange; }
      assert outtmp[..n] == outtmp[..][..n] == Encode(m);
      var w := out.Write(outtmp[..n]);
      r := if w.Ok? then Sent(w.value) else NotSent(w.error);
    }

    /** Encodes over the free cells themselves: the slice of the ring is a copy of them that
        is put back. */
    method WriteInPlace(m: Message, lo: nat, hi: nat) returns (r: Sent)
      requires Valid() && WellFormed(m)
      requires !out.done && lo == Cell(out.pseq, out.size) && hi == lo + Len(m) <= out.size
      requires out.pseq + Len(m) <= out.gate + out.size
      modifies out`gate, out`pseq, out.buf
      ensures Valid()
      ensures if r.Sent? then Appended(old(out.Contents()), out.Contents(), m) && r.n == |Encode(m)|
              else out.Contents() == old(out.Contents())
      ensures r.NotSent? ==> r.error == Rings.WouldBlock
      ensures !r.OutOfRange? && (|Encode(m)| <= Len(m) ==> r.Sent?)
    {
      var slice := Codec.ZeroedBuffer(hi - lo);
      var _ := Rings.Copy(slice, 0, out.buf[lo..hi]);
      ghost var was := slice[..];
      var n := Codec.EncodeInto(m, slice);
      OverlayFront(was, Encode(m));
      out.Fill(lo, slice[..]);
      RunFront(out.buf[..], out.pseq, n, |was|);
      var w := out.WriteCommit(n);
      r := if w.Ok? then Sent(w.value) else NotSent(w.error);
    }

    /** How a wait for bytes that are not in the ring ends. */
    ghost function Wait(): Rings.Error reads in_ {
      if in_.done then Rings.Eof else Rings.WouldBlock
    }

    /** The type and the length of the frame at the front, once five bytes of it are there. */
    method PeekMessageSize() returns (r: Rings.Outcome<Sized>)
      requires Valid()
      modifies in_`tmp
      ensures Valid() && in_.Contents() == old(in_.Contents())
      ensures r.Ok? <==> |in_.Contents()| >= 5
      ensures r.Ok? ==> r.value == Sized(in_.Contents()[0], FrameSize(in_.Contents()[..5]))
      ensures r.Err? ==> r.error == Wait()
    {
      var cnt, b := 2, [];
      while true
        invariant Valid() && in_.Contents() == old(in_.Contents()) && 2 <= cnt <= 5
        decreases 5 - cnt
      {
        var w := in_.ReadWait(cnt);
        if w.Err? { return Rings.Err(w.error); }
        b := in_.Shown(w.value);
        if cnt == 5 { break; }
        cnt := cnt + 1;
      }
      r := Rings.Ok(Sized(b[0], FrameSize(b)));
    }

    /** The message in the first `total` bytes, once they are there. */
    method PeekMessage(mtype: byte, total: nat) returns (r: Peeked)
      requires Valid()
      modifies in_`tmp
      ensures Valid() && in_.Contents() == old(in_.Contents())
      ensures total > |in_.Contents()| ==>
                r == NoMessage(if total > in_.size then Rings.BufferFull else Wait())
      ensures total <= |in_.Contents()| ==> r == PeekedIn(mtype, in_.Contents()[..total])
    {
      var w := in_.ReadWait(total);
      if w.Err? { return NoMessage(w.error); }
      var b := in_.Shown(w.value);
      match NewMessage(mtype)
      case UnknownType => return UnknownByte;
      case New(k) =>
        var d, m := Codec.DecodeInto(k, b);
        if d.Done? { return Peeked(m); }
        return Undecodable;
    }

    /** One round of the processor's loop up to the handing on: peek at the size, then at the
        message. */
    method PeekFrame() returns (total: nat, r: Peeked)
      requires Valid()
      modifies in_`tmp
      ensures Valid() && in_.Contents() == old(in_.Contents())
      ensures r == FrontOf(in_.Contents(), in_.size, Wait())
      ensures r.Peeked? ==> 5 <= total <= |in_.Contents()| && total == FrameSize(in_.Contents()[..5])
    {
      var sized := PeekMessageSize();
      if sized.Err? { return 0, NoMessage(sized.error); }
      total := sized.value.total;
      r := PeekMessage(sized.value.mtype, total);
    }

    /** The rest of the round: drop the frame, and look whether there is anything after it. */
    method DropFrame(total: nat) returns (ok: bool, empty: bool)
      requires Valid() && total <= |in_.Contents()|
      modifies in_`cseq
      ensures Valid() && ok && in_.Contents() == old(in_.Contents())[total..]
      ensures empty <==> in_.Contents() == []
    {
      var c := in_.ReadCommit(total);
      var n := in_.Len();
      ok, empty := c.Ok?, n == 0;
    }

    /** What the loop comes to from here. */
    ghost function Rest(): Drain
      requires Valid()
      reads this, in_, in_.buf, out
    {
      Drained(in_.Contents(), in_.size, Wait(), running)
    }

    /** One round of the loop: peek a frame, hand its message on, and drop its bytes. */
    method Round() returns (m: Peeked, end: bool, stop: Stop)
      requires Valid()
      modifies in_`tmp, in_`cseq
      ensures Valid()
      ensures end ==> old(Rest()) == Drain(if m.Peeked? then [m.m] else [], in_.Contents(), stop)
      ensures !end ==> m.Peeked? && old(Rest()) == After([m.m], Rest()) && |in_.Contents()| < |old(in_.Contents())|
    {
      var total;
      total, m := PeekFrame();
      match m {
        case NoMessage(e) => return m, true, NoData(e);
        case UnknownByte => return m, true, Unknown;
        case Undecodable => return m, true, Bad;
        case Peeked(_) =>
      }
      var ok, empty := DropFrame(total);
      if !ok { return m, true, Uncommitted; }
      end, stop := !running && empty, Emptied;
    }

    /** The processor's loop: peek a frame, hand its message on, and only then drop its
        bytes; told to stop, it ends as soon as the ring is empty. */
    method Processor() returns (handled: seq<Message>, why: Stop)
      requires Valid()
      modifies in_`tmp, in_`cseq
      ensures Valid()
      ensures Drain(handled, in_.Contents(), why) == Drained(old(in_.Contents()), in_.size, Wait(), running)
    {
      handled := [];
      ghost var whole := Rest();
      assert After([], whole) == whole;
      while true
        invariant Valid() && whole == After(handled, Rest())
        decreases |in_.Contents()|
      {
        ghost var before := handled;
        var m, end, stop := Round();
        if m.Peeked? {
          handled := handled + [m.m];
          AfterTwice(before, m.m, Rest());
        }
        if end { return handled, stop; }
      }
    }
  }

  lemma AfterTwice(before: seq<Message>, m: Message, d: Drain)
    ensures After(before + [m], d) == After(before, After([m], d))
  {
    assert before + [m] + d.handled == before + ([m] + d.handled);
  }

  lemma RunFront(ring: seq<byte>, from: nat, n: nat, l: nat)
    requires |ring| > 0
    ensures Run(ring, from, n)[..Min(n, l)] == Run(ring, from, l)[..Min(n, l)]
  {
  }
}
