/** The messages on the wire: what Encode writes, the padded frame a sender makes of it,
    and what Decode makes of a frame. */
module Wire {
  import opened RingBytes
  import opened Varint

  type uint16 = x: int | 0 <= x < 0x1_0000

  const TWO_28 := 0x1000_0000
  const TWO_31 := 0x8000_0000
  const TWO_32 := 0x1_0000_0000

  datatype Kind = REGISTER | ACK | START | STOP | QUERY | HEARTBEAT | QUERYDETAIL

  datatype Message =
    | Register(keepAlive: uint16, name: seq<byte>)
    | Ack(code: byte)
    | Query
    | Payload(kind: Kind, payload: seq<byte>)   // START, STOP, HEARTBEAT, QUERYDETAIL

  predicate WellFormed(m: Message) {
    m.Payload? ==> CarriesPayload(m.kind)
  }

  predicate CarriesPayload(k: Kind) {
    k.START? || k.STOP? || k.HEARTBEAT? || k.QUERYDETAIL?
  }

  function KindOf(m: Message): Kind {
    match m
    case Register(_, _) => REGISTER
    case Ack(_) => ACK
    case Query => QUERY
    case Payload(k, _) => k
  }

  function TypeByte(k: Kind): byte {
    match k
    case REGISTER => 0 case ACK => 1 case START => 2 case STOP => 3
    case QUERY => 4 case HEARTBEAT => 5 case QUERYDETAIL => 6
  }

  datatype NewResult = New(kind: Kind) | UnknownType

  /** MessageType.New: which message a type byte announces. */
  function NewMessage(t: byte): NewResult {
    match t
    case 0 => New(REGISTER) case 1 => New(ACK) case 2 => New(START) case 3 => New(STOP)
    case 4 => New(QUERY) case 5 => New(HEARTBEAT) case 6 => New(QUERYDETAIL)
    case _ => UnknownType
  }

  function Body(m: Message): seq<byte> {
    match m
    case Register(keepAlive, name) => [keepAlive / 256, keepAlive % 256] + name
    case Ack(code) => [code]
    case Query => []
    case Payload(_, payload) => payload
  }

  /** Go's conversion to int32, and of an int32 to uint64. */
  function Int32(n: nat): (r: int)
    ensures -TWO_31 <= r < TWO_31
  {
    (n + TWO_31) % TWO_32 - TWO_31
  }

  function Uint64(n: int): nat
    requires -TWO_31 <= n
  {
    if n >= 0 then n else TWO_64 + n
  }

  function Header(k: Kind, remlen: int): (h: seq<byte>)
    requires -TWO_31 <= remlen
  {
    [TypeByte(k)] + PutUvarint(Uint64(remlen))
  }

  function Encode(m: Message): seq<byte> {
    Header(KindOf(m), Int32(|Body(m)|)) + Body(m)
  }

  /** The size Len announces: five bytes are always set aside for the header. */
  function Len(m: Message): nat { 5 + |Body(m)| }

  /** What is in dst once bytes were copied to its start: what does not fit is dropped. */
  function Overlay(dst: seq<byte>, bytes: seq<byte>): (r: seq<byte>)
    ensures |r| == |dst|
  {
    if |bytes| <= |dst| then bytes + dst[|bytes|..] else bytes[..|dst|]
  }

  function Zeros(n: nat): seq<byte> { seq(n, _ => 0) }

  /** What writeMessage sends. */
  function Frame(m: Message): (f: seq<byte>)
    ensures |f| == Len(m)
  {
    Overlay(Zeros(Len(m)), Encode(m))
  }

  // Decoding

  datatype Decoded = Decoded(msg: Message, n: int) | ErrType | Panic

  /** Decode of a message made for kind k; Panic stands for an index out of range. */
  function DecodeAs(k: Kind, src: seq<byte>): Decoded {
    if src == [] then Panic else
    var (v, m) := Uvarint(src[1..]);
    var total, remlen := 1 + m, Int32(v);
    if (k.REGISTER? || k.ACK? || k.QUERYDETAIL?) && src[0] != TypeByte(k) then ErrType
    else match k
      case REGISTER =>
        if total < 0 || total + 2 > |src| then Panic
        else if remlen < 2 || total + remlen > |src| then Panic
        else
          var keepAlive := (src[total] as int) * 256 + src[total + 1];
          Decoded(Register(keepAlive, src[total + 2..total + remlen]), total + remlen)
      case ACK =>
        if total < 0 || total >= |src| then Panic else Decoded(Ack(src[total]), total + 1)
      case QUERY =>
        Decoded(Query, total)
      case _ =>
        if total < 0 || remlen < 0 || total + remlen > |src| then Panic
        else Decoded(Payload(k, src[total..total + remlen]), total + remlen)
  }

  // Properties

  lemma Int32Small(n: nat)
    requires n < TWO_31
    ensures Int32(n) == n
  {
  }

  /** MessageType.New inverts the type byte, and knows no other bytes. */
  lemma NewOfTypeByte(k: Kind, t: byte)
    ensures NewMessage(TypeByte(k)) == New(k)
    ensures NewMessage(t) == New(k) ==> t == TypeByte(k)
  {
  }

  lemma HeaderReads(k: Kind, n: nat, rest: seq<byte>)
    requires n < TWO_31
    ensures var src := Header(k, n) + rest;
            src[0] == TypeByte(k) && Uvarint(src[1..]) == (n, |Header(k, n)| - 1)
  {
    UvarintPut(n, rest);
    assert (Header(k, n) + rest)[1..] == PutUvarint(n) + rest;
  }

  lemma DecodeRegister(h: seq<byte>, m: Message, pad: seq<byte>)
    requires m.Register? && |h| >= 1 && |Body(m)| < TWO_31
    requires var src := h + Body(m) + pad;
             src[0] == TypeByte(REGISTER) && Uvarint(src[1..]) == (|Body(m)|, |h| - 1)
    ensures DecodeAs(REGISTER, h + Body(m) + pad) == Decoded(m, |h| + |Body(m)|)
  {
    var src, at, ka := h + Body(m) + pad, |h|, m.keepAlive;
    assert src[at] == ka / 256 && src[at + 1] == ka % 256 && ka / 256 * 256 + ka % 256 == ka;
    assert src[at + 2..at + |Body(m)|] == m.name;
    Int32Small(|Body(m)|);
  }

  lemma DecodeOther(h: seq<byte>, m: Message, pad: seq<byte>)
    requires WellFormed(m) && !m.Register? && |h| >= 1 && |Body(m)| < TWO_31
    requires var src := h + Body(m) + pad;
             src[0] == TypeByte(KindOf(m)) && Uvarint(src[1..]) == (|Body(m)|, |h| - 1)
    ensures DecodeAs(KindOf(m), h + Body(m) + pad) == Decoded(m, |h| + |Body(m)|)
  {
    var src := h + Body(m) + pad;
    assert src[|h|..|h| + |Body(m)|] == Body(m);
    if m.Ack? { assert src[|h|] == Body(m)[0]; }
  }

  /** Decode undoes Encode whatever bytes follow, as long as an int32 holds the length. */
  lemma DecodeEncoded(m: Message, pad: seq<byte>)
    requires WellFormed(m) && |Body(m)| < TWO_31
    ensures DecodeAs(KindOf(m), Encode(m) + pad) == Decoded(m, |Encode(m)|)
  {
    var h := Header(KindOf(m), |Body(m)|);
    Int32Small(|Body(m)|);
    HeaderReads(KindOf(m), |Body(m)|, Body(m) + pad);
    assert h + Body(m) + pad == h + (Body(m) + pad);
    if m.Register? { DecodeRegister(h, m, pad); } else { DecodeOther(h, m, pad); }
  }

  lemma HeaderLength(n: nat)
    requires n < TWO_31
    ensures forall k: Kind :: |Header(k, n)| <= 5 <==> n < TWO_28
  {
    PutUvarintLength(n, 4);
    assert Shift7(1, 4) == TWO_28;
  }

  /** The frame is the encoding with zeros after it when the body is below 2^28 bytes. */
  lemma FrameIsPadded(m: Message)
    requires |Body(m)| < TWO_28
    ensures |Encode(m)| <= Len(m)
    ensures Frame(m) == Encode(m) + Zeros(Len(m) - |Encode(m)|)
  {
    Int32Small(|Body(m)|);
    HeaderLength(|Body(m)|);
    assert Zeros(Len(m))[|Encode(m)|..] == Zeros(Len(m) - |Encode(m)|);
  }

  /** A frame decodes to the message it was made of, with the count Encode returned,
      exactly when the body is below 2^28 bytes: from there on the header no longer fits
      the five bytes set aside for it. */
  lemma FrameRoundTrip(m: Message)
    requires WellFormed(m)
    ensures DecodeAs(KindOf(m), Frame(m)) == Decoded(m, |Encode(m)|) <==> |Body(m)| < TWO_28
  {
    if |Body(m)| < TWO_28 {
      FrameIsPadded(m);
      DecodeEncoded(m, Zeros(Len(m) - |Encode(m)|));
    } else if DecodeAs(KindOf(m), Frame(m)) == Decoded(m, |Encode(m)|) {
      LongFrameFails(m);
    }
  }

  lemma LongFrameFails(m: Message)
    requires WellFormed(m) && |Body(m)| >= TWO_28
    ensures DecodeAs(KindOf(m), Frame(m)) != Decoded(m, |Encode(m)|)
  {
    var k, f, n := KindOf(m), Frame(m), |Body(m)|;
    var (v, taken) := Uvarint(f[1..]);
    if DecodeAs(k, f) == Decoded(m, |Encode(m)|) {
      assert n == Int32(v);
      assert 1 + taken + n <= |f| == 5 + n;
      Int32Small(n);
      HeaderLength(n);
      HeaderShows(m);
    }
  }

  /** The header of a long message survives in its truncated frame. */
  lemma HeaderShows(m: Message)
    requires TWO_28 <= |Body(m)| < TWO_31
    ensures var h := Header(KindOf(m), |Body(m)|);
            Uvarint(Frame(m)[1..]) == (|Body(m)|, |h| - 1)
  {
    var k, n := KindOf(m), |Body(m)|;
    var h := Header(k, n);
    Int32Small(n);
    PutUvarintLength(n, 10);
    assert Shift7(1, 10) > TWO_31;
    assert Frame(m) == h + Frame(m)[|h|..];
    HeaderReads(k, n, Frame(m)[|h|..]);
  }

  /** The compact encoding is itself a frame exactly when the length takes four bytes of
      varint; the length as the int32 the header holds. */
  lemma CompactIsFrameIff(m: Message)
    ensures Encode(m) == Frame(m) <==> 0x20_0000 <= Int32(|Body(m)|) < TWO_28
    ensures |Body(m)| < TWO_31 ==> Int32(|Body(m)|) == |Body(m)|
  {
    HeaderIsFiveIff(KindOf(m), Int32(|Body(m)|));
    if |Encode(m)| == Len(m) { assert Frame(m) == Encode(m) + Zeros(Len(m))[|Encode(m)|..]; }
  }

  lemma HeaderIsFiveIff(k: Kind, remlen: int)
    requires -TWO_31 <= remlen < TWO_31
    ensures |Header(k, remlen)| == 5 <==> 0x20_0000 <= remlen < TWO_28
  {
    PutUvarintLength(Uint64(remlen), 3);
    PutUvarintLength(Uint64(remlen), 4);
    assert Shift7(1, 3) == 0x20_0000 && Shift7(1, 4) == TWO_28;
  }

  // Framing

  /** How long the readers take a frame to be, from its first five bytes. */
  function FrameSize(head: seq<byte>): nat
    requires |head| == 5
  {
    5 + Uvarint(head[1..]).0
  }

  /** The first five bytes tell the length of a frame exactly when its body is below 2^28. */
  lemma FrameSizeIff(m: Message)
    ensures FrameSize(Frame(m)[..5]) == |Frame(m)| <==> |Body(m)| < TWO_28
  {
    var n := |Body(m)|;
    ShortUvarint(Frame(m)[..5][1..], 0, 0);
    assert Shift7(1, 4) == TWO_28;
    if n < TWO_28 {
      FrameIsPadded(m);
      Int32Small(n);
      HeaderLength(n);
      var h := Header(KindOf(m), n);
      var rest := Frame(m)[|h|..5];
      assert Frame(m) == h + Frame(m)[|h|..];
      assert Frame(m)[..5] == h + rest;
      HeaderReads(KindOf(m), n, rest);
    }
  }

  /** Messages whose frames can be read back. */
  predicate Sendable(ms: seq<Message>) {
    forall i :: 0 <= i < |ms| ==> WellFormed(ms[i]) && |Body(ms[i])| < TWO_28
  }

  function Frames(ms: seq<Message>): seq<byte> {
    Concat(Frame, ms)
  }

  function Concat<T>(f: T -> seq<byte>, xs: seq<T>): seq<byte> {
    if xs == [] then [] else f(xs[0]) + Concat(f, xs[1..])
  }

  lemma {:induction false} ConcatAppend<T>(f: T -> seq<byte>, a: seq<T>, b: seq<T>)
    ensures Concat(f, a + b) == Concat(f, a) + Concat(f, b)
  {
    if a == [] {
      assert a + b == b;
    } else {
      ConcatAppend(f, a[1..], b);
      assert (a + b)[0] == a[0] && (a + b)[1..] == a[1..] + b;
    }
  }

  /** The stream of a list of messages is the stream of its first k, the next frame, and
      the stream of the rest. */
  lemma FramesSplit(ms: seq<Message>, k: nat)
    requires k < |ms|
    ensures Frames(ms) == Frames(ms[..k]) + Frame(ms[k]) + Frames(ms[k + 1..])
    ensures Frames(ms[..k + 1]) == Frames(ms[..k]) + Frame(ms[k])
  {
    ConcatAppend(Frame, ms[..k], ms[k..]);
    assert ms[..k] + ms[k..] == ms && ms[k..][1..] == ms[k + 1..];
    ConcatAppend(Frame, ms[..k], [ms[k]]);
    assert ms[..k] + [ms[k]] == ms[..k + 1];
    assert Concat(Frame, [ms[k]]) == Frame(ms[k]) + Concat(Frame, []);
  }
}
