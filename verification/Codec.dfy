/** The message objects: Len, Encode and Decode as they work on their buffers and fields. */
module Codec {
  import opened RingBytes
  import opened Varint
  import opened Wire

  datatype Result = Done(n: int) | WrongType | OutOfRange

  /** What Decode of a kind-k message returns for src, given what it left in the object. */
  ghost predicate Agrees(k: Kind, src: seq<byte>, r: Result, value: Message) {
    match DecodeAs(k, src)
    case Decoded(m, n) => r == Done(n) && value == m
    case ErrType => r == WrongType
    case Panic => r == OutOfRange
  }

  /** Writes bytes at dst[at..], dropping what does not fit. */
  method CopyAt(dst: array<byte>, at: nat, bytes: seq<byte>, ghost head: seq<byte>, ghost was: seq<byte>)
    requires at <= dst.Length == |was| && |head| == at && dst[..] == Overlay(was, head)
    modifies dst
    ensures dst[..] == Overlay(was, head + bytes)
  {
    var n := if |bytes| <= dst.Length - at then |bytes| else dst.Length - at;
    forall i | 0 <= i < n { dst[at + i] := bytes[i]; }
  }

  method EncodeHeader(dst: array<byte>, k: Kind, mtype: byte, remlen: int) returns (total: nat)
    requires -TWO_31 <= remlen && mtype == TypeByte(k) && |Header(k, remlen)| <= dst.Length
    modifies dst
    ensures total == |Header(k, remlen)|
    ensures dst[..] == Overlay(old(dst[..]), Header(k, remlen))
  {
    total := 0;
    dst[total] := mtype;
    total := total + 1;
    var b := PutUvarint(Uint64(remlen));
    CopyAt(dst, total, b, [mtype], old(dst[..]));
    total := total + |b|;
  }

  /** The type byte, the length and where the body starts: of an encoded header, whatever
      follows it, the kind and the length that were encoded, and its end. Of other bytes, what
      the varint at their second says, as an int32. */
  method DecodeHeader(src: seq<byte>) returns (mtype: byte, remlen: int, total: int)
    requires src != []
    ensures forall k: Kind, n: nat, rest: seq<byte> :: n < TWO_31 && src == Header(k, n) + rest ==>
              mtype == TypeByte(k) && remlen == n && total == |Header(k, n)|
    ensures mtype == src[0] && total == 1 + Uvarint(src[1..]).1 && remlen == Int32(Uvarint(src[1..]).0)
  {
    forall k: Kind, n: nat, rest: seq<byte> | n < TWO_31 && src == Header(k, n) + rest
      ensures src[0] == TypeByte(k) && Uvarint(src[1..]) == (n, |Header(k, n)| - 1) && Int32(n) == n
    {
      HeaderReads(k, n, rest);
      Int32Small(n);
    }
    total := 0;
    mtype := src[total];
    total := total + 1;
    var (v, m) := Uvarint(src[total..]);
    total := total + m;
    remlen := Int32(v);
  }

  lemma RegisterEncoding(keepAlive: uint16, name: seq<byte>)
    ensures Wire.Encode(Register(keepAlive, name)) ==
            Header(REGISTER, Int32(2 + |name|)) + [keepAlive / 256, keepAlive % 256] + name
  {
  }

  /** The header, the keep-alive big end first, and the name. */
  method EncodeRegister(dst: array<byte>, mtype: byte, remlen: int, keepAlive: uint16, name: seq<byte>)
    returns (total: nat)
    requires -TWO_31 <= remlen && mtype == TypeByte(REGISTER) && |Header(REGISTER, remlen)| + 2 <= dst.Length
    modifies dst
    ensures var bytes := Header(REGISTER, remlen) + [keepAlive / 256, keepAlive % 256] + name;
            total == |bytes| && dst[..] == Overlay(old(dst[..]), bytes)
  {
    ghost var was, head := dst[..], Header(REGISTER, remlen);
    total := EncodeHeader(dst, REGISTER, mtype, remlen);
    var ka := [keepAlive / 256, keepAlive % 256];
    CopyAt(dst, total, ka, head, was);
    total := total + 2;
    CopyAt(dst, total, name, head + ka, was);
    total := total + |name|;
  }

  class RegisterMessage {
    var mtype: byte
    var remlen: int
    var keepAlive: uint16
    var name: seq<byte>

    ghost function Value(): Message reads this { Register(keepAlive, name) }

    constructor (keepAlive: uint16, name: seq<byte>)
      ensures mtype == TypeByte(REGISTER) && Value() == Register(keepAlive, name)
    {
      mtype, remlen, this.keepAlive, this.name := TypeByte(REGISTER), 0, keepAlive, name;
    }

    method Len() returns (n: nat)
      modifies this`remlen
      ensures n == Wire.Len(Value()) && remlen == Int32(|Body(Value())|)
    {
      var ml := 2 + |name|;
      remlen := Int32(ml);
      n := 5 + ml;
    }

    method Encode(dst: array<byte>) returns (total: nat)
      requires mtype == TypeByte(REGISTER)
      requires |Header(REGISTER, Int32(|Body(Value())|))| + 2 <= dst.Length
      modifies this`remlen, dst
      ensures total == |Wire.Encode(Value())|
      ensures dst[..] == Overlay(old(dst[..]), Wire.Encode(Value()))
    {
      var ml := 2 + |name|;
      remlen := Int32(ml);
      total := EncodeRegister(dst, mtype, remlen, keepAlive, name);
      RegisterEncoding(keepAlive, name);
    }

    method Decode(src: seq<byte>) returns (r: Result)
      modifies this
      ensures Agrees(REGISTER, src, r, Value())
    {
      if src == [] { return OutOfRange; }
      var total;
      mtype, remlen, total := DecodeHeader(src);
      if mtype != TypeByte(REGISTER) { return WrongType; }
      if total < 0 || total + 2 > |src| { return OutOfRange; }
      keepAlive := (src[total] as int) * 256 + src[total + 1];
      total := total + 2;
      var n := remlen;
      if n - 2 < 0 || total + n - 2 > |src| { return OutOfRange; }
      name := src[total..total + n - 2];
      total := total + |name|;
      return Done(total);
    }
  }

  class AckMessage {
    var mtype: byte
    var remlen: int
    var returnCode: byte

    ghost function Value(): Message reads this { Ack(returnCode) }

    constructor (code: byte)
      ensures mtype == TypeByte(ACK) && Value() == Ack(code)
    {
      mtype, remlen, returnCode := TypeByte(ACK), 0, code;
    }

    method Len() returns (n: nat)
      modifies this`remlen
      ensures n == Wire.Len(Value()) && remlen == 1
    {
      remlen := 1;
      n := 5 + 1;
    }

    method Encode(dst: array<byte>) returns (total: nat)
      requires mtype == TypeByte(ACK) && |Header(ACK, 1)| < dst.Length
      modifies this`remlen, dst
      ensures total == |Wire.Encode(Value())|
      ensures dst[..] == Overlay(old(dst[..]), Wire.Encode(Value()))
    {
      remlen := 1;
      ghost var was := dst[..];
      total := EncodeHeader(dst, ACK, mtype, remlen);
      CopyAt(dst, total, [returnCode], Header(ACK, 1), was);
      total := total + 1;
    }

    method Decode(src: seq<byte>) returns (r: Result)
      modifies this
      ensures Agrees(ACK, src, r, Value())
    {
      if src == [] { return OutOfRange; }
      var total;
      mtype, remlen, total := DecodeHeader(src);
      if mtype != TypeByte(ACK) { return WrongType; }
      if total < 0 || total >= |src| { return OutOfRange; }
      returnCode := src[total];
      return Done(total + 1);
    }
  }

  class QueryMessage {
    var mtype: byte
    var remlen: int

    constructor ()
      ensures mtype == TypeByte(QUERY)
    {
      mtype, remlen := TypeByte(QUERY), 0;
    }

    method Len() returns (n: nat)
      modifies this`remlen
      ensures n == Wire.Len(Query) && remlen == 0
    {
      remlen := 0;
      n := 5;
    }

    method Encode(dst: array<byte>) returns (total: nat)
      requires mtype == TypeByte(QUERY) && |Header(QUERY, 0)| <= dst.Length
      modifies this`remlen, dst
      ensures total == |Wire.Encode(Query)|
      ensures dst[..] == Overlay(old(dst[..]), Wire.Encode(Query))
    {
      remlen := 0;
      total := EncodeHeader(dst, QUERY, mtype, remlen);
      assert Wire.Encode(Query) == Header(QUERY, 0);
    }

    method Decode(src: seq<byte>) returns (r: Result)
      modifies this
      ensures Agrees(QUERY, src, r, Query)
    {
      if src == [] { return OutOfRange; }
      var total;
      mtype, remlen, total := DecodeHeader(src);
      return Done(total);
    }
  }

  /** StartMessage, StopMessage, HeartbeatMessage and QuerydetailMessage: one codec, except
      that only the last checks the type byte it decodes. */
  class PayloadMessage {
    const kind: Kind
    var mtype: byte
    var remlen: int
    var payload: seq<byte>

    ghost function Value(): Message reads this { Payload(kind, payload) }

    constructor (kind: Kind, payload: seq<byte>)
      requires CarriesPayload(kind)
      ensures this.kind == kind && mtype == TypeByte(kind) && Value() == Payload(kind, payload)
    {
      this.kind, mtype, remlen, this.payload := kind, TypeByte(kind), 0, payload;
    }

    method Len() returns (n: nat)
      modifies this`remlen
      ensures n == Wire.Len(Value()) && remlen == Int32(|payload|)
    {
      var ml := |payload|;
      remlen := Int32(ml);
      n := 5 + ml;
    }

    method Encode(dst: array<byte>) returns (total: nat)
      requires CarriesPayload(kind) && mtype == TypeByte(kind)
      requires |Header(kind, Int32(|payload|))| <= dst.Length
      modifies this`remlen, dst
      ensures total == |Wire.Encode(Value())|
      ensures dst[..] == Overlay(old(dst[..]), Wire.Encode(Value()))
    {
      var ml := |payload|;
      remlen := Int32(ml);
      ghost var was := dst[..];
      total := EncodeHeader(dst, kind, mtype, remlen);
      CopyAt(dst, total, payload, Header(kind, remlen), was);
      total := total + |payload|;
    }

    method Decode(src: seq<byte>) returns (r: Result)
      requires CarriesPayload(kind)
      modifies this
      ensures Agrees(kind, src, r, Value())
    {
      if src == [] { return OutOfRange; }
      var total;
      mtype, remlen, total := DecodeHeader(src);
      if kind.QUERYDETAIL? && mtype != TypeByte(QUERYDETAIL) { return WrongType; }
      var n := remlen;
      if total < 0 || n < 0 || total + n > |src| { return OutOfRange; }
      payload := src[total..total + n];
      total := total + |payload|;
      return Done(total);
    }
  }

  /** The buffer of Len() bytes always has room for the header and a fixed-size body part. */
  lemma HeaderFits(m: Message)
    ensures var n := |Body(m)|;
            |Header(KindOf(m), Int32(n))| + (if n >= 2 then 2 else n) <= Wire.Len(m)
  {
    var n := |Body(m)|;
    var v := Uint64(Int32(n));
    PutUvarintLength(v, 10);
    assert Shift7(1, 10) >= TWO_64;
    if n < 128 {
      Int32Small(n);
      PutUvarintLength(v, 1);
      assert Shift7(1, 1) == 128;
    }
  }

  /** Go's make([]byte, n). */
  method ZeroedBuffer(n: nat) returns (dst: array<byte>)
    ensures fresh(dst) && dst[..] == Zeros(n)
  {
    dst := new byte[n](_ => 0);
  }

  method LenOf(m: Message) returns (n: nat)
    requires WellFormed(m)
    ensures n == Wire.Len(m)
  {
    match m {
      case Register(keepAlive, name) =>
        var o := new RegisterMessage(keepAlive, name);
        n := o.Len();
      case Ack(code) =>
        var o := new AckMessage(code);
        n := o.Len();
      case Query =>
        var o := new QueryMessage();
        n := o.Len();
      case Payload(kind, payload) =>
        var o := new PayloadMessage(kind, payload);
        n := o.Len();
    }
  }

  /** Encodes into a buffer of Len() bytes or more. */
  method EncodeInto(m: Message, dst: array<byte>) returns (n: nat)
    requires WellFormed(m) && Wire.Len(m) <= dst.Length
    modifies dst
    ensures n == |Wire.Encode(m)| && dst[..] == Overlay(old(dst[..]), Wire.Encode(m))
  {
    HeaderFits(m);
    match m {
      case Register(keepAlive, name) =>
        var o := new RegisterMessage(keepAlive, name);
        n := o.Encode(dst);
      case Ack(code) =>
        var o := new AckMessage(code);
        n := o.Encode(dst);
      case Query =>
        var o := new QueryMessage();
        n := o.Encode(dst);
      case Payload(kind, payload) =>
        var o := new PayloadMessage(kind, payload);
        n := o.Encode(dst);
    }
  }

  /** Decodes src into a new object of kind k. */
  method DecodeInto(k: Kind, src: seq<byte>) returns (r: Result, m: Message)
    ensures Agrees(k, src, r, m)
  {
    match k {
      case REGISTER =>
        var o := new RegisterMessage(0, []);
        r := o.Decode(src);
        m := Register(o.keepAlive, o.name);
      case ACK =>
        var o := new AckMessage(0);
        r := o.Decode(src);
        m := Ack(o.returnCode);
      case QUERY =>
        var o := new QueryMessage();
        r := o.Decode(src);
        m := Query;
      case _ =>
        var o := new PayloadMessage(k, []);
        r := o.Decode(src);
        m := Payload(k, o.payload);
    }
  }

  /** A fresh zeroed buffer of Len() bytes, encoded into. */
  method Marshal(m: Message) returns (buf: seq<byte>)
    requires WellFormed(m)
    ensures buf == Frame(m)
  {
    var l := LenOf(m);
    var dst := ZeroedBuffer(l);
    var _ := EncodeInto(m, dst);
    buf := dst[..];
  }
}
