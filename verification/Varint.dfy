/** Base-128 varints as Go's encoding/binary writes and reads them ("Base 128 Varints" and
    "Signed Integers" of the Protocol Buffers encoding specification). */
module Varint {
  import opened RingBytes

  const TWO_64 := 0x1_0000_0000_0000_0000

  function PutUvarint(x: nat): (b: seq<byte>)
    ensures |b| >= 1
  {
    if x < 128 then [x] else [x % 128 + 128] + PutUvarint(x / 128)
  }

  /** d shifted left by i groups of seven bits. */
  function Shift7(d: nat, i: nat): nat {
    if i == 0 then d else 128 * Shift7(d, i - 1)
  }

  /** The rest of the reader's loop from byte i on, x being the value so far. */
  function UvarintFrom(src: seq<byte>, i: nat, x: nat): (r: (nat, int))
    decreases |src| - i
  {
    if i >= |src| then (0, 0)
    else if i == 10 then (0, -(i as int) - 1)
    else if src[i] < 128 then
      if i == 9 && src[i] > 1 then (0, -(i as int) - 1) else (x + Shift7(src[i], i), i + 1)
    else UvarintFrom(src, i + 1, x + Shift7(src[i] - 128, i))
  }

  /** The value and how many bytes it took; 0 for a truncated varint, negative for one
      that does not fit 64 bits. */
  function Uvarint(src: seq<byte>): (r: (nat, int)) {
    UvarintFrom(src, 0, 0)
  }

  function PutVarint(x: int): seq<byte> {
    PutUvarint(if x >= 0 then 2 * x else -2 * x - 1)
  }

  function Varint(src: seq<byte>): (int, int) {
    var (ux, n) := Uvarint(src);
    (if ux % 2 == 0 then ux / 2 else -(ux / 2 as int) - 1, n)
  }

  lemma {:induction false} ShiftSum(a: nat, b: nat, i: nat)
    ensures Shift7(a + b, i) == Shift7(a, i) + Shift7(b, i)
  {
    if i > 0 { ShiftSum(a, b, i - 1); }
  }

  lemma {:induction false} ShiftOnce(d: nat, i: nat)
    ensures Shift7(128 * d, i) == Shift7(d, i + 1)
  {
    if i > 0 { ShiftOnce(d, i - 1); }
  }

  lemma {:induction false} ShiftMonotone(a: nat, b: nat, i: nat)
    ensures a <= b <==> Shift7(a, i) <= Shift7(b, i)
  {
    if i > 0 { ShiftMonotone(a, b, i - 1); }
  }

  lemma {:induction false} UvarintFromPut(pre: seq<byte>, v: nat, rest: seq<byte>, x: nat)
    requires |pre| <= 9 && Shift7(v, |pre|) < TWO_64
    ensures UvarintFrom(pre + PutUvarint(v) + rest, |pre|, x)
            == (x + Shift7(v, |pre|), |pre| + |PutUvarint(v)|)
    decreases v
  {
    var i := |pre|;
    var src := pre + PutUvarint(v) + rest;
    if i == 9 { TenthByte(v); }
    if v >= 128 {
      var b := v % 128 + 128;
      ShiftSum(v / 128 * 128, v % 128, i);
      ShiftOnce(v / 128, i);
      UvarintFromPut(pre + [b], v / 128, rest, x + Shift7(b - 128, i));
      assert src == (pre + [b]) + PutUvarint(v / 128) + rest;
    }
  }

  lemma TenthByte(v: nat)
    requires Shift7(v, 9) < TWO_64
    ensures v <= 1
  {
    ShiftMonotone(2, v, 9);
    assert Shift7(2, 9) == TWO_64;
  }

  /** A written varint reads back whatever follows it. */
  lemma UvarintPut(v: nat, rest: seq<byte>)
    requires v < TWO_64
    ensures Uvarint(PutUvarint(v) + rest) == (v, |PutUvarint(v)|)
  {
    UvarintFromPut([], v, rest, 0);
    assert [] + PutUvarint(v) + rest == PutUvarint(v) + rest;
  }

  lemma VarintPut(x: int, rest: seq<byte>)
    requires -TWO_64 < 2 * x < TWO_64
    ensures Varint(PutVarint(x) + rest) == (x, |PutVarint(x)|)
  {
    UvarintPut(if x >= 0 then 2 * x else -2 * x - 1, rest);
  }

  lemma {:induction false} PutUvarintLength(v: nat, k: nat)
    requires k >= 1
    ensures |PutUvarint(v)| <= k <==> v < Shift7(1, k)
  {
    if v >= 128 {
      if k > 1 {
        PutUvarintLength(v / 128, k - 1);
      } else {
        assert Shift7(1, 1) == 128;
      }
    } else {
      ShiftMonotone(1, 1, k - 1);
      ShiftMonotone(0, 1, k - 1);
      ShiftAtLeast(k - 1);
    }
  }

  lemma {:induction false} ShiftAtLeast(i: nat)
    ensures Shift7(1, i) >= 1
  {
    if i > 0 { ShiftAtLeast(i - 1); }
  }

  /** Within its first four bytes a varint can only spell a value below 2^28. */
  lemma {:induction false} ShortUvarint(src: seq<byte>, i: nat, x: nat)
    requires |src| <= 4 && i <= |src| && x < Shift7(1, i)
    ensures UvarintFrom(src, i, x).0 < Shift7(1, 4)
    decreases |src| - i
  {
    ShiftAtLeast(4);
    if i < |src| {
      var d := src[i] % 128;
      Digit(d, i);
      if src[i] < 128 {
        ShiftGrows(i + 1, 4);
      } else {
        ShortUvarint(src, i + 1, x + Shift7(d, i));
      }
    }
  }

  lemma Digit(d: nat, i: nat)
    requires d < 128
    ensures Shift7(d, i) + Shift7(1, i) <= Shift7(1, i + 1)
  {
    ShiftSum(d, 1, i);
    ShiftOnce(1, i);
    ShiftMonotone(d + 1, 128, i);
  }

  lemma {:induction false} ShiftGrows(a: nat, b: nat)
    requires a <= b
    ensures Shift7(1, a) <= Shift7(1, b)
  {
    if a < b { ShiftGrows(a, b - 1); }
  }
}
