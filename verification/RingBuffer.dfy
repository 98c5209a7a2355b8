/** The ring buffer with its cursors, called by one thread at a time. A wait that only
    the other side could end is reported as the outcome WouldBlock. */
module RingBuffer {
  import opened RingBytes
  import Bits
  import opened Network

  const DEFAULT_BUFFER_SIZE := 1024 * 16

  datatype Error = Eof | BufferFull | NegativeCount | InsufficientData | Broken | WouldBlock
  datatype Outcome<T> = Ok(value: T) | Err(error: Error)

  datatype SizeError = Negative | NotPowerOfTwo(try: int) | TooSmall(try: int)

  /** What a peek hands out: a slice of the ring itself, or of the scratch array. */
  datatype View = Aliased(lo: nat, len: nat) | Linear(len: nat)

  datatype Peek = Peek(view: View, short: bool)

  datatype Slice = Slice(lo: nat, hi: nat, wrap: bool)

  predicate Accepted(size: int) {
    size == 0 || (size >= 2 * BLOCK && Bits.PowerOfTwo64(size))
  }

  /** Go's copy into dst[at..]. */
  method Copy(dst: array<byte>, at: nat, src: seq<byte>) returns (n: nat)
    requires at <= dst.Length
    modifies dst
    ensures n == Min(|src|, dst.Length - at)
    ensures dst[..] == old(dst[..at]) + src[..n] + old(dst[at + n..])
  {
    n := Min(|src|, dst.Length - at);
    forall i | 0 <= i < n { dst[at + i] := src[i]; }
  }

  /** One round of the copy: up to the end of the array. */
  method CopyFlat(dst: array<byte>, at: nat, src: seq<byte>, ghost p: nat) returns (l: nat)
    requires at < dst.Length && at == Cell(p, dst.Length)
    modifies dst
    ensures l == Min(|src|, dst.Length - at)
    ensures dst[..] == Put(old(dst[..]), p, src[..l])
  {
    ghost var before := dst[..];
    l := Copy(dst, at, src);
    PutFlat(before, p, src[..l]);
  }

  /** Copies src into the ring, going round the end of the array as often as needed. */
  method RingCopy(dst: array<byte>, src: seq<byte>, start: nat) returns (i: nat)
    requires start < dst.Length
    modifies dst
    ensures i == |src|
    ensures dst[..] == Put(old(dst[..]), start, src)
  {
    i := 0;
    var at := start;
    ghost var ring := dst[..];
    StartCell(start, dst.Length);
    while i < |src|
      invariant i <= |src| && at < dst.Length
      invariant i < |src| ==> at == Cell(start + i, dst.Length)
      invariant dst[..] == Put(ring, start, src[..i])
    {
      var l := CopyFlat(dst, at, src[i..], start + i);
      PutMore(ring, start, src, i, l);
      if i + l < |src| {
        StartOver(start + i, l, dst.Length);
        at := 0;
      }
      i := i + l;
    }
    assert src[..i] == src;
  }

  lemma PutMore(ring: seq<byte>, from: nat, src: seq<byte>, i: nat, l: nat)
    requires |ring| > 0 && i + l <= |src|
    ensures Put(Put(ring, from, src[..i]), from + i, src[i..][..l]) == Put(ring, from, src[..i + l])
  {
    PutAppend(ring, from, src[..i], src[i..][..l]);
    assert src[..i] + src[i..][..l] == src[..i + l];
  }

  lemma StartCell(start: nat, size: nat)
    requires start < size
    ensures Cell(start, size) == start
  {
    Bits.ModUnique(start, size, 0, start);
  }

  lemma StartOver(p: nat, l: nat, size: nat)
    requires size > 0 && Cell(p, size) + l == size
    ensures Cell(p + l, size) == 0
  {
    var q := p / size;
    assert p + l == (q + 1) * size;
    Bits.ModUnique(p + l, size, q + 1, 0);
  }

  class Buffer {
    const size: nat
    const mask: nat
    const buf: array<byte>
    ghost const order: nat
    var tmp: seq<byte>
    var done: bool
    var pseq: nat
    var gate: nat
    var cseq: nat

    ghost predicate Valid()
      reads this
    {
      && buf.Length == size == Bits.Pow2(order) && mask == size - 1
      && gate <= cseq <= pseq <= cseq + size
    }

    /** The bytes written and not yet read, oldest first. */
    ghost function Contents(): (q: seq<byte>)
      requires Valid()
      reads this, buf
      ensures |q| == pseq - cseq <= size
    {
      Run(buf[..], cseq, pseq - cseq)
    }

    /** The bytes a view shows now. */
    function Shown(v: View): seq<byte>
      requires v.Aliased? ==> v.lo + v.len <= buf.Length
      requires v.Linear? ==> v.len <= |tmp|
      reads this, buf
    {
      match v
      case Aliased(lo, len) => buf[lo..lo + len]
      case Linear(len) => tmp[..len]
    }

    constructor (size: nat, ghost order: nat)
      requires size == Bits.Pow2(order)
      ensures Valid() && fresh(buf) && !done
      ensures this.size == size && Contents() == []
    {
      this.size, this.mask, this.order := size, size - 1, order;
      buf := new byte[size](_ => 0);
      tmp := [];
      done, pseq, gate, cseq := false, 0, 0, 0;
    }

    static method NewBuffer(size: int) returns (b: Buffer?, err: seq<SizeError>)
      requires size < Bits.Pow2(63)
      ensures b != null <==> Accepted(size)
      ensures b != null <==> err == []
      ensures size < 0 ==> err == [Negative]
      ensures 0 < size < 2 * BLOCK && Bits.PowerOfTwo64(size) ==> err == [TooSmall(2 * BLOCK)]
      ensures size > 0 && !Bits.PowerOfTwo64(size) ==>
                && |err| == 1 && err[0].NotPowerOfTwo?
                && (size <= Bits.Pow2(62) ==> err[0].try >= 0 && Bits.LeastPowerOfTwo(err[0].try, size))
                && (size > Bits.Pow2(62) ==> err[0].try == 0 - Bits.Pow2(63))
      ensures b != null ==> fresh(b) && fresh(b.buf) && b.Valid() && b.Contents() == [] && !b.done
      ensures b != null ==> b.size == if size == 0 then DEFAULT_BUFFER_SIZE else size
    {
      if size < 0 { return null, [Negative]; }
      var n := if size == 0 then DEFAULT_BUFFER_SIZE else size;
      if size == 0 { assert n == Bits.Pow2(14); Bits.PowerOfTwoAccepted(14); }
      if !Bits.PowerOfTwo64(n) {
        var try := Bits.RoundUpPowerOfTwo64(n);
        return null, [NotPowerOfTwo(try)];
      }
      if n < 2 * BLOCK { return null, [TooSmall(2 * BLOCK)]; }
      ghost var k := Bits.PowerOfTwoWitness(n);
      b := new Buffer(n, k);
      err := [];
    }

    /** p & mask */
    method Index(p: nat) returns (i: nat)
      requires Valid()
      ensures i == Cell(p, size) < size
    {
      Bits.MaskIsMod(p, order);
      i := Bits.And(p, mask);
    }

    method Close()
      requires Valid()
      modifies this`done
      ensures Valid() && done && Contents() == old(Contents())
    {
      done := true;
    }

    method Len() returns (n: nat)
      requires Valid()
      ensures n == |Contents()|
    {
      var cpos, ppos := cseq, pseq;
      n := ppos - cpos;
    }

    // The producer's side

    /** Grants the positions pseq..pseq+n, testing the cached consumer cursor first. */
    method WaitForWriteSpace(n: nat) returns (r: Outcome<nat>)
      requires Valid()
      modifies this`gate
      ensures Valid() && Contents() == old(Contents())
      ensures r == if done then Err(Eof)
                   else if |Contents()| + n <= size then Ok(pseq)
                   else Err(WouldBlock)
      ensures r.Ok? ==> pseq + n <= gate + size
      ensures pseq + n <= old(gate) + size ==> gate == old(gate)
    {
      if done { return Err(Eof); }
      var ppos := pseq;
      var next := ppos + n;
      var wrap := next - size;
      if wrap > gate || gate > ppos {
        var cpos := cseq;
        if wrap > cpos { return Err(WouldBlock); }
        gate := cpos;
      }
      return Ok(ppos);
    }

    method Write(p: seq<byte>) returns (r: Outcome<nat>)
      requires Valid()
      modifies this`gate, this`pseq, buf
      ensures Valid()
      ensures r == if done then Err(Eof)
                   else if |old(Contents())| + |p| <= size then Ok(|p|)
                   else Err(WouldBlock)
      ensures Contents() == if r.Ok? then old(Contents()) + p else old(Contents())
    {
      if done { return Err(Eof); }
      var w := WaitForWriteSpace(|p|);
      if w.Err? { return Err(w.error); }
      var start := w.value;
      ghost var before := buf[..];
      var at := Index(start);
      var total := RingCopy(buf, p, at);
      PutCell(before, start, p);
      PutKeepsRun(before, start, p, cseq, pseq - cseq);
      PutRun(before, start, p);
      RunSplit(buf[..], cseq, pseq - cseq, |p|);
      pseq := start + |p|;
      return Ok(total);
    }

    /** Hands out the free cells for n bytes, or only those up to the end of the array. */
    method WriteWait(n: nat) returns (r: Outcome<Slice>)
      requires Valid()
      modifies this`gate
      ensures Valid() && Contents() == old(Contents())
      ensures r.Err? ==> r.error == if done then Eof else WouldBlock
      ensures r.Ok? <==> !done && |Contents()| + n <= size
      ensures r.Ok? ==> r.value.lo == Cell(pseq, size) && r.value.lo <= r.value.hi <= size
      ensures r.Ok? ==> r.value.wrap == (r.value.lo + n > size)
      ensures r.Ok? ==> r.value.hi == if r.value.wrap then size else r.value.lo + n
      ensures r.Ok? ==> pseq + n <= gate + size
    {
      var w := WaitForWriteSpace(n);
      if w.Err? { return Err(w.error); }
      var pstart := Index(w.value);
      if pstart + n > size { return Ok(Slice(pstart, size, true)); }
      return Ok(Slice(pstart, pstart + n, false));
    }

    /** Publishes the n bytes that lie after the write cursor. */
    method WriteCommit(n: nat) returns (r: Outcome<nat>)
      requires Valid()
      modifies this`gate, this`pseq
      ensures Valid()
      ensures r == if done then Err(Eof)
                   else if |old(Contents())| + n <= size then Ok(n)
                   else Err(WouldBlock)
      ensures Contents() == if r.Ok? then old(Contents()) + Run(buf[..], old(pseq), n) else old(Contents())
      ensures old(pseq) + n <= old(gate) + size ==> gate == old(gate)
    {
      var w := WaitForWriteSpace(n);
      if w.Err? { return Err(w.error); }
      RunSplit(buf[..], cseq, pseq - cseq, n);
      pseq := w.value + n;
      return Ok(n);
    }

    /** A caller puts src in the slice it reserved: it lies after the write cursor, and the
        queue is as it was. */
    method Fill(lo: nat, src: seq<byte>)
      requires Valid() && lo == Cell(pseq, size) && lo + |src| <= size
      requires pseq + |src| <= gate + size
      modifies buf
      ensures Valid() && Contents() == old(Contents()) && Run(buf[..], pseq, |src|) == src
    {
      ghost var before := buf[..];
      var l := CopyFlat(buf, lo, src, pseq);
      assert src[..l] == src;
      PutKeepsRun(before, pseq, src, cseq, pseq - cseq);
      PutRun(before, pseq, src);
    }

    /** A caller that filled the slice with src and commits it appends exactly src. */
    method FillAndCommit(lo: nat, src: seq<byte>) returns (r: Outcome<nat>)
      requires Valid() && !done && lo == Cell(pseq, size) && lo + |src| <= size
      requires pseq + |src| <= gate + size
      modifies this`gate, this`pseq, buf
      ensures Valid() && r == Ok(|src|)
      ensures Contents() == old(Contents()) + src
      ensures gate == old(gate)
    {
      Fill(lo, src);
      r := WriteCommit(|src|);
    }

    /** One round of ReadFrom: waits for a block of room, reads into the part of it before
        the end of the array, and commits what came, with the failure of the read or without. */
    method ReadBlock(conn: Conn) returns (ghost taken: seq<byte>, n: nat, r: Outcome<nat>)
      requires Valid() && !done
      modifies this`gate, this`pseq, buf, conn`pending, conn`chunks
      ensures Valid()
      ensures old(conn.pending) == taken + conn.pending && Contents() == old(Contents()) + taken
      ensures n == |taken| && (r.Ok? ==> |conn.chunks| < |old(conn.chunks)|)
      ensures r.Err? ==> (r.error == WouldBlock && taken == []) || (r.error == Broken && conn.chunks == [])
      ensures r == Err(WouldBlock) <==> size < |old(Contents())| + BLOCK
      ensures r != Err(WouldBlock) ==>
                |taken| == Min(Min(old(conn.Offer()), Min(BLOCK, size - Cell(old(pseq), size))), |old(conn.pending)|)
    {
      var w := WaitForWriteSpace(BLOCK);
      if w.Err? { return [], 0, Err(w.error); }
      var pstart := Index(w.value);
      var pend := Min(pstart + BLOCK, size);
      var d := conn.Read(pend - pstart);
      if d.bytes != [] {
        var c := FillAndCommit(pstart, d.bytes);
      }
      return d.bytes, |d.bytes|, if d.failed then Err(Broken) else Ok(|d.bytes|);
    }

    /** Fills the ring from the connection until it fails, or the ring is closed or has
        less than a block free. What it took from the stream it appended, in order, the bytes
        that came with the failure included. */
    method ReadFrom(conn: Conn) returns (ghost taken: seq<byte>, total: nat, err: Error)
      requires Valid()
      modifies this`gate, this`pseq, this`done, buf, conn`pending, conn`chunks
      ensures Valid()
      ensures err == Eof <==> old(done)
      ensures err == WouldBlock <==> !done
      ensures err == WouldBlock ==> size < |Contents()| + BLOCK
      ensures err == Broken || err == WouldBlock || err == Eof
      ensures err == Broken ==> conn.chunks == []
      ensures old(conn.pending) == taken + conn.pending && Contents() == old(Contents()) + taken
      ensures total == if err == Broken then |taken| else 0
    {
      total, taken := 0, [];
      while true
        invariant Valid()
        invariant total == |taken|
        invariant old(conn.pending) == taken + conn.pending
        invariant Contents() == old(Contents()) + taken
        invariant done == old(done)
        invariant done ==> taken == []
        decreases |conn.chunks|
      {
        if done { return taken, total, Eof; }
        ghost var before := taken;
        var more, n, r := ReadBlock(conn);
        Regroup(before, more, conn.pending);
        taken := taken + more;
        if r == Err(WouldBlock) { return taken, 0, WouldBlock; }
        total := total + n;
        if r.Err? {
          done := true;
          return taken, total, Broken;
        }
      }
    }

    // The consumer's side

    /** Copies cells lo..hi, or as many as fit, into p and advances past them. */
    method TakeOut(p: array<byte>, lo: nat, hi: nat) returns (n: nat)
      requires Valid() && p != buf
      requires lo == Cell(cseq, size) <= hi <= size
      requires Min(p.Length, hi - lo) <= pseq - cseq
      modifies this`cseq, p
      ensures Valid() && n == Min(p.Length, hi - lo)
      ensures p[..] == old(Contents())[..n] + old(p[n..])
      ensures Contents() == old(Contents())[n..]
    {
      ghost var ring := buf[..];
      n := Copy(p, 0, buf[lo..hi]);
      assert buf[..] == ring;
      RunFlat(ring, cseq, n);
      assert ring[lo..hi][..n] == ring[lo..lo + n];
      RunSplit(ring, cseq, n, pseq - cseq - n);
      cseq := cseq + n;
    }

    /** Reads into p no more than is there and no further than the end of the array. */
    method Read(p: array<byte>) returns (r: Outcome<nat>)
      requires Valid() && p != buf
      modifies this`cseq, p
      ensures Valid()
      ensures r == if old(Contents()) != [] then Ok(Min(Min(p.Length, |old(Contents())|), size - Cell(old(cseq), size)))
                   else if done then Err(Eof) else Err(WouldBlock)
      ensures r.Ok? ==> r.value <= p.Length && r.value <= |old(Contents())|
      ensures r.Ok? ==> p[..] == old(Contents())[..r.value] + old(p[r.value..])
      ensures Contents() == if r.Ok? then old(Contents())[r.value..] else old(Contents())
      ensures r.Err? ==> p[..] == old(p[..])
    {
      if done && pseq == cseq { return Err(Eof); }
      var pl := p.Length;
      var cpos, ppos := cseq, pseq;
      var cindex := Index(cpos);
      var n;
      if cpos + pl < ppos {
        n := TakeOut(p, cindex, size);
        return Ok(n);
      }
      if cpos < ppos {
        var b := ppos - cpos;
        if cindex + b < size {
          n := TakeOut(p, cindex, cindex + b);
        } else {
          n := TakeOut(p, cindex, size);
        }
        return Ok(n);
      }
      return Err(WouldBlock);
    }

    /** The view of positions cseq..cseq+m: the ring itself unless the run goes round its end. */
    method Show(m: nat) returns (v: View)
      requires Valid() && m <= size
      modifies this`tmp
      ensures Valid() && Contents() == old(Contents())
      ensures v.Aliased? <==> Cell(cseq, size) + m <= size
      ensures v.Aliased? ==> v.lo == Cell(cseq, size) && v.len == m
      ensures v.Linear? ==> v.len == m <= |tmp|
      ensures Shown(v) == Run(buf[..], cseq, m)
    {
      var cindex := Index(cseq);
      ghost var ring := buf[..];
      RunFlat(ring, cseq, m);
      if cindex + m > size {
        tmp := [];
        var l := size - cindex;
        tmp := tmp + buf[cindex..];
        tmp := tmp + buf[0..m - l];
        assert tmp == ring[cindex..] + ring[..m - l];
        return Linear(m);
      }
      assert buf[cindex..cindex + m] == ring[cindex..cindex + m];
      return Aliased(cindex, m);
    }

    /** As many of the next n bytes as are there. */
    method ReadPeek(n: int) returns (r: Outcome<Peek>)
      requires Valid()
      modifies this`tmp
      ensures Valid() && Contents() == old(Contents())
      ensures r.Err? <==> n > size || n < 0 || Contents() == []
      ensures r.Err? ==> r.error == if n > size then BufferFull else if n < 0 then NegativeCount
                                    else if done then Eof else WouldBlock
      ensures r.Ok? ==> var v := r.value.view;
                        && (v.Aliased? ==> v.lo + v.len <= buf.Length)
                        && (v.Linear? ==> v.len <= |tmp|)
                        && v.len == Min(n, |Contents()|)
                        && Shown(v) == Contents()[..v.len]
      ensures r.Ok? ==> r.value.short == (|Contents()| < n)
    {
      if n > size { return Err(BufferFull); }
      if n < 0 { return Err(NegativeCount); }
      var cpos, ppos := cseq, pseq;
      if cpos >= ppos { return Err(if done then Eof else WouldBlock); }
      var m := ppos - cpos;
      var short := false;
      if m >= n { m := n; } else { short := true; }
      RunSplit(buf[..], cpos, m, ppos - cpos - m);
      var v := Show(m);
      return Ok(Peek(v, short));
    }

    /** The next n bytes, all of them. */
    method ReadWait(n: int) returns (r: Outcome<View>)
      requires Valid()
      modifies this`tmp
      ensures Valid() && Contents() == old(Contents())
      ensures r.Err? <==> n > size || n < 0 || |Contents()| < n
      ensures r.Err? ==> r.error == if n > size then BufferFull else if n < 0 then NegativeCount
                                    else if done then Eof else WouldBlock
      ensures r.Ok? ==> var v := r.value;
                        && (v.Aliased? ==> v.lo + v.len <= buf.Length)
                        && (v.Linear? ==> v.len <= |tmp|)
                        && v.len == n && Shown(v) == Contents()[..n]
    {
      if n > size { return Err(BufferFull); }
      if n < 0 { return Err(NegativeCount); }
      var cpos, ppos := cseq, pseq;
      var next := cpos + n;
      if next > ppos { return Err(if done then Eof else WouldBlock); }
      RunSplit(buf[..], cpos, n, ppos - next);
      var v := Show(n);
      return Ok(v);
    }

    /** Writes what a peek showed, and drops it if it was written whole. */
    method WriteOut(v: View, w: Sink) returns (n: nat, ok: bool)
      requires Valid() && (v.Aliased? ==> v.lo + v.len <= buf.Length) && (v.Linear? ==> v.len <= |tmp|)
      requires v.len <= |Contents()| && Shown(v) == Contents()[..v.len]
      modifies this`cseq, w
      ensures Valid() && n == Min(v.len, old(w.quota)) && ok == (n == v.len)
      ensures Contents() == if ok then old(Contents())[n..] else old(Contents())
      ensures w.sent == old(w.sent) + old(Contents())[..n] && w.quota == old(w.quota) - n
    {
      var bytes := Shown(v);
      n, ok := w.Write(bytes);
      assert bytes[..n] == Contents()[..n];
      if ok { var c := ReadCommit(n); }
    }

    /** One round of WriteTo. */
    method WriteBlock(w: Sink) returns (n: nat, r: Outcome<nat>)
      requires Valid() && size >= BLOCK && !done
      modifies this`tmp, this`cseq, w
      ensures Valid() && n <= |old(Contents())|
      ensures w.sent == old(w.sent) + old(Contents())[..n] && w.quota == old(w.quota) - n
      ensures r.Ok? ==> 0 < n && Contents() == old(Contents())[n..]
      ensures r.Err? ==> Contents() == old(Contents())
      ensures r.Err? ==> if Contents() == [] then r.error == WouldBlock && n == 0
                         else r.error == Broken && n == old(w.quota) < |Contents()| && n < BLOCK
    {
      var p := ReadPeek(BLOCK);
      if p.Err? { return 0, Err(p.error); }
      var ok;
      n, ok := WriteOut(p.value.view, w);
      r := if ok then Ok(n) else Err(Broken);
    }

    /** Drains the ring into the connection until that breaks or the ring is empty or closed.
        What the connection took is the front of the queue, in order: all that was in the
        ring, or as much as the quota, of which less than a block may still be in the ring. */
    method WriteTo(w: Sink) returns (total: nat, err: Error)
      requires Valid() && size >= BLOCK
      modifies this`tmp, this`cseq, this`done, w
      ensures Valid()
      ensures old(done) ==> err == Eof && total == 0 && w.sent == old(w.sent) && Contents() == old(Contents())
      ensures !old(done) ==>
                && total == Min(|old(Contents())|, old(w.quota))
                && err == (if total == |old(Contents())| then WouldBlock else Broken) && (done <==> err == Broken)
                && w.sent == old(w.sent) + old(Contents())[..total]
      ensures !old(done) && err == WouldBlock ==> Contents() == []
      ensures err == Broken ==> exists k: nat :: total - BLOCK < k <= total && Contents() == old(Contents())[k..]
    {
      total := 0;
      ghost var q := Contents();
      while true
        invariant Valid() && total <= |q| && Contents() == q[total..] && done == old(done)
        invariant w.quota == old(w.quota) - total && w.sent == old(w.sent) + q[..total]
        invariant done ==> total == 0
        decreases |q| - total
      {
        if done { return total, Eof; }
        ghost var k := total;
        var n, r := WriteBlock(w);
        CutOn(q, total, n);
        total := total + n;
        if r.Err? {
          done := r.error == Broken;
          assert Contents() == q[k..];
          return total, r.error;
        }
      }
    }

    /** Drops the next n bytes. */
    method ReadCommit(n: int) returns (r: Outcome<nat>)
      requires Valid()
      modifies this`cseq
      ensures Valid()
      ensures r == if n > size then Err(BufferFull) else if n < 0 then Err(NegativeCount)
                   else if n <= |old(Contents())| then Ok(n) else Err(InsufficientData)
      ensures Contents() == if r.Ok? then old(Contents())[n..] else old(Contents())
    {
      if n > size { return Err(BufferFull); }
      if n < 0 { return Err(NegativeCount); }
      var cpos, ppos := cseq, pseq;
      if cpos + n <= ppos {
        RunSplit(buf[..], cpos, n, ppos - cpos - n);
        cseq := cpos + n;
        return Ok(n);
      }
      return Err(InsufficientData);
    }
  }

  lemma Regroup(a: seq<byte>, b: seq<byte>, c: seq<byte>)
    ensures a + (b + c) == a + b + c
  {
  }

  lemma CutOn(q: seq<byte>, k: nat, n: nat)
    requires k + n <= |q|
    ensures q[..k] + q[k..][..n] == q[..k + n] && q[k..][n..] == q[k + n..]
  {
  }

  /** Writing from a position's cell is writing from the position. */
  lemma {:induction false} PutCell(ring: seq<byte>, from: nat, src: seq<byte>)
    requires |ring| > 0
    ensures Put(ring, Cell(from, |ring|), src) == Put(ring, from, src)
  {
    PutSameCell(ring, Cell(from, |ring|), from, src);
  }

  lemma {:induction false} PutSameCell(ring: seq<byte>, a: nat, b: nat, src: seq<byte>)
    requires |ring| > 0 && Cell(a, |ring|) == Cell(b, |ring|)
    ensures Put(ring, a, src) == Put(ring, b, src)
    decreases |src|
  {
    if src != [] {
      if |ring| > 1 { ModAdd(a, 1, |ring|); ModAdd(b, 1, |ring|); }
      PutSameCell(ring[Cell(a, |ring|) := src[0]], a + 1, b + 1, src[1..]);
    }
  }
}
