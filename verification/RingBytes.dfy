/** A ring of |ring| cells read and written at unbounded stream positions: position p
    lives in cell p % |ring|. Shared by the sequential buffer and by the protocol. */
module RingBytes {
  import Bits

  type byte = x: int | 0 <= x < 256

  /** How much ReadFrom reserves, and WriteTo peeks, at a time. */
  const BLOCK := 8192

  /** The cell that holds stream position p. */
  function Cell(p: nat, size: nat): (c: nat)
    requires size > 0
    ensures c < size
  {
    p % size
  }

  /** The n cells from stream position `from` on. */
  function Run<T>(ring: seq<T>, from: nat, n: nat): (r: seq<T>)
    requires |ring| > 0
    ensures |r| == n
  {
    seq(n, i requires 0 <= i < n => ring[Cell(from + i, |ring|)])
  }

  /** Writing src one cell at a time from stream position `from` on. */
  function Put<T>(ring: seq<T>, from: nat, src: seq<T>): (r: seq<T>)
    requires |ring| > 0
    ensures |r| == |ring|
    decreases |src|
  {
    if src == [] then ring
    else Put(ring[Cell(from, |ring|) := src[0]], from + 1, src[1..])
  }

  lemma ModAdd(p: nat, i: nat, size: nat)
    requires i < size
    ensures Cell(p, size) + i < size ==> Cell(p + i, size) == Cell(p, size) + i
    ensures Cell(p, size) + i >= size ==> Cell(p + i, size) == Cell(p, size) + i - size
  {
    var q, r := p / size, p % size;
    assert p == q * size + r;
    if r + i < size {
      Bits.ModUnique(p + i, size, q, r + i);
    } else {
      assert p + i == (q + 1) * size + (r + i - size);
      Bits.ModUnique(p + i, size, q + 1, r + i - size);
    }
  }

  /** Positions less than a ring's length apart live in different cells. */
  lemma ModDistinct(p: nat, q: nat, size: nat)
    requires p < q < p + size
    ensures Cell(p, size) != Cell(q, size)
  {
    ModAdd(p, q - p, size);
  }

  lemma {:induction false} PutFrame<T>(ring: seq<T>, from: nat, src: seq<T>, p: nat)
    requires |ring| > 0
    requires p < from ==> from + |src| <= p + |ring|
    requires from <= p ==> from + |src| <= p < from + |ring|
    ensures Put(ring, from, src)[Cell(p, |ring|)] == ring[Cell(p, |ring|)]
    decreases |src|
  {
    if src != [] {
      if p < from { ModDistinct(p, from, |ring|); } else { ModDistinct(from, p, |ring|); }
      PutFrame(ring[Cell(from, |ring|) := src[0]], from + 1, src[1..], p);
    }
  }

  /** After writing no more than a ring's length, the cells written read back as src. */
  lemma {:induction false} PutRun<T>(ring: seq<T>, from: nat, src: seq<T>)
    requires |src| <= |ring| && |ring| > 0
    ensures Run(Put(ring, from, src), from, |src|) == src
    decreases |src|
  {
    if src != [] {
      var ring' := ring[Cell(from, |ring|) := src[0]];
      PutRun(ring', from + 1, src[1..]);
      PutFrame(ring', from + 1, src[1..], from);
      var out := Put(ring, from, src);
      forall i | 0 <= i < |src| ensures Run(out, from, |src|)[i] == src[i] {
        if i > 0 { assert Run(out, from + 1, |src| - 1)[i - 1] == src[1..][i - 1]; }
      }
    }
  }

  /** Writing behind a run, without lapping its start, leaves the run as it was. */
  lemma PutKeepsRun<T>(ring: seq<T>, from: nat, src: seq<T>, at: nat, n: nat)
    requires |ring| > 0 && at + n <= from && from + |src| <= at + |ring|
    ensures Run(Put(ring, from, src), at, n) == Run(ring, at, n)
  {
    var out := Put(ring, from, src);
    forall i | 0 <= i < n ensures Run(out, at, n)[i] == Run(ring, at, n)[i] {
      PutFrame(ring, from, src, at + i);
    }
  }

  lemma {:induction false} PutAppend<T>(ring: seq<T>, from: nat, a: seq<T>, b: seq<T>)
    requires |ring| > 0
    ensures Put(ring, from, a + b) == Put(Put(ring, from, a), from + |a|, b)
    decreases |a|
  {
    if a == [] {
      assert a + b == b;
    } else {
      assert (a + b)[1..] == a[1..] + b;
      PutAppend(ring[Cell(from, |ring|) := a[0]], from + 1, a[1..], b);
    }
  }

  /** A write that does not reach the end of the array is a plain block copy. */
  lemma {:induction false} PutFlat<T>(ring: seq<T>, from: nat, src: seq<T>)
    requires |ring| > 0 && Cell(from, |ring|) + |src| <= |ring|
    ensures Put(ring, from, src) ==
            ring[..Cell(from, |ring|)] + src + ring[Cell(from, |ring|) + |src|..]
    decreases |src|
  {
    var lo := Cell(from, |ring|);
    if src != [] {
      var ring' := ring[lo := src[0]];
      if |src| > 1 {
        ModAdd(from, 1, |ring|);
        PutFlat(ring', from + 1, src[1..]);
        assert ring'[..lo + 1] == ring[..lo] + [src[0]];
        assert [src[0]] + src[1..] == src;
      } else {
        assert src == [src[0]];
      }
    }
  }

  /** A run that does not reach the end of the array is one slice of it; a run that does
      is the tail of the array followed by its head. */
  lemma RunFlat<T>(ring: seq<T>, from: nat, n: nat)
    requires |ring| > 0 && n <= |ring|
    ensures var lo := Cell(from, |ring|);
            Run(ring, from, n) == if lo + n <= |ring| then ring[lo..lo + n]
                                  else ring[lo..] + ring[..n - (|ring| - lo)]
  {
    var lo, r := Cell(from, |ring|), Run(ring, from, n);
    forall i | 0 <= i < n ensures r[i] == ring[if lo + i < |ring| then lo + i else lo + i - |ring|] {
      ModAdd(from, i, |ring|);
    }
  }

  lemma RunSplit<T>(ring: seq<T>, from: nat, a: nat, b: nat)
    requires |ring| > 0
    ensures Run(ring, from, a + b) == Run(ring, from, a) + Run(ring, from + a, b)
  {
  }
}
