/** Bitwise arithmetic on non-negative 64-bit integers: the mask that replaces a
    remainder in the ring buffer, and the two power-of-two helpers its constructor uses. */
module Bits {

  function Pow2(k: nat): (r: nat)
    ensures r >= 1
  {
    if k == 0 then 1 else 2 * Pow2(k - 1)
  }

  /** x & y */
  function And(x: nat, y: nat): nat {
    if x == 0 || y == 0 then 0
    else (if x % 2 == 1 && y % 2 == 1 then 1 else 0) + 2 * And(x / 2, y / 2)
  }

  /** x | y */
  function Or(x: nat, y: nat): nat
    decreases x + y
  {
    if x == 0 then y
    else if y == 0 then x
    else (if x % 2 == 1 || y % 2 == 1 then 1 else 0) + 2 * Or(x / 2, y / 2)
  }

  /** x >> k */
  function Shr(x: nat, k: nat): nat {
    if k == 0 then x else Shr(x / 2, k - 1)
  }

  /** Whether bit i of x is set. */
  predicate Bit(x: nat, i: nat) {
    if i == 0 then x % 2 == 1 else Bit(x / 2, i - 1)
  }

  predicate PowerOfTwo64(n: nat) {
    n != 0 && And(n, n - 1) == 0
  }

  // Masks and remainders

  lemma {:induction false} MaskIsMod(x: nat, k: nat)
    ensures And(x, Pow2(k) - 1) == x % Pow2(k)
  {
    if k == 0 {
      assert Pow2(0) == 1;
    } else {
      var m := Pow2(k - 1);
      MaskIsMod(x / 2, k - 1);
      DoubleMask(x, m, Pow2(k), x / 2 % m);
    }
  }

  lemma DoubleMask(x: nat, m: nat, n: nat, r: nat)
    requires m >= 1 && n == 2 * m && And(x / 2, m - 1) == r == x / 2 % m
    ensures And(x, n - 1) == x % n
  {
    assert And(x, n - 1) == x % 2 + 2 * r by { AndOdd(x, m - 1, n - 1); }
    assert x % n == x % 2 + 2 * r by { HalfMod(x, m, n); }
  }

  lemma AndOdd(x: nat, y: nat, z: nat)
    requires z == 2 * y + 1
    ensures And(x, z) == x % 2 + 2 * And(x / 2, y)
  {
    assert z / 2 == y && z % 2 == 1;
  }

  lemma HalfMod(x: nat, m: nat, n: nat)
    requires m >= 1 && n == 2 * m
    ensures x % n == x % 2 + 2 * (x / 2 % m)
  {
    var q, r := x / 2 / m, x / 2 % m;
    assert x / 2 == q * m + r;
    assert q * n == 2 * (q * m);
    ModUnique(x, n, q, 2 * r + x % 2);
  }

  lemma ModUnique(x: int, m: nat, q: int, r: nat)
    requires r < m && x == q * m + r
    ensures x % m == r && x / m == q
  {
    var d := q - x / m;
    assert d * m == x % m - r;
    MulAtLeast(d, m);
  }

  lemma MulAtLeast(d: int, m: nat)
    ensures d >= 1 ==> d * m >= m
    ensures d <= -1 ==> d * m <= 0 - m
  {
    assert d * m == (d - 1) * m + m == (d + 1) * m - m;
  }

  /** The test n & (n-1) == 0 accepts exactly the powers of two. */
  lemma {:induction false} PowerOfTwoIff(n: nat)
    ensures PowerOfTwo64(n) <==> exists k: nat :: n == Pow2(k)
  {
    if PowerOfTwo64(n) {
      var k := PowerOfTwoWitness(n);
    }
    if k: nat :| n == Pow2(k) {
      PowerOfTwoAccepted(k);
    }
  }

  lemma {:induction false} PowerOfTwoAccepted(k: nat)
    ensures PowerOfTwo64(Pow2(k))
  {
    MaskIsMod(Pow2(k), k);
    ModUnique(Pow2(k), Pow2(k), 1, 0);
  }

  lemma {:induction false} PowerOfTwoWitness(n: nat) returns (k: nat)
    requires PowerOfTwo64(n)
    ensures n == Pow2(k)
  {
    if n == 1 {
      k := 0;
    } else if n % 2 == 0 {
      assert (n - 1) / 2 == n / 2 - 1;
      var j := PowerOfTwoWitness(n / 2);
      k := j + 1;
    } else {
      assert n / 2 == (n - 1) / 2 && n / 2 > 0;
      AndSelf(n / 2);
      assert false;
    }
  }

  lemma {:induction false} AndSelf(x: nat)
    ensures And(x, x) == x
  {
    if x != 0 { AndSelf(x / 2); }
  }

  // Rounding up to a power of two

  lemma {:induction false} BitOfOr(x: nat, y: nat, i: nat)
    ensures Bit(Or(x, y), i) <==> Bit(x, i) || Bit(y, i)
  {
    if x == 0 {
      BitOfZero(i);
    } else if y == 0 {
      BitOfZero(i);
    } else if i > 0 {
      assert Or(x, y) / 2 == Or(x / 2, y / 2);
      BitOfOr(x / 2, y / 2, i - 1);
    }
  }

  lemma {:induction false} BitOfZero(i: nat)
    ensures !Bit(0, i)
  {
    if i > 0 { BitOfZero(i - 1); }
  }

  lemma {:induction false} BitOfShr(x: nat, k: nat, i: nat)
    ensures Bit(Shr(x, k), i) <==> Bit(x, i + k)
  {
    if k > 0 { BitOfShr(x / 2, k - 1, i); }
  }

  /** y has exactly the bits of x copied to each of the w places at and below them. */
  ghost predicate Smeared(x: nat, y: nat, w: nat) {
    forall i: nat :: Bit(y, i) <==> exists j: nat :: i <= j < i + w && Bit(x, j)
  }

  lemma SmearDoubles(x: nat, y: nat, w: nat)
    requires Smeared(x, y, w)
    ensures Smeared(x, Or(y, Shr(y, w)), 2 * w)
  {
    forall i: nat
      ensures Bit(Or(y, Shr(y, w)), i) <==> exists j: nat :: i <= j < i + 2 * w && Bit(x, j)
    {
      BitOfOr(y, Shr(y, w), i);
      BitOfShr(y, w, i);
      assert Bit(y, i) <==> exists j: nat :: i <= j < i + w && Bit(x, j);
      assert Bit(y, i + w) <==> exists j: nat :: i + w <= j < i + w + w && Bit(x, j);
      if j: nat :| i <= j < i + 2 * w && Bit(x, j) {
        assert j < i + w || i + w <= j;
      }
    }
  }

  /** A positive number has a highest bit k - 1, and lies between those powers of two. */
  lemma {:induction false} HighestBit(x: nat) returns (k: nat)
    requires x > 0
    ensures k > 0 && Pow2(k - 1) <= x < Pow2(k) && Bit(x, k - 1)
    ensures forall i: nat :: k <= i ==> !Bit(x, i)
  {
    if x == 1 {
      k := 1;
      forall i: nat | 1 <= i ensures !Bit(x, i) { BitOfZero(i - 1); }
    } else {
      var j := HighestBit(x / 2);
      k := j + 1;
      forall i: nat | k <= i ensures !Bit(x, i) { assert !Bit(x / 2, i - 1); }
    }
  }

  lemma {:induction false} AllOnes(y: nat, k: nat)
    requires forall i: nat :: Bit(y, i) <==> i < k
    ensures y == Pow2(k) - 1
  {
    if k == 0 {
      if y != 0 {
        var j := HighestBit(y);
        assert false;
      }
    } else {
      assert Bit(y, 0);
      forall i: nat ensures Bit(y / 2, i) <==> i < k - 1 { assert Bit(y, i + 1) <==> Bit(y / 2, i); }
      AllOnes(y / 2, k - 1);
    }
  }

  lemma {:induction false} Pow2Monotone(a: nat, b: nat)
    requires a < b
    ensures 2 * Pow2(a) <= Pow2(b)
  {
    if a + 1 < b { Pow2Monotone(a, b - 1); }
  }

  lemma SmearedToOnes(x: nat, y: nat, k: nat)
    requires 0 < k <= 64 && Bit(x, k - 1) && forall i: nat :: k <= i ==> !Bit(x, i)
    requires Smeared(x, y, 64)
    ensures y == Pow2(k) - 1
  {
    forall i: nat ensures Bit(y, i) <==> i < k {
      if i < k { assert i <= k - 1 < i + 64 && Bit(x, k - 1); }
    }
    AllOnes(y, k);
  }

  /** r is the least power of two not below n. */
  ghost predicate LeastPowerOfTwo(r: nat, n: nat) {
    && (exists k: nat :: r == Pow2(k))
    && n <= r
    && forall k: nat :: n <= Pow2(k) ==> r <= Pow2(k)
  }

  /** The shifts and ors of roundUpPowerOfTwo64. */
  method Smear(x: nat) returns (m: nat)
    ensures Smeared(x, m, 64)
  {
    m := x;
    assert Smeared(x, m, 1);
    SmearDoubles(x, m, 1);
    m := Or(m, Shr(m, 1));
    SmearDoubles(x, m, 2);
    m := Or(m, Shr(m, 2));
    SmearDoubles(x, m, 4);
    m := Or(m, Shr(m, 4));
    SmearDoubles(x, m, 8);
    m := Or(m, Shr(m, 8));
    SmearDoubles(x, m, 16);
    m := Or(m, Shr(m, 16));
    SmearDoubles(x, m, 32);
    m := Or(m, Shr(m, 32));
  }

  /** The int64 with the low 64 bits of x. */
  function Int64(x: nat): int
    requires x <= Pow2(64)
  {
    if x < Pow2(63) then x else x - Pow2(64)
  }

  /** roundUpPowerOfTwo64. The result needs bit 63, which an int64 does not have,
      exactly when n exceeds 2^62; the increment then wraps to the least int64. For 0 the
      decrement gives -1, all of whose bits are set, and the increment 0 again. */
  method RoundUpPowerOfTwo64(n: nat) returns (r: int)
    requires n < Pow2(63)
    ensures n == 0 ==> r == 0
    ensures 1 <= n <= Pow2(62) ==> r >= 0 && LeastPowerOfTwo(r, n)
    ensures n > Pow2(62) ==> r == 0 - Pow2(63)
  {
    var m := Smear(if n == 0 then Pow2(64) - 1 else n - 1);
    if n == 0 {
      AllOnesSmeared(64, m);
    } else {
      RoundedUp(n, m, 63);
      RoundedUpBound(m + 1, n, 62);
    }
    r := Int64(m + 1);
  }

  lemma AllOnesSmeared(b: nat, m: nat)
    requires 0 < b <= 64 && Smeared(Pow2(b) - 1, m, 64)
    ensures m == Pow2(b) - 1
  {
    var k := HighestBit(Pow2(b) - 1);
    Pow2Less(k - 1, b);
    if k < b { Pow2Monotone(k, b); }
    SmearedToOnes(Pow2(b) - 1, m, k);
  }

  lemma SmearedZero(y: nat, w: nat)
    requires Smeared(0, y, w)
    ensures y == 0
  {
    if y != 0 {
      var k := HighestBit(y);
      var j: nat :| k - 1 <= j < k - 1 + w && Bit(0, j);
      BitOfZero(j);
    }
  }

  lemma RoundedUp(n: nat, m: nat, b: nat)
    requires 1 <= n < Pow2(b) && b < 64 && Smeared(n - 1, m, 64)
    ensures LeastPowerOfTwo(m + 1, n)
  {
    if n == 1 {
      SmearedZero(m, 64);
      assert m + 1 == Pow2(0);
    } else {
      var k := HighestBit(n - 1);
      Pow2Less(k - 1, b);
      SmearedToOnes(n - 1, m, k);
      assert m + 1 == Pow2(k);
      forall j: nat | n <= Pow2(j) ensures m + 1 <= Pow2(j) {
        Pow2Less(k - 1, j);
        Pow2Step(k, j);
      }
    }
  }

  /** Rounding a number below 2^(b+1) up reaches 2^(b+1) exactly when it exceeds 2^b. */
  lemma RoundedUpBound(r: nat, n: nat, b: nat)
    requires LeastPowerOfTwo(r, n) && n < Pow2(b + 1)
    ensures n > Pow2(b) <==> r == Pow2(b + 1)
  {
    var k: nat :| r == Pow2(k);
    if n > Pow2(b) {
      Pow2Less(b, k);
      Pow2Step(b + 1, k);
    }
  }

  lemma Pow2Less(a: nat, b: nat)
    requires Pow2(a) < Pow2(b)
    ensures a < b
  {
    if b <= a { Pow2Step(b, a); }
  }

  lemma Pow2Step(a: nat, b: nat)
    requires a <= b
    ensures Pow2(a) <= Pow2(b)
  {
    if a < b { Pow2Monotone(a, b); }
  }
}
