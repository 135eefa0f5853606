/** Bytes, words and the bitwise operators of the AVR, written over integers. */
module Bits {
  type byte = x: int | 0 <= x < 0x100
  type word = x: int | 0 <= x < 0x1_0000

  function Pow2(k: nat): (r: nat)
    ensures r > 0
  {
    if k == 0 then 1 else 2 * Pow2(k - 1)
  }

  predicate Odd(a: nat) { a % 2 == 1 }

  function Half(a: nat): (h: nat)
    ensures h <= a
  {
    a / 2
  }

  function B(b: bool): byte { if b then 1 else 0 }

  function And(a: nat, b: nat): (r: nat)
    ensures r <= a && r <= b
  {
    if a == 0 || b == 0 then 0
    else 2 * And(a / 2, b / 2) + B(a % 2 == 1 && b % 2 == 1)
  }

  function Or(a: nat, b: nat): nat
    decreases a + b
  {
    if a == 0 then b
    else if b == 0 then a
    else 2 * Or(a / 2, b / 2) + B(a % 2 == 1 || b % 2 == 1)
  }

  /** Bit k of a. */
  predicate Bit(a: nat, k: nat) {
    if k == 0 then a % 2 == 1 else Bit(a / 2, k - 1)
  }

  lemma {:induction false} OrBound(a: nat, b: nat, k: nat)
    requires a < Pow2(k) && b < Pow2(k)
    ensures Or(a, b) < Pow2(k)
    decreases k
  {
    if a != 0 && b != 0 { OrBound(a / 2, b / 2, k - 1); }
  }

  function AndByte(a: byte, b: byte): byte { And(a, b) }

  function OrByte(a: byte, b: byte): byte {
    assert Pow2(8) == 256;
    OrBound(a, b, 8);
    Or(a, b)
  }

  function Word(hi: byte, lo: byte): word { 256 * hi + lo }
  function Lo(x: word): byte { x % 256 }
  function Hi(x: word): byte { x / 256 }

  /** Masking with 2^k - 1 is the remainder modulo 2^k: the wrap of every ring index. */
  lemma {:induction false} AndMask(a: nat, k: nat)
    ensures And(a, Pow2(k) - 1) == a % Pow2(k)
    decreases k
  {
    hide And, Pow2;
    if k == 0 {
      AndNothing(a);
    } else {
      AndMask(a / 2, k - 1);
      AndMaskStep(a, k);
    }
  }

  lemma AndNothing(a: nat)
    ensures And(a, Pow2(0) - 1) == a % Pow2(0)
  {
    assert Pow2(0) == 1;
  }

  lemma AndMaskStep(a: nat, k: nat)
    requires k > 0 && And(a / 2, Pow2(k - 1) - 1) == a / 2 % Pow2(k - 1)
    ensures And(a, Pow2(k) - 1) == a % Pow2(k)
  {
    hide And;
    var m := Pow2(k - 1);
    AndOdd(a, m - 1);
    HalfMod(a, m);
  }

  /** One more bit of a mask of ones. */
  lemma AndOdd(a: nat, b: nat)
    ensures And(a, 2 * b + 1) == 2 * And(a / 2, b) + a % 2
  {
    assert (2 * b + 1) / 2 == b && (2 * b + 1) % 2 == 1;
  }

  lemma HalfMod(a: nat, m: nat)
    requires m > 0
    ensures a % (2 * m) == 2 * (a / 2 % m) + a % 2
  {
    var q, r := a / 2 / m, a / 2 % m;
    assert a == (2 * m) * q + (2 * r + a % 2);
    DivUnique(a, 2 * m, q, 2 * r + a % 2);
  }

  lemma DivUnique(x: nat, n: nat, q: nat, r: nat)
    requires x == n * q + r && r < n
    ensures x / n == q && x % n == r
  {
    assert n * (x / n - q) == r - x % n;
    MulAway(n, x / n - q);
  }

  lemma Concat<T>(a: seq<T>, b: seq<T>, c: seq<T>)
    ensures a + (b + c) == (a + b) + c
  {
  }

  /** What an integer quotient is at least. */
  lemma Quotient(x: nat, d: nat, q: nat)
    requires d > 0
    ensures q <= x / d <==> q * d <= x
  {
    var k, r := x / d, x % d;
    assert x == k * d + r;
    if q <= k {
      assert (k - q) * d >= 0;
      assert q * d + (k - q) * d == k * d;
    } else {
      assert (q - k - 1) * d >= 0;
      assert q * d == k * d + d + (q - k - 1) * d;
    }
  }

  lemma MulAway(n: int, d: int)
    requires n >= 0
    ensures d > 0 ==> n * d >= n
    ensures d < 0 ==> n * d <= -n
  {
  }

  lemma {:induction false} BitAnd(a: nat, b: nat, k: nat)
    ensures Bit(And(a, b), k) == (Bit(a, k) && Bit(b, k))
    decreases k
  {
    if a == 0 || b == 0 {
      BitZero(k);
    } else if k != 0 {
      BitAnd(a / 2, b / 2, k - 1);
    }
  }

  lemma {:induction false} BitOr(a: nat, b: nat, k: nat)
    ensures Bit(Or(a, b), k) == (Bit(a, k) || Bit(b, k))
    decreases k
  {
    if a == 0 || b == 0 {
      BitZero(k);
    } else if k != 0 {
      BitOr(a / 2, b / 2, k - 1);
    }
  }

  /** Writing ones to flags clears them. */
  lemma {:induction false} BitMinusAnd(a: nat, b: nat, k: nat)
    ensures Bit(a - And(a, b), k) == (Bit(a, k) && !Bit(b, k))
    decreases k
  {
    if a == 0 || b == 0 {
      BitZero(k);
    } else {
      assert a - And(a, b) == 2 * (a / 2 - And(a / 2, b / 2)) + B(a % 2 == 1 && b % 2 == 0);
      if k != 0 { BitMinusAnd(a / 2, b / 2, k - 1); }
    }
  }

  lemma {:induction false} BitZero(k: nat)
    ensures !Bit(0, k)
  {
    if k != 0 { BitZero(k - 1); }
  }

  /** Two numbers below 2^n with the same first n bits are equal. */
  lemma {:induction false} SameBits(a: nat, b: nat, n: nat)
    requires a < Pow2(n) && b < Pow2(n)
    requires forall k :: 0 <= k < n ==> Bit(a, k) == Bit(b, k)
    ensures a == b
    decreases n
  {
    if n != 0 {
      assert Bit(a, 0) == Bit(b, 0);
      forall k | 0 <= k < n - 1
        ensures Bit(a / 2, k) == Bit(b / 2, k)
      {
        assert Bit(a, k + 1) == Bit(b, k + 1);
      }
      SameBits(a / 2, b / 2, n - 1);
    }
  }

  // Bits of the constants that occur as masks.

  lemma {:induction false} BitPow2(j: nat, k: nat)
    ensures Bit(Pow2(j), k) == (k == j)
    decreases k
  {
    if j == 0 {
      if k != 0 { BitZero(k - 1); }
    } else if k != 0 {
      assert Pow2(j) / 2 == Pow2(j - 1);
      BitPow2(j - 1, k - 1);
    }
  }

  lemma {:induction false} BitOnes(n: nat, k: nat)
    ensures Bit(Pow2(n) - 1, k) == (k < n)
    decreases k
  {
    if n == 0 {
      BitZero(k);
    } else if k != 0 {
      assert (Pow2(n) - 1) / 2 == Pow2(n - 1) - 1;
      BitOnes(n - 1, k - 1);
    }
  }

  /** All ones but bit j. */
  lemma {:induction false} BitHole(n: nat, j: nat, k: nat)
    requires j < n
    ensures Pow2(j) < Pow2(n)
    ensures Bit(Pow2(n) - 1 - Pow2(j), k) == (k < n && k != j)
    decreases n
  {
    var m := Pow2(n - 1);
    if j == 0 {
      assert Pow2(n) - 1 - Pow2(0) == 2 * (m - 1);
      if k != 0 { BitOnes(n - 1, k - 1); }
    } else {
      BitHole(n - 1, j - 1, if k == 0 then 0 else k - 1);
      assert Pow2(n) - 1 - Pow2(j) == 2 * (m - 1 - Pow2(j - 1)) + 1;
    }
  }

  lemma Masks()
    ensures Pow2(8) == 256 && Pow2(7) == 0x80 && Pow2(6) == 0x40 && Pow2(5) == 0x20
  {
  }
}
