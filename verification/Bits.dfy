/** The rounding helpers of bits.h on 64-bit values. */
module Bits {

  const TWO_63: nat := 0x8000_0000_0000_0000
  const TWO_64: nat := 0x1_0000_0000_0000_0000

  function Pow2(n: nat): (r: nat)
    ensures r >= 1
  {
    if n == 0 then 1 else 2 * Pow2(n - 1)
  }

  ghost predicate IsPow2(x: nat) {
    exists n: nat :: x == Pow2(n)
  }

  /** The position of the leading bit, 63 - clz(x). */
  function Log2(x: nat): (n: nat)
    requires x > 0
    ensures Pow2(n) <= x < 2 * Pow2(n)
  {
    if x == 1 then 0 else Log2(x / 2) + 1
  }

  function LeadingBit(x: nat): (r: nat)
    ensures x > 0 ==> r <= x < 2 * r && IsPow2(r)
  {
    if x == 0 then 0 else Pow2(Log2(x))
  }

  /** `leading_bit(x - 1) << 1` in 64 bits: past 2^63 the shift loses its only bit. */
  function CeilPow2(x: nat): nat
    requires x < TWO_64
  {
    if x > 1 then (LeadingBit(x - 1) * 2) % TWO_64 else 1
  }

  lemma {:induction false} Pow2Monotone(a: nat, b: nat)
    requires a < b
    ensures 2 * Pow2(a) <= Pow2(b)
    decreases b
  {
    if a < b - 1 { Pow2Monotone(a, b - 1); }
  }

  lemma Pow2IsOrdered(a: nat, b: nat)
    ensures Pow2(a) < Pow2(b) <==> a < b
  {
    if a < b { Pow2Monotone(a, b); } else if b < a { Pow2Monotone(b, a); }
  }

  lemma {:induction false} Pow2Adds(a: nat, b: nat)
    ensures Pow2(a + b) == Pow2(a) * Pow2(b)
    decreases b
  {
    if b > 0 {
      Pow2Adds(a, b - 1);
      assert Pow2(a + b) == 2 * Pow2(a + (b - 1));
    }
  }

  lemma Pow2Values()
    ensures Pow2(8) == 256 && Pow2(9) == 512 && Pow2(10) == 1024 && Pow2(11) == 2048 && Pow2(12) == 4096
    ensures Pow2(63) == TWO_63 && Pow2(64) == TWO_64
  {
    assert Pow2(4) == 16 && Pow2(8) == 256 && Pow2(12) == 4096;
    Pow2Adds(8, 8);
    Pow2Adds(16, 16);
    Pow2Adds(32, 31);
    assert Pow2(32) == 2 * Pow2(31);
  }

  lemma Pow2Below(n: nat)
    ensures n < 63 <==> Pow2(n) < TWO_63
    ensures n < 64 <==> Pow2(n) < TWO_64
    ensures n == 63 ==> Pow2(n) == TWO_63
  {
    Pow2Values();
    Pow2IsOrdered(n, 63);
    Pow2IsOrdered(n, 64);
  }

  lemma Pow2Middle(n: nat)
    ensures 256 <= 2 * Pow2(n) - 1 ==> n >= 8
    ensures n >= 8 <==> 256 <= Pow2(n)
    ensures n < 12 <==> Pow2(n) < 4096
    ensures n == 9 ==> Pow2(n) == 512
    ensures n == 10 ==> Pow2(n) == 1024
    ensures n == 11 ==> Pow2(n) == 2048
    ensures n == 12 ==> Pow2(n) == 4096
  {
    Pow2Values();
    Pow2IsOrdered(n, 8);
    Pow2IsOrdered(n, 12);
    if n < 8 { Pow2Monotone(n, 8); }
  }

  lemma Log2IsUnique(x: nat, m: nat, n: nat)
    requires Pow2(m) <= x < 2 * Pow2(m) && Pow2(n) <= x < 2 * Pow2(n)
    ensures m == n
  {
    if m < n { Pow2Monotone(m, n); } else if n < m { Pow2Monotone(n, m); }
  }

  lemma CeilPow2Exponent(x: nat, n: nat)
    requires 1 < x < TWO_64 && n == Log2(x - 1)
    ensures n < 63 <==> x <= TWO_63
    ensures CeilPow2(x) == if n < 63 then Pow2(n + 1) else 0
  {
    var v, w := Pow2(n), Pow2(n + 1);
    assert w == 2 * v && LeadingBit(x - 1) == v;
    Pow2Below(n);
    Pow2Below(n + 1);
    DoubleIn64Bits(v);
  }

  lemma DoubleIn64Bits(v: nat)
    ensures v < TWO_63 ==> (v * 2) % TWO_64 == 2 * v
    ensures v == TWO_63 ==> (v * 2) % TWO_64 == 0
  {
  }

  /** ceil_pow2 returns the least power of two that is not below its argument if and only if the
      argument is at most 2^63; above that it returns 0. */
  lemma CeilPow2IsLeast(x: nat)
    requires x < TWO_64
    ensures x <= TWO_63 <==>
        IsPow2(CeilPow2(x)) && x <= CeilPow2(x) && forall n: nat :: x <= Pow2(n) ==> CeilPow2(x) <= Pow2(n)
    ensures x > TWO_63 ==> CeilPow2(x) == 0
  {
    if x <= 1 {
      assert Pow2(0) == 1;
    } else {
      var n := Log2(x - 1);
      CeilPow2Exponent(x, n);
      forall m: nat | x <= Pow2(m) ensures Pow2(n + 1) <= Pow2(m) {
        Pow2IsOrdered(n, m);
        Pow2IsOrdered(m, n + 1);
      }
    }
  }

  function CeilDiv(n: nat, d: nat): nat
    requires d > 0
  {
    if n == 0 then 0 else (n - 1) / d + 1
  }

  lemma TimesIsOrdered(j: nat, k: nat, a: nat)
    requires j <= k
    ensures j * a <= k * a
  {
    assert k * a == j * a + (k - j) * a;
  }

  lemma QuotientBounds(n: nat, d: nat)
    requires d > 0
    ensures n / d * d <= n < (n / d + 1) * d
  {
    assert n == n / d * d + n % d;
    assert (n / d + 1) * d == n / d * d + d;
  }

  lemma CeilDivIsLeast(n: nat, d: nat, k: nat)
    requires d > 0
    ensures n <= CeilDiv(n, d) * d
    ensures n <= k * d ==> CeilDiv(n, d) <= k
  {
    if n > 0 {
      var q := (n - 1) / d;
      QuotientBounds(n - 1, d);
      if k <= q { TimesIsOrdered(k, q, d); }
    }
  }

  /** `ceil_div(n, a) * a` in 64 bits. */
  function Align(n: nat, a: nat): nat
    requires a > 0
  {
    (CeilDiv(n, a) * a) % TWO_64
  }

  /** The last multiple of `a` below 2^64 bounds what has a multiple above it. */
  lemma AlignFits(n: nat, a: nat)
    requires 0 < a < TWO_64
    ensures n <= (TWO_64 - 1) / a * a <==> CeilDiv(n, a) * a < TWO_64
  {
    var q, m := CeilDiv(n, a), (TWO_64 - 1) / a;
    assert m * a <= TWO_64 - 1 < (m + 1) * a;
    CeilDivIsLeast(n, a, m);
    if q <= m { TimesIsOrdered(q, m, a); } else { TimesIsOrdered(m + 1, q, a); }
  }

  /** The multiple found is less than `a` away. */
  lemma CeilDivIsNear(n: nat, d: nat)
    requires d > 0
    ensures CeilDiv(n, d) * d < n + d
  {
    if n > 0 {
      var q := (n - 1) / d;
      assert (n - 1) == q * d + (n - 1) % d;
      assert (q + 1) * d == q * d + d;
    }
  }

  function Times(k: nat, a: nat): nat { k * a }

  /** `x` is the least multiple of `a` that is not below `n`. */
  ghost predicate LeastMultiple(x: nat, n: nat, a: nat) {
    && n <= x && (exists q: nat :: x == Times(q, a))
    && forall k: nat :: n <= Times(k, a) ==> x <= Times(k, a)
  }

  lemma CeilDivGivesLeast(n: nat, a: nat)
    requires a > 0
    ensures LeastMultiple(CeilDiv(n, a) * a, n, a)
  {
    var q := CeilDiv(n, a);
    CeilDivIsLeast(n, a, q);
    assert q * a == Times(q, a);
    forall k: nat | n <= Times(k, a) ensures q * a <= Times(k, a) {
      CeilDivIsLeast(n, a, k);
      TimesIsOrdered(q, k, a);
    }
  }

  lemma WrapsOnce(x: nat, n: nat, a: nat)
    requires x < n + a && n < TWO_64 && a < TWO_64
    ensures x % TWO_64 == if x < TWO_64 then x else x - TWO_64
    ensures x >= TWO_64 ==> x % TWO_64 < n
  {
  }

  /** align returns the least multiple of `a` that is not below `n` if and only if there is one below 2^64; otherwise
      the product wraps and what it returns is below `n`. */
  lemma AlignIsLeast(n: nat, a: nat)
    requires n < TWO_64 && 0 < a < TWO_64
    ensures n <= (TWO_64 - 1) / a * a <==> LeastMultiple(Align(n, a), n, a)
    ensures n > (TWO_64 - 1) / a * a ==> Align(n, a) < n
  {
    AlignFits(n, a);
    CeilDivIsNear(n, a);
    WrapsOnce(CeilDiv(n, a) * a, n, a);
    CeilDivGivesLeast(n, a);
  }
}
