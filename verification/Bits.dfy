// The shifts and ors of 64-bit words that inode numbers are built with, on integers.

module Bits {

  function Pow2(n: nat): (p: nat)
    ensures p > 0
  {
    if n == 0 then 1 else 2 * Pow2(n - 1)
  }

  /** x | y */
  function Or(x: nat, y: nat): nat {
    if x == 0 then y
    else if y == 0 then x
    else 2 * Or(x / 2, y / 2) + (if x % 2 == 1 || y % 2 == 1 then 1 else 0)
  }

  function Times(x: nat, p: nat): nat {
    x * p
  }

  function Quotient(x: nat, p: nat): nat
    requires p > 0
  {
    x / p
  }

  function Remainder(x: nat, p: nat): nat
    requires p > 0
  {
    x % p
  }

  /** x << n, in 64 bits. */
  function Shl(x: nat, n: nat): nat {
    Low(Times(x, Pow2(n)), 64)
  }

  /** The low n bits. */
  function Low(x: nat, n: nat): nat {
    Remainder(x, Pow2(n))
  }

  /** x >> n */
  function Shr(x: nat, n: nat): nat {
    Quotient(x, Pow2(n))
  }

  function Ilog2(n: nat): nat
    requires n > 0
  {
    if n == 1 then 0 else 1 + Ilog2(n / 2)
  }

  lemma Doubled(a: nat, b: nat)
    ensures (2 * a) * b == 2 * (a * b)
  {
  }

  lemma {:induction false} Pow2Sum(m: nat, n: nat)
    ensures Pow2(m + n) == Pow2(m) * Pow2(n)
  {
    if m != 0 {
      calc {
        Pow2(m + n);
        2 * Pow2((m - 1) + n);
        { Pow2Sum(m - 1, n); }
        2 * (Pow2(m - 1) * Pow2(n));
        { Doubled(Pow2(m - 1), Pow2(n)); }
        Pow2(m) * Pow2(n);
      }
    }
  }

  lemma {:induction false} Ilog2Bounds(n: nat)
    requires n > 0
    ensures Pow2(Ilog2(n)) <= n < Pow2(Ilog2(n) + 1)
  {
    if n != 1 {
      Ilog2Bounds(n / 2);
    }
  }

  /** Words with no bit in common are or-ed by adding them. */
  lemma {:induction false} OrDisjoint(x: nat, y: nat, k: nat)
    requires x < Pow2(k)
    ensures Or(x, y * Pow2(k)) == x + y * Pow2(k)
    decreases k
  {
    if x != 0 && y * Pow2(k) != 0 {
      var half := y * Pow2(k - 1);
      assert y * Pow2(k) == 2 * half;
      OrDisjoint(x / 2, y, k - 1);
    }
  }

  lemma Spread(a: nat, d: nat, c: nat)
    ensures (a + d) * c == a * c + d * c
  {
  }

  lemma MulLess(a: nat, b: nat, c: nat)
    requires a < b
    ensures a * c + c <= b * c
  {
    var d: nat := b - a - 1;
    Spread(a + 1, d, c);
    Spread(a, 1, c);
    assert d * c >= 0;
  }

  lemma {:induction false} Pow2Grows(m: nat, n: nat)
    requires m <= n
    ensures Pow2(m) <= Pow2(n)
    decreases n
  {
    if m < n {
      Pow2Grows(m, n - 1);
    }
  }

  lemma DivSmall(v: nat, p: nat)
    requires v < p
    ensures v / p == 0
  {
  }

  lemma ModSmall(v: nat, p: nat)
    requires v < p
    ensures v % p == v
  {
  }

  lemma ModSelf(p: nat)
    requires p > 0
    ensures p % p == 0
  {
  }

  /** Nothing is lost off the top. */
  lemma ShlFits(x: nat, m: nat, n: nat)
    requires x < Pow2(m) && m + n <= 64
    ensures Shl(x, n) == x * Pow2(n)
    ensures Shl(x, n) + Pow2(n) <= Pow2(m + n)
  {
    var p := Pow2(n);
    Pow2Sum(m, n);
    MulLess(x, Pow2(m), p);
    Pow2Grows(m + n, 64);
    ModSmall(x * p, Pow2(64));
  }

  /** A low part and a multiple of a power of two determine each other. */
  lemma SplitUnique(a: nat, x: nat, b: nat, y: nat, p: nat)
    requires a < p && b < p && a + x * p == b + y * p
    ensures a == b && x == y
  {
    if x < y {
      MulLess(x, y, p);
    } else if y < x {
      MulLess(y, x, p);
    }
  }
}
