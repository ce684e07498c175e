/** Bit operations of fixed-width integers on their unsigned values. */
module Bits {

  newtype byte = x: int | 0 <= x < 256

  function Pow2(n: nat): (p: nat)
    ensures p >= 1
  {
    if n == 0 then 1 else 2 * Pow2(n - 1)
  }

  const TWO_64 := 0x1_0000_0000_0000_0000
  const TWO_63 := 0x8000_0000_0000_0000
  const TWO_32 := 0x1_0000_0000
  const TWO_31 := 0x8000_0000

  lemma Pow2Values()
    ensures Pow2(7) == 128 && Pow2(32) == TWO_32 && Pow2(64) == TWO_64
  {
    assert Pow2(8) == 256;
    Pow2Adds(8, 8);
    Pow2Adds(16, 16);
    Pow2Adds(32, 32);
  }

  lemma {:induction false} Pow2Adds(a: nat, b: nat)
    ensures Pow2(a + b) == Pow2(a) * Pow2(b)
    decreases a
  {
    if a > 0 {
      Pow2Adds(a - 1, b);
      assert Pow2(a + b) == 2 * Pow2(a - 1 + b);
    }
  }

  /** Bitwise or. */
  function Or(x: nat, y: nat): (r: nat)
    ensures x == 0 ==> r == y
    ensures y == 0 ==> r == x
    decreases x + y
  {
    if x == 0 then y
    else if y == 0 then x
    else (if x % 2 == 1 || y % 2 == 1 then 1 else 0) + 2 * Or(x / 2, y / 2)
  }

  lemma {:induction false} OrHalves(x: nat, y: nat)
    ensures Or(x, y) / 2 == Or(x / 2, y / 2)
    ensures Or(x, y) % 2 == (if x % 2 == 1 || y % 2 == 1 then 1 else 0)
  {
    if x == 0 || y == 0 {
      assert Or(x / 2, y / 2) == if x == 0 then y / 2 else x / 2;
    }
  }

  lemma {:induction false} OrAssociates(x: nat, y: nat, z: nat)
    ensures Or(Or(x, y), z) == Or(x, Or(y, z))
    decreases x + y + z
  {
    if x > 0 && y > 0 && z > 0 {
      OrAssociates(x / 2, y / 2, z / 2);
      OrHalves(x, y);
      OrHalves(y, z);
      OrHalves(Or(x, y), z);
      OrHalves(x, Or(y, z));
    }
  }

  /** Or of numbers without common bits is addition. */
  lemma {:induction false} OrDisjoint(x: nat, y: nat, s: nat)
    requires x < Pow2(s)
    ensures Or(x, y * Pow2(s)) == x + y * Pow2(s)
    decreases s
  {
    if s > 0 && x > 0 && y > 0 {
      var p := Pow2(s - 1);
      assert y * Pow2(s) == 2 * (y * p);
      assert y * p >= 1;
      OrDisjoint(x / 2, y, s - 1);
      assert (2 * (y * p)) / 2 == y * p && (2 * (y * p)) % 2 == 0;
    } else if s == 0 || x == 0 {
      assert x == 0;
    } else {
      assert y * Pow2(s) == 0;
    }
  }

  /** Or with one sets the lowest bit and nothing else. */
  lemma OrOne(v: nat)
    ensures Or(1, v) == (if v % 2 == 1 then v else v + 1)
  {
    if v > 0 {
      assert Or(0, v / 2) == v / 2;
    }
  }

  /** The value of a signed integer of `2^w == m` values as its unsigned bit pattern, and back. */
  function ToUnsigned(x: int, m: nat): (u: nat)
    requires m > 0
    ensures u < m
  {
    x % m
  }

  function ToSigned(u: nat, m: nat): int
  {
    if u < m / 2 then u else u - m
  }

  lemma {:induction false} ShiftOverflow(c: nat, s: nat, w: nat)
    requires s >= w
    ensures (c * Pow2(s)) % Pow2(w) == 0
    ensures forall p: nat :: (p + c * Pow2(s)) % Pow2(w) == p % Pow2(w)
  {
    Pow2Adds(s - w, w);
    var k, m := c * Pow2(s - w), Pow2(w);
    assert c * Pow2(s) == k * m by { MulAssoc(c, Pow2(s - w), m); }
    forall p: nat
      ensures (p + c * Pow2(s)) % m == p % m
    {
      ModAddMultiple(p, k, m);
    }
    ModAddMultiple(0, k, m);
  }

  lemma MulAssoc(a: int, b: int, c: int)
    ensures a * (b * c) == (a * b) * c
  {
  }

  /** Quotient and remainder are determined by their defining equation. */
  lemma DivModUnique(x: int, q: int, r: int, m: nat)
    requires m > 0 && x == q * m + r && 0 <= r < m
    ensures x / m == q && x % m == r
  {
    var q', r' := x / m, x % m;
    assert q' * m + r' == x;
    if q' > q {
      MulGap(q', q, m);
    } else if q' < q {
      MulGap(q, q', m);
    }
  }

  lemma ModSmall(x: nat, m: nat)
    requires x < m
    ensures x % m == x && x / m == 0
  {
    DivModUnique(x, 0, x, m);
  }

  lemma MulGap(a: int, b: int, m: nat)
    requires a > b
    ensures a * m >= b * m + m
  {
    var d: nat := a - b - 1;
    MulMonotone(0, d, m);
    assert a * m == (b + 1 + d) * m == b * m + m + d * m;
  }

  lemma ModAddMultiple(p: nat, k: nat, m: nat)
    requires m > 0
    ensures (p + k * m) % m == p % m
  {
    assert p + k * m == (p / m + k) * m + p % m by {
      assert (p / m + k) * m == (p / m) * m + k * m;
    }
    DivModUnique(p + k * m, p / m + k, p % m, m);
  }

  /** `acc |= c << s` in `w` bits, where `acc` so far holds the low `s` bits: the loop body of every varint
      decoder. */
  lemma ShiftOr(p: nat, c: nat, s: nat, w: nat)
    requires p < Pow2(s)
    ensures Or(p % Pow2(w), (c * Pow2(s)) % Pow2(w)) == (p + c * Pow2(s)) % Pow2(w)
  {
    if s >= w {
      ShiftOverflow(c, s, w);
    } else {
      Pow2Adds(w - s, s);
      Pow2Monotone(s, w);
      SplitShift(p, c, Pow2(w - s), Pow2(s));
      OrDisjoint(p, c % Pow2(w - s), s);
    }
  }

  lemma SplitShift(p: nat, c: nat, n: nat, q: nat)
    requires n > 0 && p < q
    ensures n * q > 0
    ensures p % (n * q) == p
    ensures (c * q) % (n * q) == (c % n) * q
    ensures (p + c * q) % (n * q) == p + (c % n) * q
  {
    var lo, hi := c % n, c / n;
    var m := n * q;
    MulMonotone(1, n, q);
    MulMonotone(lo + 1, n, q);
    assert c * q == hi * m + lo * q by {
      assert c == hi * n + lo;
      MulAssoc(hi, n, q);
      assert (hi * n + lo) * q == (hi * n) * q + lo * q;
    }
    assert (lo + 1) * q == lo * q + q;
    DivModUnique(p, 0, p, m);
    DivModUnique(c * q, hi, lo * q, m);
    DivModUnique(p + c * q, hi, p + lo * q, m);
  }

  lemma MulMonotone(a: nat, b: nat, c: nat)
    requires a <= b
    ensures a * c <= b * c
  {
  }

  lemma {:induction false} Pow2Monotone(a: nat, b: nat)
    requires a <= b
    ensures Pow2(a) <= Pow2(b)
    decreases b
  {
    if a < b {
      Pow2Monotone(a, b - 1);
    }
  }
}
