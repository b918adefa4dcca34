/** Unsigned machine words as bounded naturals: 64-bit wrap-around, the bitwise AND of two
    words, and the fact that makes a power-of-two mask a remainder. */
module Bits {

  const TWO_64: nat := 0x1_0000_0000_0000_0000
  const TWO_32: nat := 0x1_0000_0000

  type size_t = n: nat | n < 0x1_0000_0000_0000_0000
  type uint32 = n: nat | n < 0x1_0000_0000

  /** Bitwise AND, least significant bit first. */
  function And(x: nat, y: nat): nat
    decreases x
  {
    if x == 0 || y == 0 then 0
    else (x % 2) * (y % 2) + 2 * And(x / 2, y / 2)
  }

  function Pow2(k: nat): nat {
    if k == 0 then 1 else 2 * Pow2(k - 1)
  }

  lemma {:induction false} Pow2Positive(k: nat)
    ensures Pow2(k) > 0
  {
    if k > 0 { Pow2Positive(k - 1); }
  }

  /** Masking with 2^k - 1 keeps the remainder modulo 2^k. */
  lemma {:induction false} MaskIsRemainder(x: nat, k: nat)
    requires Pow2(k) > 0
    ensures And(x, Pow2(k) - 1) == x % Pow2(k)
  {
    if k == 0 {
      assert Pow2(0) == 1;
    } else if x == 0 {
      RemainderUnique(0, Pow2(k), 0, 0);
    } else {
      Pow2Positive(k - 1);
      MaskStep(x, k, Pow2(k - 1));
      MaskIsRemainder(x / 2, k - 1);
    }
  }

  lemma MaskStep(x: nat, k: nat, p: nat)
    requires k > 0 && p == Pow2(k - 1) > 0
    ensures And(x, Pow2(k) - 1) == x % 2 + 2 * And(x / 2, p - 1)
    ensures x % Pow2(k) == x % 2 + 2 * ((x / 2) % p)
  {
    AndOdd(x, p - 1);
    HalveRemainder(x, p);
  }

  lemma AndOdd(x: nat, m: nat)
    ensures And(x, 2 * m + 1) == x % 2 + 2 * And(x / 2, m)
  {
    assert (2 * m + 1) / 2 == m && (2 * m + 1) % 2 == 1;
  }

  lemma HalveRemainder(x: nat, p: nat)
    requires p > 0
    ensures x % (2 * p) == x % 2 + 2 * ((x / 2) % p)
  {
    var q, r := (x / 2) / p, (x / 2) % p;
    assert x / 2 == q * p + r;
    assert x == (2 * p) * q + (x % 2 + 2 * r) by {
      assert x == 2 * (q * p + r) + x % 2;
    }
    RemainderUnique(x, 2 * p, q, x % 2 + 2 * r);
  }

  lemma MultipleOutside(d: nat, k: int)
    requires d > 0
    ensures k >= 1 ==> d * k >= d
    ensures k <= -1 ==> d * k <= 0 - d
  {
    if k >= 1 {
      assert d * k == d + d * (k - 1);
    } else if k <= -1 {
      assert d * k == d * (k + 1) - d;
    }
  }

  lemma RemainderUnique(x: int, d: nat, q: int, r: nat)
    requires d > 0 && r < d && x == d * q + r
    ensures x % d == r
  {
    var q', r' := x / d, x % d;
    assert d * q' + r' == x;
    assert d * (q - q') == r' - r by { assert d * (q - q') == d * q - d * q'; }
    MultipleOutside(d, q - q');
  }

  /** The compile-time test (c & (c - 1)) == 0 admits exactly the powers of two (and 0). */
  lemma {:induction false} PowerOfTwoTest(c: nat) returns (k: nat)
    requires c > 0 && And(c, c - 1) == 0
    ensures c == Pow2(k)
  {
    if c == 1 {
      k := 0;
      assert Pow2(0) == 1;
    } else if c % 2 == 1 {
      assert (c - 1) % 2 == 0 && (c - 1) / 2 == c / 2;
      AndSelf(c / 2);
      assert false;
    } else {
      assert (c - 1) / 2 == c / 2 - 1 && (c - 1) % 2 == 1;
      assert And(c / 2, c / 2 - 1) == 0;
      k := PowerOfTwoTest(c / 2);
      k := k + 1;
    }
  }

  lemma BitSquared(b: nat)
    requires b < 2
    ensures b * b == b
  {
    if b == 0 { assert b * b == 0; } else { assert b * b == 1; }
  }

  lemma {:induction false} AndSelf(x: nat)
    ensures And(x, x) == x
  {
    if x > 0 {
      AndSelf(x / 2);
      BitSquared(x % 2);
    }
  }

  lemma {:induction false} Pow2Splits(a: nat, b: nat) returns (q: nat)
    requires a <= b
    ensures Pow2(b) == Pow2(a) * q
  {
    if a == b {
      q := 1;
    } else {
      var q' := Pow2Splits(a, b - 1);
      q := 2 * q';
      assert Pow2(a) * (2 * q') == 2 * (Pow2(a) * q');
    }
  }

  lemma {:induction false} Pow2Monotone(a: nat, b: nat)
    requires a <= b
    ensures Pow2(a) <= Pow2(b)
  {
    if a < b { Pow2Monotone(a, b - 1); }
  }

  lemma Pow2Of64()
    ensures Pow2(64) == TWO_64
  {
    assert Pow2(8) == 0x100;
    assert Pow2(16) == 0x1_0000;
    assert Pow2(24) == 0x100_0000;
    assert Pow2(32) == 0x1_0000_0000;
    assert Pow2(40) == 0x100_0000_0000;
    assert Pow2(48) == 0x1_0000_0000_0000;
    assert Pow2(56) == 0x100_0000_0000_0000;
  }

  /** Reducing modulo a multiple of c first does not change the remainder modulo c. */
  lemma RemainderOfRemainder(n: nat, c: nat, w: nat)
    requires c > 0 && w > 0 && c * w > 0
    ensures (n % (c * w)) % c == n % c
  {
    var m := c * w;
    var q, r := n / m, n % m;
    assert n == m * q + r;
    assert m * q == c * (w * q);
    var q', r' := r / c, r % c;
    assert r == c * q' + r';
    assert n == c * (w * q + q') + r' by { assert c * (w * q + q') == c * (w * q) + c * q'; }
    RemainderUnique(n, c, w * q + q', r');
  }

  /** A power of two that fits in a word divides 2^64, so reducing a wrapped counter modulo it
      gives the same slot as reducing the true counter. */
  lemma WrapThenMask(n: nat, c: nat)
    requires 0 < c < TWO_64 && And(c, c - 1) == 0
    ensures And(n % TWO_64, c - 1) == n % c
  {
    var k := PowerOfTwoTest(c);
    Pow2Of64();
    if k >= 64 { Pow2Monotone(64, k); assert false; }
    var w := Pow2Splits(k, 64);
    MaskIsRemainder(n % TWO_64, k);
    RemainderOfRemainder(n, c, w);
  }

  /** Wrapped subtraction of two counters gives their true distance when that is below 2^64. */
  lemma WrapSub(h: nat, t: nat)
    requires t <= h < t + TWO_64
    ensures (h % TWO_64 - t % TWO_64) % TWO_64 == h - t
  {
    var d := h % TWO_64 - t % TWO_64;
    var q := h / TWO_64 - t / TWO_64;
    assert h - t == d + TWO_64 * q;
  }
}
