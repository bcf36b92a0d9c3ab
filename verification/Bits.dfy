// Bitwise and on unsigned values, and the power-of-two arithmetic of the shard index (include/util.h).

module Bits {

  const TWO64 := 0x1_0000_0000_0000_0000

  function Bit(a: nat, i: nat): (b: nat)
    ensures b == 0 || b == 1
  {
    if i == 0 then a % 2 else Bit(a / 2, i - 1)
  }

  function LowBit(a: nat, b: nat): nat {
    if a % 2 == 1 && b % 2 == 1 then 1 else 0
  }

  /** Bitwise and of unsigned values. */
  function And(a: nat, b: nat): nat {
    if a == 0 || b == 0 then 0 else 2 * And(a / 2, b / 2) + LowBit(a, b)
  }

  function Pow2(e: nat): (p: nat)
    ensures p >= 1
  {
    if e == 0 then 1 else 2 * Pow2(e - 1)
  }

  ghost predicate PowerOfTwo(n: nat) { exists e: nat :: n == Pow2(e) }

  lemma {:induction false} ZeroBits(i: nat)
    ensures Bit(0, i) == 0
  {
    if i > 0 { ZeroBits(i - 1); }
  }

  /** `And` is the bitwise operator: a bit of the result is set exactly when it is set on both sides. */
  lemma {:induction false} AndBit(a: nat, b: nat, i: nat)
    ensures Bit(And(a, b), i) == 1 <==> Bit(a, i) == 1 && Bit(b, i) == 1
    decreases i
  {
    if a == 0 || b == 0 {
      ZeroBits(i);
    } else {
      var half, low := And(a / 2, b / 2), LowBit(a, b);
      assert And(a, b) % 2 == low && And(a, b) / 2 == half;
      if i > 0 { AndBit(a / 2, b / 2, i - 1); }
    }
  }

  lemma {:induction false} AndSelf(a: nat)
    ensures And(a, a) == a
  {
    if a > 0 { AndSelf(a / 2); }
  }

  /** The test n & (n - 1) == 0 on a non-zero n accepts the powers of two and nothing else. */
  lemma {:induction false} MaskTest(n: nat)
    requires n > 0
    ensures And(n, n - 1) == 0 <==> PowerOfTwo(n)
  {
    if n % 2 == 1 {
      assert (n - 1) / 2 == n / 2;
      AndSelf(n / 2);
      assert And(n, n - 1) == 2 * (n / 2);
      if n == 1 { assert n == Pow2(0); }
      if e: nat :| n == Pow2(e) { assert e == 0; }
    } else {
      var m := n / 2;
      assert (n - 1) / 2 == m - 1;
      assert And(n, n - 1) == 2 * And(m, m - 1);
      MaskTest(m);
      if e: nat :| m == Pow2(e) { assert n == Pow2(e + 1); }
      if e: nat :| n == Pow2(e) {
        assert e > 0;
        assert m == Pow2(e - 1);
      }
    }
  }

  lemma HalfMod(k: nat, p: nat)
    requires p > 0
    ensures k % (2 * p) == 2 * ((k / 2) % p) + k % 2
  {
    var q, r := (k / 2) / p, (k / 2) % p;
    assert k / 2 == q * p + r;
    assert k == q * (2 * p) + (2 * r + k % 2);
    ModUnique(k, 2 * p, q, 2 * r + k % 2);
  }

  lemma {:induction false} MultipleGap(a: int, b: int, n: nat)
    requires a > b
    ensures a * n >= b * n + n
    decreases a - b
  {
    assert a * n == (a - 1) * n + n;
    if a - 1 > b { MultipleGap(a - 1, b, n); }
  }

  lemma ModUnique(k: int, n: nat, q: int, r: nat)
    requires r < n && k == q * n + r
    ensures k % n == r
  {
    var q' := k / n;
    assert k == q' * n + k % n;
    if q > q' {
      MultipleGap(q, q', n);
    } else if q < q' {
      MultipleGap(q', q, n);
    }
  }

  lemma {:induction false} MaskIsModPow(k: nat, e: nat)
    ensures And(k, Pow2(e) - 1) == k % Pow2(e)
    decreases e
  {
    if e > 0 {
      MaskIsModPow(k / 2, e - 1);
      MaskDouble(k, Pow2(e - 1), Pow2(e));
    } else {
      assert k % 1 == 0;
    }
  }

  lemma MaskDouble(k: nat, p: nat, m: nat)
    requires p > 0 && m == 2 * p && And(k / 2, p - 1) == (k / 2) % p
    ensures And(k, m - 1) == k % m
  {
    LowMask(k, p, m - 1);
    HalfMod(k, p);
  }

  lemma LowMask(k: nat, p: nat, mask: nat)
    requires p > 0 && mask == 2 * p - 1
    ensures And(k, mask) == 2 * And(k / 2, p - 1) + k % 2
  {
    assert mask / 2 == p - 1 && mask % 2 == 1;
  }

  lemma {:induction false} PowDivides(e: nat, f: nat)
    requires e <= f
    ensures exists q: nat :: Pow2(f) == q * Pow2(e)
  {
    if e == f {
      assert Pow2(f) == 1 * Pow2(e);
    } else {
      PowDivides(e, f - 1);
      var q: nat :| Pow2(f - 1) == q * Pow2(e);
      assert Pow2(f) == (2 * q) * Pow2(e);
    }
  }

  lemma {:induction false} PowMonotone(e: nat, f: nat)
    requires e < f
    ensures Pow2(e) < Pow2(f)
  {
    if e < f - 1 { PowMonotone(e, f - 1); }
  }

  lemma PowOf64()
    ensures Pow2(64) == TWO64
  {
    assert Pow2(8) == 256;
    assert Pow2(16) == 0x1_0000 by { assert Pow2(12) == 4096; }
    assert Pow2(32) == 0x1_0000_0000 by { assert Pow2(20) == 0x10_0000; assert Pow2(26) == 0x400_0000; }
    assert Pow2(48) == 0x1_0000_0000_0000 by { assert Pow2(40) == 0x100_0000_0000; }
    assert Pow2(56) == 0x100_0000_0000_0000;
  }

  lemma ModOfMultiple(key: int, m: nat, n: nat, q: nat)
    requires n > 0 && m == q * n > 0
    ensures key % m % n == key % n
  {
    var w, u := key / m, key % m;
    var x, r := u / n, u % n;
    assert u == x * n + r;
    assert w * m == (w * q) * n;
    assert key == w * m + u;
    assert (w * q + x) * n == (w * q) * n + x * n;
    ModUnique(key, n, w * q + x, r);
  }

  /** Masking the key, a signed number converted to an unsigned one, is the Euclidean remainder of the
      key itself, negative keys included. */
  lemma MaskIsMod(key: int, n: nat)
    requires 0 < n < TWO64 && And(n, n - 1) == 0
    ensures And(key % TWO64, n - 1) == key % n
  {
    MaskTest(n);
    var e: nat :| n == Pow2(e);
    var u := key % TWO64;
    MaskIsModPow(u, e);
    var q := Quotient64(n, e);
    ModOfMultiple(key, TWO64, n, q);
  }

  lemma Quotient64(n: nat, e: nat) returns (q: nat)
    requires n == Pow2(e) && n < TWO64
    ensures TWO64 == q * n
  {
    PowOf64();
    if e > 64 { PowMonotone(64, e); }
    PowDivides(e, 64);
    q :| TWO64 == q * Pow2(e);
  }
}
