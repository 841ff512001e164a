/** Integer helpers of `src/utils/num.rs`: powers of two, the binary logarithm,
    the bitwise `&` used for periodic indexing, and `closest_pow_2`. */
module Num {

  /** Width in bits of `usize` on the 64-bit targets the crate is built for. */
  const UsizeBits: nat := 64

  function Pow2(k: nat): (r: nat)
    ensures r >= 1
  {
    if k == 0 then 1 else 2 * Pow2(k - 1)
  }

  /** Position of the highest set bit of `n` (`bits - 1 - leading_zeros`). */
  function Log2(n: nat): nat
    requires n >= 1
  {
    if n < 2 then 0 else 1 + Log2(n / 2)
  }

  /** Distance between two naturals. */
  function Dist(a: nat, b: nat): nat
  {
    if a <= b then b - a else a - b
  }

  lemma {:induction false} Log2Bounds(n: nat)
    requires n >= 1
    ensures Pow2(Log2(n)) <= n < Pow2(Log2(n) + 1)
  {
    if n >= 2 {
      Log2Bounds(n / 2);
    }
  }

  lemma {:induction false} Pow2Monotone(i: nat, j: nat)
    requires i <= j
    ensures Pow2(i) <= Pow2(j)
  {
    if i < j {
      Pow2Monotone(i, j - 1);
    }
  }

  /** Between two distinct powers of two the larger is at least twice the smaller. */
  lemma Pow2Gap(i: nat, j: nat)
    requires i < j
    ensures 2 * Pow2(i) <= Pow2(j)
  {
    Pow2Monotone(i + 1, j);
  }

  lemma Pow2Add(i: nat, j: nat)
    ensures Pow2(i + j) == Pow2(i) * Pow2(j)
  {
    if i > 0 {
      Pow2Add(i - 1, j);
    }
  }

  /** `Log2` of a power of two gives back its exponent. */
  lemma Log2OfPow2(k: nat)
    ensures Log2(Pow2(k)) == k
  {
    if k > 0 {
      Log2OfPow2(k - 1);
      assert Pow2(k) / 2 == Pow2(k - 1);
    }
  }

  /** Division with remainder is unique. */
  lemma DivModUnique(y: int, d: int, t: int, r: int)
    requires d > 0 && 0 <= r < d && y == d * t + r
    ensures y / d == t && y % d == r
  {
    var q, m := y / d, y % d;
    assert y == d * q + m;
    if q > t {
      assert d * q >= d * (t + 1) by { MulMonotone(d, t + 1, q); }
      assert false;
    } else if q < t {
      assert d * t >= d * (q + 1) by { MulMonotone(d, q + 1, t); }
      assert false;
    }
  }

  lemma MulMonotone(d: int, a: int, b: int)
    requires d >= 0 && a <= b
    ensures d * a <= d * b
  {
  }

  /** `x & y` on naturals, bit by bit from the least significant one. */
  function BitAnd(a: nat, b: nat): nat
    decreases a
  {
    if a == 0 || b == 0 then 0
    else 2 * BitAnd(a / 2, b / 2) + (if a % 2 == 1 && b % 2 == 1 then 1 else 0)
  }

  /** Masking with `2^k - 1` keeps the remainder modulo `2^k`: the identity
      `x % 2^k == x & (2^k - 1)` that the threshold configuration relies on. */
  lemma {:induction false} BitAndLowMask(y: nat, k: nat)
    ensures BitAnd(y, Pow2(k) - 1) == y % Pow2(k)
  {
    if k == 0 {
      assert Pow2(k) - 1 == 0;
    } else if y == 0 {
      assert BitAnd(y, Pow2(k) - 1) == 0;
    } else {
      var p := Pow2(k - 1);
      assert Pow2(k) - 1 == 2 * p - 1;
      BitAndOddMask(y, p);
      BitAndLowMask(y / 2, k - 1);
      ModDouble(y, p);
    }
  }

  /** One step of masking with an odd mask `2p - 1`: the lowest bit is kept
      and the rest is masked with `p - 1`. */
  lemma BitAndOddMask(y: nat, p: nat)
    requires y > 0 && p > 0
    ensures BitAnd(y, 2 * p - 1) == 2 * BitAnd(y / 2, p - 1) + y % 2
  {
    DivModUnique(2 * p - 1, 2, p - 1, 1);
  }

  /** Halving commutes with taking the remainder by an even modulus. */
  lemma ModDouble(y: nat, p: nat)
    requires p > 0
    ensures y % (2 * p) == 2 * ((y / 2) % p) + y % 2
  {
    var h := y / 2;
    var t, s := h / p, h % p;
    assert h == p * t + s;
    assert y == 2 * h + y % 2;
    assert y == (2 * p) * t + (2 * s + y % 2);
    DivModUnique(y, 2 * p, t, 2 * s + y % 2);
  }

  /** `x | y` on naturals, bit by bit from the least significant one. */
  function BitOr(a: nat, b: nat): nat
    decreases a + b
  {
    if a == 0 then b
    else if b == 0 then a
    else 2 * BitOr(a / 2, b / 2) + (if a % 2 == 1 || b % 2 == 1 then 1 else 0)
  }

  /** Or-ing in a value that fits below bit `k` of a multiple of `2^k` adds it. */
  lemma {:induction false} BitOrShifted(a: nat, b: nat, k: nat)
    requires b < Pow2(k)
    ensures BitOr(a * Pow2(k), b) == a * Pow2(k) + b
  {
    if k > 0 && a > 0 && b > 0 {
      var p := Pow2(k - 1);
      assert a * Pow2(k) == 2 * (a * p);
      assert (a * Pow2(k)) / 2 == a * p && (a * Pow2(k)) % 2 == 0;
      BitOrShifted(a, b / 2, k - 1);
    }
  }

  lemma BitOrDouble(x: nat, y: nat)
    ensures BitOr(2 * x, 2 * y) == 2 * BitOr(x, y)
  {
    if x > 0 && y > 0 {
      assert (2 * x) / 2 == x && (2 * y) / 2 == y && (2 * x) % 2 == 0 && (2 * y) % 2 == 0;
    }
  }

  lemma MulTwice(a: nat, p: nat)
    ensures a * (2 * p) == 2 * (a * p)
  {
  }

  /** Or commutes with a common left shift. */
  lemma {:induction false} BitOrScaled(a: nat, c: nat, k: nat)
    ensures BitOr(a * Pow2(k), c * Pow2(k)) == BitOr(a, c) * Pow2(k)
  {
    if k > 0 {
      var p := Pow2(k - 1);
      assert Pow2(k) == 2 * p;
      MulTwice(a, p);
      MulTwice(c, p);
      MulTwice(BitOr(a, c), p);
      var x, y := a * p, c * p;
      BitOrDouble(x, y);
      BitOrScaled(a, c, k - 1);
    }
  }

  /** `v << k` for a value that does not overflow. */
  function ShiftLeft(v: nat, k: nat): nat
  {
    v * Pow2(k)
  }

  /** `closest_pow_2` on an unsigned integer type of `bits` bits: the power of
      two nearest to `n`, preferring the lower one on a tie; `1` for `0`; the
      lower one when the top bit of `n` is set, because the next power would
      not fit the type. */
  function ClosestPow2(n: nat, bits: nat): (r: nat)
    requires bits >= 1 && n < Pow2(bits)
  {
    if n == 0 then 1
    else
      var highest := Log2(n);
      var lower := Pow2(highest);
      if highest == bits - 1 then lower
      else
        var upper := 2 * lower;
        if n - lower <= upper - n then lower else upper
  }

  /** For `n > 0` the result is `2^floor(log2 n)` or twice that, it fits the
      type, and it is returned as-is when `n` is already a power of two. */
  lemma ClosestPow2Shape(n: nat, bits: nat)
    requires bits >= 1 && n < Pow2(bits)
    ensures n == 0 ==> ClosestPow2(n, bits) == 1
    ensures n > 0 ==> ClosestPow2(n, bits) == Pow2(Log2(n)) || ClosestPow2(n, bits) == Pow2(Log2(n) + 1)
    ensures ClosestPow2(n, bits) < Pow2(bits)
    ensures n > 0 && Log2(n) == bits - 1 ==> ClosestPow2(n, bits) == Pow2(Log2(n))
  {
    if n > 0 {
      Log2Bounds(n);
      if Log2(n) + 1 < bits {
        Pow2Monotone(Log2(n) + 1, bits - 1);
        assert Pow2(bits) == 2 * Pow2(bits - 1);
      } else if Log2(n) >= bits {
        Pow2Monotone(bits, Log2(n));
        assert false;
      }
    }
  }

  /** No power of two that fits the type is strictly closer to `n` than the result. */
  lemma ClosestPow2IsClosest(n: nat, bits: nat, k: nat)
    requires bits >= 1 && n < Pow2(bits) && k < bits
    ensures Dist(n, Pow2(k)) >= Dist(n, ClosestPow2(n, bits))
  {
    if n > 0 {
      var l := Log2(n);
      Log2Bounds(n);
      if l >= bits {
        Pow2Monotone(bits, l);
      } else if k <= l {
        Pow2Monotone(k, l);
      } else {
        Pow2Monotone(l + 1, k);
      }
    } else {
      assert Pow2(k) >= 1;
    }
  }

  /** A tie between the two neighbouring powers goes to the lower one. */
  lemma ClosestPow2PrefersLower(n: nat, bits: nat)
    requires bits >= 1 && n < Pow2(bits) && n > 0
    requires Log2(n) + 1 < bits
    requires Dist(n, Pow2(Log2(n))) == Dist(n, Pow2(Log2(n) + 1))
    ensures ClosestPow2(n, bits) == Pow2(Log2(n))
  {
    Log2Bounds(n);
  }

  /** A power of two is its own closest power of two. */
  lemma ClosestPow2OfPow2(k: nat, bits: nat)
    requires k < bits
    ensures Pow2(k) < Pow2(bits) && ClosestPow2(Pow2(k), bits) == Pow2(k)
  {
    Pow2Gap(k, bits);
    Log2OfPow2(k);
  }

  /** `Log2` of the small values the examples use. */
  lemma Log2Small()
    ensures Log2(2) == 1 && Log2(3) == 1 && Log2(4) == 2 && Log2(6) == 2
    ensures Log2(8) == 3 && Log2(12) == 3 && Log2(16) == 4 && Log2(24) == 4 && Log2(32) == 5
  {
    assert Log2(2) == 1 && Log2(3) == 1;
    assert Log2(4) == 2 && Log2(6) == 2;
    assert Log2(8) == 3 && Log2(12) == 3;
    assert Log2(16) == 4 && Log2(24) == 4;
  }

  /** The literal cases of the repository's documentation, on `usize`. */
  lemma ClosestPow2Examples()
    ensures Pow2(UsizeBits) > 24
    ensures ClosestPow2(0, UsizeBits) == 1
    ensures ClosestPow2(6, UsizeBits) == 4
    ensures ClosestPow2(12, UsizeBits) == 8
    ensures ClosestPow2(24, UsizeBits) == 16
  {
    Pow2Monotone(5, UsizeBits);
    assert Pow2(5) == 32;
    Log2Small();
    assert Pow2(2) == 4 && Pow2(3) == 8 && Pow2(4) == 16;
  }
}
