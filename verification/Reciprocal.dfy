/** Division by a runtime divisor through multiplication: the reciprocal the GEMM kernels are given. */
module Reciprocal {
  import opened Arith
  import opened Bits

  /** The kernel's division: multiply, drop 32 bits, then shift by the size of the divisor. */
  function DivDown(src: nat, recip: nat, lg: nat): nat {
    Shr(src * recip / TWO32, lg)
  }

  /** floor(log2 x). */
  function FloorLog(x: nat): nat
    requires x > 0
  {
    BitLengthBounds(x);
    BitLength(x) - 1
  }

  predicate PowerOfTwo(x: nat)
    requires x > 0
  {
    x == Pow2(FloorLog(x))
  }

  /** `div_up_u64`: the sum and the result are truncated to their widths. */
  function DivUpU64(a: nat, b: nat): nat
    requires b > 0
  {
    (a + b - 1) % TWO64 / b % TWO32
  }

  /** `uint32_reciprocal`: with its shift it divides exactly, for every divisor that is not a power of
      two; for a power of two the 33-bit value is cut to 0. */
  method Uint32Reciprocal(x: nat) returns (recip: nat)
    requires x < TWO32
    ensures x == 0 ==> recip == 0
    ensures x > 0 && PowerOfTwo(x) ==> recip == 0
    ensures x > 0 && !PowerOfTwo(x) ==> recip < TWO32
    ensures x > 0 && !PowerOfTwo(x) ==>
      forall src: nat :: src < 0x8000_0000 ==> DivDown(src, recip, FloorLog(x)) == src / x
  {
    if x == 0 { return 0; }
    hide Pow2, DivDown;
    var lg := 0;
    BitLengthBounds(x);
    Pow2Facts(0);
    ghost var top := FloorLog(x);
    while 2 * Pow2(lg) <= x
      invariant Pow2(lg) <= x && lg <= top
      decreases top - lg
    {
      Pow2Facts(lg);
      lg := lg + 1;
      LogAtMost(x, lg);
    }
    Pow2Facts(lg);
    BitLengthOf(x, lg);
    recip := DivUpU64(TWO32 * Pow2(lg), x);
    LogBelow32(x, lg);
    if x == Pow2(lg) {
      PowerCut(x);
    } else {
      RecipIsCeiling(x, Pow2(lg));
      forall src: nat | src < 0x8000_0000
        ensures DivDown(src, recip, lg) == src / x
      {
        Exact(src, x, lg, recip);
      }
    }
  }

  lemma Pow2Facts(lg: nat)
    ensures Pow2(0) == 1 && Pow2(lg + 1) == 2 * Pow2(lg)
  {
  }

  lemma LogAtMost(x: nat, lg: nat)
    requires x > 0
    ensures Pow2(lg) <= x ==> lg <= FloorLog(x)
  {
    BitLengthBounds(x);
    if lg > FloorLog(x) { Pow2Monotone(FloorLog(x) + 1, lg); }
  }

  lemma LogBelow32(x: nat, lg: nat)
    requires x < TWO32 && Pow2(lg) <= x
    ensures lg < 32 && Pow2(lg) <= 0x8000_0000
  {
    LogAtMost(x, lg);
    BitLengthBounds(x);
    Pow2Values();
    assert FloorLog(x) < 32 by { LogUnder(FloorLog(x), x); }
    Pow2Monotone(lg, 31);
  }

  lemma LogUnder(lg: nat, x: nat)
    requires x < TWO32
    ensures Pow2(lg) <= x ==> lg < 32
  {
    Pow2Values();
    if lg >= 32 { Pow2Monotone(32, lg); }
  }

  lemma PowerCut(x: nat)
    requires 0 < x < TWO32
    ensures DivUpU64(TWO32 * x, x) == 0
  {
    DivUnique(TWO32 * x + x - 1, x, TWO32, x - 1);
  }

  /** The reciprocal is the exact ceiling of 2^32 * p / x, and fits 32 bits. */
  lemma RecipIsCeiling(x: nat, p: nat)
    requires 0 < p < x < 2 * p <= TWO32
    ensures var recip := DivUpU64(TWO32 * p, x); recip < TWO32 && TWO32 * p <= recip * x < TWO32 * p + x
  {
    var n := TWO32 * p + x - 1;
    assert n < TWO64;
    var q := n / x;
    assert n == x * q + n % x;
    CeilingFits(x, p, q);
  }

  lemma CeilingFits(x: nat, p: nat, q: nat)
    requires 0 < p < x < 2 * p <= TWO32 && x * q <= TWO32 * p + x - 1
    ensures q < TWO32
  {
    if q >= TWO32 {
      MulMonotone(x, TWO32, q);
      MulDistributes(TWO32, p, x - p);
      MulMonotone(TWO32, 1, x - p);
    }
  }

  lemma Exact(src: nat, x: nat, lg: nat, recip: nat)
    requires src < 0x8000_0000 && Pow2(lg) < x < 2 * Pow2(lg) && lg < 32
    requires TWO32 * Pow2(lg) <= recip * x < TWO32 * Pow2(lg) + x
    ensures DivDown(src, recip, lg) == src / x
  {
    hide Pow2;
    var p := Pow2(lg);
    var n := TWO32 * p;
    ShrIsDivision(src * recip / TWO32, lg);
    DivDiv(src * recip, TWO32, p);
    var (q, r, e) := (src / x, src % x, recip * x - n);
    assert src == x * q + r;
    SmallError(src, e, p);
    Quotient(src, recip, x, q, r, n, e);
  }

  lemma SmallError(src: nat, e: nat, p: nat)
    requires src < 0x8000_0000 && e < 2 * p
    ensures src * e < TWO32 * p
  {
    MulMonotone(e, src, 0x8000_0000 - 1);
    MulMonotone(0x8000_0000 - 1, e, 2 * p - 1);
  }

  /** src * recip lies between q and q + 1 times n. */
  lemma Quotient(src: nat, recip: nat, x: nat, q: nat, r: nat, n: nat, e: nat)
    requires x > 0 && n > 0 && src == x * q + r && r < x && recip * x == n + e && src * e < n
    ensures src * recip / n == q
  {
    var rest := src * recip - n * q;
    // x * rest == n * r + src * e
    MulAssociates(src, recip, x);
    MulDistributes(src, n, e);
    assert src * recip * x == src * n + src * e;
    MulDistributes(n, x * q, r);
    MulAssociates(x, q, n);
    MulAssociates(q, n, x);
    assert n * q * x == x * q * n by { MulAssociates(n, q, x); MulAssociates(x, q, n); }
    MulDistributes(x, src * recip, -(n * q));
    assert x * rest == n * r + src * e;
    MulMonotone(n, r + 1, x);
    MulDistributes(n, r, 1);
    assert 0 <= x * rest < n * x;
    RestBounds(x, rest, n);
    DivUnique(src * recip, n, q, rest);
  }

  lemma RestBounds(x: nat, rest: int, n: nat)
    requires x > 0 && 0 <= x * rest < n * x
    ensures 0 <= rest < n
  {
    if rest < 0 { MulMonotone(x, rest, -1); }
    if rest >= n { MulMonotone(x, n, rest); }
  }
}
