/** Powers of two, and the set-bit count that drives the lazy chaining-value stack. */
module Bits {
  import opened Arith

  const TWO32: nat := 0x1_0000_0000
  const TWO64: nat := 0x1_0000_0000_0000_0000

  function Pow2(e: nat): (p: nat)
    ensures p > 0
  {
    if e == 0 then 1 else 2 * Pow2(e - 1)
  }

  /** `pearl_popcnt64`: the number of one bits of n. */
  function PopCount(n: nat): nat
  {
    if n == 0 then 0 else PopCount(n / 2) + n % 2
  }

  lemma {:induction false} Pow2Add(a: nat, b: nat)
    ensures Pow2(a + b) == Pow2(a) * Pow2(b)
  {
    if a == 0 {
    } else {
      Pow2Add(a - 1, b);
      assert Pow2(a + b) == 2 * (Pow2(a - 1) * Pow2(b));
    }
  }

  lemma Pow2Values()
    ensures Pow2(8) == 0x100 && Pow2(16) == 0x1_0000 && Pow2(31) == 0x8000_0000
    ensures Pow2(32) == 0x1_0000_0000 && Pow2(64) == 0x1_0000_0000_0000_0000
  {
    assert Pow2(4) == 16;
    Pow2Add(4, 4);
    Pow2Add(8, 8);
    Pow2Add(16, 16);
    Pow2Add(32, 32);
    assert Pow2(32) == 2 * Pow2(31);
  }

  lemma {:induction false} Pow2Monotone(a: nat, b: nat)
    requires a <= b
    ensures Pow2(a) <= Pow2(b)
    decreases b
  {
    if a < b { Pow2Monotone(a, b - 1); }
  }

  /** A number below 2^e has at most e set bits. */
  lemma {:induction false} PopCountBound(n: nat, e: nat)
    requires n < Pow2(e)
    ensures PopCount(n) <= e
  {
    if e > 0 { PopCountBound(n / 2, e - 1); }
  }

  lemma {:induction false} PopCountPositive(n: nat)
    requires n > 0
    ensures PopCount(n) > 0
  {
    if n / 2 > 0 { PopCountPositive(n / 2); }
  }

  /** The number of binary digits of n. */
  function BitLength(n: nat): nat
  {
    if n == 0 then 0 else BitLength(n / 2) + 1
  }

  lemma {:induction false} BitLengthBounds(n: nat)
    requires n > 0
    ensures BitLength(n) >= 1 && Pow2(BitLength(n) - 1) <= n < Pow2(BitLength(n))
  {
    if n > 1 { BitLengthBounds(n / 2); }
  }

  lemma {:induction false} BitLengthOf(n: nat, top: nat)
    requires Pow2(top) <= n < Pow2(top + 1)
    ensures BitLength(n) == top + 1
  {
    if top > 0 { BitLengthOf(n / 2, top - 1); }
  }

  /** A right shift by j places. */
  function Shr(n: nat, j: nat): (r: nat)
  {
    if j == 0 then n else Shr(n, j - 1) / 2
  }

  lemma {:induction false} ShrIsDivision(n: nat, j: nat)
    ensures Shr(n, j) == n / Pow2(j)
  {
    if j > 0 {
      ShrIsDivision(n, j - 1);
      DivDiv(n, Pow2(j - 1), 2);
    }
  }

  lemma {:induction false} ShrBound(n: nat, j: nat, e: nat)
    requires n < Pow2(e) && j <= e
    ensures Shr(n, j) < Pow2(e - j)
  {
    if j > 0 { ShrBound(n, j - 1, e); }
  }

  /** Shifting back a value that ends in j zero bits. */
  lemma ShrShl(q: nat, j: nat)
    ensures Shr(q * Pow2(j), j) == q
  {
    ShrIsDivision(q * Pow2(j), j);
    DivUnique(q * Pow2(j), Pow2(j), q, 0);
  }

  /** Bitwise and. */
  function And(x: nat, y: nat): nat {
    if x == 0 || y == 0 then 0 else 2 * And(x / 2, y / 2) + (x % 2) * (y % 2)
  }

  /** Bitwise exclusive or. */
  function Xor(x: nat, y: nat): nat {
    if x == 0 then y else if y == 0 then x else 2 * Xor(x / 2, y / 2) + (x % 2 + y % 2) % 2
  }

  /** Masking with a power of two less one keeps the remainder. */
  lemma {:induction false} AndMask(w: nat, b: nat)
    ensures And(w, Pow2(b) - 1) == w % Pow2(b)
  {
    if b > 0 {
      var p := Pow2(b - 1);
      AndMask(w / 2, b - 1);
      ModByTwo(w, p);
      assert (2 * p - 1) / 2 == p - 1 && (2 * p - 1) % 2 == 1;
    }
  }

  lemma ModByTwo(w: nat, p: nat)
    requires p > 0
    ensures w % (2 * p) == 2 * (w / 2 % p) + w % 2
  {
    assert w / 2 == p * (w / 2 / p) + w / 2 % p;
    MulAssociates(2, p, w / 2 / p);
    DivUnique(w, 2 * p, w / 2 / p, 2 * (w / 2 % p) + w % 2);
  }

  lemma {:induction false} XorBound(x: nat, y: nat, b: nat)
    requires x < Pow2(b) && y < Pow2(b)
    ensures Xor(x, y) < Pow2(b)
  {
    if b > 0 && x > 0 && y > 0 { XorBound(x / 2, y / 2, b - 1); }
  }

  lemma {:induction false} XorChanges(x: nat, y: nat)
    requires y > 0
    ensures Xor(x, y) != x
  {
    if x > 0 && y / 2 > 0 { XorChanges(x / 2, y / 2); }
  }

  lemma {:induction false} AndSelf(x: nat)
    ensures And(x, x) == x
  {
    if x > 0 {
      AndSelf(x / 2);
      var d := x % 2;
      assert d * d == d by { if d == 1 { assert d * d == 1; } else { assert d == 0; } }
      assert And(x, x) == 2 * And(x / 2, x / 2) + d * d;
    }
  }

  /** The usual test for a power of two. */
  lemma {:induction false} AndWithPredecessor(x: nat)
    requires x > 0
    ensures And(x, x - 1) == 0 <==> exists b: nat :: x == Pow2(b)
  {
    if x == 1 {
      assert x == Pow2(0);
    } else if x % 2 == 1 {
      AndSelf(x / 2);
      assert (x - 1) / 2 == x / 2 && And(x, x - 1) == 2 * And(x / 2, x / 2);
      OnlyEvenPowers(x);
    } else {
      AndWithPredecessor(x / 2);
      assert (x - 1) / 2 == x / 2 - 1 && And(x, x - 1) == 2 * And(x / 2, x / 2 - 1);
      hide And;
      HalfOfPower(x);
    }
  }

  lemma OnlyEvenPowers(x: nat)
    requires x > 1 && x % 2 == 1
    ensures forall b: nat :: x != Pow2(b)
  {
    forall b: nat ensures x != Pow2(b) {
      if b > 0 { assert Pow2(b) == 2 * Pow2(b - 1); }
    }
  }

  lemma HalfOfPower(x: nat)
    requires x > 1 && x % 2 == 0
    ensures (exists b: nat :: x == Pow2(b)) <==> exists b: nat :: x / 2 == Pow2(b)
  {
    if b: nat :| x == Pow2(b) {
      assert b > 0 && x / 2 == Pow2(b - 1);
    }
    if b: nat :| x / 2 == Pow2(b) {
      assert x == Pow2(b + 1);
    }
  }

  // ------------------------------------------------------------------------------------------
  // Machine words

  type uint32 = x: nat | x < TWO32

  lemma {:induction false} XorDigits(x: nat, y: nat)
    ensures Xor(x, y) / 2 == Xor(x / 2, y / 2) && Xor(x, y) % 2 == (x % 2 + y % 2) % 2
  {}

  lemma {:induction false} XorAssociates(x: nat, y: nat, z: nat)
    ensures Xor(x, Xor(y, z)) == Xor(Xor(x, y), z)
    decreases x + y + z
  {
    if x > 0 && y > 0 && z > 0 {
      XorAssociates(x / 2, y / 2, z / 2);
      XorDigits(y, z);
      XorDigits(x, y);
      XorDigits(x, Xor(y, z));
      XorDigits(Xor(x, y), z);
      hide Xor;
      ParitiesAdd(x % 2, y % 2, z % 2);
      SameHalves(Xor(x, Xor(y, z)), Xor(Xor(x, y), z));
    }
  }

  lemma ParitiesAdd(x: nat, y: nat, z: nat)
    requires x < 2 && y < 2 && z < 2
    ensures (x + (y + z) % 2) % 2 == ((x + y) % 2 + z) % 2
  {}

  lemma SameHalves(x: nat, y: nat)
    requires x / 2 == y / 2 && x % 2 == y % 2
    ensures x == y
  {}

  lemma {:induction false} XorCommutes(x: nat, y: nat)
    ensures Xor(x, y) == Xor(y, x)
  {
    if x > 0 && y > 0 { XorCommutes(x / 2, y / 2); }
  }

  lemma {:induction false} XorSelf(x: nat)
    ensures Xor(x, x) == 0
  {
    if x > 0 { XorSelf(x / 2); }
  }

  lemma XorZero(x: nat)
    ensures Xor(x, 0) == x && Xor(0, x) == x
  {}

  /** Exclusive or with the same number tells different numbers apart. */
  lemma XorCancels(r: nat, x: nat, y: nat)
    ensures Xor(r, x) == Xor(r, y) <==> x == y
  {
    hide Xor;
    XorAssociates(r, r, x);
    XorAssociates(r, r, y);
    XorSelf(r);
    XorZero(x);
    XorZero(y);
  }

  lemma XorFits(x: uint32, y: uint32)
    ensures Xor(x, y) < TWO32
  {
    Pow2Values();
    hide Xor;
    XorBound(x, y, 32);
  }

  function Xor32(x: uint32, y: uint32): uint32 {
    XorFits(x, y);
    Xor(x, y)
  }
}
