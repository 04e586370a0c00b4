/** Long division by a 64-bit divisor: the Quantus target limb by limb, the stratum target bit by bit. */
module WideDivision {
  import opened Arith
  import opened Bits
  import opened Numerals

  type uint64 = x: int | 0 <= x < TWO64

  lemma WordIsPow2()
    ensures TWO64 == Pow2(64) && TWO64 == 2 * Pow2(63)
  {
    Pow2Values();
    assert Pow2(64) == 2 * Pow2(63);
  }

  // ------------------------------------------------------------------------------------------
  // One limb

  /** The next bit is shifted in; the bit shifted out of the 64-bit remainder is kept in `carry`. */
  method RestoringStep(r: uint64, bit: nat, d: uint64) returns (r': uint64, q: nat)
    requires bit < 2 && r < d
    ensures q < 2 && r' < d && 2 * r + bit == q * d + r'
  {
    var carry := r / 0x8000_0000_0000_0000;
    r' := (2 * r + bit) % TWO64;
    q := 0;
    if carry > 0 || r' >= d {
      r' := (r' - d) % TWO64;
      q := 1;
    }
  }

  /** The portable branch of `u128_div_u64`: exact for every dividend whose high word is below the
      divisor, which the remainder of the step before always is. */
  method U128DivU64(hi: uint64, lo: uint64, d: uint64) returns (q: uint64, rem: uint64)
    requires hi < d
    ensures hi * TWO64 + lo == q * d + rem && rem < d
  {
    DivisionBegins(hi, lo, d);
    hide Halfway;
    rem := hi;
    var l: nat := lo;
    var quotient: nat := 0;
    ghost var rest: nat := lo;
    for i := 0 to 64
      invariant rem < d && Halfway(hi, lo, d, i, l, rest, quotient, rem)
    {
      ghost var (l0, rem0) := (l, rem);
      InWord(hi, lo, d, i, l, rest, quotient, rem);
      var bit := l / 0x8000_0000_0000_0000;
      var one;
      rem, one := RestoringStep(rem, bit, d);
      l := (2 * l) % TWO64;
      DivisionStep(hi, lo, d, i, l0, rest, quotient, rem0, rem, one);
      quotient := 2 * quotient + one;
      rest := rest - bit * Pow2(63 - i);
    }
    DivisionEnds(hi, lo, d, l, rest, quotient, rem);
    q := quotient;
  }

  /** After `i` bits of the low word: `rest` is what is left of it, `l` the rest shifted up. */
  ghost predicate Halfway(hi: nat, lo: nat, d: nat, i: nat, l: nat, rest: nat, quotient: nat, rem: nat)
    requires i <= 64
  {
    && quotient < Pow2(i)
    && l == rest * Pow2(i) && rest < Pow2(64 - i)
    && (quotient * d + rem) * Pow2(64 - i) + rest == hi * TWO64 + lo
  }

  lemma DivisionBegins(hi: uint64, lo: uint64, d: uint64)
    ensures Halfway(hi, lo, d, 0, lo, lo, 0, hi)
  {
    WordIsPow2();
  }

  lemma DivisionEnds(hi: nat, lo: nat, d: nat, l: nat, rest: nat, quotient: nat, rem: nat)
    requires Halfway(hi, lo, d, 64, l, rest, quotient, rem)
    ensures quotient < TWO64 && hi * TWO64 + lo == quotient * d + rem
  {
    WordIsPow2();
    Pow2Basics();
  }

  lemma InWord(hi: nat, lo: nat, d: nat, i: nat, l: nat, rest: nat, quotient: nat, rem: nat)
    requires i < 64 && Halfway(hi, lo, d, i, l, rest, quotient, rem)
    ensures l < TWO64 && l / 0x8000_0000_0000_0000 < 2
    ensures rest - l / 0x8000_0000_0000_0000 * Pow2(63 - i) >= 0
  {
    NextBit(l, rest, i);
  }

  lemma DivisionStep(hi: nat, lo: nat, d: nat, i: nat, l: nat, rest: nat, quotient: nat, rem0: nat, rem: nat, one: nat)
    requires i < 64 && Halfway(hi, lo, d, i, l, rest, quotient, rem0)
    requires one < 2 && 2 * rem0 + l / 0x8000_0000_0000_0000 == one * d + rem
    ensures var rest' := rest - l / 0x8000_0000_0000_0000 * Pow2(63 - i);
            rest' >= 0 && Halfway(hi, lo, d, i + 1, (2 * l) % TWO64, rest', 2 * quotient + one, rem)
  {
    hide Pow2;
    NextBit(l, rest, i);
    var (bit, half, total) := (l / 0x8000_0000_0000_0000, Pow2(63 - i), hi * TWO64 + lo);
    assert (quotient * d + rem0) * (2 * half) + rest == total;
    Shifted(quotient, d, rem0, rem, bit, one, rest, half);
    assert ((2 * quotient + one) * d + rem) * half + (rest - bit * half) == total;
  }

  lemma Pow2Basics()
    ensures Pow2(0) == 1
    ensures forall i: nat :: Pow2(i + 1) == 2 * Pow2(i)
  {
  }

  /** The top bit of the shifted low word is the next bit of the rest. */
  lemma NextBit(l: nat, rest: nat, i: nat)
    requires i < 64 && l == rest * Pow2(i) && rest < Pow2(64 - i)
    ensures l < TWO64
    ensures var (bit, half) := (l / 0x8000_0000_0000_0000, Pow2(63 - i));
            && bit < 2 && 0 <= rest - bit * half < half && Pow2(64 - i) == 2 * half
            && (2 * l) % TWO64 == (rest - bit * half) * Pow2(i + 1)
            && Pow2(i + 1) == 2 * Pow2(i)
  {
    WordIsPow2();
    Pow2Add(63 - i, i);
    assert Pow2(64 - i) == 2 * Pow2(63 - i) && Pow2(i + 1) == 2 * Pow2(i);
    TopBit(l, rest, Pow2(63 - i), Pow2(i));
  }

  lemma TopBit(l: nat, rest: nat, half: nat, p: nat)
    requires half * p == TWO64 / 2 && l == rest * p && rest < 2 * half && p > 0
    ensures l < TWO64
    ensures var bit := l / 0x8000_0000_0000_0000;
            bit < 2 && 0 <= rest - bit * half < half && (2 * l) % TWO64 == (rest - bit * half) * (2 * p)
  {
    var bit := if rest >= half then 1 else 0;
    var low := rest - bit * half;
    MulDistributes(p, low, bit * half);
    MulMonotone(p, low + 1, half);
    MulDistributes(p, low, 1);
    MulMonotone(p, 0, low);
    assert l == bit * (TWO64 / 2) + low * p;
    DivUnique(l, TWO64 / 2, bit, low * p);
    assert low * (2 * p) == 2 * (low * p) by { MulAssociates(low, 2, p); MulAssociates(2, low, p); }
    DivUnique(2 * l, TWO64, bit, 2 * (low * p));
  }

  lemma Shifted(q: nat, d: nat, r0: nat, r: nat, bit: nat, one: nat, rest: nat, half: nat)
    requires 2 * r0 + bit == one * d + r && rest >= bit * half
    ensures ((2 * q + one) * d + r) * half + (rest - bit * half) == (q * d + r0) * (2 * half) + rest
  {
    var before := q * d + r0;
    MulDistributes(d, 2 * q, one);
    MulAssociates(2, q, d);
    assert (2 * q + one) * d + r == 2 * before + bit;
    MulDistributes(half, 2 * before, bit);
    MulAssociates(before, 2, half);
  }

  // ------------------------------------------------------------------------------------------
  // The Quantus target

  lemma {:induction false} PowerOfPow2(k: nat, n: nat)
    ensures Power(Pow2(k), n) == Pow2(k * n)
  {
    if n > 0 {
      PowerOfPow2(k, n - 1);
      MulDistributes(k, n - 1, 1);
      Pow2Add(k * (n - 1), k);
    }
  }

  /** Eight bytes of the target, most significant first. */
  method StoreLimb(target: array<nat>, at: nat, limb: uint64)
    requires at + 8 <= target.Length
    modifies target
    ensures Digits(target[at..at + 8], 256) && FromBE(target[at..at + 8], 256) == limb
    ensures forall i :: 0 <= i < at || at + 8 <= i < target.Length ==> target[i] == old(target[i])
  {
    NothingStored(limb);
    hide Stored;
    assert target[at + 8..at + 8] == [];
    var q: nat := limb;
    for n := 0 to 8
      invariant Stored(limb, q, target[at + 8 - n..at + 8])
      invariant forall i :: 0 <= i < at || at + 8 <= i < target.Length ==> target[i] == old(target[i])
    {
      var b := at + 7 - n;
      ghost var tail := target[b + 1..at + 8];
      target[b] := q % 256;
      assert target[b + 1..at + 8] == tail;
      assert target[b..at + 8] == [q % 256] + tail;
      BytePut(limb, q, tail);
      q := q / 256;
    }
    LimbGone(limb, q, target[at..at + 8]);
  }

  /** The low bytes of the limb stand in `tail`, `q` is the rest of it. */
  ghost predicate Stored(limb: nat, q: nat, tail: seq<nat>) {
    Digits(tail, 256) && q * Power(256, |tail|) + FromBE(tail, 256) == limb
  }

  lemma NothingStored(limb: nat)
    ensures Stored(limb, limb, [])
  {
  }

  lemma BytePut(limb: nat, q: nat, tail: seq<nat>)
    requires Stored(limb, q, tail)
    ensures Stored(limb, q / 256, [q % 256] + tail)
  {
    var p := Power(256, |tail|);
    FromBEConcat([q % 256], tail, 256);
    assert FromBE([q % 256], 256) == q % 256;
    MulAssociates(q / 256, 256, p);
    MulDistributes(p, q / 256 * 256, q % 256);
    MulAssociates(q / 256, p, 256);
    assert Power(256, |[q % 256] + tail|) == p * 256;
  }

  lemma LimbGone(limb: nat, q: nat, bytes: seq<nat>)
    requires |bytes| == 8 && limb < TWO64 && Stored(limb, q, bytes)
    ensures Digits(bytes, 256) && FromBE(bytes, 256) == limb
  {
    PowerOfPow2(8, 8);
    Pow2Values();
    if q > 0 { MulMonotone(Power(256, 8), 1, q); }
  }

  /** `qpow_target_from_difficulty`: the floor of (2^512 - 1) / d, with 0 read as 1, in 64 bytes. */
  method QpowTargetFromDifficulty(difficulty: uint64) returns (target: array<nat>)
    ensures fresh(target) && target.Length == 64 && Digits(target[..], 256)
    ensures FromBE(target[..], 256) == (Pow2(512) - 1) / (if difficulty == 0 then 1 else difficulty)
  {
    PowerOne(TWO64);
    hide Power, FromBE, Pow2;
    var d: uint64 := if difficulty == 0 then 1 else difficulty;
    target := new nat[64](_ => 0);
    var rem: uint64 := 0;
    for w := 0 to 8
      invariant rem < d && LimbsDone(target[..8 * w], w, d, rem)
    {
      ghost var before := target[..8 * w];
      ghost var rem0 := rem;
      var q;
      q, rem := U128DivU64(rem, TWO64 - 1, d);
      StoreLimb(target, 8 * w, q);
      assert target[..8 * w] == before;
      assert target[..8 * (w + 1)] == before + target[8 * w..8 * w + 8];
      NextLimb(before, target[8 * w..8 * w + 8], w, q, d, rem0, rem);
    }
    assert target[..8 * 8] == target[..];
    WholeTarget(target[..], d, rem);
  }

  ghost predicate LimbsDone(front: seq<nat>, w: nat, d: uint64, rem: uint64) {
    Digits(front, 256) && FromBE(front, 256) * d + rem == Power(TWO64, w) - 1
  }

  lemma PowerOne(base: nat)
    ensures Power(base, 0) == 1 && FromBE([], 256) == 0
  {
  }

  lemma NextLimb(front: seq<nat>, limb: seq<nat>, w: nat, q: nat, d: uint64, rem0: uint64, rem: uint64)
    requires LimbsDone(front, w, d, rem0) && Digits(limb, 256) && |limb| == 8 && FromBE(limb, 256) == q
    requires rem0 * TWO64 + (TWO64 - 1) == q * d + rem
    ensures LimbsDone(front + limb, w + 1, d, rem)
  {
    FromBEConcat(front, limb, 256);
    LimbAppended(FromBE(front, 256), q, d, rem0, rem, Power(TWO64, w));
  }

  lemma WholeTarget(target: seq<nat>, d: uint64, rem: uint64)
    requires rem < d && LimbsDone(target, 8, d, rem)
    ensures FromBE(target, 256) == (Pow2(512) - 1) / d
  {
    PowerOfPow2(64, 8);
    WordIsPow2();
    DivUnique(Pow2(512) - 1, d, FromBE(target, 256), rem);
  }

  lemma LimbAppended(front: nat, q: nat, d: nat, rem0: nat, rem: nat, power: nat)
    requires front * d + rem0 == power - 1
    requires rem0 * TWO64 + (TWO64 - 1) == q * d + rem
    ensures (front * Power(256, 8) + q) * d + rem == power * TWO64 - 1
  {
    PowerOfPow2(8, 8);
    Pow2Values();
    assert Power(256, 8) == TWO64;
    MulDistributes(d, front * TWO64, q);
    assert front * TWO64 * d == front * d * TWO64 by { MulAssociates(front, TWO64, d); MulAssociates(front, d, TWO64); }
    MulDistributes(TWO64, front * d, rem0);
    MulDistributes(TWO64, power, -1);
  }
}
