/** The stratum target of an integral difficulty: 0xFFFF * 2^208 divided bit by bit into eight words. */
module StratumTarget {
  import opened Arith
  import opened Bits
  import opened Numerals
  import opened WideDivision

  /** The numerator's words, least significant first. */
  const NUMERATOR: seq<nat> := [0, 0, 0, 0, 0, 0, 0xFFFF0000, 0]

  function NumeratorBit(bit: nat): nat
    requires bit < 256
  {
    Shr(NUMERATOR[bit / 32], bit % 32) % 2
  }

  /** The numerator's bits from `bit` up, as a number. */
  function NumeratorFrom(bit: nat): nat
    requires bit <= 256
    decreases 256 - bit
  {
    if bit == 256 then 0 else 2 * NumeratorFrom(bit + 1) + NumeratorBit(bit)
  }

  lemma ShrZero(j: nat)
    ensures Shr(0, j) == 0
    decreases j
  {
    if j > 0 { ShrZero(j - 1); }
  }

  /** Bits 208 to 223 are set, all others clear. */
  lemma NumeratorBits(bit: nat)
    requires bit < 256
    ensures NumeratorBit(bit) == if 208 <= bit < 224 then 1 else 0
  {
    if bit / 32 != 6 {
      ShrZero(bit % 32);
    } else {
      HighHalfBits(bit % 32);
    }
  }

  lemma HighHalfBits(k: nat)
    requires k < 32
    ensures Shr(0xFFFF0000, k) % 2 == if k >= 16 then 1 else 0
  {
    ShrIsDivision(0xFFFF0000, k);
    Pow2Values();
    if k < 16 {
      Pow2Add(k, 16 - k);
      assert Pow2(16 - k) == 2 * Pow2(15 - k);
      hide Pow2, Shr;
      BelowHalf(Pow2(k), Pow2(15 - k));
    } else {
      Pow2Add(16, k - 16);
      Pow2Add(k - 16, 32 - k);
      assert Pow2(32 - k) == 2 * Pow2(31 - k);
      hide Pow2, Shr;
      AboveHalf(Pow2(k - 16), Pow2(31 - k));
    }
  }

  lemma BelowHalf(p: nat, r: nat)
    requires p * (2 * r) == 0x1_0000 && p > 0
    ensures 0xFFFF0000 / p % 2 == 0
  {
    MulAssociates(p, 2 * r, 0xFFFF);
    DivUnique(0xFFFF0000, p, 2 * r * 0xFFFF, 0);
  }

  lemma AboveHalf(a: nat, r: nat)
    requires a * (2 * r) == 0x1_0000 && a > 0
    ensures 0xFFFF0000 / (0x1_0000 * a) % 2 == 1
  {
    var b := 2 * r;
    MulMonotone(a, 1, b);
    MulDistributes(0x1_0000 * a, b, -1);
    MulAssociates(0x1_0000, a, b);
    DivUnique(0xFFFF0000, 0x1_0000 * a, b - 1, 0x1_0000 * a - 0x1_0000);
  }

  /** From bit 0 up it is the whole numerator. */
  lemma {:induction false} NumeratorValue(bit: nat)
    requires bit <= 256
    ensures bit >= 224 ==> NumeratorFrom(bit) == 0
    ensures 208 <= bit < 224 ==> NumeratorFrom(bit) == Pow2(224 - bit) - 1
    ensures bit < 208 ==> NumeratorFrom(bit) == 0xFFFF * Pow2(208 - bit)
    decreases 256 - bit
  {
    hide Pow2, NumeratorBit;
    Doubles(224, bit);
    Doubles(208, bit);
    if bit < 256 {
      NumeratorValue(bit + 1);
      NumeratorBits(bit);
    }
  }

  lemma Doubles(top: nat, bit: nat)
    ensures bit < top ==> Pow2(top - bit) == 2 * Pow2(top - (bit + 1))
    ensures Pow2(0) == 1 && Pow2(16) == 0x1_0000
  {
    Pow2Values();
  }

  /** The quotient bits found so far stand in the words; nothing stands below `bit`. */
  ghost predicate BitsDone(tgt: seq<nat>, bit: nat, q: nat) {
    && |tgt| == 8 && bit <= 256
    && (forall w: nat :: w < 8 ==> WordDone(tgt, w, bit))
    && FromLE(tgt, TWO32) == q * Pow2(bit)
  }

  function LowBits(w: nat, bit: nat): nat {
    if bit <= 32 * w then 0 else if bit >= 32 * w + 32 then 32 else bit - 32 * w
  }

  /** A word is a multiple of the place of its lowest bit reached. */
  ghost predicate WordDone(tgt: seq<nat>, w: nat, bit: nat)
    requires w < |tgt|
  {
    exists m: nat :: m < Pow2(32 - LowBits(w, bit)) && tgt[w] == m * Pow2(LowBits(w, bit))
  }

  /** `word |= 1 << k`. */
  function SetBit(word: nat, k: nat): nat {
    if Shr(word, k) % 2 == 1 then word else word + Pow2(k)
  }

  /** `cp_pool_target_from_difficulty` for an integral difficulty in 1..2^64-1: every bit of the
      quotient is the true one, through the steps in which the remainder's top bit is shifted out. */
  method PoolTargetFromDifficulty(div: uint64) returns (tgt: array<nat>)
    requires div > 0
    ensures fresh(tgt) && tgt.Length == 8 && Digits(tgt[..], TWO32)
    ensures FromLE(tgt[..], TWO32) == 0xFFFF * Pow2(208) / div
  {
    hide BitsDone, NumeratorFrom, NumeratorBit, FromLE, Digits, Pow2, SetBit;
    tgt := new nat[8](_ => 0);
    var rem: uint64 := 0;
    ghost var q: nat := 0;
    NoBits(tgt[..]);
    NumeratorValue(0);
    NumeratorValue(256);
    for bit := 256 downto 0
      invariant rem < div && NumeratorFrom(bit) == q * div + rem
      invariant BitsDone(tgt[..], bit, q)
    {
      ghost var (before, rem0, q0) := (tgt[..], rem, q);
      var one;
      BitBelow2(bit);
      rem, one := RestoringStep(rem, NumeratorBit(bit), div);
      StoreBit(tgt, bit, one);
      q := 2 * q + one;
      BitAdded(before, bit, q0, one);
      QuotientGrows(q0, one, div, rem0, rem, NumeratorBit(bit));
    }
    TargetDone(tgt[..], q, div, rem);
  }

  method StoreBit(tgt: array<nat>, bit: nat, one: nat)
    requires bit / 32 < tgt.Length
    modifies tgt
    ensures tgt[..] ==
      if one == 1 then old(tgt[..])[bit / 32 := SetBit(old(tgt[..])[bit / 32], bit % 32)] else old(tgt[..])
  {
    hide SetBit;
    if one == 1 {
      tgt[bit / 32] := SetBit(tgt[bit / 32], bit % 32);
    }
  }

  lemma BitBelow2(bit: nat)
    requires bit < 256
    ensures NumeratorBit(bit) < 2 && NumeratorFrom(bit) == 2 * NumeratorFrom(bit + 1) + NumeratorBit(bit)
  {
  }

  lemma QuotientGrows(q: nat, one: nat, d: nat, r0: nat, r: nat, bit: nat)
    requires 2 * r0 + bit == one * d + r
    ensures 2 * (q * d + r0) + bit == (2 * q + one) * d + r
  {
    MulDistributes(d, 2 * q, one);
    MulAssociates(2, q, d);
  }

  lemma NoBits(tgt: seq<nat>)
    requires |tgt| == 8 && forall i :: 0 <= i < 8 ==> tgt[i] == 0
    ensures BitsDone(tgt, 256, 0)
  {
    ZeroNumber(tgt);
    forall w: nat | w < 8
      ensures WordDone(tgt, w, 256)
    {
      assert LowBits(w, 256) == 32 && Pow2(0) == 1;
      assert 0 < Pow2(32 - LowBits(w, 256)) && tgt[w] == 0 * Pow2(LowBits(w, 256));
    }
  }

  lemma {:induction false} ZeroNumber(s: seq<nat>)
    requires forall i :: 0 <= i < |s| ==> s[i] == 0
    ensures FromLE(s, TWO32) == 0
    decreases |s|
  {
    if s != [] { ZeroNumber(s[1..]); }
  }

  /** A word without low bits up to `k` included: bit `k` is clear, and setting it adds its place. */
  lemma SetClearBit(word: nat, m: nat, k: nat)
    requires k < 32 && word == m * Pow2(k + 1) && m < Pow2(31 - k)
    ensures SetBit(word, k) == word + Pow2(k) == (2 * m + 1) * Pow2(k)
    ensures word == (2 * m) * Pow2(k) && 2 * m + 1 < Pow2(32 - k)
  {
    var p := Pow2(k);
    assert Pow2(k + 1) == 2 * p && Pow2(32 - k) == 2 * Pow2(31 - k);
    assert word == (2 * m) * p by { MulAssociates(m, 2, p); MulAssociates(2, m, p); }
    MulDistributes(p, 2 * m, 1);
    ShrIsDivision(word, k);
    DivUnique(word, p, 2 * m, 0);
  }

  lemma WordsDone(tgt: seq<nat>, tgt': seq<nat>, bit: nat, above: nat, one: nat, m: nat)
    requires bit < 256 && above == bit + 1 && one < 2 && |tgt| == |tgt'| == 8
    requires forall v: nat :: v < 8 ==> WordDone(tgt, v, above)
    requires forall v: nat :: v < 8 && v != bit / 32 ==> tgt'[v] == tgt[v]
    requires 2 * m + one < Pow2(32 - bit % 32) && tgt'[bit / 32] == (2 * m + one) * Pow2(bit % 32)
    ensures forall v: nat :: v < 8 ==> WordDone(tgt', v, bit)
  {
    hide Pow2;
    forall v: nat | v < 8
      ensures WordDone(tgt', v, bit)
    {
      assert WordDone(tgt, v, bit + 1);
      if v == bit / 32 {
        assert LowBits(v, bit) == bit % 32;
      } else {
        assert LowBits(v, bit) == LowBits(v, bit + 1);
      }
    }
  }

  lemma BitAdded(tgt: seq<nat>, bit: nat, q: nat, one: nat)
    requires bit < 256 && one < 2 && BitsDone(tgt, bit + 1, q)
    ensures var (w, k) := (bit / 32, bit % 32);
            BitsDone(if one == 1 then tgt[w := SetBit(tgt[w], k)] else tgt, bit, 2 * q + one)
  {
    var (w, k) := (bit / 32, bit % 32);
    var tgt' := if one == 1 then tgt[w := SetBit(tgt[w], k)] else tgt;
    assert WordDone(tgt, w, bit + 1) && LowBits(w, bit + 1) == k + 1;
    var m: nat :| m < Pow2(31 - k) && tgt[w] == m * Pow2(k + 1);
    SetClearBit(tgt[w], m, k);
    assert Pow2(32 - k) == 2 * Pow2(31 - k);
    WordsDone(tgt, tgt', bit, bit + 1, one, m);
    ValueAdded(tgt, tgt', w, k, q, one);
  }

  lemma ValueAdded(tgt: seq<nat>, tgt': seq<nat>, w: nat, k: nat, q: nat, one: nat)
    requires w < |tgt| && one < 2 && tgt' == if one == 1 then tgt[w := tgt[w] + Pow2(k)] else tgt
    requires FromLE(tgt, TWO32) == q * Pow2(32 * w + k + 1)
    ensures FromLE(tgt', TWO32) == (2 * q + one) * Pow2(32 * w + k)
  {
    hide FromLE;
    FromLEUpdate(tgt, w, Pow2(k), TWO32);
    Pow2Values();
    PowerOfPow2(32, w);
    Pow2Add(k, 32 * w);
    var place := Pow2(32 * w + k);
    assert Pow2(32 * w + k + 1) == 2 * place;
    hide Pow2, Power;
    MulDistributes(place, 2 * q, one);
    MulAssociates(q, 2, place);
  }

  lemma TargetDone(tgt: seq<nat>, q: nat, d: nat, rem: nat)
    requires BitsDone(tgt, 0, q) && rem < d && 0xFFFF * Pow2(208) == q * d + rem
    ensures Digits(tgt, TWO32) && FromLE(tgt, TWO32) == 0xFFFF * Pow2(208) / d
  {
    hide Pow2;
    Pow2Values();
    Doubles(208, 0);
    forall i | 0 <= i < 8
      ensures tgt[i] < TWO32
    {
      assert WordDone(tgt, i, 0) && LowBits(i, 0) == 0;
    }
    DivUnique(0xFFFF * Pow2(208), d, q, rem);
  }
}
