/** The target of a job: as hexadecimal text, as little-endian words, scaled, and compared with. */
module JackpotTarget {
  import opened Arith
  import opened Bits
  import opened Numerals
  import opened WideDivision

  const MAX_WORD: nat := 0xFFFF_FFFF

  /** The largest number in eight words. */
  function MaxTarget(): nat { Power(TWO32, 8) - 1 }

  // ------------------------------------------------------------------------------------------
  // Scaling

  /** What the first `n` words hold: the low part of the product. */
  ghost predicate Multiplied(was: seq<nat>, now: seq<nat>, factor: nat, n: nat, carry: nat) {
    && n <= |was| == |now|
    && Digits(now, TWO32) && now[n..] == was[n..]
    && FromLE(now[..n], TWO32) + carry * Power(TWO32, n) == FromLE(was[..n], TWO32) * factor
  }

  lemma NothingMultiplied(was: seq<nat>, factor: nat)
    requires Digits(was, TWO32)
    ensures Multiplied(was, was, factor, 0, 0)
  {
  }

  lemma WordMultiplied(was: seq<nat>, now: seq<nat>, factor: nat, n: nat, carry: nat, p: nat)
    requires n < |was| && Multiplied(was, now, factor, n, carry) && p == was[n] * factor + carry
    ensures Multiplied(was, now[n := p % TWO32], factor, n + 1, p / TWO32)
  {
    var now' := now[n := p % TWO32];
    assert now'[..n + 1] == now[..n] + [p % TWO32] && was[..n + 1] == was[..n] + [was[n]];
    assert now'[n + 1..] == now[n..][1..] && was[n + 1..] == was[n..][1..];
    FromLESnoc(now[..n], p % TWO32, TWO32);
    FromLESnoc(was[..n], was[n], TWO32);
    var place := Power(TWO32, n);
    MulDistributes(factor, FromLE(was[..n], TWO32), was[n] * place);
    MulAssociates(was[n], place, factor);
    MulAssociates(was[n], factor, place);
    MulDistributes(place, was[n] * factor, carry);
    MulDistributes(place, p / TWO32 * TWO32, p % TWO32);
    MulAssociates(p / TWO32, TWO32, place);
    assert place * TWO32 == Power(TWO32, n + 1);
  }

  /** `cp_scale_target_le`: the product, saturated at the largest target. The 64-bit product cannot wrap
      for factors up to 2^32; a factor of 0 changes nothing, like 1. */
  method ScaleTarget(tgt: array<nat>, factor: uint64)
    requires tgt.Length == 8 && Digits(tgt[..], TWO32)
    modifies tgt
    ensures Digits(tgt[..], TWO32)
    ensures factor <= 1 ==> tgt[..] == old(tgt[..])
    ensures 1 < factor <= TWO32 ==>
              FromLE(tgt[..], TWO32) == Min(FromLE(old(tgt[..]), TWO32) * factor, MaxTarget())
  {
    if factor <= 1 { return; }
    hide FromLE, Power, MaxTarget;
    ghost var was := tgt[..];
    var carry: nat := 0;
    NothingMultiplied(was, factor);
    for i := 0 to 8
      invariant Digits(tgt[..], TWO32) && carry < TWO32
      invariant factor <= TWO32 ==> Multiplied(was, tgt[..], factor, i, carry)
    {
      ghost var before := tgt[..];
      ghost var carry0 := carry;
      var p := (tgt[i] * factor + carry) % TWO64;
      ProductFits(tgt[i], factor, carry);
      tgt[i] := p % TWO32;
      carry := p / TWO32;
      if factor <= TWO32 {
        assert before[i] == before[i..][0] == was[i..][0];
        WordMultiplied(was, before, factor, i, carry0, p);
      }
    }
    if factor <= TWO32 { ScaledValue(was, tgt[..], factor, carry); }
    if carry != 0 {
      forall i | 0 <= i < 8 { tgt[i] := MAX_WORD; }
      LargestTarget(tgt[..]);
    }
  }

  lemma ProductFits(word: nat, factor: nat, carry: nat)
    requires word < TWO32 && carry < TWO32
    ensures factor <= TWO32 ==> (word * factor + carry) % TWO64 == word * factor + carry
    ensures (word * factor + carry) % TWO64 / TWO32 < TWO32
  {
    if factor <= TWO32 {
      MulMonotone(word, factor, TWO32);
    }
    HighHalf(word * factor + carry);
  }

  lemma HighHalf(p: nat)
    ensures p % TWO64 / TWO32 < TWO32
  {
  }

  lemma ScaledValue(was: seq<nat>, now: seq<nat>, factor: nat, carry: nat)
    requires |was| == 8 && Multiplied(was, now, factor, 8, carry)
    ensures carry == 0 ==> FromLE(now, TWO32) == FromLE(was, TWO32) * factor <= MaxTarget()
    ensures carry > 0 ==> FromLE(was, TWO32) * factor > MaxTarget()
  {
    assert now[..8] == now && was[..8] == was;
    FromLEBound(now, TWO32);
    if carry > 0 { MulMonotone(Power(TWO32, 8), 1, carry); }
  }

  lemma LargestTarget(tgt: seq<nat>)
    requires |tgt| == 8 && forall i :: 0 <= i < 8 ==> tgt[i] == MAX_WORD
    ensures Digits(tgt, TWO32) && FromLE(tgt, TWO32) == MaxTarget()
  {
    AllOnes(tgt);
  }

  lemma {:induction false} AllOnes(s: seq<nat>)
    requires forall i :: 0 <= i < |s| ==> s[i] == MAX_WORD
    ensures FromLE(s, TWO32) == Power(TWO32, |s|) - 1
    decreases |s|
  {
    if s != [] {
      AllOnes(s[1..]);
      MulDistributes(TWO32, Power(TWO32, |s| - 1), -1);
    }
  }

  // ------------------------------------------------------------------------------------------
  // Comparing

  /** `digest_beats_target`: the digest as a number does not exceed the bound. */
  method DigestBeatsTarget(digest: seq<nat>, bound: seq<nat>) returns (beats: bool)
    requires |digest| == |bound| == 8 && Digits(digest, TWO32) && Digits(bound, TWO32)
    ensures beats <==> FromLE(digest, TWO32) <= FromLE(bound, TWO32)
  {
    hide FromLE;
    var w := 8;
    while w > 0
      invariant 0 <= w <= 8 && digest[w..] == bound[w..]
    {
      w := w - 1;
      assert digest[w..] == [digest[w]] + digest[w + 1..] && bound[w..] == [bound[w]] + bound[w + 1..];
      if digest[w] < bound[w] {
        FromLEOrder(digest, bound, w, TWO32);
        return true;
      }
      if digest[w] > bound[w] {
        FromLEOrder(bound, digest, w, TWO32);
        return false;
      }
    }
    assert digest == digest[0..] == bound[0..] == bound;
    beats := true;
  }

  /** A tile's digest is accepted exactly when it is at most the pool target times the scale factor. */
  method AcceptsDigest(digest: seq<nat>, poolTarget: seq<nat>, factor: uint64) returns (accepted: bool)
    requires |digest| == |poolTarget| == 8 && Digits(digest, TWO32) && Digits(poolTarget, TWO32)
    requires 1 <= factor <= TWO32
    ensures accepted <==> FromLE(digest, TWO32) <= Min(FromLE(poolTarget, TWO32) * factor, MaxTarget())
    ensures accepted <==> FromLE(digest, TWO32) <= FromLE(poolTarget, TWO32) * factor
  {
    hide FromLE;
    var bound := new nat[8](i requires 0 <= i < 8 => poolTarget[i]);
    assert bound[..] == poolTarget;
    ScaleTarget(bound, factor);
    BelowLargest(digest);
    BelowLargest(poolTarget);
    accepted := DigestBeatsTarget(digest, bound[..]);
  }

  lemma BelowLargest(s: seq<nat>)
    requires |s| == 8 && Digits(s, TWO32)
    ensures FromLE(s, TWO32) <= MaxTarget()
  {
    FromLEBound(s, TWO32);
  }
}
