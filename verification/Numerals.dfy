/** Numbers as digit sequences, most or least significant digit first. */
module Numerals {
  import opened Arith

  function Power(base: nat, n: nat): nat {
    if n == 0 then 1 else Power(base, n - 1) * base
  }

  function FromBE(s: seq<nat>, base: nat): nat {
    if s == [] then 0 else FromBE(s[..|s| - 1], base) * base + s[|s| - 1]
  }

  function FromLE(s: seq<nat>, base: nat): nat {
    if s == [] then 0 else s[0] + base * FromLE(s[1..], base)
  }

  predicate Digits(s: seq<nat>, base: nat) {
    forall i :: 0 <= i < |s| ==> s[i] < base
  }

  lemma {:induction false} PowerAdd(base: nat, m: nat, n: nat)
    ensures Power(base, m + n) == Power(base, m) * Power(base, n)
  {
    if n > 0 {
      PowerAdd(base, m, n - 1);
      MulAssociates(Power(base, m), Power(base, n - 1), base);
    }
  }

  lemma {:induction false} PowerPositive(base: nat, n: nat)
    requires base > 0
    ensures Power(base, n) > 0
  {
    if n > 0 {
      PowerPositive(base, n - 1);
      MulMonotone(base, 1, Power(base, n - 1));
    }
  }

  lemma {:induction false} FromBEConcat(a: seq<nat>, b: seq<nat>, base: nat)
    ensures FromBE(a + b, base) == FromBE(a, base) * Power(base, |b|) + FromBE(b, base)
  {
    if b == [] {
      assert a + b == a;
    } else {
      var n := |b| - 1;
      assert (a + b)[..|a + b| - 1] == a + b[..n];
      FromBEConcat(a, b[..n], base);
      MulDistributes(base, FromBE(a, base) * Power(base, n), FromBE(b[..n], base));
      MulAssociates(FromBE(a, base), Power(base, n), base);
    }
  }

  lemma {:induction false} FromBEBound(s: seq<nat>, base: nat)
    requires Digits(s, base)
    ensures FromBE(s, base) < Power(base, |s|)
  {
    if s != [] {
      var front := s[..|s| - 1];
      FromBEBound(front, base);
      MulMonotone(base, FromBE(front, base) + 1, Power(base, |front|));
      MulDistributes(base, FromBE(front, base), 1);
    }
  }

  /** Reversing the digits exchanges the two readings. */
  lemma {:induction false} FromLEIsReversedBE(s: seq<nat>, r: seq<nat>, base: nat)
    requires |r| == |s| && forall i :: 0 <= i < |s| ==> r[i] == s[|s| - 1 - i]
    ensures FromLE(s, base) == FromBE(r, base)
    decreases |s|
  {
    if s != [] {
      FromLEIsReversedBE(s[1..], r[..|r| - 1], base);
    }
  }

  lemma {:induction false} FromLEBound(s: seq<nat>, base: nat)
    requires Digits(s, base)
    ensures FromLE(s, base) < Power(base, |s|)
  {
    if s != [] {
      FromLEBound(s[1..], base);
      MulMonotone(base, FromLE(s[1..], base) + 1, Power(base, |s| - 1));
      MulDistributes(base, FromLE(s[1..], base), 1);
    }
  }

  lemma {:induction false} FromLESnoc(s: seq<nat>, x: nat, base: nat)
    ensures FromLE(s + [x], base) == FromLE(s, base) + x * Power(base, |s|)
    decreases |s|
  {
    if s == [] {
      assert [x][1..] == [];
    } else {
      assert (s + [x])[1..] == s[1..] + [x];
      FromLESnoc(s[1..], x, base);
      MulDistributes(base, FromLE(s[1..], base), x * Power(base, |s| - 1));
      MulAssociates(x, Power(base, |s| - 1), base);
    }
  }

  /** Raising one digit raises the number by as much, scaled by the digit's place. */
  lemma {:induction false} FromLEUpdate(s: seq<nat>, i: nat, x: nat, base: nat)
    requires i < |s|
    ensures FromLE(s[i := s[i] + x], base) == FromLE(s, base) + x * Power(base, i)
    decreases |s|
  {
    var s' := s[i := s[i] + x];
    if i == 0 {
      assert s'[1..] == s[1..];
    } else {
      assert s'[1..] == s[1..][i - 1 := s[1..][i - 1] + x];
      FromLEUpdate(s[1..], i - 1, x, base);
      MulDistributes(base, FromLE(s[1..], base), x * Power(base, i - 1));
      MulAssociates(x, Power(base, i - 1), base);
    }
  }

  /** Digits of a number are unique. */
  lemma {:induction false} FromLEInjective(a: seq<nat>, b: seq<nat>, base: nat)
    requires |a| == |b| && Digits(a, base) && Digits(b, base) && FromLE(a, base) == FromLE(b, base)
    ensures a == b
    decreases |a|
  {
    if a != [] {
      DivUnique(FromLE(a, base), base, FromLE(a[1..], base), a[0]);
      DivUnique(FromLE(b, base), base, FromLE(b[1..], base), b[0]);
      FromLEInjective(a[1..], b[1..], base);
      assert a == [a[0]] + a[1..] && b == [b[0]] + b[1..];
    }
  }

  /** The highest digit that differs decides the order. */
  lemma {:induction false} FromLEOrder(a: seq<nat>, b: seq<nat>, i: nat, base: nat)
    requires |a| == |b| && i < |a| && Digits(a, base) && Digits(b, base)
    requires a[i + 1..] == b[i + 1..] && a[i] < b[i]
    ensures FromLE(a, base) < FromLE(b, base)
    decreases |a|
  {
    if i == 0 {
      assert a[1..] == b[1..];
    } else {
      assert a[1..][i..] == a[i + 1..] && b[1..][i..] == b[i + 1..];
      FromLEOrder(a[1..], b[1..], i - 1, base);
      MulMonotone(base, FromLE(a[1..], base) + 1, FromLE(b[1..], base));
      MulDistributes(base, FromLE(a[1..], base), 1);
    }
  }

  lemma {:induction false} FromBEInjective(a: seq<nat>, b: seq<nat>, base: nat)
    requires |a| == |b| && Digits(a, base) && Digits(b, base) && FromBE(a, base) == FromBE(b, base)
    ensures a == b
  {
    if a != [] {
      var n := |a| - 1;
      DivUnique(FromBE(a, base), base, FromBE(a[..n], base), a[n]);
      DivUnique(FromBE(b, base), base, FromBE(b[..n], base), b[n]);
      FromBEInjective(a[..n], b[..n], base);
      assert a == a[..n] + [a[n]] && b == b[..n] + [b[n]];
    }
  }
}
