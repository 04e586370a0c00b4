/** Numbers written with two digits, the upper one unbounded: the shape of every blocked index. */
module MixedRadix {
  import opened Arith

  function Join(hi: nat, lo: nat, n: nat): nat {
    hi * n + lo
  }

  function Hi(x: nat, n: nat): nat
    requires n > 0
  {
    DivNonNegative(x, n);
    x / n
  }

  function Lo(x: nat, n: nat): nat
    requires n > 0
  {
    x % n
  }

  lemma DivNonNegative(x: nat, n: nat)
    requires n > 0
    ensures x / n >= 0
  {
  }

  lemma JoinSplit(hi: nat, lo: nat, n: nat)
    requires lo < n
    ensures Hi(Join(hi, lo, n), n) == hi && Lo(Join(hi, lo, n), n) == lo
  {
    assert Join(hi, lo, n) == n * hi + lo;
    DivUnique(Join(hi, lo, n), n, hi, lo);
  }

  lemma JoinInjective(hi: nat, lo: nat, hi': nat, lo': nat, n: nat)
    requires lo < n && lo' < n && Join(hi, lo, n) == Join(hi', lo', n)
    ensures hi == hi' && lo == lo'
  {
    JoinSplit(hi, lo, n);
    JoinSplit(hi', lo', n);
  }

  lemma JoinBound(hi: nat, lo: nat, m: nat, n: nat)
    requires hi < m && lo < n
    ensures Join(hi, lo, n) < m * n
  {
    assert m * n == (m - 1 - hi) * n + hi * n + n;
    assert (m - 1 - hi) * n >= 0;
  }

  /** The upper digit decides the order. */
  lemma JoinOrder(hi: nat, lo: nat, hi': nat, lo': nat, n: nat)
    requires lo < n && lo' < n && hi < hi'
    ensures Join(hi, lo, n) < Join(hi', lo', n)
  {
    assert hi' * n == (hi' - 1 - hi) * n + hi * n + n;
    assert (hi' - 1 - hi) * n >= 0;
  }

  lemma JoinNext(hi: nat, n: nat)
    ensures Join(hi, n, n) == Join(hi + 1, 0, n)
  {
  }

  /** Counting up: the lower digit runs, then carries. */
  lemma SplitNext(x: nat, n: nat)
    requires n > 0
    ensures Lo(x, n) < n
    ensures if Lo(x, n) + 1 < n then Lo(x + 1, n) == Lo(x, n) + 1 && Hi(x + 1, n) == Hi(x, n)
            else Lo(x + 1, n) == 0 && Hi(x + 1, n) == Hi(x, n) + 1
  {
    assert x == n * (x / n) + x % n;
    if Lo(x, n) + 1 < n {
      DivUnique(x + 1, n, x / n, x % n + 1);
    } else {
      MulDistributes(n, x / n, 1);
      DivUnique(x + 1, n, x / n + 1, 0);
    }
  }

  lemma DivBelow(x: nat, m: nat, n: nat)
    requires n > 0 && x < m * n
    ensures x / n < m
  {
    DivUnique(m * n, n, m, 0);
    DivMonotone(x, m * n, n);
    var q := x / n;
    assert x == n * q + x % n;
  }

  lemma JoinStep(hi: nat, lo: nat, n: nat)
    ensures Join(hi, lo, n) + 1 == Join(hi, lo + 1, n)
  {
  }

  lemma SplitJoin(x: nat, m: nat, n: nat)
    requires x < m * n
    ensures n > 0 && Hi(x, n) < m && Lo(x, n) < n && Join(Hi(x, n), Lo(x, n), n) == x
  {
    assert n > 0;
    assert x == n * (x / n) + x % n;
    DivBelow(x, m, n);
  }
}
