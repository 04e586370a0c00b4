/** Elementary facts about products and quotients, stated once so that proofs elsewhere stay linear. */
module Arith {

  function Min(a: int, b: int): int { if a <= b then a else b }

  lemma MulDistributes(x: int, y: int, z: int)
    ensures x * (y + z) == x * y + x * z
    ensures (y + z) * x == y * x + z * x
  {}

  lemma MulAssociates(x: int, y: int, z: int)
    ensures x * y * z == x * (y * z)
  {}

  lemma MulMonotone(a: int, x: int, y: int)
    requires 0 <= a && x <= y
    ensures a * x <= a * y
    ensures x * a <= y * a
  {}

  /** Quotient and remainder are the only decomposition with a remainder below the divisor. */
  lemma DivUnique(n: int, d: int, q: int, r: int)
    requires d > 0 && 0 <= r < d && n == d * q + r
    ensures n / d == q && n % d == r
  {
    var q' := n / d;
    var k := q - q';
    assert n == d * q' + n % d;
    MulDistributes(d, q', k);
    assert d * k == n % d - r;
    if k >= 1 {
      MulMonotone(d, 1, k);
    } else if k <= -1 {
      MulMonotone(d, k, -1);
    }
  }

  lemma DivDiv(n: nat, a: nat, b: nat)
    requires a > 0 && b > 0
    ensures a * b > 0
    ensures n / (a * b) == n / a / b
  {
    var q, r := n / a / b, n / a % b;
    MulMonotone(a, 1, b);
    MulDistributes(a, b * q, r);
    MulAssociates(a, b, q);
    assert n == a * (b * q + r) + n % a;
    MulMonotone(a, r, b - 1);
    MulDistributes(a, b, -1);
    MulMonotone(a, 0, r);
    DivUnique(n, a * b, q, a * r + n % a);
  }

  lemma DivMonotone(x: int, y: int, d: int)
    requires d > 0 && x <= y
    ensures x / d <= y / d
  {
    var k := y / d - x / d;
    assert d * (x / d) + x % d <= d * (y / d) + y % d;
    MulDistributes(d, x / d, k);
    if k <= -1 { MulMonotone(d, k, -1); }
  }
}
