/** The few facts of non-linear arithmetic the index computations rest on. */
module Arithmetic {

  lemma MulNonNegative(a: int, b: int)
    requires 0 <= a && 0 <= b
    ensures 0 <= a * b
  {
  }

  lemma MulOrder(a: int, b: int, n: nat)
    requires a <= b
    ensures a * n <= b * n
  {
    MulNonNegative(b - a, n);
    assert (b - a) * n == b * n - a * n;
  }

  lemma SmallMultiple(d: int, wide: int)
    requires -wide < d * wide < wide
    ensures d == 0
  {
  }

  /** Division and remainder are unique. */
  lemma DivMod(p: nat, wide: nat, y: nat, x: nat)
    requires x < wide && p == y * wide + x
    ensures p / wide == y && p % wide == x
  {
    var q := p / wide;
    assert (q - y) * wide == x - p % wide;
    SmallMultiple(q - y, wide);
  }

  lemma DivOrder(a: nat, b: nat, n: nat)
    requires n > 0 && a <= b
    ensures a / n <= b / n
  {
    var qa, qb := a / n, b / n;
    assert a == qa * n + a % n && b == qb * n + b % n;
    assert (qb + 1) * n == qb * n + n;
    if qa > qb {
      MulOrder(qb + 1, qa, n);
    }
  }
}
