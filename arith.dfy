/** Facts about Dafny's (Euclidean) integer division that the schedules rely on. */
module Arith {

  /** A non-zero multiple of `m` is at least `m` away from zero. */
  lemma MulAtLeastOne(k: int, m: int)
    requires m > 0
    ensures k <= 0 ==> k * m <= 0
    ensures k >= 1 ==> k * m >= m
  {
    if k >= 1 {
      assert k * m == (k - 1) * m + m;
      assert (k - 1) * m >= 0;
    } else {
      assert k * m == -((-k) * m);
      assert (-k) * m >= 0;
    }
  }

  /** `a == q*m + r` with `0 <= r < m` determines the quotient and the remainder. */
  lemma DivModUnique(a: int, m: int, q: int, r: int)
    requires m > 0 && 0 <= r < m && a == q * m + r
    ensures a / m == q && a % m == r
  {
    var q', r' := a / m, a % m;
    assert (q - q') * m == r' - r;
    MulAtLeastOne(q - q', m);
    MulAtLeastOne(q' - q, m);
  }

  lemma MulMonotone(x: int, y: int, m: nat)
    requires x <= y
    ensures x * m <= y * m
  {
    assert y * m == x * m + (y - x) * m;
  }

  /** Multiplying by a positive number keeps a strict order, so it can be cancelled. */
  lemma MulCancelLess(x: int, y: int, m: nat)
    requires m > 0
    ensures x * m < y * m ==> x < y
  {
    if x >= y {
      MulMonotone(y, x, m);
    }
  }
}
