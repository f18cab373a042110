/** Facts about integer multiplication, division and remainder that the
    solver does not find by itself. Division and remainder are Euclidean,
    which agrees with Python's `//` and `%` for a positive divisor. */
module Arith {
  lemma MulMonotone(x: int, y: int, d: int)
    requires d > 0
    ensures x <= y ==> x * d <= y * d
  {
    if x <= y {
      assert (y - x) * d >= 0;
      assert y * d - x * d == (y - x) * d;
    }
  }

  lemma DivMonotone(a: int, b: int, d: int)
    requires a <= b && d > 0
    ensures a / d <= b / d
  {
    var qa, qb := a / d, b / d;
    assert qa * d <= a;
    assert b < qb * d + d;
    MulMonotone(qb + 1, qa, d);
  }

  /** Adding the divisor leaves the remainder as it was. */
  lemma ModShift(a: int, n: int)
    requires n > 0
    ensures (a + n) % n == a % n
  {
    var q, r := a / n, a % n;
    var q2, r2 := (a + n) / n, (a + n) % n;
    var k := q2 - q - 1;
    assert k * n == q2 * n - q * n - n;
    assert k * n == r - r2;
    MulMonotone(1, k, n);
    MulMonotone(k, -1, n);
  }
}
