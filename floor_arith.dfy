/** Facts about Dafny's division by a positive divisor, which is floor
    division and so agrees with Python's `//` and `%` there. */
module FloorArith {

  /** A positive factor times a positive integer is at least the factor. */
  lemma MulLowerBound(d: int, k: int)
    requires d > 0
    ensures k >= 1 ==> d * k >= d
  {
    if k >= 1 {
      assert d * k == d + d * (k - 1);
      assert d * (k - 1) >= 0;
    }
  }

  /** Quotient and remainder are determined by `n == d * q + r`, `0 <= r < d`. */
  lemma DivModUnique(n: int, d: int, q: int, r: int)
    requires d > 0 && 0 <= r < d && n == d * q + r
    ensures n / d == q && n % d == r
  {
    var q', r' := n / d, n % d;
    assert n == d * q' + r';
    assert d * (q - q') == r' - r;
    assert d * (q' - q) == r - r';
    MulLowerBound(d, q - q');
    MulLowerBound(d, q' - q);
    assert q == q';
  }

  /** A multiple of `d` leaves no remainder. */
  lemma MultipleMod(d: int, k: int)
    requires d > 0
    ensures (d * k) % d == 0 && (d * k) / d == k
  {
    DivModUnique(d * k, d, k, 0);
  }

  /** Floor division is monotone in the dividend. */
  lemma DivMonotone(x: int, y: int, d: int)
    requires d > 0 && x <= y
    ensures x / d <= y / d
  {
    var qx, qy := x / d, y / d;
    assert d * qx <= x && y < d * qy + d;
    assert d * (qx - qy) < d;
    MulLowerBound(d, qx - qy);
  }

  /** A non-negative dividend gives a smaller quotient for a larger divisor. */
  lemma DivAntitoneDivisor(m: int, d1: int, d2: int)
    requires m >= 0 && 0 < d1 <= d2
    ensures 0 <= m / d2 <= m / d1
  {
    var q, q1 := m / d2, m / d1;
    assert q >= 0;
    assert d1 * q <= d2 * q <= m;
    assert m < d1 * q1 + d1;
    assert d1 * (q - q1) < d1;
    MulLowerBound(d1, q - q1);
  }

  /** Multiplication distributes over a sum. */
  lemma MulDistributes(b: int, x: int, y: int)
    ensures b * (x + y) == b * x + b * y
  {
  }

  /** Multiplication is associative and commutative across three factors. */
  lemma MulRegroup(b: int, a: int, q: int)
    ensures b * (a * q) == (a * b) * q
  {
  }

  /** A remainder modulo `a`, scaled by `b`, stays one `b` short of `a * b`. */
  lemma ScaledRemainderBound(a: int, b: int, r: int)
    requires a > 0 && b > 0 && 0 <= r < a
    ensures 0 <= b * r <= a * b - b
  {
    var k := a - 1 - r;
    assert k >= 0;
    assert b * k >= 0 && b * r >= 0;
    assert b * (k + r + 1) == b * k + b * r + b;
    assert k + r + 1 == a;
    assert a * b == b * a;
  }

  /** Dividing a smaller non-negative dividend first by the same `b` and then by
      a larger divisor never gives more. */
  lemma NestedDivAntitone(n1: int, n2: int, b: int, x1: int, x2: int)
    requires 0 <= n2 <= n1 && b > 0 && 0 < x1 <= x2
    ensures (n2 / b) / x2 <= (n1 / b) / x1
  {
    DivMonotone(n2, n1, b);
    var m1, m2 := n1 / b, n2 / b;
    assert 0 <= m2 <= m1;
    DivMonotone(m2, m1, x1);
    DivAntitoneDivisor(m2, x1, x2);
  }

  /** Two nested floor divisions are one floor division by the product. */
  lemma NestedDiv(n: int, b: int, a: int)
    requires a > 0 && b > 0
    ensures (n / b) / a == n / (a * b)
  {
    var q1, r1 := n / b, n % b;
    var q2, r2 := q1 / a, q1 % a;
    MulDistributes(b, a * q2, r2);
    MulRegroup(b, a, q2);
    ScaledRemainderBound(a, b, r2);
    assert n == (a * b) * q2 + (b * r2 + r1);
    DivModUnique(n, a * b, q2, b * r2 + r1);
  }
}
