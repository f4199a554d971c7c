/** Facts about Euclidean division that the solver does not find on its own. */
module IntArith {

  /** A non-zero multiple of p is at least p away from 0. */
  lemma MultipleBound(d: int, p: int)
    requires p > 0 && d != 0
    ensures d * p >= p || d * p <= -p
  {
    if d > 0 {
      assert d * p == (d - 1) * p + p;
    } else {
      assert d * p == -((-d - 1) * p) - p;
    }
  }

  /** Euclidean division is unique: a == q * p + m with 0 <= m < p pins down a / p and a % p. */
  lemma DivModUnique(a: int, p: int, q: int, m: int)
    requires p > 0 && a == q * p + m && 0 <= m < p
    ensures a / p == q && a % p == m
  {
    var q', m' := a / p, a % p;
    if q != q' {
      assert (q - q') * p == m' - m;
      MultipleBound(q - q', p);
    }
  }

  /** Multiplying by a non-negative factor keeps the order. */
  lemma MulMonotone(a: int, b: int, m: int)
    requires a <= b && m >= 0
    ensures a * m <= b * m
  {
    var d := b - a;
    assert d >= 0;
    assert b * m == a * m + d * m;
  }
}
