/** Products and quotients of integers. */
module Arith {
  /** Comparing multiples of a positive number compares the factors. */
  lemma FactorLess(a: int, b: int, den: int)
    requires den > 0 && a * den < b * den
    ensures a < b
  {
  }

  lemma FactorAtMost(a: int, b: int, den: int)
    requires den > 0 && a * den <= b * den
    ensures a <= b
  {
    assert (b + 1) * den == b * den + den;
    FactorLess(a, b + 1, den);
  }

  lemma Multiples(a: int, b: int, n: int)
    requires a <= b && n >= 0
    ensures a * n <= b * n
  {
  }

  /** A quotient is known by the multiples on both sides of the dividend. */
  lemma QuotientIs(x: int, w: int, q: int)
    requires w > 0 && q * w <= x < q * w + w
    ensures x / w == q
  {
    var d := x / w;
    assert d * w <= x < d * w + w;
    assert d * w + w == (d + 1) * w && q * w + w == (q + 1) * w;
    FactorLess(d, q + 1, w);
    FactorLess(q, d + 1, w);
  }

  lemma QuotientBounds(x: int, w: int)
    requires w > 0
    ensures x / w * w <= x < x / w * w + w
  {
  }
}
