// Two facts about products and quotients that the solver needs one at a time.
module Arith {

  lemma ScaleLe(a: int, b: int, i: int)
    requires a <= b && i >= 0
    ensures a * i <= b * i
  {
  }

  /** The quotient is the one multiple that fits. */
  lemma QuotientIs(n: int, d: int, q: int)
    requires d > 0 && q * d <= n < q * d + d
    ensures n / d == q
  {
    var r := n / d;
    assert r * d <= n < r * d + d;
    assert (r + 1) * d == r * d + d && (q + 1) * d == q * d + d;
    if r < q {
      ScaleLe(r + 1, q, d);
    } else if r > q {
      ScaleLe(q + 1, r, d);
    }
  }
}
