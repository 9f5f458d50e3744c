/** Facts about real products and quotients shared by the arithmetic models. */
module Reals {

  /** A product, named so that proofs can treat it as a whole. */
  function Mul(x: real, y: real): real
  {
    x * y
  }

  lemma PositiveProduct(x: real, y: real)
    requires (x > 0.0 && y > 0.0) || (x < 0.0 && y < 0.0)
    ensures Mul(x, y) > 0.0
  {
  }

  lemma SquareSign(d: real)
    ensures Mul(d, d) >= 0.0 && (Mul(d, d) == 0.0 <==> d == 0.0)
  {
    if d != 0.0 {
      PositiveProduct(d, d);
    }
  }

  lemma Cancel(p: real, q: real, d: real)
    requires Mul(p, d) == Mul(q, d) && d != 0.0
    ensures p == q
  {
    assert (p - q) * d == 0.0;
  }

  lemma Scaled(p: real, d: real)
    requires d != 0.0
    ensures Mul(p / d, d) == p
  {
  }

  /** Comparing with a quotient is comparing products. */
  lemma QuotientOrder(m: real, r: real, x: real)
    requires r > 0.0
    ensures x >= m / r <==> Mul(x, r) >= m
    ensures x <= m / r <==> Mul(x, r) <= m
  {
    Scaled(m, r);
    var q := m / r;
    assert Mul(x - q, r) == Mul(x, r) - m;
    if x > q {
      PositiveProduct(x - q, r);
    } else if x < q {
      PositiveProduct(q - x, r);
      assert Mul(q - x, r) == -Mul(x - q, r);
    }
  }

  lemma MulCommutes(x: real, y: real)
    ensures Mul(x, y) == Mul(y, x)
  {
  }
}
