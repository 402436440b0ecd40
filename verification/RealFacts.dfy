/** Signs and bounds of products and quotients of reals. */
module RealFacts {

  lemma {:induction false} Product(x: real, y: real)
    requires 0.0 <= x && 0.0 <= y
    ensures 0.0 <= x * y
  {
  }

  lemma {:induction false} QuotientSign(x: real, d: real)
    requires 0.0 < d
    ensures (0.0 <= x <==> 0.0 <= x / d) && (0.0 < x <==> 0.0 < x / d)
  {
  }

  lemma {:induction false} QuotientBound(x: real, d: real, q: real)
    requires 0.0 < d && x <= q * d
    ensures x / d <= q
  {
  }

  lemma {:induction false} QuotientOfItself(d: real)
    requires 0.0 < d
    ensures d / d == 1.0
  {
  }
}
