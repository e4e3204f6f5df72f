/** Signs of products and bounds of quotients over the reals. */
module RealBounds {

  lemma SignOfProduct(x: real, y: real)
    requires x >= 0.0 && y >= 0.0
    ensures x * y >= 0.0
  {
  }

  lemma SignOfFactor(x: real, n: real)
    requires n > 0.0 && x * n >= 0.0
    ensures x >= 0.0
  {
  }

  lemma QuotientBounds(s: real, n: real, bound: real)
    requires n > 0.0
    ensures n * bound <= s ==> bound <= s / n
    ensures s <= n * bound ==> s / n <= bound
  {
    var q := s / n;
    assert q * n == s;
    if n * bound <= s {
      SignOfFactor(q - bound, n);
    }
    if s <= n * bound {
      SignOfFactor(bound - q, n);
    }
  }
}
