/** Signs of products and quotients. */
module Signs {
  lemma ProductSign(x: real, y: real)
    requires x >= 0.0 && y >= 0.0
    ensures x * y >= 0.0
    ensures x > 0.0 && y > 0.0 ==> x * y > 0.0
  {
  }

  lemma QuotientSign(x: real, y: real)
    requires x >= 0.0 && y > 0.0
    ensures x / y >= 0.0
    ensures x > 0.0 ==> x / y > 0.0
  {
  }

  lemma QuotientTimes(x: real, y: real)
    requires y > 0.0
    ensures x / y * y == x
  {
  }

  lemma ProductLess(c: real, x: real, y: real)
    requires c > 0.0 && x < y
    ensures c * x < c * y
  {
    ProductSign(c, y - x);
    Distribute(y, x, c);
  }

  lemma Distribute(x: real, y: real, c: real)
    ensures (x - y) * c == x * c - y * c
  {
  }

  /** Quotients compare as the products across do. */
  lemma QuotientLess(x: real, y: real, u: real, v: real)
    requires y > 0.0 && v > 0.0 && x * v < u * y
    ensures x / y < u / v
  {
    var q, r := x / y, u / v;
    assert q * y == x && r * v == u;
    if q >= r { ProductsKeepOrder(q, r, y, v); }
  }

  lemma ProductsKeepOrder(q: real, r: real, y: real, v: real)
    requires y > 0.0 && v > 0.0 && q >= r
    ensures q * y * v >= r * v * y
  {
    ProductSign(y, v);
    ProductSign(q - r, y * v);
    Distribute(q, r, y * v);
  }
}
