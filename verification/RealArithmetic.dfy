/** Signs of real products. */
module RealArithmetic {
  lemma ProductSign(x: real, y: real)
    requires y > 0.0
    ensures (x >= 0.0 <==> x * y >= 0.0) && (x > 0.0 <==> x * y > 0.0) && (x == 0.0 <==> x * y == 0.0)
  {
  }

  lemma ProductNonNegative(x: real, y: real)
    requires x >= 0.0 && y >= 0.0
    ensures x * y >= 0.0
  {
  }

  lemma ProductGrows(x: real, y: real, x0: real, y0: real)
    requires x >= x0 >= 0.0 && y >= y0 >= 0.0
    ensures x * y >= x0 * y0
  {
    assert (x - x0) * y >= 0.0 && x0 * (y - y0) >= 0.0;
  }
}
