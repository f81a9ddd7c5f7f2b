/** Two independent implementations of the Wilson score interval, over the reals. The square root is an
    argument: any non-negative number with the right square. */
module Wilson {
  import opened Options
  import opened RealArithmetic

  datatype Interval = Interval(low: real, high: real)

  /** What both programs take the root of. */
  function Inner(p: real, n: real, z: real): real
    requires n > 0.0
  {
    p * (1.0 - p) / n + z * z / (4.0 * n * n)
  }

  predicate IsRoot(s: real, x: real) { s >= 0.0 && s * s == x }

  /** The sweep report: a fraction of one. */
  function WilsonScoreInterval(successes: int, n: int, z: real, s: real): Interval {
    if n <= 0 then Interval(0.0, 0.0)
    else
      var m := n as real;
      var p := successes as real / m;
      var denom := 1.0 + z * z / m;
      var centre := (p + z * z / (2.0 * m)) / denom;
      var half := z * s / denom;
      Interval(if centre - half < 0.0 then 0.0 else centre - half, if centre + half > 1.0 then 1.0 else centre + half)
  }

  const Z95 := 1.96

  /** The bucket writer: percentages, and an error when the fills are out of range. */
  function WilsonLower95(fills: int, attempts: int, s: real): Option<real> {
    if attempts <= 0 then Some(0.0)
    else if fills < 0 || fills > attempts then None
    else
      var m := attempts as real;
      var p := fills as real / m;
      var lower := (p + Z95 * Z95 / (2.0 * m) - Z95 * s) / (1.0 + Z95 * Z95 / m);
      Some(if lower * 100.0 < 0.0 then 0.0 else lower * 100.0)
  }

  function WilsonUpper95(fills: int, attempts: int, s: real): Option<real> {
    if attempts <= 0 then Some(0.0)
    else if fills < 0 || fills > attempts then None
    else
      var m := attempts as real;
      var p := fills as real / m;
      var upper := (p + Z95 * Z95 / (2.0 * m) + Z95 * s) / (1.0 + Z95 * Z95 / m);
      Some(if upper * 100.0 > 100.0 then 100.0 else upper * 100.0)
  }

  // ----- The interval without its clamps -----

  /** The ends for a proportion `p`, weight `w` (z squared over n) and margin `m`. */
  function Low(p: real, w: real, m: real): real
    requires w >= 0.0
  {
    (p + w / 2.0 - m) / (1.0 + w)
  }

  function High(p: real, w: real, m: real): real
    requires w >= 0.0
  {
    (p + w / 2.0 + m) / (1.0 + w)
  }

  /** The polynomial whose roots are the ends. */
  function Score(p: real, w: real, t: real): real {
    (1.0 + w) * t * t - (2.0 * p + w) * t + p * p
  }

  /** A rate `t` whose distance to the observed `p` is within z standard errors of `t`. */
  predicate Near(p: real, w: real, t: real) { (p - t) * (p - t) <= w * (t * (1.0 - t)) }

  predicate Margin(p: real, w: real, m: real) {
    0.0 <= p <= 1.0 && w >= 0.0 && m >= 0.0 && m * m == w * (p * (1.0 - p)) + w * w / 4.0
  }

  /** Of two numbers, the second not negative, the one with the smaller square is smaller. */
  lemma SquareOrder(x: real, m: real)
    requires m >= 0.0 && x * x <= m * m
    ensures x <= m && -x <= m
  {
    assert (m - x) * (m + x) == m * m - x * x && (m + x) * (m - x) == m * m - x * x;
    if x > 0.0 { ProductSign(m - x, m + x); }
    if x < 0.0 { ProductSign(m + x, m - x); }
  }

  lemma Ends(p: real, w: real, m: real)
    requires w >= 0.0
    ensures Low(p, w, m) * (1.0 + w) == p + w / 2.0 - m
    ensures High(p, w, m) * (1.0 + w) == p + w / 2.0 + m
  {
  }

  /** The polynomial factors over the two ends. */
  lemma Factors(p: real, w: real, m: real, t: real)
    requires Margin(p, w, m)
    ensures Score(p, w, t) == (1.0 + w) * ((t - Low(p, w, m)) * (t - High(p, w, m)))
  {
    var l, h, d, c := Low(p, w, m), High(p, w, m), 1.0 + w, p + w / 2.0;
    Ends(p, w, m);
    assert d * (l + h) == 2.0 * c;
    ProductOfEnds(p, w, m);
    assert (t - l) * (t - h) == t * t - (l + h) * t + l * h;
    assert d * ((t - l) * (t - h)) == d * (t * t) - d * ((l + h) * t) + d * (l * h);
    assert d * ((l + h) * t) == (2.0 * c) * t;
    assert d * (t * t) == (1.0 + w) * t * t;
  }

  lemma ProductOfEnds(p: real, w: real, m: real)
    requires Margin(p, w, m)
    ensures (1.0 + w) * (Low(p, w, m) * High(p, w, m)) == p * p
  {
    var l, h, d, c := Low(p, w, m), High(p, w, m), 1.0 + w, p + w / 2.0;
    Ends(p, w, m);
    assert (c - m) * (c + m) == c * c - m * m;
    assert c * c == p * p + p * w + w * w / 4.0;
    assert w * (p * (1.0 - p)) == w * p - w * (p * p);
    assert c * c - m * m == d * (p * p);
    assert (l * d) * (h * d) == d * (p * p);
    assert d * (d * (l * h) - p * p) == (l * d) * (h * d) - d * (p * p);
    ProductSign(d * (l * h) - p * p, d);
    assert (d * (l * h) - p * p) * d == d * (d * (l * h) - p * p);
  }

  /** The ends lie around `p` and within 0 and 1. */
  lemma EndsInOrder(p: real, w: real, m: real)
    requires Margin(p, w, m)
    ensures 0.0 <= Low(p, w, m) <= p <= High(p, w, m) <= 1.0
  {
    var l, h, d := Low(p, w, m), High(p, w, m), 1.0 + w;
    var x := w / 2.0 - p * w;
    Ends(p, w, m);
    Deviation(p, w, m, x);
    ProductSign(p - l, d);
    ProductSign(h - p, d);
    assert (p - l) * d == m - x && (h - p) * d == m + x;
    LowEnd(p, w, m);
    HighEnd(p, w, m);
  }

  lemma Deviation(p: real, w: real, m: real, x: real)
    requires Margin(p, w, m) && x == w / 2.0 - p * w
    ensures -m <= x <= m
  {
    var v := p * (1.0 - p);
    ProductNonNegative(p, 1.0 - p);
    ProductNonNegative(w, v);
    ProductNonNegative(w, w * v);
    assert x * x == w * w / 4.0 - w * (w * v);
    SquareOrder(x, m);
  }

  lemma LowEnd(p: real, w: real, m: real)
    requires Margin(p, w, m)
    ensures Low(p, w, m) >= 0.0
  {
    var c := p + w / 2.0;
    Ends(p, w, m);
    ProductNonNegative(p, p);
    ProductNonNegative(w, p * p);
    assert c * c == p * p + p * w + w * w / 4.0;
    assert w * (p * (1.0 - p)) == w * p - w * (p * p);
    SquareOrder(m, c);
    ProductSign(Low(p, w, m), 1.0 + w);
  }

  lemma HighEnd(p: real, w: real, m: real)
    requires Margin(p, w, m)
    ensures High(p, w, m) <= 1.0
  {
    var q := 1.0 - p;
    var e := q + w / 2.0;
    Ends(p, w, m);
    ProductNonNegative(q, q);
    ProductNonNegative(w, q * q);
    assert e * e == q * q + q * w + w * w / 4.0;
    assert w * (p * q) == w * q - w * (q * q);
    SquareOrder(m, e);
    ProductSign(1.0 - High(p, w, m), 1.0 + w);
    assert (1.0 - High(p, w, m)) * (1.0 + w) == e - m;
  }

  // ----- The programs -----

  /** The weight and margin of a program's inputs fit together. */
  lemma InputsFit(successes: int, n: int, z: real, s: real)
    requires n > 0 && 0 <= successes <= n && z >= 0.0 && IsRoot(s, Inner(successes as real / n as real, n as real, z))
    ensures Margin(successes as real / n as real, z * z / n as real, z * s)
  {
    var m, k := n as real, successes as real;
    var p, w := k / m, z * z / m;
    assert p * m == k && w * m == z * z;
    ProductSign(p, m);
    ProductSign(1.0 - p, m);
    assert (1.0 - p) * m == m - k;
    ProductNonNegative(z, z);
    ProductSign(w, m);
    ProductNonNegative(z, s);
    InnerTimesSquare(p, m, z);
    assert (z * s) * (z * s) == (z * z) * (s * s);
  }

  lemma InnerTimesSquare(p: real, m: real, z: real)
    requires m > 0.0
    ensures (z * z) * Inner(p, m, z) == (z * z / m) * (p * (1.0 - p)) + (z * z / m) * (z * z / m) / 4.0
  {
    var zz, v := z * z, p * (1.0 - p);
    var w := zz / m;
    var a, b := v / m, zz / (4.0 * m * m);
    assert w * m == zz && a * m == v;
    assert zz * a == w * v by { assert (w * m) * a == w * (a * m); }
    assert b * (4.0 * m * m) == zz;
    assert zz * b == w * w / 4.0 by {
      assert 4.0 * (m * m) * b == zz;
      assert (w * m) * b * 4.0 * m == w * (4.0 * (m * m) * b);
      assert w * zz == w * (w * m);
      assert (zz * b * 4.0 - w * w) * m == 0.0;
      ProductSign(zz * b * 4.0 - w * w, m);
    }
  }

  /** The same ends, however the division is arranged. */
  lemma UnclampedEnds(p: real, m: real, z: real, s: real)
    requires m > 0.0
    ensures var w := z * z / m;
      && w >= 0.0
      && (p + z * z / (2.0 * m)) / (1.0 + w) - z * s / (1.0 + w) == Low(p, w, z * s)
      && (p + z * z / (2.0 * m)) / (1.0 + w) + z * s / (1.0 + w) == High(p, w, z * s)
      && z * z / (2.0 * m) == w / 2.0
  {
    var w := z * z / m;
    ProductNonNegative(if z < 0.0 then -z else z, if z < 0.0 then -z else z);
    assert w * m == z * z;
    ProductSign(w, m);
    var h := z * z / (2.0 * m);
    assert h * (2.0 * m) == z * z;
    ProductSign(h - w / 2.0, m);
    assert (h - w / 2.0) * m == 0.0;
  }

  lemma NoClampActs(successes: int, n: int, z: real, s: real)
    requires n > 0 && 0 <= successes <= n && z >= 0.0 && IsRoot(s, Inner(successes as real / n as real, n as real, z))
    ensures var p, w := successes as real / n as real, z * z / n as real;
      && w >= 0.0 && WilsonScoreInterval(successes, n, z, s) == Interval(Low(p, w, z * s), High(p, w, z * s))
      && 0.0 <= Low(p, w, z * s) <= p <= High(p, w, z * s) <= 1.0
  {
    InputsFit(successes, n, z, s);
    UnclampedEnds(successes as real / n as real, n as real, z, s);
    EndsInOrder(successes as real / n as real, z * z / n as real, z * s);
  }

  /** An interval is Wilson's for `p` and `w`: its ends are the roots of the score polynomial around `p`,
      within 0 and 1, and it is exactly the set of rates near `p`. */
  ghost predicate IsWilson(r: Interval, p: real, w: real) {
    && Score(p, w, r.low) == 0.0 && Score(p, w, r.high) == 0.0
    && 0.0 <= r.low <= p <= r.high <= 1.0
    && forall t :: r.low <= t <= r.high <==> Near(p, w, t)
  }

  lemma EndsAreWilson(p: real, w: real, m: real)
    requires Margin(p, w, m)
    ensures IsWilson(Interval(Low(p, w, m), High(p, w, m)), p, w)
  {
    Factors(p, w, m, Low(p, w, m));
    Factors(p, w, m, High(p, w, m));
    EndsInOrder(p, w, m);
    forall t ensures Low(p, w, m) <= t <= High(p, w, m) <==> Near(p, w, t) { WithinEnds(p, w, m, t); }
  }

  /** The report's interval is Wilson's, and neither clamp ever acts. */
  lemma IntervalIsWilson(successes: int, n: int, z: real, s: real)
    requires n > 0 && 0 <= successes <= n && z >= 0.0 && IsRoot(s, Inner(successes as real / n as real, n as real, z))
    ensures IsWilson(WilsonScoreInterval(successes, n, z, s), successes as real / n as real, z * z / n as real)
  {
    NoClampActs(successes, n, z, s);
    InputsFit(successes, n, z, s);
    EndsAreWilson(successes as real / n as real, z * z / n as real, z * s);
  }

  lemma WithinEnds(p: real, w: real, m: real, t: real)
    requires Margin(p, w, m)
    ensures Low(p, w, m) <= t <= High(p, w, m) <==> Near(p, w, t)
  {
    Factors(p, w, m, t);
    EndsInOrder(p, w, m);
    var a, b := t - Low(p, w, m), t - High(p, w, m);
    assert Score(p, w, t) == (p - t) * (p - t) - w * (t * (1.0 - t)) by {
      assert (p - t) * (p - t) == p * p - 2.0 * p * t + t * t;
      assert w * (t * (1.0 - t)) == w * t - w * t * t;
      assert (1.0 + w) * t * t == t * t + w * t * t;
      assert (2.0 * p + w) * t == 2.0 * p * t + w * t;
    }
    ProductSign(a * b, 1.0 + w);
    ProductSign(-(a * b), 1.0 + w);
    assert (a * b) * (1.0 + w) == (1.0 + w) * (a * b);
    assert -(a * b) * (1.0 + w) == -((a * b) * (1.0 + w));
    SignOfProduct(a, b);
  }

  lemma SignOfProduct(a: real, b: real)
    requires a >= b
    ensures a * b <= 0.0 <==> a >= 0.0 >= b
  {
  }

  /** The two implementations agree up to the factor 100; the writer's clamps never act either. */
  lemma ImplementationsAgree(fills: int, attempts: int, s: real)
    requires attempts > 0 && 0 <= fills <= attempts
    requires IsRoot(s, Inner(fills as real / attempts as real, attempts as real, Z95))
    ensures var r := WilsonScoreInterval(fills, attempts, Z95, s);
      && WilsonLower95(fills, attempts, s) == Some(r.low * 100.0)
      && WilsonUpper95(fills, attempts, s) == Some(r.high * 100.0)
  {
    var p, m := fills as real / attempts as real, attempts as real;
    NoClampActs(fills, attempts, Z95, s);
    UnclampedEnds(p, m, Z95, s);
  }

  /** Where they part: out-of-range fills, which the writer refuses and the report does not. */
  lemma WriterRefusesExactly(fills: int, attempts: int, s: real)
    ensures WilsonLower95(fills, attempts, s).None? <==> attempts > 0 && !(0 <= fills <= attempts)
    ensures WilsonUpper95(fills, attempts, s).None? <==> WilsonLower95(fills, attempts, s).None?
  {
  }
}
