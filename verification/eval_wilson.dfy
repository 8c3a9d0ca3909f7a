/** The Wilson score interval of eval_matcher.py, over the reals and before rounding. */
module EvalWilson {
  import opened Common

  /** A rate and its interval; neither exists when nothing was counted. */
  datatype Rate = NoCases | Rate(rate: real, lower: real, upper: real)

  function Square(x: real): real {
    x * x
  }

  /** `root` is the square root under the margin, given by its defining equation. */
  predicate IsRoot(root: real, p: real, n: real, z: real)
    requires n > 0.0
  {
    root >= 0.0 && root * root == Under(p, n, z)
  }

  function Under(p: real, n: real, z: real): real
    requires n > 0.0
  {
    (p * (1.0 - p)) / n + z * z / n / (4.0 * n)
  }

  function Observed(hits: nat, total: nat): real
    requires total > 0
  {
    hits as real / total as real
  }

  function Centre(p: real, n: real, z: real): real
    requires n > 0.0
  {
    (p + z * z / (2.0 * n)) / (1.0 + Spread(n, z))
  }

  function Spread(n: real, z: real): (a: real)
    requires n > 0.0
    ensures a >= 0.0
  {
    SquareNonNegative(z);
    Divided(z * z, n);
    z * z / n
  }

  function Margin(root: real, n: real, z: real): real
    requires n > 0.0
  {
    z * root / (1.0 + Spread(n, z))
  }

  /** wilson, unrounded */
  function Wilson(hits: nat, total: nat, z: real, root: real): Rate
    requires total > 0 ==> IsRoot(root, Observed(hits, total), total as real, z)
  {
    if total == 0 then NoCases
    else
      var p, n := Observed(hits, total), total as real;
      var centre, margin := Centre(p, n, z), Margin(root, n, z);
      Rate(p, if centre - margin > 0.0 then centre - margin else 0.0, if centre + margin < 1.0 then centre + margin else 1.0)
  }

  /** The score test that the interval inverts: a true rate `q` is compatible with the observed
      rate `p` when they differ by at most `z` standard errors of `q`. */
  predicate Compatible(q: real, p: real, n: real, z: real)
    requires n > 0.0
  {
    Square(p - q) <= Spread(n, z) * (q * (1.0 - q))
  }

  // ----- arithmetic

  lemma SquareNonNegative(x: real)
    ensures x * x >= 0.0
  {
  }

  lemma Divided(x: real, n: real)
    requires n > 0.0 && x >= 0.0
    ensures x / n >= 0.0
  {
  }

  lemma Times(a: real, b: real)
    requires a >= 0.0 && b >= 0.0
    ensures a * b >= 0.0
  {
  }

  /** Squares order non-negative numbers. */
  lemma SquareOrder(x: real, y: real)
    requires x >= 0.0 && y >= 0.0
    ensures x <= y <==> x * x <= y * y
  {
    if x <= y {
      Times(x, y - x);
      Times(y, y - x);
      assert y * y - x * x == x * (y - x) + y * (y - x);
    } else {
      Times(y, x - y);
      assert x > 0.0 && x - y > 0.0;
      assert x * (x - y) > 0.0;
      assert x * x - y * y == x * (x - y) + y * (x - y);
    }
  }

  /** |x| <= y, by squares. */
  lemma Within(x: real, y: real)
    requires y >= 0.0
    ensures -y <= x <= y <==> x * x <= y * y
  {
    if x >= 0.0 {
      SquareOrder(x, y);
    } else {
      SquareOrder(-x, y);
      assert (-x) * (-x) == x * x;
    }
  }

  lemma Expand(q: real, p: real, a: real)
    ensures Square((1.0 + a) * q - (p + a / 2.0)) - (a * (p * (1.0 - p)) + a * a / 4.0)
            == (1.0 + a) * (Square(p - q) - a * (q * (1.0 - q)))
  {
    var d := 1.0 + a;
    var u := p + a / 2.0;
    assert Square(d * q - u) == d * d * (q * q) - 2.0 * d * q * u + u * u;
    assert u * u == p * p + a * p + a * a / 4.0;
    assert u * u - (a * (p * (1.0 - p)) + a * a / 4.0) == d * (p * p);
    assert 2.0 * d * q * u == d * (2.0 * p * q + a * q);
    assert Square(p - q) - a * (q * (1.0 - q)) == d * (q * q) - (2.0 * p * q + a * q) + p * p;
  }

  lemma Scaled(x: real, y: real, d: real)
    requires d > 0.0
    ensures x <= y <==> d * x <= d * y
  {
    if x <= y {
      Times(d, y - x);
    } else {
      assert d * (x - y) > 0.0;
    }
    assert d * (y - x) == d * y - d * x;
  }

  lemma Quotient(x: real, n: real)
    requires n > 0.0
    ensures x / n * n == x
  {
  }

  lemma Cancel(x: real, y: real, n: real)
    requires n > 0.0 && x * n == y * n
    ensures x == y
  {
    assert (x - y) * n == 0.0;
  }

  /** The centre, cleared of its denominator. */
  lemma CentreTimes(p: real, n: real, z: real)
    requires n > 0.0
    ensures var a := Spread(n, z); (1.0 + a) * Centre(p, n, z) == p + a / 2.0
  {
    var a := Spread(n, z);
    Quotient(z * z, n);
    Quotient(z * z, 2.0 * n);
    var half := z * z / (2.0 * n);
    assert half * (2.0 * n) == a * n;
    assert (2.0 * half) * n == a * n;
    Cancel(2.0 * half, a, n);
    Quotient(p + half, 1.0 + a);
  }

  lemma UnderTimes(p: real, n: real, z: real)
    requires n > 0.0
    ensures var a := Spread(n, z); (z * z) * Under(p, n, z) == a * (p * (1.0 - p)) + a * a / 4.0
  {
    var a, v := Spread(n, z), p * (1.0 - p);
    Quotient(z * z, n);
    Quotient(a, 4.0 * n);
    Quotient(v, n);
    Parts(a, v, n, v / n, a / (4.0 * n));
  }

  /** The two parts under the root, each multiplied by the squared normal quantile. */
  lemma Parts(a: real, v: real, n: real, x: real, w: real)
    requires n > 0.0 && x * n == v && w * (4.0 * n) == a
    ensures (a * n) * (x + w) == a * v + a * a / 4.0
  {
    assert (a * n) * x == a * v;
    assert (a * n) * w == a * a / 4.0;
  }

  /** The margin, cleared of its denominator and squared. */
  lemma MarginTimes(p: real, n: real, z: real, root: real)
    requires n > 0.0 && IsRoot(root, p, n, z) && z >= 0.0
    ensures var a := Spread(n, z);
            var scaled := (1.0 + a) * Margin(root, n, z);
            scaled >= 0.0 && scaled * scaled == a * (p * (1.0 - p)) + a * a / 4.0
  {
    Quotient(z * root, 1.0 + Spread(n, z));
    Times(z, root);
    UnderTimes(p, n, z);
    assert (z * root) * (z * root) == (z * z) * (root * root);
  }

  // ----- the interval

  /** `c` and `m` are the centre and margin for the observed rate `p` and spread `a`. */
  predicate Solves(p: real, a: real, c: real, m: real) {
    && a >= 0.0 && (1.0 + a) * c == p + a / 2.0 && (1.0 + a) * m >= 0.0
    && ((1.0 + a) * m) * ((1.0 + a) * m) == a * (p * (1.0 - p)) + a * a / 4.0
  }

  lemma CentreAndMargin(p: real, n: real, z: real, root: real)
    requires n > 0.0 && IsRoot(root, p, n, z) && z >= 0.0
    ensures Solves(p, Spread(n, z), Centre(p, n, z), Margin(root, n, z))
  {
    CentreTimes(p, n, z);
    MarginTimes(p, n, z, root);
  }

  function Deviation(q: real, p: real, a: real): real {
    (1.0 + a) * q - (p + a / 2.0)
  }

  lemma DeviationBySquares(p: real, a: real, y2: real, q: real)
    requires a >= 0.0 && y2 == a * (p * (1.0 - p)) + a * a / 4.0
    ensures Deviation(q, p, a) * Deviation(q, p, a) <= y2 <==> Square(p - q) <= a * (q * (1.0 - q))
  {
    var g := Square(p - q) - a * (q * (1.0 - q));
    Expand(q, p, a);
    assert Square(Deviation(q, p, a)) - y2 == (1.0 + a) * g;
    SignOf(1.0 + a, g);
  }

  lemma SignOf(d: real, g: real)
    requires d > 0.0
    ensures d * g <= 0.0 <==> g <= 0.0
  {
    Scaled(g, 0.0, d);
  }

  lemma DeviationByEnds(p: real, a: real, c: real, m: real, q: real)
    requires a >= 0.0 && (1.0 + a) * c == p + a / 2.0
    ensures c - m <= q <= c + m <==> -((1.0 + a) * m) <= Deviation(q, p, a) <= (1.0 + a) * m
  {
    var d := 1.0 + a;
    assert Deviation(q, p, a) == d * (q - c);
    assert d * (-m) == -(d * m);
    Scaled(-m, q - c, d);
    Scaled(q - c, m, d);
  }

  lemma ScoreTest(p: real, a: real, c: real, m: real, q: real)
    requires Solves(p, a, c, m)
    ensures c - m <= q <= c + m <==> Square(p - q) <= a * (q * (1.0 - q))
  {
    DeviationByEnds(p, a, c, m, q);
    ScoreTestAt(p, a, (1.0 + a) * m, q);
  }

  lemma ScoreTestAt(p: real, a: real, y: real, q: real)
    requires a >= 0.0 && y >= 0.0 && y * y == a * (p * (1.0 - p)) + a * a / 4.0
    ensures -y <= Deviation(q, p, a) <= y <==> Square(p - q) <= a * (q * (1.0 - q))
  {
    DeviationBySquares(p, a, y * y, q);
    Within(Deviation(q, p, a), y);
  }

  /** The root that the margin is made of. */
  lemma RootExactly(root: real, p: real, n: real, z: real)
    requires n > 0.0
    ensures IsRoot(root, p, n, z) <==> root >= 0.0 && root * root == p * (1.0 - p) / n + z * z / n / (4.0 * n)
  {
  }

  /** Nothing counted gives no rate; else the rate is hits over total. */
  lemma RateExactly(hits: nat, total: nat, z: real, root: real)
    requires total > 0 ==> IsRoot(root, Observed(hits, total), total as real, z)
    ensures Wilson(hits, total, z, root).NoCases? <==> total == 0
    ensures total > 0 ==> Wilson(hits, total, z, root).rate * (total as real) == hits as real
  {
    if total > 0 {
      Quotient(hits as real, total as real);
    }
  }

  /** A rate lies in the unclamped interval exactly when the score test accepts it. */
  lemma IntervalInvertsScoreTest(p: real, n: real, z: real, root: real, q: real)
    requires n > 0.0 && IsRoot(root, p, n, z) && z >= 0.0
    ensures Centre(p, n, z) - Margin(root, n, z) <= q <= Centre(p, n, z) + Margin(root, n, z) <==> Compatible(q, p, n, z)
  {
    CentreAndMargin(p, n, z, root);
    ScoreTest(p, Spread(n, z), Centre(p, n, z), Margin(root, n, z), q);
  }

  lemma OneLess(d: real, c: real)
    ensures d * (1.0 - c) == d - d * c
  {
  }

  lemma EndsFrom(d: real, c: real, m: real, u: real, y: real)
    requires d > 0.0 && d * c == u && d * m == y && y <= u && y <= d - u
    ensures m <= c && m <= 1.0 - c
  {
    Scaled(m, c, d);
    OneLess(d, c);
    Scaled(m, 1.0 - c, d);
  }

  /** The margin reaches neither below zero nor above one. */
  lemma EndsInside(p: real, a: real, c: real, m: real)
    requires Solves(p, a, c, m) && 0.0 <= p <= 1.0
    ensures 0.0 <= c - m && c + m <= 1.0
  {
    var y, u := (1.0 + a) * m, p + a / 2.0;
    LowerRoom(p, a, y);
    UpperRoom(p, a, y);
    EndsFrom(1.0 + a, c, m, u, y);
  }

  lemma LowerRoom(p: real, a: real, y: real)
    requires a >= 0.0 && 0.0 <= p <= 1.0 && y >= 0.0 && y * y == a * (p * (1.0 - p)) + a * a / 4.0
    ensures y <= p + a / 2.0
  {
    AtZero(p, a);
    Times(p, p);
    Times(1.0 + a, p * p);
    SquareOrder(y, p + a / 2.0);
  }

  lemma UpperRoom(p: real, a: real, y: real)
    requires a >= 0.0 && 0.0 <= p <= 1.0 && y >= 0.0 && y * y == a * (p * (1.0 - p)) + a * a / 4.0
    ensures y <= (1.0 + a) - (p + a / 2.0)
  {
    AtOne(p, a);
    Times(1.0 - p, 1.0 - p);
    Times(1.0 + a, (1.0 - p) * (1.0 - p));
    SquareOrder(y, (1.0 + a) - (p + a / 2.0));
  }

  lemma AtZero(p: real, a: real)
    ensures var u := p + a / 2.0; u * u - (a * (p * (1.0 - p)) + a * a / 4.0) == (1.0 + a) * (p * p)
  {
  }

  lemma AtOne(p: real, a: real)
    ensures var v := (1.0 + a) - (p + a / 2.0);
            v * v - (a * (p * (1.0 - p)) + a * a / 4.0) == (1.0 + a) * ((1.0 - p) * (1.0 - p))
  {
  }

  lemma RateRange(hits: nat, total: nat)
    requires total > 0 && hits <= total
    ensures 0.0 <= Observed(hits, total) <= 1.0
  {
    var p, n := Observed(hits, total), total as real;
    Quotient(hits as real, n);
    Scaled(0.0, p, n);
    Scaled(p, 1.0, n);
  }

  /** The interval contains the observed rate and lies in [0, 1] before it is clamped, so the
      clamps never change it. */
  lemma ClampsChangeNothing(hits: nat, total: nat, z: real, root: real)
    requires total > 0 && hits <= total && IsRoot(root, Observed(hits, total), total as real, z) && z >= 0.0
    ensures var p, n := Observed(hits, total), total as real;
            var lower, upper := Centre(p, n, z) - Margin(root, n, z), Centre(p, n, z) + Margin(root, n, z);
            && 0.0 <= lower <= p <= upper <= 1.0
            && Wilson(hits, total, z, root) == Rate(p, lower, upper)
  {
    var p, n := Observed(hits, total), total as real;
    RateRange(hits, total);
    Times(p, 1.0 - p);
    Times(Spread(n, z), p * (1.0 - p));
    IntervalInvertsScoreTest(p, n, z, root, p);
    CentreAndMargin(p, n, z, root);
    EndsInside(p, Spread(n, z), Centre(p, n, z), Margin(root, n, z));
  }
}
