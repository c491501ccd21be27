/** internal/cluster/cluster.go and internal/config/config.go: the Wilson lower
    confidence bound as a routing score. The bound has a square root in it; here
    it is the set of thresholds it reaches, which needs none. */
module Wilson {
  import opened Powers

  const Z: real := 1.645
  const Z2: real := Z * Z

  function Share(k: nat, n: nat): real
    requires 0 < n
  {
    k as real / n as real
  }

  /** score(k, n) >= t. */
  predicate Reaches(k: nat, n: nat, t: real) {
    t <= 0.0
    || (0 < n && t < Share(k, n) && FarBelow(n as real, Share(k, n), t))
  }

  /** n (p - t)^2 >= z^2 t (1 - t). */
  predicate FarBelow(fn: real, p: real, t: real) {
    Z2 * t * (1.0 - t) <= fn * (p - t) * (p - t)
  }

  /** UnanimousScore: the bound at k == n, where the root is z/(2n). */
  function Unanimous(n: nat): (u: real)
    ensures 0.0 <= u < 1.0 && (0 < n ==> 0.0 < u)
  {
    if n == 0 then 0.0
    else
      UnitQuotient(n as real, Z2);
      n as real / (n as real + Z2)
  }

  lemma UnitQuotient(a: real, b: real)
    requires 0.0 < a && 0.0 < b
    ensures 0.0 < a / (a + b) < 1.0
  {
    var q := a / (a + b);
    assert q * (a + b) == a;
  }

  // ------------------------------------------------------------ the formula

  /** wilsonLCB as the source computes it, given the root it takes. */
  function Lcb(k: nat, n: nat, root: real): real
    requires 0 < n
  {
    var p := Share(k, n);
    var centre, spread := p + Z2 / (2.0 * n as real), Z * root;
    var lcb := (centre - spread) / (1.0 + Z2 / n as real);
    if 1.0 < lcb then 1.0 else if lcb < 0.0 then 0.0 else lcb
  }

  ghost predicate IsRoot(root: real, x: real) {
    0.0 <= root && root * root == x
  }

  /** Under the root sign. */
  function Radicand(k: nat, n: nat): real
    requires 0 < n
  {
    var p, fn := Share(k, n), n as real;
    Positive(fn, fn);
    p * (1.0 - p) / fn + Z2 / (4.0 * fn * fn)
  }

  /** p (1 - p). */
  function Variance(p: real): real {
    p * (1.0 - p)
  }

  /** (p - t)^2 - c t (1 - t), which changes sign where t passes the bound. */
  function Gauge(p: real, c: real, t: real): real {
    (p - t) * (p - t) - c * Variance(t)
  }

  /** s is z times the root, in the units of c = z^2/n. */
  ghost predicate SquaresTo(s: real, p: real, c: real) {
    0.0 <= s && s * s == c * Variance(p) + c * c / 4.0
  }

  /** How far t is left of the gauge's vertex, times 1 + c. */
  function Lead(p: real, c: real, t: real): real {
    p + c / 2.0 - (1.0 + c) * t
  }

  lemma VarianceSign(p: real)
    ensures 0.0 <= p <= 1.0 ==> 0.0 <= Variance(p)
    ensures 0.0 < p < 1.0 ==> 0.0 < Variance(p)
  {
    if 0.0 <= p <= 1.0 {
      MulNonNegative(p, 1.0 - p);
    }
    if 0.0 < p < 1.0 {
      Positive(p, 1.0 - p);
    }
  }

  lemma GaugeIdentity(p: real, c: real, s: real, t: real)
    requires SquaresTo(s, p, c)
    ensures Lead(p, c, t) * Lead(p, c, t) - s * s == (1.0 + c) * Gauge(p, c, t)
  {
    var a, d := p + c / 2.0, 1.0 + c;
    assert a * a == p * p + p * c + c * c / 4.0;
    assert a * a - s * s == d * (p * p);
    assert (a - d * t) * (a - d * t) == a * a - d * (2.0 * a * t) + d * (d * t * t);
    assert Gauge(p, c, t) == p * p - 2.0 * a * t + d * t * t;
    assert d * Gauge(p, c, t) == d * (p * p) - d * (2.0 * a * t) + d * (d * t * t);
  }

  lemma GaugeDifference(p: real, c: real, t: real)
    ensures Gauge(p, c, p) - Gauge(p, c, t) == (t - p) * (Lead(p, c, p) + Lead(p, c, t))
    ensures Gauge(p, c, p) == -(c * Variance(p))
  {
  }

  lemma LeadFalls(p: real, c: real, x: real, y: real)
    requires 0.0 < c
    ensures x < y ==> Lead(p, c, y) < Lead(p, c, x)
  {
    if x < y {
      Scaled(1.0 + c, x, y);
    }
  }

  /** Where the gauge is not negative, "left of the vertex" and "below p" are the
      same thing. */
  lemma LeftBranch(p: real, c: real, t: real)
    requires 0.0 <= p <= 1.0 && 0.0 < c && 0.0 < t <= 1.0 && 0.0 <= Gauge(p, c, t)
    ensures 0.0 <= Lead(p, c, t) <==> t < p
  {
    hide Gauge, Lead, Variance;
    GaugeDifference(p, c, t);
    VarianceSign(p);
    MulNonNegative(c, Variance(p));
    LeadFalls(p, c, t, p);
    if t < p && Lead(p, c, t) < 0.0 {
      Positive(p - t, -(Lead(p, c, p) + Lead(p, c, t)));
      Flip(t - p, Lead(p, c, p) + Lead(p, c, t));
      assert false;
    }
    if p <= t && 0.0 <= Lead(p, c, t) {
      LeadFalls(p, c, p, t);
      EdgeCase(p, c, t);
      assert false;
    }
  }

  lemma Flip(x: real, y: real)
    ensures (-x) * (-y) == x * y
  {
  }

  lemma EdgeCase(p: real, c: real, t: real)
    requires 0.0 <= p <= 1.0 && 0.0 < c && 0.0 < t <= 1.0 && p <= t
    requires 0.0 <= Lead(p, c, t) <= Lead(p, c, p)
    ensures Gauge(p, c, t) < 0.0
  {
    GaugeDifference(p, c, t);
    if p == 0.0 {
      AtZero(c, t);
    } else if p == 1.0 {
      AtOne(c);
    } else {
      hide Gauge, Lead;
      VarianceSign(p);
      hide Variance;
      Positive(c, Variance(p));
      MulNonNegative(t - p, Lead(p, c, p) + Lead(p, c, t));
    }
  }

  lemma AtZero(c: real, t: real)
    requires 0.0 < c && 0.0 < t && 0.0 <= Lead(0.0, c, t)
    ensures Gauge(0.0, c, t) < 0.0
  {
    assert Gauge(0.0, c, t) == -(t * (c - (1.0 + c) * t));
    Positive(t, c - (1.0 + c) * t);
  }

  lemma Scaled(d: real, x: real, y: real)
    requires 0.0 < d && x < y
    ensures d * x < d * y
  {
  }

  lemma Positive(x: real, y: real)
    requires 0.0 < x && 0.0 < y
    ensures 0.0 < x * y
  {
  }

  lemma AtOne(c: real)
    requires 0.0 < c
    ensures Lead(1.0, c, 1.0) < 0.0
  {
  }

  lemma CompareSquares(a: real, s: real)
    requires 0.0 <= s
    ensures s <= a <==> 0.0 <= a && 0.0 <= a * a - s * s
  {
    if s <= a {
      MulNonNegative(a - s, a + s);
    } else if 0.0 <= a {
      Positive(s - a, s + a);
    }
  }

  lemma RootAgainstLead(p: real, c: real, s: real, t: real)
    requires 0.0 < c && SquaresTo(s, p, c)
    ensures s <= Lead(p, c, t) <==> 0.0 <= Lead(p, c, t) && 0.0 <= Gauge(p, c, t)
  {
    hide Gauge, Lead;
    assert 0.0 <= s;
    GaugeIdentity(p, c, s, t);
    hide SquaresTo;
    CompareSquares(Lead(p, c, t), s);
    SignOfProduct(1.0 + c, Gauge(p, c, t));
  }

  /** The cut is the formula: thresholds the bound is at least. */
  lemma CutIsTheBound(p: real, c: real, s: real, t: real)
    requires 0.0 <= p <= 1.0 && 0.0 < c && SquaresTo(s, p, c)
    requires 0.0 < t <= 1.0
    ensures t <= (p + c / 2.0 - s) / (1.0 + c) <==> t < p && 0.0 <= Gauge(p, c, t)
  {
    hide Gauge, SquaresTo;
    QuotientAtLeast(p + c / 2.0 - s, 1.0 + c, t);
    assert t <= (p + c / 2.0 - s) / (1.0 + c) <==> s <= Lead(p, c, t);
    hide Lead;
    RootAgainstLead(p, c, s, t);
    if 0.0 <= Gauge(p, c, t) {
      LeftBranch(p, c, t);
    }
  }

  lemma QuotientAtLeast(x: real, d: real, t: real)
    requires 0.0 < d
    ensures t <= x / d <==> d * t <= x
  {
    var q := x / d;
    assert q * d == x;
    SignOfProduct(d, q - t);
    assert d * (q - t) == x - d * t;
  }

  /** Whatever real root the source's square root returns, its score is at least
      t exactly when the cut says so. */
  lemma ScoreIsTheCut(k: nat, n: nat, root: real, t: real)
    requires k <= n && 0 < n && IsRoot(root, Radicand(k, n))
    ensures t <= Lcb(k, n, root) <==> Reaches(k, n, t)
  {
    var p, fn := Share(k, n), n as real;
    ShareInUnit(k, n);
    LcbIn(k, n, root);
    SpreadSquared(p, fn, root);
    hide IsRoot, Lcb, SquaresTo, Gauge, Share, FarBelow;
    assert 0.0 < Z2 / fn;
    if 0.0 < t <= 1.0 {
      CutIsTheBound(p, Z2 / fn, Z * root, t);
      GaugeScaled(p, fn, t);
    }
  }

  /** The clamped formula in the units of c = z^2/n. */
  lemma LcbIn(k: nat, n: nat, root: real)
    requires 0 < n
    ensures var p, c := Share(k, n), Z2 / n as real;
      var lcb := (p + c / 2.0 - Z * root) / (1.0 + c);
      Lcb(k, n, root) == if 1.0 < lcb then 1.0 else if lcb < 0.0 then 0.0 else lcb
  {
    HalfShare(n as real);
  }

  lemma ShareInUnit(k: nat, n: nat)
    requires k <= n && 0 < n
    ensures 0.0 <= Share(k, n) <= 1.0
    ensures n as real * Share(k, n) == k as real
  {
    var q := Share(k, n);
    assert q * n as real == k as real;
  }

  lemma HalfShare(fn: real)
    requires 0.0 < fn
    ensures Z2 / (2.0 * fn) == Z2 / fn / 2.0
  {
    var c := Z2 / fn;
    assert c * fn == Z2;
    assert c / 2.0 * (2.0 * fn) == Z2;
  }

  lemma SpreadSquared(p: real, fn: real, root: real)
    requires 0.0 < fn && 0.0 < 4.0 * fn * fn
    requires IsRoot(root, p * (1.0 - p) / fn + Z2 / (4.0 * fn * fn))
    ensures SquaresTo(Z * root, p, Z2 / fn)
  {
    var c, x, y := Z2 / fn, p * (1.0 - p) / fn, Z2 / (4.0 * fn * fn);
    assert (Z * root) * (Z * root) == Z2 * (root * root) == Z2 * x + Z2 * y;
    assert Z2 * x == c * (p * (1.0 - p)) by {
      Exchange(Z2, p * (1.0 - p), fn);
    }
    assert Z2 * y == c * c / 4.0 by {
      SquareOverFour(Z2, fn, 4.0 * fn * fn);
    }
  }

  lemma Exchange(a: real, b: real, d: real)
    requires 0.0 < d
    ensures a * (b / d) == (a / d) * b
  {
    var x, y := b / d, a / d;
    assert x * d == b && y * d == a;
    Cancel(a * x, y * b, d);
  }

  lemma Cancel(x: real, y: real, d: real)
    requires 0.0 < d && x * d == y * d
    ensures x == y
  {
    assert (x - y) * d == 0.0;
  }

  lemma SquareOverFour(a: real, d: real, e: real)
    requires 0.0 < d && 0.0 < e == 4.0 * d * d
    ensures a * (a / e) == (a / d) * (a / d) / 4.0
  {
    var x, y := a / e, a / d;
    assert x * e == a && y * d == a;
    assert (a * x) * e == a * a;
    assert (y * y / 4.0) * e == (y * d) * (y * d);
    Cancel(a * x, y * y / 4.0, e);
  }

  lemma GaugeScaled(p: real, fn: real, t: real)
    requires 0.0 < fn
    ensures 0.0 <= Gauge(p, Z2 / fn, t) <==> FarBelow(fn, p, t)
  {
    var c := Z2 / fn;
    assert c * fn == Z2;
    SignOfProduct(fn, Gauge(p, c, t));
    assert fn * (c * Variance(t)) == Z2 * t * (1.0 - t);
    assert fn * Gauge(p, c, t) == fn * (p - t) * (p - t) - fn * (c * Variance(t));
  }
}
