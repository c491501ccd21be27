/** More errors never lower the p-value, so the counts that pass are the first few. */
module PValueMonotone {
  import opened Powers
  import opened Binomial
  import opened PValue

  lemma Reciprocal(n: real)
    requires 0.0 < n
    ensures n * (1.0 / n) == 1.0 && 0.0 < 1.0 / n
    ensures 1.0 <= n ==> 1.0 / n <= 1.0
  {
    var x := 1.0 / n;
    assert n * x == 1.0;
    SignOfProduct(n, x);
    if 1.0 <= n {
      MulNonNegative(n - 1.0, x);
      assert (n - 1.0) * x == n * x - x;
    }
  }

  lemma SplitReciprocal(a: nat, b: nat, x: real)
    requires 1 <= a && 1 <= b && x == 1.0 / (a * b) as real
    ensures b as real * x == 1.0 / a as real
  {
    var n := (a * b) as real;
    assert n == a as real * b as real && 0.0 < n by {
      assert 1 <= a * b;
    }
    Reciprocal(n);
    var y, z := b as real * x, 1.0 / a as real;
    assert a as real * y == 1.0 by {
      assert a as real * (b as real * x) == (a as real * b as real) * x;
    }
    Reciprocal(a as real);
    SameFactor(a as real, y, z);
  }

  lemma SameFactor(a: real, y: real, z: real)
    requires 0.0 < a && a * y == a * z
    ensures y == z
  {
    assert a * (y - z) == 0.0;
    SignOfProduct(a, y - z);
    SignOfProduct(a, z - y);
    assert a * (z - y) == 0.0;
  }

  /** One plus a k-th, k times, is at most its (m+1)-fold refinement. */
  lemma RisingRefines(k: nat, m: nat, x: real)
    requires 1 <= k && 1 <= m && x == 1.0 / (k * m) as real
    ensures Pow(1.0 + 1.0 / k as real, k) <= Pow(1.0 + x, m * k)
  {
    hide Pow;
    SplitReciprocal(k, m, x);
    Reciprocal((k * m) as real) by { assert 1 <= k * m; }
    Reciprocal(k as real);
    Bernoulli(x, m);
    PowInBase(1.0 + 1.0 / k as real, Pow(1.0 + x, m), k);
    PowOfPow(1.0 + x, m, k);
  }

  lemma FallingRefines(k: nat, m: nat, x: real)
    requires 1 <= k && 1 <= m && x == 1.0 / (k * m) as real
    ensures Pow(1.0 - 1.0 / m as real, m) <= Pow(1.0 - x, m * k)
  {
    hide Pow;
    assert k * m == m * k;
    SplitReciprocal(m, k, x);
    Reciprocal((k * m) as real) by { assert 1 <= k * m; }
    Reciprocal(m as real);
    Bernoulli(-x, k);
    PowInBase(1.0 - 1.0 / m as real, Pow(1.0 - x, k), m);
    PowOfPow(1.0 - x, k, m);
  }

  /** (1 + 1/k)^k never exceeds the inverse of (1 - 1/m)^m. */
  lemma EulerBetween(k: nat, m: nat)
    requires 1 <= k && 1 <= m
    ensures Pow(1.0 + 1.0 / k as real, k) * Pow(1.0 - 1.0 / m as real, m) <= 1.0
  {
    hide Pow;
    var n := m * k;
    assert 1 <= n && k * m == n;
    var x := 1.0 / n as real;
    Reciprocal(n as real);
    Reciprocal(k as real);
    Reciprocal(m as real);
    RisingRefines(k, m, x);
    FallingRefines(k, m, x);
    PowNonNegative(1.0 + 1.0 / k as real, k);
    PowNonNegative(1.0 - 1.0 / m as real, m);
    MulLe(Pow(1.0 + 1.0 / k as real, k), Pow(1.0 + x, n), Pow(1.0 - 1.0 / m as real, m), Pow(1.0 - x, n));
    var z := 1.0 - x * x;
    assert (1.0 + x) * (1.0 - x) == z;
    PowProduct(1.0 + x, 1.0 - x, z, n);
    assert 0.0 <= x * x <= 1.0 by { MulLe(x, 1.0, x, 1.0); MulNonNegative(x, x); }
    PowAtMostOne(z, n);
  }

  // ------------------------------------------------------------ the Hoeffding term

  lemma RatioOfShares(k: nat, n: nat)
    requires 1 <= k && k + 1 < n
    ensures var (a, a') := (k as real / n as real, (k + 1) as real / n as real);
      && 0.0 < a < a' < 1.0
      && a' / a == 1.0 + 1.0 / k as real
      && (1.0 - a') / (1.0 - a) == 1.0 - 1.0 / (n - k) as real
  {
    var r := 1.0 / n as real;
    var a, a' := k as real / n as real, (k + 1) as real / n as real;
    Reciprocal(n as real);
    Multiples(k as real, n as real, a, r);
    Multiples((k + 1) as real, n as real, a', r);
    assert (n - k) as real == n as real - k as real;
    RatioOfSteps(k as real, n as real, r, a, a');
  }

  lemma RatioOfSteps(k: real, n: real, r: real, a: real, a': real)
    requires 1.0 <= k && k + 1.0 < n && 0.0 < r && n * r == 1.0 && a == k * r && a' == (k + 1.0) * r
    ensures 0.0 < a < a' < 1.0
    ensures a' / a == 1.0 + 1.0 / k && (1.0 - a') / (1.0 - a) == 1.0 - 1.0 / (n - k)
  {
    assert a' == a + r;
    LeftOver(k, n, r, a);
    LeftOver(k + 1.0, n, r, a');
    OneOverMultiple(k, r, a);
    OneOverMultiple(n - k, r, 1.0 - a);
    SumOverA(a, r, 1.0 / k);
    DifferenceOverB(1.0 - a, r, 1.0 / (n - k));
  }

  lemma LeftOver(k: real, n: real, r: real, a: real)
    requires k < n && 0.0 < r && n * r == 1.0 && a == k * r
    ensures 1.0 - a == (n - k) * r && a < 1.0
  {
    DifferenceTimes(n, k, r, 1.0, a, (n - k) * r);
    PositiveProduct(n - k, r, (n - k) * r);
  }

  lemma DifferenceTimes(n: real, k: real, r: real, x: real, y: real, z: real)
    requires x == n * r && y == k * r && z == (n - k) * r
    ensures z == x - y
  {
  }

  lemma PositiveProduct(d: real, r: real, z: real)
    requires 0.0 < d && 0.0 < r && z == d * r
    ensures 0.0 < z
  {
  }

  lemma Multiples(k: real, n: real, a: real, r: real)
    requires 0.0 < n && a == k / n && n * r == 1.0
    ensures a == k * r
  {
    assert n * a == k;
    assert n * (k * r) == k * (n * r);
    SameFactor(n, a, k * r);
  }

  lemma QuotientIs(r: real, a: real, z: real)
    requires 0.0 < a && a * z == r
    ensures r / a == z
  {
    var y := r / a;
    assert a * y == r;
    SameFactor(a, y, z);
  }

  lemma OneTimes(k: real, r: real, a: real, z: real)
    requires a == k * r && k * z == 1.0
    ensures a * z == r
  {
    var one := k * z;
    assert (k * r) * z == r * one;
  }

  /** r over k * r is 1 over k. */
  lemma OneOverMultiple(k: real, r: real, a: real)
    requires 0.0 < k && 0.0 < r && a == k * r
    ensures 0.0 < a && r / a == 1.0 / k
  {
    SignOfProduct(k, r);
    var z := 1.0 / k;
    assert k * z == 1.0;
    OneTimes(k, r, a, z);
    QuotientIs(r, a, z);
  }

  lemma SumOverA(a: real, r: real, z: real)
    requires 0.0 < a && r / a == z
    ensures (a + r) / a == 1.0 + z
  {
    var y := (a + r) / a;
    assert a * y == a + r;
    assert a * z == r;
    assert a * (1.0 + z) == a + a * z;
    SameFactor(a, y, 1.0 + z);
  }

  lemma DifferenceOverB(b: real, r: real, z: real)
    requires 0.0 < b && r / b == z
    ensures (b - r) / b == 1.0 - z
  {
    var y := (b - r) / b;
    assert b * y == b - r;
    assert b * z == r;
    assert b * (1.0 - z) == b - b * z;
    SameFactor(b, y, 1.0 - z);
  }

  lemma QuotientChain(q: real, b: real, b': real, x: real, y: real, z: real)
    requires b != 0.0 && b' != 0.0 && x == q / b' && y == b' / b && z == q / b
    ensures x * y == z
  {
    assert x * b' == q && y * b == b' && z * b == q;
    assert (x * y) * b == x * (y * b);
    assert (x * y - z) * b == 0.0;
  }

  /** The two kept terms at k and k + 1 errors, over common factors. */
  lemma TermsCompare(x: real, y: real, u: real, w: real, k: nat, m: nat, xu: real, yw: real)
    requires 0.0 <= y <= 1.0 <= x && 0.0 <= u && 0.0 <= w && Pow(u, k) * Pow(w, m + 1) <= 1.0
    requires xu == x * u && yw == y * w
    ensures Pow(xu, k) * Pow(yw, m + 1) <= Pow(x, k + 1) * Pow(y, m)
  {
    hide Pow;
    PowProduct(x, u, xu, k);
    PowProduct(y, w, yw, m + 1);
    PowPred(x, k + 1);
    PowPred(y, m + 1);
    PowNonNegative(x, k);
    PowNonNegative(y, m);
    var a, b, c, d := Pow(x, k), Pow(y, m), Pow(u, k), Pow(w, m + 1);
    Rearrange(a, c, y, b, d);
    var base := a * b;
    MulNonNegative(a, b);
    MulNonNegative(base, y);
    ScaleLe(base * y, c * d, 1.0);
    ScaleLe(base, y, x);
    assert (x * a) * b == base * x;
  }

  lemma Rearrange(a: real, c: real, y: real, b: real, d: real)
    ensures (a * c) * ((y * b) * d) == ((a * b) * y) * (c * d)
  {
  }

  lemma KeptTermGrows(k: nat, n: nat, alpha: real)
    requires 1 <= k && k + 1 < n && (k + 1) as real / n as real < alpha < 1.0
    ensures KeptForm(k, n, alpha) <= KeptForm(k + 1, n, alpha)
  {
    hide Pow;
    var a, a' := k as real / n as real, (k + 1) as real / n as real;
    RatioOfShares(k, n);
    EulerBetween(k, n - k);
    KeptCompare(a, a', alpha, k, n - k - 1, a' / a, (1.0 - a') / (1.0 - a));
  }

  lemma KeptCompare(a: real, a': real, alpha: real, k: nat, m: nat, u: real, w: real)
    requires 0.0 < a < a' < alpha < 1.0 && u == a' / a && w == (1.0 - a') / (1.0 - a)
    requires Pow(u, k) * Pow(w, m + 1) <= 1.0
    ensures Pow(alpha / a, k) * Pow((1.0 - alpha) / (1.0 - a), m + 1)
         <= Pow(alpha / a', k + 1) * Pow((1.0 - alpha) / (1.0 - a'), m)
  {
    hide Pow;
    var q := 1.0 - alpha;
    var x, y, xu, yw := alpha / a', q / (1.0 - a'), alpha / a, q / (1.0 - a);
    QuotientChain(alpha, a, a', x, u, xu);
    QuotientChain(q, 1.0 - a, 1.0 - a', y, w, yw);
    QuotientAtLeastOne(alpha, a');
    QuotientAtMostOne(q, 1.0 - a');
    QuotientNonNegative(a', a);
    QuotientNonNegative(1.0 - a', 1.0 - a);
    TermsCompare(x, y, u, w, k, m, xu, yw);
  }

  /** The term with both its factors. */
  function KeptForm(k: nat, n: nat, alpha: real): real
    requires 1 <= k < n
  {
    var a := k as real / n as real;
    assert n as real * a == k as real;
    assert n as real * (1.0 - a) == (n - k) as real;
    Pow(alpha / a, k) * Pow((1.0 - alpha) / (1.0 - a), n - k)
  }

  /** What h1 leaves of the term when it drops the first factor. */
  function DroppedForm(k: nat, n: nat, alpha: real): real
    requires k < n
  {
    Pow((1.0 - alpha) / (1.0 - k as real / n as real), n - k)
  }

  lemma ShareBelowOne(k: nat, n: nat)
    requires k < n
    ensures 0.0 <= k as real / n as real < 1.0
  {
    var a := k as real / n as real;
    assert a * n as real == k as real;
    assert n as real * (1.0 - a) == n as real - k as real;
    SignOfProduct(n as real, 1.0 - a);
    QuotientNonNegative(k as real, n as real);
  }

  lemma SharesGrow(k: nat, n: nat)
    requires k < n
    ensures k as real / n as real <= (k + 1) as real / n as real
  {
    var a, a' := k as real / n as real, (k + 1) as real / n as real;
    assert n as real * a == k as real && n as real * a' == (k + 1) as real;
    assert n as real * (a' - a) == 1.0;
    SignOfProduct(n as real, a' - a);
  }

  lemma DroppedFormGrows(k: nat, n: nat, alpha: real)
    requires k + 1 < n && (k + 1) as real / n as real < alpha < 1.0
    ensures DroppedForm(k, n, alpha) <= DroppedForm(k + 1, n, alpha)
  {
    hide Pow;
    var a, a', q, m := k as real / n as real, (k + 1) as real / n as real, 1.0 - alpha, n - (k + 1);
    ShareBelowOne(k, n);
    ShareBelowOne(k + 1, n);
    SharesGrow(k, n);
    QuotientAtMostOne(q, 1.0 - a);
    QuotientAtMostOne(q, 1.0 - a');
    LargerDivisor(q, 1.0 - a', 1.0 - a);
    PowInBase(q / (1.0 - a), q / (1.0 - a'), n - k);
    PowAntitone(q / (1.0 - a'), m, n - k);
  }

  lemma LargerDivisor(q: real, b: real, c: real)
    requires 0.0 <= q && 0.0 < b <= c
    ensures q / c <= q / b
  {
    var x, y := q / c, q / b;
    assert x * c == q && y * b == q;
    QuotientNonNegative(q, c);
    MulLe(x, x, b, c);
    assert b * (y - x) == y * b - x * b;
    SignOfProduct(b, y - x);
  }

  /** Keeping the first factor can only raise the term. */
  lemma DroppedBelowKept(k: nat, n: nat, alpha: real)
    requires 1 <= k < n && k as real / n as real < alpha < 1.0
    ensures DroppedForm(k, n, alpha) <= KeptForm(k, n, alpha)
  {
    hide Pow;
    var a := k as real / n as real;
    ShareBelowOne(k, n);
    SignOfShare(k, n);
    QuotientAtLeastOne(alpha, a);
    PowAtLeastOne(alpha / a, k);
    QuotientAtMostOne(1.0 - alpha, 1.0 - a);
    PowNonNegative((1.0 - alpha) / (1.0 - a), n - k);
    MulLe(1.0, Pow(alpha / a, k), DroppedForm(k, n, alpha), DroppedForm(k, n, alpha));
  }

  lemma SignOfShare(k: nat, n: nat)
    requires 1 <= k && 1 <= n
    ensures 0.0 < k as real / n as real
  {
    var a := k as real / n as real;
    assert n as real * a == k as real;
    SignOfProduct(n as real, a);
  }

  lemma TermForms(k: nat, n: nat, alpha: real)
    requires k < n && k as real / n as real < alpha && TINY < alpha < 1.0 - TINY
    ensures TINY < k as real / n as real ==> k != 0 && HoeffdingTerm(k, n, alpha) == KeptForm(k, n, alpha)
    ensures k as real / n as real <= TINY ==> HoeffdingTerm(k, n, alpha) == DroppedForm(k, n, alpha)
  {
    hide Pow;
  }

  lemma TermGrows(k: nat, n: nat, alpha: real)
    requires k + 1 < n && (k + 1) as real / n as real < alpha && TINY < alpha < 1.0 - TINY
    ensures HoeffdingTerm(k, n, alpha) <= HoeffdingTerm(k + 1, n, alpha)
  {
    hide HoeffdingTerm, DroppedForm, KeptForm;
    SharesGrow(k, n);
    TermForms(k, n, alpha);
    TermForms(k + 1, n, alpha);
    if TINY < k as real / n as real {
      KeptTermGrows(k, n, alpha);
    } else {
      DroppedFormGrows(k, n, alpha);
      DroppedBelowKept(k + 1, n, alpha);
    }
  }

  // ------------------------------------------------------------ the p-value

  lemma MinGrows(x: real, y: real, x': real, y': real)
    requires x <= x' && y <= y'
    ensures Min(1.0, Min(x, y)) <= Min(1.0, Min(x', y'))
  {
  }

  lemma AtMostOne(k: nat, n: nat, alpha: real)
    requires k <= n
    ensures HoeffdingBentkus(k, n, alpha) <= 1.0
  {
  }

  /** One more error never lowers the p-value. */
  lemma PValueGrows(k: nat, n: nat, alpha: real)
    requires k < n && 0.0 < alpha < 1.0
    ensures HoeffdingBentkus(k, n, alpha) <= HoeffdingBentkus(k + 1, n, alpha)
  {
    hide HoeffdingTerm, BinomCdf, Cdf;
    AtMostOne(k, n, alpha);
    SharesGrow(k, n);
    if (k + 1) as real / n as real < alpha {
      var b, b' := BinomCdf(k, n, alpha), BinomCdf(k + 1, n, alpha);
      BinomCdfIsTheExactTail(k, n, alpha);
      BinomCdfIsTheExactTail(k + 1, n, alpha);
      CdfGrows(n, k, k + 1, alpha);
      ScaleLe(EULER, b, b');
      if k + 1 == n {
        FullShare(n);
      } else if TINY < alpha < 1.0 - TINY {
        TermGrows(k, n, alpha);
      } else {
        UnclearTerm(k, n, alpha);
        UnclearTerm(k + 1, n, alpha);
      }
      MinGrows(HoeffdingTerm(k, n, alpha), EULER * b, HoeffdingTerm(k + 1, n, alpha), EULER * b');
    }
  }

  lemma FullShare(n: nat)
    requires 1 <= n
    ensures n as real / n as real == 1.0
  {
    var x := n as real / n as real;
    assert n as real * x == n as real;
    SameFactor(n as real, x, 1.0);
  }

  lemma {:induction false} PValueMonotone(j: nat, k: nat, n: nat, alpha: real)
    requires j <= k <= n && 0.0 < alpha < 1.0
    ensures HoeffdingBentkus(j, n, alpha) <= HoeffdingBentkus(k, n, alpha)
    decreases k - j
  {
    hide HoeffdingBentkus;
    if j < k {
      PValueMonotone(j, k - 1, n, alpha);
      PValueGrows(k - 1, n, alpha);
    }
  }

  /** The largest error count in n points that passes at the level, -1 if none. */
  function LargestPassing(n: nat, alpha: real, bar: real, top: nat): (c: int)
    requires top <= n
    ensures -1 <= c <= top
    ensures 0 <= c ==> HoeffdingBentkus(c, n, alpha) <= bar
    ensures forall k: nat :: c < k <= top ==> bar < HoeffdingBentkus(k, n, alpha)
  {
    if HoeffdingBentkus(top, n, alpha) <= bar then top
    else if top == 0 then -1
    else LargestPassing(n, alpha, bar, top - 1)
  }

  /** A count passes exactly when it is no larger. */
  lemma PassesExactlyWhen(k: nat, n: nat, alpha: real, bar: real)
    requires k <= n && 0.0 < alpha < 1.0
    ensures HoeffdingBentkus(k, n, alpha) <= bar <==> k <= LargestPassing(n, alpha, bar, n)
  {
    hide HoeffdingBentkus;
    var c := LargestPassing(n, alpha, bar, n);
    if k <= c {
      PValueMonotone(k, c, n, alpha);
    }
  }
}
