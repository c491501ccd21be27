/** What the p-value is, from the counts alone: the least of 1, the likelihood ratio
    of alpha against k/n, and e times the exact tail. */
module PValueExact {
  import opened Powers
  import opened Binomial
  import opened PValue

  /** The likelihood of k errors in n points at rate alpha, times n^n; the error
      half is missing where h1 drops it. */
  function AtAlpha(k: nat, n: nat, alpha: real): real
    requires 0 < n && k <= n
  {
    (if KeepsTerm(k, n) then Pow(alpha, k) * Pow(n as real, k) else 1.0)
    * (Pow(1.0 - alpha, n - k) * Pow(n as real, n - k))
  }

  /** The same at the rate k/n observed. */
  function AtObserved(k: nat, n: nat): real
    requires 0 < n && k <= n
  {
    (if KeepsTerm(k, n) then Pow(k as real, k) else 1.0) * Pow((n - k) as real, n - k)
  }

  lemma PowOverShare(x: real, a: real, m: nat, n: nat, e: nat)
    requires a != 0.0 && a * n as real == m as real
    ensures Pow(x / a, e) * Pow(m as real, e) == Pow(x, e) * Pow(n as real, e)
  {
    hide Pow;
    PowQuotient(x, a, e);
    PowProduct(a, n as real, m as real, e);
    var h, p, q := Pow(x / a, e), Pow(a, e), Pow(n as real, e);
    assert h * (p * q) == (h * p) * q;
  }

  lemma Shares(k: nat, n: nat)
    requires 0 < n && k <= n
    ensures var a := k as real / n as real; a * n as real == k as real && (1.0 - a) * n as real == (n - k) as real
  {
    var a, m := k as real / n as real, n as real;
    assert a * m == k as real;
    assert (1.0 - a) * m == m - a * m;
  }

  lemma FourFactors(a: real, b: real, c: real, d: real, x: real, y: real)
    requires a * c == x && b * d == y
    ensures (a * b) * (c * d) == x * y
  {
    assert (a * b) * (c * d) == (a * c) * (b * d);
  }

  /** The Hoeffding term is the ratio of the two likelihoods. */
  lemma TermIsLikelihoodRatio(k: nat, n: nat, alpha: real)
    requires 0 < n && k <= n && k as real / n as real < alpha && TINY < alpha < 1.0 - TINY
    ensures HoeffdingTerm(k, n, alpha) * AtObserved(k, n) == AtAlpha(k, n, alpha)
  {
    hide Pow;
    var a := k as real / n as real;
    Shares(k, n);
    var u, v := if TINY < a then Pow(alpha / a, k) else 1.0, Pow((1.0 - alpha) / (1.0 - a), n - k);
    assert HoeffdingTerm(k, n, alpha) == u * v;
    PowOverShare(1.0 - alpha, 1.0 - a, n - k, n, n - k);
    var c, x := if KeepsTerm(k, n) then Pow(k as real, k) else 1.0,
                if KeepsTerm(k, n) then Pow(alpha, k) * Pow(n as real, k) else 1.0;
    assert u * c == x by {
      if k == 0 {
        PowZero(0.0);
        PowZero(alpha);
        PowZero(n as real);
      } else if TINY < a {
        PowOverShare(alpha, a, k, n, k);
      }
    }
    FourFactors(u, v, c, Pow((n - k) as real, n - k), x, Pow(1.0 - alpha, n - k) * Pow(n as real, n - k));
  }

  lemma ObservedPositive(k: nat, n: nat)
    requires 0 < n && k <= n
    ensures 0.0 < AtObserved(k, n)
  {
    hide Pow;
    PowZero(0.0);
    PowNonNegative(k as real, k);
    PowNonNegative((n - k) as real, n - k);
    SignOfProduct(if KeepsTerm(k, n) then Pow(k as real, k) else 1.0, Pow((n - k) as real, n - k));
  }

  lemma LeastOfThree(x: real, y: real)
    ensures var m := Min(1.0, Min(x, y));
      m <= 1.0 && m <= x && m <= y && (m == 1.0 || m == x || m == y)
  {
  }

  /** Below a risk of alpha the p-value is at most 1, at most e times the exact tail
      and at most the likelihood ratio, and is one of the three. */
  lemma PValueIsTheLeastOfThree(k: nat, n: nat, alpha: real)
    requires 0 < n && k <= n && k as real / n as real < alpha && TINY < alpha < 1.0 - TINY
    ensures var p := HoeffdingBentkus(k, n, alpha);
      && p <= 1.0 && p <= EULER * Cdf(n, k, alpha) && p * AtObserved(k, n) <= AtAlpha(k, n, alpha)
      && (p == 1.0 || p == EULER * Cdf(n, k, alpha) || p * AtObserved(k, n) == AtAlpha(k, n, alpha))
  {
    hide Cdf, AtObserved, AtAlpha, HoeffdingTerm, BinomCdf;
    BinomCdfIsTheExactTail(k, n, alpha);
    TermIsLikelihoodRatio(k, n, alpha);
    ObservedPositive(k, n);
    LeastOfThree(HoeffdingTerm(k, n, alpha), EULER * BinomCdf(k, n, alpha));
    var p := HoeffdingBentkus(k, n, alpha);
    ScaleLe(AtObserved(k, n), p, HoeffdingTerm(k, n, alpha));
  }

  /** At a risk of alpha or more, and on no points, it is 1; for alpha within TINY
      of 0 or 1 it is otherwise 0. */
  lemma PValueElsewhere(k: nat, n: nat, alpha: real)
    requires k <= n && 0.0 < alpha < 1.0
    ensures n == 0 || alpha <= k as real / n as real ==> HoeffdingBentkus(k, n, alpha) == 1.0
    ensures 0 < n && k as real / n as real < alpha && !(TINY < alpha < 1.0 - TINY) ==>
      HoeffdingBentkus(k, n, alpha) == 0.0
  {
    hide Cdf;
    if 0 < n {
      BinomCdfIsTheExactTail(k, n, alpha);
      CdfNonNegative(n, k, alpha);
    }
  }

  // ------------------------------------------------------------ the constant e

  function Factorial(n: nat): (r: nat)
    ensures 0 < r
  {
    if n == 0 then 1 else n * Factorial(n - 1)
  }

  /** 1/0! + ... + 1/n!. */
  function ExpSeries(n: nat): real {
    (if n == 0 then 0.0 else ExpSeries(n - 1)) + 1.0 / Factorial(n) as real
  }

  lemma Unfolded(n: nat, f: nat, g: nat)
    requires 1 <= n && Factorial(n - 1) == f && g == n * f
    ensures Factorial(n) == g && ExpSeries(n) == ExpSeries(n - 1) + 1.0 / g as real
  {
  }

  lemma TenTerms()
    ensures Factorial(9) == 362880 && ExpSeries(9) == 98641.0 / 36288.0
  {
    assert Factorial(0) == 1 && ExpSeries(0) == 1.0;
    hide *;
    Unfolded(1, 1, 1);
    Unfolded(2, 1, 2);
    Unfolded(3, 2, 6);
    Unfolded(4, 6, 24);
    Unfolded(5, 24, 120);
    Unfolded(6, 120, 720);
    Unfolded(7, 720, 5040);
    Unfolded(8, 5040, 40320);
    Unfolded(9, 40320, 362880);
  }

  /** EULER is e to the precision of a double: the terms after 1/17! add less than
      1e-15. */
  lemma EulerIsTheSeries()
    ensures -0.000000000000001 < EULER - ExpSeries(17) < 0.000000000000001
  {
    assert EULER == 2.718281828459045;
    TenTerms();
    hide *;
    Unfolded(10, 362880, 3628800);
    Unfolded(11, 3628800, 39916800);
    Unfolded(12, 39916800, 479001600);
    Unfolded(13, 479001600, 6227020800);
    Unfolded(14, 6227020800, 87178291200);
    Unfolded(15, 87178291200, 1307674368000);
    Unfolded(16, 1307674368000, 20922789888000);
    Unfolded(17, 20922789888000, 355687428096000);
  }
}
