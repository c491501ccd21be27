/** internal/calibrate/stats.go: the Hoeffding-Bentkus p-value, over exact reals.

    The empirical risk handed to the p-value is always k/n for a count k of 0/1
    losses, so exp(-n * h1(k/n, alpha)) is a product of integer powers and
    ceil(n * (k/n)) is k: neither exp nor log is needed. */
module PValue {
  import opened Powers
  import opened Binomial

  /** Below this distance from 0 and 1 the source treats a probability as 0 or 1. */
  const TINY: real := 0.000000000001

  /** The least sample size at which 1/n is no longer above TINY. */
  const SAMPLE_LIMIT: nat := 1_000_000_000_000

  const EULER: real := 2.718281828459045

  /** BinomCDF, branch by branch; the last branch is the documented meaning of
      the incomplete-beta call. */
  function BinomCdf(k: int, n: nat, p: real): real {
    if k < 0 then 0.0
    else if n <= k then 1.0
    else if p <= 0.0 then 1.0
    else if 1.0 <= p then 0.0
    else Cdf(n, k, p)
  }

  /** exp(-n * h1(k/n, b)). h1 is +Inf when b is within TINY of 0 or 1, and it
      drops the term of an argument within TINY of 0 or 1. */
  function HoeffdingTerm(k: nat, n: nat, b: real): real
    requires 0 < n && k <= n
  {
    var a := k as real / n as real;
    if b <= TINY || 1.0 - TINY <= b then 0.0
    else (if TINY < a then Pow(b / a, k) else 1.0)
         * (if a < 1.0 - TINY then Pow((1.0 - b) / (1.0 - a), n - k) else 1.0)
  }

  function Min(x: real, y: real): real {
    if x <= y then x else y
  }

  /** HoeffdingBentkus(k/n, n, alpha). */
  function HoeffdingBentkus(k: nat, n: nat, alpha: real): real
    requires k <= n
  {
    if n == 0 then 1.0
    else if alpha <= k as real / n as real then 1.0
    else Min(1.0, Min(HoeffdingTerm(k, n, alpha), EULER * BinomCdf(k, n, alpha)))
  }

  // ---------------------------------------------------------------- BinomCDF

  lemma {:induction false} CdfAtZeroRate(n: nat, k: int)
    requires 0 <= k
    ensures Cdf(n, k, 0.0) == 1.0
    decreases n
  {
    if n == 0 {
      CdfAll(0, k, 0.0);
    } else {
      CdfStep(n - 1, k, 0.0);
      CdfAtZeroRate(n - 1, k);
    }
  }

  lemma {:induction false} CdfAtFullRate(n: nat, k: int)
    requires k < n
    ensures Cdf(n, k, 1.0) == 0.0
    decreases n
  {
    if 0 <= k {
      CdfStep(n - 1, k, 1.0);
      CdfAtFullRate(n - 1, k - 1);
    }
  }

  /** Every shortcut branch of BinomCDF agrees with the exact finite sum. */
  lemma BinomCdfIsTheExactTail(k: int, n: nat, p: real)
    requires 0.0 <= p <= 1.0
    ensures BinomCdf(k, n, p) == Cdf(n, k, p)
  {
    if 0 <= k {
      if n <= k {
        CdfAll(n, k, p);
      } else if p == 0.0 {
        CdfAtZeroRate(n, k);
      } else if p == 1.0 {
        CdfAtFullRate(n, k);
      }
    }
  }

  // ------------------------------------------------------- the Hoeffding term

  /** x >= 1 >= y: raising the exponent of x and lowering that of y cannot
      lower the product. This is the likelihood ratio growing with the count. */
  lemma RatioGrows(x: real, y: real, j: nat, k: nat, n: nat)
    requires 0.0 <= y <= 1.0 <= x && j <= k <= n
    ensures Pow(x, j) * Pow(y, n - j) <= Pow(x, k) * Pow(y, n - k)
  {
    hide Pow;
    PowAtLeastOne(x, j);
    PowMonotone(x, j, k);
    PowAntitone(y, n - k, n - j);
    PowNonNegative(y, n - j);
    MulLe(Pow(x, j), Pow(x, k), Pow(y, n - j), Pow(y, n - k));
  }

  lemma ReorderFour(c: real, a: real, b: real, d: real, e: real)
    ensures c * ((a * d) * (b * e)) == (a * b) * (c * (d * e))
  {
  }

  lemma FactorLe(a: real, b: real, p: real, x: real)
    requires x == a * p && a <= b && 0.0 <= p
    ensures x <= b * p
  {
    MulNonNegative(b - a, p);
  }

  lemma SumUnderFactor(l: real, a: real, b: real, x: real, y: real)
    requires x <= l * a && y <= l * b
    ensures x + y <= l * (a + b)
  {
  }

  lemma PmfFactor(n: nat, j: nat, alpha: real, r: real)
    requires 0.0 < r < 1.0 && j <= n
    ensures Pmf(n, j, alpha)
         == Pow(alpha / r, j) * Pow((1.0 - alpha) / (1.0 - r), n - j) * Pmf(n, j, r)
  {
    hide Pow;
    var x, y := alpha / r, (1.0 - alpha) / (1.0 - r);
    PowQuotient(alpha, r, j);
    PowQuotient(1.0 - alpha, 1.0 - r, n - j);
    ReorderFour(Choose(n, j) as real, Pow(x, j), Pow(y, n - j), Pow(r, j), Pow(1.0 - r, n - j));
  }

  /** Mass at j <= k under rate alpha is at most the likelihood ratio at k times
      the mass at j under rate r = k/n. */
  lemma PmfUnderRatio(n: nat, j: nat, k: nat, alpha: real, r: real)
    requires 0.0 < r <= alpha < 1.0 && j <= k <= n
    ensures Pmf(n, j, alpha)
         <= Pow(alpha / r, k) * Pow((1.0 - alpha) / (1.0 - r), n - k) * Pmf(n, j, r)
  {
    hide Pmf, Pow;
    var x, y := alpha / r, (1.0 - alpha) / (1.0 - r);
    QuotientAtLeastOne(alpha, r);
    QuotientAtMostOne(1.0 - alpha, 1.0 - r);
    PmfFactor(n, j, alpha, r);
    RatioGrows(x, y, j, k, n);
    PmfNonNegative(n, j, r);
    FactorLe(Pow(x, j) * Pow(y, n - j), Pow(x, k) * Pow(y, n - k), Pmf(n, j, r), Pmf(n, j, alpha));
  }

  lemma {:induction false} CdfUnderRatio(n: nat, i: int, k: nat, alpha: real, r: real)
    requires 0.0 < r <= alpha < 1.0 && i <= k <= n
    ensures Cdf(n, i, alpha)
         <= Pow(alpha / r, k) * Pow((1.0 - alpha) / (1.0 - r), n - k) * Cdf(n, i, r)
    decreases i + 1
  {
    hide Pmf, Pow;
    if 0 <= i {
      CdfUnderRatio(n, i - 1, k, alpha, r);
      PmfUnderRatio(n, i, k, alpha, r);
      SumUnderFactor(Pow(alpha / r, k) * Pow((1.0 - alpha) / (1.0 - r), n - k),
                     Cdf(n, i - 1, r), Pmf(n, i, r), Cdf(n, i - 1, alpha), Pmf(n, i, alpha));
    }
  }

  lemma BelowFactor(l: real, c: real, x: real)
    requires 0.0 <= l && c <= 1.0 && x <= l * c
    ensures x <= l
  {
    ScaleLe(l, c, 1.0);
  }

  /** The Chernoff-Hoeffding bound in its product form. */
  lemma LikelihoodRatioBoundsTail(n: nat, k: nat, alpha: real, r: real)
    requires 0 < n && k <= n && 0.0 < r <= alpha < 1.0
    ensures Cdf(n, k, alpha) <= Pow(alpha / r, k) * Pow((1.0 - alpha) / (1.0 - r), n - k)
  {
    hide Pow, Cdf;
    CdfUnderRatio(n, k, k, alpha, r);
    CdfAtMostOne(n, k, r);
    var y := (1.0 - alpha) / (1.0 - r);
    QuotientAtMostOne(1.0 - alpha, 1.0 - r);
    QuotientAtLeastOne(alpha, r);
    PowNonNegative(alpha / r, k);
    PowNonNegative(y, n - k);
    MulNonNegative(Pow(alpha / r, k), Pow(y, n - k));
    BelowFactor(Pow(alpha / r, k) * Pow(y, n - k), Cdf(n, k, r), Cdf(n, k, alpha));
  }

  lemma CdfAtZeroErrors(n: nat, p: real)
    ensures Cdf(n, 0, p) == Pow(1.0 - p, n)
  {
    assert Cdf(n, -1, p) == 0.0;
    assert Choose(n, 0) == 1;
  }

  lemma RatioAboveTiny(k: nat, n: nat)
    requires 0 < k && 0 < n < SAMPLE_LIMIT
    ensures TINY < k as real / n as real
  {
    assert n as real < 1000000000000.0;
    assert n as real * TINY < k as real;
  }

  /** h1 keeps its a*log(a/b) term, or there is none to keep. */
  predicate KeepsTerm(k: nat, n: nat)
    requires 0 < n
  {
    k == 0 || TINY < k as real / n as real
  }

  lemma SmallSamplesKeepTerm(k: nat, n: nat)
    requires 0 < n < SAMPLE_LIMIT
    ensures KeepsTerm(k, n)
  {
    if k != 0 {
      RatioAboveTiny(k, n);
    }
  }

  lemma HoeffdingTermDominatesTail(k: nat, n: nat, alpha: real)
    requires 0 < n && k <= n && KeepsTerm(k, n)
    requires TINY < alpha < 1.0 - TINY && k as real / n as real < alpha
    ensures Cdf(n, k, alpha) <= HoeffdingTerm(k, n, alpha)
  {
    hide Pow, Cdf;
    var r := k as real / n as real;
    assert r < 1.0 - TINY;
    if k == 0 {
      assert r == 0.0;
      assert (1.0 - alpha) / 1.0 == 1.0 - alpha;
      assert HoeffdingTerm(0, n, alpha) == Pow(1.0 - alpha, n);
      CdfAtZeroErrors(n, alpha);
    } else {
      LikelihoodRatioBoundsTail(n, k, alpha, r);
      assert HoeffdingTerm(k, n, alpha)
          == Pow(alpha / r, k) * Pow((1.0 - alpha) / (1.0 - r), n - k);
    }
  }

  lemma {:induction false} CdfPositive(n: nat, k: nat, p: real)
    requires 0.0 <= p < 1.0
    ensures 0.0 < Cdf(n, k, p)
  {
    if k == 0 {
      CdfAtZeroErrors(n, p);
      PowNonNegative(1.0 - p, n);
    } else {
      CdfPositive(n, k - 1, p);
      PmfNonNegative(n, k, p);
    }
  }

  // ------------------------------------------------------- where the term is dropped

  lemma {:induction false} PowUnderChoose(n: nat, k: nat, z: real)
    requires k <= n && 1.0 <= z && z * k as real <= n as real
    ensures Pow(z, k) <= Choose(n, k) as real
  {
    hide Pow, Choose;
    if k == 0 {
      PowZero(z);
      assert Choose(n, 0) == 1 by { ChooseNone(n); }
    } else {
      assert z * (k - 1) as real <= (n - 1) as real by {
        OneLess(z, k as real, n as real, (k - 1) as real, (n - 1) as real);
      }
      PowUnderChoose(n - 1, k - 1, z);
      PowPred(z, k);
      ChooseAbsorption(n, k);
      PowNonNegative(z, k - 1);
      assert k as real * Choose(n, k) as real == n as real * Choose(n - 1, k - 1) as real by {
        assert (k * Choose(n, k)) as real == (n * Choose(n - 1, k - 1)) as real;
      }
      ChooseBound(k as real, n as real, z, Pow(z, k - 1), Choose(n, k) as real, Choose(n - 1, k - 1) as real);
    }
  }

  lemma ChooseNone(n: nat)
    ensures Choose(n, 0) == 1
  {
  }

  lemma OneLess(z: real, k: real, n: real, k': real, n': real)
    requires 1.0 <= z && z * k <= n && k' == k - 1.0 && n' == n - 1.0
    ensures z * k' <= n'
  {
    assert z * k' == z * k - z;
  }

  lemma ChooseBound(k: real, n: real, z: real, w: real, c: real, d: real)
    requires 1.0 <= k && z * k <= n && 0.0 <= w <= d && k * c == n * d && 0.0 <= z
    ensures z * w <= c
  {
    MulNonNegative(z, k);
    MulLe(z * k, n, w, d);
    assert k * (c - z * w) == k * c - (z * k) * w;
    SignOfProduct(k, c - z * w);
  }

  lemma {:induction false} PowInBase(x: real, y: real, n: nat)
    requires 0.0 <= x <= y
    ensures Pow(x, n) <= Pow(y, n)
  {
    if n != 0 {
      PowInBase(x, y, n - 1);
      PowNonNegative(x, n - 1);
      MulLe(x, y, Pow(x, n - 1), Pow(y, n - 1));
    }
  }

  lemma {:induction false} PowOfPow(x: real, m: nat, k: nat)
    ensures Pow(Pow(x, m), k) == Pow(x, m * k)
    decreases k
  {
    hide Pow;
    if k == 0 {
      PowZero(Pow(x, m));
      PowZero(x);
    } else {
      PowOfPow(x, m, k - 1);
      PowPred(Pow(x, m), k);
      assert m * k == m + m * (k - 1);
      PowAdd(x, m, m * (k - 1), m * k);
    }
  }

  /** (1 - a)^j for j just above 1/(2a) is close to one half at least. */
  lemma HalfFloor(k: nat, n: nat) returns (j: nat)
    requires 1 <= k <= n && k as real / n as real <= TINY
    ensures 0.2 <= Pow(1.0 - k as real / n as real, 2 * j) && n <= 2 * j * k
  {
    hide Pow;
    var a := k as real / n as real;
    j := n / (2 * k) + 1;
    assert n <= 2 * j * k by {
      assert n == (n / (2 * k)) * (2 * k) + n % (2 * k);
    }
    assert j as real * a <= 0.5 + TINY by {
      assert (n / (2 * k)) * (2 * k) <= n;
      HalfOfN((n / (2 * k)) as real, k as real, n as real, a);
    }
    assert 0.0 <= a by { QuotientAtMostOne(k as real, n as real); }
    Bernoulli(-a, j);
    var w := Pow(1.0 - a, j);
    assert 0.49 <= w;
    PowAdd(1.0 - a, j, j, 2 * j);
    MulLe(0.49, w, 0.49, w);
  }

  lemma HalfOfN(m: real, k: real, n: real, a: real)
    requires 1.0 <= k <= n && m * (2.0 * k) <= n && a == k / n <= TINY
    ensures (m + 1.0) * a <= 0.5 + TINY
  {
    assert a * n == k;
    assert n * (m * a) == m * k;
    assert n * (0.5 - m * a) == n * 0.5 - m * k;
    SignOfProduct(n, 0.5 - m * a);
  }

  lemma DroppedPower(k: nat, n: nat)
    requires 1 <= k <= n && k as real / n as real <= TINY
    ensures Pow(0.2, k) <= Pow(1.0 - k as real / n as real, n - k)
  {
    hide Pow;
    var s := 1.0 - k as real / n as real;
    QuotientAtMostOne(k as real, n as real);
    var j := HalfFloor(k, n);
    PowInBase(0.2, Pow(s, 2 * j), k);
    PowOfPow(s, 2 * j, k);
    PowAntitone(s, n - k, 2 * j * k);
  }

  /** Without its first term the Hoeffding bound is at most 5^k times the mass of
      n - k correct points. */
  lemma DroppedTerm(k: nat, n: nat, alpha: real)
    requires 1 <= k <= n && k as real / n as real <= TINY < alpha < 1.0 - TINY
    ensures HoeffdingTerm(k, n, alpha) <= Pow(5.0, k) * Pow(1.0 - alpha, n - k)
  {
    hide Pow;
    var a := k as real / n as real;
    var q, s := 1.0 - alpha, 1.0 - a;
    DroppedPower(k, n);
    PowQuotient(q, s, n - k);
    QuotientAtMostOne(q, s);
    PowNonNegative(q / s, n - k);
    PowProduct(5.0, 0.2, 1.0, k);
    PowOfOne(k);
    PowNonNegative(5.0, k);
    MulBack(Pow(q / s, n - k), Pow(s, n - k), Pow(q, n - k), Pow(5.0, k), Pow(0.2, k));
    assert HoeffdingTerm(k, n, alpha) == Pow(q / s, n - k);
  }

  lemma MulBack(h: real, w: real, z: real, f: real, g: real)
    requires h * w == z && 0.0 <= h && g <= w && f * g == 1.0 && 0.0 <= f
    ensures h <= f * z
  {
    ScaleLe(h, g, w);
    ScaleLe(f, h * g, z);
    assert f * (h * g) == h * (f * g);
  }

  lemma ManyArrangements(k: nat, n: nat, alpha: real)
    requires 1 <= k <= n && 0.0 < alpha < 1.0 && 5.0 * k as real <= n as real * alpha
    ensures Pow(5.0, k) * Pow(1.0 - alpha, n - k) <= Pmf(n, k, alpha)
  {
    hide Pow, Choose;
    var z := 5.0 / alpha;
    assert z * alpha == 5.0;
    assert 1.0 <= z by { QuotientAtLeastOne(5.0, alpha); }
    assert z * k as real <= n as real by {
      DivideThrough(z, k as real, n as real, alpha);
    }
    PowUnderChoose(n, k, z);
    PowProduct(z, alpha, 5.0, k);
    PowNonNegative(alpha, k);
    PowNonNegative(1.0 - alpha, n - k);
    MulNonNegative(Pow(alpha, k), Pow(1.0 - alpha, n - k));
    FactorLe(Pow(z, k), Choose(n, k) as real, Pow(alpha, k) * Pow(1.0 - alpha, n - k),
             Pow(z, k) * (Pow(alpha, k) * Pow(1.0 - alpha, n - k)));
    assert Pow(z, k) * (Pow(alpha, k) * Pow(1.0 - alpha, n - k)) == Pow(5.0, k) * Pow(1.0 - alpha, n - k);
  }

  lemma DivideThrough(z: real, k: real, n: real, alpha: real)
    requires z * alpha == 5.0 && 0.0 < alpha && 5.0 * k <= n * alpha
    ensures z * k <= n
  {
    assert alpha * (n - z * k) == n * alpha - (z * alpha) * k;
    SignOfProduct(alpha, n - z * k);
  }

  /** Where h1 drops its first term the p-value is not valid: it lies strictly
      below the exact tail at every error count k with 5k <= n*alpha. */
  lemma PValueFailsWhereTermDropped(k: nat, n: nat, alpha: real)
    requires 0 < n && k <= n && TINY < alpha < 1.0 - TINY
    requires !KeepsTerm(k, n) && 5.0 * k as real <= n as real * alpha
    ensures HoeffdingBentkus(k, n, alpha) < BinomCdf(k, n, alpha)
  {
    hide Pow, Pmf, Choose, HoeffdingTerm, BinomCdf, HoeffdingBentkus;
    RatioBelow(k as real, n as real, alpha);
    PValueAtMostTerm(k, n, alpha);
    DroppedTerm(k, n, alpha);
    ManyArrangements(k, n, alpha);
    CdfPositive(n, k - 1, alpha);
    BinomCdfIsTheExactTail(k, n, alpha);
    assert Cdf(n, k, alpha) == Cdf(n, k - 1, alpha) + Pmf(n, k, alpha);
  }

  lemma RatioBelow(k: real, n: real, alpha: real)
    requires 0.0 < n && 0.0 < alpha && 5.0 * k <= n * alpha && 0.0 <= k
    ensures k / n < alpha
  {
    var a := k / n;
    assert a * n == k;
    assert n * (alpha - a) == n * alpha - k;
    assert 0.0 < n * alpha by { SignOfProduct(n, alpha); }
    SignOfProduct(n, alpha - a);
  }

  lemma PValueAtMostTerm(k: nat, n: nat, alpha: real)
    requires 0 < n && k <= n && k as real / n as real < alpha
    ensures HoeffdingBentkus(k, n, alpha) <= HoeffdingTerm(k, n, alpha)
  {
  }

  lemma DroppedIsFarBelow(k: nat, n: nat, alpha: real)
    requires 0 < n && !KeepsTerm(k, n) && 5.0 * TINY <= alpha
    ensures 5.0 * k as real <= n as real * alpha
  {
    var a := k as real / n as real;
    assert a * n as real == k as real;
    MulLe(5.0 * a, alpha, n as real, n as real) by {
      QuotientNonNegative(k as real, n as real);
    }
    assert 5.0 * a * n as real == 5.0 * k as real;
  }

  lemma QuotientNonNegative(k: real, n: real)
    requires 0.0 <= k && 0.0 < n
    ensures 0.0 <= k / n
  {
  }

  // ------------------------------------------------------- validity

  lemma KeptPValueDominates(k: nat, n: nat, alpha: real)
    requires 0 < n && k <= n && KeepsTerm(k, n) && TINY < alpha < 1.0 - TINY
    ensures BinomCdf(k, n, alpha) <= HoeffdingBentkus(k, n, alpha)
  {
    BinomCdfIsTheExactTail(k, n, alpha);
    CdfAtMostOne(n, k, alpha);
    if k as real / n as real < alpha {
      var c := Cdf(n, k, alpha);
      HoeffdingTermDominatesTail(k, n, alpha);
      assert c <= EULER * c by {
        MulLe(1.0, EULER, c, c);
      }
    }
  }

  /** The p-value is never below the exact binomial tail P(Bin(n, alpha) <= k)
      precisely when alpha keeps clear of both ends and h1 keeps the count's term,
      or when the p-value is 1 anyway because the empirical risk already reaches
      alpha. Below 10^12 points every count's term is kept. */
  lemma PValueDominatesExactTail(k: nat, n: nat, alpha: real)
    requires k <= n && 0.0 < alpha < 1.0
    requires n < SAMPLE_LIMIT || alpha <= TINY || 5.0 * TINY <= alpha
    ensures BinomCdf(k, n, alpha) <= HoeffdingBentkus(k, n, alpha)
       <==> n == 0 || alpha <= k as real / n as real || (TINY < alpha < 1.0 - TINY && KeepsTerm(k, n))
  {
    hide Cdf, HoeffdingTerm, KeepsTerm;
    BinomCdfIsTheExactTail(k, n, alpha);
    CdfAtMostOne(n, k, alpha);
    CdfPositive(n, k, alpha);
    if 0 < n && k as real / n as real < alpha {
      if TINY < alpha < 1.0 - TINY {
        if KeepsTerm(k, n) {
          KeptPValueDominates(k, n, alpha);
        } else {
          if n < SAMPLE_LIMIT {
            SmallSamplesKeepTerm(k, n);
          }
          DroppedIsFarBelow(k, n, alpha);
          PValueFailsWhereTermDropped(k, n, alpha);
        }
      } else {
        UnclearTerm(k, n, alpha);
      }
    }
  }

  lemma UnclearTerm(k: nat, n: nat, alpha: real)
    requires 0 < n && k <= n && !(TINY < alpha < 1.0 - TINY)
    ensures HoeffdingTerm(k, n, alpha) == 0.0
  {
  }

  // ------------------------------------------------------- MinCalibrationSize

  lemma InverseGrowth(m: real, alpha: real, x: real, delta: real, u: real, w: real)
    requires 0.0 < alpha <= x && 0.0 < delta && 0.0 <= m && 0.0 <= w
    requires 1.0 <= m * (alpha * delta) && 1.0 + m * x <= u && u * w == 1.0
    ensures w <= delta
  {
    ScaleLe(m, alpha, x);
    MulNonNegative(delta, u - m * alpha);
    assert delta * u - m * (alpha * delta) == delta * (u - m * alpha);
    MulNonNegative(w, delta * u - 1.0);
    assert w * (delta * u - 1.0) == delta * (u * w) - w;
  }

  /** Some power of 1 - alpha falls to delta: Bernoulli's inequality on 1/(1-alpha). */
  lemma PowerReaches(alpha: real, delta: real) returns (n: nat)
    requires 0.0 < alpha < 1.0 && 0.0 < delta
    ensures Pow(1.0 - alpha, n) <= delta
  {
    hide Pow;
    var q, d := 1.0 - alpha, alpha * delta;
    assert 0.0 < d;
    n := InverseCeiling(d);
    var x := alpha / q;
    assert x * q == alpha;
    assert alpha <= x by {
      GrowsWhenDivided(alpha, q);
    }
    Bernoulli(x, n);
    PowProduct(1.0 + x, q, 1.0, n);
    PowOfOne(n);
    PowNonNegative(q, n);
    InverseGrowth(n as real, alpha, x, delta, Pow(1.0 + x, n), Pow(q, n));
  }

  lemma GrowsWhenDivided(a: real, q: real)
    requires 0.0 < a && 0.0 < q <= 1.0
    ensures a <= a / q
  {
    var x := a / q;
    assert x * q == a;
    MulNonNegative(1.0 - q, a);
  }

  lemma InverseCeiling(d: real) returns (n: nat)
    requires 0.0 < d
    ensures 1.0 <= n as real * d
  {
    var y := 1.0 / d;
    assert y * d == 1.0;
    n := y.Floor + 1;
    MulNonNegative(n as real - y, d);
    assert (n as real - y) * d == n as real * d - y * d;
  }

  /** n error-free points bring the Hoeffding term down to delta. */
  predicate Reaches(alpha: real, delta: real, n: nat) {
    Pow(1.0 - alpha, n) <= delta
  }

  ghost predicate IsFloor(alpha: real, delta: real, n: nat) {
    && Reaches(alpha, delta, n)
    && forall m: nat :: m < n ==> !Reaches(alpha, delta, m)
  }

  lemma FloorExists(alpha: real, delta: real) returns (n: nat)
    requires 0.0 < alpha < 1.0 && 0.0 < delta
    ensures IsFloor(alpha, delta, n)
  {
    n := PowerReaches(alpha, delta);
    while exists m: nat :: m < n && Reaches(alpha, delta, m)
      invariant Reaches(alpha, delta, n)
      decreases n
    {
      var m: nat :| m < n && Reaches(alpha, delta, m);
      n := m;
    }
  }

  /** MinCalibrationSize: the least n with (1-alpha)^n <= delta, which is what
      ceil(ln delta / ln(1-alpha)) denotes; 0 outside the open unit square. */
  ghost function MinCalibrationSize(alpha: real, delta: real): (r: nat)
    ensures 0.0 < alpha < 1.0 && 0.0 < delta < 1.0 ==> IsFloor(alpha, delta, r)
  {
    if alpha <= 0.0 || 1.0 <= alpha || delta <= 0.0 || 1.0 <= delta then 0
    else
      assert exists n: nat :: IsFloor(alpha, delta, n) by {
        var n := FloorExists(alpha, delta);
      }
      var n: nat :| IsFloor(alpha, delta, n);
      n
  }

  lemma TermAboveFloor(k: nat, n: nat, alpha: real)
    requires 0 < n && k <= n && TINY < alpha < 1.0 - TINY && k as real / n as real < alpha && !KeepsTerm(k, n)
    ensures Pow(1.0 - alpha, n) <= HoeffdingTerm(k, n, alpha)
  {
    hide Pow;
    var a := k as real / n as real;
    var q, s := 1.0 - alpha, 1.0 - a;
    QuotientNonNegative(k as real, n as real);
    PowAntitone(q, n - k, n);
    assert q <= q / s by { GrowsWhenDivided(q, s); }
    PowInBase(q, q / s, n - k);
    assert HoeffdingTerm(k, n, alpha) == Pow(q / s, n - k);
  }

  /** The best case is the floor: no error count gives a p-value below
      (1-alpha)^n, and zero errors gives exactly that. */
  lemma PValueFloor(k: nat, n: nat, alpha: real)
    requires 0 < n && k <= n && TINY < alpha < 1.0 - TINY
    ensures Pow(1.0 - alpha, n) <= HoeffdingBentkus(k, n, alpha)
    ensures HoeffdingBentkus(0, n, alpha) == Pow(1.0 - alpha, n)
  {
    hide Cdf, KeepsTerm;
    var z := Pow(1.0 - alpha, n);
    BinomCdfIsTheExactTail(k, n, alpha);
    BinomCdfIsTheExactTail(0, n, alpha);
    CdfAtZeroErrors(n, alpha);
    CdfGrows(n, 0, k, alpha);
    PowAtMostOne(1.0 - alpha, n);
    var c := Cdf(n, k, alpha);
    MulLe(1.0, EULER, c, c);
    MulLe(1.0, EULER, z, z);
    if k as real / n as real < alpha {
      if KeepsTerm(k, n) {
        HoeffdingTermDominatesTail(k, n, alpha);
      } else {
        TermAboveFloor(k, n, alpha);
      }
    }
    assert HoeffdingTerm(0, n, alpha) == z by {
      assert 0 as real / n as real == 0.0;
      assert (1.0 - alpha) / 1.0 == 1.0 - alpha;
    }
  }

  /** n points can certify something exactly when n reaches MinCalibrationSize:
      below it no error count passes, at or above it zero errors pass. */
  lemma CertifiableIffFloorReached(n: nat, alpha: real, delta: real)
    requires 0 < n && TINY < alpha < 1.0 - TINY && 0.0 < delta < 1.0
    ensures (exists k: nat :: k <= n && HoeffdingBentkus(k, n, alpha) <= delta)
       <==> MinCalibrationSize(alpha, delta) <= n
  {
    var floor := MinCalibrationSize(alpha, delta);
    assert IsFloor(alpha, delta, floor);
    PValueFloor(0, n, alpha);
    if floor <= n {
      PowAntitone(1.0 - alpha, floor, n);
      assert HoeffdingBentkus(0, n, alpha) <= delta;
    } else {
      forall k: nat | k <= n
        ensures delta < HoeffdingBentkus(k, n, alpha)
      {
        assert !Reaches(alpha, delta, n);
        PValueFloor(k, n, alpha);
      }
    }
  }
}
