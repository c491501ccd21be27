/** The binomial law as a finite sum: the meaning the p-value and the headroom
    script give to "P[X <= k]" and "P[X >= k]". */
module Binomial {
  import opened Powers

  function Choose(n: nat, k: nat): nat {
    if k == 0 then 1 else if n == 0 then 0 else Choose(n - 1, k - 1) + Choose(n - 1, k)
  }

  /** P[X = k] for X ~ Binomial(n, p); 0 outside 0..n. */
  function Pmf(n: nat, k: int, p: real): real {
    if 0 <= k <= n then Choose(n, k) as real * (Pow(p, k) * Pow(1.0 - p, n - k)) else 0.0
  }

  /** P[X <= k] as the sum of the mass at 0..k. */
  function Cdf(n: nat, k: int, p: real): real
    decreases k + 1
  {
    if k < 0 then 0.0 else Cdf(n, k - 1, p) + Pmf(n, k, p)
  }

  lemma CdfBelowZero(n: nat, k: int, p: real)
    requires k < 0
    ensures Cdf(n, k, p) == 0.0
  {
  }

  lemma {:induction false} ChooseBeyond(n: nat, k: nat)
    requires n < k
    ensures Choose(n, k) == 0
  {
    if n != 0 {
      ChooseBeyond(n - 1, k - 1);
      ChooseBeyond(n - 1, k);
    }
  }

  lemma {:induction false} ChooseFull(n: nat)
    ensures Choose(n, n) == 1
  {
    if n != 0 {
      ChooseFull(n - 1);
      ChooseBeyond(n - 1, n);
    }
  }

  lemma AbsorptionStep(n: int, k: int, a: int, b: int, c: int, d: int)
    requires k * b == (n - 1) * c && (k - 1) * a == (n - 1) * d && a == d + c
    ensures k * (a + b) == n * a
  {
    calc {
      k * (a + b);
      (k - 1) * a + a + k * b;
      (n - 1) * d + a + (n - 1) * c;
      (n - 1) * (d + c) + a;
      n * a;
    }
  }

  /** Absorption: choosing a k-subset and marking one member is choosing the
      marked member and then the other k-1. */
  lemma {:induction false} ChooseAbsorption(n: nat, k: nat)
    requires 1 <= k && 1 <= n
    ensures k * Choose(n, k) == n * Choose(n - 1, k - 1)
    decreases n
  {
    if n == 1 {
      if k == 1 {
        ChooseFull(1);
      } else {
        ChooseBeyond(1, k);
        ChooseBeyond(0, k - 1);
      }
    } else {
      ChooseAbsorption(n - 1, k);
      var a, b, c := Choose(n - 1, k - 1), Choose(n - 1, k), Choose(n - 2, k - 1);
      if k == 1 {
        AbsorptionStep(n, k, a, b, c, 0);
      } else {
        ChooseAbsorption(n - 1, k - 1);
        AbsorptionStep(n, k, a, b, c, Choose(n - 2, k - 2));
      }
    }
  }

  lemma PmfOutside(n: nat, k: int, p: real)
    requires k < 0 || n < k
    ensures Pmf(n, k, p) == 0.0
  {
  }

  lemma PmfNonNegative(n: nat, k: int, p: real)
    requires 0.0 <= p <= 1.0
    ensures 0.0 <= Pmf(n, k, p)
  {
    if 0 <= k <= n {
      PowNonNegative(p, k);
      PowNonNegative(1.0 - p, n - k);
      MulNonNegative(Pow(p, k), Pow(1.0 - p, n - k));
      MulNonNegative(Choose(n, k) as real, Pow(p, k) * Pow(1.0 - p, n - k));
    }
  }

  lemma SplitTrial(p: real, q: real, c: real, d: real, x: real, y: real)
    ensures (c + d) * ((p * x) * (q * y)) == p * (c * (x * (q * y))) + q * (d * ((p * x) * y))
  {
  }

  /** One more trial: either the last one errs or it does not. */
  lemma PmfStep(n: nat, k: int, p: real)
    ensures Pmf(n + 1, k, p) == p * Pmf(n, k - 1, p) + (1.0 - p) * Pmf(n, k, p)
  {
    hide Pow;
    var q := 1.0 - p;
    if k < 0 || n + 1 < k {
    } else if k == 0 {
      PowStep(q, n);
      SplitTrial(p, q, 0.0, 1.0, 0.0, Pow(q, n));
      assert Pmf(n, 0, p) == Pow(p, 0) * Pow(q, n);
      Regroup(q, 1.0, Pow(p, 0), Pow(q, n));
    } else if k == n + 1 {
      ChooseFull(n);
      ChooseFull(n + 1);
      PowStep(p, n);
      Regroup(p, 1.0, Pow(p, n), Pow(q, 0));
    } else {
      var c, d, x, y := Choose(n, k - 1) as real, Choose(n, k) as real, Pow(p, k - 1), Pow(q, n - k);
      assert Choose(n + 1, k) as real == c + d;
      PowStep(p, k - 1);
      PowStep(q, n - k);
      SplitTrial(p, q, c, d, x, y);
    }
  }

  lemma MixSums(p: real, a: real, b: real, c: real, d: real)
    ensures (p * a + (1.0 - p) * c) + (p * b + (1.0 - p) * d) == p * (a + b) + (1.0 - p) * (c + d)
  {
  }

  lemma {:induction false} CdfStep(n: nat, k: int, p: real)
    ensures Cdf(n + 1, k, p) == p * Cdf(n, k - 1, p) + (1.0 - p) * Cdf(n, k, p)
    decreases k + 1
  {
    hide Pmf;
    if 0 <= k {
      CdfStep(n, k - 1, p);
      PmfStep(n, k, p);
      MixSums(p, Cdf(n, k - 2, p), Pmf(n, k - 1, p), Cdf(n, k - 1, p), Pmf(n, k, p));
      if k == 0 {
        PmfOutside(n, -1, p);
      }
    }
  }

  lemma {:induction false} CdfAll(n: nat, k: int, p: real)
    requires n <= k
    ensures Cdf(n, k, p) == 1.0
    decreases k - n, n
  {
    if n < k {
      CdfAll(n, k - 1, p);
    } else if n == 0 {
      assert Cdf(0, 0, p) == Cdf(0, -1, p) + Pmf(0, 0, p);
      assert Choose(0, 0) == 1;
    } else {
      CdfStep(n - 1, k, p);
      CdfAll(n - 1, k - 1, p);
      assert Cdf(n - 1, k, p) == Cdf(n - 1, k - 1, p) + Pmf(n - 1, k, p);
    }
  }

  lemma {:induction false} CdfGrows(n: nat, k: int, m: int, p: real)
    requires 0.0 <= p <= 1.0 && k <= m
    ensures Cdf(n, k, p) <= Cdf(n, m, p)
    decreases m - k
  {
    if k < m {
      CdfGrows(n, k, m - 1, p);
      PmfNonNegative(n, m, p);
    }
  }

  lemma {:induction false} CdfNonNegative(n: nat, k: int, p: real)
    requires 0.0 <= p <= 1.0
    ensures 0.0 <= Cdf(n, k, p)
    decreases k + 1
  {
    if 0 <= k {
      CdfNonNegative(n, k - 1, p);
      PmfNonNegative(n, k, p);
    }
  }

  lemma CdfAtMostOne(n: nat, k: int, p: real)
    requires 0.0 <= p <= 1.0
    ensures 0.0 <= Cdf(n, k, p) <= 1.0
  {
    CdfNonNegative(n, k, p);
    if k < n {
      CdfGrows(n, k, n, p);
    }
    CdfAll(n, if k < n then n else k, p);
  }

  /** Moving mass from the larger tail to the smaller one cannot raise the mix. */
  lemma MixAntitone(p: real, q: real, a: real, b: real, a': real, b': real, mix: real, mix': real)
    requires 0.0 <= p <= q <= 1.0 && a <= b && a' <= a && b' <= b
    requires mix == p * a + (1.0 - p) * b && mix' == q * a' + (1.0 - q) * b'
    ensures mix' <= mix
  {
    MulNonNegative(q, a - a');
    MulNonNegative(1.0 - q, b - b');
    MulNonNegative(q - p, b - a);
    Expand(p, q, a, b, a', b');
  }

  lemma Expand(p: real, q: real, a: real, b: real, a': real, b': real)
    ensures p * a + (1.0 - p) * b - (q * a' + (1.0 - q) * b')
         == q * (a - a') + (1.0 - q) * (b - b') + (q - p) * (b - a)
  {
  }

  /** A more error-prone policy shows few errors less often: the tail falls as
      the true rate rises. */
  lemma {:induction false} CdfAntitoneInRate(n: nat, k: int, p: real, q: real)
    requires 0.0 <= p <= q <= 1.0
    ensures Cdf(n, k, q) <= Cdf(n, k, p)
    decreases n
  {
    hide Pmf;
    if 0 <= k {
      hide Cdf;
      if n == 0 {
        CdfAll(0, k, p);
        CdfAll(0, k, q);
      } else {
        CdfStep(n - 1, k, p);
        CdfStep(n - 1, k, q);
        CdfAntitoneInRate(n - 1, k - 1, p, q);
        CdfAntitoneInRate(n - 1, k, p, q);
        CdfGrows(n - 1, k - 1, k, p);
        MixAntitone(p, q, Cdf(n - 1, k - 1, p), Cdf(n - 1, k, p),
                    Cdf(n - 1, k - 1, q), Cdf(n - 1, k, q), Cdf(n, k, p), Cdf(n, k, q));
      }
    }
  }

  function Mixed(p: real, a: real, b: real): real {
    p * a + (1.0 - p) * b
  }

  lemma CdfMixes(n: nat, k: int, p: real)
    requires 0 < n
    ensures Cdf(n, k, p) == Mixed(p, Cdf(n - 1, k - 1, p), Cdf(n - 1, k, p))
  {
    hide Cdf;
    CdfStep(n - 1, k, p);
  }

  lemma MixedGap(p: real, q: real, a: real, b: real, a': real, b': real)
    ensures Mixed(p, a, b) - Mixed(q, a', b') == Mixed(q, a - a', b - b') + (q - p) * (b - a)
  {
    Expand(p, q, a, b, a', b');
  }

  lemma MixedAtMost(q: real, x: real, y: real, d: real)
    requires 0.0 <= q <= 1.0 && x <= d && y <= d
    ensures Mixed(q, x, y) <= d
  {
    MulNonNegative(q, d - x);
    MulNonNegative(1.0 - q, d - y);
    assert d - (q * x + (1.0 - q) * y) == q * (d - x) + (1.0 - q) * (d - y);
  }

  lemma ShrinkToOne(a: real, x: real, y: real)
    requires 0.0 <= a && x <= 1.0 && y == a * x
    ensures y <= a
  {
    ScaleLe(a, x, 1.0);
  }

  lemma LipschitzStep(d: real, p: real, q: real, a: real, b: real, a': real, b': real)
    requires 0.0 <= p <= q <= 1.0 && b - a <= 1.0 && a - a' <= d && b - b' <= d
    ensures Mixed(p, a, b) - Mixed(q, a', b') <= d + (q - p)
  {
    hide Mixed;
    var moved := (q - p) * (b - a);
    ShrinkToOne(q - p, b - a, moved);
    MixedGap(p, q, a, b, a', b');
    MixedAtMost(q, a - a', b - b', d);
  }

  /** n steps of length d. */
  function Steps(n: nat, d: real): real {
    n as real * d
  }

  lemma StepsNext(n: nat, d: real)
    ensures Steps(0, d) == 0.0
    ensures Steps(n + 1, d) == Steps(n, d) + d
  {
    assert (n + 1) as real == n as real + 1.0;
  }

  /** A rate moved by a little moves the tail by at most n times that. */
  lemma {:induction false} CdfLipschitz(n: nat, k: int, p: real, q: real)
    requires 0.0 <= p <= q <= 1.0
    ensures Cdf(n, k, p) - Cdf(n, k, q) <= Steps(n, q - p)
    decreases n
  {
    hide Pmf, Steps;
    if n == 0 {
      StepsNext(0, q - p);
      if k < 0 {
        CdfBelowZero(0, k, p);
        CdfBelowZero(0, k, q);
      } else {
        CdfAll(0, k, p);
        CdfAll(0, k, q);
      }
    } else {
      hide Cdf, Mixed;
      CdfMixes(n, k, p);
      CdfMixes(n, k, q);
      StepsNext(n - 1, q - p);
      CdfLipschitz(n - 1, k - 1, p, q);
      CdfLipschitz(n - 1, k, p, q);
      CdfAtMostOne(n - 1, k - 1, p);
      CdfAtMostOne(n - 1, k, p);
      LipschitzStep(Steps(n - 1, q - p), p, q, Cdf(n - 1, k - 1, p), Cdf(n - 1, k, p),
                    Cdf(n - 1, k - 1, q), Cdf(n - 1, k, q));
    }
  }
}
