/** Exactly which levels the certificate keeps its claim at, for every alpha and
    every number of draws. */
module ClaimExact {
  import opened Binomial
  import opened PValue
  import opened PValueMonotone
  import opened Calibration
  import opened Sampling
  import opened Guarantee
  import opened GuaranteeLimits

  /** In j points at a risk of exactly alpha, the counts that pass come up with a
      probability within delta. */
  predicate LevelKept(j: nat, alpha: real, delta: real) {
    Cdf(j, LargestPassing(j, alpha, delta, j), alpha) <= delta
  }

  lemma KeptTestsAtLevel(n: nat, alpha: real, delta: real)
    requires 0.0 < alpha < 1.0 && 0.0 <= delta
    requires forall j: nat :: 1 <= j <= n ==> LevelKept(j, alpha, delta)
    ensures TestsAtLevel(n, alpha, delta)
  {
    hide HoeffdingBentkus, TestChance, Cdf, LargestPassing;
    forall j: nat, p: real | j <= n && 0.0 <= p <= 1.0 && alpha <= p
      ensures TestChance(j, p, alpha, delta) <= delta
    {
      if j == 0 {
        NoChanceOnNothing(p, alpha, delta);
      } else {
        var c := LargestPassing(j, alpha, delta, j);
        assert LevelKept(j, alpha, delta);
        ChanceUpTo(j, p, alpha, delta, c);
        CdfAntitoneInRate(j, c, alpha, p);
      }
    }
  }

  lemma UnkeptLevelBreaks(j: nat, options: Options)
    requires 1 <= j && 0.0 < options.alpha < 1.0 && !Divides(options)
    requires !LevelKept(j, options.alpha, options.Effective().delta)
    ensures !ClaimHolds(j, options)
  {
    hide Probability, CertificateBroken, HoeffdingBentkus, Divides, Cdf, LargestPassing;
    var delta := options.Effective().delta;
    var c := LargestPassing(j, options.alpha, delta, j);
    UndividedLevel(2, options);
    if c < 0 {
      assert Cdf(j, c, options.alpha) == 0.0 by { CdfBelowNone(j, c, options.alpha); }
    }
    forall k: nat | k <= c && k <= j
      ensures HoeffdingBentkus(k, j, options.alpha) <= LevelOf(2, options)
    {
      PassesExactlyWhen(k, j, options.alpha, delta);
    }
    var pop := LikelyPassesBreakTheClaim(options, j, c);
  }

  lemma CdfBelowNone(n: nat, c: int, p: real)
    requires c < 0
    ensures Cdf(n, c, p) == 0.0
  {
  }

  /** Where delta is not divided the claim holds up to n draws exactly when no stream
      of j of them at a risk of alpha passes with a probability above delta. */
  lemma ClaimHoldsExactlyWhen(n: nat, options: Options)
    requires 0.0 < options.alpha < 1.0 && !Divides(options)
    ensures (forall j: nat :: j <= n ==> ClaimHolds(j, options))
       <==> (forall j: nat :: 1 <= j <= n ==> LevelKept(j, options.alpha, options.Effective().delta))
  {
    hide ClaimHolds, Divides, TestsAtLevel, LevelKept;
    var delta := options.Effective().delta;
    if j: nat :| 1 <= j <= n && !LevelKept(j, options.alpha, delta) {
      UnkeptLevelBreaks(j, options);
    } else {
      forall j: nat | j <= n
        ensures ClaimHolds(j, options)
      {
        KeptTestsAtLevel(j, options.alpha, delta);
        LevelsSuffice(j, options);
      }
    }
  }
}
