/** Where the certificate's claim stops: alpha at either end, samples so large
    that h1 drops a term, and a single tier. */
module GuaranteeLimits {
  import opened Wrappers
  import opened Policy
  import opened Powers
  import opened Binomial
  import opened PValue
  import opened Grid
  import opened Calibration
  import opened Search
  import opened Sampling
  import opened Guarantee
  import opened DisjointErrors

  function Answer(ok: bool): TierObs {
    TierObs("tier", 0.0, ok, None, 0.0, false)
  }

  /** A problem that both tiers answer alike. */
  function Case(ok: bool): Record {
    Record("case", [Answer(ok), Answer(ok)], false, false, 0.0, false, false, false, false)
  }

  /** Problems answered wrong with probability w, whatever the thresholds. */
  function Cases(w: real): seq<Weighted> {
    [Weighted(Case(false), w), Weighted(Case(true), 1.0 - w)]
  }

  predicate Fails(r: Record) {
    r == Case(false)
  }

  ghost predicate AllCases(s: seq<Record>) {
    forall i :: 0 <= i < |s| ==> s[i] == Case(false) || s[i] == Case(true)
  }

  // ------------------------------------------------------------ samples of cases

  lemma {:induction false} CasesAreCounted(s: seq<Record>)
    requires AllCases(s)
    ensures Filter(s, Usable) == s && Count(s, UsableShadow) == 0
    ensures Count(s, Both(Usable, Fails)) == Count(s, Fails)
  {
    if s != [] {
      var init, last := s[..|s| - 1], s[|s| - 1];
      CasesAreCounted(init);
      assert s == init + [last];
    }
  }

  lemma {:induction false} CaseErrors(s: seq<Record>, tau: seq<real>)
    requires AllCases(s)
    ensures Errors(s, tau) == Count(s, Fails)
  {
    if s != [] {
      CaseErrors(s[..|s| - 1], tau);
    }
  }

  lemma SelectsWhenAllPass(eval: seq<Cand>, grid: seq<seq<real>>, opts: Options, bar: real)
    requires EvaluatesGrid(eval, grid) && SameArity(grid) && grid != []
    requires bar == if opts.correction == FixedSequence then opts.delta else opts.delta / |grid| as real
    requires forall i :: 0 <= i < |eval| ==> eval[i].p <= bar
    ensures Selected(eval, grid, opts).Some?
  {
    hide CandOf, Selected, Before;
    if opts.correction == FixedSequence {
      FixedSequenceReturnsCheapestCertified(eval, grid, opts);
      assert Certified(eval, grid, opts.delta, 0);
    } else {
      BonferroniReturnsCheapestPassing(eval, grid, opts);
      assert eval[0].p <= bar;
    }
  }

  /** A sample whose error count passes is certified. */
  lemma PassingCountCertifies(s: seq<Record>, options: Options)
    requires AllCases(s) && s != []
    requires Count(s, Fails) <= |s|
    requires HoeffdingBentkus(Count(s, Fails), |s|, options.alpha) <= LevelOf(2, options)
    ensures Certifies(s, 2, options) && StreamMember(s) == Usable
  {
    hide CandOf, CertificateOf, GridOf, Selected, HoeffdingBentkus, AllCases, Count;
    var opts := options.Effective();
    var grid := GridOf(1, opts.step);
    CasesAreCounted(s);
    assert CalibrationStream(s) == s && !PrefersShadow(s);
    CertificateShape(s, 2, options);
    forall i | 0 <= i < |grid|
      ensures CandOf(s, opts.alpha, grid[i]).p <= LevelOf(2, options)
    {
      CaseErrors(s, grid[i]);
      CandPValue(s, opts.alpha, grid[i]);
    }
    EvaluationIsByVector(s, opts.alpha, grid);
    SelectsWhenAllPass(Evaluate(s, opts.alpha, grid), grid, opts, LevelOf(2, options));
  }

  // ------------------------------------------------------------ the population of cases

  lemma SoleWeight(r: Record, w: real, p: Record -> bool)
    ensures WeightOf([Weighted(r, w)], p) == (if p(r) then w else 0.0)
    ensures TotalWeight([Weighted(r, w)]) == w
  {
    assert [Weighted(r, w)][1..] == [];
  }

  lemma CaseWeights(w: real, p: Record -> bool)
    ensures WeightOf(Cases(w), p)
         == (if p(Case(false)) then w else 0.0) + (if p(Case(true)) then 1.0 - w else 0.0)
    ensures TotalWeight(Cases(w)) == 1.0
  {
    SoleWeight(Case(true), 1.0 - w, p);
    assert Cases(w)[1..] == [Weighted(Case(true), 1.0 - w)];
  }

  lemma CasesExceed(w: real, tau: seq<real>, alpha: real)
    requires 0.0 <= w <= 1.0 && alpha < w
    ensures IsPopulation(Cases(w)) && RiskExceeds(Cases(w), Usable, tau, alpha)
  {
    CaseWeights(w, Usable);
    CaseWeights(w, Both(Usable, Wrong(tau)));
  }

  lemma DrawnCases(w: real, n: nat, s: seq<Record>)
    requires Drawn(Cases(w), n, s)
    ensures AllCases(s)
  {
    forall i | 0 <= i < |s|
      ensures s[i] == Case(false) || s[i] == Case(true)
    {
      var j :| 0 <= j < |Cases(w)| && Cases(w)[j].rec == s[i];
    }
  }

  /** The chance of at most c errors in n draws. */
  lemma CasesFollowBinomial(w: real, n: nat, c: nat)
    requires 0.0 <= w <= 1.0
    ensures Probability(Cases(w), n, CountEvent(Usable, Fails, AtMost(c), 0, 0)) == Cdf(n, c, w)
  {
    hide Probability, WeightOf;
    CaseWeights(w, Usable);
    CaseWeights(w, Both(Usable, Fails));
    ErrorsFollowBinomial(Cases(w), n, Usable, Fails, c);
  }

  // ------------------------------------------------------------ a population that breaks the claim

  /** A rate just above alpha leaves the tail above delta. */
  lemma RateJustAbove(n: nat, c: nat, alpha: real, delta: real) returns (w: real)
    requires 1 <= n && 0.0 < alpha < 1.0 && delta < Cdf(n, c, alpha)
    ensures alpha < w < 1.0 && delta < Cdf(n, c, w)
  {
    hide Cdf, Steps;
    var room, slack := (1.0 - alpha) / 2.0, (Cdf(n, c, alpha) - delta) / (2.0 * n as real);
    assert slack * (2.0 * n as real) == Cdf(n, c, alpha) - delta;
    assert 0.0 < slack by { SignOfProduct(2.0 * n as real, slack); }
    var d := if room <= slack then room else slack;
    w := alpha + d;
    CdfLipschitz(n, c, alpha, w);
    StepsAtMost(n, d, slack);
    assert w - alpha == d;
  }

  lemma StepsAtMost(n: nat, d: real, slack: real)
    requires d <= slack
    ensures Steps(n, d) <= slack * (2.0 * n as real) / 2.0
  {
    ScaleLe(n as real, d, slack);
  }

  /** Whenever every error count up to c passes the test of n points, and c errors
      or fewer are more likely than delta at a risk of exactly alpha, the claim
      fails: a population of risk just above alpha is certified too often. */
  lemma LikelyPassesBreakTheClaim(options: Options, n: nat, c: nat) returns (pop: seq<Weighted>)
    requires 1 <= n && 0.0 < options.alpha < 1.0
    requires forall k: nat :: k <= c && k <= n ==> HoeffdingBentkus(k, n, options.alpha) <= LevelOf(2, options)
    requires options.Effective().delta < Cdf(n, c, options.alpha)
    ensures IsPopulation(pop) && OneFlag(pop)
    ensures options.Effective().delta < Probability(pop, n, CertificateBroken(pop, 2, options))
  {
    hide Probability, CertificateBroken, Cdf, HoeffdingBentkus, LevelOf;
    var w := RateJustAbove(n, c, options.alpha, options.Effective().delta);
    pop := Cases(w);
    CasesExceed(w, [], options.alpha);
    var few := CountEvent(Usable, Fails, AtMost(c), 0, 0);
    forall s | Drawn(pop, n, s) && few(s)
      ensures CertificateBroken(pop, 2, options)(s)
    {
      FewErrorsBreak(options, n, c, w, s);
    }
    ProbabilityMonotone(pop, n, few, CertificateBroken(pop, 2, options));
    CasesFollowBinomial(w, n, c);
  }

  lemma CountedAtMost(s: seq<Record>, c: nat)
    requires AllCases(s) && CountEvent(Usable, Fails, AtMost(c), 0, 0)(s)
    ensures Count(s, Fails) <= c && Count(s, Fails) <= |s|
  {
    hide Count, AllCases;
    CasesAreCounted(s);
    CountAtMostAll(s, Fails);
  }

  lemma FewErrorsBreak(options: Options, n: nat, c: nat, w: real, s: seq<Record>)
    requires 1 <= n && options.alpha < w && 0.0 <= w <= 1.0
    requires forall k: nat :: k <= c && k <= n ==> HoeffdingBentkus(k, n, options.alpha) <= LevelOf(2, options)
    requires Drawn(Cases(w), n, s) && CountEvent(Usable, Fails, AtMost(c), 0, 0)(s)
    ensures CertificateBroken(Cases(w), 2, options)(s)
  {
    assert |s| == n;
    DrawnCases(w, n, s);
    hide *;
    CountedAtMost(s, c);
    PassingCountCertifies(s, options);
    CertifiedCasesBreak(options, w, s);
  }

  lemma CertifiedCasesBreak(options: Options, w: real, s: seq<Record>)
    requires options.alpha < w && 0.0 <= w <= 1.0
    requires Certifies(s, 2, options) && StreamMember(s) == Usable
    ensures CertificateBroken(Cases(w), 2, options)(s)
  {
    hide CertificateOf, RiskExceeds, PrefersShadow;
    CasesExceed(w, CertificateOf(s, 2, options).value.thresholds, options.alpha);
  }

  // ------------------------------------------------------------ alpha at either end

  lemma UnclearPasses(k: nat, n: nat, alpha: real)
    requires 0 < n && k <= n && 0.0 < alpha < 1.0 && !(TINY < alpha < 1.0 - TINY)
    ensures k as real / n as real < alpha ==> HoeffdingBentkus(k, n, alpha) == 0.0
    ensures alpha <= k as real / n as real ==> HoeffdingBentkus(k, n, alpha) == 1.0
  {
    UnclearTerm(k, n, alpha);
    BinomCdfIsTheExactTail(k, n, alpha);
    CdfAtMostOne(n, k, alpha);
  }

  /** The claim for n draws: every population collected with one flag, any number
      of tiers but one. */
  ghost predicate ClaimHolds(n: nat, options: Options) {
    forall pop: seq<Weighted>, nTiers: nat :: IsPopulation(pop) && OneFlag(pop) && 2 <= nTiers ==>
      Probability(pop, n, CertificateBroken(pop, nTiers, options)) <= options.Effective().delta
  }

  /** Every grid has more than one vector to divide delta among. */
  predicate Divides(options: Options) {
    options.correction == Bonferroni && HasPositiveLevel(options.Effective().step)
  }

  lemma LastLevel(v: real, step: real) returns (u: real)
    requires 0.0 < step && v <= 1.0 + SLACK
    ensures v <= u <= 1.0 + SLACK < u + step && RoundMilli(u) in LevelsFrom(v, step)
    decreases StepsLeft(v, step)
  {
    u := v;
    if v + step <= 1.0 + SLACK {
      FewerLevelsLeft(v, step);
      u := LastLevel(v + step, step);
    }
  }

  /** A step that fits below 1 reaches a positive level. */
  lemma StepsReachPositive(step: real)
    requires 0.0 < step <= 1.0 + SLACK
    ensures HasPositiveLevel(step)
  {
    var u := LastLevel(step, step);
    assert 0.5 <= u;
    assert Levels(step) == [RoundMilli(0.0)] + LevelsFrom(0.0 + step, step);
    assert RoundMilli(u) in Levels(step);
    assert 500 <= (u * 1000.0 + 0.5).Floor;
  }

  lemma {:induction false} OneVector(arity: nat, x: real)
    ensures |Vectors(arity, [x])| == 1
  {
    if arity != 0 {
      OneVector(arity - 1, x);
      var g := Vectors(arity - 1, [x]);
      assert g[1..] == [] && [x][1..] == [];
      assert ExtendRow(g[0], [x]) == [g[0] + [x]] + ExtendRow(g[0], []);
      assert Extend(g, [x]) == ExtendRow(g[0], [x]) + Extend([], [x]);
    }
  }

  /** Otherwise each vector is tested at delta itself. */
  lemma UndividedLevel(nTiers: nat, options: Options)
    requires 2 <= nTiers && !Divides(options)
    ensures LevelOf(nTiers, options) == options.Effective().delta
  {
    var opts := options.Effective();
    if options.correction == Bonferroni {
      if opts.step <= 1.0 + SLACK {
        StepsReachPositive(opts.step);
      }
      assert Levels(opts.step) == [RoundMilli(0.0)] + LevelsFrom(0.0 + opts.step, opts.step);
      assert Levels(opts.step) == [RoundMilli(0.0)];
      OneVector(nTiers - 1, RoundMilli(0.0));
      assert opts.delta / 1.0 == opts.delta;
    }
  }

  lemma LevelsSuffice(n: nat, options: Options)
    requires !Divides(options) && TestsAtLevel(n, options.alpha, options.Effective().delta)
    ensures ClaimHolds(n, options)
  {
    hide Probability, CertificateBroken, TestsAtLevel;
    forall pop: seq<Weighted>, nTiers: nat | IsPopulation(pop) && OneFlag(pop) && 2 <= nTiers
      ensures Probability(pop, n, CertificateBroken(pop, nTiers, options)) <= options.Effective().delta
    {
      UndividedLevel(nTiers, options);
      OneFlagGuarantee(pop, n, nTiers, options);
    }
  }

  lemma WideDelta(n: nat, options: Options)
    requires 1.0 <= options.Effective().delta
    ensures ClaimHolds(n, options)
  {
    hide Probability, CertificateBroken;
    forall pop: seq<Weighted>, nTiers: nat | IsPopulation(pop) && OneFlag(pop) && 2 <= nTiers
      ensures Probability(pop, n, CertificateBroken(pop, nTiers, options)) <= options.Effective().delta
    {
      var all := (s: seq<Record>) => true;
      ProbabilityOfEverything(pop, n, all);
      ProbabilityMonotone(pop, n, CertificateBroken(pop, nTiers, options), all);
    }
  }

  /** With delta divided, a p-value that collapses unless every point is wrong makes
      the claim hold for no delta below 1. */
  lemma DividedExactlyWhen(options: Options, nTiers: nat, n: nat)
    requires Divides(options) && 1 <= n && 2 <= nTiers && 1.0 / nTiers as real < 1.0 - options.alpha
    requires PassesUnlessAllWrong(n, options.alpha, LevelOf(nTiers, options))
    ensures ClaimHolds(n, options) <==> 1.0 <= options.Effective().delta
  {
    hide Probability, CertificateBroken, PassesUnlessAllWrong, LevelOf, HasPositiveLevel;
    if 1.0 <= options.Effective().delta {
      WideDelta(n, options);
    } else {
      var pop := DisjointErrorsBreakTheClaim(options, nTiers, n);
    }
  }

  /** Counts up to c are all that can pass. */
  lemma ChanceUpTo(m: nat, p: real, alpha: real, t: real, c: int)
    requires 0 < m && 0.0 <= p <= 1.0
    requires forall k: nat :: c < k <= m ==> t < HoeffdingBentkus(k, m, alpha)
    ensures TestChance(m, p, alpha, t) <= Cdf(m, c, p)
  {
    hide HoeffdingBentkus;
    ExpectMonotone(m, p, RejectedAt(m, Rejects(alpha, t)), UpTo(c));
    ExpectOfTail(m, p, c);
  }

  lemma NoChanceOnNothing(p: real, alpha: real, t: real)
    ensures TestChance(0, p, alpha, t) == 0.0
  {
    ExpectPred(0, p, RejectedAt(0, Rejects(alpha, t)));
  }

  lemma LowAlphaLevel(n: nat, alpha: real, bar: real)
    requires 0.0 < alpha <= TINY && n < SAMPLE_LIMIT && 1.0 - alpha <= bar < 1.0
    ensures TestsAtLevel(n, alpha, bar)
  {
    hide HoeffdingBentkus, TestChance;
    forall j: nat, p: real | j <= n && 0.0 <= p <= 1.0 && alpha <= p
      ensures TestChance(j, p, alpha, bar) <= bar
    {
      if j == 0 {
        NoChanceOnNothing(p, alpha, bar);
      } else {
        forall k: nat | 0 < k <= j
          ensures bar < HoeffdingBentkus(k, j, alpha)
        {
          RatioAboveTiny(k, j);
          UnclearPasses(k, j, alpha);
        }
        ChanceUpTo(j, p, alpha, bar, 0);
        CdfAtZeroErrors(j, p);
        PowAntitone(1.0 - p, 1, j);
        PowPred(1.0 - p, 1);
      }
    }
  }

  lemma HighAlphaLevel(n: nat, alpha: real, bar: real)
    requires 1.0 - TINY <= alpha < 1.0 && 1.0 - Pow(alpha, n) <= bar < 1.0
    ensures TestsAtLevel(n, alpha, bar)
  {
    hide HoeffdingBentkus, TestChance, Pow, Cdf;
    forall j: nat, p: real | j <= n && 0.0 <= p <= 1.0 && alpha <= p
      ensures TestChance(j, p, alpha, bar) <= bar
    {
      if j == 0 {
        NoChanceOnNothing(p, alpha, bar);
        PowAtMostOne(alpha, n);
      } else {
        forall k: nat | j - 1 < k <= j
          ensures bar < HoeffdingBentkus(k, j, alpha)
        {
          SelfRatio(j as real);
          UnclearPasses(k, j, alpha);
        }
        ChanceUpTo(j, p, alpha, bar, j - 1);
        CdfBelowFull(j, p);
        PowInBase(alpha, p, j);
        PowAntitone(alpha, j, n);
      }
    }
  }

  /** Not every point errs. */
  lemma CdfBelowFull(n: nat, p: real)
    requires 1 <= n
    ensures Cdf(n, n - 1, p) == 1.0 - Pow(p, n)
  {
    CdfAll(n, n, p);
    ChooseFull(n);
    assert Pow(1.0 - p, 0) == 1.0;
  }

  lemma LowAlphaBreaks(options: Options) returns (pop: seq<Weighted>)
    requires 0.0 < options.alpha <= TINY && options.Effective().delta < 1.0 - options.alpha
    ensures IsPopulation(pop) && OneFlag(pop)
    ensures options.Effective().delta < Probability(pop, 1, CertificateBroken(pop, 2, options))
  {
    hide Probability, CertificateBroken, HoeffdingBentkus, LevelOf;
    forall k: nat | k <= 0
      ensures HoeffdingBentkus(k, 1, options.alpha) <= LevelOf(2, options)
    {
      assert 0 as real / 1 as real == 0.0;
      UnclearPasses(k, 1, options.alpha);
    }
    CdfAtZeroErrors(1, options.alpha);
    PowPred(1.0 - options.alpha, 1);
    PowZero(1.0 - options.alpha);
    pop := LikelyPassesBreakTheClaim(options, 1, 0);
  }

  lemma HighAlphaBreaks(options: Options, n: nat) returns (pop: seq<Weighted>)
    requires 1.0 - TINY <= options.alpha < 1.0 && 1 <= n < SAMPLE_LIMIT
    requires options.Effective().delta < 1.0 - Pow(options.alpha, n)
    ensures IsPopulation(pop) && OneFlag(pop)
    ensures options.Effective().delta < Probability(pop, n, CertificateBroken(pop, 2, options))
  {
    hide Probability, CertificateBroken, HoeffdingBentkus, LevelOf, Pow, Cdf;
    forall k: nat | k <= n - 1
      ensures HoeffdingBentkus(k, n, options.alpha) <= LevelOf(2, options)
    {
      AllButOne(k, n, options.alpha);
      UnclearPasses(k, n, options.alpha);
    }
    CdfBelowFull(n, options.alpha);
    pop := LikelyPassesBreakTheClaim(options, n, n - 1);
  }

  lemma AllButOne(k: nat, n: nat, alpha: real)
    requires k < n < SAMPLE_LIMIT && 1.0 - TINY <= alpha
    ensures k as real / n as real < alpha
  {
    var a := k as real / n as real;
    assert a * n as real == k as real;
    assert k as real <= n as real - 1.0;
    assert n as real * TINY < 1.0;
    assert n as real * (1.0 - TINY - a) == n as real - n as real * TINY - k as real;
    SignOfProduct(n as real, 1.0 - TINY - a);
  }

  lemma CollapsedPasses(n: nat, alpha: real, bar: real)
    requires 0 < n && 0.0 < alpha < 1.0 && !(TINY < alpha < 1.0 - TINY) && 0.0 <= bar
    requires n == 1 || (1.0 - TINY <= alpha && n < SAMPLE_LIMIT)
    ensures PassesUnlessAllWrong(n, alpha, bar)
  {
    hide HoeffdingBentkus;
    forall k: nat | k < n
      ensures HoeffdingBentkus(k, n, alpha) <= bar
    {
      if n == 1 {
        assert 0 as real / 1 as real == 0.0;
      } else {
        AllButOne(k, n, alpha);
      }
      UnclearPasses(k, n, alpha);
    }
  }

  /** More than 1/(1 - alpha) tiers. */
  lemma EnoughTiers(alpha: real) returns (nTiers: nat)
    requires alpha < 1.0
    ensures 2 <= nTiers && 1.0 / nTiers as real < 1.0 - alpha
  {
    var d := 1.0 - alpha;
    var m := InverseCeiling(d);
    nTiers := m + 1;
    TierShare(m, d, m as real * d, (m + 1) as real * d);
  }

  lemma TierShare(m: nat, d: real, p: real, q: real)
    requires 0.0 < d && p == m as real * d && q == (m + 1) as real * d && 1.0 <= p
    ensures 1 <= m && 1.0 / (m + 1) as real < d
  {
    ProductNeedsFactor(m, d, p);
    OneMoreTimes(m, d, p, q);
    var n := (m + 1) as real;
    UnitShare(n);
    FactorBelow(n, 1.0 / n, d, 1.0, q);
  }

  /** Within TINY of 0 the p-value of an error-free sample collapses to 0, and below
      10^12 draws the claim holds exactly when delta is at least 1 - alpha, or at
      least 1 when delta is divided. */
  lemma LowAlphaExactlyWhen(options: Options)
    requires 0.0 < options.alpha <= TINY
    ensures (forall n: nat :: n < SAMPLE_LIMIT ==> ClaimHolds(n, options))
       <==> (if Divides(options) then 1.0 else 1.0 - options.alpha) <= options.Effective().delta
  {
    hide TestsAtLevel, Divides;
    var delta := options.Effective().delta;
    if 1.0 <= delta {
      hide ClaimHolds;
      forall n: nat | n < SAMPLE_LIMIT
        ensures ClaimHolds(n, options)
      {
        WideDelta(n, options);
      }
    } else if Divides(options) {
      hide ClaimHolds, PassesUnlessAllWrong, LevelOf;
      CollapsedPasses(1, options.alpha, LevelOf(2, options));
      DividedExactlyWhen(options, 2, 1);
      assert !ClaimHolds(1, options);
    } else if delta < 1.0 - options.alpha {
      var pop := LowAlphaBreaks(options);
      assert !ClaimHolds(1, options);
    } else {
      hide ClaimHolds;
      forall n: nat | n < SAMPLE_LIMIT
        ensures ClaimHolds(n, options)
      {
        LowAlphaLevel(n, options.alpha, delta);
        LevelsSuffice(n, options);
      }
    }
  }

  /** Within TINY of 1 every sample with a correct answer in it has p-value 0, and
      the claim for n draws holds exactly when delta is at least the chance
      1 - alpha^n of such a sample, or at least 1 when delta is divided. */
  lemma HighAlphaExactlyWhen(options: Options, n: nat)
    requires 1.0 - TINY <= options.alpha < 1.0 && 1 <= n < SAMPLE_LIMIT
    ensures ClaimHolds(n, options)
       <==> (if Divides(options) then 1.0 else 1.0 - Pow(options.alpha, n)) <= options.Effective().delta
  {
    hide TestsAtLevel, Pow, Divides;
    var delta := options.Effective().delta;
    PowNonNegative(options.alpha, n);
    if 1.0 <= delta {
      WideDelta(n, options);
    } else if Divides(options) {
      hide ClaimHolds, PassesUnlessAllWrong, LevelOf;
      var nTiers := EnoughTiers(options.alpha);
      CollapsedPasses(n, options.alpha, LevelOf(nTiers, options));
      DividedExactlyWhen(options, nTiers, n);
    } else if delta < 1.0 - Pow(options.alpha, n) {
      var pop := HighAlphaBreaks(options, n);
      assert !ClaimHolds(n, options);
    } else {
      hide ClaimHolds;
      HighAlphaLevel(n, options.alpha, delta);
      LevelsSuffice(n, options);
    }
  }

  // ------------------------------------------------------------ huge samples

  /** From 10^12 draws on the certificate itself fails, not just the p-value: at
      the level of one error's p-value both no error and one error pass, and they
      are more likely than that level. */
  lemma HugeSampleBreaksTheClaim(n: nat, alpha: real, step: real) returns (delta: real, pop: seq<Weighted>)
    requires SAMPLE_LIMIT <= n && TINY < alpha < 1.0 - TINY && 5.0 <= n as real * alpha
    ensures 0.0 < delta < 1.0 && IsPopulation(pop) && OneFlag(pop)
    ensures delta < Probability(pop, n, CertificateBroken(pop, 2, Options(alpha, delta, step, FixedSequence)))
  {
    hide Probability, CertificateBroken, HoeffdingBentkus, KeepsTerm, Cdf, Pow;
    OneIsDropped(n);
    PValueFailsWhereTermDropped(1, n, alpha);
    BinomCdfIsTheExactTail(1, n, alpha);
    CdfAtMostOne(n, 1, alpha);
    PValueFloor(1, n, alpha);
    PowNonNegative(1.0 - alpha, n);
    delta := HoeffdingBentkus(1, n, alpha);
    var options := Options(alpha, delta, step, FixedSequence);
    forall k: nat | k <= 1
      ensures HoeffdingBentkus(k, n, alpha) <= LevelOf(2, options)
    {
      assert k == 0 || k == 1;
    }
    pop := LikelyPassesBreakTheClaim(options, n, 1);
  }

  lemma OneIsDropped(n: nat)
    requires SAMPLE_LIMIT <= n
    ensures !KeepsTerm(1, n)
  {
    var a := 1 as real / n as real;
    assert a * n as real == 1.0;
    assert n as real * (TINY - a) == n as real * TINY - 1.0;
    SignOfProduct(n as real, TINY - a);
  }

  // ------------------------------------------------------------ one tier

  /** With one tier the grid is empty, nothing is tested, and a policy that is
      always wrong is certified at every alpha below 1. */
  lemma OneTierBreaksTheClaim(options: Options) returns (pop: seq<Weighted>)
    requires options.alpha < 1.0
    ensures IsPopulation(pop) && OneFlag(pop)
    ensures Probability(pop, 1, CertificateBroken(pop, 1, options)) == 1.0
  {
    var r := Case(false);
    pop := [Weighted(r, 1.0)];
    assert pop[1..] == [];
    assert AllCases([r]);
    CasesAreCounted([r]);
    var event := CertificateBroken(pop, 1, options);
    assert event([r]) by {
      assert CertificateOf([r], 1, options).value.thresholds == [];
      SoleWeight(r, 1.0, Usable);
      SoleWeight(r, 1.0, Both(Usable, Wrong([])));
    }
    HeadDraw(pop, pop, 1, event);
    assert [] + [r] == [r];
    assert Probability(pop, 0, After(event, r)) == 1.0;
  }
}
