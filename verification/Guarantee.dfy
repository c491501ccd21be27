/** The claim of package calibrate: over the draw of the calibration sample,
    P[ risk(tau_hat) <= alpha ] >= 1 - delta. */
module Guarantee {
  import opened Policy
  import opened Powers
  import opened Binomial
  import opened PValue
  import opened Grid
  import opened Calibration
  import opened Search
  import opened Sampling

  /** Alphas at which h1 is finite, and those at which no null can be false. */
  predicate AlphaClear(alpha: real) {
    alpha <= 0.0 || TINY < alpha < 1.0 - TINY || 1.0 <= alpha
  }

  // ------------------------------------------------------------ one test

  /** "The p-value of K errors in N records is at most bar", never on no records. */
  ghost function Rejects(alpha: real, bar: real): (nat, nat) -> bool {
    (n: nat, k: nat) => 0 < n && k <= n && HoeffdingBentkus(k, n, alpha) <= bar
  }

  /** The largest count whose exact tail is still within bar. */
  lemma {:induction false} LargestTail(m: nat, alpha: real, bar: real, top: nat) returns (c: int)
    requires 0.0 <= alpha <= 1.0
    ensures -1 <= c <= top
    ensures 0 <= c ==> Cdf(m, c, alpha) <= bar
    ensures forall k: nat :: k <= top && Cdf(m, k, alpha) <= bar ==> k <= c
  {
    if Cdf(m, top, alpha) <= bar {
      c := top;
    } else if top == 0 {
      c := -1;
    } else {
      c := LargestTail(m, alpha, bar, top - 1);
    }
  }

  lemma {:induction false} ExpectAtMostOne(m: nat, p: real, h: nat -> real)
    requires 0.0 <= p <= 1.0 && forall k: nat :: k <= m ==> h(k) <= 1.0
    ensures Expect(m, p, h) <= 1.0
  {
    ExpectMonotone(m, p, h, UpTo(m));
    ExpectOfTail(m, p, m);
    CdfAll(m, m, p);
  }

  /** The least error count whose term h1 keeps. */
  function LeastKept(n: nat): nat {
    n / SAMPLE_LIMIT + 1
  }

  /** n is below 10^12, or the least kept error count passes already. */
  predicate SizeClear(n: nat, alpha: real, bar: real) {
    n < SAMPLE_LIMIT || (LeastKept(n) <= n && HoeffdingBentkus(LeastKept(n), n, alpha) <= bar)
  }

  lemma KeptFromLeast(k: nat, n: nat)
    requires 0 < n
    ensures KeepsTerm(LeastKept(n), n)
    ensures LeastKept(n) <= k ==> KeepsTerm(k, n)
  {
    var c := LeastKept(n);
    assert n < c * SAMPLE_LIMIT;
    KeptAbove(c, n);
    if c <= k {
      KeptAbove(k, n);
    }
  }

  lemma KeptAbove(k: nat, n: nat)
    requires 0 < n && n < k * SAMPLE_LIMIT
    ensures KeepsTerm(k, n)
  {
    var a := k as real / n as real;
    assert a * n as real == k as real;
    assert n as real < k as real * 1000000000000.0;
    assert n as real * (a - TINY) == k as real - n as real * TINY;
    SignOfProduct(n as real, a - TINY);
  }

  /** A rejected count has an exact tail within the level. */
  lemma RejectedTail(k: nat, m: nat, alpha: real, t: real)
    requires 0 < m && k <= m && TINY < alpha < 1.0 - TINY && SizeClear(m, alpha, t)
    requires HoeffdingBentkus(k, m, alpha) <= t
    ensures Cdf(m, k, alpha) <= t
  {
    hide HoeffdingBentkus, Cdf, KeepsTerm, BinomCdf;
    if m < SAMPLE_LIMIT {
      SmallSamplesKeepTerm(k, m);
      KeptPValueDominates(k, m, alpha);
    } else {
      var c := LeastKept(m);
      KeptFromLeast(k, m);
      if c <= k {
        KeptPValueDominates(k, m, alpha);
      } else {
        KeptPValueDominates(c, m, alpha);
        BinomCdfIsTheExactTail(c, m, alpha);
        CdfGrows(m, k, c, alpha);
      }
    }
    BinomCdfIsTheExactTail(k, m, alpha);
  }

  /** The chance that m points erring at rate p are rejected at level t. */
  ghost function TestChance(m: nat, p: real, alpha: real, t: real): real {
    Expect(m, p, RejectedAt(m, Rejects(alpha, t)))
  }

  /** The p-value is super-uniform under the null: if each of m points errs with
      probability p >= alpha, the chance that it is at most t is at most t. */
  lemma PValueIsSuperUniform(m: nat, p: real, alpha: real, t: real)
    requires SizeClear(m, alpha, t) && 0.0 <= p <= 1.0 && 0.0 <= t
    requires alpha <= p && AlphaClear(alpha)
    ensures TestChance(m, p, alpha, t) <= t
  {
    var h := RejectedAt(m, Rejects(alpha, t));
    if m == 0 {
      ExpectPred(0, p, h);
    } else if 1.0 <= t {
      ExpectAtMostOne(m, p, h);
    } else if alpha <= 0.0 {
      forall k: nat | k <= m
        ensures h(k) <= UpTo(-1)(k)
      {
        assert 0.0 <= k as real / m as real;
      }
      ExpectMonotone(m, p, h, UpTo(-1));
      ExpectOfTail(m, p, -1);
    } else if 1.0 <= alpha {
      FullRateNeverRejects(m, alpha, t);
    } else {
      hide HoeffdingBentkus, SizeClear;
      var c := LargestTail(m, alpha, t, m);
      forall k: nat | k <= m
        ensures h(k) <= UpTo(c)(k)
      {
        if HoeffdingBentkus(k, m, alpha) <= t {
          RejectedTail(k, m, alpha, t);
        }
      }
      ExpectMonotone(m, p, h, UpTo(c));
      ExpectOfTail(m, p, c);
      CdfAntitoneInRate(m, c, alpha, p);
    }
  }

  /** Samples of up to n points: none tests a risk of alpha or more at worse than
      the level. */
  ghost predicate TestsAtLevel(n: nat, alpha: real, bar: real) {
    forall j: nat, p: real :: j <= n && 0.0 <= p <= 1.0 && alpha <= p ==> TestChance(j, p, alpha, bar) <= bar
  }

  lemma ClearTestsAtLevel(n: nat, alpha: real, bar: real)
    requires AlphaClear(alpha) && 0.0 <= bar && forall j: nat :: j <= n ==> SizeClear(j, alpha, bar)
    ensures TestsAtLevel(n, alpha, bar)
  {
    hide TestChance, SizeClear, AlphaClear;
    forall j: nat, p: real | j <= n && 0.0 <= p <= 1.0 && alpha <= p
      ensures TestChance(j, p, alpha, bar) <= bar
    {
      PValueIsSuperUniform(j, p, alpha, bar);
    }
  }

  /** At alpha = p = 1 only the all-error sample can occur, and it is not rejected. */
  lemma FullRateNeverRejects(m: nat, alpha: real, t: real)
    requires 0 < m && alpha == 1.0 && 0.0 <= t < 1.0
    ensures Expect(m, 1.0, RejectedAt(m, Rejects(alpha, t))) <= t
  {
    var h := RejectedAt(m, Rejects(alpha, t));
    forall k: nat | k <= m
      ensures h(k) <= UpTo(m - 1)(k)
    {
      if k == m {
        SelfRatio(m as real);
      }
    }
    ExpectMonotone(m, 1.0, h, UpTo(m - 1));
    ExpectOfTail(m, 1.0, m - 1);
    CdfAtFullRate(m, m - 1);
  }

  lemma SelfRatio(x: real)
    requires 0.0 < x
    ensures x / x == 1.0
  {
  }

  /** Records the threshold vector gets wrong. */
  function Wrong(tau: seq<real>): Record -> bool {
    (r: Record) => WrongUnder(r, tau)
  }

  /** The population risk of tau among the records of a stream exceeds alpha. */
  ghost predicate RiskExceeds(pop: seq<Weighted>, member: Record -> bool, tau: seq<real>, alpha: real) {
    alpha * WeightOf(pop, member) < WeightOf(pop, Both(member, Wrong(tau)))
  }

  /** Rejects, once at least that many records are counted. */
  ghost function RejectsFrom(alpha: real, bar: real, least: nat): (nat, nat) -> bool {
    (n: nat, k: nat) => least <= n && 0 < n && k <= n && HoeffdingBentkus(k, n, alpha) <= bar
  }

  /** "tau's test passes on the drawn sample's stream, of least records or more." */
  ghost function TestPasses(member: Record -> bool, tau: seq<real>, alpha: real, bar: real, least: nat):
    seq<Record> -> bool
  {
    CountEvent(member, Wrong(tau), RejectsFrom(alpha, bar, least), 0, 0)
  }

  /** "At least that many records of the drawn sample are members." */
  ghost function StreamReaches(member: Record -> bool, least: nat): seq<Record> -> bool {
    (s: seq<Record>) => least <= Count(s, member)
  }

  lemma ShareOfStream(u: real, b: real, alpha: real)
    requires 0.0 <= b <= u <= 1.0 && alpha * u < b
    ensures 0.0 < u && 0.0 <= b / u <= 1.0 && alpha <= b / u && b == u * (b / u)
  {
    assert 0.0 < u;
    var p := b / u;
    assert p * u == b;
    QuotientAtMostOne(b, u);
    assert 0.0 < (p - alpha) * u;
  }

  /** The chain and the chance that a stream is long enough. */
  lemma ReachChance(pop: seq<Weighted>, n: nat, member: Record -> bool, wrong: Record -> bool, p: real, least: nat)
    requires IsPopulation(pop)
    ensures Pending(n, 0, p, WeightOf(pop, member), WeightOf(pop, Both(member, wrong)), Reaching(least))
         == Probability(pop, n, StreamReaches(member, least))
  {
    hide Chain, Probability, WeightOf, Count, Expect;
    var gate := Reaching(least);
    var u, b := WeightOf(pop, member), WeightOf(pop, Both(member, wrong));
    ExpectPred(0, p, ChainAt(n, 0, u, b, gate));
    CountsFollowChain(pop, n, member, wrong, gate, 0, 0);
    SameEvents(pop, n, CountEvent(member, wrong, gate, 0, 0), StreamReaches(member, least));
  }

  lemma AnyStreamReaches(pop: seq<Weighted>, n: nat, member: Record -> bool)
    requires IsPopulation(pop)
    ensures Probability(pop, n, StreamReaches(member, 0)) == 1.0
  {
    ProbabilityOfEverything(pop, n, StreamReaches(member, 0));
  }

  /** One fixed threshold vector whose risk exceeds alpha passes its test on a
      stream of least records or more with probability at most bar times the
      chance of such a stream, however many of the n draws join it. */
  lemma BadVectorRarelyPasses(pop: seq<Weighted>, n: nat, member: Record -> bool, tau: seq<real>,
                              alpha: real, bar: real, least: nat)
    requires IsPopulation(pop) && TestsAtLevel(n, alpha, bar)
    requires RiskExceeds(pop, member, tau, alpha)
    ensures Probability(pop, n, TestPasses(member, tau, alpha, bar, least))
         <= bar * Probability(pop, n, StreamReaches(member, least))
  {
    var u, b := WeightOf(pop, member), WeightOf(pop, Both(member, Wrong(tau)));
    var reject := RejectsFrom(alpha, bar, least);
    WeightBounds(pop, Both(member, Wrong(tau)), member);
    ShareOfStream(u, b, alpha);
    var p := b / u;
    hide Expect, Chain, Probability, WeightOf, HoeffdingBentkus;
    forall j: nat | j <= n && least <= j
      ensures Expect(j, p, RejectedAt(j, reject)) <= bar
    {
      SameExpectation(j, p, RejectedAt(j, reject), RejectedAt(j, Rejects(alpha, bar)));
      assert TestChance(j, p, alpha, bar) <= bar;
    }
    RandomSampleSize(n, 0, p, u, b, reject, bar, least);
    ReachChance(pop, n, member, Wrong(tau), p, least);
    ExpectPred(0, p, ChainAt(n, 0, u, b, reject));
    CountsFollowChain(pop, n, member, Wrong(tau), reject, 0, 0);
  }

  // ------------------------------------------------------------ the whole search

  lemma {:induction false} CountInFilter(s: seq<Record>, member: Record -> bool, wrong: Record -> bool)
    ensures Count(Filter(s, member), wrong) == Count(s, Both(member, wrong))
  {
    if s != [] {
      var init, last := s[..|s| - 1], s[|s| - 1];
      CountInFilter(init, member, wrong);
      var kept := Filter(init, member);
      assert (kept + [last])[..|kept|] == kept;
      assert kept + [] == kept;
    }
  }

  lemma {:induction false} SameCount(s: seq<Record>, p: Record -> bool, q: Record -> bool)
    requires forall r :: p(r) == q(r)
    ensures Count(s, p) == Count(s, q)
  {
    if s != [] {
      SameCount(s[..|s| - 1], p, q);
    }
  }

  /** The event's counts are the sample size and error count Calibrate sees. */
  lemma TestPassesMeansPValue(s: seq<Record>, member: Record -> bool, tau: seq<real>, alpha: real, bar: real,
                              least: nat)
    ensures var use := Filter(s, member);
      TestPasses(member, tau, alpha, bar, least)(s)
      <==> least <= |use| && use != [] && HoeffdingBentkus(Errors(use, tau), |use|, alpha) <= bar
  {
    hide HoeffdingBentkus, Count;
    var use := Filter(s, member);
    CountInFilter(s, member, Wrong(tau));
    SameCount(use, Wrong(tau), (r: Record) => WrongUnder(r, tau));
    var n, k := Count(s, member), Count(s, Both(member, Wrong(tau)));
    assert n == |use| && k == Errors(use, tau);
    CountAtMostAll(use, Wrong(tau));
    assert k <= n;
    RejectsFromMeans(n, k, alpha, bar, least);
    assert TestPasses(member, tau, alpha, bar, least)(s) == RejectsFrom(alpha, bar, least)(n, k);
  }

  lemma RejectsFromMeans(n: nat, k: nat, alpha: real, bar: real, least: nat)
    requires k <= n
    ensures RejectsFrom(alpha, bar, least)(n, k)
         <==> least <= n && n != 0 && HoeffdingBentkus(k, n, alpha) <= bar
  {
    hide HoeffdingBentkus;
  }

  lemma {:induction false} CountAtMostAll(s: seq<Record>, p: Record -> bool)
    ensures Count(s, p) <= |s|
  {
    if s != [] {
      CountAtMostAll(s[..|s| - 1], p);
    }
  }

  /** Calibrate ran on the stream of `member` records, at least `least` of them, and
      certified a vector whose population risk on that stream exceeds alpha. */
  ghost function Miscertifies(pop: seq<Weighted>, member: Record -> bool, least: nat, nTiers: nat, options: Options):
    seq<Record> -> bool
  {
    (s: seq<Record>) =>
      && least <= Count(s, member)
      && Certifies(s, nTiers, options)
      && CalibrationStream(s) == Filter(s, member)
      && RiskExceeds(pop, member, CertificateOf(s, nTiers, options).value.thresholds, options.alpha)
  }

  ghost predicate IsBad(pop: seq<Weighted>, member: Record -> bool, alpha: real, tau: seq<real>) {
    RiskExceeds(pop, member, tau, alpha)
  }

  /** The first bad vector in visiting order, if the grid has one. */
  lemma FirstBad(grid: seq<seq<real>>, pop: seq<Weighted>, member: Record -> bool, alpha: real, n: nat)
    returns (first: seq<real>, found: bool)
    requires SameArity(grid) && n <= |grid|
    ensures !found ==> forall i :: 0 <= i < n ==> !IsBad(pop, member, alpha, grid[i])
    ensures found ==> first in grid && IsBad(pop, member, alpha, first)
    ensures found ==> forall i :: 0 <= i < n && IsBad(pop, member, alpha, grid[i]) ==>
      grid[i] == first || Before(first, grid[i])
  {
    hide IsBad, Before;
    first, found := [], false;
    if n != 0 {
      first, found := FirstBad(grid, pop, member, alpha, n - 1);
      var v := grid[n - 1];
      if IsBad(pop, member, alpha, v) && (!found || Before(v, first)) {
        forall i | 0 <= i < n && IsBad(pop, member, alpha, grid[i])
          ensures grid[i] == v || Before(v, grid[i])
        {
          if i < n - 1 && grid[i] != first {
            BeforeTransitive(v, first, grid[i]);
          }
        }
        first, found := v, true;
      } else if found && first != v {
        BeforeTotal(first, v);
      }
    }
  }

  lemma BeforeTotal(a: seq<real>, b: seq<real>)
    requires |a| == |b| && a != b
    ensures Before(a, b) || Before(b, a)
  {
    LexTotal(a, b);
  }

  /** Fixed-sequence: certifying any bad vector means the first bad one passed. */
  lemma MiscertifiedImpliesFirstBadPassed(pop: seq<Weighted>, member: Record -> bool, least: nat, nTiers: nat,
                                          options: Options, s: seq<Record>, first: seq<real>)
    requires 2 <= nTiers && options.correction == FixedSequence
    requires var grid := GridOf(nTiers - 1, options.Effective().step);
      && first in grid
      && forall i :: 0 <= i < |grid| && IsBad(pop, member, options.alpha, grid[i]) ==>
           grid[i] == first || Before(first, grid[i])
    ensures Miscertifies(pop, member, least, nTiers, options)(s) ==>
            TestPasses(member, first, options.alpha, options.Effective().delta, least)(s)
  {
    hide RiskExceeds, HoeffdingBentkus, Before, GridOf, CalibrationStream, Errors, Filter, MeanCostOf, RiskOf;
    if !Miscertifies(pop, member, least, nTiers, options)(s) {
      return;
    }
    var opts := options.Effective();
    var use, grid := Filter(s, member), GridOf(nTiers - 1, opts.step);
    var eval := Evaluate(use, opts.alpha, grid);
    var at :| 0 <= at < |grid| && grid[at] == first;
    assert use != [] && SameArity(grid) by {
      CertificateShape(s, nTiers, options);
    }
    var best := CertifiedIndex(s, nTiers, options);
    assert IsBad(pop, member, options.alpha, grid[best]);
    assert eval[at].p <= opts.delta by {
      assert grid[at] == grid[best] ==> eval[at] == eval[best];
    }
    TestPassesMeansPValue(s, member, first, options.alpha, opts.delta, least);
  }

  /** The grid index behind a valid fixed-sequence certificate. */
  lemma CertifiedIndex(s: seq<Record>, nTiers: nat, options: Options) returns (best: nat)
    requires 2 <= nTiers && options.correction == FixedSequence
    ensures Certifies(s, nTiers, options) ==>
      var opts, use := options.Effective(), CalibrationStream(s);
      var grid := GridOf(nTiers - 1, opts.step);
      && best < |grid| && CertificateOf(s, nTiers, options).value.thresholds == grid[best]
      && Certified(Evaluate(use, opts.alpha, grid), grid, opts.delta, best)
  {
    hide HoeffdingBentkus, GridOf, CalibrationStream, Errors, MeanCostOf, RiskOf, CertificateOf, Selected;
    if !Certifies(s, nTiers, options) {
      return 0;
    }
    var opts, use := options.Effective(), CalibrationStream(s);
    var grid := GridOf(nTiers - 1, opts.step);
    CertificateShape(s, nTiers, options);
    var eval := Evaluate(use, opts.alpha, grid);
    EvaluationIsByVector(use, opts.alpha, grid);
    FixedSequenceReturnsCheapestCertified(eval, grid, opts);
    best := Selected(eval, grid, opts).value;
  }

  lemma FixedSequenceGuarantee(pop: seq<Weighted>, n: nat, member: Record -> bool, least: nat, nTiers: nat,
                               options: Options)
    requires IsPopulation(pop) && 2 <= nTiers && options.correction == FixedSequence
    requires TestsAtLevel(n, options.alpha, options.Effective().delta)
    ensures Probability(pop, n, Miscertifies(pop, member, least, nTiers, options))
         <= options.Effective().delta * Probability(pop, n, StreamReaches(member, least))
  {
    hide Probability, Miscertifies, TestPasses, GridOf, RiskExceeds;
    var opts := options.Effective();
    var grid := GridOf(nTiers - 1, opts.step);
    var event := Miscertifies(pop, member, least, nTiers, options);
    GridHasOneArity(nTiers - 1, opts.step);
    var first, found := FirstBad(grid, pop, member, options.alpha, |grid|);
    if found {
      var pass := TestPasses(member, first, options.alpha, opts.delta, least);
      forall s | Drawn(pop, n, s) && event(s)
        ensures pass(s)
      {
        MiscertifiedImpliesFirstBadPassed(pop, member, least, nTiers, options, s, first);
      }
      ProbabilityMonotone(pop, n, event, pass);
      BadVectorRarelyPasses(pop, n, member, first, options.alpha, opts.delta, least) by {
        assert IsBad(pop, member, options.alpha, first);
      }
    } else {
      forall s
        ensures !event(s)
      {
        NoBadVectorNoEvent(pop, member, least, nTiers, options, s);
      }
      ProbabilityOfNothing(pop, n, event);
      ProbabilityMonotone(pop, n, event, StreamReaches(member, least));
      MulNonNegative(opts.delta, Probability(pop, n, StreamReaches(member, least)));
    }
  }

  lemma NoBadVectorNoEvent(pop: seq<Weighted>, member: Record -> bool, least: nat, nTiers: nat, options: Options,
                           s: seq<Record>)
    requires 2 <= nTiers
    requires var grid := GridOf(nTiers - 1, options.Effective().step);
      forall i :: 0 <= i < |grid| ==> !IsBad(pop, member, options.alpha, grid[i])
    ensures !Miscertifies(pop, member, least, nTiers, options)(s)
  {
    hide RiskExceeds, HoeffdingBentkus, GridOf, CalibrationStream, Errors, Filter, MeanCostOf, CertificateOf,
         Selected, Evaluate;
    if Certifies(s, nTiers, options) {
      CertificateShape(s, nTiers, options);
      var grid := GridOf(nTiers - 1, options.Effective().step);
      var v := CertificateOf(s, nTiers, options).value.thresholds;
      assert v in grid;
      assert !IsBad(pop, member, options.alpha, v);
    }
  }

  // ------------------------------------------------------------ Bonferroni

  /** "Some bad vector among the first i of the grid passes the divided level." */
  ghost function SomeBadPasses(pop: seq<Weighted>, member: Record -> bool, least: nat, grid: seq<seq<real>>,
                               alpha: real, bar: real, i: nat): seq<Record> -> bool
    requires i <= |grid|
  {
    (s: seq<Record>) =>
      exists j :: 0 <= j < i && IsBad(pop, member, alpha, grid[j])
                  && TestPasses(member, grid[j], alpha, bar, least)(s)
  }

  lemma {:induction false} UnionBound(pop: seq<Weighted>, n: nat, member: Record -> bool, least: nat,
                                      grid: seq<seq<real>>, alpha: real, bar: real, i: nat)
    requires IsPopulation(pop) && TestsAtLevel(n, alpha, bar) && 0.0 <= bar && i <= |grid|
    ensures Probability(pop, n, SomeBadPasses(pop, member, least, grid, alpha, bar, i))
         <= i as real * (bar * Probability(pop, n, StreamReaches(member, least)))
  {
    hide Probability, TestPasses, RiskExceeds;
    var event, reach := SomeBadPasses(pop, member, least, grid, alpha, bar, i), StreamReaches(member, least);
    ProbabilityMonotone(pop, n, reach, reach);
    MulNonNegative(bar, Probability(pop, n, reach));
    if i == 0 {
      ProbabilityOfNothing(pop, n, event);
    } else {
      var before := SomeBadPasses(pop, member, least, grid, alpha, bar, i - 1);
      UnionBound(pop, n, member, least, grid, alpha, bar, i - 1);
      OneMore(i, bar * Probability(pop, n, reach));
      if IsBad(pop, member, alpha, grid[i - 1]) {
        var last := TestPasses(member, grid[i - 1], alpha, bar, least);
        ProbabilityUnion(pop, n, event, before, last);
        BadVectorRarelyPasses(pop, n, member, grid[i - 1], alpha, bar, least) by {
          assert IsBad(pop, member, alpha, grid[i - 1]);
        }
      } else {
        ProbabilityMonotone(pop, n, event, before);
      }
    }
  }

  lemma OneMore(i: nat, bar: real)
    requires 0 < i && 0.0 <= bar
    ensures i as real * bar == (i - 1) as real * bar + bar
  {
    assert i as real == (i - 1) as real + 1.0;
  }

  lemma MiscertifiedImpliesSomeBadPassed(pop: seq<Weighted>, member: Record -> bool, least: nat, nTiers: nat,
                                         options: Options, s: seq<Record>)
    requires 2 <= nTiers && options.correction == Bonferroni
    ensures Miscertifies(pop, member, least, nTiers, options)(s) ==>
      var opts := options.Effective();
      var grid := GridOf(nTiers - 1, opts.step);
      grid != [] && SomeBadPasses(pop, member, least, grid, options.alpha, opts.delta / |grid| as real, |grid|)(s)
  {
    hide RiskExceeds, HoeffdingBentkus, GridOf, CalibrationStream, Errors, Filter, MeanCostOf, RiskOf,
         CertificateOf, Selected, TestPasses;
    if !Miscertifies(pop, member, least, nTiers, options)(s) {
      return;
    }
    var opts := options.Effective();
    var use, grid := CalibrationStream(s), GridOf(nTiers - 1, opts.step);
    CertificateShape(s, nTiers, options);
    var eval := Evaluate(use, opts.alpha, grid);
    BonferroniReturnsCheapestPassing(eval, grid, opts);
    var best := Selected(eval, grid, opts).value;
    TestPassesMeansPValue(s, member, grid[best], options.alpha, opts.delta / |grid| as real, least);
    assert IsBad(pop, member, options.alpha, grid[best]);
  }

  /** The level each vector is tested at. */
  function LevelOf(nTiers: nat, options: Options): (level: real)
    requires 2 <= nTiers
    ensures 0.0 < level
  {
    var opts := options.Effective();
    if opts.correction == FixedSequence then opts.delta
    else
      GridNonEmpty(nTiers - 1, opts.step);
      ShareIsPositive(opts.delta, |GridOf(nTiers - 1, opts.step)|);
      opts.delta / |GridOf(nTiers - 1, opts.step)| as real
  }

  lemma ShareIsPositive(delta: real, n: nat)
    requires 0.0 < delta && 0 < n
    ensures 0.0 < delta / n as real
  {
    var x := delta / n as real;
    assert x * n as real == delta;
    if x <= 0.0 {
      MulNonNegative(-x, n as real);
    }
  }

  lemma BonferroniGuarantee(pop: seq<Weighted>, n: nat, member: Record -> bool, least: nat, nTiers: nat,
                            options: Options)
    requires IsPopulation(pop) && 2 <= nTiers && options.correction == Bonferroni
    requires TestsAtLevel(n, options.alpha, LevelOf(nTiers, options))
    ensures Probability(pop, n, Miscertifies(pop, member, least, nTiers, options))
         <= options.Effective().delta * Probability(pop, n, StreamReaches(member, least))
  {
    hide Probability, Miscertifies, GridOf, SomeBadPasses;
    var opts := options.Effective();
    var grid := GridOf(nTiers - 1, opts.step);
    GridNonEmpty(nTiers - 1, opts.step);
    var bar := opts.delta / |grid| as real;
    assert bar * |grid| as real == opts.delta && 0.0 <= bar;
    var event, some := Miscertifies(pop, member, least, nTiers, options),
                       SomeBadPasses(pop, member, least, grid, options.alpha, bar, |grid|);
    forall s | Drawn(pop, n, s) && event(s)
      ensures some(s)
    {
      MiscertifiedImpliesSomeBadPassed(pop, member, least, nTiers, options, s);
    }
    ProbabilityMonotone(pop, n, event, some);
    UnionBound(pop, n, member, least, grid, options.alpha, bar, |grid|);
  }

  /** For any stream of records, any finite population, any sample size and
      either correction: the chance of certifying, on that stream, a vector
      whose risk exceeds alpha is at most delta, and at most delta times the chance
      of a stream of least records when it has to be that long. */
  lemma StreamGuarantee(pop: seq<Weighted>, n: nat, member: Record -> bool, least: nat, nTiers: nat,
                        options: Options)
    requires IsPopulation(pop) && 2 <= nTiers && TestsAtLevel(n, options.alpha, LevelOf(nTiers, options))
    ensures Probability(pop, n, Miscertifies(pop, member, least, nTiers, options))
         <= options.Effective().delta * Probability(pop, n, StreamReaches(member, least))
  {
    if options.correction == FixedSequence {
      FixedSequenceGuarantee(pop, n, member, least, nTiers, options);
    } else {
      BonferroniGuarantee(pop, n, member, least, nTiers, options);
    }
  }

  // ------------------------------------------------------------ the stream Calibrate picks

  /** The records the certificate's sample stands for. */
  ghost function StreamMember(s: seq<Record>): Record -> bool {
    if PrefersShadow(s) then UsableShadow else Usable
  }

  /** The certificate Calibrate issues is valid, yet the risk of its thresholds
      over the stream it was calibrated on exceeds alpha. */
  ghost function CertificateBroken(pop: seq<Weighted>, nTiers: nat, options: Options): seq<Record> -> bool {
    (s: seq<Record>) =>
      && Certifies(s, nTiers, options)
      && RiskExceeds(pop, StreamMember(s), CertificateOf(s, nTiers, options).value.thresholds, options.alpha)
  }

  /** Every record carries the same shadow flag, as Profile's records all do. */
  ghost predicate OneFlag(pop: seq<Weighted>) {
    forall i, j :: 0 <= i < |pop| && 0 <= j < |pop| ==> pop[i].rec.shadow == pop[j].rec.shadow
  }

  lemma {:induction false} SameFilter(s: seq<Record>, p: Record -> bool, q: Record -> bool)
    requires forall i :: 0 <= i < |s| ==> p(s[i]) == q(s[i])
    ensures Filter(s, p) == Filter(s, q)
  {
    if s != [] {
      SameFilter(s[..|s| - 1], p, q);
    }
  }

  lemma {:induction false} SameWeight(pop: seq<Weighted>, p: Record -> bool, q: Record -> bool)
    requires forall i :: 0 <= i < |pop| ==> p(pop[i].rec) == q(pop[i].rec)
    ensures WeightOf(pop, p) == WeightOf(pop, q)
  {
    if pop != [] {
      SameWeight(pop[1..], p, q);
    }
  }

  /** With one shadow flag the certificate inherits the level of a single test. */
  lemma OneFlagGuarantee(pop: seq<Weighted>, n: nat, nTiers: nat, options: Options)
    requires IsPopulation(pop) && OneFlag(pop)
    requires 2 <= nTiers && TestsAtLevel(n, options.alpha, LevelOf(nTiers, options))
    ensures Probability(pop, n, CertificateBroken(pop, nTiers, options)) <= options.Effective().delta
  {
    var event := CertificateBroken(pop, nTiers, options);
    if pop != [] && pop[0].rec.shadow {
      hide Probability, CertificateOf, WeightOf;
      var base := Miscertifies(pop, Usable, 0, nTiers, options);
      forall s | Drawn(pop, n, s) && event(s)
        ensures base(s)
      {
        SameFilter(s, UsableShadow, Usable);
        SameStreamRisk(pop, UsableShadow, Usable, CertificateOf(s, nTiers, options).value.thresholds, options.alpha);
      }
      ProbabilityMonotone(pop, n, event, base);
      StreamGuarantee(pop, n, Usable, 0, nTiers, options);
      AnyStreamReaches(pop, n, Usable);
    } else {
      hide Probability, CertificateOf, WeightOf;
      var base := Miscertifies(pop, Usable, 0, nTiers, options);
      forall s | Drawn(pop, n, s) && event(s)
        ensures base(s)
      {
        NoShadowDrawn(pop, n, s);
      }
      ProbabilityMonotone(pop, n, event, base);
      StreamGuarantee(pop, n, Usable, 0, nTiers, options);
      AnyStreamReaches(pop, n, Usable);
    }
  }

  /** P[ valid and risk(tau_hat) > alpha ] <= delta: the package's claim, for
      populations whose records were all collected with one shadow flag. Below
      10^12 draws SizeClear asks nothing. */
  lemma CertificateTheorem(pop: seq<Weighted>, n: nat, nTiers: nat, options: Options)
    requires IsPopulation(pop) && OneFlag(pop)
    requires 2 <= nTiers && AlphaClear(options.alpha)
    requires forall j: nat :: j <= n ==> SizeClear(j, options.alpha, LevelOf(nTiers, options))
    ensures Probability(pop, n, CertificateBroken(pop, nTiers, options)) <= options.Effective().delta
  {
    ClearTestsAtLevel(n, options.alpha, LevelOf(nTiers, options));
    OneFlagGuarantee(pop, n, nTiers, options);
  }

  lemma SameStreamRisk(pop: seq<Weighted>, p: Record -> bool, q: Record -> bool, tau: seq<real>, alpha: real)
    requires forall i :: 0 <= i < |pop| ==> p(pop[i].rec) == q(pop[i].rec)
    ensures RiskExceeds(pop, p, tau, alpha) == RiskExceeds(pop, q, tau, alpha)
  {
    SameWeight(pop, p, q);
    SameWeight(pop, Both(p, Wrong(tau)), Both(q, Wrong(tau)));
  }

  lemma {:induction false} NoShadowCount(s: seq<Record>)
    requires forall i :: 0 <= i < |s| ==> !s[i].shadow
    ensures Count(s, UsableShadow) == 0
  {
    if s != [] {
      NoShadowCount(s[..|s| - 1]);
    }
  }

  lemma NoShadowDrawn(pop: seq<Weighted>, n: nat, s: seq<Record>)
    requires OneFlag(pop) && (pop == [] || !pop[0].rec.shadow) && Drawn(pop, n, s)
    ensures !PrefersShadow(s)
  {
    NoShadowCount(s);
  }

  /** With both flags in the population the choice between the shadow subset
      and the full sample depends on the draw, and the bound is delta once more
      for the draws that prefer the shadow subset. */
  lemma MixedStreamTheorem(pop: seq<Weighted>, n: nat, nTiers: nat, options: Options)
    requires IsPopulation(pop) && 2 <= nTiers && TestsAtLevel(n, options.alpha, LevelOf(nTiers, options))
    ensures Probability(pop, n, CertificateBroken(pop, nTiers, options))
         <= options.Effective().delta * (1.0 + Probability(pop, n, PrefersShadow))
  {
    hide Probability, CertificateOf, WeightOf, RiskExceeds;
    var event := CertificateBroken(pop, nTiers, options);
    var full := Miscertifies(pop, Usable, 0, nTiers, options);
    var shadow := Miscertifies(pop, UsableShadow, SHADOW_MIN, nTiers, options);
    ProbabilityUnion(pop, n, event, full, shadow);
    StreamGuarantee(pop, n, Usable, 0, nTiers, options);
    AnyStreamReaches(pop, n, Usable);
    StreamGuarantee(pop, n, UsableShadow, SHADOW_MIN, nTiers, options);
    SameEvents(pop, n, StreamReaches(UsableShadow, SHADOW_MIN), PrefersShadow);
  }
}
