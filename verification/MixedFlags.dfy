/** Why the certificate's claim is about records collected with one shadow flag:
    a population that mixes flags and is miscertified too often. */
module MixedFlags {
  import opened Wrappers
  import opened Policy
  import opened Powers
  import opened Binomial
  import opened PValue
  import opened Grid
  import opened Calibration
  import opened Search
  import opened Sampling
  import opened Guarantee

  function Tier(ok: bool): TierObs {
    TierObs("tier", 0.0, ok, None, 1.0, false)
  }

  /** Two tiers, the first with score 0: it accepts at threshold 0 only. */
  function Case(first: bool, last: bool, shadow: bool): Record {
    Record("case", [Tier(first), Tier(last)], false, false, 0.0, false, false, false, shadow)
  }

  const EASY: Record := Case(true, true, false)
  const REPAIRED: Record := Case(false, true, true)
  const HOPELESS: Record := Case(false, false, true)

  /** A share w was shadow-sampled. The first tier fails on all of it, the last
      tier on a share w of it; the rest is right everywhere. */
  function Population(w: real): seq<Weighted> {
    [Weighted(EASY, 1.0 - w), Weighted(REPAIRED, w * (1.0 - w)), Weighted(HOPELESS, w * w)]
  }

  predicate AcceptsFirst(tau: seq<real>) {
    |tau| == 1 && tau[0] <= 0.0
  }

  lemma ReplayCase(first: bool, last: bool, shadow: bool, tau: seq<real>)
    requires |tau| == 1
    ensures var out := ReplayOf(Case(first, last, shadow), tau);
      && out.correct == (if AcceptsFirst(tau) then first else last)
      && out.cost == (if AcceptsFirst(tau) then 1.0 else 2.0)
  {
    var tiers := [Tier(first), Tier(last)];
    assert Spend(tiers, 0) == 0.0 && Spend(tiers, 1) == 1.0 && Spend(tiers, 2) == 2.0;
    StopIsUnique(tiers, tau, if AcceptsFirst(tau) then 0 else 1);
  }

  // ------------------------------------------------------------ samples of one case

  ghost predicate AllSame(s: seq<Record>, r: Record) {
    forall i :: 0 <= i < |s| ==> s[i] == r
  }

  lemma {:induction false} SameCounts(s: seq<Record>, r: Record, p: Record -> bool)
    requires AllSame(s, r)
    ensures Count(s, p) == if p(r) then |s| else 0
    ensures p(r) ==> Filter(s, p) == s
  {
    if s != [] {
      SameCounts(s[..|s| - 1], r, p);
      assert s == s[..|s| - 1] + [s[|s| - 1]];
    }
  }

  lemma {:induction false} SameTotal(s: seq<Record>, r: Record, f: Record -> real, c: real)
    requires AllSame(s, r) && f(r) == c
    ensures Total(s, f) == |s| as real * c
  {
    if s != [] {
      SameTotal(s[..|s| - 1], r, f, c);
      OneTermMore(|s|, c);
    }
  }

  lemma OneTermMore(n: nat, c: real)
    requires n != 0
    ensures (n - 1) as real * c + c == n as real * c
  {
    assert n as real == (n - 1) as real + 1.0;
  }

  lemma SameErrors(s: seq<Record>, r: Record, tau: seq<real>)
    requires AllSame(s, r)
    ensures Errors(s, tau) == if WrongUnder(r, tau) then |s| else 0
  {
    SameCounts(s, r, (x: Record) => WrongUnder(x, tau));
  }

  lemma SameMeanCost(s: seq<Record>, r: Record, tau: seq<real>)
    requires AllSame(s, r) && s != []
    ensures MeanCostOf(s, tau) == ReplayOf(r, tau).cost
  {
    var c := ReplayOf(r, tau).cost;
    SameTotal(s, r, (x: Record) => ReplayOf(x, tau).cost, c);
    Cancel(|s| as real, c);
  }

  lemma Cancel(n: real, c: real)
    requires 0.0 < n
    ensures n * c / n == c
  {
    var x := n * c / n;
    assert x * n == n * c;
    assert n * (x - c) == 0.0;
    SignOfProduct(n, x - c);
    SignOfProduct(n, c - x);
  }

  lemma SameStream(s: seq<Record>, first: bool, last: bool, shadow: bool)
    requires AllSame(s, Case(first, last, shadow)) && SHADOW_MIN <= |s|
    ensures CalibrationStream(s) == s
    ensures StreamMember(s) == if shadow then UsableShadow else Usable
  {
    SameCounts(s, Case(first, last, shadow), UsableShadow);
    SameCounts(s, Case(first, last, shadow), Usable);
  }

  // ------------------------------------------------------------ what each sample certifies

  function Level(alpha: real, n: nat): real {
    Pow(1.0 - alpha, n)
  }

  function Setting(alpha: real, step: real, n: nat): Options {
    Options(alpha, Level(alpha, n), step, FixedSequence)
  }

  lemma LevelInUnit(alpha: real, n: nat)
    requires TINY < alpha < 1.0 - TINY && 1 <= n
    ensures 0.0 < Level(alpha, n) < 1.0
  {
    PowNonNegative(1.0 - alpha, n);
    PowAntitone(1.0 - alpha, 1, n);
    PowPred(1.0 - alpha, 1);
    PowZero(1.0 - alpha);
  }

  /** On equal records a vector passes exactly when it is right. */
  lemma PassesWhenRight(s: seq<Record>, r: Record, alpha: real, tau: seq<real>)
    requires AllSame(s, r) && 1 <= |s| && TINY < alpha < 1.0 - TINY
    ensures CandOf(s, alpha, tau).p <= Level(alpha, |s|) <==> !WrongUnder(r, tau)
  {
    hide HoeffdingBentkus, MeanCostOf, RiskOf, WrongUnder, Pow;
    SameErrors(s, r, tau);
    LevelInUnit(alpha, |s|);
    PValueFloor(0, |s|, alpha);
    AllErrorsNeverPass(|s|, alpha);
  }

  lemma AllErrorsNeverPass(n: nat, alpha: real)
    requires 1 <= n && alpha < 1.0
    ensures HoeffdingBentkus(n, n, alpha) == 1.0
  {
    SelfRatio(n as real);
  }

  lemma ZeroIsALevel(step: real)
    requires 0.001 <= step
    ensures [0.0] in GridOf(1, step)
  {
    assert RoundMilli(0.0) == 0.0;
    assert Levels(step)[0] == 0.0;
    assert IsVector([0.0], 1, Levels(step));
    GridListsEveryVectorOnce(1, step, [0.0]);
    PresentOccurs(GridOf(1, step), [0.0]);
  }

  /** When everything passes, what is selected is as cheap as any grid point. */
  predicate CheapWhenFirst(eval: seq<Cand>, grid: seq<seq<real>>)
    requires |eval| == |grid|
  {
    forall j :: 0 <= j < |grid| ==>
      |grid[j]| == 1 && eval[j].cost == if AcceptsFirst(grid[j]) then 1.0 else 2.0
  }

  lemma SelectsTheFirst(eval: seq<Cand>, grid: seq<seq<real>>, opts: Options, i: nat)
    requires EvaluatesGrid(eval, grid) && SameArity(grid) && i < |grid| && grid[i] == [0.0]
    requires opts.correction == FixedSequence && forall j :: 0 <= j < |eval| ==> eval[j].p <= opts.delta
    requires CheapWhenFirst(eval, grid)
    ensures Selected(eval, grid, opts).Some?
    ensures AcceptsFirst(grid[Selected(eval, grid, opts).value])
  {
    hide Selected, Before;
    FixedSequenceReturnsCheapestCertified(eval, grid, opts);
    assert Certified(eval, grid, opts.delta, i);
  }

  /** Easy records only: everything passes, and the cheapest certified vector
      accepts the first tier. */
  lemma EasyCertifiesFirst(s: seq<Record>, alpha: real, step: real)
    requires AllSame(s, EASY) && SHADOW_MIN <= |s| && TINY < alpha < 1.0 - TINY && 0.001 <= step
    ensures Certifies(s, 2, Setting(alpha, step, |s|))
    ensures AcceptsFirst(CertificateOf(s, 2, Setting(alpha, step, |s|)).value.thresholds)
  {
    var options := Setting(alpha, step, |s|);
    LevelInUnit(alpha, |s|);
    assert options.Effective() == options;
    hide CandOf, CertificateOf, GridOf, Selected, Before, Level, CalibrationStream, AllSame, Evaluate;
    hide EvaluatesGrid, SameArity, AcceptsFirst, CheapWhenFirst;
    var grid := GridOf(1, step);
    SameStream(s, true, true, false);
    CertificateShape(s, 2, options);
    ZeroIsALevel(step);
    var zero :| 0 <= zero < |grid| && grid[zero] == [0.0];
    EasyEvaluation(s, alpha, step);
    EvaluationIsByVector(s, alpha, grid);
    SelectsTheFirst(Evaluate(s, alpha, grid), grid, options, zero);
  }

  lemma EasyEvaluation(s: seq<Record>, alpha: real, step: real)
    requires AllSame(s, EASY) && SHADOW_MIN <= |s| && TINY < alpha < 1.0 - TINY && 0.001 <= step
    ensures var (grid, eval) := (GridOf(1, step), Evaluate(s, alpha, GridOf(1, step)));
      CheapWhenFirst(eval, grid) && forall i :: 0 <= i < |eval| ==> eval[i].p <= Level(alpha, |s|)
  {
    hide CandOf, GridOf, Level, AllSame;
    var grid := GridOf(1, step);
    forall i | 0 <= i < |grid|
      ensures CandOf(s, alpha, grid[i]).p <= Level(alpha, |s|)
      ensures |grid[i]| == 1 && CandOf(s, alpha, grid[i]).cost == if AcceptsFirst(grid[i]) then 1.0 else 2.0
    {
      EasyVector(s, alpha, step, grid[i]);
    }
  }

  lemma EasyVector(s: seq<Record>, alpha: real, step: real, tau: seq<real>)
    requires AllSame(s, EASY) && SHADOW_MIN <= |s| && TINY < alpha < 1.0 - TINY
    requires 0.001 <= step && tau in GridOf(1, step)
    ensures |tau| == 1 && CandOf(s, alpha, tau).p <= Level(alpha, |s|)
    ensures CandOf(s, alpha, tau).cost == if AcceptsFirst(tau) then 1.0 else 2.0
  {
    hide HoeffdingBentkus, Level, RiskOf, GridOf;
    GridEntriesInUnitInterval(1, step, tau);
    ReplayCase(true, true, false, tau);
    PassesWhenRight(s, EASY, alpha, tau);
    SameMeanCost(s, EASY, tau);
  }

  /** Only records that the last tier alone gets right: whatever is certified
      escalates. */
  lemma RepairedCertifiesLast(s: seq<Record>, alpha: real, step: real)
    requires AllSame(s, REPAIRED) && SHADOW_MIN <= |s| && TINY < alpha < 1.0 - TINY
    requires 0.001 <= step && 1.0 in Levels(step)
    ensures Certifies(s, 2, Setting(alpha, step, |s|))
    ensures var tau := CertificateOf(s, 2, Setting(alpha, step, |s|)).value.thresholds;
      |tau| == 1 && !AcceptsFirst(tau)
  {
    var options := Setting(alpha, step, |s|);
    LevelInUnit(alpha, |s|);
    hide CandOf, CertificateOf, GridOf, Selected, Before, Level, CalibrationStream, AllSame;
    var grid := GridOf(1, step);
    SameStream(s, false, true, true);
    CertificateShape(s, 2, options);
    var eval := Evaluate(s, alpha, grid);
    forall i | 0 <= i < |grid|
      ensures |grid[i]| == 1 && (eval[i].p <= Level(alpha, |s|) <==> !AcceptsFirst(grid[i]))
    {
      RepairedVector(s, alpha, step, grid[i]);
    }
    EvaluationIsByVector(s, alpha, grid);
    var top := LocateOnes(1, step);
    SearchSucceedsIffTopPasses(eval, grid, options, top);
    FixedSequenceReturnsCheapestCertified(eval, grid, options);
  }

  lemma RepairedVector(s: seq<Record>, alpha: real, step: real, tau: seq<real>)
    requires AllSame(s, REPAIRED) && SHADOW_MIN <= |s| && TINY < alpha < 1.0 - TINY
    requires 0.001 <= step && tau in GridOf(1, step)
    ensures |tau| == 1 && (CandOf(s, alpha, tau).p <= Level(alpha, |s|) <==> !AcceptsFirst(tau))
  {
    hide HoeffdingBentkus, Level, RiskOf, GridOf;
    GridEntriesInUnitInterval(1, step, tau);
    ReplayCase(false, true, true, tau);
    PassesWhenRight(s, REPAIRED, alpha, tau);
  }

  // ------------------------------------------------------------ risks

  lemma HeadWeight(r: Record, w: real, rest: seq<Weighted>, p: Record -> bool)
    ensures WeightOf([Weighted(r, w)] + rest, p) == (if p(r) then w else 0.0) + WeightOf(rest, p)
    ensures TotalWeight([Weighted(r, w)] + rest) == w + TotalWeight(rest)
  {
    assert ([Weighted(r, w)] + rest)[1..] == rest;
  }

  lemma ThreeWeights(a: real, b: real, c: real, p: Record -> bool)
    ensures var pop := [Weighted(EASY, a), Weighted(REPAIRED, b), Weighted(HOPELESS, c)];
      && WeightOf(pop, p)
         == (if p(EASY) then a else 0.0) + (if p(REPAIRED) then b else 0.0) + (if p(HOPELESS) then c else 0.0)
      && TotalWeight(pop) == a + b + c
  {
    var last, rest := [Weighted(HOPELESS, c)] + [], [Weighted(REPAIRED, b), Weighted(HOPELESS, c)];
    HeadWeight(HOPELESS, c, [], p);
    HeadWeight(REPAIRED, b, last, p);
    HeadWeight(EASY, a, rest, p);
    assert [Weighted(REPAIRED, b)] + last == rest;
    assert [Weighted(EASY, a)] + rest == [Weighted(EASY, a), Weighted(REPAIRED, b), Weighted(HOPELESS, c)];
  }

  lemma Weights(w: real, p: Record -> bool)
    ensures WeightOf(Population(w), p)
         == (if p(EASY) then 1.0 - w else 0.0) + (if p(REPAIRED) then w * (1.0 - w) else 0.0)
            + (if p(HOPELESS) then w * w else 0.0)
    ensures TotalWeight(Population(w)) == 1.0
    ensures w * (1.0 - w) + w * w == w
  {
    hide WeightOf, TotalWeight;
    ThreeWeights(1.0 - w, w * (1.0 - w), w * w, p);
  }

  lemma IsAPopulation(w: real)
    requires 0.0 <= w <= 1.0
    ensures IsPopulation(Population(w))
  {
    Weights(w, Usable);
    MulNonNegative(w, 1.0 - w);
    MulNonNegative(w, w);
  }

  lemma WrongCases(tau: seq<real>)
    requires |tau| == 1
    ensures !WrongUnder(EASY, tau) && WrongUnder(HOPELESS, tau) && WrongUnder(REPAIRED, tau) == AcceptsFirst(tau)
  {
    ReplayCase(true, true, false, tau);
    ReplayCase(false, true, true, tau);
    ReplayCase(false, false, true, tau);
  }

  lemma FirstTierIsBad(w: real, alpha: real, tau: seq<real>)
    requires alpha < w <= 1.0 && AcceptsFirst(tau)
    ensures RiskExceeds(Population(w), Usable, tau, alpha)
  {
    WrongCases(tau);
    hide WeightOf, Population, WrongUnder, AcceptsFirst;
    Weights(w, Usable);
    Weights(w, Both(Usable, Wrong(tau)));
  }

  lemma LastTierIsBad(w: real, alpha: real, tau: seq<real>)
    requires 0.0 < alpha < w <= 1.0 && |tau| == 1 && !AcceptsFirst(tau)
    ensures RiskExceeds(Population(w), UsableShadow, tau, alpha)
  {
    WrongCases(tau);
    hide WeightOf, Population, WrongUnder, AcceptsFirst;
    Weights(w, UsableShadow);
    Weights(w, Both(UsableShadow, Wrong(tau)));
    SignOfProduct(w, w - alpha);
    LargerShare(w, alpha, WeightOf(Population(w), UsableShadow), WeightOf(Population(w), Both(UsableShadow, Wrong(tau))));
  }

  lemma LargerShare(w: real, alpha: real, u: real, b: real)
    requires 0.0 < w * (w - alpha) && u == w && b == w * w
    ensures alpha * u < b
  {
  }

  // ------------------------------------------------------------ chances

  /** The chance of anything but REPAIRED. */
  function Rest(w: real): real {
    1.0 - w * (1.0 - w)
  }

  predicate Everything(r: Record) {
    true
  }

  function Not(r: Record): Record -> bool {
    (x: Record) => x != r
  }

  /** "Every record drawn is r." */
  ghost function Only(r: Record): seq<Record> -> bool {
    CountEvent(Everything, Not(r), AtMost(0), 0, 0)
  }

  lemma {:induction false} NoneOther(s: seq<Record>, r: Record)
    ensures Count(s, Both(Everything, Not(r))) == 0 <==> AllSame(s, r)
  {
    if s != [] {
      NoneOther(s[..|s| - 1], r);
    }
  }

  lemma OnlyMeansSame(s: seq<Record>, r: Record)
    ensures Only(r)(s) <==> AllSame(s, r)
  {
    NoneOther(s, r);
  }

  lemma ChanceOfOnly(w: real, n: nat)
    requires 0.0 <= w <= 1.0
    ensures Probability(Population(w), n, Only(EASY)) == Cdf(n, 0, w)
    ensures Probability(Population(w), n, Only(REPAIRED)) == Cdf(n, 0, Rest(w))
  {
    hide Probability, WeightOf;
    IsAPopulation(w);
    Weights(w, Everything);
    Weights(w, Both(Everything, Not(EASY)));
    Weights(w, Both(Everything, Not(REPAIRED)));
    assert WeightOf(Population(w), Both(Everything, Not(REPAIRED))) == Rest(w);
    hide Rest, Population;
    ErrorsFollowBinomial(Population(w), n, Everything, Not(EASY), 0);
    ErrorsFollowBinomial(Population(w), n, Everything, Not(REPAIRED), 0);
  }

  /** w(1-w) moves by no more than w does. */
  lemma ProductMoves(a: real, w: real)
    requires 0.0 <= a <= w <= 1.0
    ensures (Rest(w)) - (Rest(a)) <= w - a
  {
    var x, y := w - a, 2.0 - (w + a);
    MulNonNegative(x, y);
    assert x * y == (w - a) - (a * (1.0 - a) - w * (1.0 - w));
  }

  lemma TailMovesLittle(n: nat, p: real, q: real, d: real)
    requires 0.0 <= p <= 1.0 && 0.0 <= q <= 1.0 && q - p <= d && 0.0 <= d
    ensures Cdf(n, 0, p) - n as real * d <= Cdf(n, 0, q)
  {
    hide Cdf;
    if p <= q {
      CdfLipschitz(n, 0, p, q);
      ScaleLe(n as real, q - p, d);
    } else {
      CdfAntitoneInRate(n, 0, q, p);
      MulNonNegative(n as real, d);
    }
  }

  lemma ProductInUnit(w: real)
    requires 0.0 < w < 1.0
    ensures 0.0 < Rest(w) < 1.0
  {
    SignOfProduct(w, 1.0 - w);
    SignOfProduct(w, w);
    assert Rest(w) == 1.0 - w + w * w;
  }

  lemma ShareAboveAlpha(n: nat, alpha: real) returns (w: real)
    requires 1 <= n && 0.0 < alpha < 1.0
    ensures alpha < w < 1.0
    ensures Pow(1.0 - alpha, n) < Cdf(n, 0, w) + Cdf(n, 0, Rest(w))
  {
    hide Cdf, Pow, Rest;
    var q := Rest(alpha);
    ProductInUnit(alpha);
    CdfPositive(n, 0, q);
    CdfAtZeroErrors(n, alpha);
    var extra, room := Cdf(n, 0, q) / (4.0 * n as real), (1.0 - alpha) / 2.0;
    assert extra * (4.0 * n as real) == Cdf(n, 0, q);
    SignOfProduct(4.0 * n as real, extra);
    var d := if extra <= room then extra else room;
    w := alpha + d;
    ProductInUnit(w);
    ProductMoves(alpha, w);
    TailMovesLittle(n, alpha, w, d);
    TailMovesLittle(n, q, Rest(w), d);
    SmallLoss(n as real, d, extra, Cdf(n, 0, q));
  }

  lemma SmallLoss(n: real, d: real, extra: real, c: real)
    requires 0.0 < n && d <= extra && extra * (4.0 * n) == c && 0.0 < c
    ensures n * d + n * d < c
  {
    ScaleLe(n, d, extra);
    assert c == 4.0 * (n * extra);
  }

  // ------------------------------------------------------------ the theorem

  lemma SameBreaks(w: real, alpha: real, step: real, s: seq<Record>)
    requires TINY < alpha < 1.0 - TINY && alpha < w < 1.0 && 0.001 <= step && 1.0 in Levels(step)
    requires SHADOW_MIN <= |s| && (AllSame(s, EASY) || AllSame(s, REPAIRED))
    ensures CertificateBroken(Population(w), 2, Setting(alpha, step, |s|))(s)
  {
    hide CertificateOf, RiskExceeds, Level, Population, Levels;
    var cert := CertificateOf(s, 2, Setting(alpha, step, |s|));
    if AllSame(s, EASY) {
      SameStream(s, true, true, false);
      EasyCertifiesFirst(s, alpha, step);
      FirstTierIsBad(w, alpha, cert.value.thresholds);
    } else {
      SameStream(s, false, true, true);
      RepairedCertifiesLast(s, alpha, step);
      LastTierIsBad(w, alpha, cert.value.thresholds);
    }
  }

  /** For every alpha clear of both ends and every n of at least SHADOW_MIN draws, at
      the level of n error-free points, a population that mixes the flags is
      miscertified with probability above delta. */
  lemma MixedFlagsBreakTheClaim(alpha: real, step: real, n: nat) returns (pop: seq<Weighted>)
    requires TINY < alpha < 1.0 - TINY && 0.001 <= step && 1.0 in Levels(step) && SHADOW_MIN <= n
    ensures IsPopulation(pop) && 0.0 < Setting(alpha, step, n).delta < 1.0
    ensures Setting(alpha, step, n).delta
         < Probability(pop, n, CertificateBroken(pop, 2, Setting(alpha, step, n)))
  {
    hide Probability, CertificateBroken, Population, Cdf, Pow, Levels;
    LevelInUnit(alpha, n);
    var w := ShareAboveAlpha(n, alpha);
    pop := Population(w);
    IsAPopulation(w);
    var event := CertificateBroken(pop, 2, Setting(alpha, step, n));
    forall s: seq<Record> | |s| == n
      ensures Only(EASY)(s) || Only(REPAIRED)(s) ==> event(s)
      ensures !(Only(EASY)(s) && Only(REPAIRED)(s))
    {
      OnlyMeansSame(s, EASY);
      OnlyMeansSame(s, REPAIRED);
      if AllSame(s, EASY) || AllSame(s, REPAIRED) {
        SameBreaks(w, alpha, step, s);
        assert s[0] == EASY || s[0] == REPAIRED;
      }
    }
    ProbabilityDisjoint(pop, n, event, Only(EASY), Only(REPAIRED));
    ChanceOfOnly(w, n);
  }

  lemma {:induction false} FewAreNotPreferred(s: seq<Record>)
    requires |s| < SHADOW_MIN
    ensures !PrefersShadow(s)
  {
    CountAtMostAll(s, UsableShadow);
  }

  /** Below SHADOW_MIN draws the shadow subset is never preferred, and mixed flags do
      no harm. */
  lemma FewDrawsKeepTheClaim(pop: seq<Weighted>, n: nat, nTiers: nat, options: Options)
    requires IsPopulation(pop) && n < SHADOW_MIN && 2 <= nTiers && AlphaClear(options.alpha)
    ensures Probability(pop, n, CertificateBroken(pop, nTiers, options)) <= options.Effective().delta
  {
    hide Probability, CertificateBroken;
    forall s: seq<Record> | |s| == n
      ensures !PrefersShadow(s)
    {
      FewAreNotPreferred(s);
    }
    ProbabilityOfNothing(pop, n, PrefersShadow);
    ClearTestsAtLevel(n, options.alpha, LevelOf(nTiers, options));
    MixedStreamTheorem(pop, n, nTiers, options);
  }

  ghost predicate Breaks(alpha: real, step: real, n: nat, delta: real, pop: seq<Weighted>) {
    && 0.0 < delta && IsPopulation(pop)
    && delta < Probability(pop, n, CertificateBroken(pop, 2, Options(alpha, delta, step, FixedSequence)))
  }

  /** So mixed flags can break the claim at some delta exactly from SHADOW_MIN draws
      on. */
  lemma MixedFlagsMatterExactlyWhen(alpha: real, step: real, n: nat)
    requires TINY < alpha < 1.0 - TINY && 0.001 <= step && 1.0 in Levels(step)
    ensures (exists delta: real, pop: seq<Weighted> :: Breaks(alpha, step, n, delta, pop)) <==> SHADOW_MIN <= n
  {
    hide Probability, CertificateBroken, Levels;
    if SHADOW_MIN <= n {
      var pop := MixedFlagsBreakTheClaim(alpha, step, n);
      assert Breaks(alpha, step, n, Level(alpha, n), pop);
    } else {
      forall delta: real, pop: seq<Weighted>
        ensures !Breaks(alpha, step, n, delta, pop)
      {
        if 0.0 < delta && IsPopulation(pop) {
          FewDrawsKeepTheClaim(pop, n, 2, Options(alpha, delta, step, FixedSequence));
        }
      }
    }
  }
}
