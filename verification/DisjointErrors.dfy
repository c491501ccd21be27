/** Why dividing delta does not save a p-value that collapses: problems that the
    threshold vectors get right in turns, one tier each. */
module DisjointErrors {
  import opened Wrappers
  import opened Policy
  import opened PValue
  import opened Grid
  import opened Calibration
  import opened Search
  import opened Sampling
  import opened Guarantee

  function Attempt(ok: bool): TierObs {
    TierObs("tier", 0.0, ok, None, 0.0, false)
  }

  /** A problem of score 0 at every tier that only tier k solves. */
  function Solo(nTiers: nat, k: nat): (r: Record)
    ensures |r.tiers| == nTiers && forall j :: 0 <= j < nTiers ==> r.tiers[j] == Attempt(j == k)
  {
    Record("solo", seq(nTiers, j => Attempt(j == k)), false, false, 0.0, false, false, false, false)
  }

  /** The problems of tiers from on, each of the given weight. */
  function Solos(nTiers: nat, weight: real, from: nat): (pop: seq<Weighted>)
    requires from <= nTiers
    ensures |pop| == nTiers - from
    ensures forall i :: 0 <= i < |pop| ==> pop[i] == Weighted(Solo(nTiers, from + i), weight)
    decreases nTiers - from
  {
    if from == nTiers then [] else [Weighted(Solo(nTiers, from), weight)] + Solos(nTiers, weight, from + 1)
  }

  function Everyone(nTiers: nat): seq<Weighted>
    requires 0 < nTiers
  {
    Solos(nTiers, 1.0 / nTiers as real, 0)
  }

  // ------------------------------------------------------------ which vectors are right

  /** The tier every one of the problems is accepted at under tau. */
  function Turn(nTiers: nat, tau: seq<real>): (k: nat)
    requires 0 < nTiers
    ensures k < nTiers
  {
    Stop(Solo(nTiers, 0).tiers, tau)
  }

  lemma {:induction false} SameStop(a: seq<TierObs>, b: seq<TierObs>, tau: seq<real>, k: nat)
    requires |a| == |b| && k < |a| && forall j :: 0 <= j < |a| ==> a[j].score == b[j].score
    ensures StopFrom(a, tau, k) == StopFrom(b, tau, k)
    decreases |a| - k
  {
    assert StopsAt(a, tau, k) == StopsAt(b, tau, k);
    if !StopsAt(a, tau, k) {
      SameStop(a, b, tau, k + 1);
    }
  }

  /** Each vector is right on one of the problems only. */
  lemma RightInTurn(nTiers: nat, k: nat, tau: seq<real>)
    requires k < nTiers
    ensures WrongUnder(Solo(nTiers, k), tau) <==> k != Turn(nTiers, tau)
  {
    SameStop(Solo(nTiers, k).tiers, Solo(nTiers, 0).tiers, tau, 0);
  }

  /** Thresholds x everywhere but 0 at tier k: the vector whose turn is tier k. */
  function Pick(nTiers: nat, x: real, k: nat): (tau: seq<real>)
    requires 0 < nTiers
    ensures |tau| == nTiers - 1 && forall j :: 0 <= j < |tau| ==> tau[j] == if j == k then 0.0 else x
  {
    seq(nTiers - 1, j => if j == k then 0.0 else x)
  }

  lemma PickedTurn(nTiers: nat, x: real, k: nat)
    requires k < nTiers && 0.0 < x
    ensures Turn(nTiers, Pick(nTiers, x, k)) == k
  {
    StopIsUnique(Solo(nTiers, 0).tiers, Pick(nTiers, x, k), k);
  }

  // ------------------------------------------------------------ the grid

  lemma {:induction false} InExtendRow(row: seq<real>, levels: seq<real>, x: real)
    requires x in levels
    ensures row + [x] in ExtendRow(row, levels)
  {
    if levels[0] != x {
      InExtendRow(row, levels[1..], x);
    }
  }

  lemma {:induction false} InExtend(g: seq<seq<real>>, levels: seq<real>, row: seq<real>, x: real)
    requires row in g && x in levels
    ensures row + [x] in Extend(g, levels)
  {
    if g[0] == row {
      InExtendRow(row, levels, x);
    } else {
      InExtend(g[1..], levels, row, x);
    }
  }

  /** Whatever the step, every combination of levels is on the grid. */
  lemma {:induction false} EveryVectorListed(v: seq<real>, levels: seq<real>)
    requires forall i :: 0 <= i < |v| ==> v[i] in levels
    ensures v in Vectors(|v|, levels)
  {
    if v != [] {
      var row, x := v[..|v| - 1], v[|v| - 1];
      EveryVectorListed(row, levels);
      InExtend(Vectors(|row|, levels), levels, row, x);
      assert row + [x] == v;
    }
  }

  lemma ZeroIsListed(step: real)
    requires 0.0 < step
    ensures 0.0 in Levels(step)
  {
    assert RoundMilli(0.0) == 0.0;
    assert Levels(step)[0] == 0.0;
  }

  lemma PickIsListed(nTiers: nat, step: real, x: real, k: nat)
    requires 2 <= nTiers && 0.0 < step && x in Levels(step)
    ensures Pick(nTiers, x, k) in GridOf(nTiers - 1, step)
  {
    ZeroIsListed(step);
    EveryVectorListed(Pick(nTiers, x, k), Levels(step));
  }

  // ------------------------------------------------------------ risks

  lemma HeadShare(r: Record, w: real, rest: seq<Weighted>, p: Record -> bool)
    ensures WeightOf([Weighted(r, w)] + rest, p) == (if p(r) then w else 0.0) + WeightOf(rest, p)
    ensures TotalWeight([Weighted(r, w)] + rest) == w + TotalWeight(rest)
  {
    assert ([Weighted(r, w)] + rest)[1..] == rest;
  }

  lemma OneMoreShare(n: nat, w: real)
    ensures (n + 1) as real * w == n as real * w + w
  {
    assert (n + 1) as real == n as real + 1.0;
  }

  lemma {:induction false} SoloWeights(nTiers: nat, w: real, from: nat, tau: seq<real>)
    requires from <= nTiers && 0 < nTiers
    ensures var pop := Solos(nTiers, w, from);
      && TotalWeight(pop) == WeightOf(pop, Usable) == (nTiers - from) as real * w
      && WeightOf(pop, Both(Usable, Wrong(tau)))
         == (nTiers - from) as real * w - (if from <= Turn(nTiers, tau) then w else 0.0)
    decreases nTiers - from
  {
    hide Turn, WrongUnder, WeightOf, TotalWeight;
    if from == nTiers {
      NoWeight(Usable);
      NoWeight(Both(Usable, Wrong(tau)));
    } else {
      var rest := Solos(nTiers, w, from + 1);
      SoloWeights(nTiers, w, from + 1, tau);
      RightInTurn(nTiers, from, tau);
      HeadShare(Solo(nTiers, from), w, rest, Usable);
      HeadShare(Solo(nTiers, from), w, rest, Both(Usable, Wrong(tau)));
      OneMoreShare(nTiers - from - 1, w);
    }
  }

  lemma NoWeight(p: Record -> bool)
    ensures WeightOf([], p) == 0.0 && TotalWeight([]) == 0.0
  {
  }

  lemma UnitShare(n: real)
    requires 0.0 < n
    ensures n * (1.0 / n) == 1.0 && 0.0 <= 1.0 / n
  {
  }

  /** No vector has a population risk below 1 - 1/nTiers. */
  lemma EveryVectorIsBad(nTiers: nat, tau: seq<real>, alpha: real)
    requires 0 < nTiers && 1.0 / nTiers as real < 1.0 - alpha
    ensures IsPopulation(Everyone(nTiers)) && OneFlag(Everyone(nTiers))
    ensures RiskExceeds(Everyone(nTiers), Usable, tau, alpha)
  {
    hide WeightOf, TotalWeight, Turn;
    SoloWeights(nTiers, 1.0 / nTiers as real, 0, tau);
    UnitShare(nTiers as real);
  }

  // ------------------------------------------------------------ every sample certifies

  lemma {:induction false} PlainStream(s: seq<Record>)
    requires forall i :: 0 <= i < |s| ==> Usable(s[i]) && !s[i].shadow
    ensures Filter(s, Usable) == s && Count(s, UsableShadow) == 0
  {
    if s != [] {
      PlainStream(s[..|s| - 1]);
      assert s == s[..|s| - 1] + [s[|s| - 1]];
    }
  }

  lemma {:induction false} OneRight(s: seq<Record>, tau: seq<real>, i: nat)
    requires i < |s| && !WrongUnder(s[i], tau)
    ensures Errors(s, tau) < |s|
    decreases |s|
  {
    hide WrongUnder;
    var init := s[..|s| - 1];
    if i < |s| - 1 {
      OneRight(init, tau, i);
    } else {
      CountAtMostAll(init, (r: Record) => WrongUnder(r, tau));
    }
  }

  ghost predicate PassesUnlessAllWrong(n: nat, alpha: real, bar: real) {
    forall k: nat :: k < n ==> HoeffdingBentkus(k, n, alpha) <= bar
  }

  predicate HasPositiveLevel(step: real)
    requires 0.0 < step
  {
    exists x :: x in Levels(step) && 0.0 < x
  }

  lemma DrawnSolo(nTiers: nat, n: nat, s: seq<Record>)
    requires 0 < nTiers && Sampling.Drawn(Everyone(nTiers), n, s)
    ensures forall i :: 0 <= i < n ==> exists k: nat :: k < nTiers && s[i] == Solo(nTiers, k)
  {
    forall i | 0 <= i < n
      ensures exists k: nat :: k < nTiers && s[i] == Solo(nTiers, k)
    {
      var j :| 0 <= j < |Everyone(nTiers)| && Everyone(nTiers)[j].rec == s[i];
      assert s[i] == Solo(nTiers, 0 + j);
    }
  }

  /** The vector of the first problem drawn passes, so some vector is certified. */
  lemma SampleCertifies(nTiers: nat, options: Options, s: seq<Record>, k: nat)
    requires 2 <= nTiers && k < nTiers && options.correction == Bonferroni
    requires s != [] && s[0] == Solo(nTiers, k)
    requires forall i :: 0 <= i < |s| ==> Usable(s[i]) && !s[i].shadow
    requires HasPositiveLevel(options.Effective().step)
    requires PassesUnlessAllWrong(|s|, options.alpha, LevelOf(nTiers, options))
    ensures Certifies(s, nTiers, options) && StreamMember(s) == Usable
  {
    hide CandOf, CertificateOf, GridOf, Selected, HoeffdingBentkus, Count, Solo, WrongUnder, Turn, Pick, Levels, Usable;
    var opts := options.Effective();
    var grid := GridOf(nTiers - 1, opts.step);
    var x :| x in Levels(opts.step) && 0.0 < x;
    var tau := Pick(nTiers, x, k);
    PlainStream(s);
    assert CalibrationStream(s) == s && !PrefersShadow(s);
    CertificateShape(s, nTiers, options);
    PickIsListed(nTiers, opts.step, x, k);
    var at :| 0 <= at < |grid| && grid[at] == tau;
    PickedTurn(nTiers, x, k);
    RightInTurn(nTiers, k, tau);
    OneRight(s, tau, 0);
    CandPValue(s, opts.alpha, tau);
    var eval := Evaluate(s, opts.alpha, grid);
    assert eval[at].p <= opts.delta / |grid| as real;
    BonferroniReturnsCheapestPassing(eval, grid, opts);
  }

  lemma CandPValue(use: seq<Record>, alpha: real, tau: seq<real>)
    ensures CandOf(use, alpha, tau).p == HoeffdingBentkus(Errors(use, tau), |use|, alpha)
  {
  }

  lemma SoloIsPlain(nTiers: nat, k: nat)
    ensures Usable(Solo(nTiers, k)) && !Solo(nTiers, k).shadow
  {
  }

  lemma EveryDrawBreaks(nTiers: nat, options: Options, n: nat, s: seq<Record>)
    requires 2 <= nTiers && 1 <= n && options.correction == Bonferroni
    requires 1.0 / nTiers as real < 1.0 - options.alpha
    requires HasPositiveLevel(options.Effective().step)
    requires PassesUnlessAllWrong(n, options.alpha, LevelOf(nTiers, options))
    requires Sampling.Drawn(Everyone(nTiers), n, s)
    ensures CertificateBroken(Everyone(nTiers), nTiers, options)(s)
  {
    DrawnSolo(nTiers, n, s);
    hide Everyone, Solo, PassesUnlessAllWrong, LevelOf, CertificateOf, RiskExceeds, PrefersShadow, HasPositiveLevel, Usable;
    forall i | 0 <= i < |s|
      ensures Usable(s[i]) && !s[i].shadow
    {
      var k: nat :| k < nTiers && s[i] == Solo(nTiers, k);
      SoloIsPlain(nTiers, k);
    }
    var k: nat :| k < nTiers && s[0] == Solo(nTiers, k);
    SampleCertifies(nTiers, options, s, k);
    EveryVectorIsBad(nTiers, CertificateOf(s, nTiers, options).value.thresholds, options.alpha);
  }

  lemma {:induction false} Certain(pop: seq<Weighted>, n: nat, e: seq<Record> -> bool)
    requires IsPopulation(pop) && forall s :: Sampling.Drawn(pop, n, s) ==> e(s)
    ensures Probability(pop, n, e) == 1.0
  {
    hide Probability;
    var all := (s: seq<Record>) => true;
    ProbabilityOfEverything(pop, n, all);
    ProbabilityMonotone(pop, n, all, e);
    ProbabilityMonotone(pop, n, e, all);
  }

  /** Under Bonferroni, as soon as any count short of all errors passes its divided
      level, more than 1/(1 - alpha) tiers make the claim fail on every draw. */
  lemma DisjointErrorsBreakTheClaim(options: Options, nTiers: nat, n: nat) returns (pop: seq<Weighted>)
    requires 2 <= nTiers && 1 <= n && options.correction == Bonferroni
    requires 1.0 / nTiers as real < 1.0 - options.alpha
    requires HasPositiveLevel(options.Effective().step)
    requires PassesUnlessAllWrong(n, options.alpha, LevelOf(nTiers, options))
    ensures IsPopulation(pop) && OneFlag(pop)
    ensures Probability(pop, n, CertificateBroken(pop, nTiers, options)) == 1.0
  {
    hide Probability, CertificateBroken, Everyone, HasPositiveLevel, PassesUnlessAllWrong, LevelOf;
    pop := Everyone(nTiers);
    EveryVectorIsBad(nTiers, [], options.alpha);
    forall s | Sampling.Drawn(pop, n, s)
      ensures CertificateBroken(pop, nTiers, options)(s)
    {
      EveryDrawBreaks(nTiers, options, n, s);
    }
    Certain(pop, n, CertificateBroken(pop, nTiers, options));
  }
}
