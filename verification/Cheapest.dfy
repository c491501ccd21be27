/** What Calibrate returns, from the records it counts: the cheapest proven vector,
    or the least risky one when nothing is proven. */
module Cheapest {
  import opened Wrappers
  import opened Policy
  import opened PValue
  import opened Grid
  import opened Calibration
  import opened Search

  // ------------------------------------------------------------ the grid's own order

  lemma {:induction false} LexSnoc(a: seq<real>, b: seq<real>, x: real, y: real)
    requires |a| == |b|
    ensures LexLess(a + [x], b + [y]) <==> LexLess(a, b) || (a == b && x < y)
  {
    if a == [] {
      assert a + [x] == [x] && b + [y] == [y] && [x][1..] == [] && [y][1..] == [];
    } else {
      LexSnoc(a[1..], b[1..], x, y);
      assert (a + [x])[1..] == a[1..] + [x] && (b + [y])[1..] == b[1..] + [y];
      assert a == [a[0]] + a[1..] && b == [b[0]] + b[1..];
    }
  }

  /** a and b agree before k, and a has the smaller entry there. */
  predicate FirstFallsAt(a: seq<real>, b: seq<real>, k: nat) {
    k < |a| && k < |b| && a[..k] == b[..k] && a[k] < b[k]
  }

  lemma {:induction false} LexLessExactlyWhen(a: seq<real>, b: seq<real>)
    requires |a| == |b|
    ensures LexLess(a, b) <==> exists k: nat :: FirstFallsAt(a, b, k)
  {
    if a != [] {
      LexLessExactlyWhen(a[1..], b[1..]);
      if k: nat :| FirstFallsAt(a[1..], b[1..], k) {
        if a[0] == b[0] {
          assert a[..k + 1] == [a[0]] + a[1..][..k] && b[..k + 1] == [b[0]] + b[1..][..k];
          assert FirstFallsAt(a, b, k + 1);
        }
      }
      if k: nat :| FirstFallsAt(a, b, k) {
        if k != 0 {
          assert a[0] == a[..k][0] == b[..k][0] == b[0];
          assert a[1..][..k - 1] == a[..k][1..] && b[1..][..k - 1] == b[..k][1..];
          assert FirstFallsAt(a[1..], b[1..], k - 1);
        }
      }
      assert a[0] < b[0] ==> FirstFallsAt(a, b, 0);
    }
  }

  /** One vector is visited before another exactly when its sum is larger, or the sums
      are equal and its entry is the larger one where the two first differ. */
  lemma BeforeExactlyWhen(a: seq<real>, b: seq<real>)
    requires |a| == |b|
    ensures Before(a, b) <==> Sum(b) < Sum(a) || (Sum(a) == Sum(b) && exists k: nat :: FirstFallsAt(b, a, k))
  {
    LexLessExactlyWhen(b, a);
  }

  /** Every row is lexicographically below every later one, and all have that length. */
  ghost predicate InLexOrder(g: seq<seq<real>>, n: nat) {
    && (forall i :: 0 <= i < |g| ==> |g[i]| == n)
    && forall i, j :: 0 <= i < j < |g| ==> LexLess(g[i], g[j])
  }

  lemma {:induction false} RowEntries(row: seq<real>, levels: seq<real>)
    ensures |ExtendRow(row, levels)| == |levels|
    ensures forall i :: 0 <= i < |levels| ==> ExtendRow(row, levels)[i] == row + [levels[i]]
  {
    if levels != [] {
      RowEntries(row, levels[1..]);
    }
  }

  lemma RowInOrder(row: seq<real>, levels: seq<real>)
    requires Increasing(levels)
    ensures InLexOrder(ExtendRow(row, levels), |row| + 1)
  {
    RowEntries(row, levels);
    var g := ExtendRow(row, levels);
    forall i, j | 0 <= i < j < |g|
      ensures LexLess(g[i], g[j])
    {
      LexSnoc(row, row, levels[i], levels[j]);
    }
  }

  predicate Continues(g: seq<seq<real>>, w: seq<real>, i: nat, x: real) {
    i < |g| && w == g[i] + [x]
  }

  /** Every row of the extension starts with a row of g. */
  lemma {:induction false} ExtensionPrefixes(g: seq<seq<real>>, levels: seq<real>, w: seq<real>)
    requires w in Extend(g, levels)
    ensures exists i: nat, x: real :: Continues(g, w, i, x)
  {
    RowEntries(g[0], levels);
    if w in ExtendRow(g[0], levels) {
      var i :| 0 <= i < |levels| && w == ExtendRow(g[0], levels)[i];
      assert Continues(g, w, 0, levels[i]);
    } else {
      ExtensionPrefixes(g[1..], levels, w);
      var i: nat, x: real :| Continues(g[1..], w, i, x);
      assert Continues(g, w, i + 1, x);
    }
  }

  lemma JoinInOrder(a: seq<seq<real>>, b: seq<seq<real>>, n: nat)
    requires InLexOrder(a, n) && InLexOrder(b, n)
    requires forall v, w :: v in a && w in b ==> LexLess(v, w)
    ensures InLexOrder(a + b, n)
  {
    var g := a + b;
    forall i, j | 0 <= i < j < |g|
      ensures LexLess(g[i], g[j])
    {
      if i < |a| <= j {
        assert g[i] in a && g[j] in b;
      }
    }
  }

  lemma {:induction false} ExtendInOrder(g: seq<seq<real>>, levels: seq<real>, n: nat)
    requires InLexOrder(g, n) && Increasing(levels)
    ensures InLexOrder(Extend(g, levels), n + 1)
  {
    if g != [] {
      var first, rest := ExtendRow(g[0], levels), Extend(g[1..], levels);
      ExtendInOrder(g[1..], levels, n);
      RowInOrder(g[0], levels);
      RowEntries(g[0], levels);
      forall v, w | v in first && w in rest
        ensures LexLess(v, w)
      {
        RowBeforeRest(g, levels, n, v, w);
      }
      JoinInOrder(first, rest, n + 1);
    }
  }

  lemma RowBeforeRest(g: seq<seq<real>>, levels: seq<real>, n: nat, v: seq<real>, w: seq<real>)
    requires g != [] && InLexOrder(g, n) && Increasing(levels)
    requires v in ExtendRow(g[0], levels) && w in Extend(g[1..], levels)
    ensures LexLess(v, w)
  {
    RowEntries(g[0], levels);
    var i :| 0 <= i < |levels| && v == ExtendRow(g[0], levels)[i];
    ExtensionPrefixes(g[1..], levels, w);
    var j: nat, x: real :| Continues(g[1..], w, j, x);
    assert LexLess(g[0], g[j + 1]);
    LexSnoc(g[0], g[j + 1], levels[i], x);
  }

  lemma {:induction false} VectorsInOrder(arity: nat, levels: seq<real>)
    requires Increasing(levels)
    ensures InLexOrder(Vectors(arity, levels), arity)
  {
    if arity != 0 {
      VectorsInOrder(arity - 1, levels);
      ExtendInOrder(Vectors(arity - 1, levels), levels, arity - 1);
    }
  }

  /** Without repeated levels the grid is in strict lexicographic order. */
  lemma GridInLexOrder(arity: nat, step: real)
    requires 0 < arity && 0.0 < step && Increasing(Levels(step))
    ensures InLexOrder(GridOf(arity, step), arity)
  {
    VectorsInOrder(arity, Levels(step));
  }

  // ------------------------------------------------------------ what is proven

  function PValueOn(use: seq<Record>, opts: Options, tau: seq<real>): real {
    HoeffdingBentkus(Errors(use, tau), |use|, opts.alpha)
  }

  /** The records prove tau: it passes its level and, for fixed-sequence, so does every
      grid vector visited before it. */
  ghost predicate Proven(use: seq<Record>, grid: seq<seq<real>>, opts: Options, tau: seq<real>) {
    && tau in grid
    && match opts.correction
       case Bonferroni => PValueOn(use, opts, tau) <= opts.delta / |grid| as real
       case FixedSequence =>
         && PValueOn(use, opts, tau) <= opts.delta
         && forall v :: v in grid && Before(v, tau) ==> PValueOn(use, opts, v) <= opts.delta
  }

  lemma {:induction false} FirstOfTheCheapest(idxs: seq<nat>, eval: seq<Cand>) returns (k: nat)
    requires Indices(idxs, |eval|) && idxs != []
    ensures k < |idxs| && FirstCheapest(idxs, eval) == Some(idxs[k])
    ensures forall j :: 0 <= j < k ==> eval[idxs[k]].cost < eval[idxs[j]].cost
  {
    k := |idxs| - 1;
    if 1 < |idxs| {
      var j := FirstOfTheCheapest(idxs[..|idxs| - 1], eval);
      if FirstCheapest(idxs, eval) == Some(idxs[j]) && !(eval[idxs[k]].cost < eval[idxs[j]].cost) {
        k := j;
      }
    }
  }

  lemma ProvenIsCertified(use: seq<Record>, grid: seq<seq<real>>, opts: Options, i: nat)
    requires i < |grid|
    ensures var eval := Evaluate(use, opts.alpha, grid);
      Proven(use, grid, opts, grid[i])
      <==> if opts.correction == FixedSequence then Certified(eval, grid, opts.delta, i)
           else eval[i].p <= opts.delta / |grid| as real
  {
    hide HoeffdingBentkus, Errors, RiskOf, MeanCostOf, Before;
    var eval := Evaluate(use, opts.alpha, grid);
    assert forall j :: 0 <= j < |grid| ==> eval[j].p == PValueOn(use, opts, grid[j]);
    if Proven(use, grid, opts, grid[i]) && opts.correction == FixedSequence {
      forall j | 0 <= j < |grid| && Before(grid[j], grid[i])
        ensures eval[j].p <= opts.delta
      {
        assert grid[j] in grid;
      }
    }
  }

  /** The indices the search chooses among. */
  function Candidates(eval: seq<Cand>, grid: seq<seq<real>>, opts: Options): (idxs: seq<nat>)
    requires |eval| == |grid| && grid != []
    ensures Indices(idxs, |eval|)
  {
    match opts.correction
    case Bonferroni => Passing(eval, |eval|, opts.delta / |grid| as real)
    case FixedSequence =>
      var order := VisitOrder(grid, |grid|);
      order[..PrefixLength(order, eval, opts.delta)]
  }

  lemma CandidatesAreProven(use: seq<Record>, grid: seq<seq<real>>, opts: Options, i: nat)
    requires SameArity(grid) && grid != [] && i < |grid|
    ensures i in Candidates(Evaluate(use, opts.alpha, grid), grid, opts) <==> Proven(use, grid, opts, grid[i])
  {
    var eval := Evaluate(use, opts.alpha, grid);
    ProvenIsCertified(use, grid, opts, i);
    hide Evaluate, Proven, Certified;
    if opts.correction == FixedSequence {
      EvaluationIsByVector(use, opts.alpha, grid);
      PrefixIsCertifiedSet(eval, grid, opts.delta, i);
    } else {
      PassingMembers(eval, |eval|, opts.delta / |grid| as real);
    }
  }

  /** Where candidate k stands, no earlier one is visited after it. */
  lemma CandidatesInOrder(eval: seq<Cand>, grid: seq<seq<real>>, opts: Options, k: nat, j: nat)
    requires |eval| == |grid| && grid != [] && SameArity(grid)
    requires k < j < |Candidates(eval, grid, opts)|
    ensures var idxs := Candidates(eval, grid, opts);
      if opts.correction == FixedSequence then !Before(grid[idxs[j]], grid[idxs[k]]) else idxs[k] < idxs[j]
  {
    if opts.correction == FixedSequence {
      VisitOrderSorts(grid, |grid|);
    } else {
      PassingIncreases(eval, |eval|, opts.delta / |grid| as real);
    }
  }

  ghost predicate Climbs(idxs: seq<nat>) {
    forall k, j :: 0 <= k < j < |idxs| ==> idxs[k] < idxs[j]
  }

  lemma ClimbsSnoc(idxs: seq<nat>, i: nat)
    requires Climbs(idxs) && forall k :: 0 <= k < |idxs| ==> idxs[k] < i
    ensures Climbs(idxs + [i])
  {
  }

  lemma {:induction false} PassingIncreases(eval: seq<Cand>, n: nat, bar: real)
    requires n <= |eval|
    ensures Climbs(Passing(eval, n, bar))
  {
    if n != 0 {
      PassingIncreases(eval, n - 1, bar);
      ClimbsSnoc(Passing(eval, n - 1, bar), n - 1);
      hide Climbs;
    }
  }

  lemma SelectedIsFirstCheapest(eval: seq<Cand>, grid: seq<seq<real>>, opts: Options)
    requires |eval| == |grid| && grid != []
    ensures Selected(eval, grid, opts) == FirstCheapest(Candidates(eval, grid, opts), eval)
  {
  }

  /** b stands in the way of a as an equally cheap choice. */
  ghost predicate Earlier(opts: Options, b: seq<real>, a: seq<real>) {
    if opts.correction == FixedSequence then Before(b, a) else LexLess(b, a)
  }

  ghost predicate CheapestProven(use: seq<Record>, grid: seq<seq<real>>, opts: Options, tau: seq<real>) {
    forall v :: Proven(use, grid, opts, v) ==> MeanCostOf(use, tau) <= MeanCostOf(use, v)
  }

  /** The search finds something exactly when the records prove something, and then the
      cheapest, the first in order among equals. */
  lemma SearchFindsCheapest(use: seq<Record>, grid: seq<seq<real>>, opts: Options)
    requires SameArity(grid) && grid != []
    ensures var best := Selected(Evaluate(use, opts.alpha, grid), grid, opts);
      && (best.Some? <==> exists tau :: Proven(use, grid, opts, tau))
      && (best.Some? ==> Proven(use, grid, opts, grid[best.value]))
      && (best.Some? ==> CheapestProven(use, grid, opts, grid[best.value]))
  {
    var eval := Evaluate(use, opts.alpha, grid);
    SelectedIsFirstCheapest(eval, grid, opts);
    hide Selected, PValueOn, Candidates, Proven;
    assert forall i :: 0 <= i < |grid| ==> eval[i].cost == MeanCostOf(use, grid[i]);
    var idxs := Candidates(eval, grid, opts);
    var best := Selected(eval, grid, opts);
    if best.Some? {
      CandidatesAreProven(use, grid, opts, best.value);
    }
    forall tau | Proven(use, grid, opts, tau)
      ensures best.Some? && MeanCostOf(use, grid[best.value]) <= MeanCostOf(use, tau)
    {
      var i := IndexInGrid(use, grid, opts, tau);
      CandidatesAreProven(use, grid, opts, i);
      var k :| 0 <= k < |idxs| && idxs[k] == i;
    }
  }

  lemma IndexInGrid(use: seq<Record>, grid: seq<seq<real>>, opts: Options, tau: seq<real>) returns (i: nat)
    requires Proven(use, grid, opts, tau)
    ensures i < |grid| && grid[i] == tau
  {
    i :| 0 <= i < |grid| && grid[i] == tau;
  }

  lemma EqualCostComesLater(use: seq<Record>, grid: seq<seq<real>>, opts: Options, tau: seq<real>)
    requires SameArity(grid) && grid != [] && Proven(use, grid, opts, tau)
    requires opts.correction == Bonferroni ==> exists n: nat :: InLexOrder(grid, n)
    ensures var best := Selected(Evaluate(use, opts.alpha, grid), grid, opts);
      best.Some? && (MeanCostOf(use, tau) <= MeanCostOf(use, grid[best.value]) ==>
                       !Earlier(opts, tau, grid[best.value]))
  {
    var eval := Evaluate(use, opts.alpha, grid);
    SelectedIsFirstCheapest(eval, grid, opts);
    hide Selected, PValueOn, Candidates, Proven, MeanCostOf, RiskOf, HoeffdingBentkus, Before, SameArity;
    var idxs := Candidates(eval, grid, opts);
    var i := IndexInGrid(use, grid, opts, tau);
    CandidatesAreProven(use, grid, opts, i);
    var j :| 0 <= j < |idxs| && idxs[j] == i;
    var k := FirstOfTheCheapest(idxs, eval);
    assert eval[i].cost == MeanCostOf(use, tau) && eval[idxs[k]].cost == MeanCostOf(use, grid[idxs[k]]);
    LexTotal(tau, tau);
    if k < j {
      CandidatesInOrder(eval, grid, opts, k, j);
      if opts.correction == Bonferroni {
        var n: nat :| InLexOrder(grid, n);
        LexTotal(grid[idxs[k]], tau);
      }
    }
  }

  // ------------------------------------------------------------ Calibrate

  /** The options in force: a step or delta that is not positive means a tenth. */
  function InForce(o: Options): Options {
    Options(o.alpha, if o.delta <= 0.0 then 0.1 else o.delta, if o.step <= 0.0 then 0.1 else o.step, o.correction)
  }

  lemma InForceIsEffective(o: Options)
    ensures InForce(o) == o.Effective()
  {
  }

  /** What the certificate reports of its thresholds. */
  ghost predicate Reports(cert: Certificate, use: seq<Record>, opts: Options) {
    && cert.n == |use| && cert.empiricalRisk == RiskOf(use, cert.thresholds)
    && cert.expectedCost == MeanCostOf(use, cert.thresholds)
    && cert.realizedRisk == RealizedRiskOf(use, cert.thresholds)
    && cert.pValue == PValueOn(use, opts, cert.thresholds)
    && (cert.nominal <==> cert.valid && opts.alpha + 0.000000001 < cert.realizedRisk)
  }

  lemma CertificateFields(recs: seq<Record>, nTiers: nat, options: Options)
    requires 2 <= nTiers && CalibrationStream(recs) != []
    ensures var (opts, use) := (InForce(options), CalibrationStream(recs));
      var grid := GridOf(nTiers - 1, opts.step);
      && grid != [] && CertificateOf(recs, nTiers, options).Ok?
      && var (eval, cert) := (Evaluate(use, opts.alpha, grid), CertificateOf(recs, nTiers, options).value);
         var best := Selected(eval, grid, opts);
         && (cert.valid <==> best.Some?)
         && cert.thresholds == grid[if best.Some? then best.value else LeastRisk(eval)]
         && Reports(cert, use, opts)
  {
    hide HoeffdingBentkus, RiskOf, MeanCostOf, RealizedRiskOf, Errors, GridOf, CalibrationStream, Selected, Count,
         LeastRisk;
    InForceIsEffective(options);
    GridNonEmpty(nTiers - 1, InForce(options).step);
  }

  lemma EvaluatedRisks(use: seq<Record>, alpha: real, grid: seq<seq<real>>)
    requires grid != []
    ensures var i := LeastRisk(Evaluate(use, alpha, grid));
      && (forall v :: v in grid ==> RiskOf(use, grid[i]) <= RiskOf(use, v))
      && (forall j :: 0 <= j < i ==> RiskOf(use, grid[i]) < RiskOf(use, grid[j]))
  {
    hide RiskOf, MeanCostOf, HoeffdingBentkus, Errors;
    var eval := Evaluate(use, alpha, grid);
    assert forall j :: 0 <= j < |grid| ==> eval[j].risk == RiskOf(use, grid[j]);
  }

  /** Two or more tiers and a usable record: the certificate is valid exactly when the
      records prove some vector; then it names a proven vector of least mean cost, and
      otherwise one of least risk. It reports that vector's own numbers. */
  lemma CalibrateReturnsCheapest(recs: seq<Record>, nTiers: nat, options: Options)
    requires 2 <= nTiers && CalibrationStream(recs) != []
    ensures CertificateOf(recs, nTiers, options).Ok?
    ensures var (opts, use) := (InForce(options), CalibrationStream(recs));
      var (grid, cert) := (GridOf(nTiers - 1, opts.step), CertificateOf(recs, nTiers, options).value);
      && (cert.valid <==> exists tau :: Proven(use, grid, opts, tau))
      && (cert.valid ==> Proven(use, grid, opts, cert.thresholds) && CheapestProven(use, grid, opts, cert.thresholds))
      && (!cert.valid ==> cert.thresholds in grid
                          && forall v :: v in grid ==> RiskOf(use, cert.thresholds) <= RiskOf(use, v))
      && Reports(cert, use, opts)
  {
    InForceIsEffective(options);
    hide *;
    var opts, use := InForce(options), CalibrationStream(recs);
    var grid := GridOf(nTiers - 1, opts.step);
    CertificateFields(recs, nTiers, options);
    GridHasOneArity(nTiers - 1, opts.step);
    SearchFindsCheapest(use, grid, opts);
    EvaluatedRisks(use, opts.alpha, grid);
  }

  lemma EqualRiskComesLater(use: seq<Record>, alpha: real, grid: seq<seq<real>>, n: nat, tau: seq<real>)
    requires InLexOrder(grid, n) && tau in grid
    ensures var i := LeastRisk(Evaluate(use, alpha, grid));
      RiskOf(use, tau) <= RiskOf(use, grid[i]) ==> !LexLess(tau, grid[i])
  {
    hide RiskOf, LexLess, Evaluate, LeastRisk;
    EvaluatedRisks(use, alpha, grid);
    var i :| 0 <= i < |grid| && grid[i] == tau;
    LexTotal(tau, grid[LeastRisk(Evaluate(use, alpha, grid))]);
  }

  /** Ties go to the vector the search meets first: in visiting order for
      fixed-sequence, lexicographically otherwise; the least risky likewise. */
  lemma TiesGoToTheFirst(recs: seq<Record>, nTiers: nat, options: Options, tau: seq<real>)
    requires 2 <= nTiers && CalibrationStream(recs) != [] && Increasing(Levels(InForce(options).step))
    requires tau in GridOf(nTiers - 1, InForce(options).step)
    ensures var (opts, use) := (InForce(options), CalibrationStream(recs));
      var (grid, cert) := (GridOf(nTiers - 1, opts.step), CertificateOf(recs, nTiers, options).value);
      && (cert.valid && Proven(use, grid, opts, tau) && MeanCostOf(use, tau) <= MeanCostOf(use, cert.thresholds) ==>
            !Earlier(opts, tau, cert.thresholds))
      && (!cert.valid && RiskOf(use, tau) <= RiskOf(use, cert.thresholds) ==> !LexLess(tau, cert.thresholds))
  {
    InForceIsEffective(options);
    hide *;
    var opts, use := InForce(options), CalibrationStream(recs);
    var grid := GridOf(nTiers - 1, opts.step);
    CertificateFields(recs, nTiers, options);
    GridHasOneArity(nTiers - 1, opts.step);
    GridInLexOrder(nTiers - 1, opts.step);
    if CertificateOf(recs, nTiers, options).value.valid {
      if Proven(use, grid, opts, tau) {
        EqualCostComesLater(use, grid, opts, tau);
      }
    } else {
      EqualRiskComesLater(use, opts.alpha, grid, nTiers - 1, tau);
    }
  }

  /** With labels that are truth a valid certificate is never nominal: its realized risk
      is its empirical risk, and that is below alpha. */
  lemma SoundCertificateIsNotNominal(recs: seq<Record>, nTiers: nat, options: Options)
    requires 2 <= nTiers && CalibrationStream(recs) != [] && InForce(options).delta < 1.0
    requires forall r :: r in CalibrationStream(recs) ==> SoundOracle(r)
    ensures var cert := CertificateOf(recs, nTiers, options).value;
      cert.valid ==> cert.realizedRisk == cert.empiricalRisk < options.alpha && !cert.nominal
  {
    var cert, use := CertificateOf(recs, nTiers, options).value, CalibrationStream(recs);
    hide CertificateOf, CalibrationStream, GridOf, CheapestProven, Proven, SoundOracle, Errors, RealizedRiskOf;
    CalibrateReturnsCheapest(recs, nTiers, options);
    ValidCertificatePassedItsTest(recs, nTiers, options);
    if cert.valid {
      SoundOracleHasNoGap(use, cert.thresholds);
    }
  }

  /** With one tier there is nothing to search: the certificate is valid whatever the
      records say, without thresholds, and reports the lone tier's numbers. */
  lemma OneTierReports(recs: seq<Record>, options: Options)
    requires CalibrationStream(recs) != []
    ensures CertificateOf(recs, 1, options).Ok?
    ensures var (cert, use) := (CertificateOf(recs, 1, options).value, CalibrationStream(recs));
      && cert.valid && cert.thresholds == [] && cert.n == |use| && cert.pValue == 0.0
      && cert.empiricalRisk == RiskOf(use, []) && cert.expectedCost == MeanCostOf(use, [])
      && cert.realizedRisk == RealizedRiskOf(use, [])
      && (cert.nominal <==> options.alpha + 0.000000001 < cert.realizedRisk)
  {
    hide RiskOf, MeanCostOf, RealizedRiskOf, CalibrationStream, Count;
  }
}
