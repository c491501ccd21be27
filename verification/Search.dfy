/** What the grid search certifies, stated without reference to the sort or the
    loop that finds it. */
module Search {
  import opened Policy
  import opened Powers
  import opened PValue
  import opened Grid
  import opened Calibration

  ghost predicate SameArity(grid: seq<seq<real>>) {
    forall v, w :: v in grid && w in grid ==> |v| == |w|
  }

  /** Grid point i is certified when it passes and so does every vector the
      order visits before it. */
  ghost predicate Certified(eval: seq<Cand>, grid: seq<seq<real>>, delta: real, i: nat)
    requires |eval| == |grid|
  {
    && i < |grid|
    && eval[i].p <= delta
    && forall j :: 0 <= j < |grid| && Before(grid[j], grid[i]) ==> eval[j].p <= delta
  }

  /** One evaluation per grid point, depending on the vector only. */
  ghost predicate EvaluatesGrid(eval: seq<Cand>, grid: seq<seq<real>>) {
    && |eval| == |grid|
    && forall i, j :: 0 <= i < |grid| && 0 <= j < |grid| && grid[i] == grid[j] ==> eval[i] == eval[j]
  }

  lemma EvaluationIsByVector(use: seq<Record>, alpha: real, grid: seq<seq<real>>)
    ensures EvaluatesGrid(Evaluate(use, alpha, grid), grid)
  {
    hide CandOf;
  }

  ghost predicate VisitsAll(order: seq<nat>, grid: seq<seq<real>>) {
    && Indices(order, |grid|) && Ordered(order, grid)
    && forall j: nat :: j < |grid| ==> j in order
  }

  lemma ReachedPointIsCertified(order: seq<nat>, eval: seq<Cand>, grid: seq<seq<real>>, delta: real,
                                a: nat)
    requires |eval| == |grid| && VisitsAll(order, grid) && a < PrefixLength(order, eval, delta)
    ensures Certified(eval, grid, delta, order[a])
  {
    forall j: nat | j < |grid| && Before(grid[j], grid[order[a]])
      ensures eval[j].p <= delta
    {
      assert j in order;
      var b :| 0 <= b < |order| && order[b] == j;
      LexAsymmetric(grid[j]);
      assert !(a < b);
    }
  }

  lemma {:induction false} LexAsymmetric(v: seq<real>)
    ensures !Before(v, v)
  {
    LexTotal(v, v);
  }

  lemma CertifiedPointIsReached(order: seq<nat>, eval: seq<Cand>, grid: seq<seq<real>>, delta: real, a: nat)
    requires EvaluatesGrid(eval, grid) && SameArity(grid)
    requires VisitsAll(order, grid) && a < |order| && Certified(eval, grid, delta, order[a])
    ensures a < PrefixLength(order, eval, delta)
  {
    var m := PrefixLength(order, eval, delta);
    if m <= a {
      LexTotal(grid[order[m]], grid[order[a]]);
    }
  }

  /** The certified points are exactly those the fixed-sequence walk reaches. */
  lemma PrefixIsCertifiedSet(eval: seq<Cand>, grid: seq<seq<real>>, delta: real, i: nat)
    requires EvaluatesGrid(eval, grid) && SameArity(grid) && i < |grid|
    ensures var order := VisitOrder(grid, |grid|);
      i in order[..PrefixLength(order, eval, delta)] <==> Certified(eval, grid, delta, i)
  {
    VisitOrderSorts(grid, |grid|);
    var order := VisitOrder(grid, |grid|);
    var m := PrefixLength(order, eval, delta);
    hide VisitOrder, Certified, EvaluatesGrid, PrefixLength;
    if i in order[..m] {
      var a :| 0 <= a < m && order[a] == i;
      ReachedPointIsCertified(order, eval, grid, delta, a);
    }
    if Certified(eval, grid, delta, i) {
      assert i in order;
      var a :| 0 <= a < |order| && order[a] == i;
      CertifiedPointIsReached(order, eval, grid, delta, a);
      assert order[..m][a] == i;
    }
  }

  /** The fixed-sequence search succeeds exactly when some grid point is
      certified, and then returns a certified point of least mean cost. */
  lemma FixedSequenceReturnsCheapestCertified(eval: seq<Cand>, grid: seq<seq<real>>, opts: Options)
    requires EvaluatesGrid(eval, grid) && SameArity(grid) && grid != []
    requires opts.correction == FixedSequence
    ensures Selected(eval, grid, opts).Some? <==> exists i: nat :: Certified(eval, grid, opts.delta, i)
    ensures Selected(eval, grid, opts).Some? ==>
      var best := Selected(eval, grid, opts).value;
      && Certified(eval, grid, opts.delta, best)
      && forall i: nat :: Certified(eval, grid, opts.delta, i) ==> eval[best].cost <= eval[i].cost
  {
    VisitOrderSorts(grid, |grid|);
    var order := VisitOrder(grid, |grid|);
    var prefix := order[..PrefixLength(order, eval, opts.delta)];
    forall i: nat | i < |grid|
      ensures i in prefix <==> Certified(eval, grid, opts.delta, i)
    {
      PrefixIsCertifiedSet(eval, grid, opts.delta, i);
    }
    if prefix != [] {
      assert prefix[0] in prefix;
      assert Certified(eval, grid, opts.delta, prefix[0]);
    }
  }

  /** Bonferroni returns the cheapest point that passes the divided level. */
  lemma BonferroniReturnsCheapestPassing(eval: seq<Cand>, grid: seq<seq<real>>, opts: Options)
    requires |eval| == |grid| && grid != [] && opts.correction == Bonferroni
    ensures var bar := opts.delta / |grid| as real;
      && (Selected(eval, grid, opts).Some? <==> exists i :: 0 <= i < |eval| && eval[i].p <= bar)
      && (Selected(eval, grid, opts).Some? ==>
            var best := Selected(eval, grid, opts).value;
            && eval[best].p <= bar
            && forall i :: 0 <= i < |eval| && eval[i].p <= bar ==> eval[best].cost <= eval[i].cost)
  {
    var bar := opts.delta / |grid| as real;
    PassingMembers(eval, |eval|, bar);
    var idxs := Passing(eval, |eval|, bar);
    if idxs != [] {
      assert idxs[0] in idxs;
    }
    forall i: nat | i < |eval| && eval[i].p <= bar
      ensures idxs != [] && eval[FirstCheapest(idxs, eval).value].cost <= eval[i].cost
    {
      assert i in idxs;
    }
  }

  lemma BeforeTransitive(a: seq<real>, b: seq<real>, c: seq<real>)
    requires |a| == |b| == |c| && Before(a, b) && Before(b, c)
    ensures Before(a, c)
  {
    if LexLess(b, a) && LexLess(c, b) {
      LexTransitive(c, b, a);
    }
  }

  lemma GridHasOneArity(arity: int, step: real)
    requires 0.0 < step
    ensures SameArity(GridOf(arity, step))
  {
    if 0 < arity {
      RowsHaveArity(arity, Levels(step));
    }
  }

  /** Certification is closed upwards: everything pointwise above a certified
      vector was tested before it and passed. */
  lemma CertifiedUpwardClosed(eval: seq<Cand>, grid: seq<seq<real>>, delta: real, i: nat, w: nat)
    requires |eval| == |grid| && SameArity(grid) && w < |grid|
    requires Certified(eval, grid, delta, i)
    requires Dominates(grid[w], grid[i]) && grid[w] != grid[i]
    ensures Certified(eval, grid, delta, w)
  {
    DominatingSums(grid[w], grid[i]);
    forall j | 0 <= j < |grid| && Before(grid[j], grid[w])
      ensures eval[j].p <= delta
    {
      BeforeTransitive(grid[j], grid[w], grid[i]);
    }
  }

  // ------------------------------------------------------------ certificates

  lemma LevelsNonEmpty(step: real)
    requires 0.0 < step
    ensures 0.0 in Levels(step)
  {
    FewerLevelsLeft(0.0, step);
    assert Levels(step) == [RoundMilli(0.0)] + LevelsFrom(0.0 + step, step);
    assert RoundMilli(0.0) == 0.0;
  }

  lemma {:induction false} ExtendNonEmpty(g: seq<seq<real>>, levels: seq<real>)
    requires g != [] && levels != []
    ensures Extend(g, levels) != []
  {
    assert ExtendRow(g[0], levels) != [];
  }

  lemma {:induction false} VectorsNonEmpty(arity: nat, levels: seq<real>)
    requires levels != []
    ensures Vectors(arity, levels) != []
  {
    if arity != 0 {
      VectorsNonEmpty(arity - 1, levels);
      ExtendNonEmpty(Vectors(arity - 1, levels), levels);
    }
  }

  lemma GridNonEmpty(arity: int, step: real)
    requires 0.0 < step && 0 < arity
    ensures GridOf(arity, step) != []
  {
    LevelsNonEmpty(step);
    VectorsNonEmpty(arity, Levels(step));
  }

  /** Calibrate issues a valid certificate. */
  ghost predicate Certifies(recs: seq<Record>, nTiers: nat, options: Options) {
    CertificateOf(recs, nTiers, options).Ok? && CertificateOf(recs, nTiers, options).value.valid
  }

  /** A valid certificate over two or more tiers always rests on a passed test. */
  lemma ValidCertificatePassedItsTest(recs: seq<Record>, nTiers: nat, options: Options)
    requires 2 <= nTiers
    ensures Certifies(recs, nTiers, options) ==>
      var cert, use := CertificateOf(recs, nTiers, options).value, CalibrationStream(recs);
      && cert.thresholds in GridOf(nTiers - 1, options.Effective().step)
      && use != [] && cert.n == |use|
      && cert.pValue == HoeffdingBentkus(Errors(use, cert.thresholds), |use|, options.alpha)
      && cert.pValue <= options.Effective().delta
  {
    hide HoeffdingBentkus, Errors, CertificateOf, CalibrationStream, GridOf, Evaluate, Selected, MeanCostOf;
    CertificateShape(recs, nTiers, options);
  }

  lemma BarAtMostDelta(delta: real, n: nat)
    requires 0.0 < delta && 0 < n
    ensures delta / n as real <= delta
  {
    var b, m := delta / n as real, n as real;
    assert b * m == delta && 1.0 <= m;
    ProductDominates(b, m, delta);
  }

  lemma ProductDominates(b: real, m: real, d: real)
    requires b * m == d && 0.0 < d && 1.0 <= m
    ensures b <= d
  {
    if b <= 0.0 {
      MulNonNegative(-b, m);
    }
    MulNonNegative(b, m - 1.0);
  }

  /** Two or more tiers and a usable record: the search always runs, and the
      certificate reports what it selected. */
  lemma CertificateShape(recs: seq<Record>, nTiers: nat, options: Options)
    requires 2 <= nTiers
    ensures CertificateOf(recs, nTiers, options).Ok? <==> CalibrationStream(recs) != []
    ensures CalibrationStream(recs) != [] ==>
      var opts, use := options.Effective(), CalibrationStream(recs);
      var grid := GridOf(nTiers - 1, opts.step);
      var eval, cert := Evaluate(use, opts.alpha, grid), CertificateOf(recs, nTiers, options).value;
      && grid != [] && SameArity(grid) && cert.n == |use|
      && (cert.valid <==> Selected(eval, grid, opts).Some?)
      && (cert.valid ==> var best := Selected(eval, grid, opts).value;
            && cert.thresholds == grid[best] && cert.thresholds in grid
            && cert.pValue == HoeffdingBentkus(Errors(use, grid[best]), |use|, opts.alpha)
            && cert.pValue <= opts.delta
            && cert.expectedCost == MeanCostOf(use, grid[best]))
  {
    hide HoeffdingBentkus, RiskOf, MeanCostOf, RealizedRiskOf, Errors, GridOf, CalibrationStream, Selected,
         Count, Certified;
    var opts := options.Effective();
    var use := CalibrationStream(recs);
    var grid := GridOf(nTiers - 1, opts.step);
    GridNonEmpty(nTiers - 1, opts.step);
    GridHasOneArity(nTiers - 1, opts.step);
    if use != [] {
      var eval := Evaluate(use, opts.alpha, grid);
      EvaluationIsByVector(use, opts.alpha, grid);
      SelectedPasses(eval, grid, opts);
    }
  }

  lemma SelectedPasses(eval: seq<Cand>, grid: seq<seq<real>>, opts: Options)
    requires EvaluatesGrid(eval, grid) && SameArity(grid) && grid != []
    requires 0.0 < opts.delta
    ensures Selected(eval, grid, opts).Some? ==> eval[Selected(eval, grid, opts).value].p <= opts.delta
  {
    if opts.correction == FixedSequence {
      FixedSequenceReturnsCheapestCertified(eval, grid, opts);
    } else {
      BonferroniReturnsCheapestPassing(eval, grid, opts);
      BarAtMostDelta(opts.delta, |grid|);
    }
  }

  /** Below the calibration floor no sample is ever certified, by either method. */
  lemma NothingCertifiesBelowTheFloor(recs: seq<Record>, nTiers: nat, options: Options)
    requires 2 <= nTiers && TINY < options.alpha < 1.0 - TINY && options.Effective().delta < 1.0
    ensures |CalibrationStream(recs)| < MinCalibrationSize(options.alpha, options.Effective().delta)
       ==> !Certifies(recs, nTiers, options)
  {
    hide HoeffdingBentkus, CalibrationStream, CertificateOf, GridOf, MinCalibrationSize, Count;
    var use := CalibrationStream(recs);
    if Certifies(recs, nTiers, options) {
      ValidCertificatePassedItsTest(recs, nTiers, options);
      CertifiableIffFloorReached(|use|, options.alpha, options.Effective().delta);
    }
  }

  // ------------------------------------------------------------ the strictest vector

  ghost predicate AllOnes(v: seq<real>) {
    forall i :: 0 <= i < |v| ==> v[i] == 1.0
  }

  /** Routing scores are Wilson bounds, always below 1, and nothing was cached. */
  ghost predicate BelowUnanimity(use: seq<Record>, nTiers: nat) {
    forall r :: r in use ==>
      !r.cacheHit && |r.tiers| == nTiers && forall k :: 0 <= k < nTiers ==> r.tiers[k].score < 1.0
  }

  predicate FinalTierWrong(r: Record) {
    r.tiers == [] || !r.tiers[|r.tiers| - 1].correct
  }

  lemma {:induction false} StrictestVectorEscalatesFully(use: seq<Record>, nTiers: nat, v: seq<real>)
    requires 1 <= nTiers && |v| == nTiers - 1 && AllOnes(v) && BelowUnanimity(use, nTiers)
    ensures Errors(use, v) == Count(use, FinalTierWrong)
  {
    if use != [] {
      var last := use[|use| - 1];
      StrictestVectorEscalatesFully(use[..|use| - 1], nTiers, v);
      assert last in use;
      StopIsUnique(last.tiers, v, nTiers - 1);
    }
  }

  lemma {:induction false} SumBound(v: seq<real>)
    requires forall i :: 0 <= i < |v| ==> v[i] <= 1.0
    ensures Sum(v) <= |v| as real
    ensures Sum(v) == |v| as real <==> AllOnes(v)
  {
    if v != [] {
      SumBound(v[..|v| - 1]);
      assert AllOnes(v) <==> AllOnes(v[..|v| - 1]) && v[|v| - 1] == 1.0 by {
        assert forall i :: 0 <= i < |v| - 1 ==> v[..|v| - 1][i] == v[i];
      }
    }
  }

  lemma GridEntriesInUnitInterval(arity: nat, step: real, v: seq<real>)
    requires 0 < arity && 0.001 <= step && v in GridOf(arity, step)
    ensures |v| == arity && forall i :: 0 <= i < |v| ==> 0.0 <= v[i] <= 1.0
  {
    GridListsEveryVectorOnce(arity, step, v);
    PresentOccurs(GridOf(arity, step), v);
    forall i | 0 <= i < |v|
      ensures 0.0 <= v[i] <= 1.0
    {
      LevelsInUnitInterval(0.0, step, v[i]);
    }
  }

  /** When 1.0 is a grid level, fixed-sequence certifies something exactly when
      the final tier's own error count passes: the strictest vector goes first. */
  lemma ValidIffFinalTierPasses(recs: seq<Record>, nTiers: nat, options: Options)
    requires 2 <= nTiers && options.correction == FixedSequence
    requires 0.001 <= options.Effective().step && 1.0 in Levels(options.Effective().step)
    requires CalibrationStream(recs) != [] && BelowUnanimity(CalibrationStream(recs), nTiers)
    ensures var use := CalibrationStream(recs);
      Certifies(recs, nTiers, options)
      <==> HoeffdingBentkus(Count(use, FinalTierWrong), |use|, options.alpha) <= options.Effective().delta
  {
    hide CalibrationStream, GridOf, HoeffdingBentkus, Errors, Count, Selected, MeanCostOf, CertificateOf,
         Levels, BelowUnanimity, FinalTierWrong, VisitedFirst, AllOnes, RiskOf;
    var opts := options.Effective();
    var use, grid := CalibrationStream(recs), GridOf(nTiers - 1, opts.step);
    var eval := Evaluate(use, opts.alpha, grid);
    var top := LocateOnes(nTiers - 1, opts.step);
    assert Certifies(recs, nTiers, options) <==> Selected(eval, grid, opts).Some? by {
      CertificateShape(recs, nTiers, options);
    }
    assert Selected(eval, grid, opts).Some? <==> eval[top].p <= opts.delta by {
      GridHasOneArity(nTiers - 1, opts.step);
      EvaluationIsByVector(use, opts.alpha, grid);
      SearchSucceedsIffTopPasses(eval, grid, opts, top);
    }
    StrictestVectorEscalatesFully(use, nTiers, grid[top]);
  }

  lemma SearchSucceedsIffTopPasses(eval: seq<Cand>, grid: seq<seq<real>>, opts: Options, top: nat)
    requires EvaluatesGrid(eval, grid) && SameArity(grid) && top < |grid|
    requires opts.correction == FixedSequence
    requires VisitedFirst(grid[top], grid)
    ensures Selected(eval, grid, opts).Some? <==> eval[top].p <= opts.delta
  {
    hide CandOf, Before, Selected;
    FixedSequenceReturnsCheapestCertified(eval, grid, opts);
    if eval[top].p <= opts.delta {
      assert Certified(eval, grid, opts.delta, top);
    }
    if exists i: nat :: Certified(eval, grid, opts.delta, i) {
      var i: nat :| Certified(eval, grid, opts.delta, i);
      assert grid[i] == grid[top] ==> eval[i] == eval[top];
    }
  }

  /** Nothing on the grid is visited before v, and everything else is after it. */
  ghost predicate VisitedFirst(v: seq<real>, grid: seq<seq<real>>) {
    forall w :: w in grid ==> !Before(w, v) && (w != v ==> Before(v, w))
  }

  /** The all-ones vector is on the grid and nothing is visited before it. */
  lemma LocateOnes(arity: nat, step: real) returns (top: nat)
    requires 0 < arity && 0.001 <= step && 1.0 in Levels(step)
    ensures var grid := GridOf(arity, step);
      top < |grid| && |grid[top]| == arity && AllOnes(grid[top]) && VisitedFirst(grid[top], grid)
  {
    var grid := GridOf(arity, step);
    var ones := seq(arity, i => 1.0);
    assert IsVector(ones, arity, Levels(step));
    GridListsEveryVectorOnce(arity, step, ones);
    PresentOccurs(grid, ones);
    top :| 0 <= top < |grid| && grid[top] == ones;
    forall w | w in grid
      ensures !Before(w, ones) && (w != ones ==> Before(ones, w))
    {
      OnesComeFirst(arity, step, w, ones);
    }
  }

  lemma OnesComeFirst(arity: nat, step: real, v: seq<real>, ones: seq<real>)
    requires 0 < arity && 0.001 <= step && v in GridOf(arity, step)
    requires |ones| == arity && AllOnes(ones)
    ensures !Before(v, ones) && (v != ones ==> Before(ones, v))
  {
    GridEntriesInUnitInterval(arity, step, v);
    SumBound(v);
    SumBound(ones);
    if AllOnes(v) {
      assert v == ones;
      LexTotal(v, ones);
    }
  }

  /** With one tier the grid is empty and every sample is declared valid, even
      one on which every answer was wrong. */
  lemma OneTierCertifiesBlindly(recs: seq<Record>, options: Options)
    requires CalibrationStream(recs) != []
    ensures CertificateOf(recs, 1, options).Ok? && CertificateOf(recs, 1, options).value.valid
    ensures (forall r :: r in CalibrationStream(recs) ==> WrongUnder(r, []))
        ==> CertificateOf(recs, 1, options).value.empiricalRisk == 1.0
  {
    var use := CalibrationStream(recs);
    hide CalibrationStream, Count, WrongUnder, MeanCostOf, RealizedRiskOf, Errors;
    if forall r :: r in use ==> WrongUnder(r, []) {
      AllWrong(use);
      var x := |use| as real;
      assert x / x == 1.0;
      assert RiskOf(use, []) == 1.0;
    }
  }

  lemma {:induction false} AllWrong(use: seq<Record>)
    requires forall r :: r in use ==> WrongUnder(r, [])
    ensures Errors(use, []) == |use|
  {
    if use != [] {
      AllWrong(use[..|use| - 1]);
      assert use[|use| - 1] in use;
    }
  }
}
