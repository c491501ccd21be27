/** What each row of the sweep says about the records, at every shadow rate, and which
    records a selective pattern absorbs. */
module AbsorbRows {
  import opened Policy
  import opened PValue
  import opened Grid
  import opened Calibration
  import opened Cheapest
  import opened Absorb
  import opened AbsorbSweep

  // ------------------------------------------------------------ sizes

  /** k is x rounded half up. */
  predicate RoundsTo(x: real, k: int) {
    k as real - 0.5 <= x < k as real + 0.5
  }

  lemma RoundRounds(x: real)
    ensures RoundsTo(x, Round(x))
  {
  }

  /** The residual lacks rho * n records, rounded, but never all of them. */
  lemma DropRounds(rho: real, n: nat, x: real)
    requires 0.0 <= rho && 0 < n && x == rho * n as real
    ensures exists k: nat :: RoundsTo(x, k) && Drop(rho, n) == if k < n then k else n - 1
  {
    RoundsUp(rho, n);
    RoundRounds(x);
    var k: nat := Round(x);
    assert RoundsTo(x, k);
  }

  lemma ShadowRounds(eps: real, n: nat, x: real)
    requires 0.0 <= eps < 1.0 && 0 < n && x == eps * n as real
    ensures exists k: nat :: RoundsTo(x, k) && ShadowSize(eps, n) == if k < 1 then 1 else k
  {
    RoundsUp(eps, n);
    RoundRounds(x);
    var k: nat := Round(x);
    assert RoundsTo(x, k);
  }

  // ------------------------------------------------------------ what is absorbed

  /** What a selective pattern absorbs first: a correct cheap tier, or one that the
      running policy would accept. */
  function Flag(pat: Pattern, tau: seq<real>): Record -> bool {
    (r: Record) =>
      r.tiers != [] && if pat == EasyFirst then r.tiers[0].Truth() else tau != [] && tau[0] <= r.tiers[0].score
  }

  function CheapScore(r: Record): real {
    if r.tiers == [] then 0.0 else r.tiers[0].score
  }

  /** a is easier than b: flagged where b is not, or flagged alike and of higher score. */
  predicate Easier(flag: Record -> bool, a: Record, b: Record) {
    (flag(a) && !flag(b)) || (flag(a) == flag(b) && CheapScore(b) < CheapScore(a))
  }

  lemma SameFlag(pat: Pattern, tau: seq<real>, a: Record, b: Record)
    requires pat != Uniform
    ensures Ahead(if pat == EasyFirst then Tier0Correct else (r: Record) => ServedAtTier0(r, tau), a, b)
       <==> Easier(Flag(pat, tau), a, b)
  {
  }

  lemma KeptIsATail(salts: Salts, recs: seq<Record>, pat: Pattern, rho: real, opts: Sweep)
    requires 0.0 <= rho && recs != [] && pat != Uniform
    ensures var flag := if pat == EasyFirst then Tier0Correct else (r: Record) => ServedAtTier0(r, opts.tau);
      var ps := StableOrder(flag, recs, |recs|);
      && Kept(salts, recs, pat, rho, opts) == ps[Drop(rho, |recs|)..]
      && Bijection(ps, |recs|) && InOrder(flag, At(recs, ps))
  {
    hide Bijection, InOrder, StableOrder, Drop;
    var flag := if pat == EasyFirst then Tier0Correct else (r: Record) => ServedAtTier0(r, opts.tau);
    StableOrderIsBijection(flag, recs, |recs|);
    StableOrderSorts(flag, recs, |recs|);
  }

  lemma TailOrder(less: Record -> bool, recs: seq<Record>, ps: seq<nat>, d: nat, kept: seq<nat>, i: nat)
    requires Bijection(ps, |recs|) && InOrder(less, At(recs, ps)) && d <= |ps| && kept == ps[d..] && i < |kept|
    ensures PositionsIn(kept, recs)
    ensures forall q: nat :: q < |recs| && q !in kept ==> !Ahead(less, recs[kept[i]], recs[q])
    ensures forall j :: i < j < |kept| ==> !Ahead(less, recs[kept[j]], recs[kept[i]])
  {
    hide Ahead;
    var xs := At(recs, ps);
    forall a | d <= a < |ps|
      ensures ps[a] in kept
    {
      assert kept[a - d] == ps[a];
    }
    forall q: nat | q < |recs| && q !in kept
      ensures !Ahead(less, recs[kept[i]], recs[q])
    {
      assert Lists(ps, q);
      var a :| 0 <= a < |ps| && ps[a] == q;
      assert a < d;
      assert !Ahead(less, xs[d + i], xs[a]);
    }
    forall j | i < j < |kept|
      ensures !Ahead(less, recs[kept[j]], recs[kept[i]])
    {
      assert !Ahead(less, xs[d + j], xs[d + i]);
    }
  }

  /** A selective pattern absorbs the easiest records: nothing it keeps is easier than
      anything it absorbs, and what it keeps comes easiest first. */
  lemma AbsorbsTheEasiest(salts: Salts, recs: seq<Record>, pat: Pattern, rho: real, opts: Sweep, i: nat)
    requires 0.0 <= rho && recs != [] && pat != Uniform && i < |Kept(salts, recs, pat, rho, opts)|
    ensures var kept, flag := Kept(salts, recs, pat, rho, opts), Flag(pat, opts.tau);
      && PositionsIn(kept, recs)
      && (forall q: nat :: q < |recs| && q !in kept ==> !Easier(flag, recs[kept[i]], recs[q]))
      && forall j :: i < j < |kept| ==> !Easier(flag, recs[kept[j]], recs[kept[i]])
  {
    hide Kept, StableOrder, Drop, Ahead, Easier, InOrder, Bijection;
    KeptIsATail(salts, recs, pat, rho, opts);
    var less := if pat == EasyFirst then Tier0Correct else (r: Record) => ServedAtTier0(r, opts.tau);
    var ps := StableOrder(less, recs, |recs|);
    TailOrder(less, recs, ps, Drop(rho, |recs|), Kept(salts, recs, pat, rho, opts), i);
    forall a, b
      ensures Ahead(less, a, b) <==> Easier(Flag(pat, opts.tau), a, b)
    {
      SameFlag(pat, opts.tau, a, b);
    }
  }

  /** The published first outputs of splitmix64 from seed 0. */
  lemma SplitMixVectors()
    ensures Output(NextState(0)) == 0xE220A8397B1DCDAF
    ensures Output(NextState(NextState(0))) == 0x6E789E6AA1B965F4
  {
  }

  // ------------------------------------------------------------ rows

  ghost predicate PicksOut(ps: seq<nat>, residual: seq<Record>, cal: seq<Record>) {
    Picks(ps, |residual|) && PositionsIn(ps, residual) && At(residual, ps) == cal
  }

  /** The stream a row calibrates on: all usable records at shadow rate 0, otherwise
      distinct records of the residual, the head of a keyed shuffle. */
  ghost predicate DrawnFrom(cal: seq<Record>, use: seq<Record>, residual: seq<Record>, eps: real, key: bv64) {
    && (eps <= 0.0 ==> cal == use)
    && (1.0 <= eps ==> cal == residual)
    && (0.0 < eps < 1.0 && residual != [] ==> |cal| == ShadowSize(eps, |residual|))
    && (0.0 < eps < 1.0 ==> |cal| <= |residual| && PicksOut(PermutationOf(|residual|, key)[..|cal|], residual, cal))
  }

  /** x is c of n. */
  predicate SharesOut(x: real, n: nat, c: nat) {
    n as real * x == c as real
  }

  /** What a row reports, from the residual and the stream it calibrated on. */
  ghost predicate RowReads(row: Row, use: seq<Record>, residual: seq<Record>, cal: seq<Record>, pat: Pattern, rho: real,
                           eps: real, opts: Sweep)
  {
    && row.pattern == pat && row.rho == rho && row.epsilon == eps && row.nResidual == |residual|
    && SharesOut(row.accuracyD, |use|, Count(use, Tier0Correct))
    && SharesOut(row.accuracyResidual, |residual|, Count(residual, Tier0Correct))
    && row.nCalibration == (if |residual| < 2 then 0 else |cal|)
    && row.nShadow == (if |residual| < 2 || eps <= 0.0 then 0 else |cal|)
    && (|residual| < 2 || |cal| < 2 ==>
          !row.certified && row.thresholds == [] && row.calibratedRisk == row.deployedRisk == row.riskGap == 0.0)
    && (2 <= |residual| && 2 <= |cal| ==>
          && SharesOut(row.calibratedRisk, |cal|, Errors(cal, row.thresholds))
          && SharesOut(row.deployedRisk, |residual|, TrueErrors(residual, row.thresholds))
          && row.riskGap == row.deployedRisk - row.calibratedRisk)
  }

  lemma QuotientSharesOut(c: nat, n: nat)
    requires 0 < n
    ensures SharesOut(c as real / n as real, n, c)
  {
  }

  lemma AccuracyIsShare(recs: seq<Record>)
    requires recs != []
    ensures SharesOut(Tier0Accuracy(recs), |recs|, Count(recs, Tier0Correct))
  {
    hide SharesOut;
    QuotientSharesOut(Count(recs, Tier0Correct), |recs|);
  }

  lemma RisksAreShares(recs: seq<Record>, tau: seq<real>)
    requires recs != []
    ensures SharesOut(RiskOf(recs, tau), |recs|, Errors(recs, tau))
    ensures SharesOut(RealizedRiskOf(recs, tau), |recs|, TrueErrors(recs, tau))
  {
    hide SharesOut;
    QuotientSharesOut(Errors(recs, tau), |recs|);
    QuotientSharesOut(TrueErrors(recs, tau), |recs|);
  }

  /** The key of a row's draw mixes the seed with its two rates and its pattern. */
  function KeyOf(salts: Salts, opts: Sweep, eps: real, pat: Pattern, rho: real): bv64 {
    salts.hash(pat) ^ salts.bits(rho) ^ salts.bits(eps) ^ opts.seed
  }

  lemma SameKey(salts: Salts, opts: Sweep, eps: real, pat: Pattern, rho: real)
    ensures KeyOf(salts, opts, eps, pat, rho) == DrawKey(salts, opts, eps, pat, rho)
  {
  }

  lemma StreamIsDrawn(salts: Salts, use: seq<Record>, residual: seq<Record>, pat: Pattern, rho: real, eps: real, opts: Sweep)
    requires residual != []
    ensures DrawnFrom(CalStream(salts, use, residual, pat, rho, eps, opts), use, residual, eps,
                      KeyOf(salts, opts, eps, pat, rho))
  {
    SameKey(salts, opts, eps, pat, rho);
    hide PermutationOf, ShadowSize, KeyOf, DrawKey;
    if 0.0 < eps {
      var ps := ShadowPositions(|residual|, eps, DrawKey(salts, opts, eps, pat, rho));
      ShadowIsASubset(|residual|, eps, DrawKey(salts, opts, eps, pat, rho));
      assert PicksOut(ps, residual, CalStream(salts, use, residual, pat, rho, eps, opts));
    }
  }

  lemma BareRow(salts: Salts, use: seq<Record>, pat: Pattern, rho: real, eps: real, opts: Sweep)
    requires 0.0 <= rho && use != []
    ensures var (row, residual) := (RowOf(salts, use, pat, rho, eps, opts), Residual(salts, use, pat, rho, opts));
      var cal := CalStream(salts, use, residual, pat, rho, eps, opts);
      && row.pattern == pat && row.rho == rho && row.epsilon == eps && row.nResidual == |residual|
      && row.accuracyD == Tier0Accuracy(use) && row.accuracyResidual == Tier0Accuracy(residual)
      && row.nCalibration == (if |residual| < 2 then 0 else |cal|)
      && row.nShadow == (if |residual| < 2 || eps <= 0.0 then 0 else |cal|)
      && (|residual| < 2 || |cal| < 2 ==>
            !row.certified && row.thresholds == [] && row.calibratedRisk == row.deployedRisk == row.riskGap == 0.0)
  {
    hide CertificateOf, RealizedRiskOf, Tier0Accuracy, Residual, Underpowered, CalStream;
  }

  lemma FullRow(salts: Salts, use: seq<Record>, pat: Pattern, rho: real, eps: real, opts: Sweep)
    requires 0.0 <= rho && use != [] && forall i :: 0 <= i < |use| ==> Usable(use[i])
    ensures var (row, residual) := (RowOf(salts, use, pat, rho, eps, opts), Residual(salts, use, pat, rho, opts));
      var cal := CalStream(salts, use, residual, pat, rho, eps, opts);
      2 <= |residual| && 2 <= |cal| ==>
        && row.calibratedRisk == RiskOf(cal, row.thresholds)
        && row.deployedRisk == RealizedRiskOf(residual, row.thresholds)
        && row.riskGap == row.deployedRisk - row.calibratedRisk
  {
    hide CertificateOf, RiskOf, RealizedRiskOf, Tier0Accuracy, Residual, Underpowered, CalStream, Count;
    var residual := Residual(salts, use, pat, rho, opts);
    var cal := CalStream(salts, use, residual, pat, rho, eps, opts);
    if 2 <= |residual| && 2 <= |cal| {
      CalStreamIsUsable(salts, use, pat, rho, eps, opts);
      StripForcesTheStream(cal);
      StreamCertifies(StripAll(cal), |opts.tiers|, opts.ltt);
      CertificateReportsItsRisk(StripAll(cal), |opts.tiers|, opts.ltt);
      StripKeepsRisks(cal, CertificateOf(StripAll(cal), |opts.tiers|, opts.ltt).value.thresholds);
    }
  }

  /** Every row, at every shadow rate: its deployed risk is the true error share of its
      thresholds on the whole residual, and its calibrated risk their error share on the
      stream they were chosen on. */
  lemma RowIsReadable(salts: Salts, use: seq<Record>, pat: Pattern, rho: real, eps: real, opts: Sweep)
    requires 0.0 <= rho && use != [] && forall i :: 0 <= i < |use| ==> Usable(use[i])
    ensures var residual := Residual(salts, use, pat, rho, opts);
      var cal := CalStream(salts, use, residual, pat, rho, eps, opts);
      && DrawnFrom(cal, use, residual, eps, KeyOf(salts, opts, eps, pat, rho))
      && RowReads(RowOf(salts, use, pat, rho, eps, opts), use, residual, cal, pat, rho, eps, opts)
  {
    var row, residual := RowOf(salts, use, pat, rho, eps, opts), Residual(salts, use, pat, rho, opts);
    var cal := CalStream(salts, use, residual, pat, rho, eps, opts);
    hide SharesOut, RowOf, Residual, CalStream, DrawnFrom, RiskOf, RealizedRiskOf, Errors, TrueErrors, Tier0Accuracy, Count,
         Usable, Tier0Correct, Drop;
    StreamIsDrawn(salts, use, residual, pat, rho, eps, opts);
    AccuracyIsShare(use);
    AccuracyIsShare(residual);
    BareRow(salts, use, pat, rho, eps, opts);
    FullRow(salts, use, pat, rho, eps, opts);
    if cal != [] {
      RisksAreShares(cal, row.thresholds);
    }
    RisksAreShares(residual, row.thresholds);
  }

  lemma RowIsItsCertificate(salts: Salts, use: seq<Record>, pat: Pattern, rho: real, eps: real, opts: Sweep)
    requires 0.0 <= rho && use != [] && forall i :: 0 <= i < |use| ==> Usable(use[i])
    ensures var (row, residual) := (RowOf(salts, use, pat, rho, eps, opts), Residual(salts, use, pat, rho, opts));
      var cal := CalStream(salts, use, residual, pat, rho, eps, opts);
      2 <= |residual| && 2 <= |cal| ==>
        && CalibrationStream(StripAll(cal)) == StripAll(cal)
        && CertificateOf(StripAll(cal), |opts.tiers|, opts.ltt).Ok?
        && var cert := CertificateOf(StripAll(cal), |opts.tiers|, opts.ltt).value;
           row.certified == cert.valid && row.thresholds == cert.thresholds
  {
    hide CertificateOf, RiskOf, RealizedRiskOf, Tier0Accuracy, Residual, Underpowered, CalStream, Count;
    var residual := Residual(salts, use, pat, rho, opts);
    var cal := CalStream(salts, use, residual, pat, rho, eps, opts);
    if 2 <= |residual| && 2 <= |cal| {
      CalStreamIsUsable(salts, use, pat, rho, eps, opts);
      StripForcesTheStream(cal);
      StreamCertifies(StripAll(cal), |opts.tiers|, opts.ltt);
    }
  }

  /** A row is flagged exactly when its stream, if it got that far, is smaller than the
      least sample any certificate at these levels needs. */
  lemma RowIsFlaggedExactlyWhen(salts: Salts, use: seq<Record>, pat: Pattern, rho: real, eps: real, opts: Sweep)
    requires 0.0 <= rho && use != []
    ensures var residual := Residual(salts, use, pat, rho, opts);
      var cal := CalStream(salts, use, residual, pat, rho, eps, opts);
      RowOf(salts, use, pat, rho, eps, opts).underpowered
      <==> 2 <= |residual| && |cal| < MinCalibrationSize(opts.ltt.alpha, opts.ltt.delta)
  {
    hide CertificateOf, RealizedRiskOf, Tier0Accuracy, Residual, Underpowered, CalStream, MinCalibrationSize;
    var cal := CalStream(salts, use, Residual(salts, use, pat, rho, opts), pat, rho, eps, opts);
    UnderpoweredIsBelowFloor(|cal|, opts.ltt);
  }

  /** A row with enough records and two or more tiers is certified exactly when its
      stream proves some vector, and then its thresholds are the cheapest proven. */
  lemma RowCertifiesExactlyWhen(salts: Salts, use: seq<Record>, pat: Pattern, rho: real, eps: real, opts: Sweep)
    requires 0.0 <= rho && use != [] && 2 <= |opts.tiers| && forall i :: 0 <= i < |use| ==> Usable(use[i])
    ensures var (row, residual) := (RowOf(salts, use, pat, rho, eps, opts), Residual(salts, use, pat, rho, opts));
      var (cal, ltt) := (CalStream(salts, use, residual, pat, rho, eps, opts), InForce(opts.ltt));
      var grid := GridOf(|opts.tiers| - 1, ltt.step);
      2 <= |residual| && 2 <= |cal| ==>
        && (row.certified <==> exists tau :: Proven(StripAll(cal), grid, ltt, tau))
        && (row.certified ==>
              Proven(StripAll(cal), grid, ltt, row.thresholds) && CheapestProven(StripAll(cal), grid, ltt, row.thresholds))
  {
    hide *;
    var residual := Residual(salts, use, pat, rho, opts);
    var cal := CalStream(salts, use, residual, pat, rho, eps, opts);
    if 2 <= |residual| && 2 <= |cal| {
      RowIsItsCertificate(salts, use, pat, rho, eps, opts);
      CalibrateReturnsCheapest(StripAll(cal), |opts.tiers|, opts.ltt);
    }
  }

  // ------------------------------------------------------------ the order of the rows

  datatype Setting = Setting(pattern: Pattern, rho: real, epsilon: real)

  function AtRate(pat: Pattern, rho: real, epsilons: seq<real>): (settings: seq<Setting>) {
    seq(|epsilons|, e requires 0 <= e < |epsilons| => Setting(pat, rho, epsilons[e]))
  }

  function AtPattern(pat: Pattern, rhos: seq<real>, epsilons: seq<real>): seq<Setting> {
    if rhos == [] then []
    else AtPattern(pat, rhos[..|rhos| - 1], epsilons) + AtRate(pat, rhos[|rhos| - 1], epsilons)
  }

  /** Every pattern, rate and shadow rate, the shadow rate varying fastest. */
  function Settings(patterns: seq<Pattern>, rhos: seq<real>, epsilons: seq<real>): seq<Setting> {
    if patterns == [] then []
    else Settings(patterns[..|patterns| - 1], rhos, epsilons) + AtPattern(patterns[|patterns| - 1], rhos, epsilons)
  }

  /** Row i is what setting i gives. */
  ghost predicate RowsFor(salts: Salts, use: seq<Record>, opts: Sweep, settings: seq<Setting>, rows: seq<Row>) {
    && use != [] && |rows| == |settings|
    && forall i :: 0 <= i < |rows| ==>
         0.0 <= settings[i].rho
         && rows[i] == RowOf(salts, use, settings[i].pattern, settings[i].rho, settings[i].epsilon, opts)
  }

  lemma RowsForBoth(salts: Salts, use: seq<Record>, opts: Sweep, s: seq<Setting>, rows: seq<Row>, t: seq<Setting>,
                    more: seq<Row>)
    requires RowsFor(salts, use, opts, s, rows) && RowsFor(salts, use, opts, t, more)
    ensures RowsFor(salts, use, opts, s + t, rows + more)
  {
    hide RowOf;
  }

  lemma {:induction false} RowsAtRate(salts: Salts, use: seq<Record>, pat: Pattern, rho: real, n: nat, opts: Sweep)
    requires 0.0 <= rho && use != [] && n <= |opts.epsilons|
    ensures RowsFor(salts, use, opts, AtRate(pat, rho, opts.epsilons[..n]), EpsRows(salts, use, pat, rho, n, opts))
  {
    hide RowOf;
    if n != 0 {
      RowsAtRate(salts, use, pat, rho, n - 1, opts);
    }
  }

  lemma {:induction false} RowsAtPattern(salts: Salts, use: seq<Record>, pat: Pattern, n: nat, opts: Sweep)
    requires use != [] && n <= |opts.rhos| && forall i :: 0 <= i < |opts.rhos| ==> GoodRate(opts.rhos[i])
    ensures RowsFor(salts, use, opts, AtPattern(pat, opts.rhos[..n], opts.epsilons), RhoRows(salts, use, pat, n, opts))
  {
    hide RowOf, RowsFor, AtRate, EpsRows;
    if n == 0 {
      NoRows(salts, use, opts);
    } else {
      var m, rho := |opts.epsilons|, opts.rhos[n - 1];
      assert opts.rhos[..n][..n - 1] == opts.rhos[..n - 1] && opts.epsilons[..m] == opts.epsilons;
      RowsAtPattern(salts, use, pat, n - 1, opts);
      RowsAtRate(salts, use, pat, rho, m, opts);
      RowsForBoth(salts, use, opts, AtPattern(pat, opts.rhos[..n - 1], opts.epsilons), RhoRows(salts, use, pat, n - 1, opts),
                  AtRate(pat, rho, opts.epsilons), EpsRows(salts, use, pat, rho, m, opts));
    }
  }

  lemma NoRows(salts: Salts, use: seq<Record>, opts: Sweep)
    requires use != []
    ensures RowsFor(salts, use, opts, [], [])
  {
  }

  lemma {:induction false} RowsInOrder(salts: Salts, use: seq<Record>, n: nat, opts: Sweep)
    requires use != [] && n <= |opts.patterns| && forall i :: 0 <= i < |opts.rhos| ==> GoodRate(opts.rhos[i])
    ensures RowsFor(salts, use, opts, Settings(opts.patterns[..n], opts.rhos, opts.epsilons),
                    PatternRows(salts, use, n, opts))
  {
    hide RowOf, RowsFor, AtPattern, RhoRows;
    if n == 0 {
      NoRows(salts, use, opts);
    } else {
      var m, pat := |opts.rhos|, opts.patterns[n - 1];
      assert opts.patterns[..n][..n - 1] == opts.patterns[..n - 1] && opts.rhos[..m] == opts.rhos;
      RowsInOrder(salts, use, n - 1, opts);
      RowsAtPattern(salts, use, pat, m, opts);
      RowsForBoth(salts, use, opts, Settings(opts.patterns[..n - 1], opts.rhos, opts.epsilons),
                  PatternRows(salts, use, n - 1, opts), AtPattern(pat, opts.rhos, opts.epsilons),
                  RhoRows(salts, use, pat, m, opts));
    }
  }

  /** The sweep's rows are those of its settings, in their order. */
  lemma SweepRowsInOrder(salts: Salts, use: seq<Record>, opts: Sweep)
    requires use != [] && forall i :: 0 <= i < |opts.rhos| ==> GoodRate(opts.rhos[i])
    ensures RowsFor(salts, use, opts, Settings(opts.patterns, opts.rhos, opts.epsilons),
                    PatternRows(salts, use, |opts.patterns|, opts))
  {
    hide RowsFor, Settings, PatternRows;
    assert opts.patterns[..|opts.patterns|] == opts.patterns;
    RowsInOrder(salts, use, |opts.patterns|, opts);
  }

  /** The dial used when a list is left empty. */
  lemma DefaultDial(sweep: Sweep)
    ensures var opts := sweep.Effective();
      && (sweep.rhos == [] ==> opts.rhos == [0.0, 0.2, 0.4, 0.6, 0.8])
      && (sweep.epsilons == [] ==> opts.epsilons == [0.0, 0.05])
      && (sweep.patterns == [] ==> opts.patterns == [Uniform, EasyFirst])
      && (sweep.rhos != [] && sweep.epsilons != [] && sweep.patterns != [] ==> opts == sweep)
  {
  }
}
