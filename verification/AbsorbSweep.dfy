/** internal/calibrate/absorb.go: the sweep itself, one row per pattern, absorption
    rate and shadow rate. */
module AbsorbSweep {
  import opened Policy
  import opened Powers
  import opened PValue
  import opened Calibration
  import opened Absorb
  import opened Search

  // ------------------------------------------------------------ the shadow draw

  /** At least one record, and the expected count rather than coin flips. */
  function ShadowSize(eps: real, n: nat): (want: nat)
    requires 0.0 <= eps < 1.0 && 0 < n
    ensures 1 <= want <= n
  {
    RoundBelow(eps, n);
    if Round(eps * n as real) < 1 then 1 else Round(eps * n as real)
  }

  lemma RoundBelow(eps: real, n: nat)
    requires 0.0 <= eps < 1.0
    ensures Round(eps * n as real) <= n
  {
    ScaleLe(n as real, eps, 1.0);
    var x := eps * n as real;
    assert x <= n as real;
    RoundMonotone(x, n as real);
    assert Round(n as real) == n;
  }

  function DrawKey(salts: Salts, opts: Sweep, eps: real, pat: Pattern, rho: real): bv64 {
    opts.seed ^ salts.bits(eps) ^ salts.bits(rho) ^ salts.hash(pat)
  }

  /** The drawn positions. */
  function ShadowPositions(n: nat, eps: real, key: bv64): (ps: seq<nat>)
    requires 0.0 < eps && 0 < n
  {
    if 1.0 <= eps then Identity(n) else PermutationOf(n, key)[..ShadowSize(eps, n)]
  }

  /** A shadow draw is a sub-multiset of the residual; from rate 1 on it is all
      of it. */
  lemma ShadowIsASubset(n: nat, eps: real, key: bv64)
    requires 0.0 < eps && 0 < n
    ensures Picks(ShadowPositions(n, eps, key), n)
    ensures |ShadowPositions(n, eps, key)| == if 1.0 <= eps then n else ShadowSize(eps, n)
  {
    hide PermutationOf;
    PermutationIsBijection(n, key);
  }

  function ShadowStream(residual: seq<Record>, eps: real, key: bv64): (xs: seq<Record>)
    requires 0.0 < eps && residual != []
    ensures forall i :: 0 <= i < |xs| ==> xs[i] in residual
    ensures 1.0 <= eps ==> xs == residual
  {
    ShadowIsASubset(|residual|, eps, key);
    At(residual, ShadowPositions(|residual|, eps, key))
  }

  method ShadowDraw(residual: seq<Record>, eps: real, key: bv64) returns (out: seq<Record>)
    requires 0.0 < eps && residual != []
    ensures out == ShadowStream(residual, eps, key)
  {
    hide PermutationOf;
    if 1.0 <= eps {
      return residual;
    }
    var want := ShadowSize(eps, |residual|);
    var idx := Permutation(|residual|, key);
    ShadowIsASubset(|residual|, eps, key);
    assert idx[..want] == ShadowPositions(|residual|, eps, key);
    out := [];
    for i := 0 to want
      invariant |out| == i && forall k :: 0 <= k < i ==> out[k] == residual[ShadowPositions(|residual|, eps, key)[k]]
    {
      assert idx[i] == idx[..want][i];
      out := out + [residual[idx[i]]];
    }
  }

  // ------------------------------------------------------------ the flags

  function Stripped(r: Record): Record {
    r.(shadow := false)
  }

  function StripAll(recs: seq<Record>): (out: seq<Record>)
    ensures |out| == |recs| && forall i :: 0 <= i < |recs| ==> out[i] == Stripped(recs[i])
  {
    seq(|recs|, i requires 0 <= i < |recs| => Stripped(recs[i]))
  }

  lemma StripSnoc(recs: seq<Record>)
    requires recs != []
    ensures StripAll(recs)[..|recs| - 1] == StripAll(recs[..|recs| - 1])
  {
  }

  lemma {:induction false} FilterKeepsAll(xs: seq<Record>)
    requires forall i :: 0 <= i < |xs| ==> Usable(xs[i]) && !xs[i].shadow
    ensures Filter(xs, Usable) == xs
    ensures Count(xs, UsableShadow) == 0
  {
    if xs != [] {
      FilterKeepsAll(xs[..|xs| - 1]);
      assert xs == xs[..|xs| - 1] + [xs[|xs| - 1]];
    }
  }

  /** Without flags the calibrator uses exactly the stream it is handed. */
  lemma StripForcesTheStream(recs: seq<Record>)
    requires forall i :: 0 <= i < |recs| ==> Usable(recs[i])
    ensures CalibrationStream(StripAll(recs)) == StripAll(recs)
  {
    hide Filter, Count;
    forall i | 0 <= i < |recs|
      ensures Usable(StripAll(recs)[i])
    {
      assert Usable(recs[i]);
    }
    FilterKeepsAll(StripAll(recs));
  }

  /** The flag reaches neither risk. */
  lemma {:induction false} StripKeepsRisks(recs: seq<Record>, tau: seq<real>)
    ensures Errors(StripAll(recs), tau) == Errors(recs, tau)
    ensures RiskOf(StripAll(recs), tau) == RiskOf(recs, tau)
  {
    if recs != [] {
      StripKeepsRisks(recs[..|recs| - 1], tau);
      StripSnoc(recs);
    }
  }

  // ------------------------------------------------------------ one row

  /** Fewer records than any certificate at these levels needs. */
  predicate Underpowered(n: nat, ltt: Options) {
    0.0 < ltt.alpha < 1.0 && 0.0 < ltt.delta < 1.0 && ltt.delta < Pow(1.0 - ltt.alpha, n)
  }

  lemma UnderpoweredIsBelowFloor(n: nat, ltt: Options)
    ensures Underpowered(n, ltt) <==> n < MinCalibrationSize(ltt.alpha, ltt.delta)
  {
    if 0.0 < ltt.alpha < 1.0 && 0.0 < ltt.delta < 1.0 {
      var floor := MinCalibrationSize(ltt.alpha, ltt.delta);
      assert IsFloor(ltt.alpha, ltt.delta, floor);
      if n < floor {
        assert !Reaches(ltt.alpha, ltt.delta, n);
      } else {
        PowAntitone(1.0 - ltt.alpha, floor, n);
      }
    }
  }

  function CalStream(salts: Salts, use: seq<Record>, residual: seq<Record>, pat: Pattern, rho: real, eps: real,
                     opts: Sweep): seq<Record>
    requires residual != []
  {
    if 0.0 < eps then ShadowStream(residual, eps, DrawKey(salts, opts, eps, pat, rho)) else use
  }

  function RowOf(salts: Salts, use: seq<Record>, pat: Pattern, rho: real, eps: real, opts: Sweep): Row
    requires 0.0 <= rho && use != []
  {
    var residual := Residual(salts, use, pat, rho, opts);
    var bare := Row(pat, rho, eps, |residual|, 0, 0, Tier0Accuracy(use), Tier0Accuracy(residual),
                    0.0, 0.0, 0.0, false, [], false);
    if |residual| < 2 then bare
    else
      var cal := CalStream(salts, use, residual, pat, rho, eps, opts);
      var row := bare.(nShadow := if 0.0 < eps then |cal| else 0, nCalibration := |cal|,
                       underpowered := Underpowered(|cal|, opts.ltt));
      if |cal| < 2 then row
      else
        match CertificateOf(StripAll(cal), |opts.tiers|, opts.ltt)
        case Err(_) => row
        case Ok(cert) =>
          var deployed := RealizedRiskOf(residual, cert.thresholds);
          row.(certified := cert.valid, thresholds := cert.thresholds, calibratedRisk := cert.empiricalRisk,
               deployedRisk := deployed, riskGap := deployed - cert.empiricalRisk)
  }

  method Measure(recs: seq<Record>) returns (accuracy: real)
    ensures accuracy == Tier0Accuracy(recs)
  {
    if |recs| == 0 {
      return 0.0;
    }
    var ok := 0.0;
    for i := 0 to |recs|
      invariant ok == Count(recs[..i], Tier0Correct) as real
    {
      Snoc(recs, i);
      if Tier0Correct(recs[i]) {
        ok := ok + 1.0;
      }
    }
    assert recs[..|recs|] == recs;
    return ok / |recs| as real;
  }

  method MakeRow(salts: Salts, use: seq<Record>, residual: seq<Record>, baseline: real, pat: Pattern, rho: real,
                 eps: real, opts: Sweep)
    returns (row: Row)
    requires 0.0 <= rho && use != [] && residual == Residual(salts, use, pat, rho, opts)
    requires baseline == Tier0Accuracy(use)
    ensures row == RowOf(salts, use, pat, rho, eps, opts)
  {
    hide Residual, CertificateOf, ShadowStream, RealizedRiskOf, Tier0Accuracy, Underpowered, DrawKey;
    var accuracy := Measure(residual);
    row := Row(pat, rho, eps, |residual|, 0, 0, baseline, accuracy, 0.0, 0.0, 0.0, false, [], false);
    if |residual| < 2 {
      return;
    }
    var cal := use;
    if 0.0 < eps {
      cal := ShadowDraw(residual, eps, DrawKey(salts, opts, eps, pat, rho));
      row := row.(nShadow := |cal|);
    }
    row := row.(nCalibration := |cal|, underpowered := Underpowered(|cal|, opts.ltt));
    if |cal| < 2 {
      return;
    }
    var result := Calibrate(StripAll(cal), opts.tiers, opts.ltt);
    if result.Err? {
      return;
    }
    var cert := result.value;
    var deployed := RealizedRisk(residual, cert.thresholds);
    row := row.(certified := cert.valid, thresholds := cert.thresholds, calibratedRisk := cert.empiricalRisk,
                deployedRisk := deployed, riskGap := deployed - cert.empiricalRisk);
  }

  // ------------------------------------------------------------ the sweep

  datatype Failure = NoUsableRecords(n: nat) | NoTiers | BadRate(rho: real)

  datatype Rows = Rows(rows: seq<Row>) | Failed(why: Failure)

  function EpsRows(salts: Salts, use: seq<Record>, pat: Pattern, rho: real, n: nat, opts: Sweep): seq<Row>
    requires 0.0 <= rho && use != [] && n <= |opts.epsilons|
  {
    if n == 0 then []
    else EpsRows(salts, use, pat, rho, n - 1, opts) + [RowOf(salts, use, pat, rho, opts.epsilons[n - 1], opts)]
  }

  ghost predicate GoodRate(rho: real) {
    0.0 <= rho < 1.0
  }

  function RhoRows(salts: Salts, use: seq<Record>, pat: Pattern, n: nat, opts: Sweep): seq<Row>
    requires use != [] && n <= |opts.rhos| && forall i :: 0 <= i < n ==> GoodRate(opts.rhos[i])
  {
    if n == 0 then []
    else
      assert GoodRate(opts.rhos[n - 1]);
      RhoRows(salts, use, pat, n - 1, opts) + EpsRows(salts, use, pat, opts.rhos[n - 1], |opts.epsilons|, opts)
  }

  function PatternRows(salts: Salts, use: seq<Record>, n: nat, opts: Sweep): seq<Row>
    requires use != [] && n <= |opts.patterns|
    requires forall i :: 0 <= i < |opts.rhos| ==> GoodRate(opts.rhos[i])
  {
    if n == 0 then []
    else PatternRows(salts, use, n - 1, opts) + RhoRows(salts, use, opts.patterns[n - 1], |opts.rhos|, opts)
  }

  ghost predicate FirstBadRate(rhos: seq<real>, rho: real) {
    exists i :: 0 <= i < |rhos| && rhos[i] == rho && !GoodRate(rho) && forall j :: 0 <= j < i ==> GoodRate(rhos[j])
  }

  method SweepRates(salts: Salts, use: seq<Record>, baseline: real, pat: Pattern, opts: Sweep) returns (r: Rows)
    requires use != [] && baseline == Tier0Accuracy(use)
    ensures r.Rows? <==> forall i :: 0 <= i < |opts.rhos| ==> GoodRate(opts.rhos[i])
    ensures r.Rows? ==> r.rows == RhoRows(salts, use, pat, |opts.rhos|, opts)
    ensures r.Failed? ==> r.why.BadRate? && FirstBadRate(opts.rhos, r.why.rho)
  {
    hide RowOf, Tier0Accuracy, Residual;
    var out: seq<Row> := [];
    for k := 0 to |opts.rhos|
      invariant forall i :: 0 <= i < k ==> GoodRate(opts.rhos[i])
      invariant out == RhoRows(salts, use, pat, k, opts)
    {
      var rho := opts.rhos[k];
      var residual := AbsorbStream(salts, use, pat, rho, opts);
      if residual.None? {
        assert FirstBadRate(opts.rhos, rho);
        return Failed(BadRate(rho));
      }
      ghost var before := out;
      for e := 0 to |opts.epsilons|
        invariant out == before + EpsRows(salts, use, pat, rho, e, opts)
      {
        var row := MakeRow(salts, use, residual.value, baseline, pat, rho, opts.epsilons[e], opts);
        out := out + [row];
      }
    }
    return Rows(out);
  }

  method SweepAbsorption(salts: Salts, recs: seq<Record>, sweep: Sweep) returns (r: Rows)
    ensures var use, opts := Filter(recs, Usable), sweep.Effective();
      if use == [] then r == Failed(NoUsableRecords(|recs|))
      else if opts.tiers == [] then r == Failed(NoTiers)
      else if forall i :: 0 <= i < |opts.rhos| ==> GoodRate(opts.rhos[i]) then
        r == Rows(PatternRows(salts, use, |opts.patterns|, opts))
      else r.Failed? && r.why.BadRate? && FirstBadRate(opts.rhos, r.why.rho)
  {
    hide RowOf, Tier0Accuracy, Residual, RhoRows;
    var use: seq<Record> := [];
    for i := 0 to |recs|
      invariant use == Filter(recs[..i], Usable)
    {
      Snoc(recs, i);
      if recs[i].contaminated || recs[i].oracleUnsound {
        continue;
      }
      use := use + [recs[i]];
    }
    assert recs[..|recs|] == recs;
    if |use| == 0 {
      return Failed(NoUsableRecords(|recs|));
    }
    var opts := sweep.Effective();
    if |opts.tiers| == 0 {
      return Failed(NoTiers);
    }
    var baseline := Measure(use);
    var out: seq<Row> := [];
    for k := 0 to |opts.patterns|
      invariant 0 < k ==> forall i :: 0 <= i < |opts.rhos| ==> GoodRate(opts.rhos[i])
      invariant 0 < k ==> out == PatternRows(salts, use, k, opts)
      invariant k == 0 ==> out == []
    {
      var rates := SweepRates(salts, use, baseline, opts.patterns[k], opts);
      if rates.Failed? {
        return rates;
      }
      out := out + rates.rows;
    }
    return Rows(out);
  }

  // ------------------------------------------------------------ what a row says

  lemma ResidualIsUsable(salts: Salts, use: seq<Record>, pat: Pattern, rho: real, opts: Sweep)
    requires 0.0 <= rho && use != [] && forall i :: 0 <= i < |use| ==> Usable(use[i])
    ensures forall x :: x in Residual(salts, use, pat, rho, opts) ==> Usable(x) && x in use
  {
    var xs := Residual(salts, use, pat, rho, opts);
    forall x | x in xs
      ensures Usable(x) && x in use
    {
      var i :| 0 <= i < |xs| && xs[i] == x;
    }
  }

  /** The certificate's empirical risk is the risk of its thresholds on the stream
      it was given, certified or not. */
  lemma CertificateReportsItsRisk(recs: seq<Record>, nTiers: nat, options: Options)
    ensures CertificateOf(recs, nTiers, options).Ok? ==>
      var cert := CertificateOf(recs, nTiers, options).value;
      cert.empiricalRisk == RiskOf(CalibrationStream(recs), cert.thresholds)
  {
    hide RiskOf, RealizedRiskOf, MeanCostOf, CalibrationStream, Count, Selected;
  }

  /** With the shadow rate at 1 or more a row compares one stream with itself. */
  lemma FullShadowRow(salts: Salts, use: seq<Record>, pat: Pattern, rho: real, eps: real, opts: Sweep)
    requires 0.0 <= rho && use != [] && 1.0 <= eps && forall i :: 0 <= i < |use| ==> Usable(use[i])
    ensures var row, xs := RowOf(salts, use, pat, rho, eps, opts), Residual(salts, use, pat, rho, opts);
      && (2 <= |xs| ==> row.riskGap == RealizedRiskOf(xs, row.thresholds) - RiskOf(xs, row.thresholds))
      && (|xs| < 2 ==> row.riskGap == 0.0)
  {
    hide CertificateOf, RiskOf, RealizedRiskOf, Tier0Accuracy, Underpowered, Residual, Count, ShadowStream, DrawKey;
    var xs := Residual(salts, use, pat, rho, opts);
    if 2 <= |xs| {
      ResidualIsUsable(salts, use, pat, rho, opts);
      StripForcesTheStream(xs);
      StreamCertifies(StripAll(xs), |opts.tiers|, opts.ltt);
      CertificateReportsItsRisk(StripAll(xs), |opts.tiers|, opts.ltt);
      StripKeepsRisks(xs, CertificateOf(StripAll(xs), |opts.tiers|, opts.ltt).value.thresholds);
    }
  }

  /** So its gap is exactly the oracle's noise: accepted false passes minus
      accepted false failures, over n. */
  lemma FullShadowGapIsOracleNoise(salts: Salts, use: seq<Record>, pat: Pattern, rho: real, eps: real, opts: Sweep)
    requires 0.0 <= rho && use != [] && 1.0 <= eps && forall i :: 0 <= i < |use| ==> Usable(use[i])
    ensures var row, xs := RowOf(salts, use, pat, rho, eps, opts), Residual(salts, use, pat, rho, opts);
      2 <= |xs| ==>
        row.riskGap == (Count(xs, (r: Record) => FalsePass(r, row.thresholds)) as real
                        - Count(xs, (r: Record) => FalseFailure(r, row.thresholds)) as real) / |xs| as real
  {
    hide RowOf, RiskOf, RealizedRiskOf, Residual, Count, FalsePass, FalseFailure;
    var row, xs := RowOf(salts, use, pat, rho, eps, opts), Residual(salts, use, pat, rho, opts);
    FullShadowRow(salts, use, pat, rho, eps, opts);
    if 2 <= |xs| {
      RiskGapIsOracleNoise(xs, row.thresholds);
    }
  }

  lemma StreamCertifies(recs: seq<Record>, nTiers: nat, options: Options)
    requires CalibrationStream(recs) != []
    ensures CertificateOf(recs, nTiers, options).Ok?
  {
    hide RiskOf, RealizedRiskOf, MeanCostOf, Count, Selected, CalibrationStream;
  }

  /** Hence 0 when the labels are sound, whether or not a certificate issued. */
  lemma FullShadowGapIsZeroWhenSound(salts: Salts, use: seq<Record>, pat: Pattern, rho: real, eps: real, opts: Sweep)
    requires 0.0 <= rho && use != [] && 1.0 <= eps && forall i :: 0 <= i < |use| ==> Usable(use[i])
    requires forall r :: r in use ==> SoundOracle(r)
    ensures RowOf(salts, use, pat, rho, eps, opts).riskGap == 0.0
  {
    hide RowOf, RiskOf, RealizedRiskOf, Residual, SoundOracle;
    var row, xs := RowOf(salts, use, pat, rho, eps, opts), Residual(salts, use, pat, rho, opts);
    FullShadowRow(salts, use, pat, rho, eps, opts);
    ResidualIsUsable(salts, use, pat, rho, opts);
    SoundOracleHasNoGap(xs, row.thresholds);
  }

  /** A row flagged underpowered is never a certified one. */
  lemma UnderpoweredRowIsNeverCertified(salts: Salts, use: seq<Record>, pat: Pattern, rho: real, eps: real, opts: Sweep)
    requires 0.0 <= rho && use != [] && forall i :: 0 <= i < |use| ==> Usable(use[i])
    requires 2 <= |opts.tiers| && TINY < opts.ltt.alpha < 1.0 - TINY
    ensures RowOf(salts, use, pat, rho, eps, opts).underpowered ==>
            !RowOf(salts, use, pat, rho, eps, opts).certified
  {
    hide CertificateOf, RiskOf, RealizedRiskOf, Tier0Accuracy, Residual, Underpowered, CalStream, Count, MinCalibrationSize;
    var xs := Residual(salts, use, pat, rho, opts);
    var cal := CalStream(salts, use, xs, pat, rho, eps, opts);
    if 2 <= |xs| && 2 <= |cal| && Underpowered(|cal|, opts.ltt) {
      CalStreamIsUsable(salts, use, pat, rho, eps, opts);
      StripForcesTheStream(cal);
      UnderpoweredIsBelowFloor(|cal|, opts.ltt);
      DeltaKept(|cal|, opts.ltt);
      StreamCertifies(StripAll(cal), |opts.tiers|, opts.ltt);
      NothingCertifiesBelowTheFloor(StripAll(cal), |opts.tiers|, opts.ltt);
    }
  }

  lemma DeltaKept(n: nat, ltt: Options)
    requires Underpowered(n, ltt)
    ensures ltt.Effective().delta == ltt.delta < 1.0
  {
  }

  lemma CalStreamIsUsable(salts: Salts, use: seq<Record>, pat: Pattern, rho: real, eps: real, opts: Sweep)
    requires 0.0 <= rho && use != [] && forall i :: 0 <= i < |use| ==> Usable(use[i])
    ensures var cal := CalStream(salts, use, Residual(salts, use, pat, rho, opts), pat, rho, eps, opts);
      forall i :: 0 <= i < |cal| ==> Usable(cal[i])
  {
    hide PermutationOf, Residual, Kept;
    ResidualIsUsable(salts, use, pat, rho, opts);
    var xs := Residual(salts, use, pat, rho, opts);
    if 0.0 < eps {
      ShadowIsASubset(|xs|, eps, DrawKey(salts, opts, eps, pat, rho));
    }
  }
}
