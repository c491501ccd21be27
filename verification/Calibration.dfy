/** internal/calibrate/ltt.go: Calibrate, the Learn-then-Test grid search. */
module Calibration {
  import opened Wrappers
  import opened Policy
  import opened PValue
  import opened Grid

  datatype Method = FixedSequence | Bonferroni

  datatype Options = Options(alpha: real, delta: real, step: real, correction: Method)
  {
    /** Non-positive step and delta fall back to 0.1. */
    function Effective(): (e: Options)
      ensures 0.0 < e.step && 0.0 < e.delta
    {
      this.(step := if step <= 0.0 then 0.1 else step, delta := if delta <= 0.0 then 0.1 else delta)
    }
  }

  datatype Certificate = Certificate(
    valid: bool,
    alpha: real,
    delta: real,
    correction: Method,
    tiers: seq<string>,
    n: nat,
    nShadow: nat,
    nExcluded: nat,
    nOracleUnsound: nat,
    nOracleInconclusive: nat,
    nTimedOut: nat,
    gridSize: nat,
    thresholds: seq<real>,
    empiricalRisk: real,
    realizedRisk: real,
    pValue: real,
    expectedCost: real,
    nominal: bool)

  datatype Refusal = AllContaminated(n: nat) | AllUnsound(n: nat) | NoRecords

  datatype Result<+T> = Ok(value: T) | Err(error: Refusal)

  /** One evaluated grid point. */
  datatype Cand = Cand(tau: seq<real>, risk: real, cost: real, p: real)

  const SHADOW_MIN: nat := 30

  // ------------------------------------------------------------ the stream

  predicate Usable(r: Record) {
    !r.contaminated && !r.oracleUnsound
  }

  predicate UsableShadow(r: Record) {
    Usable(r) && r.shadow
  }

  predicate TimedOut(r: Record) {
    exists k :: 0 <= k < |r.tiers| && r.tiers[k].timedOut
  }

  function Filter(recs: seq<Record>, p: Record -> bool): (kept: seq<Record>)
    ensures |kept| == Count(recs, p)
    ensures forall r :: r in kept ==> p(r) && r in recs
  {
    if recs == [] then []
    else Filter(recs[..|recs| - 1], p)
         + if p(recs[|recs| - 1]) then [recs[|recs| - 1]] else []
  }

  predicate PrefersShadow(recs: seq<Record>) {
    SHADOW_MIN <= Count(recs, UsableShadow)
  }

  /** The records the certificate is computed on. */
  function CalibrationStream(recs: seq<Record>): seq<Record> {
    if PrefersShadow(recs) then Filter(recs, UsableShadow) else Filter(recs, Usable)
  }

  // ------------------------------------------------------------ evaluation

  function CandOf(use: seq<Record>, alpha: real, tau: seq<real>): Cand {
    Cand(tau, RiskOf(use, tau), MeanCostOf(use, tau), HoeffdingBentkus(Errors(use, tau), |use|, alpha))
  }

  function Evaluate(use: seq<Record>, alpha: real, grid: seq<seq<real>>): (eval: seq<Cand>)
    ensures |eval| == |grid|
    ensures forall i :: 0 <= i < |grid| ==> eval[i] == CandOf(use, alpha, grid[i])
  {
    seq(|grid|, i requires 0 <= i < |grid| => CandOf(use, alpha, grid[i]))
  }

  /** Length of the run of rejections at the head of the visiting order. */
  function PrefixLength(order: seq<nat>, eval: seq<Cand>, delta: real): (m: nat)
    requires Indices(order, |eval|)
    ensures m <= |order|
    ensures forall k :: 0 <= k < m ==> eval[order[k]].p <= delta
    ensures m < |order| ==> delta < eval[order[m]].p
  {
    if order == [] || delta < eval[order[0]].p then 0
    else 1 + PrefixLength(order[1..], eval, delta)
  }

  /** The first index of least cost among those listed. */
  function FirstCheapest(idxs: seq<nat>, eval: seq<Cand>): (best: Option<nat>)
    requires Indices(idxs, |eval|)
    ensures best.None? <==> idxs == []
    ensures best.Some? ==> best.value in idxs && best.value < |eval|
    ensures best.Some? ==> forall k :: 0 <= k < |idxs| ==> eval[best.value].cost <= eval[idxs[k]].cost
  {
    if idxs == [] then None
    else
      var i := idxs[|idxs| - 1];
      var best := FirstCheapest(idxs[..|idxs| - 1], eval);
      if best.None? || eval[i].cost < eval[best.value].cost then Some(i) else best
  }

  /** The indices below n that pass on their own. */
  function Passing(eval: seq<Cand>, n: nat, bar: real): (idxs: seq<nat>)
    requires n <= |eval|
    ensures Indices(idxs, n)
  {
    if n == 0 then []
    else Passing(eval, n - 1, bar) + if eval[n - 1].p <= bar then [n - 1] else []
  }

  lemma {:induction false} PassingMembers(eval: seq<Cand>, n: nat, bar: real)
    requires n <= |eval|
    ensures forall i: nat :: i in Passing(eval, n, bar) <==> i < n && eval[i].p <= bar
  {
    if n != 0 {
      PassingMembers(eval, n - 1, bar);
    }
  }

  /** slices.MinFunc by empirical risk: the first of the least. */
  function LeastRisk(eval: seq<Cand>): (i: nat)
    requires eval != []
    ensures i < |eval|
    ensures forall j :: 0 <= j < |eval| ==> eval[i].risk <= eval[j].risk
    ensures forall j :: 0 <= j < i ==> eval[i].risk < eval[j].risk
  {
    if |eval| == 1 then 0
    else
      var i := LeastRisk(eval[..|eval| - 1]);
      if eval[|eval| - 1].risk < eval[i].risk then |eval| - 1 else i
  }

  /** Which grid point is certified, if any. */
  function Selected(eval: seq<Cand>, grid: seq<seq<real>>, opts: Options): (best: Option<nat>)
    requires |eval| == |grid| && grid != []
    ensures best.Some? ==> best.value < |eval|
  {
    match opts.correction
    case Bonferroni =>
      FirstCheapest(Passing(eval, |eval|, opts.delta / |grid| as real), eval)
    case FixedSequence =>
      var order := VisitOrder(grid, |grid|);
      FirstCheapest(order[..PrefixLength(order, eval, opts.delta)], eval)
  }

  /** Every field the search leaves alone; the tiers are named last. */
  function Header(recs: seq<Record>, gridSize: nat, opts: Options): Certificate {
    var use := CalibrationStream(recs);
    Certificate(false, opts.alpha, opts.delta, opts.correction, [], |use|, Count(recs, UsableShadow), Count(recs, (r: Record) => r.contaminated),
                Count(recs, (r: Record) => !r.contaminated && r.oracleUnsound),
                Count(recs, (r: Record) => Usable(r) && r.oracleInconclusive),
                Count(use, TimedOut), gridSize, [], 0.0, 0.0, 0.0, 0.0, false)
  }

  /** flagIfNominal. */
  predicate IsNominal(realized: real, alpha: real) {
    alpha + 0.000000001 < realized
  }

  /** The certificate Calibrate issues. */
  function CertificateOf(recs: seq<Record>, nTiers: nat, options: Options): Result<Certificate> {
    var opts := options.Effective();
    var use := CalibrationStream(recs);
    if use == [] then
      if 0 < Count(recs, (r: Record) => r.contaminated) then
        Err(AllContaminated(Count(recs, (r: Record) => r.contaminated)))
      else if 0 < Count(recs, (r: Record) => !r.contaminated && r.oracleUnsound) then
        Err(AllUnsound(Count(recs, (r: Record) => !r.contaminated && r.oracleUnsound)))
      else Err(NoRecords)
    else
      var grid := GridOf(nTiers - 1, opts.step);
      var header := Header(recs, |grid|, opts);
      if grid == [] then
        Ok(header.(valid := true, empiricalRisk := RiskOf(use, []), expectedCost := MeanCostOf(use, []),
                   realizedRisk := RealizedRiskOf(use, []),
                   nominal := IsNominal(RealizedRiskOf(use, []), opts.alpha)))
      else
        var eval := Evaluate(use, opts.alpha, grid);
        var best := Selected(eval, grid, opts);
        var c := eval[if best.Some? then best.value else LeastRisk(eval)];
        var realized := RealizedRiskOf(use, c.tau);
        Ok(header.(valid := best.Some?, thresholds := c.tau, empiricalRisk := c.risk, pValue := c.p,
                   expectedCost := c.cost, realizedRisk := realized,
                   nominal := best.Some? && IsNominal(realized, opts.alpha)))
  }

  function Named(result: Result<Certificate>, tiers: seq<string>): Result<Certificate> {
    if result.Ok? then Ok(result.value.(tiers := tiers)) else result
  }

  // ------------------------------------------------------------ the search as it runs

  method Partition(recs: seq<Record>)
    returns (use: seq<Record>, excluded: nat, unsound: nat, inconclusive: nat, nShadow: nat)
    ensures use == CalibrationStream(recs) && nShadow == Count(recs, UsableShadow)
    ensures excluded == Count(recs, (r: Record) => r.contaminated)
    ensures unsound == Count(recs, (r: Record) => !r.contaminated && r.oracleUnsound)
    ensures inconclusive == Count(recs, (r: Record) => Usable(r) && r.oracleInconclusive)
  {
    excluded, unsound, inconclusive := 0, 0, 0;
    use := [];
    for i := 0 to |recs|
      invariant use == Filter(recs[..i], Usable)
      invariant excluded == Count(recs[..i], (r: Record) => r.contaminated)
      invariant unsound == Count(recs[..i], (r: Record) => !r.contaminated && r.oracleUnsound)
      invariant inconclusive == Count(recs[..i], (r: Record) => Usable(r) && r.oracleInconclusive)
    {
      Snoc(recs, i);
      var r := recs[i];
      if r.contaminated {
        excluded := excluded + 1;
        continue;
      }
      if r.oracleUnsound {
        unsound := unsound + 1;
        continue;
      }
      if r.oracleInconclusive {
        inconclusive := inconclusive + 1;
      }
      use := use + [r];
    }
    assert recs[..|recs|] == recs;
    var shadow: seq<Record> := [];
    for i := 0 to |use|
      invariant shadow == Filter(use[..i], (r: Record) => r.shadow)
    {
      Snoc(use, i);
      if use[i].shadow {
        shadow := shadow + [use[i]];
      }
    }
    assert use[..|use|] == use;
    FilterTwice(recs);
    nShadow := |shadow|;
    if SHADOW_MIN <= |shadow| {
      use := shadow;
    }
  }

  lemma {:induction false} FilterAppend(recs: seq<Record>, last: Record, p: Record -> bool)
    ensures Filter(recs + [last], p) == Filter(recs, p) + if p(last) then [last] else []
  {
    assert (recs + [last])[..|recs|] == recs;
  }

  lemma {:induction false} FilterTwice(recs: seq<Record>)
    ensures Filter(Filter(recs, Usable), (r: Record) => r.shadow) == Filter(recs, UsableShadow)
  {
    if recs != [] {
      var init, last := recs[..|recs| - 1], recs[|recs| - 1];
      FilterTwice(init);
      if Usable(last) {
        FilterAppend(Filter(init, Usable), last, (r: Record) => r.shadow);
      } else {
        assert Filter(recs, Usable) == Filter(init, Usable);
      }
    }
  }

  method CountTimedOut(recs: seq<Record>) returns (n: nat)
    ensures n == Count(recs, TimedOut)
  {
    n := 0;
    for i := 0 to |recs|
      invariant n == Count(recs[..i], TimedOut)
    {
      Snoc(recs, i);
      if exists k :: 0 <= k < |recs[i].tiers| && recs[i].tiers[k].timedOut {
        n := n + 1;
      }
    }
    assert recs[..|recs|] == recs;
  }

  method EvaluateGrid(use: seq<Record>, alpha: real, grid: seq<seq<real>>) returns (eval: seq<Cand>)
    requires use != []
    ensures eval == Evaluate(use, alpha, grid)
  {
    eval := [];
    for i := 0 to |grid|
      invariant |eval| == i
      invariant forall j :: 0 <= j < i ==> eval[j] == CandOf(use, alpha, grid[j])
    {
      var risk, cost := Risk(use, grid[i]);
      var p := HoeffdingBentkus(Errors(use, grid[i]), |use|, alpha);
      eval := eval + [Cand(grid[i], risk, cost, p)];
    }
  }

  lemma FirstCheapestSnoc(idxs: seq<nat>, i: nat, eval: seq<Cand>)
    requires Indices(idxs, |eval|) && i < |eval|
    ensures FirstCheapest(idxs + [i], eval)
         == var best := FirstCheapest(idxs, eval);
            if best.None? || eval[i].cost < eval[best.value].cost then Some(i) else best
  {
    assert (idxs + [i])[..|idxs|] == idxs;
  }

  lemma PassingStep(eval: seq<Cand>, i: nat, bar: real)
    requires i < |eval|
    ensures Passing(eval, i + 1, bar)
         == if eval[i].p <= bar then Passing(eval, i, bar) + [i] else Passing(eval, i, bar)
  {
  }

  method SearchBonferroni(eval: seq<Cand>, bar: real) returns (best: Option<nat>)
    ensures best == FirstCheapest(Passing(eval, |eval|, bar), eval)
  {
    best := None;
    for i := 0 to |eval|
      invariant best == FirstCheapest(Passing(eval, i, bar), eval)
    {
      hide FirstCheapest, Passing;
      PassingStep(eval, i, bar);
      if eval[i].p <= bar {
        FirstCheapestSnoc(Passing(eval, i, bar), i, eval);
        if best.None? || eval[i].cost < eval[best.value].cost {
          best := Some(i);
        }
      }
    }
  }

  lemma {:induction false} PrefixLengthFrom(order: seq<nat>, eval: seq<Cand>, delta: real, k: nat)
    requires Indices(order, |eval|) && k <= |order|
    requires forall j :: 0 <= j < k ==> eval[order[j]].p <= delta
    requires k < |order| ==> delta < eval[order[k]].p
    ensures PrefixLength(order, eval, delta) == k
  {
    if k != 0 {
      PrefixLengthFrom(order[1..], eval, delta, k - 1);
    }
  }

  /** Walk the order, stopping at the first failure to reject. */
  method SearchFixedSequence(eval: seq<Cand>, order: seq<nat>, delta: real) returns (best: Option<nat>)
    requires Indices(order, |eval|)
    ensures best == FirstCheapest(order[..PrefixLength(order, eval, delta)], eval)
  {
    best := None;
    for k := 0 to |order|
      invariant forall j :: 0 <= j < k ==> eval[order[j]].p <= delta
      invariant best == FirstCheapest(order[..k], eval)
    {
      var idx := order[k];
      if eval[idx].p > delta {
        PrefixLengthFrom(order, eval, delta, k);
        return;
      }
      assert order[..k + 1][..k] == order[..k];
      if best.None? || eval[idx].cost < eval[best.value].cost {
        best := Some(idx);
      }
    }
    PrefixLengthFrom(order, eval, delta, |order|);
  }

  method FindLeastRisk(eval: seq<Cand>) returns (i: nat)
    requires eval != []
    ensures i == LeastRisk(eval)
  {
    i := 0;
    for j := 1 to |eval|
      invariant i < j && i == LeastRisk(eval[..j])
    {
      assert eval[..j + 1][..j] == eval[..j];
      if eval[j].risk < eval[i].risk {
        i := j;
      }
    }
    assert eval[..|eval|] == eval;
  }

  method Calibrate(recs: seq<Record>, tiers: seq<string>, options: Options)
    returns (result: Result<Certificate>)
    ensures result == Named(CertificateOf(recs, |tiers|, options), tiers)
  {
    var opts := options.Effective();
    var use, excluded, unsound, inconclusive, nShadow := Partition(recs);
    if |use| == 0 {
      if excluded > 0 {
        return Err(AllContaminated(excluded));
      }
      if unsound > 0 {
        return Err(AllUnsound(unsound));
      }
      return Err(NoRecords);
    }
    var grid := BuildGrid(|tiers| - 1, opts.step);
    var timedOut := CountTimedOut(use);
    var cert := Certificate(false, opts.alpha, opts.delta, opts.correction, tiers, |use|, nShadow, excluded, unsound, inconclusive, timedOut,
                            |grid|, [], 0.0, 0.0, 0.0, 0.0, false);
    if |grid| == 0 {
      var risk, cost := Risk(use, []);
      var realized := RealizedRisk(use, []);
      return Ok(cert.(valid := true, empiricalRisk := risk, expectedCost := cost,
                      realizedRisk := realized, nominal := IsNominal(realized, opts.alpha)));
    }
    var eval := EvaluateGrid(use, opts.alpha, grid);
    var best: Option<nat>;
    match opts.correction {
      case Bonferroni => best := SearchBonferroni(eval, opts.delta / |grid| as real);
      case FixedSequence => best := SearchFixedSequence(eval, VisitOrder(grid, |grid|), opts.delta);
    }
    if best.None? {
      var i := FindLeastRisk(eval);
      var realized := RealizedRisk(use, eval[i].tau);
      return Ok(cert.(thresholds := eval[i].tau, empiricalRisk := eval[i].risk, pValue := eval[i].p,
                      expectedCost := eval[i].cost, realizedRisk := realized));
    }
    var c := eval[best.value];
    var realized := RealizedRisk(use, c.tau);
    return Ok(cert.(valid := true, thresholds := c.tau, empiricalRisk := c.risk, pValue := c.p,
                    expectedCost := c.cost, realizedRisk := realized,
                    nominal := IsNominal(realized, opts.alpha)));
  }
}
