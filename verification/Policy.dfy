/** internal/calibrate/ltt.go, baseline.go, selfconsistency.go: the routing walk
    over profiled records, and the four loops that each carry a copy of it. */
module Policy {
  import opened Wrappers

  /** What one tier did on one calibration problem. */
  datatype TierObs = TierObs(
    tier: string,
    score: real,
    correct: bool,
    trueCorrect: Option<bool>,
    cost: real,
    timedOut: bool)
  {
    /** Execution truth when recorded, otherwise the oracle's verdict. */
    predicate Truth() {
      if trueCorrect.Some? then trueCorrect.value else correct
    }

    predicate Disagrees() {
      trueCorrect.Some? && correct != trueCorrect.value
    }
  }

  datatype Record = Record(
    id: string,
    tiers: seq<TierObs>,
    cacheHit: bool,
    cacheCorrect: bool,
    cacheCost: real,
    contaminated: bool,
    oracleUnsound: bool,
    oracleInconclusive: bool,
    shadow: bool)

  datatype Outcome = Outcome(correct: bool, cost: real, acceptedAt: string)

  /** The acceptance rule at tier k: the last tier always accepts. */
  predicate StopsAt(tiers: seq<TierObs>, tau: seq<real>, k: nat)
    requires k < |tiers|
  {
    k == |tiers| - 1 || (k < |tau| && tau[k] <= tiers[k].score)
  }

  /** The first tier at or after k that accepts. */
  function StopFrom(tiers: seq<TierObs>, tau: seq<real>, k: nat): (stop: nat)
    requires k < |tiers|
    ensures k <= stop < |tiers| && StopsAt(tiers, tau, stop)
    ensures forall j :: k <= j < stop ==> !StopsAt(tiers, tau, j)
    decreases |tiers| - k
  {
    if StopsAt(tiers, tau, k) then k else StopFrom(tiers, tau, k + 1)
  }

  function Stop(tiers: seq<TierObs>, tau: seq<real>): (stop: nat)
    requires tiers != []
    ensures stop < |tiers| && StopsAt(tiers, tau, stop)
    ensures forall j :: 0 <= j < stop ==> !StopsAt(tiers, tau, j)
  {
    StopFrom(tiers, tau, 0)
  }

  lemma StopIsUnique(tiers: seq<TierObs>, tau: seq<real>, k: nat)
    requires k < |tiers| && StopsAt(tiers, tau, k)
    requires forall j :: 0 <= j < k ==> !StopsAt(tiers, tau, j)
    ensures Stop(tiers, tau) == k
  {
    assert StopsAt(tiers, tau, Stop(tiers, tau));
  }

  /** Cost of the first n tiers. */
  function Spend(tiers: seq<TierObs>, n: nat): real
    requires n <= |tiers|
  {
    if n == 0 then 0.0 else Spend(tiers, n - 1) + tiers[n - 1].cost
  }

  /** The policy tau on one record. */
  function ReplayOf(r: Record, tau: seq<real>): Outcome {
    if r.cacheHit then Outcome(r.cacheCorrect, r.cacheCost, "cache")
    else if r.tiers == [] then Outcome(false, 0.0, "exhausted")
    else
      var k := Stop(r.tiers, tau);
      Outcome(r.tiers[k].correct, Spend(r.tiers, k + 1), r.tiers[k].tier)
  }

  predicate WrongUnder(r: Record, tau: seq<real>) {
    !ReplayOf(r, tau).correct
  }

  /** Ground truth of whatever the policy accepted. */
  predicate TrulyWrongUnder(r: Record, tau: seq<real>) {
    if r.cacheHit then !r.cacheCorrect
    else r.tiers == [] || !r.tiers[Stop(r.tiers, tau)].Truth()
  }

  // ------------------------------------------------------------ sums over records

  function Count(recs: seq<Record>, p: Record -> bool): (c: nat)
    ensures c <= |recs|
  {
    if recs == [] then 0
    else Count(recs[..|recs| - 1], p) + if p(recs[|recs| - 1]) then 1 else 0
  }

  function Total(recs: seq<Record>, f: Record -> real): real {
    if recs == [] then 0.0
    else Total(recs[..|recs| - 1], f) + f(recs[|recs| - 1])
  }

  function Errors(recs: seq<Record>, tau: seq<real>): nat {
    Count(recs, (r: Record) => WrongUnder(r, tau))
  }

  function TrueErrors(recs: seq<Record>, tau: seq<real>): nat {
    Count(recs, (r: Record) => TrulyWrongUnder(r, tau))
  }

  function CostOf(recs: seq<Record>, tau: seq<real>): real {
    Total(recs, (r: Record) => ReplayOf(r, tau).cost)
  }

  function RiskOf(recs: seq<Record>, tau: seq<real>): real {
    if recs == [] then 1.0 else Errors(recs, tau) as real / |recs| as real
  }

  function MeanCostOf(recs: seq<Record>, tau: seq<real>): real {
    if recs == [] then 0.0 else CostOf(recs, tau) / |recs| as real
  }

  function RealizedRiskOf(recs: seq<Record>, tau: seq<real>): real {
    if recs == [] then 1.0 else TrueErrors(recs, tau) as real / |recs| as real
  }

  lemma Snoc<T>(xs: seq<T>, i: nat)
    requires i < |xs|
    ensures xs[..i + 1] == xs[..i] + [xs[i]]
    ensures xs[..i + 1][..i] == xs[..i]
  {
  }

  // ------------------------------------------------------------ the loops

  method Replay(r: Record, tau: seq<real>) returns (o: Outcome)
    ensures o == ReplayOf(r, tau)
  {
    if r.cacheHit {
      return Outcome(r.cacheCorrect, r.cacheCost, "cache");
    }
    var cost := 0.0;
    for k := 0 to |r.tiers|
      invariant cost == Spend(r.tiers, k)
      invariant forall j :: 0 <= j < k ==> !StopsAt(r.tiers, tau, j)
    {
      var t := r.tiers[k];
      cost := cost + t.cost;
      var last := k == |r.tiers| - 1;
      if last || (k < |tau| && t.score >= tau[k]) {
        StopIsUnique(r.tiers, tau, k);
        return Outcome(t.correct, cost, t.tier);
      }
    }
    return Outcome(false, cost, "exhausted");
  }

  method ReplayTruth(r: Record, tau: seq<real>) returns (ok: bool)
    ensures ok == !TrulyWrongUnder(r, tau)
  {
    if r.cacheHit {
      return r.cacheCorrect;
    }
    for k := 0 to |r.tiers|
      invariant forall j :: 0 <= j < k ==> !StopsAt(r.tiers, tau, j)
    {
      var t := r.tiers[k];
      var last := k == |r.tiers| - 1;
      if last || (k < |tau| && t.score >= tau[k]) {
        StopIsUnique(r.tiers, tau, k);
        return t.Truth();
      }
    }
    return false;
  }

  /** selfconsistency.go: what the cascade spends on one problem. */
  method CascadeSpend(r: Record, tau: seq<real>) returns (cost: real)
    ensures cost == if r.tiers == [] then 0.0 else Spend(r.tiers, Stop(r.tiers, tau) + 1)
  {
    cost := 0.0;
    var last := |r.tiers| - 1;
    for k := 0 to |r.tiers|
      invariant cost == Spend(r.tiers, k)
      invariant forall j :: 0 <= j < k ==> !StopsAt(r.tiers, tau, j)
    {
      cost := cost + r.tiers[k].cost;
      if k == last || (k < |tau| && r.tiers[k].score >= tau[k]) {
        StopIsUnique(r.tiers, tau, k);
        return;
      }
    }
  }

  method Risk(recs: seq<Record>, tau: seq<real>) returns (risk: real, cost: real)
    ensures risk == RiskOf(recs, tau) && cost == MeanCostOf(recs, tau)
  {
    if |recs| == 0 {
      return 1.0, 0.0;
    }
    var bad, total := 0, 0.0;
    for i := 0 to |recs|
      invariant bad == Errors(recs[..i], tau) && total == CostOf(recs[..i], tau)
    {
      Snoc(recs, i);
      var o := Replay(recs[i], tau);
      if !o.correct {
        bad := bad + 1;
      }
      total := total + o.cost;
    }
    assert recs[..|recs|] == recs;
    return bad as real / |recs| as real, total / |recs| as real;
  }

  method RealizedRisk(recs: seq<Record>, tau: seq<real>) returns (risk: real)
    ensures risk == RealizedRiskOf(recs, tau)
  {
    if |recs| == 0 {
      return 1.0;
    }
    var bad := 0;
    for i := 0 to |recs|
      invariant bad == TrueErrors(recs[..i], tau)
    {
      Snoc(recs, i);
      var ok := ReplayTruth(recs[i], tau);
      if !ok {
        bad := bad + 1;
      }
    }
    assert recs[..|recs|] == recs;
    return bad as real / |recs| as real;
  }

  // ------------------------------------------------------------ baselines

  predicate OnModelPath(r: Record) {
    !r.cacheHit && r.tiers != []
  }

  /** One routing strategy's measured cost and correctness. */
  datatype Arm = Arm(risk: real, meanUsd: real, n: nat)

  function MkArm(bad: nat, cost: real, n: nat): Arm {
    if n == 0 then Arm(0.0, 0.0, 0) else Arm(bad as real / n as real, cost / n as real, n)
  }

  function ModelRecords(recs: seq<Record>): seq<Record> {
    if recs == [] then []
    else ModelRecords(recs[..|recs| - 1])
         + if OnModelPath(recs[|recs| - 1]) then [recs[|recs| - 1]] else []
  }

  /** The two single-tier policies, as predicates on a record with tiers. */
  predicate FirstTierWrong(r: Record) {
    r.tiers == [] || !r.tiers[0].Truth()
  }

  predicate LastTierWrong(r: Record) {
    r.tiers == [] || !r.tiers[|r.tiers| - 1].Truth()
  }

  function FirstTierCost(r: Record): real {
    if r.tiers == [] then 0.0 else r.tiers[0].cost
  }

  function LastTierCost(r: Record): real {
    if r.tiers == [] then 0.0 else r.tiers[|r.tiers| - 1].cost
  }

  lemma ModelRecordsStep(recs: seq<Record>, i: nat)
    requires i < |recs|
    ensures ModelRecords(recs[..i + 1])
         == if OnModelPath(recs[i]) then ModelRecords(recs[..i]) + [recs[i]] else ModelRecords(recs[..i])
  {
    Snoc(recs, i);
  }

  /** One arm's three running counters. */
  datatype Tally = Tally(n: nat, bad: nat, cost: real)
  {
    function Add(ok: bool, spent: real): Tally {
      Tally(n + 1, bad + (if ok then 0 else 1), cost + spent)
    }

    function Arm(): Arm {
      MkArm(bad, cost, n)
    }
  }

  function TallyOf(use: seq<Record>, wrong: Record -> bool, cost: Record -> real): Tally {
    Tally(|use|, Count(use, wrong), Total(use, cost))
  }

  lemma TallySnoc(use: seq<Record>, r: Record, wrong: Record -> bool, cost: Record -> real)
    ensures TallyOf(use + [r], wrong, cost) == TallyOf(use, wrong, cost).Add(!wrong(r), cost(r))
  {
    assert (use + [r])[..|use|] == use;
  }

  function CascadeTally(use: seq<Record>, tau: seq<real>): Tally {
    TallyOf(use, (r: Record) => TrulyWrongUnder(r, tau), (r: Record) => ReplayOf(r, tau).cost)
  }

  lemma CascadeTallySnoc(use: seq<Record>, r: Record, tau: seq<real>)
    requires OnModelPath(r)
    ensures CascadeTally(use + [r], tau)
         == CascadeTally(use, tau).Add(r.tiers[Stop(r.tiers, tau)].Truth(), Spend(r.tiers, Stop(r.tiers, tau) + 1))
  {
    TallySnoc(use, r, (r: Record) => TrulyWrongUnder(r, tau), (r: Record) => ReplayOf(r, tau).cost);
  }

  lemma EmptyTallies(tau: seq<real>)
    ensures CascadeTally([], tau) == Tally(0, 0, 0.0)
    ensures TallyOf([], FirstTierWrong, FirstTierCost) == Tally(0, 0, 0.0)
    ensures TallyOf([], LastTierWrong, LastTierCost) == Tally(0, 0, 0.0)
  {
  }

  /** The cascade arm of Baselines is the replayed policy scored on truth, over
      the records that reached the model tiers. */
  method Baselines(recs: seq<Record>, tau: seq<real>)
    returns (cheapest: Arm, cascade: Arm, frontier: Arm)
    ensures cascade == CascadeTally(ModelRecords(recs), tau).Arm()
    ensures cheapest == TallyOf(ModelRecords(recs), FirstTierWrong, FirstTierCost).Arm()
    ensures frontier == TallyOf(ModelRecords(recs), LastTierWrong, LastTierCost).Arm()
  {
    hide TallyOf, CascadeTally;
    var cheap, casc, front := Tally(0, 0, 0.0), Tally(0, 0, 0.0), Tally(0, 0, 0.0);
    EmptyTallies(tau);
    for i := 0 to |recs|
      invariant cheap == TallyOf(ModelRecords(recs[..i]), FirstTierWrong, FirstTierCost)
      invariant front == TallyOf(ModelRecords(recs[..i]), LastTierWrong, LastTierCost)
      invariant casc == CascadeTally(ModelRecords(recs[..i]), tau)
    {
      hide TallyOf, CascadeTally, ModelRecords, Stop, Spend;
      ModelRecordsStep(recs, i);
      var r := recs[i];
      if r.cacheHit || |r.tiers| == 0 {
        continue;
      }
      ghost var use := ModelRecords(recs[..i]);
      var last := |r.tiers| - 1;
      TallySnoc(use, r, FirstTierWrong, FirstTierCost);
      cheap := cheap.Add(r.tiers[0].Truth(), r.tiers[0].cost);
      TallySnoc(use, r, LastTierWrong, LastTierCost);
      front := front.Add(r.tiers[last].Truth(), r.tiers[last].cost);
      var cost, accepted := WalkCascade(r.tiers, tau);
      CascadeTallySnoc(use, r, tau);
      casc := casc.Add(r.tiers[accepted].Truth(), cost);
    }
    assert recs[..|recs|] == recs;
    return cheap.Arm(), casc.Arm(), front.Arm();
  }

  /** The inner loop of Baselines. */
  method WalkCascade(tiers: seq<TierObs>, tau: seq<real>) returns (cost: real, accepted: nat)
    requires tiers != []
    ensures accepted == Stop(tiers, tau) && cost == Spend(tiers, accepted + 1)
  {
    var last := |tiers| - 1;
    cost, accepted := 0.0, last;
    for k := 0 to |tiers|
      invariant cost == Spend(tiers, k)
      invariant forall j :: 0 <= j < k ==> !StopsAt(tiers, tau, j)
    {
      cost := cost + tiers[k].cost;
      if k == last || (k < |tau| && tiers[k].score >= tau[k]) {
        StopIsUnique(tiers, tau, k);
        accepted := k;
        return;
      }
    }
  }

  // ------------------------------------------------------------ monotonicity

  /** hi is at least lo wherever hi has a threshold, and has no thresholds that
      lo lacks: hi never accepts where lo does not. */
  ghost predicate Raises(lo: seq<real>, hi: seq<real>) {
    && |hi| <= |lo|
    && forall k :: 0 <= k < |hi| ==> lo[k] <= hi[k]
  }

  ghost predicate NonNegativeCosts(r: Record) {
    forall k :: 0 <= k < |r.tiers| ==> 0.0 <= r.tiers[k].cost
  }

  lemma {:induction false} SpendMonotone(r: Record, m: nat, n: nat)
    requires m <= n <= |r.tiers| && NonNegativeCosts(r)
    ensures Spend(r.tiers, m) <= Spend(r.tiers, n)
    decreases n
  {
    if m < n {
      SpendMonotone(r, m, n - 1);
    }
  }

  /** Raising thresholds never makes the walk stop earlier, nor spend less. */
  lemma RaisingThresholdsEscalates(r: Record, lo: seq<real>, hi: seq<real>)
    requires Raises(lo, hi) && OnModelPath(r)
    ensures Stop(r.tiers, lo) <= Stop(r.tiers, hi)
    ensures NonNegativeCosts(r) ==> ReplayOf(r, lo).cost <= ReplayOf(r, hi).cost
  {
    var a, b := Stop(r.tiers, lo), Stop(r.tiers, hi);
    assert StopsAt(r.tiers, lo, b);
    if NonNegativeCosts(r) {
      SpendMonotone(r, a + 1, b + 1);
    }
  }

  // ------------------------------------------------------------ the oracle's noise

  predicate FalsePass(r: Record, tau: seq<real>) {
    !WrongUnder(r, tau) && TrulyWrongUnder(r, tau)
  }

  predicate FalseFailure(r: Record, tau: seq<real>) {
    WrongUnder(r, tau) && !TrulyWrongUnder(r, tau)
  }

  lemma {:induction false} ErrorBalance(recs: seq<Record>, tau: seq<real>)
    ensures TrueErrors(recs, tau) + Count(recs, (r: Record) => FalseFailure(r, tau))
         == Errors(recs, tau) + Count(recs, (r: Record) => FalsePass(r, tau))
  {
    if recs != [] {
      ErrorBalance(recs[..|recs| - 1], tau);
    }
  }

  /** Realized risk minus certified risk is exactly the rate of accepted false
      passes minus the rate of accepted false failures. */
  lemma RiskGapIsOracleNoise(recs: seq<Record>, tau: seq<real>)
    requires recs != []
    ensures RealizedRiskOf(recs, tau) - RiskOf(recs, tau)
         == (Count(recs, (r: Record) => FalsePass(r, tau)) as real
             - Count(recs, (r: Record) => FalseFailure(r, tau)) as real) / |recs| as real
  {
    ErrorBalance(recs, tau);
    hide Count, TrueErrors, Errors;
    var t, e := TrueErrors(recs, tau) as real, Errors(recs, tau) as real;
    var p := Count(recs, (r: Record) => FalsePass(r, tau)) as real;
    var f := Count(recs, (r: Record) => FalseFailure(r, tau)) as real;
    QuotientDifference(t, e, p, f, |recs| as real);
  }

  lemma QuotientDifference(t: real, e: real, p: real, f: real, n: real)
    requires t + f == e + p && 0.0 < n
    ensures t / n - e / n == (p - f) / n
  {
  }

  ghost predicate SoundOracle(r: Record) {
    forall k :: 0 <= k < |r.tiers| ==> !r.tiers[k].Disagrees()
  }

  /** A sound oracle's labels are truth, so the two risks agree. */
  lemma {:induction false} SoundOracleHasNoGap(recs: seq<Record>, tau: seq<real>)
    requires forall r :: r in recs ==> SoundOracle(r)
    ensures TrueErrors(recs, tau) == Errors(recs, tau)
    ensures RealizedRiskOf(recs, tau) == RiskOf(recs, tau)
  {
    if recs != [] {
      SoundOracleHasNoGap(recs[..|recs| - 1], tau);
      assert SoundOracle(recs[|recs| - 1]);
    }
  }
}
