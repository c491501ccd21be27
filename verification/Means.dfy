/** What the averages over records are, from the records alone: what one record
    contributes, and how two samples combine. */
module Means {
  import opened Policy
  import opened Calibration

  // ------------------------------------------------------------ one record

  function SumOfCosts(tiers: seq<TierObs>): real {
    if tiers == [] then 0.0 else tiers[0].cost + SumOfCosts(tiers[1..])
  }

  lemma {:induction false} SumOfCostsSnoc(tiers: seq<TierObs>, t: TierObs)
    ensures SumOfCosts(tiers + [t]) == SumOfCosts(tiers) + t.cost
  {
    if tiers == [] {
      assert [t][1..] == [];
      assert tiers + [t] == [t];
    } else {
      SumOfCostsSnoc(tiers[1..], t);
      assert (tiers + [t])[1..] == tiers[1..] + [t];
    }
  }

  lemma {:induction false} SpendIsASum(tiers: seq<TierObs>, n: nat)
    requires n <= |tiers|
    ensures Spend(tiers, n) == SumOfCosts(tiers[..n])
  {
    if n != 0 {
      SpendIsASum(tiers, n - 1);
      SumOfCostsSnoc(tiers[..n - 1], tiers[n - 1]);
      assert tiers[..n] == tiers[..n - 1] + [tiers[n - 1]];
    }
  }

  /** Tier k accepts: its score reaches its threshold, or it is the last. */
  predicate Accepts(r: Record, tau: seq<real>, k: nat)
    requires k < |r.tiers|
  {
    k + 1 == |r.tiers| || (k < |tau| && r.tiers[k].score >= tau[k])
  }

  /** A record costs its tiers through the first that accepts, or its cache cost on a
      hit, and answers what that tier or the cache answered. */
  lemma RecordOutcome(r: Record, tau: seq<real>)
    ensures r.cacheHit ==> ReplayOf(r, tau) == Outcome(r.cacheCorrect, r.cacheCost, "cache")
    ensures !r.cacheHit && r.tiers == [] ==> ReplayOf(r, tau) == Outcome(false, 0.0, "exhausted")
    ensures forall k: nat ::
      !r.cacheHit && k < |r.tiers| && Accepts(r, tau, k) && (forall j: nat :: j < k ==> !Accepts(r, tau, j)) ==>
      ReplayOf(r, tau) == Outcome(r.tiers[k].correct, SumOfCosts(r.tiers[..k + 1]), r.tiers[k].tier)
  {
    forall k: nat | !r.cacheHit && k < |r.tiers| && Accepts(r, tau, k) && forall j: nat :: j < k ==> !Accepts(r, tau, j)
      ensures ReplayOf(r, tau) == Outcome(r.tiers[k].correct, SumOfCosts(r.tiers[..k + 1]), r.tiers[k].tier)
    {
      forall j | 0 <= j < k
        ensures !StopsAt(r.tiers, tau, j)
      {
        assert !Accepts(r, tau, j);
      }
      StopIsUnique(r.tiers, tau, k);
      SpendIsASum(r.tiers, k + 1);
    }
  }

  /** Execution truth of what was accepted. */
  lemma RecordTruth(r: Record, tau: seq<real>)
    ensures r.cacheHit ==> (TrulyWrongUnder(r, tau) <==> !r.cacheCorrect)
    ensures !r.cacheHit && r.tiers == [] ==> TrulyWrongUnder(r, tau)
    ensures forall k: nat ::
      !r.cacheHit && k < |r.tiers| && Accepts(r, tau, k) && (forall j: nat :: j < k ==> !Accepts(r, tau, j)) ==>
      (TrulyWrongUnder(r, tau) <==>
         if r.tiers[k].trueCorrect.Some? then !r.tiers[k].trueCorrect.value else !r.tiers[k].correct)
  {
    forall k: nat | !r.cacheHit && k < |r.tiers| && Accepts(r, tau, k) && forall j: nat :: j < k ==> !Accepts(r, tau, j)
      ensures Stop(r.tiers, tau) == k
    {
      forall j | 0 <= j < k
        ensures !StopsAt(r.tiers, tau, j)
      {
        assert !Accepts(r, tau, j);
      }
      StopIsUnique(r.tiers, tau, k);
    }
  }

  // ------------------------------------------------------------ samples

  lemma {:induction false} CountJoins(a: seq<Record>, b: seq<Record>, p: Record -> bool)
    ensures Count(a + b, p) == Count(a, p) + Count(b, p)
  {
    if b == [] {
      assert a + b == a;
    } else {
      CountJoins(a, b[..|b| - 1], p);
      assert (a + b)[..|a + b| - 1] == a + b[..|b| - 1];
    }
  }

  lemma {:induction false} TotalJoins(a: seq<Record>, b: seq<Record>, f: Record -> real)
    ensures Total(a + b, f) == Total(a, f) + Total(b, f)
  {
    if b == [] {
      assert a + b == a;
    } else {
      TotalJoins(a, b[..|b| - 1], f);
      assert (a + b)[..|a + b| - 1] == a + b[..|b| - 1];
    }
  }

  lemma CountOfOne(r: Record, p: Record -> bool)
    ensures Count([r], p) == if p(r) then 1 else 0
  {
    assert [r][..0] == [];
    assert Count([], p) == 0;
  }

  lemma TotalOfOne(r: Record, f: Record -> real)
    ensures Total([r], f) == f(r)
  {
    assert [r][..0] == [];
    assert Total([], f) == 0.0;
  }

  /** Filtering keeps each record on its own merit, in order. */
  lemma {:induction false} FilterJoins(a: seq<Record>, b: seq<Record>, p: Record -> bool)
    ensures Filter(a + b, p) == Filter(a, p) + Filter(b, p)
  {
    if b == [] {
      assert a + b == a;
      assert Filter(a, p) + [] == Filter(a, p);
    } else {
      var init, last := b[..|b| - 1], b[|b| - 1];
      FilterJoins(a, init, p);
      assert (a + b)[..|a + b| - 1] == a + init && (a + b)[|a + b| - 1] == last;
      var kept := if p(last) then [last] else [];
      assert Filter(a + b, p) == Filter(a + init, p) + kept && Filter(b, p) == Filter(init, p) + kept;
      hide Filter;
      assert (Filter(a, p) + Filter(init, p)) + kept == Filter(a, p) + (Filter(init, p) + kept);
    }
  }

  lemma FilterOfOne(r: Record, p: Record -> bool)
    ensures Filter([r], p) == if p(r) then [r] else []
  {
    assert [r][..0] == [];
    assert Filter([], p) == [];
  }

  lemma MeanTimesSize(x: real, n: nat)
    requires 0 < n
    ensures n as real * (x / n as real) == x
  {
  }

  /** Sample size times mean cost, risk and realized risk. */
  lemma Unaveraged(recs: seq<Record>, tau: seq<real>)
    ensures |recs| as real * MeanCostOf(recs, tau) == CostOf(recs, tau)
    ensures |recs| as real * RiskOf(recs, tau) == Errors(recs, tau) as real
    ensures |recs| as real * RealizedRiskOf(recs, tau) == TrueErrors(recs, tau) as real
  {
    if recs != [] {
      hide Errors, TrueErrors, CostOf;
      MeanTimesSize(CostOf(recs, tau), |recs|);
      MeanTimesSize(Errors(recs, tau) as real, |recs|);
      MeanTimesSize(TrueErrors(recs, tau) as real, |recs|);
    }
  }

  /** The averages of one record are its own cost and verdicts. */
  lemma AveragesOfOne(r: Record, tau: seq<real>)
    ensures MeanCostOf([r], tau) == ReplayOf(r, tau).cost
    ensures RiskOf([r], tau) == if ReplayOf(r, tau).correct then 0.0 else 1.0
    ensures RealizedRiskOf([r], tau) == if TrulyWrongUnder(r, tau) then 1.0 else 0.0
  {
    Unaveraged([r], tau);
    TotalOfOne(r, (x: Record) => ReplayOf(x, tau).cost);
    CountOfOne(r, (x: Record) => WrongUnder(x, tau));
    CountOfOne(r, (x: Record) => TrulyWrongUnder(x, tau));
    assert CostOf([r], tau) == ReplayOf(r, tau).cost;
    assert Errors([r], tau) == if ReplayOf(r, tau).correct then 0 else 1;
    assert TrueErrors([r], tau) == if TrulyWrongUnder(r, tau) then 1 else 0;
    hide *;
    assert |[r]| as real == 1.0;
  }

  /** Averages of a joined sample are the size-weighted averages of its parts. */
  lemma AveragesJoin(a: seq<Record>, b: seq<Record>, tau: seq<real>)
    ensures |a + b| as real * MeanCostOf(a + b, tau)
         == |a| as real * MeanCostOf(a, tau) + |b| as real * MeanCostOf(b, tau)
    ensures |a + b| as real * RiskOf(a + b, tau) == |a| as real * RiskOf(a, tau) + |b| as real * RiskOf(b, tau)
    ensures |a + b| as real * RealizedRiskOf(a + b, tau)
         == |a| as real * RealizedRiskOf(a, tau) + |b| as real * RealizedRiskOf(b, tau)
  {
    Unaveraged(a, tau);
    Unaveraged(b, tau);
    Unaveraged(a + b, tau);
    TotalJoins(a, b, (r: Record) => ReplayOf(r, tau).cost);
    CountJoins(a, b, (r: Record) => WrongUnder(r, tau));
    CountJoins(a, b, (r: Record) => TrulyWrongUnder(r, tau));
  }

  // ------------------------------------------------------------ baselines

  lemma {:induction false} ModelRecordsJoin(a: seq<Record>, b: seq<Record>)
    ensures ModelRecords(a + b) == ModelRecords(a) + ModelRecords(b)
  {
    if b == [] {
      assert a + b == a;
    } else {
      ModelRecordsJoin(a, b[..|b| - 1]);
      assert (a + b)[..|a + b| - 1] == a + b[..|b| - 1];
    }
  }

  lemma ArmTimesSize(t: Tally)
    requires t.n == 0 ==> t.bad == 0 && t.cost == 0.0
    ensures t.Arm().n == t.n
    ensures t.n as real * t.Arm().meanUsd == t.cost && t.n as real * t.Arm().risk == t.bad as real
  {
    if t.n != 0 {
      MeanTimesSize(t.cost, t.n);
      MeanTimesSize(t.bad as real, t.n);
    }
  }

  lemma EmptyTally(use: seq<Record>, wrong: Record -> bool, cost: Record -> real)
    ensures var t := TallyOf(use, wrong, cost); t.n == 0 ==> t.bad == 0 && t.cost == 0.0
  {
  }

  lemma CombineArms(x: Tally, y: Tally, z: Tally)
    requires forall t :: t == x || t == y || t == z ==> t.n == 0 ==> t.bad == 0 && t.cost == 0.0
    requires z.bad == x.bad + y.bad && z.cost == x.cost + y.cost
    ensures Weighs(z.Arm(), x.Arm(), y.Arm())
  {
    ArmTimesSize(x);
    ArmTimesSize(y);
    ArmTimesSize(z);
    hide Tally.Arm;
  }

  /** Size times mean and size times risk of z are the sums of those of x and y. */
  predicate Weighs(z: Arm, x: Arm, y: Arm) {
    && z.n as real * z.meanUsd == x.n as real * x.meanUsd + y.n as real * y.meanUsd
    && z.n as real * z.risk == x.n as real * x.risk + y.n as real * y.risk
  }

  /** An arm over two runs of records is the size-weighted average of its two halves,
      over the records that reached a model. */
  lemma ArmsJoin(a: seq<Record>, b: seq<Record>, wrong: Record -> bool, cost: Record -> real)
    ensures var x := TallyOf(ModelRecords(a), wrong, cost).Arm();
      var y := TallyOf(ModelRecords(b), wrong, cost).Arm();
      var z := TallyOf(ModelRecords(a + b), wrong, cost).Arm();
      z.n == x.n + y.n && Weighs(z, x, y)
  {
    ModelRecordsJoin(a, b);
    var u, v := ModelRecords(a), ModelRecords(b);
    CountJoins(u, v, wrong);
    TotalJoins(u, v, cost);
    EmptyTally(u, wrong, cost);
    EmptyTally(v, wrong, cost);
    EmptyTally(u + v, wrong, cost);
    var x, y, z := TallyOf(u, wrong, cost), TallyOf(v, wrong, cost), TallyOf(u + v, wrong, cost);
    CombineArms(x, y, z);
    ArmTimesSize(x);
    ArmTimesSize(y);
    ArmTimesSize(z);
    hide *;
  }

  /** One record adds to each arm what its first, its accepting and its last tier cost
      and truly answered, and nothing if it never reached a model. */
  lemma ArmsOfOne(r: Record, tau: seq<real>)
    ensures ModelRecords([r]) == if !r.cacheHit && r.tiers != [] then [r] else []
    ensures !r.cacheHit && r.tiers != [] ==>
      && TallyOf([r], FirstTierWrong, FirstTierCost).Arm()
         == Arm(if r.tiers[0].Truth() then 0.0 else 1.0, r.tiers[0].cost, 1)
      && TallyOf([r], LastTierWrong, LastTierCost).Arm()
         == Arm(if r.tiers[|r.tiers| - 1].Truth() then 0.0 else 1.0, r.tiers[|r.tiers| - 1].cost, 1)
      && CascadeTally([r], tau).Arm()
         == Arm(if TrulyWrongUnder(r, tau) then 1.0 else 0.0, ReplayOf(r, tau).cost, 1)
  {
    assert [r][..0] == [];
    if !r.cacheHit && r.tiers != [] {
      CountOfOne(r, FirstTierWrong);
      CountOfOne(r, LastTierWrong);
      CountOfOne(r, (x: Record) => TrulyWrongUnder(x, tau));
      TotalOfOne(r, FirstTierCost);
      TotalOfOne(r, LastTierCost);
      TotalOfOne(r, (x: Record) => ReplayOf(x, tau).cost);
    }
  }

  // ------------------------------------------------------------ which records count

  predicate Contaminated(r: Record) {
    r.contaminated
  }

  predicate UnsoundOnly(r: Record) {
    r.oracleUnsound && !r.contaminated
  }

  predicate Counted(r: Record) {
    !r.contaminated && !r.oracleUnsound
  }

  predicate CountedShadow(r: Record) {
    Counted(r) && r.shadow
  }

  lemma {:induction false} SameOn(recs: seq<Record>, p: Record -> bool, q: Record -> bool)
    requires forall r :: p(r) == q(r)
    ensures Count(recs, p) == Count(recs, q) && Filter(recs, p) == Filter(recs, q)
  {
    if recs != [] {
      SameOn(recs[..|recs| - 1], p, q);
    }
  }

  lemma {:induction false} ThreeKinds(recs: seq<Record>)
    ensures Count(recs, Contaminated) + Count(recs, UnsoundOnly) + Count(recs, Counted) == |recs|
  {
    if recs != [] {
      ThreeKinds(recs[..|recs| - 1]);
    }
  }

  /** The certificate is computed on the counted shadow records when there are 30 of
      them and on all counted ones otherwise. It says how many records it left out and
      why, and every record is one or the other. */
  lemma EveryRecordIsAccountedFor(recs: seq<Record>, nTiers: nat, options: Options)
    ensures CalibrationStream(recs)
         == Filter(recs, if 30 <= Count(recs, CountedShadow) then CountedShadow else Counted)
    ensures CertificateOf(recs, nTiers, options).Ok? ==>
      var cert := CertificateOf(recs, nTiers, options).value;
      && cert.n == |CalibrationStream(recs)|
      && cert.nExcluded == Count(recs, Contaminated) && cert.nOracleUnsound == Count(recs, UnsoundOnly)
      && cert.nShadow == Count(recs, CountedShadow)
      && cert.nOracleInconclusive == Count(recs, (r: Record) => Usable(r) && r.oracleInconclusive)
      && cert.nTimedOut == Count(CalibrationStream(recs), TimedOut)
      && cert.nExcluded + cert.nOracleUnsound + Count(recs, Counted) == |recs|
  {
    SameOn(recs, Usable, Counted);
    SameOn(recs, UsableShadow, CountedShadow);
    SameOn(recs, (r: Record) => r.contaminated, Contaminated);
    SameOn(recs, (r: Record) => !r.contaminated && r.oracleUnsound, UnsoundOnly);
    ThreeKinds(recs);
    hide Count, Filter, RiskOf, MeanCostOf, RealizedRiskOf, Evaluate, Selected;
  }

  /** Calibrate refuses exactly when no record counts, and says how many were
      contaminated or, when none was, unsound. */
  lemma RefusesExactlyWhen(recs: seq<Record>, nTiers: nat, options: Options)
    ensures var (bad, unsound) := (Count(recs, Contaminated), Count(recs, UnsoundOnly));
      && (CertificateOf(recs, nTiers, options).Err? <==> bad + unsound == |recs|)
      && (bad + unsound == |recs| ==>
            CertificateOf(recs, nTiers, options)
            == Err(if 0 < bad then AllContaminated(bad) else if recs != [] then AllUnsound(unsound) else NoRecords))
  {
    EveryRecordIsAccountedFor(recs, nTiers, options);
    ThreeKinds(recs);
    SameOn(recs, (r: Record) => r.contaminated, Contaminated);
    SameOn(recs, (r: Record) => !r.contaminated && r.oracleUnsound, UnsoundOnly);
    SomeoneCounts(recs);
    hide Count, Filter, RiskOf, MeanCostOf, RealizedRiskOf, Evaluate, Selected;
  }

  lemma {:induction false} SomeoneCounts(recs: seq<Record>)
    ensures Count(recs, CountedShadow) <= Count(recs, Counted)
  {
    if recs != [] {
      SomeoneCounts(recs[..|recs| - 1]);
    }
  }
}
