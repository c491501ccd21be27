/** internal/cascade/profile.go against cascade.go: what one profiled record says
    about the online router. */
module RouterReplay {
  import opened Wrappers
  import opened Policy
  import opened Router

  // ------------------------------------------------------------ Profile

  /** The notes a profiled tier is shown: nothing is carried from tier to tier,
      and profiling records no failure. */
  function KnownNotes(cfg: Config, known: seq<Failure>): seq<string> {
    if cfg.cacheDisabled then [] else FailureNotes(known)
  }

  function PlanLog(cfg: Config): seq<Prompt> {
    if cfg.twoStage then [PlanPrompt] else []
  }

  /** The prompts sent before tier k is profiled. */
  function ProfileLog(w: World, cfg: Config, known: seq<Failure>, k: nat): seq<Prompt>
    requires k <= |cfg.tiers|
  {
    if k == 0 then PlanLog(cfg)
    else ProfileLog(w, cfg, known, k - 1)
         + SamplePrompts(k - 1, PlanOf(w, cfg, []), KnownNotes(cfg, known), cfg.tiers[k - 1].samples)
  }

  /** The plan call's price, charged to tier 0 whether or not the plan is empty. */
  function PlanUsd(w: World, cfg: Config): real {
    if cfg.twoStage then w.modelUsd(PlanPrompt, PlanOf(w, cfg, [])) else 0.0
  }

  /** The observation made of a sampled tier: the score, the representative's
      held-out verdict, and what sampling and acceptance cost. */
  function Observed(w: World, cfg: Config, k: nat, cands: seq<Candidate>, usd: real): TierObs
    requires k < |cfg.tiers|
  {
    var vote := VoteOf(w, cands);
    if vote.None? then TierObs(cfg.tiers[k].name, 0.0, false, None, usd, false)
    else
      var src := Representative(w, cands).source;
      TierObs(cfg.tiers[k].name, vote.value.score, w.hidden(src).ok, None, usd + w.hiddenUsd(src), false)
  }

  function ObsOf(w: World, cfg: Config, known: seq<Failure>, k: nat): TierObs
    requires k < |cfg.tiers|
  {
    var log, plan, notes := ProfileLog(w, cfg, known, k), PlanOf(w, cfg, []), KnownNotes(cfg, known);
    var n := cfg.tiers[k].samples;
    var obs := Observed(w, cfg, k, Samples(w, log, k, plan, notes, n), SampleUsd(w, log, k, plan, notes, n));
    if k == 0 then obs.(cost := obs.cost + PlanUsd(w, cfg)) else obs
  }

  function ObservedTiers(w: World, cfg: Config, known: seq<Failure>, n: nat): (tiers: seq<TierObs>)
    requires n <= |cfg.tiers|
    ensures |tiers| == n
    ensures forall k :: 0 <= k < n ==> tiers[k] == ObsOf(w, cfg, known, k)
  {
    if n == 0 then [] else ObservedTiers(w, cfg, known, n - 1) + [ObsOf(w, cfg, known, n - 1)]
  }

  /** The oracle checks Profile notes on the record before it looks at any tier. */
  datatype Audit = Audit(contaminated: bool, unsound: bool, inconclusive: bool)

  function ProfileOf(w: World, cfg: Config, known: seq<Failure>, id: string, audit: Audit): Record {
    Record(id, ObservedTiers(w, cfg, known, |cfg.tiers|), false, false, 0.0,
           audit.contaminated, audit.unsound, audit.inconclusive, true)
  }

  method Profile(w: World, cfg: Config, known: seq<Failure>, id: string, audit: Audit) returns (rec: Record)
    ensures rec == ProfileOf(w, cfg, known, id, audit)
  {
    hide Samples, SampleUsd, SamplePrompts, PlanOf, ObsOf, Observed, FailureNotes;
    var plan, planUsd, log := "", 0.0, [];
    if cfg.twoStage {
      plan := w.reply([], PlanPrompt);
      log := [PlanPrompt];
      planUsd := w.modelUsd(PlanPrompt, plan);
    }
    assert plan == PlanOf(w, cfg, []) && planUsd == PlanUsd(w, cfg) by {
      PlanIs(w, cfg);
    }
    var notes: seq<string> := if cfg.cacheDisabled then [] else FailureNotes(known);
    var tiers: seq<TierObs> := [];
    for k := 0 to |cfg.tiers|
      invariant log == ProfileLog(w, cfg, known, k)
      invariant tiers == ObservedTiers(w, cfg, known, k)
    {
      hide PlanUsd;
      ObsIs(w, cfg, known, k);
      var n := cfg.tiers[k].samples;
      var cands := Samples(w, log, k, plan, notes, n);
      var obs := Observe(w, cfg, k, cands, SampleUsd(w, log, k, plan, notes, n));
      log := log + SamplePrompts(k, plan, notes, n);
      if k == 0 {
        obs := obs.(cost := obs.cost + planUsd);
      }
      tiers := tiers + [obs];
    }
    return Record(id, tiers, false, false, 0.0, audit.contaminated, audit.unsound, audit.inconclusive, true);
  }

  method Observe(w: World, cfg: Config, k: nat, cands: seq<Candidate>, usd: real) returns (obs: TierObs)
    requires k < |cfg.tiers|
    ensures obs == Observed(w, cfg, k, cands, usd)
  {
    var vote := VoteOf(w, cands);
    obs := TierObs(cfg.tiers[k].name, 0.0, false, None, usd, false);
    if vote.Some? {
      var rep := cands[IndexOf(cands, vote.value.rep)];
      obs := obs.(score := vote.value.score, correct := w.hidden(rep.source).ok, cost := usd + w.hiddenUsd(rep.source));
    }
  }

  lemma ObsIs(w: World, cfg: Config, known: seq<Failure>, k: nat)
    requires k < |cfg.tiers|
    ensures var log, plan, notes := ProfileLog(w, cfg, known, k), PlanOf(w, cfg, []), KnownNotes(cfg, known);
      var n := cfg.tiers[k].samples;
      var obs := Observed(w, cfg, k, Samples(w, log, k, plan, notes, n), SampleUsd(w, log, k, plan, notes, n));
      ObsOf(w, cfg, known, k) == if k == 0 then obs.(cost := obs.cost + PlanUsd(w, cfg)) else obs
  {
  }

  lemma PlanIs(w: World, cfg: Config)
    ensures PlanOf(w, cfg, []) == if cfg.twoStage then w.reply([], PlanPrompt) else ""
  {
  }

  // ------------------------------------------------------------ fixed outcomes

  /** What a tier's sample returns and costs does not depend on what was asked
      before it or on the notes it is shown. */
  ghost predicate Memoryless(w: World) {
    && (forall log, k, i, plan, avoid ::
          w.reply(log, CodePrompt(k, i, plan, avoid)) == w.reply([], CodePrompt(k, i, plan, [])))
    && (forall k, i, plan, avoid, text ::
          w.modelUsd(CodePrompt(k, i, plan, avoid), text) == w.modelUsd(CodePrompt(k, i, plan, []), text))
  }

  ghost predicate NoRepair(cfg: Config) {
    forall k :: 0 <= k < |cfg.tiers| ==> !PrefersRepair(cfg.tiers, k)
  }

  ghost predicate Prices(w: World) {
    && (forall p, text :: 0.0 <= w.modelUsd(p, text))
    && (forall src :: 0.0 <= w.visibleUsd(src))
    && (forall src :: 0.0 <= w.hiddenUsd(src))
  }

  function Drawn(w: World, cfg: Config, k: nat): seq<Candidate>
    requires k < |cfg.tiers|
  {
    Samples(w, [], k, PlanOf(w, cfg, []), [], cfg.tiers[k].samples)
  }

  function DrawnUsd(w: World, cfg: Config, k: nat): real
    requires k < |cfg.tiers|
  {
    SampleUsd(w, [], k, PlanOf(w, cfg, []), [], cfg.tiers[k].samples)
  }

  lemma {:induction false} SamplesAreFixed(w: World, log: seq<Prompt>, k: nat, plan: string,
                                           avoid: seq<string>, n: nat)
    requires Memoryless(w)
    ensures Samples(w, log, k, plan, avoid, n) == Samples(w, [], k, plan, [], n)
    ensures SampleUsd(w, log, k, plan, avoid, n) == SampleUsd(w, [], k, plan, [], n)
  {
    if n != 0 {
      SamplesAreFixed(w, log, k, plan, avoid, n - 1);
      var text := w.reply(log, CodePrompt(k, n - 1, plan, avoid));
      assert text == w.reply([], CodePrompt(k, n - 1, plan, []));
      assert w.modelUsd(CodePrompt(k, n - 1, plan, avoid), text) == w.modelUsd(CodePrompt(k, n - 1, plan, []), text);
    }
  }

  lemma {:induction false} SamplesCost(w: World, log: seq<Prompt>, k: nat, plan: string, avoid: seq<string>, n: nat)
    requires Prices(w)
    ensures 0.0 <= SampleUsd(w, log, k, plan, avoid, n)
  {
    if n != 0 {
      SamplesCost(w, log, k, plan, avoid, n - 1);
    }
  }

  /** The record of a fixed world, tier by tier. */
  lemma ObservationIsFixed(w: World, cfg: Config, known: seq<Failure>, k: nat)
    requires Memoryless(w) && k < |cfg.tiers|
    ensures ObsOf(w, cfg, known, k)
         == var obs := Observed(w, cfg, k, Drawn(w, cfg, k), DrawnUsd(w, cfg, k));
            if k == 0 then obs.(cost := obs.cost + PlanUsd(w, cfg)) else obs
  {
    hide Samples, SampleUsd;
    SamplesAreFixed(w, ProfileLog(w, cfg, known, k), k, PlanOf(w, cfg, []), KnownNotes(cfg, known),
                    cfg.tiers[k].samples);
  }

  /** What tier k answers with if it is accepted. */
  function Entry(w: World, k: nat, cands: seq<Candidate>): Option<Acceptance> {
    var vote := VoteOf(w, cands);
    if vote.None? then None else Some(Acceptance(k, Representative(w, cands).source, vote.value.score))
  }

  /** A router tier in a fixed world. */
  lemma TierIsFixed(w: World, cfg: Config, k: nat, p: Progress)
    requires Memoryless(w) && NoRepair(cfg) && k < |cfg.tiers| && p.accepted.None?
    ensures var q, obs := TierRun(w, cfg, k, PlanOf(w, cfg, []), p),
                          Observed(w, cfg, k, Drawn(w, cfg, k), DrawnUsd(w, cfg, k));
      var consults := Consults(w, cfg, k, Drawn(w, cfg, k));
      && (q.accepted.Some? <==> consults && obs.correct)
      && (q.accepted.Some? ==> q.accepted == Entry(w, k, Drawn(w, cfg, k)))
      && q.spend == p.spend + if consults then obs.cost else DrawnUsd(w, cfg, k)
  {
    hide Samples, SampleUsd, SamplePrompts, RecordFailures, Avoid, RepairFrom;
    SamplesAreFixed(w, p.log, k, PlanOf(w, cfg, []), Avoid(cfg, p), cfg.tiers[k].samples);
  }

  // ------------------------------------------------------------ the router's own walk

  /** The router stops where the replay would, but only on a held-out pass. */
  predicate StopsAndPasses(tiers: seq<TierObs>, tau: seq<real>, k: nat)
    requires k < |tiers|
  {
    StopsAt(tiers, tau, k) && tiers[k].correct
  }

  ghost predicate IsFirstPass(tiers: seq<TierObs>, tau: seq<real>, from: nat, k: nat) {
    && from <= k < |tiers| && StopsAndPasses(tiers, tau, k)
    && forall j :: from <= j < k ==> !StopsAndPasses(tiers, tau, j)
  }

  /** The thresholds of a certificate over this cascade. */
  ghost predicate Governs(tau: seq<real>, cfg: Config) {
    cfg.thresholds == Some(tau) && |cfg.tiers| - 1 <= |tau|
  }

  /** The record without the plan charge. */
  function Bare(w: World, cfg: Config, n: nat): (tiers: seq<TierObs>)
    requires n <= |cfg.tiers|
    ensures |tiers| == n
    ensures forall k :: 0 <= k < n ==> tiers[k] == Observed(w, cfg, k, Drawn(w, cfg, k), DrawnUsd(w, cfg, k))
  {
    if n == 0 then []
    else Bare(w, cfg, n - 1) + [Observed(w, cfg, n - 1, Drawn(w, cfg, n - 1), DrawnUsd(w, cfg, n - 1))]
  }

  lemma ConsultsWhereReplayStops(w: World, cfg: Config, tau: seq<real>, k: nat)
    requires Governs(tau, cfg) && k < |cfg.tiers|
    ensures var tiers := Bare(w, cfg, |cfg.tiers|);
      && (Consults(w, cfg, k, Drawn(w, cfg, k)) ==> StopsAt(tiers, tau, k))
      && (StopsAt(tiers, tau, k) && tiers[k].correct ==> Consults(w, cfg, k, Drawn(w, cfg, k)))
  {
    hide Drawn, DrawnUsd;
    assert Bare(w, cfg, |cfg.tiers|)[k] == Observed(w, cfg, k, Drawn(w, cfg, k), DrawnUsd(w, cfg, k));
  }

  lemma TierCosts(w: World, cfg: Config, k: nat)
    requires Prices(w) && k < |cfg.tiers|
    ensures 0.0 <= DrawnUsd(w, cfg, k) <= Observed(w, cfg, k, Drawn(w, cfg, k), DrawnUsd(w, cfg, k)).cost
  {
    SamplesCost(w, [], k, PlanOf(w, cfg, []), [], cfg.tiers[k].samples);
  }

  /** A run from tier k, having spent `spent`, ends at the first pass from there on
      at no more than the record's cost, or unsolved when there is none. */
  ghost predicate EndsWhereItShould(tiers: seq<TierObs>, tau: seq<real>, k: nat, spent: real, end: Progress)
    requires k <= |tiers|
  {
    && (end.accepted.None? ==> forall j :: k <= j < |tiers| ==> !StopsAndPasses(tiers, tau, j))
    && (end.accepted.Some? ==>
          && IsFirstPass(tiers, tau, k, end.accepted.value.tier)
          && end.spend - spent <= Spend(tiers, end.accepted.value.tier + 1) - Spend(tiers, k))
  }

  /** From tier k on, the router accepts at the first tier where the replay
      would stop and the held-out partition passes, and nowhere else. */
  lemma {:induction false} RouterWalk(w: World, cfg: Config, tau: seq<real>, k: nat, p: Progress)
    requires Memoryless(w) && NoRepair(cfg) && Prices(w) && Governs(tau, cfg)
    requires k <= |cfg.tiers| && p.accepted.None?
    ensures EndsWhereItShould(Bare(w, cfg, |cfg.tiers|), tau, k, p.spend, RunFrom(w, cfg, k, PlanOf(w, cfg, []), p))
    decreases |cfg.tiers| - k
  {
    hide TierRun, Observed, Drawn, DrawnUsd, Consults, PlanOf;
    var tiers := Bare(w, cfg, |cfg.tiers|);
    if k < |cfg.tiers| {
      var q := TierRun(w, cfg, k, PlanOf(w, cfg, []), p);
      TierIsFixed(w, cfg, k, p);
      ConsultsWhereReplayStops(w, cfg, tau, k);
      TierCosts(w, cfg, k);
      assert tiers[k] == Observed(w, cfg, k, Drawn(w, cfg, k), DrawnUsd(w, cfg, k));
      assert Spend(tiers, k + 1) == Spend(tiers, k) + tiers[k].cost;
      if q.accepted.None? {
        assert !StopsAndPasses(tiers, tau, k);
        RouterWalk(w, cfg, tau, k + 1, q);
      } else {
        assert RunFrom(w, cfg, k, PlanOf(w, cfg, []), p) == RunFrom(w, cfg, k + 1, PlanOf(w, cfg, []), q) == q;
      }
    }
  }

  lemma {:induction false} PlanChargedOnce(w: World, cfg: Config, known: seq<Failure>, n: nat)
    requires Memoryless(w) && n <= |cfg.tiers|
    ensures Spend(ObservedTiers(w, cfg, known, |cfg.tiers|), n)
         == Spend(Bare(w, cfg, |cfg.tiers|), n) + if n == 0 then 0.0 else PlanUsd(w, cfg)
  {
    hide Observed, Drawn, DrawnUsd, PlanUsd, ObsOf;
    if n != 0 {
      PlanChargedOnce(w, cfg, known, n - 1);
      ObservationIsFixed(w, cfg, known, n - 1);
    }
  }

  lemma RecordStops(w: World, cfg: Config, known: seq<Failure>, tau: seq<real>, k: nat)
    requires Memoryless(w) && k < |cfg.tiers|
    ensures var rec, tiers := ObservedTiers(w, cfg, known, |cfg.tiers|), Bare(w, cfg, |cfg.tiers|);
      && (StopsAt(rec, tau, k) <==> StopsAt(tiers, tau, k))
      && (StopsAndPasses(rec, tau, k) <==> StopsAndPasses(tiers, tau, k))
  {
    hide Observed, Drawn, DrawnUsd, PlanUsd, ObsOf;
    ObservationIsFixed(w, cfg, known, k);
  }

  lemma StartCost(w: World, cfg: Config, known: seq<Failure>)
    requires Prices(w)
    ensures var start := Planned(w, cfg, Progress([], known, [], 0.0, [], None));
      start.accepted.None? && start.spend <= PlanUsd(w, cfg)
  {
  }

  /** The replay's policy stops nowhere with a held-out pass. */
  ghost predicate NeverPasses(tiers: seq<TierObs>, tau: seq<real>) {
    forall j :: 0 <= j < |tiers| ==> !StopsAndPasses(tiers, tau, j)
  }

  lemma SamePasses(w: World, cfg: Config, known: seq<Failure>, tau: seq<real>)
    requires Memoryless(w)
    ensures var rec, tiers := ObservedTiers(w, cfg, known, |cfg.tiers|), Bare(w, cfg, |cfg.tiers|);
      && (NeverPasses(rec, tau) <==> NeverPasses(tiers, tau))
      && (forall k :: IsFirstPass(rec, tau, 0, k) <==> IsFirstPass(tiers, tau, 0, k))
  {
    hide Observed, Drawn, DrawnUsd, Memoryless, StopsAndPasses;
    forall k | 0 <= k < |cfg.tiers|
      ensures StopsAndPasses(ObservedTiers(w, cfg, known, |cfg.tiers|), tau, k)
         <==> StopsAndPasses(Bare(w, cfg, |cfg.tiers|), tau, k)
    {
      RecordStops(w, cfg, known, tau, k);
    }
  }

  lemma WholeWalk(w: World, cfg: Config, known: seq<Failure>, tau: seq<real>)
    requires Memoryless(w) && NoRepair(cfg) && Prices(w) && Governs(tau, cfg)
    ensures var tiers, end := Bare(w, cfg, |cfg.tiers|), SequentialOf(w, cfg, known);
      && (end.accepted.None? ==> NeverPasses(tiers, tau))
      && (end.accepted.Some? ==>
            && IsFirstPass(tiers, tau, 0, end.accepted.value.tier)
            && end.spend <= Spend(tiers, end.accepted.value.tier + 1) + PlanUsd(w, cfg))
  {
    hide RunFrom, Bare, Prices, Memoryless, NoRepair, Planned, PlanUsd, Governs, PlanOf, EndsWhereItShould;
    StartCost(w, cfg, known);
    var start := Planned(w, cfg, Progress([], known, [], 0.0, [], None));
    RouterWalk(w, cfg, tau, 0, start);
    WalkFromNothing(Bare(w, cfg, |cfg.tiers|), tau, start.spend, SequentialOf(w, cfg, known));
  }

  lemma WalkFromNothing(tiers: seq<TierObs>, tau: seq<real>, spent: real, end: Progress)
    requires EndsWhereItShould(tiers, tau, 0, spent, end)
    ensures end.accepted.None? ==> NeverPasses(tiers, tau)
    ensures end.accepted.Some? ==>
      && IsFirstPass(tiers, tau, 0, end.accepted.value.tier)
      && end.spend <= Spend(tiers, end.accepted.value.tier + 1) + spent
  {
    hide StopsAndPasses;
    assert Spend(tiers, 0) == 0.0;
  }

  /** Where the online router stops, read off the profiled record alone. */
  lemma RouterStopsAtFirstPass(w: World, cfg: Config, known: seq<Failure>, tau: seq<real>, id: string, audit: Audit)
    requires Memoryless(w) && NoRepair(cfg) && Prices(w) && Governs(tau, cfg)
    ensures var tiers, end := ProfileOf(w, cfg, known, id, audit).tiers, SequentialOf(w, cfg, known);
      && (end.accepted.None? ==> NeverPasses(tiers, tau))
      && (end.accepted.Some? ==>
            && IsFirstPass(tiers, tau, 0, end.accepted.value.tier)
            && end.spend <= Spend(tiers, end.accepted.value.tier + 1))
  {
    hide NeverPasses, Bare, Spend, Prices, Memoryless, NoRepair, Governs, PlanUsd, SequentialOf, StopsAndPasses;
    WholeWalk(w, cfg, known, tau);
    SamePasses(w, cfg, known, tau);
    var end := SequentialOf(w, cfg, known);
    if end.accepted.Some? {
      PlanChargedOnce(w, cfg, known, end.accepted.value.tier + 1);
    }
  }

  /** The router dominates the replay: where the replay is correct the router
      accepts the same tier at no greater cost; where it is wrong the router
      ends unsolved or accepts at a later tier on a held-out pass. */
  lemma RouterDominatesReplay(w: World, cfg: Config, known: seq<Failure>, tau: seq<real>, id: string, audit: Audit)
    requires Memoryless(w) && NoRepair(cfg) && Prices(w) && Governs(tau, cfg) && cfg.tiers != []
    ensures var rec, end := ProfileOf(w, cfg, known, id, audit), SequentialOf(w, cfg, known);
      var stop := Stop(rec.tiers, tau);
      if ReplayOf(rec, tau).correct then
        end.accepted.Some? && end.accepted.value.tier == stop && end.spend <= ReplayOf(rec, tau).cost
      else
        end.accepted.Some? ==> IsFirstPass(rec.tiers, tau, stop + 1, end.accepted.value.tier)
  {
    hide RunFrom, Bare, SequentialOf, Spend;
    RouterStopsAtFirstPass(w, cfg, known, tau, id, audit);
    var rec := ProfileOf(w, cfg, known, id, audit);
    var stop := Stop(rec.tiers, tau);
    var end := SequentialOf(w, cfg, known);
    assert ReplayOf(rec, tau).correct <==> StopsAndPasses(rec.tiers, tau, stop);
    if end.accepted.Some? {
      assert StopsAt(rec.tiers, tau, end.accepted.value.tier);
    }
  }

  /** One calibration problem: its world, its failure cache and its audit. */
  datatype Problem = Problem(id: string, world: World, known: seq<Failure>, audit: Audit)

  function Profiled(cfg: Config, ps: seq<Problem>): (recs: seq<Record>)
    ensures |recs| == |ps|
  {
    if ps == [] then []
    else
      var p := ps[|ps| - 1];
      Profiled(cfg, ps[..|ps| - 1]) + [ProfileOf(p.world, cfg, p.known, p.id, p.audit)]
  }

  function Unsolved(cfg: Config, ps: seq<Problem>): nat {
    if ps == [] then 0
    else
      var p := ps[|ps| - 1];
      Unsolved(cfg, ps[..|ps| - 1]) + if SequentialOf(p.world, cfg, p.known).accepted.None? then 1 else 0
  }

  /** Over any problems, the router leaves no more unsolved than the empirical
      risk the thresholds were chosen on. */
  lemma {:induction false} UnsolvedAtMostRisk(cfg: Config, ps: seq<Problem>, tau: seq<real>)
    requires NoRepair(cfg) && Governs(tau, cfg) && cfg.tiers != []
    requires forall i :: 0 <= i < |ps| ==> Memoryless(ps[i].world) && Prices(ps[i].world)
    ensures Unsolved(cfg, ps) <= Errors(Profiled(cfg, ps), tau)
  {
    hide ReplayOf, SequentialOf, ProfileOf;
    if ps != [] {
      var p := ps[|ps| - 1];
      UnsolvedAtMostRisk(cfg, ps[..|ps| - 1], tau);
      RouterDominatesReplay(p.world, cfg, p.known, tau, p.id, p.audit);
      var recs := Profiled(cfg, ps);
      assert recs[..|recs| - 1] == Profiled(cfg, ps[..|ps| - 1]);
    }
  }
}
