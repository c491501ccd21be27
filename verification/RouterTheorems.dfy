/** Holdout isolation: what the router's prompts can depend on. */
module RouterTheorems {
  import opened Wrappers
  import opened Router

  // ------------------------------------------------------------ holdout isolation

  /** The same world except for the held-out partition and what it costs to run. */
  ghost predicate SameVisibly(w: World, w': World) {
    w' == w.(hidden := w'.hidden, hiddenUsd := w'.hiddenUsd)
  }

  /** All that later prompts can depend on. */
  ghost predicate SameToModels(p: Progress, p': Progress) {
    p.log == p'.log && p.failures == p'.failures && p.carried == p'.carried
  }

  /** The one bit tier k takes from the held-out partition; None when tier k
      does not consult it. */
  function Verdict(w: World, cfg: Config, k: nat, plan: string, p: Progress): Option<bool>
    requires k < |cfg.tiers|
  {
    var (_, cands) := Sampled(w, cfg, k, plan, p);
    if Consults(w, cfg, k, cands) then Some(w.hidden(Representative(w, cands).source).ok) else None
  }

  lemma {:induction false} SamplesAreVisible(w: World, w': World, log: seq<Prompt>, k: nat, plan: string,
                                             avoid: seq<string>, n: nat)
    requires SameVisibly(w, w')
    ensures Samples(w', log, k, plan, avoid, n) == Samples(w, log, k, plan, avoid, n)
  {
    if n != 0 {
      SamplesAreVisible(w, w', log, k, plan, avoid, n - 1);
    }
  }

  lemma {:induction false} RecordingIsVisible(w: World, w': World, cfg: Config, fs: seq<Failure>,
                                              cands: seq<Candidate>)
    requires SameVisibly(w, w')
    ensures RecordFailures(w', cfg, fs, cands) == RecordFailures(w, cfg, fs, cands)
  {
    if cands != [] {
      RecordingIsVisible(w, w', cfg, fs, cands[..|cands| - 1]);
    }
  }

  lemma {:induction false} RepairIsVisible(w: World, w': World, cfg: Config, k: nat, cur: Candidate, round: nat,
                                           p: Progress, p': Progress)
    requires k < |cfg.tiers| && SameVisibly(w, w') && SameToModels(p, p')
    ensures var (q, c), (q', c') := RepairFrom(w, cfg, k, cur, round, p),
                                    RepairFrom(w', cfg, k, cur, round, p');
      SameToModels(q, q') && c == c'
    decreases cfg.tiers[k].repairDepth - round
  {
    hide RepairFrom, VerifyUsd;
    RepairUnfolds(w, cfg, k, cur, round, p);
    RepairUnfolds(w', cfg, k, cur, round, p');
    if round < cfg.tiers[k].repairDepth {
      var ask := RepairPrompt(k, cur.source, cur.report.failedAt, cur.report.diag);
      var text := w.reply(p.log, ask);
      var sent, sent' := p.Sent(ask, w.modelUsd(ask, text)), p'.Sent(ask, w'.modelUsd(ask, text));
      if w.extract(text).Some? {
        var src := w.extract(text).value;
        var rep := w.visible(src);
        var step := Step(k, if rep.ok then Repair else Escalate, 0.0, "");
        var next := sent.(spend := sent.spend + VerifyUsd(w, src)).Traced(step);
        var next' := sent'.(spend := sent'.spend + VerifyUsd(w', src)).Traced(step);
        if !rep.ok {
          RepairIsVisible(w, w', cfg, k, Candidate(1000 + round, src, rep), round + 1, next, next');
        }
      }
    }
  }

  /** Sampling and repair send the same prompts and produce the same candidates,
      whatever the held-out partition is. */
  lemma SamplingIsVisible(w: World, w': World, cfg: Config, k: nat, plan: string, p: Progress, p': Progress)
    requires k < |cfg.tiers| && SameVisibly(w, w') && SameToModels(p, p')
    ensures var (s, c), (s', c') := Sampled(w, cfg, k, plan, p), Sampled(w', cfg, k, plan, p');
      SameToModels(s, s') && c == c'
    ensures FirstSamples(w, cfg, k, plan, p) == FirstSamples(w', cfg, k, plan, p')
  {
    hide Samples, SampleUsd, RecordFailures, RepairFrom, SamplePrompts;
    var n, avoid := cfg.tiers[k].samples, Avoid(cfg, p);
    var cands := Samples(w, p.log, k, plan, avoid, n);
    SamplesAreVisible(w, w', p.log, k, plan, avoid, n);
    RecordingIsVisible(w, w', cfg, p.failures, cands);
    if VoteOf(w, cands).None? && cands != [] {
      var asked := p.(log := p.log + SamplePrompts(k, plan, avoid, n),
                      spend := p.spend + SampleUsd(w, p.log, k, plan, avoid, n));
      var asked' := p'.(log := p'.log + SamplePrompts(k, plan, avoid, n),
                        spend := p'.spend + SampleUsd(w', p'.log, k, plan, avoid, n));
      RepairIsVisible(w, w', cfg, k, cands[BestRefuted(cands)], 0,
                      asked.(failures := RecordFailures(w, cfg, asked.failures, cands)),
                      asked'.(failures := RecordFailures(w', cfg, asked'.failures, cands)));
    }
  }

  /** One tier: whatever the verdict, the prompts sent by its end are the same;
      and if the one-bit verdicts agree, so does everything later prompts see. */
  lemma TierIsolation(w: World, w': World, cfg: Config, k: nat, plan: string, p: Progress, p': Progress)
    requires k < |cfg.tiers| && SameVisibly(w, w') && SameToModels(p, p')
    ensures TierRun(w, cfg, k, plan, p).log == TierRun(w', cfg, k, plan, p').log
    ensures Verdict(w, cfg, k, plan, p) == Verdict(w', cfg, k, plan, p') ==>
      && SameToModels(TierRun(w, cfg, k, plan, p), TierRun(w', cfg, k, plan, p'))
      && (p.accepted.None? && p'.accepted.None? ==>
            TierRun(w, cfg, k, plan, p).accepted == TierRun(w', cfg, k, plan, p').accepted)
  {
    hide Sampled, FirstSamples, RecordFailures;
    SamplingIsVisible(w, w', cfg, k, plan, p, p');
    SampledKeepsAccepted(w, cfg, k, plan, p);
    SampledKeepsAccepted(w', cfg, k, plan, p');
    var (s, cands) := Sampled(w, cfg, k, plan, p);
    if Consults(w, cfg, k, cands) {
      RecordingIsVisible(w, w', cfg, s.failures, [Representative(w, cands)]);
    }
  }

  lemma {:induction false} RepairKeepsAccepted(w: World, cfg: Config, k: nat, cur: Candidate, round: nat, p: Progress)
    requires k < |cfg.tiers|
    ensures RepairFrom(w, cfg, k, cur, round, p).0.accepted == p.accepted
    decreases cfg.tiers[k].repairDepth - round
  {
    hide RepairFrom, VerifyUsd;
    RepairUnfolds(w, cfg, k, cur, round, p);
    if round < cfg.tiers[k].repairDepth {
      var ask := RepairPrompt(k, cur.source, cur.report.failedAt, cur.report.diag);
      var text := w.reply(p.log, ask);
      var sent := p.Sent(ask, w.modelUsd(ask, text));
      if w.extract(text).Some? {
        var src := w.extract(text).value;
        var rep := w.visible(src);
        RepairKeepsAccepted(w, cfg, k, Candidate(1000 + round, src, rep), round + 1,
          sent.(spend := sent.spend + VerifyUsd(w, src)).Traced(Step(k, if rep.ok then Repair else Escalate, 0.0, "")));
      }
    }
  }

  lemma SampledKeepsAccepted(w: World, cfg: Config, k: nat, plan: string, p: Progress)
    requires k < |cfg.tiers|
    ensures Sampled(w, cfg, k, plan, p).0.accepted == p.accepted
  {
    hide Samples, SampleUsd, RecordFailures, RepairFrom, SamplePrompts;
    var n, avoid := cfg.tiers[k].samples, Avoid(cfg, p);
    var cands := Samples(w, p.log, k, plan, avoid, n);
    var asked := p.(log := p.log + SamplePrompts(k, plan, avoid, n),
                    spend := p.spend + SampleUsd(w, p.log, k, plan, avoid, n));
    var noted := asked.(failures := RecordFailures(w, cfg, asked.failures, cands));
    if VoteOf(w, cands).None? && cands != [] {
      RepairKeepsAccepted(w, cfg, k, cands[BestRefuted(cands)], 0, noted);
    }
  }

  /** The run's state when tier k is about to start; a run that accepted earlier
      stays where it stopped. */
  function StateBefore(w: World, cfg: Config, failures: seq<Failure>, k: nat): Progress
    requires k <= |cfg.tiers|
  {
    if k == 0 then Planned(w, cfg, Progress([], failures, [], 0.0, [], None))
    else
      var p := StateBefore(w, cfg, failures, k - 1);
      if p.accepted.Some? then p else TierRun(w, cfg, k - 1, PlanOf(w, cfg, []), p)
  }

  lemma {:induction false} RunsThroughStates(w: World, cfg: Config, failures: seq<Failure>, k: nat)
    requires k <= |cfg.tiers|
    ensures RunFrom(w, cfg, k, PlanOf(w, cfg, []), StateBefore(w, cfg, failures, k)) == SequentialOf(w, cfg, failures)
  {
    hide TierRun;
    if k != 0 {
      RunsThroughStates(w, cfg, failures, k - 1);
    }
  }

  /** The run's final state is the state after its last tier. */
  lemma SequentialIsLastState(w: World, cfg: Config, failures: seq<Failure>)
    ensures SequentialOf(w, cfg, failures) == StateBefore(w, cfg, failures, |cfg.tiers|)
  {
    hide TierRun;
    RunsThroughStates(w, cfg, failures, |cfg.tiers|);
  }

  /** The bit tier j took, in a run still under way there. */
  function VerdictAt(w: World, cfg: Config, failures: seq<Failure>, j: nat): Option<bool>
    requires j < |cfg.tiers|
  {
    var p := StateBefore(w, cfg, failures, j);
    if p.accepted.Some? then None else Verdict(w, cfg, j, PlanOf(w, cfg, []), p)
  }

  lemma {:induction false} AgreeingVerdictsAgree(w: World, w': World, cfg: Config, failures: seq<Failure>, k: nat)
    requires k <= |cfg.tiers| && SameVisibly(w, w')
    requires forall j :: 0 <= j < k ==> VerdictAt(w, cfg, failures, j) == VerdictAt(w', cfg, failures, j)
    ensures SameToModels(StateBefore(w, cfg, failures, k), StateBefore(w', cfg, failures, k))
    ensures StateBefore(w, cfg, failures, k).accepted == StateBefore(w', cfg, failures, k).accepted
  {
    hide TierRun, Verdict;
    if k != 0 {
      AgreeingVerdictsAgree(w, w', cfg, failures, k - 1);
      var p, p' := StateBefore(w, cfg, failures, k - 1), StateBefore(w', cfg, failures, k - 1);
      assert VerdictAt(w, cfg, failures, k - 1) == VerdictAt(w', cfg, failures, k - 1);
      if p.accepted.None? {
        TierIsolation(w, w', cfg, k - 1, PlanOf(w, cfg, []), p, p');
      }
    }
  }

  /** Holdout isolation: two runs that differ only in the held-out partition
      send identical prompts through tier k, for every k up to and including the
      first tier whose one-bit acceptance verdict differs. Diagnostics, test
      vectors and the partition's cost reach no prompt: not through repair, not
      through carried notes, not through the failure cache. */
  lemma HoldoutIsolation(w: World, w': World, cfg: Config, failures: seq<Failure>, k: nat)
    requires k < |cfg.tiers| && SameVisibly(w, w')
    requires forall j :: 0 <= j < k ==> VerdictAt(w, cfg, failures, j) == VerdictAt(w', cfg, failures, j)
    ensures StateBefore(w, cfg, failures, k).log == StateBefore(w', cfg, failures, k).log
    ensures StateBefore(w, cfg, failures, k + 1).log == StateBefore(w', cfg, failures, k + 1).log
  {
    hide TierRun, Verdict;
    AgreeingVerdictsAgree(w, w', cfg, failures, k);
    var p, p' := StateBefore(w, cfg, failures, k), StateBefore(w', cfg, failures, k);
    if p.accepted.None? {
      TierIsolation(w, w', cfg, k, PlanOf(w, cfg, []), p, p');
    }
  }

  /** So the whole prompt log is determined by the sequence of verdict bits. */
  lemma PromptsDependOnBitsOnly(w: World, w': World, cfg: Config, failures: seq<Failure>)
    requires SameVisibly(w, w')
    requires forall j :: 0 <= j < |cfg.tiers| ==> VerdictAt(w, cfg, failures, j) == VerdictAt(w', cfg, failures, j)
    ensures SequentialOf(w, cfg, failures).log == SequentialOf(w', cfg, failures).log
    ensures SequentialOf(w, cfg, failures).accepted == SequentialOf(w', cfg, failures).accepted
  {
    AgreeingVerdictsAgree(w, w', cfg, failures, |cfg.tiers|);
    SequentialIsLastState(w, cfg, failures);
    SequentialIsLastState(w', cfg, failures);
  }

  /** Nothing is ever returned that the held-out partition refuted. */
  lemma {:induction false} AcceptedMeansHeldOutPassed(w: World, cfg: Config, failures: seq<Failure>, k: nat)
    requires k <= |cfg.tiers|
    ensures var a := StateBefore(w, cfg, failures, k).accepted;
      a.Some? ==> a.value.tier < k && w.hidden(a.value.source).ok
  {
    hide Sampled, FirstSamples, RecordFailures;
    if k != 0 {
      AcceptedMeansHeldOutPassed(w, cfg, failures, k - 1);
      SampledKeepsAccepted(w, cfg, k - 1, PlanOf(w, cfg, []), StateBefore(w, cfg, failures, k - 1));
    }
  }
}
