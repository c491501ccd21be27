/** What a profiled record says, read off the prompts the profiler sends. */
module ProfileTalk {
  import opened Policy
  import opened Router
  import opened RouterReplay
  import opened RouterTalk

  /** Prompts sent before tier k: the plan, and every sample of the tiers before it. */
  function TierStart(cfg: Config, k: nat): nat
    requires k <= |cfg.tiers|
  {
    if k == 0 then |PlanAsked(cfg)| else TierStart(cfg, k - 1) + cfg.tiers[k - 1].samples
  }

  /** The profiler asks for the plan and then samples every tier in turn, each with the
      same plan and the same notes, whatever the tiers before it answered. */
  ghost predicate AsksEveryTier(w: World, cfg: Config, known: seq<Failure>, n: nat, log: seq<Prompt>)
    requires n <= |cfg.tiers|
  {
    && PlanAsked(cfg) <= log && |log| == TierStart(cfg, n)
    && forall k :: 0 <= k < n ==> AsksTier(w, cfg, known, k, log)
  }

  ghost predicate AsksTier(w: World, cfg: Config, known: seq<Failure>, k: nat, log: seq<Prompt>)
    requires k < |cfg.tiers|
  {
    AsksSamples(log, TierStart(cfg, k), k, cfg.tiers[k].samples, PlanHeard(w, cfg), KnownShown(cfg, known))
  }

  lemma SameWords(w: World, cfg: Config, known: seq<Failure>)
    ensures PlanLog(cfg) == PlanAsked(cfg) && PlanOf(w, cfg, []) == PlanHeard(w, cfg)
    ensures KnownNotes(cfg, known) == KnownShown(cfg, known)
    ensures PlanUsd(w, cfg) == if cfg.twoStage then w.modelUsd(PlanPrompt, PlanHeard(w, cfg)) else 0.0
  {
    NotesByIndex(known);
  }

  lemma {:induction false} StartsGrow(cfg: Config, j: nat, k: nat)
    requires j < k <= |cfg.tiers|
    ensures TierStart(cfg, j) + cfg.tiers[j].samples <= TierStart(cfg, k)
    decreases k
  {
    if j < k - 1 {
      StartsGrow(cfg, j, k - 1);
    }
  }

  lemma {:induction false} ProfileAsks(w: World, cfg: Config, known: seq<Failure>, n: nat)
    requires n <= |cfg.tiers|
    ensures AsksEveryTier(w, cfg, known, n, ProfileLog(w, cfg, known, n))
  {
    hide FailureNotes, SamplePrompts, KnownShown, PlanHeard, KnownNotes, PlanOf;
    SameWords(w, cfg, known);
    if n != 0 {
      ProfileAsks(w, cfg, known, n - 1);
      var before, log := ProfileLog(w, cfg, known, n - 1), ProfileLog(w, cfg, known, n);
      PromptsByIndex(n - 1, PlanHeard(w, cfg), KnownShown(cfg, known), cfg.tiers[n - 1].samples);
      assert before <= log;
      forall k | 0 <= k < n
        ensures AsksTier(w, cfg, known, k, log)
      {
        if k < n - 1 {
          StartsGrow(cfg, k, n - 1);
          assert AsksTier(w, cfg, known, k, before);
        }
      }
    }
  }

  /** What tier k was heard to answer. */
  function TierHeard(w: World, cfg: Config, k: nat, log: seq<Prompt>): seq<Candidate>
    requires k < |cfg.tiers| && TierStart(cfg, k) + cfg.tiers[k].samples <= |log|
  {
    SamplesHeard(w, log, TierStart(cfg, k), cfg.tiers[k].samples)
  }

  /** One tier's entry: the cluster score and the held-out verdict of whoever speaks for
      it, at the price of its prompts and of that verdict; the plan is on tier 0. */
  ghost predicate TierEntryReads(w: World, cfg: Config, k: nat, log: seq<Prompt>, obs: TierObs)
    requires k < |cfg.tiers| && TierStart(cfg, k) + cfg.tiers[k].samples <= |log|
  {
    var (cands, start) := (TierHeard(w, cfg, k, log), TierStart(cfg, k));
    var asked := Bill(w, log, start, start + cfg.tiers[k].samples)
                 + if k == 0 && cfg.twoStage then w.modelUsd(PlanPrompt, PlanHeard(w, cfg)) else 0.0;
    && obs.tier == cfg.tiers[k].name && obs.trueCorrect.None? && !obs.timedOut
    && (cands == [] || w.vote(cands).None? ==> obs.score == 0.0 && !obs.correct && obs.cost == asked)
    && forall i: nat :: cands != [] && w.vote(cands).Some? && SpeaksFor(cands, w.vote(cands).value.rep, i) ==>
         && obs.score == w.vote(cands).value.score
         && obs.correct == w.hidden(cands[i].source).ok
         && obs.cost == asked + w.hiddenUsd(cands[i].source)
  }

  lemma {:induction false} ProfileLogGrows(w: World, cfg: Config, known: seq<Failure>, j: nat, k: nat)
    requires j <= k <= |cfg.tiers|
    ensures ProfileLog(w, cfg, known, j) <= ProfileLog(w, cfg, known, k)
    decreases k
  {
    hide SamplePrompts;
    if j < k {
      ProfileLogGrows(w, cfg, known, j, k - 1);
    }
  }

  lemma ObservationReads(w: World, cfg: Config, k: nat, log: seq<Prompt>, cands: seq<Candidate>, usd: real, plan: real)
    requires k < |cfg.tiers| && TierStart(cfg, k) + cfg.tiers[k].samples <= |log|
    requires cands == TierHeard(w, cfg, k, log)
    requires usd == Bill(w, log, TierStart(cfg, k), TierStart(cfg, k) + cfg.tiers[k].samples)
    requires plan == if k == 0 && cfg.twoStage then w.modelUsd(PlanPrompt, PlanHeard(w, cfg)) else 0.0
    ensures var obs := Observed(w, cfg, k, cands, usd);
      TierEntryReads(w, cfg, k, log, obs.(cost := obs.cost + plan))
  {
    hide TierHeard, Bill, TierStart;
    forall i: nat | cands != [] && w.vote(cands).Some? && SpeaksFor(cands, w.vote(cands).value.rep, i)
      ensures Representative(w, cands) == cands[i]
    {
      SpeakerIsRepresentative(w, cands, i);
    }
  }

  /** The profiled record, tier by tier. */
  lemma ProfileIsReadable(w: World, cfg: Config, known: seq<Failure>, id: string, audit: Audit, k: nat)
    requires k < |cfg.tiers|
    ensures var (rec, log) := (ProfileOf(w, cfg, known, id, audit), ProfileLog(w, cfg, known, |cfg.tiers|));
      && AsksEveryTier(w, cfg, known, |cfg.tiers|, log)
      && TierStart(cfg, k) + cfg.tiers[k].samples <= |log| && |rec.tiers| == |cfg.tiers|
      && TierEntryReads(w, cfg, k, log, rec.tiers[k])
      && rec.id == id && !rec.cacheHit && rec.shadow
      && rec.contaminated == audit.contaminated && rec.oracleUnsound == audit.unsound
      && rec.oracleInconclusive == audit.inconclusive
  {
    var all, log := ProfileLog(w, cfg, known, |cfg.tiers|), ProfileLog(w, cfg, known, k);
    var start, n := TierStart(cfg, k), cfg.tiers[k].samples;
    SameWords(w, cfg, known);
    ProfileAsks(w, cfg, known, |cfg.tiers|);
    ProfileAsks(w, cfg, known, k);
    ProfileLogGrows(w, cfg, known, k, |cfg.tiers|);
    StartsGrow(cfg, k, |cfg.tiers|);
    TierIsHeard(w, cfg, known, k);
    hide *;
    ObsIs(w, cfg, known, k);
  }

  lemma TierIsHeard(w: World, cfg: Config, known: seq<Failure>, k: nat)
    requires k < |cfg.tiers| && TierStart(cfg, k) + cfg.tiers[k].samples <= |ProfileLog(w, cfg, known, |cfg.tiers|)|
    ensures TierEntryReads(w, cfg, k, ProfileLog(w, cfg, known, |cfg.tiers|), ObsOf(w, cfg, known, k))
  {
    hide KnownShown, PlanHeard, PlanAsked, SamplesHeard, Samples, SampleUsd, Bill, ProfileLog, TierStart, KnownNotes, PlanOf,
         PlanLog, Observed, PlanUsd, ObsOf, AsksSamples;
    var log, all := ProfileLog(w, cfg, known, k), ProfileLog(w, cfg, known, |cfg.tiers|);
    var n := cfg.tiers[k].samples;
    SameWords(w, cfg, known);
    ProfileAsks(w, cfg, known, k);
    ProfileAsks(w, cfg, known, |cfg.tiers|);
    ProfileLogGrows(w, cfg, known, k, |cfg.tiers|);
    FanOutIsReadable(w, log, k, PlanHeard(w, cfg), KnownShown(cfg, known), n, all) by {
      assert AsksTier(w, cfg, known, k, all);
    }
    ObsIs(w, cfg, known, k);
    hide *;
    ObservationReads(w, cfg, k, all, TierHeard(w, cfg, k, all), Bill(w, all, TierStart(cfg, k), TierStart(cfg, k) + n),
                     if k == 0 && cfg.twoStage then w.modelUsd(PlanPrompt, PlanHeard(w, cfg)) else 0.0);
  }
}
