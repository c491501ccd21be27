/** internal/cascade/cascade.go: the online router's tier loop. Model replies, the
    verifier, hashing and prices are arbitrary functions. */
module Router {
  import opened Wrappers

  /** The visible ladder's report on one program. */
  datatype Report = Report(ok: bool, failedAt: nat, diag: string)

  /** The held-out partition's report. */
  datatype Hidden = Hidden(ok: bool, diag: string)

  datatype Candidate = Candidate(index: nat, source: string, report: Report)

  /** cluster.Score's answer: the routing score and the representative's index. */
  datatype Vote = Vote(score: real, rep: nat)

  datatype Prompt =
    | PlanPrompt
    | CodePrompt(tier: nat, nonce: nat, plan: string, avoid: seq<string>)
    | RepairPrompt(tier: nat, prev: string, stage: nat, diag: string)

  datatype Failure = Failure(canon: string, stage: nat, summary: string)

  datatype Tier = Tier(name: string, samples: nat, repairDepth: nat, outPerMTok: real)

  datatype Config = Config(
    tiers: seq<Tier>,
    twoStage: bool,
    cacheDisabled: bool,
    thresholds: Option<seq<real>>)          // of a valid certificate

  /** Everything outside the router. A reply may depend on all earlier prompts. */
  datatype World = World(
    reply: (seq<Prompt>, Prompt) -> string,
    extract: string -> Option<string>,
    visible: string -> Report,
    hidden: string -> Hidden,
    vote: seq<Candidate> -> Option<Vote>,
    canon: string -> Option<string>,
    note: Report -> string,                 // summarise
    lowScore: real -> string,               // the carried note on a low score
    modelUsd: (Prompt, string) -> real,
    visibleUsd: string -> real,
    hiddenUsd: string -> real)

  datatype Action = Accept | Repair | Escalate | Reject

  datatype Step = Step(tier: nat, action: Action, score: real, diag: string)

  datatype Acceptance = Acceptance(tier: nat, source: string, score: real)

  /** Router state between two actions: prompts sent so far, the failure cache,
      notes carried to the next tier, money spent, the trace, and the answer. */
  datatype Progress = Progress(
    log: seq<Prompt>,
    failures: seq<Failure>,
    carried: seq<string>,
    spend: real,
    steps: seq<Step>,
    accepted: Option<Acceptance>)
  {
    function Sent(p: Prompt, usd: real): Progress {
      this.(log := log + [p], spend := spend + usd)
    }

    function Traced(s: Step): Progress {
      this.(steps := steps + [s])
    }
  }

  const HOLDOUT_NOTE: string :=
    "a prior candidate passed the visible tests but failed the held-out partition"

  // ------------------------------------------------------------ pieces

  /** The accept threshold for tier k and the uncalibrated priors. */
  function Threshold(cfg: Config, k: nat): real {
    if cfg.thresholds.Some? && k < |cfg.thresholds.value| then cfg.thresholds.value[k]
    else if k == 0 then 0.6 else 0.5
  }

  /** preferRepair: the gain per dollar of one repair call beats that of a full sample
      at the next tier. A gain over a price of 0 is infinite, and infinities tie. */
  predicate PrefersRepair(tiers: seq<Tier>, k: nat)
    requires k < |tiers|
  {
    && 0 < tiers[k].repairDepth
    && (k == |tiers| - 1
        || var (repair, escalate) := (tiers[k].outPerMTok, tiers[k + 1].outPerMTok * tiers[k + 1].samples as real);
           if repair == 0.0 || escalate == 0.0 then escalate != 0.0 else 0.35 / escalate < 0.45 / repair)
  }

  function FailureNotes(fs: seq<Failure>): seq<string> {
    if fs == [] then [] else FailureNotes(fs[..|fs| - 1]) + [fs[|fs| - 1].summary]
  }

  function Avoid(cfg: Config, p: Progress): seq<string> {
    p.carried + if cfg.cacheDisabled then [] else FailureNotes(p.failures)
  }

  /** verifyOne's compute charge: the hidden partition also runs on survivors. */
  function VerifyUsd(w: World, src: string): real {
    w.visibleUsd(src) + if w.visible(src).ok then w.hiddenUsd(src) else 0.0
  }

  function CandidateOf(w: World, nonce: nat, text: string): Candidate {
    match w.extract(text)
    case None => Candidate(nonce, text, Report(false, 0, "no code"))
    case Some(src) => Candidate(nonce, src, w.visible(src))
  }

  function CandidateUsd(w: World, p: Prompt, text: string): real {
    w.modelUsd(p, text) + match w.extract(text) case None => 0.0 case Some(src) => VerifyUsd(w, src)
  }

  /** The first n samples of a tier. All are asked before any reply is seen, so
      every reply is drawn against the prompts sent before the tier. */
  function Samples(w: World, before: seq<Prompt>, k: nat, plan: string, avoid: seq<string>, n: nat):
    seq<Candidate>
  {
    if n == 0 then []
    else
      var p := CodePrompt(k, n - 1, plan, avoid);
      Samples(w, before, k, plan, avoid, n - 1) + [CandidateOf(w, n - 1, w.reply(before, p))]
  }

  function SamplePrompts(k: nat, plan: string, avoid: seq<string>, n: nat): seq<Prompt> {
    if n == 0 then [] else SamplePrompts(k, plan, avoid, n - 1) + [CodePrompt(k, n - 1, plan, avoid)]
  }

  function SampleUsd(w: World, before: seq<Prompt>, k: nat, plan: string, avoid: seq<string>, n: nat): real {
    if n == 0 then 0.0
    else
      var p := CodePrompt(k, n - 1, plan, avoid);
      SampleUsd(w, before, k, plan, avoid, n - 1) + CandidateUsd(w, p, w.reply(before, p))
  }

  function VoteOf(w: World, cands: seq<Candidate>): Option<Vote> {
    if cands == [] then None else w.vote(cands)
  }

  /** indexOf: the first candidate with that index, or the first of all. */
  function IndexOf(cands: seq<Candidate>, idx: nat): (i: nat)
    requires cands != []
    ensures i < |cands| && forall j :: 0 <= j < i ==> cands[j].index != idx
    ensures cands[i].index == idx || i == 0
  {
    if exists j :: 0 <= j < |cands| && cands[j].index == idx then FirstWith(cands, idx, 0) else 0
  }

  function FirstWith(cands: seq<Candidate>, idx: nat, from: nat): (i: nat)
    requires exists j :: from <= j < |cands| && cands[j].index == idx
    ensures from <= i < |cands| && cands[i].index == idx
    ensures forall j :: from <= j < i ==> cands[j].index != idx
    decreases |cands| - from
  {
    if cands[from].index == idx then from else FirstWith(cands, idx, from + 1)
  }

  /** bestRefuted: the first candidate that got furthest up the ladder. */
  function BestRefuted(cands: seq<Candidate>): (i: nat)
    requires cands != []
    ensures i < |cands|
    ensures forall j :: 0 <= j < |cands| ==> cands[j].report.failedAt <= cands[i].report.failedAt
    ensures forall j :: 0 <= j < i ==> cands[j].report.failedAt < cands[i].report.failedAt
  {
    if |cands| == 1 then 0
    else
      var i := BestRefuted(cands[..|cands| - 1]);
      if cands[i].report.failedAt < cands[|cands| - 1].report.failedAt then |cands| - 1 else i
  }

  /** AddFailure: duplicates collapse, and only the last 64 are kept. */
  function AddFailure(fs: seq<Failure>, f: Failure): seq<Failure> {
    if exists i :: 0 <= i < |fs| && fs[i].canon == f.canon then fs
    else if |fs| + 1 > 64 then (fs + [f])[|fs| + 1 - 64..] else fs + [f]
  }

  /** recordFailure: survivors of the visible ladder are never recorded. */
  function RecordFailures(w: World, cfg: Config, fs: seq<Failure>, cands: seq<Candidate>): seq<Failure> {
    if cfg.cacheDisabled || cands == [] then fs
    else
      var rest, c := RecordFailures(w, cfg, fs, cands[..|cands| - 1]), cands[|cands| - 1];
      if c.report.ok || w.canon(c.source).None? then rest
      else AddFailure(rest, Failure(w.canon(c.source).value, c.report.failedAt, w.note(c.report)))
  }

  /** repairLoop from `round`: what it sends, and the repaired candidate if any. */
  function RepairFrom(w: World, cfg: Config, k: nat, cur: Candidate, round: nat, p: Progress):
    (Progress, Option<Candidate>)
    requires k < |cfg.tiers|
    decreases cfg.tiers[k].repairDepth - round
  {
    if cfg.tiers[k].repairDepth <= round then (p, None)
    else
      var ask := RepairPrompt(k, cur.source, cur.report.failedAt, cur.report.diag);
      var text := w.reply(p.log, ask);
      var sent := p.Sent(ask, w.modelUsd(ask, text));
      match w.extract(text)
      case None => (sent, None)
      case Some(src) =>
        var rep := w.visible(src);
        var cand := Candidate(1000 + round, src, rep);
        var action := if rep.ok then Repair else Escalate;
        var next := sent.(spend := sent.spend + VerifyUsd(w, src)).Traced(Step(k, action, 0.0, ""));
        if rep.ok then (next, Some(cand)) else RepairFrom(w, cfg, k, cand, round + 1, next)
  }

  lemma RepairUnfolds(w: World, cfg: Config, k: nat, cur: Candidate, round: nat, p: Progress)
    requires k < |cfg.tiers|
    ensures cfg.tiers[k].repairDepth <= round ==> RepairFrom(w, cfg, k, cur, round, p) == (p, None)
    ensures round < cfg.tiers[k].repairDepth ==>
      var ask := RepairPrompt(k, cur.source, cur.report.failedAt, cur.report.diag);
      var text := w.reply(p.log, ask);
      var sent := p.Sent(ask, w.modelUsd(ask, text));
      RepairFrom(w, cfg, k, cur, round, p)
      == match w.extract(text)
         case None => (sent, None)
         case Some(src) =>
           var rep := w.visible(src);
           var cand := Candidate(1000 + round, src, rep);
           var next := sent.(spend := sent.spend + VerifyUsd(w, src))
                           .Traced(Step(k, if rep.ok then Repair else Escalate, 0.0, ""));
           if rep.ok then (next, Some(cand)) else RepairFrom(w, cfg, k, cand, round + 1, next)
  {
    hide VerifyUsd;
  }

  /** A tier's sampling and, when nothing survives, its repair. */
  function Sampled(w: World, cfg: Config, k: nat, plan: string, p: Progress): (Progress, seq<Candidate>)
    requires k < |cfg.tiers|
  {
    var n, avoid := cfg.tiers[k].samples, Avoid(cfg, p);
    var cands := Samples(w, p.log, k, plan, avoid, n);
    var asked := p.(log := p.log + SamplePrompts(k, plan, avoid, n),
                    spend := p.spend + SampleUsd(w, p.log, k, plan, avoid, n));
    if VoteOf(w, cands).Some? then (asked, cands)
    else
      var noted := asked.(failures := RecordFailures(w, cfg, asked.failures, cands));
      if cands != [] && PrefersRepair(cfg.tiers, k) then
        var (after, fixed) := RepairFrom(w, cfg, k, cands[BestRefuted(cands)], 0, noted);
        (after, if fixed.Some? then cands + [fixed.value] else cands)
      else (noted, cands)
  }

  /** Whether tier k puts its representative to the held-out partition. */
  predicate Consults(w: World, cfg: Config, k: nat, cands: seq<Candidate>) {
    VoteOf(w, cands).Some?
    && (Threshold(cfg, k) <= VoteOf(w, cands).value.score || k == |cfg.tiers| - 1)
  }

  function Representative(w: World, cands: seq<Candidate>): Candidate
    requires VoteOf(w, cands).Some?
  {
    cands[IndexOf(cands, VoteOf(w, cands).value.rep)]
  }

  /** Routing one tier's outcome: escalate, or put the representative to the
      held-out partition. `first` are the samples drawn before any repair. */
  function Decided(w: World, cfg: Config, k: nat, first: seq<Candidate>, cands: seq<Candidate>, s: Progress):
    Progress
    requires k < |cfg.tiers|
  {
    var vote := VoteOf(w, cands);
    if vote.None? then
      s.(carried := s.carried + if first == [] then [] else [w.note(first[BestRefuted(first)].report)])
       .Traced(Step(k, Escalate, 0.0, ""))
    else if !Consults(w, cfg, k, cands) then
      s.(carried := s.carried + [w.lowScore(vote.value.score)]).Traced(Step(k, Escalate, vote.value.score, ""))
    else
      var rep := Representative(w, cands);
      var verdict := w.hidden(rep.source);
      var paid := s.(spend := s.spend + w.hiddenUsd(rep.source));
      if verdict.ok then
        paid.(accepted := Some(Acceptance(k, rep.source, vote.value.score)))
            .Traced(Step(k, Accept, vote.value.score, ""))
      else
        paid.(failures := RecordFailures(w, cfg, paid.failures, [rep]), carried := paid.carried + [HOLDOUT_NOTE])
            .Traced(Step(k, Reject, vote.value.score, verdict.diag))
  }

  function FirstSamples(w: World, cfg: Config, k: nat, plan: string, p: Progress): seq<Candidate>
    requires k < |cfg.tiers|
  {
    Samples(w, p.log, k, plan, Avoid(cfg, p), cfg.tiers[k].samples)
  }

  /** One whole tier. */
  function TierRun(w: World, cfg: Config, k: nat, plan: string, p: Progress): Progress
    requires k < |cfg.tiers|
  {
    var (s, cands) := Sampled(w, cfg, k, plan, p);
    Decided(w, cfg, k, FirstSamples(w, cfg, k, plan, p), cands, s)
  }

  /** Tiers k.. until one accepts. */
  function RunFrom(w: World, cfg: Config, k: nat, plan: string, p: Progress): Progress
    requires k <= |cfg.tiers|
    decreases |cfg.tiers| - k
  {
    if k == |cfg.tiers| || p.accepted.Some? then p
    else RunFrom(w, cfg, k + 1, plan, TierRun(w, cfg, k, plan, p))
  }

  function PlanOf(w: World, cfg: Config, log: seq<Prompt>): string {
    if cfg.twoStage then w.reply(log, PlanPrompt) else ""
  }

  /** The one cascade-level planner call; an empty plan is not charged. */
  function Planned(w: World, cfg: Config, p: Progress): Progress {
    var plan := PlanOf(w, cfg, p.log);
    if !cfg.twoStage then p
    else p.(log := p.log + [PlanPrompt],
            spend := p.spend + if plan == "" then 0.0 else w.modelUsd(PlanPrompt, plan))
  }

  function SequentialOf(w: World, cfg: Config, failures: seq<Failure>): Progress {
    var start := Progress([], failures, [], 0.0, [], None);
    RunFrom(w, cfg, 0, PlanOf(w, cfg, []), Planned(w, cfg, start))
  }

  // ------------------------------------------------------------ the loops

  /** The router's mutable state during one query: the result it fills in and
      the failure cache it reads and writes. */
  class Session {
    var log: seq<Prompt>
    var failures: seq<Failure>
    var spend: real
    var steps: seq<Step>
    var accepted: Option<Acceptance>

    ghost function State(carried: seq<string>): Progress
      reads this
    {
      Progress(log, failures, carried, spend, steps, accepted)
    }

    constructor (known: seq<Failure>)
      ensures State([]) == Progress([], known, [], 0.0, [], None)
    {
      log, failures, spend, steps, accepted := [], known, 0.0, [], None;
    }

    method SampleTier(w: World, cfg: Config, k: nat, plan: string, carried: seq<string>)
      returns (cands: seq<Candidate>)
      requires k < |cfg.tiers|
      modifies this`log, this`spend
      ensures var n, avoid := cfg.tiers[k].samples, Avoid(cfg, old(State(carried)));
        && cands == Samples(w, old(log), k, plan, avoid, n)
        && log == old(log) + SamplePrompts(k, plan, avoid, n)
        && spend == old(spend) + SampleUsd(w, old(log), k, plan, avoid, n)
    {
      var avoid := carried;
      if !cfg.cacheDisabled {
        avoid := avoid + FailureNotes(failures);
      }
      var before := log;
      cands := [];
      for i := 0 to cfg.tiers[k].samples
        invariant avoid == Avoid(cfg, old(State(carried)))
        invariant cands == Samples(w, before, k, plan, avoid, i)
        invariant log == before + SamplePrompts(k, plan, avoid, i)
        invariant spend == old(spend) + SampleUsd(w, before, k, plan, avoid, i)
      {
        var p := CodePrompt(k, i, plan, avoid);
        var text := w.reply(before, p);
        log := log + [p];
        spend := spend + CandidateUsd(w, p, text);
        cands := cands + [CandidateOf(w, i, text)];
      }
    }

    method RecordFailure(w: World, cfg: Config, cands: seq<Candidate>)
      modifies this`failures
      ensures failures == RecordFailures(w, cfg, old(failures), cands)
    {
      if cfg.cacheDisabled {
        return;
      }
      for i := 0 to |cands|
        invariant failures == RecordFailures(w, cfg, old(failures), cands[..i])
      {
        assert cands[..i + 1][..i] == cands[..i];
        var c := cands[i];
        if c.report.ok {
          continue;
        }
        var h := w.canon(c.source);
        if h.None? {
          continue;
        }
        failures := AddFailure(failures, Failure(h.value, c.report.failedAt, w.note(c.report)));
      }
      assert cands[..|cands|] == cands;
    }

    method RepairLoop(w: World, cfg: Config, k: nat, prev: Candidate, ghost carried: seq<string>)
      returns (fixed: Option<Candidate>)
      requires k < |cfg.tiers|
      modifies this`log, this`spend, this`steps
      ensures (State(carried), fixed) == RepairFrom(w, cfg, k, prev, 0, old(State(carried)))
    {
      hide RepairFrom, VerifyUsd;
      var cur := prev;
      for round := 0 to cfg.tiers[k].repairDepth
        invariant RepairFrom(w, cfg, k, cur, round, State(carried))
               == RepairFrom(w, cfg, k, prev, 0, old(State(carried)))
      {
        RepairUnfolds(w, cfg, k, cur, round, State(carried));
        var ask := RepairPrompt(k, cur.source, cur.report.failedAt, cur.report.diag);
        var text := w.reply(log, ask);
        log := log + [ask];
        spend := spend + w.modelUsd(ask, text);
        var src := w.extract(text);
        if src.None? {
          return None;
        }
        var rep := w.visible(src.value);
        spend := spend + VerifyUsd(w, src.value);
        var cand := Candidate(1000 + round, src.value, rep);
        steps := steps + [Step(k, if rep.ok then Repair else Escalate, 0.0, "")];
        if rep.ok {
          return Some(cand);
        }
        cur := cand;
      }
      RepairUnfolds(w, cfg, k, cur, cfg.tiers[k].repairDepth, State(carried));
      return None;
    }

    method Survey(w: World, cfg: Config, k: nat, plan: string, carried: seq<string>)
      returns (first: seq<Candidate>, cands: seq<Candidate>)
      requires k < |cfg.tiers|
      modifies this
      ensures accepted == old(accepted)
      ensures first == FirstSamples(w, cfg, k, plan, old(State(carried)))
      ensures (State(carried), cands) == Sampled(w, cfg, k, plan, old(State(carried)))
    {
      hide Samples, SamplePrompts, SampleUsd, RecordFailures, RepairFrom, Avoid;
      first := SampleTier(w, cfg, k, plan, carried);
      cands := first;
      if VoteOf(w, cands).None? {
        RecordFailure(w, cfg, cands);
        if cands != [] && PrefersRepair(cfg.tiers, k) {
          var fixed := RepairLoop(w, cfg, k, cands[BestRefuted(cands)], carried);
          if fixed.Some? {
            cands := cands + [fixed.value];
          }
        }
      }
    }

    method Decide(w: World, cfg: Config, k: nat, first: seq<Candidate>, cands: seq<Candidate>,
                  notes: seq<string>)
      returns (carried: seq<string>)
      requires k < |cfg.tiers|
      modifies this
      ensures State(carried) == Decided(w, cfg, k, first, cands, old(State(notes)))
    {
      hide RecordFailures;
      carried := notes;
      var vote := VoteOf(w, cands);
      if vote.None? {
        if first != [] {
          carried := carried + [w.note(first[BestRefuted(first)].report)];
        }
        steps := steps + [Step(k, Escalate, 0.0, "")];
        return;
      }
      var score := vote.value.score;
      var last := k == |cfg.tiers| - 1;
      if score < Threshold(cfg, k) && !last {
        carried := carried + [w.lowScore(score)];
        steps := steps + [Step(k, Escalate, score, "")];
        return;
      }
      var rep := cands[IndexOf(cands, vote.value.rep)];
      var verdict := w.hidden(rep.source);
      spend := spend + w.hiddenUsd(rep.source);
      if !verdict.ok {
        RecordFailure(w, cfg, [rep]);
        carried := carried + [HOLDOUT_NOTE];
        steps := steps + [Step(k, Reject, score, verdict.diag)];
        return;
      }
      accepted := Some(Acceptance(k, rep.source, score));
      steps := steps + [Step(k, Accept, score, "")];
    }

    /** One pass of the tier loop; returns the notes for the next tier. */
    method RunTier(w: World, cfg: Config, k: nat, plan: string, notes: seq<string>)
      returns (carried: seq<string>)
      requires k < |cfg.tiers|
      modifies this
      ensures State(carried) == TierRun(w, cfg, k, plan, old(State(notes)))
    {
      hide Sampled, Decided, FirstSamples;
      var first, cands := Survey(w, cfg, k, plan, notes);
      carried := Decide(w, cfg, k, first, cands, notes);
    }

    method Sequential(w: World, cfg: Config) returns (ghost carried: seq<string>)
      requires State([]) == Progress([], failures, [], 0.0, [], None)
      modifies this
      ensures State(carried) == SequentialOf(w, cfg, old(failures))
    {
      hide TierRun;
      var plan := "";
      if cfg.twoStage {
        plan := w.reply(log, PlanPrompt);
        log := log + [PlanPrompt];
        if plan != "" {
          spend := spend + w.modelUsd(PlanPrompt, plan);
        }
      }
      var notes: seq<string> := [];
      carried := notes;
      for k := 0 to |cfg.tiers|
        invariant accepted.None?
        invariant RunFrom(w, cfg, k, plan, State(notes)) == SequentialOf(w, cfg, old(failures))
      {
        notes := RunTier(w, cfg, k, plan, notes);
        if accepted.Some? {
          carried := notes;
          return;
        }
      }
      carried := notes;
    }
  }
}
