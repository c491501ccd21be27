/** What the router asks and why: every prompt, vote, answer and dollar of a tier,
    read off the prompt log and the world that replies to it. */
module RouterTalk {
  import opened Wrappers
  import opened Router

  // ------------------------------------------------------------ reading a log

  /** The prompts a reply could depend on: the samples of one fan-out are all asked
      before any of them is answered. */
  function Before(log: seq<Prompt>, i: nat): (b: nat)
    requires i < |log|
    ensures b <= i
  {
    match log[i]
    case CodePrompt(_, nonce, _, _) => if nonce <= i then i - nonce else 0
    case _ => i
  }

  function ReplyTo(w: World, log: seq<Prompt>, i: nat): string
    requires i < |log|
  {
    w.reply(log[..Before(log, i)], log[i])
  }

  /** The program in the reply to prompt i, if there is one, and its visible report. */
  function Heard(w: World, log: seq<Prompt>, i: nat, index: nat): Option<Candidate>
    requires i < |log|
  {
    var src := w.extract(ReplyTo(w, log, i));
    if src.None? then None else Some(Candidate(index, src.value, w.visible(src.value)))
  }

  /** The reply was a program and the visible tests refuted it. */
  predicate Refuted(w: World, log: seq<Prompt>, i: nat)
    requires i < |log|
  {
    Heard(w, log, i, 0).Some? && !Heard(w, log, i, 0).value.report.ok
  }

  predicate Passed(w: World, log: seq<Prompt>, i: nat)
    requires i < |log|
  {
    Heard(w, log, i, 0).Some? && Heard(w, log, i, 0).value.report.ok
  }

  /** Repair of c is asked with its source, the stage it failed at and the diagnostic. */
  predicate AsksToRepair(p: Prompt, k: nat, c: Candidate) {
    p == RepairPrompt(k, c.source, c.report.failedAt, c.report.diag)
  }

  /** Prompt i asks to repair the refuted program that answered the one before it. */
  predicate FollowsUp(w: World, k: nat, log: seq<Prompt>, i: nat)
    requires 0 < i < |log|
  {
    Refuted(w, log, i - 1) && AsksToRepair(log[i], k, Heard(w, log, i - 1, 0).value)
  }

  /** From `start` on the log is a repair of c: first its refutation, then each time the
      previous reply's own, as long as replies are refuted programs and rounds remain. */
  ghost predicate IsRepairOf(w: World, k: nat, rounds: nat, c: Candidate, start: nat, log: seq<Prompt>) {
    && start <= |log| <= start + rounds
    && (0 < rounds ==> start < |log| && AsksToRepair(log[start], k, c))
    && (forall i :: start < i < |log| ==> FollowsUp(w, k, log, i))
    && (start < |log| < start + rounds ==> !Refuted(w, log, |log| - 1))
  }

  /** The candidate a repair ends with: the last reply, if it passed. */
  function RepairedBy(w: World, log: seq<Prompt>, start: nat, first: nat): Option<Candidate> {
    if start < |log| && Passed(w, log, |log| - 1) then Heard(w, log, |log| - 1, 1000 + first + (|log| - 1 - start))
    else None
  }

  /** What prompt i cost: its reply, and running the ladder on a program in it; the
      held-out tests are run, and paid, on whatever passes the visible ones. An empty
      plan is free. */
  function PriceOf(w: World, log: seq<Prompt>, i: nat): real
    requires i < |log|
  {
    var text := ReplyTo(w, log, i);
    if log[i].PlanPrompt? then if text == "" then 0.0 else w.modelUsd(PlanPrompt, text)
    else
      var src := w.extract(text);
      w.modelUsd(log[i], text)
      + if src.None? then 0.0
        else w.visibleUsd(src.value) + if w.visible(src.value).ok then w.hiddenUsd(src.value) else 0.0
  }

  /** Prompts from..n. */
  function Bill(w: World, log: seq<Prompt>, from: nat, n: nat): real
    requires from <= n <= |log|
    decreases n - from
  {
    if from == n then 0.0 else Bill(w, log, from, n - 1) + PriceOf(w, log, n - 1)
  }

  /** One trace entry per repair reply that was a program. */
  function RepairSteps(w: World, log: seq<Prompt>, k: nat, from: nat, n: nat): seq<Step>
    requires from <= n <= |log|
    decreases n - from
  {
    if from == n then []
    else RepairSteps(w, log, k, from, n - 1)
         + if Heard(w, log, n - 1, 0).None? then []
           else [Step(k, if Passed(w, log, n - 1) then Repair else Escalate, 0.0, "")]
  }

  // ------------------------------------------------------------ logs only grow

  /** A longer log reads the same where the shorter one reaches. */
  lemma ReadsAlike(w: World, log: seq<Prompt>, longer: seq<Prompt>, i: nat)
    requires log <= longer && i < |log|
    ensures ReplyTo(w, log, i) == ReplyTo(w, longer, i)
    ensures PriceOf(w, log, i) == PriceOf(w, longer, i)
  {
    assert log[..Before(log, i)] == longer[..Before(longer, i)];
  }

  lemma {:induction false} BillsAlike(w: World, log: seq<Prompt>, longer: seq<Prompt>, from: nat, n: nat)
    requires log <= longer && from <= n <= |log|
    ensures Bill(w, log, from, n) == Bill(w, longer, from, n)
    decreases n - from
  {
    if from < n {
      BillsAlike(w, log, longer, from, n - 1);
      ReadsAlike(w, log, longer, n - 1);
    }
  }

  lemma {:induction false} BillSplits(w: World, log: seq<Prompt>, from: nat, m: nat, n: nat)
    requires from <= m <= n <= |log|
    ensures Bill(w, log, from, n) == Bill(w, log, from, m) + Bill(w, log, m, n)
    decreases n - m
  {
    if m < n {
      BillSplits(w, log, from, m, n - 1);
    }
  }

  lemma {:induction false} StepsSplit(w: World, log: seq<Prompt>, k: nat, from: nat, m: nat, n: nat)
    requires from <= m <= n <= |log|
    ensures RepairSteps(w, log, k, from, n) == RepairSteps(w, log, k, from, m) + RepairSteps(w, log, k, m, n)
    decreases n - m
  {
    if m < n {
      StepsSplit(w, log, k, from, m, n - 1);
    }
  }

  // ------------------------------------------------------------ repair

  /** What the loop adds to the run, read off the log it leaves. */
  ghost predicate RepairReads(w: World, k: nat, rounds: nat, c: Candidate, first: nat, p: Progress, q: Progress,
                              fixed: Option<Candidate>)
  {
    && p.log <= q.log && IsRepairOf(w, k, rounds, c, |p.log|, q.log)
    && fixed == RepairedBy(w, q.log, |p.log|, first)
    && q.spend == p.spend + Bill(w, q.log, |p.log|, |q.log|)
    && q.steps == p.steps + RepairSteps(w, q.log, k, |p.log|, |q.log|)
    && q.failures == p.failures && q.carried == p.carried && q.accepted == p.accepted
  }

  lemma AskedOnce(w: World, p: Progress, ask: Prompt)
    requires ask.RepairPrompt?
    ensures var log := p.log + [ask];
      ReplyTo(w, log, |p.log|) == w.reply(p.log, ask) && log[|p.log|] == ask
  {
    var log := p.log + [ask];
    assert log[..|p.log|] == p.log;
  }

  function LadderUsd(w: World, text: string): real {
    var src := w.extract(text);
    if src.None? then 0.0 else VerifyUsd(w, src.value)
  }

  /** The prompt just sent, read off any longer log. */
  lemma FirstRound(w: World, k: nat, p: Progress, ask: Prompt, log: seq<Prompt>)
    requires ask.RepairPrompt? && p.log + [ask] <= log
    ensures var (text, at) := (w.reply(p.log, ask), |p.log|);
      && log[at] == ask && ReplyTo(w, log, at) == text
      && Bill(w, log, at, at + 1) == w.modelUsd(ask, text) + LadderUsd(w, text)
      && RepairSteps(w, log, k, at, at + 1)
         == if w.extract(text).None? then []
            else [Step(k, if w.visible(w.extract(text).value).ok then Repair else Escalate, 0.0, "")]
  {
    AskedOnce(w, p, ask);
    ReadsAlike(w, p.log + [ask], log, |p.log|);
    assert log[|p.log|] == (p.log + [ask])[|p.log|];
    assert Bill(w, log, |p.log|, |p.log|) == 0.0;
    assert RepairSteps(w, log, k, |p.log|, |p.log|) == [];
  }

  /** A refuted round before the repair of what it replied. */
  lemma RoundBefore(w: World, k: nat, rounds: nat, cur: Candidate, cand: Candidate, round: nat, at: nat, log: seq<Prompt>)
    requires 0 < rounds && at < |log| && AsksToRepair(log[at], k, cur)
    requires w.extract(ReplyTo(w, log, at)) == Some(cand.source) && cand.report == w.visible(cand.source) && !cand.report.ok
    requires IsRepairOf(w, k, rounds - 1, cand, at + 1, log)
    ensures IsRepairOf(w, k, rounds, cur, at, log)
    ensures RepairedBy(w, log, at, round) == RepairedBy(w, log, at + 1, round + 1)
  {
    hide ReplyTo;
    assert Heard(w, log, at, 0) == Some(Candidate(0, cand.source, cand.report));
    assert Refuted(w, log, at);
    forall i | at < i < |log|
      ensures FollowsUp(w, k, log, i)
    {
      if i == at + 1 {
        assert AsksToRepair(log[at + 1], k, cand);
      } else {
        assert at + 1 < i;
      }
    }
  }

  lemma SumsJoin(w: World, k: nat, at: nat, p: Progress, q: Progress, price: real, step: Step)
    requires at < |q.log| && Bill(w, q.log, at, at + 1) == price && RepairSteps(w, q.log, k, at, at + 1) == [step]
    requires q.spend == (p.spend + price) + Bill(w, q.log, at + 1, |q.log|)
    requires q.steps == (p.steps + [step]) + RepairSteps(w, q.log, k, at + 1, |q.log|)
    ensures q.spend == p.spend + Bill(w, q.log, at, |q.log|)
    ensures q.steps == p.steps + RepairSteps(w, q.log, k, at, |q.log|)
  {
    BillSplits(w, q.log, at, at + 1, |q.log|);
    StepsSplit(w, q.log, k, at, at + 1, |q.log|);
    hide *;
    assert (p.steps + [step]) + RepairSteps(w, q.log, k, at + 1, |q.log|)
        == p.steps + ([step] + RepairSteps(w, q.log, k, at + 1, |q.log|));
  }

  lemma RoundsJoin(w: World, k: nat, rounds: nat, cur: Candidate, cand: Candidate, round: nat, p: Progress,
                   next: Progress, q: Progress, fixed: Option<Candidate>)
    requires 0 < rounds
    requires var ask := RepairPrompt(k, cur.source, cur.report.failedAt, cur.report.diag);
      var text := w.reply(p.log, ask);
      && w.extract(text) == Some(cand.source) && cand.report == w.visible(cand.source) && !cand.report.ok
      && next == p.(log := p.log + [ask], spend := p.spend + (w.modelUsd(ask, text) + LadderUsd(w, text)),
                    steps := p.steps + [Step(k, Escalate, 0.0, "")])
    requires RepairReads(w, k, rounds - 1, cand, round + 1, next, q, fixed)
    ensures RepairReads(w, k, rounds, cur, round, p, q, fixed)
  {
    var ask := RepairPrompt(k, cur.source, cur.report.failedAt, cur.report.diag);
    var at := |p.log|;
    FirstRound(w, k, p, ask, q.log);
    hide Bill, RepairSteps, PriceOf, LadderUsd, ReplyTo, IsRepairOf, RepairedBy;
    RoundBefore(w, k, rounds, cur, cand, round, at, q.log);
    SumsJoin(w, k, at, p, q, w.modelUsd(ask, w.reply(p.log, ask)) + LadderUsd(w, w.reply(p.log, ask)),
             Step(k, Escalate, 0.0, ""));
  }

  lemma {:induction false} RepairIsReadable(w: World, cfg: Config, k: nat, cur: Candidate, round: nat, p: Progress)
    requires k < |cfg.tiers| && round <= cfg.tiers[k].repairDepth
    ensures var (q, fixed) := RepairFrom(w, cfg, k, cur, round, p);
      RepairReads(w, k, cfg.tiers[k].repairDepth - round, cur, round, p, q, fixed)
    decreases cfg.tiers[k].repairDepth - round
  {
    hide RepairFrom, VerifyUsd, RepairReads;
    RepairUnfolds(w, cfg, k, cur, round, p);
    if round == cfg.tiers[k].repairDepth {
      NoRounds(w, k, cur, round, p);
    } else {
      var ask := RepairPrompt(k, cur.source, cur.report.failedAt, cur.report.diag);
      var text := w.reply(p.log, ask);
      var sent := p.Sent(ask, w.modelUsd(ask, text));
      match w.extract(text)
      case None => LastRound(w, k, cfg.tiers[k].repairDepth - round, cur, round, p, sent, None);
      case Some(src) =>
        var rep := w.visible(src);
        var cand := Candidate(1000 + round, src, rep);
        var next := sent.(spend := sent.spend + VerifyUsd(w, src))
                        .Traced(Step(k, if rep.ok then Repair else Escalate, 0.0, ""));
        if rep.ok {
          LastRound(w, k, cfg.tiers[k].repairDepth - round, cur, round, p, next, Some(cand));
        } else {
          RepairIsReadable(w, cfg, k, cand, round + 1, next);
          var (q, fixed) := RepairFrom(w, cfg, k, cand, round + 1, next);
          RoundsJoin(w, k, cfg.tiers[k].repairDepth - round, cur, cand, round, p, next, q, fixed);
        }
    }
  }

  lemma NoRounds(w: World, k: nat, cur: Candidate, round: nat, p: Progress)
    ensures RepairReads(w, k, 0, cur, round, p, p, None)
  {
    assert p.steps + [] == p.steps;
  }

  /** A round after which the loop returns. */
  lemma LastRound(w: World, k: nat, rounds: nat, cur: Candidate, round: nat, p: Progress, q: Progress,
                  fixed: Option<Candidate>)
    requires 0 < rounds
    requires var ask := RepairPrompt(k, cur.source, cur.report.failedAt, cur.report.diag);
      var text := w.reply(p.log, ask);
      && (w.extract(text).Some? ==> w.visible(w.extract(text).value).ok)
      && fixed == (if w.extract(text).None? then None
                   else Some(Candidate(1000 + round, w.extract(text).value, w.visible(w.extract(text).value))))
      && q == p.(log := p.log + [ask], spend := p.spend + (w.modelUsd(ask, text) + LadderUsd(w, text)),
                 steps := p.steps + if w.extract(text).None? then [] else [Step(k, Repair, 0.0, "")])
    ensures RepairReads(w, k, rounds, cur, round, p, q, fixed)
  {
    var ask := RepairPrompt(k, cur.source, cur.report.failedAt, cur.report.diag);
    FirstRound(w, k, p, ask, q.log);
    hide Bill, RepairSteps, PriceOf, LadderUsd, ReplyTo;
  }

  // ------------------------------------------------------------ the plan and the known failures

  /** The planner's prompt, if a planner is configured, comes first. */
  function PlanAsked(cfg: Config): seq<Prompt> {
    if cfg.twoStage then [PlanPrompt] else []
  }

  function PlanHeard(w: World, cfg: Config): string {
    if cfg.twoStage then w.reply([], PlanPrompt) else ""
  }

  /** Every known failure's summary, unless the cache is off. */
  function KnownShown(cfg: Config, known: seq<Failure>): seq<string> {
    if cfg.cacheDisabled then [] else seq(|known|, i requires 0 <= i < |known| => known[i].summary)
  }

  // ------------------------------------------------------------ the fan-out

  /** The sample answering prompt start + i; a reply without code is a candidate that
      failed at once. */
  function SampleHeard(w: World, log: seq<Prompt>, start: nat, i: nat): Candidate
    requires start + i < |log|
  {
    var heard := Heard(w, log, start + i, i);
    if heard.Some? then heard.value else Candidate(i, ReplyTo(w, log, start + i), Report(false, 0, "no code"))
  }

  function SamplesHeard(w: World, log: seq<Prompt>, start: nat, n: nat): (cands: seq<Candidate>)
    requires start + n <= |log|
    ensures |cands| == n && forall i :: 0 <= i < n ==> cands[i] == SampleHeard(w, log, start, i)
  {
    seq(n, i requires 0 <= i < n => SampleHeard(w, log, start, i))
  }

  /** The notes a tier's prompts carry: those from earlier tiers, then the known
      failures. */
  function NotesShown(cfg: Config, p: Progress): seq<string> {
    p.carried + KnownShown(cfg, p.failures)
  }

  lemma {:induction false} NotesByIndex(fs: seq<Failure>)
    ensures FailureNotes(fs) == seq(|fs|, i requires 0 <= i < |fs| => fs[i].summary)
  {
    if fs != [] {
      NotesByIndex(fs[..|fs| - 1]);
    }
  }

  lemma AvoidIsShown(cfg: Config, p: Progress)
    ensures Avoid(cfg, p) == NotesShown(cfg, p)
  {
    NotesByIndex(p.failures);
  }

  /** Prompts start.. of the log are the n samples of tier k. */
  ghost predicate AsksSamples(log: seq<Prompt>, start: nat, k: nat, n: nat, plan: string, notes: seq<string>) {
    start + n <= |log| && forall i :: 0 <= i < n ==> log[start + i] == CodePrompt(k, i, plan, notes)
  }

  lemma {:induction false} PromptsByIndex(k: nat, plan: string, avoid: seq<string>, n: nat)
    ensures |SamplePrompts(k, plan, avoid, n)| == n
    ensures forall i :: 0 <= i < n ==> SamplePrompts(k, plan, avoid, n)[i] == CodePrompt(k, i, plan, avoid)
  {
    if n != 0 {
      PromptsByIndex(k, plan, avoid, n - 1);
    }
  }

  /** One sample, read off any log that starts with the fan-out. */
  lemma OneSample(w: World, before: seq<Prompt>, k: nat, plan: string, avoid: seq<string>, n: nat, log: seq<Prompt>, i: nat)
    requires before <= log && AsksSamples(log, |before|, k, n, plan, avoid) && i < n
    ensures var text := w.reply(before, CodePrompt(k, i, plan, avoid));
      && SampleHeard(w, log, |before|, i) == CandidateOf(w, i, text)
      && PriceOf(w, log, |before| + i) == CandidateUsd(w, CodePrompt(k, i, plan, avoid), text)
  {
    assert log[..|before|] == before;
  }

  lemma {:induction false} FanOutIsReadable(w: World, before: seq<Prompt>, k: nat, plan: string, avoid: seq<string>, n: nat,
                                            log: seq<Prompt>)
    requires before <= log && AsksSamples(log, |before|, k, n, plan, avoid)
    ensures Samples(w, before, k, plan, avoid, n) == SamplesHeard(w, log, |before|, n)
    ensures SampleUsd(w, before, k, plan, avoid, n) == Bill(w, log, |before|, |before| + n)
  {
    hide SampleHeard, PriceOf, CandidateOf, CandidateUsd;
    if n != 0 {
      FanOutIsReadable(w, before, k, plan, avoid, n - 1, log);
      OneSample(w, before, k, plan, avoid, n, log, n - 1);
      assert SamplesHeard(w, log, |before|, n)
          == SamplesHeard(w, log, |before|, n - 1) + [SampleHeard(w, log, |before|, n - 1)];
    }
  }

  // ------------------------------------------------------------ a tier

  /** The first of the candidates that got furthest. */
  predicate FurthestFirst(cands: seq<Candidate>, b: nat) {
    && b < |cands|
    && (forall j :: 0 <= j < |cands| ==> cands[j].report.failedAt <= cands[b].report.failedAt)
    && (forall j :: 0 <= j < b ==> cands[j].report.failedAt < cands[b].report.failedAt)
  }

  lemma FurthestFirstIsBest(cands: seq<Candidate>, b: nat)
    requires FurthestFirst(cands, b)
    ensures BestRefuted(cands) == b
  {
  }

  /** The tier repairs: nothing it sampled survives, and a repair is worth its price. */
  predicate Repairs(w: World, cfg: Config, k: nat, first: seq<Candidate>)
    requires k < |cfg.tiers|
  {
    first != [] && w.vote(first).None? && PrefersRepair(cfg.tiers, k)
  }

  /** The tier's fan-out as heard. */
  function First(w: World, cfg: Config, k: nat, p: Progress, log: seq<Prompt>): seq<Candidate>
    requires k < |cfg.tiers| && |p.log| + cfg.tiers[k].samples <= |log|
  {
    SamplesHeard(w, log, |p.log|, cfg.tiers[k].samples)
  }

  /** Who votes: the samples, and the repaired candidate if the last reply passed. */
  function Voters(w: World, cfg: Config, k: nat, p: Progress, log: seq<Prompt>): seq<Candidate>
    requires k < |cfg.tiers| && |p.log| + cfg.tiers[k].samples <= |log|
  {
    var first, fixed := First(w, cfg, k, p, log), RepairedBy(w, log, |p.log| + cfg.tiers[k].samples, 0);
    if fixed.Some? then first + [fixed.value] else first
  }

  /** The prompts of tier k, from a run that had reached p. */
  ghost predicate Asks(w: World, cfg: Config, k: nat, plan: string, p: Progress, log: seq<Prompt>)
    requires k < |cfg.tiers|
  {
    var n := cfg.tiers[k].samples;
    && p.log <= log && AsksSamples(log, |p.log|, k, n, plan, NotesShown(cfg, p))
    && var first := First(w, cfg, k, p, log);
       && (!Repairs(w, cfg, k, first) ==> |log| == |p.log| + n)
       && (Repairs(w, cfg, k, first) ==> forall b: nat :: FurthestFirst(first, b) ==>
             IsRepairOf(w, k, cfg.tiers[k].repairDepth, first[b], |p.log| + n, log))
  }

  /** What sampling and repair leave. */
  ghost predicate SampledReads(w: World, cfg: Config, k: nat, plan: string, p: Progress, s: Progress, cands: seq<Candidate>)
    requires k < |cfg.tiers|
  {
    && Asks(w, cfg, k, plan, p, s.log)
    && cands == Voters(w, cfg, k, p, s.log)
    && s.spend == p.spend + Bill(w, s.log, |p.log|, |s.log|)
    && s.steps == p.steps + RepairSteps(w, s.log, k, |p.log| + cfg.tiers[k].samples, |s.log|)
    && s.carried == p.carried && s.accepted == p.accepted
  }

  lemma AskedLog(cfg: Config, k: nat, plan: string, p: Progress)
    requires k < |cfg.tiers|
    ensures var log := p.log + SamplePrompts(k, plan, Avoid(cfg, p), cfg.tiers[k].samples);
      && p.log <= log && |log| == |p.log| + cfg.tiers[k].samples
      && AsksSamples(log, |p.log|, k, cfg.tiers[k].samples, plan, NotesShown(cfg, p))
  {
    AvoidIsShown(cfg, p);
    PromptsByIndex(k, plan, Avoid(cfg, p), cfg.tiers[k].samples);
  }

  /** What asking the samples leaves. */
  ghost predicate FanOutReads(w: World, cfg: Config, k: nat, plan: string, p: Progress, asked: Progress,
                              first: seq<Candidate>)
    requires k < |cfg.tiers|
  {
    var n := cfg.tiers[k].samples;
    && p.log <= asked.log && |asked.log| == |p.log| + n
    && AsksSamples(asked.log, |p.log|, k, n, plan, NotesShown(cfg, p))
    && first == SamplesHeard(w, asked.log, |p.log|, n)
    && asked.spend == p.spend + Bill(w, asked.log, |p.log|, |asked.log|)
    && asked.steps == p.steps && asked.carried == p.carried && asked.accepted == p.accepted
  }

  lemma AskingIsReadable(w: World, cfg: Config, k: nat, plan: string, p: Progress)
    requires k < |cfg.tiers|
    ensures var n, avoid := cfg.tiers[k].samples, Avoid(cfg, p);
      FanOutReads(w, cfg, k, plan, p,
                  p.(log := p.log + SamplePrompts(k, plan, avoid, n),
                     spend := p.spend + SampleUsd(w, p.log, k, plan, avoid, n)),
                  Samples(w, p.log, k, plan, avoid, n))
  {
    hide Avoid, NotesShown, SamplePrompts, AsksSamples, Samples, SamplesHeard, SampleUsd, Bill;
    var n, avoid := cfg.tiers[k].samples, Avoid(cfg, p);
    AskedLog(cfg, k, plan, p);
    AvoidIsShown(cfg, p);
    FanOutIsReadable(w, p.log, k, plan, avoid, n, p.log + SamplePrompts(k, plan, avoid, n));
  }

  lemma WithoutRepair(w: World, cfg: Config, k: nat, plan: string, p: Progress, s: Progress, first: seq<Candidate>)
    requires k < |cfg.tiers| && FanOutReads(w, cfg, k, plan, p, s, first) && !Repairs(w, cfg, k, first)
    ensures SampledReads(w, cfg, k, plan, p, s, first)
    ensures first == First(w, cfg, k, p, s.log)
  {
    hide AsksSamples, Bill, Repairs, NotesShown, SamplesHeard;
    assert p.steps + [] == p.steps;
  }

  /** The fan-out reads the same off a longer log. */
  lemma SamplesReadAlike(w: World, log: seq<Prompt>, longer: seq<Prompt>, start: nat, n: nat)
    requires log <= longer && start + n <= |log|
    ensures SamplesHeard(w, log, start, n) == SamplesHeard(w, longer, start, n)
  {
    forall i | 0 <= i < n
      ensures SampleHeard(w, log, start, i) == SampleHeard(w, longer, start, i)
    {
      ReadsAlike(w, log, longer, start + i);
    }
  }

  lemma WithRepair(w: World, cfg: Config, k: nat, plan: string, p: Progress, asked: Progress, first: seq<Candidate>,
                   b: nat, q: Progress, fixed: Option<Candidate>)
    requires k < |cfg.tiers| && FanOutReads(w, cfg, k, plan, p, asked, first) && Repairs(w, cfg, k, first)
    requires FurthestFirst(first, b)
    requires RepairReads(w, k, cfg.tiers[k].repairDepth, first[b], 0, asked, q, fixed)
    ensures SampledReads(w, cfg, k, plan, p, q, if fixed.Some? then first + [fixed.value] else first)
    ensures first == First(w, cfg, k, p, q.log)
  {
    hide KnownShown, NotesShown, Repairs, SamplesHeard, IsRepairOf, RepairedBy, RepairSteps, Bill, PriceOf;
    var n := cfg.tiers[k].samples;
    SamplesReadAlike(w, asked.log, q.log, |p.log|, n);
    BillsAlike(w, asked.log, q.log, |p.log|, |asked.log|);
    BillSplits(w, q.log, |p.log|, |asked.log|, |q.log|);
    assert AsksSamples(q.log, |p.log|, k, n, plan, NotesShown(cfg, p));
    forall c: nat | FurthestFirst(first, c)
      ensures c == b
    {
      FurthestFirstIsBest(first, c);
      FurthestFirstIsBest(first, b);
    }
    hide AsksSamples, Bill, Repairs, NotesShown, SamplesHeard, IsRepairOf, RepairedBy, FurthestFirst, RepairSteps;
  }

  lemma SamplingIsReadable(w: World, cfg: Config, k: nat, plan: string, p: Progress)
    requires k < |cfg.tiers|
    ensures var (s, cands) := Sampled(w, cfg, k, plan, p);
      && SampledReads(w, cfg, k, plan, p, s, cands)
      && FirstSamples(w, cfg, k, plan, p) == First(w, cfg, k, p, s.log)
  {
    hide FanOutReads, SampledReads, First, Samples, SampleUsd, Avoid, RepairFrom, RecordFailures, SamplePrompts, RepairReads;
    var n, avoid := cfg.tiers[k].samples, Avoid(cfg, p);
    var first := Samples(w, p.log, k, plan, avoid, n);
    var asked := p.(log := p.log + SamplePrompts(k, plan, avoid, n),
                    spend := p.spend + SampleUsd(w, p.log, k, plan, avoid, n));
    AskingIsReadable(w, cfg, k, plan, p);
    if VoteOf(w, first).Some? {
      WithoutRepair(w, cfg, k, plan, p, asked, first);
    } else {
      var noted := asked.(failures := RecordFailures(w, cfg, asked.failures, first));
      OnlyFailures(w, cfg, k, plan, p, asked, noted, first);
      if first != [] && PrefersRepair(cfg.tiers, k) {
        var b := BestRefuted(first);
        RepairIsReadable(w, cfg, k, first[b], 0, noted);
        var (q, fixed) := RepairFrom(w, cfg, k, first[b], 0, noted);
        WithRepair(w, cfg, k, plan, p, noted, first, b, q, fixed);
      } else {
        WithoutRepair(w, cfg, k, plan, p, noted, first);
      }
    }
  }

  lemma OnlyFailures(w: World, cfg: Config, k: nat, plan: string, p: Progress, asked: Progress, noted: Progress,
                     first: seq<Candidate>)
    requires k < |cfg.tiers| && FanOutReads(w, cfg, k, plan, p, asked, first)
    requires noted == asked.(failures := noted.failures)
    ensures FanOutReads(w, cfg, k, plan, p, noted, first)
  {
  }

  // ------------------------------------------------------------ how a tier ends

  const FIRST_PRIOR: real := 0.6
  const LATER_PRIOR: real := 0.5

  /** The score tier k is accepted at: the certificate's, or a prior without one. */
  function Bar(cfg: Config, k: nat): real {
    match cfg.thresholds
    case Some(tau) => if k < |tau| then tau[k] else if k == 0 then FIRST_PRIOR else LATER_PRIOR
    case None => if k == 0 then FIRST_PRIOR else LATER_PRIOR
  }

  /** Who speaks for the winning cluster: the first voter of that index, or the first
      voter when there is none. */
  predicate SpeaksFor(cands: seq<Candidate>, index: nat, i: nat) {
    && i < |cands|
    && (forall j :: 0 <= j < i ==> cands[j].index != index)
    && (cands[i].index == index || (i == 0 && forall j :: 0 <= j < |cands| ==> cands[j].index != index))
  }

  lemma SpeakerIsRepresentative(w: World, cands: seq<Candidate>, i: nat)
    requires VoteOf(w, cands).Some? && SpeaksFor(cands, VoteOf(w, cands).value.rep, i)
    ensures Representative(w, cands) == cands[i]
  {
  }

  /** The held-out tests are consulted on voter i. */
  ghost predicate Consulted(w: World, cfg: Config, k: nat, voters: seq<Candidate>, i: nat) {
    && voters != [] && w.vote(voters).Some?
    && SpeaksFor(voters, w.vote(voters).value.rep, i)
    && (Bar(cfg, k) <= w.vote(voters).value.score || k + 1 == |cfg.tiers|)
  }

  /** The tier ends without the held-out tests being consulted. */
  ghost predicate NotConsulted(w: World, cfg: Config, k: nat, voters: seq<Candidate>) {
    voters == [] || w.vote(voters).None? || (w.vote(voters).value.score < Bar(cfg, k) && k + 1 != |cfg.tiers|)
  }

  lemma SomeoneSpeaks(cands: seq<Candidate>, index: nat) returns (i: nat)
    requires cands != []
    ensures SpeaksFor(cands, index, i)
  {
    i := IndexOf(cands, index);
  }

  /** Accepted is whoever was consulted and passed. */
  ghost predicate AcceptsRightly(w: World, cfg: Config, k: nat, voters: seq<Candidate>, p: Progress, q: Progress)
    requires k < |cfg.tiers|
  {
    && (NotConsulted(w, cfg, k, voters) ==> q.accepted == p.accepted)
    && forall i: nat :: Consulted(w, cfg, k, voters, i) ==>
         q.accepted == if w.hidden(voters[i].source).ok
                       then Some(Acceptance(k, voters[i].source, w.vote(voters).value.score)) else p.accepted
  }

  /** The tier pays for its prompts, and for the held-out tests if it consults them. */
  ghost predicate PaysFor(w: World, cfg: Config, k: nat, voters: seq<Candidate>, p: Progress, q: Progress)
    requires k < |cfg.tiers| && p.log <= q.log
  {
    && (NotConsulted(w, cfg, k, voters) ==> q.spend == p.spend + Bill(w, q.log, |p.log|, |q.log|))
    && forall i: nat :: Consulted(w, cfg, k, voters, i) ==>
         q.spend == p.spend + Bill(w, q.log, |p.log|, |q.log|) + w.hiddenUsd(voters[i].source)
  }

  /** One note for the next tier: how far the best sample got, how little the samples
      agreed, or that the held-out tests failed, of which it says no more. */
  ghost predicate CarriesNote(w: World, cfg: Config, k: nat, first: seq<Candidate>, voters: seq<Candidate>, p: Progress,
                              q: Progress)
    requires k < |cfg.tiers|
  {
    && (first == [] && voters == [] ==> q.carried == p.carried)
    && (voters != [] && w.vote(voters).None? ==>
          forall b: nat :: FurthestFirst(first, b) ==> q.carried == p.carried + [w.note(first[b].report)])
    && (voters != [] && w.vote(voters).Some? && NotConsulted(w, cfg, k, voters) ==>
          q.carried == p.carried + [w.lowScore(w.vote(voters).value.score)])
    && forall i: nat :: Consulted(w, cfg, k, voters, i) ==>
         q.carried == p.carried + if w.hidden(voters[i].source).ok then [] else [HOLDOUT_NOTE]
  }

  /** The trace gains one entry per repair that was a program and one for the tier. */
  ghost predicate TracesTier(w: World, cfg: Config, k: nat, voters: seq<Candidate>, p: Progress, q: Progress)
    requires k < |cfg.tiers| && |p.log| + cfg.tiers[k].samples <= |q.log|
  {
    var repairs := RepairSteps(w, q.log, k, |p.log| + cfg.tiers[k].samples, |q.log|);
    var score := if voters == [] || w.vote(voters).None? then 0.0 else w.vote(voters).value.score;
    && (NotConsulted(w, cfg, k, voters) ==> q.steps == p.steps + repairs + [Step(k, Escalate, score, "")])
    && forall i: nat :: Consulted(w, cfg, k, voters, i) ==>
         var verdict := w.hidden(voters[i].source);
         q.steps == p.steps + repairs
                    + [if verdict.ok then Step(k, Accept, score, "") else Step(k, Reject, score, verdict.diag)]
  }

  /** All of a tier that its log shows. */
  ghost predicate TierReads(w: World, cfg: Config, k: nat, plan: string, p: Progress, q: Progress)
    requires k < |cfg.tiers|
  {
    && Asks(w, cfg, k, plan, p, q.log)
    && var (first, voters) := (First(w, cfg, k, p, q.log), Voters(w, cfg, k, p, q.log));
       && AcceptsRightly(w, cfg, k, voters, p, q)
       && PaysFor(w, cfg, k, voters, p, q)
       && CarriesNote(w, cfg, k, first, voters, p, q)
       && TracesTier(w, cfg, k, voters, p, q)
  }

  lemma ConsultedOnes(w: World, cfg: Config, k: nat, voters: seq<Candidate>)
    requires k < |cfg.tiers|
    ensures NotConsulted(w, cfg, k, voters) <==> !Consults(w, cfg, k, voters)
    ensures forall i: nat :: Consulted(w, cfg, k, voters, i) ==>
      Consults(w, cfg, k, voters) && voters[i] == Representative(w, voters)
  {
    forall i: nat | Consulted(w, cfg, k, voters, i)
      ensures Consults(w, cfg, k, voters) && voters[i] == Representative(w, voters)
    {
      SpeakerIsRepresentative(w, voters, i);
    }
  }

  lemma DecidedAlone(w: World, cfg: Config, k: nat, first: seq<Candidate>, voters: seq<Candidate>, s: Progress)
    requires k < |cfg.tiers| && NotConsulted(w, cfg, k, voters)
    ensures var q := Decided(w, cfg, k, first, voters, s);
      && q.log == s.log && q.accepted == s.accepted && q.spend == s.spend
      && q.steps == s.steps + [Step(k, Escalate, if VoteOf(w, voters).None? then 0.0 else w.vote(voters).value.score, "")]
      && (VoteOf(w, voters).None? && first == [] ==> q.carried == s.carried)
      && (VoteOf(w, voters).Some? ==> q.carried == s.carried + [w.lowScore(w.vote(voters).value.score)])
    ensures VoteOf(w, voters).None? ==> forall b: nat :: FurthestFirst(first, b) ==>
      Decided(w, cfg, k, first, voters, s).carried == s.carried + [w.note(first[b].report)]
  {
    hide RecordFailures;
    ConsultedOnes(w, cfg, k, voters);
    assert s.carried + [] == s.carried;
    forall b: nat | FurthestFirst(first, b)
      ensures BestRefuted(first) == b
    {
      FurthestFirstIsBest(first, b);
    }
  }

  lemma DecidedOn(w: World, cfg: Config, k: nat, first: seq<Candidate>, voters: seq<Candidate>, s: Progress, i: nat)
    requires k < |cfg.tiers| && Consulted(w, cfg, k, voters, i)
    ensures var (q, verdict) := (Decided(w, cfg, k, first, voters, s), w.hidden(voters[i].source));
      var score := w.vote(voters).value.score;
      && q.log == s.log && q.spend == s.spend + w.hiddenUsd(voters[i].source)
      && q.accepted == (if verdict.ok then Some(Acceptance(k, voters[i].source, score)) else s.accepted)
      && q.carried == (s.carried + if verdict.ok then [] else [HOLDOUT_NOTE])
      && q.steps == s.steps + [if verdict.ok then Step(k, Accept, score, "") else Step(k, Reject, score, verdict.diag)]
  {
    hide RecordFailures;
    ConsultedOnes(w, cfg, k, voters);
    assert s.carried + [] == s.carried;
  }

  lemma EndsWithout(w: World, cfg: Config, k: nat, plan: string, p: Progress, s: Progress, first: seq<Candidate>,
                    voters: seq<Candidate>)
    requires k < |cfg.tiers| && SampledReads(w, cfg, k, plan, p, s, voters)
    requires first == First(w, cfg, k, p, s.log) && NotConsulted(w, cfg, k, voters)
    ensures TierReads(w, cfg, k, plan, p, Decided(w, cfg, k, first, voters, s))
  {
    DecidedAlone(w, cfg, k, first, voters, s);
    NotBoth(w, cfg, k, voters);
    VotersFromFirst(w, cfg, k, p, s.log);
    hide Decided, Asks, First, Voters, Consulted, NotConsulted, FurthestFirst, Bill, RepairSteps;
  }

  lemma VotersFromFirst(w: World, cfg: Config, k: nat, p: Progress, log: seq<Prompt>)
    requires k < |cfg.tiers| && |p.log| + cfg.tiers[k].samples <= |log|
    ensures Voters(w, cfg, k, p, log) == [] ==> First(w, cfg, k, p, log) == []
  {
  }

  lemma NotBoth(w: World, cfg: Config, k: nat, voters: seq<Candidate>)
    ensures NotConsulted(w, cfg, k, voters) ==> forall i: nat :: !Consulted(w, cfg, k, voters, i)
    ensures (exists i: nat :: Consulted(w, cfg, k, voters, i)) || NotConsulted(w, cfg, k, voters)
    ensures forall i: nat, j: nat :: Consulted(w, cfg, k, voters, i) && Consulted(w, cfg, k, voters, j) ==> i == j
  {
    if voters != [] && w.vote(voters).Some? {
      var i := SomeoneSpeaks(voters, w.vote(voters).value.rep);
      assert NotConsulted(w, cfg, k, voters) || Consulted(w, cfg, k, voters, i);
    }
  }

  lemma EndsOn(w: World, cfg: Config, k: nat, plan: string, p: Progress, s: Progress, first: seq<Candidate>,
               voters: seq<Candidate>, i: nat)
    requires k < |cfg.tiers| && SampledReads(w, cfg, k, plan, p, s, voters)
    requires first == First(w, cfg, k, p, s.log) && Consulted(w, cfg, k, voters, i)
    ensures TierReads(w, cfg, k, plan, p, Decided(w, cfg, k, first, voters, s))
  {
    DecidedOn(w, cfg, k, first, voters, s, i);
    NotBoth(w, cfg, k, voters);
    assert voters != [] && w.vote(voters).Some?;
    hide Decided, Asks, First, Voters, Consulted, NotConsulted, FurthestFirst, Bill, RepairSteps;
  }

  /** Every tier reads as its log says. */
  lemma TierIsReadable(w: World, cfg: Config, k: nat, plan: string, p: Progress)
    requires k < |cfg.tiers|
    ensures TierReads(w, cfg, k, plan, p, TierRun(w, cfg, k, plan, p))
  {
    hide Sampled, FirstSamples, Decided, TierReads, First, Voters;
    SamplingIsReadable(w, cfg, k, plan, p);
    var (s, cands) := Sampled(w, cfg, k, plan, p);
    var first := FirstSamples(w, cfg, k, plan, p);
    NotBoth(w, cfg, k, cands);
    if NotConsulted(w, cfg, k, cands) {
      EndsWithout(w, cfg, k, plan, p, s, first, cands);
    } else {
      var i: nat :| Consulted(w, cfg, k, cands, i);
      EndsOn(w, cfg, k, plan, p, s, first, cands, i);
    }
  }
}
