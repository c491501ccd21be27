/** What the speculative run returns and pays, read off the prompts of its fan-outs. */
module RaceTalk {
  import opened Wrappers
  import opened Router
  import opened RouterReplay
  import opened RouterTalk
  import opened ProfileTalk
  import opened Speculative

  // ------------------------------------------------------------ reading a fan-out

  /** Tier k's prompts, all asked right after the plan. */
  function FanLog(w: World, cfg: Config, known: seq<Failure>, k: nat): seq<Prompt>
    requires k < |cfg.tiers|
  {
    var n := cfg.tiers[k].samples;
    PlanAsked(cfg) + seq(n, i requires 0 <= i < n => CodePrompt(k, i, PlanHeard(w, cfg), KnownShown(cfg, known)))
  }

  function FanHeard(w: World, cfg: Config, known: seq<Failure>, k: nat): seq<Candidate>
    requires k < |cfg.tiers|
  {
    SamplesHeard(w, FanLog(w, cfg, known, k), |PlanAsked(cfg)|, cfg.tiers[k].samples)
  }

  /** Voter i speaks for a cluster of tier k's survivors. */
  ghost predicate Runs(w: World, cfg: Config, known: seq<Failure>, k: nat, i: nat)
    requires k < |cfg.tiers|
  {
    var cands := FanHeard(w, cfg, known, k);
    cands != [] && w.vote(cands).Some? && SpeaksFor(cands, w.vote(cands).value.rep, i)
  }

  lemma FanAsks(w: World, cfg: Config, known: seq<Failure>, k: nat)
    requires k < |cfg.tiers|
    ensures var (log, n) := (FanLog(w, cfg, known, k), cfg.tiers[k].samples);
      && PlanAsked(cfg) <= log && |log| == |PlanAsked(cfg)| + n
      && AsksSamples(log, |PlanAsked(cfg)|, k, n, PlanHeard(w, cfg), KnownShown(cfg, known))
  {
    hide KnownShown, PlanHeard;
  }

  lemma FanIsReadable(w: World, cfg: Config, known: seq<Failure>, k: nat)
    requires k < |cfg.tiers|
    ensures Fanned(w, cfg, known, k) == FanHeard(w, cfg, known, k)
    ensures FannedUsd(w, cfg, known, k)
         == Bill(w, FanLog(w, cfg, known, k), |PlanAsked(cfg)|, |FanLog(w, cfg, known, k)|)
  {
    hide Samples, SampleUsd, SamplesHeard, Bill, KnownShown, PlanHeard, KnownNotes, PlanOf, PlanAsked, PlanLog, FanLog,
         AsksSamples;
    SameWords(w, cfg, known);
    FanAsks(w, cfg, known, k);
    FanOutIsReadable(w, PlanAsked(cfg), k, PlanHeard(w, cfg), KnownShown(cfg, known), cfg.tiers[k].samples,
                     FanLog(w, cfg, known, k));
  }

  lemma EntryRuns(w: World, cfg: Config, known: seq<Failure>, k: nat)
    requires k < |cfg.tiers|
    ensures EntryOf(w, cfg, known, k).Some? <==> exists i: nat :: Runs(w, cfg, known, k, i)
    ensures forall i: nat :: Runs(w, cfg, known, k, i) ==>
      var cands := FanHeard(w, cfg, known, k);
      EntryOf(w, cfg, known, k) == Some(Acceptance(k, cands[i].source, w.vote(cands).value.score))
  {
    FanIsReadable(w, cfg, known, k);
    hide Fanned, FanHeard;
    var cands := FanHeard(w, cfg, known, k);
    if cands != [] && w.vote(cands).Some? {
      var i := SomeoneSpeaks(cands, w.vote(cands).value.rep);
      assert Runs(w, cfg, known, k, i);
    }
    forall i: nat | Runs(w, cfg, known, k, i)
      ensures Representative(w, cands) == cands[i]
    {
      SpeakerIsRepresentative(w, cands, i);
    }
  }

  // ------------------------------------------------------------ the race

  /** The held-out charge of tier k if it is tried. */
  ghost function TryUsd(w: World, cfg: Config, known: seq<Failure>, k: nat): real
    requires k < |cfg.tiers|
  {
    if i: nat :| Runs(w, cfg, known, k, i) then w.hiddenUsd(FanHeard(w, cfg, known, k)[i].source) else 0.0
  }

  ghost function TriedUsd(w: World, cfg: Config, known: seq<Failure>, from: nat, n: nat): real
    requires from <= n <= |cfg.tiers|
    decreases n - from
  {
    if from == n then 0.0 else TryUsd(w, cfg, known, from) + TriedUsd(w, cfg, known, from + 1, n)
  }

  /** The trace entry of tier k if it is tried. */
  ghost function TryStep(w: World, cfg: Config, known: seq<Failure>, k: nat): seq<Step>
    requires k < |cfg.tiers|
  {
    if i: nat :| Runs(w, cfg, known, k, i) then
      var cands := FanHeard(w, cfg, known, k);
      [Step(k, if w.hidden(cands[i].source).ok then Accept else Reject, w.vote(cands).value.score, "")]
    else []
  }

  ghost function TriedSteps(w: World, cfg: Config, known: seq<Failure>, from: nat, n: nat): seq<Step>
    requires from <= n <= |cfg.tiers|
    decreases n - from
  {
    if from == n then [] else TryStep(w, cfg, known, from) + TriedSteps(w, cfg, known, from + 1, n)
  }

  /** Whoever tier k runs falls to the held-out tests. */
  ghost predicate Falls(w: World, cfg: Config, known: seq<Failure>, k: nat)
    requires k < |cfg.tiers|
  {
    forall i: nat :: Runs(w, cfg, known, k, i) ==> !w.hidden(FanHeard(w, cfg, known, k)[i].source).ok
  }

  /** a is what voter i of its tier answers, at the tier's score. */
  ghost predicate Represents(w: World, cfg: Config, known: seq<Failure>, i: nat, a: Acceptance) {
    && a.tier < |cfg.tiers| && Runs(w, cfg, known, a.tier, i)
    && var cands := FanHeard(w, cfg, known, a.tier);
       a.source == cands[i].source && a.score == w.vote(cands).value.score
  }

  /** From tier k on: the cheapest tier whose representative passes is accepted, and the
      held-out tests are paid for as far as that. */
  ghost predicate RaceReads(w: World, cfg: Config, known: seq<Failure>, k: nat, start: Race, end: Race)
    requires k <= |cfg.tiers|
  {
    match end.accepted
    case None =>
      && (forall j :: k <= j < |cfg.tiers| ==> Falls(w, cfg, known, j))
      && end.spend == start.spend + TriedUsd(w, cfg, known, k, |cfg.tiers|)
      && end.steps == start.steps + TriedSteps(w, cfg, known, k, |cfg.tiers|) + [Step(0, Escalate, 0.0, "")]
    case Some(a) =>
      && k <= a.tier < |cfg.tiers|
      && (forall j :: k <= j < a.tier ==> Falls(w, cfg, known, j))
      && (exists i: nat :: Represents(w, cfg, known, i, a))
      && w.hidden(a.source).ok
      && end.spend == start.spend + TriedUsd(w, cfg, known, k, a.tier + 1)
      && end.steps == start.steps + TriedSteps(w, cfg, known, k, a.tier + 1)
  }

  lemma TriedStep(w: World, cfg: Config, known: seq<Failure>, k: nat, n: nat)
    requires k < n <= |cfg.tiers|
    ensures TriedUsd(w, cfg, known, k, n) == TryUsd(w, cfg, known, k) + TriedUsd(w, cfg, known, k + 1, n)
    ensures TriedSteps(w, cfg, known, k, n) == TryStep(w, cfg, known, k) + TriedSteps(w, cfg, known, k + 1, n)
    ensures TriedUsd(w, cfg, known, n, n) == 0.0 && TriedSteps(w, cfg, known, n, n) == []
  {
    hide TryUsd, TryStep;
  }

  lemma NothingTried(w: World, cfg: Config, known: seq<Failure>, k: nat)
    requires k < |cfg.tiers| && EntryOf(w, cfg, known, k).None?
    ensures Falls(w, cfg, known, k) && TryUsd(w, cfg, known, k) == 0.0 && TryStep(w, cfg, known, k) == []
  {
    hide Runs, FanHeard, Fanned, EntryOf;
    EntryRuns(w, cfg, known, k);
  }

  /** What trying tier k costs, and what falling there means. */
  lemma SomethingTried(w: World, cfg: Config, known: seq<Failure>, k: nat, a: Acceptance)
    requires k < |cfg.tiers| && EntryOf(w, cfg, known, k) == Some(a)
    ensures TryUsd(w, cfg, known, k) == w.hiddenUsd(a.source) && a.tier == k
    ensures TryStep(w, cfg, known, k) == [Step(k, if w.hidden(a.source).ok then Accept else Reject, a.score, "")]
    ensures Falls(w, cfg, known, k) <==> !w.hidden(a.source).ok
    ensures exists i: nat :: Represents(w, cfg, known, i, a)
  {
    hide FanHeard, Fanned, EntryOf, Runs;
    EntryRuns(w, cfg, known, k);
    var i: nat :| Runs(w, cfg, known, k, i);
    assert Represents(w, cfg, known, i, a);
  }

  /** The tiers from k + 1 on, and tier k before them. */
  lemma FallsFirst(w: World, cfg: Config, known: seq<Failure>, k: nat, start: Race, later: Race, end: Race)
    requires k < |cfg.tiers| && Falls(w, cfg, known, k)
    requires later.spend == start.spend + TryUsd(w, cfg, known, k)
    requires later.steps == start.steps + TryStep(w, cfg, known, k)
    requires RaceReads(w, cfg, known, k + 1, later, end)
    ensures RaceReads(w, cfg, known, k, start, end)
  {
    hide Falls, TryUsd, TryStep, Represents, TriedUsd, TriedSteps, Runs, FanHeard;
    var n := if end.accepted.Some? then end.accepted.value.tier + 1 else |cfg.tiers|;
    TriedStep(w, cfg, known, k, n);
    assert (start.steps + TryStep(w, cfg, known, k)) + TriedSteps(w, cfg, known, k + 1, n)
        == start.steps + TriedSteps(w, cfg, known, k, n);
  }

  lemma AcceptsHere(w: World, cfg: Config, known: seq<Failure>, k: nat, start: Race, end: Race, a: Acceptance)
    requires k < |cfg.tiers| && EntryOf(w, cfg, known, k) == Some(a) && w.hidden(a.source).ok
    requires end.accepted == Some(a) && end.spend == start.spend + w.hiddenUsd(a.source)
    requires end.steps == start.steps + [Step(a.tier, Accept, a.score, "")]
    ensures RaceReads(w, cfg, known, k, start, end)
  {
    hide Falls, TryUsd, TryStep, Represents, EntryOf, TriedUsd, TriedSteps, Runs, FanHeard;
    SomethingTried(w, cfg, known, k, a);
    TriedStep(w, cfg, known, k, k + 1);
    assert TryStep(w, cfg, known, k) + [] == TryStep(w, cfg, known, k);
  }

  function Rejected(w: World, r: Race, a: Acceptance): Race {
    r.(spend := r.spend + w.hiddenUsd(a.source), steps := r.steps + [Step(a.tier, Reject, a.score, "")])
  }

  lemma SettleStep(w: World, a: Acceptance, rest: seq<Acceptance>, r: Race)
    ensures var end := Settle(w, [a] + rest, r);
      if w.hidden(a.source).ok then
        && end.accepted == Some(a) && end.spend == r.spend + w.hiddenUsd(a.source)
        && end.steps == r.steps + [Step(a.tier, Accept, a.score, "")]
      else end == Settle(w, rest, Rejected(w, r, a))
  {
    assert ([a] + rest)[1..] == rest;
  }

  lemma RaceOver(w: World, cfg: Config, known: seq<Failure>, r: Race)
    requires r.accepted.None?
    ensures RaceReads(w, cfg, known, |cfg.tiers|, r, Settle(w, Winners(w, cfg, known, |cfg.tiers|), r))
  {
    assert Winners(w, cfg, known, |cfg.tiers|) == [];
    hide Falls, TryUsd, TryStep, Represents;
    assert r.steps + [] == r.steps;
  }

  lemma {:induction false} SettleIsReadable(w: World, cfg: Config, known: seq<Failure>, k: nat, r: Race)
    requires k <= |cfg.tiers| && r.accepted.None?
    ensures RaceReads(w, cfg, known, k, r, Settle(w, Winners(w, cfg, known, k), r))
    decreases |cfg.tiers| - k
  {
    hide *;
    if k == |cfg.tiers| {
      RaceOver(w, cfg, known, r);
    } else {
      var entry, rest := EntryOf(w, cfg, known, k), Winners(w, cfg, known, k + 1);
      WinnersStep(w, cfg, known, k);
      if entry.None? {
        assert r.steps + [] == r.steps;
        SettleIsReadable(w, cfg, known, k + 1, r);
        NothingTried(w, cfg, known, k);
        FallsFirst(w, cfg, known, k, r, r, Settle(w, rest, r));
      } else {
        SomethingTried(w, cfg, known, k, entry.value);
        SettleStep(w, entry.value, rest, r);
        if w.hidden(entry.value.source).ok {
          AcceptsHere(w, cfg, known, k, r, Settle(w, Winners(w, cfg, known, k), r), entry.value);
        } else {
          RejectedKeepsRacing(w, r, entry.value);
          SettleIsReadable(w, cfg, known, k + 1, Rejected(w, r, entry.value));
          FallsFirst(w, cfg, known, k, r, Rejected(w, r, entry.value), Settle(w, rest, Rejected(w, r, entry.value)));
        }
      }
    }
  }

  lemma RejectedKeepsRacing(w: World, r: Race, a: Acceptance)
    ensures Rejected(w, r, a).accepted == r.accepted && Rejected(w, r, a).spend == r.spend + w.hiddenUsd(a.source)
    ensures Rejected(w, r, a).steps == r.steps + [Step(a.tier, Reject, a.score, "")]
  {
  }

  lemma WinnersStep(w: World, cfg: Config, known: seq<Failure>, k: nat)
    requires k < |cfg.tiers|
    ensures var (entry, rest) := (EntryOf(w, cfg, known, k), Winners(w, cfg, known, k + 1));
      Winners(w, cfg, known, k) == if entry.Some? then [entry.value] + rest else rest
  {
    hide Entry, Fanned;
    var rest := Winners(w, cfg, known, k + 1);
    assert [] + rest == rest;
  }

  // ------------------------------------------------------------ the whole run

  /** The fan-outs of the first n tiers. */
  function FansUsd(w: World, cfg: Config, known: seq<Failure>, n: nat): real
    requires n <= |cfg.tiers|
  {
    if n == 0 then 0.0
    else FansUsd(w, cfg, known, n - 1)
         + Bill(w, FanLog(w, cfg, known, n - 1), |PlanAsked(cfg)|, |FanLog(w, cfg, known, n - 1)|)
  }

  lemma {:induction false} FansAreReadable(w: World, cfg: Config, known: seq<Failure>, n: nat)
    requires n <= |cfg.tiers|
    ensures FanUsd(w, cfg, known, n) == FansUsd(w, cfg, known, n)
  {
    hide FannedUsd, Bill, FanLog;
    if n != 0 {
      FansAreReadable(w, cfg, known, n - 1);
      FanIsReadable(w, cfg, known, n - 1);
    }
  }

  lemma PlanIsBilled(w: World, cfg: Config)
    ensures PlanCharge(w, cfg) == Bill(w, PlanAsked(cfg), 0, |PlanAsked(cfg)|)
  {
    if cfg.twoStage {
      var log := PlanAsked(cfg);
      assert log[..0] == [];
      assert Bill(w, log, 0, 1) == Bill(w, log, 0, 0) + PriceOf(w, log, 0);
    }
  }

  /** The speculative run pays for the plan, for every tier's fan-out and for each
      held-out test it tries; it accepts the cheapest tier whose representative passes,
      and nothing only if every one falls. */
  lemma RaceIsReadable(w: World, cfg: Config, known: seq<Failure>)
    ensures RaceReads(w, cfg, known, 0,
                      Race(None, Bill(w, PlanAsked(cfg), 0, |PlanAsked(cfg)|) + FansUsd(w, cfg, known, |cfg.tiers|), []),
                      RaceOf(w, cfg, known))
  {
    hide RaceReads, Bill, FansUsd, FanUsd, PlanCharge, PlanAsked;
    PlanIsBilled(w, cfg);
    FansAreReadable(w, cfg, known, |cfg.tiers|);
    SettleIsReadable(w, cfg, known, 0, Race(None, PlanCharge(w, cfg) + FanUsd(w, cfg, known, |cfg.tiers|), []));
  }
}
