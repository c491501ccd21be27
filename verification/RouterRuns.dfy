/** The failure cache and whole runs: what is remembered, what later tiers are told,
    and that every dollar is accounted for. */
module RouterRuns {
  import opened Wrappers
  import opened Router
  import opened RouterTheorems
  import opened RouterTalk

  // ------------------------------------------------------------ the failure cache

  /** Refuted by the visible tests, and parseable. */
  predicate Recordable(w: World, c: Candidate) {
    !c.report.ok && w.canon(c.source).Some?
  }

  function Note(w: World, c: Candidate): Failure
    requires Recordable(w, c)
  {
    Failure(w.canon(c.source).value, c.report.failedAt, w.note(c.report))
  }

  predicate Mentions(fs: seq<Failure>, canon: string) {
    exists i :: 0 <= i < |fs| && fs[i].canon == canon
  }

  predicate NoFormTwice(fs: seq<Failure>) {
    forall i, j :: 0 <= i < j < |fs| ==> fs[i].canon != fs[j].canon
  }

  /** Candidate i is the first among them with its canonical form, and it was unknown. */
  predicate IsNews(w: World, fs: seq<Failure>, cands: seq<Candidate>, i: nat) {
    && i < |cands| && Recordable(w, cands[i])
    && !Mentions(fs, Note(w, cands[i]).canon)
    && forall j :: 0 <= j < i && Recordable(w, cands[j]) ==> Note(w, cands[j]).canon != Note(w, cands[i]).canon
  }

  /** The news among the first n candidates, in order. */
  function News(w: World, fs: seq<Failure>, cands: seq<Candidate>, n: nat): seq<Failure>
    requires n <= |cands|
  {
    if n == 0 then []
    else News(w, fs, cands, n - 1) + if IsNews(w, fs, cands, n - 1) then [Note(w, cands[n - 1])] else []
  }

  lemma {:induction false} NewsMentions(w: World, fs: seq<Failure>, cands: seq<Candidate>, n: nat, canon: string)
    requires n <= |cands|
    ensures Mentions(fs + News(w, fs, cands, n), canon)
       <==> Mentions(fs, canon) || exists j :: 0 <= j < n && Recordable(w, cands[j]) && Note(w, cands[j]).canon == canon
  {
    if n == 0 {
      assert fs + [] == fs;
    } else {
      NewsMentions(w, fs, cands, n - 1, canon);
      var before, last := fs + News(w, fs, cands, n - 1), cands[n - 1];
      if IsNews(w, fs, cands, n - 1) {
        assert fs + News(w, fs, cands, n) == before + [Note(w, last)];
        MentionsSnoc(before, Note(w, last), canon);
      } else {
        assert fs + News(w, fs, cands, n) == before;
      }
    }
  }

  lemma MentionsSnoc(fs: seq<Failure>, f: Failure, canon: string)
    ensures Mentions(fs + [f], canon) <==> Mentions(fs, canon) || f.canon == canon
  {
    var all := fs + [f];
    assert all[|fs|] == f;
    if Mentions(fs, canon) {
      var i :| 0 <= i < |fs| && fs[i].canon == canon;
      assert all[i] == fs[i];
    }
  }

  lemma {:induction false} NewsIsShort(w: World, fs: seq<Failure>, cands: seq<Candidate>, n: nat)
    requires n <= |cands|
    ensures |News(w, fs, cands, n)| <= n
  {
    if n != 0 {
      NewsIsShort(w, fs, cands, n - 1);
    }
  }

  /** While the cache has room, recording appends the news and nothing else. */
  lemma {:induction false} RecordsTheNews(w: World, cfg: Config, fs: seq<Failure>, cands: seq<Candidate>, n: nat)
    requires !cfg.cacheDisabled && n <= |cands| && |fs| + n <= 64
    ensures RecordFailures(w, cfg, fs, cands[..n]) == fs + News(w, fs, cands, n)
  {
    if n == 0 {
      assert fs + [] == fs;
    } else {
      RecordsTheNews(w, cfg, fs, cands, n - 1);
      NewsIsShort(w, fs, cands, n - 1);
      assert cands[..n][..n - 1] == cands[..n - 1];
      var c := cands[n - 1];
      if Recordable(w, c) {
        NewsMentions(w, fs, cands, n - 1, Note(w, c).canon);
        var before := fs + News(w, fs, cands, n - 1);
        assert IsNews(w, fs, cands, n - 1) <==> !Mentions(before, Note(w, c).canon);
        assert RecordFailures(w, cfg, fs, cands[..n]) == AddFailure(before, Note(w, c));
      }
    }
  }

  ghost predicate FromOneOf(w: World, cands: seq<Candidate>, f: Failure) {
    exists i :: 0 <= i < |cands| && Recordable(w, cands[i]) && f == Note(w, cands[i])
  }

  lemma AddingKeeps(fs: seq<Failure>, f: Failure)
    requires |fs| <= 64 && NoFormTwice(fs)
    ensures var after := AddFailure(fs, f);
      && |after| <= 64 && NoFormTwice(after) && Mentions(after, f.canon)
      && forall g :: g in after ==> g in fs || g == f
  {
    var all, after := fs + [f], AddFailure(fs, f);
    if !Mentions(fs, f.canon) {
      assert forall i :: 0 <= i < |fs| ==> fs[i].canon != f.canon;
      assert after[|after| - 1] == f;
      assert NoFormTwice(all);
    }
  }

  /** However much is recorded, at most 64 failures are kept, no form twice, nothing but
      what was known or has just failed, and what failed last for certain. */
  lemma {:induction false} CacheStaysSmall(w: World, cfg: Config, fs: seq<Failure>, cands: seq<Candidate>)
    requires |fs| <= 64 && NoFormTwice(fs)
    ensures var after := RecordFailures(w, cfg, fs, cands);
      && |after| <= 64 && NoFormTwice(after)
      && forall f :: f in after ==> f in fs || FromOneOf(w, cands, f)
    ensures !cfg.cacheDisabled && cands != [] && Recordable(w, cands[|cands| - 1]) ==>
      Mentions(RecordFailures(w, cfg, fs, cands), Note(w, cands[|cands| - 1]).canon)
  {
    if !cfg.cacheDisabled && cands != [] {
      var init, c := cands[..|cands| - 1], cands[|cands| - 1];
      CacheStaysSmall(w, cfg, fs, init);
      var rest := RecordFailures(w, cfg, fs, init);
      forall f | FromOneOf(w, init, f)
        ensures FromOneOf(w, cands, f)
      {
        var i :| 0 <= i < |init| && Recordable(w, init[i]) && f == Note(w, init[i]);
        assert cands[i] == init[i];
      }
      if Recordable(w, c) {
        AddingKeeps(rest, Note(w, c));
        assert FromOneOf(w, cands, Note(w, c));
      }
    }
  }

  /** One more failure: unknown forms go to the end, and beyond 64 the oldest goes. */
  lemma OldestMakesRoom(w: World, cfg: Config, fs: seq<Failure>, cands: seq<Candidate>, c: Candidate)
    requires !cfg.cacheDisabled && |fs| <= 64 && NoFormTwice(fs)
    ensures var (rest, after) := (RecordFailures(w, cfg, fs, cands), RecordFailures(w, cfg, fs, cands + [c]));
      if !Recordable(w, c) || Mentions(rest, Note(w, c).canon) then after == rest
      else if |rest| < 64 then after == rest + [Note(w, c)]
      else after == rest[1..] + [Note(w, c)]
  {
    CacheStaysSmall(w, cfg, fs, cands);
    var all := cands + [c];
    assert all[..|all| - 1] == cands;
    var rest := RecordFailures(w, cfg, fs, cands);
    assert RecordFailures(w, cfg, fs, all)
        == if Recordable(w, c) then AddFailure(rest, Note(w, c)) else rest;
  }

  // ------------------------------------------------------------ what a tier remembers

  /** A tier records its whole sample when none of it survives, and a representative the
      held-out tests refute only if the visible ones had refuted it too. */
  lemma TierRemembers(w: World, cfg: Config, k: nat, plan: string, p: Progress)
    requires k < |cfg.tiers|
    ensures var q := TierRun(w, cfg, k, plan, p);
      TierReads(w, cfg, k, plan, p, q)
      && var (first, voters) := (First(w, cfg, k, p, q.log), Voters(w, cfg, k, p, q.log));
         var noted := if first == [] || w.vote(first).None? then RecordFailures(w, cfg, p.failures, first) else p.failures;
         && (NotConsulted(w, cfg, k, voters) ==> q.failures == noted)
         && forall i: nat :: Consulted(w, cfg, k, voters, i) ==>
              q.failures == if w.hidden(voters[i].source).ok || voters[i].report.ok then noted
                            else RecordFailures(w, cfg, noted, [voters[i]])
  {
    hide TierReads, RecordFailures, First, Voters, Sampled, Decided, FirstSamples, Consulted, NotConsulted;
    TierIsReadable(w, cfg, k, plan, p);
    SamplingIsReadable(w, cfg, k, plan, p);
    SampledFailures(w, cfg, k, plan, p);
    var (s, cands) := Sampled(w, cfg, k, plan, p);
    DecidedFailures(w, cfg, k, FirstSamples(w, cfg, k, plan, p), cands, s);
    DecidedLog(w, cfg, k, FirstSamples(w, cfg, k, plan, p), cands, s);
    SampledVoters(w, cfg, k, plan, p, s, cands);
  }

  lemma SampledVoters(w: World, cfg: Config, k: nat, plan: string, p: Progress, s: Progress, cands: seq<Candidate>)
    requires k < |cfg.tiers| && SampledReads(w, cfg, k, plan, p, s, cands)
    ensures |p.log| + cfg.tiers[k].samples <= |s.log| && cands == Voters(w, cfg, k, p, s.log)
  {
  }

  lemma DecidedLog(w: World, cfg: Config, k: nat, first: seq<Candidate>, cands: seq<Candidate>, s: Progress)
    requires k < |cfg.tiers|
    ensures Decided(w, cfg, k, first, cands, s).log == s.log
  {
    hide RecordFailures;
  }

  lemma SampledFailures(w: World, cfg: Config, k: nat, plan: string, p: Progress)
    requires k < |cfg.tiers|
    ensures var first := FirstSamples(w, cfg, k, plan, p);
      Sampled(w, cfg, k, plan, p).0.failures
      == if first == [] || w.vote(first).None? then RecordFailures(w, cfg, p.failures, first) else p.failures
  {
    hide Samples, SampleUsd, RecordFailures, RepairFrom, SamplePrompts, RepairReads;
    var n, avoid := cfg.tiers[k].samples, Avoid(cfg, p);
    var cands := Samples(w, p.log, k, plan, avoid, n);
    var asked := p.(log := p.log + SamplePrompts(k, plan, avoid, n),
                    spend := p.spend + SampleUsd(w, p.log, k, plan, avoid, n));
    var noted := asked.(failures := RecordFailures(w, cfg, asked.failures, cands));
    if VoteOf(w, cands).None? && cands != [] {
      RepairIsReadable(w, cfg, k, cands[BestRefuted(cands)], 0, noted);
      var (q, fixed) := RepairFrom(w, cfg, k, cands[BestRefuted(cands)], 0, noted);
      RepairForgetsNothing(w, k, cfg.tiers[k].repairDepth, cands[BestRefuted(cands)], noted, q, fixed);
    }
  }

  lemma RepairForgetsNothing(w: World, k: nat, rounds: nat, c: Candidate, p: Progress, q: Progress, fixed: Option<Candidate>)
    requires RepairReads(w, k, rounds, c, 0, p, q, fixed)
    ensures q.failures == p.failures
  {
  }

  lemma DecidedFailures(w: World, cfg: Config, k: nat, first: seq<Candidate>, voters: seq<Candidate>, s: Progress)
    requires k < |cfg.tiers|
    ensures var q := Decided(w, cfg, k, first, voters, s);
      && (NotConsulted(w, cfg, k, voters) ==> q.failures == s.failures)
      && forall i: nat :: Consulted(w, cfg, k, voters, i) ==>
           q.failures == if w.hidden(voters[i].source).ok || voters[i].report.ok then s.failures
                         else RecordFailures(w, cfg, s.failures, [voters[i]])
  {
    ConsultedOnes(w, cfg, k, voters);
    hide Consulted, NotConsulted;
    if VoteOf(w, voters).Some? {
      var rep := Representative(w, voters);
      assert [rep][..0] == [];
      assert RecordFailures(w, cfg, s.failures, []) == s.failures;
    }
  }

  // ------------------------------------------------------------ whole runs

  /** What consulting the held-out tests cost the tier. */
  ghost function ConsultUsd(w: World, cfg: Config, k: nat, voters: seq<Candidate>): real {
    if i: nat :| Consulted(w, cfg, k, voters, i) then w.hiddenUsd(voters[i].source) else 0.0
  }

  lemma TierPays(w: World, cfg: Config, k: nat, plan: string, p: Progress, q: Progress)
    requires k < |cfg.tiers| && TierReads(w, cfg, k, plan, p, q)
    ensures q.spend == p.spend + Bill(w, q.log, |p.log|, |q.log|) + ConsultUsd(w, cfg, k, Voters(w, cfg, k, p, q.log))
  {
    var voters := Voters(w, cfg, k, p, q.log);
    hide Voters, First, Consulted, NotConsulted, Bill, CarriesNote, TracesTier, AcceptsRightly;
    NotBoth(w, cfg, k, voters);
    if i: nat :| Consulted(w, cfg, k, voters, i) {
      assert ConsultUsd(w, cfg, k, voters) == w.hiddenUsd(voters[i].source);
    }
  }

  /** Tier k takes part in the run, which has not accepted before it. */
  predicate Reached(w: World, cfg: Config, failures: seq<Failure>, k: nat)
    requires k <= |cfg.tiers|
  {
    StateBefore(w, cfg, failures, k).accepted.None?
  }

  /** The same for a tier from p, whatever its log. */
  ghost function TierHeldOutUsd(w: World, cfg: Config, k: nat, p: Progress, log: seq<Prompt>): real
    requires k < |cfg.tiers|
  {
    if p.accepted.None? && |p.log| + cfg.tiers[k].samples <= |log|
    then ConsultUsd(w, cfg, k, Voters(w, cfg, k, p, log)) else 0.0
  }

  /** Each tier's held-out charge, over the first n tiers. */
  ghost function HeldOutUsd(w: World, cfg: Config, failures: seq<Failure>, n: nat): real
    requires n <= |cfg.tiers|
  {
    if n == 0 then 0.0
    else
      HeldOutUsd(w, cfg, failures, n - 1)
      + TierHeldOutUsd(w, cfg, n - 1, StateBefore(w, cfg, failures, n - 1), StateBefore(w, cfg, failures, n).log)
  }

  /** A whole run, tier by tier: it starts with the plan, every tier it reaches reads as
      its log says, and it ends where one accepts. */
  lemma RunIsReadable(w: World, cfg: Config, failures: seq<Failure>, k: nat)
    requires k < |cfg.tiers|
    ensures StateBefore(w, cfg, failures, 0).log == PlanAsked(cfg)
    ensures StateBefore(w, cfg, failures, 0).carried == [] && StateBefore(w, cfg, failures, 0).failures == failures
    ensures Reached(w, cfg, failures, k) ==>
      TierReads(w, cfg, k, PlanHeard(w, cfg), StateBefore(w, cfg, failures, k), StateBefore(w, cfg, failures, k + 1))
    ensures !Reached(w, cfg, failures, k) ==> StateBefore(w, cfg, failures, k + 1) == StateBefore(w, cfg, failures, k)
    ensures SequentialOf(w, cfg, failures) == StateBefore(w, cfg, failures, |cfg.tiers|)
  {
    SequentialIsLastState(w, cfg, failures);
    hide TierRun, SequentialOf, TierReads;
    TierIsReadable(w, cfg, k, PlanHeard(w, cfg), StateBefore(w, cfg, failures, k));
  }

  lemma PlanIsPriced(w: World, cfg: Config, failures: seq<Failure>)
    ensures var p := StateBefore(w, cfg, failures, 0);
      p.spend == Bill(w, p.log, 0, |p.log|) + HeldOutUsd(w, cfg, failures, 0)
  {
    if cfg.twoStage {
      var log := [PlanPrompt];
      assert log[..0] == [];
      assert Bill(w, log, 0, 1) == Bill(w, log, 0, 0) + PriceOf(w, log, 0);
    }
  }

  /** Money is conserved: a run has spent what its prompts, and the held-out tests it
      consulted, cost. */
  lemma {:induction false} RunPays(w: World, cfg: Config, failures: seq<Failure>, k: nat)
    requires k <= |cfg.tiers|
    ensures var p := StateBefore(w, cfg, failures, k);
      p.spend == Bill(w, p.log, 0, |p.log|) + HeldOutUsd(w, cfg, failures, k)
  {
    hide *;
    if k == 0 {
      PlanIsPriced(w, cfg, failures);
    } else {
      RunPays(w, cfg, failures, k - 1);
      RunIsReadable(w, cfg, failures, k - 1);
      var p, q := StateBefore(w, cfg, failures, k - 1), StateBefore(w, cfg, failures, k);
      if Reached(w, cfg, failures, k - 1) {
        HeldOutGrows(w, cfg, failures, k, p, q);
        PaysOn(w, p, q, HeldOutUsd(w, cfg, failures, k - 1), HeldOutUsd(w, cfg, failures, k));
      } else {
        HeldOutStays(w, cfg, failures, k);
      }
    }
  }

  lemma PaysOn(w: World, p: Progress, q: Progress, h: real, h': real)
    requires p.log <= q.log && p.spend == Bill(w, p.log, 0, |p.log|) + h
    requires q.spend - h' == p.spend - h + Bill(w, q.log, |p.log|, |q.log|)
    ensures q.spend == Bill(w, q.log, 0, |q.log|) + h'
  {
    BillsAlike(w, p.log, q.log, 0, |p.log|);
    BillSplits(w, q.log, 0, |p.log|, |q.log|);
  }

  lemma HeldOutStep(w: World, cfg: Config, failures: seq<Failure>, n: nat)
    requires 0 < n <= |cfg.tiers|
    ensures HeldOutUsd(w, cfg, failures, n)
         == HeldOutUsd(w, cfg, failures, n - 1)
            + TierHeldOutUsd(w, cfg, n - 1, StateBefore(w, cfg, failures, n - 1), StateBefore(w, cfg, failures, n).log)
  {
    hide StateBefore, TierHeldOutUsd;
  }

  lemma TierHeldOut(w: World, cfg: Config, k: nat, plan: string, p: Progress, q: Progress)
    requires k < |cfg.tiers| && TierReads(w, cfg, k, plan, p, q) && p.accepted.None?
    ensures p.log <= q.log
    ensures q.spend == p.spend + Bill(w, q.log, |p.log|, |q.log|) + TierHeldOutUsd(w, cfg, k, p, q.log)
  {
    TierPays(w, cfg, k, plan, p, q);
    hide Voters, Bill, AcceptsRightly, PaysFor, CarriesNote, TracesTier, IsRepairOf, ConsultUsd, First, AsksSamples;
  }

  lemma HeldOutStays(w: World, cfg: Config, failures: seq<Failure>, k: nat)
    requires 0 < k <= |cfg.tiers| && !Reached(w, cfg, failures, k - 1)
    ensures HeldOutUsd(w, cfg, failures, k) == HeldOutUsd(w, cfg, failures, k - 1)
  {
    HeldOutStep(w, cfg, failures, k);
    hide StateBefore, HeldOutUsd;
  }

  lemma HeldOutGrows(w: World, cfg: Config, failures: seq<Failure>, k: nat, p: Progress, q: Progress)
    requires 0 < k <= |cfg.tiers| && Reached(w, cfg, failures, k - 1)
    requires p == StateBefore(w, cfg, failures, k - 1) && q == StateBefore(w, cfg, failures, k)
    requires TierReads(w, cfg, k - 1, PlanHeard(w, cfg), p, q)
    ensures p.log <= q.log
    ensures q.spend - HeldOutUsd(w, cfg, failures, k)
         == p.spend - HeldOutUsd(w, cfg, failures, k - 1) + Bill(w, q.log, |p.log|, |q.log|)
  {
    assert p.accepted.None? by { hide StateBefore, TierReads; }
    hide *;
    HeldOutStep(w, cfg, failures, k);
    TierHeldOut(w, cfg, k - 1, PlanHeard(w, cfg), p, q);
  }

  lemma SequentialPays(w: World, cfg: Config, failures: seq<Failure>)
    ensures var q := SequentialOf(w, cfg, failures);
      q.spend == Bill(w, q.log, 0, |q.log|) + HeldOutUsd(w, cfg, failures, |cfg.tiers|)
  {
    hide StateBefore, SequentialOf, Bill, HeldOutUsd;
    SequentialIsLastState(w, cfg, failures);
    RunPays(w, cfg, failures, |cfg.tiers|);
  }

  // ------------------------------------------------------------ repair

  lemma {:induction false} LogsGrow(w: World, cfg: Config, failures: seq<Failure>, j: nat, k: nat)
    requires j <= k <= |cfg.tiers|
    ensures StateBefore(w, cfg, failures, j).log <= StateBefore(w, cfg, failures, k).log
    decreases k
  {
    hide *;
    if j < k {
      LogsGrow(w, cfg, failures, j, k - 1);
      RunIsReadable(w, cfg, failures, k - 1);
      if Reached(w, cfg, failures, k - 1) {
        ReadsForward(w, cfg, k - 1, PlanHeard(w, cfg), StateBefore(w, cfg, failures, k - 1),
                     StateBefore(w, cfg, failures, k));
      }
    }
  }

  lemma ReadsForward(w: World, cfg: Config, k: nat, plan: string, p: Progress, q: Progress)
    requires k < |cfg.tiers| && TierReads(w, cfg, k, plan, p, q)
    ensures p.log <= q.log && |p.log| + cfg.tiers[k].samples <= |q.log|
  {
    hide AcceptsRightly, PaysFor, CarriesNote, TracesTier, Voters, First;
  }

  /** The fan-out of tier k as its run heard it. */
  function FirstAt(w: World, cfg: Config, failures: seq<Failure>, k: nat): seq<Candidate>
    requires k < |cfg.tiers|
  {
    var p, log := StateBefore(w, cfg, failures, k), StateBefore(w, cfg, failures, k + 1).log;
    if |p.log| + cfg.tiers[k].samples <= |log| then First(w, cfg, k, p, log) else []
  }

  /** Where the repair of tier k would start in the log. */
  function RepairStart(w: World, cfg: Config, failures: seq<Failure>, k: nat): nat
    requires k < |cfg.tiers|
  {
    |StateBefore(w, cfg, failures, k).log| + cfg.tiers[k].samples
  }

  /** A tier that is reached, whose samples all fall and for which repair is worth its
      price does repair: the run's log holds, from there on, a prompt with the source,
      stage and diagnostic of the first sample that got furthest, and then one for each
      refuted reply before it, at most repairDepth in all and none after a pass. What
      passes votes with the samples. */
  lemma RefutedSamplesAreRepaired(w: World, cfg: Config, failures: seq<Failure>, k: nat, b: nat)
    requires k < |cfg.tiers| && 0 < cfg.tiers[k].repairDepth && Reached(w, cfg, failures, k)
    requires Repairs(w, cfg, k, FirstAt(w, cfg, failures, k)) && FurthestFirst(FirstAt(w, cfg, failures, k), b)
    ensures var (at, log) := (RepairStart(w, cfg, failures, k), StateBefore(w, cfg, failures, k + 1).log);
      && log <= SequentialOf(w, cfg, failures).log
      && at < |log| <= at + cfg.tiers[k].repairDepth
      && AsksToRepair(log[at], k, FirstAt(w, cfg, failures, k)[b])
      && (forall i :: at < i < |log| ==> FollowsUp(w, k, log, i))
      && (|log| < at + cfg.tiers[k].repairDepth ==> !Refuted(w, log, |log| - 1))
      && (Passed(w, log, |log| - 1) ==>
            Voters(w, cfg, k, StateBefore(w, cfg, failures, k), log)
            == FirstAt(w, cfg, failures, k) + [Heard(w, log, |log| - 1, 1000 + (|log| - 1 - at)).value])
  {
    hide StateBefore, SequentialOf, TierReads, Heard, FurthestFirst;
    var p, q := StateBefore(w, cfg, failures, k), StateBefore(w, cfg, failures, k + 1);
    RunIsReadable(w, cfg, failures, k);
    LogsGrow(w, cfg, failures, k + 1, |cfg.tiers|);
    ReadsForward(w, cfg, k, PlanHeard(w, cfg), p, q);
    RepairIsThere(w, cfg, k, PlanHeard(w, cfg), p, q, b);
    hide IsRepairOf, Voters, Passed, Refuted, FollowsUp;
    if Passed(w, q.log, |q.log| - 1) {
      PasserVotes(w, cfg, k, p, q.log);
    }
  }

  lemma PasserVotes(w: World, cfg: Config, k: nat, p: Progress, log: seq<Prompt>)
    requires k < |cfg.tiers| && |p.log| + cfg.tiers[k].samples < |log| && Passed(w, log, |log| - 1)
    ensures var at := |p.log| + cfg.tiers[k].samples;
      && Heard(w, log, |log| - 1, 1000 + (|log| - 1 - at)).Some?
      && Voters(w, cfg, k, p, log)
         == First(w, cfg, k, p, log) + [Heard(w, log, |log| - 1, 1000 + (|log| - 1 - at)).value]
  {
    hide First;
  }

  lemma RepairIsThere(w: World, cfg: Config, k: nat, plan: string, p: Progress, q: Progress, b: nat)
    requires k < |cfg.tiers| && TierReads(w, cfg, k, plan, p, q) && |p.log| + cfg.tiers[k].samples <= |q.log|
    requires Repairs(w, cfg, k, First(w, cfg, k, p, q.log)) && FurthestFirst(First(w, cfg, k, p, q.log), b)
    ensures var (at, rounds) := (|p.log| + cfg.tiers[k].samples, cfg.tiers[k].repairDepth);
      && IsRepairOf(w, k, rounds, First(w, cfg, k, p, q.log)[b], at, q.log)
      && (0 < rounds ==> at < |q.log|)
  {
    hide AcceptsRightly, PaysFor, CarriesNote, TracesTier, First, Voters, AsksSamples, FurthestFirst;
  }

  /** The marginal rule on positive prices: 0.45 per dollar of one repair against 0.35
      per dollar of the next tier's whole sample. The last tier repairs whenever it may. */
  lemma RepairIsPreferredExactlyWhen(tiers: seq<Tier>, k: nat)
    requires k + 1 < |tiers| && 0.0 < tiers[k].outPerMTok
    requires 0.0 < tiers[k + 1].outPerMTok * tiers[k + 1].samples as real
    ensures PrefersRepair(tiers, k)
       <==> 0 < tiers[k].repairDepth
            && 7.0 * tiers[k].outPerMTok < 9.0 * (tiers[k + 1].outPerMTok * tiers[k + 1].samples as real)
  {
    GainPerDollar(tiers[k].outPerMTok, tiers[k + 1].outPerMTok * tiers[k + 1].samples as real);
  }

  lemma GainPerDollar(c: real, e: real)
    requires 0.0 < c && 0.0 < e
    ensures 0.35 / e < 0.45 / c <==> 7.0 * c < 9.0 * e
  {
    var x, y := 0.35 / e, 0.45 / c;
    assert x * e == 0.35 && y * c == 0.45;
    CrossTimes(x, e, y, c);
  }

  lemma CrossTimes(x: real, e: real, y: real, c: real)
    requires 0.0 < c && 0.0 < e && x * e == 0.35 && y * c == 0.45
    ensures x < y <==> 7.0 * c < 9.0 * e
  {
    assert (y - x) * (c * e) == (y * c) * e - (x * e) * c;
    assert 0.0 < c * e;
    var d, g := y - x, c * e;
    assert 0.0 < d * g <==> 0.0 < d;
  }

  /** One tier, one sample that the visible tests refute, and a reply to its repair that
      passes them, is voted for and passes the held-out ones. */
  ghost predicate RepairWorks(w: World, t: Tier, src: string, fixed: string, score: real) {
    var ask, bad := CodePrompt(0, 0, "", []), w.visible(src);
    var fix, good := RepairPrompt(0, src, bad.failedAt, bad.diag), w.visible(fixed);
    && t.samples == 1 && 0 < t.repairDepth
    && w.extract(w.reply([], ask)) == Some(src) && !bad.ok && w.vote([Candidate(0, src, bad)]).None?
    && w.extract(w.reply([ask], fix)) == Some(fixed) && good.ok
    && w.vote([Candidate(0, src, bad), Candidate(1000, fixed, good)]) == Some(Vote(score, 1000))
    && w.hidden(fixed).ok
  }

  /** Then the run asks for that one repair and accepts it. */
  lemma OneRepairSolves(w: World, cfg: Config, src: string, fixed: string, score: real)
    requires |cfg.tiers| == 1 && !cfg.twoStage && RepairWorks(w, cfg.tiers[0], src, fixed, score)
    ensures var q := SequentialOf(w, cfg, []);
      && q.log == [CodePrompt(0, 0, "", []),
                   RepairPrompt(0, src, w.visible(src).failedAt, w.visible(src).diag)]
      && q.accepted == Some(Acceptance(0, fixed, score))
  {
    var p, q := StateBefore(w, cfg, [], 0), StateBefore(w, cfg, [], 1);
    assert p.accepted.None?;
    assert [] + NotesShown(cfg, p) == NotesShown(cfg, p);
    RunIsReadable(w, cfg, [], 0);
    hide StateBefore, SequentialOf;
    assert NotesShown(cfg, p) == [];
    OneSampleHeard(w, cfg, p, q, src);
    OneRoundHeard(w, cfg, p, q, src, fixed, score);
  }

  lemma OneSampleHeard(w: World, cfg: Config, p: Progress, q: Progress, src: string)
    requires |cfg.tiers| == 1 && cfg.tiers[0].samples == 1 && p.log == [] && NotesShown(cfg, p) == []
    requires TierReads(w, cfg, 0, "", p, q) && w.extract(w.reply([], CodePrompt(0, 0, "", []))) == Some(src)
    ensures 1 <= |q.log| && q.log[0] == CodePrompt(0, 0, "", [])
    ensures First(w, cfg, 0, p, q.log) == [Candidate(0, src, w.visible(src))]
  {
    hide AcceptsRightly, PaysFor, CarriesNote, TracesTier, Voters, IsRepairOf;
    assert q.log[0 + 0] == CodePrompt(0, 0, "", []);
    assert q.log[..0] == [];
    assert First(w, cfg, 0, p, q.log)[0] == SampleHeard(w, q.log, 0, 0);
  }

  lemma OneRoundHeard(w: World, cfg: Config, p: Progress, q: Progress, src: string, fixed: string, score: real)
    requires |cfg.tiers| == 1 && p.log == [] && TierReads(w, cfg, 0, "", p, q)
    requires RepairWorks(w, cfg.tiers[0], src, fixed, score)
    requires 1 <= |q.log| && q.log[0] == CodePrompt(0, 0, "", [])
    requires First(w, cfg, 0, p, q.log) == [Candidate(0, src, w.visible(src))]
    ensures q.log == [CodePrompt(0, 0, "", []), RepairPrompt(0, src, w.visible(src).failedAt, w.visible(src).diag)]
    ensures q.accepted == Some(Acceptance(0, fixed, score))
  {
    var first := First(w, cfg, 0, p, q.log);
    assert FurthestFirst(first, 0) && Repairs(w, cfg, 0, first);
    hide First, PaysFor, CarriesNote, TracesTier, AsksSamples;
    assert q.log[..1] == [CodePrompt(0, 0, "", [])];
    assert Heard(w, q.log, 1, 1000) == Some(Candidate(1000, fixed, w.visible(fixed)));
    assert Passed(w, q.log, 1) && !Refuted(w, q.log, 1);
    assert 2 < |q.log| ==> FollowsUp(w, 0, q.log, 2);
    assert |q.log| == 2;
    var voters := Voters(w, cfg, 0, p, q.log);
    assert voters == [Candidate(0, src, w.visible(src)), Candidate(1000, fixed, w.visible(fixed))];
    assert Consulted(w, cfg, 0, voters, 1);
  }
}
