/** What the two record files hold, and how much work a killed run leaves. */
module ResumeRecords {
  import opened Resume
  import opened ResumeTheorems

  // ------------------------------------------------------------ contents

  /** Profiling the problem in this run gave these two verdicts. */
  ghost predicate Profiles(a: Attempt, id: string, exec: string, judge: string) {
    id in a.probs && a.profile(id) == Both(exec, judge)
  }

  ghost predicate ExecFrom(runs: seq<Attempt>, r: Rec) {
    exists i, judge :: 0 <= i < |runs| && Profiles(runs[i], r.id, r.verdict, judge)
  }

  ghost predicate JudgeFrom(runs: seq<Attempt>, r: Rec) {
    exists i, exec :: 0 <= i < |runs| && Profiles(runs[i], r.id, exec, r.verdict)
  }

  /** Every record holds the verdict its own arm gave in some run. */
  ghost predicate Genuine(runs: seq<Attempt>, arms: Arms) {
    && (forall r :: r in Load(arms.exec) ==> ExecFrom(runs, r))
    && (forall r :: r in Load(arms.judge) ==> JudgeFrom(runs, r))
  }

  lemma {:induction false} LoopIsGenuine(runs: seq<Attempt>, a: Attempt, done: seq<Rec>, i: nat, exec: seq<Rec>,
                                         judge: seq<Rec>, arms: Arms, left: nat)
    requires i <= |a.probs| && a in runs
    requires Genuine(runs, arms) && Genuine(runs, Arms(Whole(exec), Whole(judge)))
    ensures Genuine(runs, LoopFrom(a, done, i, exec, judge, arms, left).arms)
    decreases |a.probs| - i
  {
    if i < |a.probs| && !Has(done, a.probs[i]) && left != 0 && a.profile(a.probs[i]).Both? {
      var id, out, left' := a.probs[i], a.profile(a.probs[i]), left - 1;
      var exec', judge' := exec + [Rec(id, out.exec)], judge + [Rec(id, out.judge)];
      var k :| 0 <= k < |runs| && runs[k] == a;
      assert Profiles(runs[k], id, out.exec, out.judge);
      assert ExecFrom(runs, Rec(id, out.exec)) && JudgeFrom(runs, Rec(id, out.judge));
      if 2 * WRITE <= left' {
        LoopIsGenuine(runs, a, done, i + 1, exec', judge', Arms(Whole(exec'), Whole(judge')), left' - 2 * WRITE);
      }
    } else if i < |a.probs| && (Has(done, a.probs[i]) || (left != 0 && a.profile(a.probs[i]).Skipped?)) {
      LoopIsGenuine(runs, a, done, i + 1, exec, judge, arms, if Has(done, a.probs[i]) then left else left - 1);
    }
  }

  lemma MoreRunsStayGenuine(runs: seq<Attempt>, a: Attempt, arms: Arms)
    requires Genuine(runs, arms)
    ensures Genuine(runs + [a], arms)
  {
    forall r | r in Load(arms.exec)
      ensures ExecFrom(runs + [a], r)
    {
      assert ExecFrom(runs, r);
      var i, judge :| 0 <= i < |runs| && Profiles(runs[i], r.id, r.verdict, judge);
      assert (runs + [a])[i] == runs[i];
    }
    forall r | r in Load(arms.judge)
      ensures JudgeFrom(runs + [a], r)
    {
      assert JudgeFrom(runs, r);
      var i, exec :| 0 <= i < |runs| && Profiles(runs[i], r.id, exec, r.verdict);
      assert (runs + [a])[i] == runs[i];
    }
  }

  /** Over any runs, resumed or not, killed or not, the execution file holds execution
      verdicts and the judge file judge verdicts, each for the problem it names. */
  lemma {:induction false} RecordsAreGenuine(runs: seq<Attempt>)
    ensures Genuine(runs, After(runs))
  {
    if runs != [] {
      var init, a := runs[..|runs| - 1], runs[|runs| - 1];
      RecordsAreGenuine(init);
      assert runs == init + [a];
      MoreRunsStayGenuine(init, a, After(init));
      hide LoopFrom, Genuine;
      var arms := After(init);
      LoadedIsGenuine(runs, arms);
      if a.resume {
        LoopIsGenuine(runs, a, Load(arms.exec), 0, Load(arms.exec), Load(arms.judge), arms, a.budget);
      } else {
        LoopIsGenuine(runs, a, [], 0, [], [], arms, a.budget);
      }
    }
  }

  lemma LoadedIsGenuine(runs: seq<Attempt>, arms: Arms)
    requires Genuine(runs, arms)
    ensures Genuine(runs, Arms(Whole(Load(arms.exec)), Whole(Load(arms.judge)))) && Genuine(runs, Arms(Whole([]), Whole([])))
  {
  }

  // ------------------------------------------------------------ how much survives

  function Least(x: nat, y: nat): nat {
    if x <= y then x else y
  }

  /** Actions per problem: profiling it and two file writes. */
  const PER_PROBLEM: nat := 7

  /** Every problem still to come is new and profiles. */
  ghost predicate AllNew(a: Attempt, done: seq<Rec>, i: nat) {
    forall k :: i <= k < |a.probs| ==> !Has(done, a.probs[k]) && a.profile(a.probs[k]).Both?
  }

  lemma {:induction false} LoopSaves(a: Attempt, done: seq<Rec>, i: nat, exec: seq<Rec>, judge: seq<Rec>, arms: Arms,
                                     left: nat)
    requires i <= |a.probs| && AllNew(a, done, i)
    requires Load(arms.exec) == exec && Load(arms.judge) == judge
    ensures var end := LoopFrom(a, done, i, exec, judge, arms, left).arms;
      && |Load(end.exec)| == |exec| + Least(|a.probs| - i, (left + 3) / PER_PROBLEM)
      && |Load(end.judge)| == |judge| + Least(|a.probs| - i, left / PER_PROBLEM)
    decreases |a.probs| - i
  {
    if i < |a.probs| && PER_PROBLEM <= left {
      var id, out := a.probs[i], a.profile(a.probs[i]);
      var exec', judge' := exec + [Rec(id, out.exec)], judge + [Rec(id, out.judge)];
      LoopSaves(a, done, i + 1, exec', judge', Arms(Whole(exec'), Whole(judge')), left - PER_PROBLEM);
    }
  }

  /** A kill loses at most the problem being worked on: of problems that all profile,
      every one whose seven actions were performed is in both files, and one more is in
      the execution file if its first write was. */
  lemma KilledWorkSurvives(a: Attempt, arms: Arms)
    requires a.resume && AllNew(a, Load(arms.exec), 0)
    ensures var end := RunOf(a, arms).arms;
      && |Load(end.exec)| == |Load(arms.exec)| + Least(|a.probs|, (a.budget + 3) / PER_PROBLEM)
      && |Load(end.judge)| == |Load(arms.judge)| + Least(|a.probs|, a.budget / PER_PROBLEM)
  {
    hide LoopFrom, AllNew;
    LoopSaves(a, Load(arms.exec), 0, Load(arms.exec), Load(arms.judge), arms, a.budget);
  }
}
