/** What survives any number of killed and resumed runs. */
module ResumeTheorems {
  import opened Resume

  /** xs is ys with some entries left out. */
  predicate Sub(xs: seq<string>, ys: seq<string>)
    decreases |ys|
  {
    xs == []
    || (ys != []
        && ((xs[|xs| - 1] == ys[|ys| - 1] && Sub(xs[..|xs| - 1], ys[..|ys| - 1]))
            || Sub(xs, ys[..|ys| - 1])))
  }

  ghost predicate Distinct(ids: seq<string>) {
    forall i, j :: 0 <= i < j < |ids| ==> ids[i] != ids[j]
  }

  ghost predicate Consistent(exec: seq<Rec>, judge: seq<Rec>) {
    Distinct(Ids(exec)) && Sub(Ids(judge), Ids(exec))
  }

  /** Both files are absent or complete, no id repeats, and the judge arm is the
      execution arm with some problems missing. */
  ghost predicate Sound(arms: Arms) {
    && !arms.exec.Torn? && !arms.judge.Torn?
    && Consistent(Load(arms.exec), Load(arms.judge))
  }

  lemma IdsSnoc(recs: seq<Rec>, r: Rec)
    ensures Ids(recs + [r]) == Ids(recs) + [r.id]
  {
    assert (recs + [r])[..|recs|] == recs;
  }

  lemma {:induction false} SubLength(xs: seq<string>, ys: seq<string>)
    requires Sub(xs, ys)
    ensures |xs| <= |ys|
    decreases |ys|
  {
    if xs != [] {
      if Sub(xs, ys[..|ys| - 1]) {
        SubLength(xs, ys[..|ys| - 1]);
      } else {
        SubLength(xs[..|xs| - 1], ys[..|ys| - 1]);
      }
    }
  }

  /** One more problem in both arms, or in the execution arm only. */
  lemma OneMore(exec: seq<Rec>, judge: seq<Rec>, id: string, e: string, j: string)
    requires Consistent(exec, judge) && !Has(exec, id)
    ensures Consistent(exec + [Rec(id, e)], judge + [Rec(id, j)])
    ensures Consistent(exec + [Rec(id, e)], judge)
  {
    IdsSnoc(exec, Rec(id, e));
    IdsSnoc(judge, Rec(id, j));
    var xs, ys := Ids(judge), Ids(exec);
    assert (xs + [id])[..|xs|] == xs && (ys + [id])[..|ys|] == ys;
  }

  /** Everything recorded before this point of the loop was done before, or is
      one of the problems already passed. */
  ghost predicate Accounted(exec: seq<Rec>, done: seq<Rec>, passed: seq<string>) {
    forall i :: 0 <= i < |exec| ==> Has(done, exec[i].id) || exec[i].id in passed
  }

  lemma AccountedLater(exec: seq<Rec>, done: seq<Rec>, probs: seq<string>, i: nat)
    requires i < |probs| && Accounted(exec, done, probs[..i])
    ensures Accounted(exec, done, probs[..i + 1])
  {
    assert probs[..i + 1] == probs[..i] + [probs[i]];
  }

  lemma AccountedMore(exec: seq<Rec>, done: seq<Rec>, probs: seq<string>, i: nat, verdict: string)
    requires i < |probs| && Distinct(probs) && !Has(done, probs[i]) && Accounted(exec, done, probs[..i])
    ensures !Has(exec, probs[i])
    ensures Accounted(exec + [Rec(probs[i], verdict)], done, probs[..i + 1])
  {
    assert probs[..i + 1] == probs[..i] + [probs[i]];
    forall k | 0 <= k < |exec|
      ensures exec[k].id != probs[i]
    {
      if exec[k].id in probs[..i] {
        var j :| 0 <= j < i && probs[..i][j] == exec[k].id;
        assert probs[j] != probs[i];
      }
    }
  }

  lemma {:induction false} LoopKeeps(a: Attempt, done: seq<Rec>, i: nat, exec: seq<Rec>, judge: seq<Rec>,
                                     arms: Arms, left: nat)
    requires i <= |a.probs| && Distinct(a.probs)
    requires Sound(arms) && Load(arms.exec) == exec && Load(arms.judge) == judge
    requires Accounted(exec, done, a.probs[..i])
    ensures var end := LoopFrom(a, done, i, exec, judge, arms, left);
      && Sound(end.arms)
      && exec <= Load(end.arms.exec) && judge <= Load(end.arms.judge)
      && |Load(end.arms.exec)| - |Load(end.arms.judge)|
         == |exec| - |judge| + if end.halt.Split? then 1 else 0
    decreases |a.probs| - i
  {
    hide Consistent, Has, Accounted;
    if i < |a.probs| {
      var id := a.probs[i];
      var out := a.profile(id);
      AccountedLater(exec, done, a.probs, i);
      if Has(done, id) || out.Skipped? {
        LoopKeeps(a, done, i + 1, exec, judge, arms, if Has(done, id) || left == 0 then left else left - 1);
      } else if out.Both? && left != 0 {
        var exec', judge' := exec + [Rec(id, out.exec)], judge + [Rec(id, out.judge)];
        AccountedMore(exec, done, a.probs, i, out.exec);
        OneMore(exec, judge, id, out.exec, out.judge);
        if 2 * WRITE <= left - 1 {
          LoopKeeps(a, done, i + 1, exec', judge', Arms(Whole(exec'), Whole(judge')), left - 1 - 2 * WRITE);
        }
      }
    }
  }

  // ------------------------------------------------------------ any number of runs

  const EMPTY: Arms := Arms(Absent, Absent)

  function After(runs: seq<Attempt>): Arms {
    if runs == [] then EMPTY else RunOf(runs[|runs| - 1], After(runs[..|runs| - 1])).arms
  }

  function HaltOf(runs: seq<Attempt>): Halt
    requires runs != []
  {
    RunOf(runs[|runs| - 1], After(runs[..|runs| - 1])).halt
  }

  /** Runs killed between the two writes of a checkpoint with a new problem. */
  function Splits(runs: seq<Attempt>): nat {
    if runs == [] then 0 else Splits(runs[..|runs| - 1]) + if HaltOf(runs).Split? then 1 else 0
  }

  function Kills(runs: seq<Attempt>): nat {
    if runs == [] then 0 else Kills(runs[..|runs| - 1]) + if HaltOf(runs).Finished? then 0 else 1
  }

  /** Every run but the first resumes, and no run lists a problem twice. */
  ghost predicate Resumed(runs: seq<Attempt>) {
    forall i :: 0 <= i < |runs| ==> Distinct(runs[i].probs) && (runs[i].resume || i == 0)
  }

  lemma RunKeeps(a: Attempt, arms: Arms)
    requires Sound(arms) && Distinct(a.probs) && (a.resume || arms == EMPTY)
    ensures var end := RunOf(a, arms);
      && Sound(end.arms)
      && Load(arms.exec) <= Load(end.arms.exec) && Load(arms.judge) <= Load(end.arms.judge)
      && |Load(end.arms.exec)| - |Load(end.arms.judge)|
         == |Load(arms.exec)| - |Load(arms.judge)| + if end.halt.Split? then 1 else 0
  {
    hide LoopFrom;
    var exec, judge := Load(arms.exec), Load(arms.judge);
    assert Accounted(exec, exec, []);
    assert a.probs[..0] == [];
    LoopKeeps(a, exec, 0, exec, judge, arms, a.budget);
  }

  /** Under any number of kills at any points: no file is ever torn, no problem
      is recorded twice, the judge arm is a subsequence of the execution arm, and
      it lacks exactly one record for each kill between the two writes. */
  lemma {:induction false} ArmsStayConsistent(runs: seq<Attempt>)
    requires Resumed(runs)
    ensures Sound(After(runs))
    ensures |Load(After(runs).exec)| - |Load(After(runs).judge)| == Splits(runs) <= Kills(runs)
  {
    hide RunOf;
    if runs != [] {
      ArmsStayConsistent(runs[..|runs| - 1]);
      RunKeeps(runs[|runs| - 1], After(runs[..|runs| - 1]));
    }
  }

  lemma PrefixTransitive(a: seq<Rec>, b: seq<Rec>, c: seq<Rec>)
    requires a <= b <= c
    ensures a <= c
  {
  }

  /** No kill ever loses a record: each arm's file only grows at its end. */
  lemma {:induction false} FilesOnlyGrow(runs: seq<Attempt>, m: nat)
    requires Resumed(runs) && m <= |runs|
    ensures Load(After(runs[..m]).exec) <= Load(After(runs).exec)
    ensures Load(After(runs[..m]).judge) <= Load(After(runs).judge)
    decreases |runs|
  {
    if m < |runs| {
      hide RunOf, Sound;
      var init := runs[..|runs| - 1];
      assert init[..m] == runs[..m];
      FilesOnlyGrow(init, m);
      ArmsStayConsistent(init);
      assert After(init) == EMPTY || runs[|runs| - 1].resume;
      RunKeeps(runs[|runs| - 1], After(init));
      assert After(runs) == RunOf(runs[|runs| - 1], After(init)).arms;
      var before, mid, after := After(runs[..m]), After(init), After(runs);
      PrefixTransitive(Load(before.exec), Load(mid.exec), Load(after.exec));
      PrefixTransitive(Load(before.judge), Load(mid.judge), Load(after.judge));
    } else {
      assert runs[..m] == runs;
    }
  }

  // ------------------------------------------------------------ what a split costs

  lemma {:induction false} LoopNeverBackfills(a: Attempt, done: seq<Rec>, i: nat, exec: seq<Rec>, judge: seq<Rec>,
                                              arms: Arms, left: nat, id: string)
    requires i <= |a.probs| && Has(done, id) && !Has(judge, id) && Load(arms.judge) == judge
    ensures !Has(Load(LoopFrom(a, done, i, exec, judge, arms, left).arms.judge), id)
    decreases |a.probs| - i
  {
    if i < |a.probs| {
      var x := a.probs[i];
      if Has(done, x) || a.profile(x).Skipped? {
        LoopNeverBackfills(a, done, i + 1, exec, judge, arms,
                           if Has(done, x) || left == 0 then left else left - 1, id);
      } else if a.profile(x).Both? && 1 + 2 * WRITE <= left {
        var out := a.profile(x);
        var exec', judge' := exec + [Rec(x, out.exec)], judge + [Rec(x, out.judge)];
        LoopNeverBackfills(a, done, i + 1, exec', judge', Arms(Whole(exec'), Whole(judge')), left - 1 - 2 * WRITE, id);
      }
    }
  }

  /** A problem whose checkpoint was split stays missing from the judge arm for
      good: resuming reads only the execution arm's ids. */
  lemma {:induction false} SplitIsNeverRepaired(runs: seq<Attempt>, m: nat, id: string)
    requires Resumed(runs) && 0 < m <= |runs|
    requires Has(Load(After(runs[..m]).exec), id) && !Has(Load(After(runs[..m]).judge), id)
    ensures Has(Load(After(runs).exec), id) && !Has(Load(After(runs).judge), id)
    decreases |runs|
  {
    hide LoopFrom;
    if m == |runs| {
      assert runs[..m] == runs;
    } else {
      var init, a := runs[..|runs| - 1], runs[|runs| - 1];
      assert init[..m] == runs[..m];
      SplitIsNeverRepaired(init, m, id);
      var arms := After(init);
      LoopNeverBackfills(a, Load(arms.exec), 0, Load(arms.exec), Load(arms.judge), arms, a.budget, id);
      FilesOnlyGrow(runs, |runs| - 1);
      KeepsHaving(Load(arms.exec), Load(After(runs).exec), id);
    }
  }

  lemma KeepsHaving(xs: seq<Rec>, ys: seq<Rec>, id: string)
    requires xs <= ys && Has(xs, id)
    ensures Has(ys, id)
  {
    var i :| 0 <= i < |xs| && xs[i].id == id;
    assert ys[i].id == id;
  }

  // ------------------------------------------------------------ progress

  lemma {:induction false} LoopCovers(a: Attempt, done: seq<Rec>, i: nat, exec: seq<Rec>, judge: seq<Rec>,
                                      arms: Arms, left: nat)
    requires i <= |a.probs|
    requires forall id :: Has(done, id) ==> Has(exec, id)
    requires forall j :: 0 <= j < i ==> a.profile(a.probs[j]).Both? ==> Has(exec, a.probs[j])
    requires forall j :: 0 <= j < |a.probs| ==> !a.profile(a.probs[j]).Cancelled?
    ensures var end := LoopFrom(a, done, i, exec, judge, arms, left);
      end.halt.Finished? ==>
        forall j :: 0 <= j < |a.probs| && a.profile(a.probs[j]).Both? ==> Has(Load(end.arms.exec), a.probs[j])
    decreases |a.probs| - i
  {
    if i < |a.probs| {
      var x := a.probs[i];
      if Has(done, x) || a.profile(x).Skipped? {
        LoopCovers(a, done, i + 1, exec, judge, arms, if Has(done, x) || left == 0 then left else left - 1);
      } else if 1 + 2 * WRITE <= left {
        var out := a.profile(x);
        var exec', judge' := exec + [Rec(x, out.exec)], judge + [Rec(x, out.judge)];
        forall id | Has(exec, id)
          ensures Has(exec', id)
        {
          KeepsHaving(exec, exec', id);
        }
        assert exec'[|exec|].id == x;
        LoopCovers(a, done, i + 1, exec', judge', Arms(Whole(exec'), Whole(judge')), left - 1 - 2 * WRITE);
      }
    }
  }

  /** A run that finishes uncancelled has a record of every problem that can be
      profiled, whatever happened to the runs before it. */
  lemma FinishedRunCovers(a: Attempt, arms: Arms)
    requires a.resume && forall j :: 0 <= j < |a.probs| ==> !a.profile(a.probs[j]).Cancelled?
    ensures RunOf(a, arms).halt.Finished? ==>
      forall j :: 0 <= j < |a.probs| && a.profile(a.probs[j]).Both? ==>
        Has(Load(RunOf(a, arms).arms.exec), a.probs[j])
  {
    LoopCovers(a, Load(arms.exec), 0, Load(arms.exec), Load(arms.judge), arms, a.budget);
  }

  // ------------------------------------------------------------ a problem listed twice

  /** Problems the loop gets to before one is cancelled. */
  function Reached(a: Attempt, i: nat): (n: nat)
    requires i <= |a.probs|
    ensures i <= n <= |a.probs|
    decreases |a.probs| - i
  {
    if i == |a.probs| || a.profile(a.probs[i]).Cancelled? then i else Reached(a, i + 1)
  }

  /** What a run from empty files records of its first n problems. */
  function Recorded(a: Attempt, n: nat): (seq<Rec>, seq<Rec>)
    requires n <= |a.probs|
  {
    if n == 0 then ([], [])
    else
      var (exec, judge) := Recorded(a, n - 1);
      var out := a.profile(a.probs[n - 1]);
      if out.Both? then (exec + [Rec(a.probs[n - 1], out.exec)], judge + [Rec(a.probs[n - 1], out.judge)])
      else (exec, judge)
  }

  lemma NothingDone(id: string)
    ensures !Has([], id)
  {
  }

  lemma {:induction false} LoopRecordsAll(a: Attempt, i: nat, arms: Arms, left: nat)
    requires i <= Reached(a, 0) && Reached(a, i) == Reached(a, 0)
    requires LoopFrom(a, [], i, Recorded(a, i).0, Recorded(a, i).1, arms, left).halt.Finished?
    ensures LoopFrom(a, [], i, Recorded(a, i).0, Recorded(a, i).1, arms, left).arms
         == Arms(Whole(Recorded(a, Reached(a, 0)).0), Whole(Recorded(a, Reached(a, 0)).1))
    decreases |a.probs| - i
  {
    if i < |a.probs| {
      var id := a.probs[i];
      NothingDone(id);
      hide Has;
      if a.profile(id).Skipped? {
        LoopRecordsAll(a, i + 1, arms, left - 1);
      } else if a.profile(id).Both? {
        var (exec, judge) := Recorded(a, i + 1);
        LoopRecordsAll(a, i + 1, Arms(Whole(exec), Whole(judge)), left - 1 - 2 * WRITE);
      }
    }
  }

  /** Positions i < j of the list name one problem, and it profiles. */
  predicate ListedTwice(a: Attempt, n: nat, i: nat, j: nat)
    requires n <= |a.probs|
  {
    i < j < n && a.probs[i] == a.probs[j] && a.profile(a.probs[i]).Both?
  }

  lemma {:induction false} RecordedIds(a: Attempt, n: nat, id: string)
    requires n <= |a.probs|
    ensures id in Ids(Recorded(a, n).0) <==> a.profile(id).Both? && id in a.probs[..n]
  {
    if n != 0 {
      RecordedIds(a, n - 1, id);
      assert a.probs[..n] == a.probs[..n - 1] + [a.probs[n - 1]];
      var out := a.profile(a.probs[n - 1]);
      if out.Both? {
        IdsSnoc(Recorded(a, n - 1).0, Rec(a.probs[n - 1], out.exec));
      }
    }
  }

  lemma DistinctSnoc(ids: seq<string>, id: string)
    ensures Distinct(ids + [id]) <==> Distinct(ids) && id !in ids
  {
    var longer := ids + [id];
    assert longer[|ids|] == id;
    assert forall i :: 0 <= i < |ids| ==> longer[i] == ids[i];
  }

  ghost predicate SomeListedTwice(a: Attempt, n: nat)
    requires n <= |a.probs|
  {
    exists i: nat, j: nat :: ListedTwice(a, n, i, j)
  }

  lemma {:induction false} RepeatsInRecorded(a: Attempt, n: nat)
    requires n <= |a.probs|
    ensures !Distinct(Ids(Recorded(a, n).0)) <==> SomeListedTwice(a, n)
  {
    if n != 0 {
      var m, id := n - 1, a.probs[n - 1];
      var out := a.profile(id);
      RepeatsInRecorded(a, m);
      RecordedIds(a, m, id);
      if out.Both? {
        IdsSnoc(Recorded(a, m).0, Rec(id, out.exec));
        DistinctSnoc(Ids(Recorded(a, m).0), id);
      }
      hide Distinct, Ids, Recorded;
      if SomeListedTwice(a, m) {
        var i: nat, j: nat :| ListedTwice(a, m, i, j);
        assert ListedTwice(a, n, i, j);
      }
      if out.Both? && id in a.probs[..m] {
        var i :| 0 <= i < m && a.probs[..m][i] == id;
        assert ListedTwice(a, n, i, m);
      }
      if SomeListedTwice(a, n) {
        var i: nat, j: nat :| ListedTwice(a, n, i, j);
        if j == m {
          assert a.probs[..m][i] == id;
        } else {
          assert ListedTwice(a, m, i, j);
        }
      }
    }
  }

  /** done is not updated inside the loop: a finished run from empty files records
      an id twice exactly when some problem that profiles is listed twice before
      the run is cancelled. */
  lemma RecordsTwiceExactlyWhen(a: Attempt)
    requires RunOf(a, EMPTY).halt.Finished?
    ensures !Distinct(Ids(Load(RunOf(a, EMPTY).arms.exec))) <==> SomeListedTwice(a, Reached(a, 0))
  {
    LoopRecordsAll(a, 0, EMPTY, a.budget);
    hide LoopFrom, Recorded, Distinct;
    RepeatsInRecorded(a, Reached(a, 0));
  }

  // ------------------------------------------------------------ restarting afresh

  function FlushWrites(left: nat): nat {
    if left < WRITE then 0 else if left < 2 * WRITE then 1 else 2
  }

  /** How many file writes land before the run ends or is killed. */
  function WritesFrom(a: Attempt, i: nat, left: nat): nat
    requires i <= |a.probs|
    decreases |a.probs| - i
  {
    if i == |a.probs| then FlushWrites(left)
    else if left == 0 then 0
    else
      match a.profile(a.probs[i])
      case Cancelled => FlushWrites(left - 1)
      case Skipped => WritesFrom(a, i + 1, left - 1)
      case Both(_, _) =>
        FlushWrites(left - 1)
        + if left - 1 < 2 * WRITE then 0 else WritesFrom(a, i + 1, left - 1 - 2 * WRITE)
  }

  /** The ids in the first file a run from i on writes: those of its first
      checkpoint, or none when it ends before one. */
  function FirstIds(a: Attempt, i: nat): seq<string>
    requires i <= |a.probs|
    decreases |a.probs| - i
  {
    if i == |a.probs| then []
    else
      match a.profile(a.probs[i])
      case Cancelled => []
      case Skipped => FirstIds(a, i + 1)
      case Both(_, _) => [a.probs[i]]
  }

  /** The files after a fresh run from its i-th problem on that wrote w files. */
  ghost predicate FreshEnd(a: Attempt, i: nat, arms: Arms, end: Arms, w: nat)
    requires i <= |a.probs|
  {
    && (w == 0 ==> end == arms)
    && (w == 1 ==> end.judge == arms.judge && end.exec.Whole? && Ids(end.exec.recs) == FirstIds(a, i))
    && (2 <= w ==> Sound(end))
  }

  lemma FlushEnds(a: Attempt, i: nat, arms: Arms, left: nat)
    requires i <= |a.probs| && Sound(arms) && FirstIds(a, i) == []
    ensures FreshEnd(a, i, arms, Flush([], [], arms, left).arms, FlushWrites(left))
  {
    assert Consistent([], []);
  }

  lemma CheckpointEnds(a: Attempt, i: nat, arms: Arms, left: nat, exec: seq<Rec>, judge: seq<Rec>)
    requires i < |a.probs| && Sound(arms) && left < 2 * WRITE
    requires Ids(exec) == [a.probs[i]] == FirstIds(a, i)
    ensures FreshEnd(a, i, arms, Flush(exec, judge, arms, left).arms, FlushWrites(left))
  {
    hide Sound;
  }

  /** Once the first checkpoint is whole the run goes on as any sound run does. */
  lemma AfterCheckpoint(a: Attempt, i: nat, arms: Arms, left: nat)
    requires i < |a.probs| && Distinct(a.probs) && a.profile(a.probs[i]).Both?
    ensures var (id, out) := (a.probs[i], a.profile(a.probs[i]));
      var (exec, judge) := ([Rec(id, out.exec)], [Rec(id, out.judge)]);
      Sound(LoopFrom(a, [], i + 1, exec, judge, Arms(Whole(exec), Whole(judge)), left).arms)
  {
    var id, out := a.probs[i], a.profile(a.probs[i]);
    var exec, judge := [Rec(id, out.exec)], [Rec(id, out.judge)];
    NothingDone(id);
    assert Consistent([], []);
    assert [] + exec == exec && [] + judge == judge;
    OneMore([], [], id, out.exec, out.judge);
    assert Accounted(exec, [], a.probs[..i + 1]) by {
      assert a.probs[..i + 1][i] == id;
    }
    hide Consistent, Has, Accounted;
    LoopKeeps(a, [], i + 1, exec, judge, Arms(Whole(exec), Whole(judge)), left);
  }

  /** Until its first write lands a fresh run has not touched the files. */
  lemma {:induction false} FreshLoop(a: Attempt, i: nat, arms: Arms, left: nat)
    requires i <= |a.probs| && Distinct(a.probs) && Sound(arms)
    ensures FreshEnd(a, i, arms, LoopFrom(a, [], i, [], [], arms, left).arms, WritesFrom(a, i, left))
    decreases |a.probs| - i
  {
    if i == |a.probs| {
      FlushEnds(a, i, arms, left);
    } else {
      var id := a.probs[i];
      NothingDone(id);
      var out := a.profile(id);
      hide Sound, Distinct, Has;
      if left != 0 {
        if out.Cancelled? {
          FlushEnds(a, i, arms, left - 1);
        } else if out.Skipped? {
          FreshLoop(a, i + 1, arms, left - 1);
        } else {
          var exec, judge := [Rec(id, out.exec)], [Rec(id, out.judge)];
          assert [] + exec == exec && [] + judge == judge;
          if left - 1 < 2 * WRITE {
            CheckpointEnds(a, i, arms, left - 1, exec, judge);
          } else {
            AfterCheckpoint(a, i, arms, left - 1 - 2 * WRITE);
          }
        }
      }
    }
  }

  /** A run without -resume leaves arms that do not match exactly when it died
      after its first write and before its second, and the old judge ids are not
      a subsequence of what that first write held: the first problem that
      profiles, or nothing. */
  lemma FreshRestartMixesExactlyWhen(a: Attempt, arms: Arms)
    requires !a.resume && Distinct(a.probs) && Sound(arms)
    ensures !Sound(RunOf(a, arms).arms)
       <==> WritesFrom(a, 0, a.budget) == 1 && !Sub(Ids(Load(arms.judge)), FirstIds(a, 0))
  {
    hide LoopFrom, WritesFrom, Sub;
    FreshLoop(a, 0, arms, a.budget);
    assert Distinct(FirstIds(a, 0)) by {
      FirstIdsShort(a, 0);
    }
  }

  lemma {:induction false} FirstIdsShort(a: Attempt, i: nat)
    requires i <= |a.probs|
    ensures |FirstIds(a, i)| <= 1
    decreases |a.probs| - i
  {
    if i < |a.probs| && a.profile(a.probs[i]).Skipped? {
      FirstIdsShort(a, i + 1);
    }
  }

  // ------------------------------------------------------------ instances

  const AB: seq<string> := ["a", "b"]

  function Pair(profile: string -> Profiled, id: string): (p: (seq<Rec>, seq<Rec>))
    requires profile(id).Both?
  {
    ([Rec(id, profile(id).exec)], [Rec(id, profile(id).judge)])
  }

  lemma LoopRecords(a: Attempt, done: seq<Rec>, i: nat, exec: seq<Rec>, judge: seq<Rec>, arms: Arms, left: nat)
    requires i < |a.probs| && !Has(done, a.probs[i]) && a.profile(a.probs[i]).Both? && 1 + 2 * WRITE <= left
    ensures var out := a.profile(a.probs[i]);
      var exec', judge' := exec + [Rec(a.probs[i], out.exec)], judge + [Rec(a.probs[i], out.judge)];
      LoopFrom(a, done, i, exec, judge, arms, left)
      == LoopFrom(a, done, i + 1, exec', judge', Arms(Whole(exec'), Whole(judge')), left - 1 - 2 * WRITE)
  {
    hide Has;
  }

  lemma LoopEnds(a: Attempt, done: seq<Rec>, exec: seq<Rec>, judge: seq<Rec>, arms: Arms, left: nat)
    requires 2 * WRITE <= left
    ensures LoopFrom(a, done, |a.probs|, exec, judge, arms, left) == End(Arms(Whole(exec), Whole(judge)), Finished)
  {
  }

  lemma BothRecorded(profile: string -> Profiled)
    requires profile("a").Both? && profile("b").Both?
    ensures var (p, q) := (Pair(profile, "a"), Pair(profile, "b"));
      RunOf(Attempt(AB, profile, true, 100), EMPTY).arms == Arms(Whole(p.0 + q.0), Whole(p.1 + q.1))
  {
    var a := Attempt(AB, profile, true, 100);
    var (e, j) := Pair(profile, "a");
    var (e', j') := Pair(profile, "b");
    NothingDone("a");
    NothingDone("b");
    hide LoopFrom, Has;
    assert [] + e == e && [] + j == j;
    LoopRecords(a, [], 0, [], [], EMPTY, 100);
    LoopRecords(a, [], 1, e, j, Arms(Whole(e), Whole(j)), 93);
    LoopEnds(a, [], e + e', j + j', Arms(Whole(e + e'), Whole(j + j')), 86);
  }

  lemma SplitAtOnce(profile: string -> Profiled, arms: Arms)
    requires profile("a").Both?
    ensures RunOf(Attempt(AB, profile, false, 4), arms).arms == arms.(exec := Whole(Pair(profile, "a").0))
  {
    assert !Has([], "a");
    assert [] + Pair(profile, "a").0 == Pair(profile, "a").0;
  }

  /** Restarting without -resume and being killed between the writes leaves a new
      execution arm beside an old, longer judge arm. */
  lemma FreshRestartMixesArms(profile: string -> Profiled)
    requires profile("a").Both? && profile("b").Both?
    ensures var runs := [Attempt(AB, profile, true, 100), Attempt(AB, profile, false, 4)];
      |Load(After(runs).exec)| == 1 && |Load(After(runs).judge)| == 2 && !Sound(After(runs))
  {
    hide RunOf, Sub;
    var first, second := Attempt(AB, profile, true, 100), Attempt(AB, profile, false, 4);
    var runs := [first, second];
    assert runs[..1] == [first] && [first][..0] == [];
    BothRecorded(profile);
    var p, q := Pair(profile, "a"), Pair(profile, "b");
    assert After([first]) == Arms(Whole(p.0 + q.0), Whole(p.1 + q.1));
    SplitAtOnce(profile, After([first]));
    var arms := After(runs);
    assert arms == Arms(Whole(p.0), Whole(p.1 + q.1));
    assert |p.1 + q.1| == 2;
    if Sub(Ids(Load(arms.judge)), Ids(Load(arms.exec))) {
      SubLength(Ids(Load(arms.judge)), Ids(Load(arms.exec)));
    }
  }

  /** done is not updated inside the loop, so a problem listed twice is recorded
      twice. */
  lemma ListedTwiceRecordedTwice(profile: string -> Profiled)
    requires profile("a").Both?
    ensures var a := Attempt(["a", "a"], profile, true, 100);
      Ids(Load(RunOf(a, EMPTY).arms.exec)) == ["a", "a"]
  {
    hide LoopFrom, Has;
    var a := Attempt(["a", "a"], profile, true, 100);
    var e, j := [Rec("a", profile("a").exec)], [Rec("a", profile("a").judge)];
    NothingDone("a");
    assert [] + e == e && [] + j == j;
    LoopRecords(a, [], 0, [], [], EMPTY, 100);
    LoopRecords(a, [], 1, e, j, Arms(Whole(e), Whole(j)), 93);
    LoopEnds(a, [], e + e, j + j, Arms(Whole(e + e), Whole(j + j)), 86);
  }
}
