/** Sites the scar-free operators offer although the edited program faults, or
    leaves a lock held, when run by one goroutine. Each shows that a condition
    of the theorems in LockEdits cannot be dropped. */
module LockLimits {
  import opened Wrappers
  import opened LockProgram
  import opened LockEdits

  const MU: string := "mu"
  const ACQUIRE: Stmt := Sync(Event(Lock, MU))
  const RELEASE: Stmt := Sync(Event(Unlock, MU))
  const RELEASE_LATER: Stmt := Defer(Event(Unlock, MU))
  const WORK: Stmt := Assign("x", (v: Store) => 1)

  function Always(b: seq<Stmt>): Stmt {
    If((v: Store) => true, b, [])
  }

  lemma ExecCons(s: Stmt, rest: seq<Stmt>, v: Store, fuel: nat)
    ensures ExecAll([s] + rest, v, fuel)
         == var o := Exec(s, v, fuel);
            if o.Done? && o.exit == Fall then Prepend(o.trace, o.defers, ExecAll(rest, o.vars, fuel)) else o
  {
    ExecAppend([s], rest, v, fuel);
    ExecOne(s, v, fuel);
  }

  lemma Exec2(a: Stmt, b: Stmt, v: Store, fuel: nat)
    ensures ExecAll([a, b], v, fuel)
         == var o := Exec(a, v, fuel);
            if o.Done? && o.exit == Fall then Prepend(o.trace, o.defers, Exec(b, o.vars, fuel)) else o
  {
    assert [a, b] == [a] + [b];
    ExecCons(a, [b], v, fuel);
  }

  lemma Exec4(a: Stmt, b: Stmt, c: Stmt, d: Stmt, v: Store, fuel: nat)
    ensures ExecAll([a, b, c, d], v, fuel)
         == var o := ExecAll([a, b], v, fuel);
            if o.Done? && o.exit == Fall then Prepend(o.trace, o.defers, ExecAll([c, d], o.vars, fuel)) else o
  {
    assert [a, b, c, d] == [a, b] + [c, d];
    ExecAppend([a, b], [c, d], v, fuel);
  }

  lemma Exits2(a: Stmt, b: Stmt)
    ensures ExitsIn([a, b]) <==> ExitsInStmt(a) || ExitsInStmt(b)
    ensures ExitsIn([a]) <==> ExitsInStmt(a)
    ensures !ExitsIn([])
  {
    assert [a, b][1..] == [b] && [b][1..] == [] && [a][1..] == [];
    assert ExitsIn([b]) <==> ExitsInStmt(b);
  }

  lemma PairIsClean()
    ensures Clean([Event(Lock, MU), Event(Unlock, MU)])
    ensures Clean([Event(Lock, MU), Event(Unlock, MU), Event(Lock, MU), Event(Unlock, MU)])
  {
    var p := [Event(Lock, MU), Event(Unlock, MU)];
    forall lock
      ensures LockRun(lock, p, Free) == Some(Free)
      ensures LockRun(lock, p + p, Free) == Some(Free)
    {
      assert p[1..] == [Event(Unlock, MU)] && p[1..][1..] == [];
      assert LockRun(lock, [Event(Unlock, MU)], if lock == MU then Write else Free) == Some(Free);
      LockRunAppend(lock, p, p, Free);
    }
    assert p + p == [Event(Lock, MU), Event(Unlock, MU), Event(Lock, MU), Event(Unlock, MU)];
  }

  lemma DoubleUnlockFaults()
    ensures !Clean([Event(Lock, MU), Event(Unlock, MU), Event(Unlock, MU)])
    ensures !Clean([Event(RLock, MU), Event(Unlock, MU)])
    ensures !Clean([Event(Lock, MU)])
  {
    var t := [Event(Lock, MU), Event(Unlock, MU), Event(Unlock, MU)];
    assert t[1..] == [Event(Unlock, MU), Event(Unlock, MU)] && t[1..][1..] == [Event(Unlock, MU)];
    assert LockRun(MU, [Event(Unlock, MU)], Free) == None;
    assert LockRun(MU, t, Free) == None;
    var u := [Event(RLock, MU), Event(Unlock, MU)];
    assert u[1..] == [Event(Unlock, MU)];
    assert LockRun(MU, [Event(Unlock, MU)], Read(1)) == None;
    assert LockRun(MU, u, Free) == None;
    var w := [Event(Lock, MU)];
    assert w[1..] == [];
    assert LockRun(MU, w, Free) == Some(Write);
  }

  /** if cond { mu.Unlock(); return } as the last guarded statement. */
  function EarlyUnlock(): seq<Stmt> {
    [ACQUIRE, WORK, Always([RELEASE, Return]), RELEASE]
  }

  lemma EarlyUnlockRuns(v: Store)
    ensures EndsClean(EarlyUnlock(), v, 0)
  {
    hide ExecAll, LockRun;
    var guard := Always([RELEASE, Return]);
    Exec4(ACQUIRE, WORK, guard, RELEASE, v, 0);
    Exec2(ACQUIRE, WORK, v, 0);
    Exec2(guard, RELEASE, v["x" := 1], 0);
    Exec2(RELEASE, Return, v["x" := 1], 0);
    assert RunFunction(EarlyUnlock(), v, 0).trace == [Event(Lock, MU), Event(Unlock, MU)];
    PairIsClean();
  }

  /** The plain escape does not look inside the statement it moves: a guarded
      early unlock-and-return is offered, and then unlocks twice. */
  lemma EscapeNeedsUntouchedStatement(v: Store)
    ensures OffersEscape(EarlyUnlock(), 0, 3, MU)
    ensures EndsClean(EarlyUnlock(), v, 0)
    ensures EndsFoul(Escaped(EarlyUnlock(), 3), v, 0)
  {
    hide ExecAll, LockRun;
    EarlyUnlockRuns(v);
    var guard := Always([RELEASE, Return]);
    assert Escaped(EarlyUnlock(), 3) == [ACQUIRE, WORK, RELEASE, guard];
    Exec4(ACQUIRE, WORK, RELEASE, guard, v, 0);
    Exec2(ACQUIRE, WORK, v, 0);
    Exec2(RELEASE, guard, v["x" := 1], 0);
    Exec2(RELEASE, Return, v["x" := 1], 0);
    assert RunFunction(Escaped(EarlyUnlock(), 3), v, 0).trace
        == [Event(Lock, MU), Event(Unlock, MU), Event(Unlock, MU)];
    DoubleUnlockFaults();
  }

  /** The downgrade has no veto at all: on the same section the early Unlock now
      meets a read lock. */
  lemma DowngradeNeedsUntouchedSection(v: Store)
    ensures IsPair(EarlyUnlock(), 0, 3, MU)
    ensures EndsClean(EarlyUnlock(), v, 0)
    ensures EndsFoul(Downgraded(EarlyUnlock(), 0, 3, MU), v, 0)
  {
    hide ExecAll, LockRun;
    EarlyUnlockRuns(v);
    var guard, r, u := Always([RELEASE, Return]), Sync(Event(RLock, MU)), Sync(Event(RUnlock, MU));
    assert Downgraded(EarlyUnlock(), 0, 3, MU) == [r, WORK, guard, u];
    Exec4(r, WORK, guard, u, v, 0);
    Exec2(r, WORK, v, 0);
    Exec2(guard, u, v["x" := 1], 0);
    Exec2(RELEASE, Return, v["x" := 1], 0);
    assert RunFunction(Downgraded(EarlyUnlock(), 0, 3, MU), v, 0).trace == [Event(RLock, MU), Event(Unlock, MU)];
    DoubleUnlockFaults();
  }

  /** A loop left with the lock held and released after it. */
  function BreakHolding(): seq<Stmt> {
    [While((v: Store) => true, [ACQUIRE, WORK, Always([Break]), RELEASE]), RELEASE]
  }

  lemma LoopThenRelease(loop: Stmt, v: Store)
    ensures RunFunction([loop, RELEASE], v, 1)
         == var o := Exec(loop, v, 1);
            var all := if o.Done? && o.exit == Fall then Prepend(o.trace, o.defers, Exec(RELEASE, o.vars, 1)) else o;
            if all.Done? then all.(trace := all.trace + Reverse(all.defers), defers := []) else all
  {
    hide Exec;
    Exec2(loop, RELEASE, v, 1);
  }

  lemma BreakHoldingRuns(v: Store)
    ensures EndsClean(BreakHolding(), v, 1)
  {
    hide ExecAll, LockRun, RunFunction;
    var leave := Always([Break]);
    ExecOne(Break, v["x" := 1], 1);
    Exec2(ACQUIRE, WORK, v, 1);
    Exec4(ACQUIRE, WORK, leave, RELEASE, v, 1);
    Exec2(leave, RELEASE, v["x" := 1], 1);
    LoopThenRelease(BreakHolding()[0], v);
    assert RunFunction(BreakHolding(), v, 1).trace == [Event(Lock, MU), Event(Unlock, MU)];
    PairIsClean();
  }

  lemma BreakAfterUnlockRuns(v: Store)
    ensures EndsFoul([While((v: Store) => true, [ACQUIRE, WORK, RELEASE, Always([Break])]), RELEASE], v, 1)
  {
    hide ExecAll, LockRun, RunFunction;
    var leave := Always([Break]);
    ExecOne(Break, v["x" := 1], 1);
    Exec2(ACQUIRE, WORK, v, 1);
    Exec4(ACQUIRE, WORK, RELEASE, leave, v, 1);
    Exec2(RELEASE, leave, v["x" := 1], 1);
    var loop := While((v: Store) => true, [ACQUIRE, WORK, RELEASE, leave]);
    LoopThenRelease(loop, v);
    assert RunFunction([loop, RELEASE], v, 1).trace
        == [Event(Lock, MU), Event(Unlock, MU), Event(Unlock, MU)];
    DoubleUnlockFaults();
  }

  /** Crossing the Unlock with a statement that exits is wrong even when it
      never mentions the lock. */
  lemma EscapeNeedsNoExit(v: Store)
    ensures var inner := Into(0, Body, Here);
      && Reaches(BreakHolding(), inner) && OffersEscape(BlockAt(BreakHolding(), inner), 0, 3, MU)
      && EndsClean(BreakHolding(), v, 1)
      && EndsFoul(Replace(BreakHolding(), inner, Escaped(BlockAt(BreakHolding(), inner), 3)), v, 1)
  {
    hide ExecAll, LockRun, EndsClean, EndsFoul;
    var inner := Into(0, Body, Here);
    var body, leave := [ACQUIRE, WORK, Always([Break]), RELEASE], Always([Break]);
    assert BreakHolding()[0].While?;
    assert BlockAt(BreakHolding(), inner) == body;
    var body' := [ACQUIRE, WORK, RELEASE, leave];
    assert Escaped(body, 3) == body';
    assert Replace(BreakHolding(), inner, body') == [While((v: Store) => true, body'), RELEASE];
    BreakHoldingRuns(v);
    BreakAfterUnlockRuns(v);
  }

  /** exitsIn does not look inside function literals, but a panic raised there
      still skips the plain Unlock: the site is offered and the lock leaks. */
  lemma UndeferNeedsNoPanicInLiterals(v: Store)
    ensures var f := [ACQUIRE, RELEASE_LATER, Call([Panic]), WORK];
      && OffersUndefer(f, 0, 1, MU)
      && EndsClean(f, v, 0)
      && EndsFoul(Undeferred(f, 1, MU), v, 0)
  {
    hide ExecAll, LockRun;
    var f, boom := [ACQUIRE, RELEASE_LATER, Call([Panic]), WORK], Call([Panic]);
    assert f[2..] == [boom, WORK];
    Exits2(boom, WORK);
    assert Undeferred(f, 1, MU) == [ACQUIRE, boom, RELEASE, WORK];
    ExecOne(Panic, v, 0);
    Exec4(ACQUIRE, RELEASE_LATER, boom, WORK, v, 0);
    Exec2(ACQUIRE, RELEASE_LATER, v, 0);
    Exec2(boom, WORK, v, 0);
    Exec4(ACQUIRE, boom, RELEASE, WORK, v, 0);
    Exec2(ACQUIRE, boom, v, 0);
    assert Reverse([Event(Unlock, MU)]) == [Event(Unlock, MU)];
    assert RunFunction(f, v, 0).trace == [Event(Lock, MU), Event(Unlock, MU)];
    assert RunFunction(Undeferred(f, 1, MU), v, 0).trace == [Event(Lock, MU)];
    PairIsClean();
    DoubleUnlockFaults();
  }

  /** Without exitsIn's veto a return in the covered region leaks the lock. */
  lemma UndeferNeedsTheVeto(v: Store)
    ensures var f := [ACQUIRE, RELEASE_LATER, Always([Return]), WORK];
      && !OffersUndefer(f, 0, 1, MU)
      && EndsClean(f, v, 0)
      && EndsFoul(Undeferred(f, 1, MU), v, 0)
  {
    hide ExecAll, LockRun;
    var f, leave := [ACQUIRE, RELEASE_LATER, Always([Return]), WORK], Always([Return]);
    assert f[2..] == [leave, WORK];
    Exits2(leave, WORK);
    Exits2(Return, Return);
    assert Undeferred(f, 1, MU) == [ACQUIRE, leave, RELEASE, WORK];
    ExecOne(Return, v, 0);
    Exec4(ACQUIRE, RELEASE_LATER, leave, WORK, v, 0);
    Exec2(ACQUIRE, RELEASE_LATER, v, 0);
    Exec2(leave, WORK, v, 0);
    Exec4(ACQUIRE, leave, RELEASE, WORK, v, 0);
    Exec2(ACQUIRE, leave, v, 0);
    assert Reverse([Event(Unlock, MU)]) == [Event(Unlock, MU)];
    assert RunFunction(f, v, 0).trace == [Event(Lock, MU), Event(Unlock, MU)];
    assert RunFunction(Undeferred(f, 1, MU), v, 0).trace == [Event(Lock, MU)];
    PairIsClean();
    DoubleUnlockFaults();
  }

  /** A last statement that briefly releases the lock. */
  function BriefRelease(): seq<Stmt> {
    [ACQUIRE, RELEASE_LATER, WORK, Always([RELEASE, ACQUIRE])]
  }

  lemma BriefReleaseRuns(v: Store)
    ensures EndsClean(BriefRelease(), v, 0)
  {
    hide ExecAll, LockRun;
    var pause := Always([RELEASE, ACQUIRE]);
    Exec2(RELEASE, ACQUIRE, v["x" := 1], 0);
    Exec4(ACQUIRE, RELEASE_LATER, WORK, pause, v, 0);
    Exec2(ACQUIRE, RELEASE_LATER, v, 0);
    Exec2(WORK, pause, v, 0);
    assert Reverse([Event(Unlock, MU)]) == [Event(Unlock, MU)];
    assert RunFunction(BriefRelease(), v, 0).trace
        == [Event(Lock, MU), Event(Unlock, MU), Event(Lock, MU), Event(Unlock, MU)];
    PairIsClean();
  }

  lemma BriefReleaseUndeferredRuns(v: Store)
    ensures EndsFoul([ACQUIRE, WORK, RELEASE, Always([RELEASE, ACQUIRE])], v, 0)
  {
    hide ExecAll, LockRun;
    var pause := Always([RELEASE, ACQUIRE]);
    Exec2(RELEASE, ACQUIRE, v["x" := 1], 0);
    Exec4(ACQUIRE, WORK, RELEASE, pause, v, 0);
    Exec2(ACQUIRE, WORK, v, 0);
    Exec2(RELEASE, pause, v["x" := 1], 0);
    var t := RunFunction([ACQUIRE, WORK, RELEASE, pause], v, 0).trace;
    assert t == [Event(Lock, MU), Event(Unlock, MU), Event(Unlock, MU)] + [Event(Lock, MU)];
    LockRunAppend(MU, [Event(Lock, MU), Event(Unlock, MU), Event(Unlock, MU)], [Event(Lock, MU)], Free);
    TripleStuck();
  }

  /** An escaping statement that touches the lock is offered too. */
  lemma UndeferNeedsUntouchedLast(v: Store)
    ensures OffersUndefer(BriefRelease(), 0, 1, MU)
    ensures EndsClean(BriefRelease(), v, 0)
    ensures EndsFoul(Undeferred(BriefRelease(), 1, MU), v, 0)
  {
    hide ExecAll, LockRun, EndsClean, EndsFoul;
    var pause := Always([RELEASE, ACQUIRE]);
    assert BriefRelease()[2..] == [WORK, pause];
    Exits2(WORK, pause);
    Exits2(RELEASE, ACQUIRE);
    assert Undeferred(BriefRelease(), 1, MU) == [ACQUIRE, WORK, RELEASE, pause];
    BriefReleaseRuns(v);
    BriefReleaseUndeferredRuns(v);
  }

  lemma TripleStuck()
    ensures LockRun(MU, [Event(Lock, MU), Event(Unlock, MU), Event(Unlock, MU)], Free) == None
  {
    var t := [Event(Lock, MU), Event(Unlock, MU), Event(Unlock, MU)];
    assert t[1..] == [Event(Unlock, MU), Event(Unlock, MU)] && t[1..][1..] == [Event(Unlock, MU)];
    assert LockRun(MU, [Event(Unlock, MU)], Free) == None;
  }
}
