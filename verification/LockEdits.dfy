/** internal/verify/mutation.go: the scar-free race operators on critical
    sections, and when they leave single-threaded behaviour intact. */
module LockEdits {
  import opened Wrappers
  import opened LockProgram

  // ------------------------------------------------------------ finding sites

  /** The first Unlock of the same receiver after i in the same block, if any. */
  method FindUnlock(b: seq<Stmt>, i: nat, lock: string) returns (at: int, deferred: bool)
    requires i < |b|
    ensures at == -1 ==> forall j :: i < j < |b| ==> !IsUnlock(b[j], lock)
    ensures at != -1 ==> IsPair(b, i, at, lock) && deferred == b[at].Defer?
  {
    at, deferred := -1, false;
    for j := i + 1 to |b|
      invariant at == -1
      invariant forall k :: i < k < j ==> !IsUnlock(b[k], lock)
    {
      if (b[j].Sync? || b[j].Defer?) && b[j].ev.op == Unlock && b[j].ev.lock == lock {
        return j, b[j].Defer?;
      }
    }
  }

  predicate IsUnlock(s: Stmt, lock: string) {
    (s.Sync? || s.Defer?) && s.ev == Event(Unlock, lock)
  }

  ghost predicate IsPair(b: seq<Stmt>, i: int, j: int, lock: string) {
    0 <= i < j < |b| && IsUnlock(b[j], lock) && forall k :: i < k < j ==> !IsUnlock(b[k], lock)
  }

  // ------------------------------------------------------------ the operators

  /** Operator 1: Lock/Unlock becomes RLock/RUnlock, deferred or not. */
  function Downgraded(b: seq<Stmt>, i: nat, j: nat, lock: string): seq<Stmt>
    requires i < j < |b| && (b[j].Sync? || b[j].Defer?)
  {
    b[i := Sync(Event(RLock, lock))][j := b[j].(ev := Event(RUnlock, lock))]
  }

  /** Operator 2: the last guarded statement trades places with the Unlock. */
  function Escaped(b: seq<Stmt>, j: nat): seq<Stmt>
    requires 0 < j < |b|
  {
    b[j - 1 := b[j]][j := b[j - 1]]
  }

  /** Operator 2b: the defer goes, a plain Unlock comes before the last statement. */
  function Undeferred(b: seq<Stmt>, j: nat, lock: string): seq<Stmt>
    requires j + 1 < |b|
  {
    b[..j] + b[j + 1..|b| - 1] + [Sync(Event(Unlock, lock)), b[|b| - 1]]
  }

  /** The code's own guard on operator 2: at least two guarded statements. */
  ghost predicate OffersEscape(b: seq<Stmt>, i: int, j: int, lock: string) {
    IsPair(b, i, j, lock) && b[i] == Sync(Event(Lock, lock)) && b[j].Sync? && 3 <= j - i
  }

  /** The code's own guards on operator 2b, exitsIn's veto included. */
  ghost predicate OffersUndefer(b: seq<Stmt>, i: int, j: int, lock: string) {
    && IsPair(b, i, j, lock) && b[i] == Sync(Event(Lock, lock)) && b[j].Defer?
    && 2 <= |b| - (j + 1) && !ExitsIn(b[j + 1..])
  }

  // ------------------------------------------------------------ pieces of a block

  ghost predicate Falls(o: Outcome) {
    o.Done? && o.exit == Fall
  }

  lemma SyncThen(ev: Event, rest: seq<Stmt>, v: Store, fuel: nat)
    ensures ExecAll([Sync(ev)] + rest, v, fuel) == Prepend([ev], [], ExecAll(rest, v, fuel))
  {
    ExecAppend([Sync(ev)], rest, v, fuel);
  }

  lemma DeferThen(ev: Event, rest: seq<Stmt>, v: Store, fuel: nat)
    ensures ExecAll([Defer(ev)] + rest, v, fuel) == Prepend([], [ev], ExecAll(rest, v, fuel))
  {
    ExecAppend([Defer(ev)], rest, v, fuel);
  }

  lemma PrefixMatches(x: seq<Stmt>, b: seq<Stmt>, b': seq<Stmt>)
    requires SameBlocks(b, b')
    ensures SameBlocks(x + b, x + b')
  {
    forall v, fuel: nat
      ensures Matches(ExecAll(x + b, v, fuel), ExecAll(x + b', v, fuel))
    {
      ExecAppend(x, b, v, fuel);
      ExecAppend(x, b', v, fuel);
      var o := ExecAll(x, v, fuel);
      MatchesReflexive(o);
      if Falls(o) {
        assert Matches(ExecAll(b, o.vars, fuel), ExecAll(b', o.vars, fuel));
        PrependMatches(o.trace, o.trace, o.defers, ExecAll(b, o.vars, fuel), ExecAll(b', o.vars, fuel));
      }
    }
  }

  lemma SuffixMatches(b: seq<Stmt>, b': seq<Stmt>, z: seq<Stmt>)
    requires SameBlocks(b, b')
    ensures SameBlocks(b + z, b' + z)
  {
    forall v, fuel: nat
      ensures Matches(ExecAll(b + z, v, fuel), ExecAll(b' + z, v, fuel))
    {
      ExecAppend(b, z, v, fuel);
      ExecAppend(b', z, v, fuel);
      var o, o' := ExecAll(b, v, fuel), ExecAll(b', v, fuel);
      assert Matches(o, o');
      if Falls(o) {
        MatchesReflexive(ExecAll(z, o.vars, fuel));
        PrependMatches(o.trace, o'.trace, o.defers, ExecAll(z, o.vars, fuel), ExecAll(z, o.vars, fuel));
      }
    }
  }

  // ------------------------------------------------------------ operator 2

  lemma SilentCommutes(t: seq<Event>, ev: Event)
    requires Silent(t, ev.lock)
    ensures Refines(t + [ev], [ev] + t)
  {
    forall lock, s | LockRun(lock, t + [ev], s).Some?
      ensures LockRun(lock, [ev] + t, s) == LockRun(lock, t + [ev], s)
    {
      LockRunAppend(lock, t, [ev], s);
      LockRunAppend(lock, [ev], t, s);
      if lock == ev.lock {
        SilentRun(lock, t, s);
        var next := LockRun(lock, [ev], s);
        if next.Some? {
          SilentRun(lock, t, next.value);
        }
      } else {
        SilentRun(lock, [ev], s);
        var next := LockRun(lock, t, s);
        if next.Some? {
          SilentRun(lock, [ev], next.value);
        }
      }
    }
  }

  /** A statement that leaves the lock alone and falls through can cross its Unlock. */
  lemma SwapMatches(a: Stmt, lock: string)
    requires !TouchesStmt(a, lock) && !ExitsInStmt(a) && !PanicsInStmt(a)
    ensures SameBlocks([a, Sync(Event(Unlock, lock))], [Sync(Event(Unlock, lock)), a])
  {
    var ev := Event(Unlock, lock);
    forall v, fuel: nat
      ensures Matches(ExecAll([a, Sync(ev)], v, fuel), ExecAll([Sync(ev), a], v, fuel))
    {
      assert [a, Sync(ev)] == [a] + [Sync(ev)] && [Sync(ev), a] == [Sync(ev)] + [a];
      ExecAppend([a], [Sync(ev)], v, fuel);
      SyncThen(ev, [a], v, fuel);
      ExecOne(a, v, fuel);
      NoExitStmtFalls(a, v, fuel);
      UntouchedStmtIsQuiet(a, lock, v, fuel);
      var o := Exec(a, v, fuel);
      if o.Done? {
        ExecOne(Sync(ev), o.vars, fuel);
        SilentCommutes(o.trace, ev);
      }
    }
  }

  /** Operator 2 at any depth of any program: if the moved statement has no
      operation on that lock and cannot exit, every run keeps its exit, its
      variables and its deferred calls, and every lock runs to the same state. */
  lemma EscapeKeepsMeaning(program: seq<Stmt>, p: Path, i: nat, j: nat, lock: string)
    requires Reaches(program, p) && OffersEscape(BlockAt(program, p), i, j, lock)
    requires var a := BlockAt(program, p)[j - 1];
      !TouchesStmt(a, lock) && !ExitsInStmt(a) && !PanicsInStmt(a)
    ensures SameBlocks(program, Replace(program, p, Escaped(BlockAt(program, p), j)))
  {
    var b := BlockAt(program, p);
    var a, u := b[j - 1], Sync(Event(Unlock, lock));
    assert b == b[..j - 1] + ([a, u] + b[j + 1..]);
    assert Escaped(b, j) == b[..j - 1] + ([u, a] + b[j + 1..]);
    SwapMatches(a, lock);
    SuffixMatches([a, u], [u, a], b[j + 1..]);
    PrefixMatches(b[..j - 1], [a, u] + b[j + 1..], [u, a] + b[j + 1..]);
    EditMatchesInContext(program, p, Escaped(b, j));
  }

  // ------------------------------------------------------------ operator 1, plain Unlock

  lemma DowngradedSectionRefines(t: seq<Event>, lock: string)
    requires Silent(t, lock)
    ensures Refines([Event(Lock, lock)] + t + [Event(Unlock, lock)],
                    [Event(RLock, lock)] + t + [Event(RUnlock, lock)])
  {
    var e, f, e', f' := Event(Lock, lock), Event(Unlock, lock), Event(RLock, lock), Event(RUnlock, lock);
    forall l, s | LockRun(l, [e] + t + [f], s).Some?
      ensures LockRun(l, [e'] + t + [f'], s) == LockRun(l, [e] + t + [f], s)
    {
      LockRunAppend(l, [e] + t, [f], s);
      LockRunAppend(l, [e], t, s);
      LockRunAppend(l, [e'] + t, [f'], s);
      LockRunAppend(l, [e'], t, s);
      if l == lock {
        assert LockRun(l, [e], s) == Apply(Lock, s) && LockRun(l, [e'], s) == Apply(RLock, s);
        assert s == Free;
        SilentRun(l, t, Write);
        SilentRun(l, t, Read(1));
      } else {
        assert LockRun(l, [e], s) == Some(s) == LockRun(l, [e'], s);
      }
    }
  }

  lemma SectionOutcome(e: Event, m: seq<Stmt>, f: Event, v: Store, fuel: nat)
    requires FallsThrough(ExecAll(m, v, fuel))
    ensures var o := ExecAll(m, v, fuel);
      ExecAll([Sync(e)] + m + [Sync(f)], v, fuel)
      == if o.Timeout? then Timeout else Done(Fall, o.vars, [e] + o.trace + [f], o.defers)
  {
    var o := ExecAll(m, v, fuel);
    ExecAppend([Sync(e)] + m, [Sync(f)], v, fuel);
    SyncThen(e, m, v, fuel);
    if o.Done? {
      ExecOne(Sync(f), o.vars, fuel);
    }
  }

  lemma SectionMatches(m: seq<Stmt>, lock: string)
    requires !Touches(m, lock) && !ExitsIn(m) && !PanicsIn(m)
    ensures SameBlocks([Sync(Event(Lock, lock))] + m + [Sync(Event(Unlock, lock))],
                       [Sync(Event(RLock, lock))] + m + [Sync(Event(RUnlock, lock))])
  {
    forall v, fuel: nat
      ensures Matches(ExecAll([Sync(Event(Lock, lock))] + m + [Sync(Event(Unlock, lock))], v, fuel),
                      ExecAll([Sync(Event(RLock, lock))] + m + [Sync(Event(RUnlock, lock))], v, fuel))
    {
      NoExitFalls(m, v, fuel);
      UntouchedIsQuiet(m, lock, v, fuel);
      SectionOutcome(Event(Lock, lock), m, Event(Unlock, lock), v, fuel);
      SectionOutcome(Event(RLock, lock), m, Event(RUnlock, lock), v, fuel);
      var o := ExecAll(m, v, fuel);
      if o.Done? {
        DowngradedSectionRefines(o.trace, lock);
      }
    }
  }

  lemma SplitAtPair(b: seq<Stmt>, i: nat, j: nat)
    requires i < j < |b|
    ensures b == b[..i] + ([b[i]] + (b[i + 1..j] + ([b[j]] + b[j + 1..])))
  {
  }

  lemma DowngradedPieces(b: seq<Stmt>, i: nat, j: nat, lock: string)
    requires i < j < |b| && (b[j].Sync? || b[j].Defer?)
    ensures var b' := Downgraded(b, i, j, lock);
      && |b'| == |b| && b'[..i] == b[..i] && b'[i] == Sync(Event(RLock, lock))
      && b'[i + 1..j] == b[i + 1..j] && b'[j] == b[j].(ev := Event(RUnlock, lock)) && b'[j + 1..] == b[j + 1..]
  {
  }

  /** Operator 1 against a plain Unlock, at any depth: if nothing in the section
      touches the lock or exits, single-threaded runs are unchanged. */
  lemma DowngradeKeepsMeaning(program: seq<Stmt>, p: Path, i: nat, j: nat, lock: string)
    requires Reaches(program, p) && IsPair(BlockAt(program, p), i, j, lock)
    requires BlockAt(program, p)[i] == Sync(Event(Lock, lock)) && BlockAt(program, p)[j].Sync?
    requires var m := BlockAt(program, p)[i + 1..j]; !Touches(m, lock) && !ExitsIn(m) && !PanicsIn(m)
    ensures SameBlocks(program, Replace(program, p, Downgraded(BlockAt(program, p), i, j, lock)))
  {
    var b := BlockAt(program, p);
    var m := b[i + 1..j];
    var section := [Sync(Event(Lock, lock))] + m + [Sync(Event(Unlock, lock))];
    var section' := [Sync(Event(RLock, lock))] + m + [Sync(Event(RUnlock, lock))];
    SplitAtPair(b, i, j);
    SplitAtPair(Downgraded(b, i, j, lock), i, j);
    DowngradedPieces(b, i, j, lock);
    assert section + b[j + 1..] == [b[i]] + (m + ([b[j]] + b[j + 1..]));
    assert section' + b[j + 1..]
        == [Sync(Event(RLock, lock))] + (m + ([Sync(Event(RUnlock, lock))] + b[j + 1..]));
    SectionMatches(m, lock);
    SuffixMatches(section, section', b[j + 1..]);
    PrefixMatches(b[..i], section + b[j + 1..], section' + b[j + 1..]);
    hide Touches, ExitsIn, PanicsIn, SameBlocks, Replace, BlockAt, Reaches;
    EditMatchesInContext(program, p, Downgraded(b, i, j, lock));
  }

  // ------------------------------------------------------------ deferred Unlocks

  /** Two outcomes of one block agree once the function ends, whatever runs in
      between, as long as that leaves the lock alone. */
  ghost predicate AgreeAtReturn(o: Outcome, o': Outcome, lock: string) {
    match (o, o')
    case (Timeout, Timeout) => true
    case (Done(x, v, t, d), Done(x', v', t', d')) =>
      && x == x' && v == v'
      && forall r :: Silent(r, lock) ==> Refines(t + r + Reverse(d), t' + r + Reverse(d'))
    case _ => false
  }

  ghost predicate SameAtReturn(b: seq<Stmt>, b': seq<Stmt>, lock: string) {
    forall v, fuel: nat :: AgreeAtReturn(ExecAll(b, v, fuel), ExecAll(b', v, fuel), lock)
  }

  lemma AgreeReflexive(o: Outcome, lock: string)
    ensures AgreeAtReturn(o, o, lock)
  {
    if o.Done? {
      forall r | Silent(r, lock)
        ensures Refines(o.trace + r + Reverse(o.defers), o.trace + r + Reverse(o.defers))
      {
        RefinesReflexive(o.trace + r + Reverse(o.defers));
      }
    }
  }

  lemma AgreePrepend(t: seq<Event>, d: seq<Event>, o: Outcome, o': Outcome, lock: string)
    requires AgreeAtReturn(o, o', lock)
    ensures AgreeAtReturn(Prepend(t, d, o), Prepend(t, d, o'), lock)
  {
    if o.Done? {
      forall r | Silent(r, lock)
        ensures Refines((t + o.trace) + r + Reverse(d + o.defers), (t + o'.trace) + r + Reverse(d + o'.defers))
      {
        ReverseAppend(d, o.defers);
        ReverseAppend(d, o'.defers);
        var m, m' := o.trace + r + Reverse(o.defers), o'.trace + r + Reverse(o'.defers);
        RefinesReflexive(t);
        RefinesReflexive(Reverse(d));
        RefinesAppend(t, t, m, m');
        RefinesAppend(t + m, t + m', Reverse(d), Reverse(d));
        assert (t + o.trace) + r + Reverse(d + o.defers) == (t + m) + Reverse(d);
        assert (t + o'.trace) + r + Reverse(d + o'.defers) == (t + m') + Reverse(d);
      }
    }
  }

  lemma PrefixAgrees(x: seq<Stmt>, b: seq<Stmt>, b': seq<Stmt>, lock: string)
    requires SameAtReturn(b, b', lock)
    ensures SameAtReturn(x + b, x + b', lock)
  {
    forall v, fuel: nat
      ensures AgreeAtReturn(ExecAll(x + b, v, fuel), ExecAll(x + b', v, fuel), lock)
    {
      ExecAppend(x, b, v, fuel);
      ExecAppend(x, b', v, fuel);
      var o := ExecAll(x, v, fuel);
      AgreeReflexive(o, lock);
      if Falls(o) {
        assert AgreeAtReturn(ExecAll(b, o.vars, fuel), ExecAll(b', o.vars, fuel), lock);
        AgreePrepend(o.trace, o.defers, ExecAll(b, o.vars, fuel), ExecAll(b', o.vars, fuel), lock);
      }
    }
  }

  lemma AgreeAppend(o: Outcome, o': Outcome, z: Outcome, lock: string)
    requires Falls(o) && AgreeAtReturn(o, o', lock) && z.Done? && Quiet(z, lock)
    ensures AgreeAtReturn(Prepend(o.trace, o.defers, z), Prepend(o'.trace, o'.defers, z), lock)
  {
    forall r | Silent(r, lock)
      ensures Refines((o.trace + z.trace) + r + Reverse(o.defers + z.defers),
                      (o'.trace + z.trace) + r + Reverse(o'.defers + z.defers))
    {
      ReverseAppend(o.defers, z.defers);
      ReverseAppend(o'.defers, z.defers);
      ReverseSilent(z.defers, lock);
      var mid := z.trace + r + Reverse(z.defers);
      assert Silent(mid, lock);
      assert (o.trace + z.trace) + r + Reverse(o.defers + z.defers) == o.trace + mid + Reverse(o.defers);
      assert (o'.trace + z.trace) + r + Reverse(o'.defers + z.defers) == o'.trace + mid + Reverse(o'.defers);
    }
  }

  lemma SuffixAgrees(b: seq<Stmt>, b': seq<Stmt>, z: seq<Stmt>, lock: string)
    requires SameAtReturn(b, b', lock) && !Touches(z, lock)
    ensures SameAtReturn(b + z, b' + z, lock)
  {
    forall v, fuel: nat
      ensures AgreeAtReturn(ExecAll(b + z, v, fuel), ExecAll(b' + z, v, fuel), lock)
    {
      ExecAppend(b, z, v, fuel);
      ExecAppend(b', z, v, fuel);
      var o, o' := ExecAll(b, v, fuel), ExecAll(b', v, fuel);
      assert AgreeAtReturn(o, o', lock);
      if Falls(o) {
        UntouchedIsQuiet(z, lock, o.vars, fuel);
        var end := ExecAll(z, o.vars, fuel);
        if end.Done? {
          AgreeAppend(o, o', end, lock);
        }
      }
    }
  }

  /** At the end of the function the two bodies match as functions. */
  lemma FunctionsAgree(b: seq<Stmt>, b': seq<Stmt>, lock: string)
    requires SameAtReturn(b, b', lock)
    ensures SameFunctions(b, b')
  {
    forall v, fuel: nat
      ensures Matches(RunFunction(b, v, fuel), RunFunction(b', v, fuel))
    {
      var o, o' := ExecAll(b, v, fuel), ExecAll(b', v, fuel);
      assert AgreeAtReturn(o, o', lock);
      if o.Done? {
        assert Silent([], lock);
        assert o.trace + [] + Reverse(o.defers) == o.trace + Reverse(o.defers);
        assert o'.trace + [] + Reverse(o'.defers) == o'.trace + Reverse(o'.defers);
      }
    }
  }

  // ------------------------------------------------------------ operator 2b

  /** What running defer-Unlock, g, last leaves, when g and last fall through. */
  lemma DeferredOutcome(ev: Event, g: seq<Stmt>, last: Stmt, v: Store, fuel: nat)
    requires FallsThrough(ExecAll(g, v, fuel))
    ensures var o := ExecAll(g, v, fuel);
      && (o.Timeout? ==> ExecAll([Defer(ev)] + (g + [last]), v, fuel) == Timeout
                         && ExecAll(g + ([Sync(ev)] + [last]), v, fuel) == Timeout)
      && (o.Done? ==> var z := Exec(last, o.vars, fuel);
            && ExecAll([Defer(ev)] + (g + [last]), v, fuel) == Prepend(o.trace, [ev] + o.defers, z)
            && ExecAll(g + ([Sync(ev)] + [last]), v, fuel) == Prepend(o.trace + [ev], o.defers, z))
  {
    var o := ExecAll(g, v, fuel);
    DeferThen(ev, g + [last], v, fuel);
    ExecAppend(g, [last], v, fuel);
    ExecAppend(g, [Sync(ev)] + [last], v, fuel);
    if o.Done? {
      SyncThen(ev, [last], o.vars, fuel);
      ExecOne(last, o.vars, fuel);
      PrependPrepend([], [ev], o.trace, o.defers, Exec(last, o.vars, fuel));
      PrependPrepend(o.trace, o.defers, [ev], [], Exec(last, o.vars, fuel));
      assert [] + o.trace == o.trace && o.defers + [] == o.defers;
    }
  }

  /** Releasing early instead of at return: the trailing silent stretch crosses. */
  lemma EarlyReleaseRefines(t: seq<Event>, s: seq<Event>, ev: Event)
    requires Silent(s, ev.lock)
    ensures Refines(t + s + [ev], t + [ev] + s)
  {
    SilentCommutes(s, ev);
    RefinesReflexive(t);
    RefinesAppend(t, t, s + [ev], [ev] + s);
    assert t + (s + [ev]) == t + s + [ev] && t + ([ev] + s) == t + [ev] + s;
  }

  lemma UndeferAgrees(lock: string, g: seq<Stmt>, last: Stmt)
    requires !ExitsIn(g) && !PanicsIn(g) && !ExitsInStmt(last) && !PanicsInStmt(last)
    requires !TouchesStmt(last, lock) && !DefersOn(g, lock)
    ensures var ev := Event(Unlock, lock);
      SameAtReturn([Defer(ev)] + (g + [last]), g + ([Sync(ev)] + [last]), lock)
  {
    var ev := Event(Unlock, lock);
    forall v, fuel: nat
      ensures AgreeAtReturn(ExecAll([Defer(ev)] + (g + [last]), v, fuel),
                            ExecAll(g + ([Sync(ev)] + [last]), v, fuel), lock)
    {
      NoExitFalls(g, v, fuel);
      DeferredOutcome(ev, g, last, v, fuel);
      var o := ExecAll(g, v, fuel);
      if o.Done? {
        NoExitStmtFalls(last, o.vars, fuel);
        UntouchedStmtIsQuiet(last, lock, o.vars, fuel);
        UndeferredAreSilent(g, lock, v, fuel);
        var z := Exec(last, o.vars, fuel);
        if z.Done? {
          EarlyReleaseAgrees(o, z, ev);
        }
      }
    }
  }

  lemma EarlyReleaseAgrees(o: Outcome, z: Outcome, ev: Event)
    requires o.Done? && z.Done? && Quiet(z, ev.lock) && Silent(o.defers, ev.lock)
    ensures AgreeAtReturn(Prepend(o.trace, [ev] + o.defers, z), Prepend(o.trace + [ev], o.defers, z), ev.lock)
  {
    forall r | Silent(r, ev.lock)
      ensures Refines((o.trace + z.trace) + r + Reverse([ev] + o.defers + z.defers),
                      (o.trace + [ev] + z.trace) + r + Reverse(o.defers + z.defers))
    {
      var d := o.defers + z.defers;
      assert [ev] + o.defers + z.defers == [ev] + d && ([ev] + d)[1..] == d;
      ReverseSilent(d, ev.lock);
      var s := z.trace + r + Reverse(d);
      assert Silent(s, ev.lock);
      EarlyReleaseRefines(o.trace, s, ev);
      assert (o.trace + z.trace) + r + Reverse([ev] + o.defers + z.defers) == o.trace + s + [ev];
      assert (o.trace + [ev] + z.trace) + r + Reverse(d) == o.trace + [ev] + s;
    }
  }

  /** A deferred operation on the lock, outside function literals. */
  predicate DefersOn(b: seq<Stmt>, lock: string) {
    b != [] && (DefersOnStmt(b[0], lock) || DefersOn(b[1..], lock))
  }

  predicate DefersOnStmt(s: Stmt, lock: string) {
    match s
    case Defer(ev) => ev.lock == lock
    case If(_, thn, els) => DefersOn(thn, lock) || DefersOn(els, lock)
    case While(_, body) => DefersOn(body, lock)
    case _ => false
  }

  ghost predicate NoDeferred(o: Outcome, lock: string) {
    o.Done? ==> Silent(o.defers, lock)
  }

  lemma {:induction false} UndeferredAreSilent(b: seq<Stmt>, lock: string, v: Store, fuel: nat)
    requires !DefersOn(b, lock)
    ensures NoDeferred(ExecAll(b, v, fuel), lock)
    decreases fuel, b, 0
  {
    if b != [] {
      UndeferredStmtIsSilent(b[0], lock, v, fuel);
      var o := Exec(b[0], v, fuel);
      if Falls(o) {
        UndeferredAreSilent(b[1..], lock, o.vars, fuel);
      }
    }
  }

  lemma {:induction false} UndeferredStmtIsSilent(s: Stmt, lock: string, v: Store, fuel: nat)
    requires !DefersOnStmt(s, lock)
    ensures NoDeferred(Exec(s, v, fuel), lock)
    decreases fuel, s, 1
  {
    match s
    case If(c, thn, els) =>
      if c(v) {
        UndeferredAreSilent(thn, lock, v, fuel);
      } else {
        UndeferredAreSilent(els, lock, v, fuel);
      }
    case While(c, body) =>
      if c(v) && fuel != 0 {
        UndeferredAreSilent(body, lock, v, fuel);
        var o := ExecAll(body, v, fuel);
        if o.Done? && (o.exit == Fall || o.exit == Continued) {
          UndeferredStmtIsSilent(s, lock, o.vars, fuel - 1);
        }
      }
    case _ =>
  }

  lemma {:induction false} SplitExits(g: seq<Stmt>, last: Stmt)
    ensures ExitsIn(g + [last]) <==> ExitsIn(g) || ExitsInStmt(last)
    ensures PanicsIn(g + [last]) <==> PanicsIn(g) || PanicsInStmt(last)
  {
    if g == [] {
      assert g + [last] == [last];
    } else {
      assert (g + [last])[1..] == g[1..] + [last];
      SplitExits(g[1..], last);
    }
  }

  /** Where the site's block sits inside its function: only under ifs, with
      nothing after it on the way out touching the lock. */
  ghost predicate LastUseOf(f: seq<Stmt>, p: Path, lock: string): (r: bool)
    ensures r ==> Reaches(f, p)
    decreases p
  {
    match p
    case Here => true
    case Into(k, branch, rest) =>
      && k < |f| && f[k].If? && !Touches(f[k + 1..], lock)
      && (branch == Then || branch == Else)
      && LastUseOf(if branch == Then then f[k].thn else f[k].els, rest, lock)
  }

  lemma {:induction false} AgreesInFunction(f: seq<Stmt>, p: Path, new': seq<Stmt>, lock: string)
    requires LastUseOf(f, p, lock) && SameAtReturn(BlockAt(f, p), new', lock)
    ensures SameAtReturn(f, Replace(f, p, new'), lock)
    decreases p
  {
    if p.Into? {
      var s, s' := f[p.at], Replace(f, p, new')[p.at];
      var inner := if p.branch == Then then s.thn else s.els;
      AgreesInFunction(inner, p.rest, new', lock);
      forall v, fuel: nat
        ensures AgreeAtReturn(ExecAll([s], v, fuel), ExecAll([s'], v, fuel), lock)
      {
        ExecOne(s, v, fuel);
        ExecOne(s', v, fuel);
        AgreeReflexive(Exec(s, v, fuel), lock);
        assert AgreeAtReturn(ExecAll(inner, v, fuel), ExecAll(Replace(inner, p.rest, new'), v, fuel), lock);
      }
      SuffixAgrees([s], [s'], f[p.at + 1..], lock);
      PrefixAgrees(f[..p.at], [s] + f[p.at + 1..], [s'] + f[p.at + 1..], lock);
      assert f == f[..p.at] + ([s] + f[p.at + 1..]);
      assert Replace(f, p, new') == f[..p.at] + ([s'] + f[p.at + 1..]);
    }
  }

  lemma UndeferredBlockAgrees(b: seq<Stmt>, i: nat, j: nat, lock: string)
    requires OffersUndefer(b, i, j, lock)
    requires !PanicsIn(b[j + 1..]) && !TouchesStmt(b[|b| - 1], lock) && !DefersOn(b[j + 1..|b| - 1], lock)
    ensures SameAtReturn(b, Undeferred(b, j, lock), lock)
  {
    var ev := Event(Unlock, lock);
    var g, last := b[j + 1..|b| - 1], b[|b| - 1];
    assert b[j + 1..] == g + [last];
    SplitExits(g, last);
    hide SameAtReturn;
    UndeferAgrees(lock, g, last);
    PrefixAgrees(b[..j], [Defer(ev)] + (g + [last]), g + ([Sync(ev)] + [last]), lock);
    assert b == b[..j] + ([Defer(ev)] + (g + [last]));
    assert Undeferred(b, j, lock) == b[..j] + (g + ([Sync(ev)] + [last]));
  }

  /** Operator 2b: with exitsIn's veto, no panic below, no use of the lock by
      the escaping statement or by what follows, and no other deferred call on
      it in between, the function behaves the same on every path. */
  lemma UndeferKeepsMeaning(f: seq<Stmt>, p: Path, i: nat, j: nat, lock: string)
    requires LastUseOf(f, p, lock) && OffersUndefer(BlockAt(f, p), i, j, lock)
    requires var b := BlockAt(f, p);
      && !PanicsIn(b[j + 1..]) && !TouchesStmt(b[|b| - 1], lock) && !DefersOn(b[j + 1..|b| - 1], lock)
    ensures SameFunctions(f, Replace(f, p, Undeferred(BlockAt(f, p), j, lock)))
  {
    var b := BlockAt(f, p);
    hide SameAtReturn, LastUseOf, Undeferred, PanicsIn, TouchesStmt, DefersOn, SameFunctions;
    UndeferredBlockAgrees(b, i, j, lock);
    AgreesInFunction(f, p, Undeferred(b, j, lock), lock);
    FunctionsAgree(f, Replace(f, p, Undeferred(b, j, lock)), lock);
  }

  // ------------------------------------------------------------ operator 1, deferred Unlock

  lemma DeferredSectionOutcome(e: Event, y: seq<Stmt>, f: Event, g: seq<Stmt>, v: Store, fuel: nat)
    requires FallsThrough(ExecAll(y, v, fuel))
    ensures var o := ExecAll(y, v, fuel);
      ExecAll([Sync(e)] + (y + ([Defer(f)] + g)), v, fuel)
      == if o.Timeout? then Timeout
         else Prepend([e] + o.trace, o.defers + [f], ExecAll(g, o.vars, fuel))
  {
    var o := ExecAll(y, v, fuel);
    SyncThen(e, y + ([Defer(f)] + g), v, fuel);
    ExecAppend(y, [Defer(f)] + g, v, fuel);
    if o.Done? {
      DeferThen(f, g, o.vars, fuel);
      var z := ExecAll(g, o.vars, fuel);
      PrependPrepend(o.trace, o.defers, [], [f], z);
      assert o.trace + [] == o.trace;
      PrependPrepend([e], [], o.trace, o.defers + [f], z);
      assert [] + (o.defers + [f]) == o.defers + [f];
    }
  }

  lemma DowngradeDeferredAgrees(lock: string, y: seq<Stmt>, g: seq<Stmt>)
    requires !Touches(y, lock) && !ExitsIn(y) && !PanicsIn(y) && !Touches(g, lock)
    ensures SameAtReturn([Sync(Event(Lock, lock))] + (y + ([Defer(Event(Unlock, lock))] + g)),
                         [Sync(Event(RLock, lock))] + (y + ([Defer(Event(RUnlock, lock))] + g)), lock)
  {
    var e, f, e', f' := Event(Lock, lock), Event(Unlock, lock), Event(RLock, lock), Event(RUnlock, lock);
    forall v, fuel: nat
      ensures AgreeAtReturn(ExecAll([Sync(e)] + (y + ([Defer(f)] + g)), v, fuel),
                            ExecAll([Sync(e')] + (y + ([Defer(f')] + g)), v, fuel), lock)
    {
      NoExitFalls(y, v, fuel);
      UntouchedIsQuiet(y, lock, v, fuel);
      DeferredSectionOutcome(e, y, f, g, v, fuel);
      DeferredSectionOutcome(e', y, f', g, v, fuel);
      var o := ExecAll(y, v, fuel);
      if o.Done? {
        UntouchedIsQuiet(g, lock, o.vars, fuel);
        var z := ExecAll(g, o.vars, fuel);
        if z.Done? {
          DowngradedFlushAgrees(o, z, lock);
        }
      }
    }
  }

  lemma DowngradedFlushAgrees(o: Outcome, z: Outcome, lock: string)
    requires o.Done? && z.Done? && Quiet(o, lock) && Quiet(z, lock)
    ensures AgreeAtReturn(Prepend([Event(Lock, lock)] + o.trace, o.defers + [Event(Unlock, lock)], z),
                          Prepend([Event(RLock, lock)] + o.trace, o.defers + [Event(RUnlock, lock)], z), lock)
  {
    var e, f, e', f' := Event(Lock, lock), Event(Unlock, lock), Event(RLock, lock), Event(RUnlock, lock);
    forall r | Silent(r, lock)
      ensures Refines([e] + o.trace + z.trace + r + Reverse(o.defers + [f] + z.defers),
                      [e'] + o.trace + z.trace + r + Reverse(o.defers + [f'] + z.defers))
    {
      FlushAround(o.defers, f, z.defers);
      FlushAround(o.defers, f', z.defers);
      ReverseSilent(z.defers, lock);
      var mid, tail := o.trace + z.trace + r + Reverse(z.defers), Reverse(o.defers);
      assert Silent(mid, lock);
      DowngradedSectionRefines(mid, lock);
      RefinesReflexive(tail);
      RefinesAppend([e] + mid + [f], [e'] + mid + [f'], tail, tail);
      assert [e] + o.trace + z.trace + r + Reverse(o.defers + [f] + z.defers) == ([e] + mid + [f]) + tail;
      assert [e'] + o.trace + z.trace + r + Reverse(o.defers + [f'] + z.defers) == ([e'] + mid + [f']) + tail;
    }
  }

  lemma FlushAround(a: seq<Event>, f: Event, b: seq<Event>)
    ensures Reverse(a + [f] + b) == Reverse(b) + [f] + Reverse(a)
  {
    ReverseAppend(a + [f], b);
    ReverseAppend(a, [f]);
    assert Reverse([f]) == [f];
    assert Reverse(b) + ([f] + Reverse(a)) == Reverse(b) + [f] + Reverse(a);
  }

  /** Operator 1 against a deferred Unlock: nothing else may touch the lock from
      the Lock to the end of the function, and nothing may exit before the defer. */
  lemma DowngradeDeferredKeepsMeaning(f: seq<Stmt>, p: Path, i: nat, j: nat, lock: string)
    requires LastUseOf(f, p, lock) && IsPair(BlockAt(f, p), i, j, lock)
    requires BlockAt(f, p)[i] == Sync(Event(Lock, lock)) && BlockAt(f, p)[j].Defer?
    requires var b := BlockAt(f, p);
      && !Touches(b[i + 1..j], lock) && !ExitsIn(b[i + 1..j]) && !PanicsIn(b[i + 1..j])
      && !Touches(b[j + 1..], lock)
    ensures SameFunctions(f, Replace(f, p, Downgraded(BlockAt(f, p), i, j, lock)))
  {
    var b := BlockAt(f, p);
    var y, g := b[i + 1..j], b[j + 1..];
    var old' := [Sync(Event(Lock, lock))] + (y + ([Defer(Event(Unlock, lock))] + g));
    var new' := [Sync(Event(RLock, lock))] + (y + ([Defer(Event(RUnlock, lock))] + g));
    DowngradeDeferredAgrees(lock, y, g);
    PrefixAgrees(b[..i], old', new', lock);
    SplitAtPair(b, i, j);
    SplitAtPair(Downgraded(b, i, j, lock), i, j);
    DowngradedPieces(b, i, j, lock);
    hide Touches, ExitsIn, PanicsIn, SameAtReturn, LastUseOf, Replace, BlockAt, Reaches;
    AgreesInFunction(f, p, Downgraded(b, i, j, lock), lock);
    FunctionsAgree(f, Replace(f, p, Downgraded(b, i, j, lock)), lock);
  }

  /** What a single-threaded observer learns from any of the theorems above: a
      run that ended with no lock fault and no lock held still does, with the
      same variables and the same way out. */
  lemma BalancedRunsStayBalanced(f: seq<Stmt>, f': seq<Stmt>, v: Store, fuel: nat)
    requires SameFunctions(f, f') && EndsClean(f, v, fuel)
    ensures EndsClean(f', v, fuel)
    ensures RunFunction(f', v, fuel).vars == RunFunction(f, v, fuel).vars
    ensures RunFunction(f', v, fuel).exit == RunFunction(f, v, fuel).exit
  {
    var o, o' := RunFunction(f, v, fuel), RunFunction(f', v, fuel);
    assert Matches(o, o');
    CleanRefined(o.trace, o'.trace);
  }
}
