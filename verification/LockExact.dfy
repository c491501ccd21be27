/** When the scar-free operators keep the lock's final state on one run of the
    edited block: exact conditions on what that run did, whatever the rest of the
    function does before and after it. */
module LockExact {
  import opened Wrappers
  import opened LockProgram
  import opened LockEdits

  // ------------------------------------------------------------ diverged states

  /** The first event on the lock decides: from write-held only Unlock can go, and
      from any other state Unlock cannot. So code that runs from write-held leaves
      the lock somewhere else, or faults, when it starts anywhere else. */
  lemma {:induction false} NeverMeetsWrite(t: seq<Event>, lock: string, s: LockState)
    requires s != Write && LockRun(lock, t, Write).Some?
    ensures LockRun(lock, t, s) != LockRun(lock, t, Write)
    ensures !Silent(t, lock) ==> LockRun(lock, t, s).None?
  {
    if t != [] && t[0].lock != lock {
      NeverMeetsWrite(t[1..], lock, s);
      assert Silent(t[1..], lock) ==> Silent(t, lock);
    }
  }

  lemma RunOne(e: Event, s: LockState)
    ensures LockRun(e.lock, [e], s) == Apply(e.op, s)
  {
  }

  lemma RunCons(e: Event, t: seq<Event>, s: LockState)
    ensures LockRun(e.lock, [e] + t, s)
         == var next := Apply(e.op, s); if next.None? then None else LockRun(e.lock, t, next.value)
  {
    LockRunAppend(e.lock, [e], t, s);
    RunOne(e, s);
  }

  /** Everything up to the edit is the same; what the edit changes comes after. */
  lemma SamePrefix(lock: string, a: seq<Event>, t: seq<Event>, t': seq<Event>, s: LockState)
    requires LockRun(lock, a + t, s).Some?
    ensures LockRun(lock, a, s).Some? && LockRun(lock, t, LockRun(lock, a, s).value) == LockRun(lock, a + t, s)
    ensures LockRun(lock, a + t', s) == LockRun(lock, t', LockRun(lock, a, s).value)
  {
    LockRunAppend(lock, a, t, s);
    LockRunAppend(lock, a, t', s);
  }

  // ------------------------------------------------------------ the two edits on traces

  /** Unlock moved from after t to before it. */
  lemma MovedUnlock(a: seq<Event>, t: seq<Event>, q: seq<Event>, lock: string, s: LockState)
    requires LockRun(lock, a + (t + ([Event(Unlock, lock)] + q)), s).Some?
    ensures LockRun(lock, a + ([Event(Unlock, lock)] + (t + q)), s)
         == LockRun(lock, a + (t + ([Event(Unlock, lock)] + q)), s)
       <==> Silent(t, lock)
  {
    var u := Event(Unlock, lock);
    SamePrefix(lock, a, t + ([u] + q), [u] + (t + q), s);
    var x := LockRun(lock, a, s).value;
    LockRunAppend(lock, t, [u] + q, x);
    var y := LockRun(lock, t, x).value;
    RunCons(u, q, y);
    RunCons(u, t + q, x);
    LockRunAppend(lock, t, q, Free);
    if Silent(t, lock) {
      SilentRun(lock, t, x);
      SilentRun(lock, t, Free);
    } else if x == Write {
      NeverMeetsWrite(t, lock, Free);
    }
  }

  /** Unlock moved to before t when the original never got to it. */
  lemma StrayUnlock(a: seq<Event>, t: seq<Event>, lock: string, s: LockState)
    requires LockRun(lock, a + t, s).Some?
    ensures LockRun(lock, a + ([Event(Unlock, lock)] + t), s) != LockRun(lock, a + t, s)
  {
    var u := Event(Unlock, lock);
    SamePrefix(lock, a, t, [u] + t, s);
    var x := LockRun(lock, a, s).value;
    RunCons(u, t, x);
    if x == Write {
      NeverMeetsWrite(t, lock, Free);
    }
  }

  /** An Unlock that no longer happens. */
  lemma LostUnlock(a: seq<Event>, q: seq<Event>, lock: string, s: LockState)
    requires LockRun(lock, a + ([Event(Unlock, lock)] + q), s).Some?
    ensures LockRun(lock, a + q, s) != LockRun(lock, a + ([Event(Unlock, lock)] + q), s)
  {
    var u := Event(Unlock, lock);
    SamePrefix(lock, a, [u] + q, q, s);
    RunCons(u, q, LockRun(lock, a, s).value);
    if LockRun(lock, q, Write).Some? {
      NeverMeetsWrite(q, lock, Free);
    }
  }

  /** Lock and Unlock around t downgraded. */
  lemma DowngradedPair(a: seq<Event>, t: seq<Event>, q: seq<Event>, lock: string, s: LockState)
    requires LockRun(lock, a + ([Event(Lock, lock)] + (t + ([Event(Unlock, lock)] + q))), s).Some?
    ensures LockRun(lock, a + ([Event(RLock, lock)] + (t + ([Event(RUnlock, lock)] + q))), s)
         == LockRun(lock, a + ([Event(Lock, lock)] + (t + ([Event(Unlock, lock)] + q))), s)
       <==> Silent(t, lock)
  {
    var e, f, e', f' := Event(Lock, lock), Event(Unlock, lock), Event(RLock, lock), Event(RUnlock, lock);
    var rest, rest' := t + ([f] + q), t + ([f'] + q);
    SamePrefix(lock, a, [e] + rest, [e'] + rest', s);
    var x := LockRun(lock, a, s).value;
    RunCons(e, rest, x);
    RunCons(e', rest', x);
    LockRunAppend(lock, t, [f] + q, Write);
    LockRunAppend(lock, t, [f'] + q, Read(1));
    RunCons(f, q, Write);
    RunCons(f', q, Read(1));
    if Silent(t, lock) {
      SilentRun(lock, t, Write);
      SilentRun(lock, t, Read(1));
    } else {
      NeverMeetsWrite(t, lock, Read(1));
    }
  }

  /** A downgraded Lock whose own Unlock never runs. */
  lemma DowngradedAlone(a: seq<Event>, t: seq<Event>, lock: string, s: LockState)
    requires LockRun(lock, a + ([Event(Lock, lock)] + t), s).Some?
    ensures LockRun(lock, a + ([Event(RLock, lock)] + t), s) != LockRun(lock, a + ([Event(Lock, lock)] + t), s)
  {
    var e, e' := Event(Lock, lock), Event(RLock, lock);
    SamePrefix(lock, a, [e] + t, [e'] + t, s);
    var x := LockRun(lock, a, s).value;
    RunCons(e, t, x);
    RunCons(e', t, x);
    NeverMeetsWrite(t, lock, Read(1));
  }

  // ------------------------------------------------------------ every other lock

  ghost predicate SameOnOthers(lock: string, t: seq<Event>, t': seq<Event>) {
    forall l, s :: l != lock ==> LockRun(l, t', s) == LockRun(l, t, s)
  }

  /** An event on one lock is nothing to the others. */
  lemma SkipEvent(a: seq<Event>, u: Event, q: seq<Event>)
    ensures SameOnOthers(u.lock, a + ([u] + q), a + q)
  {
    forall l, s | l != u.lock
      ensures LockRun(l, a + q, s) == LockRun(l, a + ([u] + q), s)
    {
      LockRunAppend(l, a, [u] + q, s);
      LockRunAppend(l, a, q, s);
      var x := LockRun(l, a, s);
      if x.Some? {
        LockRunAppend(l, [u], q, x.value);
        assert LockRun(l, [u], x.value) == x;
      }
    }
  }

  lemma MovedOthers(a: seq<Event>, t: seq<Event>, q: seq<Event>, u: Event)
    ensures SameOnOthers(u.lock, a + (t + ([u] + q)), a + ([u] + (t + q)))
  {
    hide LockRun;
    SkipEvent(a, u, t + q);
    SkipEvent(a + t, u, q);
    assert (a + t) + ([u] + q) == a + (t + ([u] + q)) && (a + t) + q == a + (t + q);
  }

  lemma SwappedEvent(a: seq<Event>, u: Event, u': Event, q: seq<Event>)
    requires u.lock == u'.lock
    ensures SameOnOthers(u.lock, a + ([u] + q), a + ([u'] + q))
  {
    hide LockRun;
    SkipEvent(a, u, q);
    SkipEvent(a, u', q);
  }

  lemma PairOthers(a: seq<Event>, t: seq<Event>, q: seq<Event>, lock: string)
    ensures SameOnOthers(lock, a + ([Event(Lock, lock)] + (t + ([Event(Unlock, lock)] + q))),
                         a + ([Event(RLock, lock)] + (t + ([Event(RUnlock, lock)] + q))))
  {
    hide LockRun;
    var e, f, e', f' := Event(Lock, lock), Event(Unlock, lock), Event(RLock, lock), Event(RUnlock, lock);
    SwappedEvent(a, e, e', t + ([f] + q));
    SwappedEvent(a + ([e'] + t), f, f', q);
    assert (a + ([e'] + t)) + ([f] + q) == a + ([e'] + (t + ([f] + q)));
    assert (a + ([e'] + t)) + ([f'] + q) == a + ([e'] + (t + ([f'] + q)));
  }

  // ------------------------------------------------------------ the rest of the function

  /** The rest of one run of the function around the block: the lock operations
      before and after it, and the calls deferred before and after it. */
  datatype Around = Around(before: seq<Event>, deferred: seq<Event>, after: seq<Event>, later: seq<Event>)

  /** Every lock operation of the run, deferred calls included. */
  function WholeTrace(c: Around, o: Outcome): seq<Event>
    requires o.Done?
  {
    c.before + o.trace + c.after + Reverse(c.deferred + o.defers + c.later)
  }

  // ------------------------------------------------------------ runs of a block

  /** Same way out and same variables. */
  ghost predicate SameEnd(o: Outcome, o': Outcome) {
    o.Done? && o'.Done? && o'.exit == o.exit && o'.vars == o.vars
  }

  /** What running x and then y does, given what each does. */
  lemma ThenRun(x: seq<Stmt>, y: seq<Stmt>, v: Store, fuel: nat)
    requires Falls(ExecAll(x, v, fuel))
    ensures var o := ExecAll(x, v, fuel);
      ExecAll(x + y, v, fuel) == Prepend(o.trace, o.defers, ExecAll(y, o.vars, fuel))
  {
    ExecAppend(x, y, v, fuel);
  }

  lemma StopRun(x: seq<Stmt>, y: seq<Stmt>, v: Store, fuel: nat)
    requires !Falls(ExecAll(x, v, fuel))
    ensures ExecAll(x + y, v, fuel) == ExecAll(x, v, fuel)
  {
    ExecAppend(x, y, v, fuel);
  }

  // ------------------------------------------------------------ operator 2

  lemma EscapedPieces(b: seq<Stmt>, j: nat, lock: string)
    requires 0 < j < |b| && b[j] == Sync(Event(Unlock, lock))
    ensures b == b[..j - 1] + ([b[j - 1]] + ([Sync(Event(Unlock, lock))] + b[j + 1..]))
    ensures Escaped(b, j) == b[..j - 1] + ([Sync(Event(Unlock, lock))] + ([b[j - 1]] + b[j + 1..]))
  {
  }

  /** What the moved statement a and the rest z do, from the store pre leaves. */
  lemma EscapedTails(a: Stmt, z: seq<Stmt>, ev: Event, v: Store, fuel: nat)
    ensures var o := Exec(a, v, fuel);
      var (t, t') := (ExecAll([a] + ([Sync(ev)] + z), v, fuel), ExecAll([Sync(ev)] + ([a] + z), v, fuel));
      if Falls(o) then
        var end := ExecAll(z, o.vars, fuel);
        && t == Prepend(o.trace, o.defers, Prepend([ev], [], end))
        && t' == Prepend([ev], [], Prepend(o.trace, o.defers, end))
      else t == o && t' == Prepend([ev], [], o)
  {
    ExecOne(a, v, fuel);
    SyncThen(ev, [a] + z, v, fuel);
    var o := Exec(a, v, fuel);
    if Falls(o) {
      ThenRun([a], [Sync(ev)] + z, v, fuel);
      ThenRun([a], z, v, fuel);
      SyncThen(ev, z, o.vars, fuel);
    } else {
      StopRun([a], [Sync(ev)] + z, v, fuel);
      StopRun([a], z, v, fuel);
    }
  }

  /** What follows the block: the rest of the function and the deferred calls. */
  function Ending(c: Around, defers: seq<Event>): seq<Event> {
    c.after + Reverse(c.deferred + defers + c.later)
  }

  lemma Flatten2(a: seq<Event>, p: seq<Event>, x: seq<Event>, y: seq<Event>, r: seq<Event>, r': seq<Event>)
    ensures a + (p + (x + y)) + r + r' == (a + p) + (x + (y + (r + r')))
  {
  }

  lemma Flatten3(a: seq<Event>, p: seq<Event>, x: seq<Event>, y: seq<Event>, z: seq<Event>, r: seq<Event>, r': seq<Event>)
    ensures a + (p + (x + (y + z))) + r + r' == (a + p) + (x + (y + (z + (r + r'))))
  {
    Flatten2(a, p, x, y + z, r, r');
    assert (y + z) + (r + r') == y + (z + (r + r'));
  }

  lemma EscapedOutcomes(c: Around, p: Outcome, o: Outcome, end: Outcome, ev: Event, s: LockState,
                        all: Outcome, all': Outcome)
    requires p.Done? && o.Done? && ev.op == Unlock
    requires all == Prepend(p.trace, p.defers, Prepend(o.trace, o.defers, Prepend([ev], [], end)))
    requires all' == Prepend(p.trace, p.defers, Prepend([ev], [], Prepend(o.trace, o.defers, end)))
    requires all.Done? && LockRun(ev.lock, WholeTrace(c, all), s).Some?
    ensures SameEnd(all, all') && SameOnOthers(ev.lock, WholeTrace(c, all), WholeTrace(c, all'))
    ensures LockRun(ev.lock, WholeTrace(c, all'), s) == LockRun(ev.lock, WholeTrace(c, all), s)
       <==> Silent(o.trace, ev.lock)
  {
    hide LockRun, Silent, Reverse, SameOnOthers;
    assert [] + end.defers == end.defers && [] + (o.defers + end.defers) == o.defers + end.defers;
    var d := Reverse(c.deferred + all.defers + c.later);
    var rest := end.trace + Ending(c, all.defers);
    Flatten3(c.before, p.trace, o.trace, [ev], end.trace, c.after, d);
    Flatten3(c.before, p.trace, [ev], o.trace, end.trace, c.after, d);
    MovedUnlock(c.before + p.trace, o.trace, rest, ev.lock, s);
    MovedOthers(c.before + p.trace, o.trace, rest, ev);
  }

  lemma EscapedExit(c: Around, p: Outcome, o: Outcome, ev: Event, s: LockState, all: Outcome, all': Outcome)
    requires p.Done? && o.Done? && ev.op == Unlock
    requires all == Prepend(p.trace, p.defers, o) && all' == Prepend(p.trace, p.defers, Prepend([ev], [], o))
    requires LockRun(ev.lock, WholeTrace(c, all), s).Some?
    ensures SameEnd(all, all') && SameOnOthers(ev.lock, WholeTrace(c, all), WholeTrace(c, all'))
    ensures LockRun(ev.lock, WholeTrace(c, all'), s) != LockRun(ev.lock, WholeTrace(c, all), s)
  {
    hide LockRun, Reverse;
    assert [] + o.defers == o.defers;
    var d := Reverse(c.deferred + all.defers + c.later);
    var rest := o.trace + Ending(c, all.defers);
    Flatten2(c.before, p.trace, [ev], o.trace, c.after, d);
    Flatten2(c.before, p.trace, [], o.trace, c.after, d);
    assert [] + o.trace == o.trace && [] + rest == rest;
    StrayUnlock(c.before + p.trace, rest, ev.lock, s);
    SkipEvent(c.before + p.trace, ev, rest);
  }

  /** What the plain escape asks of one run: the moved statement was not reached,
      or it fell through and performed no operation on the lock. */
  ghost predicate CrossesQuietly(b: seq<Stmt>, j: nat, lock: string, v: Store, fuel: nat)
    requires 0 < j < |b|
  {
    var pre := ExecAll(b[..j - 1], v, fuel);
    Falls(pre) ==>
      var o := Exec(b[j - 1], pre.vars, fuel);
      Falls(o) && Silent(o.trace, lock)
  }

  /** Operator 2 on one run of a block, exactly: wherever the original runs, the
      edited block leaves the same way with the same variables, every other lock is
      as it was, and this one ends in the same state if and only if the moved
      statement crossed quietly. */
  lemma EscapeKeepsLockExactlyWhen(c: Around, b: seq<Stmt>, i: nat, j: nat, lock: string,
                                   v: Store, fuel: nat, s: LockState)
    requires OffersEscape(b, i, j, lock) && ExecAll(b, v, fuel).Done?
    requires LockRun(lock, WholeTrace(c, ExecAll(b, v, fuel)), s).Some?
    ensures var (o, o') := (ExecAll(b, v, fuel), ExecAll(Escaped(b, j), v, fuel));
      && SameEnd(o, o') && SameOnOthers(lock, WholeTrace(c, o), WholeTrace(c, o'))
      && (LockRun(lock, WholeTrace(c, o'), s) == LockRun(lock, WholeTrace(c, o), s)
          <==> CrossesQuietly(b, j, lock, v, fuel))
  {
    var ev, x, a, z := Event(Unlock, lock), b[..j - 1], b[j - 1], b[j + 1..];
    var pre := ExecAll(x, v, fuel);
    var tail, tail' := [a] + ([Sync(ev)] + z), [Sync(ev)] + ([a] + z);
    assert b == x + tail && Escaped(b, j) == x + tail' by {
      EscapedPieces(b, j, lock);
    }
    var all, all' := ExecAll(b, v, fuel), ExecAll(Escaped(b, j), v, fuel);
    hide Escaped, OffersEscape, ExecAll, Exec, LockRun, Silent, WholeTrace;
    if Falls(pre) {
      ThenRun(x, tail, v, fuel);
      ThenRun(x, tail', v, fuel);
      EscapedTails(a, z, ev, pre.vars, fuel);
      var o := Exec(a, pre.vars, fuel);
      if Falls(o) {
        EscapedOutcomes(c, pre, o, ExecAll(z, o.vars, fuel), ev, s, all, all');
      } else {
        EscapedExit(c, pre, o, ev, s, all, all');
      }
    } else {
      StopRun(x, tail, v, fuel);
      StopRun(x, tail', v, fuel);
    }
  }

  // ------------------------------------------------------------ operator 1, plain Unlock

  lemma DowngradedSplit(b: seq<Stmt>, i: nat, j: nat, lock: string)
    requires i < j < |b| && b[i] == Sync(Event(Lock, lock)) && IsUnlock(b[j], lock)
    ensures b == b[..i] + ([b[i]] + (b[i + 1..j] + ([b[j]] + b[j + 1..])))
    ensures Downgraded(b, i, j, lock)
         == b[..i] + ([Sync(Event(RLock, lock))]
                      + (b[i + 1..j] + ([b[j].(ev := Event(RUnlock, lock))] + b[j + 1..])))
  {
    SplitAtPair(b, i, j);
    SplitAtPair(Downgraded(b, i, j, lock), i, j);
    DowngradedPieces(b, i, j, lock);
  }

  /** Lock e, the section m, Unlock f and the rest z. */
  lemma SectionTail(e: Event, m: seq<Stmt>, f: Event, z: seq<Stmt>, v: Store, fuel: nat)
    ensures var o := ExecAll(m, v, fuel);
      ExecAll([Sync(e)] + (m + ([Sync(f)] + z)), v, fuel)
      == Prepend([e], [], if Falls(o) then Prepend(o.trace, o.defers, Prepend([f], [], ExecAll(z, o.vars, fuel))) else o)
  {
    var o := ExecAll(m, v, fuel);
    SyncThen(e, m + ([Sync(f)] + z), v, fuel);
    if Falls(o) {
      ThenRun(m, [Sync(f)] + z, v, fuel);
      SyncThen(f, z, o.vars, fuel);
    } else {
      StopRun(m, [Sync(f)] + z, v, fuel);
    }
  }

  lemma Flatten4(a: seq<Event>, p: seq<Event>, x: seq<Event>, t: seq<Event>, y: seq<Event>, z: seq<Event>,
                 r: seq<Event>, r': seq<Event>)
    ensures a + (p + (x + (t + (y + z)))) + r + r' == (a + p) + (x + (t + (y + (z + (r + r')))))
  {
    Flatten3(a, p, x, t, y + z, r, r');
    assert (y + z) + (r + r') == y + (z + (r + r'));
  }

  lemma SectionOutcomes(c: Around, p: Outcome, o: Outcome, end: Outcome, lock: string, s: LockState,
                        all: Outcome, all': Outcome)
    requires p.Done? && o.Done?
    requires all == Prepend(p.trace, p.defers, Prepend([Event(Lock, lock)], [],
                      Prepend(o.trace, o.defers, Prepend([Event(Unlock, lock)], [], end))))
    requires all' == Prepend(p.trace, p.defers, Prepend([Event(RLock, lock)], [],
                       Prepend(o.trace, o.defers, Prepend([Event(RUnlock, lock)], [], end))))
    requires all.Done? && LockRun(lock, WholeTrace(c, all), s).Some?
    ensures SameEnd(all, all') && SameOnOthers(lock, WholeTrace(c, all), WholeTrace(c, all'))
    ensures LockRun(lock, WholeTrace(c, all'), s) == LockRun(lock, WholeTrace(c, all), s) <==> Silent(o.trace, lock)
  {
    hide LockRun, Silent, Reverse, SameOnOthers;
    var e, f, e', f' := Event(Lock, lock), Event(Unlock, lock), Event(RLock, lock), Event(RUnlock, lock);
    var d := Reverse(c.deferred + all.defers + c.later);
    var rest := end.trace + Ending(c, all.defers);
    Flatten4(c.before, p.trace, [e], o.trace, [f], end.trace, c.after, d);
    Flatten4(c.before, p.trace, [e'], o.trace, [f'], end.trace, c.after, d);
    DowngradedPair(c.before + p.trace, o.trace, rest, lock, s);
    PairOthers(c.before + p.trace, o.trace, rest, lock);
  }

  /** A downgraded Lock, when the Unlock of the pair was never reached. */
  lemma HeldOutcomes(c: Around, p: Outcome, o: Outcome, lock: string, s: LockState, all: Outcome, all': Outcome)
    requires p.Done? && o.Done?
    requires all == Prepend(p.trace, p.defers, Prepend([Event(Lock, lock)], [], o))
    requires all' == Prepend(p.trace, p.defers, Prepend([Event(RLock, lock)], [], o))
    requires LockRun(lock, WholeTrace(c, all), s).Some?
    ensures SameEnd(all, all') && SameOnOthers(lock, WholeTrace(c, all), WholeTrace(c, all'))
    ensures LockRun(lock, WholeTrace(c, all'), s) != LockRun(lock, WholeTrace(c, all), s)
  {
    hide LockRun, Reverse, SameOnOthers;
    var e, e' := Event(Lock, lock), Event(RLock, lock);
    var d := Reverse(c.deferred + all.defers + c.later);
    var rest := o.trace + Ending(c, all.defers);
    Flatten2(c.before, p.trace, [e], o.trace, c.after, d);
    Flatten2(c.before, p.trace, [e'], o.trace, c.after, d);
    DowngradedAlone(c.before + p.trace, rest, lock, s);
    SwappedEvent(c.before + p.trace, e, e', rest);
  }

  /** What the plain downgrade asks of one run: the Lock was not reached, or the
      section fell through to the Unlock and performed no operation on the lock. */
  ghost predicate SectionQuiet(b: seq<Stmt>, i: nat, j: nat, lock: string, v: Store, fuel: nat)
    requires i < j < |b|
  {
    var pre := ExecAll(b[..i], v, fuel);
    Falls(pre) ==>
      var o := ExecAll(b[i + 1..j], pre.vars, fuel);
      Falls(o) && Silent(o.trace, lock)
  }

  /** Operator 1 against a plain Unlock on one run of a block, exactly. */
  lemma DowngradeKeepsLockExactlyWhen(c: Around, b: seq<Stmt>, i: nat, j: nat, lock: string,
                                      v: Store, fuel: nat, s: LockState)
    requires IsPair(b, i, j, lock) && b[i] == Sync(Event(Lock, lock)) && b[j].Sync?
    requires ExecAll(b, v, fuel).Done? && LockRun(lock, WholeTrace(c, ExecAll(b, v, fuel)), s).Some?
    ensures var (o, o') := (ExecAll(b, v, fuel), ExecAll(Downgraded(b, i, j, lock), v, fuel));
      && SameEnd(o, o') && SameOnOthers(lock, WholeTrace(c, o), WholeTrace(c, o'))
      && (LockRun(lock, WholeTrace(c, o'), s) == LockRun(lock, WholeTrace(c, o), s)
          <==> SectionQuiet(b, i, j, lock, v, fuel))
  {
    var e, f, e', f' := Event(Lock, lock), Event(Unlock, lock), Event(RLock, lock), Event(RUnlock, lock);
    var x, m, z := b[..i], b[i + 1..j], b[j + 1..];
    var pre := ExecAll(x, v, fuel);
    var tail, tail' := [Sync(e)] + (m + ([Sync(f)] + z)), [Sync(e')] + (m + ([Sync(f')] + z));
    assert b == x + tail && Downgraded(b, i, j, lock) == x + tail' by {
      DowngradedSplit(b, i, j, lock);
    }
    var all, all' := ExecAll(b, v, fuel), ExecAll(Downgraded(b, i, j, lock), v, fuel);
    hide Downgraded, IsPair, ExecAll, LockRun, Silent, WholeTrace;
    if Falls(pre) {
      ThenRun(x, tail, v, fuel);
      ThenRun(x, tail', v, fuel);
      SectionTail(e, m, f, z, pre.vars, fuel);
      SectionTail(e', m, f', z, pre.vars, fuel);
      var o := ExecAll(m, pre.vars, fuel);
      if Falls(o) {
        SectionOutcomes(c, pre, o, ExecAll(z, o.vars, fuel), lock, s, all, all');
      } else {
        HeldOutcomes(c, pre, o, lock, s, all, all');
      }
    } else {
      StopRun(x, tail, v, fuel);
      StopRun(x, tail', v, fuel);
    }
  }

  // ------------------------------------------------------------ deferred Unlocks

  /** What the run does once the block's own part is over: the calls deferred in
      the block from `own` on come first among the ones it leaves behind. */
  function Remainder(c: Around, trace: seq<Event>, own: seq<Event>): seq<Event> {
    trace + c.after + Reverse(own + c.later)
  }

  lemma ReverseAround(a: seq<Event>, f: Event, b: seq<Event>)
    ensures Reverse(a + ([f] + b)) == Reverse(b) + ([f] + Reverse(a))
  {
    FlushAround(a, f, b);
    assert a + ([f] + b) == a + [f] + b;
    assert Reverse(b) + ([f] + Reverse(a)) == Reverse(b) + [f] + Reverse(a);
  }

  // ------------------------------------------------------------ operator 2b

  lemma UndeferredPieces(b: seq<Stmt>, j: nat, lock: string)
    requires j + 2 < |b| && b[j] == Defer(Event(Unlock, lock))
    ensures var (x, g, last) := (b[..j], b[j + 1..|b| - 1], b[|b| - 1]);
      && b == x + ([Defer(Event(Unlock, lock))] + (g + [last]))
      && Undeferred(b, j, lock) == x + (g + ([Sync(Event(Unlock, lock))] + [last]))
  {
  }

  /** The deferred and the plain form after x, when the region g fell through. */
  lemma UndeferredRuns(x: seq<Stmt>, g: seq<Stmt>, last: Stmt, ev: Event, v: Store, fuel: nat)
    requires Falls(ExecAll(x, v, fuel)) && Falls(ExecAll(g, ExecAll(x, v, fuel).vars, fuel))
    ensures var p := ExecAll(x, v, fuel);
      var o := ExecAll(g, p.vars, fuel);
      var end := Exec(last, o.vars, fuel);
      && ExecAll(x + ([Defer(ev)] + (g + [last])), v, fuel)
         == Prepend(p.trace, p.defers, Prepend(o.trace, [ev] + o.defers, end))
      && ExecAll(x + (g + ([Sync(ev)] + [last])), v, fuel)
         == Prepend(p.trace, p.defers, Prepend(o.trace + [ev], o.defers, end))
  {
    var p := ExecAll(x, v, fuel);
    ThenRun(x, [Defer(ev)] + (g + [last]), v, fuel);
    ThenRun(x, g + ([Sync(ev)] + [last]), v, fuel);
    DeferredOutcome(ev, g, last, p.vars, fuel);
  }

  /** The same when g did not fall through: the plain Unlock is never reached. */
  lemma UndeferredStops(x: seq<Stmt>, g: seq<Stmt>, last: Stmt, ev: Event, v: Store, fuel: nat)
    requires Falls(ExecAll(x, v, fuel)) && !Falls(ExecAll(g, ExecAll(x, v, fuel).vars, fuel))
    ensures var p := ExecAll(x, v, fuel);
      var o := ExecAll(g, p.vars, fuel);
      && ExecAll(x + ([Defer(ev)] + (g + [last])), v, fuel) == Prepend(p.trace, p.defers, Prepend([], [ev], o))
      && ExecAll(x + (g + ([Sync(ev)] + [last])), v, fuel) == Prepend(p.trace, p.defers, o)
  {
    var p := ExecAll(x, v, fuel);
    ThenRun(x, [Defer(ev)] + (g + [last]), v, fuel);
    ThenRun(x, g + ([Sync(ev)] + [last]), v, fuel);
    DeferThen(ev, g + [last], p.vars, fuel);
    StopRun(g, [last], p.vars, fuel);
    StopRun(g, [Sync(ev)] + [last], p.vars, fuel);
  }

  /** What the two forms of a block run to. */
  lemma UndeferredForms(b: seq<Stmt>, j: nat, lock: string, v: Store, fuel: nat)
    requires j + 2 < |b| && b[j] == Defer(Event(Unlock, lock))
    ensures var (p, all, all') := (ExecAll(b[..j], v, fuel), ExecAll(b, v, fuel), ExecAll(Undeferred(b, j, lock), v, fuel));
      if !Falls(p) then all == p && all' == p
      else
        var (ev, o) := (Event(Unlock, lock), ExecAll(b[j + 1..|b| - 1], p.vars, fuel));
        if !Falls(o) then
          all == Prepend(p.trace, p.defers, Prepend([], [ev], o)) && all' == Prepend(p.trace, p.defers, o)
        else
          var end := Exec(b[|b| - 1], o.vars, fuel);
          && all == Prepend(p.trace, p.defers, Prepend(o.trace, [ev] + o.defers, end))
          && all' == Prepend(p.trace, p.defers, Prepend(o.trace + [ev], o.defers, end))
  {
    var ev, x, g, last := Event(Unlock, lock), b[..j], b[j + 1..|b| - 1], b[|b| - 1];
    UndeferredPieces(b, j, lock);
    hide Undeferred, ExecAll, Exec, Prepend;
    var p := ExecAll(x, v, fuel);
    if !Falls(p) {
      StopRun(x, [Defer(ev)] + (g + [last]), v, fuel);
      StopRun(x, g + ([Sync(ev)] + [last]), v, fuel);
    } else if Falls(ExecAll(g, p.vars, fuel)) {
      UndeferredRuns(x, g, last, ev, v, fuel);
    } else {
      UndeferredStops(x, g, last, ev, v, fuel);
    }
  }

  lemma RegroupDefers(c: seq<Event>, p: seq<Event>, x: seq<Event>, l: seq<Event>)
    ensures c + (p + x) + l == (c + p) + (x + l)
  {
  }

  lemma RegroupTrace(a: seq<Event>, b: seq<Event>, x: seq<Event>, y: seq<Event>, z: seq<Event>, r: seq<Event>)
    ensures a + (b + x) + y + (z + r) == (a + b) + ((x + y + z) + r)
  {
  }

  lemma RegroupLate(a: seq<Event>, o: seq<Event>, x: seq<Event>, r: seq<Event>)
    ensures a + ((o + x) + r) == (a + o) + (x + r)
  {
  }

  lemma RegroupEarly(a: seq<Event>, o: seq<Event>, u: seq<Event>, x: seq<Event>, r: seq<Event>)
    ensures a + (((o + u) + x) + r) == (a + o) + (u + (x + r))
  {
  }

  lemma RegroupThree(o: seq<Event>, e: seq<Event>, y: seq<Event>, z: seq<Event>)
    ensures (o + e) + y + z == o + (e + y + z)
  {
  }

  /** The whole trace of an outcome reached after p. */
  lemma WholeAfter(c: Around, p: Outcome, t: seq<Event>, own: seq<Event>, x: Exit, v: Store)
    requires p.Done?
    ensures WholeTrace(c, Prepend(p.trace, p.defers, Done(x, v, t, own)))
         == (c.before + p.trace) + (Remainder(c, t, own) + Reverse(c.deferred + p.defers))
  {
    RegroupDefers(c.deferred, p.defers, own, c.later);
    ReverseAppend(c.deferred + p.defers, own + c.later);
    RegroupTrace(c.before, p.trace, t, c.after, Reverse(own + c.later), Reverse(c.deferred + p.defers));
  }

  /** The same when the first call deferred after p was f. */
  lemma WholeAfterDefer(c: Around, p: Outcome, t: seq<Event>, f: Event, own: seq<Event>, x: Exit, v: Store)
    requires p.Done?
    ensures WholeTrace(c, Prepend(p.trace, p.defers, Done(x, v, t, [f] + own)))
         == (c.before + p.trace) + (Remainder(c, t, own) + ([f] + Reverse(c.deferred + p.defers)))
  {
    RegroupDefers(c.deferred, p.defers, [f] + own, c.later);
    assert ([f] + own) + c.later == [f] + (own + c.later);
    ReverseAround(c.deferred + p.defers, f, own + c.later);
    RegroupTrace(c.before, p.trace, t, c.after, Reverse(own + c.later), [f] + Reverse(c.deferred + p.defers));
  }

  /** Traces of the two forms when g fell through. */
  lemma UndeferredTraces(c: Around, p: Outcome, o: Outcome, end: Outcome, ev: Event)
    requires p.Done? && o.Done? && end.Done?
    ensures var a, q := (c.before + p.trace) + o.trace, Reverse(c.deferred + p.defers);
      var r := Remainder(c, end.trace, o.defers + end.defers);
      && WholeTrace(c, Prepend(p.trace, p.defers, Prepend(o.trace, [ev] + o.defers, end))) == a + (r + ([ev] + q))
      && WholeTrace(c, Prepend(p.trace, p.defers, Prepend(o.trace + [ev], o.defers, end))) == a + ([ev] + (r + q))
  {
    hide WholeTrace, Reverse;
    var own, q := o.defers + end.defers, Reverse(c.deferred + p.defers);
    assert ([ev] + o.defers) + end.defers == [ev] + own;
    WholeAfterDefer(c, p, o.trace + end.trace, ev, own, end.exit, end.vars);
    WholeAfter(c, p, (o.trace + [ev]) + end.trace, own, end.exit, end.vars);
    var z, r := Reverse(own + c.later), Remainder(c, end.trace, own);
    RegroupThree(o.trace, end.trace, c.after, z);
    RegroupThree(o.trace + [ev], end.trace, c.after, z);
    RegroupLate(c.before + p.trace, o.trace, r, [ev] + q);
    RegroupEarly(c.before + p.trace, o.trace, [ev], r, q);
  }

  /** Traces of the two forms when g did not fall through. */
  lemma LeakedTraces(c: Around, p: Outcome, o: Outcome, ev: Event)
    requires p.Done? && o.Done?
    ensures var a, q := (c.before + p.trace) + Remainder(c, o.trace, o.defers), Reverse(c.deferred + p.defers);
      && WholeTrace(c, Prepend(p.trace, p.defers, Prepend([], [ev], o))) == a + ([ev] + q)
      && WholeTrace(c, Prepend(p.trace, p.defers, o)) == a + q
  {
    hide WholeTrace, Reverse, Remainder;
    assert [] + o.trace == o.trace;
    WholeAfterDefer(c, p, o.trace, ev, o.defers, o.exit, o.vars);
    WholeAfter(c, p, o.trace, o.defers, o.exit, o.vars);
    var a, r, q := c.before + p.trace, Remainder(c, o.trace, o.defers), Reverse(c.deferred + p.defers);
    assert a + (r + ([ev] + q)) == (a + r) + ([ev] + q) && a + (r + q) == (a + r) + q;
  }

  lemma UndeferredOutcomes(c: Around, p: Outcome, o: Outcome, end: Outcome, ev: Event, s: LockState,
                           all: Outcome, all': Outcome)
    requires p.Done? && o.Done? && ev.op == Unlock
    requires all == Prepend(p.trace, p.defers, Prepend(o.trace, [ev] + o.defers, end))
    requires all' == Prepend(p.trace, p.defers, Prepend(o.trace + [ev], o.defers, end))
    requires all.Done? && LockRun(ev.lock, WholeTrace(c, all), s).Some?
    ensures end.Done? && SameEnd(all, all') && SameOnOthers(ev.lock, WholeTrace(c, all), WholeTrace(c, all'))
    ensures LockRun(ev.lock, WholeTrace(c, all'), s) == LockRun(ev.lock, WholeTrace(c, all), s)
       <==> Silent(Remainder(c, end.trace, o.defers + end.defers), ev.lock)
  {
    hide LockRun, Silent, WholeTrace, Remainder, Reverse;
    UndeferredTraces(c, p, o, end, ev);
    MovedUnlock((c.before + p.trace) + o.trace, Remainder(c, end.trace, o.defers + end.defers),
                Reverse(c.deferred + p.defers), ev.lock, s);
    MovedOthers((c.before + p.trace) + o.trace, Remainder(c, end.trace, o.defers + end.defers),
                Reverse(c.deferred + p.defers), ev);
  }

  lemma LeakedOutcomes(c: Around, p: Outcome, o: Outcome, ev: Event, s: LockState, all: Outcome, all': Outcome)
    requires p.Done? && o.Done? && ev.op == Unlock
    requires all == Prepend(p.trace, p.defers, Prepend([], [ev], o)) && all' == Prepend(p.trace, p.defers, o)
    requires LockRun(ev.lock, WholeTrace(c, all), s).Some?
    ensures SameEnd(all, all') && SameOnOthers(ev.lock, WholeTrace(c, all), WholeTrace(c, all'))
    ensures LockRun(ev.lock, WholeTrace(c, all'), s) != LockRun(ev.lock, WholeTrace(c, all), s)
  {
    hide LockRun, WholeTrace, Remainder, Reverse;
    LeakedTraces(c, p, o, ev);
    LostUnlock((c.before + p.trace) + Remainder(c, o.trace, o.defers), Reverse(c.deferred + p.defers), ev.lock, s);
    SkipEvent((c.before + p.trace) + Remainder(c, o.trace, o.defers), ev, Reverse(c.deferred + p.defers));
  }

  /** What the undeferred escape asks of one run: the defer was not reached, or
      the covered region fell through and, from the escaping statement to the calls
      deferred after the Unlock's own, nothing operated on the lock. */
  ghost predicate EscapesQuietly(c: Around, b: seq<Stmt>, j: nat, lock: string, v: Store, fuel: nat)
    requires j + 2 < |b|
  {
    var pre := ExecAll(b[..j], v, fuel);
    Falls(pre) ==>
      var o := ExecAll(b[j + 1..|b| - 1], pre.vars, fuel);
      && Falls(o)
      && var end := Exec(b[|b| - 1], o.vars, fuel);
         end.Done? && Silent(Remainder(c, end.trace, o.defers + end.defers), lock)
  }

  /** Operator 2b on one run, exactly, with or without exitsIn's veto, whatever
      the function does around the block. */
  lemma UndeferKeepsLockExactlyWhen(c: Around, b: seq<Stmt>, j: nat, lock: string, v: Store, fuel: nat, s: LockState)
    requires j + 2 < |b| && b[j] == Defer(Event(Unlock, lock))
    requires ExecAll(b, v, fuel).Done?
    requires LockRun(lock, WholeTrace(c, ExecAll(b, v, fuel)), s).Some?
    ensures var (o, o') := (ExecAll(b, v, fuel), ExecAll(Undeferred(b, j, lock), v, fuel));
      && SameEnd(o, o') && SameOnOthers(lock, WholeTrace(c, o), WholeTrace(c, o'))
      && (LockRun(lock, WholeTrace(c, o'), s) == LockRun(lock, WholeTrace(c, o), s)
          <==> EscapesQuietly(c, b, j, lock, v, fuel))
  {
    var ev := Event(Unlock, lock);
    var p := ExecAll(b[..j], v, fuel);
    var all, all' := ExecAll(b, v, fuel), ExecAll(Undeferred(b, j, lock), v, fuel);
    UndeferredForms(b, j, lock, v, fuel);
    hide *;
    if Falls(p) {
      var o := ExecAll(b[j + 1..|b| - 1], p.vars, fuel);
      if Falls(o) {
        UndeferredOutcomes(c, p, o, Exec(b[|b| - 1], o.vars, fuel), ev, s, all, all');
      } else {
        LeakedOutcomes(c, p, o, ev, s, all, all');
      }
    }
  }

  // ------------------------------------------------------------ operator 1, deferred Unlock

  /** Lock e, the statements m up to the deferred Unlock f, and the rest z. */
  lemma DeferredSectionRuns(x: seq<Stmt>, e: Event, m: seq<Stmt>, f: Event, z: seq<Stmt>, v: Store, fuel: nat)
    requires Falls(ExecAll(x, v, fuel))
    ensures var p := ExecAll(x, v, fuel);
      var o := ExecAll(m, p.vars, fuel);
      ExecAll(x + ([Sync(e)] + (m + ([Defer(f)] + z))), v, fuel)
      == Prepend(p.trace, p.defers,
                 Prepend([e], [], if Falls(o) then Prepend(o.trace, o.defers + [f], ExecAll(z, o.vars, fuel)) else o))
  {
    var p := ExecAll(x, v, fuel);
    var o := ExecAll(m, p.vars, fuel);
    ThenRun(x, [Sync(e)] + (m + ([Defer(f)] + z)), v, fuel);
    SyncThen(e, m + ([Defer(f)] + z), p.vars, fuel);
    if Falls(o) {
      ThenRun(m, [Defer(f)] + z, p.vars, fuel);
      DeferThen(f, z, o.vars, fuel);
      PrependPrepend(o.trace, o.defers, [], [f], ExecAll(z, o.vars, fuel));
      assert o.trace + [] == o.trace;
    } else {
      StopRun(m, [Defer(f)] + z, p.vars, fuel);
    }
  }

  lemma RegroupPair(p: seq<Event>, e: Event, t: seq<Event>, d: seq<Event>, o: seq<Event>, f: Event, l: seq<Event>)
    ensures (p + [e]) + t == p + ([e] + t)
    ensures (d + o) + ([f] + l) == d + ([] + ((o + [f]) + l))
  {
  }

  lemma DowngradedTraces(c: Around, p: Outcome, e: Event, o: Outcome, f: Event, end: Outcome)
    requires p.Done? && o.Done? && end.Done?
    ensures WholeTrace(c, Prepend(p.trace, p.defers, Prepend([e], [], Prepend(o.trace, o.defers + [f], end))))
         == (c.before + p.trace) + ([e] + (Remainder(c, o.trace + end.trace, end.defers)
                                          + ([f] + Reverse(c.deferred + p.defers + o.defers))))
  {
    hide WholeTrace, Reverse, Remainder;
    var p' := Done(p.exit, p.vars, p.trace + [e], p.defers + o.defers);
    var t := o.trace + end.trace;
    RegroupPair(p.trace, e, t, p.defers, o.defers, f, end.defers);
    WholeAfterDefer(c, p', t, f, end.defers, end.exit, end.vars);
    assert c.deferred + (p.defers + o.defers) == c.deferred + p.defers + o.defers;
    var r := Remainder(c, t, end.defers) + ([f] + Reverse(c.deferred + p.defers + o.defers));
    assert (c.before + (p.trace + [e])) + r == (c.before + p.trace) + ([e] + r);
  }

  lemma DowngradedOutcomes(c: Around, p: Outcome, o: Outcome, end: Outcome, lock: string, s: LockState,
                           all: Outcome, all': Outcome)
    requires p.Done? && o.Done?
    requires all == Prepend(p.trace, p.defers,
                            Prepend([Event(Lock, lock)], [], Prepend(o.trace, o.defers + [Event(Unlock, lock)], end)))
    requires all' == Prepend(p.trace, p.defers,
                             Prepend([Event(RLock, lock)], [], Prepend(o.trace, o.defers + [Event(RUnlock, lock)], end)))
    requires all.Done? && LockRun(lock, WholeTrace(c, all), s).Some?
    ensures end.Done? && SameEnd(all, all') && SameOnOthers(lock, WholeTrace(c, all), WholeTrace(c, all'))
    ensures LockRun(lock, WholeTrace(c, all'), s) == LockRun(lock, WholeTrace(c, all), s)
       <==> Silent(Remainder(c, o.trace + end.trace, end.defers), lock)
  {
    hide LockRun, Silent, WholeTrace, Remainder, Reverse;
    DowngradedTraces(c, p, Event(Lock, lock), o, Event(Unlock, lock), end);
    DowngradedTraces(c, p, Event(RLock, lock), o, Event(RUnlock, lock), end);
    DowngradedPair(c.before + p.trace, Remainder(c, o.trace + end.trace, end.defers),
                   Reverse(c.deferred + p.defers + o.defers), lock, s);
    PairOthers(c.before + p.trace, Remainder(c, o.trace + end.trace, end.defers),
               Reverse(c.deferred + p.defers + o.defers), lock);
  }

  /** What the downgrade against a deferred Unlock asks of one run: the Lock was
      not reached, or the defer was, and between the two locked calls, to the end
      of the function and through the calls deferred later, nothing operated on
      the lock. */
  ghost predicate StretchQuiet(c: Around, b: seq<Stmt>, i: nat, j: nat, lock: string, v: Store, fuel: nat)
    requires i < j < |b|
  {
    var pre := ExecAll(b[..i], v, fuel);
    Falls(pre) ==>
      var o := ExecAll(b[i + 1..j], pre.vars, fuel);
      && Falls(o)
      && var end := ExecAll(b[j + 1..], o.vars, fuel);
         end.Done? && Silent(Remainder(c, o.trace + end.trace, end.defers), lock)
  }

  /** Operator 1 against a deferred Unlock on one run, exactly. */
  lemma DowngradeDeferredKeepsLockExactlyWhen(c: Around, b: seq<Stmt>, i: nat, j: nat, lock: string,
                                              v: Store, fuel: nat, s: LockState)
    requires IsPair(b, i, j, lock) && b[i] == Sync(Event(Lock, lock)) && b[j].Defer?
    requires ExecAll(b, v, fuel).Done?
    requires LockRun(lock, WholeTrace(c, ExecAll(b, v, fuel)), s).Some?
    ensures var (o, o') := (ExecAll(b, v, fuel), ExecAll(Downgraded(b, i, j, lock), v, fuel));
      && SameEnd(o, o') && SameOnOthers(lock, WholeTrace(c, o), WholeTrace(c, o'))
      && (LockRun(lock, WholeTrace(c, o'), s) == LockRun(lock, WholeTrace(c, o), s)
          <==> StretchQuiet(c, b, i, j, lock, v, fuel))
  {
    var e, f, e', f' := Event(Lock, lock), Event(Unlock, lock), Event(RLock, lock), Event(RUnlock, lock);
    var x, m, z := b[..i], b[i + 1..j], b[j + 1..];
    var tail, tail' := [Sync(e)] + (m + ([Defer(f)] + z)), [Sync(e')] + (m + ([Defer(f')] + z));
    assert b == x + tail && Downgraded(b, i, j, lock) == x + tail' by {
      DowngradedSplit(b, i, j, lock);
    }
    var p := ExecAll(x, v, fuel);
    var all, all' := ExecAll(b, v, fuel), ExecAll(Downgraded(b, i, j, lock), v, fuel);
    hide Downgraded, IsPair, ExecAll, LockRun, Silent, WholeTrace, Remainder, Reverse, SameOnOthers, Prepend;
    if !Falls(p) {
      StopRun(x, tail, v, fuel);
      StopRun(x, tail', v, fuel);
    } else {
      DeferredSectionRuns(x, e, m, f, z, v, fuel);
      DeferredSectionRuns(x, e', m, f', z, v, fuel);
      var o := ExecAll(m, p.vars, fuel);
      if Falls(o) {
        DowngradedOutcomes(c, p, o, ExecAll(z, o.vars, fuel), lock, s, all, all');
      } else {
        HeldOutcomes(c, p, o, lock, s, all, all');
      }
    }
  }
}
