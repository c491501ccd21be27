/** The scar-free operators with a plain Unlock anywhere in a function, loops
    included: exactly which clean runs stay clean, over all visits of the block. */
module LockVisits {
  import opened Wrappers
  import opened LockProgram
  import opened LockEdits
  import opened LockExact

  // ------------------------------------------------------------ two traces of one run

  /** Where the original ends with the lock in state r, the mutant has faulted, or
      holds the lock differently while the original holds it for writing. */
  predicate Split(r: Option<LockState>, r': Option<LockState>) {
    r'.None? || (r == Some(Write) && r' != Some(Write))
  }

  ghost predicate SameOn(lock: string, t: seq<Event>, t': seq<Event>) {
    forall s :: LockRun(lock, t, s).Some? ==> LockRun(lock, t', s) == LockRun(lock, t, s)
  }

  ghost predicate Parts(lock: string, t: seq<Event>, t': seq<Event>) {
    forall s :: LockRun(lock, t, s).Some? ==> Split(LockRun(lock, t, s), LockRun(lock, t', s))
  }

  /** Once parted, parted for good. */
  ghost predicate StaysParted(lock: string, t: seq<Event>, t': seq<Event>) {
    forall s :: s != Write && LockRun(lock, t, Write).Some? ==>
      Split(LockRun(lock, t, Write), LockRun(lock, t', s))
  }

  lemma SameTraces(lock: string, t: seq<Event>)
    ensures SameOn(lock, t, t) && StaysParted(lock, t, t) && SameOnOthers(lock, t, t)
  {
    forall s | s != Write && LockRun(lock, t, Write).Some?
      ensures Split(LockRun(lock, t, Write), LockRun(lock, t, s))
    {
      NeverMeetsWrite(t, lock, s);
      if Silent(t, lock) {
        SilentRun(lock, t, Write);
      }
    }
  }

  lemma JoinStaysParted(lock: string, t: seq<Event>, t': seq<Event>, u: seq<Event>, u': seq<Event>)
    requires StaysParted(lock, t, t') && StaysParted(lock, u, u')
    ensures StaysParted(lock, t + u, t' + u')
  {
    forall s | s != Write && LockRun(lock, t + u, Write).Some?
      ensures Split(LockRun(lock, t + u, Write), LockRun(lock, t' + u', s))
    {
      LockRunAppend(lock, t, u, Write);
      LockRunAppend(lock, t', u', s);
    }
  }

  lemma JoinSame(lock: string, t: seq<Event>, t': seq<Event>, u: seq<Event>, u': seq<Event>)
    requires SameOn(lock, t, t') && SameOn(lock, u, u')
    ensures SameOn(lock, t + u, t' + u')
  {
    forall s | LockRun(lock, t + u, s).Some?
      ensures LockRun(lock, t' + u', s) == LockRun(lock, t + u, s)
    {
      LockRunAppend(lock, t, u, s);
      LockRunAppend(lock, t', u', s);
    }
  }

  lemma PartsFirst(lock: string, t: seq<Event>, t': seq<Event>, u: seq<Event>, u': seq<Event>)
    requires Parts(lock, t, t') && StaysParted(lock, u, u')
    ensures Parts(lock, t + u, t' + u')
  {
    forall s | LockRun(lock, t + u, s).Some?
      ensures Split(LockRun(lock, t + u, s), LockRun(lock, t' + u', s))
    {
      LockRunAppend(lock, t, u, s);
      LockRunAppend(lock, t', u', s);
    }
  }

  lemma PartsLater(lock: string, t: seq<Event>, t': seq<Event>, u: seq<Event>, u': seq<Event>)
    requires SameOn(lock, t, t') && Parts(lock, u, u')
    ensures Parts(lock, t + u, t' + u')
  {
    forall s | LockRun(lock, t + u, s).Some?
      ensures Split(LockRun(lock, t + u, s), LockRun(lock, t' + u', s))
    {
      LockRunAppend(lock, t, u, s);
      LockRunAppend(lock, t', u', s);
    }
  }

  lemma JoinOthers(lock: string, t: seq<Event>, t': seq<Event>, u: seq<Event>, u': seq<Event>)
    requires SameOnOthers(lock, t, t') && SameOnOthers(lock, u, u')
    ensures SameOnOthers(lock, t + u, t' + u')
  {
    forall l, s | l != lock
      ensures LockRun(l, t' + u', s) == LockRun(l, t + u, s)
    {
      LockRunAppend(l, t, u, s);
      LockRunAppend(l, t', u', s);
    }
  }

  // ------------------------------------------------------------ paired outcomes

  /** The original's outcome and the mutant's: alike in everything but the lock,
      the same on that too when the run was quiet, and parted on it when not. */
  ghost predicate Paired(lock: string, quiet: bool, o: Outcome, o': Outcome) {
    match (o, o')
    case (Timeout, Timeout) => true
    case (Done(x, v, t, d), Done(x', v', t', d')) =>
      && x == x' && v == v' && d == d'
      && SameOnOthers(lock, t, t') && StaysParted(lock, t, t')
      && (if quiet then SameOn(lock, t, t') else Parts(lock, t, t'))
    case _ => false
  }

  lemma PairedWithItself(lock: string, o: Outcome)
    ensures Paired(lock, true, o, o)
  {
    if o.Done? {
      SameTraces(lock, o.trace);
    }
  }

  lemma PairedJoin(lock: string, q: bool, o: Outcome, o': Outcome, r: bool, w: Outcome, w': Outcome)
    requires Paired(lock, q, o, o') && o.Done? && Paired(lock, r, w, w')
    ensures Paired(lock, q && r, Prepend(o.trace, o.defers, w), Prepend(o'.trace, o'.defers, w'))
  {
    hide SameOn, Parts, StaysParted, SameOnOthers;
    if w.Done? {
      var t, t', u, u' := o.trace, o'.trace, w.trace, w'.trace;
      JoinOthers(lock, t, t', u, u');
      JoinStaysParted(lock, t, t', u, u');
      if q && r {
        JoinSame(lock, t, t', u, u');
      } else if q {
        PartsLater(lock, t, t', u, u');
      } else {
        PartsFirst(lock, t, t', u, u');
      }
    }
  }

  // ------------------------------------------------------------ visits

  /** A path that enters no function literal. */
  ghost predicate Open(f: seq<Stmt>, p: Path): (r: bool)
    ensures r ==> Reaches(f, p)
    decreases p
  {
    match p
    case Here => true
    case Into(k, branch, rest) =>
      k < |f| && match (f[k], branch)
                 case (If(_, thn, _), Then) => Open(thn, rest)
                 case (If(_, _, els), Else) => Open(els, rest)
                 case (While(_, body), Body) => Open(body, rest)
                 case _ => false
  }

  function Inner(s: Stmt, branch: Branch): seq<Stmt>
    requires s.If? || s.While?
  {
    match s
    case If(_, thn, els) => if branch == Then then thn else els
    case While(_, body) => body
  }

  /** The store and the fuel with which a run gets to the block. */
  datatype Arrival = Arrival(at: Store, fuel: nat)

  predicate GoesOn(o: Outcome) {
    o.Done? && (o.exit == Fall || o.exit == Continued)
  }

  /** Every visit a run of f pays to the block at p, in order. */
  ghost function Visits(f: seq<Stmt>, p: Path, v: Store, fuel: nat): seq<Arrival>
    requires Open(f, p)
    decreases p, 0, 0
  {
    match p
    case Here => [Arrival(v, fuel)]
    case Into(k, branch, rest) =>
      var pre := ExecAll(f[..k], v, fuel);
      if Falls(pre) then StmtVisits(f[k], branch, rest, pre.vars, fuel) else []
  }

  ghost function StmtVisits(s: Stmt, branch: Branch, rest: Path, v: Store, fuel: nat): seq<Arrival>
    requires (s.If? && (branch == Then || branch == Else)) || s.While?
    requires Open(Inner(s, branch), rest)
    decreases rest, 1, fuel
  {
    match s
    case If(c, _, _) => if c(v) == (branch == Then) then Visits(Inner(s, branch), rest, v, fuel) else []
    case While(c, body) =>
      if !c(v) || fuel == 0 then []
      else
        var o := ExecAll(body, v, fuel);
        Visits(body, rest, v, fuel) + if GoesOn(o) then StmtVisits(s, branch, rest, o.vars, fuel - 1) else []
  }

  /** Quiet at every one of the visits. */
  ghost predicate AllQuiet(quiet: (Store, nat) -> bool, visits: seq<Arrival>) {
    forall i :: 0 <= i < |visits| ==> quiet(visits[i].at, visits[i].fuel)
  }

  lemma AllQuietAppend(quiet: (Store, nat) -> bool, a: seq<Arrival>, b: seq<Arrival>)
    ensures AllQuiet(quiet, a + b) <==> AllQuiet(quiet, a) && AllQuiet(quiet, b)
  {
    var ab := a + b;
    assert forall i :: 0 <= i < |a| ==> ab[i] == a[i];
    assert forall i :: 0 <= i < |b| ==> ab[|a| + i] == b[i];
  }

  /** The edited block against the original from every store. */
  ghost predicate PairedBlocks(lock: string, b: seq<Stmt>, b': seq<Stmt>, quiet: (Store, nat) -> bool) {
    forall v, fuel: nat :: Paired(lock, quiet(v, fuel), ExecAll(b, v, fuel), ExecAll(b', v, fuel))
  }

  // ------------------------------------------------------------ the whole run

  lemma BlockAtInner(f: seq<Stmt>, p: Path, b': seq<Stmt>)
    requires Open(f, p) && p.Into?
    ensures var (s, s') := (f[p.at], Replace(f, p, b')[p.at]);
      && ((s.If? && s'.If? && s'.c == s.c && (p.branch == Then || p.branch == Else))
          || (s.While? && s'.While? && s'.c == s.c && p.branch == Body))
      && Open(Inner(s, p.branch), p.rest)
      && BlockAt(f, p) == BlockAt(Inner(s, p.branch), p.rest)
      && Inner(s', p.branch) == Replace(Inner(s, p.branch), p.rest, b')
      && (s.If? && p.branch == Then ==> s'.els == s.els) && (s.If? && p.branch == Else ==> s'.thn == s.thn)
  {
    assert Open(Inner(f[p.at], p.branch), p.rest);
  }

  /** Around the statement that holds the block nothing differs. */
  lemma AroundStmt(f: seq<Stmt>, k: nat, s': Stmt, v: Store, fuel: nat, lock: string, q: bool)
    requires k < |f|
    requires var pre := ExecAll(f[..k], v, fuel);
      Falls(pre) ==> Paired(lock, q, Exec(f[k], pre.vars, fuel), Exec(s', pre.vars, fuel))
    requires !Falls(ExecAll(f[..k], v, fuel)) ==> q
    ensures Paired(lock, q, ExecAll(f, v, fuel), ExecAll(f[k := s'], v, fuel))
  {
    hide Paired;
    var x, z := f[..k], f[k + 1..];
    assert f == x + ([f[k]] + z) && f[k := s'] == x + ([s'] + z);
    ExecAppend(x, [f[k]] + z, v, fuel);
    ExecAppend(x, [s'] + z, v, fuel);
    var pre := ExecAll(x, v, fuel);
    PairedWithItself(lock, pre);
    if Falls(pre) {
      var o, o' := Exec(f[k], pre.vars, fuel), Exec(s', pre.vars, fuel);
      ExecOne(f[k], pre.vars, fuel);
      ExecOne(s', pre.vars, fuel);
      ExecAppend([f[k]], z, pre.vars, fuel);
      ExecAppend([s'], z, pre.vars, fuel);
      ThenSame(lock, q, o, o', z, fuel);
      PairedJoin(lock, true, pre, pre, q, ExecAll([f[k]] + z, pre.vars, fuel), ExecAll([s'] + z, pre.vars, fuel));
    }
  }

  lemma ThenSame(lock: string, q: bool, o: Outcome, o': Outcome, z: seq<Stmt>, fuel: nat)
    requires Paired(lock, q, o, o')
    ensures Paired(lock, q,
                   if Falls(o) then Prepend(o.trace, o.defers, ExecAll(z, o.vars, fuel)) else o,
                   if Falls(o') then Prepend(o'.trace, o'.defers, ExecAll(z, o'.vars, fuel)) else o')
  {
    if Falls(o) {
      PairedWithItself(lock, ExecAll(z, o.vars, fuel));
      PairedJoin(lock, q, o, o', true, ExecAll(z, o.vars, fuel), ExecAll(z, o.vars, fuel));
    }
  }

  /** Clean to the end of the function, or not, as the run was quiet or not. */
  lemma {:induction false} PairedRun(f: seq<Stmt>, p: Path, b': seq<Stmt>, lock: string, quiet: (Store, nat) -> bool,
                                     v: Store, fuel: nat)
    requires Open(f, p) && PairedBlocks(lock, BlockAt(f, p), b', quiet)
    ensures Paired(lock, AllQuiet(quiet, Visits(f, p, v, fuel)), ExecAll(f, v, fuel), ExecAll(Replace(f, p, b'), v, fuel))
    decreases p, 0, 0
  {
    if p.Here? {
      assert AllQuiet(quiet, [Arrival(v, fuel)]) <==> quiet(v, fuel) by { OneVisit(quiet, v, fuel); }
    } else {
      var k, f' := p.at, Replace(f, p, b');
      var s, s' := f[k], f'[k];
      BlockAtInner(f, p, b');
      assert f' == f[k := s'];
      var pre := ExecAll(f[..k], v, fuel);
      hide Paired, PairedBlocks, AllQuiet;
      if Falls(pre) {
        PairedStmtRun(s, s', p.branch, p.rest, b', lock, quiet, pre.vars, fuel);
      } else {
        NoVisits(quiet);
      }
      AroundStmt(f, k, s', v, fuel, lock, AllQuiet(quiet, Visits(f, p, v, fuel)));
    }
  }

  lemma NoVisits(quiet: (Store, nat) -> bool)
    ensures AllQuiet(quiet, [])
  {
  }

  lemma OneVisit(quiet: (Store, nat) -> bool, v: Store, fuel: nat)
    ensures AllQuiet(quiet, [Arrival(v, fuel)]) <==> quiet(v, fuel)
  {
    assert [Arrival(v, fuel)][0] == Arrival(v, fuel);
  }

  lemma {:induction false} PairedStmtRun(s: Stmt, s': Stmt, branch: Branch, rest: Path, b': seq<Stmt>, lock: string,
                                         quiet: (Store, nat) -> bool, v: Store, fuel: nat)
    requires (s.If? && s'.If? && s'.c == s.c && (branch == Then || branch == Else))
          || (s.While? && s'.While? && s'.c == s.c)
    requires Open(Inner(s, branch), rest)
    requires PairedBlocks(lock, BlockAt(Inner(s, branch), rest), b', quiet)
    requires Inner(s', branch) == Replace(Inner(s, branch), rest, b')
    requires s.If? && branch == Then ==> s'.els == s.els
    requires s.If? && branch == Else ==> s'.thn == s.thn
    ensures Paired(lock, AllQuiet(quiet, StmtVisits(s, branch, rest, v, fuel)), Exec(s, v, fuel), Exec(s', v, fuel))
    decreases rest, 1, fuel
  {
    var b := Inner(s, branch);
    hide Paired, PairedBlocks, AllQuiet, ExecAll, Exec, Visits, BlockAt, Replace, Open, Reaches;
    if s.If? && s.c(v) == (branch == Then) {
      PairedRun(b, rest, b', lock, quiet, v, fuel);
      IfTaken(s, s', branch, lock, AllQuiet(quiet, Visits(b, rest, v, fuel)), v, fuel);
    } else if s.If? {
      NoVisits(quiet);
      IfNotTaken(s, s', branch, lock, v, fuel);
    } else if !s.c(v) || fuel == 0 {
      NoVisits(quiet);
      LoopSkips(s.c, s.body, s'.body, lock, v, fuel);
    } else {
      PairedRun(b, rest, b', lock, quiet, v, fuel);
      var o := ExecAll(s.body, v, fuel);
      if GoesOn(o) {
        PairedStmtRun(s, s', branch, rest, b', lock, quiet, o.vars, fuel - 1);
      }
      PairedTurn(s, s', branch, rest, lock, quiet, v, fuel);
    }
  }

  /** One turn of the loop and what follows it. */
  lemma PairedTurn(s: Stmt, s': Stmt, branch: Branch, rest: Path, lock: string, quiet: (Store, nat) -> bool,
                   v: Store, fuel: nat)
    requires s.While? && s'.While? && s'.c == s.c && s.c(v) && fuel != 0 && Open(s.body, rest)
    requires Paired(lock, AllQuiet(quiet, Visits(s.body, rest, v, fuel)),
                    ExecAll(s.body, v, fuel), ExecAll(s'.body, v, fuel))
    requires var o := ExecAll(s.body, v, fuel);
      GoesOn(o) ==> Paired(lock, AllQuiet(quiet, StmtVisits(s, branch, rest, o.vars, fuel - 1)),
                           Exec(s, o.vars, fuel - 1), Exec(s', o.vars, fuel - 1))
    ensures Paired(lock, AllQuiet(quiet, StmtVisits(s, branch, rest, v, fuel)), Exec(s, v, fuel), Exec(s', v, fuel))
  {
    hide Paired, AllQuiet, ExecAll, Exec, Visits, Open;
    var o := ExecAll(s.body, v, fuel);
    var here := Visits(s.body, rest, v, fuel);
    if GoesOn(o) {
      var more := StmtVisits(s, branch, rest, o.vars, fuel - 1);
      AllQuietAppend(quiet, here, more);
      LoopGoesOn(s.c, s.body, s'.body, lock, AllQuiet(quiet, here), AllQuiet(quiet, more), v, fuel);
    } else {
      assert here + [] == here;
      LoopEnds(s.c, s.body, s'.body, lock, AllQuiet(quiet, here), v, fuel);
    }
  }

  lemma IfTaken(s: Stmt, s': Stmt, branch: Branch, lock: string, q: bool, v: Store, fuel: nat)
    requires s.If? && s'.If? && s'.c == s.c && (branch == Then || branch == Else) && s.c(v) == (branch == Then)
    requires Paired(lock, q, ExecAll(Inner(s, branch), v, fuel), ExecAll(Inner(s', branch), v, fuel))
    ensures Paired(lock, q, Exec(s, v, fuel), Exec(s', v, fuel))
  {
    hide Paired, ExecAll;
  }

  lemma IfNotTaken(s: Stmt, s': Stmt, branch: Branch, lock: string, v: Store, fuel: nat)
    requires s.If? && s'.If? && s'.c == s.c && (branch == Then || branch == Else) && s.c(v) != (branch == Then)
    requires branch == Then ==> s'.els == s.els
    requires branch == Else ==> s'.thn == s.thn
    ensures Paired(lock, true, Exec(s, v, fuel), Exec(s', v, fuel))
  {
    hide Paired, ExecAll;
    PairedWithItself(lock, Exec(s, v, fuel));
  }

  lemma LoopSkips(c: Store -> bool, body: seq<Stmt>, body': seq<Stmt>, lock: string, v: Store, fuel: nat)
    requires !c(v) || fuel == 0
    ensures Paired(lock, true, Exec(While(c, body), v, fuel), Exec(While(c, body'), v, fuel))
  {
    hide Paired, ExecAll;
    PairedWithItself(lock, Exec(While(c, body), v, fuel));
  }

  lemma LoopGoesOn(c: Store -> bool, body: seq<Stmt>, body': seq<Stmt>, lock: string, q: bool, r: bool,
                   v: Store, fuel: nat)
    requires c(v) && fuel != 0 && GoesOn(ExecAll(body, v, fuel))
    requires Paired(lock, q, ExecAll(body, v, fuel), ExecAll(body', v, fuel))
    requires var w := ExecAll(body, v, fuel).vars;
      Paired(lock, r, Exec(While(c, body), w, fuel - 1), Exec(While(c, body'), w, fuel - 1))
    ensures Paired(lock, q && r, Exec(While(c, body), v, fuel), Exec(While(c, body'), v, fuel))
  {
    var o, o' := ExecAll(body, v, fuel), ExecAll(body', v, fuel);
    PairedShape(lock, q, o, o');
    hide Paired, ExecAll;
    PairedJoin(lock, q, o, o', r, Exec(While(c, body), o.vars, fuel - 1), Exec(While(c, body'), o.vars, fuel - 1));
  }

  lemma LoopEnds(c: Store -> bool, body: seq<Stmt>, body': seq<Stmt>, lock: string, q: bool, v: Store, fuel: nat)
    requires c(v) && fuel != 0 && !GoesOn(ExecAll(body, v, fuel))
    requires Paired(lock, q, ExecAll(body, v, fuel), ExecAll(body', v, fuel))
    ensures Paired(lock, q, Exec(While(c, body), v, fuel), Exec(While(c, body'), v, fuel))
  {
    var o, o' := ExecAll(body, v, fuel), ExecAll(body', v, fuel);
    PairedShape(lock, q, o, o');
    PairedExit(lock, q, o, o');
    hide Paired, ExecAll;
  }

  lemma PairedShape(lock: string, q: bool, o: Outcome, o': Outcome)
    requires Paired(lock, q, o, o')
    ensures o.Done? == o'.Done? && (o.Done? ==> SameEnd(o, o') && o'.defers == o.defers)
  {
  }

  /** A loop that is left by a break falls through. */
  lemma PairedExit(lock: string, q: bool, o: Outcome, o': Outcome)
    requires Paired(lock, q, o, o')
    ensures o.Done? && o.exit == Broke ==> Paired(lock, q, o.(exit := Fall), o'.(exit := Fall))
  {
  }

  // ------------------------------------------------------------ what the end of the function shows

  /** A clean run of the original shows, at its end, whether the mutant parted. */
  lemma CleanWhenQuiet(f: seq<Stmt>, f': seq<Stmt>, lock: string, q: bool, v: Store, fuel: nat)
    requires EndsClean(f, v, fuel) && Paired(lock, q, ExecAll(f, v, fuel), ExecAll(f', v, fuel))
    ensures EndsClean(f', v, fuel) <==> q
  {
    hide ExecAll, LockRun;
    var o, o' := ExecAll(f, v, fuel), ExecAll(f', v, fuel);
    var d := Reverse(o.defers);
    SameTraces(lock, d);
    JoinOthers(lock, o.trace, o'.trace, d, d);
    assert LockRun(lock, o.trace + d, Free) == Some(Free);
    if q {
      JoinSame(lock, o.trace, o'.trace, d, d);
      forall l
        ensures LockRun(l, o'.trace + d, Free) == Some(Free)
      {
        assert LockRun(l, o.trace + d, Free) == Some(Free);
      }
    } else {
      PartsFirst(lock, o.trace, o'.trace, d, d);
      assert LockRun(lock, o'.trace + d, Free) != Some(Free);
    }
  }

  // ------------------------------------------------------------ operator 2

  lemma NoisyMove(a: seq<Event>, t: seq<Event>, q: seq<Event>, lock: string, s: LockState)
    requires !Silent(t, lock)
    requires LockRun(lock, a + (t + ([Event(Unlock, lock)] + q)), s).Some?
    ensures LockRun(lock, a + ([Event(Unlock, lock)] + (t + q)), s).None?
  {
    var u := Event(Unlock, lock);
    SamePrefix(lock, a, t + ([u] + q), [u] + (t + q), s);
    var x := LockRun(lock, a, s).value;
    LockRunAppend(lock, t, [u] + q, x);
    RunCons(u, t + q, x);
    LockRunAppend(lock, t, q, Free);
    if x == Write {
      NeverMeetsWrite(t, lock, Free);
    }
  }

  lemma StrayParts(a: seq<Event>, t: seq<Event>, lock: string)
    ensures Parts(lock, a + t, a + ([Event(Unlock, lock)] + t))
  {
    var u := Event(Unlock, lock);
    forall s | LockRun(lock, a + t, s).Some?
      ensures Split(LockRun(lock, a + t, s), LockRun(lock, a + ([u] + t), s))
    {
      SamePrefix(lock, a, t, [u] + t, s);
      var x := LockRun(lock, a, s).value;
      RunCons(u, t, x);
      if x == Write {
        NeverMeetsWrite(t, lock, Free);
        if Silent(t, lock) {
          SilentRun(lock, t, Write);
        }
      }
    }
  }

  /** After a prefix that operates on the lock, nothing parted comes together. */
  lemma NoisyPrefixStaysParted(lock: string, a: seq<Event>, t: seq<Event>, t': seq<Event>)
    requires !Silent(a, lock)
    ensures StaysParted(lock, a + t, a + t')
  {
    forall s | s != Write && LockRun(lock, a + t, Write).Some?
      ensures Split(LockRun(lock, a + t, Write), LockRun(lock, a + t', s))
    {
      LockRunAppend(lock, a, t, Write);
      LockRunAppend(lock, a, t', s);
      NeverMeetsWrite(a, lock, s);
    }
  }

  lemma MovedIsSame(a: seq<Event>, t: seq<Event>, q: seq<Event>, lock: string)
    requires Silent(t, lock)
    ensures SameOn(lock, a + (t + ([Event(Unlock, lock)] + q)), a + ([Event(Unlock, lock)] + (t + q)))
  {
    forall s | LockRun(lock, a + (t + ([Event(Unlock, lock)] + q)), s).Some?
      ensures LockRun(lock, a + ([Event(Unlock, lock)] + (t + q)), s)
           == LockRun(lock, a + (t + ([Event(Unlock, lock)] + q)), s)
    {
      MovedUnlock(a, t, q, lock, s);
    }
  }

  lemma MovedParts(a: seq<Event>, t: seq<Event>, q: seq<Event>, lock: string)
    requires !Silent(t, lock)
    ensures Parts(lock, a + (t + ([Event(Unlock, lock)] + q)), a + ([Event(Unlock, lock)] + (t + q)))
  {
    forall s | LockRun(lock, a + (t + ([Event(Unlock, lock)] + q)), s).Some?
      ensures LockRun(lock, a + ([Event(Unlock, lock)] + (t + q)), s).None?
    {
      NoisyMove(a, t, q, lock, s);
    }
  }

  lemma FallingMovePaired(p: Outcome, o: Outcome, end: Outcome, ev: Event, all: Outcome, all': Outcome)
    requires p.Done? && o.Done? && ev.op == Unlock && !Silent(p.trace, ev.lock)
    requires all == Prepend(p.trace, p.defers, Prepend(o.trace, o.defers, Prepend([ev], [], end)))
    requires all' == Prepend(p.trace, p.defers, Prepend([ev], [], Prepend(o.trace, o.defers, end)))
    ensures Paired(ev.lock, Silent(o.trace, ev.lock), all, all')
  {
    hide LockRun, Silent, SameOn, Parts, StaysParted, SameOnOthers;
    if end.Done? {
      assert [] + end.defers == end.defers && [] + (o.defers + end.defers) == o.defers + end.defers;
      MovedOthers(p.trace, o.trace, end.trace, ev);
      NoisyPrefixStaysParted(ev.lock, p.trace, o.trace + ([ev] + end.trace), [ev] + (o.trace + end.trace));
      if Silent(o.trace, ev.lock) {
        MovedIsSame(p.trace, o.trace, end.trace, ev.lock);
      } else {
        MovedParts(p.trace, o.trace, end.trace, ev.lock);
      }
    }
  }

  lemma ExitingMovePaired(p: Outcome, o: Outcome, ev: Event, all: Outcome, all': Outcome)
    requires p.Done? && ev.op == Unlock && !Silent(p.trace, ev.lock)
    requires all == Prepend(p.trace, p.defers, o) && all' == Prepend(p.trace, p.defers, Prepend([ev], [], o))
    ensures Paired(ev.lock, false, all, all')
  {
    hide LockRun, Silent, SameOn, Parts, StaysParted;
    if o.Done? {
      assert [] + o.defers == o.defers;
      SkipEvent(p.trace, ev, o.trace);
      NoisyPrefixStaysParted(ev.lock, p.trace, o.trace, [ev] + o.trace);
      StrayParts(p.trace, o.trace, ev.lock);
    }
  }

  /** What falls through a statement list that holds a plain Lock locked it. */
  lemma LockedPrefix(x: seq<Stmt>, i: nat, ev: Event, v: Store, fuel: nat)
    requires i < |x| && x[i] == Sync(ev) && Falls(ExecAll(x, v, fuel))
    ensures !Silent(ExecAll(x, v, fuel).trace, ev.lock)
  {
    var a, z := x[..i], x[i + 1..];
    assert x == a + ([Sync(ev)] + z);
    ExecAppend(a, [Sync(ev)] + z, v, fuel);
    var o := ExecAll(a, v, fuel);
    SyncThen(ev, z, o.vars, fuel);
    var end := ExecAll(z, o.vars, fuel);
    assert ExecAll(x, v, fuel).trace == o.trace + ([ev] + end.trace);
    assert (o.trace + ([ev] + end.trace))[|o.trace|] == ev;
  }

  lemma EscapedBlockPaired(b: seq<Stmt>, i: nat, j: nat, lock: string, v: Store, fuel: nat)
    requires OffersEscape(b, i, j, lock)
    ensures Paired(lock, CrossesQuietly(b, j, lock, v, fuel), ExecAll(b, v, fuel), ExecAll(Escaped(b, j), v, fuel))
  {
    var ev, x, a, z := Event(Unlock, lock), b[..j - 1], b[j - 1], b[j + 1..];
    var pre := ExecAll(x, v, fuel);
    var tail, tail' := [a] + ([Sync(ev)] + z), [Sync(ev)] + ([a] + z);
    assert b == x + tail && Escaped(b, j) == x + tail' by {
      EscapedPieces(b, j, lock);
    }
    assert x[i] == Sync(Event(Lock, lock));
    var all, all' := ExecAll(b, v, fuel), ExecAll(Escaped(b, j), v, fuel);
    hide Escaped, OffersEscape, ExecAll, Exec, LockRun, Silent, Paired, Prepend;
    if Falls(pre) {
      ThenRun(x, tail, v, fuel);
      ThenRun(x, tail', v, fuel);
      EscapedTails(a, z, ev, pre.vars, fuel);
      LockedPrefix(x, i, Event(Lock, lock), v, fuel);
      var o := Exec(a, pre.vars, fuel);
      if Falls(o) {
        FallingMovePaired(pre, o, ExecAll(z, o.vars, fuel), ev, all, all');
      } else {
        ExitingMovePaired(pre, o, ev, all, all');
      }
    } else {
      StopRun(x, tail, v, fuel);
      StopRun(x, tail', v, fuel);
      PairedWithItself(lock, pre);
    }
  }

  ghost function Crossing(b: seq<Stmt>, j: nat, lock: string): (Store, nat) -> bool
    requires 0 < j < |b|
  {
    (v: Store, fuel: nat) => CrossesQuietly(b, j, lock, v, fuel)
  }

  /** Operator 2 anywhere in a function outside its literals, on any run that ends
      clean: the mutant ends clean exactly when the moved statement crossed quietly
      at every visit the run paid to the block. */
  lemma EscapeStaysCleanExactlyWhen(f: seq<Stmt>, p: Path, i: nat, j: nat, lock: string, v: Store, fuel: nat)
    requires Open(f, p) && OffersEscape(BlockAt(f, p), i, j, lock) && EndsClean(f, v, fuel)
    ensures var b := BlockAt(f, p);
      EndsClean(Replace(f, p, Escaped(b, j)), v, fuel) <==> AllQuiet(Crossing(b, j, lock), Visits(f, p, v, fuel))
  {
    var b := BlockAt(f, p);
    hide ExecAll, Paired, EndsClean, CrossesQuietly, Escaped, AllQuiet;
    forall w, left: nat
      ensures Paired(lock, Crossing(b, j, lock)(w, left), ExecAll(b, w, left), ExecAll(Escaped(b, j), w, left))
    {
      EscapedBlockPaired(b, i, j, lock, w, left);
    }
    PairedRun(f, p, Escaped(b, j), lock, Crossing(b, j, lock), v, fuel);
    CleanWhenQuiet(f, Replace(f, p, Escaped(b, j)), lock, AllQuiet(Crossing(b, j, lock), Visits(f, p, v, fuel)), v, fuel);
  }

  // ------------------------------------------------------------ operator 1, plain Unlock

  /** The original cannot lock a lock it already holds for writing. */
  lemma LockAfterWrite(lock: string, a: seq<Event>, t: seq<Event>, t': seq<Event>)
    ensures StaysParted(lock, a + ([Event(Lock, lock)] + t), a + t')
  {
    var e := Event(Lock, lock);
    forall s | s != Write && LockRun(lock, a + ([e] + t), Write).Some?
      ensures Split(LockRun(lock, a + ([e] + t), Write), LockRun(lock, a + t', s))
    {
      LockRunAppend(lock, a, [e] + t, Write);
      LockRunAppend(lock, a, t', s);
      RunCons(e, t, LockRun(lock, a, Write).value);
      if Silent(a, lock) {
        SilentRun(lock, a, Write);
      }
      NeverMeetsWrite(a, lock, s);
    }
  }

  lemma DowngradeIsSame(a: seq<Event>, t: seq<Event>, q: seq<Event>, lock: string)
    requires Silent(t, lock)
    ensures SameOn(lock, a + ([Event(Lock, lock)] + (t + ([Event(Unlock, lock)] + q))),
                   a + ([Event(RLock, lock)] + (t + ([Event(RUnlock, lock)] + q))))
  {
    forall s | LockRun(lock, a + ([Event(Lock, lock)] + (t + ([Event(Unlock, lock)] + q))), s).Some?
      ensures LockRun(lock, a + ([Event(RLock, lock)] + (t + ([Event(RUnlock, lock)] + q))), s)
           == LockRun(lock, a + ([Event(Lock, lock)] + (t + ([Event(Unlock, lock)] + q))), s)
    {
      DowngradedPair(a, t, q, lock, s);
    }
  }

  /** A downgraded Lock parts from the original for as long as nothing silent
      brings them to the Unlock. */
  lemma HeldParts(a: seq<Event>, t: seq<Event>, t': seq<Event>, u: seq<Event>, lock: string)
    requires t == u || (!Silent(u, lock) && exists w, w' :: t == u + w && t' == u + w')
    requires t == u ==> t' == u
    ensures Parts(lock, a + ([Event(Lock, lock)] + t), a + ([Event(RLock, lock)] + t'))
  {
    var e, e' := Event(Lock, lock), Event(RLock, lock);
    forall s | LockRun(lock, a + ([e] + t), s).Some?
      ensures Split(LockRun(lock, a + ([e] + t), s), LockRun(lock, a + ([e'] + t'), s))
    {
      SamePrefix(lock, a, [e] + t, [e'] + t', s);
      var x := LockRun(lock, a, s).value;
      RunCons(e, t, x);
      RunCons(e', t', x);
      if t != u {
        var w, w' :| t == u + w && t' == u + w';
        LockRunAppend(lock, u, w, Write);
        LockRunAppend(lock, u, w', Read(1));
      }
      NeverMeetsWrite(u, lock, Read(1));
      if Silent(u, lock) {
        SilentRun(lock, u, Write);
      }
    }
  }

  lemma FallingSectionPaired(p: Outcome, o: Outcome, end: Outcome, lock: string, all: Outcome, all': Outcome)
    requires p.Done? && o.Done?
    requires all == Prepend(p.trace, p.defers, Prepend([Event(Lock, lock)], [],
                      Prepend(o.trace, o.defers, Prepend([Event(Unlock, lock)], [], end))))
    requires all' == Prepend(p.trace, p.defers, Prepend([Event(RLock, lock)], [],
                       Prepend(o.trace, o.defers, Prepend([Event(RUnlock, lock)], [], end))))
    ensures Paired(lock, Silent(o.trace, lock), all, all')
  {
    hide LockRun, Silent, SameOn, Parts, StaysParted, SameOnOthers;
    if end.Done? {
      var rest := o.trace + ([Event(Unlock, lock)] + end.trace);
      var rest' := o.trace + ([Event(RUnlock, lock)] + end.trace);
      PairOthers(p.trace, o.trace, end.trace, lock);
      LockAfterWrite(lock, p.trace, rest, [Event(RLock, lock)] + rest');
      if Silent(o.trace, lock) {
        DowngradeIsSame(p.trace, o.trace, end.trace, lock);
      } else {
        HeldParts(p.trace, rest, rest', o.trace, lock);
      }
    }
  }

  lemma ExitingSectionPaired(p: Outcome, o: Outcome, lock: string, all: Outcome, all': Outcome)
    requires p.Done?
    requires all == Prepend(p.trace, p.defers, Prepend([Event(Lock, lock)], [], o))
    requires all' == Prepend(p.trace, p.defers, Prepend([Event(RLock, lock)], [], o))
    ensures Paired(lock, false, all, all')
  {
    hide LockRun, Silent, SameOn, Parts, StaysParted, SameOnOthers;
    if o.Done? {
      SwappedEvent(p.trace, Event(Lock, lock), Event(RLock, lock), o.trace);
      LockAfterWrite(lock, p.trace, o.trace, [Event(RLock, lock)] + o.trace);
      HeldParts(p.trace, o.trace, o.trace, o.trace, lock);
    }
  }

  lemma DowngradedBlockPaired(b: seq<Stmt>, i: nat, j: nat, lock: string, v: Store, fuel: nat)
    requires IsPair(b, i, j, lock) && b[i] == Sync(Event(Lock, lock)) && b[j].Sync?
    ensures Paired(lock, SectionQuiet(b, i, j, lock, v, fuel), ExecAll(b, v, fuel),
                   ExecAll(Downgraded(b, i, j, lock), v, fuel))
  {
    var e, f, e', f' := Event(Lock, lock), Event(Unlock, lock), Event(RLock, lock), Event(RUnlock, lock);
    var x, m, z := b[..i], b[i + 1..j], b[j + 1..];
    var pre := ExecAll(x, v, fuel);
    var tail, tail' := [Sync(e)] + (m + ([Sync(f)] + z)), [Sync(e')] + (m + ([Sync(f')] + z));
    assert b == x + tail && Downgraded(b, i, j, lock) == x + tail' by {
      DowngradedSplit(b, i, j, lock);
    }
    var all, all' := ExecAll(b, v, fuel), ExecAll(Downgraded(b, i, j, lock), v, fuel);
    hide Downgraded, IsPair, ExecAll, LockRun, Silent, Paired, Prepend;
    if Falls(pre) {
      ThenRun(x, tail, v, fuel);
      ThenRun(x, tail', v, fuel);
      SectionTail(e, m, f, z, pre.vars, fuel);
      SectionTail(e', m, f', z, pre.vars, fuel);
      var o := ExecAll(m, pre.vars, fuel);
      if Falls(o) {
        FallingSectionPaired(pre, o, ExecAll(z, o.vars, fuel), lock, all, all');
      } else {
        ExitingSectionPaired(pre, o, lock, all, all');
      }
    } else {
      StopRun(x, tail, v, fuel);
      StopRun(x, tail', v, fuel);
      PairedWithItself(lock, pre);
    }
  }

  ghost function Section(b: seq<Stmt>, i: nat, j: nat, lock: string): (Store, nat) -> bool
    requires i < j < |b|
  {
    (v: Store, fuel: nat) => SectionQuiet(b, i, j, lock, v, fuel)
  }

  /** Operator 1 against a plain Unlock likewise: exactly when the section was quiet
      at every visit. */
  lemma DowngradeStaysCleanExactlyWhen(f: seq<Stmt>, p: Path, i: nat, j: nat, lock: string, v: Store, fuel: nat)
    requires Open(f, p) && EndsClean(f, v, fuel)
    requires IsPair(BlockAt(f, p), i, j, lock) && BlockAt(f, p)[i] == Sync(Event(Lock, lock)) && BlockAt(f, p)[j].Sync?
    ensures var b := BlockAt(f, p);
      EndsClean(Replace(f, p, Downgraded(b, i, j, lock)), v, fuel)
      <==> AllQuiet(Section(b, i, j, lock), Visits(f, p, v, fuel))
  {
    var b := BlockAt(f, p);
    var b' := Downgraded(b, i, j, lock);
    hide ExecAll, Paired, EndsClean, SectionQuiet, Downgraded, AllQuiet;
    forall w, left: nat
      ensures Paired(lock, Section(b, i, j, lock)(w, left), ExecAll(b, w, left), ExecAll(b', w, left))
    {
      DowngradedBlockPaired(b, i, j, lock, w, left);
    }
    PairedRun(f, p, b', lock, Section(b, i, j, lock), v, fuel);
    CleanWhenQuiet(f, Replace(f, p, b'), lock, AllQuiet(Section(b, i, j, lock), Visits(f, p, v, fuel)), v, fuel);
  }
}
