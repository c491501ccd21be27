/** The scar-free operators with a deferred Unlock in a whole function: exactly
    which clean runs stay clean, when one visit at most gets past the defer. */
module LockDeferred {
  import opened Wrappers
  import opened LockProgram
  import opened LockEdits
  import opened LockExact
  import opened LockVisits

  // ------------------------------------------------------------ a run around one visit

  /** Around nothing: the block is the function's whole body. */
  const ALONE: Around := Around([], [], [], [])

  function Widened(c: Around, before: Outcome, end: Outcome): Around
    requires before.Done? && end.Done?
  {
    Around(before.trace + c.before, before.defers + c.deferred, c.after + end.trace, c.later + end.defers)
  }

  /** What follows a statement that did u. */
  function Sequel(z: seq<Stmt>, u: Outcome, fuel: nat): Outcome
    requires u.Done?
  {
    if u.exit == Fall then ExecAll(z, u.vars, fuel) else u.(trace := [], defers := [])
  }

  /** pre, then u, then end. */
  function Joined(pre: Outcome, u: Outcome, end: Outcome): Outcome
    requires pre.Done? && u.Done?
  {
    match end
    case Timeout => Timeout
    case Done(x, v, t, d) => Done(x, v, pre.trace + (u.trace + t), pre.defers + (u.defers + d))
  }

  /** t is what happens when the block does o. */
  ghost predicate Surrounds(c: Around, o: Outcome, t: Outcome) {
    && o.Done? && t.Done?
    && t.trace == c.before + o.trace + c.after
    && t.defers == c.deferred + o.defers + c.later
  }

  lemma Wider(c: Around, pre: Outcome, o: Outcome, u: Outcome, end: Outcome)
    requires pre.Done? && end.Done? && Surrounds(c, o, u)
    ensures Surrounds(Widened(c, pre, end), o, Joined(pre, u, end))
  {
    Nest(pre.trace, c.before, o.trace, c.after, end.trace);
    Nest(pre.defers, c.deferred, o.defers, c.later, end.defers);
  }

  lemma Nest(x: seq<Event>, a: seq<Event>, o: seq<Event>, b: seq<Event>, y: seq<Event>)
    ensures x + ((a + o + b) + y) == (x + a) + o + (b + y)
  {
  }

  /** o around which t happens, and the same with o' when it ends alike. */
  ghost predicate SurroundsBoth(c: Around, o: Outcome, o': Outcome, t: Outcome, t': Outcome) {
    && Surrounds(c, o, t)
    && (SameEnd(o, o') ==> SameEnd(t, t') && Surrounds(c, o', t'))
  }

  lemma WidenBoth(c: Around, pre: Outcome, o: Outcome, o': Outcome, u: Outcome, u': Outcome, end: Outcome,
                  t: Outcome, t': Outcome)
    requires pre.Done? && end.Done? && SurroundsBoth(c, o, o', u, u') && t == Joined(pre, u, end)
    requires SameEnd(u, u') ==> t' == Joined(pre, u', end)
    ensures SurroundsBoth(Widened(c, pre, end), o, o', t, t')
  {
    Wider(c, pre, o, u, end);
    if SameEnd(o, o') {
      Wider(c, pre, o', u', end);
    }
  }

  lemma AloneSurrounds(o: Outcome, o': Outcome)
    requires o.Done?
    ensures SurroundsBoth(ALONE, o, o', o, o')
  {
    assert [] + o.trace + [] == o.trace && [] + o.defers + [] == o.defers;
    if o'.Done? {
      assert [] + o'.trace + [] == o'.trace && [] + o'.defers + [] == o'.defers;
    }
  }

  // ------------------------------------------------------------ the visit that counts

  /** Where a run is when it gets past the point that matters, and what it does
      around that visit. */
  datatype Context = Context(at: Arrival, around: Around)

  /** How many of the visits get there. */
  ghost function Reached(reaches: (Store, nat) -> bool, visits: seq<Arrival>): nat {
    if visits == [] then 0
    else (if reaches(visits[0].at, visits[0].fuel) then 1 else 0) + Reached(reaches, visits[1..])
  }

  lemma {:induction false} ReachedAppend(reaches: (Store, nat) -> bool, a: seq<Arrival>, b: seq<Arrival>)
    ensures Reached(reaches, a + b) == Reached(reaches, a) + Reached(reaches, b)
  {
    if a == [] {
      assert a + b == b;
    } else {
      assert (a + b)[1..] == a[1..] + b;
      ReachedAppend(reaches, a[1..], b);
    }
  }

  lemma ReachedOne(reaches: (Store, nat) -> bool, v: Store, fuel: nat)
    ensures Reached(reaches, [Arrival(v, fuel)]) == if reaches(v, fuel) then 1 else 0
    ensures Reached(reaches, []) == 0
  {
    assert [Arrival(v, fuel)][1..] == [];
  }

  /** Doing nothing, and leaving as o did. */
  function Nothing(o: Outcome): Outcome
    requires o.Done?
  {
    o.(trace := [], defers := [])
  }

  ghost function Shifted(c: Option<Context>, pre: Outcome, end: Outcome): Option<Context> {
    if c.None? || !pre.Done? || !end.Done? then None
    else Some(Context(c.value.at, Widened(c.value.around, pre, end)))
  }

  /** The first visit of the run that gets there, and the run around it. */
  ghost function ContextOf(f: seq<Stmt>, p: Path, reaches: (Store, nat) -> bool, v: Store, fuel: nat): Option<Context>
    requires Open(f, p)
    decreases p, 0, 0
  {
    match p
    case Here => if reaches(v, fuel) then Some(Context(Arrival(v, fuel), ALONE)) else None
    case Into(k, branch, rest) =>
      var pre := ExecAll(f[..k], v, fuel);
      if !Falls(pre) then None
      else
        var u := Exec(f[k], pre.vars, fuel);
        if !u.Done? then None
        else Shifted(StmtContext(f[k], branch, rest, reaches, pre.vars, fuel), pre, Sequel(f[k + 1..], u, fuel))
  }

  ghost function StmtContext(s: Stmt, branch: Branch, rest: Path, reaches: (Store, nat) -> bool,
                             v: Store, fuel: nat): Option<Context>
    requires (s.If? && (branch == Then || branch == Else)) || s.While?
    requires Open(Inner(s, branch), rest)
    decreases rest, 1, fuel
  {
    match s
    case If(c, _, _) => if c(v) == (branch == Then) then ContextOf(Inner(s, branch), rest, reaches, v, fuel) else None
    case While(c, body) =>
      if !c(v) || fuel == 0 then None
      else
        var o, here := ExecAll(body, v, fuel), ContextOf(body, rest, reaches, v, fuel);
        if !o.Done? then None
        else if !GoesOn(o) then here
        else if here.Some? then Shifted(here, Nothing(o), Exec(s, o.vars, fuel - 1))
        else
          var end := Exec(s, o.vars, fuel - 1);
          if end.Timeout? then None
          else Shifted(StmtContext(s, branch, rest, reaches, o.vars, fuel - 1), o, Nothing(end))
  }

  /** What n visits that get there say about the two runs. */
  ghost predicate Related(c: Option<Context>, n: nat, b: seq<Stmt>, b': seq<Stmt>, t: Outcome, t': Outcome) {
    && (n == 0 ==> c.None? && t' == t)
    && (n == 1 && t.Done? ==>
          && c.Some?
          && SurroundsBoth(c.value.around, ExecAll(b, c.value.at.at, c.value.at.fuel),
                           ExecAll(b', c.value.at.at, c.value.at.fuel), t, t'))
  }

  /** The edit shows only on visits that get there. */
  ghost predicate ShowsWhen(b: seq<Stmt>, b': seq<Stmt>, reaches: (Store, nat) -> bool) {
    forall v, fuel: nat :: !reaches(v, fuel) ==> ExecAll(b', v, fuel) == ExecAll(b, v, fuel)
  }

  lemma StmtInBlock(f: seq<Stmt>, k: nat, v: Store, fuel: nat)
    requires k < |f|
    ensures var pre := ExecAll(f[..k], v, fuel);
      if !Falls(pre) then ExecAll(f, v, fuel) == pre
      else
        var u := Exec(f[k], pre.vars, fuel);
        ExecAll(f, v, fuel) == if u.Done? then Joined(pre, u, Sequel(f[k + 1..], u, fuel)) else Timeout
  {
    var x, z := f[..k], f[k + 1..];
    assert f == x + ([f[k]] + z);
    ExecAppend(x, [f[k]] + z, v, fuel);
    var pre := ExecAll(x, v, fuel);
    if Falls(pre) {
      ExecOne(f[k], pre.vars, fuel);
      ExecAppend([f[k]], z, pre.vars, fuel);
      var u := Exec(f[k], pre.vars, fuel);
      if u.Done? && u.exit != Fall {
        assert u.trace + [] == u.trace && u.defers + [] == u.defers;
      }
    }
  }

  lemma RelatedAround(f: seq<Stmt>, k: nat, s': Stmt, v: Store, fuel: nat, c: Option<Context>, n: nat,
                      b: seq<Stmt>, b': seq<Stmt>)
    requires k < |f|
    requires var pre := ExecAll(f[..k], v, fuel);
      Falls(pre) && Related(c, n, b, b', Exec(f[k], pre.vars, fuel), Exec(s', pre.vars, fuel))
    ensures var pre := ExecAll(f[..k], v, fuel);
      var u := Exec(f[k], pre.vars, fuel);
      Related(if u.Done? then Shifted(c, pre, Sequel(f[k + 1..], u, fuel)) else None, n, b, b',
              ExecAll(f, v, fuel), ExecAll(f[k := s'], v, fuel))
  {
    var f' := f[k := s'];
    assert f'[..k] == f[..k] && f'[k + 1..] == f[k + 1..];
    StmtInBlock(f, k, v, fuel);
    StmtInBlock(f', k, v, fuel);
    var pre := ExecAll(f[..k], v, fuel);
    var u, u' := Exec(f[k], pre.vars, fuel), Exec(s', pre.vars, fuel);
    hide ExecAll, Exec, SurroundsBoth;
    if n == 1 && ExecAll(f, v, fuel).Done? {
      var at := c.value.at;
      WidenBoth(c.value.around, pre, ExecAll(b, at.at, at.fuel), ExecAll(b', at.at, at.fuel), u, u',
                Sequel(f[k + 1..], u, fuel), ExecAll(f, v, fuel), ExecAll(f', v, fuel));
    }
  }

  /** Outcomes one after the other, the first changed or the second. */
  lemma RelatedFirst(c: Around, x: Outcome, x': Outcome, o: Outcome, o': Outcome, end: Outcome, t: Outcome, t': Outcome)
    requires SurroundsBoth(c, x, x', o, o') && end.Done? && t == Prepend(o.trace, o.defers, end)
    requires SameEnd(o, o') ==> t' == Prepend(o'.trace, o'.defers, end)
    ensures SurroundsBoth(Widened(c, Nothing(o), end), x, x', t, t')
  {
    assert [] + (o.trace + end.trace) == o.trace + end.trace && [] + (o.defers + end.defers) == o.defers + end.defers;
    if SameEnd(o, o') {
      assert [] + (o'.trace + end.trace) == o'.trace + end.trace;
      assert [] + (o'.defers + end.defers) == o'.defers + end.defers;
    }
    hide SurroundsBoth;
    WidenBoth(c, Nothing(o), x, x', o, o', end, t, t');
  }

  lemma RelatedSecond(c: Around, x: Outcome, x': Outcome, o: Outcome, end: Outcome, end': Outcome, t: Outcome, t': Outcome)
    requires SurroundsBoth(c, x, x', end, end') && o.Done?
    requires t == Prepend(o.trace, o.defers, end) && t' == Prepend(o.trace, o.defers, end')
    ensures SurroundsBoth(Widened(c, o, Nothing(end)), x, x', t, t')
  {
    assert end.trace + [] == end.trace && end.defers + [] == end.defers;
    if end'.Done? {
      assert end'.trace + [] == end'.trace && end'.defers + [] == end'.defers;
    }
    hide SurroundsBoth;
    WidenBoth(c, o, x, x', end, end', Nothing(end), t, t');
  }

  /** A loop whose body and whose further rounds are related. */
  lemma RelatedLoop(c: Store -> bool, body: seq<Stmt>, body': seq<Stmt>, v: Store, fuel: nat,
                    here: Option<Context>, m: nat, later: Option<Context>, n: nat, b: seq<Stmt>, b': seq<Stmt>)
    requires c(v) && fuel != 0 && GoesOn(ExecAll(body, v, fuel))
    requires Related(here, m, b, b', ExecAll(body, v, fuel), ExecAll(body', v, fuel))
    requires var w := ExecAll(body, v, fuel).vars;
      Related(later, n, b, b', Exec(While(c, body), w, fuel - 1), Exec(While(c, body'), w, fuel - 1))
    ensures var o := ExecAll(body, v, fuel);
      var end := Exec(While(c, body), o.vars, fuel - 1);
      Related(if here.Some? then Shifted(here, Nothing(o), end)
              else if end.Timeout? then None else Shifted(later, o, Nothing(end)),
              m + n, b, b', Exec(While(c, body), v, fuel), Exec(While(c, body'), v, fuel))
  {
    var o, o' := ExecAll(body, v, fuel), ExecAll(body', v, fuel);
    var end, end' := Exec(While(c, body), o.vars, fuel - 1), Exec(While(c, body'), o.vars, fuel - 1);
    var t, t' := Exec(While(c, body), v, fuel), Exec(While(c, body'), v, fuel);
    assert t == Prepend(o.trace, o.defers, end);
    assert SameEnd(o, o') || o' == o ==> t' == Prepend(o'.trace, o'.defers, end');
    hide ExecAll, Exec, SurroundsBoth, Prepend, Widened;
    if end.Done? {
      if m == 1 && n == 0 {
        var at := here.value.at;
        RelatedFirst(here.value.around, ExecAll(b, at.at, at.fuel), ExecAll(b', at.at, at.fuel), o, o', end, t, t');
      } else if m == 0 && n == 1 {
        var at := later.value.at;
        RelatedSecond(later.value.around, ExecAll(b, at.at, at.fuel), ExecAll(b', at.at, at.fuel), o, end, end', t, t');
      }
    } else {
      PrependTimeout(o.trace, o.defers);
    }
  }

  lemma PrependTimeout(t: seq<Event>, d: seq<Event>)
    ensures Prepend(t, d, Timeout) == Timeout
  {
  }

  lemma RelatedLastRound(c: Store -> bool, body: seq<Stmt>, body': seq<Stmt>, v: Store, fuel: nat,
                         here: Option<Context>, m: nat, b: seq<Stmt>, b': seq<Stmt>)
    requires c(v) && fuel != 0 && !GoesOn(ExecAll(body, v, fuel))
    requires Related(here, m, b, b', ExecAll(body, v, fuel), ExecAll(body', v, fuel))
    requires ExecAll(body, v, fuel).Timeout? && m == 0 ==> here.None?
    ensures Related(if ExecAll(body, v, fuel).Done? then here else None, m, b, b',
                    Exec(While(c, body), v, fuel), Exec(While(c, body'), v, fuel))
  {
    hide ExecAll;
  }

  lemma {:induction false} RunRelated(f: seq<Stmt>, p: Path, b': seq<Stmt>, reaches: (Store, nat) -> bool,
                                      v: Store, fuel: nat)
    requires Open(f, p) && ShowsWhen(BlockAt(f, p), b', reaches)
    ensures Related(ContextOf(f, p, reaches, v, fuel), Reached(reaches, Visits(f, p, v, fuel)), BlockAt(f, p), b',
                    ExecAll(f, v, fuel), ExecAll(Replace(f, p, b'), v, fuel))
    decreases p, 0, 0
  {
    if p.Here? {
      ReachedOne(reaches, v, fuel);
      hide ExecAll;
      if reaches(v, fuel) && ExecAll(f, v, fuel).Done? {
        AloneSurrounds(ExecAll(f, v, fuel), ExecAll(b', v, fuel));
      }
    } else {
      var k, f' := p.at, Replace(f, p, b');
      var s, s' := f[k], f'[k];
      BlockAtInner(f, p, b');
      assert f' == f[k := s'];
      var pre := ExecAll(f[..k], v, fuel);
      hide ShowsWhen, BlockAt, Replace, Reaches, Reached;
      if Falls(pre) {
        StmtRelated(s, s', p.branch, p.rest, b', reaches, pre.vars, fuel);
        hide Related;
        RelatedAround(f, k, s', v, fuel, StmtContext(s, p.branch, p.rest, reaches, pre.vars, fuel),
                      Reached(reaches, Visits(f, p, v, fuel)), BlockAt(f, p), b');
      } else {
        ReachedOne(reaches, v, fuel);
        assert f'[..k] == f[..k];
        StmtInBlock(f, k, v, fuel);
        StmtInBlock(f', k, v, fuel);
      }
    }
  }

  lemma {:induction false} StmtRelated(s: Stmt, s': Stmt, branch: Branch, rest: Path, b': seq<Stmt>,
                                       reaches: (Store, nat) -> bool, v: Store, fuel: nat)
    requires (s.If? && s'.If? && s'.c == s.c && (branch == Then || branch == Else))
          || (s.While? && s'.While? && s'.c == s.c)
    requires Open(Inner(s, branch), rest)
    requires ShowsWhen(BlockAt(Inner(s, branch), rest), b', reaches)
    requires Inner(s', branch) == Replace(Inner(s, branch), rest, b')
    requires s.If? && branch == Then ==> s'.els == s.els
    requires s.If? && branch == Else ==> s'.thn == s.thn
    ensures Related(StmtContext(s, branch, rest, reaches, v, fuel), Reached(reaches, StmtVisits(s, branch, rest, v, fuel)),
                    BlockAt(Inner(s, branch), rest), b', Exec(s, v, fuel), Exec(s', v, fuel))
    decreases rest, 1, fuel
  {
    var inner, b := Inner(s, branch), BlockAt(Inner(s, branch), rest);
    ReachedOne(reaches, v, fuel);
    hide ShowsWhen, BlockAt, Replace, Reaches, Reached, ContextOf, Visits, ExecAll;
    if s.If? {
      if s.c(v) == (branch == Then) {
        RunRelated(inner, rest, b', reaches, v, fuel);
      }
    } else if s.c(v) && fuel != 0 {
      RunRelated(inner, rest, b', reaches, v, fuel);
      var o := ExecAll(s.body, v, fuel);
      var here, visits := ContextOf(s.body, rest, reaches, v, fuel), Visits(s.body, rest, v, fuel);
      if GoesOn(o) {
        StmtRelated(s, s', branch, rest, b', reaches, o.vars, fuel - 1);
        var more := StmtVisits(s, branch, rest, o.vars, fuel - 1);
        ReachedAppend(reaches, visits, more);
        hide Related, Exec;
        RelatedLoop(s.c, s.body, s'.body, v, fuel, here, Reached(reaches, visits),
                    StmtContext(s, branch, rest, reaches, o.vars, fuel - 1), Reached(reaches, more), b, b');
      } else {
        assert visits + [] == visits;
        RelatedLastRound(s.c, s.body, s'.body, v, fuel, here, Reached(reaches, visits), b, b');
      }
    }
  }

  // ------------------------------------------------------------ whole functions

  lemma FunctionTrace(f: seq<Stmt>, c: Around, o: Outcome, v: Store, fuel: nat)
    requires Surrounds(c, o, ExecAll(f, v, fuel))
    ensures RunFunction(f, v, fuel).Done? && RunFunction(f, v, fuel).trace == WholeTrace(c, o)
  {
    hide ExecAll;
  }

  /** On a run that ends with no lock fault and no lock held, the edited block's
      lock decides whether the edited function ends as clean. */
  lemma CleanWhenLockKept(f: seq<Stmt>, f': seq<Stmt>, c: Around, o: Outcome, o': Outcome, lock: string,
                          v: Store, fuel: nat)
    requires EndsClean(f, v, fuel) && SurroundsBoth(c, o, o', ExecAll(f, v, fuel), ExecAll(f', v, fuel))
    requires SameEnd(o, o') && SameOnOthers(lock, WholeTrace(c, o), WholeTrace(c, o'))
    ensures EndsClean(f', v, fuel) <==> LockRun(lock, WholeTrace(c, o'), Free) == LockRun(lock, WholeTrace(c, o), Free)
  {
    hide LockRun, WholeTrace, ExecAll, RunFunction;
    FunctionTrace(f, c, o, v, fuel);
    FunctionTrace(f', c, o', v, fuel);
    var t, t' := WholeTrace(c, o), WholeTrace(c, o');
    assert LockRun(lock, t, Free) == Some(Free);
    if LockRun(lock, t', Free) == Some(Free) {
      forall l
        ensures LockRun(l, t', Free) == Some(Free)
      {
        assert LockRun(l, t, Free) == Some(Free);
      }
    }
  }

  lemma CleanRunsLock(f: seq<Stmt>, c: Around, o: Outcome, lock: string, v: Store, fuel: nat)
    requires EndsClean(f, v, fuel) && Surrounds(c, o, ExecAll(f, v, fuel))
    ensures LockRun(lock, WholeTrace(c, o), Free).Some?
  {
    FunctionTrace(f, c, o, v, fuel);
    hide LockRun, WholeTrace, ExecAll, RunFunction;
    assert LockRun(lock, WholeTrace(c, o), Free) == Some(Free);
  }

  lemma CleanRunEnds(f: seq<Stmt>, v: Store, fuel: nat)
    requires EndsClean(f, v, fuel)
    ensures ExecAll(f, v, fuel).Done?
  {
  }

  lemma SameRunsAreAsClean(f: seq<Stmt>, f': seq<Stmt>, v: Store, fuel: nat)
    requires ExecAll(f', v, fuel) == ExecAll(f, v, fuel)
    ensures EndsClean(f', v, fuel) <==> EndsClean(f, v, fuel)
  {
    hide ExecAll;
  }

  lemma SurroundedEnds(c: Around, o: Outcome, t: Outcome)
    requires Surrounds(c, o, t)
    ensures o.Done?
  {
  }

  /** For a run in which at most one visit gets there: the edited function ends
      clean as far as the lock ends the same around that visit. */
  lemma CleanAroundOneVisit(f: seq<Stmt>, p: Path, b': seq<Stmt>, reaches: (Store, nat) -> bool, lock: string,
                            v: Store, fuel: nat)
    requires Open(f, p) && ShowsWhen(BlockAt(f, p), b', reaches) && EndsClean(f, v, fuel)
    requires Reached(reaches, Visits(f, p, v, fuel)) <= 1
    ensures var c := ContextOf(f, p, reaches, v, fuel);
      if c.None? then EndsClean(Replace(f, p, b'), v, fuel)
      else
        var (around, at) := (c.value.around, c.value.at);
        var (o, o') := (ExecAll(BlockAt(f, p), at.at, at.fuel), ExecAll(b', at.at, at.fuel));
        && o.Done? && LockRun(lock, WholeTrace(around, o), Free).Some?
        && (SameEnd(o, o') && SameOnOthers(lock, WholeTrace(around, o), WholeTrace(around, o')) ==>
              (EndsClean(Replace(f, p, b'), v, fuel)
               <==> LockRun(lock, WholeTrace(around, o'), Free) == LockRun(lock, WholeTrace(around, o), Free)))
  {
    var f' := Replace(f, p, b');
    CleanRunEnds(f, v, fuel);
    RunRelated(f, p, b', reaches, v, fuel);
    hide ExecAll, LockRun, WholeTrace, EndsClean, SameOnOthers, Reaches, Open, ShowsWhen, Surrounds, ContextOf, Visits;
    var c := ContextOf(f, p, reaches, v, fuel);
    if c.None? {
      SameRunsAreAsClean(f, f', v, fuel);
    } else {
      var around, at := c.value.around, c.value.at;
      var o, o' := ExecAll(BlockAt(f, p), at.at, at.fuel), ExecAll(b', at.at, at.fuel);
      SurroundedEnds(around, o, ExecAll(f, v, fuel));
      CleanRunsLock(f, around, o, lock, v, fuel);
      if SameEnd(o, o') && SameOnOthers(lock, WholeTrace(around, o), WholeTrace(around, o')) {
        CleanWhenLockKept(f, f', around, o, o', lock, v, fuel);
      }
    }
  }

  /** The statements before the k-th of the block fall through. */
  ghost function Past(b: seq<Stmt>, k: nat): (Store, nat) -> bool
    requires k <= |b|
  {
    (v: Store, fuel: nat) => Falls(ExecAll(b[..k], v, fuel))
  }

  lemma ShowsPast(b: seq<Stmt>, b': seq<Stmt>, k: nat)
    requires k <= |b| && k <= |b'| && b'[..k] == b[..k]
    ensures ShowsWhen(b, b', Past(b, k))
  {
    forall v, fuel: nat | !Past(b, k)(v, fuel)
      ensures ExecAll(b', v, fuel) == ExecAll(b, v, fuel)
    {
      assert b == b[..k] + b[k..] && b' == b[..k] + b'[k..];
      StopRun(b[..k], b[k..], v, fuel);
      StopRun(b[..k], b'[k..], v, fuel);
    }
  }

  /** Operator 2b anywhere in a function outside its literals, on any run that ends
      clean and gets past the defer at most once, with or without exitsIn's veto:
      the mutant ends clean exactly when that visit escapes quietly. */
  lemma UndeferStaysCleanExactlyWhen(f: seq<Stmt>, p: Path, j: nat, lock: string, v: Store, fuel: nat)
    requires Open(f, p) && EndsClean(f, v, fuel)
    requires j + 2 < |BlockAt(f, p)| && BlockAt(f, p)[j] == Defer(Event(Unlock, lock))
    requires Reached(Past(BlockAt(f, p), j), Visits(f, p, v, fuel)) <= 1
    ensures var (b, c) := (BlockAt(f, p), ContextOf(f, p, Past(BlockAt(f, p), j), v, fuel));
      EndsClean(Replace(f, p, Undeferred(b, j, lock)), v, fuel)
      <==> (c.Some? ==> EscapesQuietly(c.value.around, b, j, lock, c.value.at.at, c.value.at.fuel))
  {
    var b := BlockAt(f, p);
    var b' := Undeferred(b, j, lock);
    assert b'[..j] == b[..j];
    ShowsPast(b, b', j);
    hide ExecAll, LockRun, WholeTrace, EndsClean, SameOnOthers, Reaches, Open, ShowsWhen, Undeferred, EscapesQuietly,
         ContextOf, Visits;
    CleanAroundOneVisit(f, p, b', Past(b, j), lock, v, fuel);
    var c := ContextOf(f, p, Past(b, j), v, fuel);
    if c.Some? {
      UndeferKeepsLockExactlyWhen(c.value.around, b, j, lock, c.value.at.at, c.value.at.fuel, Free);
    }
  }

  /** Operator 1 against a deferred Unlock likewise, for runs that get to the Lock at
      most once. */
  lemma DowngradeStaysCleanExactlyWhen(f: seq<Stmt>, p: Path, i: nat, j: nat, lock: string, v: Store, fuel: nat)
    requires Open(f, p) && EndsClean(f, v, fuel)
    requires IsPair(BlockAt(f, p), i, j, lock) && BlockAt(f, p)[i] == Sync(Event(Lock, lock)) && BlockAt(f, p)[j].Defer?
    requires Reached(Past(BlockAt(f, p), i), Visits(f, p, v, fuel)) <= 1
    ensures var (b, c) := (BlockAt(f, p), ContextOf(f, p, Past(BlockAt(f, p), i), v, fuel));
      EndsClean(Replace(f, p, Downgraded(b, i, j, lock)), v, fuel)
      <==> (c.Some? ==> StretchQuiet(c.value.around, b, i, j, lock, c.value.at.at, c.value.at.fuel))
  {
    var b := BlockAt(f, p);
    var b' := Downgraded(b, i, j, lock);
    assert b'[..i] == b[..i];
    ShowsPast(b, b', i);
    hide ExecAll, LockRun, WholeTrace, EndsClean, SameOnOthers, Reaches, Open, ShowsWhen, Downgraded, StretchQuiet,
         ContextOf, Visits;
    CleanAroundOneVisit(f, p, b', Past(b, i), lock, v, fuel);
    var c := ContextOf(f, p, Past(b, i), v, fuel);
    if c.Some? {
      DowngradeDeferredKeepsLockExactlyWhen(c.value.around, b, i, j, lock, c.value.at.at, c.value.at.fuel, Free);
    }
  }

  /** Outside loops a run pays a block one visit at most. */
  ghost predicate NoLoops(f: seq<Stmt>, p: Path)
    requires Open(f, p)
    decreases p
  {
    p.Into? ==> f[p.at].If? && NoLoops(Inner(f[p.at], p.branch), p.rest)
  }

  lemma {:induction false} OneVisitOutsideLoops(f: seq<Stmt>, p: Path, reaches: (Store, nat) -> bool, v: Store, fuel: nat)
    requires Open(f, p) && NoLoops(f, p)
    ensures Reached(reaches, Visits(f, p, v, fuel)) <= 1
    decreases p
  {
    if p.Here? {
      ReachedOne(reaches, v, fuel);
    } else {
      var pre := ExecAll(f[..p.at], v, fuel);
      hide ExecAll;
      if Falls(pre) {
        OneVisitOutsideLoops(Inner(f[p.at], p.branch), p.rest, reaches, pre.vars, fuel);
      }
    }
  }
}
