/** A small Go: statement lists with locks, defers, function literals and
    exits, run single-threaded. Control flow and data never depend on lock
    state, so a run is its final variables plus the lock operations it performs
    in order; a lock fault is an operation the lock cannot take. */
module LockProgram {
  import opened Wrappers

  type Store = map<string, int>

  datatype Op = Lock | Unlock | RLock | RUnlock

  datatype Event = Event(op: Op, lock: string)

  datatype Stmt =
    | Assign(x: string, e: Store -> int)
    | Sync(ev: Event)                        // mu.Lock(), mu.Unlock(), ...
    | Defer(ev: Event)                       // defer mu.Unlock()
    | If(c: Store -> bool, thn: seq<Stmt>, els: seq<Stmt>)
    | While(c: Store -> bool, body: seq<Stmt>)
    | Call(body: seq<Stmt>)                  // func() { ... }()
    | Return | Break | Continue | Panic

  datatype Exit = Fall | Returned | Broke | Continued | Panicked

  /** What a piece of code did: how it left, the variables, the lock operations
      performed, and the calls it deferred, oldest first. */
  datatype Outcome = Timeout | Done(exit: Exit, vars: Store, trace: seq<Event>, defers: seq<Event>)

  function Reverse(evs: seq<Event>): seq<Event> {
    if evs == [] then [] else Reverse(evs[1..]) + [evs[0]]
  }

  function Prepend(trace: seq<Event>, defers: seq<Event>, o: Outcome): Outcome {
    match o
    case Timeout => Timeout
    case Done(x, v, t, d) => Done(x, v, trace + t, defers + d)
  }

  /** Fuel bounds loop iterations only. */
  function Exec(s: Stmt, v: Store, fuel: nat): Outcome
    decreases fuel, s, 1
  {
    match s
    case Assign(x, e) => Done(Fall, v[x := e(v)], [], [])
    case Sync(ev) => Done(Fall, v, [ev], [])
    case Defer(ev) => Done(Fall, v, [], [ev])
    case If(c, thn, els) => if c(v) then ExecAll(thn, v, fuel) else ExecAll(els, v, fuel)
    case While(c, body) =>
      if !c(v) then Done(Fall, v, [], [])
      else if fuel == 0 then Timeout
      else
        var o := ExecAll(body, v, fuel);
        if o.Done? && (o.exit == Fall || o.exit == Continued) then
          Prepend(o.trace, o.defers, Exec(s, o.vars, fuel - 1))
        else if o.Done? && o.exit == Broke then o.(exit := Fall)
        else o
    case Call(body) =>
      var o := RunFunction(body, v, fuel);
      if o.Done? && o.exit != Panicked then o.(exit := Fall) else o
    case Return => Done(Returned, v, [], [])
    case Break => Done(Broke, v, [], [])
    case Continue => Done(Continued, v, [], [])
    case Panic => Done(Panicked, v, [], [])
  }

  function ExecAll(b: seq<Stmt>, v: Store, fuel: nat): Outcome
    decreases fuel, b, 0
  {
    if b == [] then Done(Fall, v, [], [])
    else
      var o := Exec(b[0], v, fuel);
      if o.Done? && o.exit == Fall then Prepend(o.trace, o.defers, ExecAll(b[1..], o.vars, fuel)) else o
  }

  /** A whole function: the body, then its deferred calls, newest first, on every
      way out, a panic included. */
  function RunFunction(body: seq<Stmt>, v: Store, fuel: nat): Outcome
    decreases fuel, body, 1
  {
    var o := ExecAll(body, v, fuel);
    if o.Done? then o.(trace := o.trace + Reverse(o.defers), defers := []) else o
  }

  // ------------------------------------------------------------ locks

  datatype LockState = Free | Write | Read(readers: nat)

  /** One goroutine, one lock: None is a self-deadlock or a fatal unlock. */
  function Apply(op: Op, s: LockState): Option<LockState> {
    match (op, s)
    case (Lock, Free) => Some(Write)
    case (Unlock, Write) => Some(Free)
    case (RLock, Free) => Some(Read(1))
    case (RLock, Read(n)) => Some(Read(n + 1))
    case (RUnlock, Read(n)) => if n <= 1 then Some(Free) else Some(Read(n - 1))
    case _ => None
  }

  function LockRun(lock: string, trace: seq<Event>, s: LockState): Option<LockState> {
    if trace == [] then Some(s)
    else if trace[0].lock != lock then LockRun(lock, trace[1..], s)
    else
      var next := Apply(trace[0].op, s);
      if next.None? then None else LockRun(lock, trace[1..], next.value)
  }

  /** No lock ever faults and none is still held at the end. */
  ghost predicate Clean(trace: seq<Event>) {
    forall lock :: LockRun(lock, trace, Free) == Some(Free)
  }

  /** The function ends, with no lock fault on the way and no lock held. */
  ghost predicate EndsClean(f: seq<Stmt>, v: Store, fuel: nat) {
    var o := RunFunction(f, v, fuel);
    o.Done? && Clean(o.trace)
  }

  /** The function ends only by running into a lock fault or leaking a lock. */
  ghost predicate EndsFoul(f: seq<Stmt>, v: Store, fuel: nat) {
    var o := RunFunction(f, v, fuel);
    o.Done? && !Clean(o.trace)
  }

  /** Wherever the first trace runs, the second runs to the same lock state. */
  ghost predicate Refines(t: seq<Event>, t': seq<Event>) {
    forall lock, s :: LockRun(lock, t, s).Some? ==> LockRun(lock, t', s) == LockRun(lock, t, s)
  }

  ghost predicate Silent(trace: seq<Event>, lock: string) {
    forall i :: 0 <= i < |trace| ==> trace[i].lock != lock
  }

  lemma {:induction false} LockRunAppend(lock: string, a: seq<Event>, b: seq<Event>, s: LockState)
    ensures LockRun(lock, a + b, s)
         == var m := LockRun(lock, a, s);
            if m.None? then None else LockRun(lock, b, m.value)
  {
    if a == [] {
      assert a + b == b;
    } else {
      assert (a + b)[1..] == a[1..] + b && (a + b)[0] == a[0];
      if a[0].lock != lock {
        LockRunAppend(lock, a[1..], b, s);
      } else if Apply(a[0].op, s).Some? {
        LockRunAppend(lock, a[1..], b, Apply(a[0].op, s).value);
      }
    }
  }

  lemma {:induction false} SilentRun(lock: string, t: seq<Event>, s: LockState)
    requires Silent(t, lock)
    ensures LockRun(lock, t, s) == Some(s)
  {
    if t != [] {
      SilentRun(lock, t[1..], s);
    }
  }

  lemma RefinesReflexive(t: seq<Event>)
    ensures Refines(t, t)
  {
  }

  lemma RefinesAppend(a: seq<Event>, a': seq<Event>, b: seq<Event>, b': seq<Event>)
    requires Refines(a, a') && Refines(b, b')
    ensures Refines(a + b, a' + b')
  {
    forall lock, s | LockRun(lock, a + b, s).Some?
      ensures LockRun(lock, a' + b', s) == LockRun(lock, a + b, s)
    {
      LockRunAppend(lock, a, b, s);
      LockRunAppend(lock, a', b', s);
    }
  }

  lemma CleanRefined(t: seq<Event>, t': seq<Event>)
    requires Clean(t) && Refines(t, t')
    ensures Clean(t')
  {
    forall lock
      ensures LockRun(lock, t', Free) == Some(Free)
    {
      assert LockRun(lock, t, Free) == Some(Free);
    }
  }

  lemma {:induction false} ReverseAppend(a: seq<Event>, b: seq<Event>)
    ensures Reverse(a + b) == Reverse(b) + Reverse(a)
  {
    if a == [] {
      assert a + b == b;
    } else {
      assert (a + b)[1..] == a[1..] + b;
      ReverseAppend(a[1..], b);
    }
  }

  lemma {:induction false} ReverseSilent(t: seq<Event>, lock: string)
    requires Silent(t, lock)
    ensures Silent(Reverse(t), lock)
  {
    if t != [] {
      ReverseSilent(t[1..], lock);
    }
  }

  // ------------------------------------------------------------ composition

  lemma PrependPrepend(t: seq<Event>, d: seq<Event>, t': seq<Event>, d': seq<Event>, o: Outcome)
    ensures Prepend(t, d, Prepend(t', d', o)) == Prepend(t + t', d + d', o)
  {
  }

  /** Running a + b is running a and then, if it falls through, b. */
  lemma {:induction false} ExecAppend(a: seq<Stmt>, b: seq<Stmt>, v: Store, fuel: nat)
    ensures ExecAll(a + b, v, fuel)
         == var o := ExecAll(a, v, fuel);
            if o.Done? && o.exit == Fall then Prepend(o.trace, o.defers, ExecAll(b, o.vars, fuel)) else o
    decreases |a|
  {
    hide Exec;
    if a == [] {
      assert a + b == b;
    } else {
      assert (a + b)[0] == a[0] && (a + b)[1..] == a[1..] + b;
      var o := Exec(a[0], v, fuel);
      if o.Done? && o.exit == Fall {
        ExecAppend(a[1..], b, o.vars, fuel);
      }
    }
  }

  lemma ExecOne(s: Stmt, v: Store, fuel: nat)
    ensures ExecAll([s], v, fuel) == Exec(s, v, fuel)
  {
  }

  // ------------------------------------------------------------ static conditions

  /** exitsIn: return, break, continue or panic anywhere outside a function
      literal. */
  predicate ExitsIn(b: seq<Stmt>) {
    b != [] && (ExitsInStmt(b[0]) || ExitsIn(b[1..]))
  }

  predicate ExitsInStmt(s: Stmt) {
    match s
    case If(_, thn, els) => ExitsIn(thn) || ExitsIn(els)
    case While(_, body) => ExitsIn(body)
    case Return => true
    case Break => true
    case Continue => true
    case Panic => true
    case _ => false
  }

  /** A panic anywhere, function literals included: exitsIn does not look there,
      and a panic does not stop at the literal. */
  predicate PanicsIn(b: seq<Stmt>) {
    b != [] && (PanicsInStmt(b[0]) || PanicsIn(b[1..]))
  }

  predicate PanicsInStmt(s: Stmt) {
    match s
    case If(_, thn, els) => PanicsIn(thn) || PanicsIn(els)
    case While(_, body) => PanicsIn(body)
    case Call(body) => PanicsIn(body)
    case Panic => true
    case _ => false
  }

  /** An operation on the lock, deferred or not, at any depth. */
  predicate Touches(b: seq<Stmt>, lock: string) {
    b != [] && (TouchesStmt(b[0], lock) || Touches(b[1..], lock))
  }

  predicate TouchesStmt(s: Stmt, lock: string) {
    match s
    case Sync(ev) => ev.lock == lock
    case Defer(ev) => ev.lock == lock
    case If(_, thn, els) => Touches(thn, lock) || Touches(els, lock)
    case While(_, body) => Touches(body, lock)
    case Call(body) => Touches(body, lock)
    case _ => false
  }

  /** The code either runs out of fuel or reaches its end. */
  predicate FallsThrough(o: Outcome) {
    o.Done? ==> o.exit == Fall
  }

  lemma {:induction false} NoExitFalls(b: seq<Stmt>, v: Store, fuel: nat)
    requires !ExitsIn(b) && !PanicsIn(b)
    ensures FallsThrough(ExecAll(b, v, fuel))
    decreases fuel, b, 0
  {
    if b != [] {
      NoExitStmtFalls(b[0], v, fuel);
      var o := Exec(b[0], v, fuel);
      if o.Done? {
        NoExitFalls(b[1..], o.vars, fuel);
      }
    }
  }

  lemma {:induction false} NoExitStmtFalls(s: Stmt, v: Store, fuel: nat)
    requires !ExitsInStmt(s) && !PanicsInStmt(s)
    ensures FallsThrough(Exec(s, v, fuel))
    decreases fuel, s, 1
  {
    match s
    case If(c, thn, els) =>
      if c(v) {
        NoExitFalls(thn, v, fuel);
      } else {
        NoExitFalls(els, v, fuel);
      }
    case While(c, body) =>
      if c(v) && fuel != 0 {
        NoExitFalls(body, v, fuel);
        var o := ExecAll(body, v, fuel);
        if o.Done? {
          NoExitStmtFalls(s, o.vars, fuel - 1);
        }
      }
    case Call(body) => NoPanicLiteralReturns(body, v, fuel);
    case _ =>
  }

  predicate Panics(o: Outcome) {
    o.Done? && o.exit == Panicked
  }

  lemma {:induction false} NoPanicLiteralReturns(b: seq<Stmt>, v: Store, fuel: nat)
    requires !PanicsIn(b)
    ensures !Panics(ExecAll(b, v, fuel))
    decreases fuel, b, 0
  {
    if b != [] {
      NoPanicStmt(b[0], v, fuel);
      var o := Exec(b[0], v, fuel);
      if o.Done? {
        NoPanicLiteralReturns(b[1..], o.vars, fuel);
      }
    }
  }

  lemma {:induction false} NoPanicStmt(s: Stmt, v: Store, fuel: nat)
    requires !PanicsInStmt(s)
    ensures !Panics(Exec(s, v, fuel))
    decreases fuel, s, 1
  {
    match s
    case If(c, thn, els) =>
      if c(v) {
        NoPanicLiteralReturns(thn, v, fuel);
      } else {
        NoPanicLiteralReturns(els, v, fuel);
      }
    case While(c, body) =>
      if c(v) && fuel != 0 {
        NoPanicLiteralReturns(body, v, fuel);
        var o := ExecAll(body, v, fuel);
        if o.Done? {
          NoPanicStmt(s, o.vars, fuel - 1);
        }
      }
    case Call(body) => NoPanicLiteralReturns(body, v, fuel);
    case _ =>
  }

  ghost predicate Quiet(o: Outcome, lock: string) {
    o.Done? ==> Silent(o.trace, lock) && Silent(o.defers, lock)
  }

  lemma PrependQuiet(t: seq<Event>, d: seq<Event>, o: Outcome, lock: string)
    requires Silent(t, lock) && Silent(d, lock) && Quiet(o, lock)
    ensures Quiet(Prepend(t, d, o), lock)
  {
  }

  lemma {:induction false} UntouchedIsQuiet(b: seq<Stmt>, lock: string, v: Store, fuel: nat)
    requires !Touches(b, lock)
    ensures Quiet(ExecAll(b, v, fuel), lock)
    decreases fuel, b, 0
  {
    if b != [] {
      UntouchedStmtIsQuiet(b[0], lock, v, fuel);
      var o := Exec(b[0], v, fuel);
      if o.Done? && o.exit == Fall {
        UntouchedIsQuiet(b[1..], lock, o.vars, fuel);
        PrependQuiet(o.trace, o.defers, ExecAll(b[1..], o.vars, fuel), lock);
      }
    }
  }

  lemma {:induction false} UntouchedStmtIsQuiet(s: Stmt, lock: string, v: Store, fuel: nat)
    requires !TouchesStmt(s, lock)
    ensures Quiet(Exec(s, v, fuel), lock)
    decreases fuel, s, 1
  {
    match s
    case If(c, thn, els) =>
      if c(v) {
        UntouchedIsQuiet(thn, lock, v, fuel);
      } else {
        UntouchedIsQuiet(els, lock, v, fuel);
      }
    case While(c, body) =>
      if c(v) && fuel != 0 {
        UntouchedIsQuiet(body, lock, v, fuel);
        var o := ExecAll(body, v, fuel);
        if o.Done? && (o.exit == Fall || o.exit == Continued) {
          UntouchedStmtIsQuiet(s, lock, o.vars, fuel - 1);
          PrependQuiet(o.trace, o.defers, Exec(s, o.vars, fuel - 1), lock);
        }
      }
    case Call(body) =>
      UntouchedIsQuiet(body, lock, v, fuel);
      var o := ExecAll(body, v, fuel);
      if o.Done? {
        ReverseSilent(o.defers, lock);
      }
    case _ =>
  }

  // ------------------------------------------------------------ equivalence in context

  /** Same exit, variables and deferred calls; lock behaviour refined. */
  ghost predicate Matches(o: Outcome, o': Outcome) {
    match (o, o')
    case (Timeout, Timeout) => true
    case (Done(x, v, t, d), Done(x', v', t', d')) => x == x' && v == v' && d == d' && Refines(t, t')
    case _ => false
  }

  ghost predicate SameBlocks(b: seq<Stmt>, b': seq<Stmt>) {
    forall v, fuel: nat :: Matches(ExecAll(b, v, fuel), ExecAll(b', v, fuel))
  }

  /** Where an edited block sits inside a program. */
  datatype Branch = Then | Else | Body

  datatype Path = Here | Into(at: nat, branch: Branch, rest: Path)

  ghost predicate Reaches(b: seq<Stmt>, p: Path)
    decreases p
  {
    match p
    case Here => true
    case Into(k, branch, rest) =>
      k < |b| && match (b[k], branch)
                 case (If(_, thn, _), Then) => Reaches(thn, rest)
                 case (If(_, _, els), Else) => Reaches(els, rest)
                 case (While(_, body), Body) => Reaches(body, rest)
                 case (Call(body), Body) => Reaches(body, rest)
                 case _ => false
  }

  ghost function BlockAt(b: seq<Stmt>, p: Path): seq<Stmt>
    requires Reaches(b, p)
    decreases p
  {
    match p
    case Here => b
    case Into(k, branch, rest) =>
      match b[k] {
        case If(_, thn, els) => if branch == Then then BlockAt(thn, rest) else BlockAt(els, rest)
        case While(_, body) => BlockAt(body, rest)
        case Call(body) => BlockAt(body, rest)
      }
  }

  /** The program with the block at the path replaced. */
  ghost function Replace(b: seq<Stmt>, p: Path, new': seq<Stmt>): seq<Stmt>
    requires Reaches(b, p)
    decreases p
  {
    match p
    case Here => new'
    case Into(k, branch, rest) =>
      b[k := match b[k] {
          case If(c, thn, els) =>
            if branch == Then then If(c, Replace(thn, rest, new'), els) else If(c, thn, Replace(els, rest, new'))
          case While(c, body) => While(c, Replace(body, rest, new'))
          case Call(body) => Call(Replace(body, rest, new'))
        }]
  }

  lemma PrependMatches(t: seq<Event>, t': seq<Event>, d: seq<Event>, o: Outcome, o': Outcome)
    requires Refines(t, t') && Matches(o, o')
    ensures Matches(Prepend(t, d, o), Prepend(t', d, o'))
  {
    if o.Done? {
      RefinesAppend(t, t', o.trace, o'.trace);
    }
  }

  lemma {:induction false} WhileMatches(c: Store -> bool, body: seq<Stmt>, body': seq<Stmt>, v: Store, fuel: nat)
    requires SameBlocks(body, body')
    ensures Matches(Exec(While(c, body), v, fuel), Exec(While(c, body'), v, fuel))
    decreases fuel
  {
    if !c(v) {
      RefinesReflexive([]);
    } else if fuel != 0 {
      var o, o' := ExecAll(body, v, fuel), ExecAll(body', v, fuel);
      assert Matches(o, o');
      if o.Done? && (o.exit == Fall || o.exit == Continued) {
        WhileMatches(c, body, body', o.vars, fuel - 1);
        PrependMatches(o.trace, o'.trace, o.defers, Exec(While(c, body), o.vars, fuel - 1),
                       Exec(While(c, body'), o.vars, fuel - 1));
      }
    }
  }

  ghost predicate SameFunctions(b: seq<Stmt>, b': seq<Stmt>) {
    forall v, fuel: nat :: Matches(RunFunction(b, v, fuel), RunFunction(b', v, fuel))
  }

  /** Blocks that match in place match as function bodies. */
  lemma FunctionMatches(b: seq<Stmt>, b': seq<Stmt>)
    requires SameBlocks(b, b')
    ensures SameFunctions(b, b')
  {
    forall v, fuel: nat
      ensures Matches(RunFunction(b, v, fuel), RunFunction(b', v, fuel))
    {
      var o, o' := ExecAll(b, v, fuel), ExecAll(b', v, fuel);
      assert Matches(o, o');
      if o.Done? {
        RefinesReflexive(Reverse(o.defers));
        RefinesAppend(o.trace, o'.trace, Reverse(o.defers), Reverse(o.defers));
      }
    }
  }

  ghost predicate SameStmts(s: Stmt, s': Stmt) {
    forall v, fuel: nat :: Matches(Exec(s, v, fuel), Exec(s', v, fuel))
  }

  lemma CallMatches(b: seq<Stmt>, b': seq<Stmt>)
    requires SameFunctions(b, b')
    ensures SameStmts(Call(b), Call(b'))
  {
    forall v, fuel: nat
      ensures Matches(Exec(Call(b), v, fuel), Exec(Call(b'), v, fuel))
    {
      assert Matches(RunFunction(b, v, fuel), RunFunction(b', v, fuel));
    }
  }

  lemma {:induction false} ReplacedStmtMatches(b: seq<Stmt>, k: nat, s': Stmt)
    requires k < |b| && SameStmts(b[k], s')
    ensures SameBlocks(b, b[k := s'])
  {
    forall v, fuel: nat
      ensures Matches(ExecAll(b, v, fuel), ExecAll(b[k := s'], v, fuel))
    {
      ReplacedStmtMatchesAt(b, k, s', v, fuel);
    }
  }

  lemma {:induction false} MatchesReflexive(o: Outcome)
    ensures Matches(o, o)
  {
  }

  lemma {:induction false} ReplacedStmtMatchesAt(b: seq<Stmt>, k: nat, s': Stmt, v: Store, fuel: nat)
    requires k < |b| && SameStmts(b[k], s')
    ensures Matches(ExecAll(b, v, fuel), ExecAll(b[k := s'], v, fuel))
    decreases k
  {
    var b' := b[k := s'];
    if k == 0 {
      assert b'[1..] == b[1..];
      var o, o' := Exec(b[0], v, fuel), Exec(s', v, fuel);
      assert Matches(o, o');
      if o.Done? && o.exit == Fall {
        MatchesReflexive(ExecAll(b[1..], o.vars, fuel));
        PrependMatches(o.trace, o'.trace, o.defers, ExecAll(b[1..], o.vars, fuel), ExecAll(b[1..], o.vars, fuel));
      }
    } else {
      assert b'[1..] == b[1..][k - 1 := s'];
      var o := Exec(b[0], v, fuel);
      MatchesReflexive(o);
      if o.Done? && o.exit == Fall {
        ReplacedStmtMatchesAt(b[1..], k - 1, s', o.vars, fuel);
        PrependMatches(o.trace, o.trace, o.defers, ExecAll(b[1..], o.vars, fuel), ExecAll(b'[1..], o.vars, fuel));
      }
    }
  }

  /** An edit that matches as a block matches anywhere in a program: under ifs,
      loops and function literals, at any depth. */
  lemma {:induction false} EditMatchesInContext(b: seq<Stmt>, p: Path, new': seq<Stmt>)
    requires Reaches(b, p) && SameBlocks(BlockAt(b, p), new')
    ensures SameBlocks(b, Replace(b, p, new'))
    decreases p
  {
    if p.Into? {
      var s, s' := b[p.at], Replace(b, p, new')[p.at];
      match s {
        case If(c, thn, els) =>
          EditMatchesInContext(if p.branch == Then then thn else els, p.rest, new');
          IfMatches(c, thn, els, s');
        case While(c, body) =>
          EditMatchesInContext(body, p.rest, new');
          forall v, fuel: nat { WhileMatches(c, body, s'.body, v, fuel); }
        case Call(body) =>
          EditMatchesInContext(body, p.rest, new');
          FunctionMatches(body, s'.body);
          CallMatches(body, s'.body);
      }
      ReplacedStmtMatches(b, p.at, s');
    }
  }

  /** An edit that matches as a whole function, as one that moves a deferred call
      does, matches wherever that function is the body of a literal: under ifs,
      loops and further literals, at any depth. */
  lemma LiteralEditMatchesInContext(b: seq<Stmt>, p: Path, k: nat, f: seq<Stmt>, f': seq<Stmt>)
    requires Reaches(b, p) && k < |BlockAt(b, p)| && BlockAt(b, p)[k] == Call(f) && SameFunctions(f, f')
    ensures SameBlocks(b, Replace(b, p, BlockAt(b, p)[k := Call(f')]))
  {
    CallMatches(f, f');
    ReplacedStmtMatches(BlockAt(b, p), k, Call(f'));
    EditMatchesInContext(b, p, BlockAt(b, p)[k := Call(f')]);
  }

  lemma IfMatches(c: Store -> bool, thn: seq<Stmt>, els: seq<Stmt>, s': Stmt)
    requires s'.If? && s'.c == c
    requires SameBlocks(thn, s'.thn) || thn == s'.thn
    requires SameBlocks(els, s'.els) || els == s'.els
    ensures SameStmts(If(c, thn, els), s')
  {
    forall v, fuel: nat
      ensures Matches(Exec(If(c, thn, els), v, fuel), Exec(s', v, fuel))
    {
      MatchesReflexive(ExecAll(thn, v, fuel));
      MatchesReflexive(ExecAll(els, v, fuel));
      assert SameBlocks(thn, s'.thn) ==> Matches(ExecAll(thn, v, fuel), ExecAll(s'.thn, v, fuel));
      assert SameBlocks(els, s'.els) ==> Matches(ExecAll(els, v, fuel), ExecAll(s'.els, v, fuel));
    }
  }
}
