/** When a compute function that calls Get again can bring the cache to a halt. */
module LazyDeadlock {
  import opened Wrappers
  import opened LazyCache

  // ------------------------------------------------------------ waiting

  /** Which keys' compute functions may call Get for which others. */
  type Calls = (Key, Key) -> bool

  /** A compute function calls Get only as the relation allows. */
  ghost predicate Obeys(calls: Calls, s: State, t: nat, a: Action) {
    a.Call? && s.Busy(t) ==> calls(s.Top(t).key, a.key)
  }

  ghost predicate NextUnder(calls: Calls, s: State, s': State) {
    exists t: nat, a: Action :: Step(s, t, a) == Some(s') && Obeys(calls, s, t, a)
  }

  ghost predicate IsRunUnder(calls: Calls, run: seq<State>) {
    && 0 < |run| && run[0] == INITIAL
    && forall i :: 0 <= i < |run| - 1 ==> NextUnder(calls, run[i], run[i + 1])
  }

  /** What compute functions do in such a run is a special case of what they do in
      any run. */
  lemma RunsUnderAreRuns(calls: Calls, run: seq<State>)
    requires IsRunUnder(calls, run)
    ensures IsRun(run)
  {
    forall i | 0 <= i < |run| - 1
      ensures Next(run[i], run[i + 1])
    {
      assert NextUnder(calls, run[i], run[i + 1]);
    }
  }

  /** t is about to call once.Do on an entry that u is computing. */
  predicate Waits(s: State, t: nat, u: nat) {
    && s.Busy(t) && s.Top(t).Calling? && s.Top(t).id < |s.heap|
    && s.heap[s.Top(t).id].once == Running(u)
  }

  ghost predicate WaitsIn(s: State, us: set<nat>, t: nat) {
    exists u :: u in us && Waits(s, t, u)
  }

  /** Every goroutine of the set waits for one of the set. */
  ghost predicate Deadlocked(s: State, us: set<nat>) {
    us != {} && forall t :: t in us ==> WaitsIn(s, us, t)
  }

  predicate CanAct(s: State, t: nat, a: Action) {
    s.Busy(t) && Step(s, t, a).Some?
  }

  /** Some Get is in progress and no goroutine inside a Get can act. */
  ghost predicate Stuck(s: State) {
    (exists t: nat :: s.Busy(t)) && forall t: nat, a: Action :: !CanAct(s, t, a)
  }

  ghost function BusyOnes(s: State): set<nat> {
    set t | t in s.stacks.Keys && s.Busy(t)
  }

  lemma ReplacedCanAct(s: State, t: nat, a: Action)
    requires s.Busy(t) && !a.Call? && Replaced(s, a, s.Top(t)).Some?
    ensures CanAct(s, t, a)
  {
    hide Replaced, Effect;
  }

  lemma TopIsSound(s: State, t: nat)
    requires Inv(s) && s.Busy(t)
    ensures FrameInv(s, t, s.Top(t))
  {
    hide FrameInv;
    assert StackInv(s, t);
  }

  lemma RunnerIsBusy(s: State, id: nat)
    requires Inv(s) && id < |s.heap| && s.heap[id].once.Running?
    ensures s.Busy(s.heap[id].once.goroutine)
  {
    hide HeapInv, ComputeInv, ResultInv, OutcomeInv, MutexInv, StackInv;
    assert EntryInv(s, id);
  }

  lemma MutexIsHeld(s: State)
    requires Inv(s) && s.mu.Some?
    ensures Holds(s, s.mu.value)
  {
  }

  /** A goroutine inside a Get acts, or waits for the holder of the mutex, which
      acts, or waits for a goroutine inside compute. */
  lemma ActsOrWaits(s: State, t: nat) returns (u: nat, a: Action)
    requires Inv(s) && s.Busy(t)
    ensures s.Busy(u) && (CanAct(s, u, a) || Waits(s, t, u))
  {
    TopIsSound(s, t);
    hide Inv, CanAct;
    u, a := t, Lock;
    match s.Top(t) {
      case Entering(_) =>
        if s.mu.Some? {
          MutexIsHeld(s);
          u := s.mu.value;
          a := if s.Top(u).Locked? then LookUp else Unlock;
        }
      case Locked(_) => a := LookUp;
      case Found(_, _) => a := Unlock;
      case Calling(_, id) =>
        if s.heap[id].once.Running? {
          RunnerIsBusy(s, id);
          u := s.heap[id].once.goroutine;
          return;
        }
        a := if s.heap[id].once.Fresh? then OnceFirst else OnceLater;
      case Computing(_, _) => a := ComputeReturns(None);
      case Stored(_, _) => a := FinishOnce;
      case Returning(_, _) => a := Return;
    }
    ReplacedCanAct(s, u, a);
  }

  lemma BusyIsListed(s: State, t: nat)
    ensures t in BusyOnes(s) <==> s.Busy(t)
  {
  }

  /** So a stuck state is a deadlock. */
  lemma StuckIsDeadlocked(s: State)
    requires Inv(s) && Stuck(s)
    ensures Deadlocked(s, BusyOnes(s))
  {
    hide Inv, CanAct, Waits, BusyOnes;
    var t0: nat :| s.Busy(t0);
    BusyIsListed(s, t0);
    forall t | t in BusyOnes(s)
      ensures WaitsIn(s, BusyOnes(s), t)
    {
      BusyIsListed(s, t);
      var u, a := ActsOrWaits(s, t);
      assert !CanAct(s, u, a);
      BusyIsListed(s, u);
    }
  }

  lemma WaitingCannotAct(s: State, t: nat, a: Action)
    requires s.Busy(t) && s.Top(t).Calling? && s.Top(t).id < |s.heap| && s.heap[s.Top(t).id].once.Running?
    ensures !CanAct(s, t, a)
  {
    hide Effect;
  }

  lemma WaitGoesOn(s: State, x: nat, a: Action, s': State, t: nat, u: nat)
    requires TopInv(s, x) && Step(s, x, a) == Some(s') && Waits(s, t, u) && x != u
    ensures x != t && s'.Stack(t) == s.Stack(t) && Waits(s', t, u)
  {
    WaitingCannotAct(s, t, a);
    assert x != t;
    OthersStay(s, x, a, s', t);
    RunningIsPrivate(s, x, a, s', u, s.Top(t).id);
    hide Step;
  }

  /** A deadlock is for good: whatever the others do, none of the set ever moves. */
  lemma DeadlockStays(s: State, s': State, us: set<nat>)
    requires Inv(s) && Deadlocked(s, us) && Next(s, s')
    ensures Deadlocked(s', us) && forall t :: t in us ==> s'.Stack(t) == s.Stack(t)
  {
    hide Waits, WaitsIn;
    var x: nat, a: Action :| Step(s, x, a) == Some(s');
    assert TopInv(s, x) by { SoundTop(s, x); }
    hide Inv, Step;
    if x in us {
      var u := WaitsForMember(s, us, x);
      WaiterIsStill(s, x, u, a, s');
    }
    forall t | t in us
      ensures WaitsIn(s', us, t) && s'.Stack(t) == s.Stack(t)
    {
      var u := WaitsForMember(s, us, t);
      WaitGoesOn(s, x, a, s', t, u);
      NamesOne(s', us, t, u);
    }
  }

  lemma SoundTop(s: State, t: nat)
    requires Inv(s)
    ensures TopInv(s, t)
  {
    if s.Busy(t) {
      TopIsSound(s, t);
    }
  }

  lemma WaiterIsStill(s: State, t: nat, u: nat, a: Action, s': State)
    requires Waits(s, t, u)
    ensures Step(s, t, a) != Some(s')
  {
    WaitingCannotAct(s, t, a);
  }

  lemma NamesOne(s: State, us: set<nat>, t: nat, u: nat)
    requires u in us && Waits(s, t, u)
    ensures WaitsIn(s, us, t)
  {
  }

  // ------------------------------------------------------------ who calls whom

  /** a's compute calls Get for the next key, that one's for the next, up to b. */
  ghost predicate IsPath(calls: Calls, ks: seq<Key>, a: Key, b: Key) {
    && 2 <= |ks| && ks[0] == a && ks[|ks| - 1] == b
    && forall i :: 0 <= i < |ks| - 1 ==> calls(ks[i], ks[i + 1])
  }

  ghost predicate Leads(calls: Calls, a: Key, b: Key) {
    exists ks: seq<Key> :: IsPath(calls, ks, a, b)
  }

  ghost predicate HasCycle(calls: Calls) {
    exists k: Key :: Leads(calls, k, k)
  }

  lemma LeadsOne(calls: Calls, a: Key, b: Key)
    requires calls(a, b)
    ensures Leads(calls, a, b)
  {
    assert IsPath(calls, [a, b], a, b);
  }

  lemma LeadsOn(calls: Calls, a: Key, b: Key, c: Key)
    requires Leads(calls, a, b) && Leads(calls, b, c)
    ensures Leads(calls, a, c)
  {
    var x: seq<Key> :| IsPath(calls, x, a, b);
    var y: seq<Key> :| IsPath(calls, y, b, c);
    var z := x + y[1..];
    forall i | 0 <= i < |z| - 1
      ensures calls(z[i], z[i + 1])
    {
      if |x| - 1 <= i {
        assert z[i] == y[i - |x| + 1] && z[i + 1] == y[i - |x| + 2];
      }
    }
    assert IsPath(calls, z, a, c);
  }

  /** Each frame's key calls the next frame's. */
  ghost predicate CallsInv(calls: Calls, s: State) {
    forall t: nat, i: nat :: i + 1 < |s.Stack(t)| ==> calls(s.Stack(t)[i].key, s.Stack(t)[i + 1].key)
  }

  lemma FrameKeepsKey(s: State, a: Action, f: Frame)
    requires Replaced(s, a, f).Some?
    ensures forall g :: g in Replaced(s, a, f).value ==> g.key == f.key
  {
  }

  lemma CallsStep(calls: Calls, s: State, s': State)
    requires CallsInv(calls, s) && NextUnder(calls, s, s')
    ensures CallsInv(calls, s')
  {
    var t: nat, a: Action :| Step(s, t, a) == Some(s') && Obeys(calls, s, t, a);
    StepUnfolds(s, t, a, s');
    if !a.Call? {
      OneFrameAtMost(s, a, s.Top(t));
      FrameKeepsKey(s, a, s.Top(t));
    }
    hide Step, Replaced, Effect;
    forall u: nat, i: nat | i + 1 < |s'.Stack(u)|
      ensures calls(s'.Stack(u)[i].key, s'.Stack(u)[i + 1].key)
    {
      if u != t {
        assert s'.Stack(u) == s.Stack(u);
      } else if i + 1 < |s.Stack(t)| {
        assert calls(s.Stack(t)[i].key, s.Stack(t)[i + 1].key);
      }
    }
  }

  lemma {:induction false} RunKeepsCalls(calls: Calls, run: seq<State>, i: nat)
    requires IsRunUnder(calls, run) && i < |run|
    ensures CallsInv(calls, run[i])
  {
    if i != 0 {
      RunKeepsCalls(calls, run, i - 1);
      CallsStep(calls, run[i - 1], run[i]);
    }
  }

  lemma {:induction false} FrameLeads(calls: Calls, s: State, t: nat, i: nat, j: nat)
    requires CallsInv(calls, s) && i < j < |s.Stack(t)|
    ensures Leads(calls, s.Stack(t)[i].key, s.Stack(t)[j].key)
    decreases j
  {
    hide Leads;
    var st := s.Stack(t);
    assert calls(st[j - 1].key, st[j - 1 + 1].key);
    LeadsOne(calls, st[j - 1].key, st[j].key);
    if i < j - 1 {
      FrameLeads(calls, s, t, i, j - 1);
      LeadsOn(calls, st[i].key, st[j - 1].key, st[j].key);
    }
  }

  /** The key of a goroutine's innermost call of Get. */
  function KeyOf(s: State, t: nat): Key {
    if s.Busy(t) then s.Top(t).key else ""
  }

  lemma RunsBelow(s: State, t: nat, u: nat) returns (i: nat)
    requires Inv(s) && Waits(s, t, u)
    ensures i < |s.Stack(u)| && s.Stack(u)[i].key == KeyOf(s, t) && Runs(s.Stack(u)[i])
  {
    TopIsSound(s, t);
    hide HeapInv, ComputeInv, ResultInv, OutcomeInv, MutexInv, StackInv;
    assert EntryInv(s, s.Top(t).id);
    i :| 0 <= i < |s.Stack(u)| && Runs(s.Stack(u)[i]) && s.Stack(u)[i].key == s.Top(t).key;
  }

  lemma WaiterIsNotRunning(s: State, u: nat, v: nat, i: nat)
    requires Waits(s, u, v) && i < |s.Stack(u)| && Runs(s.Stack(u)[i])
    ensures i < |s.Stack(u)| - 1 && KeyOf(s, u) == s.Stack(u)[|s.Stack(u)| - 1].key
  {
  }

  /** If t waits for u and u waits too, t's key leads to u's. */
  lemma WaitLeads(calls: Calls, s: State, t: nat, u: nat, v: nat)
    requires Inv(s) && CallsInv(calls, s) && Waits(s, t, u) && Waits(s, u, v)
    ensures Leads(calls, KeyOf(s, t), KeyOf(s, u))
  {
    hide Inv, CallsInv, Leads, Waits, KeyOf;
    var i := RunsBelow(s, t, u);
    WaiterIsNotRunning(s, u, v, i);
    FrameLeads(calls, s, u, i, |s.Stack(u)| - 1);
  }

  lemma WaitsForMember(s: State, us: set<nat>, t: nat) returns (u: nat)
    requires Deadlocked(s, us) && t in us
    ensures u in us && Waits(s, t, u)
  {
    hide Waits;
    assert WaitsIn(s, us, t);
    u :| u in us && Waits(s, t, u);
  }

  lemma MemberLeads(calls: Calls, s: State, us: set<nat>, t: nat) returns (u: nat)
    requires Inv(s) && CallsInv(calls, s) && Deadlocked(s, us) && t in us
    ensures u in us && Leads(calls, KeyOf(s, t), KeyOf(s, u))
  {
    hide Inv, CallsInv, Leads, Deadlocked, Waits;
    u := WaitsForMember(s, us, t);
    var v := WaitsForMember(s, us, u);
    WaitLeads(calls, s, t, u, v);
  }

  /** Following who waits for whom comes back to a goroutine already seen: `left`
      are the others of the set. */
  lemma {:induction false} WaitersMeet(calls: Calls, s: State, us: set<nat>, seen: seq<nat>, left: set<nat>)
    requires Inv(s) && CallsInv(calls, s) && Deadlocked(s, us)
    requires seen != [] && forall t :: t in us <==> t in seen || t in left
    requires forall i :: 0 <= i < |seen| - 1 ==>
      Leads(calls, KeyOf(s, seen[i]), KeyOf(s, seen[|seen| - 1]))
    ensures HasCycle(calls)
    decreases left
  {
    hide Inv, CallsInv, Leads, Deadlocked, KeyOf;
    var t := seen[|seen| - 1];
    var u := MemberLeads(calls, s, us, t);
    var k, k' := KeyOf(s, t), KeyOf(s, u);
    if u in seen {
      var i :| 0 <= i < |seen| && seen[i] == u;
      if i < |seen| - 1 {
        LeadsOn(calls, k', k, k');
      }
      assert Leads(calls, k', k');
    } else {
      var more := seen + [u];
      forall i | 0 <= i < |more| - 1
        ensures Leads(calls, KeyOf(s, more[i]), k')
      {
        if i < |seen| - 1 {
          LeadsOn(calls, KeyOf(s, seen[i]), k, k');
        }
      }
      WaitersMeet(calls, s, us, more, left - {u});
    }
  }

  lemma DeadlockHasCycle(calls: Calls, s: State, us: set<nat>)
    requires Inv(s) && CallsInv(calls, s) && Deadlocked(s, us)
    ensures HasCycle(calls)
  {
    hide Inv, CallsInv, WaitsIn, HasCycle;
    var t :| t in us;
    var seen, left := [t], us - {t};
    assert forall u :: u in us <==> u in seen || u in left;
    WaitersMeet(calls, s, us, seen, left);
  }

  /** No cycle of calls, no deadlock: neither of every goroutine nor of any set. */
  lemma DeadlockNeedsCycle(calls: Calls, run: seq<State>, i: nat, us: set<nat>)
    requires IsRunUnder(calls, run) && i < |run| && Deadlocked(run[i], us)
    ensures HasCycle(calls)
  {
    hide Inv, CallsInv, Deadlocked, HasCycle, IsRunUnder, IsRun;
    RunsUnderAreRuns(calls, run);
    RunKeepsInv(run, i);
    RunKeepsCalls(calls, run, i);
    DeadlockHasCycle(calls, run[i], us);
  }

  // ------------------------------------------------------------ reaching a deadlock

  lemma Extend(calls: Calls, run: seq<State>, t: nat, a: Action) returns (more: seq<State>)
    requires IsRunUnder(calls, run)
    requires Step(run[|run| - 1], t, a).Some? && Obeys(calls, run[|run| - 1], t, a)
    ensures IsRunUnder(calls, more) && more[|more| - 1] == Step(run[|run| - 1], t, a).value
  {
    hide Step;
    var s, s' := run[|run| - 1], Step(run[|run| - 1], t, a).value;
    more := run + [s'];
    forall i | 0 <= i < |more| - 1
      ensures NextUnder(calls, more[i], more[i + 1])
    {
      if i < |run| - 1 {
        assert NextUnder(calls, run[i], run[i + 1]);
      } else {
        assert Step(s, t, a) == Some(s') && Obeys(calls, s, t, a);
      }
    }
  }

  /** t has put one more frame on its stack. */
  function Pushed(s: State, t: nat, f: Frame): State {
    s.(stacks := s.stacks[t := s.Stack(t) + [f]])
  }

  /** t has called Get for a new key and is inside its compute. */
  function Started(s: State, t: nat, k: Key): State {
    Pushed(s, t, Computing(k, |s.heap|)).(entries := s.entries[k := |s.heap|],
                                          heap := s.heap + [Entry(k, Running(t), None)],
                                          computes := s.computes + [k])
  }

  /** t has called Get for a known key and is about to call its once.Do. */
  function Asked(s: State, t: nat, k: Key): State
    requires k in s.entries
  {
    Pushed(s, t, Calling(k, s.entries[k]))
  }

  ghost predicate MayAsk(calls: Calls, s: State, t: nat, k: Key) {
    s.mu.None? && MayCall(s, t) && Obeys(calls, s, t, Call(k))
  }

  lemma PushedTwice(s: State, t: nat, f: Frame, g: Frame)
    ensures Pushed(s, t, f).Busy(t) && Pushed(s, t, f).Top(t) == f
    ensures var st := Pushed(s, t, f).Stack(t); st[..|st| - 1] + [g] == s.Stack(t) + [g]
    ensures Pushed(s, t, f).stacks[t := s.Stack(t) + [g]] == Pushed(s, t, g).stacks
  {
  }

  lemma CallOn(calls: Calls, run: seq<State>, t: nat, k: Key) returns (more: seq<State>)
    requires IsRunUnder(calls, run) && MayAsk(calls, run[|run| - 1], t, k)
    ensures IsRunUnder(calls, more)
    ensures more[|more| - 1] == Pushed(run[|run| - 1], t, Entering(k))
  {
    more := Extend(calls, run, t, Call(k));
  }

  /** An action of t that only changes its innermost frame and the rest as given. */
  lemma ActOn(calls: Calls, run: seq<State>, t: nat, base: State, f: Frame, a: Action, g: Frame)
    returns (more: seq<State>)
    requires IsRunUnder(calls, run) && run[|run| - 1] == Pushed(base, t, f) && !a.Call?
    requires Replaced(Pushed(base, t, f), a, f) == Some([g])
    ensures IsRunUnder(calls, more)
    ensures more[|more| - 1] == Effect(Pushed(base, t, f), t, a, f).(stacks := Pushed(base, t, g).stacks)
  {
    PushedTwice(base, t, f, g);
    hide Replaced, Effect;
    more := Extend(calls, run, t, a);
  }

  /** Call, Lock, LookUp, Unlock: t stands before once.Do of the key's entry. */
  lemma AskOn(calls: Calls, run: seq<State>, t: nat, k: Key) returns (more: seq<State>)
    requires IsRunUnder(calls, run) && MayAsk(calls, run[|run| - 1], t, k)
    ensures IsRunUnder(calls, more)
    ensures var s := run[|run| - 1];
      more[|more| - 1] == if k in s.entries then Asked(s, t, k)
                          else Asked(s.(entries := s.entries[k := |s.heap|], heap := s.heap + [Entry(k, Fresh, None)]), t, k)
  {
    var s := run[|run| - 1];
    more := CallOn(calls, run, t, k);
    more := ActOn(calls, more, t, s, Entering(k), Lock, Locked(k));
    var held := s.(mu := Some(t));
    assert more[|more| - 1] == Pushed(held, t, Locked(k));
    var known := if k in s.entries then held
                 else held.(entries := s.entries[k := |s.heap|], heap := s.heap + [Entry(k, Fresh, None)]);
    more := ActOn(calls, more, t, held, Locked(k), LookUp, Found(k, known.entries[k]));
    assert more[|more| - 1] == Pushed(known, t, Found(k, known.entries[k]));
    more := ActOn(calls, more, t, known, Found(k, known.entries[k]), Unlock, Calling(k, known.entries[k]));
  }

  lemma StartOn(calls: Calls, run: seq<State>, t: nat, k: Key) returns (more: seq<State>)
    requires IsRunUnder(calls, run) && MayAsk(calls, run[|run| - 1], t, k) && k !in run[|run| - 1].entries
    ensures IsRunUnder(calls, more) && more[|more| - 1] == Started(run[|run| - 1], t, k)
  {
    var s := run[|run| - 1];
    more := AskOn(calls, run, t, k);
    var known := s.(entries := s.entries[k := |s.heap|], heap := s.heap + [Entry(k, Fresh, None)]);
    more := ActOn(calls, more, t, known, Calling(k, |s.heap|), OnceFirst, Computing(k, |s.heap|));
  }

  // ------------------------------------------------------------ two goroutines, two keys

  predicate CrossCalls(k: Key, k': Key) {
    (k == "a" && k' == "b") || (k == "b" && k' == "a")
  }

  lemma StackAfter(s: State, t: nat, f: Frame, u: nat)
    ensures Pushed(s, t, f).Stack(u) == if u == t then s.Stack(t) + [f] else s.Stack(u)
  {
  }

  /** Goroutine 1 computes a, goroutine 2 computes b. */
  const BOTH_COMPUTE: State := Started(Started(INITIAL, 1, "a"), 2, "b")

  /** And each has asked for the other's key. */
  function BothAsked(): State {
    assert "a" in BOTH_COMPUTE.entries && "b" in BOTH_COMPUTE.entries;
    Asked(Asked(BOTH_COMPUTE, 1, "b"), 2, "a")
  }

  lemma BothCompute()
    ensures BOTH_COMPUTE.Stack(1) == [Computing("a", 0)] && BOTH_COMPUTE.Stack(2) == [Computing("b", 1)]
    ensures BOTH_COMPUTE.mu.None? && BOTH_COMPUTE.entries == map["a" := 0, "b" := 1]
    ensures BOTH_COMPUTE.heap == [Entry("a", Running(1), None), Entry("b", Running(2), None)]
    ensures forall t: nat :: t != 1 && t != 2 ==> !BOTH_COMPUTE.Busy(t)
  {
  }

  lemma BothWait()
    ensures Stuck(BothAsked()) && Deadlocked(BothAsked(), {1, 2})
  {
    BothCompute();
    hide Started;
    var s := BothAsked();
    assert s.Stack(1) == [Computing("a", 0), Calling("b", 1)];
    assert s.Stack(2) == [Computing("b", 1), Calling("a", 0)];
    assert Waits(s, 1, 2) && Waits(s, 2, 1);
    forall t: nat, a: Action
      ensures !CanAct(s, t, a)
    {
      if t != 1 && t != 2 {
        assert !BOTH_COMPUTE.Busy(t);
        assert s.Stack(t) == BOTH_COMPUTE.Stack(t);
      } else {
        WaitingCannotAct(s, t, a);
      }
    }
  }

  /** Goroutine 1 gets a, whose compute gets b; goroutine 2 gets b, whose compute
      gets a. Each may end up waiting for the other for good. */
  lemma TwoKeysDeadlock() returns (run: seq<State>)
    ensures IsRunUnder(CrossCalls, run) && run[|run| - 1] == BothAsked()
    ensures Stuck(run[|run| - 1]) && Deadlocked(run[|run| - 1], {1, 2})
  {
    BothWait();
    BothCompute();
    hide Stuck, Deadlocked, IsRunUnder;
    assert IsRunUnder(CrossCalls, [INITIAL]) by { JustInitial(CrossCalls); }
    run := StartOn(CrossCalls, [INITIAL], 1, "a");
    run := StartOn(CrossCalls, run, 2, "b");
    hide Started, Pushed;
    run := AskOn(CrossCalls, run, 1, "b");
    var s3 := Asked(BOTH_COMPUTE, 1, "b");
    StackAfter(BOTH_COMPUTE, 1, Calling("b", 1), 2);
    run := AskOn(CrossCalls, run, 2, "a");
  }

  lemma JustInitial(calls: Calls)
    ensures IsRunUnder(calls, [INITIAL])
  {
  }

  // ------------------------------------------------------------ any cycle

  /** Goroutine 0 alone is inside compute of ks[j - 1], called from that of
      ks[j - 2], and so on. */
  ghost predicate Nested(s: State, ks: seq<Key>, j: nat)
    requires 1 <= j <= |ks|
  {
    && s.mu.None? && (forall t: nat :: t != 0 ==> !s.Busy(t))
    && s.Busy(0) && s.Top(0).Computing? && s.Top(0).key == ks[j - 1]
    && (forall i :: 0 <= i < j ==> ks[i] in s.entries)
    && (forall k :: k in s.entries ==> s.entries[k] < |s.heap|)
    && (forall i :: 0 <= i < |s.heap| ==> s.heap[i].once == Running(0))
  }

  lemma WaitsForItself(s: State, ks: seq<Key>, j: nat, k: Key)
    requires 1 <= j <= |ks| && Nested(s, ks, j) && k in s.entries
    ensures Stuck(Asked(s, 0, k))
  {
    var s', f := Asked(s, 0, k), Calling(k, s.entries[k]);
    hide Step;
    StackAfter(s, 0, f, 0);
    assert s'.Busy(0) && s'.Top(0) == f;
    forall t: nat, a: Action
      ensures !CanAct(s', t, a)
    {
      if t == 0 {
        WaitingCannotAct(s', t, a);
      } else {
        StackAfter(s, 0, f, t);
        assert !s.Busy(t);
      }
    }
  }

  /** Down a cyclic path of calls one goroutine comes to a key it is computing. */
  lemma {:induction false} Descend(calls: Calls, ks: seq<Key>, j: nat, run: seq<State>) returns (more: seq<State>)
    requires IsRunUnder(calls, run) && 1 <= j < |ks| && Nested(run[|run| - 1], ks, j)
    requires ks[|ks| - 1] == ks[0] && forall i :: 0 <= i < |ks| - 1 ==> calls(ks[i], ks[i + 1])
    ensures IsRunUnder(calls, more) && Stuck(more[|more| - 1])
    decreases |ks| - j
  {
    var s := run[|run| - 1];
    assert calls(ks[j - 1], ks[j - 1 + 1]);
    if ks[j] in s.entries {
      more := AskOn(calls, run, 0, ks[j]);
      WaitsForItself(s, ks, j, ks[j]);
    } else {
      more := StartOn(calls, run, 0, ks[j]);
      hide IsRunUnder, Stuck;
      NestsDeeper(s, ks, j);
      more := Descend(calls, ks, j + 1, more);
    }
  }

  lemma NestsDeeper(s: State, ks: seq<Key>, j: nat)
    requires 1 <= j < |ks| && Nested(s, ks, j) && ks[j] !in s.entries
    ensures Nested(Started(s, 0, ks[j]), ks, j + 1)
  {
    var s', f := Started(s, 0, ks[j]), Computing(ks[j], |s.heap|);
    forall t: nat
      ensures s'.Stack(t) == Pushed(s, 0, f).Stack(t)
      ensures t != 0 ==> !s'.Busy(t)
    {
      StackAfter(s, 0, f, t);
      assert t != 0 ==> !s.Busy(t);
    }
    StackAfter(s, 0, f, 0);
  }

  lemma CycleGetsStuck(calls: Calls) returns (run: seq<State>)
    requires HasCycle(calls)
    ensures IsRunUnder(calls, run) && run != [] && Stuck(run[|run| - 1])
  {
    var k: Key :| Leads(calls, k, k);
    var ks: seq<Key> :| IsPath(calls, ks, k, k);
    run := StartOn(calls, [INITIAL], 0, k);
    var s := Started(INITIAL, 0, k);
    assert s.Stack(0) == [Computing(k, 0)];
    run := Descend(calls, ks, 1, run);
  }

  ghost predicate CanGetStuck(calls: Calls) {
    exists run: seq<State> :: IsRunUnder(calls, run) && run != [] && Stuck(run[|run| - 1])
  }

  ghost predicate EndsDeadlocked(calls: Calls, run: seq<State>, us: set<nat>) {
    IsRunUnder(calls, run) && run != [] && Deadlocked(run[|run| - 1], us)
  }

  ghost predicate CanDeadlock(calls: Calls) {
    exists run: seq<State>, us: set<nat> :: EndsDeadlocked(calls, run, us)
  }

  /** The cache can get stuck, and some of its goroutines can wait for each other
      for good, exactly when the calls of Get made by compute functions have a
      cycle: a compute that calls Get for its own key is one of length 1. */
  lemma DeadlocksExactlyWhenCyclic(calls: Calls)
    ensures CanGetStuck(calls) <==> HasCycle(calls)
    ensures CanDeadlock(calls) <==> HasCycle(calls)
  {
    hide Stuck, Deadlocked, IsRunUnder, HasCycle;
    if HasCycle(calls) {
      var run := CycleGetsStuck(calls);
      StuckRunDeadlocks(calls, run);
      assert EndsDeadlocked(calls, run, BusyOnes(run[|run| - 1]));
    }
    if CanDeadlock(calls) {
      var run: seq<State>, us: set<nat> :| EndsDeadlocked(calls, run, us);
      DeadlockNeedsCycle(calls, run, |run| - 1, us);
    }
    if CanGetStuck(calls) {
      var run: seq<State> :| IsRunUnder(calls, run) && run != [] && Stuck(run[|run| - 1]);
      StuckRunDeadlocks(calls, run);
      DeadlockNeedsCycle(calls, run, |run| - 1, BusyOnes(run[|run| - 1]));
    }
  }

  lemma StuckRunDeadlocks(calls: Calls, run: seq<State>)
    requires IsRunUnder(calls, run) && run != [] && Stuck(run[|run| - 1])
    ensures Deadlocked(run[|run| - 1], BusyOnes(run[|run| - 1]))
  {
    RunsUnderAreRuns(calls, run);
    RunKeepsInv(run, |run| - 1);
    StuckIsDeadlocked(run[|run| - 1]);
  }

  /** Without such a cycle someone inside a Get can act while any Get is in
      progress. */
  lemma SomeoneCanAct(calls: Calls, run: seq<State>, i: nat)
    requires !HasCycle(calls) && IsRunUnder(calls, run) && i < |run|
    requires exists t: nat :: run[i].Busy(t)
    ensures exists t: nat, a: Action :: CanAct(run[i], t, a)
  {
    if Stuck(run[i]) {
      RunsUnderAreRuns(calls, run);
      RunKeepsInv(run, i);
      StuckIsDeadlocked(run[i]);
      DeadlockNeedsCycle(calls, run, i, BusyOnes(run[i]));
    }
  }
}
