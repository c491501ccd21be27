/** hard_conc_once_init/solution.go: a memoizing cache whose Get may be called by
    any number of goroutines at once. Each step below is one atomic action of
    one goroutine; a behaviour is any interleaving of them. */
module LazyCache {
  import opened Wrappers

  type Key = string
  type Value = int

  /** sync.Once: unused, running in one goroutine, or finished. */
  datatype Once = Fresh | Running(goroutine: nat) | Done

  /** How a call of compute ended. compute returns any, so nil is a value too. */
  datatype Outcome = Returned(result: Option<Value>) | Panicked
  {
    /** What the entry holds afterwards. */
    function Held(): Option<Value> {
      if Returned? then result else None
    }
  }

  /** A per-key entry; value is nil until compute has returned. */
  datatype Entry = Entry(key: Key, once: Once, value: Option<Value>)

  /** Where one call of Get stands. */
  datatype Frame =
    | Entering(key: Key)               // about to take the cache mutex
    | Locked(key: Key)                 // holds it, has not looked up the entry
    | Found(key: Key, id: nat)         // holds it, has the entry
    | Calling(key: Key, id: nat)       // released it, about to call once.Do
    | Computing(key: Key, id: nat)     // inside compute, which may call Get again
    | Stored(key: Key, id: nat)        // e.value assigned, once not yet finished
    | Returning(key: Key, id: nat)     // once.Do has returned

  /** stacks holds each goroutine's calls of Get in progress, innermost last. */
  datatype State = State(
    mu: Option<nat>,
    entries: map<Key, nat>,
    heap: seq<Entry>,
    stacks: map<nat, seq<Frame>>,
    computes: seq<Key>,                     // every start of a compute call
    outcomes: map<Key, Outcome>,            // how each key's compute call ended
    results: seq<(Key, Option<Value>)>)     // every completed Get
  {
    function Stack(t: nat): seq<Frame> {
      if t in stacks then stacks[t] else []
    }

    predicate Busy(t: nat) {
      Stack(t) != []
    }

    function Top(t: nat): Frame
      requires Busy(t)
    {
      Stack(t)[|Stack(t)| - 1]
    }
  }

  const INITIAL: State := State(None, map[], [], map[], [], map[], [])

  datatype Action =
    | Call(key: Key) | Lock | LookUp | Unlock | OnceFirst | OnceLater
    | ComputeReturns(result: Option<Value>) | FinishOnce | ComputePanics | Return

  /** What becomes of the innermost frame f: what stands in its place, nothing when
      the call of Get is left; None when the action cannot be taken. */
  function Replaced(s: State, a: Action, f: Frame): Option<seq<Frame>> {
    match (a, f)
    case (Lock, Entering(k)) => if s.mu.None? then Some([Locked(k)]) else None
    case (LookUp, Locked(k)) => Some([Found(k, if k in s.entries then s.entries[k] else |s.heap|)])
    case (Unlock, Found(k, id)) => Some([Calling(k, id)])
    case (OnceFirst, Calling(k, id)) =>
      if id < |s.heap| && s.heap[id].once.Fresh? then Some([Computing(k, id)]) else None
    case (OnceLater, Calling(k, id)) =>
      if id < |s.heap| && s.heap[id].once.Done? then Some([Returning(k, id)]) else None
    case (ComputeReturns(_), Computing(k, id)) => if id < |s.heap| then Some([Stored(k, id)]) else None
    case (FinishOnce, Stored(k, id)) => if id < |s.heap| then Some([Returning(k, id)]) else None
    // sync.Once counts a panicking call as done; the panic leaves Get.
    case (ComputePanics, Computing(_, id)) => if id < |s.heap| then Some([]) else None
    case (Return, Returning(_, id)) => if id < |s.heap| then Some([]) else None
    case _ => None
  }

  /** What the action of goroutine t with innermost frame f does to the rest. */
  function Effect(s: State, t: nat, a: Action, f: Frame): State
    requires Replaced(s, a, f).Some?
  {
    match a
    case Lock => s.(mu := Some(t))
    case LookUp =>
      if f.key in s.entries then s
      else s.(entries := s.entries[f.key := |s.heap|], heap := s.heap + [Entry(f.key, Fresh, None)])
    case Unlock => s.(mu := None)
    case OnceFirst => s.(heap := s.heap[f.id := s.heap[f.id].(once := Running(t))], computes := s.computes + [f.key])
    case ComputeReturns(v) =>
      s.(heap := s.heap[f.id := s.heap[f.id].(value := v)], outcomes := s.outcomes[f.key := Returned(v)])
    case FinishOnce => s.(heap := s.heap[f.id := s.heap[f.id].(once := Done)])
    case ComputePanics =>
      s.(heap := s.heap[f.id := s.heap[f.id].(once := Done)], outcomes := s.outcomes[f.key := Panicked])
    case Return => s.(results := s.results + [(f.key, s.heap[f.id].value)])
    case _ => s
  }

  /** Get is called outside any other call of Get, or by a compute function. */
  predicate MayCall(s: State, t: nat) {
    s.Busy(t) ==> s.Top(t).Computing?
  }

  /** What goroutine t does in one atomic action; None when it cannot take it. */
  function Step(s: State, t: nat, a: Action): Option<State> {
    var st := s.Stack(t);
    if a.Call? then
      if MayCall(s, t) then Some(s.(stacks := s.stacks[t := st + [Entering(a.key)]])) else None
    else if st == [] then None
    else
      var f := s.Top(t);
      var r := Replaced(s, a, f);
      if r.None? then None
      else Some(Effect(s, t, a, f).(stacks := s.stacks[t := st[..|st| - 1] + r.value]))
  }

  ghost predicate Next(s: State, s': State) {
    exists t: nat, a: Action :: Step(s, t, a) == Some(s')
  }

  /** A finite interleaving from the empty cache. */
  ghost predicate IsRun(run: seq<State>) {
    && 0 < |run| && run[0] == INITIAL
    && forall i :: 0 <= i < |run| - 1 ==> Next(run[i], run[i + 1])
  }

  // ------------------------------------------------------------ the invariant

  predicate InCriticalSection(f: Frame) {
    f.Locked? || f.Found?
  }

  ghost predicate Holds(s: State, t: nat) {
    s.Busy(t) && InCriticalSection(s.Top(t))
  }

  ghost predicate MutexInv(s: State) {
    && (forall t: nat :: Holds(s, t) ==> s.mu == Some(t))
    && (s.mu.Some? ==> Holds(s, s.mu.value))
  }

  /** The map and the allocated entries describe each other. */
  ghost predicate HeapInv(s: State) {
    && (forall k :: k in s.entries ==> s.entries[k] < |s.heap| && s.heap[s.entries[k]].key == k)
    && (forall i :: 0 <= i < |s.heap| ==> s.heap[i].key in s.entries && s.entries[s.heap[i].key] == i)
  }

  ghost predicate FrameInv(s: State, t: nat, f: Frame) {
    match f
    case Entering(_) => true
    case Locked(_) => true
    case Found(k, id) => id < |s.heap| && s.heap[id].key == k
    case Calling(k, id) => id < |s.heap| && s.heap[id].key == k
    case Computing(k, id) => id < |s.heap| && s.heap[id].key == k && s.heap[id].once == Running(t)
    case Stored(k, id) => id < |s.heap| && s.heap[id].key == k && s.heap[id].once == Running(t)
    case Returning(k, id) => id < |s.heap| && s.heap[id].key == k && s.heap[id].once == Done
  }

  predicate Runs(f: Frame) {
    f.Computing? || f.Stored?
  }

  /** Only the innermost frame is not inside compute, and no entry is run twice. */
  ghost predicate StackInv(s: State, t: nat) {
    var st := s.Stack(t);
    && (forall i :: 0 <= i < |st| ==> FrameInv(s, t, st[i]))
    && (forall i :: 0 <= i < |st| - 1 ==> st[i].Computing?)
    && (forall i, j :: 0 <= i < j < |st| && Runs(st[i]) && Runs(st[j]) ==> st[i].id != st[j].id)
  }

  /** A running Once has its goroutine inside compute, and a finished entry holds
      what its one compute call came to. */
  ghost predicate EntryInv(s: State, i: nat)
    requires i < |s.heap|
  {
    match s.heap[i].once
    case Fresh => s.heap[i].value == None && s.heap[i].key !in s.outcomes
    case Running(t) =>
      var k := s.heap[i].key;
      || (Computing(k, i) in s.Stack(t) && s.heap[i].value == None && k !in s.outcomes)
      || (Stored(k, i) in s.Stack(t) && k in s.outcomes && s.outcomes[k] == Returned(s.heap[i].value))
    case Done => s.heap[i].key in s.outcomes && s.heap[i].value == s.outcomes[s.heap[i].key].Held()
  }

  /** compute was started for k once if its entry's Once has been used, else never. */
  ghost predicate ComputeInv(s: State) {
    forall k :: multiset(s.computes)[k]
      == if k in s.entries && s.entries[k] < |s.heap| && !s.heap[s.entries[k]].once.Fresh? then 1 else 0
  }

  /** Every completed Get returned the settled value of its key's one entry. */
  ghost predicate ResultInv(s: State) {
    forall i :: 0 <= i < |s.results| ==>
      var (k, v) := s.results[i];
      && k in s.entries && s.entries[k] < |s.heap|
      && s.heap[s.entries[k]].once == Done && s.heap[s.entries[k]].value == v
  }

  ghost predicate OutcomeInv(s: State) {
    forall k :: k in s.outcomes ==> k in s.entries
  }

  ghost predicate Inv(s: State) {
    && OutcomeInv(s) && MutexInv(s) && HeapInv(s) && ComputeInv(s) && ResultInv(s)
    && (forall t: nat :: StackInv(s, t))
    && (forall i: nat :: i < |s.heap| ==> EntryInv(s, i))
  }

  lemma InitialInv()
    ensures Inv(INITIAL)
  {
  }

  /** Nothing an entry has settled ever changes, and no entry is replaced. */
  ghost predicate Settles(s: State, s': State) {
    && (forall k :: k in s.entries ==> k in s'.entries && s'.entries[k] == s.entries[k])
    && |s.heap| <= |s'.heap|
    && (forall i :: 0 <= i < |s.heap| ==>
          s'.heap[i].key == s.heap[i].key && (s.heap[i].once == Done ==> s'.heap[i] == s.heap[i]))
  }

  /** An action that is not a call, in terms of the innermost frame. */
  lemma StepUnfolds(s: State, t: nat, a: Action, s': State)
    requires Step(s, t, a) == Some(s')
    ensures forall u: nat :: u != t ==> s'.Stack(u) == s.Stack(u)
    ensures a.Call? ==> s' == s.(stacks := s'.stacks) && s'.Stack(t) == s.Stack(t) + [Entering(a.key)] && MayCall(s, t)
    ensures !a.Call? ==>
      && s.Busy(t) && Replaced(s, a, s.Top(t)).Some?
      && s' == Effect(s, t, a, s.Top(t)).(stacks := s'.stacks)
      && s'.Stack(t) == s.Stack(t)[..|s.Stack(t)| - 1] + Replaced(s, a, s.Top(t)).value
  {
    hide Replaced, Effect;
  }

  /** Only the acting goroutine moves. */
  lemma OthersStay(s: State, t: nat, a: Action, s': State, u: nat)
    requires Step(s, t, a) == Some(s') && u != t
    ensures s'.Stack(u) == s.Stack(u)
  {
    StepUnfolds(s, t, a, s');
  }

  /** The innermost frame is in order, if there is one. */
  ghost predicate TopInv(s: State, t: nat) {
    s.Busy(t) ==> FrameInv(s, t, s.Top(t))
  }

  lemma HeapStep(s: State, t: nat, a: Action, s': State)
    requires TopInv(s, t) && HeapInv(s) && Step(s, t, a) == Some(s')
    ensures HeapInv(s')
  {
    StepUnfolds(s, t, a, s');
    hide Step;
    if !a.Call? {
      HeapAfter(s, t, a, s.Top(t));
      hide Replaced, Effect;
    }
  }

  /** The map and the heap change together, when LookUp meets a new key. */
  lemma HeapAfter(s: State, t: nat, a: Action, f: Frame)
    requires Replaced(s, a, f).Some?
    ensures var s' := Effect(s, t, a, f);
      if a.LookUp? && f.key !in s.entries then
        s'.entries == s.entries[f.key := |s.heap|] && s'.heap == s.heap + [Entry(f.key, Fresh, None)]
      else
        && s'.entries == s.entries && |s'.heap| == |s.heap|
        && forall i :: 0 <= i < |s.heap| ==> s'.heap[i].key == s.heap[i].key
  {
  }

  lemma SettlesStep(s: State, t: nat, a: Action, s': State)
    requires TopInv(s, t) && Step(s, t, a) == Some(s')
    ensures Settles(s, s')
  {
    StepUnfolds(s, t, a, s');
    hide Step;
  }

  lemma TopAfter(s: State, t: nat, a: Action, s': State)
    requires StackInv(s, t) && Step(s, t, a) == Some(s') && s'.Busy(t)
    ensures a.Call? ==> s'.Top(t) == Entering(a.key)
    ensures !a.Call? && Replaced(s, a, s.Top(t)).value != [] ==> s'.Top(t) == Replaced(s, a, s.Top(t)).value[0]
    ensures !a.Call? && Replaced(s, a, s.Top(t)).value == [] ==> s'.Top(t).Computing?
  {
    StepUnfolds(s, t, a, s');
    hide Step;
  }

  lemma HoldsAfter(s: State, t: nat, a: Action, s': State)
    requires StackInv(s, t) && Step(s, t, a) == Some(s')
    ensures Holds(s', t) <==> a.Lock? || a.LookUp?
    ensures Holds(s, t) <==> a.LookUp? || a.Unlock?
    ensures s'.mu == if a.Lock? then Some(t) else if a.Unlock? then None else s.mu
    ensures a.Lock? ==> s.mu.None?
  {
    StepUnfolds(s, t, a, s');
    if s'.Busy(t) {
      TopAfter(s, t, a, s');
    }
    hide Step, StackInv;
  }

  lemma MutexStep(s: State, t: nat, a: Action, s': State)
    requires MutexInv(s) && StackInv(s, t) && Step(s, t, a) == Some(s')
    ensures MutexInv(s')
  {
    StepUnfolds(s, t, a, s');
    HoldsAfter(s, t, a, s');
    assert forall u: nat :: u != t ==> (Holds(s', u) <==> Holds(s, u));
    hide Step, StackInv, Holds;
  }

  /** An entry that another frame is running is out of the actor's reach. */
  lemma RunningIsPrivate(s: State, t: nat, a: Action, s': State, u: nat, id: nat)
    requires TopInv(s, t) && Step(s, t, a) == Some(s')
    requires id < |s.heap| && s.heap[id].once == Running(u)
    requires u != t || (s.Busy(t) && Runs(s.Top(t)) ==> s.Top(t).id != id)
    ensures id < |s'.heap| && s'.heap[id] == s.heap[id]
  {
    StepUnfolds(s, t, a, s');
    hide Step;
  }

  lemma OtherFrameStep(s: State, t: nat, a: Action, s': State, u: nat, f: Frame)
    requires TopInv(s, t) && FrameInv(s, u, f) && Step(s, t, a) == Some(s')
    requires u != t || (s.Busy(t) && Runs(s.Top(t)) && Runs(f) ==> s.Top(t).id != f.id)
    ensures FrameInv(s', u, f)
  {
    SettlesStep(s, t, a, s');
    if Runs(f) {
      RunningIsPrivate(s, t, a, s', u, f.id);
    }
    hide Step;
  }

  lemma NewFrame(s: State, t: nat, a: Action, s': State)
    requires TopInv(s, t) && HeapInv(s) && Step(s, t, a) == Some(s') && !a.Call?
    ensures forall f :: f in Replaced(s, a, s.Top(t)).value ==>
      && FrameInv(s', t, f)
      && (Runs(f) ==> a.OnceFirst? || (Runs(s.Top(t)) && f.id == s.Top(t).id))
      && (a.OnceFirst? ==> Runs(f) && f.id == s.Top(t).id && s.heap[f.id].once.Fresh?)
  {
    StepUnfolds(s, t, a, s');
    hide Step;
  }

  lemma OwnStackStep(s: State, t: nat, a: Action, s': State)
    requires StackInv(s, t) && HeapInv(s) && Step(s, t, a) == Some(s')
    ensures StackInv(s', t)
  {
    StepUnfolds(s, t, a, s');
    var st, st' := s.Stack(t), s'.Stack(t);
    if a.Call? {
      forall i | 0 <= i < |st|
        ensures FrameInv(s', t, st[i])
      {
        assert FrameInv(s, t, st[i]);
      }
    } else {
      NewFrame(s, t, a, s');
      var r := Replaced(s, a, s.Top(t)).value;
      hide Step, Replaced, Effect;
      forall i | 0 <= i < |st| - 1
        ensures FrameInv(s', t, st[i])
      {
        assert FrameInv(s, t, st[i]) && Runs(st[i]);
        OtherFrameStep(s, t, a, s', t, st[i]);
      }
      assert |r| <= 1 by { OneFrameAtMost(s, a, s.Top(t)); }
      if r != [] {
        assert r[0] in r && st' == st[..|st| - 1] + [r[0]];
      } else {
        assert st' == st[..|st| - 1];
      }
    }
  }

  lemma OneFrameAtMost(s: State, a: Action, f: Frame)
    requires Replaced(s, a, f).Some?
    ensures |Replaced(s, a, f).value| <= 1
  {
  }

  lemma OtherStackStep(s: State, t: nat, a: Action, s': State, u: nat)
    requires TopInv(s, t) && StackInv(s, u) && Step(s, t, a) == Some(s') && u != t
    ensures StackInv(s', u)
  {
    StepUnfolds(s, t, a, s');
    hide Step, Replaced, Effect, FrameInv;
    var st := s.Stack(u);
    forall i | 0 <= i < |st|
      ensures FrameInv(s', u, st[i])
    {
      OtherFrameStep(s, t, a, s', u, st[i]);
    }
  }

  lemma StacksStep(s: State, t: nat, a: Action, s': State)
    requires Inv(s) && Step(s, t, a) == Some(s')
    ensures forall u: nat :: StackInv(s', u)
  {
    assert StackInv(s, t);
    hide Step, HeapInv, MutexInv, ComputeInv, ResultInv;
    forall u: nat
      ensures StackInv(s', u)
    {
      assert StackInv(s, u);
      if u == t {
        OwnStackStep(s, t, a, s');
      } else {
        OtherStackStep(s, t, a, s', u);
      }
    }
  }

  /** A frame that is not the actor's innermost one stays where it is. */
  lemma FrameStays(s: State, t: nat, a: Action, s': State, u: nat, f: Frame)
    requires Step(s, t, a) == Some(s') && f in s.Stack(u) && (u != t || a.Call? || f != s.Top(t))
    ensures f in s'.Stack(u)
  {
    StepUnfolds(s, t, a, s');
    hide Step, Replaced, Effect;
    if u == t && !a.Call? {
      var st := s.Stack(t);
      var i :| 0 <= i < |st| && st[i] == f;
      assert s'.Stack(t)[i] == f;
    }
  }

  lemma EntryStep(s: State, t: nat, a: Action, s': State, i: nat)
    requires StackInv(s, t) && HeapInv(s) && Step(s, t, a) == Some(s') && i < |s'.heap|
    requires forall j: nat :: j < |s.heap| ==> EntryInv(s, j)
    requires OutcomeInv(s)
    ensures EntryInv(s', i)
  {
    StepUnfolds(s, t, a, s');
    if i < |s.heap| {
      assert EntryInv(s, i);
      if s.heap[i].once.Running? {
        RunningEntryStep(s, t, a, s', i);
      } else if !a.Call? && a.OnceFirst? && s.Top(t).id == i {
        assert s'.Stack(t)[|s'.Stack(t)| - 1] == Computing(s.heap[i].key, i);
      }
    }
  }

  lemma OneFrameRuns(s: State, t: nat, f: Frame)
    requires StackInv(s, t) && f in s.Stack(t) && Runs(f) && f != s.Top(t) && Runs(s.Top(t))
    ensures s.Top(t).id != f.id
  {
    var st := s.Stack(t);
    var j :| 0 <= j < |st| && st[j] == f;
  }

  /** The frame inside compute for an entry that is running. */
  function Runner(s: State, i: nat): Frame
    requires i < |s.heap| && s.heap[i].once.Running?
  {
    var k, f := s.heap[i].key, Computing(s.heap[i].key, i);
    if f in s.Stack(s.heap[i].once.goroutine) && s.heap[i].value == None && k !in s.outcomes then f else Stored(k, i)
  }

  lemma RunningEntryStep(s: State, t: nat, a: Action, s': State, i: nat)
    requires StackInv(s, t) && HeapInv(s) && Step(s, t, a) == Some(s') && i < |s.heap| && i < |s'.heap|
    requires s.heap[i].once.Running? && EntryInv(s, i)
    ensures EntryInv(s', i)
  {
    var u, f := s.heap[i].once.goroutine, Runner(s, i);
    assert f in s.Stack(u) && Runs(f) && f.id == i;
    StepUnfolds(s, t, a, s');
    if u != t || a.Call? || f != s.Top(t) {
      FrameStays(s, t, a, s', u, f);
      if u == t && !a.Call? && Runs(s.Top(t)) {
        OneFrameRuns(s, t, f);
      }
      OtherEntryStays(s, t, a, s', u, i);
      hide Step, Replaced, Effect, StackInv, HeapInv;
    } else {
      hide Step, HeapInv;
      assert |s'.Stack(t)| == |s.Stack(t)| ==> s'.Stack(t)[|s.Stack(t)| - 1] == Replaced(s, a, f).value[0];
    }
  }

  lemma OtherEntryStays(s: State, t: nat, a: Action, s': State, u: nat, i: nat)
    requires StackInv(s, t) && HeapInv(s) && Step(s, t, a) == Some(s') && i < |s.heap| && i < |s'.heap|
    requires s.heap[i].once == Running(u)
    requires u != t || a.Call? || (Runs(s.Top(t)) ==> s.Top(t).id != i)
    requires u == t ==> s.Busy(t)
    ensures s'.heap[i] == s.heap[i]
    ensures s.heap[i].key in s'.outcomes <==> s.heap[i].key in s.outcomes
    ensures s.heap[i].key in s.outcomes ==> s'.outcomes[s.heap[i].key] == s.outcomes[s.heap[i].key]
  {
    StepUnfolds(s, t, a, s');
    if !a.Call? {
      assert FrameInv(s, t, s.Top(t));
    }
    hide Step, StackInv;
  }

  lemma OutcomeStep(s: State, t: nat, a: Action, s': State)
    requires TopInv(s, t) && HeapInv(s) && OutcomeInv(s) && Step(s, t, a) == Some(s')
    ensures OutcomeInv(s')
  {
    StepUnfolds(s, t, a, s');
    hide Step;
  }

  /** How a compute call ended is recorded once. */
  lemma OutcomesStay(s: State, t: nat, a: Action, s': State)
    requires Inv(s) && Step(s, t, a) == Some(s')
    ensures KeepsOutcomes(s, s')
  {
    StepUnfolds(s, t, a, s');
    if a.ComputeReturns? || a.ComputePanics? {
      RunsUnrecorded(s, t);
    }
  }

  /** The key of a frame inside compute has no outcome yet. */
  lemma RunsUnrecorded(s: State, t: nat)
    requires Inv(s) && s.Busy(t) && s.Top(t).Computing?
    ensures s.Top(t).key !in s.outcomes
  {
    var f := s.Top(t);
    assert StackInv(s, t) && FrameInv(s, t, f);
    assert EntryInv(s, f.id);
    AllCompute(s, t);
  }

  lemma AllCompute(s: State, t: nat)
    requires StackInv(s, t) && s.Busy(t) && s.Top(t).Computing?
    ensures forall g :: g in s.Stack(t) ==> g.Computing?
  {
    forall i | 0 <= i < |s.Stack(t)|
      ensures s.Stack(t)[i].Computing?
    {
    }
  }

  ghost predicate KeepsOutcomes(s: State, s': State) {
    forall k :: k in s.outcomes ==> k in s'.outcomes && s'.outcomes[k] == s.outcomes[k]
  }

  lemma FreshAfter(s: State, t: nat, a: Action, f: Frame)
    requires Replaced(s, a, f).Some? && !a.OnceFirst? && FrameInv(s, t, f)
    ensures var s' := Effect(s, t, a, f);
      && s'.computes == s.computes && |s.heap| <= |s'.heap|
      && (forall i :: 0 <= i < |s.heap| ==> s'.heap[i].once.Fresh? == s.heap[i].once.Fresh?)
      && (forall i :: |s.heap| <= i < |s'.heap| ==> s'.heap[i].once.Fresh?)
  {
  }

  lemma ComputeStep(s: State, t: nat, a: Action, s': State)
    requires TopInv(s, t) && HeapInv(s) && ComputeInv(s) && Step(s, t, a) == Some(s')
    ensures ComputeInv(s')
  {
    HeapStep(s, t, a, s');
    StepUnfolds(s, t, a, s');
    if a.OnceFirst? {
      StartsCompute(s, t, s');
    } else {
      hide Step;
      if !a.Call? {
        FreshAfter(s, t, a, s.Top(t));
        HeapAfter(s, t, a, s.Top(t));
        hide Replaced, Effect, FrameInv;
      }
    }
  }

  lemma StartsCompute(s: State, t: nat, s': State)
    requires TopInv(s, t) && HeapInv(s) && ComputeInv(s) && Step(s, t, OnceFirst) == Some(s')
    ensures ComputeInv(s')
  {
    StepUnfolds(s, t, OnceFirst, s');
    hide Step;
    var k, id := s.Top(t).key, s.Top(t).id;
    assert multiset(s'.computes) == multiset(s.computes) + multiset{k};
    forall k'
      ensures multiset(s'.computes)[k']
        == if k' in s'.entries && s'.entries[k'] < |s'.heap| && !s'.heap[s'.entries[k']].once.Fresh? then 1 else 0
    {
      if k' != k {
        assert k' in s.entries ==> s.entries[k'] != id;
      }
    }
  }

  lemma ResultStep(s: State, t: nat, a: Action, s': State)
    requires TopInv(s, t) && HeapInv(s) && ResultInv(s) && Step(s, t, a) == Some(s')
    ensures ResultInv(s')
  {
    SettlesStep(s, t, a, s');
    StepUnfolds(s, t, a, s');
    hide Step;
    forall i | 0 <= i < |s'.results|
      ensures var (k, v) := s'.results[i];
        && k in s'.entries && s'.entries[k] < |s'.heap|
        && s'.heap[s'.entries[k]].once == Done && s'.heap[s'.entries[k]].value == v
    {
      if i < |s.results| {
        assert s'.results[i] == s.results[i];
      }
    }
  }

  /** Every action of every goroutine keeps the invariant and settles entries. */
  lemma NextKeepsInv(s: State, s': State)
    requires Inv(s) && Next(s, s')
    ensures Inv(s') && Settles(s, s') && KeepsOutcomes(s, s')
  {
    var t: nat, a: Action :| Step(s, t, a) == Some(s');
    assert StackInv(s, t);
    hide Step, HeapInv, MutexInv, ComputeInv, ResultInv, OutcomeInv, Settles, EntryInv, KeepsOutcomes;
    HeapStep(s, t, a, s');
    SettlesStep(s, t, a, s');
    MutexStep(s, t, a, s');
    StacksStep(s, t, a, s');
    ComputeStep(s, t, a, s');
    ResultStep(s, t, a, s');
    OutcomeStep(s, t, a, s');
    OutcomesStay(s, t, a, s');
    forall i: nat | i < |s'.heap|
      ensures EntryInv(s', i)
    {
      EntryStep(s, t, a, s', i);
    }
  }

  lemma {:induction false} RunKeepsInv(run: seq<State>, i: nat)
    requires IsRun(run) && i < |run|
    ensures Inv(run[i])
  {
    if i == 0 {
      InitialInv();
    } else {
      RunKeepsInv(run, i - 1);
      NextKeepsInv(run[i - 1], run[i]);
    }
  }

  // ------------------------------------------------------------ what callers see

  /** In every interleaving compute is started at most once per key, and exactly
      once for a key some Get has completed on. */
  lemma ComputeRunsExactlyOnce(run: seq<State>, i: nat, k: Key)
    requires IsRun(run) && i < |run|
    ensures multiset(run[i].computes)[k] <= 1
    ensures forall j :: 0 <= j < |run[i].results| && run[i].results[j].0 == k ==>
      multiset(run[i].computes)[k] == 1
  {
    RunKeepsInv(run, i);
  }

  lemma {:induction false} RunSettles(run: seq<State>, i: nat, j: nat)
    requires IsRun(run) && i <= j < |run|
    ensures Settles(run[i], run[j])
    decreases j
  {
    hide Inv, Next, Settles;
    if i < j {
      RunSettles(run, i, j - 1);
      RunKeepsInv(run, j - 1);
      assert Next(run[j - 1], run[j]);
      NextKeepsInv(run[j - 1], run[j]);
      SettlesTransitive(run[i], run[j - 1], run[j]);
    } else {
      SettlesReflexive(run[i]);
    }
  }

  lemma SettlesReflexive(s: State)
    ensures Settles(s, s)
  {
  }

  lemma SettlesTransitive(s: State, s': State, s'': State)
    requires Settles(s, s') && Settles(s', s'')
    ensures Settles(s, s'')
  {
  }

  /** Two completed Gets of one key, at any two moments of any interleaving and
      however compute behaves, returned the same value. */
  lemma EveryGetAgrees(run: seq<State>, i: nat, j: nat, x: nat, y: nat)
    requires IsRun(run) && i <= j < |run|
    requires x < |run[i].results| && y < |run[j].results|
    requires run[i].results[x].0 == run[j].results[y].0
    ensures run[i].results[x].1 == run[j].results[y].1
  {
    RunKeepsInv(run, i);
    RunKeepsInv(run, j);
    RunSettles(run, i, j);
  }

  lemma {:induction false} RunKeepsOutcomes(run: seq<State>, i: nat, j: nat)
    requires IsRun(run) && i <= j < |run|
    ensures KeepsOutcomes(run[i], run[j])
    decreases j
  {
    hide Inv, Next, Settles;
    if i < j {
      RunKeepsOutcomes(run, i, j - 1);
      RunKeepsInv(run, j - 1);
      assert Next(run[j - 1], run[j]);
      NextKeepsInv(run[j - 1], run[j]);
    }
  }

  /** A completed Get returned exactly what its key's one compute call came to,
      at any later moment too: the value it returned, nil if that value was nil,
      and nil if it panicked. */
  lemma GetReturnsTheOutcome(run: seq<State>, i: nat, j: nat, x: nat)
    requires IsRun(run) && i <= j < |run| && x < |run[i].results|
    ensures var (k, v) := run[i].results[x];
      && k in run[j].outcomes && v == run[j].outcomes[k].Held()
      && multiset(run[j].computes)[k] == 1
  {
    RunKeepsInv(run, i);
    RunKeepsInv(run, j);
    RunSettles(run, i, j);
    RunKeepsOutcomes(run, i, j);
    var s, k := run[i], run[i].results[x].0;
    assert EntryInv(s, s.entries[k]);
  }

  /** So it returned nil exactly when that call returned nil or panicked. */
  lemma NilExactlyWhen(run: seq<State>, i: nat, x: nat)
    requires IsRun(run) && i < |run| && x < |run[i].results|
    ensures var (k, v) := run[i].results[x];
      && k in run[i].outcomes
      && (v.None? <==> run[i].outcomes[k] == Returned(None) || run[i].outcomes[k] == Panicked)
  {
    GetReturnsTheOutcome(run, i, i, x);
  }
}
