/** cmd/go-cascade/main.go: the paired run's checkpoint and resume. Each run may
    be killed at any point, between the two file writes and inside one included;
    a failed write ends the run and so counts as a kill. */
module Resume {

  /** One arm's record of one problem. */
  datatype Rec = Rec(id: string, verdict: string)

  datatype File = Absent | Torn | Whole(recs: seq<Rec>)

  /** The two arms' record files. */
  datatype Arms = Arms(exec: File, judge: File)

  /** What profiling one problem comes to. */
  datatype Profiled = Both(exec: string, judge: string) | Skipped | Cancelled

  /** One invocation: its problems, what profiling gives, and how many atomic
      actions it gets to perform before it is killed. */
  datatype Attempt = Attempt(probs: seq<string>, profile: string -> Profiled, resume: bool, budget: nat)

  /** How a run ended; Split is a kill between the two writes of a checkpoint
      that carried a new problem. */
  datatype Halt = Finished | Killed | Split

  datatype End = End(arms: Arms, halt: Halt)

  /** A file write is three atomic actions: create the temporary, fill it, rename. */
  const WRITE: nat := 3

  function Load(f: File): seq<Rec> {
    if f.Whole? then f.recs else []
  }

  function Ids(recs: seq<Rec>): (ids: seq<string>)
    ensures |ids| == |recs| && forall i :: 0 <= i < |recs| ==> ids[i] == recs[i].id
  {
    if recs == [] then [] else Ids(recs[..|recs| - 1]) + [recs[|recs| - 1].id]
  }

  predicate Has(recs: seq<Rec>, id: string) {
    exists i :: 0 <= i < |recs| && recs[i].id == id
  }

  // ------------------------------------------------------------ one run

  /** The final checkpoint, which carries nothing new. */
  function Flush(exec: seq<Rec>, judge: seq<Rec>, arms: Arms, left: nat): End {
    if left < WRITE then End(arms, Killed)
    else if left < 2 * WRITE then End(arms.(exec := Whole(exec)), Killed)
    else End(Arms(Whole(exec), Whole(judge)), Finished)
  }

  /** The problem loop from problem i, with the records held in memory. */
  function LoopFrom(a: Attempt, done: seq<Rec>, i: nat, exec: seq<Rec>, judge: seq<Rec>,
                    arms: Arms, left: nat): End
    requires i <= |a.probs|
    decreases |a.probs| - i
  {
    if i == |a.probs| then Flush(exec, judge, arms, left)
    else
      var id := a.probs[i];
      if Has(done, id) then LoopFrom(a, done, i + 1, exec, judge, arms, left)
      else if left == 0 then End(arms, Killed)
      else
        match a.profile(id)
        case Cancelled => Flush(exec, judge, arms, left - 1)
        case Skipped => LoopFrom(a, done, i + 1, exec, judge, arms, left - 1)
        case Both(e, j) =>
          var exec', judge', left' := exec + [Rec(id, e)], judge + [Rec(id, j)], left - 1;
          if left' < WRITE then End(arms, Killed)
          else if left' < 2 * WRITE then End(arms.(exec := Whole(exec')), Split)
          else LoopFrom(a, done, i + 1, exec', judge', Arms(Whole(exec'), Whole(judge')), left' - 2 * WRITE)
  }

  /** Resuming loads both arms but skips by the execution arm's ids only. */
  function RunOf(a: Attempt, arms: Arms): End {
    if a.resume then
      LoopFrom(a, Load(arms.exec), 0, Load(arms.exec), Load(arms.judge), arms, a.budget)
    else LoopFrom(a, [], 0, [], [], arms, a.budget)
  }

  // ------------------------------------------------------------ the program

  const EXEC: string := "records.execution.json"
  const JUDGE: string := "records.judge.json"

  /** The directory, and the actions left before the process is killed. */
  class Process {
    var files: map<string, File>
    var left: nat
    var killed: bool

    function At(path: string): File
      reads this
    {
      if path in files then files[path] else Absent
    }

    ghost function OnDisk(): Arms
      reads this
    {
      Arms(At(EXEC), At(JUDGE))
    }

    constructor (disk: map<string, File>, budget: nat)
      ensures files == disk && left == budget && !killed
    {
      files, left, killed := disk, budget, false;
    }

    method Act()
      requires !killed
      modifies this`left, this`killed
      ensures killed == (old(left) == 0)
      ensures left == if killed then 0 else old(left) - 1
    {
      if left == 0 {
        killed := true;
      } else {
        left := left - 1;
      }
    }

    /** writeJSONFile: a kill leaves the target as it was; otherwise it is whole. */
    method WriteFile(path: string, tmp: string, recs: seq<Rec>)
      requires !killed && path != tmp
      modifies this
      ensures killed == (old(left) < WRITE)
      ensures !killed ==> left == old(left) - WRITE
      ensures At(path) == if killed then old(At(path)) else Whole(recs)
      ensures forall p :: p != path && p != tmp ==> At(p) == old(At(p))
    {
      Act();
      if killed { return; }
      files := files[tmp := Torn];
      Act();
      if killed { return; }
      files := files[tmp := Whole(recs)];
      Act();
      if killed { return; }
      files := files[path := files[tmp]] - {tmp};
    }

    /** checkpoint: the execution arm first, then the judge arm. */
    method Checkpoint(exec: seq<Rec>, judge: seq<Rec>, tmp: string)
      requires !killed && tmp != EXEC && tmp != JUDGE
      modifies this
      ensures killed == (old(left) < 2 * WRITE)
      ensures !killed ==> left == old(left) - 2 * WRITE
      ensures OnDisk() == if old(left) < WRITE then old(OnDisk())
                          else if killed then old(OnDisk()).(exec := Whole(exec))
                          else Arms(Whole(exec), Whole(judge))
    {
      WriteFile(EXEC, tmp, exec);
      if killed { return; }
      WriteFile(JUDGE, tmp, judge);
    }

    method RunCompare(a: Attempt, tmp: string)
      requires !killed && left == a.budget && tmp != EXEC && tmp != JUDGE
      modifies this
      ensures OnDisk() == RunOf(a, old(OnDisk())).arms
      ensures killed <==> !RunOf(a, old(OnDisk())).halt.Finished?
    {
      var exec, judge, done: seq<Rec> := [], [], [];
      if a.resume {
        exec, judge := Load(At(EXEC)), Load(At(JUDGE));
        done := exec;
      }
      var i := 0;
      while i < |a.probs|
        invariant i <= |a.probs| && !killed
        invariant LoopFrom(a, done, i, exec, judge, OnDisk(), left) == RunOf(a, old(OnDisk()))
      {
        var id := a.probs[i];
        i := i + 1;
        if Has(done, id) {
          continue;
        }
        Act();
        if killed { return; }
        match a.profile(id) {
          case Cancelled => break;
          case Skipped =>
          case Both(e, j) =>
            exec, judge := exec + [Rec(id, e)], judge + [Rec(id, j)];
            Checkpoint(exec, judge, tmp);
            if killed { return; }
        }
      }
      Checkpoint(exec, judge, tmp);
    }
  }
}
