/** internal/verify/mutation.go: which scar-free sites are collected from a block, and
    that the edits made to the tree are the operators the proofs are about. */
module LockOffers {
  import opened LockProgram
  import opened LockEdits
  import opened LockVisits
  import AstEdits

  // ------------------------------------------------------------ collecting sites

  datatype Offer =
    | DowngradeAt(i: nat, j: nat, lock: string)
    | EscapeAt(i: nat, j: nat, lock: string)
    | UndeferAt(i: nat, j: nat, lock: string)

  /** Operator 1 is offered for every matched pair whose lock is declared in the file. */
  ghost predicate OffersDowngrade(b: seq<Stmt>, declared: string -> bool, i: int, j: int, lock: string) {
    IsPair(b, i, j, lock) && b[i] == Sync(Event(Lock, lock)) && declared(lock)
  }

  ghost predicate Offered(b: seq<Stmt>, declared: string -> bool, o: Offer) {
    match o
    case DowngradeAt(i, j, lock) => OffersDowngrade(b, declared, i, j, lock)
    case EscapeAt(i, j, lock) => OffersEscape(b, i, j, lock)
    case UndeferAt(i, j, lock) => OffersUndefer(b, i, j, lock)
  }

  lemma PairIsUnique(b: seq<Stmt>, i: int, j: int, j': int, lock: string)
    requires IsPair(b, i, j, lock) && IsPair(b, i, j', lock)
    ensures j == j'
  {
  }

  /** The sites of one block, comments apart. */
  method CollectIn(b: seq<Stmt>, declared: string -> bool) returns (offers: seq<Offer>)
    ensures forall o :: o in offers <==> Offered(b, declared, o)
  {
    offers := [];
    for i := 0 to |b|
      invariant forall o :: o in offers <==> Offered(b, declared, o) && o.i < i
    {
      if b[i].Sync? && b[i].ev.op == Lock {
        var lock := b[i].ev.lock;
        var at, deferred := FindUnlock(b, i, lock);
        ghost var before := offers;
        if at != -1 {
          if declared(lock) {
            offers := offers + [DowngradeAt(i, at, lock)];
          }
          if deferred {
            if 2 <= |b| - (at + 1) && !ExitsIn(b[at + 1..]) {
              offers := offers + [UndeferAt(i, at, lock)];
            }
          } else if 3 <= at - i {
            offers := offers + [EscapeAt(i, at, lock)];
          }
        }
        OffersHere(b, declared, i, at, lock, before, offers);
      }
    }
  }

  lemma OffersHere(b: seq<Stmt>, declared: string -> bool, i: nat, at: int, lock: string, before: seq<Offer>,
                   offers: seq<Offer>)
    requires i < |b| && b[i] == Sync(Event(Lock, lock))
    requires at == -1 ==> forall j :: i < j < |b| ==> !IsUnlock(b[j], lock)
    requires at != -1 ==> IsPair(b, i, at, lock)
    requires forall o :: o in before <==> Offered(b, declared, o) && o.i < i
    requires forall o :: o in offers <==>
      || o in before
      || (at != -1 && o == DowngradeAt(i, at, lock) && declared(lock))
      || (at != -1 && o == UndeferAt(i, at, lock) && b[at].Defer? && 2 <= |b| - (at + 1) && !ExitsIn(b[at + 1..]))
      || (at != -1 && o == EscapeAt(i, at, lock) && !b[at].Defer? && 3 <= at - i)
    ensures forall o :: o in offers <==> Offered(b, declared, o) && o.i < i + 1
  {
    hide ExitsIn;
    forall o | Offered(b, declared, o) && o.i == i
      ensures o in offers
    {
      assert o.lock == lock && IsPair(b, i, o.j, lock);
      assert at != -1;
      PairIsUnique(b, i, o.j, at, lock);
    }
  }

  // ------------------------------------------------------------ what the guards are for

  /** Operator 2 is offered exactly where the section it leaves still guards something. */
  lemma EscapeOfferedExactlyWhen(b: seq<Stmt>, i: nat, j: nat, lock: string)
    requires IsPair(b, i, j, lock) && b[i] == Sync(Event(Lock, lock)) && b[j].Sync? && i + 1 < j
    ensures OffersEscape(b, i, j, lock)
       <==> IsPair(Escaped(b, j), i, j - 1, lock) && Escaped(b, j)[i] == b[i] && i + 1 < j - 1
  {
  }

  /** Operator 2b is offered exactly where nothing it uncovers can exit and the section
      it leaves still guards something: its new Unlock is last but one, and the deferred
      one is gone. */
  lemma UndeferOfferedExactlyWhen(b: seq<Stmt>, i: nat, j: nat, lock: string)
    requires IsPair(b, i, j, lock) && b[i] == Sync(Event(Lock, lock)) && b[j].Defer? && j + 1 < |b|
    ensures var b' := Undeferred(b, j, lock);
      && |b'| == |b| && b'[|b| - 2] == Sync(Event(Unlock, lock)) && b'[|b| - 1] == b[|b| - 1]
      && (OffersUndefer(b, i, j, lock) <==> j < |b| - 2 && !ExitsIn(b'[j..|b| - 2] + [b'[|b| - 1]]))
  {
    var b' := Undeferred(b, j, lock);
    assert b'[j..|b| - 2] + [b'[|b| - 1]] == b[j + 1..];
  }

  // ------------------------------------------------------------ exitsIn

  predicate IsExit(s: Stmt) {
    s.Return? || s.Break? || s.Continue? || s.Panic?
  }

  /** An exit stands somewhere in the block, outside function literals. */
  ghost predicate ExitStands(b: seq<Stmt>, p: Path, i: nat) {
    Open(b, p) && i < |BlockAt(b, p)| && IsExit(BlockAt(b, p)[i])
  }

  lemma {:induction false} ExitFound(b: seq<Stmt>) returns (p: Path, i: nat)
    requires ExitsIn(b)
    ensures ExitStands(b, p, i)
    decreases b, 0
  {
    if ExitsInStmt(b[0]) {
      p, i := ExitFoundIn(b[0], b);
    } else {
      p, i := ExitFound(b[1..]);
      match p {
        case Here => i := i + 1;
        case Into(k, branch, rest) => p := Into(k + 1, branch, rest);
      }
    }
  }

  lemma {:induction false} ExitFoundIn(s: Stmt, b: seq<Stmt>) returns (p: Path, i: nat)
    requires b != [] && b[0] == s && ExitsInStmt(s)
    ensures ExitStands(b, p, i)
    decreases s, 1
  {
    p, i := Here, 0;
    match s {
      case If(_, thn, els) =>
        if ExitsIn(thn) {
          p, i := ExitFound(thn);
          p := Into(0, Then, p);
        } else {
          p, i := ExitFound(els);
          p := Into(0, Else, p);
        }
      case While(_, body) =>
        p, i := ExitFound(body);
        p := Into(0, Body, p);
      case _ =>
    }
  }

  lemma {:induction false} StandingExitIsFound(b: seq<Stmt>, p: Path, i: nat)
    requires ExitStands(b, p, i)
    ensures ExitsIn(b)
    decreases p
  {
    match p
    case Here => ExitsAtIndex(b, i);
    case Into(k, branch, rest) =>
      match b[k] {
        case If(_, thn, els) => StandingExitIsFound(if branch == Then then thn else els, rest, i);
        case While(_, body) => StandingExitIsFound(body, rest, i);
      }
      ExitsAtIndex(b, k);
  }

  lemma {:induction false} ExitsAtIndex(b: seq<Stmt>, i: nat)
    requires i < |b| && ExitsInStmt(b[i])
    ensures ExitsIn(b)
    decreases i
  {
    if i != 0 {
      ExitsAtIndex(b[1..], i - 1);
    }
  }

  /** The veto fires exactly when a return, break, continue or panic stands under the
      ifs and loops of the block, outside its literals. */
  lemma ExitsExactlyWhen(b: seq<Stmt>)
    ensures ExitsIn(b) <==> exists p: Path, i: nat :: ExitStands(b, p, i)
  {
    if ExitsIn(b) {
      var p, i := ExitFound(b);
    }
    if exists p: Path, i: nat :: ExitStands(b, p, i) {
      var p: Path, i: nat :| ExitStands(b, p, i);
      StandingExitIsFound(b, p, i);
    }
  }

  // ------------------------------------------------------------ edits mean operators

  /** The program a list of tree statements stands for. */
  function Denoted(m: AstEdits.Stmt -> Stmt, stmts: seq<AstEdits.Stmt>): (b: seq<Stmt>)
    ensures |b| == |stmts| && forall i :: 0 <= i < |stmts| ==> b[i] == m(stmts[i])
  {
    seq(|stmts|, i requires 0 <= i < |stmts| => m(stmts[i]))
  }

  /** The in-place swap is operator 2, whatever the statements mean. */
  lemma EscapeDenotesEscaped(m: AstEdits.Stmt -> Stmt, blk: AstEdits.Block, a: nat, stmts: seq<AstEdits.Stmt>)
    requires a + 1 < |stmts|
    ensures Denoted(m, AstEdits.Rearranged(AstEdits.Escape(blk, a), stmts)) == Escaped(Denoted(m, stmts), a + 1)
    ensures forall i :: 0 <= i < |stmts| ==>
      AstEdits.Rearranged(AstEdits.Escape(blk, a), stmts)[i] == stmts[if i == a then a + 1 else if i == a + 1 then a else i]
  {
  }

  /** The list operator 2b puts in place of the block's own. */
  function UndeferredList(stmts: seq<AstEdits.Stmt>, j: nat, plain: AstEdits.Stmt): seq<AstEdits.Stmt>
    requires j + 1 < |stmts|
  {
    var guarded := stmts[j + 1..];
    stmts[..j] + guarded[..|guarded| - 1] + [plain, guarded[|guarded| - 1]]
  }

  lemma UndeferDenotesUndeferred(m: AstEdits.Stmt -> Stmt, stmts: seq<AstEdits.Stmt>, j: nat, plain: AstEdits.Stmt,
                                 lock: string)
    requires j + 1 < |stmts| && m(plain) == Sync(Event(Unlock, lock))
    ensures Denoted(m, UndeferredList(stmts, j, plain)) == Undeferred(Denoted(m, stmts), j, lock)
  {
    var b := Denoted(m, stmts);
    assert stmts[j + 1..][..|stmts| - j - 2] == stmts[j + 1..|stmts| - 1];
    assert Denoted(m, stmts[..j]) == b[..j] && Denoted(m, stmts[j + 1..|stmts| - 1]) == b[j + 1..|b| - 1];
    assert Denoted(m, UndeferredList(stmts, j, plain))
        == Denoted(m, stmts[..j]) + Denoted(m, stmts[j + 1..|stmts| - 1]) + [m(plain), m(stmts[|stmts| - 1])];
  }

  /** The lock operation a method name calls. */
  function Operation(name: string): Op {
    if name == "Lock" then Lock else if name == "Unlock" then Unlock else if name == "RLock" then RLock else RUnlock
  }

  /** Renaming the pair's selectors is operator 1: the operations at i and j become the
      read lock's, and the lock's type one that has them. */
  lemma DowngradeDenotesDowngraded(s: AstEdits.Site, b: seq<Stmt>, i: nat, j: nat, lock: string)
    requires s.Downgrade? && s.lock != s.unlock && s.lock != s.decl && s.unlock != s.decl
    requires IsPair(b, i, j, lock) && b[i] == Sync(Event(Lock, lock))
    ensures var (x, y) := (AstEdits.Renaming(s, s.lock, "Lock"), AstEdits.Renaming(s, s.unlock, "Unlock"));
      Downgraded(b, i, j, lock)
      == b[i := Sync(Event(Operation(x), lock))][j := b[j].(ev := Event(Operation(y), lock))]
    ensures AstEdits.Renaming(s, s.decl, s.was) == "RWMutex"
    ensures forall x, name :: x != s.lock && x != s.unlock && x != s.decl ==> AstEdits.Renaming(s, x, name) == name
  {
  }
}
