/** internal/verify/mutation.go: mutation sites are edits applied to one shared
    syntax tree and undone again before the next. Identifiers, positions, blocks
    and statement lists are objects; statements may share them. */
module AstEdits {

  /** A name or token that an edit can overwrite. */
  class Ident {
    var name: string
  }

  /** One recorded source position; 0 is token.NoPos. */
  class Cell {
    var pos: nat
  }

  /** A statement, as the position fields found in its subtree, in visiting order.
      Nothing says they are distinct, within a statement or between two. */
  datatype Stmt = Stmt(kind: string, cells: seq<Cell>)

  /** An expression, as the operators it holds; negating one puts it in
      parentheses under a !. */
  datatype Expr = Plain(toks: seq<Ident>) | Not(x: Expr)

  /** An if statement's condition. */
  class Guard {
    var cond: Expr

    constructor (cond: Expr)
      ensures this.cond == cond
    {
      this.cond := cond;
    }
  }

  class Block {
    var list: array<Stmt>
    var rbrace: Cell

    constructor (list: array<Stmt>, rbrace: Cell)
      ensures this.list == list && this.rbrace == rbrace
    {
      this.list, this.rbrace := list, rbrace;
    }
  }

  /** The restore log: what each position was when it was zeroed. */
  type Log = seq<(Cell, nat)>

  datatype Site =
    | Retoken(tok: Ident, to: string, from: string)          // swap an operator
    | Negate(guard: Guard, cond: Expr)                        // negate an if's condition
    | Downgrade(lock: Ident, unlock: Ident, decl: Ident, was: string)
    | Replace(blk: Block, i: nat, stmt: Stmt, instead: Stmt)  // delete a call, defer a Wait
    | Escape(blk: Block, a: nat)                              // swap a and a + 1
    | Undefer(blk: Block, at: nat, orig: array<Stmt>, mutated: array<Stmt>)

  /** Every object of the file's syntax tree, and of the lists built for its sites. */
  datatype Tree = Tree(idents: set<Ident>, cells: set<Cell>, guards: set<Guard>, blocks: set<Block>,
                       lists: set<array<Stmt>>)

  ghost predicate CellsIn(stmts: seq<Stmt>, t: Tree) {
    forall i :: 0 <= i < |stmts| ==> forall c :: c in stmts[i].cells ==> c in t.cells
  }

  ghost predicate InTree(s: Site, t: Tree) {
    match s
    case Retoken(tok, _, _) => tok in t.idents
    case Negate(guard, _) => guard in t.guards
    case Downgrade(lock, unlock, decl, _) =>
      lock in t.idents && unlock in t.idents && decl in t.idents && lock != unlock && lock != decl && unlock != decl
    case Replace(blk, _, _, _) => blk in t.blocks
    case Escape(blk, _) => blk in t.blocks
    case Undefer(blk, _, _, mutated) => blk in t.blocks && mutated in t.lists
  }

  /** The tree is closed under the references an edit follows. */
  ghost predicate Closed(t: Tree)
    reads t.blocks, t.lists
  {
    && (forall b :: b in t.blocks ==> b.list in t.lists && b.rbrace in t.cells)
    && (forall l :: l in t.lists ==> CellsIn(l[..], t))
  }

  /** The site was collected from the tree as it now is. */
  ghost predicate Fits(s: Site, t: Tree)
    reads t.idents, t.guards, t.blocks, t.lists
  {
    InTree(s, t) &&
    match s
    case Retoken(tok, _, from) => tok.name == from
    case Negate(guard, cond) => guard.cond == cond
    case Downgrade(lock, unlock, decl, was) =>
      lock.name == "Lock" && unlock.name == "Unlock" && decl.name == was && (was == "Mutex" || was == "RWMutex")
    case Replace(blk, i, stmt, _) => blk.list in t.lists && i < blk.list.Length && blk.list[i] == stmt
    case Escape(blk, a) => blk.list in t.lists && a + 1 < blk.list.Length
    case Undefer(blk, at, orig, mutated) => blk.list == orig && at <= mutated.Length
  }

  // ------------------------------------------------------------ clearPositions

  ghost predicate First(log: Log, i: nat)
    requires i < |log|
  {
    forall j :: 0 <= j < i ==> log[j].0 != log[i].0
  }

  ghost predicate Logged(log: Log, c: Cell) {
    exists i :: 0 <= i < |log| && log[i].0 == c
  }

  /** The log holds the position every zeroed field had before, at its first
      entry; all other positions are as they were. */
  twostate predicate Recorded(new log: Log, t: Tree)
    reads t.cells
  {
    && (forall i :: 0 <= i < |log| ==> log[i].0 in t.cells)
    && (forall i :: 0 <= i < |log| && First(log, i) ==> log[i].1 == old(log[i].0.pos))
    && (forall c :: c in t.cells && !Logged(log, c) ==> c.pos == old(c.pos))
  }

  /** c is a position of one of the statements. */
  ghost predicate Holds(stmts: seq<Stmt>, c: Cell) {
    exists i :: 0 <= i < |stmts| && c in stmts[i].cells
  }

  /** Every logged position is now zero. */
  ghost predicate Zeroed(log: Log)
    reads set i | 0 <= i < |log| :: log[i].0
  {
    forall i :: 0 <= i < |log| ==> log[i].0.pos == 0
  }

  lemma HoldsSnoc(stmts: seq<Stmt>, i: nat)
    requires i < |stmts|
    ensures forall c :: Holds(stmts[..i + 1], c) <==> Holds(stmts[..i], c) || c in stmts[i].cells
  {
    var init, longer := stmts[..i], stmts[..i + 1];
    forall c | Holds(init, c) || c in stmts[i].cells
      ensures Holds(longer, c)
    {
      if c in stmts[i].cells {
        assert longer[i] == stmts[i];
      } else {
        var k :| 0 <= k < |init| && c in init[k].cells;
        assert longer[k] == init[k];
      }
    }
    forall c | Holds(longer, c)
      ensures Holds(init, c) || c in stmts[i].cells
    {
      var k :| 0 <= k < |longer| && c in longer[k].cells;
      if k < i {
        assert init[k] == longer[k];
      }
    }
  }

  /** Zeroes every position of the statements, in order, recording each. */
  method ClearPositions(stmts: seq<Stmt>, t: Tree) returns (log: Log)
    requires CellsIn(stmts, t)
    modifies t.cells
    ensures Recorded(log, t) && Zeroed(log)
    ensures forall c :: c in t.cells ==> (Logged(log, c) <==> Holds(stmts, c))
  {
    hide Holds, Logged, First;
    log := [];
    NothingLogged();
    NothingHeld();
    for i := 0 to |stmts|
      invariant Recorded(log, t) && Zeroed(log)
      invariant forall c :: c in t.cells ==> (Logged(log, c) <==> Holds(stmts[..i], c))
    {
      var cells := stmts[i].cells;
      HoldsSnoc(stmts, i);
      for j := 0 to |cells|
        invariant Recorded(log, t) && Zeroed(log)
        invariant forall c :: c in t.cells ==> (Logged(log, c) <==> Holds(stmts[..i], c) || c in cells[..j])
      {
        assert cells[..j + 1] == cells[..j] + [cells[j]];
        log := Zero(cells[j], log);
      }
      assert cells[..|cells|] == cells;
    }
    assert stmts[..|stmts|] == stmts;
  }

  lemma LoggedAreZero(log: Log)
    requires Zeroed(log)
    ensures forall c :: Logged(log, c) ==> c.pos == 0
  {
  }

  lemma NothingHeld()
    ensures forall c :: !Holds([], c)
  {
  }

  lemma LoggedSnoc(log: Log, e: (Cell, nat))
    ensures forall c :: Logged(log + [e], c) <==> Logged(log, c) || c == e.0
    ensures First(log + [e], |log|) ==> !Logged(log, e.0)
  {
    var all := log + [e];
    assert all[|log|] == e;
    assert forall i :: 0 <= i < |log| ==> all[i] == log[i];
  }

  lemma LoggedCons(log: Log, i: nat)
    requires i < |log|
    ensures forall c :: Logged(log[i..], c) <==> Logged(log[i + 1..], c) || c == log[i].0
  {
    var tail := log[i..];
    assert tail == [log[i]] + log[i + 1..];
    assert tail[0] == log[i];
    forall c
      ensures Logged(tail, c) <==> Logged(log[i + 1..], c) || c == log[i].0
    {
      if Logged(log[i + 1..], c) {
        var k :| 0 <= k < |log[i + 1..]| && log[i + 1..][k].0 == c;
        assert tail[k + 1].0 == c;
      }
      if Logged(tail, c) && c != log[i].0 {
        var k :| 0 <= k < |tail| && tail[k].0 == c;
        assert log[i + 1..][k - 1].0 == c;
      }
    }
  }

  lemma NothingLogged()
    ensures forall c :: !Logged([], c)
  {
  }

  method Zero(c: Cell, log: Log) returns (log': Log)
    modifies c
    ensures log' == log + [(c, old(c.pos))] && c.pos == 0
    ensures forall x :: Logged(log', x) <==> Logged(log, x) || x == c
    ensures First(log', |log|) ==> !Logged(log, c)
    ensures forall i :: 0 <= i < |log| ==> log'[i] == log[i] && (First(log', i) <==> First(log, i))
  {
    LoggedSnoc(log, (c, c.pos));
    log' := log + [(c, c.pos)];
    c.pos := 0;
  }

  /** A block's statements and then its closing brace. */
  method ClearBlock(stmts: seq<Stmt>, rbrace: Cell, t: Tree) returns (log: Log)
    requires CellsIn(stmts, t) && rbrace in t.cells
    modifies t.cells
    ensures Recorded(log, t) && Zeroed(log)
    ensures forall c :: c in t.cells ==> (Logged(log, c) <==> Holds(stmts, c) || c == rbrace)
  {
    hide Holds, Logged, First;
    log := ClearPositions(stmts, t);
    log := Zero(rbrace, log);
  }

  /** Runs the log newest first: whatever was zeroed twice gets back the value
      recorded the first time. */
  method Restore(log: Log, t: Tree)
    requires forall i :: 0 <= i < |log| ==> log[i].0 in t.cells
    modifies t.cells
    ensures forall i :: 0 <= i < |log| && First(log, i) ==> log[i].0.pos == log[i].1
    ensures forall c :: c in t.cells && !Logged(log, c) ==> c.pos == old(c.pos)
  {
    var i := |log|;
    while 0 < i
      invariant 0 <= i <= |log|
      invariant forall k :: i <= k < |log| && (forall j :: i <= j < k ==> log[j].0 != log[k].0) ==> log[k].0.pos == log[k].1
      invariant forall c :: c in t.cells && !Logged(log[i..], c) ==> c.pos == old(c.pos)
    {
      i := i - 1;
      LoggedCons(log, i);
      log[i].0.pos := log[i].1;
    }
    assert log[0..] == log;
  }

  // ------------------------------------------------------------ apply and revert

  /** The name x has once the site is applied, and once it is reverted. */
  function Renaming(s: Site, x: Ident, name: string): string {
    match s
    case Retoken(tok, to, _) => if x == tok then to else name
    case Downgrade(lock, unlock, decl, _) =>
      if x == lock then "RLock" else if x == unlock then "RUnlock" else if x == decl then "RWMutex" else name
    case _ => name
  }

  function Unnaming(s: Site, x: Ident, name: string): string {
    match s
    case Retoken(tok, _, from) => if x == tok then from else name
    case Downgrade(lock, unlock, decl, was) =>
      if x == lock then "Lock" else if x == unlock then "Unlock" else if x == decl then was else name
    case _ => name
  }

  /** The positions the site has zeroed while it is applied: both swapped statements,
      or all that follows the new Unlock, the closing brace included. */
  ghost predicate Clears(s: Site, c: Cell)
    reads if s.Escape? || s.Undefer? then {s.blk} else {}
    reads if s.Escape? then {s.blk.list} else {}
    reads if s.Undefer? then {s.mutated} else {}
  {
    match s
    case Escape(blk, a) => a + 1 < blk.list.Length && (c in blk.list[a].cells || c in blk.list[a + 1].cells)
    case Undefer(blk, at, _, mutated) => at <= mutated.Length && (Holds(mutated[at..], c) || c == blk.rbrace)
    case _ => false
  }

  lemma HoldsTwo(x: Stmt, y: Stmt)
    ensures forall c :: Holds([x, y], c) <==> c in x.cells || c in y.cells
  {
    forall c | c in x.cells || c in y.cells
      ensures Holds([x, y], c)
    {
      assert [x, y][0] == x && [x, y][1] == y;
    }
  }

  predicate EditsInPlace(s: Site, length: nat) {
    match s
    case Replace(_, i, _, _) => i < length
    case Escape(_, a) => a + 1 < length
    case _ => false
  }

  /** The block's statements once the site is applied, and once it is reverted. */
  function Rearranged(s: Site, stmts: seq<Stmt>): seq<Stmt>
    requires EditsInPlace(s, |stmts|)
  {
    match s
    case Replace(_, i, _, instead) => stmts[i := instead]
    case Escape(_, a) => stmts[a := stmts[a + 1]][a + 1 := stmts[a]]
  }

  function Reordered(s: Site, stmts: seq<Stmt>): seq<Stmt>
    requires EditsInPlace(s, |stmts|)
  {
    match s
    case Replace(_, i, stmt, _) => stmts[i := stmt]
    case Escape(_, a) => stmts[a := stmts[a + 1]][a + 1 := stmts[a]]
  }

  class Edit {
    const site: Site
    var restore: Log

    constructor (site: Site)
      ensures this.site == site && restore == []
    {
      this.site, restore := site, [];
    }

    /** The array the site edits in place, if any. */
    ghost predicate Edits(l: array<Stmt>)
      reads if site.Replace? || site.Escape? then {site.blk} else {}
    {
      (site.Replace? || site.Escape?) && l == site.blk.list && EditsInPlace(site, l.Length)
    }

    predicate EditsList() {
      site.Replace? || site.Escape? || site.Undefer?
    }

    /** The sites that overwrite a name, a token or a condition. */
    method ApplyToName(t: Tree)
      requires Fits(site, t) && !EditsList()
      modifies t.idents, t.guards
      ensures forall x :: x in t.idents ==> x.name == Renaming(site, x, old(x.name))
      ensures forall g :: g in t.guards ==>
        g.cond == if site.Negate? && g == site.guard then Not(site.cond) else old(g.cond)
    {
      match site
      case Retoken(tok, to, _) => tok.name := to;
      case Negate(guard, cond) => guard.cond := Not(cond);
      case Downgrade(lock, unlock, decl, _) =>
        lock.name, unlock.name := "RLock", "RUnlock";
        decl.name := "RWMutex";
    }

    /** The sites that change a block's statements. */
    method ApplyToList(t: Tree)
      requires Closed(t) && Fits(site, t) && EditsList() && restore == []
      modifies this, t.cells, t.blocks, t.lists
      ensures forall b :: b in t.blocks ==> b.rbrace == old(b.rbrace)
      ensures forall b :: b in t.blocks ==>
        b.list == if site.Undefer? && b == site.blk then site.mutated else old(b.list)
      ensures forall l :: l in t.lists ==>
        l[..] == if old(Edits(l)) then Rearranged(site, old(l[..])) else old(l[..])
      ensures Recorded(restore, t)
      ensures forall c :: c in t.cells ==> (Logged(restore, c) <==> old(Clears(site, c)))
      ensures Zeroed(restore)
    {
      hide First, Logged, Holds;
      NothingLogged();
      match site
      case Replace(blk, i, _, instead) => blk.list[i] := instead;
      case Escape(blk, a) =>
        blk.list[a], blk.list[a + 1] := blk.list[a + 1], blk.list[a];
        HoldsTwo(blk.list[a], blk.list[a + 1]);
        var log := ClearPositions([blk.list[a], blk.list[a + 1]], t);
        restore := log;
      case Undefer(blk, at, _, mutated) =>
        blk.list := mutated;
        var log := ClearBlock(mutated[at..], blk.rbrace, t);
        restore := log;
    }

    method Apply(t: Tree)
      requires Closed(t) && Fits(site, t)
      modifies this, t.idents, t.cells, t.guards, t.blocks, t.lists
      ensures forall x :: x in t.idents ==> x.name == Renaming(site, x, old(x.name))
      ensures forall g :: g in t.guards ==>
        g.cond == if site.Negate? && g == site.guard then Not(site.cond) else old(g.cond)
      ensures forall b :: b in t.blocks ==> b.rbrace == old(b.rbrace)
      ensures forall b :: b in t.blocks ==>
        b.list == if site.Undefer? && b == site.blk then site.mutated else old(b.list)
      ensures forall l :: l in t.lists ==>
        l[..] == if old(Edits(l)) then Rearranged(site, old(l[..])) else old(l[..])
      ensures Recorded(restore, t)
      ensures forall c :: c in t.cells ==> c.pos == (if old(Clears(site, c)) then 0 else old(c.pos))
    {
      hide First, Logged, Rearranged, Holds;
      restore := [];
      NothingLogged();
      if EditsList() {
        ApplyToList(t);
        LoggedAreZero(restore);
      } else {
        ApplyToName(t);
      }
    }

    method RevertName(t: Tree)
      requires InTree(site, t) && !EditsList()
      modifies t.idents, t.guards
      ensures forall x :: x in t.idents ==> x.name == Unnaming(site, x, old(x.name))
      ensures forall g :: g in t.guards ==>
        g.cond == if site.Negate? && g == site.guard then site.cond else old(g.cond)
    {
      match site
      case Retoken(tok, _, from) => tok.name := from;
      case Negate(guard, cond) => guard.cond := cond;
      case Downgrade(lock, unlock, decl, was) =>
        lock.name, unlock.name := "Lock", "Unlock";
        decl.name := was;
    }

    method RevertList(t: Tree)
      requires InTree(site, t) && EditsList()
      requires site.Undefer? ==> site.orig in t.lists
      requires site.Replace? || site.Escape? ==> site.blk.list in t.lists && EditsInPlace(site, site.blk.list.Length)
      modifies t.blocks, t.lists
      ensures forall b :: b in t.blocks ==> b.rbrace == old(b.rbrace)
      ensures forall b :: b in t.blocks ==>
        b.list == if site.Undefer? && b == site.blk then site.orig else old(b.list)
      ensures forall l :: l in t.lists ==>
        l[..] == if old(Edits(l)) then Reordered(site, old(l[..])) else old(l[..])
    {
      match site
      case Replace(blk, i, stmt, _) => blk.list[i] := stmt;
      case Escape(blk, a) => blk.list[a], blk.list[a + 1] := blk.list[a + 1], blk.list[a];
      case Undefer(blk, _, orig, _) => blk.list := orig;
    }

    method Revert(t: Tree)
      requires InTree(site, t)
      requires site.Undefer? ==> site.orig in t.lists
      requires site.Replace? || site.Escape? ==> site.blk.list in t.lists && EditsInPlace(site, site.blk.list.Length)
      requires forall i :: 0 <= i < |restore| ==> restore[i].0 in t.cells
      modifies this, t.idents, t.cells, t.guards, t.blocks, t.lists
      ensures forall x :: x in t.idents ==> x.name == Unnaming(site, x, old(x.name))
      ensures forall g :: g in t.guards ==>
        g.cond == if site.Negate? && g == site.guard then site.cond else old(g.cond)
      ensures forall b :: b in t.blocks ==> b.rbrace == old(b.rbrace)
      ensures forall b :: b in t.blocks ==>
        b.list == if site.Undefer? && b == site.blk then site.orig else old(b.list)
      ensures forall l :: l in t.lists ==>
        l[..] == if old(Edits(l)) then Reordered(site, old(l[..])) else old(l[..])
      ensures var log := old(restore); forall i :: 0 <= i < |log| && First(log, i) ==> log[i].0.pos == log[i].1
      ensures forall c :: c in t.cells && !Logged(old(restore), c) ==> c.pos == old(c.pos)
    {
      hide First, Logged, Reordered, InTree, EditsInPlace;
      Restore(restore, t);
      restore := [];
      if EditsList() {
        RevertList(t);
      } else {
        RevertName(t);
      }
    }
  }

  /** Every name, position, condition, block and statement list is what it was. */
  twostate predicate NoTrace(t: Tree)
    reads t.idents, t.cells, t.guards, t.blocks, t.lists
  {
    && (forall x :: x in t.idents ==> x.name == old(x.name))
    && (forall c :: c in t.cells ==> c.pos == old(c.pos))
    && (forall g :: g in t.guards ==> g.cond == old(g.cond))
    && (forall b :: b in t.blocks ==> b.list == old(b.list) && b.rbrace == old(b.rbrace))
    && (forall l :: l in t.lists ==> l[..] == old(l[..]))
  }

  /** What applying a site that overwrites one thing comes to. */
  lemma AppliedOnce(s: Site, stmts: seq<Stmt>)
    ensures s.Retoken? ==> forall x, name :: Renaming(s, x, name) == if x == s.tok then s.to else name
    ensures s.Replace? && s.i < |stmts| ==>
      && Rearranged(s, stmts)[s.i] == s.instead && |Rearranged(s, stmts)| == |stmts|
      && forall k :: 0 <= k < |stmts| && k != s.i ==> Rearranged(s, stmts)[k] == stmts[k]
  {
  }

  lemma UndoneName(s: Site, t: Tree, x: Ident)
    requires Fits(s, t)
    ensures Unnaming(s, x, Renaming(s, x, x.name)) == x.name
  {
  }

  lemma UndoneOrder(s: Site, stmts: seq<Stmt>)
    requires EditsInPlace(s, |stmts|) && (s.Replace? ==> stmts[s.i] == s.stmt)
    ensures Reordered(s, Rearranged(s, stmts)) == stmts
  {
  }

  lemma FirstExists(log: Log, c: Cell) returns (i: nat)
    requires Logged(log, c)
    ensures i < |log| && log[i].0 == c && First(log, i)
  {
    i :| 0 <= i < |log| && log[i].0 == c;
    while !First(log, i)
      invariant i < |log| && log[i].0 == c
      decreases i
    {
      var j :| 0 <= j < i && log[j].0 == log[i].0;
      i := j;
    }
  }

  /** One site applied, printed and reverted leaves no trace, whatever positions
      its statements share. Printing only reads. */
  method ApplyAndRevert(e: Edit, t: Tree)
    requires Closed(t) && Fits(e.site, t)
    requires e.site.Undefer? ==> e.site.orig in t.lists
    modifies e, t.idents, t.cells, t.guards, t.blocks, t.lists
    ensures NoTrace(t)
  {
    hide First, Logged, Renaming, Unnaming, Rearranged, Reordered;
    var s := e.site;
    forall x: Ident
      ensures Unnaming(s, x, Renaming(s, x, x.name)) == x.name
    {
      UndoneName(s, t, x);
    }
    if s.Replace? || s.Escape? {
      UndoneOrder(s, s.blk.list[..]);
    }
    e.Apply(t);
    ghost var log := e.restore;
    e.Revert(t);
    forall c | c in t.cells
      ensures c.pos == old(c.pos)
    {
      if Logged(log, c) {
        var i := FirstExists(log, c);
      }
    }
  }

  /** Any sequence of sites, each applied to the tree the others left behind. */
  method HarvestAll(edits: seq<Edit>, t: Tree)
    requires Closed(t)
    requires forall i :: 0 <= i < |edits| ==>
      Fits(edits[i].site, t) && (edits[i].site.Undefer? ==> edits[i].site.orig in t.lists)
    modifies edits, t.idents, t.cells, t.guards, t.blocks, t.lists
    ensures NoTrace(t)
  {
    for i := 0 to |edits|
      invariant NoTrace(t)
    {
      ApplyAndRevert(edits[i], t);
    }
  }
}
