/** internal/cache/canonical.go on the syntax tree itself: identifiers are objects
    whose text is overwritten in place. */
module CanonicalTree {
  import opened Canonical

  class Name {
    var text: string
  }

  datatype Tree =
    | Leaf(id: Name)
    | Fix(id: Name)
    | Select(x: Tree, field: Name)
    | Bind(kind: string, binders: seq<Tree>, kids: seq<Tree>)
    | Block(kind: string, kids: seq<Tree>)

  datatype FuncTree = FuncTree(name: Name, header: seq<Name>, types: seq<Tree>, body: seq<Tree>)

  ghost function Names(t: Tree): set<Name>
    decreases t, 1
  {
    match t
    case Leaf(id) => {id}
    case Fix(id) => {id}
    case Select(x, field) => Names(x) + {field}
    case Bind(_, binders, kids) => NamesIn(binders) + NamesIn(kids)
    case Block(_, kids) => NamesIn(kids)
  }

  ghost function NamesIn(ts: seq<Tree>): set<Name>
    decreases ts, 0
  {
    if ts == [] then {} else Names(ts[0]) + NamesIn(ts[1..])
  }

  ghost function Read(t: Tree): Node
    reads Names(t)
    decreases t, 1
  {
    match t
    case Leaf(id) => Ident(id.text)
    case Fix(id) => Fixed(id.text)
    case Select(x, field) => Selector(Read(x), field.text)
    case Bind(kind, binders, kids) => Binding(kind, ReadAll(binders), ReadAll(kids))
    case Block(kind, kids) => Other(kind, ReadAll(kids))
  }

  ghost function ReadAll(ts: seq<Tree>): (nodes: seq<Node>)
    reads NamesIn(ts)
    ensures |nodes| == |ts|
    decreases ts, 0
  {
    if ts == [] then [] else [Read(ts[0])] + ReadAll(ts[1..])
  }

  /** No identifier object occurs twice. */
  ghost predicate Apart(t: Tree)
    decreases t, 1
  {
    match t
    case Leaf(_) => true
    case Fix(_) => true
    case Select(x, field) => Apart(x) && field !in Names(x)
    case Bind(_, binders, kids) => ApartIn(binders) && ApartIn(kids) && NamesIn(binders) !! NamesIn(kids)
    case Block(_, kids) => ApartIn(kids)
  }

  ghost predicate ApartIn(ts: seq<Tree>)
    decreases ts, 0
  {
    ts != [] ==> Apart(ts[0]) && ApartIn(ts[1..]) && Names(ts[0]) !! NamesIn(ts[1..])
  }

  // ------------------------------------------------------------ the names map

  /** The map and its counter hold exactly this declaration order. */
  ghost predicate Holds(names: map<string, string>, n: nat, order: seq<string>) {
    && n == |order| && Proper(order)
    && (forall x :: x in names <==> x in order)
    && (forall i :: 0 <= i < |order| ==> names[order[i]] == Label(i))
  }

  function Lookup(names: map<string, string>): string -> string {
    x => if x in names then names[x] else x
  }

  method Declared(names: map<string, string>, n: nat, name: string, ghost order: seq<string>)
    returns (names': map<string, string>, n': nat)
    requires Holds(names, n, order) && |Declare(order, name)| <= LIMIT
    ensures Holds(names', n', Declare(order, name))
  {
    if name == "_" || name == "" {
      return names, n;
    }
    if name in names {
      return names, n;
    }
    var digits := Itoa(n);
    return names[name := "v" + digits], n + 1;
  }

  /** `repr` in the methods below is any set of objects holding the tree's. */
  method DeclareLeaves(ts: seq<Tree>, names: map<string, string>, n: nat, ghost order: seq<string>,
                       ghost repr: set<Name>)
    returns (names': map<string, string>, n': nat)
    requires NamesIn(ts) <= repr
    requires Holds(names, n, order) && |DeclareBinders(order, ReadAll(ts))| <= LIMIT
    ensures Holds(names', n', DeclareBinders(order, ReadAll(ts)))
    decreases |ts|
  {
    names', n' := names, n;
    if ts != [] {
      ghost var nodes := ReadAll(ts);
      assert nodes[1..] == ReadAll(ts[1..]);
      ghost var next := order;
      if ts[0].Leaf? {
        next := Declare(order, nodes[0].name);
        ProperDeclare(order, nodes[0].name);
        DeclaringBinders(next, nodes[1..]);
        names', n' := Declared(names, n, ts[0].id.text, order);
      }
      names', n' := DeclareLeaves(ts[1..], names', n', next, repr);
    }
  }

  method DeclareTree(t: Tree, names: map<string, string>, n: nat, ghost order: seq<string>, ghost repr: set<Name>)
    returns (names': map<string, string>, n': nat)
    requires Names(t) <= repr
    requires Holds(names, n, order) && |DeclareIn(order, Read(t))| <= LIMIT
    ensures Holds(names', n', DeclareIn(order, Read(t)))
    decreases t, 1
  {
    hide Holds, Proper;
    match t
    case Leaf(_) => names', n' := names, n;
    case Fix(_) => names', n' := names, n;
    case Select(x, _) => names', n' := DeclareTree(x, names, n, order, repr);
    case Bind(_, binders, kids) =>
      ghost var o1 := DeclareBinders(order, ReadAll(binders));
      ghost var o2 := DeclareInAll(o1, ReadAll(binders));
      HoldsProper(names, n, order);
      DeclaringBinders(order, ReadAll(binders));
      DeclaringInAll(o1, ReadAll(binders));
      DeclaringInAll(o2, ReadAll(kids));
      names', n' := DeclareLeaves(binders, names, n, order, repr);
      names', n' := DeclareForest(binders, names', n', o1, repr);
      names', n' := DeclareForest(kids, names', n', o2, repr);
    case Block(_, kids) => names', n' := DeclareForest(kids, names, n, order, repr);
  }

  lemma HoldsProper(names: map<string, string>, n: nat, order: seq<string>)
    requires Holds(names, n, order)
    ensures Proper(order)
  {
  }

  method DeclareForest(ts: seq<Tree>, names: map<string, string>, n: nat, ghost order: seq<string>,
                       ghost repr: set<Name>)
    returns (names': map<string, string>, n': nat)
    requires NamesIn(ts) <= repr
    requires Holds(names, n, order) && |DeclareInAll(order, ReadAll(ts))| <= LIMIT
    ensures Holds(names', n', DeclareInAll(order, ReadAll(ts)))
    decreases ts, 0
  {
    hide Holds, Proper;
    names', n' := names, n;
    if ts != [] {
      ghost var nodes := ReadAll(ts);
      assert nodes[1..] == ReadAll(ts[1..]);
      ghost var next := DeclareIn(order, nodes[0]);
      HoldsProper(names, n, order);
      DeclaringIn(order, nodes[0]);
      DeclaringInAll(next, nodes[1..]);
      names', n' := DeclareTree(ts[0], names, n, order, repr);
      names', n' := DeclareForest(ts[1..], names', n', next, repr);
    }
  }

  // ------------------------------------------------------------ rewriting in place

  function WalkMode(inner: bool): Mode {
    if inner then Inner else Outer
  }

  method Rewrite(id: Name, names: map<string, string>)
    modifies id
    ensures id.text == Lookup(names)(old(id.text))
  {
    if id.text in names {
      id.text := names[id.text];
    }
  }

  method RewriteTree(t: Tree, names: map<string, string>, inner: bool, ghost repr: set<Name>)
    requires Apart(t) && Names(t) <= repr
    modifies Names(t)
    ensures Read(t) == Relabel(Lookup(names), old(Read(t)), WalkMode(inner))
    decreases t, 1
  {
    match t
    case Leaf(id) => Rewrite(id, names);
    case Fix(id) => Rewrite(id, names);
    case Select(x, field) =>
      RewriteTree(x, names, true, repr);
      if inner {
        Rewrite(field, names);
      }
    case Bind(_, binders, kids) =>
      RewriteForest(binders, names, inner, repr);
      RewriteForest(kids, names, inner, repr);
    case Block(_, kids) => RewriteForest(kids, names, inner, repr);
  }

  method RewriteForest(ts: seq<Tree>, names: map<string, string>, inner: bool, ghost repr: set<Name>)
    requires ApartIn(ts) && NamesIn(ts) <= repr
    modifies NamesIn(ts)
    ensures ReadAll(ts) == RelabelAll(Lookup(names), old(ReadAll(ts)), WalkMode(inner))
    decreases ts, 0
  {
    if ts != [] {
      RewriteTree(ts[0], names, inner, repr);
      RewriteForest(ts[1..], names, inner, repr);
    }
  }

  // ------------------------------------------------------------ a whole function

  ghost function NameSet(ids: seq<Name>): set<Name> {
    if ids == [] then {} else {ids[0]} + NameSet(ids[1..])
  }

  ghost predicate AllApart(ids: seq<Name>) {
    ids != [] ==> ids[0] !in NameSet(ids[1..]) && AllApart(ids[1..])
  }

  ghost function Texts(ids: seq<Name>): (r: seq<string>)
    reads NameSet(ids)
    ensures |r| == |ids|
  {
    if ids == [] then [] else [ids[0].text] + Texts(ids[1..])
  }

  ghost function FuncNames(f: FuncTree): set<Name> {
    {f.name} + NameSet(f.header) + NamesIn(f.types) + NamesIn(f.body)
  }

  ghost predicate ApartFunc(f: FuncTree) {
    && f.name !in NameSet(f.header) + NamesIn(f.types) + NamesIn(f.body)
    && NameSet(f.header) !! NamesIn(f.types) + NamesIn(f.body)
    && NamesIn(f.types) !! NamesIn(f.body)
    && AllApart(f.header) && ApartIn(f.types) && ApartIn(f.body)
  }

  ghost function ReadFunc(f: FuncTree): Func
    reads FuncNames(f)
  {
    Func(f.name.text, Texts(f.header), ReadAll(f.types), ReadAll(f.body))
  }

  method DeclareHeader(ids: seq<Name>, names: map<string, string>, n: nat, ghost order: seq<string>,
                       ghost repr: set<Name>)
    returns (names': map<string, string>, n': nat)
    requires NameSet(ids) <= repr
    requires Holds(names, n, order) && |DeclareNames(order, Texts(ids))| <= LIMIT
    ensures Holds(names', n', DeclareNames(order, Texts(ids)))
    decreases |ids|
  {
    names', n' := names, n;
    if ids != [] {
      ghost var texts := Texts(ids);
      assert texts[1..] == Texts(ids[1..]);
      ghost var next := Declare(order, texts[0]);
      ProperDeclare(order, texts[0]);
      DeclaringNames(next, texts[1..]);
      names', n' := Declared(names, n, ids[0].text, order);
      names', n' := DeclareHeader(ids[1..], names', n', next, repr);
    }
  }

  method RewriteHeader(ids: seq<Name>, names: map<string, string>, ghost repr: set<Name>)
    requires AllApart(ids) && NameSet(ids) <= repr
    modifies NameSet(ids)
    ensures Texts(ids) == Renamed(Lookup(names), old(Texts(ids)))
    decreases |ids|
  {
    if ids != [] {
      ghost var texts := Texts(ids);
      assert texts[1..] == Texts(ids[1..]);
      Rewrite(ids[0], names);
      RewriteHeader(ids[1..], names, repr);
    }
  }

  /** Walks that agree on every name relabel alike. */
  lemma {:induction false} SameRelabel(h: string -> string, g: string -> string, nd: Node, mode: Mode)
    requires forall x :: h(x) == g(x)
    ensures Relabel(h, nd, mode) == Relabel(g, nd, mode)
    decreases nd, 1
  {
    match nd
    case Ident(_) =>
    case Fixed(_) =>
    case Selector(x, _) => SameRelabel(h, g, x, if mode == Outer then Inner else mode);
    case Binding(_, binders, kids) =>
      SameRelabelAll(h, g, binders, mode);
      SameRelabelAll(h, g, kids, mode);
    case Other(_, kids) => SameRelabelAll(h, g, kids, mode);
  }

  lemma {:induction false} SameRelabelAll(h: string -> string, g: string -> string, nodes: seq<Node>, mode: Mode)
    requires forall x :: h(x) == g(x)
    ensures RelabelAll(h, nodes, mode) == RelabelAll(g, nodes, mode)
    decreases nodes, 0
  {
    if nodes != [] {
      SameRelabel(h, g, nodes[0], mode);
      SameRelabelAll(h, g, nodes[1..], mode);
    }
  }

  lemma LookupIsTarget(names: map<string, string>, n: nat, f: Func)
    requires Holds(names, n, Order(f))
    ensures RewrittenBy(Lookup(names), f) == Canon(f)
  {
    hide Order;
    var order := Order(f);
    forall x
      ensures Lookup(names)(x) == Targets(order)(x)
    {
      if x in order {
        assert names[order[Place(order, x)]] == Label(Place(order, x));
      }
    }
    SameRelabelAll(Lookup(names), Targets(order), f.types, Outer);
    SameRelabelAll(Lookup(names), Targets(order), f.body, Outer);
    assert Renamed(Lookup(names), f.header) == Renamed(Targets(order), f.header);
  }

  method DeclareFunc(f: FuncTree, ghost repr: set<Name>) returns (names: map<string, string>, n: nat)
    requires FuncNames(f) <= repr
    requires |Order(ReadFunc(f))| <= LIMIT
    ensures Holds(names, n, Order(ReadFunc(f)))
  {
    hide Holds, Proper;
    ghost var before := ReadFunc(f);
    HoldsNothing();
    ProperEmpty();
    DeclaringNames([], before.header);
    DeclaringInAll(DeclareNames([], before.header), before.body);
    names, n := DeclareHeader(f.header, map[], 0, [], repr);
    names, n := DeclareForest(f.body, names, n, DeclareNames([], before.header), repr);
  }

  method RewriteFunc(f: FuncTree, names: map<string, string>, ghost repr: set<Name>)
    requires ApartFunc(f) && FuncNames(f) <= repr
    modifies FuncNames(f)
    ensures ReadFunc(f) == RewrittenBy(Lookup(names), old(ReadFunc(f)))
  {
    hide Read, Relabel, RelabelAll, Renamed;
    Rewrite(f.name, names);
    RewriteHeader(f.header, names, repr);
    RewriteForest(f.types, names, false, repr);
    RewriteForest(f.body, names, false, repr);
  }

  function RewrittenBy(h: string -> string, f: Func): Func {
    Func(h(f.name), Renamed(h, f.header), RelabelAll(h, f.types, Outer), RelabelAll(h, f.body, Outer))
  }

  /** Overwrites every identifier of the tree once: what is left is the canonical
      form of what was there. */
  method RenameLocals(f: FuncTree, ghost repr: set<Name>)
    requires ApartFunc(f) && FuncNames(f) <= repr
    requires |Order(ReadFunc(f))| <= LIMIT
    modifies FuncNames(f)
    ensures ReadFunc(f) == Canon(old(ReadFunc(f)))
  {
    hide Holds, Canon, RewrittenBy, ApartFunc, FuncNames;
    ghost var before := ReadFunc(f);
    var names, n := DeclareFunc(f, repr);
    LookupIsTarget(names, n, before);
    RewriteFunc(f, names, repr);
  }

  lemma HoldsNothing()
    ensures Holds(map[], 0, [])
  {
  }
}
