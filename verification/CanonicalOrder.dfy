/** internal/cache/canonical.go: which names the walk declares, and in what order,
    from where they occur in the function. */
module CanonicalOrder {
  import opened Canonical

  // ------------------------------------------------------------ where names are bound

  /** x is a plain identifier on the binding side of some Binding in the node. */
  ghost predicate Binds(nd: Node, x: string)
    decreases nd, 1
  {
    match nd
    case Ident(_) => false
    case Fixed(_) => false
    case Selector(y, _) => Binds(y, x)
    case Binding(_, binders, kids) => Ident(x) in binders || BindsAny(binders, x) || BindsAny(kids, x)
    case Other(_, kids) => BindsAny(kids, x)
  }

  ghost predicate BindsAny(nodes: seq<Node>, x: string)
    decreases nodes, 0
  {
    nodes != [] && (Binds(nodes[0], x) || BindsAny(nodes[1..], x))
  }

  predicate Named(x: string) {
    x != "_" && x != ""
  }

  lemma {:induction false} NamesDeclare(order: seq<string>, names: seq<string>, x: string)
    ensures x in DeclareNames(order, names) <==> x in order || (Named(x) && x in names)
    decreases |names|
  {
    if names != [] {
      NamesDeclare(Declare(order, names[0]), names[1..], x);
    }
  }

  lemma {:induction false} BindersDeclare(order: seq<string>, binders: seq<Node>, x: string)
    ensures x in DeclareBinders(order, binders) <==> x in order || (Named(x) && Ident(x) in binders)
    decreases |binders|
  {
    if binders != [] {
      BindersDeclare(if binders[0].Ident? then Declare(order, binders[0].name) else order, binders[1..], x);
    }
  }

  lemma {:induction false} InDeclares(order: seq<string>, nd: Node, x: string)
    ensures x in DeclareIn(order, nd) <==> x in order || (Named(x) && Binds(nd, x))
    decreases nd, 1
  {
    match nd
    case Ident(_) =>
    case Fixed(_) =>
    case Selector(y, _) => InDeclares(order, y, x);
    case Binding(_, binders, kids) =>
      BindersDeclare(order, binders, x);
      InAllDeclares(DeclareBinders(order, binders), binders, x);
      InAllDeclares(DeclareInAll(DeclareBinders(order, binders), binders), kids, x);
    case Other(_, kids) => InAllDeclares(order, kids, x);
  }

  lemma {:induction false} InAllDeclares(order: seq<string>, nodes: seq<Node>, x: string)
    ensures x in DeclareInAll(order, nodes) <==> x in order || (Named(x) && BindsAny(nodes, x))
    decreases nodes, 0
  {
    if nodes != [] {
      InDeclares(order, nodes[0], x);
      InAllDeclares(DeclareIn(order, nodes[0]), nodes[1..], x);
    }
  }

  /** A name is a local exactly when it is not blank and stands in the header or is a
      plain identifier bound somewhere in the body. */
  lemma DeclaredExactlyWhen(f: Func, x: string)
    ensures x in Order(f) <==> x != "_" && x != "" && (x in f.header || BindsAny(f.body, x))
  {
    NamesDeclare([], f.header, x);
    InAllDeclares(DeclareNames([], f.header), f.body, x);
  }

  // ------------------------------------------------------------ in which order

  function IdentNames(binders: seq<Node>): seq<string> {
    if binders == [] then []
    else (if binders[0].Ident? then [binders[0].name] else []) + IdentNames(binders[1..])
  }

  /** Every bound identifier in the order it is met: a Binding's own before those
      nested in it, left to right. */
  function Bound(nd: Node): seq<string>
    decreases nd, 1
  {
    match nd
    case Ident(_) => []
    case Fixed(_) => []
    case Selector(y, _) => Bound(y)
    case Binding(_, binders, kids) => IdentNames(binders) + BoundIn(binders) + BoundIn(kids)
    case Other(_, kids) => BoundIn(kids)
  }

  function BoundIn(nodes: seq<Node>): seq<string>
    decreases nodes, 0
  {
    if nodes == [] then [] else Bound(nodes[0]) + BoundIn(nodes[1..])
  }

  /** The function's declarations, repeats and blanks included. */
  function Declarations(f: Func): seq<string> {
    f.header + BoundIn(f.body)
  }

  lemma {:induction false} DeclareBoth(order: seq<string>, a: seq<string>, b: seq<string>)
    ensures DeclareNames(order, a + b) == DeclareNames(DeclareNames(order, a), b)
    decreases |a|
  {
    if a == [] {
      assert a + b == b;
    } else {
      DeclareBoth(Declare(order, a[0]), a[1..], b);
      assert (a + b)[1..] == a[1..] + b;
    }
  }

  lemma {:induction false} BindersAreNames(order: seq<string>, binders: seq<Node>)
    ensures DeclareBinders(order, binders) == DeclareNames(order, IdentNames(binders))
    decreases |binders|
  {
    if binders != [] {
      var b := binders[0];
      if b.Ident? {
        BindersAreNames(Declare(order, b.name), binders[1..]);
        assert ([b.name] + IdentNames(binders[1..]))[1..] == IdentNames(binders[1..]);
      } else {
        BindersAreNames(order, binders[1..]);
        assert [] + IdentNames(binders[1..]) == IdentNames(binders[1..]);
      }
    }
  }

  lemma {:induction false} WalkIsNames(order: seq<string>, nd: Node)
    ensures DeclareIn(order, nd) == DeclareNames(order, Bound(nd))
    decreases nd, 1
  {
    match nd
    case Ident(_) =>
    case Fixed(_) =>
    case Selector(y, _) => WalkIsNames(order, y);
    case Binding(_, binders, kids) =>
      var ids := IdentNames(binders);
      BindersAreNames(order, binders);
      WalksAreNames(DeclareNames(order, ids), binders);
      DeclareBoth(order, ids, BoundIn(binders));
      WalksAreNames(DeclareNames(order, ids + BoundIn(binders)), kids);
      DeclareBoth(order, ids + BoundIn(binders), BoundIn(kids));
    case Other(_, kids) => WalksAreNames(order, kids);
  }

  lemma {:induction false} WalksAreNames(order: seq<string>, nodes: seq<Node>)
    ensures DeclareInAll(order, nodes) == DeclareNames(order, BoundIn(nodes))
    decreases nodes, 0
  {
    if nodes != [] {
      WalkIsNames(order, nodes[0]);
      WalksAreNames(DeclareIn(order, nodes[0]), nodes[1..]);
      DeclareBoth(order, Bound(nodes[0]), BoundIn(nodes[1..]));
    }
  }

  /** i is the first place where `all` has its name. */
  ghost predicate FirstAt(all: seq<string>, x: string, i: nat) {
    i < |all| && all[i] == x && x !in all[..i]
  }

  /** The order lists names by where they are first met in `all`. */
  ghost predicate ByFirstMeeting(order: seq<string>, all: seq<string>) {
    forall i, j, a: nat, b: nat :: 0 <= i < j < |order| && FirstAt(all, order[i], a) && FirstAt(all, order[j], b) ==> a < b
  }

  lemma {:induction false} NamesByFirstMeeting(done: seq<string>, order: seq<string>, names: seq<string>)
    requires ByFirstMeeting(order, done)
    requires forall x :: x in order <==> Named(x) && x in done
    ensures ByFirstMeeting(DeclareNames(order, names), done + names)
    decreases |names|
  {
    if names == [] {
      assert done + names == done;
    } else {
      MeetOne(done, order, names[0]);
      assert (done + [names[0]]) + names[1..] == done + names;
      NamesByFirstMeeting(done + [names[0]], Declare(order, names[0]), names[1..]);
    }
  }

  lemma MeetOne(done: seq<string>, order: seq<string>, name: string)
    requires ByFirstMeeting(order, done)
    requires forall x :: x in order <==> Named(x) && x in done
    ensures ByFirstMeeting(Declare(order, name), done + [name])
    ensures forall x :: x in Declare(order, name) <==> Named(x) && x in done + [name]
  {
    var all, longer := done + [name], Declare(order, name);
    forall i, j, a: nat, b: nat | 0 <= i < j < |longer| && FirstAt(all, longer[i], a) && FirstAt(all, longer[j], b)
      ensures a < b
    {
      assert longer[i] == order[i] && order[i] in done;
      OldStaysFirst(done, name, longer[i], a);
      if j < |order| {
        assert order[j] in done;
        OldStaysFirst(done, name, longer[j], b);
      } else {
        assert longer[j] == name && name !in done;
        assert all[b] == name;
        assert b == |done|;
      }
    }
  }

  lemma OldStaysFirst(done: seq<string>, name: string, x: string, i: nat)
    requires x in done && FirstAt(done + [name], x, i)
    ensures i < |done| && FirstAt(done, x, i)
  {
    var all := done + [name];
    assert all[..|done|] == done;
    assert i < |done|;
    assert all[..i] == done[..i];
  }

  /** The order is the declarations with blanks and repeats left out: no name twice,
      and one name before another exactly as they are first declared. */
  lemma OrderIsByFirstDeclaration(f: Func)
    ensures Distinct(Order(f)) && ByFirstMeeting(Order(f), Declarations(f))
    ensures forall x :: x in Order(f) <==> x != "_" && x != "" && x in Declarations(f)
  {
    OrderIsProper(f);
    WalksAreNames(DeclareNames([], f.header), f.body);
    DeclareBoth([], f.header, BoundIn(f.body));
    NamesByFirstMeeting([], [], Declarations(f));
    assert [] + Declarations(f) == Declarations(f);
    forall x
      ensures x in Order(f) <==> Named(x) && x in Declarations(f)
    {
      NamesDeclare([], Declarations(f), x);
    }
  }

  /** A local's canonical name counts the locals first declared before it. */
  lemma LocalsAreNumbered(f: Func, i: nat)
    requires i < |Order(f)|
    ensures Target(Order(f), Order(f)[i]) == "v" + Digits(i)
  {
    OrderIsProper(f);
    PlaceIsUnique(Order(f), i);
  }
}
