/** internal/cache/canonical.go: renaming a function's locals to positional names
    so that the cache key survives a change of names. Parsing, printing and the
    digest are outside the model. */
module Canonical {

  /** Syntax. A Binding is a :=, a var or a range clause: its binders that are
      plain identifiers are declared. Fixed is an identifier that names none of
      the function's variables, whatever its text: a composite-literal key, a
      struct field, a label, a package-level name. */
  datatype Node =
    | Ident(name: string)
    | Fixed(name: string)
    | Selector(x: Node, field: string)
    | Binding(kind: string, binders: seq<Node>, kids: seq<Node>)
    | Other(kind: string, kids: seq<Node>)

  /** A function: receiver, parameter and result names in order, the types they
      have, and the body. */
  datatype Func = Func(name: string, header: seq<string>, types: seq<Node>, body: seq<Node>)

  // ------------------------------------------------------------ declaration order

  /** One name after the names already declared. */
  function Declare(order: seq<string>, name: string): seq<string> {
    if name == "_" || name == "" || name in order then order else order + [name]
  }

  function DeclareNames(order: seq<string>, names: seq<string>): seq<string>
    decreases |names|
  {
    if names == [] then order else DeclareNames(Declare(order, names[0]), names[1..])
  }

  function DeclareBinders(order: seq<string>, binders: seq<Node>): seq<string>
    decreases |binders|
  {
    if binders == [] then order
    else DeclareBinders(if binders[0].Ident? then Declare(order, binders[0].name) else order, binders[1..])
  }

  function DeclareIn(order: seq<string>, nd: Node): seq<string>
    decreases nd, 1
  {
    match nd
    case Ident(_) => order
    case Fixed(_) => order
    case Selector(x, _) => DeclareIn(order, x)
    case Binding(_, binders, kids) => DeclareInAll(DeclareInAll(DeclareBinders(order, binders), binders), kids)
    case Other(_, kids) => DeclareInAll(order, kids)
  }

  function DeclareInAll(order: seq<string>, nodes: seq<Node>): seq<string>
    decreases nodes, 0
  {
    if nodes == [] then order else DeclareInAll(DeclareIn(order, nodes[0]), nodes[1..])
  }

  /** The function's declared names, each once, in order of first declaration. */
  function Order(f: Func): seq<string> {
    DeclareInAll(DeclareNames([], f.header), f.body)
  }

  // ------------------------------------------------------------ relabelling

  /** How a walk treats selector fields: the outer walk keeps a field but hands
      the receiver to the inner walk, which renames fields too; both rename Fixed
      identifiers. A scope-respecting renaming touches neither. */
  datatype Mode = Outer | Inner | Never

  function Relabel(h: string -> string, nd: Node, mode: Mode): Node
    decreases nd, 1
  {
    match nd
    case Ident(name) => Ident(h(name))
    case Fixed(name) => Fixed(if mode == Never then name else h(name))
    case Selector(x, field) =>
      Selector(Relabel(h, x, if mode == Outer then Inner else mode), if mode == Inner then h(field) else field)
    case Binding(kind, binders, kids) => Binding(kind, RelabelAll(h, binders, mode), RelabelAll(h, kids, mode))
    case Other(kind, kids) => Other(kind, RelabelAll(h, kids, mode))
  }

  function RelabelAll(h: string -> string, nodes: seq<Node>, mode: Mode): (r: seq<Node>)
    ensures |r| == |nodes|
    decreases nodes, 0
  {
    if nodes == [] then [] else [Relabel(h, nodes[0], mode)] + RelabelAll(h, nodes[1..], mode)
  }

  function Renamed(h: string -> string, names: seq<string>): (r: seq<string>)
    ensures |r| == |names| && forall i :: 0 <= i < |names| ==> r[i] == h(names[i])
  {
    if names == [] then [] else [h(names[0])] + Renamed(h, names[1..])
  }

  // ------------------------------------------------------------ the labels

  function Digit(d: nat): char
    requires d < 10
  {
    '0' + d as char
  }

  function Digits(n: nat): string {
    if n < 10 then [Digit(n)] else Digits(n / 10) + [Digit(n % 10)]
  }

  lemma DigitsSplit(n: nat)
    ensures var d := Digits(n);
      && d != [] && d[|d| - 1] == Digit(n % 10)
      && (n < 10 ==> |d| == 1)
      && (10 <= n ==> 2 <= |d| && d[..|d| - 1] == Digits(n / 10))
  {
    if 10 <= n {
      assert Digits(n / 10) != [];
    }
  }

  lemma {:induction false} DigitsAreUnique(m: nat, n: nat)
    requires Digits(m) == Digits(n)
    ensures m == n
    decreases m
  {
    hide Digits;
    DigitsSplit(m);
    DigitsSplit(n);
    assert m % 10 == n % 10;
    if 10 <= m && 10 <= n {
      DigitsAreUnique(m / 10, n / 10);
    }
  }

  /** itoa's buffer. */
  const LIMIT: nat := 1_0000_0000

  method Itoa(num: nat) returns (s: string)
    requires num < LIMIT                    // eight digits; the source panics beyond
    ensures s == Digits(num)
  {
    if num == 0 {
      return "0";
    }
    var n: nat, b, i := num, new char[8], 8;
    ghost var bound := LIMIT;
    while n > 0
      invariant 0 <= i <= 8 && n < bound && bound == Tens(i)
      invariant n == 0 ==> Digits(num) == b[i..]
      invariant n > 0 ==> Digits(num) == Digits(n) + b[i..]
    {
      i := i - 1;
      b[i] := Digit(n % 10);
      assert b[i..] == [Digit(n % 10)] + b[i + 1..];
      n := n / 10;
      bound := Tens(i);
    }
    return b[i..];
  }

  function Tens(i: nat): nat {
    if i == 0 then 1 else 10 * Tens(i - 1)
  }

  function Label(i: nat): string {
    "v" + Digits(i)
  }

  lemma LabelsDiffer(i: nat, j: nat)
    requires Label(i) == Label(j)
    ensures i == j
  {
    assert Label(i)[1..] == Digits(i) && Label(j)[1..] == Digits(j);
    DigitsAreUnique(i, j);
  }

  /** Where a declared name stands in the order. */
  function Place(order: seq<string>, name: string): (i: nat)
    requires name in order
    ensures i < |order| && order[i] == name
  {
    if order[0] == name then 0 else 1 + Place(order[1..], name)
  }

  /** What a name becomes. */
  function Target(order: seq<string>, name: string): string {
    if name in order then Label(Place(order, name)) else name
  }

  function Targets(order: seq<string>): string -> string {
    name => Target(order, name)
  }

  /** renameLocals. The function's own name is an identifier like any other. */
  function Canon(f: Func): Func {
    var h := Targets(Order(f));
    Func(h(f.name), Renamed(h, f.header), RelabelAll(h, f.types, Outer), RelabelAll(h, f.body, Outer))
  }

  // ------------------------------------------------------------ orders have no repeats

  ghost predicate Distinct(names: seq<string>) {
    forall i, j :: 0 <= i < j < |names| ==> names[i] != names[j]
  }

  lemma PlaceIsUnique(order: seq<string>, i: nat)
    requires Distinct(order) && i < |order|
    ensures Place(order, order[i]) == i
  {
  }

  /** Every name of a is in b. */
  ghost predicate Within(a: seq<string>, b: seq<string>) {
    forall i :: 0 <= i < |a| ==> a[i] in b
  }

  ghost predicate Proper(order: seq<string>) {
    Distinct(order) && "_" !in order && "" !in order
  }

  /** Declaring only ever adds at the end, and never a repeated or blank name. */
  lemma {:induction false} DeclaringNames(order: seq<string>, names: seq<string>)
    requires Proper(order)
    ensures Proper(DeclareNames(order, names)) && order <= DeclareNames(order, names)
    decreases |names|
  {
    if names != [] {
      DeclaringNames(Declare(order, names[0]), names[1..]);
    }
  }

  lemma {:induction false} DeclaringBinders(order: seq<string>, binders: seq<Node>)
    requires Proper(order)
    ensures Proper(DeclareBinders(order, binders)) && order <= DeclareBinders(order, binders)
    decreases |binders|
  {
    if binders != [] {
      DeclaringBinders(if binders[0].Ident? then Declare(order, binders[0].name) else order, binders[1..]);
    }
  }

  lemma {:induction false} DeclaringIn(order: seq<string>, nd: Node)
    requires Proper(order)
    ensures Proper(DeclareIn(order, nd)) && order <= DeclareIn(order, nd)
    decreases nd, 1
  {
    match nd
    case Ident(_) =>
    case Fixed(_) =>
    case Selector(x, _) => DeclaringIn(order, x);
    case Binding(_, binders, kids) =>
      DeclaringBinders(order, binders);
      DeclaringInAll(DeclareBinders(order, binders), binders);
      DeclaringInAll(DeclareInAll(DeclareBinders(order, binders), binders), kids);
    case Other(_, kids) => DeclaringInAll(order, kids);
  }

  lemma {:induction false} DeclaringInAll(order: seq<string>, nodes: seq<Node>)
    requires Proper(order)
    ensures Proper(DeclareInAll(order, nodes)) && order <= DeclareInAll(order, nodes)
    decreases nodes, 0
  {
    if nodes != [] {
      DeclaringIn(order, nodes[0]);
      DeclaringInAll(DeclareIn(order, nodes[0]), nodes[1..]);
    }
  }

  // ------------------------------------------------------------ relabelling commutes with declaring

  /** h renames the names of `all` apart, and keeps blanks blank. */
  ghost predicate Faithful(h: string -> string, all: seq<string>) {
    && (forall x, y :: x in all && y in all && h(x) == h(y) ==> x == y)
    && (forall x :: x in all ==> h(x) != "_" && h(x) != "")
    && h("_") == "_" && h("") == ""
  }

  lemma DeclareCommutes(h: string -> string, all: seq<string>, order: seq<string>, name: string)
    requires Faithful(h, all) && Proper(order) && Within(Declare(order, name), all)
    ensures Declare(Renamed(h, order), h(name)) == Renamed(h, Declare(order, name))
  {
    hide Distinct;
    if name != "_" && name != "" {
      if name in order {
        assert name in all;
        assert Renamed(h, order)[Place(order, name)] == h(name);
      } else {
        var longer := order + [name];
        assert longer[|order|] == name;
        assert forall i :: 0 <= i < |order| ==> longer[i] == order[i];
        NewNameStaysNew(h, all, order, name);
        assert h(name) != "_" && h(name) != "";
      }
    }
  }

  lemma NewNameStaysNew(h: string -> string, all: seq<string>, order: seq<string>, name: string)
    requires Faithful(h, all) && Within(order, all) && name in all && name !in order
    ensures h(name) !in Renamed(h, order)
  {
    forall i | 0 <= i < |order|
      ensures Renamed(h, order)[i] != h(name)
    {
      assert order[i] in all && order[i] != name;
    }
  }

  lemma WithinPrefix(a: seq<string>, b: seq<string>, all: seq<string>)
    requires a <= b && Within(b, all)
    ensures Within(a, all)
  {
    assert forall i :: 0 <= i < |a| ==> a[i] == b[i];
  }

  lemma ProperDeclare(order: seq<string>, name: string)
    requires Proper(order)
    ensures Proper(Declare(order, name)) && order <= Declare(order, name)
  {
  }

  lemma {:induction false} NamesCommute(h: string -> string, all: seq<string>, order: seq<string>, names: seq<string>)
    requires Faithful(h, all) && Proper(order) && Within(DeclareNames(order, names), all)
    ensures DeclareNames(Renamed(h, order), Renamed(h, names)) == Renamed(h, DeclareNames(order, names))
    decreases |names|
  {
    hide Faithful, Declare, Proper, Within;
    if names != [] {
      var next := Declare(order, names[0]);
      ProperDeclare(order, names[0]);
      DeclaringNames(next, names[1..]);
      WithinPrefix(next, DeclareNames(order, names), all);
      DeclareCommutes(h, all, order, names[0]);
      NamesCommute(h, all, next, names[1..]);
      assert Renamed(h, names)[1..] == Renamed(h, names[1..]);
    }
  }

  lemma {:induction false} BindersCommute(h: string -> string, all: seq<string>, order: seq<string>,
                                          binders: seq<Node>, mode: Mode)
    requires Faithful(h, all) && Proper(order) && Within(DeclareBinders(order, binders), all)
    ensures DeclareBinders(Renamed(h, order), RelabelAll(h, binders, mode)) == Renamed(h, DeclareBinders(order, binders))
    decreases |binders|
  {
    hide Faithful, Declare, Proper, Within;
    if binders != [] {
      var b := binders[0];
      var next := if b.Ident? then Declare(order, b.name) else order;
      if b.Ident? {
        ProperDeclare(order, b.name);
        DeclaringBinders(next, binders[1..]);
        WithinPrefix(next, DeclareBinders(order, binders), all);
        DeclareCommutes(h, all, order, b.name);
      }
      BindersCommute(h, all, next, binders[1..], mode);
      assert RelabelAll(h, binders, mode)[1..] == RelabelAll(h, binders[1..], mode);
    }
  }

  lemma {:induction false} InCommutes(h: string -> string, all: seq<string>, order: seq<string>, nd: Node, mode: Mode)
    requires Faithful(h, all) && Proper(order) && Within(DeclareIn(order, nd), all)
    ensures DeclareIn(Renamed(h, order), Relabel(h, nd, mode)) == Renamed(h, DeclareIn(order, nd))
    decreases nd, 1
  {
    hide Faithful, Proper, Within, Renamed;
    match nd
    case Ident(_) =>
    case Fixed(_) =>
    case Selector(x, _) => InCommutes(h, all, order, x, if mode == Outer then Inner else mode);
    case Binding(_, binders, kids) =>
      var o1 := DeclareBinders(order, binders);
      var o2 := DeclareInAll(o1, binders);
      DeclaringBinders(order, binders);
      DeclaringInAll(o1, binders);
      DeclaringInAll(o2, kids);
      WithinPrefix(o2, DeclareIn(order, nd), all);
      WithinPrefix(o1, o2, all);
      BindersCommute(h, all, order, binders, mode);
      InAllCommutes(h, all, o1, binders, mode);
      InAllCommutes(h, all, o2, kids, mode);
    case Other(_, kids) => InAllCommutes(h, all, order, kids, mode);
  }

  lemma {:induction false} InAllCommutes(h: string -> string, all: seq<string>, order: seq<string>,
                                         nodes: seq<Node>, mode: Mode)
    requires Faithful(h, all) && Proper(order) && Within(DeclareInAll(order, nodes), all)
    ensures DeclareInAll(Renamed(h, order), RelabelAll(h, nodes, mode)) == Renamed(h, DeclareInAll(order, nodes))
    decreases nodes, 0
  {
    hide Faithful, Proper, Within, Renamed, DeclareIn, Relabel;
    if nodes != [] {
      var next := DeclareIn(order, nodes[0]);
      DeclaringIn(order, nodes[0]);
      DeclaringInAll(next, nodes[1..]);
      WithinPrefix(next, DeclareInAll(order, nodes), all);
      InCommutes(h, all, order, nodes[0], mode);
      InAllCommutes(h, all, next, nodes[1..], mode);
      assert RelabelAll(h, nodes, mode)[1..] == RelabelAll(h, nodes[1..], mode);
    }
  }

  /** Renaming a whole function renames its declaration order. */
  lemma OrderCommutes(h: string -> string, f: Func, g: Func, mode: Mode)
    requires Faithful(h, Order(f))
    requires g.header == Renamed(h, f.header) && g.body == RelabelAll(h, f.body, mode)
    ensures Order(g) == Renamed(h, Order(f))
  {
    hide Faithful, Proper;
    assert Proper([]) by { ProperEmpty(); }
    var o := DeclareNames([], f.header);
    DeclaringNames([], f.header);
    DeclaringInAll(o, f.body);
    WithinPrefix(Order(f), Order(f), Order(f));
    WithinPrefix(o, Order(f), Order(f));
    assert Renamed(h, []) == [];
    NamesCommute(h, Order(f), [], f.header);
    InAllCommutes(h, Order(f), o, f.body, mode);
  }

  lemma ProperEmpty()
    ensures Proper([])
  {
  }

  lemma OrderIsProper(f: Func)
    ensures Proper(Order(f))
  {
    DeclaringNames([], f.header);
    DeclaringInAll(DeclareNames([], f.header), f.body);
  }

  // ------------------------------------------------------------ idempotence

  lemma TargetsAreFaithful(order: seq<string>)
    requires Proper(order)
    ensures Faithful(Targets(order), order)
  {
    var h := Targets(order);
    forall x, y | x in order && y in order && h(x) == h(y)
      ensures x == y
    {
      LabelsDiffer(Place(order, x), Place(order, y));
    }
    forall x | x in order
      ensures h(x) != "_" && h(x) != ""
    {
      assert h(x)[0] == 'v';
    }
  }

  /** Once the declared names are the labels in order, every name stays. */
  lemma LabelsStay(order: seq<string>, name: string)
    requires forall i :: 0 <= i < |order| ==> order[i] == Label(i)
    ensures Target(order, name) == name
  {
  }

  lemma {:induction false} RelabelStays(h: string -> string, nd: Node, mode: Mode)
    requires forall x :: h(x) == x
    ensures Relabel(h, nd, mode) == nd
    decreases nd, 1
  {
    match nd
    case Ident(_) =>
    case Fixed(_) =>
    case Selector(x, _) => RelabelStays(h, x, if mode == Outer then Inner else mode);
    case Binding(_, binders, kids) =>
      RelabelAllStays(h, binders, mode);
      RelabelAllStays(h, kids, mode);
    case Other(_, kids) => RelabelAllStays(h, kids, mode);
  }

  lemma {:induction false} RelabelAllStays(h: string -> string, nodes: seq<Node>, mode: Mode)
    requires forall x :: h(x) == x
    ensures RelabelAll(h, nodes, mode) == nodes
    decreases nodes, 0
  {
    if nodes != [] {
      RelabelStays(h, nodes[0], mode);
      RelabelAllStays(h, nodes[1..], mode);
    }
  }

  /** A canonical form is its own canonical form, for every function. */
  lemma CanonIsIdempotent(f: Func)
    ensures Canon(Canon(f)) == Canon(f)
  {
    hide DeclareNames, DeclareInAll, RelabelAll;
    var order := Order(f);
    var h, g := Targets(order), Canon(f);
    OrderIsProper(f);
    TargetsAreFaithful(order);
    OrderCommutes(h, f, g, Outer);
    forall i | 0 <= i < |order|
      ensures Order(g)[i] == Label(i)
    {
      PlaceIsUnique(order, i);
    }
    forall x
      ensures Targets(Order(g))(x) == x
    {
      LabelsStay(Order(g), x);
    }
    RelabelAllStays(Targets(Order(g)), g.types, Outer);
    RelabelAllStays(Targets(Order(g)), g.body, Outer);
    assert Renamed(Targets(Order(g)), g.header) == g.header;
  }

  // ------------------------------------------------------------ alpha-invariance

  /** Renaming the declared names by rho wherever they occur as identifiers. */
  function Rho(rho: string -> string, order: seq<string>): string -> string {
    name => if name in order then rho(name) else name
  }

  function Alpha(rho: string -> string, f: Func): Func {
    var h := Rho(rho, Order(f));
    Func(f.name, Renamed(h, f.header), RelabelAll(h, f.types, Never), RelabelAll(h, f.body, Never))
  }

  /** No identifier outside the declared ones has one of the new names. */
  ghost predicate Avoids(order: seq<string>, order': seq<string>, nd: Node)
    decreases nd, 1
  {
    match nd
    case Ident(name) => name in order || name !in order'
    case Fixed(_) => true
    case Selector(x, _) => Avoids(order, order', x)
    case Binding(_, binders, kids) => AvoidsAll(order, order', binders) && AvoidsAll(order, order', kids)
    case Other(_, kids) => AvoidsAll(order, order', kids)
  }

  ghost predicate AvoidsAll(order: seq<string>, order': seq<string>, nodes: seq<Node>)
    decreases nodes, 0
  {
    nodes != [] ==> Avoids(order, order', nodes[0]) && AvoidsAll(order, order', nodes[1..])
  }

  /** The walks give every field and Fixed identifier they rename the same label. */
  predicate FieldsAgree(order: seq<string>, order': seq<string>, nd: Node, mode: Mode)
    decreases nd, 1
  {
    match nd
    case Ident(_) => true
    case Fixed(name) => mode != Never ==> Target(order, name) == Target(order', name)
    case Selector(x, field) =>
      && FieldsAgree(order, order', x, if mode == Outer then Inner else mode)
      && (mode == Inner ==> Target(order, field) == Target(order', field))
    case Binding(_, binders, kids) =>
      FieldsAgreeAll(order, order', binders, mode) && FieldsAgreeAll(order, order', kids, mode)
    case Other(_, kids) => FieldsAgreeAll(order, order', kids, mode)
  }

  predicate FieldsAgreeAll(order: seq<string>, order': seq<string>, nodes: seq<Node>, mode: Mode)
    decreases nodes, 0
  {
    nodes != [] ==> FieldsAgree(order, order', nodes[0], mode) && FieldsAgreeAll(order, order', nodes[1..], mode)
  }

  /** rho is an injective renaming of f's locals that avoids its other names. */
  ghost predicate Renames(rho: string -> string, f: Func) {
    var order, order' := Order(f), Renamed(rho, Order(f));
    && (forall x, y :: x in order && y in order && rho(x) == rho(y) ==> x == y)
    && "_" !in order' && "" !in order'
    && AvoidsAll(order, order', f.types) && AvoidsAll(order, order', f.body)
  }

  lemma SameTarget(rho: string -> string, order: seq<string>, order': seq<string>, name: string)
    requires Proper(order) && order' == Renamed(rho, order) && Distinct(order')
    requires name in order || name !in order'
    ensures Target(order', Rho(rho, order)(name)) == Target(order, name)
  {
    if name in order {
      var i := Place(order, name);
      assert order'[i] == rho(name);
      PlaceIsUnique(order', i);
    }
  }

  lemma {:induction false} RelabelAgrees(rho: string -> string, order: seq<string>, order': seq<string>,
                                         nd: Node, mode: Mode)
    requires Proper(order) && order' == Renamed(rho, order) && Distinct(order')
    requires Avoids(order, order', nd) && mode != Never
    ensures Relabel(Targets(order'), Relabel(Rho(rho, order), nd, Never), mode) == Relabel(Targets(order), nd, mode)
       <==> FieldsAgree(order, order', nd, mode)
    decreases nd, 1
  {
    hide Proper, Distinct, Target, Renamed;
    match nd
    case Ident(name) => SameTarget(rho, order, order', name);
    case Fixed(_) =>
    case Selector(x, _) => RelabelAgrees(rho, order, order', x, Inner);
    case Binding(_, binders, kids) =>
      RelabelAllAgrees(rho, order, order', binders, mode);
      RelabelAllAgrees(rho, order, order', kids, mode);
    case Other(_, kids) => RelabelAllAgrees(rho, order, order', kids, mode);
  }

  lemma {:induction false} RelabelAllAgrees(rho: string -> string, order: seq<string>, order': seq<string>,
                                            nodes: seq<Node>, mode: Mode)
    requires Proper(order) && order' == Renamed(rho, order) && Distinct(order')
    requires AvoidsAll(order, order', nodes) && mode != Never
    ensures RelabelAll(Targets(order'), RelabelAll(Rho(rho, order), nodes, Never), mode)
         == RelabelAll(Targets(order), nodes, mode)
       <==> FieldsAgreeAll(order, order', nodes, mode)
    decreases nodes, 0
  {
    hide Proper, Distinct, Relabel, Renamed;
    if nodes != [] {
      RelabelAgrees(rho, order, order', nodes[0], mode);
      RelabelAllAgrees(rho, order, order', nodes[1..], mode);
      ConsAgrees(Targets(order'), Rho(rho, order), Targets(order), nodes, mode);
    }
  }

  lemma ConsAgrees(h': string -> string, r: string -> string, h: string -> string, nodes: seq<Node>, mode: Mode)
    requires nodes != []
    ensures RelabelAll(h', RelabelAll(r, nodes, Never), mode) == RelabelAll(h, nodes, mode)
       <==> Relabel(h', Relabel(r, nodes[0], Never), mode) == Relabel(h, nodes[0], mode)
            && RelabelAll(h', RelabelAll(r, nodes[1..], Never), mode) == RelabelAll(h, nodes[1..], mode)
  {
    hide Relabel;
    var inner := RelabelAll(r, nodes, Never);
    assert inner[0] == Relabel(r, nodes[0], Never) && inner[1..] == RelabelAll(r, nodes[1..], Never);
    var a, b := RelabelAll(h', inner, mode), RelabelAll(h, nodes, mode);
    assert a == [a[0]] + a[1..] && b == [b[0]] + b[1..];
    assert a[1..] == RelabelAll(h', inner[1..], mode) && b[1..] == RelabelAll(h, nodes[1..], mode);
  }

  lemma RhoIsFaithful(rho: string -> string, f: Func)
    requires Renames(rho, f)
    ensures Faithful(Rho(rho, Order(f)), Order(f))
    ensures Order(Alpha(rho, f)) == Renamed(rho, Order(f))
    ensures Distinct(Renamed(rho, Order(f)))
  {
    hide Order, AvoidsAll;
    var order := Order(f);
    OrderIsProper(f);
    forall x | x in order
      ensures rho(x) != "_" && rho(x) != ""
    {
      assert Renamed(rho, order)[Place(order, x)] == rho(x);
    }
    OrderCommutes(Rho(rho, order), f, Alpha(rho, f), Never);
    assert Renamed(Rho(rho, order), order) == Renamed(rho, order);
  }

  /** A change of local names leaves the canonical form alone exactly when it
      changes the label of nothing that is no local: the function's own name, a
      Fixed identifier, or a field the inner walk renames. */
  lemma AlphaInvariantExactlyWhen(rho: string -> string, f: Func)
    requires Renames(rho, f)
    ensures Canon(Alpha(rho, f)) == Canon(f)
       <==> Target(Order(f), f.name) == Target(Renamed(rho, Order(f)), f.name)
            && FieldsAgreeAll(Order(f), Renamed(rho, Order(f)), f.types, Outer)
            && FieldsAgreeAll(Order(f), Renamed(rho, Order(f)), f.body, Outer)
  {
    hide RelabelAll, FieldsAgreeAll, AvoidsAll, DeclareNames, DeclareInAll;
    var order, order' := Order(f), Renamed(rho, Order(f));
    OrderIsProper(f);
    RhoIsFaithful(rho, f);
    RelabelAllAgrees(rho, order, order', f.types, Outer);
    RelabelAllAgrees(rho, order, order', f.body, Outer);
    HeaderAvoids(rho, f);
    HeaderAgrees(rho, order, order', f.header);
  }

  lemma {:induction false} NamesAreDeclared(order: seq<string>, names: seq<string>)
    requires Proper(order)
    ensures Proper(DeclareNames(order, names))
    ensures forall x :: x in order || x in names ==> x in DeclareNames(order, names) || x == "_" || x == ""
    decreases |names|
  {
    hide Proper;
    if names != [] {
      ProperDeclare(order, names[0]);
      NamesAreDeclared(Declare(order, names[0]), names[1..]);
    }
  }

  lemma HeaderAvoids(rho: string -> string, f: Func)
    requires Renames(rho, f)
    ensures forall i :: 0 <= i < |f.header| ==>
      f.header[i] in Order(f) || f.header[i] !in Renamed(rho, Order(f))
  {
    hide DeclareNames, DeclareInAll, AvoidsAll;
    ProperEmpty();
    NamesAreDeclared([], f.header);
    hide Proper;
    var declared := DeclareNames([], f.header);
    DeclaringInAll(declared, f.body);
    forall i | 0 <= i < |f.header|
      ensures f.header[i] in Order(f) || f.header[i] !in Renamed(rho, Order(f))
    {
      var x := f.header[i];
      if x in declared {
        PrefixHas(declared, Order(f), x);
      } else {
        assert x == "_" || x == "";
      }
    }
  }

  lemma PrefixHas(a: seq<string>, b: seq<string>, x: string)
    requires a <= b && x in a
    ensures x in b
  {
    assert b[Place(a, x)] == x;
  }

  lemma HeaderAgrees(rho: string -> string, order: seq<string>, order': seq<string>, header: seq<string>)
    requires Proper(order) && order' == Renamed(rho, order) && Distinct(order')
    requires forall i :: 0 <= i < |header| ==> header[i] in order || header[i] !in order'
    ensures Renamed(Targets(order'), Renamed(Rho(rho, order), header)) == Renamed(Targets(order), header)
  {
    forall i | 0 <= i < |header|
      ensures Target(order', Rho(rho, order)(header[i])) == Target(order, header[i])
    {
      SameTarget(rho, order, order', header[i]);
    }
  }

  /** No Fixed identifier, and no field the inner walk reaches, is named like a
      local, before or after. */
  predicate FieldsApart(order: seq<string>, order': seq<string>, nd: Node, mode: Mode)
    decreases nd, 1
  {
    match nd
    case Ident(_) => true
    case Fixed(name) => name !in order && name !in order'
    case Selector(x, field) =>
      && FieldsApart(order, order', x, if mode == Outer then Inner else mode)
      && (mode == Inner ==> field !in order && field !in order')
    case Binding(_, binders, kids) =>
      FieldsApartAll(order, order', binders, mode) && FieldsApartAll(order, order', kids, mode)
    case Other(_, kids) => FieldsApartAll(order, order', kids, mode)
  }

  predicate FieldsApartAll(order: seq<string>, order': seq<string>, nodes: seq<Node>, mode: Mode)
    decreases nodes, 0
  {
    nodes != [] ==> FieldsApart(order, order', nodes[0], mode) && FieldsApartAll(order, order', nodes[1..], mode)
  }

  lemma {:induction false} ApartFieldsAgree(order: seq<string>, order': seq<string>, nd: Node, mode: Mode)
    requires FieldsApart(order, order', nd, mode)
    ensures FieldsAgree(order, order', nd, mode)
    decreases nd, 1
  {
    match nd
    case Ident(_) =>
    case Fixed(_) =>
    case Selector(x, _) => ApartFieldsAgree(order, order', x, if mode == Outer then Inner else mode);
    case Binding(_, binders, kids) =>
      ApartFieldsAgreeAll(order, order', binders, mode);
      ApartFieldsAgreeAll(order, order', kids, mode);
    case Other(_, kids) => ApartFieldsAgreeAll(order, order', kids, mode);
  }

  lemma {:induction false} ApartFieldsAgreeAll(order: seq<string>, order': seq<string>, nodes: seq<Node>, mode: Mode)
    requires FieldsApartAll(order, order', nodes, mode)
    ensures FieldsAgreeAll(order, order', nodes, mode)
    decreases nodes, 0
  {
    if nodes != [] {
      ApartFieldsAgree(order, order', nodes[0], mode);
      ApartFieldsAgreeAll(order, order', nodes[1..], mode);
    }
  }

  /** The cache key is stable under a change of local names, as long as nothing
      else the walks rename is named like a local; the digest is arbitrary. */
  lemma HashIgnoresLocalNames(digest: Func -> string, rho: string -> string, f: Func)
    requires Renames(rho, f)
    requires f.name !in Order(f) && f.name !in Renamed(rho, Order(f))
    requires FieldsApartAll(Order(f), Renamed(rho, Order(f)), f.types, Outer)
    requires FieldsApartAll(Order(f), Renamed(rho, Order(f)), f.body, Outer)
    ensures digest(Canon(Alpha(rho, f))) == digest(Canon(f))
  {
    ApartFieldsAgreeAll(Order(f), Renamed(rho, Order(f)), f.types, Outer);
    ApartFieldsAgreeAll(Order(f), Renamed(rho, Order(f)), f.body, Outer);
    AlphaInvariantExactlyWhen(rho, f);
  }

  /** func F(x T) { s } for a statement or expression s that declares nothing. */
  function WithParam(x: string, s: Node): Func {
    Func("F", [x], [], [s])
  }

  /** Where s keeps its name x apart from the parameter x, renaming the parameter
      to z changes the hash. */
  lemma OneParamBreaks(s: Node)
    requires DeclareIn(["x"], s) == ["x"] && Avoids(["x"], ["z"], s)
    requires !FieldsAgree(["x"], ["z"], s, Outer)
    ensures var f, rho := WithParam("x", s), (name: string) => "z";
      Renames(rho, f) && Canon(Alpha(rho, f)) != Canon(f)
  {
    hide DeclareIn, Avoids, FieldsAgree;
    var f := WithParam("x", s);
    var rho := (name: string) => "z";
    assert DeclareNames([], ["x"]) == ["x"];
    assert f.body[1..] == [];
    assert DeclareInAll(["x"], f.body) == ["x"];
    assert Renamed(rho, ["x"]) == ["z"];
    assert !FieldsAgreeAll(["x"], ["z"], f.body, Outer);
    assert AvoidsAll(["x"], ["z"], f.body);
    AlphaInvariantExactlyWhen(rho, f);
  }

  lemma TargetsOfX()
    ensures Target(["x"], "x") == "v0" && Target(["z"], "x") == "x"
  {
    assert Label(0) == "v0";
  }

  /** x.x.y: the inner walk renames the field x as if it were the parameter. */
  lemma NestedFieldBreaksInvariance()
    ensures var f, rho := WithParam("x", Selector(Selector(Ident("x"), "x"), "y")), (name: string) => "z";
      Renames(rho, f) && Canon(Alpha(rho, f)) != Canon(f)
  {
    TargetsOfX();
    OneParamBreaks(Selector(Selector(Ident("x"), "x"), "y"));
  }

  /** T{x: x}: the walk renames the key as if it were the parameter. */
  lemma KeyBreaksInvariance()
    ensures var f, rho := WithParam("x", Other("T", [Fixed("x"), Ident("x")])), (name: string) => "z";
      Renames(rho, f) && Canon(Alpha(rho, f)) != Canon(f)
  {
    TargetsOfX();
    var s := Other("T", [Fixed("x"), Ident("x")]);
    assert s.kids[1..][1..] == [];
    OneParamBreaks(s);
  }

  lemma SingleNode(order: seq<string>, h: string -> string, nd: Node)
    ensures DeclareInAll(order, [nd]) == DeclareIn(order, nd)
    ensures RelabelAll(h, [nd], Outer) == [Relabel(h, nd, Outer)]
  {
    assert [nd][1..] == [];
  }

  lemma TwoNodes(order: seq<string>, h: string -> string, c: Node, d: Node)
    ensures DeclareInAll(order, [c, d]) == DeclareIn(DeclareIn(order, c), d)
    ensures RelabelAll(h, [c, d], Outer) == [Relabel(h, c, Outer), Relabel(h, d, Outer)]
  {
    assert [c, d][1..] == [d];
    SingleNode(DeclareIn(order, c), h, d);
  }

  /** name := value, for a value that declares nothing. */
  lemma DefineNode(order: seq<string>, h: string -> string, name: string, value: Node)
    requires forall o :: DeclareIn(o, value) == o
    ensures var nd := Binding(":=", [Ident(name)], [value]);
      && DeclareIn(order, nd) == Declare(order, name)
      && Relabel(h, nd, Outer) == Binding(":=", [Ident(h(name))], [Relabel(h, value, Outer)])
  {
    var next := Declare(order, name);
    assert [Ident(name)][1..] == [];
    assert DeclareBinders(order, [Ident(name)]) == next;
    SingleNode(next, h, Ident(name));
    SingleNode(next, h, value);
  }

  /** g := func(p) { p }. A function literal's parameters are locals that are
      never declared. */
  function WithLiteral(p: string): Func {
    Func("F", [], [], [Binding(":=", [Ident("g")], [Other("func", [Ident(p), Ident(p)])])])
  }

  lemma LiteralKeepsName(p: string)
    requires p != "g"
    ensures Canon(WithLiteral(p)).body == [Binding(":=", [Ident(Label(0))], [Other("func", [Ident(p), Ident(p)])])]
  {
    var f, lit := WithLiteral(p), Other("func", [Ident(p), Ident(p)]);
    var h := Targets(["g"]);
    forall o
      ensures DeclareIn(o, lit) == o
    {
      TwoNodes(o, h, Ident(p), Ident(p));
    }
    TwoNodes([], h, Ident(p), Ident(p));
    DefineNode([], h, "g", lit);
    SingleNode([], h, f.body[0]);
    assert Order(f) == ["g"];
    assert Place(["g"], "g") == 0;
  }

  /** So two functions that differ in the name of such a parameter hash apart. */
  lemma LiteralParameterBreaksInvariance(p: string, q: string)
    requires p != q && p != "g" && q != "g"
    ensures Canon(WithLiteral(p)) != Canon(WithLiteral(q))
  {
    hide Canon;
    LiteralKeepsName(p);
    LiteralKeepsName(q);
    assert [Ident(p), Ident(p)][0] != [Ident(q), Ident(q)][0];
  }

  /** { x := T }; { y := T }: two locals in sibling scopes. */
  function Siblings(x: string, y: string): Func {
    Func("F", [], [], [Binding(":=", [Ident(x)], [Fixed("T")]), Binding(":=", [Ident(y)], [Fixed("T")])])
  }

  lemma SiblingLabels(x: string, y: string)
    requires x != "_" && x != "" && y != "_" && y != ""
    ensures |Canon(Siblings(x, y)).body| == 2
    ensures var d := Canon(Siblings(x, y)).body[1];
      d.Binding? && d.binders == [Ident(Label(if x == y then 0 else 1))]
  {
    var f := Siblings(x, y);
    var order := Declare([x], y);
    var h := Targets(order);
    DefineNode([], h, x, Fixed("T"));
    DefineNode([x], h, y, Fixed("T"));
    TwoNodes([], h, f.body[0], f.body[1]);
    assert Declare([], x) == [x];
    assert Order(f) == order;
    assert order[1..] == if x == y then [] else [y];
  }

  /** Shadowed names collapse into one label, so giving one of two variables that
      share a name a name of its own changes the hash. */
  lemma SplittingANameBreaksInvariance(x: string, y: string)
    requires x != "_" && x != "" && y != "_" && y != "" && x != y
    ensures Canon(Siblings(x, x)) != Canon(Siblings(x, y))
  {
    hide Canon;
    SiblingLabels(x, x);
    SiblingLabels(x, y);
    if Label(0) == Label(1) {
      LabelsDiffer(0, 1);
    }
    assert [Ident(Label(0))][0] != [Ident(Label(1))][0];
  }

  /** Two functions that are no renaming of each other can share a canonical
      form: a package-level v0 is taken for the first local. */
  lemma FreeLabelCollides()
    ensures var f, g := Func("F", ["x"], [], [Ident("x"), Ident("v0")]), Func("F", ["x"], [], [Ident("x"), Ident("x")]);
      Canon(f) == Canon(g)
  {
    var f, g := Func("F", ["x"], [], [Ident("x"), Ident("v0")]), Func("F", ["x"], [], [Ident("x"), Ident("x")]);
    assert DeclareNames([], ["x"]) == ["x"];
    assert f.body[1..][1..] == [] && g.body[1..][1..] == [];
    assert DeclareInAll(["x"], f.body) == ["x"] == DeclareInAll(["x"], g.body);
    assert Label(0) == "v0";
    assert RelabelAll(Targets(["x"]), f.body[1..], Outer) == RelabelAll(Targets(["x"]), g.body[1..], Outer);
  }
}
