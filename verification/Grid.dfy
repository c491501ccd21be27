/** internal/calibrate/ltt.go: the threshold grid and the data-independent order
    in which the fixed-sequence search visits it. */
module Grid {

  /** math.Round(v*1000)/1000 for v >= 0: round half up to three decimals. */
  function RoundMilli(v: real): real {
    (v * 1000.0 + 0.5).Floor as real / 1000.0
  }

  const SLACK: real := 0.000000001

  /** An upper bound on the additions left before v passes 1. */
  function StepsLeft(v: real, step: real): int
    requires 0.0 < step
  {
    ((1.0 + SLACK - v) / step).Floor + 1
  }

  /** The accumulated loop variable: v = i*step for every i with v <= 1 + 1e-9. */
  function LevelsFrom(v: real, step: real): seq<real>
    requires 0.0 < step
    decreases StepsLeft(v, step)
  {
    if v <= 1.0 + SLACK then
      FewerLevelsLeft(v, step);
      [RoundMilli(v)] + LevelsFrom(v + step, step)
    else []
  }

  lemma FewerLevelsLeft(v: real, step: real)
    requires 0.0 < step && v <= 1.0 + SLACK
    ensures 0 <= StepsLeft(v + step, step) < StepsLeft(v, step)
  {
    QuotientShift(1.0 + SLACK - v, step);
    assert 1.0 + SLACK - (v + step) == 1.0 + SLACK - v - step;
  }

  lemma QuotientShift(c: real, step: real)
    requires 0.0 < step
    ensures (c - step) / step == c / step - 1.0
    ensures 0.0 <= c ==> 0.0 <= c / step
  {
    var q, r := c / step, (c - step) / step;
    assert q * step == c && r * step == c - step;
    var x := r - q + 1.0;
    assert x * step == r * step - q * step + step == 0.0;
    ZeroFactor(x, step);
  }

  lemma ZeroFactor(x: real, s: real)
    requires x * s == 0.0 && 0.0 < s
    ensures x == 0.0
  {
  }

  function Levels(step: real): seq<real>
    requires 0.0 < step
  {
    LevelsFrom(0.0, step)
  }

  /** Every row of g extended by every level, rows first. */
  function Extend(g: seq<seq<real>>, levels: seq<real>): seq<seq<real>> {
    if g == [] then [] else ExtendRow(g[0], levels) + Extend(g[1..], levels)
  }

  function ExtendRow(row: seq<real>, levels: seq<real>): seq<seq<real>> {
    if levels == [] then [] else [row + [levels[0]]] + ExtendRow(row, levels[1..])
  }

  /** All vectors of the given arity; buildGrid returns nothing at arity 0. */
  function Vectors(arity: nat, levels: seq<real>): seq<seq<real>> {
    if arity == 0 then [[]] else Extend(Vectors(arity - 1, levels), levels)
  }

  function GridOf(arity: int, step: real): seq<seq<real>>
    requires 0.0 < step
  {
    if arity <= 0 then [] else Vectors(arity, Levels(step))
  }

  ghost predicate IsVector(v: seq<real>, arity: nat, levels: seq<real>) {
    |v| == arity && forall i :: 0 <= i < |v| ==> v[i] in levels
  }

  /** How many grid rows equal v. */
  function Occurrences(g: seq<seq<real>>, v: seq<real>): nat {
    if g == [] then 0 else (if g[0] == v then 1 else 0) + Occurrences(g[1..], v)
  }

  function Repeats(levels: seq<real>, x: real): nat {
    if levels == [] then 0 else (if levels[0] == x then 1 else 0) + Repeats(levels[1..], x)
  }

  /** The number of ways to spell v out of the levels. */
  function Spellings(v: seq<real>, levels: seq<real>): nat {
    if v == [] then 1 else Spellings(v[..|v| - 1], levels) * Repeats(levels, v[|v| - 1])
  }

  // ------------------------------------------------------------ buildGrid

  method BuildLevels(step: real) returns (levels: seq<real>)
    requires 0.0 < step
    ensures levels == Levels(step)
  {
    levels := [];
    var v := 0.0;
    while v <= 1.0 + SLACK
      invariant levels + LevelsFrom(v, step) == Levels(step)
      decreases StepsLeft(v, step)
    {
      hide RoundMilli, StepsLeft;
      FewerLevelsLeft(v, step);
      assert (levels + [RoundMilli(v)]) + LevelsFrom(v + step, step)
          == levels + ([RoundMilli(v)] + LevelsFrom(v + step, step));
      levels := levels + [RoundMilli(v)];
      v := v + step;
    }
  }

  method ExtendByLevels(row: seq<real>, levels: seq<real>) returns (rows: seq<seq<real>>)
    ensures rows == ExtendRow(row, levels)
  {
    rows := [];
    for l := 0 to |levels|
      invariant rows + ExtendRow(row, levels[l..]) == ExtendRow(row, levels)
    {
      assert levels[l..][1..] == levels[l + 1..];
      rows := rows + [row + [levels[l]]];
    }
  }

  method ExtendGrid(grid: seq<seq<real>>, levels: seq<real>) returns (next: seq<seq<real>>)
    ensures next == Extend(grid, levels)
  {
    next := [];
    for i := 0 to |grid|
      invariant next + Extend(grid[i..], levels) == Extend(grid, levels)
    {
      assert grid[i..][1..] == grid[i + 1..];
      var rows := ExtendByLevels(grid[i], levels);
      assert (next + rows) + Extend(grid[i + 1..], levels) == next + (rows + Extend(grid[i + 1..], levels));
      next := next + rows;
    }
  }

  method BuildGrid(arity: int, step: real) returns (grid: seq<seq<real>>)
    requires 0.0 < step
    ensures grid == GridOf(arity, step)
  {
    if arity <= 0 {
      return [];
    }
    var levels := BuildLevels(step);
    grid := [[]];
    for a := 0 to arity
      invariant grid == Vectors(a, levels)
    {
      grid := ExtendGrid(grid, levels);
    }
  }

  // ------------------------------------------------------------ exactly once

  lemma {:induction false} OccurrencesAppend(g: seq<seq<real>>, h: seq<seq<real>>, v: seq<real>)
    ensures Occurrences(g + h, v) == Occurrences(g, v) + Occurrences(h, v)
  {
    if g == [] {
      assert g + h == h;
    } else {
      OccurrencesAppend(g[1..], h, v);
      assert (g + h)[1..] == g[1..] + h;
    }
  }

  lemma {:induction false} OccurrencesInRow(row: seq<real>, levels: seq<real>, v: seq<real>)
    requires v != []
    ensures Occurrences(ExtendRow(row, levels), v)
         == (if row == v[..|v| - 1] then Repeats(levels, v[|v| - 1]) else 0)
  {
    if levels != [] {
      OccurrencesInRow(row, levels[1..], v);
      var head := row + [levels[0]];
      assert head == v <==> row == v[..|v| - 1] && levels[0] == v[|v| - 1] by {
        assert v == v[..|v| - 1] + [v[|v| - 1]];
        assert head[..|head| - 1] == row;
      }
      assert ExtendRow(row, levels)[1..] == ExtendRow(row, levels[1..]);
    }
  }

  lemma {:induction false} OccurrencesInExtend(g: seq<seq<real>>, levels: seq<real>, v: seq<real>)
    requires v != []
    ensures Occurrences(Extend(g, levels), v)
         == Occurrences(g, v[..|v| - 1]) * Repeats(levels, v[|v| - 1])
  {
    if g != [] {
      var prefix, r := v[..|v| - 1], Repeats(levels, v[|v| - 1]);
      OccurrencesInExtend(g[1..], levels, v);
      OccurrencesInRow(g[0], levels, v);
      OccurrencesAppend(ExtendRow(g[0], levels), Extend(g[1..], levels), v);
      var h := if g[0] == prefix then 1 else 0;
      assert (h + Occurrences(g[1..], prefix)) * r == h * r + Occurrences(g[1..], prefix) * r;
    }
  }

  /** The grid lists a vector as often as the levels can spell it. */
  lemma {:induction false} OccurrencesInVectors(arity: nat, levels: seq<real>, v: seq<real>)
    requires |v| == arity
    ensures Occurrences(Vectors(arity, levels), v) == Spellings(v, levels)
    decreases arity
  {
    if arity != 0 {
      OccurrencesInVectors(arity - 1, levels, v[..arity - 1]);
      OccurrencesInExtend(Vectors(arity - 1, levels), levels, v);
    } else {
      assert v == [];
      var g := Vectors(0, levels);
      assert g[1..] == [];
    }
  }

  lemma {:induction false} RowsHaveArity(arity: nat, levels: seq<real>)
    ensures forall v :: v in Vectors(arity, levels) ==> |v| == arity
  {
    if arity != 0 {
      RowsHaveArity(arity - 1, levels);
      ExtendLengths(Vectors(arity - 1, levels), levels, arity - 1);
    }
  }

  lemma {:induction false} ExtendLengths(g: seq<seq<real>>, levels: seq<real>, n: nat)
    requires forall v :: v in g ==> |v| == n
    ensures forall v :: v in Extend(g, levels) ==> |v| == n + 1
  {
    if g != [] {
      ExtendLengths(g[1..], levels, n);
      ExtendRowLengths(g[0], levels);
    }
  }

  lemma {:induction false} ExtendRowLengths(row: seq<real>, levels: seq<real>)
    ensures forall v :: v in ExtendRow(row, levels) ==> |v| == |row| + 1
  {
    if levels != [] {
      ExtendRowLengths(row, levels[1..]);
    }
  }

  ghost predicate Increasing(levels: seq<real>) {
    forall i, j :: 0 <= i < j < |levels| ==> levels[i] < levels[j]
  }

  lemma {:induction false} RepeatsOfIncreasing(levels: seq<real>, x: real)
    requires Increasing(levels)
    ensures Repeats(levels, x) == if x in levels then 1 else 0
  {
    if levels != [] {
      RepeatsOfIncreasing(levels[1..], x);
      assert x in levels <==> x == levels[0] || x in levels[1..];
    }
  }

  lemma {:induction false} SpellingsOfIncreasing(v: seq<real>, levels: seq<real>)
    requires Increasing(levels)
    ensures Spellings(v, levels) == if IsVector(v, |v|, levels) then 1 else 0
  {
    if v != [] {
      var init, x := v[..|v| - 1], v[|v| - 1];
      SpellingsOfIncreasing(init, levels);
      RepeatsOfIncreasing(levels, x);
      assert v == init + [x];
      assert IsVector(v, |v|, levels) <==> IsVector(init, |init|, levels) && x in levels by {
        assert forall i :: 0 <= i < |init| ==> v[i] == init[i];
        if IsVector(init, |init|, levels) && x in levels {
          assert forall i :: 0 <= i < |v| ==> v[i] == if i < |init| then init[i] else x;
        }
      }
    }
  }

  /** A step of at least 1/1000 survives the rounding: levels strictly increase. */
  lemma {:induction false} CoarseLevelsIncrease(v: real, step: real)
    requires 0.001 <= step
    ensures Increasing(LevelsFrom(v, step))
    ensures forall x :: x in LevelsFrom(v, step) ==> RoundMilli(v) <= x
    decreases StepsLeft(v, step)
  {
    if v <= 1.0 + SLACK {
      FewerLevelsLeft(v, step);
      CoarseLevelsIncrease(v + step, step);
      RoundingSeparates(v, step);
      var rest := LevelsFrom(v + step, step);
      assert LevelsFrom(v, step) == [RoundMilli(v)] + rest;
      assert forall j :: 0 <= j < |rest| ==> rest[j] in rest;
    }
  }

  lemma RoundingSeparates(v: real, step: real)
    requires 0.001 <= step
    ensures RoundMilli(v) < RoundMilli(v + step)
  {
    var a, b := v * 1000.0 + 0.5, (v + step) * 1000.0 + 0.5;
    assert a + 1.0 <= b;
    assert a.Floor + 1 <= b.Floor;
  }

  /** Strictly increasing levels give a grid that lists every combination of
      them exactly once, and nothing else. */
  lemma IncreasingListsOnce(arity: nat, step: real, v: seq<real>)
    requires 0 < arity && 0.0 < step && Increasing(Levels(step))
    ensures Occurrences(GridOf(arity, step), v)
         == if IsVector(v, arity, Levels(step)) then 1 else 0
  {
    var levels := Levels(step);
    if |v| == arity {
      OccurrencesInVectors(arity, levels, v);
      SpellingsOfIncreasing(v, levels);
    } else {
      RowsHaveArity(arity, levels);
      AbsentOccursNever(Vectors(arity, levels), v);
    }
  }

  /** In particular for every step of at least the rounding unit. */
  lemma GridListsEveryVectorOnce(arity: nat, step: real, v: seq<real>)
    requires 0 < arity && 0.001 <= step
    ensures Occurrences(GridOf(arity, step), v)
         == if IsVector(v, arity, Levels(step)) then 1 else 0
  {
    CoarseLevelsIncrease(0.0, step);
    IncreasingListsOnce(arity, step, v);
  }

  lemma {:induction false} AbsentOccursNever(g: seq<seq<real>>, v: seq<real>)
    requires v !in g
    ensures Occurrences(g, v) == 0
  {
    if g != [] {
      AbsentOccursNever(g[1..], v);
    }
  }

  lemma {:induction false} PresentOccurs(g: seq<seq<real>>, v: seq<real>)
    ensures v in g <==> 0 < Occurrences(g, v)
  {
    if g != [] {
      PresentOccurs(g[1..], v);
      assert v in g <==> v == g[0] || v in g[1..];
    }
  }

  /** Every threshold on the grid lies in [0, 1]. */
  lemma {:induction false} LevelsInUnitInterval(v: real, step: real, x: real)
    requires 0.0 < step && 0.0 <= v && x in LevelsFrom(v, step)
    ensures 0.0 <= x <= 1.0
    decreases StepsLeft(v, step)
  {
    FewerLevelsLeft(v, step);
    if x == RoundMilli(v) {
      var a := v * 1000.0 + 0.5;
      assert 0 <= a.Floor <= 1000;
    } else {
      LevelsInUnitInterval(v + step, step, x);
    }
  }

  // ------------------------------------------------------------ visiting order

  function Sum(v: seq<real>): real {
    if v == [] then 0.0 else Sum(v[..|v| - 1]) + v[|v| - 1]
  }

  /** slices.Compare(a, b) < 0. */
  predicate LexLess(a: seq<real>, b: seq<real>) {
    if b == [] then false
    else if a == [] then true
    else a[0] < b[0] || (a[0] == b[0] && LexLess(a[1..], b[1..]))
  }

  /** The comparator: larger sum first, ties by the lexicographically larger. */
  predicate Before(a: seq<real>, b: seq<real>) {
    if Sum(a) != Sum(b) then Sum(a) > Sum(b) else LexLess(b, a)
  }

  /** v is pointwise at least w. */
  ghost predicate Dominates(v: seq<real>, w: seq<real>) {
    |v| == |w| && forall i :: 0 <= i < |v| ==> w[i] <= v[i]
  }

  lemma {:induction false} DominatingSums(v: seq<real>, w: seq<real>)
    requires Dominates(v, w)
    ensures Sum(w) <= Sum(v) && (Sum(w) == Sum(v) ==> v == w)
  {
    if v != [] {
      var a, b := v[..|v| - 1], w[..|w| - 1];
      DominatingSums(a, b);
      assert v == a + [v[|v| - 1]] && w == b + [w[|w| - 1]];
    }
  }

  lemma {:induction false} LexTotal(a: seq<real>, b: seq<real>)
    requires |a| == |b|
    ensures LexLess(a, b) || LexLess(b, a) || a == b
    ensures !(LexLess(a, b) && LexLess(b, a))
  {
    if a != [] {
      LexTotal(a[1..], b[1..]);
      if a[0] == b[0] && a[1..] == b[1..] {
        assert a == [a[0]] + a[1..] && b == [b[0]] + b[1..];
      }
    }
  }

  lemma {:induction false} LexTransitive(a: seq<real>, b: seq<real>, c: seq<real>)
    requires LexLess(a, b) && LexLess(b, c)
    ensures LexLess(a, c)
  {
    if a != [] && a[0] == b[0] == c[0] {
      LexTransitive(a[1..], b[1..], c[1..]);
    }
  }

  /** Not Before(b, a) is a total preorder on vectors of one arity. */
  lemma NotAfterTransitive(a: seq<real>, b: seq<real>, c: seq<real>)
    requires |a| == |b| == |c| && !Before(b, a) && !Before(c, b)
    ensures !Before(c, a)
  {
    LexTotal(a, b);
    LexTotal(b, c);
    LexTotal(a, c);
    if LexLess(b, a) && LexLess(c, b) {
      LexTransitive(c, b, a);
    }
  }

  predicate Indices(order: seq<nat>, n: nat) {
    forall k :: 0 <= k < |order| ==> order[k] < n
  }

  /** sort.SliceStable over indices: insert i before the first later-ordered one. */
  function Insert(order: seq<nat>, i: nat, grid: seq<seq<real>>): seq<nat>
    requires i < |grid| && Indices(order, |grid|)
  {
    if order == [] then [i]
    else if Before(grid[i], grid[order[0]]) then [i] + order
    else [order[0]] + Insert(order[1..], i, grid)
  }

  function VisitOrder(grid: seq<seq<real>>, n: nat): (order: seq<nat>)
    requires n <= |grid|
    ensures Indices(order, |grid|)
  {
    if n == 0 then [] else
      InsertMembers(VisitOrder(grid, n - 1), n - 1, grid);
      Insert(VisitOrder(grid, n - 1), n - 1, grid)
  }

  lemma {:induction false} InsertMembers(order: seq<nat>, i: nat, grid: seq<seq<real>>)
    requires i < |grid| && Indices(order, |grid|)
    ensures |Insert(order, i, grid)| == |order| + 1
    ensures forall j :: j in Insert(order, i, grid) <==> j == i || j in order
    ensures Indices(Insert(order, i, grid), |grid|)
  {
    if order != [] {
      InsertMembers(order[1..], i, grid);
    }
  }

  ghost predicate Ordered(order: seq<nat>, grid: seq<seq<real>>)
    requires Indices(order, |grid|)
  {
    forall a, b :: 0 <= a < b < |order| ==> !Before(grid[order[b]], grid[order[a]])
  }

  lemma ConsOrdered(head: nat, tail: seq<nat>, grid: seq<seq<real>>)
    requires head < |grid| && Indices(tail, |grid|) && Ordered(tail, grid)
    requires forall k :: 0 <= k < |tail| ==> !Before(grid[tail[k]], grid[head])
    ensures Indices([head] + tail, |grid|) && Ordered([head] + tail, grid)
  {
  }

  lemma {:induction false} InsertKeepsOrder(order: seq<nat>, i: nat, grid: seq<seq<real>>)
    requires i < |grid| && Indices(order, |grid|) && Ordered(order, grid)
    requires forall v, w :: v in grid && w in grid ==> |v| == |w|
    ensures Indices(Insert(order, i, grid), |grid|)
    ensures Ordered(Insert(order, i, grid), grid)
  {
    InsertMembers(order, i, grid);
    if order == [] {
    } else if Before(grid[i], grid[order[0]]) {
      forall k | 0 <= k < |order|
        ensures !Before(grid[order[k]], grid[i])
      {
        LexTotal(grid[i], grid[order[0]]);
        if k != 0 {
          NotAfterTransitive(grid[i], grid[order[0]], grid[order[k]]);
        }
      }
      ConsOrdered(i, order, grid);
    } else {
      var rest := order[1..];
      InsertKeepsOrder(rest, i, grid);
      InsertMembers(rest, i, grid);
      var tail := Insert(rest, i, grid);
      forall k | 0 <= k < |tail|
        ensures !Before(grid[tail[k]], grid[order[0]])
      {
        assert tail[k] in tail;
        if tail[k] != i {
          var at :| 0 <= at < |rest| && rest[at] == tail[k];
          assert order[at + 1] == tail[k];
        }
      }
      ConsOrdered(order[0], tail, grid);
    }
  }

  /** The order visits every grid index once, most conservative first. */
  lemma {:induction false} VisitOrderSorts(grid: seq<seq<real>>, n: nat)
    requires n <= |grid|
    requires forall v, w :: v in grid && w in grid ==> |v| == |w|
    ensures |VisitOrder(grid, n)| == n
    ensures forall j: nat :: j in VisitOrder(grid, n) <==> j < n
    ensures Ordered(VisitOrder(grid, n), grid)
  {
    if n != 0 {
      var before := VisitOrder(grid, n - 1);
      VisitOrderSorts(grid, n - 1);
      InsertMembers(before, n - 1, grid);
      InsertKeepsOrder(before, n - 1, grid);
    }
  }

  /** The visiting order extends pointwise dominance. */
  lemma DominatingVectorsComeFirst(grid: seq<seq<real>>, a: nat, b: nat)
    requires forall v, w :: v in grid && w in grid ==> |v| == |w|
    requires a < |VisitOrder(grid, |grid|)| && b < |VisitOrder(grid, |grid|)|
    requires var order := VisitOrder(grid, |grid|);
      && Dominates(grid[order[a]], grid[order[b]])
      && grid[order[a]] != grid[order[b]]
    ensures a < b
  {
    var order := VisitOrder(grid, |grid|);
    VisitOrderSorts(grid, |grid|);
    DominatingSums(grid[order[a]], grid[order[b]]);
    assert Before(grid[order[a]], grid[order[b]]);
  }
}
