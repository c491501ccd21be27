/** internal/calibrate/ltt.go: for which steps buildGrid repeats a vector. Levels
    are rounded to thousandths, so a step below 0.001 drifts from the grid of
    thousandths and eventually two neighbours round to the same level. */
module GridDrift {
  import opened Powers
  import opened Grid

  /** The last index the level loop reaches. */
  function LastIndex(step: real): int
    requires 0.0 < step
  {
    ((1.0 + SLACK) / step).Floor
  }

  function Times(j: int, x: real): real {
    j as real * x
  }

  /** How far one step falls short of a thousandth, in thousandths. */
  function Shortfall(step: real): real {
    1.0 - 1000.0 * step
  }

  /** The last level is more than half a thousandth short of its index. */
  predicate Drifts(step: real)
    requires 0.0 < step
  {
    0.5 < Times(LastIndex(step), Shortfall(step))
  }

  lemma TimesNext(j: int, x: real)
    ensures Times(j + 1, x) == Times(j, x) + x
    ensures Times(0, x) == 0.0
  {
  }

  lemma TimesGrows(i: int, j: int, x: real)
    requires i <= j && 0.0 <= x
    ensures Times(i, x) <= Times(j, x)
  {
    ScaleLe(x, i as real, j as real);
  }

  // ------------------------------------------------------------ the levels by index

  /** x is what the loop appends at index k, within its bound. */
  predicate IsLevel(x: real, k: int, step: real) {
    Times(k, step) <= 1.0 + SLACK && x == RoundMilli(Times(k, step))
  }

  lemma {:induction false} LevelsByIndex(i: nat, step: real)
    requires 0.0 < step
    ensures var ls := LevelsFrom(Times(i, step), step);
      && (forall j :: 0 <= j < |ls| ==> IsLevel(ls[j], i + j, step))
      && 1.0 + SLACK < Times(i + |ls|, step)
    decreases StepsLeft(Times(i, step), step)
  {
    hide RoundMilli, StepsLeft, Times;
    var v := Times(i, step);
    if v <= 1.0 + SLACK {
      TimesNext(i, step);
      FewerLevelsLeft(v, step);
      LevelsByIndex(i + 1, step);
      var ls, rest := LevelsFrom(v, step), LevelsFrom(Times(i + 1, step), step);
      assert ls == [RoundMilli(v)] + rest;
      forall j | 0 <= j < |ls|
        ensures IsLevel(ls[j], i + j, step)
      {
        if j != 0 {
          assert ls[j] == rest[j - 1];
          assert IsLevel(rest[j - 1], (i + 1) + (j - 1), step);
        }
      }
    }
  }

  lemma LevelCount(step: real)
    requires 0.0 < step
    ensures |Levels(step)| == LastIndex(step) + 1
    ensures forall j :: 0 <= j < |Levels(step)| ==> Levels(step)[j] == RoundMilli(Times(j, step))
  {
    hide RoundMilli, Times;
    TimesNext(0, step);
    LevelsByIndex(0, step);
    var n := |Levels(step)|;
    assert 0 < n;
    forall j | 0 <= j < n
      ensures IsLevel(Levels(step)[j], j, step)
    {
      assert IsLevel(Levels(step)[j], 0 + j, step);
    }
    assert IsLevel(Levels(step)[n - 1], n - 1, step);
    FloorBetween(n - 1, step);
  }

  lemma FloorBetween(m: nat, step: real)
    requires 0.0 < step && Times(m, step) <= 1.0 + SLACK < Times(m + 1, step)
    ensures LastIndex(step) == m
  {
    var q := (1.0 + SLACK) / step;
    assert q * step == 1.0 + SLACK;
    InOrder(m as real, q, step);
    InOrder(q, (m + 1) as real, step);
  }

  lemma InOrder(a: real, b: real, s: real)
    requires 0.0 < s
    ensures a * s <= b * s ==> a <= b
    ensures a * s < b * s ==> a < b
  {
    SignOfProduct(s, b - a);
    assert s * (b - a) == b * s - a * s;
  }

  // ------------------------------------------------------------ rounding

  lemma InThousandths(j: int, step: real)
    ensures Times(j, step) * 1000.0 == j as real - Times(j, Shortfall(step))
  {
    assert j as real * step * 1000.0 == j as real * (1000.0 * step);
  }

  /** At most half a thousandth short: the level is the index in thousandths. */
  lemma RoundsToIndex(j: int, step: real)
    requires 0.0 <= Times(j, Shortfall(step)) <= 0.5
    ensures RoundMilli(Times(j, step)) == j as real / 1000.0
  {
    InThousandths(j, step);
    hide Times;
    var x := Times(j, step) * 1000.0 + 0.5;
    assert x.Floor == j;
  }

  /** Further short, but not by a whole step more: one thousandth lower. */
  lemma RoundsBelowIndex(j: int, step: real)
    requires 0.5 < Times(j, Shortfall(step)) <= 1.5
    ensures RoundMilli(Times(j, step)) == (j - 1) as real / 1000.0
  {
    InThousandths(j, step);
    hide Times;
    var x := Times(j, step) * 1000.0 + 0.5;
    assert x.Floor == j - 1;
  }

  // ------------------------------------------------------------ no drift

  lemma DriftlessLevelsIncrease(step: real)
    requires 0.0 < step && !Drifts(step)
    ensures Increasing(Levels(step))
  {
    if 0.001 <= step {
      CoarseLevelsIncrease(0.0, step);
    } else {
      LevelCount(step);
      var ls := Levels(step);
      hide RoundMilli, LastIndex, Times;
      TimesNext(0, Shortfall(step));
      forall j | 0 <= j < |ls|
        ensures ls[j] == j as real / 1000.0
      {
        TimesGrows(0, j, Shortfall(step));
        TimesGrows(j, LastIndex(step), Shortfall(step));
        RoundsToIndex(j, step);
      }
    }
  }

  // ------------------------------------------------------------ drift

  /** The first index that rounds below itself. */
  lemma FirstDrift(e: real, last: nat) returns (i: int)
    requires e < 1.0 && 0.5 < Times(last, e)
    ensures 0 < i <= last && 0.5 < Times(i, e) <= 1.5 && 0.0 <= Times(i - 1, e) <= 0.5
  {
    hide Times;
    TimesNext(0, e);
    i := last;
    while 0.5 < Times(i - 1, e)
      invariant 0 < i <= last && 0.5 < Times(i, e)
      decreases i
    {
      i := i - 1;
    }
    TimesNext(i - 1, e);
    TimesGrows(0, i - 1, e);
  }

  lemma {:induction false} TwiceRepeats(levels: seq<real>, i: nat, x: real)
    requires i + 1 < |levels| && levels[i] == x == levels[i + 1]
    ensures 2 <= Repeats(levels, x)
  {
    if i == 0 {
      assert levels[1..][0] == x;
    } else {
      TwiceRepeats(levels[1..], i - 1, x);
    }
  }

  function Constant(x: real, n: nat): (v: seq<real>)
    ensures |v| == n
  {
    if n == 0 then [] else Constant(x, n - 1) + [x]
  }

  lemma {:induction false} ConstantSpellings(x: real, n: nat, levels: seq<real>)
    requires 0 < n && 2 <= Repeats(levels, x)
    ensures 2 <= Spellings(Constant(x, n), levels)
  {
    var v := Constant(x, n);
    assert v[..n - 1] == Constant(x, n - 1) && v[n - 1] == x;
    if n == 1 {
      assert v[..0] == [];
      assert Spellings([], levels) == 1;
    } else {
      ConstantSpellings(x, n - 1, levels);
      Doubles(Spellings(v[..n - 1], levels), Repeats(levels, x));
    }
  }

  lemma Doubles(a: nat, b: nat)
    requires 2 <= a && 2 <= b
    ensures 2 <= a * b
  {
  }

  lemma DriftRepeats(arity: nat, step: real) returns (v: seq<real>)
    requires 0 < arity && 0.0 < step && Drifts(step)
    ensures 2 <= Occurrences(GridOf(arity, step), v)
  {
    LevelCount(step);
    hide Times, RoundMilli, LastIndex;
    var i := FirstDrift(Shortfall(step), LastIndex(step));
    var ls, x := Levels(step), (i - 1) as real / 1000.0;
    RoundsToIndex(i - 1, step);
    RoundsBelowIndex(i, step);
    TwiceRepeats(ls, i - 1, x);
    v := Constant(x, arity);
    ConstantSpellings(x, arity, ls);
    OccurrencesInVectors(arity, ls, v);
  }

  /** buildGrid lists every combination of levels exactly once, and nothing else,
      if and only if the levels do not drift by more than half a thousandth. */
  lemma GridListsOnceExactlyWhen(arity: nat, step: real)
    requires 0 < arity && 0.0 < step
    ensures (forall v :: Occurrences(GridOf(arity, step), v) == if IsVector(v, arity, Levels(step)) then 1 else 0)
       <==> !Drifts(step)
  {
    hide Drifts, Occurrences, IsVector, Levels;
    if Drifts(step) {
      var v := DriftRepeats(arity, step);
    } else {
      DriftlessLevelsIncrease(step);
      forall v
        ensures Occurrences(GridOf(arity, step), v) == if IsVector(v, arity, Levels(step)) then 1 else 0
      {
        IncreasingListsOnce(arity, step, v);
      }
    }
  }
}
