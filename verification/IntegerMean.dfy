/** hard_num_mean_overflow/solution.go: the floored mean of a slice of int64
    values, accumulated in wraparound int64 arithmetic. */
module IntegerMean {

  const TWO62: int := 0x4000_0000_0000_0000
  const TWO63: int := 0x8000_0000_0000_0000
  const TWO64: int := 0x1_0000_0000_0000_0000

  type Int64 = x: int | -TWO63 <= x < TWO63

  /** Two's-complement wraparound of an integer into int64. */
  function Wrap(x: int): (w: Int64)
    ensures -TWO63 <= x < TWO63 ==> w == x
  {
    var m := x % TWO64;
    if m < TWO63 then m else m - TWO64
  }

  lemma WrapShifts(x: int) returns (t: int)
    ensures Wrap(x) == x + t * TWO64
  {
    t := if x % TWO64 < TWO63 then -(x / TWO64) else -(x / TWO64) - 1;
  }

  lemma WrapOfCongruent(x: int, t: int)
    ensures Wrap(x + t * TWO64) == Wrap(x)
  {
    ShiftMod(x, t, TWO64);
  }

  lemma ShiftMod(x: int, t: int, m: int)
    requires 0 < m
    ensures (x + t * m) % m == x % m
  {
    var q, r := x / m, x % m;
    assert x + t * m == (q + t) * m + r;
    DivModUnique(x + t * m, m, q + t, r);
  }

  lemma SmallMultiple(d: int, m: int)
    requires 0 < m && -m < d * m < m
    ensures d == 0
  {
    Scaling(1, d, m);
    Scaling(d, -1, m);
  }

  lemma Scaling(a: int, b: int, m: int)
    requires 0 < m
    ensures a <= b ==> a * m <= b * m
  {
  }

  lemma DivModUnique(x: int, m: int, q: int, r: int)
    requires 0 < m && x == q * m + r && 0 <= r < m
    ensures x / m == q && x % m == r
  {
    var q', r' := x / m, x % m;
    assert x == q' * m + r';
    assert (q - q') * m == q * m - q' * m == r' - r;
    SmallMultiple(q - q', m);
  }

  /** Go's / and % on int64 truncate toward zero. */
  function TruncDiv(x: int, n: int): int
    requires 0 < n
  {
    if 0 <= x then x / n else -((-x) / n)
  }

  function TruncMod(x: int, n: int): int
    requires 0 < n
  {
    x - TruncDiv(x, n) * n
  }

  function Sum(xs: seq<int>): int {
    if xs == [] then 0 else Sum(xs[..|xs| - 1]) + xs[|xs| - 1]
  }

  /** The mathematical floor of sum/n; Dafny's / is Euclidean, which is the
      floor for a positive divisor. */
  function FloorMean(xs: seq<int>): int
    requires xs != []
  {
    Sum(xs) / |xs|
  }

  lemma {:induction false} SumBounds(xs: seq<Int64>)
    ensures -TWO63 * |xs| <= Sum(xs) <= (TWO63 - 1) * |xs|
  {
    if xs != [] {
      SumBounds(xs[..|xs| - 1]);
    }
  }

  /** The mean of int64 values is an int64. */
  lemma MeanFits(xs: seq<Int64>)
    requires xs != []
    ensures -TWO63 <= FloorMean(xs) < TWO63
  {
    SumBounds(xs);
    var n, s := |xs|, Sum(xs);
    var q := s / n;
    assert q * n <= s < (q + 1) * n by {
      assert s == q * n + s % n;
    }
    Scaling(q + 1, -TWO63, n);
    Scaling(TWO63, q, n);
  }

  /** Splitting one element: the floored quotient and remainder, as the code
      corrects Go's truncated ones. */
  lemma FlooredSplit(x: int, n: int)
    requires 0 < n
    ensures var q, r := TruncDiv(x, n), TruncMod(x, n);
      && (0 <= r ==> r < n) && (r < 0 ==> 0 < r + n)
      && (if r < 0 then q - 1 else q) == x / n
  {
    var q, r := TruncDiv(x, n), TruncMod(x, n);
    if 0 <= x {
      assert r == x % n;
    } else {
      var a, b := (-x) / n, (-x) % n;
      assert -x == a * n + b;
      assert r == -b;
      if b == 0 {
        DivModUnique(x, n, -a, 0);
      } else {
        assert x == (-a - 1) * n + (n - b);
        DivModUnique(x, n, -a - 1, n - b);
      }
    }
  }

  /** The floored quotient of an int64 by a positive int64 is an int64. */
  lemma QuotientInRange(x: int, n: int)
    requires -TWO63 <= x < TWO63 && 0 < n
    ensures -TWO63 <= x / n < TWO63
    ensures n != 1 ==> -TWO63 < x / n
    ensures n == 1 ==> x % n == 0
  {
    var q, r := x / n, x % n;
    assert x == q * n + r;
    if 0 <= q {
      Grows(q, n);
    } else {
      Grows(-q, n);
      if n != 1 {
        Grows(-q, n - 1);
        assert -q * n == -q * (n - 1) + -q;
      }
    }
  }

  lemma Grows(a: int, n: int)
    requires 0 <= a && 1 <= n
    ensures a <= a * n
  {
    assert 0 <= a * (n - 1) == a * n - a;
  }

  /** The loop body's split of x, in wraparound arithmetic, is the floored one. */
  method Split(x: Int64, n: Int64) returns (q: Int64, r: Int64)
    requires 0 < n
    ensures q == x / n && r == x % n
  {
    FlooredSplit(x, n);
    QuotientInRange(x, n);
    q := Wrap(TruncDiv(x, n));
    r := Wrap(TruncMod(x, n));
    if r < 0 {
      r := Wrap(r + n);
      q := Wrap(q - 1);
    }
  }

  /** Adding one element carries at most once. */
  lemma CarryStep(s: int, x: int, n: int)
    requires 0 < n
    ensures var carry := s % n + x % n >= n;
      && (s + x) / n == s / n + x / n + (if carry then 1 else 0)
      && (s + x) % n == s % n + x % n - (if carry then n else 0)
  {
    var q, r, q', r' := s / n, s % n, x / n, x % n;
    assert s + x == (q + q') * n + (r + r') by {
      assert s == q * n + r && x == q' * n + r';
      assert (q + q') * n == q * n + q' * n;
    }
    if r + r' >= n {
      assert (q + q' + 1) * n == (q + q') * n + n;
      DivModUnique(s + x, n, q + q' + 1, r + r' - n);
    } else {
      DivModUnique(s + x, n, q + q', r + r');
    }
  }

  lemma SumStep(xs: seq<int>, i: nat)
    requires i < |xs|
    ensures Sum(xs[..i + 1]) == Sum(xs[..i]) + xs[i]
  {
    assert xs[..i + 1][..i] == xs[..i];
  }

  /** One trip round the loop, carry included, on wrapped values. */
  lemma LoopStep(s: int, x: int, n: int, quo: int)
    requires 0 < n && quo == Wrap(s / n)
    ensures var q, r, rem := x / n, x % n, s % n;
      && 0 <= rem < n && 0 <= r < n
      && (if rem + r >= n then Wrap(Wrap(quo + q) + 1) == Wrap((s + x) / n) && rem + r - n == (s + x) % n
          else Wrap(quo + q) == Wrap((s + x) / n) && rem + r == (s + x) % n)
  {
    hide Wrap;
    CarryStep(s, x, n);
    AddWrapped(s / n, x / n);
    AddWrapped(s / n + x / n, 1);
  }

  /** Every intermediate is reduced modulo 2^64, and the result is still exactly
      the floored mean, for any non-empty slice shorter than 2^62. The source's
      own justification, that nothing ever overflows, is not the invariant:
      quo is only right modulo 2^64 until the loop ends. */
  method Mean(xs: seq<Int64>) returns (quo: Int64)
    requires xs != [] && |xs| < TWO62
    ensures quo == FloorMean(xs)
  {
    hide Wrap, Sum;
    var n: Int64 := |xs|;
    var rem: Int64 := 0;
    quo := 0;
    ghost var s := 0;
    EmptyPrefix(xs);
    for i := 0 to |xs|
      invariant s == Sum(xs[..i])
      invariant 0 <= rem < n && rem == s % n
      invariant quo == Wrap(s / n)
    {
      var x := xs[i];
      SumStep(xs, i);
      LoopStep(s, x, n, quo);
      var q, r := Split(x, n);
      quo := Wrap(quo + q);
      rem := Wrap(rem + r);
      if rem >= n {
        rem := Wrap(rem - n);
        quo := Wrap(quo + 1);
      }
      s := s + x;
    }
    assert xs[..|xs|] == xs;
    MeanFits(xs);
  }

  lemma EmptyPrefix(xs: seq<int>)
    requires xs != []
    ensures Sum(xs[..0]) == 0 && 0 % |xs| == 0 && Wrap(0 / |xs|) == 0
  {
    DivModUnique(0, |xs|, 0, 0);
  }

  lemma AddWrapped(a: int, d: int)
    ensures Wrap(Wrap(a) + d) == Wrap(a + d)
  {
    var t := WrapShifts(a);
    assert Wrap(a) + d == (a + d) + t * TWO64;
    WrapOfCongruent(a + d, t);
  }

  /** The exact quotient after element i is added and before its carry. */
  function MidQuotient(xs: seq<int>, i: nat): int
    requires i < |xs|
  {
    Sum(xs[..i]) / |xs| + xs[i] / |xs|
  }

  predicate FitsInt64(x: int) {
    -TWO63 <= x < TWO63
  }

  /** Adding element i carries out of the remainder. */
  predicate Carries(xs: seq<int>, i: nat)
    requires i < |xs|
  {
    |xs| <= Sum(xs[..i]) % |xs| + xs[i] % |xs|
  }

  lemma PrefixQuotient(xs: seq<Int64>, i: nat)
    requires 0 < |xs| < TWO62 && i <= |xs|
    ensures FitsInt64(Sum(xs[..i]) / |xs|)
    ensures Sum(xs[..i]) / |xs| == -TWO63 ==> i == |xs|
  {
    var n, s := |xs|, Sum(xs[..i]);
    SumBounds(xs[..i]);
    hide Sum;
    var q := s / n;
    assert q * n <= s < (q + 1) * n by {
      assert s == q * n + s % n;
    }
    Scaling(q + 1, -TWO63, n);
    ScaledByLength(i, n);
    Scaling(TWO63, q, n);
  }

  lemma ScaledByLength(i: nat, n: nat)
    requires i <= n
    ensures (TWO63 - 1) * i <= (TWO63 - 1) * n && -TWO63 * n <= -TWO63 * i
  {
  }

  /** How far an intermediate can leave int64: below by one, never above, and only
      at the last element. */
  lemma MidQuotientBounds(xs: seq<Int64>, i: nat)
    requires |xs| < TWO62 && i < |xs|
    ensures -TWO63 - 1 <= MidQuotient(xs, i) < TWO63
    ensures MidQuotient(xs, i) == -TWO63 - 1 <==> Sum(xs[..i + 1]) / |xs| == -TWO63 && Carries(xs, i)
    ensures MidQuotient(xs, i) == -TWO63 - 1 ==> i == |xs| - 1
  {
    hide Sum;
    SumStep(xs, i);
    CarryStep(Sum(xs[..i]), xs[i], |xs|);
    PrefixQuotient(xs, i + 1);
  }

  /** The exact values of the loop body at element i, in the order computed: the
      truncated split, the floored one, the sums, and the carry. */
  function Intermediates(xs: seq<int>, i: nat): seq<int>
    requires i < |xs|
  {
    var n, x := |xs|, xs[i];
    var rem := Sum(xs[..i]) % n + x % n;
    [TruncDiv(x, n), TruncMod(x, n)]
    + (if TruncMod(x, n) < 0 then [TruncMod(x, n) + n, TruncDiv(x, n) - 1] else [])
    + [MidQuotient(xs, i), rem]
    + (if n <= rem then [rem - n, MidQuotient(xs, i) + 1] else [])
  }

  lemma QuotientSign(x: int, n: int)
    requires 0 < n
    ensures x < 0 ==> x / n < 0
    ensures 0 <= x ==> 0 <= TruncMod(x, n)
  {
    var q, r := x / n, x % n;
    assert x == q * n + r;
    if x < 0 && 0 <= q {
      Grows(q, n);
    }
  }

  /** The split of an element stays in range. */
  lemma SplitFits(x: Int64, n: int)
    requires 0 < n < TWO62
    ensures FitsInt64(TruncDiv(x, n)) && FitsInt64(TruncMod(x, n))
    ensures TruncMod(x, n) < 0 ==> FitsInt64(TruncMod(x, n) + n) && FitsInt64(TruncDiv(x, n) - 1)
  {
    FlooredSplit(x, n);
    QuotientInRange(x, n);
    QuotientSign(x, n);
    hide TruncDiv, TruncMod;
  }

  /** Of all the intermediates only the running quotient can leave int64. */
  lemma OnlyTheQuotientLeaves(xs: seq<Int64>, i: nat, m: int)
    requires 0 < |xs| < TWO62 && i < |xs| && m in Intermediates(xs, i) && m != MidQuotient(xs, i)
    ensures FitsInt64(m)
  {
    var n := |xs|;
    var rem := Sum(xs[..i]) % n + xs[i] % n;
    SplitFits(xs[i], n);
    SumStep(xs, i);
    CarryStep(Sum(xs[..i]), xs[i], n);
    PrefixQuotient(xs, i + 1);
    hide Sum, TruncDiv, TruncMod;
    assert 0 <= rem < 2 * n;
    assert n <= rem ==> FitsInt64(MidQuotient(xs, i) + 1);
  }

  /** The source's promise that no intermediate leaves int64 fails exactly when
      the mean is MinInt64 and the last element carries. */
  lemma IntermediateLeavesInt64ExactlyWhen(xs: seq<Int64>)
    requires 0 < |xs| < TWO62
    ensures (exists i, m :: 0 <= i < |xs| && m in Intermediates(xs, i) && !FitsInt64(m))
       <==> FloorMean(xs) == -TWO63 && Carries(xs, |xs| - 1)
  {
    QuotientLeavesExactlyWhen(xs);
    hide Sum, MidQuotient, Carries;
    forall i, m | 0 <= i < |xs| && m in Intermediates(xs, i) && !FitsInt64(m)
      ensures m == MidQuotient(xs, i)
    {
      if m != MidQuotient(xs, i) {
        OnlyTheQuotientLeaves(xs, i, m);
      }
    }
    forall i | 0 <= i < |xs|
      ensures MidQuotient(xs, i) in Intermediates(xs, i)
    {
      QuotientIsOne(xs, i);
    }
  }

  lemma QuotientIsOne(xs: seq<int>, i: nat)
    requires i < |xs|
    ensures MidQuotient(xs, i) in Intermediates(xs, i)
  {
    var k := if TruncMod(xs[i], |xs|) < 0 then 4 else 2;
    assert Intermediates(xs, i)[k] == MidQuotient(xs, i);
  }

  lemma QuotientLeavesExactlyWhen(xs: seq<Int64>)
    requires 0 < |xs| < TWO62
    ensures (exists i :: 0 <= i < |xs| && !FitsInt64(MidQuotient(xs, i)))
       <==> FloorMean(xs) == -TWO63 && Carries(xs, |xs| - 1)
  {
    hide Sum, MidQuotient, Carries;
    var last := |xs| - 1;
    assert xs[..last + 1] == xs;
    MidQuotientBounds(xs, last);
    forall i | 0 <= i < |xs|
      ensures FitsInt64(MidQuotient(xs, i)) <==> MidQuotient(xs, i) != -TWO63 - 1
      ensures MidQuotient(xs, i) == -TWO63 - 1 ==> i == last
    {
      MidQuotientBounds(xs, i);
    }
    if FloorMean(xs) == -TWO63 && Carries(xs, last) {
      assert !FitsInt64(MidQuotient(xs, last));
    }
  }

  /** Three copies of MinInt64 are such a slice. */
  lemma ThreeSmallestLeaveInt64()
    ensures var xs := [-TWO63, -TWO63, -TWO63];
      exists i, m :: 0 <= i < |xs| && m in Intermediates(xs, i) && !FitsInt64(m)
  {
    var xs := [-TWO63, -TWO63, -TWO63];
    assert xs[..2] == [-TWO63, -TWO63] && xs[..2][..1] == [-TWO63] && xs[..1][..0] == [];
    assert Sum([-TWO63]) == -TWO63;
    assert Sum(xs[..2]) == -2 * TWO63;
    assert Sum(xs) == -3 * TWO63;
    IntermediateLeavesInt64ExactlyWhen(xs);
  }
}
