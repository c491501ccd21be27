/** internal/calibrate/absorb.go: what a certificate looks like when a cache has
    absorbed part of the stream. The bit pattern of a rate and the hash of a
    pattern's name only salt the draws and are arbitrary. */
module Absorb {
  import opened Wrappers
  import opened Policy
  import opened Powers
  import opened Calibration

  datatype Pattern = Uniform | EasyFirst | CheapAccept

  datatype Salts = Salts(bits: real -> bv64, hash: Pattern -> bv64)

  datatype Sweep = Sweep(
    rhos: seq<real>,
    epsilons: seq<real>,
    patterns: seq<Pattern>,
    tiers: seq<string>,
    ltt: Options,
    seed: bv64,
    tau: seq<real>)
  {
    /** Empty lists fall back to the default dial settings. */
    function Effective(): Sweep {
      this.(rhos := if rhos == [] then [0.0, 0.2, 0.4, 0.6, 0.8] else rhos,
            epsilons := if epsilons == [] then [0.0, 0.05] else epsilons,
            patterns := if patterns == [] then [Uniform, EasyFirst] else patterns)
    }
  }

  datatype Row = Row(
    pattern: Pattern, rho: real, epsilon: real,
    nResidual: nat, nShadow: nat, nCalibration: nat,
    accuracyD: real, accuracyResidual: real,
    calibratedRisk: real, deployedRisk: real, riskGap: real,
    certified: bool, thresholds: seq<real>, underpowered: bool)

  // ------------------------------------------------------------ permutation

  /** ps lists every position below n exactly once. */
  ghost predicate Bijection(ps: seq<nat>, n: nat) {
    && |ps| == n
    && (forall i :: 0 <= i < n ==> ps[i] < n)
    && (forall i, j :: 0 <= i < j < n ==> ps[i] != ps[j])
    && (forall p: nat :: p < n ==> Lists(ps, p))
  }

  ghost predicate Lists(ps: seq<nat>, p: nat) {
    exists i :: 0 <= i < |ps| && ps[i] == p
  }

  /** One step of splitmix64's state, and its output. */
  function NextState(s: bv64): bv64 {
    s + 0x9e3779b97f4a7c15
  }

  function Output(s: bv64): bv64 {
    var z := (s ^ (s >> 30)) * 0xbf58476d1ce4e5b9;
    var y := (z ^ (z >> 27)) * 0x94d049bb133111eb;
    y ^ (y >> 31)
  }

  function Draw(s: bv64, i: nat): (j: nat)
    ensures j <= i
  {
    (Output(s) as int) % (i + 1)
  }

  function Swapped(ps: seq<nat>, i: nat, j: nat): seq<nat>
    requires i < |ps| && j < |ps|
  {
    ps[i := ps[j]][j := ps[i]]
  }

  /** Positions i, i-1, ..., 1 each exchanged with a drawn earlier one. */
  function ShuffleFrom(ps: seq<nat>, i: nat, s: bv64): (r: seq<nat>)
    requires ps == [] || i < |ps|
    ensures |r| == |ps|
    decreases i
  {
    if i == 0 || ps == [] then ps
    else ShuffleFrom(Swapped(ps, i, Draw(NextState(s), i)), i - 1, NextState(s))
  }

  function Identity(n: nat): (ps: seq<nat>)
    ensures |ps| == n && forall i :: 0 <= i < n ==> ps[i] == i
  {
    seq(n, i requires 0 <= i < n => i)
  }

  function PermutationOf(n: nat, seed: bv64): (ps: seq<nat>)
    ensures |ps| == n
  {
    ShuffleFrom(Identity(n), if n == 0 then 0 else n - 1, seed | 1)
  }

  method Permutation(n: nat, seed: bv64) returns (idx: array<nat>)
    ensures fresh(idx) && idx[..] == PermutationOf(n, seed)
  {
    hide Output, NextState, Draw;
    idx := new nat[n];
    for i := 0 to n
      invariant forall k :: 0 <= k < i ==> idx[k] == k
    {
      idx[i] := i;
    }
    assert idx[..] == Identity(n);
    if n == 0 {
      return;
    }
    var s, i := seed | 1, n - 1;
    while 0 < i
      invariant 0 <= i < n
      invariant ShuffleFrom(idx[..], i, s) == PermutationOf(n, seed)
    {
      s := NextState(s);
      var j := Draw(s, i);
      ghost var was := idx[..];
      idx[i], idx[j] := idx[j], idx[i];
      assert idx[..] == Swapped(was, i, j);
      i := i - 1;
    }
  }

  lemma SwapKeepsBijection(ps: seq<nat>, n: nat, i: nat, j: nat)
    requires Bijection(ps, n) && i < n && j < n
    ensures Bijection(Swapped(ps, i, j), n)
  {
    var r := Swapped(ps, i, j);
    forall p: nat | p < n
      ensures Lists(r, p)
    {
      assert Lists(ps, p);
      var k :| 0 <= k < n && ps[k] == p;
      assert r[if k == i then j else if k == j then i else k] == p;
    }
  }

  lemma {:induction false} ShuffleIsBijection(ps: seq<nat>, n: nat, i: nat, s: bv64)
    requires Bijection(ps, n) && (n == 0 || i < n)
    ensures Bijection(ShuffleFrom(ps, i, s), n)
    decreases i
  {
    hide Output;
    if i != 0 && ps != [] {
      SwapKeepsBijection(ps, n, i, Draw(NextState(s), i));
      ShuffleIsBijection(Swapped(ps, i, Draw(NextState(s), i)), n, i - 1, NextState(s));
    }
  }

  /** For every length and seed the shuffle is a bijection. */
  lemma PermutationIsBijection(n: nat, seed: bv64)
    ensures Bijection(PermutationOf(n, seed), n)
  {
    var ps := Identity(n);
    forall p: nat | p < n
      ensures Lists(ps, p)
    {
      assert ps[p] == p;
    }
    ShuffleIsBijection(ps, n, if n == 0 then 0 else n - 1, seed | 1);
  }

  // ------------------------------------------------------------ the cheap tier

  predicate Tier0Correct(r: Record) {
    r.tiers != [] && r.tiers[0].Truth()
  }

  function Tier0Score(r: Record): real {
    if r.tiers == [] then 0.0 else r.tiers[0].score
  }

  predicate ServedAtTier0(r: Record, tau: seq<real>) {
    r.tiers != [] && tau != [] && tau[0] <= r.tiers[0].score
  }

  /** The flag absorbed first, then the higher tier-0 score. */
  predicate Ahead(flag: Record -> bool, a: Record, b: Record) {
    if flag(a) != flag(b) then flag(a) else Tier0Score(b) < Tier0Score(a)
  }

  /** Position i after every listed position it is not strictly ahead of. */
  function InsertPosition(flag: Record -> bool, recs: seq<Record>, ps: seq<nat>, i: nat): (r: seq<nat>)
    requires i < |recs| && forall k :: 0 <= k < |ps| ==> ps[k] < |recs|
    ensures |r| == |ps| + 1 && forall k :: 0 <= k < |r| ==> r[k] < |recs|
  {
    if ps == [] || Ahead(flag, recs[i], recs[ps[0]]) then [i] + ps
    else [ps[0]] + InsertPosition(flag, recs, ps[1..], i)
  }

  /** sort.SliceStable on the first n records, as positions. */
  function StableOrder(flag: Record -> bool, recs: seq<Record>, n: nat): (ps: seq<nat>)
    requires n <= |recs|
    ensures |ps| == n && forall k :: 0 <= k < n ==> ps[k] < |recs|
  {
    if n == 0 then [] else InsertPosition(flag, recs, StableOrder(flag, recs, n - 1), n - 1)
  }

  /** No later record is strictly ahead of an earlier one. */
  ghost predicate InOrder(flag: Record -> bool, xs: seq<Record>) {
    forall i, j :: 0 <= i < j < |xs| ==> !Ahead(flag, xs[j], xs[i])
  }

  function At(recs: seq<Record>, ps: seq<nat>): (xs: seq<Record>)
    requires forall k :: 0 <= k < |ps| ==> ps[k] < |recs|
    ensures |xs| == |ps| && forall k :: 0 <= k < |ps| ==> xs[k] == recs[ps[k]]
  {
    seq(|ps|, k requires 0 <= k < |ps| => recs[ps[k]])
  }

  lemma AheadIsTransitive(flag: Record -> bool, a: Record, b: Record, c: Record)
    requires Ahead(flag, a, b)
    ensures Ahead(flag, b, c) || !Ahead(flag, c, b) ==> Ahead(flag, a, c)
    ensures !Ahead(flag, b, a)
  {
  }

  lemma AheadIsAsymmetric(flag: Record -> bool, a: Record, b: Record)
    ensures Ahead(flag, a, b) ==> !Ahead(flag, b, a)
  {
  }

  lemma ListsCons(x: nat, tail: seq<nat>)
    ensures forall p: nat :: Lists([x] + tail, p) <==> p == x || Lists(tail, p)
  {
    var all := [x] + tail;
    assert all[0] == x;
    forall p: nat
      ensures Lists(all, p) <==> p == x || Lists(tail, p)
    {
      if Lists(tail, p) {
        var k :| 0 <= k < |tail| && tail[k] == p;
        assert all[k + 1] == p;
      }
      if Lists(all, p) && p != x {
        var k :| 0 <= k < |all| && all[k] == p;
        assert tail[k - 1] == p;
      }
    }
  }

  ghost predicate PositionsIn(ps: seq<nat>, recs: seq<Record>) {
    forall k :: 0 <= k < |ps| ==> ps[k] < |recs|
  }

  /** An ordered list stays ordered behind a head nothing in it is ahead of. */
  lemma OrderCons(flag: Record -> bool, recs: seq<Record>, p: nat, rest: seq<nat>)
    requires p < |recs| && PositionsIn(rest, recs) && InOrder(flag, At(recs, rest))
    requires forall q: nat :: Lists(rest, q) && q < |recs| ==> !Ahead(flag, recs[q], recs[p])
    ensures PositionsIn([p] + rest, recs) && InOrder(flag, At(recs, [p] + rest))
  {
    hide Ahead;
    var xs := At(recs, [p] + rest);
    forall a, b | 0 <= a < b < |xs|
      ensures !Ahead(flag, xs[b], xs[a])
    {
      if a == 0 {
        assert rest[b - 1] == rest[b - 1] && Lists(rest, rest[b - 1]);
      } else {
        assert !Ahead(flag, At(recs, rest)[b - 1], At(recs, rest)[a - 1]);
      }
    }
  }

  lemma OrderTail(flag: Record -> bool, recs: seq<Record>, ps: seq<nat>)
    requires ps != [] && PositionsIn(ps, recs) && InOrder(flag, At(recs, ps))
    ensures PositionsIn(ps[1..], recs) && InOrder(flag, At(recs, ps[1..]))
    ensures forall q: nat :: Lists(ps[1..], q) && q < |recs| ==> !Ahead(flag, recs[q], recs[ps[0]])
  {
    hide Ahead;
    var xs, ys := At(recs, ps), At(recs, ps[1..]);
    forall a, b | 0 <= a < b < |ys|
      ensures !Ahead(flag, ys[b], ys[a])
    {
      assert !Ahead(flag, xs[b + 1], xs[a + 1]);
    }
    forall q: nat | Lists(ps[1..], q) && q < |recs|
      ensures !Ahead(flag, recs[q], recs[ps[0]])
    {
      var k :| 0 <= k < |ps[1..]| && ps[1..][k] == q;
      assert !Ahead(flag, xs[k + 1], xs[0]);
    }
  }

  lemma {:induction false} InsertKeepsOrder(flag: Record -> bool, recs: seq<Record>, ps: seq<nat>, i: nat)
    requires i < |recs| && PositionsIn(ps, recs) && InOrder(flag, At(recs, ps))
    ensures InOrder(flag, At(recs, InsertPosition(flag, recs, ps, i)))
    ensures forall p: nat :: Lists(InsertPosition(flag, recs, ps, i), p) <==> p == i || Lists(ps, p)
  {
    hide Ahead, InOrder, Lists, At;
    if ps == [] {
      OrderNil(flag, recs);
      OrderCons(flag, recs, i, []);
      ListsCons(i, []);
    } else {
      OrderTail(flag, recs, ps);
      ListsCons(ps[0], ps[1..]);
      assert ps == [ps[0]] + ps[1..];
      if Ahead(flag, recs[i], recs[ps[0]]) {
        forall q: nat | Lists(ps, q) && q < |recs|
          ensures !Ahead(flag, recs[q], recs[i])
        {
          AheadIsTransitive(flag, recs[i], recs[ps[0]], recs[q]);
          AheadIsAsymmetric(flag, recs[i], recs[q]);
        }
        OrderCons(flag, recs, i, ps);
        ListsCons(i, ps);
      } else {
        var rest := InsertPosition(flag, recs, ps[1..], i);
        InsertKeepsOrder(flag, recs, ps[1..], i);
        OrderCons(flag, recs, ps[0], rest);
        ListsCons(ps[0], rest);
      }
    }
  }

  lemma OrderNil(flag: Record -> bool, recs: seq<Record>)
    ensures InOrder(flag, At(recs, [])) && forall p: nat :: !Lists([], p)
  {
  }

  lemma {:induction false} StableOrderSorts(flag: Record -> bool, recs: seq<Record>, n: nat)
    requires n <= |recs|
    ensures InOrder(flag, At(recs, StableOrder(flag, recs, n)))
  {
    if n != 0 {
      StableOrderSorts(flag, recs, n - 1);
      InsertKeepsOrder(flag, recs, StableOrder(flag, recs, n - 1), n - 1);
    }
  }

  ghost predicate Distinct(ps: seq<nat>) {
    forall i, j :: 0 <= i < j < |ps| ==> ps[i] != ps[j]
  }

  lemma DistinctCons(x: nat, tail: seq<nat>)
    ensures Distinct([x] + tail) <==> Distinct(tail) && !Lists(tail, x)
  {
    var all := [x] + tail;
    if Distinct(all) {
      assert forall i :: 0 <= i < |tail| ==> tail[i] == all[i + 1] != all[0];
    }
  }

  lemma {:induction false} InsertIsDistinct(flag: Record -> bool, recs: seq<Record>, ps: seq<nat>, i: nat)
    requires i < |recs| && PositionsIn(ps, recs) && Distinct(ps) && !Lists(ps, i)
    ensures Distinct(InsertPosition(flag, recs, ps, i))
    ensures forall p: nat :: Lists(InsertPosition(flag, recs, ps, i), p) <==> p == i || Lists(ps, p)
  {
    hide Ahead, Distinct, Lists;
    DistinctCons(i, ps);
    ListsCons(i, ps);
    if ps != [] && !Ahead(flag, recs[i], recs[ps[0]]) {
      assert ps == [ps[0]] + ps[1..];
      ListsCons(ps[0], ps[1..]);
      DistinctCons(ps[0], ps[1..]);
      InsertIsDistinct(flag, recs, ps[1..], i);
      var rest := InsertPosition(flag, recs, ps[1..], i);
      ListsCons(ps[0], rest);
      DistinctCons(ps[0], rest);
    }
  }

  lemma BijectionIs(ps: seq<nat>, n: nat)
    ensures Bijection(ps, n) <==> |ps| == n && Distinct(ps) && forall p: nat :: Lists(ps, p) <==> p < n
  {
    if |ps| == n && Distinct(ps) && forall p: nat :: Lists(ps, p) <==> p < n {
      forall i | 0 <= i < n
        ensures ps[i] < n
      {
        assert Lists(ps, ps[i]);
      }
    }
  }

  /** Sorting loses and repeats nothing. */
  lemma {:induction false} StableOrderIsBijection(flag: Record -> bool, recs: seq<Record>, n: nat)
    requires n <= |recs|
    ensures Bijection(StableOrder(flag, recs, n), n)
  {
    hide Bijection, Distinct, Lists, Ahead;
    BijectionIs(StableOrder(flag, recs, n), n);
    if n != 0 {
      StableOrderIsBijection(flag, recs, n - 1);
      BijectionIs(StableOrder(flag, recs, n - 1), n - 1);
      InsertIsDistinct(flag, recs, StableOrder(flag, recs, n - 1), n - 1);
    } else {
      NilIsDistinct();
    }
  }

  lemma NilIsDistinct()
    ensures Distinct([]) && forall p: nat :: !Lists([], p)
  {
  }

  // ------------------------------------------------------------ absorb

  /** Rounding half up, as math.Round does on x >= 0. */
  function Round(x: real): int {
    (x + 0.5).Floor
  }

  function Drop(rho: real, n: nat): (d: nat)
    requires 0.0 <= rho && 0 < n
    ensures d < n
  {
    RoundsUp(rho, n);
    if n <= Round(rho * n as real) then n - 1 else Round(rho * n as real)
  }

  lemma RoundsUp(rho: real, n: nat)
    requires 0.0 <= rho
    ensures 0 <= Round(rho * n as real)
  {
    MulNonNegative(rho, n as real);
  }

  /** The positions that survive absorption, in the order they are handed on. */
  function Kept(salts: Salts, recs: seq<Record>, pat: Pattern, rho: real, opts: Sweep): (ps: seq<nat>)
    requires 0.0 <= rho && recs != []
  {
    var n, drop := |recs|, Drop(rho, |recs|);
    match pat
    case Uniform => PermutationOf(n, opts.seed ^ salts.bits(rho))[drop..]
    case EasyFirst => StableOrder(Tier0Correct, recs, n)[drop..]
    case CheapAccept => StableOrder((r: Record) => ServedAtTier0(r, opts.tau), recs, n)[drop..]
  }

  /** ps picks distinct positions below n. */
  ghost predicate Picks(ps: seq<nat>, n: nat) {
    && (forall i :: 0 <= i < |ps| ==> ps[i] < n)
    && (forall i, j :: 0 <= i < j < |ps| ==> ps[i] != ps[j])
  }

  /** Every pattern hands on a sub-multiset of the records, of the size the rate
      asks for, and never an empty one. */
  lemma KeptIsASubset(salts: Salts, recs: seq<Record>, pat: Pattern, rho: real, opts: Sweep)
    requires 0.0 <= rho && recs != []
    ensures var ps := Kept(salts, recs, pat, rho, opts);
      Picks(ps, |recs|) && |ps| == |recs| - Drop(rho, |recs|) && ps != []
  {
    hide Bijection, Picks, PermutationOf, StableOrder, Drop;
    var n := |recs|;
    match pat
    case Uniform =>
      PermutationIsBijection(n, opts.seed ^ salts.bits(rho));
      TailPicks(PermutationOf(n, opts.seed ^ salts.bits(rho)), n, Drop(rho, n));
    case EasyFirst =>
      StableOrderIsBijection(Tier0Correct, recs, n);
      TailPicks(StableOrder(Tier0Correct, recs, n), n, Drop(rho, n));
    case CheapAccept =>
      var flag := (r: Record) => ServedAtTier0(r, opts.tau);
      StableOrderIsBijection(flag, recs, n);
      TailPicks(StableOrder(flag, recs, n), n, Drop(rho, n));
  }

  lemma TailPicks(ps: seq<nat>, n: nat, d: nat)
    requires Bijection(ps, n) && d <= n
    ensures Picks(ps[d..], n)
  {
  }

  function Residual(salts: Salts, recs: seq<Record>, pat: Pattern, rho: real, opts: Sweep): (xs: seq<Record>)
    requires 0.0 <= rho && recs != []
    ensures |xs| == |recs| - Drop(rho, |recs|) && xs != []
    ensures forall i :: 0 <= i < |xs| ==> xs[i] in recs
  {
    KeptIsASubset(salts, recs, pat, rho, opts);
    At(recs, Kept(salts, recs, pat, rho, opts))
  }

  method SortPositions(flag: Record -> bool, recs: seq<Record>) returns (ps: seq<nat>)
    ensures ps == StableOrder(flag, recs, |recs|)
  {
    ps := [];
    for i := 0 to |recs|
      invariant ps == StableOrder(flag, recs, i)
    {
      ps := InsertPosition(flag, recs, ps, i);
    }
  }

  /** The uniform pattern's loop: the records at the shuffled positions. */
  method Pick(recs: seq<Record>, idx: array<nat>, drop: nat) returns (keep: seq<Record>)
    requires drop <= idx.Length && forall k :: 0 <= k < idx.Length ==> idx[k] < |recs|
    ensures keep == At(recs, idx[drop..])
  {
    keep := [];
    for i := drop to idx.Length
      invariant |keep| == i - drop
      invariant forall k :: 0 <= k < i - drop ==> keep[k] == recs[idx[drop + k]]
    {
      keep := keep + [recs[idx[i]]];
    }
  }

  method AbsorbStream(salts: Salts, recs: seq<Record>, pat: Pattern, rho: real, opts: Sweep)
    returns (residual: Option<seq<Record>>)
    requires recs != []
    ensures residual == if rho < 0.0 || 1.0 <= rho then None else Some(Residual(salts, recs, pat, rho, opts))
  {
    hide PermutationOf, StableOrder, Drop, Picks, Bijection;
    if rho < 0.0 || 1.0 <= rho {
      return None;
    }
    var n, drop := |recs|, Drop(rho, |recs|);
    match pat {
      case Uniform =>
        var idx := Permutation(n, opts.seed ^ salts.bits(rho));
        BijectionBounds(n, opts.seed ^ salts.bits(rho));
        var keep := Pick(recs, idx, drop);
        assert idx[drop..] == idx[..][drop..];
        return Some(keep);
      case EasyFirst =>
        var ord := SortPositions(Tier0Correct, recs);
        return Some(At(recs, ord[drop..]));
      case CheapAccept =>
        var ord := SortPositions((r: Record) => ServedAtTier0(r, opts.tau), recs);
        return Some(At(recs, ord[drop..]));
    }
  }

  lemma BijectionBounds(n: nat, seed: bv64)
    ensures forall k :: 0 <= k < n ==> PermutationOf(n, seed)[k] < n
  {
    PermutationIsBijection(n, seed);
  }

  // ------------------------------------------------------------ easy-first

  function Tier0Accuracy(recs: seq<Record>): real {
    if recs == [] then 0.0 else Count(recs, Tier0Correct) as real / |recs| as real
  }

  lemma {:induction false} CountCons(x: Record, xs: seq<Record>, p: Record -> bool)
    ensures Count([x] + xs, p) == (if p(x) then 1 else 0) + Count(xs, p)
    decreases |xs|
  {
    if xs != [] {
      var m := |xs| - 1;
      assert ([x] + xs)[..m + 1] == [x] + xs[..m];
      CountCons(x, xs[..m], p);
    }
  }

  lemma {:induction false} CountNone(xs: seq<Record>, p: Record -> bool)
    requires forall i :: 0 <= i < |xs| ==> !p(xs[i])
    ensures Count(xs, p) == 0
  {
    if xs != [] {
      CountNone(xs[..|xs| - 1], p);
    }
  }

  lemma MediantAbove(a: real, m: real)
    requires 0.0 <= a <= m && 0.0 < m
    ensures a / m <= (a + 1.0) / (m + 1.0)
  {
    var q, r := a / m, (a + 1.0) / (m + 1.0);
    assert q * m == a && r * (m + 1.0) == a + 1.0;
    assert q <= 1.0;
    assert (m + 1.0) * (r - q) == 1.0 - q;
    SignOfProduct(m + 1.0, r - q);
  }

  /** Dropping the head of an easiest-first stream never raises its accuracy. */
  lemma DroppingHeadLowersAccuracy(xs: seq<Record>)
    requires InOrder(Tier0Correct, xs) && 2 <= |xs|
    ensures Tier0Accuracy(xs[1..]) <= Tier0Accuracy(xs)
  {
    var rest := xs[1..];
    assert xs == [xs[0]] + rest;
    CountCons(xs[0], rest, Tier0Correct);
    var a, m := Count(rest, Tier0Correct) as real, |rest| as real;
    if Tier0Correct(xs[0]) {
      MediantAbove(a, m);
    } else {
      forall i | 0 <= i < |rest|
        ensures !Tier0Correct(rest[i])
      {
        assert !Ahead(Tier0Correct, xs[i + 1], xs[0]);
      }
      CountNone(rest, Tier0Correct);
    }
  }

  lemma {:induction false} SuffixAccuracy(xs: seq<Record>, d: nat, e: nat)
    requires InOrder(Tier0Correct, xs) && d <= e < |xs|
    ensures Tier0Accuracy(xs[e..]) <= Tier0Accuracy(xs[d..])
    decreases e
  {
    hide Tier0Accuracy, Ahead;
    if d < e {
      SuffixAccuracy(xs, d, e - 1);
      var ys := xs[e - 1..];
      assert ys[1..] == xs[e..];
      forall i, j | 0 <= i < j < |ys|
        ensures !Ahead(Tier0Correct, ys[j], ys[i])
      {
        assert ys[j] == xs[e - 1 + j] && ys[i] == xs[e - 1 + i];
      }
      DroppingHeadLowersAccuracy(ys);
    }
  }

  lemma DropMonotone(rho: real, rho': real, n: nat)
    requires 0.0 <= rho <= rho' && 0 < n
    ensures Drop(rho, n) <= Drop(rho', n) < n
  {
    ScaleLe(n as real, rho, rho');
    var x, y := rho * n as real, rho' * n as real;
    assert x <= y;
    RoundMonotone(x, y);
    RoundsUp(rho, n);
  }

  lemma RoundMonotone(x: real, y: real)
    requires x <= y
    ensures Round(x) <= Round(y)
  {
  }

  /** Under easy-first absorption the cheap tier's accuracy on what is left never
      rises with the absorption rate. */
  lemma EasyFirstAccuracyNeverRises(salts: Salts, recs: seq<Record>, rho: real, rho': real, opts: Sweep)
    requires 0.0 <= rho <= rho' && recs != []
    ensures Tier0Accuracy(Residual(salts, recs, EasyFirst, rho', opts))
         <= Tier0Accuracy(Residual(salts, recs, EasyFirst, rho, opts))
  {
    hide Tier0Accuracy, StableOrder, Ahead;
    var ps, n := StableOrder(Tier0Correct, recs, |recs|), |recs|;
    var d, e := Drop(rho, n), Drop(rho', n);
    DropMonotone(rho, rho', n);
    StableOrderSorts(Tier0Correct, recs, n);
    SuffixAccuracy(At(recs, ps), d, e);
    assert At(recs, ps)[d..] == At(recs, ps[d..]);
    assert At(recs, ps)[e..] == At(recs, ps[e..]);
  }
}
