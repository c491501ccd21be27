/** internal/calibrate/absorb.go: the shuffle is as random as its draws. */
module AbsorbShuffle {
  import opened Absorb

  /** The exchange partner drawn for position k, when positions i, i-1, ... are shuffled
      from state s. */
  function DrawFor(s: bv64, i: nat, k: nat): nat
    requires 1 <= k <= i
    decreases i
  {
    if k == i then Draw(NextState(s), i) else DrawFor(NextState(s), i - 1, k)
  }

  ghost predicate NoRepeats(ps: seq<nat>) {
    forall a, b :: 0 <= a < b < |ps| ==> ps[a] != ps[b]
  }

  lemma SwapKeepsApart(ps: seq<nat>, i: nat, j: nat)
    requires NoRepeats(ps) && i < |ps| && j < |ps|
    ensures NoRepeats(Swapped(ps, i, j))
  {
  }

  /** Positions above i are left alone. */
  lemma {:induction false} ShuffleLeavesTheRest(ps: seq<nat>, i: nat, s: bv64, k: nat)
    requires ps != [] && i < |ps| && i < k < |ps|
    ensures ShuffleFrom(ps, i, s)[k] == ps[k]
    decreases i
  {
    hide Draw, NextState;
    if i != 0 {
      ShuffleLeavesTheRest(Swapped(ps, i, Draw(NextState(s), i)), i - 1, NextState(s), k);
    }
  }

  /** Equal permutations of the same positions come from equal draws. */
  lemma {:induction false} EqualShufflesDrawAlike(ps: seq<nat>, i: nat, s: bv64, s': bv64, k: nat)
    requires ps != [] && i < |ps| && NoRepeats(ps) && 1 <= k <= i
    requires ShuffleFrom(ps, i, s) == ShuffleFrom(ps, i, s')
    ensures DrawFor(s, i, k) == DrawFor(s', i, k)
    decreases i
  {
    hide Draw, NextState;
    var n, n' := NextState(s), NextState(s');
    var j, j' := Draw(n, i), Draw(n', i);
    var qs, qs' := Swapped(ps, i, j), Swapped(ps, i, j');
    ShuffleLeavesTheRestOf(qs, i, n);
    ShuffleLeavesTheRestOf(qs', i, n');
    assert qs[i] == ps[j] && qs'[i] == ps[j'];
    assert j == j';
    if k != i {
      SwapKeepsApart(ps, i, j);
      EqualShufflesDrawAlike(qs, i - 1, n, n', k);
    }
  }

  lemma ShuffleLeavesTheRestOf(qs: seq<nat>, i: nat, s: bv64)
    requires 1 <= i < |qs|
    ensures ShuffleFrom(qs, i - 1, s)[i] == qs[i]
  {
    ShuffleLeavesTheRest(qs, i - 1, s, i);
  }

  /** The two streams make the same exchanges from position i down. */
  ghost predicate SameDraws(s: bv64, s': bv64, i: nat) {
    forall k: nat :: 1 <= k <= i ==> DrawFor(s, i, k) == DrawFor(s', i, k)
  }

  lemma {:induction false} EqualDrawsShuffleAlike(ps: seq<nat>, i: nat, s: bv64, s': bv64)
    requires ps != [] && i < |ps| && SameDraws(s, s', i)
    ensures ShuffleFrom(ps, i, s) == ShuffleFrom(ps, i, s')
    decreases i
  {
    hide Draw, NextState;
    if i != 0 {
      var n, n', m := NextState(s), NextState(s'), i - 1;
      assert DrawFor(s, i, i) == DrawFor(s', i, i);
      forall k: nat | 1 <= k <= m
        ensures DrawFor(n, m, k) == DrawFor(n', m, k)
      {
        assert DrawFor(s, i, k) == DrawFor(s', i, k);
      }
      EqualDrawsShuffleAlike(Swapped(ps, i, Draw(n, i)), m, n, n');
    }
  }

  /** Two seeds give the same permutation of n positions exactly when every draw is the
      same: position k is exchanged with one of the k + 1 up to it, so the n! sequences
      of draws stand one to one for the n! permutations. */
  lemma SamePermutationExactlyWhen(n: nat, seed: bv64, seed': bv64)
    requires 1 <= n
    ensures PermutationOf(n, seed) == PermutationOf(n, seed') <==> SameDraws(seed | 1, seed' | 1, n - 1)
  {
    hide Draw, NextState, ShuffleFrom;
    var m, s, s' := n - 1, seed | 1, seed' | 1;
    if PermutationOf(n, seed) == PermutationOf(n, seed') {
      forall k: nat | 1 <= k <= m
        ensures DrawFor(s, m, k) == DrawFor(s', m, k)
      {
        EqualShufflesDrawAlike(Identity(n), m, s, s', k);
      }
    }
    if SameDraws(s, s', m) {
      EqualDrawsShuffleAlike(Identity(n), m, s, s');
    }
  }

  /** Four positions from seed 42 come out reversed, four from seed 2 do not. */
  lemma ShuffleVectors()
    ensures PermutationOf(4, 42) == [3, 2, 1, 0] && PermutationOf(4, 2) == [2, 3, 0, 1]
  {
    assert Identity(4) == [0, 1, 2, 3];
    FourShuffled(43);
    FourShuffled(3);
  }

  lemma FourShuffled(s: bv64)
    ensures var a := NextState(s);
      var b := NextState(a);
      var c := NextState(b);
      ShuffleFrom([0, 1, 2, 3], 3, s)
      == Swapped(Swapped(Swapped([0, 1, 2, 3], 3, Draw(a, 3)), 2, Draw(b, 2)), 1, Draw(c, 1))
  {
    hide Draw, NextState;
  }
}
