/** internal/cluster/cluster.go: who represents a class, and how much mass it has. */
module ClusterReps {
  import opened Powers
  import opened Wilson
  import opened Cluster

  /** No two samples share an index. */
  ghost predicate OwnIndices(cands: seq<Candidate>) {
    forall i, j :: 0 <= i < j < |cands| ==> cands[i].index != cands[j].index
  }

  /** How much there is of a program: a thousand for each point of complexity and one for
      each hundred characters; 2^29 when it was not analysed. */
  function Burden(c: Candidate): nat {
    match c.report
    case None => 536870912
    case Some(r) => if r.complexity.None? then 536870912 else 1000 * r.complexity.value + |c.source| / 100
  }

  lemma {:induction false} WeightIsBurden(cands: seq<Candidate>, i: nat)
    requires OwnIndices(cands) && i < |cands|
    ensures Weight(cands, cands[i].index) == Burden(cands[i])
  {
    var m := |cands| - 1;
    if i < m {
      var init := cands[..m];
      assert cands[i].index != cands[m].index;
      WeightIsBurden(init, i);
    }
  }

  /** Candidate i is in the class and nothing in it that weighs less than 2^30 is
      simpler. */
  ghost predicate IsSimplest(cands: seq<Candidate>, key: Key, i: nat) {
    && i < |cands| && Behaviour(cands[i]) == key
    && forall j :: 0 <= j < |cands| && Behaviour(cands[j]) == key && Burden(cands[j]) < 1073741824 ==>
         Burden(cands[i]) <= Burden(cands[j])
  }

  /** The representative is a simplest candidate of its class. */
  lemma RepresentativeIsSimplest(cands: seq<Candidate>, key: Key) returns (i: nat)
    requires OwnIndices(cands) && MembersOf(cands, key) != []
    ensures i < |cands| && cands[i].index == ClassOf(cands, key).rep && IsSimplest(cands, key, i)
  {
    hide Behaviour, Weight, Burden;
    var members := MembersOf(cands, key);
    var b := Lightest(cands, members, |members|);
    i := MemberIsACandidate(cands, key, b.0);
    WeightIsBurden(cands, i);
    forall j | 0 <= j < |cands| && Behaviour(cands[j]) == key && Burden(cands[j]) < 1073741824
      ensures Burden(cands[i]) <= Burden(cands[j])
    {
      WeightIsBurden(cands, j);
      MembersBehaveAlike(cands, key, j);
      var k :| 0 <= k < |members| && members[k] == cands[j].index;
      assert b.1 <= Weight(cands, members[k]);
    }
  }

  function MassOf(cs: seq<Class>): real {
    if cs == [] then 0.0 else MassOf(cs[..|cs| - 1]) + cs[|cs| - 1].mass
  }

  /** x is c of n. */
  predicate IsShare(x: real, c: nat, n: nat) {
    n as real * x == c as real
  }

  lemma QuotientIsShare(c: nat, n: nat)
    requires 0 < n
    ensures IsShare(c as real / n as real, c, n)
  {
  }

  lemma {:induction false} MassIsSize(n: nat, cs: seq<Class>)
    requires forall i :: 0 <= i < |cs| ==> IsShare(cs[i].mass, |cs[i].members|, n)
    ensures IsShare(MassOf(cs), SizeOf(cs), n)
  {
    if cs != [] {
      var init, last := cs[..|cs| - 1], cs[|cs| - 1];
      MassIsSize(n, init);
      SharesAdd(MassOf(init), last.mass, SizeOf(init), |last.members|, n);
    }
  }

  lemma SharesAdd(x: real, y: real, c: nat, d: nat, n: nat)
    requires IsShare(x, c, n) && IsShare(y, d, n)
    ensures IsShare(x + y, c + d, n)
  {
    var r := n as real;
    assert r * (x + y) == r * x + r * y;
  }

  lemma ClassMass(rank: Key -> int, cands: seq<Candidate>, cs: seq<Class>, i: nat)
    requires IsGrouping(rank, cands, cs) && cands != [] && i < |cs|
    ensures IsShare(cs[i].mass, |cs[i].members|, |cands|)
  {
    hide Before, Lightest, Behaviour, MembersOf, IsShare;
    assert HasClass(cs, cs[i]);
    QuotientIsShare(|cs[i].members|, |cands|);
  }

  /** The masses of a grouping are the shares of its classes and add up to 1. */
  lemma MassesAddUp(rank: Key -> int, cands: seq<Candidate>, cs: seq<Class>)
    requires Ranks(rank) && IsGrouping(rank, cands, cs) && cands != []
    ensures forall i :: 0 <= i < |cs| ==> IsShare(cs[i].mass, |MembersOf(cands, cs[i].key)|, |cands|)
    ensures MassOf(cs) == 1.0
  {
    hide *;
    GroupIsAPartition(rank, cands, cs);
    forall i | 0 <= i < |cs|
      ensures IsShare(cs[i].mass, |cs[i].members|, |cands|)
    {
      ClassMass(rank, cands, cs, i);
    }
    MassIsSize(|cands|, cs);
    WholeShare(MassOf(cs), |cands|);
  }

  lemma WholeShare(x: real, n: nat)
    requires 0 < n && IsShare(x, n, n)
    ensures x == 1.0
  {
    WholeMass(n as real, x);
  }

  lemma WholeMass(n: real, m: real)
    requires 0.0 < n && n * m == n
    ensures m == 1.0
  {
    assert n * (m - 1.0) == 0.0;
    SignOfProduct(n, m - 1.0);
    assert n * (1.0 - m) == 0.0;
    SignOfProduct(n, 1.0 - m);
  }

  /** The ceilings the documentation quotes for one, two and five samples. */
  lemma QuotedCeilings()
    ensures 0.2695 <= Unanimous(1) < 0.2705 && 0.4245 <= Unanimous(2) < 0.4255 && 0.6485 <= Unanimous(5) < 0.6495
  {
    Quoted(1.0, Unanimous(1), 0.2695, 0.2705);
    Quoted(2.0, Unanimous(2), 0.4245, 0.4255);
    Quoted(5.0, Unanimous(5), 0.6485, 0.6495);
  }

  lemma Quoted(n: real, u: real, lo: real, hi: real)
    requires 0.0 < n && u == n / (n + Z2) && lo * (n + Z2) <= n < hi * (n + Z2)
    ensures lo <= u < hi
  {
    var d := n + Z2;
    assert u * d == n && 0.0 < d;
    assert d * (u - lo) == n - lo * d && d * (hi - u) == hi * d - n;
    SignOfProduct(d, u - lo);
    SignOfProduct(d, hi - u);
  }
}
