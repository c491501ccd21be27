/** internal/cluster/cluster.go: grouping candidates by observed behaviour. The
    hash of a test outcome vector is the vector itself; map iteration order is
    arbitrary. */
module Cluster {
  import opened Wrappers
  import opened Wilson
  import opened RoutingScore

  datatype Report = Report(ok: bool, failedAt: string, tests: map<string, bool>, complexity: Option<nat>)

  datatype Candidate = Candidate(index: nat, source: string, report: Option<Report>)

  datatype Key = NoReport | Refuted(stage: string) | Behaves(tests: map<string, bool>)

  datatype Class = Class(key: Key, members: seq<nat>, mass: real, verified: bool, rep: nat)

  function Behaviour(c: Candidate): Key {
    if c.report.None? then NoReport
    else if !c.report.value.ok then Refuted(c.report.value.failedAt)
    else Behaves(c.report.value.tests)
  }

  predicate Survived(c: Candidate) {
    c.report.Some? && c.report.value.ok
  }

  // ------------------------------------------------------------ the classes

  /** Indices of the candidates with that behaviour, in sampling order. */
  function MembersOf(cands: seq<Candidate>, key: Key): seq<nat> {
    if cands == [] then []
    else
      var c := cands[|cands| - 1];
      MembersOf(cands[..|cands| - 1], key) + if Behaviour(c) == key then [c.index] else []
  }

  predicate Occurs(cands: seq<Candidate>, key: Key) {
    exists i :: 0 <= i < |cands| && Behaviour(cands[i]) == key
  }

  const UNANALYSED: nat := 0x2000_0000
  const NO_SCORE: nat := 0x4000_0000

  /** What the representative minimises; a repeated index means its last candidate. */
  function Weight(cands: seq<Candidate>, index: nat): nat {
    if cands == [] then UNANALYSED
    else
      var c := cands[|cands| - 1];
      if c.index != index then Weight(cands[..|cands| - 1], index) else WeightOf(c)
  }

  function WeightOf(c: Candidate): nat {
    if c.report.Some? && c.report.value.complexity.Some? then
      c.report.value.complexity.value * 1000 + |c.source| / 100
    else UNANALYSED
  }

  /** The first lightest of the first n members. */
  function Lightest(cands: seq<Candidate>, members: seq<nat>, n: nat): (b: (nat, nat))
    requires members != [] && n <= |members|
    ensures b.0 in members
    ensures forall j :: 0 <= j < n ==> b.1 <= Weight(cands, members[j])
    ensures b.1 < NO_SCORE ==> b.1 == Weight(cands, b.0)
  {
    if n == 0 then (members[0], NO_SCORE)
    else
      var b := Lightest(cands, members, n - 1);
      var s := Weight(cands, members[n - 1]);
      if s < b.1 then (members[n - 1], s) else b
  }

  function ClassOf(cands: seq<Candidate>, key: Key): Class
    requires MembersOf(cands, key) != []
  {
    var members := MembersOf(cands, key);
    Class(key, members, |members| as real / |cands| as real, key.Behaves?,
          Lightest(cands, members, |members|).0)
  }

  /** Verified first, then larger, then by key. */
  predicate Before(rank: Key -> int, a: Class, b: Class) {
    if a.verified != b.verified then a.verified
    else if |a.members| != |b.members| then |b.members| < |a.members|
    else rank(a.key) < rank(b.key)
  }

  ghost predicate Ranks(rank: Key -> int) {
    forall a, b :: rank(a) == rank(b) ==> a == b
  }

  ghost predicate Sorted(rank: Key -> int, cs: seq<Class>) {
    forall i, j :: 0 <= i < j < |cs| ==> Before(rank, cs[i], cs[j])
  }

  ghost predicate HasClass(cs: seq<Class>, c: Class) {
    exists i :: 0 <= i < |cs| && cs[i] == c
  }

  /** One class for each behaviour that occurs, holding exactly its candidates. */
  ghost predicate IsGrouping(rank: Key -> int, cands: seq<Candidate>, cs: seq<Class>) {
    && Sorted(rank, cs)
    && (forall c :: HasClass(cs, c) <==> Occurs(cands, c.key) && MembersOf(cands, c.key) != [] && c == ClassOf(cands, c.key))
  }

  lemma {:induction false} OccursHasMembers(cands: seq<Candidate>, key: Key)
    ensures Occurs(cands, key) <==> MembersOf(cands, key) != []
  {
    if cands != [] {
      var m := |cands| - 1;
      OccursHasMembers(cands[..m], key);
      OccursSnoc(cands, key);
    }
  }

  lemma OccursSnoc(cands: seq<Candidate>, key: Key)
    requires cands != []
    ensures Occurs(cands, key) <==> Occurs(cands[..|cands| - 1], key) || Behaviour(cands[|cands| - 1]) == key
  {
    var m := |cands| - 1;
    if Occurs(cands[..m], key) {
      var i :| 0 <= i < m && Behaviour(cands[..m][i]) == key;
      assert Behaviour(cands[i]) == key;
    }
    if Occurs(cands, key) && Behaviour(cands[m]) != key {
      var i :| 0 <= i < |cands| && Behaviour(cands[i]) == key;
      assert Behaviour(cands[..m][i]) == key;
    }
  }

  // ------------------------------------------------------------ sorting

  function Insert(rank: Key -> int, c: Class, cs: seq<Class>): seq<Class> {
    if cs == [] || Before(rank, c, cs[0]) then [c] + cs else [cs[0]] + Insert(rank, c, cs[1..])
  }

  lemma HasClassCons(c: Class, head: Class, tail: seq<Class>)
    ensures HasClass([head] + tail, c) <==> c == head || HasClass(tail, c)
  {
    var all := [head] + tail;
    assert all[0] == head;
    if HasClass(tail, c) {
      var i :| 0 <= i < |tail| && tail[i] == c;
      assert all[i + 1] == c;
    }
    if HasClass(all, c) && c != head {
      var i :| 0 <= i < |all| && all[i] == c;
      assert tail[i - 1] == c;
    }
  }

  lemma BeforeIsTotal(rank: Key -> int, a: Class, b: Class)
    requires Ranks(rank)
    ensures Before(rank, a, b) || Before(rank, b, a) || a.key == b.key
    ensures !(Before(rank, a, b) && Before(rank, b, a))
  {
  }

  lemma BeforeIsTransitive(rank: Key -> int, a: Class, b: Class, c: Class)
    requires Before(rank, a, b) && Before(rank, b, c)
    ensures Before(rank, a, c)
  {
  }

  lemma {:induction false} InsertInserts(rank: Key -> int, c: Class, cs: seq<Class>)
    requires Ranks(rank) && Sorted(rank, cs) && forall x :: HasClass(cs, x) ==> x.key != c.key
    ensures Sorted(rank, Insert(rank, c, cs))
    ensures forall x :: HasClass(Insert(rank, c, cs), x) <==> x == c || HasClass(cs, x)
  {
    hide Before, Ranks;
    forall x
      ensures HasClass([c] + cs, x) <==> x == c || HasClass(cs, x)
    {
      HasClassCons(x, c, cs);
    }
    if cs != [] && !Before(rank, c, cs[0]) {
      var head, rest := cs[0], Insert(rank, c, cs[1..]);
      assert cs == [head] + cs[1..];
      forall x
        ensures HasClass(cs, x) <==> x == head || HasClass(cs[1..], x)
        ensures HasClass([head] + rest, x) <==> x == head || HasClass(rest, x)
      {
        HasClassCons(x, head, cs[1..]);
        HasClassCons(x, head, rest);
      }
      assert HasClass(cs, head);
      InsertInserts(rank, c, cs[1..]);
      BeforeIsTotal(rank, c, head);
      forall i | 0 <= i < |rest|
        ensures Before(rank, head, rest[i])
      {
        assert HasClass(rest, rest[i]);
        if rest[i] != c {
          var j :| 0 <= j < |cs[1..]| && cs[1..][j] == rest[i];
          assert cs[j + 1] == rest[i];
        }
      }
    } else if cs != [] {
      forall i | 0 <= i < |cs|
        ensures Before(rank, c, cs[i])
      {
        if i != 0 {
          BeforeIsTransitive(rank, c, cs[0], cs[i]);
        }
      }
    }
  }

  lemma TailHas(rank: Key -> int, cs: seq<Class>, c: Class)
    requires Ranks(rank) && Sorted(rank, cs) && cs != []
    ensures HasClass(cs[1..], c) <==> HasClass(cs, c) && c != cs[0]
  {
    assert cs == [cs[0]] + cs[1..];
    HasClassCons(c, cs[0], cs[1..]);
    if HasClass(cs[1..], c) {
      var j :| 0 <= j < |cs[1..]| && cs[1..][j] == c;
      assert cs[j + 1] == c;
      BeforeIsTotal(rank, cs[0], c);
    }
  }

  /** A sorted list of classes is determined by the classes in it. */
  lemma {:induction false} SortedIsUnique(rank: Key -> int, a: seq<Class>, b: seq<Class>)
    requires Ranks(rank) && Sorted(rank, a) && Sorted(rank, b)
    requires forall c :: HasClass(a, c) <==> HasClass(b, c)
    ensures a == b
  {
    hide Before;
    if a == [] || b == [] {
      assert a != [] ==> HasClass(a, a[0]);
      assert b != [] ==> HasClass(b, b[0]);
    } else {
      assert HasClass(a, a[0]) && HasClass(b, b[0]);
      BeforeIsTotal(rank, a[0], b[0]);
      assert a[0] == b[0];
      forall c
        ensures HasClass(a[1..], c) <==> HasClass(b[1..], c)
      {
        TailHas(rank, a, c);
        TailHas(rank, b, c);
      }
      SortedIsUnique(rank, a[1..], b[1..]);
      assert a == [a[0]] + a[1..] && b == [b[0]] + b[1..];
    }
  }

  /** Group is deterministic although it ranges over a map. */
  lemma GroupingIsUnique(rank: Key -> int, cands: seq<Candidate>, a: seq<Class>, b: seq<Class>)
    requires Ranks(rank) && IsGrouping(rank, cands, a) && IsGrouping(rank, cands, b)
    ensures a == b
  {
    SortedIsUnique(rank, a, b);
  }

  // ------------------------------------------------------------ Group

  method Collect(cands: seq<Candidate>) returns (byKey: map<Key, seq<nat>>)
    ensures forall k :: k in byKey <==> Occurs(cands, k)
    ensures forall k :: k in byKey ==> byKey[k] == MembersOf(cands, k)
  {
    byKey := map[];
    for i := 0 to |cands|
      invariant forall k :: k in byKey <==> Occurs(cands[..i], k)
      invariant forall k :: k in byKey ==> byKey[k] == MembersOf(cands[..i], k)
    {
      hide Behaviour;
      assert cands[..i + 1][..i] == cands[..i];
      var k := Behaviour(cands[i]);
      forall key
        ensures Occurs(cands[..i + 1], key) <==> Occurs(cands[..i], key) || k == key
        ensures Occurs(cands[..i], key) <==> MembersOf(cands[..i], key) != []
      {
        OccursSnoc(cands[..i + 1], key);
        OccursHasMembers(cands[..i], key);
      }
      var before: seq<nat> := if k in byKey then byKey[k] else [];
      byKey := byKey[k := before + [cands[i].index]];
    }
    assert cands[..|cands|] == cands;
  }

  method Represent(cands: seq<Candidate>, members: seq<nat>, weights: map<nat, nat>) returns (rep: nat)
    requires members != []
    requires forall m :: m in members ==> m in weights && weights[m] == Weight(cands, m)
    ensures rep == Lightest(cands, members, |members|).0
  {
    var best, bestScore := members[0], NO_SCORE;
    for i := 0 to |members|
      invariant (best, bestScore) == Lightest(cands, members, i)
    {
      var s := weights[members[i]];
      if s < bestScore {
        best, bestScore := members[i], s;
      }
    }
    return best;
  }

  method ByIndex(cands: seq<Candidate>) returns (weights: map<nat, nat>)
    ensures forall k :: MembersOf(cands, k) != [] ==>
      forall m :: m in MembersOf(cands, k) ==> m in weights && weights[m] == Weight(cands, m)
  {
    weights := map[];
    for i := 0 to |cands|
      invariant forall j :: 0 <= j < i ==> cands[j].index in weights
      invariant forall m :: m in weights ==> weights[m] == Weight(cands[..i], m)
    {
      assert cands[..i + 1][..i] == cands[..i];
      weights := weights[cands[i].index := WeightOf(cands[i])];
    }
    assert cands[..|cands|] == cands;
    forall k, m | m in MembersOf(cands, k)
      ensures m in weights
    {
      var i := MemberIsACandidate(cands, k, m);
    }
  }

  lemma {:induction false} MemberIsACandidate(cands: seq<Candidate>, k: Key, m: nat) returns (i: nat)
    requires m in MembersOf(cands, k)
    ensures i < |cands| && cands[i].index == m && Behaviour(cands[i]) == k
  {
    var last := |cands| - 1;
    if Behaviour(cands[last]) == k && cands[last].index == m {
      i := last;
    } else {
      i := MemberIsACandidate(cands[..last], k, m);
    }
  }

  /** The sorted classes of the keys already visited. */
  ghost predicate Built(rank: Key -> int, cands: seq<Candidate>, visited: set<Key>, out: seq<Class>) {
    && Sorted(rank, out)
    && forall c :: HasClass(out, c) <==>
         c.key in visited && MembersOf(cands, c.key) != [] && c == ClassOf(cands, c.key)
  }

  lemma BuiltStep(rank: Key -> int, cands: seq<Candidate>, visited: set<Key>, out: seq<Class>, c: Class)
    requires Ranks(rank) && Built(rank, cands, visited, out) && c.key !in visited
    requires MembersOf(cands, c.key) != [] && c == ClassOf(cands, c.key)
    ensures Built(rank, cands, visited + {c.key}, Insert(rank, c, out))
  {
    hide Ranks, Sorted, HasClass, Lightest, Before;
    InsertInserts(rank, c, out);
  }

  method Group(rank: Key -> int, cands: seq<Candidate>) returns (out: seq<Class>)
    requires Ranks(rank)
    ensures IsGrouping(rank, cands, out)
  {
    hide Ranks, Sorted, HasClass, ClassOf, Lightest, Built, MembersOf, Occurs;
    out := [];
    if |cands| == 0 {
      NothingBuilt(rank, cands);
      NothingOccurs(cands);
      BuiltIsGrouping(rank, cands, {}, []);
      return;
    }
    var byKey := Collect(cands);
    var weights := ByIndex(cands);
    var todo := byKey.Keys;
    assert byKey.Keys - todo == {};
    NothingBuilt(rank, cands);
    while todo != {}
      invariant todo <= byKey.Keys
      invariant Built(rank, cands, byKey.Keys - todo, out)
    {
      var k :| k in todo;
      OccursHasMembers(cands, k);
      var members := byKey[k];
      var rep := Represent(cands, members, weights);
      var c := Class(k, members, |members| as real / |cands| as real, k.Behaves?, rep);
      ClassIs(cands, k, c);
      BuiltStep(rank, cands, byKey.Keys - todo, out, c);
      out := Insert(rank, c, out);
      assert byKey.Keys - (todo - {k}) == (byKey.Keys - todo) + {k};
      todo := todo - {k};
    }
    assert byKey.Keys - todo == byKey.Keys;
    BuiltIsGrouping(rank, cands, byKey.Keys, out);
  }

  lemma NothingBuilt(rank: Key -> int, cands: seq<Candidate>)
    ensures Built(rank, cands, {}, [])
  {
  }

  lemma NothingOccurs(cands: seq<Candidate>)
    requires cands == []
    ensures forall k :: !Occurs(cands, k)
  {
  }

  lemma BuiltIsGrouping(rank: Key -> int, cands: seq<Candidate>, keys: set<Key>, out: seq<Class>)
    requires Built(rank, cands, keys, out) && forall k :: k in keys <==> Occurs(cands, k)
    ensures IsGrouping(rank, cands, out)
  {
    hide Sorted, HasClass, ClassOf, Lightest, MembersOf, Occurs;
  }

  lemma ClassIs(cands: seq<Candidate>, k: Key, c: Class)
    requires MembersOf(cands, k) != []
    requires c == Class(k, MembersOf(cands, k), |MembersOf(cands, k)| as real / |cands| as real, k.Behaves?,
                        Lightest(cands, MembersOf(cands, k), |MembersOf(cands, k)|).0)
    ensures c == ClassOf(cands, k)
  {
  }

  // ------------------------------------------------------------ what a grouping is

  /** The verified classes are homogeneous: every member survived with exactly
      the class's outcomes, and no member of another class did. */
  lemma MembersBehaveAlike(cands: seq<Candidate>, k: Key, i: nat)
    requires i < |cands|
    ensures Behaviour(cands[i]) == k ==> cands[i].index in MembersOf(cands, k)
    ensures Behaviour(cands[i]).Behaves? <==> Survived(cands[i])
    decreases |cands|
  {
    if i < |cands| - 1 {
      MembersBehaveAlike(cands[..|cands| - 1], k, i);
    }
  }

  /** index names a candidate with that behaviour. */
  ghost predicate Names(cands: seq<Candidate>, index: nat, k: Key) {
    exists i :: 0 <= i < |cands| && cands[i].index == index && Behaviour(cands[i]) == k
  }

  function SizeOf(cs: seq<Class>): nat {
    if cs == [] then 0 else SizeOf(cs[..|cs| - 1]) + |cs[|cs| - 1].members|
  }

  function SizesOf(cands: seq<Candidate>, keys: seq<Key>): nat {
    if keys == [] then 0 else SizesOf(cands, keys[..|keys| - 1]) + |MembersOf(cands, keys[|keys| - 1])|
  }

  predicate Listed(keys: seq<Key>, k: Key) {
    exists i :: 0 <= i < |keys| && keys[i] == k
  }

  lemma {:induction false} OneMoreCandidate(cands: seq<Candidate>, keys: seq<Key>)
    requires cands != [] && forall i, j :: 0 <= i < j < |keys| ==> keys[i] != keys[j]
    ensures SizesOf(cands, keys)
         == SizesOf(cands[..|cands| - 1], keys) + if Listed(keys, Behaviour(cands[|cands| - 1])) then 1 else 0
  {
    hide Behaviour;
    if keys != [] {
      var m, k := |keys| - 1, Behaviour(cands[|cands| - 1]);
      OneMoreCandidate(cands, keys[..m]);
      if Listed(keys[..m], k) {
        var i :| 0 <= i < m && keys[..m][i] == k;
        assert keys[i] == k;
      }
      if Listed(keys, k) && keys[m] != k {
        var i :| 0 <= i < |keys| && keys[i] == k;
        assert keys[..m][i] == k;
      }
      assert keys[m] == k ==> Listed(keys, k);
    }
  }

  lemma {:induction false} SizesCover(cands: seq<Candidate>, keys: seq<Key>)
    requires forall i, j :: 0 <= i < j < |keys| ==> keys[i] != keys[j]
    requires forall i :: 0 <= i < |cands| ==> Listed(keys, Behaviour(cands[i]))
    ensures SizesOf(cands, keys) == |cands|
    decreases |cands|
  {
    if cands == [] {
      NoSizes(keys);
    } else {
      assert Listed(keys, Behaviour(cands[|cands| - 1]));
      assert forall i :: 0 <= i < |cands| - 1 ==> cands[..|cands| - 1][i] == cands[i];
      SizesCover(cands[..|cands| - 1], keys);
      OneMoreCandidate(cands, keys);
    }
  }

  lemma {:induction false} NoSizes(keys: seq<Key>)
    ensures SizesOf([], keys) == 0
  {
    if keys != [] {
      NoSizes(keys[..|keys| - 1]);
    }
  }

  function KeysOf(cs: seq<Class>): (keys: seq<Key>)
    ensures |keys| == |cs| && forall i :: 0 <= i < |cs| ==> keys[i] == cs[i].key
  {
    if cs == [] then [] else KeysOf(cs[..|cs| - 1]) + [cs[|cs| - 1].key]
  }

  lemma {:induction false} SizesAgree(cands: seq<Candidate>, cs: seq<Class>)
    requires forall i :: 0 <= i < |cs| ==> cs[i].members == MembersOf(cands, cs[i].key)
    ensures SizeOf(cs) == SizesOf(cands, KeysOf(cs))
  {
    if cs != [] {
      SizesAgree(cands, cs[..|cs| - 1]);
    }
  }

  /** Group partitions the candidates: each lies in the one class of its
      behaviour, no two classes share a behaviour, and the sizes add up. */
  lemma GroupIsAPartition(rank: Key -> int, cands: seq<Candidate>, cs: seq<Class>)
    requires Ranks(rank) && IsGrouping(rank, cands, cs)
    ensures forall i :: 0 <= i < |cs| ==>
      cs[i].members == MembersOf(cands, cs[i].key) && (cs[i].verified <==> cs[i].key.Behaves?)
    ensures forall i, j :: 0 <= i < j < |cs| ==> cs[i].key != cs[j].key
    ensures forall i :: 0 <= i < |cands| ==> Listed(KeysOf(cs), Behaviour(cands[i]))
    ensures SizeOf(cs) == |cands|
  {
    hide Before, Lightest, Behaviour, MembersOf;
    forall i | 0 <= i < |cs|
      ensures MembersOf(cands, cs[i].key) != [] && cs[i] == ClassOf(cands, cs[i].key)
    {
      assert HasClass(cs, cs[i]);
    }
    forall i, j | 0 <= i < j < |cs|
      ensures cs[i].key != cs[j].key
    {
      BeforeIsTotal(rank, cs[i], cs[j]);
      NeverBeforeItself(rank, cs[i]);
    }
    forall i | 0 <= i < |cands|
      ensures Listed(KeysOf(cs), Behaviour(cands[i]))
    {
      var k := Behaviour(cands[i]);
      assert Occurs(cands, k);
      OccursHasMembers(cands, k);
      var c := ClassOf(cands, k);
      assert HasClass(cs, c);
      var j :| 0 <= j < |cs| && cs[j] == c;
      assert KeysOf(cs)[j] == k;
    }
    SizesAgree(cands, cs);
    SizesCover(cands, KeysOf(cs));
  }

  lemma NeverBeforeItself(rank: Key -> int, c: Class)
    ensures !Before(rank, c, c)
  {
  }

  // ------------------------------------------------------------ Score

  /** The winning class's size among all candidates, and the class. */
  datatype Tally = Tally(k: nat, n: nat, winner: Class)

  method Score(cs: seq<Class>) returns (t: Option<Tally>)
    ensures t.None? <==> forall i :: 0 <= i < |cs| ==> !cs[i].verified
    ensures t.Some? ==> exists i :: 0 <= i < |cs| && cs[i].verified && t == Some(Tally(|cs[i].members|, SizeOf(cs), cs[i]))
                                    && forall j :: 0 <= j < i ==> !cs[j].verified
  {
    for i := 0 to |cs|
      invariant forall j :: 0 <= j < i ==> !cs[j].verified
    {
      if cs[i].verified {
        var n := 0;
        for j := 0 to |cs|
          invariant n == SizeOf(cs[..j])
        {
          assert cs[..j + 1][..j] == cs[..j];
          n := n + |cs[j].members|;
        }
        assert cs[..|cs|] == cs;
        return Some(Tally(|cs[i].members|, n, cs[i]));
      }
    }
    return None;
  }

  /** The first verified class of a grouping is a largest verified class. */
  lemma FirstVerifiedIsLargest(rank: Key -> int, cands: seq<Candidate>, cs: seq<Class>, i: nat)
    requires Ranks(rank) && IsGrouping(rank, cands, cs) && i < |cs| && cs[i].verified
    requires forall j :: 0 <= j < i ==> !cs[j].verified
    ensures i == 0
    ensures forall j :: 0 <= j < |cs| && cs[j].verified ==> |cs[j].members| <= |cs[i].members|
  {
    assert forall j :: 0 < j < |cs| ==> Before(rank, cs[0], cs[j]);
    forall j | 0 <= j < |cs| && cs[j].verified
      ensures |cs[j].members| <= |cs[i].members|
    {
      if i < j {
        assert Before(rank, cs[i], cs[j]);
      }
    }
  }

  /** The routing decision on a whole sample. Nothing is reported exactly when no
      candidate survived; otherwise a largest class of survivors is scored out of
      all candidates, its representative behaves as the class does, and no threshold
      above the fan-out's unanimous score is reached. */
  method Route(rank: Key -> int, cands: seq<Candidate>) returns (t: Option<Tally>)
    requires Ranks(rank)
    ensures t.None? <==> forall i :: 0 <= i < |cands| ==> !Survived(cands[i])
    ensures t.Some? ==>
      && t.value.n == |cands| && 0 < t.value.k <= t.value.n
      && t.value.winner.key.Behaves?
      && t.value.winner.members == MembersOf(cands, t.value.winner.key)
      && t.value.k == |t.value.winner.members|
      && Names(cands, t.value.winner.rep, t.value.winner.key)
      && (forall i :: 0 <= i < |cands| && Survived(cands[i]) ==>
            |MembersOf(cands, Behaviour(cands[i]))| <= t.value.k)
      && (forall tau :: Reaches(t.value.k, t.value.n, tau) ==> tau <= Unanimous(|cands|))
  {
    hide Before, Lightest, Behaviour, MembersOf, Reaches, Unanimous;
    var cs := Group(rank, cands);
    t := Score(cs);
    GroupIsAPartition(rank, cands, cs);
    forall i | 0 <= i < |cands|
      ensures exists j :: 0 <= j < |cs| && cs[j].key == Behaviour(cands[i])
      ensures Behaviour(cands[i]).Behaves? <==> Survived(cands[i])
    {
      MembersBehaveAlike(cands, Behaviour(cands[i]), i);
      var j :| 0 <= j < |KeysOf(cs)| && KeysOf(cs)[j] == Behaviour(cands[i]);
      assert cs[j].key == Behaviour(cands[i]);
    }
    if t.Some? {
      WinnerIsSound(rank, cands, cs, t.value);
    } else {
      forall i | 0 <= i < |cands|
        ensures !Survived(cands[i])
      {
        var j :| 0 <= j < |cs| && cs[j].key == Behaviour(cands[i]);
        assert !cs[j].verified;
      }
    }
  }

  lemma WinnerIsSound(rank: Key -> int, cands: seq<Candidate>, cs: seq<Class>, t: Tally)
    requires Ranks(rank) && IsGrouping(rank, cands, cs)
    requires exists i :: 0 <= i < |cs| && cs[i].verified && t == Tally(|cs[i].members|, SizeOf(cs), cs[i])
                         && forall j :: 0 <= j < i ==> !cs[j].verified
    ensures t.n == |cands| && 0 < t.k <= t.n
    ensures t.winner.key.Behaves? && t.winner.members == MembersOf(cands, t.winner.key)
    ensures t.k == |t.winner.members| && Names(cands, t.winner.rep, t.winner.key)
    ensures exists i :: 0 <= i < |cands| && Survived(cands[i])
    ensures forall i :: 0 <= i < |cands| && Survived(cands[i]) ==> |MembersOf(cands, Behaviour(cands[i]))| <= t.k
    ensures forall tau :: Reaches(t.k, t.n, tau) ==> tau <= Unanimous(|cands|)
  {
    hide Before, Lightest, Behaviour, MembersOf, Reaches, Unanimous;
    var i :| 0 <= i < |cs| && cs[i].verified && t == Tally(|cs[i].members|, SizeOf(cs), cs[i])
             && forall j :: 0 <= j < i ==> !cs[j].verified;
    GroupIsAPartition(rank, cands, cs);
    FirstVerifiedIsLargest(rank, cands, cs, i);
    assert HasClass(cs, cs[i]);
    MembersAtMost(cands, cs[i].key);
    RepIsAMember(cands, cs[i].key);
    var x :| 0 <= x < |cands| && Behaviour(cands[x]) == cs[i].key;
    MembersBehaveAlike(cands, cs[i].key, x);
    forall y | 0 <= y < |cands| && Survived(cands[y])
      ensures |MembersOf(cands, Behaviour(cands[y]))| <= t.k
    {
      MembersBehaveAlike(cands, Behaviour(cands[y]), y);
      var j :| 0 <= j < |KeysOf(cs)| && KeysOf(cs)[j] == Behaviour(cands[y]);
      assert cs[j].verified;
    }
    forall tau | Reaches(t.k, t.n, tau)
      ensures tau <= Unanimous(|cands|)
    {
      CeilingIsUnanimity(t.k, t.n, |cands|, tau);
    }
  }

  lemma {:induction false} MembersAtMost(cands: seq<Candidate>, k: Key)
    ensures |MembersOf(cands, k)| <= |cands|
  {
    if cands != [] {
      MembersAtMost(cands[..|cands| - 1], k);
    }
  }

  lemma RepIsAMember(cands: seq<Candidate>, k: Key)
    requires MembersOf(cands, k) != []
    ensures Names(cands, ClassOf(cands, k).rep, k)
  {
    var i := MemberIsACandidate(cands, k, ClassOf(cands, k).rep);
  }
}
