/** internal/cascade/cascade.go: the latency-bounded topology. Every tier starts
    at once, outcomes arrive in any order, and acceptance is tried in cost order. */
module Speculative {
  import opened Wrappers
  import opened Router
  import opened RouterReplay

  /** What one run returns. */
  datatype Race = Race(accepted: Option<Acceptance>, spend: real, steps: seq<Step>)

  ghost predicate Among(k: nat, order: seq<nat>) {
    exists i :: 0 <= i < |order| && order[i] == k
  }

  /** The order in which the tiers' outcomes arrive: each tier exactly once. */
  ghost predicate IsOrder(order: seq<nat>, n: nat) {
    && |order| == n
    && (forall i :: 0 <= i < n ==> order[i] < n)
    && (forall i, j :: 0 <= i < j < n ==> order[i] != order[j])
    && (forall k: nat :: k < n ==> Among(k, order))
  }

  /** Tier k's samples: all tiers are asked after the plan, with no carried notes. */
  function Fanned(w: World, cfg: Config, known: seq<Failure>, k: nat): seq<Candidate>
    requires k < |cfg.tiers|
  {
    Samples(w, PlanLog(cfg), k, PlanOf(w, cfg, []), KnownNotes(cfg, known), cfg.tiers[k].samples)
  }

  function FannedUsd(w: World, cfg: Config, known: seq<Failure>, k: nat): real
    requires k < |cfg.tiers|
  {
    SampleUsd(w, PlanLog(cfg), k, PlanOf(w, cfg, []), KnownNotes(cfg, known), cfg.tiers[k].samples)
  }

  function FanUsd(w: World, cfg: Config, known: seq<Failure>, n: nat): real
    requires n <= |cfg.tiers|
  {
    if n == 0 then 0.0 else FanUsd(w, cfg, known, n - 1) + FannedUsd(w, cfg, known, n - 1)
  }

  /** The tiers with a surviving candidate, cheapest first. */
  function Winners(w: World, cfg: Config, known: seq<Failure>, k: nat): seq<Acceptance>
    requires k <= |cfg.tiers|
    decreases |cfg.tiers| - k
  {
    if k == |cfg.tiers| then []
    else
      var entry := Entry(w, k, Fanned(w, cfg, known, k));
      (if entry.Some? then [entry.value] else []) + Winners(w, cfg, known, k + 1)
  }

  /** Acceptance in the given order; the first held-out pass wins. */
  function Settle(w: World, winners: seq<Acceptance>, r: Race): Race {
    if winners == [] then r.(steps := r.steps + [Step(0, Escalate, 0.0, "")])
    else
      var head, paid := winners[0], r.(spend := r.spend + w.hiddenUsd(winners[0].source));
      if w.hidden(head.source).ok then
        paid.(accepted := Some(head), steps := paid.steps + [Step(head.tier, Accept, head.score, "")])
      else Settle(w, winners[1..], paid.(steps := paid.steps + [Step(head.tier, Reject, head.score, "")]))
  }

  function PlanCharge(w: World, cfg: Config): real {
    if cfg.twoStage && PlanOf(w, cfg, []) != "" then w.modelUsd(PlanPrompt, PlanOf(w, cfg, [])) else 0.0
  }

  /** The result, in which the order of arrival does not appear. */
  function RaceOf(w: World, cfg: Config, known: seq<Failure>): Race {
    Settle(w, Winners(w, cfg, known, 0),
           Race(None, PlanCharge(w, cfg) + FanUsd(w, cfg, known, |cfg.tiers|), []))
  }

  // ------------------------------------------------------------ sorting by tier

  function InsertByTier(a: Acceptance, ws: seq<Acceptance>): seq<Acceptance> {
    if ws == [] || a.tier <= ws[0].tier then [a] + ws else [ws[0]] + InsertByTier(a, ws[1..])
  }

  /** slices.SortFunc on the winners' tiers. */
  function SortByTier(ws: seq<Acceptance>): seq<Acceptance> {
    if ws == [] then [] else InsertByTier(ws[|ws| - 1], SortByTier(ws[..|ws| - 1]))
  }

  /** Cheapest first, no tier twice. */
  ghost predicate Ascending(ws: seq<Acceptance>) {
    forall i, j :: 0 <= i < j < |ws| ==> ws[i].tier < ws[j].tier
  }

  ghost predicate Member(a: Acceptance, ws: seq<Acceptance>) {
    exists i :: 0 <= i < |ws| && ws[i] == a
  }

  lemma MemberOfCons(a: Acceptance, head: Acceptance, tail: seq<Acceptance>)
    ensures Member(a, [head] + tail) <==> a == head || Member(a, tail)
  {
    var all := [head] + tail;
    if a == head {
      assert all[0] == a;
    }
    if Member(a, tail) {
      var i :| 0 <= i < |tail| && tail[i] == a;
      assert all[i + 1] == a;
    }
    if Member(a, all) && a != head {
      var i :| 0 <= i < |all| && all[i] == a;
      assert tail[i - 1] == a;
    }
  }

  lemma {:induction false} InsertInserts(a: Acceptance, ws: seq<Acceptance>)
    requires Ascending(ws) && forall x :: Member(x, ws) ==> x.tier != a.tier
    ensures Ascending(InsertByTier(a, ws))
    ensures forall x :: Member(x, InsertByTier(a, ws)) <==> x == a || Member(x, ws)
  {
    if ws == [] || a.tier <= ws[0].tier {
      assert ws != [] ==> Member(ws[0], ws);
      forall x
        ensures Member(x, [a] + ws) <==> x == a || Member(x, ws)
      {
        MemberOfCons(x, a, ws);
      }
    } else {
      var rest := InsertByTier(a, ws[1..]);
      assert ws == [ws[0]] + ws[1..];
      forall x
        ensures Member(x, ws) <==> x == ws[0] || Member(x, ws[1..])
        ensures Member(x, [ws[0]] + rest) <==> x == ws[0] || Member(x, rest)
      {
        MemberOfCons(x, ws[0], ws[1..]);
        MemberOfCons(x, ws[0], rest);
      }
      InsertInserts(a, ws[1..]);
      forall i | 0 <= i < |rest|
        ensures ws[0].tier < rest[i].tier
      {
        assert Member(rest[i], rest);
        if rest[i] != a {
          var j :| 0 <= j < |ws[1..]| && ws[1..][j] == rest[i];
          assert ws[1..][j] == ws[j + 1];
        }
      }
    }
  }

  lemma MemberOfTail(a: Acceptance, ws: seq<Acceptance>)
    requires Ascending(ws) && ws != []
    ensures Member(a, ws[1..]) <==> Member(a, ws) && a != ws[0]
  {
    assert ws == [ws[0]] + ws[1..];
    MemberOfCons(a, ws[0], ws[1..]);
    if Member(a, ws[1..]) {
      var j :| 0 <= j < |ws[1..]| && ws[1..][j] == a;
      assert ws[j + 1] == a;
    }
  }

  /** A strictly ascending sequence is determined by its elements. */
  lemma {:induction false} AscendingIsUnique(a: seq<Acceptance>, b: seq<Acceptance>)
    requires Ascending(a) && Ascending(b) && forall x :: Member(x, a) <==> Member(x, b)
    ensures a == b
  {
    if a == [] || b == [] {
      assert a != [] ==> Member(a[0], a);
      assert b != [] ==> Member(b[0], b);
    } else {
      assert Member(a[0], a) && Member(b[0], b);
      assert a[0] == b[0];
      forall x
        ensures Member(x, a[1..]) <==> Member(x, b[1..])
      {
        MemberOfTail(x, a);
        MemberOfTail(x, b);
      }
      AscendingIsUnique(a[1..], b[1..]);
      assert a == [a[0]] + a[1..] && b == [b[0]] + b[1..];
    }
  }

  // ------------------------------------------------------------ arrival order

  function Arrived(w: World, cfg: Config, known: seq<Failure>, order: seq<nat>): seq<Acceptance>
    requires forall i :: 0 <= i < |order| ==> order[i] < |cfg.tiers|
  {
    if order == [] then []
    else
      var k := order[|order| - 1];
      var entry := Entry(w, k, Fanned(w, cfg, known, k));
      Arrived(w, cfg, known, order[..|order| - 1]) + if entry.Some? then [entry.value] else []
  }

  function ArrivedUsd(w: World, cfg: Config, known: seq<Failure>, order: seq<nat>): real
    requires forall i :: 0 <= i < |order| ==> order[i] < |cfg.tiers|
  {
    if order == [] then 0.0
    else ArrivedUsd(w, cfg, known, order[..|order| - 1]) + FannedUsd(w, cfg, known, order[|order| - 1])
  }

  /** What tier t's samples amount to. */
  function EntryOf(w: World, cfg: Config, known: seq<Failure>, t: nat): (entry: Option<Acceptance>)
    requires t < |cfg.tiers|
    ensures entry.Some? ==> entry.value.tier == t
  {
    Entry(w, t, Fanned(w, cfg, known, t))
  }

  ghost predicate Came(w: World, cfg: Config, known: seq<Failure>, order: seq<nat>, a: Acceptance) {
    a.tier < |cfg.tiers| && Among(a.tier, order) && EntryOf(w, cfg, known, a.tier) == Some(a)
  }

  ghost predicate WinsFrom(w: World, cfg: Config, known: seq<Failure>, k: nat, a: Acceptance) {
    k <= a.tier < |cfg.tiers| && EntryOf(w, cfg, known, a.tier) == Some(a)
  }

  lemma AmongSnoc(t: nat, order: seq<nat>)
    requires order != []
    ensures Among(t, order) <==> Among(t, order[..|order| - 1]) || t == order[|order| - 1]
  {
    var m := |order| - 1;
    if Among(t, order[..m]) {
      var i :| 0 <= i < m && order[..m][i] == t;
      assert order[i] == t;
    }
    if Among(t, order) && t != order[m] {
      var i :| 0 <= i < |order| && order[i] == t;
      assert order[..m][i] == t;
    }
    assert order[m] == order[m];
  }

  lemma {:induction false} SortedArrivals(w: World, cfg: Config, known: seq<Failure>, order: seq<nat>)
    requires forall i :: 0 <= i < |order| ==> order[i] < |cfg.tiers|
    requires forall i, j :: 0 <= i < j < |order| ==> order[i] != order[j]
    ensures Ascending(SortByTier(Arrived(w, cfg, known, order)))
    ensures forall a :: Member(a, SortByTier(Arrived(w, cfg, known, order))) <==> Came(w, cfg, known, order, a)
  {
    if order != [] {
      hide EntryOf, Came, Member, Ascending, SortByTier, Arrived;
      var m := |order| - 1;
      var k, before := order[m], order[..m];
      SortedArrivals(w, cfg, known, before);
      ArrivalStep(w, cfg, known, order);
      var entry, ws := EntryOf(w, cfg, known, k), Arrived(w, cfg, known, before);
      forall a
        ensures Came(w, cfg, known, order, a) <==> Came(w, cfg, known, before, a) || entry == Some(a)
      {
        CameStep(w, cfg, known, order, a);
      }
      if entry.Some? {
        forall x | Member(x, SortByTier(ws))
          ensures x.tier != entry.value.tier
        {
          CameEarlier(w, cfg, known, order, x);
        }
        InsertInserts(entry.value, SortByTier(ws));
      }
    } else {
      NothingCame(w, cfg, known);
    }
  }

  lemma NothingCame(w: World, cfg: Config, known: seq<Failure>)
    ensures forall a :: !Member(a, []) && !Came(w, cfg, known, [], a)
  {
  }

  lemma ArrivalStep(w: World, cfg: Config, known: seq<Failure>, order: seq<nat>)
    requires order != [] && forall i :: 0 <= i < |order| ==> order[i] < |cfg.tiers|
    ensures var before, entry := order[..|order| - 1], EntryOf(w, cfg, known, order[|order| - 1]);
      SortByTier(Arrived(w, cfg, known, order))
      == var sorted := SortByTier(Arrived(w, cfg, known, before));
         if entry.Some? then InsertByTier(entry.value, sorted) else sorted
  {
    hide InsertByTier, Entry, Fanned;
    var ws := Arrived(w, cfg, known, order[..|order| - 1]);
    var entry := EntryOf(w, cfg, known, order[|order| - 1]);
    if entry.Some? {
      assert (ws + [entry.value])[..|ws|] == ws;
    } else {
      assert ws + [] == ws;
    }
  }

  lemma CameStep(w: World, cfg: Config, known: seq<Failure>, order: seq<nat>, a: Acceptance)
    requires order != [] && forall i :: 0 <= i < |order| ==> order[i] < |cfg.tiers|
    ensures Came(w, cfg, known, order, a)
       <==> Came(w, cfg, known, order[..|order| - 1], a) || EntryOf(w, cfg, known, order[|order| - 1]) == Some(a)
  {
    AmongSnoc(a.tier, order);
    assert EntryOf(w, cfg, known, order[|order| - 1]).Some? ==>
      EntryOf(w, cfg, known, order[|order| - 1]).value.tier == order[|order| - 1];
  }

  lemma CameEarlier(w: World, cfg: Config, known: seq<Failure>, order: seq<nat>, a: Acceptance)
    requires order != [] && Came(w, cfg, known, order[..|order| - 1], a)
    requires forall i, j :: 0 <= i < j < |order| ==> order[i] != order[j]
    ensures a.tier != order[|order| - 1]
  {
    var i :| 0 <= i < |order| - 1 && order[..|order| - 1][i] == a.tier;
    assert order[i] == a.tier;
  }

  lemma {:induction false} WinnersAscend(w: World, cfg: Config, known: seq<Failure>, k: nat)
    requires k <= |cfg.tiers|
    ensures Ascending(Winners(w, cfg, known, k))
    ensures forall a :: Member(a, Winners(w, cfg, known, k)) <==> WinsFrom(w, cfg, known, k, a)
    decreases |cfg.tiers| - k
  {
    hide Entry, Fanned;
    if k < |cfg.tiers| {
      WinnersAscend(w, cfg, known, k + 1);
      var entry, rest := EntryOf(w, cfg, known, k), Winners(w, cfg, known, k + 1);
      if entry.Some? {
        LaterWinners(w, cfg, known, k, rest);
        forall a
          ensures Member(a, [entry.value] + rest) <==> a == entry.value || Member(a, rest)
        {
          MemberOfCons(a, entry.value, rest);
        }
      } else {
        assert Winners(w, cfg, known, k) == rest;
      }
      hide EntryOf, Member;
      assert forall a :: WinsFrom(w, cfg, known, k, a) <==> WinsFrom(w, cfg, known, k + 1, a) || entry == Some(a);
    }
  }

  lemma LaterWinners(w: World, cfg: Config, known: seq<Failure>, k: nat, rest: seq<Acceptance>)
    requires forall a :: Member(a, rest) <==> WinsFrom(w, cfg, known, k + 1, a)
    ensures forall i :: 0 <= i < |rest| ==> k < rest[i].tier
  {
    forall i | 0 <= i < |rest|
      ensures k < rest[i].tier
    {
      assert Member(rest[i], rest);
    }
  }

  /** However the outcomes arrive, the sorted winners are the same. */
  lemma SortedWinnersAreOrderFree(w: World, cfg: Config, known: seq<Failure>, order: seq<nat>)
    requires IsOrder(order, |cfg.tiers|)
    ensures SortByTier(Arrived(w, cfg, known, order)) == Winners(w, cfg, known, 0)
  {
    hide EntryOf, SortByTier, Arrived, Winners, Member, Ascending;
    SortedArrivals(w, cfg, known, order);
    WinnersAscend(w, cfg, known, 0);
    AscendingIsUnique(SortByTier(Arrived(w, cfg, known, order)), Winners(w, cfg, known, 0));
  }

  // ------------------------------------------------------------ the bill

  /** The order with the entry at `at` taken out. */
  function Without(order: seq<nat>, at: nat): (rest: seq<nat>)
    requires at < |order|
    ensures |rest| == |order| - 1
    ensures forall i :: 0 <= i < |rest| ==> rest[i] == order[if i < at then i else i + 1]
  {
    order[..at] + order[at + 1..]
  }

  lemma WithoutLastTier(order: seq<nat>, n: nat, at: nat)
    requires 0 < n && IsOrder(order, n) && at < n && order[at] == n - 1
    ensures IsOrder(Without(order, at), n - 1)
  {
    var rest := Without(order, at);
    forall k | 0 <= k < n - 1
      ensures Among(k, rest)
    {
      assert Among(k, order);
      var i :| 0 <= i < |order| && order[i] == k;
      assert rest[if i < at then i else i - 1] == k;
    }
  }

  lemma {:induction false} BillWithout(w: World, cfg: Config, known: seq<Failure>, order: seq<nat>, at: nat)
    requires at < |order| && forall i :: 0 <= i < |order| ==> order[i] < |cfg.tiers|
    ensures ArrivedUsd(w, cfg, known, order)
         == ArrivedUsd(w, cfg, known, Without(order, at)) + FannedUsd(w, cfg, known, order[at])
    decreases |order|
  {
    hide FannedUsd;
    var m, rest := |order| - 1, Without(order, at);
    if at == m {
      assert rest == order[..m];
    } else {
      BillWithout(w, cfg, known, order[..m], at);
      assert rest[..m - 1] == Without(order[..m], at);
    }
  }

  lemma {:induction false} BillIsOrderFree(w: World, cfg: Config, known: seq<Failure>, order: seq<nat>, n: nat)
    requires n <= |cfg.tiers| && IsOrder(order, n)
    ensures ArrivedUsd(w, cfg, known, order) == FanUsd(w, cfg, known, n)
    decreases n
  {
    hide FannedUsd;
    if n != 0 {
      assert Among(n - 1, order);
      var at :| 0 <= at < |order| && order[at] == n - 1;
      WithoutLastTier(order, n, at);
      BillWithout(w, cfg, known, order, at);
      BillIsOrderFree(w, cfg, known, Without(order, at), n - 1);
    }
  }

  // ------------------------------------------------------------ the topology

  method Collect(w: World, cfg: Config, known: seq<Failure>, order: seq<nat>)
    returns (winners: seq<Acceptance>, spend: real)
    requires IsOrder(order, |cfg.tiers|)
    ensures winners == Winners(w, cfg, known, 0)
    ensures spend == PlanCharge(w, cfg) + FanUsd(w, cfg, known, |cfg.tiers|)
  {
    hide PlanCharge, Fanned, FannedUsd, Entry, Winners, SortByTier, FanUsd;
    spend, winners := PlanCharge(w, cfg), [];
    for i := 0 to |order|
      invariant winners == Arrived(w, cfg, known, order[..i])
      invariant spend == PlanCharge(w, cfg) + ArrivedUsd(w, cfg, known, order[..i])
    {
      assert order[..i + 1][..i] == order[..i];
      var k := order[i];
      var cands := Fanned(w, cfg, known, k);
      spend := spend + FannedUsd(w, cfg, known, k);
      var entry := Entry(w, k, cands);
      if entry.Some? {
        winners := winners + [entry.value];
      }
    }
    assert order[..|order|] == order;
    SortedWinnersAreOrderFree(w, cfg, known, order);
    BillIsOrderFree(w, cfg, known, order, |cfg.tiers|);
    winners := SortByTier(winners);
  }

  /** Collects outcomes as they arrive, sorts, and tries acceptance. The result
      is a function of the tiers alone. */
  method Speculative(w: World, cfg: Config, known: seq<Failure>, order: seq<nat>) returns (r: Race)
    requires IsOrder(order, |cfg.tiers|)
    ensures r == RaceOf(w, cfg, known)
  {
    hide Winners, PlanCharge, FanUsd, IsOrder;
    var winners, spend := Collect(w, cfg, known, order);
    r := Race(None, spend, []);
    for i := 0 to |winners|
      invariant Settle(w, winners[i..], r) == RaceOf(w, cfg, known)
      invariant r.accepted.None?
    {
      assert winners[i..][1..] == winners[i + 1..];
      var c := winners[i];
      r := r.(spend := r.spend + w.hiddenUsd(c.source));
      if !w.hidden(c.source).ok {
        r := r.(steps := r.steps + [Step(c.tier, Reject, c.score, "")]);
        continue;
      }
      r := r.(accepted := Some(c), steps := r.steps + [Step(c.tier, Accept, c.score, "")]);
      return;
    }
    r := r.(steps := r.steps + [Step(0, Escalate, 0.0, "")]);
  }

  // ------------------------------------------------------------ against the cascade

  /** Scores are lower confidence bounds, never negative. */
  ghost predicate Scores(w: World) {
    forall cands :: w.vote(cands).Some? ==> 0.0 <= w.vote(cands).value.score
  }

  function Zeros(n: nat): (z: seq<real>)
    ensures |z| == n && forall i :: 0 <= i < n ==> z[i] == 0.0
  {
    seq(n, i => 0.0)
  }

  function AtZero(cfg: Config): Config {
    cfg.(thresholds := Some(Zeros(|cfg.tiers|)))
  }

  lemma EntryIsFixed(w: World, cfg: Config, known: seq<Failure>, k: nat)
    requires Memoryless(w) && Scores(w) && k < |cfg.tiers|
    ensures EntryOf(w, cfg, known, k) == Entry(w, k, Drawn(w, AtZero(cfg), k))
    ensures EntryOf(w, cfg, known, k).Some? <==> Consults(w, AtZero(cfg), k, Drawn(w, AtZero(cfg), k))
    ensures EntryOf(w, cfg, known, k).Some? ==>
      w.hidden(EntryOf(w, cfg, known, k).value.source).ok
      == Observed(w, AtZero(cfg), k, Drawn(w, AtZero(cfg), k), DrawnUsd(w, AtZero(cfg), k)).correct
  {
    hide Samples;
    SamplesAreFixed(w, PlanLog(cfg), k, PlanOf(w, cfg, []), KnownNotes(cfg, known), cfg.tiers[k].samples);
    assert PlanOf(w, AtZero(cfg), []) == PlanOf(w, cfg, []);
    assert Fanned(w, cfg, known, k) == Drawn(w, AtZero(cfg), k);
  }

  lemma {:induction false} RaceWalk(w: World, cfg: Config, known: seq<Failure>, k: nat, r: Race, p: Progress)
    requires Memoryless(w) && NoRepair(cfg) && Scores(w)
    requires k <= |cfg.tiers| && r.accepted.None? && p.accepted.None?
    ensures Settle(w, Winners(w, cfg, known, k), r).accepted
         == RunFrom(w, AtZero(cfg), k, PlanOf(w, AtZero(cfg), []), p).accepted
    decreases |cfg.tiers| - k
  {
    hide TierRun, Observed, Drawn, DrawnUsd, Consults, PlanOf, Entry, Fanned;
    var cfg0 := AtZero(cfg);
    if k < |cfg.tiers| {
      EntryIsFixed(w, cfg, known, k);
      TierIsFixed(w, cfg0, k, p);
      var q, entry, rest := TierRun(w, cfg0, k, PlanOf(w, cfg0, []), p), EntryOf(w, cfg, known, k),
                            Winners(w, cfg, known, k + 1);
      assert RunFrom(w, cfg0, k, PlanOf(w, cfg0, []), p) == RunFrom(w, cfg0, k + 1, PlanOf(w, cfg0, []), q);
      if entry.None? {
        assert Winners(w, cfg, known, k) == rest;
        RaceWalk(w, cfg, known, k + 1, r, q);
      } else {
        var a := entry.value;
        assert Winners(w, cfg, known, k) == [a] + rest && ([a] + rest)[1..] == rest;
        if !w.hidden(a.source).ok {
          RaceWalk(w, cfg, known, k + 1,
                   r.(spend := r.spend + w.hiddenUsd(a.source),
                      steps := r.steps + [Step(a.tier, Reject, a.score, "")]), q);
        }
      }
    }
  }

  /** The speculative topology returns, for every order of arrival, what the
      sequential one returns with every threshold at zero. It runs a policy of
      its own: a certificate's thresholds never enter. */
  lemma SpeculativeIsZeroThresholdCascade(w: World, cfg: Config, known: seq<Failure>)
    requires Memoryless(w) && NoRepair(cfg) && Scores(w)
    ensures RaceOf(w, cfg, known).accepted == SequentialOf(w, AtZero(cfg), known).accepted
  {
    hide RunFrom, Winners, Settle, FanUsd;
    var cfg0 := AtZero(cfg);
    RaceWalk(w, cfg, known, 0, Race(None, PlanCharge(w, cfg) + FanUsd(w, cfg, known, |cfg.tiers|), []),
             Planned(w, cfg0, Progress([], known, [], 0.0, [], None)));
  }

  lemma {:induction false} ZeroSolvesMore(w: World, cfg: Config, k: nat, p: Progress, p': Progress)
    requires Memoryless(w) && NoRepair(cfg) && Scores(w) && k <= |cfg.tiers|
    requires p.accepted.None? && p'.accepted.None?
    ensures var a := RunFrom(w, cfg, k, PlanOf(w, cfg, []), p).accepted;
      var a' := RunFrom(w, AtZero(cfg), k, PlanOf(w, AtZero(cfg), []), p').accepted;
      a.Some? ==> a'.Some? && a'.value.tier <= a.value.tier
    decreases |cfg.tiers| - k
  {
    hide TierRun, Observed, Drawn, DrawnUsd, PlanOf;
    var cfg0 := AtZero(cfg);
    if k < |cfg.tiers| {
      SameDraws(w, cfg, k);
      TierIsFixed(w, cfg, k, p);
      TierIsFixed(w, cfg0, k, p');
      var q, q' := TierRun(w, cfg, k, PlanOf(w, cfg, []), p), TierRun(w, cfg0, k, PlanOf(w, cfg0, []), p');
      assert RunFrom(w, cfg, k, PlanOf(w, cfg, []), p) == RunFrom(w, cfg, k + 1, PlanOf(w, cfg, []), q);
      assert RunFrom(w, cfg0, k, PlanOf(w, cfg0, []), p') == RunFrom(w, cfg0, k + 1, PlanOf(w, cfg0, []), q');
      if q.accepted.None? && q'.accepted.None? {
        ZeroSolvesMore(w, cfg, k + 1, q, q');
      } else if q.accepted.None? {
        RunsForward(w, cfg, k + 1, q);
      }
    }
  }

  lemma SameDraws(w: World, cfg: Config, k: nat)
    requires k < |cfg.tiers|
    ensures Drawn(w, AtZero(cfg), k) == Drawn(w, cfg, k)
    ensures Observed(w, AtZero(cfg), k, Drawn(w, cfg, k), DrawnUsd(w, AtZero(cfg), k))
         == Observed(w, cfg, k, Drawn(w, cfg, k), DrawnUsd(w, cfg, k))
    ensures Scores(w) && Consults(w, cfg, k, Drawn(w, cfg, k)) ==> Consults(w, AtZero(cfg), k, Drawn(w, cfg, k))
  {
    hide Samples;
    assert PlanOf(w, AtZero(cfg), []) == PlanOf(w, cfg, []);
  }

  lemma {:induction false} RunsForward(w: World, cfg: Config, k: nat, p: Progress)
    requires Memoryless(w) && NoRepair(cfg) && k <= |cfg.tiers| && p.accepted.None?
    ensures var a := RunFrom(w, cfg, k, PlanOf(w, cfg, []), p).accepted; a.Some? ==> k <= a.value.tier
    decreases |cfg.tiers| - k
  {
    hide TierRun, Observed, Drawn, DrawnUsd, Consults, PlanOf;
    if k < |cfg.tiers| {
      TierIsFixed(w, cfg, k, p);
      var q := TierRun(w, cfg, k, PlanOf(w, cfg, []), p);
      assert RunFrom(w, cfg, k, PlanOf(w, cfg, []), p) == RunFrom(w, cfg, k + 1, PlanOf(w, cfg, []), q);
      if q.accepted.None? {
        RunsForward(w, cfg, k + 1, q);
      }
    }
  }

  /** Whatever a sequential run accepts under any thresholds, the speculative run
      also solves, at that tier or a cheaper one. */
  lemma SpeculativeSolvesNoLess(w: World, cfg: Config, known: seq<Failure>)
    requires Memoryless(w) && NoRepair(cfg) && Scores(w)
    ensures var a, a' := SequentialOf(w, cfg, known).accepted, RaceOf(w, cfg, known).accepted;
      a.Some? ==> a'.Some? && a'.value.tier <= a.value.tier
  {
    hide RunFrom, RaceOf;
    SpeculativeIsZeroThresholdCascade(w, cfg, known);
    var start := Progress([], known, [], 0.0, [], None);
    ZeroSolvesMore(w, cfg, 0, Planned(w, cfg, start), Planned(w, AtZero(cfg), start));
  }
}
