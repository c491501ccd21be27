/** Independent draws from a finite weighted population, and how the error
    count of the drawn sample is distributed. */
module Sampling {
  import opened Policy
  import opened Powers
  import opened Binomial

  /** One member of the population with its probability. */
  datatype Weighted = Weighted(rec: Record, weight: real)

  function WeightOf(pop: seq<Weighted>, p: Record -> bool): real {
    if pop == [] then 0.0
    else (if p(pop[0].rec) then pop[0].weight else 0.0) + WeightOf(pop[1..], p)
  }

  function TotalWeight(pop: seq<Weighted>): real {
    if pop == [] then 0.0 else pop[0].weight + TotalWeight(pop[1..])
  }

  ghost predicate NonNegative(pop: seq<Weighted>) {
    forall i :: 0 <= i < |pop| ==> 0.0 <= pop[i].weight
  }

  ghost predicate IsPopulation(pop: seq<Weighted>) {
    NonNegative(pop) && TotalWeight(pop) == 1.0
  }

  /** The event seen from all but the last-listed record. */
  ghost function After(event: seq<Record> -> bool, r: Record): seq<Record> -> bool {
    (s: seq<Record>) => event(s + [r])
  }

  /** The probability that n independent draws form a sample in the event: the
      sum over all draws of the product of their weights. */
  ghost function Probability(pop: seq<Weighted>, n: nat, event: seq<Record> -> bool): real
    decreases n, |pop| + 1
  {
    if n == 0 then (if event([]) then 1.0 else 0.0)
    else FirstDrawFrom(pop, pop, n, event)
  }

  ghost function FirstDrawFrom(rest: seq<Weighted>, pop: seq<Weighted>, n: nat,
                               event: seq<Record> -> bool): real
    requires 0 < n
    decreases n, |rest|
  {
    if rest == [] then 0.0
    else rest[0].weight * Probability(pop, n - 1, After(event, rest[0].rec))
         + FirstDrawFrom(rest[1..], pop, n, event)
  }

  // ------------------------------------------------------------ events

  /** A sample the population can produce. */
  ghost predicate Drawn(pop: seq<Weighted>, n: nat, s: seq<Record>) {
    |s| == n && forall i :: 0 <= i < n ==> exists j :: 0 <= j < |pop| && pop[j].rec == s[i]
  }

  ghost predicate SubPopulation(rest: seq<Weighted>, pop: seq<Weighted>) {
    forall i :: 0 <= i < |rest| ==> rest[i] in pop && 0.0 <= rest[i].weight
  }

  lemma DrawnExtends(rest: seq<Weighted>, pop: seq<Weighted>, n: nat, s: seq<Record>)
    requires SubPopulation(rest, pop) && rest != [] && Drawn(pop, n, s)
    ensures Drawn(pop, n + 1, s + [rest[0].rec])
  {
    assert rest[0] in pop;
    var j :| 0 <= j < |pop| && pop[j] == rest[0];
    assert pop[j].rec == rest[0].rec;
  }

  lemma {:induction false} ProbabilityMonotone(pop: seq<Weighted>, n: nat,
                                               e: seq<Record> -> bool, f: seq<Record> -> bool)
    requires NonNegative(pop) && forall s :: Drawn(pop, n, s) && e(s) ==> f(s)
    ensures 0.0 <= Probability(pop, n, e) <= Probability(pop, n, f)
    decreases n, |pop| + 1
  {
    if n != 0 {
      FirstDrawMonotone(pop, pop, n, e, f);
    }
  }

  lemma {:induction false} FirstDrawMonotone(rest: seq<Weighted>, pop: seq<Weighted>, n: nat,
                                             e: seq<Record> -> bool, f: seq<Record> -> bool)
    requires 0 < n && NonNegative(pop) && SubPopulation(rest, pop)
    requires forall s :: Drawn(pop, n, s) && e(s) ==> f(s)
    ensures 0.0 <= FirstDrawFrom(rest, pop, n, e) <= FirstDrawFrom(rest, pop, n, f)
    decreases n, |rest|
  {
    if rest != [] {
      var r := rest[0].rec;
      FirstDrawMonotone(rest[1..], pop, n, e, f);
      forall s | Drawn(pop, n - 1, s) && After(e, r)(s)
        ensures After(f, r)(s)
      {
        DrawnExtends(rest, pop, n - 1, s);
      }
      ProbabilityMonotone(pop, n - 1, After(e, r), After(f, r));
      HeadDraw(rest, pop, n, e);
      HeadDraw(rest, pop, n, f);
      hide FirstDrawFrom, Probability;
      AddScaled(rest[0].weight, Probability(pop, n - 1, After(e, r)), Probability(pop, n - 1, After(f, r)),
                FirstDrawFrom(rest[1..], pop, n, e), FirstDrawFrom(rest[1..], pop, n, f));
    }
  }

  lemma AddScaled(w: real, x: real, y: real, c: real, d: real)
    requires 0.0 <= w && 0.0 <= x <= y && 0.0 <= c <= d
    ensures 0.0 <= w * x + c <= w * y + d
  {
    MulNonNegative(w, x);
    ScaleLe(w, x, y);
  }

  lemma HeadDraw(rest: seq<Weighted>, pop: seq<Weighted>, n: nat, event: seq<Record> -> bool)
    requires 0 < n && rest != []
    ensures FirstDrawFrom(rest, pop, n, event)
         == rest[0].weight * Probability(pop, n - 1, After(event, rest[0].rec))
            + FirstDrawFrom(rest[1..], pop, n, event)
  {
    hide Probability;
  }

  lemma {:induction false} ProbabilityUnion(pop: seq<Weighted>, n: nat, d: seq<Record> -> bool,
                                            e: seq<Record> -> bool, f: seq<Record> -> bool)
    requires NonNegative(pop) && forall s :: Drawn(pop, n, s) && d(s) ==> e(s) || f(s)
    ensures Probability(pop, n, d) <= Probability(pop, n, e) + Probability(pop, n, f)
    decreases n, |pop| + 1
  {
    if n != 0 {
      FirstDrawUnion(pop, pop, n, d, e, f);
    }
  }

  lemma SplitFactor(w: real, x: real, y: real, z: real, c: real, d: real, e: real)
    requires 0.0 <= w && x <= y + z && c <= d + e
    ensures w * x + c <= (w * y + d) + (w * z + e)
  {
    ScaleLe(w, x, y + z);
    AddSplit(w * x, w * y, w * z, w * (y + z), c, d, e);
  }

  lemma AddSplit(x: real, y: real, z: real, yz: real, c: real, d: real, e: real)
    requires x <= yz && yz == y + z && c <= d + e
    ensures x + c <= (y + d) + (z + e)
  {
  }

  lemma {:induction false} FirstDrawUnion(rest: seq<Weighted>, pop: seq<Weighted>, n: nat,
                                          d: seq<Record> -> bool, e: seq<Record> -> bool,
                                          f: seq<Record> -> bool)
    requires 0 < n && NonNegative(pop) && SubPopulation(rest, pop)
    requires forall s :: Drawn(pop, n, s) && d(s) ==> e(s) || f(s)
    ensures FirstDrawFrom(rest, pop, n, d) <= FirstDrawFrom(rest, pop, n, e) + FirstDrawFrom(rest, pop, n, f)
    decreases n, |rest|
  {
    if rest != [] {
      var r := rest[0].rec;
      FirstDrawUnion(rest[1..], pop, n, d, e, f);
      forall s | Drawn(pop, n - 1, s) && After(d, r)(s)
        ensures After(e, r)(s) || After(f, r)(s)
      {
        DrawnExtends(rest, pop, n - 1, s);
      }
      HeadDraw(rest, pop, n, d);
      HeadDraw(rest, pop, n, e);
      HeadDraw(rest, pop, n, f);
      hide FirstDrawFrom, Probability;
      ProbabilityUnion(pop, n - 1, After(d, r), After(e, r), After(f, r));
      SplitFactor(rest[0].weight, Probability(pop, n - 1, After(d, r)), Probability(pop, n - 1, After(e, r)),
                  Probability(pop, n - 1, After(f, r)), FirstDrawFrom(rest[1..], pop, n, d),
                  FirstDrawFrom(rest[1..], pop, n, e), FirstDrawFrom(rest[1..], pop, n, f));
    }
  }

  /** Two events that cannot occur together. */
  lemma {:induction false} ProbabilityDisjoint(pop: seq<Weighted>, n: nat, d: seq<Record> -> bool,
                                               e: seq<Record> -> bool, f: seq<Record> -> bool)
    requires NonNegative(pop) && forall s :: |s| == n ==> (e(s) || f(s) ==> d(s)) && !(e(s) && f(s))
    ensures Probability(pop, n, e) + Probability(pop, n, f) <= Probability(pop, n, d)
    decreases n, |pop| + 1
  {
    if n != 0 {
      FirstDrawDisjoint(pop, pop, n, d, e, f);
    }
  }

  lemma SplitFactorBelow(w: real, x: real, y: real, z: real, c: real, d: real, e: real)
    requires 0.0 <= w && y + z <= x && d + e <= c
    ensures (w * y + d) + (w * z + e) <= w * x + c
  {
    ScaleLe(w, y + z, x);
    AddSplitBelow(w * x, w * y, w * z, w * (y + z), c, d, e);
  }

  lemma AddSplitBelow(x: real, y: real, z: real, yz: real, c: real, d: real, e: real)
    requires yz <= x && yz == y + z && d + e <= c
    ensures (y + d) + (z + e) <= x + c
  {
  }

  lemma {:induction false} FirstDrawDisjoint(rest: seq<Weighted>, pop: seq<Weighted>, n: nat,
                                             d: seq<Record> -> bool, e: seq<Record> -> bool,
                                             f: seq<Record> -> bool)
    requires 0 < n && NonNegative(pop) && SubPopulation(rest, pop)
    requires forall s :: |s| == n ==> (e(s) || f(s) ==> d(s)) && !(e(s) && f(s))
    ensures FirstDrawFrom(rest, pop, n, e) + FirstDrawFrom(rest, pop, n, f) <= FirstDrawFrom(rest, pop, n, d)
    decreases n, |rest|
  {
    if rest != [] {
      var r := rest[0].rec;
      FirstDrawDisjoint(rest[1..], pop, n, d, e, f);
      HeadDraw(rest, pop, n, d);
      HeadDraw(rest, pop, n, e);
      HeadDraw(rest, pop, n, f);
      hide FirstDrawFrom, Probability;
      ProbabilityDisjoint(pop, n - 1, After(d, r), After(e, r), After(f, r));
      SplitFactorBelow(rest[0].weight, Probability(pop, n - 1, After(d, r)), Probability(pop, n - 1, After(e, r)),
                       Probability(pop, n - 1, After(f, r)), FirstDrawFrom(rest[1..], pop, n, d),
                       FirstDrawFrom(rest[1..], pop, n, e), FirstDrawFrom(rest[1..], pop, n, f));
    }
  }

  lemma {:induction false} ProbabilityOfNothing(pop: seq<Weighted>, n: nat, e: seq<Record> -> bool)
    requires NonNegative(pop) && forall s :: |s| == n ==> !e(s)
    ensures Probability(pop, n, e) == 0.0
    decreases n, |pop| + 1
  {
    if n != 0 {
      NoFirstDraw(pop, pop, n, e);
    }
  }

  lemma {:induction false} NoFirstDraw(rest: seq<Weighted>, pop: seq<Weighted>, n: nat, e: seq<Record> -> bool)
    requires 0 < n && NonNegative(pop) && forall s :: |s| == n ==> !e(s)
    ensures FirstDrawFrom(rest, pop, n, e) == 0.0
    decreases n, |rest|
  {
    if rest != [] {
      NoFirstDraw(rest[1..], pop, n, e);
      ProbabilityOfNothing(pop, n - 1, After(e, rest[0].rec));
    }
  }

  lemma {:induction false} ProbabilityOfEverything(pop: seq<Weighted>, n: nat, e: seq<Record> -> bool)
    requires IsPopulation(pop) && forall s :: |s| == n ==> e(s)
    ensures Probability(pop, n, e) == 1.0
    decreases n, |pop| + 1
  {
    if n != 0 {
      EveryFirstDraw(pop, pop, n, e);
    }
  }

  lemma {:induction false} EveryFirstDraw(rest: seq<Weighted>, pop: seq<Weighted>, n: nat,
                                          e: seq<Record> -> bool)
    requires 0 < n && IsPopulation(pop) && forall s :: |s| == n ==> e(s)
    ensures FirstDrawFrom(rest, pop, n, e) == TotalWeight(rest)
    decreases n, |rest|
  {
    if rest != [] {
      EveryFirstDraw(rest[1..], pop, n, e);
      ProbabilityOfEverything(pop, n - 1, After(e, rest[0].rec));
    }
  }

  // ------------------------------------------------------------ weights

  lemma {:induction false} WeightBounds(pop: seq<Weighted>, p: Record -> bool, q: Record -> bool)
    requires NonNegative(pop) && forall r :: p(r) ==> q(r)
    ensures 0.0 <= WeightOf(pop, p) <= WeightOf(pop, q) <= TotalWeight(pop)
  {
    if pop != [] {
      WeightBounds(pop[1..], p, q);
    }
  }

  function Both(use: Record -> bool, wrong: Record -> bool): Record -> bool {
    (r: Record) => use(r) && wrong(r)
  }

  /** Of a share t of the draws, t - u are ignored, b are errors, u - b correct. */
  ghost function ThreeWay(t: real, u: real, b: real, ignored: real, error: real, correct: real): real {
    (t - u) * ignored + b * error + (u - b) * correct
  }

  /** Three-way chain: each draw is ignored (probability 1 - u), counted as an
      error (b), or counted as correct (u - b). The value is the probability
      that the final counts are rejected. */
  ghost function Chain(n: nat, counted: nat, bad: nat, u: real, b: real, reject: (nat, nat) -> bool): real {
    if n == 0 then (if reject(counted, bad) then 1.0 else 0.0)
    else ThreeWay(1.0, u, b, Chain(n - 1, counted, bad, u, b, reject),
                  Chain(n - 1, counted + 1, bad + 1, u, b, reject),
                  Chain(n - 1, counted + 1, bad, u, b, reject))
  }

  lemma ChainPred(n: nat, counted: nat, bad: nat, u: real, b: real, reject: (nat, nat) -> bool)
    requires n != 0
    ensures Chain(n, counted, bad, u, b, reject)
         == ThreeWay(1.0, u, b, Chain(n - 1, counted, bad, u, b, reject),
                     Chain(n - 1, counted + 1, bad + 1, u, b, reject),
                     Chain(n - 1, counted + 1, bad, u, b, reject))
  {
    hide ThreeWay;
  }

  /** The event "of the records drawn, N are counted and K of those are errors,
      and (N, K) is rejected", with N0 and K0 already seen. */
  ghost function CountEvent(use: Record -> bool, wrong: Record -> bool, reject: (nat, nat) -> bool,
                            n0: nat, k0: nat): seq<Record> -> bool
  {
    (s: seq<Record>) =>
      reject(n0 + Count(s, use), k0 + Count(s, Both(use, wrong)))
  }

  lemma CountEventSnoc(use: Record -> bool, wrong: Record -> bool, reject: (nat, nat) -> bool,
                       n0: nat, k0: nat, s: seq<Record>, r: Record)
    ensures var n1, k1 := n0 + (if use(r) then 1 else 0), k0 + (if use(r) && wrong(r) then 1 else 0);
      CountEvent(use, wrong, reject, n0, k0)(s + [r]) == CountEvent(use, wrong, reject, n1, k1)(s)
  {
    assert (s + [r])[..|s|] == s;
  }

  /** The counts of a drawn sample follow the three-way chain. */
  lemma {:induction false} CountsFollowChain(pop: seq<Weighted>, n: nat, use: Record -> bool,
                                             wrong: Record -> bool, reject: (nat, nat) -> bool,
                                             n0: nat, k0: nat)
    requires IsPopulation(pop)
    ensures Probability(pop, n, CountEvent(use, wrong, reject, n0, k0))
         == Chain(n, n0, k0, WeightOf(pop, use), WeightOf(pop, Both(use, wrong)), reject)
    decreases n, |pop| + 1
  {
    hide ThreeWay;
    if n == 0 {
      assert CountEvent(use, wrong, reject, n0, k0)([]) == reject(n0, k0);
    } else {
      hide Chain, FirstDrawFrom, WeightOf, CountEvent, TotalWeight;
      ChainPred(n, n0, k0, WeightOf(pop, use), WeightOf(pop, Both(use, wrong)), reject);
      CountsFirstDraw(pop, pop, n, use, wrong, reject, n0, k0);
    }
  }

  lemma AddShare(w: real, y: real, c0: real, c1: real, c2: real, t: real, u: real, b: real,
                 isUse: bool, isBad: bool)
    requires isBad ==> isUse
    requires y == if isBad then c1 else if isUse then c2 else c0
    ensures var u', b' := (if isUse then w else 0.0) + u, (if isBad then w else 0.0) + b;
      w * y + ThreeWay(t, u, b, c0, c1, c2) == ThreeWay(w + t, u', b', c0, c1, c2)
  {
  }

  lemma EmptyShares(pop: seq<Weighted>, n: nat, event: seq<Record> -> bool, use: Record -> bool,
                    bad: Record -> bool, c0: real, c1: real, c2: real)
    requires 0 < n
    ensures FirstDrawFrom([], pop, n, event)
         == ThreeWay(TotalWeight([]), WeightOf([], use), WeightOf([], bad), c0, c1, c2)
  {
  }

  lemma {:induction false} CountsFirstDraw(rest: seq<Weighted>, pop: seq<Weighted>, n: nat,
                                           use: Record -> bool, wrong: Record -> bool,
                                           reject: (nat, nat) -> bool, n0: nat, k0: nat)
    requires 0 < n && IsPopulation(pop)
    ensures var u, b := WeightOf(pop, use), WeightOf(pop, Both(use, wrong));
      FirstDrawFrom(rest, pop, n, CountEvent(use, wrong, reject, n0, k0))
      == ThreeWay(TotalWeight(rest), WeightOf(rest, use), WeightOf(rest, Both(use, wrong)),
                  Chain(n - 1, n0, k0, u, b, reject), Chain(n - 1, n0 + 1, k0 + 1, u, b, reject),
                  Chain(n - 1, n0 + 1, k0, u, b, reject))
    decreases n, |rest|
  {
    var bad := Both(use, wrong);
    var u, b := WeightOf(pop, use), WeightOf(pop, bad);
    hide Chain, Probability, Count, ThreeWay, WeightOf, TotalWeight, FirstDrawFrom, CountEvent;
    var event := CountEvent(use, wrong, reject, n0, k0);
    var c0, c1, c2 := Chain(n - 1, n0, k0, u, b, reject), Chain(n - 1, n0 + 1, k0 + 1, u, b, reject),
                      Chain(n - 1, n0 + 1, k0, u, b, reject);
    if rest == [] {
      EmptyShares(pop, n, event, use, bad, c0, c1, c2);
    } else {
      var r, tail := rest[0].rec, rest[1..];
      CountsFirstDraw(tail, pop, n, use, wrong, reject, n0, k0);
      CountsAfterDraw(pop, n, use, wrong, reject, n0, k0, r);
      AddShare(rest[0].weight, Probability(pop, n - 1, After(event, r)), c0, c1, c2, TotalWeight(tail),
               WeightOf(tail, use), WeightOf(tail, bad), use(r), bad(r));
      HeadShares(rest, use, bad);
      HeadDraw(rest, pop, n, event);
    }
  }

  lemma HeadShares(rest: seq<Weighted>, use: Record -> bool, bad: Record -> bool)
    requires rest != []
    ensures TotalWeight(rest) == rest[0].weight + TotalWeight(rest[1..])
    ensures WeightOf(rest, use) == (if use(rest[0].rec) then rest[0].weight else 0.0) + WeightOf(rest[1..], use)
    ensures WeightOf(rest, bad) == (if bad(rest[0].rec) then rest[0].weight else 0.0) + WeightOf(rest[1..], bad)
  {
  }

  lemma CountsAfterDraw(pop: seq<Weighted>, n: nat, use: Record -> bool, wrong: Record -> bool,
                        reject: (nat, nat) -> bool, n0: nat, k0: nat, r: Record)
    requires 0 < n && IsPopulation(pop)
    ensures var u, b := WeightOf(pop, use), WeightOf(pop, Both(use, wrong));
      Probability(pop, n - 1, After(CountEvent(use, wrong, reject, n0, k0), r))
      == if use(r) && wrong(r) then Chain(n - 1, n0 + 1, k0 + 1, u, b, reject)
         else if use(r) then Chain(n - 1, n0 + 1, k0, u, b, reject)
         else Chain(n - 1, n0, k0, u, b, reject)
    decreases n, 0
  {
    hide Chain, Probability, Count, WeightOf;
    var event := CountEvent(use, wrong, reject, n0, k0);
    var n1, k1 := n0 + (if use(r) then 1 else 0), k0 + (if use(r) && wrong(r) then 1 else 0);
    forall s: seq<Record>
      ensures After(event, r)(s) == CountEvent(use, wrong, reject, n1, k1)(s)
    {
      CountEventSnoc(use, wrong, reject, n0, k0, s, r);
    }
    SameEvents(pop, n - 1, After(event, r), CountEvent(use, wrong, reject, n1, k1));
    CountsFollowChain(pop, n - 1, use, wrong, reject, n1, k1);
  }

  lemma SameEvents(pop: seq<Weighted>, n: nat, e: seq<Record> -> bool, f: seq<Record> -> bool)
    requires NonNegative(pop) && forall s :: e(s) == f(s)
    ensures Probability(pop, n, e) == Probability(pop, n, f)
  {
    ProbabilityMonotone(pop, n, e, f);
    ProbabilityMonotone(pop, n, f, e);
  }

  // ------------------------------------------------------------ the binomial law

  ghost function Shift(h: nat -> real): nat -> real {
    (k: nat) => h(k + 1)
  }

  ghost function UpTo(c: int): nat -> real {
    (k: nat) => if k <= c then 1.0 else 0.0
  }

  ghost function RejectedAt(m: nat, reject: (nat, nat) -> bool): nat -> real {
    (k: nat) => if reject(m, k) then 1.0 else 0.0
  }

  ghost function ChainAt(n: nat, m: nat, u: real, b: real, reject: (nat, nat) -> bool): nat -> real {
    (k: nat) => Chain(n, m, k, u, b, reject)
  }

  /** Expectation of h(K) for K ~ Binomial(m, p). */
  ghost function Expect(m: nat, p: real, h: nat -> real): real {
    if m == 0 then h(0)
    else p * Expect(m - 1, p, Shift(h)) + (1.0 - p) * Expect(m - 1, p, h)
  }

  lemma ExpectPred(m: nat, p: real, h: nat -> real)
    ensures m == 0 ==> Expect(m, p, h) == h(0)
    ensures m != 0 ==> Expect(m, p, h) == p * Expect(m - 1, p, Shift(h)) + (1.0 - p) * Expect(m - 1, p, h)
  {
  }

  lemma {:induction false} ExpectMonotone(m: nat, p: real, g: nat -> real, h: nat -> real)
    requires 0.0 <= p <= 1.0 && forall k: nat :: k <= m ==> g(k) <= h(k)
    ensures Expect(m, p, g) <= Expect(m, p, h)
  {
    hide Expect;
    ExpectPred(m, p, g);
    ExpectPred(m, p, h);
    if m != 0 {
      ExpectMonotone(m - 1, p, Shift(g), Shift(h));
      ExpectMonotone(m - 1, p, g, h);
      MixMonotone(p, Expect(m - 1, p, Shift(g)), Expect(m - 1, p, g),
                  Expect(m - 1, p, Shift(h)), Expect(m - 1, p, h));
    }
  }

  lemma MixMonotone(p: real, x: real, y: real, x': real, y': real)
    requires 0.0 <= p <= 1.0 && x <= x' && y <= y'
    ensures p * x + (1.0 - p) * y <= p * x' + (1.0 - p) * y'
  {
    MulNonNegative(p, x' - x);
    MulNonNegative(1.0 - p, y' - y);
    assert p * x' + (1.0 - p) * y' - (p * x + (1.0 - p) * y) == p * (x' - x) + (1.0 - p) * (y' - y);
  }

  lemma CombineLinear(p: real, q: real, a: real, b: real, x: real, y: real, x': real, y': real)
    ensures p * (a * x + b * y) + q * (a * x' + b * y') == a * (p * x + q * x') + b * (p * y + q * y')
  {
  }

  lemma {:induction false} ExpectLinear(m: nat, p: real, a: real, g: nat -> real, b: real, h: nat -> real,
                                        f: nat -> real)
    requires forall k: nat :: f(k) == a * g(k) + b * h(k)
    ensures Expect(m, p, f) == a * Expect(m, p, g) + b * Expect(m, p, h)
  {
    hide Expect;
    ExpectPred(m, p, f);
    ExpectPred(m, p, g);
    ExpectPred(m, p, h);
    if m != 0 {
      var f', g', h' := Shift(f), Shift(g), Shift(h);
      ExpectLinear(m - 1, p, a, g', b, h', f');
      ExpectLinear(m - 1, p, a, g, b, h, f);
      CombineLinear(p, 1.0 - p, a, b, Expect(m - 1, p, g'), Expect(m - 1, p, h'),
                    Expect(m - 1, p, g), Expect(m - 1, p, h));
    }
  }

  /** P[K <= c], through the expectation of its indicator. */
  lemma {:induction false} ExpectOfTail(m: nat, p: real, c: int)
    ensures Expect(m, p, UpTo(c)) == Cdf(m, c, p)
    decreases m
  {
    hide Cdf, Expect;
    ExpectPred(m, p, UpTo(c));
    if m == 0 {
      if 0 <= c {
        CdfAll(0, c, p);
      } else {
        CdfBelowZero(0, c, p);
      }
    } else {
      CdfStep(m - 1, c, p);
      ExpectOfTail(m - 1, p, c);
      ExpectOfTail(m - 1, p, c - 1);
      SameExpectation(m - 1, p, Shift(UpTo(c)), UpTo(c - 1));
    }
  }

  lemma {:induction false} SameExpectation(m: nat, p: real, g: nat -> real, h: nat -> real)
    requires forall k: nat :: g(k) == h(k)
    ensures Expect(m, p, g) == Expect(m, p, h)
  {
    hide Expect;
    ExpectPred(m, p, g);
    ExpectPred(m, p, h);
    if m != 0 {
      SameExpectation(m - 1, p, Shift(g), Shift(h));
      SameExpectation(m - 1, p, g, h);
    }
  }

  /** Chance of rejection when m counted draws err independently at rate p and
      n further draws of the full stream are still to come. */
  ghost function Pending(n: nat, m: nat, p: real, u: real, b: real, reject: (nat, nat) -> bool): real {
    Expect(m, p, ChainAt(n, m, u, b, reject))
  }

  /** Conditioning on whether the next draw is counted. */
  lemma PendingStep(n: nat, m: nat, p: real, u: real, b: real, reject: (nat, nat) -> bool)
    requires b == u * p
    ensures Pending(n + 1, m, p, u, b, reject)
         == (1.0 - u) * Pending(n, m, p, u, b, reject) + u * Pending(n, m + 1, p, u, b, reject)
  {
    hide Expect, Chain, Mix, Shift;
    var skip, next := ChainAt(n, m, u, b, reject), ChainAt(n, m + 1, u, b, reject);
    var both, all := Mix(p, Shift(next), next), ChainAt(n + 1, m, u, b, reject);
    forall k: nat
      ensures all(k) == (1.0 - u) * skip(k) + u * both(k)
    {
      ChainStep(n, m, k, p, u, b, reject);
    }
    assert forall k: nat :: both(k) == p * Shift(next)(k) + (1.0 - p) * next(k) by {
      forall k: nat { MixAt(p, Shift(next), next, k); }
    }
    ExpectLinear(m, p, p, Shift(next), 1.0 - p, next, both);
    ExpectLinear(m, p, 1.0 - u, skip, u, both, all);
    ExpectPred(m + 1, p, next);
  }

  lemma MixAt(p: real, g: nat -> real, h: nat -> real, k: nat)
    ensures Mix(p, g, h)(k) == p * g(k) + (1.0 - p) * h(k)
  {
  }

  ghost function Mix(p: real, g: nat -> real, h: nat -> real): nat -> real {
    (k: nat) => p * g(k) + (1.0 - p) * h(k)
  }

  lemma ChainStep(n: nat, m: nat, k: nat, p: real, u: real, b: real, reject: (nat, nat) -> bool)
    requires b == u * p
    ensures var next := ChainAt(n, m + 1, u, b, reject);
      Chain(n + 1, m, k, u, b, reject)
      == (1.0 - u) * Chain(n, m, k, u, b, reject) + u * Mix(p, Shift(next), next)(k)
  {
    hide Chain;
    ChainPred(n + 1, m, k, u, b, reject);
    FactorShare(u, p, b, Chain(n, m, k, u, b, reject), Chain(n, m + 1, k + 1, u, b, reject),
                Chain(n, m + 1, k, u, b, reject));
    hide ThreeWay;
  }

  lemma FactorShare(u: real, p: real, b: real, z: real, x: real, y: real)
    requires b == u * p
    ensures ThreeWay(1.0, u, b, z, x, y) == (1.0 - u) * z + u * (p * x + (1.0 - p) * y)
  {
    assert u * (p * x + (1.0 - p) * y) == (u * p) * x + (u - u * p) * y;
  }

  lemma MixBelow(u: real, x: real, y: real, level: real, g: real, h: real)
    requires 0.0 <= u <= 1.0 && x <= level * g && y <= level * h
    ensures (1.0 - u) * x + u * y <= level * ((1.0 - u) * g + u * h)
  {
    MulNonNegative(1.0 - u, level * g - x);
    MulNonNegative(u, level * h - y);
    assert level * ((1.0 - u) * g + u * h) - ((1.0 - u) * x + u * y)
        == (1.0 - u) * (level * g - x) + u * (level * h - y);
  }

  /** "At least that many draws are counted." */
  ghost function Reaching(least: nat): (nat, nat) -> bool {
    (n: nat, k: nat) => least <= n
  }

  lemma {:induction false} ExpectOfConstant(m: nat, p: real, h: nat -> real, c: real)
    requires forall k: nat :: h(k) == c
    ensures Expect(m, p, h) == c
  {
    hide Expect;
    ExpectPred(m, p, h);
    if m != 0 {
      ExpectOfConstant(m - 1, p, Shift(h), c);
      ExpectOfConstant(m - 1, p, h, c);
      assert p * c + (1.0 - p) * c == c;
    }
  }

  lemma NoMoreDraws(m: nat, p: real, u: real, b: real, reject: (nat, nat) -> bool, level: real, least: nat)
    requires least <= m ==> Expect(m, p, RejectedAt(m, reject)) <= level
    requires forall j: nat, k: nat :: reject(j, k) ==> least <= j
    ensures Pending(0, m, p, u, b, reject) <= level * Pending(0, m, p, u, b, Reaching(least))
  {
    hide Expect;
    var all := ChainAt(0, m, u, b, Reaching(least));
    if least <= m {
      SameExpectation(m, p, ChainAt(0, m, u, b, reject), RejectedAt(m, reject));
      ExpectOfConstant(m, p, all, 1.0);
    } else {
      ExpectOfConstant(m, p, ChainAt(0, m, u, b, reject), 0.0);
      ExpectOfConstant(m, p, all, 0.0);
    }
  }

  /** If the rejection chance is at most level for every fixed number of counted
      draws from least on, then with that number random it is at most level times
      the chance that least draws are counted. */
  lemma {:induction false} RandomSampleSize(n: nat, m: nat, p: real, u: real, b: real,
                                            reject: (nat, nat) -> bool, level: real, least: nat)
    requires 0.0 <= u <= 1.0 && 0.0 <= p <= 1.0 && b == u * p
    requires forall j: nat :: m <= j <= m + n && least <= j ==>
      Expect(j, p, RejectedAt(j, reject)) <= level
    requires forall j: nat, k: nat :: reject(j, k) ==> least <= j
    ensures Pending(n, m, p, u, b, reject) <= level * Pending(n, m, p, u, b, Reaching(least))
    decreases n
  {
    var gate := Reaching(least);
    if n == 0 {
      hide Expect;
      NoMoreDraws(m, p, u, b, reject, level, least);
    } else {
      hide Pending, Expect, RejectedAt, Reaching;
      PendingStep(n - 1, m, p, u, b, reject);
      PendingStep(n - 1, m, p, u, b, gate);
      RandomSampleSize(n - 1, m, p, u, b, reject, level, least);
      RandomSampleSize(n - 1, m + 1, p, u, b, reject, level, least);
      MixBelow(u, Pending(n - 1, m, p, u, b, reject), Pending(n - 1, m + 1, p, u, b, reject), level,
               Pending(n - 1, m, p, u, b, gate), Pending(n - 1, m + 1, p, u, b, gate));
    }
  }

  /** When every draw is counted the chain is the binomial law itself. */
  lemma {:induction false} EveryDrawCounted(n: nat, m: nat, k: nat, p: real, reject: (nat, nat) -> bool,
                                            h: nat -> real)
    requires forall j: nat :: h(j) == if reject(m + n, k + j) then 1.0 else 0.0
    ensures Chain(n, m, k, 1.0, p, reject) == Expect(n, p, h)
    decreases n
  {
    hide Chain, Expect;
    ExpectPred(n, p, h);
    if n == 0 {
      ChainEnds(m, k, p, reject);
    } else {
      ChainPred(n, m, k, 1.0, p, reject);
      EveryDrawCounted(n - 1, m + 1, k + 1, p, reject, Shift(h));
      EveryDrawCounted(n - 1, m + 1, k, p, reject, h);
    }
  }

  lemma ChainEnds(m: nat, k: nat, p: real, reject: (nat, nat) -> bool)
    ensures Chain(0, m, k, 1.0, p, reject) == if reject(m, k) then 1.0 else 0.0
  {
  }

  ghost function AtMost(c: nat): (nat, nat) -> bool {
    (n: nat, k: nat) => k <= c
  }

  /** When every draw is counted, the chance of at most c errors is the binomial
      tail. */
  lemma ErrorsFollowBinomial(pop: seq<Weighted>, n: nat, use: Record -> bool, wrong: Record -> bool, c: nat)
    requires IsPopulation(pop) && WeightOf(pop, use) == 1.0
    ensures Probability(pop, n, CountEvent(use, wrong, AtMost(c), 0, 0))
         == Cdf(n, c, WeightOf(pop, Both(use, wrong)))
  {
    hide Probability, Chain, Expect, WeightOf;
    var w := WeightOf(pop, Both(use, wrong));
    CountsFollowChain(pop, n, use, wrong, AtMost(c), 0, 0);
    EveryDrawCounted(n, 0, 0, w, AtMost(c), UpTo(c));
    ExpectOfTail(n, w, c);
  }
}
