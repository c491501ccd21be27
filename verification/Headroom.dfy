/** results/headroom_theorem.py: what raising a tier's fan-out can buy. A tier of
    n samples accepts an answer it reproduces with per-sample probability p when
    at least k of the n samples agree. */
module Headroom {
  import opened Powers
  import opened Binomial

  /** binom_ge: the sum of the mass at k..n. */
  function AtLeast(n: nat, p: real, k: nat): real
    decreases n + 1 - k
  {
    if n < k then 0.0 else Pmf(n, k, p) + AtLeast(n, p, k + 1)
  }

  /** Accepting the correct answer minus accepting the wrong one. */
  function Gap(n: nat, pCorrect: real, pWrong: real, k: nat): real {
    AtLeast(n, pCorrect, k) - AtLeast(n, pWrong, k)
  }

  /** The largest gap over the cluster sizes 1..n, and the first size reaching it. */
  ghost predicate IsBestSize(n: nat, pc: real, pw: real, best: nat) {
    && 1 <= best <= n
    && (forall k :: 1 <= k <= n ==> Gap(n, pc, pw, k) <= Gap(n, pc, pw, best))
    && (forall k :: 1 <= k < best ==> Gap(n, pc, pw, k) < Gap(n, pc, pw, best))
  }

  method BinomGe(n: nat, p: real, k: nat) returns (sum: real)
    ensures sum == AtLeast(n, p, k)
  {
    sum := 0.0;
    if k <= n {
      for j := k to n + 1
        invariant sum + AtLeast(n, p, j) == AtLeast(n, p, k)
      {
        sum := sum + Pmf(n, j, p);
      }
    }
  }

  /** best_discrimination: None at fan-out 0, where no size is achievable. */
  method BestDiscrimination(n: nat, pCorrect: real, pWrong: real) returns (best: nat, gap: real)
    ensures n == 0 <==> best == 0
    ensures 1 <= n ==> IsBestSize(n, pCorrect, pWrong, best) && gap == Gap(n, pCorrect, pWrong, best)
  {
    best, gap := 0, 0.0;
    for k := 1 to n + 1
      invariant k == 1 <==> best == 0
      invariant k != 1 ==> 1 <= best < k && gap == Gap(n, pCorrect, pWrong, best)
      invariant forall j :: 1 <= j < k ==> Gap(n, pCorrect, pWrong, j) <= gap
      invariant forall j :: 1 <= j < best ==> Gap(n, pCorrect, pWrong, j) < gap
    {
      hide AtLeast;
      var right := BinomGe(n, pCorrect, k);
      var wrong := BinomGe(n, pWrong, k);
      if best == 0 || right - wrong > gap {
        best, gap := k, right - wrong;
      }
    }
  }

  // ------------------------------------------------------------ tails

  /** The script's upper sum is the complement of the lower tail. */
  lemma {:induction false} AtLeastIsComplement(n: nat, p: real, k: nat)
    ensures AtLeast(n, p, k) == 1.0 - Cdf(n, k - 1, p)
    decreases n + 1 - k
  {
    hide Pmf;
    if n < k {
      CdfAll(n, k - 1, p);
    } else {
      AtLeastIsComplement(n, p, k + 1);
    }
  }

  lemma AtLeastMonotone(n: nat, p: real, q: real, k: nat)
    requires 0.0 <= p <= q <= 1.0
    ensures 0.0 <= AtLeast(n, p, k) <= AtLeast(n, q, k) <= 1.0
  {
    hide AtLeast, Cdf;
    AtLeastIsComplement(n, p, k);
    AtLeastIsComplement(n, q, k);
    CdfAntitoneInRate(n, k - 1, p, q);
    CdfAtMostOne(n, k - 1, p);
    CdfAtMostOne(n, k - 1, q);
  }

  /** (k/n) P[X_n = k] == p P[X_{n-1} = k-1]. */
  lemma PmfAbsorption(n: nat, k: nat, p: real)
    requires 1 <= k <= n
    ensures k as real * Pmf(n, k, p) == n as real * (p * Pmf(n - 1, k - 1, p))
  {
    hide Pow, Choose;
    ChooseAbsorption(n, k);
    PowPred(p, k);
    var c, d := Choose(n, k), Choose(n - 1, k - 1);
    assert k as real * c as real == n as real * d as real by {
      assert (k * c) as real == (n * d) as real;
    }
    Rescale(k as real, n as real, c as real, d as real, p, Pow(p, k - 1), Pow(1.0 - p, n - k));
  }

  lemma Rescale(k: real, n: real, c: real, d: real, p: real, x: real, y: real)
    requires k * c == n * d
    ensures k * (c * ((p * x) * y)) == n * (p * (d * (x * y)))
  {
    calc {
      k * (c * ((p * x) * y));
      (k * c) * (p * (x * y));
      (n * d) * (p * (x * y));
      n * (p * (d * (x * y)));
    }
  }

  /** Dropping one of n samples at random: the tail at n-1 mixes the two
      neighbouring tails at n. */
  lemma TailMixes(n: nat, k: nat, p: real)
    requires 1 <= k <= n
    ensures n as real * AtLeast(n - 1, p, k)
         == (n - k) as real * AtLeast(n, p, k) + k as real * AtLeast(n, p, k + 1)
  {
    hide Pmf, Cdf;
    AtLeastIsComplement(n, p, k);
    AtLeastIsComplement(n - 1, p, k);
    CdfStep(n - 1, k - 1, p);
    PmfAbsorption(n, k, p);
    CdfHead(n - 1, k - 1, p);
    MixTails(n as real, k as real, p, Pmf(n, k, p), Pmf(n - 1, k - 1, p), Cdf(n - 1, k - 2, p),
             Cdf(n - 1, k - 1, p), AtLeast(n, p, k), AtLeast(n, p, k + 1), AtLeast(n - 1, p, k));
    assert (n - k) as real == n as real - k as real;
  }

  lemma CdfHead(n: nat, k: nat, p: real)
    ensures Cdf(n, k, p) == Cdf(n, k - 1, p) + Pmf(n, k, p)
  {
    hide Pmf;
  }

  lemma MixTails(n: real, k: real, p: real, m: real, m': real, c0: real, c1: real, s: real, s1: real, s': real)
    requires k * m == n * (p * m') && c1 == c0 + m'
    requires s == 1.0 - (p * c0 + (1.0 - p) * c1) && s == m + s1 && s' == 1.0 - c1
    ensures n * s' == (n - k) * s + k * s1
  {
    assert s == s' + p * m';
    assert (n - k) * s + k * s1 == n * s - k * m;
    assert n * s == n * s' + n * (p * m');
  }

  // ------------------------------------------------------------ the theorem

  lemma GapMixes(n: nat, k: nat, pc: real, pw: real)
    requires 1 <= k <= n
    ensures n as real * Gap(n - 1, pc, pw, k)
         == (n - k) as real * Gap(n, pc, pw, k) + k as real * Gap(n, pc, pw, k + 1)
  {
    hide AtLeast;
    TailMixes(n, k, pc);
    TailMixes(n, k, pw);
    Distribute(n as real, AtLeast(n - 1, pc, k), AtLeast(n - 1, pw, k));
    Distribute((n - k) as real, AtLeast(n, pc, k), AtLeast(n, pw, k));
    Distribute(k as real, AtLeast(n, pc, k + 1), AtLeast(n, pw, k + 1));
  }

  lemma Distribute(a: real, x: real, y: real)
    ensures a * (x - y) == a * x - a * y
  {
  }

  lemma AverageBelowMax(n: real, k: real, g: real, x: real, y: real, top: real)
    requires 0.0 < n && 0.0 <= k <= n && n * g == (n - k) * x + k * y && x <= top && y <= top
    ensures g <= top
  {
    MulNonNegative(n - k, top - x);
    MulNonNegative(k, top - y);
    assert n * (top - g) == (n - k) * (top - x) + k * (top - y);
    SignOfProduct(n, top - g);
  }

  /** Fan-out never loses headroom: the best gap at n+1 samples is at least the
      best gap at n, for every pair of per-sample probabilities. */
  lemma HeadroomNeverShrinks(n: nat, pc: real, pw: real, best: nat, best': nat)
    requires IsBestSize(n, pc, pw, best) && IsBestSize(n + 1, pc, pw, best')
    ensures Gap(n, pc, pw, best) <= Gap(n + 1, pc, pw, best')
  {
    hide Gap;
    GapMixes(n + 1, best, pc, pw);
    AverageBelowMax((n + 1) as real, best as real, Gap(n, pc, pw, best), Gap(n + 1, pc, pw, best),
                    Gap(n + 1, pc, pw, best + 1), Gap(n + 1, pc, pw, best'));
  }

  /** The best gap is attained somewhere at every positive fan-out. */
  lemma {:induction false} BestSizeExists(n: nat, pc: real, pw: real, top: nat) returns (best: nat)
    requires 1 <= top <= n
    ensures 1 <= best <= top
    ensures forall k :: 1 <= k <= top ==> Gap(n, pc, pw, k) <= Gap(n, pc, pw, best)
    ensures forall k :: 1 <= k < best ==> Gap(n, pc, pw, k) < Gap(n, pc, pw, best)
  {
    hide Gap;
    best := 1;
    if top != 1 {
      best := BestSizeExists(n, pc, pw, top - 1);
      if Gap(n, pc, pw, best) < Gap(n, pc, pw, top) {
        best := top;
      }
    }
  }

  /** Over any number of added samples. */
  lemma {:induction false} HeadroomMonotone(n: nat, m: nat, pc: real, pw: real, best: nat, best': nat)
    requires n <= m && IsBestSize(n, pc, pw, best) && IsBestSize(m, pc, pw, best')
    ensures Gap(n, pc, pw, best) <= Gap(m, pc, pw, best')
    decreases m
  {
    hide Gap;
    if n < m {
      var between := BestSizeExists(m - 1, pc, pw, m - 1);
      HeadroomMonotone(n, m - 1, pc, pw, best, between);
      HeadroomNeverShrinks(m - 1, pc, pw, between, best');
    } else {
      assert Gap(n, pc, pw, best) <= Gap(n, pc, pw, best');
    }
  }

  /** A wrong answer reproduced as reliably as the right one leaves no headroom
      at any fan-out, and a less reliable one leaves a non-negative amount. */
  lemma ConfidentErrorLeavesNoHeadroom(n: nat, pc: real, pw: real, best: nat)
    requires IsBestSize(n, pc, pw, best) && 0.0 <= pw <= pc <= 1.0
    ensures 0.0 <= Gap(n, pc, pw, best) <= 1.0
    ensures pw == pc ==> Gap(n, pc, pw, best) == 0.0
  {
    hide AtLeast;
    AtLeastMonotone(n, pw, pc, best);
  }

  /** A strictly flakier wrong answer always leaves some headroom. */
  lemma FlakyErrorLeavesHeadroom(n: nat, pc: real, pw: real, best: nat)
    requires IsBestSize(n, pc, pw, best) && 0.0 <= pw < pc <= 1.0
    ensures pc - pw <= Gap(n, pc, pw, best)
  {
    assert IsBestSize(1, pc, pw, 1);
    HeadroomMonotone(1, n, pc, pw, 1, best);
    SingleSample(pc);
    SingleSample(pw);
  }

  lemma SingleSample(p: real)
    ensures AtLeast(1, p, 1) == p
  {
    AtLeastIsComplement(1, p, 1);
    assert Cdf(1, 0, p) == Cdf(1, -1, p) + Pmf(1, 0, p);
    assert Pow(1.0 - p, 1) == (1.0 - p) * Pow(1.0 - p, 0);
    assert Choose(1, 0) == 1;
  }

  // ------------------------------------------------------------ when it widens

  /** The chance of one arrangement of k agreements among m samples. */
  function Weight(m: nat, k: nat, p: real): real
    requires k <= m
  {
    Pow(p, k) * Pow(1.0 - p, m - k)
  }

  /** The right and the wrong answer are equally likely to be reproduced exactly
      k times in m samples. */
  predicate Tied(m: nat, k: nat, pc: real, pw: real)
    requires k <= m
  {
    Weight(m, k, pc) == Weight(m, k, pw)
  }

  predicate Leads(m: nat, k: nat, p: real, q: real)
    requires k <= m
  {
    Weight(m, k, q) <= Weight(m, k, p)
  }

  lemma {:induction false} ChoosePositive(n: nat, k: nat)
    requires k <= n
    ensures 0 < Choose(n, k)
  {
    if k != 0 {
      ChoosePositive(n - 1, k - 1);
    }
  }

  lemma PmfIsWeight(m: nat, k: nat, p: real)
    requires k <= m
    ensures Pmf(m, k, p) == Choose(m, k) as real * Weight(m, k, p)
  {
  }

  lemma GapStep(m: nat, k: nat, pc: real, pw: real)
    requires k <= m
    ensures Gap(m, pc, pw, k) - Gap(m, pc, pw, k + 1)
         == Choose(m, k) as real * (Weight(m, k, pc) - Weight(m, k, pw))
  {
    hide Pmf, Weight, Choose;
    PmfIsWeight(m, k, pc);
    PmfIsWeight(m, k, pw);
    Distribute(Choose(m, k) as real, Weight(m, k, pc), Weight(m, k, pw));
  }

  /** Which way the gap moves at k is which answer has more weight there. */
  lemma GapMoves(m: nat, k: nat, pc: real, pw: real)
    requires k <= m
    ensures Gap(m, pc, pw, k + 1) <= Gap(m, pc, pw, k) <==> Leads(m, k, pc, pw)
    ensures Gap(m, pc, pw, k + 1) == Gap(m, pc, pw, k) <==> Tied(m, k, pc, pw)
  {
    hide Gap, Weight, Choose;
    ChoosePositive(m, k);
    GapStep(m, k, pc, pw);
    SameSign(Choose(m, k) as real, Weight(m, k, pc), Weight(m, k, pw), Gap(m, pc, pw, k), Gap(m, pc, pw, k + 1));
  }

  lemma SameSign(d: real, x: real, y: real, u: real, v: real)
    requires 0.0 < d && u - v == d * (x - y)
    ensures v <= u <==> y <= x
    ensures v == u <==> x == y
  {
    SignOfProduct(d, x - y);
    SignOfProduct(d, y - x);
    assert v - u == d * (y - x);
  }

  lemma WeightNonNegative(m: nat, k: nat, p: real)
    requires k <= m && 0.0 <= p <= 1.0
    ensures 0.0 <= Weight(m, k, p)
  {
    PowNonNegative(p, k);
    PowNonNegative(1.0 - p, m - k);
    MulNonNegative(Pow(p, k), Pow(1.0 - p, m - k));
  }

  lemma WeightRatio(m: nat, k: nat, p: real)
    requires k < m
    ensures Weight(m, k + 1, p) * (1.0 - p) == Weight(m, k, p) * p
  {
    hide Pow;
    PowStep(p, k);
    PowStep(1.0 - p, m - (k + 1));
    Reorder(p, 1.0 - p, Pow(p, k), Pow(1.0 - p, m - (k + 1)));
  }

  lemma Reorder(p: real, q: real, a: real, b: real)
    ensures ((p * a) * b) * q == (a * (q * b)) * p
  {
  }

  /** u and u' are one step apart in odds a against a', v and v' in the smaller
      odds b against b'. */
  lemma RatioUp(u: real, u': real, v: real, v': real, a: real, a': real, b: real, b': real)
    requires u' * a' == u * a && v' * b' == v * b
    requires 0.0 <= v <= u && 0.0 <= b <= a && 0.0 <= a' <= b' && 0.0 < b' && 0.0 <= u'
    ensures v' <= u'
  {
    MulLe(v, u, b, a);
    MulLe(u', u', a', b');
    DividePositive(b', v', u');
  }

  lemma DividePositive(c: real, x: real, y: real)
    requires 0.0 < c && x * c <= y * c
    ensures x <= y
  {
    SignOfProduct(c, y - x);
    assert c * (y - x) == y * c - x * c;
  }

  /** The likelihood ratio grows with k: where the right answer leads it leads on
      from there, and where it trails it has trailed until there. */
  lemma LeadsNext(m: nat, k: nat, pc: real, pw: real)
    requires k < m && 0.0 <= pw < pc <= 1.0
    ensures Leads(m, k, pc, pw) ==> Leads(m, k + 1, pc, pw)
    ensures Leads(m, k + 1, pw, pc) ==> Leads(m, k, pw, pc)
  {
    hide Weight;
    WeightRatio(m, k, pc);
    WeightRatio(m, k, pw);
    WeightNonNegative(m, k, pc);
    WeightNonNegative(m, k, pw);
    WeightNonNegative(m, k + 1, pc);
    WeightNonNegative(m, k + 1, pw);
    var (u, u') := (Weight(m, k, pc), Weight(m, k + 1, pc));
    var (v, v') := (Weight(m, k, pw), Weight(m, k + 1, pw));
    if Leads(m, k, pc, pw) {
      RatioUp(u, u', v, v', pc, 1.0 - pc, pw, 1.0 - pw);
    }
    if Leads(m, k + 1, pw, pc) {
      RatioUp(v', v, u', u, 1.0 - pw, pw, 1.0 - pc, pc);
    }
  }

  /** So a tied size has the largest gap of all. */
  lemma {:induction false} TiedIsBestAbove(m: nat, k: nat, j: nat, pc: real, pw: real)
    requires k <= j <= m && Tied(m, k, pc, pw) && 0.0 <= pw < pc <= 1.0
    ensures Leads(m, j, pc, pw) && Gap(m, pc, pw, j) <= Gap(m, pc, pw, k)
    decreases j
  {
    hide Gap, Weight;
    if k < j {
      TiedIsBestAbove(m, k, j - 1, pc, pw);
      LeadsNext(m, j - 1, pc, pw);
      GapMoves(m, j - 1, pc, pw);
    }
  }

  lemma {:induction false} TiedIsBestBelow(m: nat, k: nat, j: nat, pc: real, pw: real)
    requires j <= k <= m && Tied(m, k, pc, pw) && 0.0 <= pw < pc <= 1.0
    ensures Leads(m, j, pw, pc) && Gap(m, pc, pw, j) <= Gap(m, pc, pw, k)
    decreases k - j
  {
    hide Gap, Weight;
    if j < k {
      TiedIsBestBelow(m, k, j + 1, pc, pw);
      LeadsNext(m, j, pc, pw);
      GapMoves(m, j, pc, pw);
      LeadsTotal(m, j, pc, pw);
    }
  }

  lemma LeadsTotal(m: nat, k: nat, pc: real, pw: real)
    requires k <= m
    ensures Leads(m, k, pw, pc) ==> Tied(m, k, pc, pw) || !Leads(m, k, pc, pw)
  {
    hide Weight;
  }

  lemma AverageAtMax(n: real, k: real, g: real, x: real, y: real)
    requires 0.0 < k < n && n * g == (n - k) * x + k * y && x <= g && y <= g
    ensures x == g && y == g
  {
    SpreadAround(n, k, g, x, y);
    ZeroTerms(n - k, k, g - x, g - y);
  }

  lemma ZeroTerms(a: real, b: real, x: real, y: real)
    requires 0.0 < a && 0.0 < b && 0.0 <= x && 0.0 <= y && a * x + b * y == 0.0
    ensures x == 0.0 && y == 0.0
  {
    MulNonNegative(a, x);
    MulNonNegative(b, y);
    SignOfProduct(a, x);
    SignOfProduct(b, y);
  }

  lemma SpreadAround(n: real, k: real, g: real, x: real, y: real)
    ensures (n - k) * (g - x) + k * (g - y) == n * g - ((n - k) * x + k * y)
  {
  }

  lemma AverageOfEquals(n: real, k: real, g: real, x: real, y: real)
    requires 0.0 < n && n * g == (n - k) * x + k * y && x == y
    ensures g == x
  {
    assert n * (g - x) == 0.0;
    SignOfProduct(n, g - x);
    SignOfProduct(n, x - g);
  }

  /** Some k of 1..m-1 is tied. */
  ghost predicate SomeTie(m: nat, pc: real, pw: real) {
    exists k: nat :: 1 <= k < m && Tied(m, k, pc, pw)
  }

  lemma EqualGapsTie(n: nat, pc: real, pw: real, best: nat, best': nat)
    requires IsBestSize(n, pc, pw, best) && IsBestSize(n + 1, pc, pw, best')
    requires Gap(n, pc, pw, best) == Gap(n + 1, pc, pw, best')
    ensures SomeTie(n + 1, pc, pw)
  {
    hide Gap, Tied, Weight;
    GapMixes(n + 1, best, pc, pw);
    AverageAtMax((n + 1) as real, best as real, Gap(n, pc, pw, best), Gap(n + 1, pc, pw, best),
                 Gap(n + 1, pc, pw, best + 1));
    GapMoves(n + 1, best, pc, pw);
  }

  lemma TieMakesEqual(n: nat, pc: real, pw: real, best: nat, best': nat, k: nat)
    requires IsBestSize(n, pc, pw, best) && IsBestSize(n + 1, pc, pw, best') && 0.0 <= pw < pc <= 1.0
    requires 1 <= k <= n && Tied(n + 1, k, pc, pw)
    ensures Gap(n, pc, pw, best) == Gap(n + 1, pc, pw, best')
  {
    hide Gap, Tied, Weight, Leads;
    if k <= best' {
      TiedIsBestAbove(n + 1, k, best', pc, pw);
    } else {
      TiedIsBestBelow(n + 1, k, best', pc, pw);
    }
    GapMoves(n + 1, k, pc, pw);
    GapMixes(n + 1, k, pc, pw);
    AverageOfEquals((n + 1) as real, k as real, Gap(n, pc, pw, k), Gap(n + 1, pc, pw, k), Gap(n + 1, pc, pw, k + 1));
    HeadroomNeverShrinks(n, pc, pw, best, best');
  }

  /** One more sample widens the best gap, except exactly when the two answers are
      equally likely to be reproduced some k of n + 1 times, 1 <= k <= n. */
  lemma WidensExactlyWhen(n: nat, pc: real, pw: real, best: nat, best': nat)
    requires IsBestSize(n, pc, pw, best) && IsBestSize(n + 1, pc, pw, best') && 0.0 <= pw <= pc <= 1.0
    ensures Gap(n, pc, pw, best) < Gap(n + 1, pc, pw, best') <==> !SomeTie(n + 1, pc, pw)
  {
    hide Gap, Weight;
    HeadroomNeverShrinks(n, pc, pw, best, best');
    if Gap(n, pc, pw, best) == Gap(n + 1, pc, pw, best') {
      EqualGapsTie(n, pc, pw, best, best');
    } else if pc == pw {
      ConfidentErrorLeavesNoHeadroom(n, pc, pw, best);
      ConfidentErrorLeavesNoHeadroom(n + 1, pc, pw, best');
    } else if SomeTie(n + 1, pc, pw) {
      var k: nat :| 1 <= k < n + 1 && Tied(n + 1, k, pc, pw);
      TieMakesEqual(n, pc, pw, best, best', k);
    }
  }

  /** A pair symmetric about one half, 0.9 against 0.1 say, ties half way, so an
      even fan-out is no better than the odd one before it. */
  lemma SymmetricPairsStall(h: nat, p: real, best: nat, best': nat)
    requires 1 <= h && 0.5 <= p <= 1.0
    requires IsBestSize(2 * h - 1, p, 1.0 - p, best) && IsBestSize(2 * h, p, 1.0 - p, best')
    ensures Gap(2 * h - 1, p, 1.0 - p, best) == Gap(2 * h, p, 1.0 - p, best')
  {
    hide Gap, IsBestSize;
    assert Tied(2 * h - 1 + 1, h, p, 1.0 - p) by {
      assert 1.0 - (1.0 - p) == p;
    }
    WidensExactlyWhen(2 * h - 1, p, 1.0 - p, best, best');
    HeadroomNeverShrinks(2 * h - 1, p, 1.0 - p, best, best');
  }

  /** The best gap of 0.9 against 0.1 is 0.8 at one sample and still 0.8 at two. */
  lemma HeadroomNeedNotWiden(best: nat, best': nat)
    requires IsBestSize(1, 0.9, 0.1, best) && IsBestSize(2, 0.9, 0.1, best')
    ensures Gap(1, 0.9, 0.1, best) == Gap(2, 0.9, 0.1, best') == 0.8
  {
    SymmetricPairsStall(1, 0.9, best, best');
    SingleSample(0.9);
    SingleSample(0.1);
    assert best == 1;
  }
}
