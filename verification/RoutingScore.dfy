/** internal/cluster/cluster.go and internal/config/config.go: what the routing
    score can and cannot attain, and the checks built on that. */
module RoutingScore {
  import opened Powers
  import opened Wilson

  /** z^2 t (1 - t): the squared margin one sample's worth of evidence must clear. */
  function Price(t: real): real {
    Z2 * t * (1.0 - t)
  }

  /** The cut with the division cleared. */
  predicate Clears(k: real, n: real, t: real) {
    n * t < k && n * Price(t) <= (k - n * t) * (k - n * t)
  }

  lemma CutForm(k: nat, n: nat, t: real)
    requires 0 < n && 0.0 < t
    ensures Reaches(k, n, t)
       <==> Clears(k as real, n as real, t)
  {
    var p, fn := Share(k, n), n as real;
    assert p * fn == k as real;
    OrderScaled(t, p, fn);
    var y := k as real - fn * t;
    assert y == fn * (p - t);
    assert FarBelow(fn, p, t) <==> Price(t) <= fn * (p - t) * (p - t);
    hide FarBelow, Price;
    MarginScaled(fn, Price(t), p - t);
    SquareScaled(fn, p - t, y);
  }

  lemma SquareScaled(n: real, x: real, y: real)
    requires y == n * x
    ensures n * (n * x * x) == y * y
  {
    assert n * (n * x * x) == (n * x) * (n * x);
  }

  lemma OrderScaled(x: real, y: real, n: real)
    requires 0.0 < n
    ensures x < y <==> n * x < y * n
  {
    if x < y {
      Scaled(n, x, y);
    } else {
      ScaleLe(n, y, x);
    }
  }

  lemma MarginScaled(n: real, price: real, x: real)
    requires 0.0 < n
    ensures price <= n * x * x <==> n * price <= n * (n * x * x)
  {
    var m := n * x * x;
    if price <= m {
      ScaleLe(n, price, m);
    } else {
      Scaled(n, m, price);
    }
  }

  lemma SquareGrows(x: real, y: real)
    requires 0.0 <= x <= y
    ensures x * x <= y * y
  {
    MulLe(x, y, x, y);
  }

  lemma PriceSign(t: real)
    requires 0.0 < t < 1.0
    ensures 0.0 < Price(t)
  {
    Positive(t, 1.0 - t);
    assert Price(t) == Z2 * (t * (1.0 - t));
    Positive(Z2, t * (1.0 - t));
  }

  lemma ReachedBelowOne(k: nat, n: nat, t: real)
    requires k <= n && Reaches(k, n, t)
    ensures t < 1.0
  {
    if 0.0 < t {
      ShareInUnit(k, n);
    }
  }

  // ------------------------------------------------------------ monotone in evidence

  /** A larger verified class never scores lower. */
  lemma MoreAgreementScoresMore(k: nat, k': nat, n: nat, t: real)
    requires k <= k' <= n && Reaches(k, n, t)
    ensures Reaches(k', n, t)
  {
    hide Reaches, Clears;
    if 0.0 < t && 0 < n {
      CutForm(k, n, t);
      CutForm(k', n, t);
      ClearsMore(k as real, k' as real, n as real, t);
    } else {
      NoEvidence(k, n, t);
      NoEvidence(k', n, t);
    }
  }

  lemma ClearsMore(k: real, k': real, n: real, t: real)
    requires k <= k' && Clears(k, n, t)
    ensures Clears(k', n, t)
  {
    hide Price;
    SquareGrows(k - n * t, k' - n * t);
  }

  lemma NoEvidence(k: nat, n: nat, t: real)
    requires t <= 0.0 || n == 0
    ensures Reaches(k, n, t) <==> t <= 0.0
  {
  }

  /** One more dissenting sample never raises the score. */
  lemma DissentScoresLess(k: nat, n: nat, t: real)
    requires 0 < n && k <= n && Reaches(k, n + 1, t)
    ensures Reaches(k, n, t)
  {
    if 0.0 < t {
      ReachedBelowOne(k, n + 1, t);
      hide Reaches, Clears;
      CutForm(k, n + 1, t);
      CutForm(k, n, t);
      ClearsWithoutDissent(k as real, n as real, t);
    }
  }

  lemma ClearsWithoutDissent(k: real, n: real, t: real)
    requires 0.0 < t < 1.0 && Clears(k, n + 1.0, t)
    ensures Clears(k, n, t)
  {
    PriceSign(t);
    hide Price;
    var y := k - n * t;
    assert (n + 1.0) * t == n * t + t;
    SquareGrows(y - t, y);
    assert (n + 1.0) * Price(t) == n * Price(t) + Price(t);
  }

  /** The same share from m times the samples is stronger evidence. */
  lemma MoreSamplesScoreMore(k: nat, n: nat, m: nat, t: real)
    requires 0 < n && 0 < m && k <= n && Reaches(k, n, t)
    ensures Reaches(m * k, m * n, t)
  {
    hide Reaches;
    MulPositive(m, n);
    Product(m, k);
    Product(m, n);
    ReachScaled(k, n, m as real, m * k, m * n, t);
  }

  lemma ReachScaled(k: nat, n: nat, m: real, mk: nat, mn: nat, t: real)
    requires 0 < n && 0 < mn && 1.0 <= m && Reaches(k, n, t)
    requires mk as real == m * k as real && mn as real == m * n as real
    ensures Reaches(mk, mn, t)
  {
    if 0.0 < t {
      hide Reaches, Clears;
      CutForm(k, n, t);
      CutForm(mk, mn, t);
      ClearsScaled(m, k as real, n as real, mk as real, mn as real, t);
    }
  }

  lemma ClearsScaled(m: real, k: real, n: real, mk: real, mn: real, t: real)
    requires 1.0 <= m && Clears(k, n, t) && mk == m * k && mn == m * n
    ensures Clears(mk, mn, t)
  {
    hide Price;
    var y := k - n * t;
    Positive(m, y);
    MoreMargin(m, n * Price(t), y);
    ScaledParts(m, k, n, t, Price(t));
  }

  lemma ScaledParts(m: real, k: real, n: real, t: real, price: real)
    ensures m * k - (m * n) * t == m * (k - n * t)
    ensures (m * n) * price == m * (n * price)
  {
  }

  lemma MulPositive(m: nat, n: nat)
    requires 0 < m && 0 < n
    ensures 0 < m * n
  {
  }

  lemma Product(m: nat, n: nat)
    ensures (m * n) as real == m as real * n as real
  {
  }

  lemma MoreMargin(m: real, price: real, y: real)
    requires 1.0 <= m && price <= y * y
    ensures m * price <= (m * y) * (m * y)
  {
    SquareGrows(0.0, if y < 0.0 then -y else y);
    ScaleLe(m, price, y * y);
    MulNonNegative(y * y, m - 1.0);
    MulNonNegative(m, y * y * (m - 1.0));
    assert (m * y) * (m * y) - m * (y * y) == m * (y * y * (m - 1.0));
  }

  /** The score is strictly below the raw share it bounds, unless both are 0. */
  lemma BelowTheShare(k: nat, n: nat)
    requires 0 < k <= n
    ensures !Reaches(k, n, Share(k, n))
  {
    ShareInUnit(k, n);
    SignOfProduct(n as real, Share(k, n));
  }

  // ------------------------------------------------------------ unanimity

  /** Unanimity is exactly n / (n + z^2). */
  lemma UnanimousIsTheCut(n: nat, t: real)
    requires 0 < n
    ensures Reaches(n, n, t) <==> t <= Unanimous(n)
  {
    var fn, u := n as real, Unanimous(n);
    assert u * (fn + Z2) == fn;
    if 0.0 < t {
      CutForm(n, n, t);
      hide Unanimous, Reaches;
      if t < 1.0 {
        var r := 1.0 - t;
        assert fn - fn * t == fn * r;
        assert fn * Price(t) == (fn * r) * (Z2 * t);
        OrderScaled(t, 1.0, fn);
        Positive(fn, r);
        LeScaled(Z2 * t, fn * r, fn * r);
        LeScaled(t, u, fn + Z2);
        assert (fn + Z2) * t == fn * t + Z2 * t;
        assert (fn + Z2) * u == fn;
      } else {
        ScaleLe(fn, 1.0, t);
      }
    }
  }

  lemma LeScaled(x: real, y: real, d: real)
    requires 0.0 < d
    ensures x <= y <==> d * x <= d * y
  {
    if x <= y {
      ScaleLe(d, x, y);
    } else {
      Scaled(d, y, x);
    }
  }

  lemma UnanimousGrows(m: nat, n: nat)
    requires m < n
    ensures Unanimous(m) < Unanimous(n)
  {
    var u, v, fm, fn := Unanimous(m), Unanimous(n), m as real, n as real;
    assert u * (fm + Z2) == fm && v * (fn + Z2) == fn;
    var d := fn - fm;
    assert v * (fm + Z2) - u * (fm + Z2) == d * (1.0 - v);
    hide Unanimous;
    Positive(d, 1.0 - v);
    assert (v - u) * (fm + Z2) == v * (fm + Z2) - u * (fm + Z2);
    SignOfProduct(fm + Z2, v - u);
  }

  /** No arrangement of at most m samples scores above m unanimous ones. */
  lemma CeilingIsUnanimity(k: nat, n: nat, m: nat, t: real)
    requires k <= n <= m && Reaches(k, n, t)
    ensures t <= Unanimous(m)
  {
    hide Reaches, Unanimous;
    if n == 0 {
      NoEvidence(k, n, t);
      assert 0.0 <= Unanimous(m);
    } else {
      MoreAgreementScoresMore(k, n, n, t);
      UnanimousIsTheCut(n, t);
      if n < m {
        UnanimousGrows(n, m);
      }
    }
  }

  /** A repaired candidate joins a sample that had no survivor, so it is alone
      among n + 1: still no higher than n unanimous samples. */
  lemma RepairStaysBelowTheCeiling(n: nat, t: real)
    requires 0 < n && Reaches(1, n + 1, t)
    ensures t <= Unanimous(n)
  {
    DissentScoresLess(1, n, t);
    CeilingIsUnanimity(1, n, n, t);
  }

  // ------------------------------------------------------------ MinSamplesFor

  const CAP: nat := 100000

  method MinSamplesFor(want: real) returns (r: nat)
    ensures r != 0 ==> 1 <= r <= CAP && want <= Unanimous(r) && forall m: nat :: 1 <= m < r ==> Unanimous(m) < want
    ensures r == 0 <==> Unanimous(CAP) < want
  {
    hide Unanimous;
    for n := 1 to CAP + 1
      invariant forall m: nat :: 1 <= m < n ==> Unanimous(m) < want
    {
      if want <= Unanimous(n) {
        if n < CAP {
          UnanimousGrows(n, CAP);
        }
        return n;
      }
    }
    return 0;
  }

  /** Some fan-out attains every score below 1. */
  lemma EveryScoreBelowOneIsAttained(want: real) returns (n: nat)
    requires want < 1.0
    ensures 0 < n && want <= Unanimous(n)
  {
    var room := 1.0 - want;
    var x := Z2 * (if want < 0.0 then 0.0 else want) / room;
    n := x.Floor + 1;
    var fn := n as real;
    assert x <= fn;
    if 0.0 < want {
      assert x * room == Z2 * want;
      ScaleLe(room, x, fn);
      WideEnough(want, n);
    }
  }

  lemma WideEnough(want: real, n: nat)
    requires 0 < n && Z2 * want <= (1.0 - want) * n as real
    ensures want <= Unanimous(n)
  {
    var u, fn := Unanimous(n), n as real;
    assert u * (fn + Z2) == fn;
    assert (fn + Z2) * (u - want) == fn - fn * want - Z2 * want;
    hide Unanimous;
    SignOfProduct(fn + Z2, u - want);
  }

  /** The promise "0 if no fan-out does" holds exactly outside the gap above the
      cap's own score: there a wider fan-out would do and 0 is reported. */
  lemma CapHidesAnAnswerExactlyWhen(want: real)
    ensures (Unanimous(CAP) < want && exists n: nat :: 0 < n && want <= Unanimous(n))
       <==> Unanimous(CAP) < want < 1.0
  {
    hide Unanimous;
    if want < 1.0 {
      var n := EveryScoreBelowOneIsAttained(want);
    }
    assert forall n: nat :: Unanimous(n) < 1.0;
  }

  // ------------------------------------------------------------ the configuration

  /** The highest score any tier can report: each tier's fan-out, unanimous. */
  method MaxAttainableScore(samples: seq<nat>) returns (best: real)
    ensures forall i :: 0 <= i < |samples| ==> Unanimous(samples[i]) <= best
    ensures best == 0.0 || exists i :: 0 <= i < |samples| && best == Unanimous(samples[i])
    ensures 0.0 <= best
  {
    hide Unanimous;
    best := 0.0;
    for j := 0 to |samples|
      invariant forall i :: 0 <= i < j ==> Unanimous(samples[i]) <= best
      invariant best == 0.0 || exists i :: 0 <= i < j && best == Unanimous(samples[i])
      invariant 0.0 <= best
    {
      var s := Unanimous(samples[j]);
      if best < s {
        best := s;
      }
    }
  }

  method DefaultAdmitScore(samples: seq<nat>) returns (score: real)
    requires samples != [] && forall i :: 0 <= i < |samples| ==> 1 <= samples[i]
    ensures forall i :: 0 <= i < |samples| ==> score <= Unanimous(samples[i])
    ensures exists i :: 0 <= i < |samples| && score == Unanimous(samples[i])
  {
    hide Unanimous;
    var narrowest := 0;
    for j := 0 to |samples|
      invariant j == 0 <==> narrowest == 0
      invariant forall i :: 0 <= i < j ==> narrowest <= samples[i]
      invariant 0 < j ==> exists i :: 0 <= i < j && narrowest == samples[i]
    {
      if narrowest == 0 || samples[j] < narrowest {
        narrowest := samples[j];
      }
    }
    forall i | 0 <= i < |samples|
      ensures Unanimous(narrowest) <= Unanimous(samples[i])
    {
      if narrowest < samples[i] {
        UnanimousGrows(narrowest, samples[i]);
      }
    }
    return Unanimous(narrowest);
  }

  /** Some run of some tier reports a score of at least t: a verified class of k
      among at most its fan-out of samples, or a lone repaired candidate. */
  ghost predicate Attainable(samples: seq<nat>, t: real) {
    exists i, k: nat, n: nat ::
      0 <= i < |samples| && Reaches(k, n, t) && 0 < k <= n && (n <= samples[i] || (k == 1 && n == samples[i] + 1))
  }

  /** The largest attainable three-decimal value, offered as the remedy. */
  function Suggestion(best: real): real {
    (best * 1000.0).Floor as real / 1000.0
  }

  datatype Verdict = Fine | Unreachable(best: real, widest: nat, suggest: real, raiseTo: nat)

  /** checkAdmissionReachable rejects a score exactly when no run of any tier can
      attain it, and its suggestion is always attainable. */
  method CheckAdmissionReachable(samples: seq<nat>, cacheOn: bool, admitAt: real) returns (v: Verdict)
    requires samples != [] && forall i :: 0 <= i < |samples| ==> 1 <= samples[i]
    ensures v.Fine? <==> !cacheOn || admitAt <= 0.0 || Attainable(samples, admitAt)
    ensures v.Unreachable? ==> v.suggest < admitAt && (v.suggest <= 0.0 || Attainable(samples, v.suggest))
    ensures v.Unreachable? ==> forall i :: 0 <= i < |samples| ==> samples[i] <= v.widest
    ensures v.Unreachable? && v.raiseTo != 0 ==> v.widest < v.raiseTo && admitAt <= Unanimous(v.raiseTo)
  {
    hide Unanimous, Reaches, Suggestion;
    if !cacheOn || admitAt <= 0.0 {
      return Fine;
    }
    var best := MaxAttainableScore(samples);
    assert 0.0 < Unanimous(samples[0]) <= best;
    AttainableUpToBest(samples, best, admitAt);
    if admitAt <= best {
      return Fine;
    }
    var widest := 0;
    for j := 0 to |samples|
      invariant forall i :: 0 <= i < j ==> samples[i] <= widest
      invariant (j == 0 && widest == 0) || exists i :: 0 <= i < j && samples[i] == widest
    {
      assert 1 <= samples[j];
      if samples[j] > widest {
        widest := samples[j];
      }
    }
    SuggestionIsBelow(best);
    AttainableUpToBest(samples, best, Suggestion(best));
    var raiseTo := MinSamplesFor(admitAt);
    if raiseTo != 0 && raiseTo < widest {
      UnanimousGrows(raiseTo, widest);
    }
    return Unreachable(best, widest, Suggestion(best), raiseTo);
  }

  lemma SuggestionIsBelow(best: real)
    ensures Suggestion(best) <= best
  {
  }

  lemma AttainableUpToBest(samples: seq<nat>, best: real, t: real)
    requires forall i :: 0 <= i < |samples| ==> 1 <= samples[i] && Unanimous(samples[i]) <= best
    requires exists i :: 0 <= i < |samples| && best == Unanimous(samples[i])
    ensures Attainable(samples, t) <==> t <= best
  {
    hide Unanimous, Reaches;
    if t <= best {
      var i :| 0 <= i < |samples| && best == Unanimous(samples[i]);
      UnanimousIsTheCut(samples[i], t);
      assert Reaches(samples[i], samples[i], t);
    }
    if Attainable(samples, t) {
      var i, k: nat, n: nat :|
        0 <= i < |samples| && Reaches(k, n, t) && 0 < k <= n && (n <= samples[i] || (k == 1 && n == samples[i] + 1));
      if n <= samples[i] {
        CeilingIsUnanimity(k, n, samples[i], t);
      } else {
        RepairStaysBelowTheCeiling(samples[i], t);
      }
    }
  }
}
