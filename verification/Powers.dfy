/** Integer powers of a real, with the convention 0^0 = 1. */
module Powers {

  function Pow(x: real, n: nat): real {
    if n == 0 then 1.0 else x * Pow(x, n - 1)
  }

  lemma MulLe(a: real, b: real, c: real, d: real)
    requires 0.0 <= a <= b && 0.0 <= c <= d
    ensures a * c <= b * d
  {
    assert a * c <= b * c;
    assert b * c <= b * d;
  }

  lemma ScaleLe(a: real, x: real, y: real)
    requires 0.0 <= a && x <= y
    ensures a * x <= a * y
  {
  }

  lemma MulNonNegative(a: real, b: real)
    requires 0.0 <= a && 0.0 <= b
    ensures 0.0 <= a * b
  {
  }

  lemma SignOfProduct(d: real, g: real)
    requires 0.0 < d
    ensures 0.0 <= d * g <==> 0.0 <= g
    ensures 0.0 < d * g <==> 0.0 < g
  {
  }

  lemma PowZero(x: real)
    ensures Pow(x, 0) == 1.0
  {
  }

  lemma PowPred(x: real, n: nat)
    requires n != 0
    ensures Pow(x, n) == x * Pow(x, n - 1)
  {
  }

  lemma PowStep(x: real, n: nat)
    ensures Pow(x, n + 1) == x * Pow(x, n)
  {
  }

  lemma {:induction false} PowNonNegative(x: real, n: nat)
    requires 0.0 <= x
    ensures 0.0 <= Pow(x, n)
    ensures 0.0 < x ==> 0.0 < Pow(x, n)
  {
    if n != 0 {
      PowNonNegative(x, n - 1);
    }
  }

  lemma {:induction false} PowOfOne(n: nat)
    ensures Pow(1.0, n) == 1.0
  {
    if n != 0 {
      PowOfOne(n - 1);
    }
  }

  lemma Associate(x: real, a: real, b: real, p: real, q: real)
    requires p == x * a && q == x * (a * b)
    ensures q == p * b
  {
  }

  lemma {:induction false} PowAdd(x: real, m: nat, n: nat, k: nat)
    requires k == m + n
    ensures Pow(x, k) == Pow(x, m) * Pow(x, n)
    decreases m
  {
    hide Pow;
    if m == 0 {
      PowZero(x);
    } else {
      PowAdd(x, m - 1, n, k - 1);
      PowPred(x, m);
      PowPred(x, k);
      Associate(x, Pow(x, m - 1), Pow(x, n), Pow(x, m), Pow(x, k));
    }
  }

  lemma {:induction false} PowMonotone(x: real, m: nat, n: nat)
    requires 1.0 <= x && m <= n
    ensures Pow(x, m) <= Pow(x, n)
    decreases n
  {
    if m < n {
      PowMonotone(x, m, n - 1);
      PowAtLeastOne(x, n - 1);
      MulLe(1.0, x, Pow(x, n - 1), Pow(x, n - 1));
    }
  }

  lemma {:induction false} PowProduct(x: real, y: real, z: real, n: nat)
    requires x * y == z
    ensures Pow(z, n) == Pow(x, n) * Pow(y, n)
  {
    if n != 0 {
      PowProduct(x, y, z, n - 1);
      Regroup(x, y, Pow(x, n - 1), Pow(y, n - 1));
    }
  }

  lemma Regroup(x: real, y: real, a: real, b: real)
    ensures (x * y) * (a * b) == (x * a) * (y * b)
  {
  }

  lemma PowQuotient(a: real, b: real, n: nat)
    requires b != 0.0
    ensures Pow(a / b, n) * Pow(b, n) == Pow(a, n)
  {
    PowProduct(a / b, b, a, n);
  }

  lemma QuotientAtMostOne(a: real, b: real)
    requires 0.0 <= a <= b && 0.0 < b
    ensures 0.0 <= a / b <= 1.0
  {
    var x := a / b;
    assert x * b == a;
  }

  lemma QuotientAtLeastOne(a: real, b: real)
    requires 0.0 < b <= a
    ensures 1.0 <= a / b
  {
    var x := a / b;
    assert x * b == a;
  }

  lemma {:induction false} PowAtMostOne(x: real, n: nat)
    requires 0.0 <= x <= 1.0
    ensures 0.0 <= Pow(x, n) <= 1.0
  {
    if n != 0 {
      PowAtMostOne(x, n - 1);
      MulLe(0.0, x, 0.0, Pow(x, n - 1));
      MulLe(x, 1.0, Pow(x, n - 1), 1.0);
    }
  }

  lemma {:induction false} PowAtLeastOne(x: real, n: nat)
    requires 1.0 <= x
    ensures 1.0 <= Pow(x, n)
  {
    if n != 0 {
      PowAtLeastOne(x, n - 1);
      MulLe(1.0, x, 1.0, Pow(x, n - 1));
    }
  }

  lemma {:induction false} PowAntitone(x: real, m: nat, n: nat)
    requires 0.0 <= x <= 1.0 && m <= n
    ensures Pow(x, n) <= Pow(x, m)
    decreases n
  {
    if m < n {
      PowAntitone(x, m, n - 1);
      PowNonNegative(x, n - 1);
      MulLe(x, 1.0, Pow(x, n - 1), Pow(x, n - 1));
    }
  }

  /** Bernoulli's inequality. */
  lemma {:induction false} Bernoulli(x: real, n: nat)
    requires -1.0 <= x
    ensures 1.0 + n as real * x <= Pow(1.0 + x, n)
  {
    if n != 0 {
      Bernoulli(x, n - 1);
      var m := (n - 1) as real;
      MulNonNegative(1.0 + x, Pow(1.0 + x, n - 1) - (1.0 + m * x));
      assert (1.0 + x) * (1.0 + m * x) == 1.0 + (m + 1.0) * x + m * (x * x);
      MulNonNegative(m, x * x);
    }
  }

  /** n * x == p and n * d == q. */
  lemma FactorBelow(n: real, x: real, d: real, p: real, q: real)
    requires 0.0 < n && p == n * x && q == n * d && p < q
    ensures x < d
  {
    var gap := d - x;
    assert n * gap == q - p;
    SignOfProduct(n, gap);
  }

  /** One more of something is more. */
  lemma OneMoreTimes(m: nat, d: real, p: real, q: real)
    requires 0.0 < d && p == m as real * d && q == (m + 1) as real * d
    ensures q == p + d
  {
    assert (m + 1) as real == m as real + 1.0;
  }

  lemma ProductNeedsFactor(m: nat, d: real, p: real)
    requires 0.0 < d && p == m as real * d && 0.0 < p
    ensures 1 <= m
  {
    SignOfProduct(d, m as real);
  }
}
