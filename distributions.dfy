/** prometheus/distributions.go: factorials and the binomial probability
    density used for confidence bounds on quantile estimates. */
module Distributions {
  import opened RealFacts

  const MaxInt64: int := 0x7fff_ffff_ffff_ffff

  /** of! for of >= 1, and 1 for every of <= 0. */
  function Fact(of: int): (r: int)
    ensures r >= 1
    decreases if of <= 0 then 0 else of
  {
    if of <= 0 then 1 else of * Fact(of - 1)
  }

  /** factorial: a countdown loop multiplying an int64 accumulator. Up to 20
      the result fits in an int64; 21! does not. */
  method Factorial(of: int) returns (result: int)
    requires of <= 20
    ensures result == Fact(of)
    ensures 1 <= result <= MaxInt64
  {
    if of <= 0 {
      return 1;
    }
    result := 1;
    var i := of;
    while i >= 1
      invariant 0 <= i <= of
      invariant result == Falling(of, i)
    {
      result := result * i;
      i := i - 1;
    }
    FallingTimesFact(of, 0);
    FactorialFitsInt64(of);
  }

  /** of * (of - 1) * ... * (i + 1): what the countdown has multiplied in
      once it reaches i. */
  function Falling(of: int, i: int): int
    requires 0 <= i <= of
    decreases of - i
  {
    if i == of then 1 else Falling(of, i + 1) * (i + 1)
  }

  lemma {:induction false} FallingTimesFact(of: int, i: int)
    requires 0 <= i <= of
    ensures Falling(of, i) * Fact(i) == Fact(of)
    decreases of - i
  {
    if i < of {
      FallingTimesFact(of, i + 1);
      MulAssoc(Falling(of, i + 1), i + 1, Fact(i));
    }
  }

  /** No int64 overflow up to 20. */
  lemma {:induction false} FactorialFitsInt64(of: int)
    requires of <= 20
    ensures Fact(of) <= MaxInt64
  {
    FactMonotone(of, 20);
    FactTwenty();
  }

  /** For a non-negative argument, factorial fits in an int64 exactly up to 20. */
  lemma {:induction false} FactorialFitsInt64Exactly(of: nat)
    ensures Fact(of) <= MaxInt64 <==> of <= 20
  {
    FactTwenty();
    if of <= 20 {
      FactorialFitsInt64(of);
    } else {
      FactMonotone(21, of);
    }
  }

  lemma {:induction false} FactMonotone(a: int, b: int)
    requires a <= b
    ensures Fact(a) <= Fact(b)
    decreases b - a
  {
    if a < b {
      FactMonotone(a, b - 1);
      if b >= 1 {
        assert Fact(b) == b * Fact(b - 1);
      }
    }
  }

  lemma MulAssoc(a: int, b: int, c: int)
    ensures a * (b * c) == (a * b) * c
  {
  }

  lemma MulSwap(a: int, b: int, c: int)
    ensures a * (b * c) == b * (a * c)
  {
  }

  lemma Distrib(a: int, b: int, c: int)
    ensures (a + b) * c == a * c + b * c
  {
  }

  lemma FactTwenty()
    ensures Fact(20) == 2432902008176640000 <= MaxInt64 < Fact(21)
  {
    assert Fact(0) == 1;
    assert Fact(1) == 1;
    assert Fact(2) == 2;
    assert Fact(3) == 6;
    assert Fact(4) == 24;
    assert Fact(5) == 120;
    assert Fact(6) == 720;
    assert Fact(7) == 5040;
    assert Fact(8) == 40320;
    assert Fact(9) == 362880;
    assert Fact(10) == 3628800;
    assert Fact(11) == 39916800;
    assert Fact(12) == 479001600;
    assert Fact(13) == 6227020800;
    assert Fact(14) == 87178291200;
    assert Fact(15) == 1307674368000;
    assert Fact(16) == 20922789888000;
    assert Fact(17) == 355687428096000;
    assert Fact(18) == 6402373705728000;
    assert Fact(19) == 121645100408832000;
    assert Fact(20) == 2432902008176640000;
    assert Fact(21) == 51090942171709440000;
  }

  /** The binomial coefficient by Pascal's rule. */
  function Choose(n: nat, k: nat): nat
    requires k <= n
  {
    if k == 0 || k == n then 1 else Choose(n - 1, k - 1) + Choose(n - 1, k)
  }

  /** n! / (k! (n-k)!) is the integer Choose(n, k): the division in
      binomialPDF is exact. */
  lemma {:induction false} ChooseTimesFactorials(n: nat, k: nat)
    requires k <= n
    ensures Choose(n, k) * (Fact(k) * Fact(n - k)) == Fact(n)
  {
    if k == 0 || k == n {
    } else {
      ChooseTimesFactorials(n - 1, k - 1);
      ChooseTimesFactorials(n - 1, k);
      var a, b := Choose(n - 1, k - 1), Choose(n - 1, k);
      var fa, fb := Fact(k - 1), Fact(n - 1 - k);
      var x := fa * fb;
      var f := Fact(n - 1);
      assert Fact(k) == k * fa;
      assert Fact(n - k) == (n - k) * fb;
      // the two smaller instances, rewritten around x
      assert fa * Fact(n - k) == (n - k) * x by { MulSwap(fa, n - k, fb); }
      assert Fact(k) * fb == k * x by { MulAssoc(k, fa, fb); }
      var y := (n - k) * x;
      var z := k * x;
      assert a * y == f;
      assert b * z == f;
      assert Fact(k) * Fact(n - k) == k * y by {
        MulAssoc(k, fa, (n - k) * fb);
        MulSwap(fa, n - k, fb);
      }
      assert k * y == (n - k) * z by { MulSwap(k, n - k, x); }
      calc {
        Choose(n, k) * (Fact(k) * Fact(n - k));
        (a + b) * (k * y);
        { Distrib(a, b, k * y); }
        a * (k * y) + b * (k * y);
        { MulSwap(a, k, y); MulSwap(b, n - k, z); }
        k * (a * y) + (n - k) * (b * z);
        k * f + (n - k) * f;
        { Distrib(k, n - k, f); }
        n * f;
      }
    }
  }

  /** math.Pow for a natural exponent, on reals. */
  function Pow(x: real, e: nat): real {
    if e == 0 then 1.0 else x * Pow(x, e - 1)
  }

  /** A power of a non-negative base is non-negative. */
  lemma {:induction false} PowNonNegative(x: real, e: nat)
    requires 0.0 <= x
    ensures 0.0 <= Pow(x, e)
  {
    if e > 0 {
      PowNonNegative(x, e - 1);
      assert 0.0 <= x * Pow(x, e - 1);
    }
  }

  /** The coefficient as binomialPDF computes it: the float quotient of
      factorial(n) by factorial(k) * factorial(n-k). */
  function Coefficient(k: int, n: int): real {
    Fact(n) as real / Denominator(k, n) as real
  }

  /** The int64 product factorial(k) * factorial(n-k). */
  function Denominator(k: int, n: int): int {
    Fact(k) * Fact(n - k)
  }

  /** p^k (1-p)^(n-k): the probability of one particular run of k successes
      and n - k failures. */
  function RunProbability(k: nat, n: nat, p: real): real
    requires k <= n
  {
    Pow(p, k) * Pow(1.0 - p, n - k)
  }

  /** binomialPDF: the probability of exactly k successes in n trials of
      success probability p. Modelled only where factorial(n) fits in an
      int64, that is for n <= 20 (FactorialFitsInt64Exactly); beyond that the
      Go factorials wrap around. */
  function BinomialPDF(k: int, n: int, p: real): real
    requires 0 <= k <= n && Fact(n) <= MaxInt64
  {
    Coefficient(k, n) * RunProbability(k, n, p)
  }

  /** Where the int64 factorials are exact, binomialPDF is the textbook
      C(n, k) p^k (1-p)^(n-k). */
  lemma {:induction false} BinomialPDFIsBinomial(k: nat, n: nat, p: real)
    requires k <= n && Fact(n) <= MaxInt64
    ensures BinomialPDF(k, n, p) == Choose(n, k) as real * RunProbability(k, n, p)
  {
    var r := RunProbability(k, n, p);
    BinomialPDFUnfold(k, n, p);
    ScaledCoefficient(k, n, r);
  }

  lemma {:induction false} BinomialPDFUnfold(k: nat, n: nat, p: real)
    requires k <= n && Fact(n) <= MaxInt64
    ensures BinomialPDF(k, n, p) == Coefficient(k, n) * RunProbability(k, n, p)
  {
  }

  lemma {:induction false} ScaledCoefficient(k: nat, n: nat, x: real)
    requires k <= n
    ensures Coefficient(k, n) * x == Choose(n, k) as real * x
  {
    CoefficientIsChoose(k, n);
  }

  /** For p in [0, 1], binomialPDF is non-negative, as a probability is. */
  lemma {:induction false} BinomialPDFNonNegative(k: nat, n: nat, p: real)
    requires k <= n && Fact(n) <= MaxInt64 && 0.0 <= p <= 1.0
    ensures 0.0 <= BinomialPDF(k, n, p)
  {
    CoefficientIsChoose(k, n);
    RunProbabilityNonNegative(k, n, p);
    ProductNonNegative(Coefficient(k, n), RunProbability(k, n, p));
  }

  lemma {:induction false} RunProbabilityNonNegative(k: nat, n: nat, p: real)
    requires k <= n && 0.0 <= p <= 1.0
    ensures 0.0 <= RunProbability(k, n, p)
  {
    PowNonNegative(p, k);
    PowNonNegative(1.0 - p, n - k);
    ProductNonNegative(Pow(p, k), Pow(1.0 - p, n - k));
  }

  /** Swapping success and failure leaves the probability of a run unchanged. */
  lemma {:induction false} RunProbabilitySymmetric(k: nat, n: nat, p: real)
    requires k <= n
    ensures RunProbability(k, n, p) == RunProbability(n - k, n, 1.0 - p)
  {
    assert 1.0 - (1.0 - p) == p && n - (n - k) == k;
  }

  /** For 0 <= k <= n the coefficient is the positive integer Choose(n, k). */
  lemma {:induction false} CoefficientIsChoose(k: nat, n: nat)
    requires k <= n
    ensures Coefficient(k, n) == Choose(n, k) as real >= 1.0
  {
    ChooseTimesFactorials(n, k);
    ChoosePositive(n, k);
    ExactQuotient(Fact(n), Choose(n, k), Fact(k) * Fact(n - k));
  }

  /** Whenever factorial(n) fits in an int64, so does the product
      factorial(k) * factorial(n-k) in the coefficient's denominator. */
  lemma {:induction false} DenominatorFitsInt64(k: nat, n: nat)
    requires k <= n && Fact(n) <= MaxInt64
    ensures Denominator(k, n) <= MaxInt64
  {
    var c, d := Choose(n, k), Fact(k) * Fact(n - k);
    ChooseTimesFactorials(n, k);
    ChoosePositive(n, k);
    assert d <= c * d by { Distrib(c - 1, 1, d); }
  }

  lemma {:induction false} ExactQuotient(num: int, c: nat, d: int)
    requires d > 0 && c * d == num
    ensures num as real / d as real == c as real
  {
    IntProductAsReal(c, d);
  }

  lemma {:induction false} IntProductAsReal(c: nat, d: int)
    ensures (c * d) as real == c as real * d as real
  {
    if c > 0 {
      IntProductAsReal(c - 1, d);
      Distrib(c - 1, 1, d);
    }
  }

  lemma {:induction false} ChoosePositive(n: nat, k: nat)
    requires k <= n
    ensures Choose(n, k) >= 1
  {
    if k != 0 && k != n {
      ChoosePositive(n - 1, k);
    }
  }

  /** The coefficient is symmetric under k <-> n - k. */
  lemma {:induction false} CoefficientSymmetric(k: nat, n: nat)
    requires k <= n
    ensures Coefficient(k, n) == Coefficient(n - k, n)
  {
    assert Fact(k) * Fact(n - k) == Fact(n - k) * Fact(n - (n - k));
  }

  /** With no trials, exactly zero successes is certain, whatever p is. */
  lemma {:induction false} BinomialPDFNoTrials(p: real)
    ensures BinomialPDF(0, 0, p) == 1.0
  {
  }

  /** Swapping success and failure: k successes at p is n - k successes at 1 - p. */
  lemma {:induction false} BinomialPDFSymmetric(k: nat, n: nat, p: real)
    requires k <= n && Fact(n) <= MaxInt64
    ensures BinomialPDF(k, n, p) == BinomialPDF(n - k, n, 1.0 - p)
  {
    BinomialPDFUnfold(k, n, p);
    BinomialPDFUnfold(n - k, n, 1.0 - p);
    ScaledRunSymmetric(k, n, p);
  }

  lemma {:induction false} ScaledRunSymmetric(k: nat, n: nat, p: real)
    requires k <= n
    ensures Coefficient(k, n) * RunProbability(k, n, p) == Coefficient(n - k, n) * RunProbability(n - k, n, 1.0 - p)
  {
    CoefficientSymmetric(k, n);
    RunProbabilitySymmetric(k, n, p);
  }
}
