/** What the truncated series approximate: the natural logarithm, the exponential, and the power 0.7 of a depth.

  Between simple functions for all arguments in range, and in numbers for the depths that a search with the default
  bound can reach.  The numbers come from fixed-point sums that are rounded down and up. */
module RiskAccuracy {
  import opened RiskSeries

  // ----- Between simple functions -----

  lemma {:induction false} OddSumCeiling(t: real, n: nat)
    requires 0.0 <= t < 1.0
    ensures OddSum(t, n) * (1.0 - t * t) <= t - Power(t, 2 * n + 1)
    ensures Power(t, 2 * n + 1) >= 0.0
  {
    if n == 0 {
      assert Power(t, 1) == Power(t, 0) * t;
    } else {
      OddSumCeiling(t, n - 1);
      PowerStepTwo(t, 2 * n - 1);
      SquareBelowOne(t);
      FractionBelow(Power(t, 2 * n - 1), (2 * n - 1) as real);
      OneMoreTerm(OddSum(t, n - 1), Power(t, 2 * n - 1) / (2 * n - 1) as real, Power(t, 2 * n - 1), t, t * t);
    }
  }

  lemma SquareBelowOne(t: real)
    requires 0.0 <= t < 1.0
    ensures 0.0 <= t * t < 1.0
  {
    assert t * t <= t;
  }

  lemma FractionBelow(p: real, d: real)
    requires p >= 0.0 && d >= 1.0
    ensures 0.0 <= p / d <= p
  {
    assert (p / d) * d == p;
  }

  /** A sum stays below its geometric ceiling when a term of at most the next power is added. */
  lemma OneMoreTerm(sum: real, term: real, power: real, first: real, ratio: real)
    requires sum * (1.0 - ratio) <= first - power && 0.0 <= term <= power && 0.0 <= ratio <= 1.0
    ensures (sum + term) * (1.0 - ratio) <= first - power * ratio
    ensures power * ratio >= 0.0
  {
    FactorBelow(term, power, 1.0 - ratio);
    ProductIsPositive(power, ratio);
    Expanded(sum, term, power, ratio);
  }

  lemma FactorBelow(a: real, b: real, f: real)
    requires a <= b && 0.0 <= f
    ensures a * f <= b * f
  {
    assert b * f - a * f == (b - a) * f;
  }

  lemma ProductIsPositive(a: real, b: real)
    requires a >= 0.0 && b >= 0.0
    ensures a * b >= 0.0
  {
  }

  lemma Expanded(sum: real, term: real, power: real, ratio: real)
    ensures (sum + term) * (1.0 - ratio) == sum * (1.0 - ratio) + term * (1.0 - ratio)
    ensures power * (1.0 - ratio) == power - power * ratio
  {
  }

  /** The logarithm of the series lies between the two simplest bounds of the true one. */
  lemma LnBetween(x: real)
    requires x >= 1.0
    ensures 2.0 * (x - 1.0) / (x + 1.0) <= LnOf(x) <= (x * x - 1.0) / (2.0 * x)
  {
    hide OddSum, Power;
    var t := (x - 1.0) / (x + 1.0);
    FractionOrder(1.0, x);
    Fraction(x, t);
    OddSumOrder(0.0, t, 10);
    OddSumAtZero(10);
    OddSumCeiling(t, 10);
    GapOf(x, t);
    Ceiling(OddSum(t, 10), t, 1.0 - t * t, (x * x - 1.0) / (2.0 * x));
  }

  lemma Fraction(x: real, t: real)
    requires x >= 1.0 && t == (x - 1.0) / (x + 1.0)
    ensures t * (x + 1.0) == x - 1.0 && 0.0 <= t < 1.0
    ensures 2.0 * (x - 1.0) / (x + 1.0) == 2.0 * t
  {
    assert t * (x + 1.0) == x - 1.0;
    assert (1.0 - t) * (x + 1.0) == 2.0;
    SignOfFactor(1.0 - t, x + 1.0);
    SignOfFactor(t, x + 1.0);
  }

  lemma Ceiling(sum: real, t: real, gap: real, high: real)
    requires gap > 0.0 && sum * gap <= t && high * gap == 2.0 * t
    ensures 2.0 * sum <= high
  {
    assert (high - 2.0 * sum) * gap == high * gap - 2.0 * (sum * gap);
    SignOfFactor(high - 2.0 * sum, gap);
  }

  lemma GapOf(x: real, t: real)
    requires x >= 1.0 && t * (x + 1.0) == x - 1.0 && 0.0 <= t < 1.0
    ensures 1.0 - t * t > 0.0
    ensures ((x * x - 1.0) / (2.0 * x)) * (1.0 - t * t) == 2.0 * t
  {
    SquareBelowOne(t);
    var high, y := (x * x - 1.0) / (2.0 * x), x + 1.0;
    Halves(x, high);
    Squares(t, x, y);
    Products(high, 1.0 - t * t, y * y, x, y, t);
    Cancels(high * (1.0 - t * t), 2.0 * t, y * y);
  }

  lemma Halves(x: real, high: real)
    requires x >= 1.0 && high == (x * x - 1.0) / (2.0 * x)
    ensures high * (4.0 * x) == 2.0 * ((x - 1.0) * (x + 1.0))
  {
    assert high * (2.0 * x) == x * x - 1.0;
  }

  lemma Squares(t: real, x: real, y: real)
    requires y == x + 1.0 > 0.0 && t * y == x - 1.0
    ensures (1.0 - t * t) * (y * y) == 4.0 * x && y * y > 0.0
  {
    assert (t * t) * (y * y) == (t * y) * (t * y);
    assert (t * y) * (t * y) == (x - 1.0) * (x - 1.0);
  }

  lemma Products(high: real, gap: real, square: real, x: real, y: real, t: real)
    requires gap * square == 4.0 * x && high * (4.0 * x) == 2.0 * ((x - 1.0) * y) && t * y == x - 1.0
    requires square == y * y
    ensures (high * gap) * square == (2.0 * t) * square
  {
    assert (high * gap) * square == high * (gap * square);
    assert (2.0 * t) * square == 2.0 * ((t * y) * y);
  }

  lemma Cancels(a: real, b: real, f: real)
    requires a * f == b * f && f > 0.0
    ensures a == b
  {
    assert (a - b) * f == 0.0 && (b - a) * f == 0.0;
    SignOfFactor(a - b, f);
    SignOfFactor(b - a, f);
  }

  lemma {:induction false} ExpSumCeiling(x: real, n: nat)
    requires 0.0 <= x < 1.0
    ensures 0.0 <= ExpTerm(x, n) <= Power(x, n)
    ensures ExpSum(x, n) * (1.0 - x) <= 1.0 - Power(x, n + 1)
  {
    if n == 0 {
      assert Power(x, 1) == Power(x, 0) * x;
    } else {
      ExpSumCeiling(x, n - 1);
      FractionBelow(x, n as real);
      MulOrder(ExpTerm(x, n - 1), Power(x, n - 1), x / n as real, x);
      OneMoreTerm(ExpSum(x, n - 1), ExpTerm(x, n), Power(x, n), 1.0, x);
    }
  }

  lemma ExpBetween(x: real)
    requires 0.0 <= x < 1.0
    ensures 1.0 + x <= ExpOf(x) <= 1.0 / (1.0 - x)
  {
    ExpSumOrder(x, x, 19);
    ExpSumCeiling(x, 19);
    PowerOrder(0.0, x, 20);
    var e, d := ExpOf(x), 1.0 - x;
    assert (1.0 / d) * d == 1.0;
    assert (1.0 / d - e) * d >= 0.0;
    SignOfFactor(1.0 / d - e, d);
  }

  // ----- The number of terms -----

  /** n! and n! times the sum of the reciprocals of the factorials up to n. */
  function Factorial(n: nat): real { if n == 0 then 1.0 else n as real * Factorial(n - 1) }

  function Reciprocals(n: nat): real { if n == 0 then 1.0 else n as real * Reciprocals(n - 1) + 1.0 }

  lemma ExpTermNext(x: real, n: nat, d: real)
    requires n > 0 && d == n as real
    ensures ExpTerm(x, n) == ExpTerm(x, n - 1) * (x / d)
  {
  }

  lemma ExpSumNext(x: real, n: nat)
    requires n > 0
    ensures ExpSum(x, n) == ExpSum(x, n - 1) + ExpTerm(x, n)
  {
  }

  lemma {:induction false} ExpSumAtOne(n: nat)
    ensures ExpTerm(1.0, n) * Factorial(n) == 1.0
    ensures ExpSum(1.0, n) * Factorial(n) == Reciprocals(n)
  {
    hide *;
    if n == 0 {
      FirstCounts();
    } else {
      ExpSumAtOne(n - 1);
      NextCounts(n);
      ExpTermNext(1.0, n, n as real);
      ExpSumNext(1.0, n);
      NextFactorial(ExpTerm(1.0, n - 1), ExpSum(1.0, n - 1), Factorial(n - 1), n as real);
    }
  }

  lemma FirstCounts()
    ensures Factorial(0) == Reciprocals(0) == 1.0 && ExpTerm(1.0, 0) == ExpSum(1.0, 0) == 1.0
  {
  }

  lemma NextCounts(n: nat)
    requires n > 0
    ensures Factorial(n) == n as real * Factorial(n - 1)
    ensures Reciprocals(n) == n as real * Reciprocals(n - 1) + 1.0
  {
  }

  lemma NextFactorial(term: real, sum: real, f: real, n: real)
    requires n >= 1.0 && term * f == 1.0
    ensures (term * (1.0 / n)) * (n * f) == 1.0
    ensures (sum + term * (1.0 / n)) * (n * f) == n * (sum * f) + 1.0
  {
    var next := term * (1.0 / n);
    assert (1.0 / n) * n == 1.0;
    assert next * (n * f) == (term * f) * ((1.0 / n) * n);
    assert (sum + next) * (n * f) == n * (sum * f) + next * (n * f);
  }

  /** The exponential series stops after exactly the term with 19!. */
  lemma ExpAtOne()
    ensures ExpOf(1.0) * Factorial(19) == Reciprocals(19)
  {
    hide ExpSum, Factorial, Reciprocals;
    ExpSumAtOne(19);
  }

  // ----- In numbers -----

  /** The odd powers, each from the one before. */
  lemma OddPowers(t: real, s: real)
    requires s == t * t
    ensures Power(t, 1) == t && Power(t, 3) == t * s
    ensures Power(t, 5) == Power(t, 3) * s
    ensures Power(t, 7) == Power(t, 5) * s
    ensures Power(t, 9) == Power(t, 7) * s
    ensures Power(t, 11) == Power(t, 9) * s
    ensures Power(t, 13) == Power(t, 11) * s
    ensures Power(t, 15) == Power(t, 13) * s
    ensures Power(t, 17) == Power(t, 15) * s
    ensures Power(t, 19) == Power(t, 17) * s
  {
    assert Power(t, 1) == Power(t, 0) * t;
    PowerStepTwo(t, 1);
    PowerStepTwo(t, 3);
    PowerStepTwo(t, 5);
    PowerStepTwo(t, 7);
    PowerStepTwo(t, 9);
    PowerStepTwo(t, 11);
    PowerStepTwo(t, 13);
    PowerStepTwo(t, 15);
    PowerStepTwo(t, 17);
  }

  lemma TenOddTerms(t: real)
    ensures OddSum(t, 10) == Power(t, 1)
      + Power(t, 3) / 3.0 + Power(t, 5) / 5.0 + Power(t, 7) / 7.0
      + Power(t, 9) / 9.0 + Power(t, 11) / 11.0 + Power(t, 13) / 13.0
      + Power(t, 15) / 15.0 + Power(t, 17) / 17.0 + Power(t, 19) / 19.0
  {
    hide Power;
    assert OddSum(t, 1) == OddSum(t, 0) + Power(t, 1) / 1.0;
    assert OddSum(t, 2) == OddSum(t, 1) + Power(t, 3) / 3.0;
    assert OddSum(t, 3) == OddSum(t, 2) + Power(t, 5) / 5.0;
    assert OddSum(t, 4) == OddSum(t, 3) + Power(t, 7) / 7.0;
    assert OddSum(t, 5) == OddSum(t, 4) + Power(t, 9) / 9.0;
    assert OddSum(t, 6) == OddSum(t, 5) + Power(t, 11) / 11.0;
    assert OddSum(t, 7) == OddSum(t, 6) + Power(t, 13) / 13.0;
    assert OddSum(t, 8) == OddSum(t, 7) + Power(t, 15) / 15.0;
    assert OddSum(t, 9) == OddSum(t, 8) + Power(t, 17) / 17.0;
  }

  lemma FirstTerms(x: real)
    ensures ExpTerm(x, 1) == x
    ensures ExpTerm(x, 2) == ExpTerm(x, 1) * (x / 2.0)
    ensures ExpTerm(x, 3) == ExpTerm(x, 2) * (x / 3.0)
    ensures ExpTerm(x, 4) == ExpTerm(x, 3) * (x / 4.0)
    ensures ExpTerm(x, 5) == ExpTerm(x, 4) * (x / 5.0)
  {
    assert ExpTerm(x, 1) == ExpTerm(x, 0) * (x / 1.0);
  }

  lemma LaterTerms(x: real)
    ensures ExpTerm(x, 6) == ExpTerm(x, 5) * (x / 6.0)
    ensures ExpTerm(x, 7) == ExpTerm(x, 6) * (x / 7.0)
    ensures ExpTerm(x, 8) == ExpTerm(x, 7) * (x / 8.0)
    ensures ExpTerm(x, 9) == ExpTerm(x, 8) * (x / 9.0)
    ensures ExpTerm(x, 10) == ExpTerm(x, 9) * (x / 10.0)
  {
  }

  lemma TenTerms(x: real)
    ensures ExpSum(x, 10) == 1.0
      + ExpTerm(x, 1) + ExpTerm(x, 2) + ExpTerm(x, 3) + ExpTerm(x, 4) + ExpTerm(x, 5)
      + ExpTerm(x, 6) + ExpTerm(x, 7) + ExpTerm(x, 8) + ExpTerm(x, 9) + ExpTerm(x, 10)
  {
    hide ExpTerm;
    assert ExpSum(x, 1) == ExpSum(x, 0) + ExpTerm(x, 1);
    assert ExpSum(x, 2) == ExpSum(x, 1) + ExpTerm(x, 2);
    assert ExpSum(x, 3) == ExpSum(x, 2) + ExpTerm(x, 3);
    assert ExpSum(x, 4) == ExpSum(x, 3) + ExpTerm(x, 4);
    assert ExpSum(x, 5) == ExpSum(x, 4) + ExpTerm(x, 5);
    assert ExpSum(x, 6) == ExpSum(x, 5) + ExpTerm(x, 6);
    assert ExpSum(x, 7) == ExpSum(x, 6) + ExpTerm(x, 7);
    assert ExpSum(x, 8) == ExpSum(x, 7) + ExpTerm(x, 8);
    assert ExpSum(x, 9) == ExpSum(x, 8) + ExpTerm(x, 9);
  }

  /** From the tenth term on, a term is worth more than all that follow. */
  lemma {:induction false} TailWithin(x: real, n: nat)
    requires 0.0 <= x <= 5.0 && n >= 10
    ensures ExpSum(x, 10) <= ExpSum(x, n) && ExpSum(x, n) + ExpTerm(x, n) <= ExpSum(x, 10) + ExpTerm(x, 10)
    ensures ExpTerm(x, n) >= 0.0
  {
    hide ExpTerm, ExpSum;
    ExpTermOrder(x, x, n);
    ExpTermOrder(x, x, n - 1);
    if n > 10 {
      TailWithin(x, n - 1);
      ExpTermNext(x, n, n as real);
      ExpSumNext(x, n);
      HalfAtMost(ExpTerm(x, n - 1), x, n as real);
    }
  }

  lemma HalfAtMost(term: real, x: real, n: real)
    requires 0.0 <= x <= 5.0 && n >= 10.0 && term >= 0.0
    ensures term * (x / n) <= term / 2.0
  {
    assert (x / n) * n == x;
    assert x / n <= 0.5;
  }

  lemma Ln2()
    ensures 0.69314718 <= LnOf(2.0) <= 0.69314719
  {
    hide Power, OddSum;
    OddPowers(1.0 / 3.0, 1.0 / 9.0);
    TenOddTerms(1.0 / 3.0);
  }

  lemma Pow2()
    ensures 1.624504 <= PowOf(2.0, 0.7) <= 1.624505
  {
    hide ExpTerm, ExpSum, LnOf;
    Ln2();
    ExpWithin(0.7 * LnOf(2.0), 0.485203026, 0.485203033);
    FirstTerms(0.485203026);
    LaterTerms(0.485203026);
    FirstTerms(0.485203033);
    LaterTerms(0.485203033);
    TenTerms(0.485203026);
    TenTerms(0.485203033);
  }

  lemma Ln3()
    ensures 1.09861222 <= LnOf(3.0) <= 1.09861223
  {
    hide Power, OddSum;
    OddPowers(1.0 / 2.0, 1.0 / 4.0);
    TenOddTerms(1.0 / 2.0);
  }

  lemma Pow3()
    ensures 2.157669 <= PowOf(3.0, 0.7) <= 2.157670
  {
    hide ExpTerm, ExpSum, LnOf;
    Ln3();
    ExpWithin(0.7 * LnOf(3.0), 0.769028554, 0.769028561);
    FirstTerms(0.769028554);
    LaterTerms(0.769028554);
    FirstTerms(0.769028561);
    LaterTerms(0.769028561);
    TenTerms(0.769028554);
    TenTerms(0.769028561);
  }

  lemma Ln4()
    ensures 1.38629124 <= LnOf(4.0) <= 1.38629125
  {
    hide Power, OddSum;
    OddPowers(3.0 / 5.0, 9.0 / 25.0);
    TenOddTerms(3.0 / 5.0);
  }

  lemma Pow4()
    ensures 2.639010 <= PowOf(4.0, 0.7) <= 2.639011
  {
    hide ExpTerm, ExpSum, LnOf;
    Ln4();
    ExpWithin(0.7 * LnOf(4.0), 0.970403868, 0.970403875);
    FirstTerms(0.970403868);
    LaterTerms(0.970403868);
    FirstTerms(0.970403875);
    LaterTerms(0.970403875);
    TenTerms(0.970403868);
    TenTerms(0.970403875);
  }

  lemma Ln5()
    ensures 1.60940567 <= LnOf(5.0) <= 1.60940568
  {
    hide Power, OddSum;
    OddPowers(2.0 / 3.0, 4.0 / 9.0);
    TenOddTerms(2.0 / 3.0);
  }

  lemma Pow5()
    ensures 3.085099 <= PowOf(5.0, 0.7) <= 3.085101
  {
    hide ExpTerm, ExpSum, LnOf;
    Ln5();
    ExpWithin(0.7 * LnOf(5.0), 1.126583969, 1.126583976);
    FirstTerms(1.126583969);
    LaterTerms(1.126583969);
    FirstTerms(1.126583976);
    LaterTerms(1.126583976);
    TenTerms(1.126583969);
    TenTerms(1.126583976);
  }

  lemma ExpWithin(x: real, low: real, high: real)
    requires 0.0 <= low <= x <= high <= 5.0
    ensures ExpSum(low, 10) <= ExpOf(x) <= ExpSum(high, 10) + ExpTerm(high, 10)
  {
    ExpSumOrder(low, x, 19);
    ExpSumOrder(x, high, 19);
    TailWithin(low, 19);
    TailWithin(high, 19);
  }

  lemma TenthPower(w: real)
    ensures Power(w, 10) == Power(w, 5) * Power(w, 5)
    ensures Power(w, 5) == Power(w, 2) * Power(w, 2) * w
    ensures Power(w, 2) == w * w
  {
    assert Power(w, 1) == Power(w, 0) * w;
    PowerStepTwo(w, 0);
    PowerStepTwo(w, 1);
    PowerStepTwo(w, 3);
    assert Power(w, 5) == Power(w, 3) * (w * w) == (w * (w * w)) * (w * w);
    FiveMore(w);
  }

  lemma FiveMore(w: real)
    ensures Power(w, 10) == Power(w, 5) * ((w * w) * (w * w) * w)
  {
    var p := Power(w, 5);
    assert Power(w, 6) == p * w;
    PowerStepTwo(w, 6);
    PowerStepTwo(w, 8);
    assert (p * w) * (w * w) * (w * w) == p * ((w * w) * (w * w) * w);
  }

  lemma SeventhPowers()
    ensures Power(1.0, 7) == 1.0 && Power(2.0, 7) == 128.0 && Power(3.0, 7) == 2187.0
    ensures Power(4.0, 7) == 16384.0 && Power(5.0, 7) == 78125.0
  {
    forall d: real ensures Power(d, 7) == d * (d * d) * (d * d) * (d * d) {
      assert Power(d, 1) == Power(d, 0) * d;
      PowerStepTwo(d, 1);
      PowerStepTwo(d, 3);
      PowerStepTwo(d, 5);
    }
  }

  lemma TenthPowerWithin(w: real, low: real, high: real)
    requires 0.0 <= low <= w <= high
    ensures Power(low, 10) <= Power(w, 10) <= Power(high, 10)
  {
    PowerOrder(low, w, 10);
    PowerOrder(w, high, 10);
  }

  /** For the depths that a search with the default bound reaches, the truncated power is the true one but for less
    than 0.03 percent of its tenth power. */
  lemma DefaultDepthsWeighRight(d: nat)
    requires 1 <= d <= 5
    ensures 0.9997 * Power(d as real, 7) <= Power(PowOf(d as real, 0.7), 10) <= 1.0001 * Power(d as real, 7)
  {
    hide PowOf, Power;
    SeventhPowers();
    PowAtOne(0.7);
    TenthPower(1.0);
    if d == 2 { Pow2(); Tenth(PowOf(2.0, 0.7), 1.624504, 1.624505); }
    if d == 3 { Pow3(); Tenth(PowOf(3.0, 0.7), 2.157669, 2.157670); }
    if d == 4 { Pow4(); Tenth(PowOf(4.0, 0.7), 2.639010, 2.639011); }
    if d == 5 { Pow5(); Tenth(PowOf(5.0, 0.7), 3.085099, 3.085101); }
  }

  lemma Tenth(w: real, low: real, high: real)
    requires 0.0 <= low <= w <= high
    ensures var l, h := low * low, high * high;
      (l * l * low) * (l * l * low) <= Power(w, 10) <= (h * h * high) * (h * h * high)
  {
    hide Power;
    TenthPowerWithin(w, low, high);
    TenthPower(low);
    TenthPower(high);
  }

  /** One direct dependent and one behind it. */
  lemma RiskOfTwo()
    ensures 0.2442 < Normalize(TotalWeight([1, 2])) < 0.2443
  {
    hide *;
    WeightOfTwo();
    TotalOfTwo();
    Normalized(1.0 + Weight(2));
  }

  lemma WeightOfTwo()
    ensures 0.61557 < Weight(2) < 0.61558
  {
    hide PowOf;
    Pow2();
    var w, p := Weight(2), PowOf(2.0, 0.7);
    assert w * p == 1.0;
    SignOfFactor(w - 0.61557, p);
    SignOfFactor(0.61558 - w, p);
  }

  lemma TotalOfTwo()
    ensures TotalWeight([1, 2]) == 1.0 + Weight(2)
  {
    hide Weight;
    DeeperWeighsLess(1, 2);
    assert [1, 2][..1] == [1] && [1][..0] == [];
    assert TotalWeight([1]) == TotalWeight([]) + Weight(1);
  }

  lemma Normalized(raw: real)
    requires 1.61557 < raw < 1.61558
    ensures 0.2442 < Normalize(raw) < 0.2443
  {
    var n := Normalize(raw);
    assert n * (raw + 5.0) == raw;
    SignOfFactor(n - 0.2442, raw + 5.0);
    SignOfFactor(0.2443 - n, raw + 5.0);
  }
}
