/** The truncated series behind the risk score, over the reals.

  `ln` sums ten odd terms of an area-tangent series and `exp` nineteen terms of the Taylor series, so
  neither is the real function.  What the score needs of them is order: deeper means lighter. */
module RiskSeries {

  function Power(t: real, n: nat): real {
    if n == 0 then 1.0 else Power(t, n - 1) * t
  }

  /** t + t^3/3 + ... , `terms` terms. */
  function OddSum(t: real, terms: nat): real {
    if terms == 0 then 0.0
    else OddSum(t, terms - 1) + Power(t, 2 * terms - 1) / (2 * terms - 1) as real
  }

  /** x^n / n! */
  function ExpTerm(x: real, n: nat): real {
    if n == 0 then 1.0 else ExpTerm(x, n - 1) * (x / n as real)
  }

  function ExpSum(x: real, n: nat): real {
    if n == 0 then 1.0 else ExpSum(x, n - 1) + ExpTerm(x, n)
  }

  function LnOf(x: real): real {
    if x <= 0.0 then 0.0 else 2.0 * OddSum((x - 1.0) / (x + 1.0), 10)
  }

  function ExpOf(x: real): real { ExpSum(x, 19) }

  function PowOf(x: real, y: real): real {
    if y == 0.0 then 1.0
    else if y == 1.0 then x
    else if x <= 0.0 then 0.0
    else ExpOf(y * LnOf(x))
  }

  method Ln(x: real) returns (result: real)
    ensures result == LnOf(x)
  {
    if x <= 0.0 { return 0.0; }
    result := 0.0;
    var term := (x - 1.0) / (x + 1.0);
    var termSq := term * term;
    var power := term;
    var i := 1;
    while i < 20
      invariant 1 <= i <= 21 && i % 2 == 1
      invariant power == Power(term, i)
      invariant result == OddSum(term, (i - 1) / 2)
    {
      result := result + power / i as real;
      PowerStepTwo(term, i);
      power := power * termSq;
      i := i + 2;
    }
    return 2.0 * result;
  }

  lemma PowerStepTwo(t: real, n: nat)
    ensures Power(t, n + 2) == Power(t, n) * (t * t)
  {
    assert Power(t, n + 2) == Power(t, n + 1) * t == (Power(t, n) * t) * t;
  }

  method Exp(x: real) returns (result: real)
    ensures result == ExpOf(x)
  {
    result := 1.0;
    var term := 1.0;
    for i := 1 to 20
      invariant term == ExpTerm(x, i - 1)
      invariant result == ExpSum(x, i - 1)
    {
      term := term * (x / i as real);
      result := result + term;
    }
  }

  method Pow(x: real, y: real) returns (result: real)
    ensures result == PowOf(x, y)
  {
    if y == 0.0 { return 1.0; }
    if y == 1.0 { return x; }
    if x <= 0.0 { return 0.0; }
    var l := Ln(x);
    var exponent := y * l;
    result := Exp(exponent);
    assert exponent == y * LnOf(x);
  }

  // ----- Order -----

  lemma MulOrder(a: real, b: real, c: real, d: real)
    requires 0.0 <= a <= b && 0.0 <= c <= d
    ensures 0.0 <= a * c <= b * d
  {
    assert a * c <= b * c <= b * d;
  }

  lemma DivOrder(a: real, b: real, d: real)
    requires a <= b && d > 0.0
    ensures a / d <= b / d
  {
  }

  lemma {:induction false} PowerOrder(a: real, b: real, n: nat)
    requires 0.0 <= a <= b
    ensures 0.0 <= Power(a, n) <= Power(b, n)
  {
    if n == 0 {
    } else {
      PowerOrder(a, b, n - 1);
      MulOrder(Power(a, n - 1), Power(b, n - 1), a, b);
    }
  }

  /** Each sum exceeds the other at least by the difference of the first terms. */
  lemma {:induction false} OddSumOrder(a: real, b: real, terms: nat)
    requires 0.0 <= a <= b && 1 <= terms
    ensures 0.0 <= OddSum(a, terms)
    ensures OddSum(a, terms) + (b - a) <= OddSum(b, terms)
  {
    PowerOrder(a, b, 2 * terms - 1);
    DivOrder(Power(a, 2 * terms - 1), Power(b, 2 * terms - 1), (2 * terms - 1) as real);
    DivOrder(0.0, Power(a, 2 * terms - 1), (2 * terms - 1) as real);
    if terms == 1 {
      assert OddSum(a, 0) == 0.0 && OddSum(b, 0) == 0.0;
      assert Power(a, 1) == Power(a, 0) * a && Power(b, 1) == Power(b, 0) * b;
    } else {
      OddSumOrder(a, b, terms - 1);
    }
  }

  lemma {:induction false} ExpTermOrder(a: real, b: real, n: nat)
    requires 0.0 <= a <= b
    ensures 0.0 <= ExpTerm(a, n) <= ExpTerm(b, n)
  {
    if n == 0 {
    } else {
      ExpTermOrder(a, b, n - 1);
      DivOrder(a, b, n as real);
      DivOrder(0.0, a, n as real);
      MulOrder(ExpTerm(a, n - 1), ExpTerm(b, n - 1), a / n as real, b / n as real);
    }
  }

  lemma {:induction false} ExpSumOrder(a: real, b: real, n: nat)
    requires 0.0 <= a <= b && 1 <= n
    ensures 1.0 + a <= ExpSum(a, n)
    ensures ExpSum(a, n) + (b - a) <= ExpSum(b, n)
  {
    ExpTermOrder(a, b, n);
    if n == 1 {
      assert ExpTerm(a, 1) == ExpTerm(a, 0) * (a / 1.0) == a;
      assert ExpTerm(b, 1) == ExpTerm(b, 0) * (b / 1.0) == b;
      assert ExpSum(a, 0) == 1.0 && ExpSum(b, 0) == 1.0;
    } else {
      ExpSumOrder(a, b, n - 1);
    }
  }

  lemma SignOfFactor(d: real, k: real)
    requires k > 0.0
    ensures d * k >= 0.0 ==> d >= 0.0
    ensures d * k > 0.0 ==> d > 0.0
  {
    if d < 0.0 { assert (-d) * k > 0.0; }
  }

  lemma FractionOrder(x: real, y: real)
    requires 1.0 <= x <= y
    ensures 0.0 <= (x - 1.0) / (x + 1.0) <= (y - 1.0) / (y + 1.0)
    ensures x < y ==> (x - 1.0) / (x + 1.0) < (y - 1.0) / (y + 1.0)
  {
    var a, b := (x - 1.0) / (x + 1.0), (y - 1.0) / (y + 1.0);
    assert a * (x + 1.0) == x - 1.0 && b * (y + 1.0) == y - 1.0;
    assert (b - a) * ((x + 1.0) * (y + 1.0)) == 2.0 * (y - x) by {
      assert b * ((x + 1.0) * (y + 1.0)) == (y - 1.0) * (x + 1.0);
      assert a * ((x + 1.0) * (y + 1.0)) == (x - 1.0) * (y + 1.0);
    }
    SignOfFactor(b - a, (x + 1.0) * (y + 1.0));
  }

  lemma LnOrder(x: real, y: real)
    requires 1.0 <= x <= y
    ensures 0.0 <= LnOf(x) <= LnOf(y)
    ensures x < y ==> LnOf(x) < LnOf(y)
  {
    FractionOrder(x, y);
    OddSumOrder((x - 1.0) / (x + 1.0), (y - 1.0) / (y + 1.0), 10);
  }

  /** From 1 on, the truncated power is at least 1 and increases with its base. */
  lemma PowOrder(x: real, y: real, e: real)
    requires 1.0 <= x <= y && e > 0.0
    ensures 1.0 <= PowOf(x, e) <= PowOf(y, e)
    ensures x < y ==> PowOf(x, e) < PowOf(y, e)
  {
    if e != 1.0 {
      LnOrder(x, y);
      MulOrder(e, e, LnOf(x), LnOf(y));
      if x < y {
        assert e * LnOf(x) < e * LnOf(y);
      }
      ExpSumOrder(e * LnOf(x), e * LnOf(y), 19);
    }
  }

  lemma PowAtOne(e: real)
    ensures PowOf(1.0, e) == 1.0
  {
    if e != 0.0 && e != 1.0 {
      var t := (1.0 - 1.0) / (1.0 + 1.0);
      assert t == 0.0;
      OddSumAtZero(10);
      ExpSumAtZero(19);
    }
  }

  lemma {:induction false} OddSumAtZero(n: nat)
    ensures OddSum(0.0, n) == 0.0
  {
    if n > 0 {
      OddSumAtZero(n - 1);
      assert Power(0.0, 2 * n - 1) == Power(0.0, 2 * n - 2) * 0.0;
    }
  }

  lemma {:induction false} ExpSumAtZero(n: nat)
    ensures ExpSum(0.0, n) == 1.0
  {
    if n > 0 {
      ExpSumAtZero(n - 1);
      assert ExpTerm(0.0, n) == ExpTerm(0.0, n - 1) * (0.0 / n as real);
    }
  }

  // ----- Weights and the normalised score -----

  /** What one dependent at this depth adds to the raw score. */
  function Weight(depth: nat): real
    requires 1 <= depth
  {
    PowOrder(1.0, depth as real, 0.7);
    1.0 / PowOf(depth as real, 0.7)
  }

  function TotalWeight(depths: seq<nat>): real
    requires forall i | 0 <= i < |depths| :: 1 <= depths[i]
  {
    if depths == [] then 0.0
    else TotalWeight(depths[..|depths| - 1]) + Weight(depths[|depths| - 1])
  }

  function Normalize(raw: real): real {
    if raw > 0.0 then raw / (raw + 5.0) else 0.0
  }

  /** A direct dependent weighs 1; a deeper one strictly less, the less the deeper, but never nothing. */
  lemma DeeperWeighsLess(d: nat, e: nat)
    requires 1 <= d < e
    ensures 0.0 < Weight(e) < Weight(d) <= 1.0
    ensures Weight(1) == 1.0
  {
    PowOrder(d as real, e as real, 0.7);
    PowOrder(1.0, d as real, 0.7);
    PowAtOne(0.7);
    Reciprocals(PowOf(d as real, 0.7), PowOf(e as real, 0.7));
  }

  lemma Reciprocals(p: real, q: real)
    requires 1.0 <= p < q
    ensures 0.0 < 1.0 / q < 1.0 / p <= 1.0
  {
    var a, b := 1.0 / p, 1.0 / q;
    assert a * p == 1.0 && b * q == 1.0;
    assert b > 0.0;
    assert (a - b) * p == b * (q - p) by {
      assert b * (q - p) == b * q - b * p;
    }
    assert b * (q - p) > 0.0;
    SignOfFactor(a - b, p);
    SignOfFactor(1.0 - a, p);
  }

  lemma {:induction false} TotalWeightBounds(depths: seq<nat>)
    requires forall i | 0 <= i < |depths| :: 1 <= depths[i]
    ensures depths == [] ==> TotalWeight(depths) == 0.0
    ensures depths != [] ==> 0.0 < TotalWeight(depths) <= |depths| as real
    ensures TotalWeight(depths) == |depths| as real <==> forall i | 0 <= i < |depths| :: depths[i] == 1
  {
    if depths != [] {
      var init, last := depths[..|depths| - 1], depths[|depths| - 1];
      assert depths == init + [last];
      TotalWeightBounds(init);
      DeeperWeighsLess(last, last + 1);
      if last > 1 { DeeperWeighsLess(1, last); }
    }
  }

  lemma NormalizeOrder(a: real, b: real)
    requires 0.0 < a <= b
    ensures 0.0 < Normalize(a) <= Normalize(b) < 1.0
    ensures a < b ==> Normalize(a) < Normalize(b)
  {
    var p, q := Normalize(a), Normalize(b);
    assert p * (a + 5.0) == a && q * (b + 5.0) == b;
    assert q < 1.0;
    assert (q - p) * (a + 5.0) == (b - a) * (1.0 - q) by {
      assert q * (a + 5.0) == b - q * (b - a);
    }
    assert (b - a) * (1.0 - q) >= 0.0;
  }

  /** No dependents, no risk; n dependents, a risk in (0, n/(n+5)], reached exactly when all are direct. */
  lemma RiskBounds(depths: seq<nat>)
    requires forall i | 0 <= i < |depths| :: 1 <= depths[i]
    ensures depths == [] ==> Normalize(TotalWeight(depths)) == 0.0
    ensures depths != [] ==>
      0.0 < Normalize(TotalWeight(depths)) <= |depths| as real / (|depths| as real + 5.0)
    ensures depths != [] ==>
      (Normalize(TotalWeight(depths)) == |depths| as real / (|depths| as real + 5.0) <==>
       forall i | 0 <= i < |depths| :: depths[i] == 1)
  {
    hide Weight, TotalWeight;
    TotalWeightBounds(depths);
    if depths != [] {
      NormalizeOrder(TotalWeight(depths), |depths| as real);
    }
  }

  /** One more dependent, at any depth, raises the score. */
  lemma MoreDependentsMoreRisk(depths: seq<nat>, d: nat)
    requires 1 <= d && forall i | 0 <= i < |depths| :: 1 <= depths[i]
    ensures Normalize(TotalWeight(depths)) < Normalize(TotalWeight(depths + [d]))
  {
    var more := depths + [d];
    assert more[..|more| - 1] == depths;
    TotalWeightBounds(depths);
    DeeperWeighsLess(d, d + 1);
    if depths == [] {
      NormalizeOrder(TotalWeight(more), TotalWeight(more));
    } else {
      NormalizeOrder(TotalWeight(depths), TotalWeight(more));
    }
  }
}
