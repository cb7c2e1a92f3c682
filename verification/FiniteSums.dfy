/** Sums of reals over finite sets of names, independent of the order of summation. */
module FiniteSums {

  function Abs(x: real): real { if x < 0.0 then -x else x }

  ghost function Sum(s: set<string>, f: string -> real): real {
    if s == {} then 0.0
    else
      var x :| x in s;
      f(x) + Sum(s - {x}, f)
  }

  lemma {:induction false} SumPick(s: set<string>, f: string -> real, y: string)
    requires y in s
    ensures Sum(s, f) == f(y) + Sum(s - {y}, f)
  {
    var x :| x in s && Sum(s, f) == f(x) + Sum(s - {x}, f);
    if x != y {
      SumPick(s - {x}, f, y);
      SumPick(s - {y}, f, x);
      assert s - {x} - {y} == s - {y} - {x};
    }
  }

  lemma {:induction false} SumOrder(s: set<string>, f: string -> real, g: string -> real)
    requires forall x | x in s :: f(x) <= g(x)
    ensures Sum(s, f) <= Sum(s, g)
  {
    if s != {} {
      var x :| x in s;
      SumPick(s, f, x);
      SumPick(s, g, x);
      SumOrder(s - {x}, f, g);
    }
  }

  lemma SumSame(s: set<string>, f: string -> real, g: string -> real)
    requires forall x | x in s :: f(x) == g(x)
    ensures Sum(s, f) == Sum(s, g)
  {
    SumOrder(s, f, g);
    SumOrder(s, g, f);
  }

  function Times(a: real, b: real): real { a * b }

  lemma TimesDistributes(a: real, b: real, c: real)
    ensures Times(a, b + c) == Times(a, b) + Times(a, c)
    ensures Times(b + c, a) == Times(b, a) + Times(c, a)
    ensures Times(1.0, a) == a && Times(a, 0.0) == 0.0 && Times(0.0, a) == 0.0
  {
  }

  /** h = a * f + g, pointwise. */
  lemma {:induction false} SumLinear(s: set<string>, a: real, f: string -> real, g: string -> real, h: string -> real)
    requires forall x | x in s :: h(x) == Times(a, f(x)) + g(x)
    ensures Sum(s, h) == Times(a, Sum(s, f)) + Sum(s, g)
  {
    hide Times;
    TimesDistributes(a, 0.0, 0.0);
    if s != {} {
      var x :| x in s;
      SumPick(s, f, x);
      SumPick(s, g, x);
      SumPick(s, h, x);
      SumLinear(s - {x}, a, f, g, h);
      TimesDistributes(a, f(x), Sum(s - {x}, f));
    }
  }

  lemma SumPlus(s: set<string>, f: string -> real, g: string -> real, h: string -> real)
    requires forall x | x in s :: h(x) == f(x) + g(x)
    ensures Sum(s, h) == Sum(s, f) + Sum(s, g)
  {
    hide Sum;
    SumLinear(s, 1.0, f, g, h);
  }

  lemma SumScale(s: set<string>, a: real, f: string -> real, h: string -> real)
    requires forall x | x in s :: h(x) == Times(a, f(x))
    ensures Sum(s, h) == Times(a, Sum(s, f))
  {
    hide Sum, Times;
    var zero := (x: string) => 0.0;
    SumLinear(s, a, f, zero, h);
    SumConstant(s, 0.0, zero);
    TimesDistributes(|s| as real, 0.0, 0.0);
  }

  lemma {:induction false} SumConstant(s: set<string>, c: real, f: string -> real)
    requires forall x | x in s :: f(x) == c
    ensures Sum(s, f) == Times(|s| as real, c)
  {
    hide Times;
    TimesDistributes(c, |s| as real, 0.0);
    if s != {} {
      var x :| x in s;
      SumPick(s, f, x);
      SumConstant(s - {x}, c, f);
      assert |s| == |s - {x}| + 1;
      TimesDistributes(c, |s - {x}| as real, 1.0);
      TimesDistributes(c, c, c);
    }
  }

  /** Two functions that differ at one point differ by that much in the sum. */
  lemma SumBump(s: set<string>, f: string -> real, g: string -> real, y: string, d: real)
    requires y in s && g(y) == f(y) + d
    requires forall x | x in s && x != y :: g(x) == f(x)
    ensures Sum(s, g) == Sum(s, f) + d
  {
    SumPick(s, f, y);
    SumPick(s, g, y);
    SumSame(s - {y}, f, g);
  }

  lemma SumNonNegative(s: set<string>, f: string -> real)
    requires forall x | x in s :: f(x) >= 0.0
    ensures Sum(s, f) >= 0.0
    ensures forall x | x in s :: f(x) <= Sum(s, f)
  {
    SumOrder(s, (x: string) => 0.0, f);
    SumConstant(s, 0.0, (x: string) => 0.0);
    forall x | x in s ensures f(x) <= Sum(s, f) {
      SumPick(s, f, x);
      SumOrder(s - {x}, (z: string) => 0.0, f);
      SumConstant(s - {x}, 0.0, (z: string) => 0.0);
    }
  }
}
