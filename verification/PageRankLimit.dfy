/** The ranking that the iteration approaches: it exists for every graph without repeated calls.

  A stationary ranking solves one linear equation per symbol.  No symbol passes on more than the damped part of its
  score, so the symbols can be eliminated one after the other. */
module PageRankLimits {
  import opened CallGraphs
  import opened FiniteSums
  import opened PageRanks
  import opened PageRankTotals
  import RiskSeries

  type Matrix = (string, string) -> real

  /** Non-negative, and every column sums to at most the damping factor. */
  ghost predicate Damped(s: set<string>, m: Matrix) {
    && (forall r, c | r in s && c in s :: m(r, c) >= 0.0)
    && (forall c | c in s :: Sum(s, (r: string) => m(r, c)) <= DAMPING)
  }

  ghost predicate Solves(s: set<string>, m: Matrix, b: string -> real, x: string -> real) {
    forall r | r in s :: x(r) == b(r) + Sum(s, (c: string) => Times(m(r, c), x(c)))
  }

  function Pivot(m: Matrix, p: string): real {
    if m(p, p) == 1.0 then 0.0 else 1.0 / (1.0 - m(p, p))
  }

  /** The coefficients when the equation of p has been put into the others. */
  function Reduced(m: Matrix, p: string, r: string, c: string): real {
    m(r, c) + Times(Times(Pivot(m, p), m(p, c)), m(r, p))
  }

  lemma PivotIs(m: Matrix, p: string)
    requires 0.0 <= m(p, p) <= DAMPING
    ensures Pivot(m, p) > 0.0 && Times(Pivot(m, p), 1.0 - m(p, p)) == 1.0
  {
  }

  lemma ColumnEntry(s: set<string>, m: Matrix, r: string, c: string)
    requires Damped(s, m) && r in s && c in s
    ensures Sum(s, (q: string) => m(q, c)) == m(r, c) + Sum(s - {r}, (q: string) => m(q, c)) <= DAMPING
    ensures 0.0 <= m(r, c) <= DAMPING
  {
    hide Sum;
    var column := (q: string) => m(q, c);
    SumPick(s, column, r);
    SumNonNegative(s - {r}, column);
  }

  lemma ReducedColumn(s: set<string>, m: Matrix, p: string, c: string)
    requires Damped(s, m) && p in s && c in s - {p}
    ensures Sum(s - {p}, (r: string) => Reduced(m, p, r, c)) <= DAMPING
    ensures forall r | r in s - {p} :: Reduced(m, p, r, c) >= 0.0
  {
    hide Sum, Times, Pivot;
    var rest, share := s - {p}, Times(Pivot(m, p), m(p, c));
    ColumnEntry(s, m, p, p);
    ColumnEntry(s, m, p, c);
    PivotIs(m, p);
    TimesSign(Pivot(m, p), m(p, c));
    forall r | r in rest ensures Reduced(m, p, r, c) >= 0.0 { TimesSign(share, m(r, p)); }
    SumLinear(rest, share, (r: string) => m(r, p), (r: string) => m(r, c), (r: string) => Reduced(m, p, r, c));
    TimesGrows(share, Sum(rest, (r: string) => m(r, p)), 1.0 - m(p, p));
    Restored(Pivot(m, p), m(p, c), 1.0 - m(p, p));
  }

  lemma Restored(k: real, x: real, d: real)
    requires Times(k, d) == 1.0
    ensures Times(Times(k, x), d) == x
  {
    assert (k * x) * d == (k * d) * x;
  }

  lemma ReducedRow(s: set<string>, m: Matrix, p: string, r: string, y: string -> real)
    ensures Sum(s, (c: string) => Times(Reduced(m, p, r, c), y(c)))
         == Times(Times(m(r, p), Pivot(m, p)), Sum(s, (c: string) => Times(m(p, c), y(c))))
            + Sum(s, (c: string) => Times(m(r, c), y(c)))
  {
    hide Sum, Times, Reduced, Pivot;
    forall c
      ensures Times(Reduced(m, p, r, c), y(c))
           == Times(Times(m(r, p), Pivot(m, p)), Times(m(p, c), y(c))) + Times(m(r, c), y(c))
    {
      ReducedTerm(m, p, r, c, y(c));
    }
    SumLinear(s, Times(m(r, p), Pivot(m, p)), (c: string) => Times(m(p, c), y(c)), (c: string) => Times(m(r, c), y(c)),
              (c: string) => Times(Reduced(m, p, r, c), y(c)));
  }

  lemma ReducedTerm(m: Matrix, p: string, r: string, c: string, y: real)
    ensures Times(Reduced(m, p, r, c), y)
         == Times(Times(m(r, p), Pivot(m, p)), Times(m(p, c), y)) + Times(m(r, c), y)
  {
    hide Pivot;
    Regrouped(m(r, c), Pivot(m, p), m(p, c), m(r, p), y);
  }

  lemma Regrouped(a: real, k: real, b: real, c: real, y: real)
    ensures Times(a + Times(Times(k, b), c), y) == Times(Times(c, k), Times(b, y)) + Times(a, y)
  {
    assert (a + (k * b) * c) * y == a * y + ((k * b) * c) * y;
    assert ((k * b) * c) * y == (c * k) * (b * y);
  }

  /** The equations have a solution. */
  lemma {:induction false} Solve(s: set<string>, m: Matrix, b: string -> real) returns (x: string -> real)
    requires Damped(s, m)
    ensures Solves(s, m, b, x)
    decreases s
  {
    hide Sum, Times, Pivot, Reduced;
    if s == {} {
      x := b;
    } else {
      var p :| p in s;
      var rest, k := s - {p}, Pivot(m, p);
      var m' := (r: string, c: string) => Reduced(m, p, r, c);
      var b' := (r: string) => b(r) + Times(Times(m(r, p), k), b(p));
      forall c | c in rest
        ensures Sum(rest, (r: string) => m'(r, c)) <= DAMPING
        ensures forall r | r in rest :: m'(r, c) >= 0.0
      {
        ReducedColumn(s, m, p, c);
        SumSame(rest, (r: string) => m'(r, c), (r: string) => Reduced(m, p, r, c));
      }
      var y := Solve(rest, m', b');
      x := Completed(s, m, b, p, y);
      forall r | r in s ensures x(r) == b(r) + Sum(s, (c: string) => Times(m(r, c), x(c))) {
        EquationHolds(s, m, b, p, y, r);
      }
    }
  }

  /** What p is, given the others. */
  ghost function Completed(s: set<string>, m: Matrix, b: string -> real, p: string, y: string -> real): string -> real {
    (r: string) =>
      if r == p then Times(Pivot(m, p), b(p) + Sum(s - {p}, (c: string) => Times(m(p, c), y(c)))) else y(r)
  }

  lemma EquationHolds(s: set<string>, m: Matrix, b: string -> real, p: string, y: string -> real, r: string)
    requires Damped(s, m) && p in s && r in s
    requires Solves(s - {p}, (q: string, c: string) => Reduced(m, p, q, c),
                    (q: string) => b(q) + Times(Times(m(q, p), Pivot(m, p)), b(p)), y)
    ensures var x := Completed(s, m, b, p, y); x(r) == b(r) + Sum(s, (c: string) => Times(m(r, c), x(c)))
  {
    hide Sum, Times, Pivot, Reduced, Damped;
    var x, rest, k := Completed(s, m, b, p, y), s - {p}, Pivot(m, p);
    var row := (c: string) => Times(m(r, c), x(c));
    var others := Sum(rest, (c: string) => Times(m(p, c), y(c)));
    SumPick(s, row, p);
    SumSame(rest, row, (c: string) => Times(m(r, c), y(c)));
    ColumnEntry(s, m, p, p);
    PivotIs(m, p);
    if r == p {
      SolvedForPivot(k, m(p, p), b(p) + others);
    } else {
      ReducedRow(rest, m, p, r, y);
      SumSame(rest, (c: string) => Times(((q: string, c: string) => Reduced(m, p, q, c))(r, c), y(c)),
              (c: string) => Times(Reduced(m, p, r, c), y(c)));
      TimesAssociates(m(r, p), k, b(p) + others);
      TimesDistributes(Times(m(r, p), k), b(p), others);
    }
  }

  lemma SolvedForPivot(k: real, d: real, t: real)
    requires Times(k, 1.0 - d) == 1.0
    ensures Times(k, t) == Times(d, Times(k, t)) + t
  {
    assert (k * t) * (1.0 - d) == (k * (1.0 - d)) * t;
  }

  // ----- The equations of a ranking -----

  lemma {:induction false} CallsOf(refs: seq<Reference>, c: string, a: real, h: Reference -> real)
    requires forall r | r in refs :: h(r) == if r.caller == c then a else 0.0
    ensures Weigh(refs, h) == Times(|ReferencesBy(refs, c)| as real, a)
    ensures forall r | r in ReferencesBy(refs, c) :: r.caller == c
  {
    hide Times;
    TimesDistributes(a, 0.0, 0.0);
    if refs != [] {
      var init, last := refs[..|refs| - 1], refs[|refs| - 1];
      assert last in refs;
      CallsOf(init, c, a, h);
      TimesDistributes(a, |ReferencesBy(init, c)| as real, 1.0);
    }
  }

  lemma SentByCalls(g: GraphData, c: string)
    requires c == "" || NoRepeats(Get(g.callees, c))
    ensures Times(|Get(g.callees, c)| as real, Part(g, c)) <= DAMPING
  {
    hide NoRepeats, Called;
    DistinctCount(Get(g.callees, c));
    if c != "" && OutDegree(g, c) != 0 {
      var n := OutDegree(g, c) as real;
      assert n * (DAMPING / n) == DAMPING;
    }
  }

  /** All of what a caller without repeated calls passes on is at most the damped part. */
  lemma GainsOfCaller(g: GraphData, log: seq<Reference>, c: string)
    requires g.Indexes(log) && NoRepeatedCalls(g) && c in g.Symbols()
    ensures Sum(g.Symbols(), (s: string) => Gain(g, c, s)) <= DAMPING
  {
    hide Sum, Times, Part, Weigh, ReferencesBy, GraphData.Indexes, GraphData.Symbols;
    var syms, part := g.Symbols(), Part(g, c);
    var h := (r: Reference) => if r.caller == c then part else 0.0;
    SumSwap(g, log, h);
    forall s ensures Weigh(Get(g.callers, s), h) == Gain(g, c, s) { CallsOf(Get(g.callers, s), c, part, h); }
    SumSame(syms, (s: string) => Weigh(Get(g.callers, s), h), (s: string) => Gain(g, c, s));
    forall d ensures Weigh(Get(g.callees, d), h) == if d == c then Times(|Get(g.callees, c)| as real, part) else 0.0 {
      CalleesAreByCaller(g, log, d);
      WeighConstant(Get(g.callees, d), if d == c then part else 0.0, h);
      TimesDistributes(|Get(g.callees, d)| as real, 0.0, 0.0);
    }
    var zero := (s: string) => 0.0;
    SumConstant(syms, 0.0, zero);
    TimesDistributes(|syms| as real, 0.0, 0.0);
    SumBump(syms, zero, (d: string) => Weigh(Get(g.callees, d), h), c, Times(|Get(g.callees, c)| as real, part));
    NamedHasNoRepeats(g, c);
    SentByCalls(g, c);
  }

  lemma NamedHasNoRepeats(g: GraphData, c: string)
    requires NoRepeatedCalls(g)
    ensures c == "" || NoRepeats(Get(g.callees, c))
  {
    NothingRepeats();
  }

  lemma GainsAreDamped(g: GraphData, log: seq<Reference>)
    requires g.Indexes(log) && NoRepeatedCalls(g)
    ensures Damped(g.Symbols(), (s: string, c: string) => Gain(g, c, s))
  {
    hide Sum, Gain, NoRepeatedCalls, GraphData.Indexes, GraphData.Symbols;
    var m := (s: string, c: string) => Gain(g, c, s);
    forall c | c in g.Symbols() ensures Sum(g.Symbols(), (s: string) => m(s, c)) <= DAMPING {
      GainsOfCaller(g, log, c);
      SumSame(g.Symbols(), (s: string) => m(s, c), (s: string) => Gain(g, c, s));
    }
    forall s, c ensures Gain(g, c, s) >= 0.0 { GainIsNonNegative(g, c, s); }
  }

  lemma GainIsNonNegative(g: GraphData, c: string, s: string)
    ensures Gain(g, c, s) >= 0.0
  {
    ShareIsPart(g, map[], c);
    TimesSign(|ReferencesBy(Get(g.callers, s), c)| as real, Part(g, c));
  }

  /** A round, as one linear equation for every symbol. */
  lemma StepIsLinear(g: GraphData, log: seq<Reference>, scores: Scores, s: string)
    requires g.Indexes(log) && s in g.Symbols()
    ensures Score(Step(g, scores), s)
         == Base(g) + Sum(g.Symbols(), (c: string) => Times(Gain(g, c, s), Score(scores, c)))
  {
    hide Sum, Times, Step, Score, Base, Share, Part, Weigh, ReferencesBy, GraphData.Indexes, GraphData.Symbols;
    var syms, refs := g.Symbols(), Get(g.callers, s);
    var h := (r: Reference) => Share(g, scores, r.caller);
    StepScore(g, scores, s);
    CallersAreSymbols(g, log, s);
    CalleesAreByCaller(g, log, s);
    WeighBothWays(refs, syms, h);
    forall c ensures Weigh(ReferencesBy(refs, c), h) == Times(Gain(g, c, s), Score(scores, c)) {
      CallsOf(refs, c, 1.0, (r: Reference) => if r.caller == c then 1.0 else 0.0);
      WeighConstant(ReferencesBy(refs, c), Share(g, scores, c), h);
      ShareIsPart(g, scores, c);
      TimesAssociates(|ReferencesBy(refs, c)| as real, Part(g, c), Score(scores, c));
    }
    SumSame(syms, (c: string) => Weigh(ReferencesBy(refs, c), h),
            (c: string) => Times(Gain(g, c, s), Score(scores, c)));
  }

  lemma {:induction false} StationaryExists(g: GraphData, log: seq<Reference>) returns (p: Scores)
    requires g.Indexes(log) && g.Symbols() != {} && NoRepeatedCalls(g)
    ensures Stationary(g, p)
  {
    hide Sum, Times, Gain, Base, Rank, NoRepeatedCalls, GraphData.Indexes, GraphData.Symbols;
    var syms, base := g.Symbols(), Base(g);
    var m := (s: string, c: string) => Gain(g, c, s);
    GainsAreDamped(g, log);
    var x := Solve(syms, m, (s: string) => base);
    p := map s | s in syms :: x(s);
    var next := Step(g, p);
    forall s | s in syms ensures next[s] == p[s] {
      StepIsLinear(g, log, p, s);
      SumSame(syms, (c: string) => Times(Gain(g, c, s), Score(p, c)), (c: string) => Times(m(s, c), x(c)));
    }
    assert next == p;
  }

  /** Without repeated calls there is exactly one stationary ranking.  The rounds approach it geometrically, and when
    the loop stops early it is within 0.85/0.15 * n * 0.0001 of it. */
  lemma RankingConverges(g: GraphData, log: seq<Reference>) returns (p: Scores)
    requires g.Indexes(log) && g.Symbols() != {} && NoRepeatedCalls(g)
    ensures Stationary(g, p) && forall q | Stationary(g, q) :: q == p
    ensures forall k: nat ::
      Distance(g, Iterate(g, k), p) <= Times(RiskSeries.Power(DAMPING, k), Distance(g, Iterate(g, 0), p))
    ensures forall k: nat | 1 <= k && Settled(g, k) ::
      0.15 * Distance(g, Iterate(g, k), p) <= 0.85 * Times(|g.Symbols()| as real, 0.0001)
  {
    hide Distance, Step, Iterate, Settled, Stationary, Times, NoRepeatedCalls, RiskSeries.Power, GraphData.Indexes,
         GraphData.Symbols;
    p := StationaryExists(g, log);
    forall q | Stationary(g, q) ensures q == p { StationaryIsUnique(g, log, p, q); }
    forall k: nat
      ensures Distance(g, Iterate(g, k), p) <= Times(RiskSeries.Power(DAMPING, k), Distance(g, Iterate(g, 0), p))
      ensures 1 <= k && Settled(g, k) ==>
        0.15 * Distance(g, Iterate(g, k), p) <= 0.85 * Times(|g.Symbols()| as real, 0.0001)
    {
      GeometricDecay(g, log, k, p);
      if 1 <= k && Settled(g, k) { EarlyStopIsClose(g, log, k, p); }
    }
  }
}
