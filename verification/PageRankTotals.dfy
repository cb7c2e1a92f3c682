/** The totals that PageRank computes, round by round.

  Read from the callers' side, a round sends along every call a part of its caller's score.  So the total after
  k rounds is a sum over chains of calls in the list of callees alone, which says exactly when it exceeds 1; and a
  cycle of calls whose parts multiply to more than 1 makes it grow without bound. */
module PageRankTotals {
  import opened CallGraphs
  import opened FiniteSums
  import opened PageRanks
  import RiskSeries

  /** The part of its caller's score that one call sends on. */
  ghost function Part(g: GraphData, c: string): real {
    if c == "" || OutDegree(g, c) == 0 then 0.0 else DAMPING / OutDegree(g, c) as real
  }

  lemma ShareIsPart(g: GraphData, scores: Scores, c: string)
    ensures Share(g, scores, c) == Times(Part(g, c), Score(scores, c))
    ensures Part(g, c) >= 0.0
  {
    hide OutDegree, Score;
  }

  // ----- Totals as chains of calls -----

  /** The weight of all chains of j calls that begin at c: every call counts its part. */
  ghost function Chains(g: GraphData, c: string, j: nat): real
    decreases j
  {
    if j == 0 then 1.0
    else Times(Part(g, c), Weigh(Get(g.callees, c), (r: Reference) => Chains(g, r.symbol, j - 1)))
  }

  ghost function AllChains(g: GraphData, j: nat): real {
    Sum(g.Symbols(), (c: string) => Chains(g, c, j))
  }

  /** The undamped rest of all chains of j to j + k - 1 calls, and all of those of j + k calls. */
  ghost function ChainTotal(g: GraphData, j: nat, k: nat): real
    decreases k
  {
    if k == 0 then AllChains(g, j) else Times(1.0 - DAMPING, AllChains(g, j)) + ChainTotal(g, j + 1, k - 1)
  }

  /** What the scores amount to when every symbol counts the chains that begin at it. */
  ghost function Onward(g: GraphData, scores: Scores, j: nat): real {
    Sum(g.Symbols(), (s: string) => Times(Score(scores, s), Chains(g, s, j)))
  }

  /** What a call brings on, seen from where it arrives and from where it comes. */
  ghost function Brings(g: GraphData, scores: Scores, j: nat, r: Reference): real {
    Times(Share(g, scores, r.caller), Chains(g, r.symbol, j))
  }

  lemma ReceivedOnward(g: GraphData, log: seq<Reference>, scores: Scores, s: string, j: nat)
    requires g.Indexes(log) && s in g.Symbols()
    ensures Times(Score(Step(g, scores), s), Chains(g, s, j))
         == Times(Base(g), Chains(g, s, j)) + Weigh(Get(g.callers, s), (r: Reference) => Brings(g, scores, j, r))
  {
    hide Base, Step, Share, Score, Weigh, Times, Chains, GraphData.Indexes, GraphData.Symbols;
    var share, a := (r: Reference) => Share(g, scores, r.caller), Chains(g, s, j);
    var brings := (r: Reference) => Brings(g, scores, j, r);
    CalleesAreByCaller(g, log, s);
    StepScore(g, scores, s);
    forall r | r in Get(g.callers, s) ensures brings(r) == Times(a, share(r)) { TimesCommutes(share(r), a); }
    WeighScale(Get(g.callers, s), a, share, brings);
    TimesDistributes(a, Base(g), Weigh(Get(g.callers, s), share));
    TimesCommutes(a, Weigh(Get(g.callers, s), share));
  }

  lemma TimesCommutes(a: real, b: real)
    ensures Times(a, b) == Times(b, a)
  {
  }

  lemma TimesAssociates(a: real, b: real, c: real)
    ensures Times(Times(a, b), c) == Times(a, Times(b, c))
  {
  }

  lemma SentOnward(g: GraphData, log: seq<Reference>, scores: Scores, c: string, j: nat)
    requires g.Indexes(log)
    ensures Weigh(Get(g.callees, c), (r: Reference) => Brings(g, scores, j, r))
         == Times(Score(scores, c), Chains(g, c, j + 1))
  {
    hide Share, Score, Weigh, Times, Part, GraphData.Indexes;
    var share := Share(g, scores, c);
    var onward := (r: Reference) => Chains(g, r.symbol, j);
    CalleesAreByCaller(g, log, c);
    WeighScale(Get(g.callees, c), share, onward, (r: Reference) => Brings(g, scores, j, r));
    ShareIsPart(g, scores, c);
    TimesCommutes(Part(g, c), Score(scores, c));
    TimesAssociates(Score(scores, c), Part(g, c), Weigh(Get(g.callees, c), onward));
  }

  lemma StepOnward(g: GraphData, log: seq<Reference>, scores: Scores, j: nat)
    requires g.Indexes(log) && g.Symbols() != {}
    ensures Onward(g, Step(g, scores), j) == Times(Base(g), AllChains(g, j)) + Onward(g, scores, j + 1)
  {
    hide Sum, Base, Step, Score, Weigh, Times, Chains, Brings, GraphData.Indexes, GraphData.Symbols;
    var syms := g.Symbols();
    var brings := (r: Reference) => Brings(g, scores, j, r);
    forall s | s in syms { ReceivedOnward(g, log, scores, s, j); }
    SumLinear(syms, Base(g), (s: string) => Chains(g, s, j), (s: string) => Weigh(Get(g.callers, s), brings),
              (s: string) => Times(Score(Step(g, scores), s), Chains(g, s, j)));
    SumSwap(g, log, brings);
    forall c { SentOnward(g, log, scores, c, j); }
    SumSame(syms, (c: string) => Weigh(Get(g.callees, c), brings),
            (c: string) => Times(Score(scores, c), Chains(g, c, j + 1)));
  }

  lemma UniformOnward(g: GraphData, j: nat)
    requires g.Symbols() != {}
    ensures Times(|g.Symbols()| as real, Onward(g, Iterate(g, 0), j)) == AllChains(g, j)
  {
    hide Sum, Iterate, Score, Times, Chains, GraphData.Symbols;
    var n := |g.Symbols()| as real;
    var share := 1.0 / n;
    forall s { UniformScore(g, s); }
    SumScale(g.Symbols(), share, (s: string) => Chains(g, s, j),
             (s: string) => Times(Score(Iterate(g, 0), s), Chains(g, s, j)));
    Whole(n, AllChains(g, j));
  }

  lemma Whole(n: real, x: real)
    requires n > 0.0
    ensures Times(n, Times(1.0 / n, x)) == x
  {
    assert n * (1.0 / n) == 1.0;
    assert n * ((1.0 / n) * x) == (n * (1.0 / n)) * x;
  }

  lemma {:induction false} IterateOnward(g: GraphData, log: seq<Reference>, k: nat, j: nat)
    requires g.Indexes(log) && g.Symbols() != {}
    ensures Times(|g.Symbols()| as real, Onward(g, Iterate(g, k), j)) == ChainTotal(g, j, k)
    decreases k
  {
    hide Base, Step, Times, AllChains, Onward, GraphData.Indexes, GraphData.Symbols;
    if k == 0 {
      UniformOnward(g, j);
    } else {
      var n := |g.Symbols()| as real;
      IterateOnward(g, log, k - 1, j + 1);
      StepOnward(g, log, Iterate(g, k - 1), j);
      TimesDistributes(n, Times(Base(g), AllChains(g, j)), Onward(g, Iterate(g, k - 1), j + 1));
      BaseTotal(g);
      TimesAssociates(n, Base(g), AllChains(g, j));
    }
  }

  /** The total after any number of rounds, from the chains of calls alone. */
  lemma TotalByChains(g: GraphData, log: seq<Reference>, k: nat)
    requires g.Indexes(log) && g.Symbols() != {}
    ensures Times(|g.Symbols()| as real, Mass(g, Iterate(g, k))) == ChainTotal(g, 0, k)
  {
    hide Sum, Iterate, Times, Score, GraphData.Indexes, GraphData.Symbols;
    IterateOnward(g, log, k, 0);
    var scores := Iterate(g, k);
    forall s ensures Times(Score(scores, s), Chains(g, s, 0)) == Score(scores, s) {
      TimesCommutes(Score(scores, s), 1.0);
      TimesDistributes(Score(scores, s), 0.0, 0.0);
    }
    SumSame(g.Symbols(), (s: string) => Score(Iterate(g, k), s),
            (s: string) => Times(Score(Iterate(g, k), s), Chains(g, s, 0)));
  }

  /** In every round, the total is at most 1 exactly when the chains of calls weigh no more than there are symbols. */
  lemma TotalWithinOneIff(g: GraphData, log: seq<Reference>, k: nat)
    requires g.Indexes(log) && g.Symbols() != {}
    ensures Mass(g, Iterate(g, k)) <= 1.0 <==> ChainTotal(g, 0, k) <= |g.Symbols()| as real
  {
    hide Mass, Iterate, ChainTotal, GraphData.Indexes, GraphData.Symbols;
    TotalByChains(g, log, k);
    TimesOrder(|g.Symbols()| as real, Mass(g, Iterate(g, k)));
  }

  lemma TimesOrder(n: real, x: real)
    requires n > 0.0
    ensures x <= 1.0 <==> Times(n, x) <= n
  {
    assert Times(n, x) - n == n * (x - 1.0);
  }

  /** Calls per distinct callee of a named caller. */
  ghost function Repetition(g: GraphData, c: string): real {
    if c == "" || OutDegree(g, c) == 0 then 0.0 else |Get(g.callees, c)| as real / OutDegree(g, c) as real
  }

  lemma OneCall(g: GraphData, c: string)
    ensures Chains(g, c, 1) == Times(DAMPING, Repetition(g, c))
  {
    hide Weigh, OutDegree;
    var refs := Get(g.callees, c);
    WeighConstant(refs, 1.0, (r: Reference) => Chains(g, r.symbol, 0));
    if c != "" && OutDegree(g, c) != 0 {
      var calls, out := |refs| as real, OutDegree(g, c) as real;
      assert (DAMPING / out) * calls == DAMPING * (calls / out);
    }
  }

  /** The first computed total is at most 1 exactly when repetitions average at most 1 over all symbols. */
  lemma FirstTotalWithinOneIff(g: GraphData, log: seq<Reference>)
    requires g.Indexes(log) && g.Symbols() != {}
    ensures Mass(g, Iterate(g, 1)) <= 1.0
       <==> Sum(g.Symbols(), (c: string) => Repetition(g, c)) <= |g.Symbols()| as real
  {
    hide Sum, Iterate, Mass, Chains, Repetition, GraphData.Indexes, GraphData.Symbols;
    var n := |g.Symbols()| as real;
    TotalWithinOneIff(g, log, 1);
    NoCall(g);
    forall c { OneCall(g, c); }
    SumScale(g.Symbols(), DAMPING, (c: string) => Repetition(g, c), (c: string) => Chains(g, c, 1));
  }

  lemma NoCall(g: GraphData)
    ensures AllChains(g, 0) == |g.Symbols()| as real
  {
    hide Sum, GraphData.Symbols;
    SumConstant(g.Symbols(), 1.0, (c: string) => Chains(g, c, 0));
  }

  // ----- Cycles of calls -----

  /** The part of the score of c that its calls of d send on, all together. */
  ghost function Gain(g: GraphData, c: string, d: string): real {
    Times(|ReferencesBy(Get(g.callers, d), c)| as real, Part(g, c))
  }

  /** The gains along a path, multiplied. */
  ghost function PathGain(g: GraphData, path: seq<string>): real {
    if |path| <= 1 then 1.0
    else Times(Gain(g, path[|path| - 2], path[|path| - 1]), PathGain(g, path[..|path| - 1]))
  }

  lemma {:induction false} ReceivedAtLeast(g: GraphData, scores: Scores, refs: seq<Reference>, c: string)
    requires NonNegative(scores)
    ensures Received(g, scores, refs) >= Times(|ReferencesBy(refs, c)| as real, Share(g, scores, c))
  {
    hide Share, PassedOn, Times;
    var share := Share(g, scores, c);
    TimesDistributes(share, 0.0, 0.0);
    if refs != [] {
      var init, last := refs[..|refs| - 1], refs[|refs| - 1];
      ReceivedAtLeast(g, scores, init, c);
      PassedOnBound(g, scores, last.caller);
      TimesDistributes(share, |ReferencesBy(init, c)| as real, 1.0);
    }
  }

  /** After a round every callee has at least what its caller's calls sent it. */
  lemma StepGains(g: GraphData, scores: Scores, c: string, d: string)
    requires NonNegative(scores) && g.Symbols() != {}
    ensures Score(Step(g, scores), d) >= Times(Gain(g, c, d), Score(scores, c))
    ensures Gain(g, c, d) >= 0.0
  {
    hide Received, Base, Share, Part, Times, GraphData.Symbols;
    var refs := Get(g.callers, d);
    var calls := |ReferencesBy(refs, c)| as real;
    ShareIsPart(g, scores, c);
    TimesAssociates(calls, Part(g, c), Score(scores, c));
    TimesSign(calls, Part(g, c));
    if d in g.Symbols() {
      BaseTotal(g);
      ReceivedAtLeast(g, scores, refs, c);
    } else {
      NoKeyNoCalls(g, d);
      TimesDistributes(Part(g, c), 0.0, 0.0);
      TimesDistributes(Score(scores, c), 0.0, 0.0);
    }
  }

  lemma NoKeyNoCalls(g: GraphData, d: string)
    requires d !in g.Symbols()
    ensures Get(g.callers, d) == []
  {
  }

  lemma TimesSign(a: real, b: real)
    requires a >= 0.0 && b >= 0.0
    ensures Times(a, b) >= 0.0
  {
  }

  lemma TimesGrows(a: real, b: real, c: real)
    requires a >= 0.0 && b <= c
    ensures Times(a, b) <= Times(a, c)
  {
    assert Times(a, c) - Times(a, b) == a * (c - b);
  }

  /** Along a path of calls a score arrives, multiplied by the gains, as many rounds later as the path is long. */
  lemma {:induction false} AlongPath(g: GraphData, log: seq<Reference>, path: seq<string>, k: nat)
    requires g.Indexes(log) && g.Symbols() != {} && path != []
    ensures Score(Iterate(g, k + |path| - 1), path[|path| - 1])
         >= Times(PathGain(g, path), Score(Iterate(g, k), path[0]))
    ensures PathGain(g, path) >= 0.0
  {
    hide Step, Score, Gain, Times, NonNegative, GraphData.Indexes, GraphData.Symbols;
    if |path| == 1 {
      TimesDistributes(Score(Iterate(g, k), path[0]), 0.0, 0.0);
    } else {
      var init, c, d := path[..|path| - 1], path[|path| - 2], path[|path| - 1];
      AlongPath(g, log, init, k);
      var before := Iterate(g, k + |path| - 2);
      IterateMass(g, log, k + |path| - 2);
      StepGains(g, before, c, d);
      TimesGrows(Gain(g, c, d), Times(PathGain(g, init), Score(Iterate(g, k), path[0])), Score(before, c));
      TimesAssociates(Gain(g, c, d), PathGain(g, init), Score(Iterate(g, k), path[0]));
      TimesSign(Gain(g, c, d), PathGain(g, init));
    }
  }

  /** A closed path of calls. */
  ghost predicate IsCycle(path: seq<string>) { |path| >= 2 && path[0] == path[|path| - 1] }

  /** Each time around a cycle of calls, the score of a symbol on it is multiplied by at least the gains. */
  lemma {:induction false} AroundCycle(g: GraphData, log: seq<Reference>, cycle: seq<string>, k: nat)
    requires g.Indexes(log) && IsCycle(cycle) && cycle[0] in g.Symbols()
    ensures Score(Iterate(g, k * (|cycle| - 1)), cycle[0])
         >= RiskSeries.Power(PathGain(g, cycle), k) / |g.Symbols()| as real
  {
    hide Step, Iterate, Score, PathGain, Times, GraphData.Indexes, GraphData.Symbols;
    var n, gain, length := |g.Symbols()| as real, PathGain(g, cycle), |cycle| - 1;
    if k == 0 {
      UniformScore(g, cycle[0]);
    } else {
      AroundCycle(g, log, cycle, k - 1);
      OneMoreTurn(k, length);
      AlongPath(g, log, cycle, (k - 1) * length);
      var power, before := RiskSeries.Power(gain, k - 1), Score(Iterate(g, (k - 1) * length), cycle[0]);
      TimesGrows(gain, power / n, before);
      PowerShared(gain, power, n);
    }
  }

  lemma OneMoreTurn(k: nat, length: nat)
    requires k > 0
    ensures k * length == (k - 1) * length + length
    ensures (k - 1) * length >= 0
  {
  }

  lemma PowerShared(gain: real, power: real, n: real)
    requires n > 0.0
    ensures Times(gain, power / n) == (power * gain) / n
  {
  }

  /** A symbol that calls itself: its score grows at least like the powers of what its calls of itself send on. */
  lemma SelfCallsGrow(g: GraphData, log: seq<Reference>, f: string, k: nat)
    requires g.Indexes(log) && f in g.Symbols()
    ensures Score(Iterate(g, k), f) >= RiskSeries.Power(Gain(g, f, f), k) / |g.Symbols()| as real
  {
    hide Iterate, Score, Gain, GraphData.Indexes, GraphData.Symbols;
    AroundCycle(g, log, [f, f], k);
    assert [f, f][..1] == [f];
    TimesCommutes(Gain(g, f, f), 1.0);
    TimesDistributes(Gain(g, f, f), 0.0, 0.0);
  }

  lemma {:induction false} PowerGrows(x: real, k: nat)
    requires x >= 1.0
    ensures RiskSeries.Power(x, k) >= 1.0 + Times(k as real, x - 1.0) >= 1.0
  {
    hide Times;
    var d := x - 1.0;
    TimesDistributes(d, 0.0, 0.0);
    if k > 0 {
      PowerGrows(x, k - 1);
      var power := RiskSeries.Power(x, k - 1);
      TimesDistributes(d, (k - 1) as real, 1.0);
      OneMoreFactor(power, x);
    }
  }

  lemma OneMoreFactor(power: real, x: real)
    requires power >= 1.0 && x >= 1.0
    ensures power * x >= power + x - 1.0
  {
    assert power * x - power - x + 1.0 == (power - 1.0) * (x - 1.0);
  }

  lemma QuotientExceeds(power: real, n: real, bound: real)
    requires n > 0.0 && power > Times(n, bound)
    ensures power / n > bound
  {
    assert power / n * n == power;
    if power / n <= bound { TimesGrows(n, power / n, bound); }
  }

  /** A cycle of calls with a gain above 1 makes the totals exceed every bound. */
  lemma GainingCycleIsUnbounded(g: GraphData, log: seq<Reference>, cycle: seq<string>, bound: real)
    requires g.Indexes(log) && g.Symbols() != {} && IsCycle(cycle) && PathGain(g, cycle) > 1.0
    ensures exists k: nat :: Mass(g, Iterate(g, k)) > bound
  {
    GainsAreCalls(g, cycle);
    hide Sum, Iterate, Score, PathGain, Times, Abs, NoRepeatedCalls, RiskSeries.Power, GraphData.Indexes,
         GraphData.Symbols;
    var n, gain := |g.Symbols()| as real, PathGain(g, cycle);
    AbsIsBound(n, bound);
    var rounds := RoundsFor(gain, Times(n, Abs(bound)));
    var k := RoundsAround(g, log, cycle, rounds);
    QuotientExceeds(RiskSeries.Power(gain, rounds), n, Abs(bound));
    IterateMass(g, log, k);
    SumNonNegative(g.Symbols(), (s: string) => Score(Iterate(g, k), s));
  }

  lemma AbsIsBound(n: real, bound: real)
    requires n > 0.0
    ensures Times(n, Abs(bound)) >= 0.0 && Abs(bound) >= bound
  {
  }

  lemma RoundsAround(g: GraphData, log: seq<Reference>, cycle: seq<string>, times: nat) returns (k: nat)
    requires g.Indexes(log) && IsCycle(cycle) && cycle[0] in g.Symbols()
    ensures Score(Iterate(g, k), cycle[0]) >= RiskSeries.Power(PathGain(g, cycle), times) / |g.Symbols()| as real
  {
    hide Iterate, Score, PathGain, RiskSeries.Power, GraphData.Indexes, GraphData.Symbols;
    k := times * (|cycle| - 1);
    AroundCycle(g, log, cycle, times);
  }

  lemma GainsAreCalls(g: GraphData, path: seq<string>)
    requires |path| >= 2 && PathGain(g, path) > 1.0
    ensures path[|path| - 1] in g.Symbols()
  {
    hide Part;
    if path[|path| - 1] !in g.Symbols() {
      NoKeyNoCalls(g, path[|path| - 1]);
    }
  }

  /** Powers of a number above 1 exceed every bound. */
  lemma RoundsFor(x: real, bound: real) returns (k: nat)
    requires x > 1.0 && bound >= 0.0
    ensures RiskSeries.Power(x, k) > bound
  {
    var d := x - 1.0;
    k := (bound / d).Floor + 1;
    PowerGrows(x, k);
    assert k as real > bound / d;
    assert bound / d * d == bound;
    TimesGrows(d, bound / d, k as real);
    TimesCommutes(d, k as real);
  }

  // ----- Examples -----

  function TwoCalls(caller: string, symbol: string): GraphData {
    var r := Reference(symbol, "main.go", 1, 1, caller, "call");
    EMPTY_GRAPH.Add(r).Add(r)
  }

  lemma TwoCallsIndexes(caller: string, symbol: string)
    ensures var g, r := TwoCalls(caller, symbol), Reference(symbol, "main.go", 1, 1, caller, "call");
      && g == GraphData(map[symbol := [r, r]], map[caller := [r, r]]) && g.Indexes([r, r])
      && g.Symbols() == {caller, symbol} && OutDegree(g, caller) == 1
  {
    var g, r := TwoCalls(caller, symbol), Reference(symbol, "main.go", 1, 1, caller, "call");
    assert EMPTY_GRAPH.Indexes([]);
    AddKeepsIndexes(EMPTY_GRAPH, [], r);
    AddKeepsIndexes(EMPTY_GRAPH.Add(r), [r], r);
    assert [r] + [r] == [r, r] && [] + [r] == [r];
    assert Called([r, r]) == {symbol};
  }

  lemma TwoCallsRank(caller: string, symbol: string, scores: Scores, s: string)
    requires caller != "" && s in {caller, symbol}
    ensures var g := TwoCalls(caller, symbol);
      && g.Symbols() != {}
      && Score(Step(g, scores), s) == Base(g) + (if s == symbol then 2.0 * DAMPING * Score(scores, caller) else 0.0)
  {
    TwoCallsIndexes(caller, symbol);
    hide TwoCalls, OutDegree, GraphData.Indexes;
    var g, r := TwoCalls(caller, symbol), Reference(symbol, "main.go", 1, 1, caller, "call");
    assert [r, r][..1] == [r] && [r][..0] == [];
    assert Received(g, scores, [r]) == Share(g, scores, caller);
    assert Received(g, scores, [r, r]) == Share(g, scores, caller) + Share(g, scores, caller);
  }

  /** A symbol that calls itself twice: its score passes 1 in the first round. */
  lemma SelfCalledTwice()
    ensures var g := TwoCalls("f", "f");
      g.Symbols() == {"f"} && Score(Iterate(g, 1), "f") == 1.85 && Mass(g, Iterate(g, 1)) == 1.85
  {
    TwoCallsIndexes("f", "f");
    hide TwoCalls, Step, Share, GraphData.Indexes, GraphData.Symbols;
    var g := TwoCalls("f", "f");
    assert g.Symbols() == {"f"};
    assert |{"f"}| == 1;
    UniformScore(g, "f");
    TwoCallsRank("f", "f", Iterate(g, 0), "f");
    OneTerm("f", (s: string) => Score(Iterate(g, 1), s));
  }

  lemma OneTerm(x: string, f: string -> real)
    ensures Sum({x}, f) == f(x)
  {
    SumPick({x}, f, x);
    assert {x} - {x} == {};
  }

  lemma TwoTerms(x: string, y: string, f: string -> real)
    requires x != y
    ensures Sum({x, y}, f) == f(x) + f(y)
  {
    SumPick({x, y}, f, x);
    assert {x, y} - {x} == {y};
    OneTerm(y, f);
  }

  lemma OtherCalledScores(k: nat)
    ensures var g := TwoCalls("a", "b");
      && g.Symbols() != {}
      && Score(Iterate(g, k), "a") == (if k == 0 then 0.5 else 0.075)
      && Score(Iterate(g, k), "b") == (if k == 0 then 0.5 else if k == 1 then 0.925 else 0.2025)
  {
    var g := TwoCalls("a", "b");
    TwoCallsIndexes("a", "b");
    hide TwoCalls, Step, Share, Iterate, GraphData.Indexes, GraphData.Symbols;
    assert |{"a", "b"}| == 2 by { assert "a"[0] != "b"[0]; }
    if k == 0 {
      UniformScore(g, "a");
      UniformScore(g, "b");
    } else {
      OtherCalledScores(k - 1);
      IterateStep(g, k);
      TwoCallsRank("a", "b", Iterate(g, k - 1), "a");
      TwoCallsRank("a", "b", Iterate(g, k - 1), "b");
      assert Base(g) == 0.075;
    }
  }

  /** Repeated calls alone do not make a computed total exceed 1: one symbol that calls another twice, and nothing
    else.  The totals are 1, 1, and 0.2775 from then on. */
  lemma OtherCalledTwice(k: nat)
    ensures var g := TwoCalls("a", "b");
      g.Symbols() != {} && !NoRepeatedCalls(g) && Mass(g, Iterate(g, k)) == if k <= 1 then 1.0 else 0.2775
  {
    var g, r := TwoCalls("a", "b"), Reference("b", "main.go", 1, 1, "a", "call");
    TwoCallsIndexes("a", "b");
    RepeatsItself(g, r);
    hide TwoCalls, Step, Iterate, GraphData.Indexes, GraphData.Symbols, NoRepeatedCalls;
    OtherCalledScores(k);
    assert "a" != "b" by { assert "a"[0] != "b"[0]; }
    TwoTerms("a", "b", (s: string) => Score(Iterate(g, k), s));
  }

  lemma RepeatsItself(g: GraphData, r: Reference)
    requires r.caller != "" && r.caller in g.callees && g.callees[r.caller] == [r, r]
    ensures !NoRepeatedCalls(g)
  {
    assert [r, r][0].symbol == [r, r][1].symbol;
  }

  function TwoCallsAndOne(): GraphData {
    TwoCalls("f", "f").Add(Reference("b", "main.go", 2, 1, "a", "call"))
  }

  lemma TwoCallsAndOneIndexes()
    ensures var g, f, b := TwoCallsAndOne(), Reference("f", "main.go", 1, 1, "f", "call"),
        Reference("b", "main.go", 2, 1, "a", "call");
      && g == GraphData(map["f" := [f, f], "b" := [b]], map["f" := [f, f], "a" := [b]]) && g.Indexes([f, f, b])
      && "f" != "a" && "f" != "b" && "a" != "b"
  {
    var f, b := Reference("f", "main.go", 1, 1, "f", "call"), Reference("b", "main.go", 2, 1, "a", "call");
    TwoCallsIndexes("f", "f");
    hide TwoCalls, GraphData.Indexes, GraphData.Symbols;
    assert "f"[0] != "a"[0] && "f"[0] != "b"[0] && "a"[0] != "b"[0];
    assert [f, f] + [b] == [f, f, b] && [] + [b] == [b];
    AddKeepsIndexes(TwoCalls("f", "f"), [f, f], b);
  }

  lemma TwoCallsAndOneSymbols()
    ensures var g := TwoCallsAndOne();
      && g.Symbols() == {"f", "a", "b"} && |g.Symbols()| == 3
      && OutDegree(g, "f") == 1 && OutDegree(g, "a") == 1 && OutDegree(g, "b") == 0
  {
    TwoCallsAndOneIndexes();
    hide TwoCallsAndOne, GraphData.Indexes;
    var g, f, b := TwoCallsAndOne(), Reference("f", "main.go", 1, 1, "f", "call"),
        Reference("b", "main.go", 2, 1, "a", "call");
    assert g.Symbols() == {"f", "a", "b"};
    hide GraphData.Symbols;
    CalledOnce(g, "f", f);
    CalledOnce(g, "a", b);
    assert Get(g.callees, "b") == [];
    assert Called([]) == {};
  }

  lemma CalledOnce(g: GraphData, c: string, r: Reference)
    requires Get(g.callees, c) in {[r], [r, r]}
    ensures OutDegree(g, c) == 1
  {
    assert Called(Get(g.callees, c)) == {r.symbol};
  }

  lemma ThreeChains(j: nat)
    ensures var g := TwoCallsAndOne();
      && Chains(g, "f", j) == RiskSeries.Power(1.7, j)
      && Chains(g, "b", j) == (if j == 0 then 1.0 else 0.0)
      && Chains(g, "a", j) == (if j == 0 then 1.0 else if j == 1 then 0.85 else 0.0)
  {
    TwoCallsAndOneIndexes();
    TwoCallsAndOneSymbols();
    hide TwoCallsAndOne, OutDegree, GraphData.Indexes, GraphData.Symbols;
    var g, f, b := TwoCallsAndOne(), Reference("f", "main.go", 1, 1, "f", "call"),
        Reference("b", "main.go", 2, 1, "a", "call");
    if j > 0 {
      ThreeChains(j - 1);
      var h := (r: Reference) => Chains(g, r.symbol, j - 1);
      WeighConstant([f, f], Chains(g, "f", j - 1), h);
      WeighConstant([b], Chains(g, "b", j - 1), h);
      WeighConstant([], 0.0, h);
    }
  }

  lemma ThreeTerms(x: string, y: string, z: string, f: string -> real)
    requires x != y && x != z && y != z
    ensures Sum({x, y, z}, f) == f(x) + f(y) + f(z)
  {
    SumPick({x, y, z}, f, x);
    assert {x, y, z} - {x} == {y, z};
    TwoTerms(y, z, f);
  }

  lemma ThreeTotals()
    ensures var g := TwoCallsAndOne();
      AllChains(g, 0) == 3.0 && AllChains(g, 1) == 2.55 && AllChains(g, 2) == 2.89
  {
    TwoCallsAndOneIndexes();
    TwoCallsAndOneSymbols();
    hide Sum, TwoCallsAndOne, Chains, GraphData.Indexes, GraphData.Symbols;
    var g := TwoCallsAndOne();
    forall j: nat ensures AllChains(g, j) == Chains(g, "f", j) + Chains(g, "a", j) + Chains(g, "b", j) {
      ThreeTerms("f", "a", "b", (c: string) => Chains(g, c, j));
    }
    ThreeChains(0);
    ThreeChains(1);
    ThreeChains(2);
    assert RiskSeries.Power(1.7, 2) == RiskSeries.Power(1.7, 1) * 1.7 == RiskSeries.Power(1.7, 0) * 1.7 * 1.7;
  }

  lemma SelfGain()
    ensures Gain(TwoCallsAndOne(), "f", "f") == 1.7
  {
    TwoCallsAndOneIndexes();
    TwoCallsAndOneSymbols();
    hide TwoCallsAndOne, OutDegree, GraphData.Indexes, GraphData.Symbols;
    var f := Reference("f", "main.go", 1, 1, "f", "call");
    assert [f, f][..1] == [f] && [f][..0] == [];
    assert ReferencesBy([f], "f") == [f];
  }

  /** A symbol that calls itself twice beside one call between two others: the repetitions add up to the number of
    symbols, so the first total is 1.  It is the second, of a round that is computed, that exceeds 1, and the score
    of the first symbol is at least 1.7 to the power of the round, divided by 3. */
  lemma LaterTotalsExceedOne(k: nat)
    ensures var g := TwoCallsAndOne();
      && g.Symbols() != {} && Mass(g, Iterate(g, 1)) == 1.0
      && !Settled(g, 1) && Mass(g, Iterate(g, 2)) > 1.24
      && Score(Iterate(g, k), "f") >= RiskSeries.Power(1.7, k) / 3.0
  {
    var g, f, b := TwoCallsAndOne(), Reference("f", "main.go", 1, 1, "f", "call"),
        Reference("b", "main.go", 2, 1, "a", "call");
    var log := [f, f, b];
    TwoCallsAndOneIndexes();
    TwoCallsAndOneSymbols();
    hide TwoCallsAndOne, Chains, AllChains, ChainTotal, Mass, Iterate, Score, Step, Settled, Times, OutDegree,
         RiskSeries.Power, Gain, GraphData.Indexes, GraphData.Symbols;
    SelfGain();
    ThreeTotals();
    TotalByChains(g, log, 1);
    TotalByChains(g, log, 2);
    FirstChainTotals(g);
    SelfCallsGrow(g, log, "f", k);
    SelfCallsGrow(g, log, "f", 1);
    PowerOne(1.7);
    UniformScore(g, "f");
    MovedIsNotSettled(g, "f");
    TimesIs(3.0, Mass(g, Iterate(g, 1)));
    TimesIs(3.0, Mass(g, Iterate(g, 2)));
  }

  lemma TimesIs(a: real, b: real)
    ensures Times(a, b) == a * b
  {
  }

  lemma PowerOne(x: real)
    ensures RiskSeries.Power(x, 1) == x
  {
    assert RiskSeries.Power(x, 1) == RiskSeries.Power(x, 0) * x;
  }

  lemma MovedIsNotSettled(g: GraphData, s: string)
    requires s in g.Symbols() && Score(Iterate(g, 1), s) - Score(Iterate(g, 0), s) >= 0.0001
    ensures !Settled(g, 1)
  {
    hide Iterate, Score;
  }

  lemma FirstChainTotals(g: GraphData)
    ensures ChainTotal(g, 0, 1) == (1.0 - DAMPING) * AllChains(g, 0) + AllChains(g, 1)
    ensures ChainTotal(g, 0, 2)
         == (1.0 - DAMPING) * AllChains(g, 0) + (1.0 - DAMPING) * AllChains(g, 1) + AllChains(g, 2)
  {
    hide AllChains;
    assert ChainTotal(g, 1, 1) == (1.0 - DAMPING) * AllChains(g, 1) + ChainTotal(g, 2, 0);
  }
}
