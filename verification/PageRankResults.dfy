/** What the computation returns for three small graphs: one that settles for good, one that is stopped when it has
  almost settled, and one that never settles. */
module PageRankResults {
  import opened CallGraphs
  import opened FiniteSums
  import opened PageRanks
  import opened PageRankTotals
  import RiskSeries

  function Call(caller: string, symbol: string): Reference { Reference(symbol, "main.go", 1, 1, caller, "call") }

  lemma LastRoundIs(g: GraphData, k: nat, last: nat)
    requires g.Symbols() != {} && LastRound(g, k) && 1 <= last <= 20
    requires last < 20 ==> Settled(g, last)
    requires forall j | 1 <= j < last :: !Settled(g, j)
    ensures k == last
  {
    hide Settled;
  }

  lemma MovedAt(g: GraphData, s: string, k: nat)
    requires s in g.Symbols() && k >= 1 && Abs(Score(Iterate(g, k), s) - Score(Iterate(g, k - 1), s)) >= 0.0001
    ensures !Settled(g, k)
  {
    hide Iterate, Score;
  }

  /** A score table is its scores. */
  lemma TableOf(g: GraphData, k: nat)
    requires g.Symbols() != {}
    ensures Iterate(g, k) == map s | s in g.Symbols() :: Score(Iterate(g, k), s)
  {
  }

  // ----- A chain of three calls -----

  function Chain(): GraphData {
    EMPTY_GRAPH.Add(Call("a", "b")).Add(Call("b", "c")).Add(Call("c", "d"))
  }

  lemma ChainIndexes()
    ensures var g, ab, bc, cd := Chain(), Call("a", "b"), Call("b", "c"), Call("c", "d");
      && g == GraphData(map["b" := [ab], "c" := [bc], "d" := [cd]], map["a" := [ab], "b" := [bc], "c" := [cd]])
      && "a" != "b" && "a" != "c" && "a" != "d" && "b" != "c" && "b" != "d" && "c" != "d"
  {
    assert "a"[0] != "b"[0] && "a"[0] != "c"[0] && "a"[0] != "d"[0];
    assert "b"[0] != "c"[0] && "b"[0] != "d"[0] && "c"[0] != "d"[0];
    assert forall r: Reference :: [] + [r] == [r];
  }

  lemma ChainSymbols()
    ensures Chain().Symbols() == {"a", "b", "c", "d"} && |Chain().Symbols()| == 4 && Base(Chain()) == 0.0375
  {
    ChainIndexes();
    hide Chain;
    assert Chain().Symbols() == {"a", "b", "c", "d"};
  }

  lemma ReceivedFromOne(g: GraphData, scores: Scores, caller: string, symbol: string)
    requires caller != "" && Get(g.callees, caller) == [Call(caller, symbol)]
    requires Get(g.callers, symbol) == [Call(caller, symbol)]
    ensures Received(g, scores, Get(g.callers, symbol)) == 0.85 * Score(scores, caller)
  {
    var refs := [Call(caller, symbol)];
    assert Called(refs) == {symbol};
    assert refs[..0] == [];
    assert Received(g, scores, refs) == Received(g, scores, []) + Share(g, scores, caller);
  }

  /** The scores after every round. */
  lemma {:induction false} ChainScores(k: nat)
    ensures var g := Chain();
      && g.Symbols() != {}
      && Score(Iterate(g, k), "a") == (if k == 0 then 0.25 else 0.0375)
      && Score(Iterate(g, k), "b") == (if k <= 1 then 0.25 else 0.069375)
      && Score(Iterate(g, k), "c") == (if k <= 2 then 0.25 else 0.09646875)
      && Score(Iterate(g, k), "d") == (if k <= 3 then 0.25 else 0.1194984375)
  {
    var g := Chain();
    ChainIndexes();
    ChainSymbols();
    hide Chain, Iterate, Received, Base, GraphData.Symbols;
    if k == 0 {
      UniformScore(g, "a");
      UniformScore(g, "b");
      UniformScore(g, "c");
      UniformScore(g, "d");
    } else {
      var prev := Iterate(g, k - 1);
      ChainScores(k - 1);
      IterateStep(g, k);
      ReceivedNothing(g, prev);
      ReceivedFromOne(g, prev, "a", "b");
      ReceivedFromOne(g, prev, "b", "c");
      ReceivedFromOne(g, prev, "c", "d");
    }
  }

  lemma ChainMoves(k: nat)
    requires 1 <= k < 5
    ensures var g := Chain(); g.Symbols() != {} && !Settled(g, k)
  {
    var g := Chain();
    ChainSymbols();
    hide Chain, Iterate, Score, Settled, GraphData.Symbols;
    ChainScores(k - 1);
    ChainScores(k);
    MovedAt(g, if k == 1 then "a" else if k == 2 then "b" else if k == 3 then "c" else "d", k);
  }

  lemma ChainRests()
    ensures var g := Chain(); g.Symbols() != {} && Settled(g, 5)
  {
    var g := Chain();
    ChainSymbols();
    hide Chain, Iterate, Score;
    ChainScores(4);
    ChainScores(5);
    SettledIff(g, 5);
  }

  lemma ChainTable()
    ensures Chain().Symbols() != {}
    ensures Iterate(Chain(), 5) == map["a" := 0.0375, "b" := 0.069375, "c" := 0.09646875, "d" := 0.1194984375]
  {
    var g := Chain();
    ChainSymbols();
    ChainNames();
    hide Chain, Iterate, Score, GraphData.Symbols;
    ChainScores(5);
    TableOf(g, 5);
  }

  lemma ChainNames()
    ensures "a" != "b" && "a" != "c" && "a" != "d" && "b" != "c" && "b" != "d" && "c" != "d"
  {
    ChainIndexes();
  }

  /** It settles in the fifth round. */
  method RankedChain() returns (scores: Scores)
    ensures scores == map["a" := 0.0375, "b" := 0.069375, "c" := 0.09646875, "d" := 0.1194984375]
  {
    hide Iterate, LastRound, Settled, Stationary, NoRepeatedCalls, NearLimit, GraphData.Symbols, GraphData.Indexes,
         GraphData.Add;
    var cg := new CallGraph();
    cg.AddReference(Call("a", "b"));
    cg.AddReference(Call("b", "c"));
    cg.AddReference(Call("c", "d"));
    scores := ComputePageRank(cg);
    ChainTable();
    forall j | 1 <= j < 5 ensures !Settled(Chain(), j) { ChainMoves(j); }
    ChainRests();
    ghost var k :| LastRound(Chain(), k) && scores == Iterate(Chain(), k);
    LastRoundIs(Chain(), k, 5);
  }

  // ----- A symbol that calls itself twice -----

  /** The scores after every round, in closed form. */
  lemma {:induction false} SelfCallerScores(k: nat)
    ensures var g := TwoCalls("f", "f");
      g.Symbols() == {"f"} && Score(Iterate(g, k), "f") == (17.0 * RiskSeries.Power(1.7, k) - 3.0) / 14.0
  {
    var g := TwoCalls("f", "f");
    TwoCallsIndexes("f", "f");
    hide TwoCalls, Iterate, Step, GraphData.Symbols;
    assert |{"f"}| == 1;
    if k == 0 {
      UniformScore(g, "f");
    } else {
      SelfCallerScores(k - 1);
      IterateStep(g, k);
      TwoCallsRank("f", "f", Iterate(g, k - 1), "f");
    }
  }

  lemma SelfCallerMoves(k: nat)
    requires k > 0
    ensures var g := TwoCalls("f", "f"); g.Symbols() != {} && !Settled(g, k)
  {
    var g := TwoCalls("f", "f");
    hide TwoCalls, Iterate, Score, GraphData.Symbols;
    SelfCallerScores(k);
    SelfCallerScores(k - 1);
    PowerGrows(1.7, k - 1);
    assert RiskSeries.Power(1.7, k) == RiskSeries.Power(1.7, k - 1) * 1.7;
    MovedAt(g, "f", k);
  }

  /** It never settles, so the result is that of the twentieth round. */
  method RankedSelfCaller() returns (scores: Scores)
    ensures scores == map["f" := (17.0 * RiskSeries.Power(1.7, 20) - 3.0) / 14.0]
  {
    hide Iterate, Score, LastRound, Settled, Stationary, NoRepeatedCalls, NearLimit, RiskSeries.Power,
         GraphData.Symbols, GraphData.Indexes, GraphData.Add;
    var cg := new CallGraph();
    cg.AddReference(Call("f", "f"));
    cg.AddReference(Call("f", "f"));
    scores := ComputePageRank(cg);
    ghost var g := TwoCalls("f", "f");
    SelfCallerScores(20);
    ghost var k :| LastRound(g, k) && scores == Iterate(g, k);
    forall j | 1 <= j < 20 ensures !Settled(g, j) { SelfCallerMoves(j); }
    LastRoundIs(g, k, 20);
    TableOf(g, 20);
  }

  // ----- A symbol that calls itself and another -----

  function Loop(): GraphData { EMPTY_GRAPH.Add(Call("f", "f")).Add(Call("f", "b")) }

  lemma LoopIndexes()
    ensures var g, ff, fb := Loop(), Call("f", "f"), Call("f", "b");
      && g == GraphData(map["f" := [ff], "b" := [fb]], map["f" := [ff, fb]]) && "f" != "b"
      && g.Symbols() == {"f", "b"} && |g.Symbols()| == 2 && Base(g) == 0.075
  {
    assert "f"[0] != "b"[0];
    var g, ff, fb := Loop(), Call("f", "f"), Call("f", "b");
    assert [] + [ff] == [ff] && [] + [fb] == [fb] && [ff] + [fb] == [ff, fb];
    assert g.Symbols() == {"f", "b"};
  }

  lemma LoopRank(scores: Scores, s: string)
    requires s in {"f", "b"}
    ensures var g := Loop();
      g.Symbols() != {} && Score(Step(g, scores), s) == 0.075 + 0.425 * Score(scores, "f")
  {
    LoopIndexes();
    hide Loop, Base;
    var g, ff, fb := Loop(), Call("f", "f"), Call("f", "b");
    assert Called([ff, fb]) == {"f", "b"};
    assert OutDegree(g, "f") == 2;
    hide OutDegree, Score;
    var refs := Get(g.callers, s);
    assert |refs| == 1 && refs[0].caller == "f" && refs[..0] == [];
    assert Received(g, scores, refs) == Received(g, scores, []) + Share(g, scores, "f");
    StepOfRank(g, scores, s);
  }

  lemma StepOfRank(g: GraphData, scores: Scores, s: string)
    requires s in g.Symbols()
    ensures Score(Step(g, scores), s) == Base(g) + Received(g, scores, Get(g.callers, s))
  {
  }

  /** Both scores after every round, in closed form: they approach 3/23. */
  function LoopScore(k: nat): real { 3.0 / 23.0 + 17.0 / 46.0 * RiskSeries.Power(0.425, k) }

  lemma {:induction false} LoopScores(k: nat)
    ensures var g := Loop();
      g.Symbols() != {} && Score(Iterate(g, k), "f") == LoopScore(k) && Score(Iterate(g, k), "b") == LoopScore(k)
  {
    var g := Loop();
    LoopIndexes();
    hide Loop, Iterate, Step, GraphData.Symbols;
    if k == 0 {
      UniformScore(g, "f");
      UniformScore(g, "b");
    } else {
      LoopScores(k - 1);
      IterateStep(g, k);
      LoopRank(Iterate(g, k - 1), "f");
      LoopRank(Iterate(g, k - 1), "b");
    }
  }

  lemma LoopDifference(k: nat)
    requires k > 0
    ensures LoopScore(k - 1) - LoopScore(k) == 0.2125 * RiskSeries.Power(0.425, k - 1)
  {
    assert RiskSeries.Power(0.425, k) == RiskSeries.Power(0.425, k - 1) * 0.425;
  }

  lemma EighthAndNinth()
    ensures RiskSeries.Power(0.425, 8) > 0.001 && RiskSeries.Power(0.425, 9) < 0.00047
  {
    forall n: nat ensures RiskSeries.Power(0.425, n + 1) == RiskSeries.Power(0.425, n) * 0.425 { }
    assert RiskSeries.Power(0.425, 1) == 0.425;
    assert RiskSeries.Power(0.425, 2) == 0.180625;
    assert RiskSeries.Power(0.425, 4) == 0.180625 * 0.180625;
  }

  lemma LoopMoves(k: nat)
    requires 1 <= k < 10
    ensures var g := Loop(); g.Symbols() != {} && !Settled(g, k)
  {
    var g := Loop();
    LoopIndexes();
    hide Loop, LoopScore, Iterate, Score, Settled, GraphData.Symbols;
    LoopScores(k - 1);
    LoopScores(k);
    LoopDifference(k);
    EighthAndNinth();
    PowerShrinks(k - 1, 8);
    MovedAt(g, "f", k);
  }

  lemma {:induction false} PowerShrinks(n: nat, m: nat)
    requires n <= m
    ensures RiskSeries.Power(0.425, n) >= RiskSeries.Power(0.425, m) >= 0.0
  {
    RiskSeries.PowerOrder(0.425, 0.425, m);
    if n < m {
      PowerShrinks(n, m - 1);
      assert RiskSeries.Power(0.425, m) == RiskSeries.Power(0.425, m - 1) * 0.425;
    }
  }

  lemma LoopRests()
    ensures var g := Loop(); g.Symbols() != {} && Settled(g, 10)
  {
    var g := Loop();
    LoopIndexes();
    hide Loop, LoopScore, Iterate, Score;
    LoopScores(9);
    LoopScores(10);
    LoopDifference(10);
    EighthAndNinth();
    PowerShrinks(9, 9);
    SettledIff(g, 10);
  }

  /** It is stopped after the tenth round, the first in which no score moves by 0.0001. */
  method RankedLoop() returns (scores: Scores)
    ensures scores == map["f" := LoopScore(10), "b" := LoopScore(10)]
  {
    hide LoopScore, Iterate, Score, LastRound, Settled, Stationary, NoRepeatedCalls, NearLimit, GraphData.Indexes,
         GraphData.Add;
    var cg := new CallGraph();
    cg.AddReference(Call("f", "f"));
    cg.AddReference(Call("f", "b"));
    scores := ComputePageRank(cg);
    ghost var g := Loop();
    LoopIndexes();
    hide GraphData.Symbols;
    LoopScores(10);
    ghost var k :| LastRound(g, k) && scores == Iterate(g, k);
    forall j | 1 <= j < 10 ensures !Settled(g, j) { LoopMoves(j); }
    LoopRests();
    LastRoundIs(g, k, 10);
    TableOf(g, 10);
  }
}
