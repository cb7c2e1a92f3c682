/** PageRank over the call graph, with scores as real numbers.

  A round reads `callers` to collect contributions and `callees` to weigh them.  That the two indexes
  hold the same references turns the sum over receiving symbols into a sum over contributing callers,
  from which the bound on the total score and the contraction between rounds follow. */
module PageRanks {
  import opened CallGraphs
  import opened FiniteSums
  import RiskSeries

  const DAMPING := 0.85
  const ITERATIONS := 20
  const EPSILON := 0.0001

  type Scores = map<string, real>

  function Score(scores: Scores, s: string): real {
    if s in scores then scores[s] else 0.0
  }

  function Called(refs: seq<Reference>): set<string> {
    set r | r in refs :: r.symbol
  }

  /** Distinct symbols called. */
  function OutDegree(g: GraphData, caller: string): nat {
    |Called(Get(g.callees, caller))|
  }

  /** One of `out` equal parts of the damped score. */
  function Portion(score: real, out: nat): real
    requires out > 0
  {
    DAMPING * score / out as real
  }

  /** What one call by `caller` passes on: nothing for the nameless caller. */
  function Share(g: GraphData, scores: Scores, caller: string): real {
    if caller == "" || OutDegree(g, caller) == 0 then 0.0
    else Portion(Score(scores, caller), OutDegree(g, caller))
  }

  function Received(g: GraphData, scores: Scores, refs: seq<Reference>): real {
    if refs == [] then 0.0
    else Received(g, scores, refs[..|refs| - 1]) + Share(g, scores, refs[|refs| - 1].caller)
  }

  /** What every symbol gets before any contribution. */
  function Base(g: GraphData): real
    requires g.Symbols() != {}
  {
    (1.0 - DAMPING) / |g.Symbols()| as real
  }

  function Rank(g: GraphData, scores: Scores, s: string): real
    requires g.Symbols() != {}
  {
    Base(g) + Received(g, scores, Get(g.callers, s))
  }

  /** One round of the iteration, all symbols at once. */
  function Step(g: GraphData, scores: Scores): Scores
    requires g.Symbols() != {}
  {
    map s | s in g.Symbols() :: Rank(g, scores, s)
  }

  function Uniform(symbols: set<string>): Scores
    requires symbols != {}
  {
    map s | s in symbols :: 1.0 / |symbols| as real
  }

  function Iterate(g: GraphData, k: nat): Scores
    requires g.Symbols() != {}
  {
    if k == 0 then Uniform(g.Symbols())
    else Step(g, Iterate(g, k - 1))
  }

  /** No symbol's score differs by the threshold or more. */
  ghost predicate Quiet(g: GraphData, a: Scores, b: Scores) {
    forall s | s in g.Symbols() :: Abs(Score(a, s) - Score(b, s)) < 0.0001
  }

  /** No symbol moved by the threshold or more in round `k`. */
  ghost predicate Settled(g: GraphData, k: nat)
    requires g.Symbols() != {} && 1 <= k
  {
    Quiet(g, Iterate(g, k), Iterate(g, k - 1))
  }

  /** The iteration ends with the first settled round, or with the last allowed one. */
  ghost predicate LastRound(g: GraphData, k: nat)
    requires g.Symbols() != {}
  {
    && 1 <= k <= 20
    && (k < 20 ==> Settled(g, k))
    && forall j | 1 <= j < k :: !Settled(g, j)
  }

  lemma FirstIterate(g: GraphData)
    requires g.Symbols() != {}
    ensures Iterate(g, 0) == Uniform(g.Symbols())
  {
  }

  lemma IterateStep(g: GraphData, k: nat)
    requires g.Symbols() != {} && k > 0
    ensures Iterate(g, k) == Step(g, Iterate(g, k - 1))
  {
  }

  lemma SettledIff(g: GraphData, k: nat)
    requires g.Symbols() != {} && 1 <= k
    ensures Settled(g, k) <==> Quiet(g, Iterate(g, k), Iterate(g, k - 1))
  {
  }

  // ----- The computation -----

  method ComputePageRank(cg: CallGraph) returns (scores: Scores)
    requires cg.Valid()
    ensures cg.Data().Symbols() == {} ==> scores == map[]
    ensures cg.Data().Symbols() != {} ==>
      exists k :: LastRound(cg.Data(), k) && scores == Iterate(cg.Data(), k)
    ensures NoRepeatedCalls(cg.Data()) ==> NearLimit(cg.Data(), scores)
  {
    hide Uniform, Iterate, Stationary, LastRound, NoRepeatedCalls, NearLimit, OutDegree, GraphData.Indexes;
    var symbols := cg.callers.Keys + cg.callees.Keys;
    NothingIsNear(cg.Data());
    if |symbols| == 0 { return map[]; }
    var outDegree := OutDegrees(cg);
    var rounds;
    scores, rounds := Rounds(cg, symbols, outDegree);
    if NoRepeatedCalls(cg.Data()) { LastRoundIsNear(cg.Data(), cg.log, rounds); }
  }

  /** The rounds, from equal scores on, and how many there were. */
  method Rounds(cg: CallGraph, symbols: set<string>, outDegree: map<string, nat>)
    returns (scores: Scores, rounds: nat)
    requires symbols == cg.Data().Symbols() != {}
    requires outDegree.Keys == cg.callees.Keys
    requires forall c | c in outDegree :: outDegree[c] == OutDegree(cg.Data(), c)
    ensures LastRound(cg.Data(), rounds) && scores == Iterate(cg.Data(), rounds)
  {
    hide Uniform, Step, Quiet, OutDegree, Iterate, Settled, LastRound, GraphData.Symbols;
    ghost var g := cg.Data();
    scores := Uniform(symbols);
    FirstIterate(g);
    rounds := 0;
    while rounds < ITERATIONS
      invariant 0 <= rounds <= ITERATIONS
      invariant scores == Iterate(g, rounds)
      invariant forall j | 1 <= j <= rounds :: !Settled(g, j)
    {
      var newScores, maxDiff := OneRound(cg, symbols, outDegree, scores);
      scores := newScores;
      rounds := rounds + 1;
      IterateStep(g, rounds);
      SettledIff(g, rounds);
      if maxDiff < EPSILON { break; }
    }
    IsLastRound(g, rounds);
  }

  lemma IsLastRound(g: GraphData, k: nat)
    requires g.Symbols() != {} && 1 <= k <= ITERATIONS && (k < ITERATIONS ==> Settled(g, k))
    requires forall j | 1 <= j < k :: !Settled(g, j)
    ensures LastRound(g, k)
  {
    hide Settled;
  }

  lemma NothingIsNear(g: GraphData)
    ensures g.Symbols() == {} ==> NearLimit(g, map[])
  {
  }

  method OutDegrees(cg: CallGraph) returns (outDegree: map<string, nat>)
    ensures outDegree.Keys == cg.callees.Keys
    ensures forall c | c in outDegree :: outDegree[c] == OutDegree(cg.Data(), c)
  {
    outDegree := map[];
    var todo := cg.callees.Keys;
    while todo != {}
      invariant todo <= cg.callees.Keys
      invariant outDegree.Keys == cg.callees.Keys - todo
      invariant forall c | c in outDegree :: outDegree[c] == OutDegree(cg.Data(), c)
      decreases |todo|
    {
      var caller :| caller in todo;
      var refs, seen := cg.callees[caller], {};
      for i := 0 to |refs|
        invariant seen == Called(refs[..i])
      {
        assert refs[..i + 1] == refs[..i] + [refs[i]];
        seen := seen + {refs[i].symbol};
      }
      assert refs[..|refs|] == refs;
      outDegree := outDegree[caller := |seen|];
      todo := todo - {caller};
    }
  }

  /** One pass over all symbols, with the largest change of any score. */
  method OneRound(cg: CallGraph, symbols: set<string>, outDegree: map<string, nat>, scores: Scores)
    returns (newScores: Scores, maxDiff: real)
    requires symbols == cg.Data().Symbols() != {}
    requires outDegree.Keys == cg.callees.Keys
    requires forall c | c in outDegree :: outDegree[c] == OutDegree(cg.Data(), c)
    ensures newScores == Step(cg.Data(), scores)
    ensures maxDiff < EPSILON <==> Quiet(cg.Data(), newScores, scores)
  {
    hide Rank, OutDegree;
    ghost var g := cg.Data();
    newScores, maxDiff := map[], 0.0;
    var todo := symbols;
    while todo != {}
      invariant todo <= symbols
      invariant newScores.Keys == symbols - todo
      invariant forall s | s in newScores :: newScores[s] == Rank(g, scores, s)
      invariant maxDiff < EPSILON <==>
        forall s | s in newScores :: Abs(Rank(g, scores, s) - Score(scores, s)) < EPSILON
      decreases todo
    {
      var sym :| sym in todo;
      var rank := OneRank(cg, symbols, outDegree, scores, sym);
      newScores := newScores[sym := rank];
      var diff := rank - Score(scores, sym);
      if diff < 0.0 { diff := -diff; }
      if diff > maxDiff { maxDiff := diff; }
      todo := todo - {sym};
    }
  }

  /** Adds up the base score and the contributions of the callers of one symbol. */
  method OneRank(cg: CallGraph, symbols: set<string>, outDegree: map<string, nat>, scores: Scores, sym: string)
    returns (rank: real)
    requires symbols == cg.Data().Symbols() != {}
    requires outDegree.Keys == cg.callees.Keys
    requires forall c | c in outDegree :: outDegree[c] == OutDegree(cg.Data(), c)
    ensures rank == Rank(cg.Data(), scores, sym)
  {
    rank := (1.0 - DAMPING) / |symbols| as real;
    ghost var base := rank;
    hide Score, OutDegree, Received, Share, Portion, GraphData.Symbols;
    var callers := Get(cg.callers, sym);
    ReceivedNothing(cg.Data(), scores);
    for i := 0 to |callers|
      invariant rank == base + Received(cg.Data(), scores, callers[..i])
    {
      ReceivedNext(cg.Data(), scores, callers, i);
      var caller := callers[i].caller;
      if caller == "" { continue; }
      var out := if caller in outDegree then outDegree[caller] else 0;
      if out > 0 {
        rank := rank + Portion(Score(scores, caller), out);
      }
    }
    assert callers[..|callers|] == callers;
  }

  lemma ReceivedNothing(g: GraphData, scores: Scores)
    ensures Received(g, scores, []) == 0.0
    ensures forall c | c !in g.callees :: OutDegree(g, c) == 0
  {
  }

  lemma ReceivedNext(g: GraphData, scores: Scores, refs: seq<Reference>, i: nat)
    requires i < |refs|
    ensures var c := refs[i].caller;
      Received(g, scores, refs[..i + 1]) == Received(g, scores, refs[..i]) +
        (if c == "" || OutDegree(g, c) == 0 then 0.0 else Portion(Score(scores, c), OutDegree(g, c)))
  {
    assert refs[..i + 1][..i] == refs[..i];
  }

  // ----- Exchanging the order of summation -----

  /** The sum of h over a list of references. */
  ghost function Weigh(refs: seq<Reference>, h: Reference -> real): real {
    if refs == [] then 0.0
    else Weigh(refs[..|refs| - 1], h) + h(refs[|refs| - 1])
  }

  lemma WeighAppend(refs: seq<Reference>, h: Reference -> real, r: Reference)
    ensures Weigh(refs + [r], h) == Weigh(refs, h) + h(r)
  {
    assert (refs + [r])[..|refs|] == refs;
  }

  /** f = a * h, on every reference of the list. */
  lemma {:induction false} WeighScale(refs: seq<Reference>, a: real, h: Reference -> real, f: Reference -> real)
    requires forall r | r in refs :: f(r) == Times(a, h(r))
    ensures Weigh(refs, f) == Times(a, Weigh(refs, h))
  {
    hide Times;
    TimesDistributes(a, 0.0, 0.0);
    if refs != [] {
      var init, last := refs[..|refs| - 1], refs[|refs| - 1];
      assert last in refs;
      WeighScale(init, a, h, f);
      TimesDistributes(a, Weigh(init, h), h(last));
    }
  }

  lemma {:induction false} WeighConstant(refs: seq<Reference>, c: real, h: Reference -> real)
    requires forall r | r in refs :: h(r) == c
    ensures Weigh(refs, h) == Times(|refs| as real, c)
  {
    hide Times;
    TimesDistributes(c, 0.0, 0.0);
    if refs != [] {
      var init, last := refs[..|refs| - 1], refs[|refs| - 1];
      assert last in refs;
      WeighConstant(init, c, h);
      TimesDistributes(c, |init| as real, 1.0);
    }
  }

  lemma WeighLastReference(init: seq<Reference>, last: Reference, h: Reference -> real, x: string)
    ensures Weigh(ReferencesTo(init + [last], x), h)
         == Weigh(ReferencesTo(init, x), h) + (if last.symbol == x then h(last) else 0.0)
    ensures Weigh(ReferencesBy(init + [last], x), h)
         == Weigh(ReferencesBy(init, x), h) + (if last.caller == x then h(last) else 0.0)
  {
    hide ReferencesTo, ReferencesBy;
    LogGets(init, last, x);
    WeighAppend(ReferencesTo(init, x), h, last);
    WeighAppend(ReferencesBy(init, x), h, last);
    assert ReferencesTo(init, x) + [] == ReferencesTo(init, x);
    assert ReferencesBy(init, x) + [] == ReferencesBy(init, x);
  }

  lemma {:induction false} WeighBothWays(log: seq<Reference>, s: set<string>, h: Reference -> real)
    requires forall r | r in log :: r.symbol in s && r.caller in s
    ensures Sum(s, (x: string) => Weigh(ReferencesTo(log, x), h)) == Weigh(log, h)
    ensures Sum(s, (x: string) => Weigh(ReferencesBy(log, x), h)) == Weigh(log, h)
  {
    hide Sum, Times;
    if log == [] {
      SumConstant(s, 0.0, (x: string) => Weigh(ReferencesTo(log, x), h));
      SumConstant(s, 0.0, (x: string) => Weigh(ReferencesBy(log, x), h));
      TimesDistributes(|s| as real, 0.0, 0.0);
    } else {
      var init, last := log[..|log| - 1], log[|log| - 1];
      assert init + [last] == log;
      WeighBothWays(init, s, h);
      OneMoreReference(init, last, s, h);
    }
  }

  lemma OneMoreReference(init: seq<Reference>, last: Reference, s: set<string>, h: Reference -> real)
    requires last.symbol in s && last.caller in s
    ensures Sum(s, (x: string) => Weigh(ReferencesTo(init + [last], x), h))
         == Sum(s, (x: string) => Weigh(ReferencesTo(init, x), h)) + h(last)
    ensures Sum(s, (x: string) => Weigh(ReferencesBy(init + [last], x), h))
         == Sum(s, (x: string) => Weigh(ReferencesBy(init, x), h)) + h(last)
  {
    hide Sum, Weigh, ReferencesTo, ReferencesBy;
    forall x { WeighLastReference(init, last, h, x); }
    SumBump(s, (x: string) => Weigh(ReferencesTo(init, x), h), (x: string) => Weigh(ReferencesTo(init + [last], x), h),
            last.symbol, h(last));
    SumBump(s, (x: string) => Weigh(ReferencesBy(init, x), h), (x: string) => Weigh(ReferencesBy(init + [last], x), h),
            last.caller, h(last));
  }

  /** Summing over who receives is summing over who contributes, whatever each reference counts. */
  lemma SumSwap(g: GraphData, log: seq<Reference>, h: Reference -> real)
    requires g.Indexes(log)
    ensures Sum(g.Symbols(), (s: string) => Weigh(Get(g.callers, s), h))
         == Sum(g.Symbols(), (c: string) => Weigh(Get(g.callees, c), h))
  {
    forall r | r in log ensures r.symbol in g.Symbols() && r.caller in g.Symbols() {
      SymbolsAreLogged(g, log, r.symbol);
      SymbolsAreLogged(g, log, r.caller);
    }
    WeighBothWays(log, g.Symbols(), h);
    SumSame(g.Symbols(), (s: string) => Weigh(Get(g.callers, s), h),
                         (s: string) => Weigh(ReferencesTo(log, s), h));
    SumSame(g.Symbols(), (c: string) => Weigh(Get(g.callees, c), h),
                         (c: string) => Weigh(ReferencesBy(log, c), h));
  }

  // ----- Repeated calls -----

  ghost predicate NoRepeats(refs: seq<Reference>) {
    forall i, j | 0 <= i < j < |refs| :: refs[i].symbol != refs[j].symbol
  }

  /** No named caller references the same symbol twice. */
  ghost predicate NoRepeatedCalls(g: GraphData) {
    forall c | c in g.callees && c != "" :: NoRepeats(g.callees[c])
  }

  lemma {:induction false} DistinctCount(refs: seq<Reference>)
    ensures |Called(refs)| <= |refs|
    ensures |Called(refs)| == |refs| <==> NoRepeats(refs)
    ensures refs != [] ==> |Called(refs)| >= 1
  {
    hide NoRepeats;
    NothingRepeats();
    if refs != [] {
      var init, last := refs[..|refs| - 1], refs[|refs| - 1];
      DistinctCount(init);
      assert refs == init + [last];
      assert Called(refs) == Called(init) + {last.symbol};
      NoRepeatsLast(init, last);
    }
  }

  lemma NoRepeatsLast(init: seq<Reference>, last: Reference)
    ensures NoRepeats(init + [last]) <==> NoRepeats(init) && last.symbol !in Called(init)
  {
    var refs := init + [last];
    assert forall i | 0 <= i < |init| :: refs[i] == init[i];
    if last.symbol in Called(init) {
      var r :| r in init && r.symbol == last.symbol;
      var i :| 0 <= i < |init| && init[i] == r;
      assert refs[i].symbol == refs[|init|].symbol;
    } else {
      forall i | 0 <= i < |init| ensures init[i].symbol != last.symbol { assert init[i] in init; }
    }
  }

  // ----- Mass -----

  ghost function Mass(g: GraphData, scores: Scores): real {
    Sum(g.Symbols(), (s: string) => Score(scores, s))
  }

  ghost predicate NonNegative(scores: Scores) {
    forall s :: Score(scores, s) >= 0.0
  }

  lemma {:induction false} ReceivedIsWeighed(g: GraphData, scores: Scores, refs: seq<Reference>)
    ensures Received(g, scores, refs) == Weigh(refs, (r: Reference) => Share(g, scores, r.caller))
  {
    if refs != [] { ReceivedIsWeighed(g, scores, refs[..|refs| - 1]); }
  }

  /** The total passed on by all calls of one caller. */
  ghost function PassedOn(g: GraphData, scores: Scores, c: string): real {
    Times(|Get(g.callees, c)| as real, Share(g, scores, c))
  }

  lemma PassedOnByCalls(g: GraphData, log: seq<Reference>, scores: Scores)
    requires g.Indexes(log)
    ensures Sum(g.Symbols(), (c: string) => Weigh(Get(g.callees, c), (r: Reference) => Share(g, scores, r.caller)))
         == Sum(g.Symbols(), (c: string) => PassedOn(g, scores, c))
  {
    hide Sum, Share, Weigh, GraphData.Indexes, GraphData.Symbols;
    var h := (r: Reference) => Share(g, scores, r.caller);
    forall c ensures Weigh(Get(g.callees, c), h) == PassedOn(g, scores, c) {
      CalleesAreByCaller(g, log, c);
      WeighConstant(Get(g.callees, c), Share(g, scores, c), h);
    }
    SumSame(g.Symbols(), (c: string) => Weigh(Get(g.callees, c), h), (c: string) => PassedOn(g, scores, c));
  }

  lemma CalleesAreByCaller(g: GraphData, log: seq<Reference>, c: string)
    requires g.Indexes(log)
    ensures forall r | r in Get(g.callees, c) :: r.caller == c
    ensures forall r | r in Get(g.callers, c) :: r.symbol == c
  {
    forall r ensures r in Get(g.callees, c) ==> r.caller == c
      ensures r in Get(g.callers, c) ==> r.symbol == c
    {
      IndexedReferenceIsLogged(g, log, c, r);
    }
  }

  lemma BaseTotal(g: GraphData)
    requires g.Symbols() != {}
    ensures Base(g) > 0.0
    ensures Times(|g.Symbols()| as real, Base(g)) == 1.0 - DAMPING
  {
    hide GraphData.Symbols;
    var n := |g.Symbols()| as real;
    assert n > 0.0;
    assert n * Base(g) == 1.0 - DAMPING;
  }

  lemma StepScore(g: GraphData, scores: Scores, s: string)
    requires s in g.Symbols()
    ensures Score(Step(g, scores), s)
         == Base(g) + Weigh(Get(g.callers, s), (r: Reference) => Share(g, scores, r.caller))
  {
    hide Received, Weigh, Share, Base;
    ReceivedIsWeighed(g, scores, Get(g.callers, s));
  }

  /** The exact total after a round: the base shares plus what every caller passes on. */
  lemma MassAfterStep(g: GraphData, log: seq<Reference>, scores: Scores)
    requires g.Indexes(log) && g.Symbols() != {}
    ensures Mass(g, Step(g, scores)) == (1.0 - DAMPING) + Sum(g.Symbols(), (c: string) => PassedOn(g, scores, c))
  {
    hide Sum, Step, Base, Weigh, Share, Score, GraphData.Symbols, GraphData.Indexes;
    var syms, base := g.Symbols(), Base(g);
    var h := (r: Reference) => Share(g, scores, r.caller);
    SumSwap(g, log, h);
    BaseTotal(g);
    forall s | s in syms ensures Score(Step(g, scores), s) == base + Weigh(Get(g.callers, s), h) {
      StepScore(g, scores, s);
    }
    SumPlus(syms, (s: string) => base, (s: string) => Weigh(Get(g.callers, s), h),
                  (s: string) => Score(Step(g, scores), s));
    SumConstant(syms, base, (s: string) => base);
    PassedOnByCalls(g, log, scores);
  }

  /** A caller without repeated calls passes on at most the damped part of its score; a named caller with
    repeated calls and a positive score passes on more. */
  lemma PassedOnBound(g: GraphData, scores: Scores, c: string)
    requires Score(scores, c) >= 0.0
    ensures 0.0 <= Share(g, scores, c)
    ensures 0.0 <= PassedOn(g, scores, c)
    ensures (c == "" || NoRepeats(Get(g.callees, c))) ==> PassedOn(g, scores, c) <= Times(DAMPING, Score(scores, c))
    ensures c != "" && !NoRepeats(Get(g.callees, c)) && Score(scores, c) > 0.0 ==>
      PassedOn(g, scores, c) > Times(DAMPING, Score(scores, c))
  {
    hide NoRepeats, Called, Score;
    var refs := Get(g.callees, c);
    DistinctCount(refs);
    if c != "" && refs != [] {
      Spread(DAMPING * Score(scores, c), |refs|, OutDegree(g, c));
    }
  }

  lemma Spread(total: real, calls: nat, distinct: nat)
    requires total >= 0.0 && 1 <= distinct <= calls
    ensures 0.0 <= total / distinct as real
    ensures distinct == calls ==> Times(calls as real, total / distinct as real) == total
    ensures distinct < calls && total > 0.0 ==> Times(calls as real, total / distinct as real) > total
    ensures Times(calls as real, total / distinct as real) >= 0.0
  {
    var d, k := distinct as real, calls as real;
    var share := total / d;
    assert share * d == total;
    assert share >= 0.0;
    if distinct < calls && total > 0.0 {
      assert share > 0.0;
      assert share * k == share * d + share * (k - d);
      assert share * (k - d) > 0.0;
    }
  }

  lemma PassedOnTotal(g: GraphData, scores: Scores)
    requires NonNegative(scores) && NoRepeatedCalls(g)
    ensures 0.0 <= Sum(g.Symbols(), (c: string) => PassedOn(g, scores, c)) <= Times(DAMPING, Mass(g, scores))
  {
    hide Sum, PassedOn, Share, NoRepeats, Times;
    var passed := (c: string) => PassedOn(g, scores, c);
    var damped := (c: string) => Times(DAMPING, Score(scores, c));
    forall c | c in g.Symbols() ensures 0.0 <= passed(c) <= damped(c) {
      assert c in g.callees || Get(g.callees, c) == [];
      NothingRepeats();
      PassedOnBound(g, scores, c);
    }
    SumNonNegative(g.Symbols(), passed);
    SumOrder(g.Symbols(), passed, damped);
    SumScale(g.Symbols(), DAMPING, (c: string) => Score(scores, c), damped);
  }

  lemma NothingRepeats()
    ensures NoRepeats([])
  {
  }

  lemma {:induction false} ReceivedNonNegative(g: GraphData, scores: Scores, refs: seq<Reference>)
    requires NonNegative(scores)
    ensures Received(g, scores, refs) >= 0.0
  {
    hide Share, PassedOn;
    if refs != [] {
      ReceivedNonNegative(g, scores, refs[..|refs| - 1]);
      PassedOnBound(g, scores, refs[|refs| - 1].caller);
    }
  }

  /** A round leaves every symbol at least the base share. */
  lemma StepFloor(g: GraphData, scores: Scores)
    requires NonNegative(scores) && g.Symbols() != {}
    ensures forall s | s in g.Symbols() :: Score(Step(g, scores), s) >= Base(g) > 0.0
    ensures NonNegative(Step(g, scores))
  {
    hide Base, Received;
    BaseTotal(g);
    forall s ensures Score(Step(g, scores), s) >= 0.0
      ensures s in g.Symbols() ==> Score(Step(g, scores), s) >= Base(g)
    {
      ReceivedNonNegative(g, scores, Get(g.callers, s));
    }
  }

  lemma UniformScore(g: GraphData, s: string)
    requires g.Symbols() != {}
    ensures Score(Iterate(g, 0), s) == if s in g.Symbols() then 1.0 / |g.Symbols()| as real else 0.0
  {
  }

  lemma UniformMass(g: GraphData)
    requires g.Symbols() != {}
    ensures NonNegative(Iterate(g, 0)) && Mass(g, Iterate(g, 0)) == 1.0
  {
    hide Sum, Iterate, Score, GraphData.Symbols;
    var n := |g.Symbols()| as real;
    var share := 1.0 / n;
    assert share > 0.0 && Times(n, share) == 1.0;
    forall s { UniformScore(g, s); }
    SumConstant(g.Symbols(), share, (s: string) => Score(Iterate(g, 0), s));
  }

  /** Every iterate is non-negative and, without repeated calls, sums to between 0.15 and 1. */
  lemma {:induction false} IterateMass(g: GraphData, log: seq<Reference>, k: nat)
    requires g.Indexes(log) && g.Symbols() != {}
    ensures NonNegative(Iterate(g, k))
    ensures k > 0 ==> forall s | s in g.Symbols() :: Score(Iterate(g, k), s) >= Base(g) > 0.0
    ensures NoRepeatedCalls(g) ==> 1.0 - DAMPING <= Mass(g, Iterate(g, k)) <= 1.0
  {
    hide Sum, Step, Base, Score, NonNegative, Mass, NoRepeatedCalls, GraphData.Symbols, GraphData.Indexes;
    if k == 0 {
      UniformMass(g);
    } else {
      var prev := Iterate(g, k - 1);
      IterateMass(g, log, k - 1);
      StepFloor(g, prev);
      if NoRepeatedCalls(g) {
        MassAfterStep(g, log, prev);
        PassedOnTotal(g, prev);
        assert Times(DAMPING, Mass(g, prev)) <= DAMPING;
      }
    }
  }

  // ----- Contraction -----

  ghost function Distance(g: GraphData, a: Scores, b: Scores): real {
    Sum(g.Symbols(), (s: string) => Abs(Score(a, s) - Score(b, s)))
  }

  /** The absolute difference of two score tables. */
  ghost function Gap(g: GraphData, a: Scores, b: Scores): Scores {
    map s | s in g.Symbols() :: Abs(Score(a, s) - Score(b, s))
  }

  lemma GapMass(g: GraphData, a: Scores, b: Scores)
    ensures Mass(g, Gap(g, a, b)) == Distance(g, a, b)
    ensures NonNegative(Gap(g, a, b))
  {
    hide Sum;
    SumSame(g.Symbols(), (s: string) => Score(Gap(g, a, b), s), (s: string) => Abs(Score(a, s) - Score(b, s)));
  }

  lemma ShareOfGap(g: GraphData, a: Scores, b: Scores, c: string)
    requires c in g.Symbols()
    ensures Abs(Share(g, a, c) - Share(g, b, c)) == Share(g, Gap(g, a, b), c)
  {
    hide OutDegree;
    if c != "" && OutDegree(g, c) != 0 {
      assert Score(Gap(g, a, b), c) == Abs(Score(a, c) - Score(b, c));
      AbsOfQuotients(Score(a, c), Score(b, c), OutDegree(g, c) as real);
    }
  }

  lemma AbsOfQuotients(x: real, y: real, d: real)
    requires d > 0.0
    ensures Abs(DAMPING * x / d - DAMPING * y / d) == DAMPING * Abs(x - y) / d
  {
    var p, q, r := DAMPING * x / d, DAMPING * y / d, DAMPING * Abs(x - y) / d;
    assert p * d == DAMPING * x && q * d == DAMPING * y && r * d == DAMPING * Abs(x - y);
    if x >= y {
      assert (p - q - r) * d == 0.0;
      assert r >= 0.0;
    } else {
      assert (q - p - r) * d == 0.0;
      assert r >= 0.0;
    }
  }

  lemma {:induction false} ReceivedGap(g: GraphData, a: Scores, b: Scores, refs: seq<Reference>)
    requires forall r | r in refs :: r.caller in g.Symbols()
    ensures Abs(Received(g, a, refs) - Received(g, b, refs)) <= Received(g, Gap(g, a, b), refs)
  {
    hide Share, Gap;
    if refs != [] {
      var init, last := refs[..|refs| - 1], refs[|refs| - 1];
      ReceivedGap(g, a, b, init);
      assert last in refs;
      ShareOfGap(g, a, b, last.caller);
    }
  }

  lemma CallersAreSymbols(g: GraphData, log: seq<Reference>, s: string)
    requires g.Indexes(log)
    ensures forall r | r in Get(g.callers, s) :: r.caller in g.Symbols()
  {
    hide GraphData.Indexes, GraphData.Symbols;
    forall r | r in Get(g.callers, s) ensures r.caller in g.Symbols() {
      IndexedReferenceIsLogged(g, log, s, r);
      SymbolsAreLogged(g, log, r.caller);
    }
  }

  lemma StepGap(g: GraphData, log: seq<Reference>, a: Scores, b: Scores, s: string)
    requires g.Indexes(log) && s in g.Symbols()
    ensures Abs(Score(Step(g, a), s) - Score(Step(g, b), s))
         <= Weigh(Get(g.callers, s), (r: Reference) => Share(g, Gap(g, a, b), r.caller))
  {
    hide Share, Gap, Received, Weigh, Base, GraphData.Indexes;
    CallersAreSymbols(g, log, s);
    ReceivedGap(g, a, b, Get(g.callers, s));
    ReceivedIsWeighed(g, Gap(g, a, b), Get(g.callers, s));
  }

  /** Two rounds differ by no more than what the gap between their inputs passes on. */
  lemma StepDistance(g: GraphData, log: seq<Reference>, a: Scores, b: Scores)
    requires g.Indexes(log) && g.Symbols() != {}
    ensures Distance(g, Step(g, a), Step(g, b)) <= Sum(g.Symbols(), (c: string) => PassedOn(g, Gap(g, a, b), c))
  {
    hide Sum, Share, Gap, Received, Weigh, Base, Step, Score, GraphData.Indexes, GraphData.Symbols;
    var syms, gap := g.Symbols(), Gap(g, a, b);
    var h := (r: Reference) => Share(g, gap, r.caller);
    forall s | s in syms { StepGap(g, log, a, b, s); }
    SumOrder(syms, (s: string) => Abs(Score(Step(g, a), s) - Score(Step(g, b), s)),
                   (s: string) => Weigh(Get(g.callers, s), h));
    SumSwap(g, log, h);
    PassedOnByCalls(g, log, gap);
  }

  lemma Contraction(g: GraphData, log: seq<Reference>, a: Scores, b: Scores)
    requires g.Indexes(log) && g.Symbols() != {} && NoRepeatedCalls(g)
    ensures Distance(g, Step(g, a), Step(g, b)) <= Times(DAMPING, Distance(g, a, b))
  {
    hide Sum, Distance, Step, Gap, NonNegative, NoRepeatedCalls, Mass, PassedOn, GraphData.Indexes, GraphData.Symbols;
    StepDistance(g, log, a, b);
    GapMass(g, a, b);
    PassedOnTotal(g, Gap(g, a, b));
  }

  /** A table that gives one symbol everything. */
  ghost function Peak(g: GraphData, c: string): Scores {
    map s | s in g.Symbols() :: if s == c then 1.0 else 0.0
  }

  ghost function Nothing(g: GraphData): Scores {
    map s | s in g.Symbols() :: 0.0
  }

  lemma PeakScore(g: GraphData, c: string, s: string)
    requires c in g.Symbols()
    ensures Score(Peak(g, c), s) == if s == c then 1.0 else 0.0
    ensures Score(Nothing(g), s) == 0.0
  {
  }

  lemma PeakMass(g: GraphData, c: string)
    requires c in g.Symbols()
    ensures NonNegative(Peak(g, c)) && Mass(g, Peak(g, c)) == 1.0
    ensures Distance(g, Peak(g, c), Nothing(g)) == 1.0
  {
    hide Sum, Peak, Nothing, Score, GraphData.Symbols;
    var syms := g.Symbols();
    var zero := (s: string) => 0.0;
    forall s { PeakScore(g, c, s); }
    SumConstant(syms, 0.0, zero);
    SumBump(syms, zero, (s: string) => Score(Peak(g, c), s), c, 1.0);
    SumBump(syms, zero, (s: string) => Abs(Score(Peak(g, c), s) - Score(Nothing(g), s)), c, 1.0);
  }

  lemma NothingPassedOn(g: GraphData)
    ensures Sum(g.Symbols(), (c: string) => PassedOn(g, Nothing(g), c)) == 0.0
  {
    hide Sum, OutDegree;
    forall c ensures PassedOn(g, Nothing(g), c) == 0.0 {
      assert Share(g, Nothing(g), c) == 0.0;
    }
    SumConstant(g.Symbols(), 0.0, (c: string) => PassedOn(g, Nothing(g), c));
  }

  lemma PeakPassedOn(g: GraphData, c: string)
    requires c in g.callees && c != "" && !NoRepeats(g.callees[c])
    ensures Sum(g.Symbols(), (s: string) => PassedOn(g, Peak(g, c), s)) > DAMPING
  {
    hide Sum, PassedOn, Share, NoRepeats;
    forall s { PassedOnBound(g, Peak(g, c), s); }
    SumNonNegative(g.Symbols(), (s: string) => PassedOn(g, Peak(g, c), s));
  }

  /** Starting from a single caller that repeats a call, one round exceeds both bounds. */
  lemma PeakFacts(g: GraphData, log: seq<Reference>, c: string)
    requires g.Indexes(log) && c in g.callees && c != "" && !NoRepeats(g.callees[c])
    ensures NonNegative(Peak(g, c)) && Mass(g, Peak(g, c)) == 1.0
    ensures Mass(g, Step(g, Peak(g, c))) > 1.0
    ensures Distance(g, Peak(g, c), Nothing(g)) == 1.0
    ensures Distance(g, Step(g, Peak(g, c)), Step(g, Nothing(g))) > DAMPING
  {
    hide Sum, Distance, Step, NonNegative, NoRepeats, Mass, PassedOn, Peak, Nothing, GraphData.Indexes;
    PeakMass(g, c);
    PeakPassedOn(g, c);
    NothingPassedOn(g);
    MassAfterStep(g, log, Peak(g, c));
    MassAfterStep(g, log, Nothing(g));
    MassGap(g, Step(g, Peak(g, c)), Step(g, Nothing(g)));
  }

  lemma MassGap(g: GraphData, a: Scores, b: Scores)
    ensures Mass(g, a) - Mass(g, b) <= Distance(g, a, b)
  {
    hide Sum, Score, GraphData.Symbols;
    var fb := (s: string) => Score(b, s);
    var sum := (s: string) => Abs(Score(a, s) - Score(b, s)) + Score(b, s);
    SumPlus(g.Symbols(), (s: string) => Abs(Score(a, s) - Score(b, s)), fb, sum);
    SumOrder(g.Symbols(), (s: string) => Score(a, s), sum);
  }

  ghost predicate ContractsAt(g: GraphData, a: Scores, b: Scores)
    requires g.Symbols() != {}
  {
    Distance(g, Step(g, a), Step(g, b)) <= Times(DAMPING, Distance(g, a, b))
  }

  /** A round shrinks every distance by the damping factor exactly when no named caller references the
    same symbol twice. */
  lemma ContractsIffNoRepeatedCalls(g: GraphData, log: seq<Reference>)
    requires g.Indexes(log) && g.Symbols() != {}
    ensures (forall a, b :: ContractsAt(g, a, b)) <==> NoRepeatedCalls(g)
  {
    hide Distance, Step, NoRepeats, Mass, NonNegative, Peak, Nothing, GraphData.Indexes, GraphData.Symbols;
    if NoRepeatedCalls(g) {
      forall a, b ensures ContractsAt(g, a, b) { Contraction(g, log, a, b); }
    } else {
      var c :| c in g.callees && c != "" && !NoRepeats(g.callees[c]);
      PeakFacts(g, log, c);
      assert !ContractsAt(g, Peak(g, c), Nothing(g));
    }
  }

  ghost predicate KeepsMassWithinOne(g: GraphData, scores: Scores)
    requires g.Symbols() != {}
  {
    NonNegative(scores) && Mass(g, scores) <= 1.0 ==> Mass(g, Step(g, scores)) <= 1.0
  }

  /** Scores stay a sub-distribution exactly under the same condition. */
  lemma MassWithinOneIffNoRepeatedCalls(g: GraphData, log: seq<Reference>)
    requires g.Indexes(log) && g.Symbols() != {}
    ensures (forall scores :: KeepsMassWithinOne(g, scores)) <==> NoRepeatedCalls(g)
  {
    hide Sum, Step, NoRepeats, Mass, NonNegative, Peak, Nothing, PassedOn, GraphData.Indexes, GraphData.Symbols;
    if NoRepeatedCalls(g) {
      forall scores ensures KeepsMassWithinOne(g, scores) {
        if NonNegative(scores) && Mass(g, scores) <= 1.0 {
          MassAfterStep(g, log, scores);
          PassedOnTotal(g, scores);
        }
      }
    } else {
      var c :| c in g.callees && c != "" && !NoRepeats(g.callees[c]);
      PeakFacts(g, log, c);
      assert !KeepsMassWithinOne(g, Peak(g, c));
    }
  }

  // ----- How close the returned scores are to a stationary ranking -----

  ghost predicate Stationary(g: GraphData, p: Scores) {
    g.Symbols() != {} && p.Keys == g.Symbols() && Step(g, p) == p
  }

  lemma Triangle(g: GraphData, a: Scores, b: Scores, c: Scores)
    ensures Distance(g, a, c) <= Distance(g, a, b) + Distance(g, b, c)
    ensures Distance(g, a, b) == Distance(g, b, a) && Distance(g, a, b) >= 0.0
  {
    hide Sum, Score, GraphData.Symbols;
    var ab := (s: string) => Abs(Score(a, s) - Score(b, s));
    var bc := (s: string) => Abs(Score(b, s) - Score(c, s));
    var sum := (s: string) => ab(s) + bc(s);
    SumPlus(g.Symbols(), ab, bc, sum);
    SumOrder(g.Symbols(), (s: string) => Abs(Score(a, s) - Score(c, s)), sum);
    SumSame(g.Symbols(), ab, (s: string) => Abs(Score(b, s) - Score(a, s)));
    SumNonNegative(g.Symbols(), ab);
  }

  /** Successive iterates approach each other, and every stationary ranking, geometrically. */
  lemma {:induction false} GeometricDecay(g: GraphData, log: seq<Reference>, k: nat, p: Scores)
    requires g.Indexes(log) && g.Symbols() != {} && NoRepeatedCalls(g)
    ensures Distance(g, Iterate(g, k + 1), Iterate(g, k))
         <= Times(RiskSeries.Power(DAMPING, k), Distance(g, Iterate(g, 1), Iterate(g, 0)))
    ensures Stationary(g, p) ==>
      Distance(g, Iterate(g, k), p) <= Times(RiskSeries.Power(DAMPING, k), Distance(g, Iterate(g, 0), p))
  {
    hide Distance, Step, NoRepeatedCalls, Times, GraphData.Indexes, GraphData.Symbols;
    if k == 0 {
      TimesDistributes(Distance(g, Iterate(g, 1), Iterate(g, 0)), 0.0, 0.0);
      TimesDistributes(Distance(g, Iterate(g, 0), p), 0.0, 0.0);
    } else {
      GeometricDecay(g, log, k - 1, p);
      Contraction(g, log, Iterate(g, k), Iterate(g, k - 1));
      var r := RiskSeries.Power(DAMPING, k - 1);
      Shrink(Distance(g, Iterate(g, k), Iterate(g, k - 1)), r, Distance(g, Iterate(g, 1), Iterate(g, 0)));
      if Stationary(g, p) {
        Contraction(g, log, Iterate(g, k - 1), p);
        Shrink(Distance(g, Iterate(g, k - 1), p), r, Distance(g, Iterate(g, 0), p));
      }
    }
  }

  lemma Shrink(d: real, r: real, e: real)
    requires d <= Times(r, e)
    ensures Times(DAMPING, d) <= Times(r * DAMPING, e)
  {
    assert (r * DAMPING) * e == DAMPING * (r * e);
  }

  /** There is at most one stationary ranking. */
  lemma StationaryIsUnique(g: GraphData, log: seq<Reference>, p: Scores, q: Scores)
    requires g.Indexes(log) && NoRepeatedCalls(g) && Stationary(g, p) && Stationary(g, q)
    ensures p == q
  {
    hide Sum, Step, NoRepeatedCalls, GraphData.Indexes, GraphData.Symbols;
    Contraction(g, log, p, q);
    Triangle(g, p, q, p);
    var gap := (s: string) => Abs(Score(p, s) - Score(q, s));
    SumNonNegative(g.Symbols(), gap);
    forall s | s in g.Symbols() ensures p[s] == q[s] {
      assert gap(s) <= Distance(g, p, q);
    }
  }

  // ----- Graphs without recursion -----

  /** Named callers stand below what they call. */
  ghost predicate CallsUpward(g: GraphData, height: string -> int) {
    forall s, r: Reference | s in g.callers && r in g.callers[s] && r.caller != "" ::
      0 <= height(r.caller) < height(s)
  }

  lemma {:induction false} SameReceived(g: GraphData, a: Scores, b: Scores, refs: seq<Reference>)
    requires forall r | r in refs && r.caller != "" :: Score(a, r.caller) == Score(b, r.caller)
    ensures Received(g, a, refs) == Received(g, b, refs)
  {
    if refs != [] {
      assert refs[|refs| - 1] in refs;
      SameReceived(g, a, b, refs[..|refs| - 1]);
    }
  }

  /** From the round above its height on, a symbol's score no longer changes. */
  lemma {:induction false} SettlesAboveHeight(g: GraphData, log: seq<Reference>, height: string -> int, k: nat,
                                              s: string)
    requires g.Indexes(log) && g.Symbols() != {} && CallsUpward(g, height)
    requires s in g.Symbols() && 0 <= height(s) < k
    ensures Score(Iterate(g, k + 1), s) == Score(Iterate(g, k), s)
    decreases k
  {
    hide Received, GraphData.Indexes, GraphData.Symbols;
    CallersAreSymbols(g, log, s);
    forall r | r in Get(g.callers, s) && r.caller != ""
      ensures Score(Iterate(g, k), r.caller) == Score(Iterate(g, k - 1), r.caller)
    {
      assert 0 <= height(r.caller) < height(s);
      SettlesAboveHeight(g, log, height, k - 1, r.caller);
    }
    SameReceived(g, Iterate(g, k), Iterate(g, k - 1), Get(g.callers, s));
  }

  /** Without recursion the iteration reaches a stationary ranking, after as many rounds as calls are deep. */
  lemma AcyclicGraphsSettle(g: GraphData, log: seq<Reference>, height: string -> int, k: nat)
    requires g.Indexes(log) && g.Symbols() != {} && CallsUpward(g, height)
    requires forall s | s in g.Symbols() :: 0 <= height(s) < k
    ensures Stationary(g, Iterate(g, k)) && Iterate(g, k + 1) == Iterate(g, k)
  {
    hide GraphData.Indexes, GraphData.Symbols, Rank, CallsUpward;
    var now, next := Iterate(g, k), Iterate(g, k + 1);
    forall s | s in g.Symbols() ensures now[s] == next[s] { SettlesAboveHeight(g, log, height, k, s); }
    assert now == next;
  }

  /** When the loop stops early, the result is within 0.85/0.15 * n * 0.0001 of a stationary ranking. */
  lemma EarlyStopIsClose(g: GraphData, log: seq<Reference>, k: nat, p: Scores)
    requires g.Indexes(log) && NoRepeatedCalls(g) && Stationary(g, p)
    requires 1 <= k && Settled(g, k)
    ensures 0.15 * Distance(g, Iterate(g, k), p) <= 0.85 * Times(|g.Symbols()| as real, 0.0001)
  {
    hide Sum, Step, Score, NoRepeatedCalls, GraphData.Indexes, GraphData.Symbols;
    var now, prev := Iterate(g, k), Iterate(g, k - 1);
    Contraction(g, log, prev, p);
    Triangle(g, prev, now, p);
    Triangle(g, now, prev, p);
    SumOrder(g.Symbols(), (s: string) => Abs(Score(now, s) - Score(prev, s)), (s: string) => 0.0001);
    SumConstant(g.Symbols(), 0.0001, (s: string) => 0.0001);
  }

  /** When round k settles, every later round, however many, stays that close to it: stopping there costs at most
    0.85/0.15 * n * 0.0001 against any number of further rounds. */
  lemma {:induction false} EarlyStopLosesLittle(g: GraphData, log: seq<Reference>, k: nat, m: nat)
    requires g.Indexes(log) && g.Symbols() != {} && NoRepeatedCalls(g)
    requires 1 <= k && Settled(g, k)
    ensures 0.15 * Distance(g, Iterate(g, k + m), Iterate(g, k))
         <= 0.85 * Times(|g.Symbols()| as real, 0.0001)
  {
    LaterRoundsStayClose(g, log, k, m);
    SettledDistance(g, k);
  }

  lemma SettledDistance(g: GraphData, k: nat)
    requires g.Symbols() != {} && 1 <= k && Settled(g, k)
    ensures Distance(g, Iterate(g, k), Iterate(g, k - 1)) <= Times(|g.Symbols()| as real, 0.0001)
  {
    hide Sum, Step, Score, Iterate, GraphData.Symbols;
    var gap := (s: string) => Abs(Score(Iterate(g, k), s) - Score(Iterate(g, k - 1), s));
    SumOrder(g.Symbols(), gap, (s: string) => 0.0001);
    SumConstant(g.Symbols(), 0.0001, (s: string) => 0.0001);
  }

  lemma {:induction false} LaterRoundsStayClose(g: GraphData, log: seq<Reference>, k: nat, m: nat)
    requires g.Indexes(log) && g.Symbols() != {} && NoRepeatedCalls(g) && 1 <= k
    ensures 0.15 * Distance(g, Iterate(g, k + m), Iterate(g, k))
         <= 0.85 * Distance(g, Iterate(g, k), Iterate(g, k - 1))
  {
    hide Distance, Step, NoRepeatedCalls, GraphData.Indexes, GraphData.Symbols;
    var prev, now, next := Iterate(g, k - 1), Iterate(g, k), Iterate(g, k + 1);
    Triangle(g, now, prev, now);
    if m == 0 {
      NoDistance(g, now);
    } else {
      var far, before := Iterate(g, k + m), Iterate(g, k + m - 1);
      LaterRoundsStayClose(g, log, k, m - 1);
      Contraction(g, log, before, now);
      Contraction(g, log, now, prev);
      Triangle(g, far, next, now);
    }
  }

  lemma NoDistance(g: GraphData, a: Scores)
    ensures Distance(g, a, a) == 0.0
  {
    hide Sum, Score, GraphData.Symbols;
    SumConstant(g.Symbols(), 0.0, (s: string) => Abs(Score(a, s) - Score(a, s)));
  }

  /** As near to any stationary ranking as twenty rounds bring it, or as a round without large changes is. */
  ghost predicate NearLimit(g: GraphData, scores: Scores) {
    forall p | Stationary(g, p) ::
      || Distance(g, scores, p) <= Times(RiskSeries.Power(0.85, 20), Distance(g, Iterate(g, 0), p))
      || 0.15 * Distance(g, scores, p) <= 0.85 * Times(|g.Symbols()| as real, 0.0001)
  }

  lemma LastRoundIsNear(g: GraphData, log: seq<Reference>, k: nat)
    requires g.Indexes(log) && g.Symbols() != {} && NoRepeatedCalls(g) && LastRound(g, k)
    ensures NearLimit(g, Iterate(g, k))
  {
    hide Distance, Step, Iterate, Settled, NoRepeatedCalls, Times, RiskSeries.Power, GraphData.Indexes,
         GraphData.Symbols;
    forall p | Stationary(g, p)
      ensures Distance(g, Iterate(g, k), p) <= Times(RiskSeries.Power(0.85, 20), Distance(g, Iterate(g, 0), p))
           || 0.15 * Distance(g, Iterate(g, k), p) <= 0.85 * Times(|g.Symbols()| as real, 0.0001)
    {
      if k < 20 { EarlyStopIsClose(g, log, k, p); } else { GeometricDecay(g, log, 20, p); }
    }
  }
}
