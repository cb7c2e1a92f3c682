/** The bounded breadth-first search that lists everything affected by changing a symbol. */
module BlastRadii {
  import opened CallGraphs
  import opened RiskSeries

  datatype DependentInfo = DependentInfo(symbol: string, file: string, line: int, depth: nat)

  datatype BlastRadius = BlastRadius(
    symbol: string,
    directDependents: nat,
    totalDependents: nat,
    maxDepth: nat,
    riskScore: real,
    dependents: seq<DependentInfo>)

  // ----- Reference point: chains of callers -----

  /** A named caller of `callee`. */
  ghost predicate Calls(log: seq<Reference>, caller: string, callee: string) {
    caller != "" && exists r | r in log :: r.symbol == callee && r.caller == caller
  }

  /** Each element calls the one before it. */
  ghost predicate IsChain(log: seq<Reference>, path: seq<string>) {
    forall i, j | 0 <= i < j < |path| && j == i + 1 :: Calls(log, path[j], path[i])
  }

  ghost predicate ChainTo(log: seq<Reference>, symbol: string, x: string, path: seq<string>) {
    path != [] && path[0] == symbol && path[|path| - 1] == x && IsChain(log, path)
  }

  /** `x` is reached from `symbol` by exactly `steps` calls. */
  ghost predicate Reaches(log: seq<Reference>, symbol: string, x: string, steps: nat)
    decreases steps
  {
    if steps == 0 then x == symbol
    else exists y :: Reaches(log, symbol, y, steps - 1) && Calls(log, x, y)
  }

  /** `d` is the length of a shortest chain of at least one call. */
  ghost predicate Distance(log: seq<Reference>, symbol: string, x: string, d: nat) {
    1 <= d && Reaches(log, symbol, x, d) && forall k | 1 <= k < d :: !Reaches(log, symbol, x, k)
  }

  /** `x` is reached by a chain of 1 to `bound` calls. */
  ghost predicate Within(log: seq<Reference>, symbol: string, bound: nat, x: string) {
    exists k | 1 <= k <= bound :: Reaches(log, symbol, x, k)
  }

  /** Reaching in `steps` calls is having a chain of that length. */
  lemma {:induction false} ReachesIffChain(log: seq<Reference>, symbol: string, x: string, steps: nat)
    ensures Reaches(log, symbol, x, steps) <==> exists path | |path| == steps + 1 :: ChainTo(log, symbol, x, path)
    decreases steps
  {
    if steps == 0 {
      assert x == symbol ==> ChainTo(log, symbol, x, [symbol]);
    } else {
      if y :| Reaches(log, symbol, y, steps - 1) && Calls(log, x, y) {
        ReachesIffChain(log, symbol, y, steps - 1);
        var path :| |path| == steps && ChainTo(log, symbol, y, path);
        assert ChainTo(log, symbol, x, path + [x]);
      }
      if path :| |path| == steps + 1 && ChainTo(log, symbol, x, path) {
        assert ChainTo(log, symbol, path[steps - 1], path[..steps]);
        ReachesIffChain(log, symbol, path[steps - 1], steps - 1);
        assert Calls(log, path[steps], path[steps - 1]);
      }
    }
  }

  // ----- The search -----

  datatype Item = Item(sym: string, depth: nat)

  /** The items ever queued: the start, then every dependent in the order it was found. */
  ghost function At(symbol: string, deps: seq<DependentInfo>, i: nat): Item
    requires i <= |deps|
  {
    if i == 0 then Item(symbol, 0) else Item(deps[i - 1].symbol, deps[i - 1].depth)
  }

  /** The queue holds the items from `head` on. */
  ghost predicate Pending(queue: seq<Item>, symbol: string, deps: seq<DependentInfo>, head: nat) {
    && |queue| == |deps| + 1 - head
    && forall i | 0 <= i < |queue| :: queue[i] == At(symbol, deps, head + i)
  }

  ghost function Names(deps: seq<DependentInfo>): set<string> {
    set d | d in deps :: d.symbol
  }

  function Depths(deps: seq<DependentInfo>): seq<nat> {
    seq(|deps|, i requires 0 <= i < |deps| => deps[i].depth)
  }

  function Deepest(deps: seq<DependentInfo>): nat {
    if deps == [] then 0
    else
      var rest, d := Deepest(deps[..|deps| - 1]), deps[|deps| - 1].depth;
      if d > rest then d else rest
  }

  function CountDirect(deps: seq<DependentInfo>): nat {
    if deps == [] then 0
    else CountDirect(deps[..|deps| - 1]) + (if deps[|deps| - 1].depth == 1 then 1 else 0)
  }

  /** The table of visited symbols and the list of dependents say the same. */
  ghost predicate Listed(visited: map<string, nat>, deps: seq<DependentInfo>) {
    && visited.Keys == Names(deps)
    && (forall i | 0 <= i < |deps| :: deps[i].symbol in visited && visited[deps[i].symbol] == deps[i].depth)
    && (forall i, j | 0 <= i < j < |deps| :: deps[i].symbol != deps[j].symbol)
  }

  /** A dependent is at a chain's length, and its file and line are those of a call one step nearer. */
  ghost predicate Sound(log: seq<Reference>, symbol: string, maxDepth: nat, d: DependentInfo) {
    && 1 <= d.depth <= maxDepth
    && Reaches(log, symbol, d.symbol, d.depth)
    && exists r | r in log ::
      && r.caller == d.symbol && d.symbol != "" && r.file == d.file && r.line == d.line
      && Reaches(log, symbol, r.symbol, d.depth - 1)
  }

  /** Breadth first: depths never decrease along the queue and never run more than one ahead. */
  ghost predicate Layered(symbol: string, deps: seq<DependentInfo>, head: nat) {
    && (forall i, j | 0 <= i < j <= |deps| :: At(symbol, deps, i).depth <= At(symbol, deps, j).depth)
    && (head <= |deps| ==> At(symbol, deps, |deps|).depth <= At(symbol, deps, head).depth + 1)
  }

  /** All named callers of an expanded item are visited, no deeper than one step further. */
  ghost predicate Expanded(log: seq<Reference>, maxDepth: nat, visited: map<string, nat>, item: Item) {
    item.depth < maxDepth ==>
      forall c {:trigger Calls(log, c, item.sym)} | Calls(log, c, item.sym) ::
        c in visited && visited[c] <= item.depth + 1
  }

  ghost predicate ExpandedUpTo(log: seq<Reference>, maxDepth: nat, visited: map<string, nat>,
                               symbol: string, deps: seq<DependentInfo>, head: nat)
    requires head <= |deps| + 1
  {
    forall i {:trigger Expanded(log, maxDepth, visited, At(symbol, deps, i))} | 0 <= i < head ::
      Expanded(log, maxDepth, visited, At(symbol, deps, i))
  }

  /** Once everything queued is expanded, no chain within the bound was missed or overestimated. */
  lemma {:induction false} NothingMissed(log: seq<Reference>, symbol: string, maxDepth: nat,
                                         visited: map<string, nat>, deps: seq<DependentInfo>, x: string, k: nat)
    requires Listed(visited, deps)
    requires ExpandedUpTo(log, maxDepth, visited, symbol, deps, |deps| + 1)
    requires 1 <= k <= maxDepth && Reaches(log, symbol, x, k)
    ensures x in visited && visited[x] <= k
    decreases k
  {
    var y :| Reaches(log, symbol, y, k - 1) && Calls(log, x, y);
    if k == 1 {
      assert Expanded(log, maxDepth, visited, At(symbol, deps, 0));
    } else {
      NothingMissed(log, symbol, maxDepth, visited, deps, y, k - 1);
      assert y in Names(deps);
      var i :| 0 <= i < |deps| && deps[i].symbol == y;
      assert Expanded(log, maxDepth, visited, At(symbol, deps, i + 1));
    }
  }

  /** The list is exactly what a breadth-first search should find. */
  ghost predicate ExactDependents(log: seq<Reference>, symbol: string, maxDepth: nat, deps: seq<DependentInfo>) {
    && (forall i, j | 0 <= i < j < |deps| :: deps[i].symbol != deps[j].symbol && deps[i].depth <= deps[j].depth)
    && (forall i | 0 <= i < |deps| ::
          1 <= deps[i].depth <= maxDepth && Distance(log, symbol, deps[i].symbol, deps[i].depth))
    && (forall x | Within(log, symbol, maxDepth, x) :: x in Names(deps))
  }

  lemma FinishedIsExact(log: seq<Reference>, symbol: string, maxDepth: nat,
                        visited: map<string, nat>, deps: seq<DependentInfo>)
    requires Searching(log, symbol, maxDepth, visited, deps, |deps| + 1)
    ensures ExactDependents(log, symbol, maxDepth, deps)
    ensures forall d | d in deps :: Sound(log, symbol, maxDepth, d)
  {
    forall x | Within(log, symbol, maxDepth, x) ensures x in Names(deps) {
      var k :| 1 <= k <= maxDepth && Reaches(log, symbol, x, k);
      NothingMissed(log, symbol, maxDepth, visited, deps, x, k);
    }
    forall i | 0 <= i < |deps|
      ensures 1 <= deps[i].depth <= maxDepth && Distance(log, symbol, deps[i].symbol, deps[i].depth)
    {
      assert Sound(log, symbol, maxDepth, deps[i]);
      forall k | 1 <= k < deps[i].depth ensures !Reaches(log, symbol, deps[i].symbol, k) {
        if Reaches(log, symbol, deps[i].symbol, k) {
          NothingMissed(log, symbol, maxDepth, visited, deps, deps[i].symbol, k);
        }
      }
    }
    forall i, j | 0 <= i < j < |deps| ensures deps[i].depth <= deps[j].depth {
      assert At(symbol, deps, i + 1).depth <= At(symbol, deps, j + 1).depth;
    }
  }

  /** Everything the search maintains while `head` items have been expanded. */
  ghost predicate Searching(log: seq<Reference>, symbol: string, bound: nat,
                            visited: map<string, nat>, deps: seq<DependentInfo>, head: nat) {
    && head <= |deps| + 1
    && Layered(symbol, deps, head)
    && ExpandedUpTo(log, bound, visited, symbol, deps, head)
    && Listed(visited, deps)
    && (forall d {:trigger Sound(log, symbol, bound, d)} | d in deps :: Sound(log, symbol, bound, d))
  }

  ghost predicate Totalled(deps: seq<DependentInfo>, deepest: nat, rawScore: real) {
    && (forall i | 0 <= i < |deps| :: 1 <= deps[i].depth)
    && deepest == Deepest(deps)
    && rawScore == TotalWeight(Depths(deps))
  }

  /** Named callers seen so far while expanding one item. */
  ghost predicate SeenCallers(callers: seq<Reference>, i: nat, curr: Item, bound: nat, visited: map<string, nat>)
    requires i <= |callers|
  {
    forall j | 0 <= j < i && callers[j].caller != "" && curr.depth < bound ::
      callers[j].caller in visited && visited[callers[j].caller] <= curr.depth + 1
  }

  /** How many symbols can still be visited; it bounds how often the queue can grow. */
  ghost function Unvisited(log: seq<Reference>, visited: map<string, nat>): nat {
    |(set r | r in log :: r.caller) - visited.Keys|
  }

  method GetBlastRadius(cg: CallGraph, symbol: string, maxDepth: int) returns (result: BlastRadius)
    requires cg.Valid()
    ensures result.symbol == symbol
    ensures result.totalDependents == |result.dependents|
    ensures result.directDependents == CountDirect(result.dependents)
    ensures result.maxDepth == Deepest(result.dependents)
    ensures forall i | 0 <= i < |result.dependents| :: 1 <= result.dependents[i].depth
    ensures result.riskScore == Normalize(TotalWeight(Depths(result.dependents)))
    ensures maxDepth > 0 ==> ExactDependents(cg.log, symbol, maxDepth, result.dependents)
    ensures maxDepth > 0 ==> forall d | d in result.dependents :: Sound(cg.log, symbol, maxDepth, d)
    ensures maxDepth <= 0 ==> ExactDependents(cg.log, symbol, 5, result.dependents)
    ensures maxDepth <= 0 ==> forall d | d in result.dependents :: Sound(cg.log, symbol, 5, d)
  {
    hide Searching, Totalled, Unvisited, SeenCallers, ExactDependents, Sound, Listed, Names, GraphData.Indexes;
    var bound: nat := if maxDepth <= 0 then 5 else maxDepth;
    var visited: map<string, nat> := map[];
    var queue := [Item(symbol, 0)];
    var deps: seq<DependentInfo> := [];
    var deepest := 0;
    var rawScore := 0.0;
    ghost var head := 0;
    SearchStarts(cg.log, symbol, bound);

    while |queue| > 0
      invariant Searching(cg.log, symbol, bound, visited, deps, head)
      invariant Pending(queue, symbol, deps, head)
      invariant Totalled(deps, deepest, rawScore)
      decreases Unvisited(cg.log, visited) + |queue|
    {
      var curr := queue[0];
      var callers := Get(cg.callers, curr.sym);
      visited, queue, deps, deepest, rawScore :=
        ExpandItem(cg, symbol, bound, curr, callers, visited, queue[1..], deps, deepest, rawScore, head);
      HeadIsExpanded(cg.Data(), cg.log, symbol, bound, visited, deps, head);
      head := head + 1;
    }

    var direct := DirectDependents(deps);
    FinishedIsExact(cg.log, symbol, bound, visited, deps);
    TotalsAreSums(deps, deepest, rawScore);
    var risk := if rawScore > 0.0 then rawScore / (rawScore + 5.0) else 0.0;
    result := BlastRadius(symbol, direct, |deps|, deepest, risk, deps);
  }

  method DirectDependents(deps: seq<DependentInfo>) returns (direct: nat)
    ensures direct == CountDirect(deps)
  {
    direct := 0;
    for i := 0 to |deps|
      invariant direct == CountDirect(deps[..i])
    {
      assert deps[..i + 1][..i] == deps[..i];
      if deps[i].depth == 1 { direct := direct + 1; }
    }
    assert deps[..|deps|] == deps;
  }

  /** The inner loop of the search: goes through the callers of the item just taken from the queue. */
  method ExpandItem(cg: CallGraph, symbol: string, bound: nat, curr: Item, callers: seq<Reference>,
                    visited0: map<string, nat>, queue0: seq<Item>, deps0: seq<DependentInfo>,
                    deepest0: nat, rawScore0: real, ghost head: nat)
    returns (visited: map<string, nat>, queue: seq<Item>, deps: seq<DependentInfo>, deepest: nat, rawScore: real)
    requires cg.Valid() && callers == Get(cg.callers, curr.sym)
    requires Searching(cg.log, symbol, bound, visited0, deps0, head)
    requires head <= |deps0| && At(symbol, deps0, head) == curr
    requires Pending(queue0, symbol, deps0, head + 1)
    requires Totalled(deps0, deepest0, rawScore0)
    ensures Searching(cg.log, symbol, bound, visited, deps, head)
    ensures head <= |deps| && At(symbol, deps, head) == curr
    ensures Pending(queue, symbol, deps, head + 1)
    ensures SeenCallers(callers, |callers|, curr, bound, visited)
    ensures Totalled(deps, deepest, rawScore)
    ensures Unvisited(cg.log, visited) + |queue| == Unvisited(cg.log, visited0) + |queue0|
  {
    hide Searching, Totalled, Unvisited, GraphData.Indexes;
    visited, queue, deps, deepest, rawScore := visited0, queue0, deps0, deepest0, rawScore0;
    for i := 0 to |callers|
      invariant Searching(cg.log, symbol, bound, visited, deps, head)
      invariant head <= |deps| && At(symbol, deps, head) == curr
      invariant Pending(queue, symbol, deps, head + 1)
      invariant SeenCallers(callers, i, curr, bound, visited)
      invariant Totalled(deps, deepest, rawScore)
      invariant Unvisited(cg.log, visited) + |queue| == Unvisited(cg.log, visited0) + |queue0|
    {
      var ref := callers[i];
      var caller := ref.caller;
      if caller == "" { continue; }
      var newDepth := curr.depth + 1;
      if newDepth > bound { continue; }
      if caller in visited && visited[caller] <= newDepth { continue; }
      VisitCaller(cg.Data(), cg.log, symbol, bound, visited, deps, head, ref);
      var weight := Pow(newDepth as real, 0.7);
      TotalsGrow(deps, deepest, rawScore, DependentInfo(caller, ref.file, ref.line, newDepth));
      visited := visited[caller := newDepth];
      deps := deps + [DependentInfo(caller, ref.file, ref.line, newDepth)];
      if newDepth > deepest { deepest := newDepth; }
      rawScore := rawScore + 1.0 / weight;
      queue := queue + [Item(caller, newDepth)];
    }
  }

  lemma SearchStarts(log: seq<Reference>, symbol: string, bound: nat)
    ensures Searching(log, symbol, bound, map[], [], 0)
    ensures Totalled([], 0, 0.0)
  {
  }

  lemma TotalsAreSums(deps: seq<DependentInfo>, deepest: nat, rawScore: real)
    requires Totalled(deps, deepest, rawScore)
    ensures forall i | 0 <= i < |deps| :: 1 <= deps[i].depth
    ensures deepest == Deepest(deps) && rawScore == TotalWeight(Depths(deps))
  {
  }

  lemma HeadIsReached(log: seq<Reference>, symbol: string, bound: nat,
                      visited: map<string, nat>, deps: seq<DependentInfo>, head: nat)
    requires Searching(log, symbol, bound, visited, deps, head) && head <= |deps|
    ensures Reaches(log, symbol, At(symbol, deps, head).sym, At(symbol, deps, head).depth)
  {
    if head > 0 { assert Sound(log, symbol, bound, deps[head - 1]); }
  }

  lemma SeenCallerIsNoDeeper(symbol: string, visited: map<string, nat>, deps: seq<DependentInfo>, head: nat,
                             caller: string)
    requires Listed(visited, deps) && caller in visited
    requires head <= |deps| && Layered(symbol, deps, head)
    ensures visited[caller] <= At(symbol, deps, head).depth + 1
  {
    assert caller in Names(deps);
    var i :| 0 <= i < |deps| && deps[i].symbol == caller;
    assert At(symbol, deps, i + 1).depth <= At(symbol, deps, |deps|).depth;
  }

  lemma AddingKeepsLayers(symbol: string, deps: seq<DependentInfo>, head: nat, dep: DependentInfo)
    requires head <= |deps| && Layered(symbol, deps, head)
    requires dep.depth == At(symbol, deps, head).depth + 1
    ensures Layered(symbol, deps + [dep], head)
  {
    var more := deps + [dep];
    forall i, j | 0 <= i < j <= |more| ensures At(symbol, more, i).depth <= At(symbol, more, j).depth {
      assert At(symbol, more, i) == At(symbol, deps, i);
      if j <= |deps| {
        assert At(symbol, more, j) == At(symbol, deps, j);
      } else if i < |deps| {
        assert At(symbol, deps, i).depth <= At(symbol, deps, |deps|).depth;
      }
    }
  }

  lemma AddingKeepsListed(visited: map<string, nat>, deps: seq<DependentInfo>, dep: DependentInfo)
    requires Listed(visited, deps) && dep.symbol !in visited
    ensures Listed(visited[dep.symbol := dep.depth], deps + [dep])
  {
    assert Names(deps + [dep]) == Names(deps) + {dep.symbol};
    forall i | 0 <= i < |deps| ensures deps[i].symbol != dep.symbol {
      assert deps[i].symbol in visited;
    }
  }

  /** A newly visited symbol cannot undo the expansion of an earlier item. */
  lemma AddingKeepsExpanded(log: seq<Reference>, bound: nat, visited: map<string, nat>, symbol: string,
                            deps: seq<DependentInfo>, dep: DependentInfo, head: nat)
    requires head <= |deps| && dep.symbol !in visited
    requires ExpandedUpTo(log, bound, visited, symbol, deps, head)
    ensures ExpandedUpTo(log, bound, visited[dep.symbol := dep.depth], symbol, deps + [dep], head)
  {
    forall i | 0 <= i < head
      ensures Expanded(log, bound, visited[dep.symbol := dep.depth], At(symbol, deps + [dep], i))
    {
      assert At(symbol, deps + [dep], i) == At(symbol, deps, i);
      assert Expanded(log, bound, visited, At(symbol, deps, i));
    }
  }

  /** Visiting one caller of the head item keeps the search invariant, and can only happen to a symbol
    not yet visited: a visited caller is never found again at a smaller depth. */
  lemma VisitCaller(g: GraphData, log: seq<Reference>, symbol: string, bound: nat,
                    visited: map<string, nat>, deps: seq<DependentInfo>, head: nat, ref: Reference)
    requires g.Indexes(log)
    requires Searching(log, symbol, bound, visited, deps, head) && head <= |deps|
    requires ref in Get(g.callers, At(symbol, deps, head).sym) && ref.caller != ""
    requires At(symbol, deps, head).depth + 1 <= bound
    requires ref.caller in visited ==> visited[ref.caller] > At(symbol, deps, head).depth + 1
    ensures ref.caller !in visited
    ensures
      var d := At(symbol, deps, head).depth + 1;
      var visited' := visited[ref.caller := d];
      && Searching(log, symbol, bound, visited', deps + [DependentInfo(ref.caller, ref.file, ref.line, d)], head)
      && Unvisited(log, visited') == Unvisited(log, visited) - 1
  {
    hide Layered, Listed, ExpandedUpTo, Expanded, Sound, Reaches, GraphData.Indexes, Calls;
    var curr := At(symbol, deps, head);
    var dep := DependentInfo(ref.caller, ref.file, ref.line, curr.depth + 1);
    if ref.caller in visited {
      SeenCallerIsNoDeeper(symbol, visited, deps, head, ref.caller);
      assert false;
    }
    IndexedReferenceIsLogged(g, log, curr.sym, ref);
    CallerIsSound(log, symbol, bound, visited, deps, head, ref);
    AddingKeepsLayers(symbol, deps, head, dep);
    AddingKeepsListed(visited, deps, dep);
    AddingKeepsExpanded(log, bound, visited, symbol, deps, dep, head);
    var universe := set r | r in log :: r.caller;
    assert universe - visited[ref.caller := dep.depth].Keys == (universe - visited.Keys) - {ref.caller};
    assert ref.caller in universe - visited.Keys;
  }

  lemma CallerIsSound(log: seq<Reference>, symbol: string, bound: nat,
                      visited: map<string, nat>, deps: seq<DependentInfo>, head: nat, ref: Reference)
    requires Searching(log, symbol, bound, visited, deps, head) && head <= |deps|
    requires ref in log && ref.symbol == At(symbol, deps, head).sym && ref.caller != ""
    requires At(symbol, deps, head).depth + 1 <= bound
    ensures Sound(log, symbol, bound, DependentInfo(ref.caller, ref.file, ref.line, At(symbol, deps, head).depth + 1))
  {
    HeadIsReached(log, symbol, bound, visited, deps, head);
    hide Searching;
    var d := At(symbol, deps, head).depth;
    assert Calls(log, ref.caller, ref.symbol);
    assert Reaches(log, symbol, ref.caller, d + 1);
  }

  lemma TotalsGrow(deps: seq<DependentInfo>, deepest: nat, rawScore: real, dep: DependentInfo)
    requires Totalled(deps, deepest, rawScore) && 1 <= dep.depth
    ensures PowOf(dep.depth as real, 0.7) >= 1.0
    ensures Totalled(deps + [dep], if dep.depth > deepest then dep.depth else deepest,
                     rawScore + 1.0 / PowOf(dep.depth as real, 0.7))
  {
    var more := deps + [dep];
    assert more[..|more| - 1] == deps;
    assert Depths(more)[..|more| - 1] == Depths(deps);
    PowOrder(1.0, dep.depth as real, 0.7);
  }

  lemma HeadIsExpanded(g: GraphData, log: seq<Reference>, symbol: string, bound: nat,
                       visited: map<string, nat>, deps: seq<DependentInfo>, head: nat)
    requires g.Indexes(log)
    requires Searching(log, symbol, bound, visited, deps, head) && head <= |deps|
    requires var curr := At(symbol, deps, head);
      SeenCallers(Get(g.callers, curr.sym), |Get(g.callers, curr.sym)|, curr, bound, visited)
    ensures Searching(log, symbol, bound, visited, deps, head + 1)
  {
    var curr := At(symbol, deps, head);
    forall c | Calls(log, c, curr.sym) && curr.depth < bound
      ensures c in visited && visited[c] <= curr.depth + 1
    {
      var r :| r in log && r.symbol == curr.sym && r.caller == c;
      IndexedReferenceIsLogged(g, log, curr.sym, r);
      assert r in Get(g.callers, curr.sym);
    }
  }

  // ----- What the list means -----

  /** Membership is reachability within the bound, and the listed depth is the distance. */
  lemma ListedIffReachable(log: seq<Reference>, symbol: string, bound: nat, deps: seq<DependentInfo>, x: string)
    requires ExactDependents(log, symbol, bound, deps)
    ensures x in Names(deps) <==> Within(log, symbol, bound, x)
  {
    if x in Names(deps) {
      var i :| 0 <= i < |deps| && deps[i].symbol == x;
      assert Reaches(log, symbol, x, deps[i].depth);
    }
  }

  /** The changed symbol is its own dependent exactly when it lies on a short enough cycle of calls. */
  lemma StartListedIffOnCycle(log: seq<Reference>, symbol: string, bound: nat, deps: seq<DependentInfo>)
    requires ExactDependents(log, symbol, bound, deps)
    ensures symbol in Names(deps) <==>
      exists path | 2 <= |path| <= bound + 1 :: ChainTo(log, symbol, symbol, path)
  {
    ListedIffReachable(log, symbol, bound, deps, symbol);
    if symbol in Names(deps) {
      var k :| 1 <= k <= bound && Reaches(log, symbol, symbol, k);
      ReachesIffChain(log, symbol, symbol, k);
    }
    forall path | 2 <= |path| <= bound + 1 && ChainTo(log, symbol, symbol, path)
      ensures symbol in Names(deps)
    {
      ReachesIffChain(log, symbol, symbol, |path| - 1);
    }
  }

  /** The exactness condition leaves no freedom but the order within a layer. */
  lemma ExactDependentsAgree(log: seq<Reference>, symbol: string, bound: nat,
                            a: seq<DependentInfo>, b: seq<DependentInfo>)
    requires ExactDependents(log, symbol, bound, a) && ExactDependents(log, symbol, bound, b)
    ensures Names(a) == Names(b) && |a| == |b|
    ensures forall i, j | 0 <= i < |a| && 0 <= j < |b| && a[i].symbol == b[j].symbol :: a[i].depth == b[j].depth
  {
    forall x ensures x in Names(a) <==> x in Names(b) {
      ListedIffReachable(log, symbol, bound, a, x);
      ListedIffReachable(log, symbol, bound, b, x);
    }
    NamesCount(a);
    NamesCount(b);
    forall i, j | 0 <= i < |a| && 0 <= j < |b| && a[i].symbol == b[j].symbol ensures a[i].depth == b[j].depth {
      assert Distance(log, symbol, a[i].symbol, a[i].depth) && Distance(log, symbol, b[j].symbol, b[j].depth);
    }
  }

  lemma {:induction false} NamesCount(deps: seq<DependentInfo>)
    requires forall i, j | 0 <= i < j < |deps| :: deps[i].symbol != deps[j].symbol
    ensures |Names(deps)| == |deps|
  {
    if deps != [] {
      var init, last := deps[..|deps| - 1], deps[|deps| - 1];
      NamesCount(init);
      assert deps == init + [last];
      assert Names(deps) == Names(init) + {last.symbol};
      assert last.symbol !in Names(init);
    }
  }

  /** The summary counts: the number of named direct callers, and the largest distance found. */
  lemma SummaryAgreesWithList(log: seq<Reference>, symbol: string, bound: nat, deps: seq<DependentInfo>)
    requires ExactDependents(log, symbol, bound, deps) && 1 <= bound
    ensures CountDirect(deps) == |set r | r in log && Calls(log, r.caller, symbol) :: r.caller|
    ensures forall i | 0 <= i < |deps| :: deps[i].depth <= Deepest(deps)
    ensures if deps == [] then Deepest(deps) == 0 else exists i | 0 <= i < |deps| :: deps[i].depth == Deepest(deps)
    ensures Deepest(deps) <= bound
  {
    DeepestIsMax(deps);
    DirectNames(deps);
    var direct := set d | d in deps && d.depth == 1 :: d.symbol;
    var calling := set r | r in log && Calls(log, r.caller, symbol) :: r.caller;
    forall x ensures x in direct <==> x in calling {
      DirectIffCalls(log, symbol, bound, deps, x);
    }
    assert direct == calling;
  }

  lemma DirectIffCalls(log: seq<Reference>, symbol: string, bound: nat, deps: seq<DependentInfo>, x: string)
    requires ExactDependents(log, symbol, bound, deps) && 1 <= bound
    ensures (exists d | d in deps :: d.depth == 1 && d.symbol == x) <==> Calls(log, x, symbol)
  {
    if Calls(log, x, symbol) {
      assert Reaches(log, symbol, symbol, 0);
      assert Reaches(log, symbol, x, 1);
      assert Within(log, symbol, bound, x);
      assert x in Names(deps);
      var i :| 0 <= i < |deps| && deps[i].symbol == x;
      assert Distance(log, symbol, x, deps[i].depth);
      assert deps[i] in deps;
    }
    if d :| d in deps && d.depth == 1 && d.symbol == x {
      var i :| 0 <= i < |deps| && deps[i] == d;
      assert Distance(log, symbol, x, 1);
      var y :| Reaches(log, symbol, y, 0) && Calls(log, x, y);
    }
  }

  lemma {:induction false} DeepestIsMax(deps: seq<DependentInfo>)
    ensures forall i | 0 <= i < |deps| :: deps[i].depth <= Deepest(deps)
    ensures if deps == [] then Deepest(deps) == 0 else exists i | 0 <= i < |deps| :: deps[i].depth == Deepest(deps)
  {
    if deps != [] {
      var init := deps[..|deps| - 1];
      DeepestIsMax(init);
      if deps[|deps| - 1].depth <= Deepest(init) && init != [] {
        var i :| 0 <= i < |init| && init[i].depth == Deepest(init);
        assert deps[i].depth == Deepest(deps);
      }
    }
  }

  lemma {:induction false} DirectNames(deps: seq<DependentInfo>)
    requires forall i, j | 0 <= i < j < |deps| :: deps[i].symbol != deps[j].symbol
    ensures CountDirect(deps) == |set d | d in deps && d.depth == 1 :: d.symbol|
  {
    if deps != [] {
      var init, last := deps[..|deps| - 1], deps[|deps| - 1];
      DirectNames(init);
      assert deps == init + [last];
      var before := set d | d in init && d.depth == 1 :: d.symbol;
      var after := set d | d in deps && d.depth == 1 :: d.symbol;
      assert last.symbol !in before;
      assert after == before + (if last.depth == 1 then {last.symbol} else {});
    }
  }

  /** A larger bound only adds dependents, deeper than the smaller bound. */
  lemma LargerBoundExtends(log: seq<Reference>, symbol: string, small: nat, large: nat,
                           a: seq<DependentInfo>, b: seq<DependentInfo>)
    requires small <= large
    requires ExactDependents(log, symbol, small, a) && ExactDependents(log, symbol, large, b)
    ensures Names(a) <= Names(b)
    ensures forall j | 0 <= j < |b| :: b[j].symbol in Names(a) <==> b[j].depth <= small
  {
    forall x | x in Names(a) ensures x in Names(b) {
      ListedIffReachable(log, symbol, small, a, x);
      var k :| 1 <= k <= small && Reaches(log, symbol, x, k);
    }
    forall j | 0 <= j < |b| ensures b[j].symbol in Names(a) <==> b[j].depth <= small {
      ListedIffReachable(log, symbol, small, a, b[j].symbol);
      assert Distance(log, symbol, b[j].symbol, b[j].depth);
    }
  }

  /** The reported risk: zero without dependents, otherwise in (0, n/(n+5)] for n dependents. */
  lemma RiskWithinBounds(deps: seq<DependentInfo>)
    requires forall i | 0 <= i < |deps| :: 1 <= deps[i].depth
    ensures |Depths(deps)| == |deps|
    ensures deps == [] ==> Normalize(TotalWeight(Depths(deps))) == 0.0
    ensures deps != [] ==>
      0.0 < Normalize(TotalWeight(Depths(deps))) <= |deps| as real / (|deps| as real + 5.0)
  {
    RiskBounds(Depths(deps));
  }
}
