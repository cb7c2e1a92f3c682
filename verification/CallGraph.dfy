/** The call graph: one list of references, indexed twice.

  `callers` lists the references to a symbol and `callees` the references made by a caller.  Every
  analysis reads one index and relies on the other, so what matters is that both hold the same
  references.  The log of everything ever added is the reference point for that. */
module CallGraphs {

  datatype Reference = Reference(symbol: string, file: string, line: int, column: int, caller: string, kind: string)

  type Index = map<string, seq<Reference>>

  /** A missing key reads as the empty list, as in a Go map of slices. */
  function Get<T>(index: map<string, seq<T>>, key: string): seq<T> {
    if key in index then index[key] else []
  }

  function Append<T>(index: map<string, seq<T>>, key: string, value: T): map<string, seq<T>> {
    index[key := Get(index, key) + [value]]
  }

  ghost predicate NoEmptyLists(index: Index) {
    forall key | key in index :: index[key] != []
  }

  /** The references to `symbol`, in the order they were added. */
  ghost function ReferencesTo(log: seq<Reference>, symbol: string): seq<Reference> {
    if log == [] then []
    else
      var last := log[|log| - 1];
      ReferencesTo(log[..|log| - 1], symbol) + (if last.symbol == symbol then [last] else [])
  }

  /** The references made by `caller`, in the order they were added. */
  ghost function ReferencesBy(log: seq<Reference>, caller: string): seq<Reference> {
    if log == [] then []
    else
      var last := log[|log| - 1];
      ReferencesBy(log[..|log| - 1], caller) + (if last.caller == caller then [last] else [])
  }

  /** The value held by a call graph, which is also what the index store saves and loads. */
  datatype GraphData = GraphData(callers: Index, callees: Index) {

    function Add(ref: Reference): GraphData {
      GraphData(Append(callers, ref.symbol, ref), Append(callees, ref.caller, ref))
    }

    /** Both indexes hold exactly the references of `log`, in order, and no empty lists. */
    ghost predicate Indexes(log: seq<Reference>) {
      && (forall s :: Get(callers, s) == ReferencesTo(log, s))
      && (forall c :: Get(callees, c) == ReferencesBy(log, c))
      && NoEmptyLists(callers)
      && NoEmptyLists(callees)
    }

    /** All symbols of the graph: whatever is called and whatever calls. */
    function Symbols(): set<string> {
      callers.Keys + callees.Keys
    }
  }

  const EMPTY_GRAPH := GraphData(map[], map[])

  lemma AppendGets(index: Index, key: string, ref: Reference, k: string)
    ensures Get(Append(index, key, ref), k) == Get(index, k) + (if k == key then [ref] else [])
  {
  }

  lemma AppendLeavesNoEmptyLists(index: Index, key: string, ref: Reference)
    requires NoEmptyLists(index)
    ensures NoEmptyLists(Append(index, key, ref))
  {
  }

  lemma LogGets(log: seq<Reference>, ref: Reference, k: string)
    ensures ReferencesTo(log + [ref], k) == ReferencesTo(log, k) + (if ref.symbol == k then [ref] else [])
    ensures ReferencesBy(log + [ref], k) == ReferencesBy(log, k) + (if ref.caller == k then [ref] else [])
  {
    assert (log + [ref])[..|log|] == log;
  }

  lemma AddKeepsIndexes(g: GraphData, log: seq<Reference>, ref: Reference)
    requires g.Indexes(log)
    ensures g.Add(ref).Indexes(log + [ref])
  {
    hide Get, Append, NoEmptyLists, ReferencesTo, ReferencesBy;
    var g', log' := g.Add(ref), log + [ref];
    AppendLeavesNoEmptyLists(g.callers, ref.symbol, ref);
    AppendLeavesNoEmptyLists(g.callees, ref.caller, ref);
    forall k
      ensures Get(g'.callers, k) == ReferencesTo(log', k)
      ensures Get(g'.callees, k) == ReferencesBy(log', k)
    {
      AppendGets(g.callers, ref.symbol, ref, k);
      AppendGets(g.callees, ref.caller, ref, k);
      LogGets(log, ref, k);
    }
  }

  /** A reference is in the list of its symbol exactly as often as it was added; a list holds nothing
    else.  Likewise for the other index: the two indexes are two arrangements of one multiset. */
  lemma {:induction false} BothIndexesHoldTheLog(log: seq<Reference>, ref: Reference, key: string)
    ensures multiset(ReferencesTo(log, key))[ref] == if ref.symbol == key then multiset(log)[ref] else 0
    ensures multiset(ReferencesBy(log, key))[ref] == if ref.caller == key then multiset(log)[ref] else 0
  {
    if log == [] {
    } else {
      var init, last := log[..|log| - 1], log[|log| - 1];
      BothIndexesHoldTheLog(init, ref, key);
      assert log == init + [last];
      assert multiset(log) == multiset(init) + multiset{last};
    }
  }

  lemma IndexedReferenceIsLogged(g: GraphData, log: seq<Reference>, key: string, ref: Reference)
    requires g.Indexes(log)
    ensures ref in Get(g.callers, key) <==> ref in log && ref.symbol == key
    ensures ref in Get(g.callees, key) <==> ref in log && ref.caller == key
  {
    BothIndexesHoldTheLog(log, ref, key);
    assert ref in Get(g.callers, key) <==> multiset(Get(g.callers, key))[ref] > 0;
    assert ref in Get(g.callees, key) <==> multiset(Get(g.callees, key))[ref] > 0;
    assert ref in log <==> multiset(log)[ref] > 0;
  }

  /** Everything mentioned by a logged reference is a symbol of the graph, and nothing else is. */
  lemma SymbolsAreLogged(g: GraphData, log: seq<Reference>, name: string)
    requires g.Indexes(log)
    ensures name in g.Symbols() <==> exists r | r in log :: r.symbol == name || r.caller == name
  {
    if name in g.callers {
      IndexedReferenceIsLogged(g, log, name, g.callers[name][0]);
      assert g.callers[name][0] in log;
    }
    if name in g.callees {
      IndexedReferenceIsLogged(g, log, name, g.callees[name][0]);
      assert g.callees[name][0] in log;
    }
    forall r | r in log && (r.symbol == name || r.caller == name) ensures name in g.Symbols() {
      IndexedReferenceIsLogged(g, log, name, r);
    }
  }

  class CallGraph {
    var callers: Index
    var callees: Index
    ghost var log: seq<Reference>

    ghost predicate Valid() reads this { Data().Indexes(log) }

    function Data(): GraphData reads this { GraphData(callers, callees) }

    constructor ()
      ensures Valid() && log == [] && Data() == EMPTY_GRAPH
    {
      callers, callees, log := map[], map[], [];
    }

    method AddReference(ref: Reference)
      requires Valid()
      modifies this
      ensures Valid()
      ensures log == old(log) + [ref]
      ensures Data() == old(Data()).Add(ref)
    {
      AddKeepsIndexes(Data(), log, ref);
      callers := Append(callers, ref.symbol, ref);
      callees := Append(callees, ref.caller, ref);
      log := log + [ref];
    }

    method Clear()
      modifies this
      ensures Valid() && log == [] && Data() == EMPTY_GRAPH
    {
      callers, callees, log := map[], map[], [];
    }

    method FindCallers(symbol: string) returns (out: seq<Reference>)
      requires Valid()
      ensures out == ReferencesTo(log, symbol)
      ensures multiset(out) <= multiset(log)
      ensures forall r | r in log && r.symbol == symbol :: r in out
    {
      out := Get(callers, symbol);
      forall r ensures multiset(out)[r] <= multiset(log)[r]
        ensures r in log && r.symbol == symbol ==> r in out
      {
        BothIndexesHoldTheLog(log, r, symbol);
        IndexedReferenceIsLogged(Data(), log, symbol, r);
      }
    }

    method FindCallees(caller: string) returns (out: seq<Reference>)
      requires Valid()
      ensures out == ReferencesBy(log, caller)
      ensures forall r :: r in out <==> r in log && r.caller == caller
    {
      out := Get(callees, caller);
      forall r { IndexedReferenceIsLogged(Data(), log, caller, r); }
    }
  }
}
