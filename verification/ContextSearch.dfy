/** Packing search results into a token budget. */
module ContextSearches {
  import opened Wrappers
  import opened CallGraphs
  import opened Indexers

  /** Search hits, symbol contents, callees and definitions as the surroundings provide them. */
  datatype Source = Source(
    hits: seq<Symbol>,
    content: Symbol -> Option<string>,
    callees: string -> seq<Reference>,
    lookup: string -> seq<Symbol>)

  datatype SearchResult = SearchResult(symbol: Symbol, content: string, tokens: nat)

  datatype ContextBundle = ContextBundle(primary: SearchResult, related: seq<SearchResult>, totalTokens: nat)

  function EstimateTokens(s: string): nat { (|s| + 3) / 4 }

  /** Division that truncates toward zero. */
  function Half(x: int): int { if x < 0 then -((-x) / 2) else x / 2 }

  function Max(a: int, b: int): int { if a < b then b else a }

  // ----- Search with a budget -----

  function SymbolTokens(src: Source, includeContent: bool, y: Symbol): nat
    requires includeContent ==> src.content(y).Some?
  {
    if includeContent then EstimateTokens(src.content(y).value)
    else if y.signature != "" then EstimateTokens(y.signature)
    else EstimateTokens(y.name) + 5
  }

  /** Four characters to a token, rounded up. */
  ghost predicate FourToAToken(s: string, n: nat) { 4 * n >= |s| && (n > 0 ==> 4 * (n - 1) < |s|) }

  /** What a hit counts in a budget: its content if that is wanted, else its signature, else its name and five more. */
  lemma TokensCounted(src: Source, includeContent: bool, y: Symbol)
    requires includeContent ==> src.content(y).Some?
    ensures var n := SymbolTokens(src, includeContent, y);
      && (includeContent ==> FourToAToken(src.content(y).value, n))
      && (!includeContent && y.signature != "" ==> FourToAToken(y.signature, n))
      && (!includeContent && y.signature == "" ==> n >= 5 && FourToAToken(y.name, n - 5))
  {
  }

  function Packed(src: Source, includeContent: bool, y: Symbol): SearchResult
    requires includeContent ==> src.content(y).Some?
  {
    SearchResult(y, if includeContent then src.content(y).value else "", SymbolTokens(src, includeContent, y))
  }

  /** The hits whose content can be read (all of them if no content is wanted), in search order. */
  function Readable(src: Source, includeContent: bool, hits: seq<Symbol>): seq<SearchResult> {
    if hits == [] then []
    else
      var last := hits[|hits| - 1];
      Readable(src, includeContent, hits[..|hits| - 1])
        + (if includeContent && src.content(last).None? then [] else [Packed(src, includeContent, last)])
  }

  function TokenSum(results: seq<SearchResult>): nat {
    if results == [] then 0 else TokenSum(results[..|results| - 1]) + results[|results| - 1].tokens
  }

  /** The longest prefix that fits, but never less than the first result. */
  ghost predicate LongestFit(all: seq<SearchResult>, maxTokens: int, packed: seq<SearchResult>) {
    && packed <= all
    && (all != [] ==> packed != [])
    && (|packed| > 1 ==> TokenSum(packed) <= maxTokens)
    && (|packed| < |all| ==> TokenSum(all[..|packed| + 1]) > maxTokens)
  }

  lemma TokenSumGrows(all: seq<SearchResult>, i: nat, j: nat)
    requires i <= j <= |all|
    ensures TokenSum(all[..i]) <= TokenSum(all[..j])
    ensures i < |all| ==> TokenSum(all[..i + 1]) == TokenSum(all[..i]) + all[i].tokens
  {
    if i < |all| { assert all[..i + 1][..i] == all[..i]; }
    if i < j {
      TokenSumGrows(all, i, j - 1);
      assert all[..j][..j - 1] == all[..j - 1];
    }
  }

  lemma ReadablePrefix(src: Source, includeContent: bool, hits: seq<Symbol>, i: nat, j: nat)
    requires i <= j <= |hits|
    ensures Readable(src, includeContent, hits[..i]) <= Readable(src, includeContent, hits[..j])
  {
    if i < j {
      ReadablePrefix(src, includeContent, hits, i, j - 1);
      assert hits[..j][..j - 1] == hits[..j - 1];
    }
  }

  lemma ReadableStep(src: Source, includeContent: bool, hits: seq<Symbol>, i: nat)
    requires i < |hits|
    ensures var before, now := Readable(src, includeContent, hits[..i]), Readable(src, includeContent, hits[..i + 1]);
      && (includeContent && src.content(hits[i]).None? ==> now == before)
      && (!(includeContent && src.content(hits[i]).None?) ==> now == before + [Packed(src, includeContent, hits[i])])
  {
    assert hits[..i + 1][..i] == hits[..i];
  }

  lemma TokenSumStep(results: seq<SearchResult>, r: SearchResult)
    ensures TokenSum(results + [r]) == TokenSum(results) + r.tokens
  {
    assert (results + [r])[..|results|] == results;
  }

  /** Where the next hit stands among the readable ones. */
  lemma NextReadable(src: Source, includeContent: bool, hits: seq<Symbol>, i: nat)
    requires i < |hits|
    ensures Readable(src, includeContent, hits[..i + 1]) <= Readable(src, includeContent, hits)
    ensures includeContent && src.content(hits[i]).None? ==>
      Readable(src, includeContent, hits[..i + 1]) == Readable(src, includeContent, hits[..i])
    ensures !(includeContent && src.content(hits[i]).None?) ==>
      var all, before, now :=
        Readable(src, includeContent, hits), Readable(src, includeContent, hits[..i]),
        Readable(src, includeContent, hits[..i + 1]);
      && now == before + [Packed(src, includeContent, hits[i])]
      && TokenSum(now) == TokenSum(before) + SymbolTokens(src, includeContent, hits[i])
      && TokenSum(now) == TokenSum(all[..|before| + 1])
  {
    hide Readable, TokenSum, SymbolTokens;
    ReadableStep(src, includeContent, hits, i);
    ReadablePrefix(src, includeContent, hits, i + 1, |hits|);
    assert hits[..|hits|] == hits;
    if !(includeContent && src.content(hits[i]).None?) {
      var all, now := Readable(src, includeContent, hits), Readable(src, includeContent, hits[..i + 1]);
      TokenSumStep(Readable(src, includeContent, hits[..i]), Packed(src, includeContent, hits[i]));
      assert all[..|now|] == now;
    }
  }

  function SymbolsOf(results: seq<SearchResult>): seq<Symbol> {
    if results == [] then [] else SymbolsOf(results[..|results| - 1]) + [results[|results| - 1].symbol]
  }

  lemma SymbolsAppend(results: seq<SearchResult>, r: SearchResult)
    ensures SymbolsOf(results + [r]) == SymbolsOf(results) + [r.symbol]
  {
    assert (results + [r])[..|results|] == results;
  }

  /** Every hit is there as often as it was found, unless its content is wanted and cannot be read. */
  lemma {:induction false} ReadableHolds(src: Source, includeContent: bool, hits: seq<Symbol>, y: Symbol)
    ensures multiset(SymbolsOf(Readable(src, includeContent, hits)))[y]
         == if includeContent && src.content(y).None? then 0 else multiset(hits)[y]
  {
    hide Readable, SymbolTokens;
    if hits == [] {
      NothingReadable(src, includeContent);
    } else {
      var n := |hits| - 1;
      ReadableHolds(src, includeContent, hits[..n], y);
      ReadableStep(src, includeContent, hits, n);
      assert hits[..n + 1] == hits == hits[..n] + [hits[n]];
      hide SymbolsOf;
      if !(includeContent && src.content(hits[n]).None?) {
        SymbolsAppend(Readable(src, includeContent, hits[..n]), Packed(src, includeContent, hits[n]));
      }
    }
  }

  /** A result carries the content of its symbol if that is wanted, and nothing otherwise. */
  lemma {:induction false} ReadableCarriesContent(src: Source, includeContent: bool, hits: seq<Symbol>, r: SearchResult)
    requires r in Readable(src, includeContent, hits)
    ensures if includeContent then src.content(r.symbol) == Some(r.content) else r.content == ""
  {
    hide SymbolTokens;
    var init := hits[..|hits| - 1];
    if r in Readable(src, includeContent, init) { ReadableCarriesContent(src, includeContent, init, r); }
  }

  method SearchWithBudget(src: Source, maxTokens: int, includeContent: bool) returns (results: seq<SearchResult>)
    ensures LongestFit(Readable(src, includeContent, src.hits), maxTokens, results)
  {
    hide Readable, TokenSum, SymbolTokens;
    NothingReadable(src, includeContent);
    results := [];
    var usedTokens := 0;
    for i := 0 to |src.hits|
      invariant results == Readable(src, includeContent, src.hits[..i])
      invariant results <= Readable(src, includeContent, src.hits)
      invariant usedTokens == TokenSum(results)
      invariant results != [] ==> usedTokens <= maxTokens
    {
      var sym := src.hits[i];
      NextReadable(src, includeContent, src.hits, i);
      if includeContent && src.content(sym).None? { continue; }
      var content := if includeContent then src.content(sym).value else "";
      var symTokens := SymbolTokens(src, includeContent, sym);
      if usedTokens + symTokens > maxTokens {
        if |results| == 0 {
          results := [SearchResult(sym, content, symTokens)];
          OversizedFirst(Readable(src, includeContent, src.hits), maxTokens);
        }
        return;
      }
      results := results + [SearchResult(sym, content, symTokens)];
      usedTokens := usedTokens + symTokens;
    }
    assert src.hits[..|src.hits|] == src.hits;
  }

  lemma NothingReadable(src: Source, includeContent: bool)
    ensures Readable(src, includeContent, []) == [] && TokenSum([]) == 0
  {
  }

  lemma OversizedFirst(all: seq<SearchResult>, maxTokens: int)
    requires all != [] && TokenSum(all[..1]) > maxTokens
    ensures LongestFit(all, maxTokens, all[..1])
  {
    if |all| > 1 { TokenSumGrows(all, 1, 2); }
  }

  /** Consequence: the total is within the budget, or is that of a single oversized first result. */
  lemma BudgetKept(all: seq<SearchResult>, maxTokens: int, packed: seq<SearchResult>)
    requires LongestFit(all, maxTokens, packed) && packed != []
    ensures TokenSum(packed) <= Max(maxTokens, all[0].tokens)
  {
    if |packed| == 1 {
      TokenSumGrows(packed, 0, 1);
      assert packed[..1] == packed;
    }
  }

  /** The packing is determined: no two different prefixes qualify. */
  lemma LongestFitIsUnique(all: seq<SearchResult>, maxTokens: int, a: seq<SearchResult>, b: seq<SearchResult>)
    requires LongestFit(all, maxTokens, a) && LongestFit(all, maxTokens, b)
    ensures a == b
  {
    assert a == all[..|a|] && b == all[..|b|];
    if |a| < |b| {
      TokenSumGrows(all, |a| + 1, |b|);
    } else if |b| < |a| {
      TokenSumGrows(all, |b| + 1, |a|);
    }
  }

  // ----- Search with related symbols -----

  /** The related results of one bundle: definitions of distinct callees of the primary, readable, within
    the budget. */
  ghost predicate RelatedOf(src: Source, primary: Symbol, budget: int, related: seq<SearchResult>) {
    && (forall k | 0 <= k < |related| :: IsFirstDefinition(src, primary, related[k]))
    && (forall k, l | 0 <= k < l < |related| :: related[k].symbol.name != related[l].symbol.name)
    && TokenSum(related) <= Max(0, budget)
  }

  ghost predicate IsFirstDefinition(src: Source, primary: Symbol, r: SearchResult) {
    && (exists ref | ref in src.callees(primary.name) :: ref.symbol == r.symbol.name)
    && src.lookup(r.symbol.name) != [] && r.symbol == src.lookup(r.symbol.name)[0]
    && src.content(r.symbol) == Some(r.content)
    && r.tokens == EstimateTokens(r.content)
  }

  ghost predicate GoodBundle(src: Source, maxTokens: int, used: int, b: ContextBundle) {
    && b.primary.symbol in src.hits
    && src.content(b.primary.symbol) == Some(b.primary.content)
    && b.primary.tokens == EstimateTokens(b.primary.content)
    && b.totalTokens == b.primary.tokens + TokenSum(b.related)
    && RelatedOf(src, b.primary.symbol, Half(maxTokens - used - b.primary.tokens), b.related)
  }

  function BundleSum(bundles: seq<ContextBundle>): nat {
    if bundles == [] then 0 else BundleSum(bundles[..|bundles| - 1]) + bundles[|bundles| - 1].totalTokens
  }

  /** Looking up a name yields definitions of that name. */
  ghost predicate LookupByName(src: Source) {
    forall name :: OfName(src.lookup(name), name)
  }

  ghost predicate OfName(defs: seq<Symbol>, name: string) {
    forall y | y in defs :: y.name == name
  }

  /** The definitions come from a saved symbol table, which is keyed by name. */
  lemma TableLookupIsByName(table: Table, src: Source)
    requires KeyedBy(table, NameOf)
    requires forall name :: src.lookup(name) == Get(table, name)
    ensures LookupByName(src)
  {
    forall name ensures OfName(src.lookup(name), name) {
      forall y | y in src.lookup(name) ensures y.name == name { assert NameOf(y) == name; }
    }
  }

  // ----- Which related symbols, which primaries -----

  predicate Mentioned(refs: seq<Reference>, name: string) {
    exists k | 0 <= k < |refs| :: refs[k].symbol == name
  }

  /** The first readable definition of every callee, in call order, each name once. */
  function Candidates(src: Source, refs: seq<Reference>): seq<SearchResult> {
    if refs == [] then []
    else
      var init, name := refs[..|refs| - 1], refs[|refs| - 1].symbol;
      var defs := src.lookup(name);
      if Mentioned(init, name) || defs == [] || src.content(defs[0]).None? then Candidates(src, init)
      else Candidates(src, init) + [Packed(src, true, defs[0])]
  }

  /** A candidate is the first definition of something the primary calls, with its content. */
  ghost predicate IsCandidate(src: Source, ref: Reference, c: SearchResult) {
    var defs := src.lookup(ref.symbol);
    && defs != [] && c.symbol == defs[0]
    && src.content(defs[0]) == Some(c.content) && FourToAToken(c.content, c.tokens)
  }

  /** Every callee with a readable first definition is a candidate, and nothing else is. */
  lemma {:induction false} CandidateIff(src: Source, refs: seq<Reference>, c: SearchResult)
    ensures c in Candidates(src, refs) <==> exists ref | ref in refs :: IsCandidate(src, ref, c)
  {
    hide IsCandidate, Packed;
    if refs != [] {
      var init, last := refs[..|refs| - 1], refs[|refs| - 1];
      CandidateIff(src, init, c);
      assert refs == init + [last];
      CandidateIs(src, last, c);
      if Mentioned(init, last.symbol) {
        var k :| 0 <= k < |init| && init[k].symbol == last.symbol;
        assert init[k] in init;
        SameCandidate(src, last, init[k], c);
      }
      assert c in Candidates(src, refs) <==> c in Candidates(src, init) || IsCandidate(src, last, c);
    }
  }

  lemma SameCandidate(src: Source, ref: Reference, other: Reference, c: SearchResult)
    requires ref.symbol == other.symbol
    ensures IsCandidate(src, ref, c) <==> IsCandidate(src, other, c)
  {
  }

  lemma CandidateIs(src: Source, ref: Reference, c: SearchResult)
    ensures var defs := src.lookup(ref.symbol);
      IsCandidate(src, ref, c) <==>
        defs != [] && src.content(defs[0]).Some? && c == Packed(src, true, defs[0])
  {
    TokensAreExact(c.content, c.tokens);
  }

  lemma TokensAreExact(s: string, n: nat)
    ensures FourToAToken(s, n) <==> n == EstimateTokens(s)
  {
  }

  /** Takes every candidate that still fits beside those taken before it. */
  function FirstFit(candidates: seq<SearchResult>, budget: int): seq<SearchResult> {
    if candidates == [] then []
    else
      var taken, last := FirstFit(candidates[..|candidates| - 1], budget), candidates[|candidates| - 1];
      if TokenSum(taken) + last.tokens > budget then taken else taken + [last]
  }

  /** Nothing that was left out would fit beside what was taken. */
  lemma {:induction false} NothingElseFits(candidates: seq<SearchResult>, budget: int, c: SearchResult)
    requires c in candidates && c !in FirstFit(candidates, budget)
    ensures TokenSum(FirstFit(candidates, budget)) + c.tokens > budget
  {
    var init, last := candidates[..|candidates| - 1], candidates[|candidates| - 1];
    var taken := FirstFit(init, budget);
    assert candidates == init + [last];
    if c in init {
      NothingElseFits(init, budget, c);
      assert (taken + [last])[..|taken|] == taken;
    }
  }

  ghost function RelatedFor(src: Source, maxTokens: int, used: int, primary: SearchResult): seq<SearchResult> {
    FirstFit(Candidates(src, src.callees(primary.symbol.name)), Half(maxTokens - used - primary.tokens))
  }

  /** The bundles of the first hits, up to the one that no longer fits. */
  ghost predicate ExactBundles(src: Source, maxTokens: int, hits: seq<SearchResult>, bundles: seq<ContextBundle>) {
    bundles == [] ||
    var n := |bundles| - 1;
    var used := BundleSum(bundles[..n]);
    && n < |hits|
    && ExactBundles(src, maxTokens, hits, bundles[..n])
    && (n > 0 ==> used < maxTokens && used + hits[n].tokens <= maxTokens)
    && ExactBundle(src, maxTokens, used, hits[n], bundles[n])
  }

  ghost predicate ExactBundle(src: Source, maxTokens: int, used: int, hit: SearchResult, b: ContextBundle) {
    && b.primary == hit
    && b.related == RelatedFor(src, maxTokens, used, hit)
    && b.totalTokens == hit.tokens + TokenSum(b.related)
  }

  /** The next hit, if there is one, is not to be had. */
  ghost predicate BudgetSpent(maxTokens: int, hits: seq<SearchResult>, bundles: seq<ContextBundle>)
    requires |bundles| <= |hits|
  {
    |bundles| < |hits| ==>
      bundles != [] && (BundleSum(bundles) >= maxTokens || BundleSum(bundles) + hits[|bundles|].tokens > maxTokens)
  }

  method SearchWithContext(src: Source, maxTokens: int) returns (bundles: seq<ContextBundle>)
    requires LookupByName(src)
    ensures ExactBundles(src, maxTokens, Readable(src, true, src.hits), bundles)
    ensures |bundles| <= |Readable(src, true, src.hits)|
    ensures BudgetSpent(maxTokens, Readable(src, true, src.hits), bundles)
    ensures forall i | 0 <= i < |bundles| :: GoodBundle(src, maxTokens, BundleSum(bundles[..i]), bundles[i])
    ensures bundles != [] ==> BundleSum(bundles) <= Max(maxTokens, bundles[0].primary.tokens)
  {
    hide LookupByName, Readable, RelatedFor, TokenSum, BundleSum, FirstFit, Candidates, GoodBundle,
      RelatedOf, ExactBundles;
    ghost var hits := Readable(src, true, src.hits);
    NothingReadable(src, true);
    NoBundles(src, maxTokens, hits);
    bundles := [];
    var usedTokens: int := 0;
    for i := 0 to |src.hits|
      invariant usedTokens == BundleSum(bundles)
      invariant bundles != [] ==> usedTokens < maxTokens
      invariant |bundles| == |Readable(src, true, src.hits[..i])|
      invariant Readable(src, true, src.hits[..i]) <= hits
      invariant ExactBundles(src, maxTokens, hits, bundles)
      invariant forall k | 0 <= k < |bundles| :: GoodBundle(src, maxTokens, BundleSum(bundles[..k]), bundles[k])
    {
      NextReadable(src, true, src.hits, i);
      var sym := src.hits[i];
      if src.content(sym).None? { continue; }
      var content := src.content(sym).value;
      var primaryTokens := EstimateTokens(content);
      assert hits[|bundles|] == SearchResult(sym, content, primaryTokens);
      if usedTokens + primaryTokens > maxTokens && |bundles| > 0 { return; }

      var relatedBudget := Half(maxTokens - usedTokens - primaryTokens);
      var related := CollectRelated(src, sym, relatedBudget);
      var primary := SearchResult(sym, content, primaryTokens);
      var bundle := ContextBundle(primary, related, primaryTokens + TokenSum(related));
      RelatedForIs(src, maxTokens, usedTokens, bundle.primary);
      BundleIsGood(src, maxTokens, usedTokens, bundle);
      AppendBundle(bundles, bundle);
      AppendExact(src, maxTokens, hits, bundles, bundle);
      bundles := bundles + [bundle];
      usedTokens := usedTokens + bundle.totalTokens;
      if usedTokens >= maxTokens { return; }
    }
    assert src.hits[..|src.hits|] == src.hits;
  }

  lemma NoBundles(src: Source, maxTokens: int, hits: seq<SearchResult>)
    ensures BundleSum([]) == 0 && ExactBundles(src, maxTokens, hits, [])
  {
  }

  lemma RelatedForIs(src: Source, maxTokens: int, used: int, primary: SearchResult)
    ensures RelatedFor(src, maxTokens, used, primary)
         == FirstFit(Candidates(src, src.callees(primary.symbol.name)), Half(maxTokens - used - primary.tokens))
  {
  }

  lemma AppendExact(src: Source, maxTokens: int, hits: seq<SearchResult>, bundles: seq<ContextBundle>, b: ContextBundle)
    requires ExactBundles(src, maxTokens, hits, bundles) && |bundles| < |hits|
    requires ExactBundle(src, maxTokens, BundleSum(bundles), hits[|bundles|], b)
    requires bundles != [] ==> BundleSum(bundles) < maxTokens
    requires bundles != [] ==> BundleSum(bundles) + hits[|bundles|].tokens <= maxTokens
    ensures ExactBundles(src, maxTokens, hits, bundles + [b])
  {
    hide ExactBundle, BundleSum;
    assert (bundles + [b])[..|bundles|] == bundles;
  }

  /** The search has exactly one answer. */
  lemma BundlesAreUnique(src: Source, maxTokens: int, hits: seq<SearchResult>,
                         a: seq<ContextBundle>, b: seq<ContextBundle>)
    requires ExactBundles(src, maxTokens, hits, a) && |a| <= |hits| && BudgetSpent(maxTokens, hits, a)
    requires ExactBundles(src, maxTokens, hits, b) && |b| <= |hits| && BudgetSpent(maxTokens, hits, b)
    ensures a == b
  {
    hide ExactBundles, BundleSum;
    var n := if |a| <= |b| then |a| else |b|;
    if |a| < |b| {
      RoomBefore(src, maxTokens, hits, b, |a|);
    } else if |b| < |a| {
      RoomBefore(src, maxTokens, hits, a, |b|);
    }
    assert a[..|a|] == a && b[..|b|] == b;
    BundlesShareAPrefix(src, maxTokens, hits, a, b, n);
  }

  /** Before every bundle but the first there was room for its primary. */
  lemma {:induction false} RoomBefore(src: Source, maxTokens: int, hits: seq<SearchResult>,
                                      bundles: seq<ContextBundle>, i: nat)
    requires ExactBundles(src, maxTokens, hits, bundles) && i < |bundles|
    ensures i < |hits| && ExactBundle(src, maxTokens, BundleSum(bundles[..i]), hits[i], bundles[i])
    ensures i > 0 ==> BundleSum(bundles[..i]) < maxTokens && BundleSum(bundles[..i]) + hits[i].tokens <= maxTokens
  {
    hide ExactBundle, BundleSum;
    var n := |bundles| - 1;
    if i < n {
      RoomBefore(src, maxTokens, hits, bundles[..n], i);
      assert bundles[..n][..i] == bundles[..i];
    }
  }

  lemma {:induction false} BundlesShareAPrefix(src: Source, maxTokens: int, hits: seq<SearchResult>,
                                               a: seq<ContextBundle>, b: seq<ContextBundle>, n: nat)
    requires ExactBundles(src, maxTokens, hits, a) && ExactBundles(src, maxTokens, hits, b)
    requires n <= |a| && n <= |b|
    ensures a[..n] == b[..n]
  {
    hide ExactBundles, RelatedFor, BundleSum, TokenSum;
    if n > 0 {
      BundlesShareAPrefix(src, maxTokens, hits, a, b, n - 1);
      RoomBefore(src, maxTokens, hits, a, n - 1);
      RoomBefore(src, maxTokens, hits, b, n - 1);
      assert a[..n] == a[..n - 1] + [a[n - 1]] && b[..n] == b[..n - 1] + [b[n - 1]];
    }
  }

  lemma BundleIsGood(src: Source, maxTokens: int, used: int, b: ContextBundle)
    requires b.primary.symbol in src.hits && src.content(b.primary.symbol) == Some(b.primary.content)
    requires b.primary.tokens == EstimateTokens(b.primary.content)
    requires b.totalTokens == b.primary.tokens + TokenSum(b.related)
    requires RelatedOf(src, b.primary.symbol, Half(maxTokens - used - b.primary.tokens), b.related)
    ensures GoodBundle(src, maxTokens, used, b)
    ensures b.totalTokens <= b.primary.tokens + Max(0, Half(maxTokens - used - b.primary.tokens))
  {
  }

  lemma AppendBundle(bundles: seq<ContextBundle>, b: ContextBundle)
    ensures BundleSum(bundles + [b]) == BundleSum(bundles) + b.totalTokens
    ensures forall k | 0 <= k <= |bundles| :: (bundles + [b])[..k] == bundles[..k]
    ensures bundles != [] ==> (bundles + [b])[0] == bundles[0]
  {
    assert (bundles + [b])[..|bundles|] == bundles;
  }

  /** Goes through the callees of the primary symbol; a name is considered once. */
  method CollectRelated(src: Source, primary: Symbol, budget: int) returns (related: seq<SearchResult>)
    requires LookupByName(src)
    ensures RelatedOf(src, primary, budget, related)
    ensures related == FirstFit(Candidates(src, src.callees(primary.name)), budget)
  {
    hide RelatedOf, TokenSum, LookupByName, Candidates, FirstFit, Mentioned;
    NothingRelated(src, primary, budget);
    var callees := src.callees(primary.name);
    NoCandidates(src, budget);
    var seen: set<string> := {};
    var relatedTokens := 0;
    related := [];
    for i := 0 to |callees|
      invariant RelatedOf(src, primary, budget, related)
      invariant related == FirstFit(Candidates(src, callees[..i]), budget)
      invariant forall name :: name in seen <==> Mentioned(callees[..i], name)
      invariant forall k | 0 <= k < |related| :: related[k].symbol.name in seen
      invariant relatedTokens == TokenSum(related)
    {
      var name := callees[i].symbol;
      NextCandidate(src, callees, i, budget);
      if name in seen { continue; }
      seen := seen + {name};
      var defs := src.lookup(name);
      if |defs| == 0 { continue; }
      var callee := defs[0];
      if src.content(callee).None? { continue; }
      var content := src.content(callee).value;
      var tokens := EstimateTokens(content);
      if relatedTokens + tokens > budget { continue; }
      LookedUpName(src, name);
      assert callees[i] in callees;
      OneMoreRelated(src, primary, budget, related, SearchResult(callee, content, tokens));
      related := related + [SearchResult(callee, content, tokens)];
      relatedTokens := relatedTokens + tokens;
    }
    assert callees[..|callees|] == callees;
  }

  lemma NoCandidates(src: Source, budget: int)
    ensures FirstFit(Candidates(src, []), budget) == []
    ensures forall name :: !Mentioned([], name)
  {
  }

  lemma NextCandidate(src: Source, refs: seq<Reference>, i: nat, budget: int)
    requires i < |refs|
    ensures forall name :: Mentioned(refs[..i + 1], name) <==> Mentioned(refs[..i], name) || name == refs[i].symbol
    ensures var defs, before := src.lookup(refs[i].symbol), FirstFit(Candidates(src, refs[..i]), budget);
      FirstFit(Candidates(src, refs[..i + 1]), budget) ==
        (if Mentioned(refs[..i], refs[i].symbol) || defs == [] || src.content(defs[0]).None? then before
         else if TokenSum(before) + Packed(src, true, defs[0]).tokens > budget then before
         else before + [Packed(src, true, defs[0])])
  {
    hide TokenSum, Packed;
    assert refs[..i + 1][..i] == refs[..i];
    forall name ensures Mentioned(refs[..i + 1], name) <==> Mentioned(refs[..i], name) || name == refs[i].symbol {
      if name == refs[i].symbol { assert refs[..i + 1][i].symbol == name; }
      if k :| 0 <= k < i && refs[..i][k].symbol == name { assert refs[..i + 1][k].symbol == name; }
    }
    var init := Candidates(src, refs[..i]);
    var defs := src.lookup(refs[i].symbol);
    if defs != [] && src.content(defs[0]).Some? {
      assert (init + [Packed(src, true, defs[0])])[..|init|] == init;
    }
  }

  lemma NothingRelated(src: Source, primary: Symbol, budget: int)
    ensures RelatedOf(src, primary, budget, []) && TokenSum([]) == 0
  {
  }

  lemma OneMoreRelated(src: Source, primary: Symbol, budget: int, related: seq<SearchResult>, r: SearchResult)
    requires RelatedOf(src, primary, budget, related) && IsFirstDefinition(src, primary, r)
    requires forall k | 0 <= k < |related| :: related[k].symbol.name != r.symbol.name
    requires TokenSum(related) + r.tokens <= budget
    ensures RelatedOf(src, primary, budget, related + [r])
    ensures TokenSum(related + [r]) == TokenSum(related) + r.tokens
  {
    hide IsFirstDefinition;
    assert (related + [r])[..|related|] == related;
  }

  lemma LookedUpName(src: Source, name: string)
    requires LookupByName(src)
    ensures OfName(src.lookup(name), name)
  {
  }

  /** A callee left out would take the related symbols over half of what the budget leaves after the primary. */
  lemma LeftOutExceedsHalf(src: Source, maxTokens: int, used: int, hit: SearchResult, b: ContextBundle, c: SearchResult)
    requires ExactBundle(src, maxTokens, used, hit, b)
    requires c in Candidates(src, src.callees(hit.symbol.name)) && c !in b.related
    ensures 2 * (TokenSum(b.related) + c.tokens) > maxTokens - used - hit.tokens
  {
    hide Candidates, FirstFit, TokenSum;
    NothingElseFits(Candidates(src, src.callees(hit.symbol.name)), Half(maxTokens - used - hit.tokens), c);
  }

  /** Related symbols never take more than half of what the budget leaves after the primary. */
  lemma RelatedTakeAtMostHalf(src: Source, maxTokens: int, used: int, b: ContextBundle)
    requires GoodBundle(src, maxTokens, used, b) && used + b.primary.tokens <= maxTokens
    ensures 2 * TokenSum(b.related) <= maxTokens - used - b.primary.tokens
  {
  }
}
