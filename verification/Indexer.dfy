/** The incremental, load-on-demand symbol index.

  A build parses only the files whose modification time changed, takes the rest from the last saved
  index, saves the result and drops it from memory; queries load it back.  Both shortcuts must be
  invisible: the saved index has to equal a rebuild from nothing, and answers must not depend on what
  happens to be in memory. */
module Indexers {
  import opened Wrappers
  import opened CallGraphs

  datatype Symbol = Symbol(
    name: string, kind: string, file: string, line: int, endLine: int, column: int,
    startByte: int, endByte: int, language: string, scope: string, signature: string)

  type Table = map<string, seq<Symbol>>

  /** What the parser makes of one version of one file. */
  datatype Extraction = ParseError | Extracted(binary: bool, symbols: seq<Symbol>, refs: seq<Reference>)

  /** Parsing as a function of file and modification time: equal times mean equal contents. */
  type Extractor = (string, int) -> Extraction

  /** Extracted symbols and references carry the name of the file they were found in. */
  ghost predicate Faithful(extract: Extractor) {
    forall f, t :: NamesFile(extract(f, t), f)
  }

  ghost predicate NamesFile(e: Extraction, f: string) {
    e.Extracted? ==>
      && (forall y | y in e.symbols :: y.file == f)
      && (forall r | r in e.refs :: r.file == f)
  }

  lemma ExtractionNamesFile(extract: Extractor, f: string, t: int)
    requires Faithful(extract)
    ensures NamesFile(extract(f, t), f)
  {
  }

  datatype Saved = Saved(symbols: Table, graph: GraphData, commit: string)

  datatype SaveOutcome = SaveOk | SaveFailed(left: Option<Saved>)

  /** What one build finds outside the process. */
  datatype World = World(
    listing: Option<seq<string>>,   // None when the file list cannot be read
    stat: map<string, int>,         // files that exist, with their modification times
    unreadable: set<string>,        // files whose contents cannot be read
    commit: string,
    save: SaveOutcome,
    interrupted: bool)              // the context may be done at some check

  datatype IndexState = IndexState(
    files: seq<string>,
    symbols: Option<Table>,
    fileSymbols: Option<Table>,
    callgraph: Option<GraphData>,
    modTimes: map<string, int>,
    indexed: bool,
    store: Option<Saved>)

  // ----- Tables as bags of symbols -----

  function NameOf(y: Symbol): string { y.name }

  function FileOf(y: Symbol): string { y.file }

  /** How often a symbol occurs under its key. */
  ghost function Count(table: Table, key: Symbol -> string, y: Symbol): nat {
    multiset(Get(table, key(y)))[y]
  }

  /** Each list holds only symbols of its key. */
  ghost predicate KeyedBy(table: Table, key: Symbol -> string) {
    forall k, y | k in table && y in table[k] :: key(y) == k
  }

  ghost predicate SameBag(a: Table, keyA: Symbol -> string, b: Table, keyB: Symbol -> string) {
    forall y :: Count(a, keyA, y) == Count(b, keyB, y)
  }

  /** What must hold of memory against disk: nothing loaded, or exactly the last saved index. */
  ghost predicate Coherent(s: IndexState) {
    && (s.symbols.None? <==> s.fileSymbols.None?)
    && (s.symbols.None? <==> s.callgraph.None?)
    && (s.symbols.Some? ==>
          && s.indexed && s.store.Some?
          && s.symbols.value == s.store.value.symbols
          && s.callgraph.value == s.store.value.graph
          && GroupedByFile(s.fileSymbols.value, s.store.value.symbols))
    && (s.store.Some? ==> KeyedBy(s.store.value.symbols, NameOf))
    && (!s.indexed ==> s.modTimes == map[])
  }

  /** The same symbols, listed by file; no file without symbols is listed. */
  ghost predicate GroupedByFile(byFile: Table, byName: Table) {
    && KeyedBy(byFile, FileOf)
    && SameBag(byFile, FileOf, byName, NameOf)
    && (forall f | f in byFile :: byFile[f] != [])
  }

  // ----- What queries may depend on -----

  ghost function LastSaved(s: IndexState): Option<Saved> {
    if s.indexed then s.store else None
  }

  ghost function SymbolAnswer(s: IndexState, name: string): seq<Symbol> {
    if LastSaved(s).Some? then Get(LastSaved(s).value.symbols, name) else []
  }

  ghost function GraphAnswer(s: IndexState): Option<GraphData> {
    if LastSaved(s).Some? then Some(LastSaved(s).value.graph) else None
  }

  /** Loading and releasing may change what is in memory and nothing else. */
  ghost predicate OnlyMemoryDiffers(s: IndexState, t: IndexState) {
    && Coherent(t)
    && t == s.(symbols := t.symbols, fileSymbols := t.fileSymbols, callgraph := t.callgraph)
  }

  // ----- What a build does -----

  function Listing(w: World): seq<string> { if w.listing.Some? then w.listing.value else [] }

  /** The listed files that exist, in listing order. */
  function Existing(listing: seq<string>, stat: map<string, int>): seq<string> {
    if listing == [] then []
    else
      var last := listing[|listing| - 1];
      Existing(listing[..|listing| - 1], stat) + (if last in stat then [last] else [])
  }

  /** The modification times a build records. */
  function Current(w: World): map<string, int> {
    map f | f in Listing(w) && f in w.stat :: w.stat[f]
  }

  predicate IsChanged(before: map<string, int>, now: map<string, int>, f: string) {
    f in now && (f !in before || before[f] != now[f])
  }

  function ChangedFiles(before: map<string, int>, listing: seq<string>, stat: map<string, int>): seq<string> {
    if listing == [] then []
    else
      var last := listing[|listing| - 1];
      ChangedFiles(before, listing[..|listing| - 1], stat) + (if IsChanged(before, stat, last) then [last] else [])
  }

  /** What parsing a changed file contributes: nothing if it is unreadable, binary or unparsable. */
  function FreshSymbols(extract: Extractor, w: World, f: string): seq<Symbol> {
    if f in w.stat && f !in w.unreadable then UsableSymbols(extract(f, w.stat[f])) else []
  }

  function FreshRefs(extract: Extractor, w: World, f: string): seq<Reference> {
    if f in w.stat && f !in w.unreadable then UsableRefs(extract(f, w.stat[f])) else []
  }

  function UsableSymbols(e: Extraction): seq<Symbol> {
    if e.Extracted? && !e.binary then e.symbols else []
  }

  function UsableRefs(e: Extraction): seq<Reference> {
    if e.Extracted? && !e.binary then e.refs else []
  }

  /** Re-extraction of an unchanged file does not look for binary contents again. */
  function ReextractedRefs(extract: Extractor, w: World, f: string): seq<Reference> {
    if f in w.stat && f !in w.unreadable && extract(f, w.stat[f]).Extracted? then extract(f, w.stat[f]).refs else []
  }

  /** How often the old index holds a symbol. */
  ghost function OldCount(s: IndexState, y: Symbol): nat {
    if LastSaved(s).Some? then Count(LastSaved(s).value.symbols, NameOf, y) else 0
  }

  ghost predicate DefinedSymbols(s: IndexState, f: string) {
    exists y: Symbol :: y.file == f && OldCount(s, y) > 0
  }

  /** The symbols of an incremental build: fresh for changed files, the old ones for unchanged files. */
  ghost predicate IncrementalTable(extract: Extractor, s: IndexState, w: World, table: Table) {
    && KeyedBy(table, NameOf)
    && forall y :: Count(table, NameOf, y) ==
         if IsChanged(s.modTimes, Current(w), y.file) then multiset(FreshSymbols(extract, w, y.file))[y]
         else if y.file in Current(w) then OldCount(s, y)
         else 0
  }

  /** The references of an incremental build.  A changed file counts once for every time it is listed; an
    unchanged file is looked at again only if the old index has a symbol of it. */
  ghost predicate IncrementalLog(extract: Extractor, s: IndexState, w: World, log: seq<Reference>) {
    forall r :: multiset(log)[r] ==
      if IsChanged(s.modTimes, Current(w), r.file)
      then multiset(Listing(w))[r.file] * multiset(FreshRefs(extract, w, r.file))[r]
      else if r.file in Current(w) && DefinedSymbols(s, r.file)
      then multiset(ReextractedRefs(extract, w, r.file))[r]
      else 0
  }

  ghost predicate IncrementalSave(extract: Extractor, s: IndexState, w: World, saved: Saved) {
    && saved.commit == w.commit
    && IncrementalTable(extract, s, w, saved.symbols)
    && exists log :: saved.graph.Indexes(log) && IncrementalLog(extract, s, w, log)
  }

  datatype BuildOutcome = Cancelled | ListFailed | FromCache | Unchanged | Rebuilt

  /** The saved index is taken over instead of building. */
  predicate CacheAccepted(s: IndexState, w: World) {
    !s.indexed && s.store.Some? && s.store.value.commit == w.commit
  }

  ghost predicate BuildStep(extract: Extractor, s: IndexState, w: World, outcome: BuildOutcome, t: IndexState) {
    && (outcome.FromCache? <==> CacheAccepted(s, w))
    && match outcome
    case Cancelled => w.interrupted && w.listing.Some? && OnlyMemoryDiffers(s, t)
    case ListFailed => w.listing.None? && OnlyMemoryDiffers(s, t)
    case FromCache =>
      && t == s.(files := Listing(w), indexed := true, modTimes := Current(w))
    case Unchanged =>
      && s.indexed && w.listing.Some? && s.modTimes == Current(w)
      && OnlyMemoryDiffers(s.(files := Existing(Listing(w), w.stat)), t)
    case Rebuilt =>
      && w.listing.Some?
      && (s.indexed ==> s.modTimes != Current(w))
      && t.files == Existing(Listing(w), w.stat)
      && t.modTimes == Current(w)
      && t.indexed && t.symbols.None? && t.fileSymbols.None? && t.callgraph.None?
      && match w.save
         case SaveOk => t.store.Some? && IncrementalSave(extract, s, w, t.store.value)
         case SaveFailed(left) => t.store == left
  }

  lemma StepRebuilds(extract: Extractor, s: IndexState, w: World, saved: Saved, t: IndexState)
    requires !CacheAccepted(s, w) && w.listing.Some? && (s.indexed ==> s.modTimes != Current(w))
    requires IncrementalSave(extract, s, w, saved)
    requires t == IndexState(Existing(Listing(w), w.stat), None, None, None, Current(w), true,
                             if w.save.SaveOk? then Some(saved) else w.save.left)
    ensures BuildStep(extract, s, w, Rebuilt, t)
  {
    hide IncrementalSave, Current, Existing;
  }

  /** The ways to satisfy a build step, one by one. */
  lemma StepsAllowed(extract: Extractor, s: IndexState, w: World)
    ensures forall t | !CacheAccepted(s, w) && w.listing.Some? && w.interrupted && OnlyMemoryDiffers(s, t) ::
      BuildStep(extract, s, w, Cancelled, t)
    ensures forall t | !CacheAccepted(s, w) && w.listing.None? && OnlyMemoryDiffers(s, t) ::
      BuildStep(extract, s, w, ListFailed, t)
    ensures CacheAccepted(s, w) ==>
      BuildStep(extract, s, w, FromCache, s.(files := Listing(w), indexed := true, modTimes := Current(w)))
    ensures forall t | s.indexed && w.listing.Some? && s.modTimes == Current(w)
        && OnlyMemoryDiffers(s.(files := Existing(Listing(w), w.stat)), t) ::
      BuildStep(extract, s, w, Unchanged, t)
  {
    hide OnlyMemoryDiffers, Current, Existing;
  }

  /** Whatever a file contributes names that file. */
  lemma ContributionsNameTheirFile(extract: Extractor, w: World, f: string)
    requires Faithful(extract)
    ensures forall y | multiset(FreshSymbols(extract, w, f))[y] > 0 :: y.file == f
    ensures forall r: Reference | r.file != f ::
      multiset(FreshRefs(extract, w, f))[r] == 0 && multiset(ReextractedRefs(extract, w, f))[r] == 0
  {
    if f in w.stat {
      ExtractionNamesFile(extract, f, w.stat[f]);
    }
  }

  // ----- The loops of a build -----

  lemma AppendCounts(table: Table, key: Symbol -> string, x: Symbol, y: Symbol)
    ensures Count(Append(table, key(x), x), key, y) == Count(table, key, y) + (if x == y then 1 else 0)
  {
  }

  lemma NothingKeyed(key: Symbol -> string)
    ensures KeyedBy(map[], key)
  {
  }

  lemma OnlyOfItsKey(table: Table, key: Symbol -> string, k: string)
    requires KeyedBy(table, key) && k in table
    ensures forall y | key(y) != k :: multiset(table[k])[y] == 0
  {
    forall y | key(y) != k ensures multiset(table[k])[y] == 0 {
      assert y !in table[k];
    }
  }

  /** Rearranges a table under another key.  Serves both directions: symbols by file into symbols by name
    (the end of a build) and symbols by name into symbols by file (loading). */
  method Regroup(source: Table, from: Symbol -> string, key: Symbol -> string) returns (table: Table)
    requires KeyedBy(source, from)
    ensures KeyedBy(table, key)
    ensures SameBag(table, key, source, from)
    ensures forall k | k in table :: table[k] != []
  {
    hide KeyedBy;
    NothingKeyed(key);
    table := map[];
    var todo := source.Keys;
    while todo != {}
      invariant todo <= source.Keys
      invariant KeyedBy(table, key)
      invariant forall k | k in table :: table[k] != []
      invariant forall y :: Count(table, key, y) == if from(y) in todo then 0 else Count(source, from, y)
      decreases todo
    {
      var k :| k in todo;
      table := AppendAll(table, key, source[k]);
      todo := todo - {k};
      OnlyOfItsKey(source, from, k);
    }
  }

  method AppendAll(table0: Table, key: Symbol -> string, syms: seq<Symbol>) returns (table: Table)
    requires KeyedBy(table0, key)
    requires forall k | k in table0 :: table0[k] != []
    ensures KeyedBy(table, key)
    ensures forall k | k in table :: table[k] != []
    ensures forall y :: Count(table, key, y) == Count(table0, key, y) + multiset(syms)[y]
  {
    hide Count;
    table := table0;
    for i := 0 to |syms|
      invariant KeyedBy(table, key)
      invariant forall k | k in table :: table[k] != []
      invariant forall y :: Count(table, key, y) == Count(table0, key, y) + multiset(syms[..i])[y]
    {
      assert syms[..i + 1] == syms[..i] + [syms[i]];
      forall y { AppendCounts(table, key, syms[i], y); }
      table := Append(table, key(syms[i]), syms[i]);
    }
    assert syms[..|syms|] == syms;
  }

  /** A check of the context: in an interrupted build it may be done at any of them. */
  method Interrupted(w: World) returns (done: bool)
    ensures done ==> w.interrupted
  {
    done := false;
    if w.interrupted { done := *; }
  }

  /** Looks at every listed file; may be cancelled on the way. */
  method StatFiles(before: map<string, int>, w: World)
    returns (cancelled: bool, existing: seq<string>, newModTimes: map<string, int>, changed: seq<string>)
    requires w.listing.Some?
    ensures cancelled ==> w.interrupted
    ensures !cancelled ==>
      && existing == Existing(Listing(w), w.stat)
      && newModTimes == Current(w)
      && changed == ChangedFiles(before, Listing(w), w.stat)
  {
    var files := w.listing.value;
    cancelled, existing, newModTimes, changed := false, [], map[], [];
    for i := 0 to |files|
      invariant existing == Existing(files[..i], w.stat)
      invariant changed == ChangedFiles(before, files[..i], w.stat)
      invariant forall f :: f in newModTimes <==> f in files[..i] && f in w.stat
      invariant forall f | f in newModTimes :: newModTimes[f] == w.stat[f]
    {
      cancelled := Interrupted(w);
      if cancelled { return; }
      assert files[..i + 1][..i] == files[..i];
      var file := files[i];
      if file !in w.stat { continue; }
      existing := existing + [file];
      var modTime := w.stat[file];
      newModTimes := newModTimes[file := modTime];
      if file !in before || modTime != before[file] {
        changed := changed + [file];
      }
    }
    assert files[..|files|] == files;
  }

  /** Recorded files that are gone. */
  method FindDeleted(before: map<string, int>, current: map<string, int>) returns (deleted: seq<string>)
    ensures forall f :: f in deleted <==> f in before && f !in current
  {
    deleted := [];
    var todo := before.Keys;
    while todo != {}
      invariant todo <= before.Keys
      invariant forall f :: f in deleted <==> f in before.Keys - todo && f !in current
      decreases todo
    {
      var file :| file in todo;
      if file !in current { deleted := deleted + [file]; }
      todo := todo - {file};
    }
  }

  method CopyUnchanged(oldFileSymbols: Table, current: map<string, int>, changed: seq<string>) returns (kept: Table)
    ensures kept == map f | f in oldFileSymbols && f in current && f !in changed :: oldFileSymbols[f]
  {
    kept := map[];
    var todo := oldFileSymbols.Keys;
    while todo != {}
      invariant todo <= oldFileSymbols.Keys
      invariant kept == map f | f in oldFileSymbols && f !in todo && f in current && f !in changed :: oldFileSymbols[f]
      decreases todo
    {
      var file :| file in todo;
      if file in current && file !in changed { kept := kept[file := oldFileSymbols[file]]; }
      todo := todo - {file};
    }
  }

  /** The references of a list of files, once for every time a file is listed. */
  ghost predicate RefsOfListed(extract: Extractor, w: World, files: seq<string>, refs: seq<Reference>) {
    forall r :: multiset(refs)[r] == multiset(files)[r.file] * multiset(FreshRefs(extract, w, r.file))[r]
  }

  lemma NoRefsYet(extract: Extractor, w: World)
    ensures RefsOfListed(extract, w, [], [])
  {
  }

  lemma MoreRefsOfListed(extract: Extractor, w: World, seen: seq<string>, file: string, refs: seq<Reference>)
    requires Faithful(extract) && RefsOfListed(extract, w, seen, refs)
    ensures RefsOfListed(extract, w, seen + [file], refs + FreshRefs(extract, w, file))
  {
    hide FreshRefs, Faithful;
    forall r { OneMoreTime(extract, w, seen, file, r); }
  }

  lemma FreshContents(extract: Extractor, w: World, f: string)
    requires Faithful(extract) && f in w.stat
    ensures
      var e := extract(f, w.stat[f]);
      if f in w.unreadable || e.ParseError? || e.binary then
        FreshSymbols(extract, w, f) == [] && FreshRefs(extract, w, f) == []
      else
        FreshSymbols(extract, w, f) == e.symbols && FreshRefs(extract, w, f) == e.refs
    ensures forall y | y in FreshSymbols(extract, w, f) :: y.file == f
  {
    ExtractionNamesFile(extract, f, w.stat[f]);
  }

  /** The table after parsing: fresh entries for changed files, the kept ones for the others. */
  ghost predicate ParsedInto(extract: Extractor, w: World, changed: seq<string>, kept: Table, fileSymbols: Table) {
    && KeyedBy(fileSymbols, FileOf)
    && (forall f | f in changed :: Get(fileSymbols, f) == FreshSymbols(extract, w, f))
    && (forall f | f !in changed :: (f in fileSymbols <==> f in kept) && Get(fileSymbols, f) == Get(kept, f))
  }

  lemma NothingParsed(extract: Extractor, w: World, kept: Table)
    requires KeyedBy(kept, FileOf)
    ensures ParsedInto(extract, w, [], kept, kept)
  {
  }

  /** One more file parsed: its fresh symbols are entered, or there are none. */
  lemma ParsedOneMore(extract: Extractor, w: World, seen: seq<string>, file: string, kept: Table, table: Table)
    requires ParsedInto(extract, w, seen, kept, table) && file !in kept
    requires forall y | y in FreshSymbols(extract, w, file) :: y.file == file
    ensures FreshSymbols(extract, w, file) == [] ==> ParsedInto(extract, w, seen + [file], kept, table)
    ensures ParsedInto(extract, w, seen + [file], kept, table[file := FreshSymbols(extract, w, file)])
  {
    hide FreshSymbols;
    assert forall f :: f in seen + [file] <==> f in seen || f == file;
  }

  /** Parses the changed files into the table and collects their references. */
  method ParseChanged(extract: Extractor, w: World, changed: seq<string>, kept: Table)
    returns (cancelled: bool, fileSymbols: Table, newRefs: seq<Reference>)
    requires Faithful(extract)
    requires forall f | f in changed :: f in w.stat && f !in kept
    requires KeyedBy(kept, FileOf)
    ensures cancelled ==> w.interrupted
    ensures !cancelled ==>
      && ParsedInto(extract, w, changed, kept, fileSymbols)
      && RefsOfListed(extract, w, changed, newRefs)
  {
    hide RefsOfListed, FreshSymbols, FreshRefs, Faithful, ParsedInto;
    NoRefsYet(extract, w);
    NothingParsed(extract, w, kept);
    cancelled, fileSymbols, newRefs := false, kept, [];
    for i := 0 to |changed|
      invariant ParsedInto(extract, w, changed[..i], kept, fileSymbols)
      invariant RefsOfListed(extract, w, changed[..i], newRefs)
    {
      cancelled := Interrupted(w);
      if cancelled { return; }
      var file := changed[i];
      ghost var seen := changed[..i];
      assert changed[..i + 1] == seen + [file];
      MoreRefsOfListed(extract, w, seen, file, newRefs);
      FreshContents(extract, w, file);
      ParsedOneMore(extract, w, seen, file, kept, fileSymbols);
      assert newRefs + [] == newRefs;
      if file in w.unreadable { continue; }
      var e := extract(file, w.stat[file]);
      if e.ParseError? || e.binary { continue; }
      fileSymbols := fileSymbols[file := e.symbols];
      newRefs := newRefs + e.refs;
    }
    assert changed[..|changed|] == changed;
    cancelled := Interrupted(w);
  }

  lemma OneMoreTime(extract: Extractor, w: World, seen: seq<string>, file: string, r: Reference)
    requires Faithful(extract)
    ensures multiset(seen + [file])[r.file] * multiset(FreshRefs(extract, w, r.file))[r]
         == multiset(seen)[r.file] * multiset(FreshRefs(extract, w, r.file))[r]
            + multiset(FreshRefs(extract, w, file))[r]
  {
    hide FreshRefs, ReextractedRefs, FreshSymbols, Faithful;
    ContributionsNameTheirFile(extract, w, file);
    var n, k := multiset(seen)[r.file], multiset(FreshRefs(extract, w, r.file))[r];
    assert multiset(seen + [file])[r.file] == n + (if r.file == file then 1 else 0);
    assert (n + 1) * k == n * k + k;
  }

  /** The references of the unchanged files with an entry, apart from those still to do. */
  ghost predicate Reextracted(extract: Extractor, w: World, fileSymbols: Table, todo: set<string>,
                              changed: seq<string>, refs: seq<Reference>)
  {
    forall r ::
      multiset(refs)[r] ==
        (if r.file in fileSymbols && r.file !in todo && r.file !in changed
         then multiset(ReextractedRefs(extract, w, r.file))[r] else 0)
  }

  /** Extracts the references of unchanged files again. */
  method ReextractUnchanged(extract: Extractor, w: World, fileSymbols: Table, changed: seq<string>)
    returns (cancelled: bool, refs: seq<Reference>)
    requires Faithful(extract)
    requires forall f | f in fileSymbols :: f in w.stat
    ensures cancelled ==> w.interrupted
    ensures !cancelled ==> Reextracted(extract, w, fileSymbols, {}, changed, refs)
  {
    cancelled, refs := false, [];
    var todo := fileSymbols.Keys;
    while todo != {}
      invariant todo <= fileSymbols.Keys
      invariant Reextracted(extract, w, fileSymbols, todo, changed, refs)
      decreases todo
    {
      cancelled := Interrupted(w);
      if cancelled { return; }
      var file :| file in todo;
      todo := todo - {file};
      ContributionsNameTheirFile(extract, w, file);
      if file in changed || file in w.unreadable { continue; }
      var e := extract(file, w.stat[file]);
      if e.Extracted? { refs := refs + e.refs; }
    }
  }

  method BuildGraph(refs: seq<Reference>) returns (graph: GraphData)
    ensures graph.Indexes(refs)
  {
    var cg := new CallGraph();
    for i := 0 to |refs|
      invariant cg.Valid() && cg.log == refs[..i] && fresh(cg)
    {
      cg.AddReference(refs[i]);
      assert refs[..i + 1] == refs[..i] + [refs[i]];
    }
    assert refs[..|refs|] == refs;
    graph := cg.Data();
  }

  /** The rebuild proper: copy, parse, regroup, re-extract, and index the references. */
  method ComputeIndex(extract: Extractor, ghost s: IndexState, w: World, oldFileSymbols: Table,
                      newModTimes: map<string, int>, changed: seq<string>)
    returns (cancelled: bool, table: Table, graph: GraphData)
    requires Faithful(extract) && OldFiles(s, oldFileSymbols)
    requires newModTimes == Current(w) && changed == ChangedFiles(s.modTimes, Listing(w), w.stat)
    ensures cancelled ==> w.interrupted
    ensures !cancelled ==> KeyedBy(table, NameOf) && IncrementalSave(extract, s, w, Saved(table, graph, w.commit))
  {
    hide IncrementalTable, IncrementalLog, KeyedBy, Faithful, RefsOfListed, Reextracted, ParsedInto, OldFiles,
      GraphData.Indexes, ChangedFiles, Current;
    cancelled, table, graph := false, map[], EMPTY_GRAPH;
    var kept := CopyUnchanged(oldFileSymbols, newModTimes, changed);
    KeptIsKeyed(s, oldFileSymbols, w, changed, kept);
    var fileSymbols, newRefs;
    cancelled, fileSymbols, newRefs := ParseChanged(extract, w, changed, kept);
    if cancelled { return; }
    EntriesAre(extract, s, w, oldFileSymbols, kept, fileSymbols);
    table := Regroup(fileSymbols, FileOf, NameOf);
    IncrementalTableBuilt(extract, s, w, oldFileSymbols, kept, fileSymbols, table);
    var unchangedRefs;
    cancelled, unchangedRefs := ReextractUnchanged(extract, w, fileSymbols, changed);
    if cancelled { return; }
    IncrementalLogBuilt(extract, s, w, oldFileSymbols, kept, fileSymbols, unchangedRefs, newRefs);
    graph := BuildGraph(unchangedRefs + newRefs);
  }

  // ----- The indexer object -----

  /** What a failed save leaves behind, if readable, is still a symbol table. */
  ghost predicate WellFormedWorld(w: World) {
    w.save.SaveFailed? && w.save.left.Some? ==> KeyedBy(w.save.left.value.symbols, NameOf)
  }

  class TreeSitterIndexer {
    const extract: Extractor
    var files: seq<string>
    var symbols: Option<Table>
    var fileSymbols: Option<Table>
    var callgraph: Option<GraphData>
    var fileModTimes: map<string, int>
    var indexed: bool
    var store: Option<Saved>

    ghost predicate Valid() reads this { Faithful(extract) && Coherent(View()) }

    ghost function View(): IndexState reads this {
      IndexState(files, symbols, fileSymbols, callgraph, fileModTimes, indexed, store)
    }

    constructor (extract: Extractor, store: Option<Saved>)
      requires Faithful(extract)
      requires store.Some? ==> KeyedBy(store.value.symbols, NameOf)
      ensures Valid() && this.extract == extract
      ensures View() == IndexState([], None, None, None, map[], false, store)
    {
      this.extract := extract;
      this.store := store;
      files, symbols, fileSymbols, callgraph, fileModTimes, indexed := [], None, None, None, map[], false;
    }

    method EnsureLoaded()
      requires Valid()
      modifies this
      ensures Valid() && OnlyMemoryDiffers(old(View()), View())
      ensures LastSaved(View()).Some? ==> symbols.Some? && fileSymbols.Some?
    {
      if symbols.Some? { return; }
      if !indexed { return; }
      if store.None? { return; }
      var byFile := Regroup(store.value.symbols, NameOf, FileOf);
      symbols := Some(store.value.symbols);
      callgraph := Some(store.value.graph);
      fileSymbols := Some(byFile);
    }

    method ReleaseHeavyData()
      requires Valid()
      modifies this
      ensures Valid() && OnlyMemoryDiffers(old(View()), View())
      ensures symbols.None? && fileSymbols.None? && callgraph.None?
    {
      symbols, fileSymbols, callgraph := None, None, None;
    }

    method LookupSymbol(name: string) returns (out: seq<Symbol>)
      requires Valid()
      modifies this
      ensures Valid() && OnlyMemoryDiffers(old(View()), View())
      ensures out == old(SymbolAnswer(View(), name))
    {
      EnsureLoaded();
      out := if symbols.Some? then Get(symbols.value, name) else [];
    }

    method FindCallers(symbol: string) returns (out: seq<Reference>)
      requires Valid()
      modifies this
      ensures Valid() && OnlyMemoryDiffers(old(View()), View())
      ensures var graph := old(GraphAnswer(View()));
        out == if graph.Some? then Get(graph.value.callers, symbol) else []
    {
      EnsureLoaded();
      out := if callgraph.Some? then Get(callgraph.value.callers, symbol) else [];
    }

    method FindCallees(caller: string) returns (out: seq<Reference>)
      requires Valid()
      modifies this
      ensures Valid() && OnlyMemoryDiffers(old(View()), View())
      ensures var graph := old(GraphAnswer(View()));
        out == if graph.Some? then Get(graph.value.callees, caller) else []
    {
      EnsureLoaded();
      out := if callgraph.Some? then Get(callgraph.value.callees, caller) else [];
    }

    method Build(w: World) returns (outcome: BuildOutcome)
      requires Valid() && WellFormedWorld(w)
      modifies this
      ensures Valid() && BuildStep(extract, old(View()), w, outcome, View())
    {
      hide IncrementalSave, KeyedBy, Coherent, Faithful, OldFiles, Current, Existing, ChangedFiles, BuildStep;
      ghost var s := View();
      StepsAllowed(extract, s, w);
      CoherentFacts(s);
      var alreadyIndexed := indexed;
      if !alreadyIndexed && store.Some? && store.value.commit == w.commit {
        TakeCache(w);
        return FromCache;
      }

      if w.listing.None? { return ListFailed; }
      var done := Interrupted(w);
      if done { return Cancelled; }
      var oldModTimes := fileModTimes;
      if fileSymbols.None? && alreadyIndexed { EnsureLoaded(); }
      var oldFileSymbols := if fileSymbols.Some? then fileSymbols.value else map[];

      var cancelled, existing, newModTimes, changed := StatFiles(oldModTimes, w);
      if cancelled { return Cancelled; }
      var deleted := FindDeleted(oldModTimes, newModTimes);
      ChangesOrNot(oldModTimes, w, deleted);
      if changed == [] && deleted == [] && alreadyIndexed {
        FilesDoNotMatter(View(), existing);
        files := existing;
        return Unchanged;
      }

      OldFilesMatch(s, View(), oldFileSymbols);
      var stop, table, graph := ComputeIndex(extract, s, w, oldFileSymbols, newModTimes, changed);
      if stop { return Cancelled; }
      done := Interrupted(w);
      if done { return Cancelled; }

      Publish(w, existing, newModTimes, Saved(table, graph, w.commit));
      StepRebuilds(extract, s, w, Saved(table, graph, w.commit), View());
      return Rebuilt;
    }

    /** Accepts the saved index without reading any file: only the commit is compared. */
    method TakeCache(w: World)
      requires Valid() && !indexed && store.Some?
      modifies this
      ensures Valid()
      ensures View() == old(View()).(files := Listing(w), indexed := true, modTimes := Current(w))
    {
      files := Listing(w);
      indexed := true;
      RecordModTimes(w);
    }

    /** Saves the new index and drops everything but the file list and the modification times. */
    method Publish(w: World, existing: seq<string>, newModTimes: map<string, int>, saved: Saved)
      requires WellFormedWorld(w) && KeyedBy(saved.symbols, NameOf) && Faithful(extract)
      modifies this
      ensures Valid()
      ensures View() == IndexState(existing, None, None, None, newModTimes, true,
                                   if w.save.SaveOk? then Some(saved) else w.save.left)
    {
      store := if w.save.SaveOk? then Some(saved) else w.save.left;
      files := existing;
      fileModTimes := newModTimes;
      symbols, fileSymbols, callgraph := None, None, None;
      indexed := true;
    }

    /** Remembers the modification times of the listed files without reading them. */
    method RecordModTimes(w: World)
      modifies this`fileModTimes
      requires fileModTimes == map[]
      ensures fileModTimes == Current(w)
    {
      var listed := Listing(w);
      for i := 0 to |listed|
        invariant forall f :: f in fileModTimes <==> f in listed[..i] && f in w.stat
        invariant forall f | f in fileModTimes :: fileModTimes[f] == w.stat[f]
      {
        if listed[i] in w.stat { fileModTimes := fileModTimes[listed[i] := w.stat[listed[i]]]; }
      }
      assert listed[..|listed|] == listed;
    }
  }

  lemma CoherentFacts(s: IndexState)
    requires Coherent(s)
    ensures s.store.Some? ==> KeyedBy(s.store.value.symbols, NameOf)
    ensures !s.indexed ==> s.modTimes == map[] && s.symbols.None? && s.fileSymbols.None? && s.callgraph.None?
  {
  }

  lemma FilesDoNotMatter(s: IndexState, files: seq<string>)
    requires Coherent(s)
    ensures Coherent(s.(files := files))
  {
  }

  // ----- Why the loops add up -----

  lemma {:induction false} ChangedListed(before: map<string, int>, listing: seq<string>, stat: map<string, int>,
                                         f: string)
    ensures multiset(ChangedFiles(before, listing, stat))[f]
         == if IsChanged(before, stat, f) then multiset(listing)[f] else 0
  {
    if listing != [] {
      var init, last := listing[..|listing| - 1], listing[|listing| - 1];
      ChangedListed(before, init, stat, f);
      assert listing == init + [last];
    }
  }

  lemma ChangedIff(before: map<string, int>, w: World, f: string)
    ensures f in ChangedFiles(before, Listing(w), w.stat) <==> IsChanged(before, Current(w), f)
    ensures multiset(ChangedFiles(before, Listing(w), w.stat))[f]
         == if IsChanged(before, Current(w), f) then multiset(Listing(w))[f] else 0
  {
    ChangedListed(before, Listing(w), w.stat, f);
    assert f in ChangedFiles(before, Listing(w), w.stat) <==> multiset(ChangedFiles(before, Listing(w), w.stat))[f] > 0;
    assert f in Listing(w) <==> multiset(Listing(w))[f] > 0;
  }

  /** Nothing changed and nothing deleted means the recorded times are the current ones. */
  lemma ChangesOrNot(before: map<string, int>, w: World, deleted: seq<string>)
    requires forall f :: f in deleted <==> f in before && f !in Current(w)
    ensures ChangedFiles(before, Listing(w), w.stat) == [] && deleted == [] <==> before == Current(w)
  {
    hide Current, ChangedFiles;
    var changed := ChangedFiles(before, Listing(w), w.stat);
    forall f { ChangedIff(before, w, f); }
    if changed == [] && deleted == [] {
      assert forall f | f in before :: f in Current(w);
      assert forall f | f in Current(w) :: f in before && before[f] == Current(w)[f];
    } else {
      if changed != [] { assert changed[0] in changed; }
      if deleted != [] { assert deleted[0] in deleted; }
    }
  }

  /** The entries an incremental build starts from are the last saved symbols, by file. */
  ghost predicate OldFiles(s: IndexState, oldFileSymbols: Table) {
    && KeyedBy(oldFileSymbols, FileOf)
    && (forall y :: Count(oldFileSymbols, FileOf, y) == OldCount(s, y))
    && (forall f | f in oldFileSymbols :: oldFileSymbols[f] != [])
  }

  lemma OldFilesMatch(s: IndexState, t: IndexState, oldFileSymbols: Table)
    requires Coherent(s) && OnlyMemoryDiffers(s, t)
    requires oldFileSymbols == if t.fileSymbols.Some? then t.fileSymbols.value else map[]
    requires LastSaved(s).Some? ==> t.fileSymbols.Some?
    ensures OldFiles(s, oldFileSymbols)
  {
  }

  lemma KeptIsKeyed(s: IndexState, oldFileSymbols: Table, w: World, changed: seq<string>, kept: Table)
    requires OldFiles(s, oldFileSymbols)
    requires changed == ChangedFiles(s.modTimes, Listing(w), w.stat)
    requires kept == map f | f in oldFileSymbols && f in Current(w) && f !in changed :: oldFileSymbols[f]
    ensures KeyedBy(kept, FileOf)
    ensures forall f | f in changed :: f in w.stat && f !in kept
  {
    forall f | f in changed ensures f in w.stat { ChangedIff(s.modTimes, w, f); }
  }

  lemma HasEntryIffDefined(s: IndexState, oldFileSymbols: Table, f: string)
    requires OldFiles(s, oldFileSymbols)
    ensures f in oldFileSymbols <==> DefinedSymbols(s, f)
  {
    if f in oldFileSymbols {
      var y := oldFileSymbols[f][0];
      assert y.file == f && Count(oldFileSymbols, FileOf, y) > 0;
    }
    if y: Symbol :| y.file == f && OldCount(s, y) > 0 {
      assert Count(oldFileSymbols, FileOf, y) > 0;
    }
  }

  lemma EntriesAre(extract: Extractor, s: IndexState, w: World, oldFileSymbols: Table, kept: Table, now: Table)
    requires OldFiles(s, oldFileSymbols)
    requires var changed := ChangedFiles(s.modTimes, Listing(w), w.stat);
      && kept == (map f | f in oldFileSymbols && f in Current(w) && f !in changed :: oldFileSymbols[f])
      && ParsedInto(extract, w, changed, kept, now)
    ensures KeyedBy(now, FileOf)
    ensures forall f | f in now :: f in w.stat
    ensures forall f | !IsChanged(s.modTimes, Current(w), f) :: f in now <==> f in Current(w) && DefinedSymbols(s, f)
  {
    hide ChangedFiles;
    var changed := ChangedFiles(s.modTimes, Listing(w), w.stat);
    forall f
      ensures f in now ==> f in w.stat
      ensures !IsChanged(s.modTimes, Current(w), f) ==> (f in now <==> f in Current(w) && DefinedSymbols(s, f))
    {
      ChangedIff(s.modTimes, w, f);
      HasEntryIffDefined(s, oldFileSymbols, f);
    }
  }

  lemma IncrementalTableBuilt(extract: Extractor, s: IndexState, w: World, oldFileSymbols: Table, kept: Table,
                              now: Table, table: Table)
    requires OldFiles(s, oldFileSymbols)
    requires var changed := ChangedFiles(s.modTimes, Listing(w), w.stat);
      && kept == (map f | f in oldFileSymbols && f in Current(w) && f !in changed :: oldFileSymbols[f])
      && ParsedInto(extract, w, changed, kept, now)
    requires KeyedBy(table, NameOf) && SameBag(table, NameOf, now, FileOf)
    ensures IncrementalTable(extract, s, w, table)
  {
    hide ChangedFiles, KeyedBy, FreshSymbols, OldCount;
    forall y
      ensures Count(table, NameOf, y) ==
        if IsChanged(s.modTimes, Current(w), y.file) then multiset(FreshSymbols(extract, w, y.file))[y]
        else if y.file in Current(w) then OldCount(s, y)
        else 0
    {
      ChangedIff(s.modTimes, w, y.file);
      assert Count(table, NameOf, y) == Count(now, FileOf, y);
      assert Count(oldFileSymbols, FileOf, y) == OldCount(s, y);
    }
  }

  lemma IncrementalLogBuilt(extract: Extractor, s: IndexState, w: World, oldFileSymbols: Table, kept: Table,
                            now: Table, unchangedRefs: seq<Reference>, newRefs: seq<Reference>)
    requires OldFiles(s, oldFileSymbols)
    requires var changed := ChangedFiles(s.modTimes, Listing(w), w.stat);
      && kept == (map f | f in oldFileSymbols && f in Current(w) && f !in changed :: oldFileSymbols[f])
      && ParsedInto(extract, w, changed, kept, now)
      && Reextracted(extract, w, now, {}, changed, unchangedRefs)
      && RefsOfListed(extract, w, changed, newRefs)
    ensures IncrementalLog(extract, s, w, unchangedRefs + newRefs)
  {
    hide ChangedFiles, ParsedInto, OldFiles, FreshRefs, ReextractedRefs, DefinedSymbols;
    var changed := ChangedFiles(s.modTimes, Listing(w), w.stat);
    EntriesAre(extract, s, w, oldFileSymbols, kept, now);
    forall r: Reference
      ensures multiset(unchangedRefs + newRefs)[r] ==
        if IsChanged(s.modTimes, Current(w), r.file) then
          multiset(Listing(w))[r.file] * multiset(FreshRefs(extract, w, r.file))[r]
        else if r.file in Current(w) && DefinedSymbols(s, r.file) then
          multiset(ReextractedRefs(extract, w, r.file))[r]
        else 0
    {
      ChangedIff(s.modTimes, w, r.file);
      assert multiset(unchangedRefs + newRefs) == multiset(unchangedRefs) + multiset(newRefs);
      if !IsChanged(s.modTimes, Current(w), r.file) {
        assert 0 * multiset(FreshRefs(extract, w, r.file))[r] == 0;
      }
    }
  }
}
