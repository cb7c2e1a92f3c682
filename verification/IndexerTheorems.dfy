/** What any run of builds, queries and releases guarantees about the saved index and the answers. */
module IndexerTheorems {
  import opened Wrappers
  import opened CallGraphs
  import opened Indexers

  // ----- A rebuild from nothing, as a bag of symbols and a bag of references -----

  ghost function FullCount(extract: Extractor, mods: map<string, int>, y: Symbol): nat {
    if y.file in mods then multiset(UsableSymbols(extract(y.file, mods[y.file])))[y] else 0
  }

  ghost predicate ExactSymbols(extract: Extractor, mods: map<string, int>, table: Table) {
    KeyedBy(table, NameOf) && forall y :: Count(table, NameOf, y) == FullCount(extract, mods, y)
  }

  ghost function FullRefCount(extract: Extractor, mods: map<string, int>, r: Reference): nat {
    if r.file in mods then multiset(UsableRefs(extract(r.file, mods[r.file])))[r] else 0
  }

  /** The call graph of all files but the dropped ones. */
  ghost predicate ExactRefs(extract: Extractor, mods: map<string, int>, graph: GraphData, dropped: set<string>) {
    exists log :: graph.Indexes(log) && RefsBut(extract, mods, log, dropped)
  }

  ghost predicate RefsBut(extract: Extractor, mods: map<string, int>, log: seq<Reference>, dropped: set<string>) {
    forall r :: multiset(log)[r] == if r.file in dropped then 0 else FullRefCount(extract, mods, r)
  }

  /** Two exact tables hold the same symbols under every name. */
  lemma ExactTablesAgree(extract: Extractor, mods: map<string, int>, a: Table, b: Table, name: string)
    requires ExactSymbols(extract, mods, a) && ExactSymbols(extract, mods, b)
    ensures multiset(Get(a, name)) == multiset(Get(b, name))
  {
    forall y ensures multiset(Get(a, name))[y] == multiset(Get(b, name))[y] {
      if y.name == name {
        assert Count(a, NameOf, y) == Count(b, NameOf, y);
      } else {
        OnlyOwnName(a, name, y);
        OnlyOwnName(b, name, y);
      }
    }
  }

  lemma OnlyOwnName(table: Table, name: string, y: Symbol)
    requires KeyedBy(table, NameOf) && y.name != name
    ensures multiset(Get(table, name))[y] == 0
  {
    assert forall x | x in Get(table, name) :: NameOf(x) == name;
    assert y !in Get(table, name);
  }

  /** The references of a graph are determined by the graph. */
  lemma LogsAgree(graph: GraphData, a: seq<Reference>, b: seq<Reference>)
    requires graph.Indexes(a) && graph.Indexes(b)
    ensures multiset(a) == multiset(b)
  {
    forall r ensures multiset(a)[r] == multiset(b)[r] {
      BothIndexesHoldTheLog(a, r, r.symbol);
      BothIndexesHoldTheLog(b, r, r.symbol);
      assert Get(graph.callers, r.symbol) == ReferencesTo(a, r.symbol) == ReferencesTo(b, r.symbol);
    }
  }

  // ----- One build -----

  /** Every listed file can be read and the save succeeds. */
  ghost predicate Faultless(w: World) {
    w.unreadable == {} && w.save.SaveOk?
  }

  ghost predicate DistinctListing(w: World) {
    forall i, j | 0 <= i < j < |Listing(w)| :: Listing(w)[i] != Listing(w)[j]
  }

  /** An index that has been built is exact for the modification times it recorded. */
  ghost predicate Exact(extract: Extractor, s: IndexState) {
    && Coherent(s)
    && (s.indexed ==> s.store.Some? && ExactSymbols(extract, s.modTimes, s.store.value.symbols))
  }

  /** The symbols of one file at the recorded times. */
  ghost function SymbolsAt(extract: Extractor, mods: map<string, int>, f: string): multiset<Symbol> {
    if f in mods then multiset(UsableSymbols(extract(f, mods[f]))) else multiset{}
  }

  /** No file has gained or lost a symbol between the two times. */
  ghost predicate SameSymbols(extract: Extractor, before: map<string, int>, now: map<string, int>) {
    forall f :: SymbolsAt(extract, before, f) == SymbolsAt(extract, now, f)
  }

  /** A changed file that cannot be read has no symbols to miss. */
  ghost predicate NothingUnread(extract: Extractor, s: IndexState, w: World) {
    forall f | f in w.unreadable && IsChanged(s.modTimes, Current(w), f) :: UsableSymbols(extract(f, w.stat[f])) == []
  }

  /** The times for which the present store was saved: the recorded ones, or those of an earlier process. */
  function SavedTimes(s: IndexState, earlier: map<string, int>): map<string, int> {
    if s.indexed then s.modTimes else earlier
  }

  /** When a build leaves an exact index: it takes over a cache only if no symbol has come or gone since that was
    saved, misses no symbol in a file it cannot read, and a failing save leaves an index that still fits. */
  ghost predicate KeepsUp(extract: Extractor, earlier: map<string, int>, s: IndexState, w: World,
                          outcome: BuildOutcome)
  {
    match outcome
    case Cancelled | ListFailed | Unchanged => true
    case FromCache => SameSymbols(extract, earlier, Current(w))
    case Rebuilt =>
      match w.save
      case SaveOk => NothingUnread(extract, s, w)
      case SaveFailed(left) =>
        left.Some? &&
        if OldTableLeft(s, left.value) then SameSymbols(extract, SavedTimes(s, earlier), Current(w))
        else NothingUnread(extract, s, w)
  }

  ghost predicate OldTableLeft(s: IndexState, left: Saved) { s.store.Some? && left.symbols == s.store.value.symbols }

  /** A failing save leaves nothing that can be read, the old symbols, or already the new ones. */
  ghost predicate FailureLeavesTable(extract: Extractor, s: IndexState, w: World) {
    w.save.SaveFailed? && w.save.left.Some? ==>
      OldTableLeft(s, w.save.left.value) || IncrementalTable(extract, s, w, w.save.left.value.symbols)
  }

  /** Exact, and before the first build the store is exact for the times it was saved at. */
  ghost predicate Kept(extract: Extractor, earlier: map<string, int>, s: IndexState) {
    Exact(extract, s) && (s.store.Some? ==> ExactSymbols(extract, SavedTimes(s, earlier), s.store.value.symbols))
  }

  /** Unless it is interrupted, what a build does is determined; interrupted, it may also change nothing. */
  lemma BuildDoesOneThing(extract: Extractor, s: IndexState, w: World, outcome: BuildOutcome, t: IndexState)
    requires BuildStep(extract, s, w, outcome, t)
    ensures
      var undisturbed :=
        if CacheAccepted(s, w) then FromCache
        else if w.listing.None? then ListFailed
        else if s.indexed && s.modTimes == Current(w) then Unchanged
        else Rebuilt;
      outcome == undisturbed || (w.interrupted && outcome == Cancelled && OnlyMemoryDiffers(s, t))
  {
  }

  /** A new process whose stored index is of another commit, or that has none, builds anew, and what it then saves
    is exact for the present contents. */
  lemma OtherCommitRebuilds(extract: Extractor, s: IndexState, w: World, outcome: BuildOutcome, t: IndexState)
    requires BuildStep(extract, s, w, outcome, t) && Coherent(s) && !s.indexed && w.listing.Some? && !w.interrupted
    requires s.store.None? || s.store.value.commit != w.commit
    ensures outcome == Rebuilt && t.indexed
    ensures Faultless(w) ==>
      && t.store.Some? && t.store.value.commit == w.commit
      && ExactSymbols(extract, Current(w), t.store.value.symbols)
  {
    hide IncrementalTable, ExactSymbols, GroupedByFile, Current;
    if Faultless(w) { IncrementalTableIsExact(extract, s, w, t.store.value.symbols); }
  }

  /** A new process whose stored index is of the present commit takes it over as it is, and records the times of the
    listed files that exist. */
  lemma SameCommitIsTakenOver(extract: Extractor, s: IndexState, w: World, outcome: BuildOutcome, t: IndexState)
    requires BuildStep(extract, s, w, outcome, t) && !s.indexed
    requires s.store.Some? && s.store.value.commit == w.commit
    ensures outcome == FromCache && t.indexed && t.store == s.store
    ensures forall f :: f in t.modTimes <==> w.listing.Some? && f in w.listing.value && f in w.stat
    ensures forall f | f in t.modTimes :: t.modTimes[f] == w.stat[f]
  {
  }

  /** After a rebuild, the file list holds the listed files that exist, as often and in the order they are listed, and
    their times are the recorded ones. */
  lemma RebuildRecordsFiles(extract: Extractor, s: IndexState, w: World, t: IndexState)
    requires BuildStep(extract, s, w, Rebuilt, t)
    ensures forall f :: multiset(t.files)[f] == if f in w.stat then multiset(w.listing.value)[f] else 0
    ensures AsListed(w.listing.value, t.files)
    ensures forall f :: f in t.modTimes <==> f in t.files
    ensures forall f | f in t.modTimes :: t.modTimes[f] == w.stat[f]
  {
    hide IncrementalSave, Existing;
    ExistingCounts(w.listing.value, w.stat);
    ExistingInOrder(w.listing.value, w.stat);
    forall f ensures f in t.files <==> f in w.listing.value && f in w.stat {
      assert f in t.files <==> multiset(t.files)[f] > 0;
      assert f in w.listing.value <==> multiset(w.listing.value)[f] > 0;
    }
  }

  /** Of any two files, the one that comes first is listed first. */
  ghost predicate AsListed(listing: seq<string>, files: seq<string>) {
    forall i, j | 0 <= i < j < |files| :: InOrder(listing, files[i], files[j])
  }

  ghost predicate InOrder(listing: seq<string>, f: string, g: string) {
    exists m, n :: 0 <= m < n < |listing| && listing[m] == f && listing[n] == g
  }

  lemma {:induction false} ExistingCounts(listing: seq<string>, stat: map<string, int>)
    ensures forall f :: multiset(Existing(listing, stat))[f] == if f in stat then multiset(listing)[f] else 0
  {
    if listing != [] {
      var init, last := listing[..|listing| - 1], listing[|listing| - 1];
      ExistingCounts(init, stat);
      assert listing == init + [last];
    }
  }

  lemma {:induction false} ExistingInOrder(listing: seq<string>, stat: map<string, int>)
    ensures AsListed(listing, Existing(listing, stat))
  {
    hide InOrder;
    if listing != [] {
      var init, last := listing[..|listing| - 1], listing[|listing| - 1];
      var files, before := Existing(listing, stat), Existing(init, stat);
      ExistingInOrder(init, stat);
      assert listing == init + [last];
      forall i, j | 0 <= i < j < |files| ensures InOrder(listing, files[i], files[j]) {
        if j < |before| {
          assert InOrder(init, before[i], before[j]);
          LaterInOrder(init, last, files[i], files[j]);
        } else {
          ExistingIsListed(init, stat, before[i]);
          LastInOrder(init, last, files[i]);
        }
      }
    }
  }

  lemma {:induction false} ExistingIsListed(listing: seq<string>, stat: map<string, int>, f: string)
    requires f in Existing(listing, stat)
    ensures f in listing
  {
    var init := listing[..|listing| - 1];
    if f in Existing(init, stat) { ExistingIsListed(init, stat, f); }
  }

  lemma LastInOrder(init: seq<string>, last: string, f: string)
    requires f in init
    ensures InOrder(init + [last], f, last)
  {
    var m :| 0 <= m < |init| && init[m] == f;
    assert (init + [last])[m] == f && (init + [last])[|init|] == last;
  }

  lemma LaterInOrder(init: seq<string>, last: string, f: string, g: string)
    requires InOrder(init, f, g)
    ensures InOrder(init + [last], f, g)
  {
    var m, n :| 0 <= m < n < |init| && init[m] == f && init[n] == g;
    assert (init + [last])[m] == f && (init + [last])[n] == g;
  }

  lemma FreshIsFull(extract: Extractor, w: World, y: Symbol, r: Reference)
    requires Faultless(w)
    ensures y.file in Current(w) ==> multiset(FreshSymbols(extract, w, y.file))[y] == FullCount(extract, Current(w), y)
    ensures r.file in Current(w) ==> multiset(FreshRefs(extract, w, r.file))[r] == FullRefCount(extract, Current(w), r)
  {
  }

  lemma UnchangedCount(extract: Extractor, s: IndexState, w: World, y: Symbol)
    requires Exact(extract, s)
    requires y.file in Current(w) && !IsChanged(s.modTimes, Current(w), y.file)
    ensures OldCount(s, y) == FullCount(extract, Current(w), y)
  {
    assert s.indexed;
  }

  /** The symbols of an incremental build are those of a full one. */
  lemma IncrementalTableIsExact(extract: Extractor, s: IndexState, w: World, table: Table)
    requires Exact(extract, s) && Faultless(w)
    requires IncrementalTable(extract, s, w, table)
    ensures ExactSymbols(extract, Current(w), table)
  {
    hide Count, FreshSymbols, OldCount, Exact;
    forall y ensures Count(table, NameOf, y) == FullCount(extract, Current(w), y) {
      FreshIsFull(extract, w, y, Reference("", y.file, 0, 0, "", ""));
      if y.file in Current(w) && !IsChanged(s.modTimes, Current(w), y.file) {
        UnchangedCount(extract, s, w, y);
      }
    }
  }

  lemma SymbolsAtCount(extract: Extractor, mods: map<string, int>, y: Symbol, f: string)
    requires Faithful(extract)
    ensures SymbolsAt(extract, mods, f)[y] == if y.file == f then FullCount(extract, mods, y) else 0
  {
    if f in mods { ExtractionNamesFile(extract, f, mods[f]); }
  }

  /** A table that was exact once is exact now, exactly if no symbol of any file has come or gone. */
  lemma OldTableExactIff(extract: Extractor, before: map<string, int>, now: map<string, int>, table: Table)
    requires Faithful(extract) && ExactSymbols(extract, before, table)
    ensures ExactSymbols(extract, now, table) <==> SameSymbols(extract, before, now)
  {
    hide FullCount, SymbolsAt, Count, Faithful, KeyedBy;
    if ExactSymbols(extract, now, table) {
      forall f ensures SymbolsAt(extract, before, f) == SymbolsAt(extract, now, f) {
        forall y ensures SymbolsAt(extract, before, f)[y] == SymbolsAt(extract, now, f)[y] {
          SymbolsAtCount(extract, before, y, f);
          SymbolsAtCount(extract, now, y, f);
          assert Count(table, NameOf, y) == FullCount(extract, before, y) == FullCount(extract, now, y);
        }
      }
    }
    if SameSymbols(extract, before, now) {
      forall y ensures Count(table, NameOf, y) == FullCount(extract, now, y) {
        SymbolsAtCount(extract, before, y, y.file);
        SymbolsAtCount(extract, now, y, y.file);
      }
    }
  }

  /** A cache is accepted for its commit alone.  It is exact exactly if no symbol has come or gone since it was
    saved, and so whenever no file has a new time. */
  lemma AcceptedCacheIsExactIff(extract: Extractor, saved: map<string, int>, s: IndexState, w: World, t: IndexState)
    requires Faithful(extract) && BuildStep(extract, s, w, FromCache, t)
    requires ExactSymbols(extract, saved, s.store.value.symbols)
    ensures ExactSymbols(extract, t.modTimes, t.store.value.symbols) <==> SameSymbols(extract, saved, Current(w))
    ensures saved == Current(w) ==> ExactSymbols(extract, t.modTimes, t.store.value.symbols)
  {
    hide ExactSymbols, SameSymbols, Current, Faithful;
    OldTableExactIff(extract, saved, Current(w), s.store.value.symbols);
  }

  lemma FreshOrUnread(extract: Extractor, s: IndexState, w: World, y: Symbol)
    requires IsChanged(s.modTimes, Current(w), y.file)
    ensures y.file !in w.unreadable ==>
      multiset(FreshSymbols(extract, w, y.file))[y] == FullCount(extract, Current(w), y)
    ensures y.file in w.unreadable ==> multiset(FreshSymbols(extract, w, y.file))[y] == 0
    ensures FullCount(extract, Current(w), y) == multiset(UsableSymbols(extract(y.file, w.stat[y.file])))[y]
  {
  }

  lemma UsableNamesFile(extract: Extractor, w: World, f: string, y: Symbol)
    requires Faithful(extract) && f in w.stat && y in UsableSymbols(extract(f, w.stat[f]))
    ensures y.file == f && multiset(UsableSymbols(extract(f, w.stat[f])))[y] > 0
  {
    ExtractionNamesFile(extract, f, w.stat[f]);
  }

  /** What a rebuild keeps of one file, in terms of what its contents are: nothing of a changed file that cannot be
    read, cannot be parsed or is binary, all symbols of any other changed file, and of an unchanged file what the old
    index had. */
  lemma RebuiltFileIs(extract: Extractor, s: IndexState, w: World, t: IndexState, y: Symbol)
    requires BuildStep(extract, s, w, Rebuilt, t) && w.save.SaveOk?
    ensures var f := y.file;
      Count(t.store.value.symbols, NameOf, y) ==
        if f !in w.stat || f !in w.listing.value then 0
        else if f in s.modTimes && s.modTimes[f] == w.stat[f] then
          (if s.indexed && s.store.Some? then multiset(Get(s.store.value.symbols, y.name))[y] else 0)
        else
          match extract(f, w.stat[f])
          case ParseError => 0
          case Extracted(binary, symbols, _) => if binary || f in w.unreadable then 0 else multiset(symbols)[y]
  {
    hide IncrementalLog, Existing;
    assert IncrementalTable(extract, s, w, t.store.value.symbols);
  }

  /** The same for references.  A changed file gives its references once for every time it is listed; an unchanged one
    only if the old index has a symbol of it, and then without another look whether it is binary. */
  lemma RebuiltReferenceIs(extract: Extractor, s: IndexState, w: World, t: IndexState, log: seq<Reference>,
                           r: Reference)
    requires BuildStep(extract, s, w, Rebuilt, t) && w.save.SaveOk? && t.store.value.graph.Indexes(log)
    ensures var f := r.file;
      multiset(log)[r] ==
        if f !in w.stat || f !in w.listing.value || f in w.unreadable || extract(f, w.stat[f]).ParseError? then 0
        else
          var Extracted(binary, _, refs) := extract(f, w.stat[f]);
          if f in s.modTimes && s.modTimes[f] == w.stat[f] then
            (if KnowsFile(s, f) then multiset(refs)[r] else 0)
          else if binary then 0
          else multiset(w.listing.value)[f] * multiset(refs)[r]
  {
    hide IncrementalTable, Existing, FreshRefs, ReextractedRefs, DefinedSymbols, KnowsFile, GraphData.Indexes;
    var graph := t.store.value.graph;
    var own :| graph.Indexes(own) && IncrementalLog(extract, s, w, own);
    LogsAgree(graph, log, own);
    KnowsIffDefined(s, r.file);
    ContentsGive(extract, w, r.file);
    hide IncrementalLog;
    LogCounts(extract, s, w, own, r);
  }

  lemma LogCounts(extract: Extractor, s: IndexState, w: World, log: seq<Reference>, r: Reference)
    requires IncrementalLog(extract, s, w, log)
    ensures var f := r.file;
      multiset(log)[r] ==
        if f !in w.stat || f !in Listing(w) then 0
        else if f in s.modTimes && s.modTimes[f] == w.stat[f] then
          (if DefinedSymbols(s, f) then multiset(ReextractedRefs(extract, w, f))[r] else 0)
        else multiset(Listing(w))[f] * multiset(FreshRefs(extract, w, f))[r]
  {
    hide DefinedSymbols, ReextractedRefs, FreshRefs;
  }

  lemma ContentsGive(extract: Extractor, w: World, f: string)
    ensures f !in w.stat || f in w.unreadable || extract(f, w.stat[f]).ParseError? ==>
      FreshRefs(extract, w, f) == [] && ReextractedRefs(extract, w, f) == []
    ensures f in w.stat && f !in w.unreadable && extract(f, w.stat[f]).Extracted? ==>
      && FreshRefs(extract, w, f) == (if extract(f, w.stat[f]).binary then [] else extract(f, w.stat[f]).refs)
      && ReextractedRefs(extract, w, f) == extract(f, w.stat[f]).refs
  {
  }

  ghost predicate KnowsFile(s: IndexState, f: string) {
    s.indexed && s.store.Some? && exists y: Symbol :: y.file == f && y in Get(s.store.value.symbols, y.name)
  }

  lemma KnowsIffDefined(s: IndexState, f: string)
    ensures KnowsFile(s, f) <==> DefinedSymbols(s, f)
  {
    if s.indexed && s.store.Some? {
      forall y: Symbol ensures OldCount(s, y) > 0 <==> y in Get(s.store.value.symbols, y.name) {
      }
    }
  }

  /** The table holds exactly the symbols that the file has at the given times. */
  ghost predicate RightFor(extract: Extractor, mods: map<string, int>, table: Table, f: string) {
    forall y: Symbol | y.file == f :: Count(table, NameOf, y) == FullCount(extract, mods, y)
  }

  /** The old index was right about the file at the recorded times. */
  ghost predicate WasRight(extract: Extractor, s: IndexState, f: string) {
    forall y: Symbol | y.file == f :: OldCount(s, y) == FullCount(extract, s.modTimes, y)
  }

  /** A rebuild starts from whatever index there is, right or wrong.  Afterwards it is right about a file exactly if
    the file has changed and was readable, or has no symbols, or has not changed and the old index was right. */
  lemma RebuildIsRightIff(extract: Extractor, s: IndexState, w: World, table: Table, f: string)
    requires Faithful(extract) && IncrementalTable(extract, s, w, table)
    ensures RightFor(extract, Current(w), table, f) <==>
      if f !in Current(w) then true
      else if IsChanged(s.modTimes, Current(w), f) then
        f !in w.unreadable || UsableSymbols(extract(f, w.stat[f])) == []
      else WasRight(extract, s, f)
  {
    hide Count, FreshSymbols, OldCount, UsableSymbols, Faithful;
    if f in Current(w) && IsChanged(s.modTimes, Current(w), f) {
      hide FullCount;
      var symbols := UsableSymbols(extract(f, w.stat[f]));
      forall y: Symbol | y.file == f
        ensures Count(table, NameOf, y) == (if f in w.unreadable then 0 else FullCount(extract, Current(w), y))
        ensures FullCount(extract, Current(w), y) == multiset(symbols)[y]
      {
        FreshOrUnread(extract, s, w, y);
      }
      if f in w.unreadable && symbols != [] {
        UsableNamesFile(extract, w, f, symbols[0]);
      }
    }
  }

  /** From any index, a rebuild leaves an exact one exactly if it misses no symbol in a file it cannot read and the
    old index was right about all files that have not changed. */
  lemma RebuildIsExactIff(extract: Extractor, s: IndexState, w: World, table: Table)
    requires Faithful(extract) && IncrementalTable(extract, s, w, table)
    ensures ExactSymbols(extract, Current(w), table) <==>
      && NothingUnread(extract, s, w)
      && forall f | f in Current(w) && !IsChanged(s.modTimes, Current(w), f) :: WasRight(extract, s, f)
  {
    hide Count, Faithful, WasRight, UsableSymbols, FullCount;
    forall f { RebuildIsRightIff(extract, s, w, table, f); }
    assert ExactSymbols(extract, Current(w), table) <==> forall f :: RightFor(extract, Current(w), table, f) by {
      if forall f :: RightFor(extract, Current(w), table, f) {
        forall y: Symbol ensures Count(table, NameOf, y) == FullCount(extract, Current(w), y) {
          assert RightFor(extract, Current(w), table, y.file);
        }
      }
    }
  }

  /** From an exact index, an incremental table is exact exactly if no changed file with symbols was unreadable. */
  lemma IncrementalTableIsExactIff(extract: Extractor, s: IndexState, w: World, table: Table)
    requires Faithful(extract) && Exact(extract, s) && IncrementalTable(extract, s, w, table)
    ensures ExactSymbols(extract, Current(w), table) <==> NothingUnread(extract, s, w)
  {
    hide Count, OldCount, Exact, FullCount, Faithful, ExactSymbols, NothingUnread, IncrementalTable;
    RebuildIsExactIff(extract, s, w, table);
    forall f | f in Current(w) && !IsChanged(s.modTimes, Current(w), f) ensures WasRight(extract, s, f) {
      forall y: Symbol | y.file == f ensures OldCount(s, y) == FullCount(extract, s.modTimes, y) {
        UnchangedCount(extract, s, w, y);
        SameTimeSameCount(extract, s.modTimes, Current(w), y);
      }
    }
  }

  lemma SameTimeSameCount(extract: Extractor, before: map<string, int>, now: map<string, int>, y: Symbol)
    requires y.file in now && !IsChanged(before, now, y.file)
    ensures FullCount(extract, before, y) == FullCount(extract, now, y)
  {
  }

  /** Every way a build can end keeps the index exact, exactly if the build keeps up; unreadable files, failing
    saves and caches of other contents included. */
  lemma BuildKeepsExactIff(extract: Extractor, earlier: map<string, int>, s: IndexState, w: World,
                           outcome: BuildOutcome, t: IndexState)
    requires Faithful(extract) && Kept(extract, earlier, s) && FailureLeavesTable(extract, s, w) && WellFormedWorld(w)
    requires BuildStep(extract, s, w, outcome, t)
    ensures Exact(extract, t) <==> KeepsUp(extract, earlier, s, w, outcome)
    ensures KeepsUp(extract, earlier, s, w, outcome) ==> Kept(extract, earlier, t)
  {
    hide ExactSymbols, SameSymbols, NothingUnread, GroupedByFile, Faithful, IncrementalTable, IncrementalLog, Current;
    StepIsCoherent(extract, s, w, outcome, t);
    match outcome
    case Cancelled | ListFailed | Unchanged =>
    case FromCache => OldTableExactIff(extract, earlier, Current(w), s.store.value.symbols);
    case Rebuilt =>
      if w.save.SaveOk? {
        IncrementalTableIsExactIff(extract, s, w, t.store.value.symbols);
      } else if w.save.left.Some? && !OldTableLeft(s, w.save.left.value) {
        IncrementalTableIsExactIff(extract, s, w, w.save.left.value.symbols);
      } else if w.save.left.Some? {
        OldTableExactIff(extract, SavedTimes(s, earlier), Current(w), s.store.value.symbols);
      }
  }

  /** The ordinary case: everything can be read and saved, and a cache is accepted only while its files have
    the times it was saved at. */
  lemma FaultlessKeepsUp(extract: Extractor, earlier: map<string, int>, s: IndexState, w: World,
                         outcome: BuildOutcome, t: IndexState)
    requires BuildStep(extract, s, w, outcome, t) && Faultless(w)
    requires CacheAccepted(s, w) ==> earlier == Current(w)
    ensures KeepsUp(extract, earlier, s, w, outcome) && FailureLeavesTable(extract, s, w) && WellFormedWorld(w)
  {
    hide Current;
  }

  /** A failing save keeps the new times with the old index: the next builds see no change and leave it so. */
  lemma FailedSaveIsNeverRepaired(extract: Extractor, s: IndexState, w: World, t: IndexState,
                                  again: World, outcome: BuildOutcome, u: IndexState)
    requires BuildStep(extract, s, w, Rebuilt, t) && w.save.SaveFailed?
    requires BuildStep(extract, t, again, outcome, u) && Current(again) == Current(w)
    ensures u.store == w.save.left && u.modTimes == t.modTimes && u.indexed
  {
    hide Current, Coherent, Existing;
  }

  lemma ExactIsKeyed(extract: Extractor, mods: map<string, int>, table: Table)
    requires ExactSymbols(extract, mods, table)
    ensures KeyedBy(table, NameOf)
  {
  }

  // ----- The call graph -----

  /** Unchanged files that define no symbol: they have no entry after a reload, so they are not looked at. */
  ghost function Overlooked(extract: Extractor, s: IndexState, w: World): set<string> {
    set f | f in Current(w) && !IsChanged(s.modTimes, Current(w), f)
         && UsableSymbols(extract(f, Current(w)[f])) == []
  }

  lemma DistinctMultiplicity(listing: seq<string>, f: string)
    requires forall i, j | 0 <= i < j < |listing| :: listing[i] != listing[j]
    ensures f in listing ==> multiset(listing)[f] == 1
  {
    if f in listing {
      var k :| 0 <= k < |listing| && listing[k] == f;
      assert listing == listing[..k] + [f] + listing[k + 1..];
      assert f !in listing[..k] && f !in listing[k + 1..];
      assert multiset(listing) == multiset(listing[..k]) + multiset{f} + multiset(listing[k + 1..]);
    }
  }

  lemma DefinedIffUsable(extract: Extractor, s: IndexState, w: World, f: string)
    requires Exact(extract, s) && Faithful(extract)
    requires f in Current(w) && !IsChanged(s.modTimes, Current(w), f)
    ensures DefinedSymbols(s, f) <==> UsableSymbols(extract(f, Current(w)[f])) != []
  {
    var usable := UsableSymbols(extract(f, Current(w)[f]));
    if usable != [] {
      var y := usable[0];
      ExtractionNamesFile(extract, f, Current(w)[f]);
      assert y in usable && multiset(usable)[y] > 0;
      UnchangedCount(extract, s, w, y);
    }
    if y: Symbol :| y.file == f && OldCount(s, y) > 0 {
      UnchangedCount(extract, s, w, y);
      assert y in multiset(usable);
    }
  }

  /** What a build saves is the call graph of all files except the overlooked ones. */
  lemma GraphButOverlooked(extract: Extractor, s: IndexState, w: World, log: seq<Reference>)
    requires Exact(extract, s) && Faithful(extract) && Faultless(w) && DistinctListing(w)
    requires IncrementalLog(extract, s, w, log)
    ensures RefsBut(extract, Current(w), log, Overlooked(extract, s, w))
  {
    hide Exact, Faithful, DefinedSymbols, DistinctListing;
    forall r: Reference
      ensures multiset(log)[r] ==
        if r.file in Overlooked(extract, s, w) then 0 else FullRefCount(extract, Current(w), r)
    {
      RefCount(extract, s, w, log, r);
    }
  }

  lemma RefCount(extract: Extractor, s: IndexState, w: World, log: seq<Reference>, r: Reference)
    requires Exact(extract, s) && Faithful(extract) && Faultless(w) && DistinctListing(w)
    requires IncrementalLog(extract, s, w, log)
    ensures multiset(log)[r] ==
      if r.file in Overlooked(extract, s, w) then 0 else FullRefCount(extract, Current(w), r)
  {
    hide Exact, Faithful, DefinedSymbols;
    DistinctMultiplicity(Listing(w), r.file);
    if IsChanged(s.modTimes, Current(w), r.file) {
      assert 1 * multiset(FreshRefs(extract, w, r.file))[r] == multiset(FreshRefs(extract, w, r.file))[r];
    } else if r.file in Current(w) {
      DefinedIffUsable(extract, s, w, r.file);
    }
  }

  /** The saved call graph is the full one exactly when no overlooked file makes a reference. */
  lemma GraphIsFullIff(extract: Extractor, s: IndexState, w: World, t: IndexState)
    requires Exact(extract, s) && Faithful(extract) && Faultless(w) && DistinctListing(w)
    requires BuildStep(extract, s, w, Rebuilt, t)
    ensures ExactRefs(extract, Current(w), t.store.value.graph, {}) <==>
      forall f | f in Overlooked(extract, s, w) :: UsableRefs(extract(f, Current(w)[f])) == []
  {
    hide Exact, IncrementalLog, IncrementalTable, GraphData.Indexes, DistinctListing;
    var graph, mods, over := t.store.value.graph, Current(w), Overlooked(extract, s, w);
    var log :| graph.Indexes(log) && IncrementalLog(extract, s, w, log);
    GraphButOverlooked(extract, s, w, log);
    if forall f | f in over :: UsableRefs(extract(f, mods[f])) == [] {
      forall r: Reference | r.file in over ensures FullRefCount(extract, mods, r) == 0 { }
      assert RefsBut(extract, mods, log, {});
    }
    if ExactRefs(extract, mods, graph, {}) {
      var full :| graph.Indexes(full) && RefsBut(extract, mods, full, {});
      LogsAgree(graph, log, full);
      forall f | f in over ensures UsableRefs(extract(f, mods[f])) == [] {
        NoRefsLeft(extract, mods, over, log, f);
      }
    }
  }

  lemma NoRefsLeft(extract: Extractor, mods: map<string, int>, over: set<string>, log: seq<Reference>, f: string)
    requires Faithful(extract) && f in over && f in mods
    requires RefsBut(extract, mods, log, over) && RefsBut(extract, mods, log, {})
    ensures UsableRefs(extract(f, mods[f])) == []
  {
    var refs := UsableRefs(extract(f, mods[f]));
    ExtractionNamesFile(extract, f, mods[f]);
    forall r: Reference ensures multiset(refs)[r] == 0 {
      assert r.file == f ==> multiset(log)[r] == 0 && multiset(log)[r] == FullRefCount(extract, mods, r);
      assert r.file != f ==> r !in refs;
    }
    assert refs != [] ==> multiset(refs)[refs[0]] > 0;
  }

  /** Listing a changed file twice stores its references twice; with a distinct listing this cannot be. */
  lemma DuplicateListingRepeatsReferences(extract: Extractor, s: IndexState, w: World, t: IndexState, r: Reference)
    requires BuildStep(extract, s, w, Rebuilt, t) && w.save.SaveOk?
    requires IsChanged(s.modTimes, Current(w), r.file)
    ensures multiset(Get(t.store.value.graph.callers, r.symbol))[r]
         == multiset(Listing(w))[r.file] * multiset(FreshRefs(extract, w, r.file))[r]
  {
    var log :| t.store.value.graph.Indexes(log) && IncrementalLog(extract, s, w, log);
    BothIndexesHoldTheLog(log, r, r.symbol);
  }

  /** Starting from nothing overlooks nothing: the first build is the full rebuild. */
  lemma FirstBuildIsFull(extract: Extractor, s: IndexState, w: World, t: IndexState)
    requires Coherent(s) && !s.indexed && Faithful(extract) && Faultless(w) && DistinctListing(w)
    requires BuildStep(extract, s, w, Rebuilt, t)
    ensures ExactSymbols(extract, Current(w), t.store.value.symbols)
    ensures ExactRefs(extract, Current(w), t.store.value.graph, {})
  {
    IncrementalTableIsExact(extract, s, w, t.store.value.symbols);
    GraphIsFullIff(extract, s, w, t);
  }

  // ----- Runs -----

  datatype Event = Memory | Building(w: World, outcome: BuildOutcome)

  ghost predicate Step(extract: Extractor, s: IndexState, e: Event, t: IndexState) {
    match e
    case Memory => OnlyMemoryDiffers(s, t)
    case Building(w, outcome) => BuildStep(extract, s, w, outcome, t)
  }

  ghost predicate Run(extract: Extractor, states: seq<IndexState>, events: seq<Event>) {
    && |states| == |events| + 1
    && forall i | 0 <= i < |events| :: Step(extract, states[i], events[i], states[i + 1])
  }

  /** Every build of the run keeps up. */
  ghost predicate KeepsUpThroughout(extract: Extractor, earlier: map<string, int>,
                                    states: seq<IndexState>, events: seq<Event>, n: nat)
    requires n <= |events| < |states|
  {
    forall i | 0 <= i < n && events[i].Building? ::
      && KeepsUp(extract, earlier, states[i], events[i].w, events[i].outcome)
      && FailureLeavesTable(extract, states[i], events[i].w) && WellFormedWorld(events[i].w)
  }

  /** A new process over a store that was exact for the times it was saved at. */
  ghost predicate StartsFrom(extract: Extractor, earlier: map<string, int>, s: IndexState) {
    Coherent(s) && !s.indexed && (s.store.Some? ==> ExactSymbols(extract, earlier, s.store.value.symbols))
  }

  /** In every run of builds that keep up, at every moment, the saved symbols are exact for the recorded times. */
  lemma {:induction false} RunsStayExact(extract: Extractor, earlier: map<string, int>,
                                         states: seq<IndexState>, events: seq<Event>, i: nat)
    requires Faithful(extract) && Run(extract, states, events) && StartsFrom(extract, earlier, states[0])
    requires i < |states| && KeepsUpThroughout(extract, earlier, states, events, i)
    ensures Kept(extract, earlier, states[i])
  {
    hide BuildStep, KeepsUp, Coherent, ExactSymbols, Faithful, FailureLeavesTable, WellFormedWorld;
    if i > 0 {
      RunsStayExact(extract, earlier, states, events, i - 1);
      assert Step(extract, states[i - 1], events[i - 1], states[i]);
      match events[i - 1]
      case Memory =>
      case Building(w, outcome) => BuildKeepsExactIff(extract, earlier, states[i - 1], w, outcome, states[i]);
    }
  }

  /** The first build that does not keep up is where the index stops being exact, and only there. */
  lemma RunsBreakWhereLeftBehind(extract: Extractor, earlier: map<string, int>,
                                 states: seq<IndexState>, events: seq<Event>, i: nat)
    requires Faithful(extract) && Run(extract, states, events) && StartsFrom(extract, earlier, states[0])
    requires i < |events| && events[i].Building? && KeepsUpThroughout(extract, earlier, states, events, i)
    requires FailureLeavesTable(extract, states[i], events[i].w) && WellFormedWorld(events[i].w)
    ensures Exact(extract, states[i + 1]) <==> KeepsUp(extract, earlier, states[i], events[i].w, events[i].outcome)
  {
    hide BuildStep, KeepsUp, Kept, Exact, Faithful, FailureLeavesTable, WellFormedWorld;
    RunsStayExact(extract, earlier, states, events, i);
    assert Step(extract, states[i], events[i], states[i + 1]);
    BuildKeepsExactIff(extract, earlier, states[i], events[i].w, events[i].outcome, states[i + 1]);
  }

  /** The same for call graphs: after every completed build of a run, all references but those in the
    files overlooked by that build. */
  lemma RunGraphsButOverlooked(extract: Extractor, earlier: map<string, int>,
                               states: seq<IndexState>, events: seq<Event>, i: nat)
    requires Faithful(extract) && Run(extract, states, events) && StartsFrom(extract, earlier, states[0])
    requires i < |events| && KeepsUpThroughout(extract, earlier, states, events, i)
    requires events[i].Building? && events[i].outcome == Rebuilt
    requires Faultless(events[i].w) && DistinctListing(events[i].w)
    ensures states[i + 1].store.Some?
    ensures ExactRefs(extract, states[i + 1].modTimes, states[i + 1].store.value.graph,
                      Overlooked(extract, states[i], events[i].w))
  {
    hide KeepsUpThroughout, Exact, IncrementalTable, IncrementalLog, GraphData.Indexes, Current, Overlooked,
      ExactSymbols, StartsFrom;
    var s, w, t := states[i], events[i].w, states[i + 1];
    RunsStayExact(extract, earlier, states, events, i);
    assert Step(extract, s, events[i], t);
    var log :| t.store.value.graph.Indexes(log) && IncrementalLog(extract, s, w, log);
    GraphButOverlooked(extract, s, w, log);
  }

  /** Incremental equals full: whatever the history, under every name the saved symbols are those a
    first build in the same working tree would save. */
  lemma IncrementalEqualsFull(extract: Extractor, earlier: map<string, int>,
                              states: seq<IndexState>, events: seq<Event>, i: nat,
                              clean: IndexState, w: World, built: IndexState, name: string)
    requires Faithful(extract) && Run(extract, states, events) && StartsFrom(extract, earlier, states[0])
    requires i < |states| && states[i].indexed && KeepsUpThroughout(extract, earlier, states, events, i)
    requires Coherent(clean) && !clean.indexed && Faultless(w)
    requires BuildStep(extract, clean, w, Rebuilt, built) && Current(w) == states[i].modTimes
    ensures multiset(SymbolAnswer(states[i], name)) == multiset(SymbolAnswer(built, name))
  {
    hide Run, KeepsUpThroughout, StartsFrom, Current, IncrementalTable, ExactSymbols;
    RunsStayExact(extract, earlier, states, events, i);
    IncrementalTableIsExact(extract, clean, w, built.store.value.symbols);
    ExactTablesAgree(extract, states[i].modTimes, states[i].store.value.symbols, built.store.value.symbols, name);
  }

  ghost predicate LeavesIndex(e: Event) {
    e.Memory? || e.outcome in {Cancelled, ListFailed, Unchanged}
  }

  /** Queries, releases and builds that stop early or find nothing to do change no answer: answers depend
    on the last saved index only, never on what was loaded or released when. */
  lemma {:induction false} AnswersOutliveMemory(extract: Extractor, states: seq<IndexState>, events: seq<Event>,
                                                i: nat, j: nat, name: string)
    requires Run(extract, states, events) && i <= j < |states|
    requires forall k | i <= k < j :: LeavesIndex(events[k])
    ensures SymbolAnswer(states[i], name) == SymbolAnswer(states[j], name)
    ensures GraphAnswer(states[i]) == GraphAnswer(states[j])
    decreases j - i
  {
    if i < j {
      AnswersOutliveMemory(extract, states, events, i, j - 1, name);
      assert Step(extract, states[j - 1], events[j - 1], states[j]);
      assert LastSaved(states[j]) == LastSaved(states[j - 1]);
    }
  }

  /** In every run, memory holds nothing or exactly the last saved index. */
  lemma {:induction false} RunsStayCoherent(extract: Extractor, states: seq<IndexState>, events: seq<Event>, i: nat)
    requires Run(extract, states, events) && i < |states| && Coherent(states[0])
    requires forall k | 0 <= k < |events| && events[k].Building? :: WellFormedWorld(events[k].w)
    ensures Coherent(states[i])
    ensures states[i].symbols.Some? ==>
      && states[i].symbols == Some(LastSaved(states[i]).value.symbols)
      && states[i].callgraph == GraphAnswer(states[i])
  {
    hide IncrementalLog, KeyedBy, GroupedByFile, Current;
    if i > 0 {
      RunsStayCoherent(extract, states, events, i - 1);
      assert Step(extract, states[i - 1], events[i - 1], states[i]);
      match events[i - 1]
      case Memory =>
      case Building(w, outcome) => StepIsCoherent(extract, states[i - 1], w, outcome, states[i]);
    }
  }

  lemma StepIsCoherent(extract: Extractor, s: IndexState, w: World, outcome: BuildOutcome, t: IndexState)
    requires Coherent(s) && WellFormedWorld(w) && BuildStep(extract, s, w, outcome, t)
    ensures Coherent(t)
  {
    hide KeyedBy, GroupedByFile, Current, GraphData.Indexes, IncrementalLog;
  }

  // ----- Where the cache is trusted too much -----

  /** A saved index is accepted for its commit alone, so one saved before an uncommitted edit is accepted
    after it: the answers are then those of the old contents. */
  lemma StaleCacheAccepted()
    ensures exists extract: Extractor, s, w, t ::
      && Faithful(extract) && Coherent(s) && Faultless(w)
      && BuildStep(extract, s, w, FromCache, t)
      && !ExactSymbols(extract, t.modTimes, t.store.value.symbols)
  {
    var before := Symbol("before", "function", "main.go", 1, 2, 1, 0, 9, "go", "", "");
    var after := before.(name := "after");
    var extract: Extractor := (f: string, t: int) =>
      if f == "main.go" then Extracted(false, [if t == 1 then before else after], []) else ParseError;
    var cached := Saved(map["before" := [before]], EMPTY_GRAPH, "c0");
    var s := IndexState([], None, None, None, map[], false, Some(cached));
    var w := World(Some(["main.go"]), map["main.go" := 2], {}, "c0", SaveOk, false);
    var t := s.(files := Listing(w), indexed := true, modTimes := Current(w));
    assert BuildStep(extract, s, w, FromCache, t);
    assert Count(cached.symbols, NameOf, after) == 0 by {
      assert before.name[0] == 'b' && after.name[0] == 'a';
    }
    assert "main.go" in Listing(w) by { assert Listing(w)[0] == "main.go"; }
    assert multiset([after])[after] == 1;
    assert FullCount(extract, t.modTimes, after) == 1;
  }

  // ----- A reference that gets lost -----

  /** A usable file that calls something and defines no symbol. */
  ghost predicate OnlyCalls(extract: Extractor, f: string, time: int, r: Reference) {
    UsableSymbols(extract(f, time)) == [] && r in UsableRefs(extract(f, time)) && r.file == f
  }

  /** A completed build finds exactly the references of the files it did not overlook. */
  lemma SavedReferenceIff(extract: Extractor, s: IndexState, w: World, t: IndexState, r: Reference)
    requires Exact(extract, s) && Faithful(extract) && Faultless(w) && DistinctListing(w)
    requires BuildStep(extract, s, w, Rebuilt, t)
    ensures t.indexed && t.store.Some? && t.modTimes == Current(w) && Exact(extract, t)
    ensures r in Get(t.store.value.graph.callees, r.caller) <==>
      && r.file in Current(w) && r.file !in Overlooked(extract, s, w)
      && r in UsableRefs(extract(r.file, Current(w)[r.file]))
  {
    hide ExactSymbols, Current, IncrementalTable, IncrementalLog, GraphData.Indexes, Overlooked, Faithful, UsableRefs;
    var graph := t.store.value.graph;
    var log :| graph.Indexes(log) && IncrementalLog(extract, s, w, log);
    RefCount(extract, s, w, log, r);
    IndexedReferenceIsLogged(graph, log, r.caller, r);
    assert r in log <==> multiset(log)[r] > 0;
    IncrementalTableIsExact(extract, s, w, t.store.value.symbols);
    ExactIsKeyed(extract, t.modTimes, t.store.value.symbols);
  }

  lemma NothingOverlookedAtFirst(extract: Extractor, s: IndexState, w: World)
    requires s.modTimes == map[]
    ensures Overlooked(extract, s, w) == {}
  {
  }

  /** Built by the indexer itself, from nothing: after the first build the reference is found; after a second build,
    with the file unchanged and any other file changed, added or gone, it is not. */
  method UnchangedReferenceGetsLost(extract: Extractor, w1: World, w2: World, f: string, r: Reference)
    returns (before: seq<Reference>, after: seq<Reference>)
    requires Faithful(extract) && Faultless(w1) && Faultless(w2) && !w1.interrupted && !w2.interrupted
    requires w1.listing.Some? && DistinctListing(w1) && w2.listing.Some? && DistinctListing(w2)
    requires f in Current(w1) && f in Current(w2) && Current(w1)[f] == Current(w2)[f]
    requires Current(w1) != Current(w2) && OnlyCalls(extract, f, Current(w1)[f], r)
    ensures r in before && r !in after
  {
    hide BuildStep, Current, Overlooked, UsableRefs, UsableSymbols, Faithful, Coherent, IncrementalSave, ExactSymbols;
    var idx := new TreeSitterIndexer(extract, None);
    ghost var s0 := idx.View();
    var first := idx.Build(w1);
    ghost var s1 := idx.View();
    BuildDoesOneThing(extract, s0, w1, first, s1);
    SavedReferenceIff(extract, s0, w1, s1, r);
    NothingOverlookedAtFirst(extract, s0, w1);
    before := idx.FindCallees(r.caller);
    ghost var s2 := idx.View();
    assert s2.modTimes == s1.modTimes && s2.indexed && s2.store == s1.store;
    var second := idx.Build(w2);
    BuildDoesOneThing(extract, s2, w2, second, idx.View());
    SavedReferenceIff(extract, s2, w2, idx.View(), r);
    UnchangedIsOverlooked(extract, s2, w1, w2, f);
    after := idx.FindCallees(r.caller);
  }

  lemma UnchangedIsOverlooked(extract: Extractor, s: IndexState, w1: World, w2: World, f: string)
    requires s.modTimes == Current(w1) && f in Current(w1) && f in Current(w2) && Current(w1)[f] == Current(w2)[f]
    requires UsableSymbols(extract(f, Current(w1)[f])) == []
    ensures f in Overlooked(extract, s, w2)
  {
  }

  /** Such a loss, in a tree of two files. */
  method LostReference() returns (before: seq<Reference>, after: seq<Reference>)
    ensures exists r :: r in before && r !in after
  {
    var r := Reference("b", "a.go", 1, 1, "init", "call");
    var extract: Extractor := (f: string, t: int) => if f == "a.go" then Extracted(false, [], [r]) else ParseError;
    var w1 := World(Some(["a.go", "b.go"]), map["a.go" := 1, "b.go" := 1], {}, "c", SaveOk, false);
    var w2 := w1.(stat := map["a.go" := 1, "b.go" := 2]);
    TwoFiles(w1, w2);
    before, after := UnchangedReferenceGetsLost(extract, w1, w2, "a.go", r);
  }

  lemma TwoFiles(w1: World, w2: World)
    requires w1 == World(Some(["a.go", "b.go"]), map["a.go" := 1, "b.go" := 1], {}, "c", SaveOk, false)
    requires w2 == w1.(stat := map["a.go" := 1, "b.go" := 2])
    ensures DistinctListing(w1) && DistinctListing(w2)
    ensures "a.go" in Current(w1) && "a.go" in Current(w2) && Current(w1)["a.go"] == 1 == Current(w2)["a.go"]
    ensures Current(w1) != Current(w2)
  {
    assert Listing(w1)[0] == "a.go" && Listing(w1)[1] == "b.go" && Listing(w1) == Listing(w2);
    assert "a.go"[0] == 'a' && "b.go"[0] == 'b';
    assert "b.go" in Current(w1) && Current(w1)["b.go"] == 1;
    assert "b.go" in Current(w2) && Current(w2)["b.go"] == 2;
  }
}
