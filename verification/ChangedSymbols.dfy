/** The symbols that a diff touches, each listed once. */
module ChangedSymbols {
  import opened Wrappers
  import opened Indexers
  import opened DiffParsers

  datatype ChangeType = Added | Modified | Deleted

  datatype ChangedSymbol = ChangedSymbol(symbol: Symbol, changeType: ChangeType, header: string)

  function LastLine(y: Symbol): int { if y.endLine == 0 then y.line else y.endLine }

  predicate Inside(line: int, y: Symbol) { y.line <= line <= LastLine(y) }

  ghost predicate Touches(hunk: Hunk, y: Symbol) {
    || (exists line | line in hunk.addedLines :: Inside(line, y))
    || (exists line | line in hunk.removedLines :: Inside(line, y))
  }

  /** A changed line falls within a symbol from its first line to its last, or on its only one if no last is known. */
  lemma TouchesIff(hunk: Hunk, y: Symbol)
    ensures Touches(hunk, y) <==>
      exists line | line in hunk.addedLines || line in hunk.removedLines ::
        y.line <= line && (if y.endLine == 0 then line == y.line else line <= y.endLine)
  {
    hide Inside;
    forall line: int {
      LineInsideIff(line, y);
    }
  }

  lemma LineInsideIff(line: int, y: Symbol)
    ensures Inside(line, y) <==> y.line <= line && (if y.endLine == 0 then line == y.line else line <= y.endLine)
  {
  }

  method HasLineInside(lines: seq<int>, y: Symbol) returns (found: bool)
    ensures found <==> exists line | line in lines :: Inside(line, y)
  {
    var i := 0;
    while i < |lines|
      invariant 0 <= i <= |lines|
      invariant forall k | 0 <= k < i :: !Inside(lines[k], y)
    {
      if Inside(lines[i], y) { return true; }
      i := i + 1;
    }
    return false;
  }

  /** Additions or removals: every touched symbol counts as modified, never as added or deleted. */
  method GetChangeType(y: Symbol, hunk: Hunk) returns (t: Option<ChangeType>)
    ensures t == if Touches(hunk, y) then Some(Modified) else None
  {
    var additions := HasLineInside(hunk.addedLines, y);
    var removals := HasLineInside(hunk.removedLines, y);
    if additions && removals { return Some(Modified); }
    else if additions { return Some(Modified); }
    else if removals { return Some(Modified); }
    return None;
  }

  function Key(y: Symbol): string { y.file + ":" + y.name }

  function Keys(changed: seq<ChangedSymbol>): set<string> { set c | c in changed :: Key(c.symbol) }

  ghost predicate DistinctKeys(changed: seq<ChangedSymbol>) {
    forall i, j | 0 <= i < j < |changed| :: Key(changed[i].symbol) != Key(changed[j].symbol)
  }

  ghost predicate Hits(hunk: Hunk, y: Symbol) { y.file == hunk.file && Touches(hunk, y) }

  ghost predicate InTable(table: Table, y: Symbol) { exists n | n in table :: y in table[n] }

  /** A listed change belongs to a symbol that the hunk hits. */
  ghost predicate ComesFrom(c: ChangedSymbol, hunk: Hunk) {
    Hits(hunk, c.symbol) && c.changeType == Modified && c.header == hunk.header
  }

  lemma KeysOfSum(a: seq<ChangedSymbol>, b: seq<ChangedSymbol>)
    ensures Keys(a + b) == Keys(a) + Keys(b)
    ensures DistinctKeys(a) && DistinctKeys(b) && Keys(a) !! Keys(b) ==> DistinctKeys(a + b)
  {
    hide Key;
    if DistinctKeys(a) && DistinctKeys(b) && Keys(a) !! Keys(b) {
      var s := a + b;
      forall i, j | 0 <= i < j < |s| ensures Key(s[i].symbol) != Key(s[j].symbol) {
        if i < |a| <= j {
          assert Key(s[i].symbol) in Keys(a) && Key(s[j].symbol) in Keys(b);
        }
      }
    }
  }

  /** The new entries for one hunk among the given symbols. */
  method ScanSymbols(hunk: Hunk, symbols: seq<Symbol>, seen: set<string>) returns (found: seq<ChangedSymbol>)
    ensures forall c | c in found :: c.symbol in symbols && ComesFrom(c, hunk)
    ensures DistinctKeys(found) && Keys(found) !! seen
    ensures forall y | y in symbols && Hits(hunk, y) :: Key(y) in seen + Keys(found)
  {
    hide Key, Touches, Keys, DistinctKeys;
    found := [];
    NothingFound();
    var i := 0;
    while i < |symbols|
      invariant 0 <= i <= |symbols|
      invariant forall c | c in found :: c.symbol in symbols && ComesFrom(c, hunk)
      invariant DistinctKeys(found) && Keys(found) !! seen
      invariant forall k | 0 <= k < i && Hits(hunk, symbols[k]) :: Key(symbols[k]) in seen + Keys(found)
    {
      var y := symbols[i];
      i := i + 1;
      if y.file != hunk.file { continue; }
      if Key(y) in seen + Keys(found) { continue; }
      var t := GetChangeType(y, hunk);
      if t.Some? {
        var c := ChangedSymbol(y, t.value, hunk.header);
        KeysOfSum(found, [c]);
        OneKey(c);
        found := found + [c];
      }
    }
  }

  lemma NothingFound()
    ensures DistinctKeys([]) && Keys([]) == {}
  {
  }

  lemma OneKey(c: ChangedSymbol)
    ensures DistinctKeys([c]) && Keys([c]) == {Key(c.symbol)}
  {
    hide Key;
    assert c in [c];
  }

  /** The new entries for one hunk among all symbols, whatever the order of the table. */
  method ScanTable(hunk: Hunk, table: Table, seen: set<string>) returns (found: seq<ChangedSymbol>)
    ensures forall c | c in found :: InTable(table, c.symbol) && ComesFrom(c, hunk)
    ensures DistinctKeys(found) && Keys(found) !! seen
    ensures forall y | InTable(table, y) && Hits(hunk, y) :: Key(y) in seen + Keys(found)
  {
    hide Key, Hits, Keys, DistinctKeys, ComesFrom;
    found := [];
    NothingFound();
    var names := table.Keys;
    while names != {}
      invariant names <= table.Keys
      invariant forall c | c in found :: InTable(table, c.symbol) && ComesFrom(c, hunk)
      invariant DistinctKeys(found) && Keys(found) !! seen
      invariant forall n, y | n in table && n !in names && y in table[n] && Hits(hunk, y) ::
        Key(y) in seen + Keys(found)
      decreases names
    {
      var n :| n in names;
      names := names - {n};
      var more := ScanSymbols(hunk, table[n], seen + Keys(found));
      KeysOfSum(found, more);
      found := found + more;
    }
  }

  /** No earlier hunk hits a symbol with this key. */
  ghost predicate FirstHit(table: Table, hunks: seq<Hunk>, key: string, h: int) {
    0 <= h < |hunks| && forall g, y | 0 <= g < h && InTable(table, y) && Key(y) == key :: !Hits(hunks[g], y)
  }

  /** The entry comes from the first hunk that hits its key. */
  ghost predicate Justified(table: Table, hunks: seq<Hunk>, c: ChangedSymbol) {
    exists h :: FirstHit(table, hunks, Key(c.symbol), h) && ComesFrom(c, hunks[h])
  }

  /** Exactly the keys of symbols that some hunk hits, each listed once, with the first hunk that hits the key. */
  method GetChangedSymbols(table: Table, hunks: seq<Hunk>) returns (changed: seq<ChangedSymbol>)
    ensures DistinctKeys(changed)
    ensures forall c | c in changed :: InTable(table, c.symbol) && Justified(table, hunks, c)
    ensures forall h, y | 0 <= h < |hunks| && InTable(table, y) && Hits(hunks[h], y) :: Key(y) in Keys(changed)
  {
    hide Key, Hits, Keys, DistinctKeys, ComesFrom, InTable;
    changed := [];
    NothingFound();
    var i := 0;
    while i < |hunks|
      invariant 0 <= i <= |hunks|
      invariant DistinctKeys(changed)
      invariant forall c | c in changed :: InTable(table, c.symbol) && Justified(table, hunks, c)
      invariant forall h, y | 0 <= h < i && InTable(table, y) && Hits(hunks[h], y) :: Key(y) in Keys(changed)
    {
      var found := ScanTable(hunks[i], table, Keys(changed));
      forall c | c in found ensures FirstHit(table, hunks, Key(c.symbol), i) {
        assert Key(c.symbol) in Keys(found) by { KeyIsThere(c, found); }
      }
      KeysOfSum(changed, found);
      changed := changed + found;
      i := i + 1;
    }
  }

  lemma KeyIsThere(c: ChangedSymbol, changed: seq<ChangedSymbol>)
    requires c in changed
    ensures Key(c.symbol) in Keys(changed)
  {
  }

  /** For file names without a colon the key tells files and names apart. */
  lemma KeyTellsApart(x: Symbol, y: Symbol)
    requires ':' !in x.file && ':' !in y.file
    ensures Key(x) == Key(y) <==> x.file == y.file && x.name == y.name
  {
    if Key(x) == Key(y) {
      assert Key(x)[|x.file|] == ':' && Key(y)[|y.file|] == ':';
      assert x.file == Key(x)[..|x.file|] && y.file == Key(y)[..|y.file|];
      assert x.name == Key(x)[|x.file| + 1..] && y.name == Key(y)[|y.file| + 1..];
    }
  }

  /** A symbol is left out of the list, although a hunk hits it, exactly when another with its key stands for it. */
  lemma LeftOutIffStoodFor(table: Table, hunks: seq<Hunk>, changed: seq<ChangedSymbol>, y: Symbol, h: nat)
    requires h < |hunks| && InTable(table, y) && Hits(hunks[h], y)
    requires forall g, z | 0 <= g < |hunks| && InTable(table, z) && Hits(hunks[g], z) :: Key(z) in Keys(changed)
    requires DistinctKeys(changed)
    ensures (forall c | c in changed :: c.symbol != y) <==>
            (exists c | c in changed :: Key(c.symbol) == Key(y) && c.symbol != y)
  {
    hide Key, Hits, InTable;
    assert Key(y) in Keys(changed);
    var c :| c in changed && Key(c.symbol) == Key(y);
  }
}
