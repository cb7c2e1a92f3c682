/** Reading the output of `git diff --unified=0`, and the symbols that its changes touch. */
module DiffParsers {
  import opened Wrappers

  // The largest and the smallest machine integer.
  const MAX_INT := 0x7fff_ffff_ffff_ffff
  const MIN_INT := -0x8000_0000_0000_0000

  datatype Hunk = Hunk(
    file: string, oldStart: int, oldCount: int, newStart: int, newCount: int, header: string,
    addedLines: seq<int>, removedLines: seq<int>)

  // ----- Numbers -----

  predicate IsDigit(c: char) { '0' <= c <= '9' }

  predicate AllDigits(s: string) { forall i | 0 <= i < |s| :: IsDigit(s[i]) }

  function Value(s: string): nat
    requires AllDigits(s)
  {
    if s == [] then 0 else Value(s[..|s| - 1]) * 10 + (s[|s| - 1] as int - '0' as int)
  }

  function Saturate(n: nat): int { if n > MAX_INT then MAX_INT else n }

  /** A count that is left out means 1; a number too large for the machine reads as the largest one. */
  function Number(s: string): int
    requires AllDigits(s)
  {
    if s == "" then 1 else Saturate(Value(s))
  }

  /** A line counter is a machine integer and wraps around. */
  function Bump(n: int): int { if n == MAX_INT then MIN_INT else n + 1 }

  function Decimal(n: nat): (s: string)
    ensures s != [] && AllDigits(s) && Value(s) == n
  {
    if n < 10 then [('0' as int + n) as char]
    else
      var s := Decimal(n / 10) + [('0' as int + n % 10) as char];
      assert s[..|s| - 1] == Decimal(n / 10);
      s
  }

  // ----- The two line patterns -----

  function LeadingDigits(s: string): (n: nat)
    ensures n <= |s| && AllDigits(s[..n])
    ensures n < |s| ==> !IsDigit(s[n])
  {
    if s == [] || !IsDigit(s[0]) then 0
    else
      var n := 1 + LeadingDigits(s[1..]);
      assert s[..n] == [s[0]] + s[1..][..n - 1];
      n
  }

  datatype Range = Range(start: string, count: string)
  {
    predicate Valid() { start != "" && AllDigits(start) && AllDigits(count) }

    function Text(): string { start + (if count == "" then "" else "," + count) }
  }

  datatype Ranges = Ranges(older: Range, newer: Range)
  {
    predicate Valid() { older.Valid() && newer.Valid() }

    /** What a hunk header begins with. */
    function Text(): string { "@@ -" + older.Text() + " +" + newer.Text() + " @@" }
  }

  /** A range at the start of the text, and what follows it. */
  function ReadRange(s: string): (r: Option<(Range, string)>)
    ensures r.Some? ==> r.value.0.Valid()
  {
    var n := LeadingDigits(s);
    if n == 0 then None
    else
      var more := if n < |s| && s[n] == ',' then LeadingDigits(s[n + 1..]) else 0;
      if more == 0 then Some((Range(s[..n], ""), s[n..]))
      else Some((Range(s[..n], s[n + 1..][..more]), s[n + 1..][more..]))
  }

  function ReadHeader(line: string): (r: Option<Ranges>)
    ensures r.Some? ==> r.value.Valid()
  {
    if "@@ -" <= line then
      var older := ReadRange(line[4..]);
      if older.Some? && " +" <= older.value.1 then
        var newer := ReadRange(older.value.1[2..]);
        if newer.Some? && " @@" <= newer.value.1 then Some(Ranges(older.value.0, newer.value.0)) else None
      else None
    else None
  }

  const FILE_LINE := "diff --git a/"
  const NEW_NAME := " b/"

  predicate NewNameAt(s: string, i: nat) { i + 3 < |s| && s[i..i + 3] == NEW_NAME }

  /** The new name after the last possible separator at or before `k`. */
  function LastNewName(s: string, k: nat): Option<string> {
    if k == 0 then None
    else if NewNameAt(s, k) then Some(s[k + 3..])
    else LastNewName(s, k - 1)
  }

  function ReadFile(line: string): Option<string> {
    if FILE_LINE <= line then LastNewName(line[|FILE_LINE|..], |line| - |FILE_LINE|) else None
  }

  // ----- What a diff says -----

  predicate IsNumbered(line: string) { line != "" && ReadFile(line).None? }

  /** The lines up to the next hunk header. */
  function Body(lines: seq<string>): seq<string> {
    if lines == [] || (ReadFile(lines[0]).None? && ReadHeader(lines[0]).Some?) then []
    else [lines[0]] + Body(lines[1..])
  }

  /** The numbers of the lines with the given mark; they and the context lines advance the counter. */
  function NumbersIn(body: seq<string>, mark: char, n: int): seq<int> {
    if body == [] then []
    else if IsNumbered(body[0]) && body[0][0] == mark then [n] + NumbersIn(body[1..], mark, Bump(n))
    else if IsNumbered(body[0]) && body[0][0] == ' ' then NumbersIn(body[1..], mark, Bump(n))
    else NumbersIn(body[1..], mark, n)
  }

  function HunkAt(file: string, header: string, body: seq<string>): Hunk
    requires ReadHeader(header).Some?
  {
    var ranges := ReadHeader(header).value;
    var oldStart, newStart := Number(ranges.older.start), Number(ranges.newer.start);
    Hunk(file, oldStart, Number(ranges.older.count), newStart, Number(ranges.newer.count), header,
         NumbersIn(body, '+', newStart), NumbersIn(body, '-', oldStart))
  }

  /** One hunk for every hunk header, in the file named last before it. */
  function Hunks(lines: seq<string>, file: string): seq<Hunk> {
    if lines == [] then []
    else if ReadFile(lines[0]).Some? then Hunks(lines[1..], ReadFile(lines[0]).value)
    else if ReadHeader(lines[0]).Some? then [HunkAt(file, lines[0], Body(lines[1..]))] + Hunks(lines[1..], file)
    else Hunks(lines[1..], file)
  }

  function Finished(current: Option<Hunk>): seq<Hunk> {
    if current.Some? then [current.value] else []
  }

  /** What the parser's state and the lines still to come amount to. */
  ghost function Pending(current: Option<Hunk>, added: int, removed: int, rest: seq<string>, file: string): seq<Hunk> {
    (match current
     case None => []
     case Some(h) => [h.(addedLines := h.addedLines + NumbersIn(Body(rest), '+', added),
                         removedLines := h.removedLines + NumbersIn(Body(rest), '-', removed))])
    + Hunks(rest, file)
  }

  method ParseDiffOutput(lines: seq<string>) returns (hunks: seq<Hunk>)
    ensures hunks == Hunks(lines, "")
  {
    hide Pending, Hunks, ReadFile, ReadHeader, Number, Value;
    hunks := [];
    var file := "";
    var current: Option<Hunk> := None;
    var added, removed := 0, 0;
    var i := 0;
    assert lines[0..] == lines;
    PendingEnds(current, added, removed, lines, file);
    while i < |lines|
      invariant 0 <= i <= |lines|
      invariant Hunks(lines, "") == hunks + Pending(current, added, removed, lines[i..], file)
    {
      var line := lines[i];
      ghost var rest := lines[i + 1..];
      assert lines[i..] == [line] + rest;
      var name := ReadFile(line);
      var ranges := ReadHeader(line);
      if name.Some? {
        FileStep(current, added, removed, line, rest, file);
        file := name.value;
      } else if ranges.Some? {
        HeaderStep(current, added, removed, line, rest, file);
        ghost var before := hunks;
        if current.Some? { hunks := hunks + [current.value]; }
        assert hunks == before + Finished(current);
        var oldStart, newStart := Number(ranges.value.older.start), Number(ranges.value.newer.start);
        current := Some(Hunk(file, oldStart, Number(ranges.value.older.count), newStart,
                             Number(ranges.value.newer.count), line, [], []));
        added, removed := newStart, oldStart;
      } else {
        ChangeStep(current, added, removed, line, rest, file);
        if current.Some? && |line| > 0 {
          var h := current.value;
          if line[0] == '+' {
            current := Some(h.(addedLines := h.addedLines + [added]));
            added := Bump(added);
          } else if line[0] == '-' {
            current := Some(h.(removedLines := h.removedLines + [removed]));
            removed := Bump(removed);
          } else if line[0] == ' ' {
            added, removed := Bump(added), Bump(removed);
          }
        }
      }
      i := i + 1;
    }
    assert lines[i..] == [];
    PendingEnds(current, added, removed, [], file);
    if current.Some? { hunks := hunks + [current.value]; }
  }

  lemma PendingEnds(current: Option<Hunk>, added: int, removed: int, lines: seq<string>, file: string)
    ensures current.None? ==> Pending(current, added, removed, lines, file) == Hunks(lines, file)
    ensures Pending(current, added, removed, [], file) == Finished(current)
  {
    if current.Some? {
      var h := current.value;
      assert h.addedLines + [] == h.addedLines && h.removedLines + [] == h.removedLines;
    }
  }

  lemma BodyStep(line: string, rest: seq<string>)
    ensures ReadFile(line).Some? || ReadHeader(line).None? ==> Body([line] + rest) == [line] + Body(rest)
    ensures ReadFile(line).None? && ReadHeader(line).Some? ==> Body([line] + rest) == []
  {
    assert ([line] + rest)[1..] == rest;
  }

  lemma NumbersStep(line: string, rest: seq<string>, mark: char, n: int)
    ensures NumbersIn([line] + rest, mark, n) ==
      (if IsNumbered(line) && line[0] == mark then [n] + NumbersIn(rest, mark, Bump(n))
       else if IsNumbered(line) && line[0] == ' ' then NumbersIn(rest, mark, Bump(n))
       else NumbersIn(rest, mark, n))
  {
    assert ([line] + rest)[1..] == rest;
  }

  lemma HunksStep(line: string, rest: seq<string>, file: string)
    ensures Hunks([line] + rest, file) ==
      (if ReadFile(line).Some? then Hunks(rest, ReadFile(line).value)
       else if ReadHeader(line).Some? then [HunkAt(file, line, Body(rest))] + Hunks(rest, file)
       else Hunks(rest, file))
  {
    assert ([line] + rest)[1..] == rest;
  }

  lemma FileStep(current: Option<Hunk>, added: int, removed: int, line: string, rest: seq<string>, file: string)
    requires ReadFile(line).Some?
    ensures Pending(current, added, removed, [line] + rest, file)
         == Pending(current, added, removed, rest, ReadFile(line).value)
  {
    hide Hunks, Body, NumbersIn, ReadFile, ReadHeader;
    HunksStep(line, rest, file);
    BodyStep(line, rest);
    NumbersStep(line, Body(rest), '+', added);
    NumbersStep(line, Body(rest), '-', removed);
  }

  lemma HeaderStep(current: Option<Hunk>, added: int, removed: int, line: string, rest: seq<string>, file: string)
    requires ReadFile(line).None? && ReadHeader(line).Some?
    ensures var ranges := ReadHeader(line).value;
      var oldStart, newStart := Number(ranges.older.start), Number(ranges.newer.start);
      Pending(current, added, removed, [line] + rest, file)
         == Finished(current)
          + Pending(Some(Hunk(file, oldStart, Number(ranges.older.count), newStart, Number(ranges.newer.count),
                              line, [], [])), newStart, oldStart, rest, file)
  {
    hide Hunks, Body, ReadFile, ReadHeader, Number;
    HunksStep(line, rest, file);
    BodyStep(line, rest);
    var ranges := ReadHeader(line).value;
    var oldStart, newStart := Number(ranges.older.start), Number(ranges.newer.start);
    assert [] + NumbersIn(Body(rest), '+', newStart) == NumbersIn(Body(rest), '+', newStart);
    assert [] + NumbersIn(Body(rest), '-', oldStart) == NumbersIn(Body(rest), '-', oldStart);
    if current.Some? {
      var h := current.value;
      assert h.addedLines + NumbersIn([], '+', added) == h.addedLines;
      assert h.removedLines + NumbersIn([], '-', removed) == h.removedLines;
    }
  }

  lemma ChangeStep(current: Option<Hunk>, added: int, removed: int, line: string, rest: seq<string>, file: string)
    requires ReadFile(line).None? && ReadHeader(line).None?
    ensures Pending(current, added, removed, [line] + rest, file) ==
      (if current.None? || line == "" then Pending(current, added, removed, rest, file)
       else if line[0] == '+' then
         Pending(Some(current.value.(addedLines := current.value.addedLines + [added])),
                 Bump(added), removed, rest, file)
       else if line[0] == '-' then
         Pending(Some(current.value.(removedLines := current.value.removedLines + [removed])),
                 added, Bump(removed), rest, file)
       else if line[0] == ' ' then Pending(current, Bump(added), Bump(removed), rest, file)
       else Pending(current, added, removed, rest, file))
  {
    hide Hunks, Body, NumbersIn, ReadFile, ReadHeader;
    HunksStep(line, rest, file);
    BodyStep(line, rest);
    NumbersStep(line, Body(rest), '+', added);
    NumbersStep(line, Body(rest), '-', removed);
    if current.Some? {
      var h := current.value;
      assert h.addedLines + [added] + NumbersIn(Body(rest), '+', Bump(added))
          == h.addedLines + ([added] + NumbersIn(Body(rest), '+', Bump(added)));
      assert h.removedLines + [removed] + NumbersIn(Body(rest), '-', Bump(removed))
          == h.removedLines + ([removed] + NumbersIn(Body(rest), '-', Bump(removed)));
    }
  }

  // ----- The patterns, both ways -----

  lemma {:induction false} LeadingDigitsOf(digits: string, rest: string)
    requires AllDigits(digits) && (rest == "" || !IsDigit(rest[0]))
    ensures LeadingDigits(digits + rest) == |digits|
  {
    if digits == "" {
      assert digits + rest == rest;
    } else {
      assert (digits + rest)[1..] == digits[1..] + rest;
      LeadingDigitsOf(digits[1..], rest);
    }
  }

  lemma PlainRangeReads(start: string, rest: string)
    requires start != "" && AllDigits(start) && rest != "" && rest[0] == ' '
    ensures ReadRange(start + rest) == Some((Range(start, ""), rest))
  {
    hide LeadingDigits;
    var s := start + rest;
    LeadingDigitsOf(start, rest);
    assert s[..|start|] == start && s[|start|..] == rest;
    assert s[|start|] == rest[0];
  }

  lemma CountedRangeReads(start: string, count: string, rest: string)
    requires start != "" && AllDigits(start) && count != "" && AllDigits(count) && rest != "" && rest[0] == ' '
    ensures ReadRange(start + ("," + (count + rest))) == Some((Range(start, count), rest))
  {
    hide LeadingDigits;
    var t := count + rest;
    var s := start + ("," + t);
    LeadingDigitsOf(start, "," + t);
    LeadingDigitsOf(count, rest);
    assert s[..|start|] == start && s[|start|] == ',' && s[|start| + 1..] == t;
    assert t[..|count|] == count && t[|count|..] == rest;
  }

  lemma RangeReads(range: Range, rest: string)
    requires range.Valid() && rest != "" && rest[0] == ' '
    ensures ReadRange(range.Text() + rest) == Some((range, rest))
  {
    hide ReadRange, AllDigits;
    if range.count == "" {
      PlainRangeReads(range.start, rest);
      assert range.Text() + rest == range.start + rest;
    } else {
      CountedRangeReads(range.start, range.count, rest);
      assert range.Text() + rest == range.start + ("," + (range.count + rest));
    }
  }

  lemma SplitAtComma(s: string, n: nat, more: nat)
    requires n < |s| && s[n] == ',' && more <= |s| - n - 1
    ensures s == (s[..n] + ("," + s[n + 1..][..more])) + s[n + 1..][more..]
  {
    var t := s[n + 1..];
    assert t == t[..more] + t[more..];
    assert s == s[..n] + ([s[n]] + t);
  }

  lemma ReadRangeIsText(s: string)
    ensures ReadRange(s).Some? ==> s == ReadRange(s).value.0.Text() + ReadRange(s).value.1
  {
    hide LeadingDigits, AllDigits;
    var n := LeadingDigits(s);
    if n > 0 {
      var more := if n < |s| && s[n] == ',' then LeadingDigits(s[n + 1..]) else 0;
      if more == 0 {
        assert ReadRange(s) == Some((Range(s[..n], ""), s[n..]));
        assert s[..n] + "" == s[..n];
      } else {
        SplitAtComma(s, n, more);
        assert ReadRange(s) == Some((Range(s[..n], s[n + 1..][..more]), s[n + 1..][more..]));
      }
    }
  }

  /** The hunk header is read as the given ranges exactly when it begins with their text. */
  lemma HeaderReadIff(line: string, ranges: Ranges)
    requires ranges.Valid()
    ensures ReadHeader(line) == Some(ranges) <==> ranges.Text() <= line
  {
    hide ReadRange, Range.Text, Range.Valid;
    if ranges.Text() <= line {
      var section := line[|ranges.Text()|..];
      var afterNew := " @@" + section;
      var afterOld := " +" + (ranges.newer.Text() + afterNew);
      assert line == "@@ -" + (ranges.older.Text() + afterOld);
      assert line[4..] == ranges.older.Text() + afterOld;
      RangeReads(ranges.older, afterOld);
      assert afterOld[2..] == ranges.newer.Text() + afterNew;
      RangeReads(ranges.newer, afterNew);
    }
    if ReadHeader(line) == Some(ranges) {
      var older := ReadRange(line[4..]).value;
      var newer := ReadRange(older.1[2..]).value;
      ReadRangeIsText(line[4..]);
      ReadRangeIsText(older.1[2..]);
      var section := newer.1[3..];
      assert newer.1 == " @@" + section;
      assert older.1 == " +" + (ranges.newer.Text() + (" @@" + section));
      assert line == "@@ -" + (ranges.older.Text() + older.1);
      assert line == ranges.Text() + section;
    }
  }

  ghost predicate Splits(name: string) { exists i: nat :: NewNameAt(name, i) }

  lemma {:induction false} LastNewNameIs(s: string, k: nat, at: nat)
    requires 0 < at <= k && NewNameAt(s, at)
    requires forall i | at < i <= k :: !NewNameAt(s, i)
    ensures LastNewName(s, k) == Some(s[at + 3..])
  {
    if at < k { LastNewNameIs(s, k - 1, at); }
  }

  lemma {:induction false} LastNewNameIsLast(s: string, k: nat) returns (at: nat)
    requires LastNewName(s, k).Some?
    ensures 0 < at <= k && NewNameAt(s, at) && LastNewName(s, k) == Some(s[at + 3..])
    ensures forall i | at < i <= k :: !NewNameAt(s, i)
  {
    if NewNameAt(s, k) { at := k; } else { at := LastNewNameIsLast(s, k - 1); }
  }

  lemma SeparatorInside(s: string, at: nat, i: nat)
    requires NewNameAt(s, at) && NewNameAt(s[at + 3..], i)
    ensures NewNameAt(s, at + 3 + i)
  {
    assert s[at + 3 + i..at + 3 + i + 3] == s[at + 3..][i..i + 3];
  }

  lemma ReadFileSplits(line: string, name: string) returns (oldName: string)
    requires ReadFile(line) == Some(name)
    ensures name != "" && !Splits(name) && oldName != "" && line == FileLine(oldName, name)
  {
    hide LastNewName;
    var s := line[|FILE_LINE|..];
    var at := LastNewNameIsLast(s, |s|);
    oldName := s[..at];
    forall i: nat ensures !NewNameAt(name, i) {
      if NewNameAt(s[at + 3..], i) { SeparatorInside(s, at, i); }
    }
    assert s == s[..at] + (s[at..at + 3] + s[at + 3..]);
  }

  /** A file line is read as the given name exactly when the name follows a separator and contains none that
    leaves something after it. */
  lemma FileReadIff(line: string, name: string)
    ensures ReadFile(line) == Some(name) <==>
      name != "" && !Splits(name) && exists oldName | oldName != "" :: line == FileLine(oldName, name)
  {
    hide ReadFile, FileLine, Splits;
    if ReadFile(line) == Some(name) {
      var oldName := ReadFileSplits(line, name);
    }
    if name != "" && !Splits(name) && exists oldName | oldName != "" :: line == FileLine(oldName, name) {
      var oldName :| oldName != "" && line == FileLine(oldName, name);
      FileLineReads(oldName, name);
    }
  }

  function FileLine(oldName: string, name: string): string { FILE_LINE + (oldName + (NEW_NAME + name)) }

  lemma FileLineReads(oldName: string, name: string)
    requires oldName != "" && name != "" && !Splits(name)
    ensures ReadFile(FileLine(oldName, name)) == Some(name)
  {
    hide LastNewName;
    var s := oldName + (NEW_NAME + name);
    assert FileLine(oldName, name)[|FILE_LINE|..] == s;
    var at := |oldName|;
    assert s[at..at + 3] == NEW_NAME && s[at + 3..] == name;
    forall i | at < i <= |s| ensures !NewNameAt(s, i) {
      if NewNameAt(s, i) { NoOverlap(oldName, name, i); }
    }
    LastNewNameIs(s, |s|, at);
  }

  /** Separators do not overlap. */
  lemma NoOverlap(oldName: string, name: string, i: nat)
    requires i > |oldName| && NewNameAt(oldName + (NEW_NAME + name), i)
    ensures i >= |oldName| + 3 && NewNameAt(name, i - |oldName| - 3)
  {
    var s := oldName + (NEW_NAME + name);
    assert s[i] == s[i..i + 3][0] == ' ';
    assert s[|oldName| + 1] == 'b' && s[|oldName| + 2] == '/';
    var j := i - |oldName| - 3;
    assert name[j..j + 3] == s[i..i + 3];
  }

  /** Every path is read as some name. */
  lemma SomeNameIsRead(path: string)
    requires path != ""
    ensures ReadFile(FileLine(path, path)).Some?
  {
    var s := path + (NEW_NAME + path);
    assert FileLine(path, path)[|FILE_LINE|..] == s;
    assert s[|path|..|path| + 3] == NEW_NAME;
    SomeNewName(s, |s|, |path|);
  }

  lemma {:induction false} SomeNewName(s: string, k: nat, at: nat)
    requires 0 < at <= k && NewNameAt(s, at)
    ensures LastNewName(s, k).Some?
  {
    if !NewNameAt(s, k) { SomeNewName(s, k - 1, at); }
  }

  // ----- Printing a diff -----

  /** A hunk as git prints it: old lines out, new lines in, and a mark where a file has no last newline. */
  datatype Change = Change(
    oldStart: nat, removed: seq<string>, oldOpenEnd: bool,
    newStart: nat, added: seq<string>, newOpenEnd: bool, section: string)

  /** One file: the lines between file line and first hunk, then the hunks. */
  datatype FileDiff = FileDiff(path: string, meta: seq<string>, changes: seq<Change>)

  /** What git puts there: never something that looks like a file line or a hunk header. */
  ghost predicate PlainMeta(meta: seq<string>) {
    forall line | line in meta :: ReadFile(line).None? && ReadHeader(line).None?
  }

  ghost predicate Printable(files: seq<FileDiff>) {
    forall f | f in files :: f.path != "" && PlainMeta(f.meta)
  }

  /** A count of one is left out. */
  function PrintedRange(start: nat, count: nat): (r: Range)
    ensures r.Valid()
    ensures Number(r.start) == Saturate(start) && Number(r.count) == Saturate(count)
  {
    Range(Decimal(start), if count == 1 then "" else Decimal(count))
  }

  function Marked(mark: char, lines: seq<string>): (r: seq<string>)
    ensures forall line | line in r :: line != "" && line[0] == mark
  {
    if lines == [] then [] else [[mark] + lines[0]] + Marked(mark, lines[1..])
  }

  function OpenEnd(open: bool): seq<string> { if open then ["\\ No newline at end of file"] else [] }

  function ChangeRanges(c: Change): (r: Ranges)
    ensures r.Valid()
  {
    Ranges(PrintedRange(c.oldStart, |c.removed|), PrintedRange(c.newStart, |c.added|))
  }

  function ChangeHeader(c: Change): string { ChangeRanges(c).Text() + c.section }

  function ChangeBody(c: Change): seq<string> {
    (Marked('-', c.removed) + OpenEnd(c.oldOpenEnd)) + (Marked('+', c.added) + OpenEnd(c.newOpenEnd))
  }

  function PrintChanges(changes: seq<Change>): seq<string> {
    if changes == [] then []
    else [ChangeHeader(changes[0])] + (ChangeBody(changes[0]) + PrintChanges(changes[1..]))
  }

  function Print(files: seq<FileDiff>): seq<string> {
    if files == [] then []
    else
      var f := files[0];
      [FileLine(f.path, f.path)] + (f.meta + (PrintChanges(f.changes) + Print(files[1..])))
  }

  // ----- What was printed, and what is read -----

  /** `count` line numbers from `n` on. */
  function Counting(n: int, count: nat): (r: seq<int>)
    ensures |r| == count
    decreases count
  {
    if count == 0 then [] else [n] + Counting(Bump(n), count - 1)
  }

  function TrueHunk(path: string, c: Change): Hunk {
    Hunk(path, Saturate(c.oldStart), Saturate(|c.removed|), Saturate(c.newStart), Saturate(|c.added|), ChangeHeader(c),
         Counting(Saturate(c.newStart), |c.added|), Counting(Saturate(c.oldStart), |c.removed|))
  }

  function TrueHunks(files: seq<FileDiff>): seq<Hunk> {
    if files == [] then [] else TrueChanges(files[0].path, files[0].changes) + TrueHunks(files[1..])
  }

  function TrueChanges(path: string, changes: seq<Change>): (r: seq<Hunk>)
    ensures |r| == |changes|
  {
    if changes == [] then [] else [TrueHunk(path, changes[0])] + TrueChanges(path, changes[1..])
  }

  /** The lines of the following files that come before the next hunk header. */
  function Noise(files: seq<FileDiff>): seq<string> {
    if files == [] then []
    else
      [FileLine(files[0].path, files[0].path)] + (files[0].meta +
      (if files[0].changes == [] then Noise(files[1..]) else []))
  }

  /** A hunk as it is read, with the noise counted into it. */
  function ReadHunk(file: string, c: Change, noise: seq<string>): Hunk {
    var h := TrueHunk(file, c);
    h.(addedLines := h.addedLines + NumbersIn(noise, '+', After(h.newStart, |c.added|)),
       removedLines := h.removedLines + NumbersIn(noise, '-', After(h.oldStart, |c.removed|)))
  }

  function After(n: int, count: nat): int
    decreases count
  {
    if count == 0 then n else After(Bump(n), count - 1)
  }

  function ReadChanges(file: string, changes: seq<Change>, noise: seq<string>): (r: seq<Hunk>)
    ensures |r| == |changes|
  {
    if changes == [] then []
    else [ReadHunk(file, changes[0], if |changes| == 1 then noise else [])] + ReadChanges(file, changes[1..], noise)
  }

  function ReadBack(files: seq<FileDiff>): seq<Hunk>
    requires Printable(files)
  {
    if files == [] then []
    else
      SomeNameIsRead(files[0].path);
      ReadChanges(ReadFile(FileLine(files[0].path, files[0].path)).value, files[0].changes, Noise(files[1..]))
      + ReadBack(files[1..])
  }

  // ----- Reading what was printed -----

  lemma FirstDiffers(p: string, s: string)
    requires p != "" && s != "" && p[0] != s[0]
    ensures !(p <= s)
  {
  }

  /** Neither a file line nor a hunk header: it begins with another character. */
  lemma OtherwiseMarked(line: string)
    requires line != "" && line[0] !in {'d', '@'}
    ensures ReadFile(line).None? && ReadHeader(line).None?
  {
    FirstDiffers(FILE_LINE, line);
    FirstDiffers("@@ -", line);
  }

  lemma ChangeBodyIsPlain(c: Change)
    ensures PlainMeta(ChangeBody(c))
  {
    hide ReadFile, ReadHeader;
    forall line | line in ChangeBody(c) ensures ReadFile(line).None? && ReadHeader(line).None? {
      OtherwiseMarked(line);
    }
  }

  /** Plain lines are passed over, and belong to the body. */
  lemma {:induction false} PlainLinesPass(lines: seq<string>, rest: seq<string>, file: string)
    requires PlainMeta(lines)
    ensures Hunks(lines + rest, file) == Hunks(rest, file)
    ensures Body(lines + rest) == lines + Body(rest)
  {
    hide Hunks, Body, ReadFile, ReadHeader;
    if lines == [] {
      assert lines + rest == rest && lines + Body(rest) == Body(rest);
    } else {
      assert lines + rest == [lines[0]] + (lines[1..] + rest);
      HunksStep(lines[0], lines[1..] + rest, file);
      BodyStep(lines[0], lines[1..] + rest);
      PlainLinesPass(lines[1..], rest, file);
      assert [lines[0]] + (lines[1..] + Body(rest)) == lines + Body(rest);
    }
  }

  lemma CountingStep(n: int, count: nat)
    ensures count == 0 ==> Counting(n, count) == [] && After(n, count) == n
    ensures count > 0 ==> Counting(n, count) == [n] + Counting(Bump(n), count - 1)
    ensures count > 0 ==> After(n, count) == After(Bump(n), count - 1)
  {
  }

  lemma MarkedLineNumbers(line: string, mark: char, rest: seq<string>, want: char, n: int)
    requires line != "" && line[0] == mark && mark in {'+', '-'} && want in {'+', '-'}
    ensures NumbersIn([line] + rest, want, n) ==
      (if mark == want then [n] + NumbersIn(rest, want, Bump(n)) else NumbersIn(rest, want, n))
  {
    hide NumbersIn, ReadFile, ReadHeader;
    OtherwiseMarked(line);
    NumbersStep(line, rest, want, n);
  }

  lemma MarkedStep(mark: char, lines: seq<string>, rest: seq<string>)
    ensures lines == [] ==> Marked(mark, lines) + rest == rest
    ensures lines != [] ==> Marked(mark, lines) + rest == [[mark] + lines[0]] + (Marked(mark, lines[1..]) + rest)
  {
  }

  lemma {:induction false} MarkedNumbers(mark: char, lines: seq<string>, rest: seq<string>, want: char, n: int)
    requires mark in {'+', '-'} && want in {'+', '-'}
    ensures NumbersIn(Marked(mark, lines) + rest, want, n) ==
      (if mark == want then Counting(n, |lines|) + NumbersIn(rest, want, After(n, |lines|))
       else NumbersIn(rest, want, n))
  {
    hide NumbersIn, ReadFile, ReadHeader, Counting, After, Marked, Bump, IsNumbered;
    CountingStep(n, |lines|);
    MarkedStep(mark, lines, rest);
    if lines == [] {
      assert [] + NumbersIn(rest, want, n) == NumbersIn(rest, want, n);
    } else {
      var line, tail := [mark] + lines[0], Marked(mark, lines[1..]) + rest;
      MarkedLineNumbers(line, mark, tail, want, n);
      MarkedNumbers(mark, lines[1..], rest, want, if mark == want then Bump(n) else n);
      if mark == want {
        var more := NumbersIn(rest, want, After(n, |lines|));
        assert [n] + (Counting(Bump(n), |lines| - 1) + more) == [n] + Counting(Bump(n), |lines| - 1) + more;
      }
    }
  }

  lemma OpenEndNumbers(open: bool, rest: seq<string>, want: char, n: int)
    requires want in {'+', '-'}
    ensures NumbersIn(OpenEnd(open) + rest, want, n) == NumbersIn(rest, want, n)
  {
    hide NumbersIn, ReadFile;
    if open {
      NumbersStep("\\ No newline at end of file", rest, want, n);
    } else {
      assert OpenEnd(open) + rest == rest;
    }
  }

  lemma ChangeNumbers(c: Change, noise: seq<string>, want: char, n: int)
    requires want in {'+', '-'}
    ensures var count := if want == '+' then |c.added| else |c.removed|;
      NumbersIn(ChangeBody(c) + noise, want, n) == Counting(n, count) + NumbersIn(noise, want, After(n, count))
  {
    hide NumbersIn, Marked, Counting, After;
    var tail := Marked('+', c.added) + (OpenEnd(c.newOpenEnd) + noise);
    assert ChangeBody(c) + noise == Marked('-', c.removed) + (OpenEnd(c.oldOpenEnd) + tail);
    MarkedNumbers('-', c.removed, OpenEnd(c.oldOpenEnd) + tail, want, n);
    var m := if want == '-' then After(n, |c.removed|) else n;
    OpenEndNumbers(c.oldOpenEnd, tail, want, m);
    MarkedNumbers('+', c.added, OpenEnd(c.newOpenEnd) + noise, want, m);
    OpenEndNumbers(c.newOpenEnd, noise, want, if want == '+' then After(n, |c.added|) else m);
  }

  lemma ChangeHeaderReads(c: Change)
    ensures ReadFile(ChangeHeader(c)).None? && ReadHeader(ChangeHeader(c)) == Some(ChangeRanges(c))
  {
    hide ReadHeader, ChangeRanges;
    HeaderReadIff(ChangeHeader(c), ChangeRanges(c));
    assert ChangeHeader(c)[0] == '@';
    FirstDiffers(FILE_LINE, ChangeHeader(c));
  }

  lemma ChangeReads(file: string, c: Change, noise: seq<string>)
    requires ReadHeader(ChangeHeader(c)).Some?
    ensures HunkAt(file, ChangeHeader(c), ChangeBody(c) + noise) == ReadHunk(file, c, noise)
  {
    hide ReadHeader, NumbersIn, ChangeBody, Counting, After, Number, Saturate, ChangeHeader;
    ChangeHeaderReads(c);
    ChangeNumbers(c, noise, '+', Saturate(c.newStart));
    ChangeNumbers(c, noise, '-', Saturate(c.oldStart));
  }

  lemma ChangeThen(file: string, c: Change, more: seq<string>)
    ensures Hunks([ChangeHeader(c)] + (ChangeBody(c) + more), file)
         == [ReadHunk(file, c, Body(more))] + Hunks(more, file)
    ensures Body([ChangeHeader(c)] + (ChangeBody(c) + more)) == []
  {
    hide Hunks, Body, ReadFile, ReadHeader, ReadHunk, HunkAt, ChangeBody, ChangeHeader, PlainMeta;
    ChangeHeaderReads(c);
    HunksStep(ChangeHeader(c), ChangeBody(c) + more, file);
    BodyStep(ChangeHeader(c), ChangeBody(c) + more);
    ChangeBodyIsPlain(c);
    PlainLinesPass(ChangeBody(c), more, file);
    ChangeReads(file, c, Body(more));
  }

  lemma ChangesUnfold(file: string, changes: seq<Change>, noise: seq<string>, rest: seq<string>)
    ensures changes == [] ==> PrintChanges(changes) + rest == rest && ReadChanges(file, changes, noise) == []
    ensures changes != [] ==>
      && PrintChanges(changes) + rest
         == [ChangeHeader(changes[0])] + (ChangeBody(changes[0]) + (PrintChanges(changes[1..]) + rest))
      && ReadChanges(file, changes, noise)
         == [ReadHunk(file, changes[0], if |changes| == 1 then noise else [])] + ReadChanges(file, changes[1..], noise)
  {
    hide ReadHunk, ChangeBody, ChangeHeader;
  }

  lemma {:induction false} ChangesRead(file: string, changes: seq<Change>, rest: seq<string>)
    ensures Hunks(PrintChanges(changes) + rest, file) == ReadChanges(file, changes, Body(rest)) + Hunks(rest, file)
    ensures changes != [] ==> Body(PrintChanges(changes) + rest) == []
  {
    hide Hunks, Body, ReadHunk, ChangeBody, ChangeHeader, PrintChanges, ReadChanges;
    ChangesUnfold(file, changes, Body(rest), rest);
    if changes == [] {
      assert [] + Hunks(rest, file) == Hunks(rest, file);
    } else {
      var c, more := changes[0], PrintChanges(changes[1..]) + rest;
      ChangeThen(file, c, more);
      ChangesRead(file, changes[1..], rest);
      var noise := if |changes| == 1 then Body(rest) else [];
      if |changes| == 1 { ChangesUnfold(file, changes[1..], Body(rest), rest); }
      assert Body(more) == noise;
      var later := ReadChanges(file, changes[1..], Body(rest));
      assert [ReadHunk(file, c, noise)] + (later + Hunks(rest, file))
          == ([ReadHunk(file, c, noise)] + later) + Hunks(rest, file);
    }
  }

  /** What is read from a printed diff of any number of files: every hunk once and in order, with its own lines
    and, for the last hunk of a file, the noise before the next hunk. */
  lemma {:induction false} PrintedReadsBack(files: seq<FileDiff>, file: string)
    requires Printable(files)
    ensures Hunks(Print(files), file) == ReadBack(files)
    ensures Body(Print(files)) == Noise(files)
  {
    hide Hunks, Body, ReadFile, ReadHeader, ReadChanges, PrintChanges, PlainMeta;
    if files == [] {
      NothingToRead(file);
    } else {
      var f, more := files[0], Print(files[1..]);
      var line := FileLine(f.path, f.path);
      var tail := PrintChanges(f.changes) + more;
      assert f in files;
      SomeNameIsRead(f.path);
      assert Print(files) == [line] + (f.meta + tail);
      HunksStep(line, f.meta + tail, file);
      BodyStep(line, f.meta + tail);
      var name := ReadFile(line).value;
      PlainLinesPass(f.meta, tail, name);
      ChangesRead(name, f.changes, more);
      PrintedReadsBack(files[1..], name);
      if f.changes == [] { assert tail == more by { NoChanges(more); } }
    }
  }

  lemma NothingToRead(file: string)
    ensures Hunks([], file) == [] && Body([]) == []
  {
  }

  lemma NoChanges(more: seq<string>)
    ensures PrintChanges([]) + more == more
  {
  }

  // ----- When reading undoes printing -----

  /** No line that would be counted as added or removed. */
  ghost predicate Quiet(lines: seq<string>) {
    forall line | line in lines && IsNumbered(line) :: line[0] !in {'+', '-'}
  }

  /** Files with hunks have names that are read back, and nothing countable stands in front of a later file. */
  ghost predicate Undisturbed(files: seq<FileDiff>) {
    forall i | 0 <= i < |files| && files[i].changes != [] ::
      !Splits(files[i].path) && forall j | i < j < |files| :: Quiet(files[j].meta)
  }

  lemma {:induction false} QuietIff(lines: seq<string>, n: int, m: int)
    ensures Quiet(lines) <==> NumbersIn(lines, '+', n) == [] && NumbersIn(lines, '-', m) == []
  {
    hide ReadFile;
    if lines != [] {
      var k := if IsNumbered(lines[0]) && lines[0][0] in {'+', ' '} then Bump(n) else n;
      var l := if IsNumbered(lines[0]) && lines[0][0] in {'-', ' '} then Bump(m) else m;
      QuietIff(lines[1..], k, l);
      assert lines == [lines[0]] + lines[1..];
      assert Quiet(lines) <==> Quiet([lines[0]]) && Quiet(lines[1..]);
      assert lines[0] in [lines[0]];
    }
  }

  lemma SameOnlyIfNothing<T>(s: seq<T>, t: seq<T>)
    ensures s + t == s <==> t == []
  {
    if s + t == s { assert |s + t| == |s| + |t|; }
  }

  lemma HunkReadIff(file: string, path: string, c: Change, noise: seq<string>)
    ensures ReadHunk(file, c, noise) == TrueHunk(path, c) <==> file == path && Quiet(noise)
  {
    hide NumbersIn, Quiet, Counting, After;
    var h := TrueHunk(file, c);
    QuietIff(noise, After(h.newStart, |c.added|), After(h.oldStart, |c.removed|));
    SameOnlyIfNothing(h.addedLines, NumbersIn(noise, '+', After(h.newStart, |c.added|)));
    SameOnlyIfNothing(h.removedLines, NumbersIn(noise, '-', After(h.oldStart, |c.removed|)));
  }

  lemma {:induction false} ChangesReadIff(file: string, path: string, changes: seq<Change>, noise: seq<string>)
    ensures ReadChanges(file, changes, noise) == TrueChanges(path, changes)
       <==> changes == [] || (file == path && Quiet(noise))
  {
    hide Quiet, ReadHunk, TrueHunk;
    if changes != [] {
      var last := if |changes| == 1 then noise else [];
      HunkReadIff(file, path, changes[0], last);
      assert Quiet([]) by { QuietIff([], 0, 0); }
      ChangesReadIff(file, path, changes[1..], noise);
      var r, t := ReadChanges(file, changes, noise), TrueChanges(path, changes);
      assert r == [r[0]] + r[1..] && t == [t[0]] + t[1..];
    }
  }

  lemma {:induction false} AllQuiet(files: seq<FileDiff>, j: nat)
    requires Printable(files) && Undisturbed(files) && Quiet(Noise(files)) && j < |files|
    ensures Quiet(files[j].meta)
  {
    hide Printable;
    var f := files[0];
    assert forall line | line in f.meta :: line in Noise(files);
    if j > 0 && f.changes == [] {
      assert forall line | line in Noise(files[1..]) :: line in Noise(files);
      LaterUndisturbed(files);
      AllQuiet(files[1..], j - 1);
    }
  }

  lemma LaterUndisturbed(files: seq<FileDiff>)
    requires files != []
    ensures Undisturbed(files) ==> Undisturbed(files[1..])
    ensures Printable(files) ==> Printable(files[1..])
  {
    hide Quiet, Splits, PlainMeta;
    if Undisturbed(files) {
      forall i | 0 <= i < |files[1..]| && files[1..][i].changes != []
        ensures !Splits(files[1..][i].path) && forall j | i < j < |files[1..]| :: Quiet(files[1..][j].meta)
      {
        assert files[1 + i] == files[1..][i];
        forall j | i < j < |files[1..]| ensures Quiet(files[1..][j].meta) { assert files[1 + j] == files[1..][j]; }
      }
    }
  }

  lemma {:induction false} QuietMetaQuietNoise(files: seq<FileDiff>)
    requires Printable(files) && forall j | 0 <= j < |files| :: Quiet(files[j].meta)
    ensures Quiet(Noise(files))
  {
    if files != [] {
      SomeNameIsRead(files[0].path);
      LaterUndisturbed(files);
      assert forall j | 0 <= j < |files[1..]| :: files[1..][j] == files[1 + j];
      QuietMetaQuietNoise(files[1..]);
    }
  }

  lemma UndisturbedStep(files: seq<FileDiff>)
    requires files != [] && Printable(files)
    ensures Undisturbed(files) <==>
      && Undisturbed(files[1..])
      && (files[0].changes != [] ==> !Splits(files[0].path) && Quiet(Noise(files[1..])))
  {
    hide Quiet, Splits, PlainMeta, Noise;
    LaterUndisturbed(files);
    var rest := files[1..];
    assert forall j | 0 <= j < |rest| :: rest[j] == files[1 + j];
    if Undisturbed(files) && files[0].changes != [] {
      forall j | 0 <= j < |rest| ensures Quiet(rest[j].meta) { assert Quiet(files[1 + j].meta); }
      QuietMetaQuietNoise(rest);
    }
    if Undisturbed(rest) && (files[0].changes != [] ==> !Splits(files[0].path) && Quiet(Noise(rest))) {
      forall i | 0 <= i < |files| && files[i].changes != []
        ensures !Splits(files[i].path) && forall j | i < j < |files| :: Quiet(files[j].meta)
      {
        forall j | i < j < |files| ensures Quiet(files[j].meta) {
          assert files[j] == rest[j - 1];
          if i == 0 { AllQuiet(rest, j - 1); } else { assert files[i] == rest[i - 1]; }
        }
        if i > 0 { assert files[i] == rest[i - 1]; }
      }
    }
  }

  lemma NothingDisturbed()
    ensures Undisturbed([])
  {
  }

  lemma PathReadIff(path: string)
    requires path != ""
    ensures ReadFile(FileLine(path, path)) == Some(path) <==> !Splits(path)
  {
    hide ReadFile, FileLine;
    FileReadIff(FileLine(path, path), path);
  }

  lemma {:induction false} ReadBackIff(files: seq<FileDiff>)
    requires Printable(files)
    ensures |ReadBack(files)| == |TrueHunks(files)|
    ensures ReadBack(files) == TrueHunks(files) <==> Undisturbed(files)
  {
    hide Undisturbed, Splits, Quiet, Noise, FileLine, ReadFile;
    if files == [] {
      NothingDisturbed();
    } else {
      var f := files[0];
      UndisturbedStep(files);
      LaterUndisturbed(files);
      ReadBackIff(files[1..]);
      SomeNameIsRead(f.path);
      PathReadIff(f.path);
      var name := ReadFile(FileLine(f.path, f.path)).value;
      ChangesReadIff(name, f.path, f.changes, Noise(files[1..]));
      SameHalves(ReadChanges(name, f.changes, Noise(files[1..])), TrueChanges(f.path, f.changes),
                 ReadBack(files[1..]), TrueHunks(files[1..]));
    }
  }

  lemma SameHalves<T>(a: seq<T>, b: seq<T>, c: seq<T>, d: seq<T>)
    requires |a| == |b|
    ensures a + c == b + d <==> a == b && c == d
  {
    if a + c == b + d {
      assert a == (a + c)[..|a|] && b == (b + d)[..|b|];
      assert c == (a + c)[|a|..] && d == (b + d)[|b|..];
    }
  }

  /** Reading undoes printing exactly when the names survive and no later file brings countable lines. */
  lemma ReadingUndoesPrintingIff(files: seq<FileDiff>)
    requires Printable(files)
    ensures Hunks(Print(files), "") == TrueHunks(files) <==> Undisturbed(files)
  {
    hide Undisturbed, Print, Hunks, ReadBack, TrueHunks, Printable, Noise, Body;
    PrintedReadsBack(files, "");
    ReadBackIff(files);
  }

  /** One file: whatever its hunks are, they come back unless the path contains the separator. */
  lemma OneFileReadsBackIff(f: FileDiff)
    requires f.path != "" && PlainMeta(f.meta)
    ensures Hunks(Print([f]), "") == TrueChanges(f.path, f.changes) <==> f.changes == [] || !Splits(f.path)
  {
    hide Hunks, Print, PlainMeta, Splits, Quiet;
    assert Printable([f]);
    ReadingUndoesPrintingIff([f]);
    assert TrueHunks([f]) == TrueChanges(f.path, f.changes) by {
      assert TrueChanges(f.path, f.changes) + [] == TrueChanges(f.path, f.changes);
    }
    assert [f][0] == f;
  }

  /** Within the machine's range, a change's lines are start .. start + count - 1. */
  lemma {:induction false} CountingIsConsecutive(start: nat, count: nat, k: nat)
    requires start + count <= MAX_INT + 1 && k < count
    ensures Counting(start, count)[k] == start + k
    decreases count
  {
    if k > 0 { CountingIsConsecutive(start + 1, count - 1, k - 1); }
  }

  /** What stands between two files with changed lines. */
  function NameLines(path: string, index: string): seq<string> { [index, "--- a/" + path, "+++ b/" + path] }

  lemma NameLinesCount(path: string, index: string, n: int, want: char)
    requires path != "" && index != "" && index[0] == 'i' && want in {'+', '-'}
    ensures |NumbersIn([FileLine(path, path)] + NameLines(path, index), want, n)| == 1
  {
    hide NumbersIn, ReadFile, ReadHeader, FileLine;
    SomeNameIsRead(path);
    var minus, plus := "--- a/" + path, "+++ b/" + path;
    OtherwiseMarked(index);
    OtherwiseMarked(minus);
    OtherwiseMarked(plus);
    NumbersStep(FileLine(path, path), NameLines(path, index), want, n);
    assert NameLines(path, index) == [index] + ([minus] + [plus]);
    NumbersStep(index, [minus] + [plus], want, n);
    NumbersStep(minus, [plus], want, n);
    var m := if want == '-' then Bump(n) else n;
    assert [plus] + [] == [plus];
    NumbersStep(plus, [], want, m);
    NoNumbers(want, if want == '+' then Bump(m) else m);
  }

  lemma NoNumbers(want: char, n: int)
    ensures NumbersIn([], want, n) == []
  {
  }

  /** A second file with the usual name lines always adds one line each to the hunk before it. */
  lemma NextFileIsCountedIn(f: FileDiff, g: FileDiff, index: string)
    requires Printable([f, g]) && f.changes != []
    requires g.meta == NameLines(g.path, index) && index != "" && index[0] == 'i'
    ensures var c, k := f.changes[|f.changes| - 1], |f.changes| - 1;
      var read := Hunks(Print([f, g]), "");
      && |read| > k
      && |read[k].addedLines| == |c.added| + 1
      && |read[k].removedLines| == |c.removed| + 1
  {
    hide Hunks, Body, Print, PlainMeta, NumbersIn, ReadFile, ReadHeader, NameLines, FileLine, Counting, After,
      ReadChanges;
    var c, noise := f.changes[|f.changes| - 1], Noise([g]);
    assert f in [f, g] && g in [f, g];
    PrintedReadsBack([f, g], "");
    assert noise == [FileLine(g.path, g.path)] + NameLines(g.path, index) by {
      assert NameLines(g.path, index) + [] == NameLines(g.path, index);
    }
    SomeNameIsRead(f.path);
    assert [f, g][1..] == [g];
    LastIsRead(ReadFile(FileLine(f.path, f.path)).value, f.changes, noise);
    NameLinesCount(g.path, index, After(Saturate(c.newStart), |c.added|), '+');
    NameLinesCount(g.path, index, After(Saturate(c.oldStart), |c.removed|), '-');
  }

  lemma {:induction false} LastIsRead(file: string, changes: seq<Change>, noise: seq<string>)
    requires changes != []
    ensures var k := |changes| - 1; ReadChanges(file, changes, noise)[k] == ReadHunk(file, changes[k], noise)
  {
    hide ReadHunk;
    if |changes| > 1 { LastIsRead(file, changes[1..], noise); }
  }

  // ----- In numbers -----

  /** A number that is left out is 1; any other is its value, or 2^63 - 1 if that is more. */
  lemma NumberIs(n: nat)
    ensures Number("") == 1
    ensures Number(Decimal(n)) == if n <= 9223372036854775807 then n else 9223372036854775807
  {
  }

  /** A line counter goes from 2^63 - 1 to -2^63. */
  lemma BumpIs(n: int)
    requires -9223372036854775808 <= n <= 9223372036854775807
    ensures Bump(n) == if n == 9223372036854775807 then -9223372036854775808 else n + 1
  {
  }

  function SmallFile(): FileDiff {
    FileDiff("x.go", ["--- a/x.go", "+++ b/x.go"], [Change(7, ["a"], false, 8, ["b", "c"], true, " f")])
  }

  lemma SmallBody()
    ensures ChangeBody(SmallFile().changes[0]) == ["-a", "+b", "+c", "\\ No newline at end of file"]
  {
    assert ["a"][1..] == [] && ["b", "c"][1..] == ["c"] && ["c"][1..] == [];
    assert ['-'] + "a" == "-a" && ['+'] + "b" == "+b" && ['+'] + "c" == "+c";
    assert Marked('-', ["a"]) == ["-a"];
    assert Marked('+', ["c"]) == ["+c"];
    assert Marked('+', ["b", "c"]) == ["+b", "+c"];
  }

  lemma SmallFilePrints()
    ensures Print([SmallFile()]) == [
      "diff --git a/x.go b/x.go", "--- a/x.go", "+++ b/x.go", "@@ -7 +8,2 @@ f", "-a", "+b", "+c",
      "\\ No newline at end of file"]
  {
    hide ChangeBody, ChangeHeader, FileLine;
    SmallFileLine();
    SmallHeader();
    SmallBody();
    var f := SmallFile();
    assert PrintChanges(f.changes) == [ChangeHeader(f.changes[0])] + (ChangeBody(f.changes[0]) + []);
    assert Print([f]) == [FileLine(f.path, f.path)] + (f.meta + (PrintChanges(f.changes) + []));
  }

  lemma SmallFileLine()
    ensures FileLine("x.go", "x.go") == "diff --git a/x.go b/x.go"
  {
  }

  lemma SmallHeader()
    ensures ChangeHeader(SmallFile().changes[0]) == "@@ -7 +8,2 @@ f"
  {
    assert Decimal(7) == "7" && Decimal(8) == "8" && Decimal(2) == "2";
  }

  lemma SmallFileIsPlain()
    ensures PlainMeta(SmallFile().meta) && !Splits("x.go")
  {
    hide ReadFile, ReadHeader;
    OtherwiseMarked("--- a/x.go");
    OtherwiseMarked("+++ b/x.go");
    assert "x.go"[0..3][0] == 'x';
  }

  lemma SmallHunk()
    ensures TrueChanges("x.go", SmallFile().changes)
         == [Hunk("x.go", 7, 1, 8, 2, "@@ -7 +8,2 @@ f", [8, 9], [7])]
  {
    hide ChangeHeader;
    SmallHeader();
    assert Counting(8, 2) == [8, 9] && Counting(7, 1) == [7];
    assert TrueChanges("x.go", []) == [];
  }

  /** One small diff, from its text to its hunk. */
  method ReadSmallDiff() returns (hunks: seq<Hunk>)
    ensures hunks == [Hunk("x.go", 7, 1, 8, 2, "@@ -7 +8,2 @@ f", [8, 9], [7])]
  {
    hide Hunks, Print, TrueChanges, PlainMeta, Splits;
    hunks := ParseDiffOutput([
      "diff --git a/x.go b/x.go", "--- a/x.go", "+++ b/x.go", "@@ -7 +8,2 @@ f", "-a", "+b", "+c",
      "\\ No newline at end of file"]);
    SmallFilePrints();
    SmallFileIsPlain();
    SmallHunk();
    OneFileReadsBackIff(SmallFile());
  }
}
