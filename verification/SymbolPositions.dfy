/** Which listed symbols the diff really touches.

  The removed lines of a diff are numbered as in the old file, the lines of a symbol as in the new one.  A line that
  is in both has two numbers, which differ by what the diff removes and adds before it. */
module SymbolPositions {
  import opened Indexers
  import opened DiffParsers
  import opened ChangedSymbols

  ghost function AddedIn(hunks: seq<Hunk>, file: string): set<int> {
    set h, line | h in hunks && h.file == file && line in h.addedLines :: line
  }

  ghost function RemovedIn(hunks: seq<Hunk>, file: string): set<int> {
    set h, line | h in hunks && h.file == file && line in h.removedLines :: line
  }

  ghost predicate IsHit(hunks: seq<Hunk>, y: Symbol) { exists h | h in hunks :: Hits(h, y) }

  ghost predicate AnyInside(lines: set<int>, y: Symbol) { exists line | line in lines :: Inside(line, y) }

  lemma HitIff(hunks: seq<Hunk>, y: Symbol)
    ensures IsHit(hunks, y) <==> AnyInside(AddedIn(hunks, y.file), y) || AnyInside(RemovedIn(hunks, y.file), y)
  {
    hide Inside;
    if AnyInside(AddedIn(hunks, y.file), y) {
      var line :| line in AddedIn(hunks, y.file) && Inside(line, y);
      var h :| h in hunks && h.file == y.file && line in h.addedLines;
      assert Hits(h, y);
    } else if AnyInside(RemovedIn(hunks, y.file), y) {
      var line :| line in RemovedIn(hunks, y.file) && Inside(line, y);
      var h :| h in hunks && h.file == y.file && line in h.removedLines;
      assert Hits(h, y);
    }
    forall h | h in hunks && Hits(h, y)
      ensures AnyInside(AddedIn(hunks, y.file), y) || AnyInside(RemovedIn(hunks, y.file), y)
    {
      assert forall line | line in h.addedLines :: line in AddedIn(hunks, y.file);
      assert forall line | line in h.removedLines :: line in RemovedIn(hunks, y.file);
    }
  }

  // ----- Old and new numbers -----

  ghost function Before(lines: set<int>, n: int): nat { |set line | line in lines && line < n| }

  /** Line `old_` of the old file is line `now` of the new one: it is neither removed nor added, and as many lines that
    stay come before it. */
  ghost predicate SameLine(removed: set<int>, added: set<int>, old_: int, now: int) {
    && old_ !in removed && now !in added
    && old_ - Before(removed, old_) == now - Before(added, now)
  }

  /** The first and the last line of the symbol in the old file. */
  ghost predicate StoodAt(removed: set<int>, added: set<int>, y: Symbol, first: int, last: int) {
    && y.line <= LastLine(y)
    && SameLine(removed, added, first, y.line)
    && SameLine(removed, added, last, LastLine(y))
  }

  /** A line between the two was removed. */
  ghost predicate LostLine(removed: set<int>, first: int, last: int) {
    exists line | line in removed :: first < line < last
  }

  ghost function Between(lines: set<int>, a: int, b: int): set<int> {
    set line | line in lines && a <= line < b
  }

  lemma {:induction false} FitsBetween(lines: set<int>, a: int, b: int)
    requires a <= b
    ensures |Between(lines, a, b)| <= b - a
    decreases b - a
  {
    if a == b {
      assert Between(lines, a, b) == {};
    } else {
      FitsBetween(lines, a + 1, b);
      assert Between(lines, a, b) <= Between(lines, a + 1, b) + {a};
      SmallerSet(Between(lines, a, b), Between(lines, a + 1, b) + {a});
    }
  }

  lemma SmallerSet(a: set<int>, b: set<int>)
    requires a <= b
    ensures |a| <= |b|
  {
    assert b == a + (b - a);
  }

  lemma BeforeSplits(lines: set<int>, a: int, b: int)
    requires a <= b
    ensures Before(lines, b) == Before(lines, a) + |Between(lines, a, b)|
  {
    var left := set line | line in lines && line < a;
    assert (set line | line in lines && line < b) == left + Between(lines, a, b);
    assert left !! Between(lines, a, b);
  }

  /** Without added lines inside, the old symbol was longer by exactly the lines removed from it. */
  lemma OldLength(removed: set<int>, added: set<int>, y: Symbol, first: int, last: int)
    requires StoodAt(removed, added, y, first, last) && !AnyInside(added, y)
    ensures first <= last && last - first == LastLine(y) - y.line + |Between(removed, first, last)|
  {
    hide Before;
    var s, e := y.line, LastLine(y);
    BeforeSplits(added, s, e);
    assert forall line | line in Between(added, s, e) :: line in added && Inside(line, y);
    if first <= last {
      BeforeSplits(removed, first, last);
    } else {
      assert Between(removed, last, first) == Between(removed, last + 1, first);
      FitsBetween(removed, last + 1, first);
      BeforeSplits(removed, last, first);
    }
  }

  /** A symbol without added lines has lost a line exactly when a removed line, its number shifted to the new file at
    the symbol's first line, falls inside the symbol. */
  lemma LostLineIffShiftedInside(removed: set<int>, added: set<int>, y: Symbol, first: int, last: int)
    requires StoodAt(removed, added, y, first, last) && !AnyInside(added, y)
    ensures LostLine(removed, first, last)
       <==> exists line | line in removed :: Inside(line - (first - y.line), y)
  {
    hide Before;
    OldLength(removed, added, y, first, last);
    var end := first + (LastLine(y) - y.line);
    if exists line | line in removed :: Inside(line - (first - y.line), y) {
      var line :| line in removed && Inside(line - (first - y.line), y);
      assert first < line < last;
    } else if LostLine(removed, first, last) {
      forall line | line in Between(removed, first, last) ensures line > end {
        assert Inside(line - (first - y.line), y) <==> line <= end;
      }
      assert Between(removed, first, last) == Between(removed, end + 1, last);
      FitsBetween(removed, end + 1, last);
    }
  }

  ghost predicate ReallyTouched(removed: set<int>, added: set<int>, y: Symbol, first: int, last: int) {
    AnyInside(added, y) || LostLine(removed, first, last)
  }

  /** Where as many lines are added as removed before a symbol, it is hit exactly when the diff touches it. */
  lemma HitIffTouched(hunks: seq<Hunk>, y: Symbol, first: int, last: int)
    requires StoodAt(RemovedIn(hunks, y.file), AddedIn(hunks, y.file), y, first, last) && first == y.line
    ensures IsHit(hunks, y) <==> ReallyTouched(RemovedIn(hunks, y.file), AddedIn(hunks, y.file), y, first, last)
  {
    hide Before, Inside, AddedIn, RemovedIn, IsHit, StoodAt, LostLine;
    HitIff(hunks, y);
    if !AnyInside(AddedIn(hunks, y.file), y) {
      LostLineIffShiftedInside(RemovedIn(hunks, y.file), AddedIn(hunks, y.file), y, first, last);
      var shift := first - y.line;
      assert forall line: int {:trigger Inside(line, y)} :: line - shift == line;
    }
  }

  /** A hit says the truth about a symbol that had stood somewhere else by `shift` lines. */
  ghost predicate HitIsTrue(hunks: seq<Hunk>, y: Symbol, first: int, last: int, shift: int) {
    StoodAt(RemovedIn(hunks, y.file), AddedIn(hunks, y.file), y, first, last) && first == y.line + shift ==>
      (IsHit(hunks, y) <==> ReallyTouched(RemovedIn(hunks, y.file), AddedIn(hunks, y.file), y, first, last))
  }

  function Numbers(n: nat): (lines: seq<int>)
    ensures forall line: int :: line in lines <==> 1 <= line <= n
  {
    if n == 0 then [] else Numbers(n - 1) + [n]
  }

  /** n lines removed at the top of the file, or added there and one removed just below them. */
  function RemovedAtTop(n: nat): seq<Hunk> { [Hunk("a.go", 1, n, 0, 0, "", [], Numbers(n))] }

  function AddedAtTop(n: nat): seq<Hunk> {
    [Hunk("a.go", 0, 0, 1, n, "", Numbers(n), []), Hunk("a.go", n + 1, 1, n + n, 0, "", [], [n + 1])]
  }

  function OneLiner(line: int): Symbol { Symbol("f", "function", "a.go", line, line, 1, 0, 0, "go", "", "") }

  ghost function Top(n: nat): (lines: set<int>)
    ensures |lines| == n && forall line: int :: line in lines <==> 1 <= line <= n
  {
    if n == 0 then {} else Top(n - 1) + {n}
  }

  lemma LinesOfHunk(h: Hunk, file: string)
    requires h.file == file
    ensures forall line: int :: line in AddedIn([h], file) <==> line in h.addedLines
    ensures forall line: int :: line in RemovedIn([h], file) <==> line in h.removedLines
  {
    assert h in [h];
  }

  lemma LinesOfHunks(g: Hunk, h: Hunk, file: string)
    requires g.file == h.file == file
    ensures forall line: int :: line in AddedIn([g, h], file) <==> line in g.addedLines || line in h.addedLines
    ensures forall line: int :: line in RemovedIn([g, h], file) <==> line in g.removedLines || line in h.removedLines
  {
    assert [g, h][0] in [g, h] && [g, h][1] in [g, h];
  }

  lemma NoneBefore(lines: set<int>, n: int)
    requires forall line | line in lines :: line >= n
    ensures Before(lines, n) == 0
  {
    assert (set line | line in lines && line < n) == {};
  }

  lemma AllBefore(lines: set<int>, n: int)
    requires forall line | line in lines :: line < n
    ensures Before(lines, n) == |lines|
  {
    assert (set line | line in lines && line < n) == lines;
  }

  /** A symbol of one line that is hit by a removal has not lost a line. */
  lemma FalseHit(hunks: seq<Hunk>, y: Symbol, removed: set<int>, added: set<int>, first: int)
    requires removed == RemovedIn(hunks, y.file) && added == AddedIn(hunks, y.file)
    requires LastLine(y) == y.line && SameLine(removed, added, first, y.line) && y.line in removed
    ensures !HitIsTrue(hunks, y, first, first, first - y.line)
  {
    hide SameLine, RemovedIn, AddedIn, IsHit;
    HitIff(hunks, y);
    assert Inside(y.line, y);
    assert !AnyInside(added, y) by { LineIsNew(removed, added, first, y.line); }
  }

  lemma LineIsNew(removed: set<int>, added: set<int>, first: int, now: int)
    requires SameLine(removed, added, first, now)
    ensures now !in added
  {
  }

  /** Lines removed at the top of the file: the symbol just below them is hit. */
  lemma RemovedAbove(n: nat)
    requires n > 0
    ensures !HitIsTrue(RemovedAtTop(n), OneLiner(1), n + 1, n + 1, n)
  {
    hide Numbers, Before, HitIsTrue, RemovedIn, AddedIn;
    var hunks := RemovedAtTop(n);
    LinesOfHunk(hunks[0], "a.go");
    assert RemovedIn(hunks, "a.go") == Top(n) && AddedIn(hunks, "a.go") == {};
    NoneBefore({}, 1);
    AllBefore(Top(n), n + 1);
    FalseHit(hunks, OneLiner(1), Top(n), {}, n + 1);
  }

  /** Lines added at the top of the file: the symbol just below them is hit when its neighbour is removed. */
  lemma AddedAbove(n: nat)
    requires n > 0
    ensures !HitIsTrue(AddedAtTop(n), OneLiner(n + 1), 1, 1, 0 - n)
  {
    hide Numbers, Before, HitIsTrue, RemovedIn, AddedIn;
    var hunks := AddedAtTop(n);
    LinesOfHunks(hunks[0], hunks[1], "a.go");
    assert AddedIn(hunks, "a.go") == Top(n) && RemovedIn(hunks, "a.go") == {n + 1};
    NoneBefore({n + 1}, 1);
    AllBefore(Top(n), n + 1);
    FalseHit(hunks, OneLiner(n + 1), {n + 1}, Top(n), 1);
  }

  /** Hits tell which symbols a diff touches exactly for the symbols that stand where they stood: for every other
    distance there are a diff and a symbol it moves by that much, which is hit and not touched. */
  lemma HitsAreTrueIffUnmoved(shift: int)
    ensures (forall hunks, y, first, last :: HitIsTrue(hunks, y, first, last, shift)) <==> shift == 0
  {
    hide IsHit, StoodAt, ReallyTouched, AddedIn, RemovedIn;
    if shift > 0 {
      RemovedAbove(shift);
    } else if shift < 0 {
      AddedAbove(-shift);
    } else {
      forall hunks, y, first, last ensures HitIsTrue(hunks, y, first, last, shift) {
        if StoodAt(RemovedIn(hunks, y.file), AddedIn(hunks, y.file), y, first, last) && first == y.line {
          HitIffTouched(hunks, y, first, last);
        }
      }
    }
  }

  function LineLostBelow(): seq<Hunk> {
    [Hunk("a.go", 0, 0, 1, 2, "", [1, 2], []), Hunk("a.go", 2, 1, 3, 0, "", [], [2])]
  }

  lemma LineLostBelowLines()
    ensures AddedIn(LineLostBelow(), "a.go") == {1, 2} && RemovedIn(LineLostBelow(), "a.go") == {2}
  {
    var hunks := LineLostBelow();
    LinesOfHunks(hunks[0], hunks[1], "a.go");
    hide RemovedIn, AddedIn;
  }

  /** The other mistake: two lines added at the top, and the middle one of the three lines of a function removed.
    The function has lost a line and is not listed. */
  lemma TouchedSymbolIsMissed()
    ensures var y, hunks := OneLiner(3).(endLine := 4), LineLostBelow();
      && StoodAt(RemovedIn(hunks, y.file), AddedIn(hunks, y.file), y, 1, 3)
      && ReallyTouched(RemovedIn(hunks, y.file), AddedIn(hunks, y.file), y, 1, 3) && !IsHit(hunks, y)
  {
    hide LineLostBelow, Before, RemovedIn, AddedIn, IsHit;
    LineLostBelowLines();
    NoneBefore({2}, 1);
    AllBefore({2}, 3);
    AllBefore({1, 2}, 3);
    AllBefore({1, 2}, 4);
    HitIff(LineLostBelow(), OneLiner(3).(endLine := 4));
  }
}
