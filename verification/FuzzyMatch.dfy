/** Fuzzy file search: greedy subsequence matching, first in the basename, then in the whole path. */
module FuzzyMatches {
  import opened Wrappers

  datatype FuzzyResult = FuzzyResult(path: string, score: int, matches: seq<nat>)

  function Lower(c: char): char {
    if 'A' <= c <= 'Z' then (c as int + 32) as char else c
  }

  /** Two characters count as the same exactly if they are, or are the upper and the lower case of one letter (65 is
    `A`, 90 is `Z`). */
  lemma SameLoweredIff(c: char, d: char)
    ensures Lower(c) == Lower(d) <==>
      || c == d
      || (65 <= c as int <= 90 && d as int - c as int == 32)
      || (65 <= d as int <= 90 && c as int - d as int == 32)
  {
    LoweredIs(c);
    LoweredIs(d);
  }

  lemma LoweredIs(c: char)
    ensures Lower(c) as int == if 65 <= c as int <= 90 then c as int + 32 else c as int
  {
  }

  function LowerAll(s: string): (t: string)
    ensures |t| == |s| && forall i | 0 <= i < |s| :: t[i] == Lower(s[i])
  {
    if s == [] then [] else LowerAll(s[..|s| - 1]) + [Lower(s[|s| - 1])]
  }

  /** Where the basename begins: after the last slash. */
  function BasenameStart(path: string): (n: nat)
    ensures n <= |path|
    ensures forall i | n <= i < |path| :: path[i] != '/'
    ensures n > 0 ==> path[n - 1] == '/'
  {
    if path == [] then 0
    else if path[|path| - 1] == '/' then |path|
    else BasenameStart(path[..|path| - 1])
  }

  function Basename(path: string): string { path[BasenameStart(path)..] }

  // ----- Embeddings -----

  /** `at` picks the query out of the target, in order, from position `from` on. */
  ghost predicate Embeds(query: string, target: string, from: nat, at: seq<nat>) {
    && |at| == |query|
    && (forall i | 0 <= i < |at| :: from <= at[i] < |target| && target[at[i]] == query[i])
    && (forall i, j | 0 <= i < j < |at| :: at[i] < at[j])
  }

  ghost predicate IsSubsequence(query: string, target: string) {
    exists at :: Embeds(query, target, 0, at)
  }

  ghost predicate NoLaterThan(a: seq<nat>, b: seq<nat>) {
    |a| == |b| && forall i | 0 <= i < |a| :: a[i] <= b[i]
  }

  /** The first possible position for every query character in turn. */
  function Greedy(query: string, target: string, from: nat): Option<seq<nat>>
    decreases |target| - from
  {
    if query == [] then Some([])
    else if from >= |target| then None
    else if target[from] == query[0] then
      var rest := Greedy(query[1..], target, from + 1);
      if rest.Some? then Some([from] + rest.value) else None
    else Greedy(query, target, from + 1)
  }

  /** The greedy choice is an embedding, pointwise the leftmost, and fails only if there is none. */
  lemma {:induction false} GreedyIsLeftmost(query: string, target: string, from: nat, at: seq<nat>)
    ensures Greedy(query, target, from).Some? ==> Embeds(query, target, from, Greedy(query, target, from).value)
    ensures Embeds(query, target, from, at) ==>
      Greedy(query, target, from).Some? && NoLaterThan(Greedy(query, target, from).value, at)
    decreases |target| - from
  {
    hide Embeds, NoLaterThan;
    if query == [] {
      EmptyEmbeds(target, from, at);
    } else if from >= |target| {
      NoRoom(query, target, from, at);
    } else if target[from] == query[0] {
      var tail := if at == [] then [] else at[1..];
      GreedyIsLeftmost(query[1..], target, from + 1, tail);
      if Embeds(query, target, from, at) { TailEmbeds(query, target, from, at); }
      var rest := Greedy(query[1..], target, from + 1);
      if rest.Some? {
        HeadEmbeds(query, target, from, rest.value);
        if Embeds(query, target, from, at) { HeadNoLater(query, target, from, rest.value, at); }
      }
    } else {
      GreedyIsLeftmost(query, target, from + 1, at);
      if Embeds(query, target, from, at) { SkipEmbeds(query, target, from, at); }
      var rest := Greedy(query, target, from + 1);
      if rest.Some? { EarlierEmbeds(query, target, from, rest.value); }
    }
  }

  lemma EmptyEmbeds(target: string, from: nat, at: seq<nat>)
    ensures Embeds([], target, from, [])
    ensures Embeds([], target, from, at) ==> NoLaterThan([], at)
  {
  }

  lemma NoRoom(query: string, target: string, from: nat, at: seq<nat>)
    requires query != [] && from >= |target|
    ensures !Embeds(query, target, from, at)
  {
    if |at| == |query| { assert !(from <= at[0] < |target|); }
  }

  lemma HeadNoLater(query: string, target: string, from: nat, rest: seq<nat>, at: seq<nat>)
    requires query != [] && Embeds(query, target, from, at) && NoLaterThan(rest, at[1..])
    ensures NoLaterThan([from] + rest, at)
  {
    forall i | 0 <= i < |at| ensures ([from] + rest)[i] <= at[i] {
      if i > 0 { assert rest[i - 1] <= at[1..][i - 1]; }
    }
  }

  lemma SkipEmbeds(query: string, target: string, from: nat, at: seq<nat>)
    requires query != [] && from < |target| && target[from] != query[0] && Embeds(query, target, from, at)
    ensures Embeds(query, target, from + 1, at)
  {
    assert at[0] != from;
    forall i | 0 <= i < |at| ensures from + 1 <= at[i] { if i > 0 { assert at[0] < at[i]; } }
  }

  lemma EarlierEmbeds(query: string, target: string, from: nat, at: seq<nat>)
    requires Embeds(query, target, from + 1, at)
    ensures Embeds(query, target, from, at)
  {
  }

  lemma TailEmbeds(query: string, target: string, from: nat, at: seq<nat>)
    requires query != [] && Embeds(query, target, from, at)
    ensures at != [] && Embeds(query[1..], target, from + 1, at[1..])
  {
    forall i | 0 <= i < |at| - 1 ensures from + 1 <= at[1..][i] { assert at[0] < at[i + 1]; }
  }

  lemma HeadEmbeds(query: string, target: string, from: nat, rest: seq<nat>)
    requires query != [] && from < |target| && target[from] == query[0]
    requires Embeds(query[1..], target, from + 1, rest)
    ensures Embeds(query, target, from, [from] + rest)
  {
    var at := [from] + rest;
    forall i | 0 <= i < |at| ensures from <= at[i] < |target| && target[at[i]] == query[i] {
      if i > 0 { assert query[i] == query[1..][i - 1]; }
    }
  }

  lemma GreedySucceedsIff(query: string, target: string)
    ensures Greedy(query, target, 0).Some? <==> IsSubsequence(query, target)
  {
    forall at | Embeds(query, target, 0, at) { GreedyIsLeftmost(query, target, 0, at); }
    GreedyIsLeftmost(query, target, 0, []);
  }

  // ----- Scores -----

  predicate IsSeparator(c: char) { c in "/.-_" }

  /** The points for the last of the matched positions. */
  function Points(target: string, before: seq<nat>, at: nat): int
    requires at < |target|
  {
    var last: int := if before == [] then -2 else before[|before| - 1];
    (if at == last + 1 then 10 else 5)
      + (if at == 0 then 15 else 0)
      + (if at > 0 && IsSeparator(target[at - 1]) then 10 else 0)
  }

  function Score(target: string, at: seq<nat>): int
    requires forall i | 0 <= i < |at| :: at[i] < |target|
  {
    if at == [] then 0
    else Score(target, at[..|at| - 1]) + Points(target, at[..|at| - 1], at[|at| - 1])
  }

  /** Every matched character earns between 5 and 20 points. */
  lemma {:induction false} ScoreBounds(target: string, at: seq<nat>)
    requires forall i | 0 <= i < |at| :: at[i] < |target|
    ensures 5 * |at| <= Score(target, at) <= 20 * |at|
  {
    if at != [] { ScoreBounds(target, at[..|at| - 1]); }
  }

  predicate IsConsecutive(at: seq<nat>, i: int) { 0 < i < |at| && at[i] == at[i - 1] + 1 }

  predicate IsAfterSeparator(target: string, at: seq<nat>, i: int) {
    0 <= i < |at| && 0 < at[i] <= |target| && target[at[i] - 1] in {'/', '.', '-', '_'}
  }

  /** How many indices below n have the property. */
  ghost function HowMany(n: nat, p: int -> bool): nat {
    if n == 0 then 0 else HowMany(n - 1, p) + (if p(n - 1) then 1 else 0)
  }

  /** A match scores 5 for every character, 5 more for one that follows the one before at once, 10 more for one after
    a separator, and 15 more if it begins at the start. */
  lemma ScoreIsSum(target: string, at: seq<nat>)
    requires forall i | 0 <= i < |at| :: at[i] < |target|
    requires forall i, j | 0 <= i < j < |at| :: at[i] < at[j]
    ensures Score(target, at) == 5 * |at| + 5 * HowMany(|at|, (i: int) => IsConsecutive(at, i))
                                 + 10 * HowMany(|at|, (i: int) => IsAfterSeparator(target, at, i))
                                 + (if at != [] && at[0] == 0 then 15 else 0)
  {
    ScoreOfPrefix(target, at, |at|);
    assert at[..|at|] == at;
  }

  lemma {:induction false} ScoreOfPrefix(target: string, at: seq<nat>, n: nat)
    requires n <= |at| && forall i | 0 <= i < |at| :: at[i] < |target|
    requires forall i, j | 0 <= i < j < |at| :: at[i] < at[j]
    ensures Score(target, at[..n]) == 5 * n + 5 * HowMany(n, (i: int) => IsConsecutive(at, i))
                                      + 10 * HowMany(n, (i: int) => IsAfterSeparator(target, at, i))
                                      + (if n > 0 && at[0] == 0 then 15 else 0)
  {
    if n > 0 {
      ScoreOfPrefix(target, at, n - 1);
      assert at[..n][..n - 1] == at[..n - 1];
      LastPoints(target, at, n - 1);
      assert n > 1 ==> at[0] < at[n - 1];
    }
  }

  lemma LastPoints(target: string, at: seq<nat>, n: nat)
    requires n < |at| && forall i | 0 <= i < |at| :: at[i] < |target|
    ensures Points(target, at[..n], at[n]) == 5 + (if IsConsecutive(at, n) then 5 else 0)
                                              + (if IsAfterSeparator(target, at, n) then 10 else 0)
                                              + (if at[n] == 0 then 15 else 0)
  {
  }

  datatype Match = Match(score: int, indices: seq<nat>)

  method MatchString(query: string, target: string) returns (r: Option<Match>)
    ensures r.Some? <==> Greedy(query, target, 0).Some?
    ensures r.Some? ==> r.value.indices == Greedy(query, target, 0).value
    ensures r.Some? ==> forall i | 0 <= i < |r.value.indices| :: r.value.indices[i] < |target|
    ensures r.Some? ==> r.value.score == Score(target, r.value.indices)
  {
    hide Remaining, Greedy, Score;
    assert Score(target, []) == 0 by { NoScore(target); }
    var qi := 0;
    var score := 0;
    var indices: seq<nat> := [];
    var lastMatchIdx := -2;
    var ti := 0;
    NothingMatched(query, target);
    while ti < |target| && qi < |query|
      invariant ti <= |target| && qi <= |query| && qi == |indices|
      invariant forall i | 0 <= i < |indices| :: indices[i] < |target|
      invariant score == Score(target, indices)
      invariant lastMatchIdx == if indices == [] then -2 else indices[|indices| - 1]
      invariant Remaining(query, target, qi, ti, indices)
    {
      if target[ti] == query[qi] {
        NextMatched(query, target, qi, ti, indices);
        ScoreAppend(target, indices, ti);
        indices := indices + [ti];
        if ti == lastMatchIdx + 1 { score := score + 10; } else { score := score + 5; }
        if ti == 0 { score := score + 15; }
        if ti > 0 && IsSeparator(target[ti - 1]) { score := score + 10; }
        lastMatchIdx := ti;
        qi := qi + 1;
      } else {
        NextSkipped(query, target, qi, ti, indices);
      }
      ti := ti + 1;
    }
    AllLookedAt(query, target, qi, ti, indices);
    if qi < |query| { return None; }
    return Some(Match(score, indices));
  }

  /** What has been matched, followed by the greedy choice for the rest, is the greedy choice. */
  ghost predicate Remaining(query: string, target: string, qi: nat, ti: nat, indices: seq<nat>)
    requires qi <= |query|
  {
    var rest := Greedy(query[qi..], target, ti);
    Greedy(query, target, 0) == if rest.Some? then Some(indices + rest.value) else None
  }

  lemma NothingMatched(query: string, target: string)
    ensures Remaining(query, target, 0, 0, [])
  {
    assert query[0..] == query;
    var rest := Greedy(query, target, 0);
    if rest.Some? { assert [] + rest.value == rest.value; }
  }

  lemma NextSkipped(query: string, target: string, qi: nat, ti: nat, indices: seq<nat>)
    requires qi < |query| && ti < |target| && target[ti] != query[qi]
    requires Remaining(query, target, qi, ti, indices)
    ensures Remaining(query, target, qi, ti + 1, indices)
  {
  }

  lemma AllLookedAt(query: string, target: string, qi: nat, ti: nat, indices: seq<nat>)
    requires qi <= |query| && Remaining(query, target, qi, ti, indices)
    requires qi == |query| || ti >= |target|
    ensures Greedy(query, target, 0) == if qi < |query| then None else Some(indices)
  {
    if qi == |query| { assert query[qi..] == [] && indices + [] == indices; }
  }

  lemma NoScore(target: string)
    ensures Score(target, []) == 0
  {
  }

  lemma ScoreAppend(target: string, at: seq<nat>, next: nat)
    requires next < |target| && forall i | 0 <= i < |at| :: at[i] < |target|
    ensures Score(target, at + [next]) == Score(target, at) + Points(target, at, next)
  {
    assert (at + [next])[..|at|] == at;
  }

  lemma NextMatched(query: string, target: string, qi: nat, ti: nat, indices: seq<nat>)
    requires qi < |query| && ti < |target| && target[ti] == query[qi]
    requires Remaining(query, target, qi, ti, indices)
    ensures Remaining(query, target, qi + 1, ti + 1, indices + [ti])
  {
    assert query[qi..][1..] == query[qi + 1..];
    var rest := Greedy(query[qi + 1..], target, ti + 1);
    if rest.Some? { assert indices + ([ti] + rest.value) == indices + [ti] + rest.value; }
  }

  // ----- Matching one path -----

  /** The positions at or after the start of the basename, counted from there. */
  function InBasename(indices: seq<nat>, start: nat): (m: seq<nat>)
    ensures forall k | 0 <= k < |m| :: start + m[k] in indices
  {
    if indices == [] then []
    else
      var last := indices[|indices| - 1];
      InBasename(indices[..|indices| - 1], start) + (if last >= start then [last - start] else [])
  }

  lemma IndicesInRange(query: string, target: string)
    ensures Greedy(query, target, 0).Some? ==>
      forall i | 0 <= i < |Greedy(query, target, 0).value| :: Greedy(query, target, 0).value[i] < |target|
  {
    GreedyIsLeftmost(query, target, 0, []);
  }

  function BasenameScore(query: string, path: string): Option<int> {
    var q, base := LowerAll(query), LowerAll(Basename(path));
    IndicesInRange(q, base);
    var at := Greedy(q, base, 0);
    if at.Some? then Some(Score(base, at.value) + 100) else None
  }

  function PathScore(query: string, path: string): Option<int> {
    var q, full := LowerAll(query), LowerAll(path);
    IndicesInRange(q, full);
    var at := Greedy(q, full, 0);
    if at.Some? then Some(Score(full, at.value)) else None
  }

  function MatchPath(query: string, path: string): Option<FuzzyResult> {
    if BasenameScore(query, path).Some? then
      Some(FuzzyResult(path, BasenameScore(query, path).value,
                       Greedy(LowerAll(query), LowerAll(Basename(path)), 0).value))
    else if PathScore(query, path).Some? then
      Some(FuzzyResult(path, PathScore(query, path).value,
                       InBasename(Greedy(LowerAll(query), LowerAll(path), 0).value, BasenameStart(path))))
    else None
  }

  /** The match of a path in terms of the two greedy choices. */
  lemma MatchPathIs(query: string, path: string)
    ensures
      var q, base, full := LowerAll(query), LowerAll(Basename(path)), LowerAll(path);
      var inBase, inFull := Greedy(q, base, 0), Greedy(q, full, 0);
      && (inBase.Some? ==> forall i | 0 <= i < |inBase.value| :: inBase.value[i] < |base|)
      && (inFull.Some? ==> forall i | 0 <= i < |inFull.value| :: inFull.value[i] < |full|)
      && MatchPath(query, path) ==
        if inBase.Some? then Some(FuzzyResult(path, Score(base, inBase.value) + 100, inBase.value))
        else if inFull.Some? then
          Some(FuzzyResult(path, Score(full, inFull.value), InBasename(inFull.value, BasenameStart(path))))
        else None
  {
    hide Greedy, Score, InBasename;
    IndicesInRange(LowerAll(query), LowerAll(Basename(path)));
    IndicesInRange(LowerAll(query), LowerAll(path));
  }

  /** A match in the basename is a match in the path. */
  lemma BasenameEmbedsInPath(query: string, path: string, at: seq<nat>)
    requires Embeds(LowerAll(query), LowerAll(Basename(path)), 0, at)
    ensures IsSubsequence(LowerAll(query), LowerAll(path))
  {
    hide LowerAll, BasenameStart, Embeds, IsSubsequence;
    var start := BasenameStart(path);
    LowerSlice(path, start);
    ShiftedEmbeds(LowerAll(query), LowerAll(path), start, at);
  }

  lemma LowerSlice(s: string, start: nat)
    requires start <= |s|
    ensures LowerAll(s[start..]) == LowerAll(s)[start..]
  {
    hide LowerAll;
    var t := s[start..];
    forall i | 0 <= i < |t| ensures LowerAll(t)[i] == LowerAll(s)[start..][i] { assert t[i] == s[start + i]; }
  }

  lemma ShiftedEmbeds(q: string, full: string, start: nat, at: seq<nat>)
    requires start <= |full| && Embeds(q, full[start..], 0, at)
    ensures IsSubsequence(q, full)
  {
    var shifted := seq(|at|, i requires 0 <= i < |at| => start + at[i]);
    assert forall i | 0 <= i < |at| :: full[shifted[i]] == full[start..][at[i]];
    assert Embeds(q, full, 0, shifted);
  }

  /** Completeness: a path matches exactly when the query is a case-insensitive subsequence of it. */
  lemma MatchesIffSubsequence(query: string, path: string)
    ensures MatchPath(query, path).Some? <==> IsSubsequence(LowerAll(query), LowerAll(path))
    ensures BasenameScore(query, path).Some? <==> IsSubsequence(LowerAll(query), LowerAll(Basename(path)))
  {
    GreedySucceedsIff(LowerAll(query), LowerAll(path));
    GreedySucceedsIff(LowerAll(query), LowerAll(Basename(path)));
    if at :| Embeds(LowerAll(query), LowerAll(Basename(path)), 0, at) {
      BasenameEmbedsInPath(query, path, at);
    }
  }

  /** Highlights lie inside the basename, and what they mark is a character of the query. */
  lemma HighlightsInBasename(query: string, path: string, k: nat)
    requires MatchPath(query, path).Some? && k < |MatchPath(query, path).value.matches|
    ensures var m := MatchPath(query, path).value.matches[k];
      m < |Basename(path)| && Lower(Basename(path)[m]) in LowerAll(query)
  {
    hide Greedy, Score, InBasename, BasenameScore, PathScore, MatchPath;
    MatchPathIs(query, path);
    var q, base, full, start := LowerAll(query), LowerAll(Basename(path)), LowerAll(path), BasenameStart(path);
    var matches := MatchPath(query, path).value.matches;
    if Greedy(q, base, 0).Some? {
      GreedyMarksQuery(q, base, k);
      assert base[matches[k]] == Lower(Basename(path)[matches[k]]);
    } else {
      var at := Greedy(q, full, 0).value;
      assert start + matches[k] in at;
      var i :| 0 <= i < |at| && at[i] == start + matches[k];
      GreedyMarksQuery(q, full, i);
      assert full[at[i]] == Lower(path[at[i]]);
    }
  }

  lemma GreedyMarksQuery(query: string, target: string, k: nat)
    requires Greedy(query, target, 0).Some? && k < |Greedy(query, target, 0).value|
    ensures Greedy(query, target, 0).value[k] < |target| && target[Greedy(query, target, 0).value[k]] in query
  {
    hide Greedy;
    GreedyIsLeftmost(query, target, 0, []);
    assert k < |query|;
  }

  /** Scores of both kinds are within their bounds. */
  lemma ResultBounds(query: string, path: string)
    requires MatchPath(query, path).Some?
    ensures var r := MatchPath(query, path).value;
      if BasenameScore(query, path).Some? then 100 + 5 * |query| <= r.score <= 100 + 20 * |query|
      else 5 * |query| <= r.score <= 20 * |query|
  {
    var q := LowerAll(query);
    GreedyIsLeftmost(q, LowerAll(Basename(path)), 0, []);
    GreedyIsLeftmost(q, LowerAll(path), 0, []);
    if BasenameScore(query, path).Some? {
      ScoreBounds(LowerAll(Basename(path)), Greedy(q, LowerAll(Basename(path)), 0).value);
    } else {
      ScoreBounds(LowerAll(path), Greedy(q, LowerAll(path), 0).value);
    }
  }

  // ----- Sorting and cutting -----

  /** Puts a result behind all that score at least as much. */
  function InsertByScore(sorted: seq<FuzzyResult>, r: FuzzyResult): seq<FuzzyResult> {
    if sorted == [] then [r]
    else
      var last := sorted[|sorted| - 1];
      if last.score >= r.score then sorted + [r] else InsertByScore(sorted[..|sorted| - 1], r) + [last]
  }

  /** A stable sort by descending score. */
  function SortByScore(results: seq<FuzzyResult>): seq<FuzzyResult> {
    if results == [] then []
    else InsertByScore(SortByScore(results[..|results| - 1]), results[|results| - 1])
  }

  ghost predicate Descending(s: seq<FuzzyResult>) {
    forall i, j | 0 <= i < j < |s| :: s[i].score >= s[j].score
  }

  function WithScore(s: seq<FuzzyResult>, score: int): seq<FuzzyResult> {
    if s == [] then []
    else WithScore(s[..|s| - 1], score) + (if s[|s| - 1].score == score then [s[|s| - 1]] else [])
  }

  lemma WithScoreAppend(s: seq<FuzzyResult>, r: FuzzyResult, score: int)
    ensures WithScore(s + [r], score) == WithScore(s, score) + (if r.score == score then [r] else [])
  {
    assert (s + [r])[..|s|] == s;
  }

  lemma {:induction false} InsertKeepsAll(sorted: seq<FuzzyResult>, r: FuzzyResult)
    ensures multiset(InsertByScore(sorted, r)) == multiset(sorted) + multiset{r}
  {
    if sorted != [] {
      var init, last := sorted[..|sorted| - 1], sorted[|sorted| - 1];
      assert sorted == init + [last];
      InsertKeepsAll(init, r);
    }
  }

  lemma {:induction false} InsertKeepsOrder(sorted: seq<FuzzyResult>, r: FuzzyResult)
    requires Descending(sorted)
    ensures Descending(InsertByScore(sorted, r))
    ensures forall i | 0 <= i < |InsertByScore(sorted, r)| ::
      InsertByScore(sorted, r)[i] == r || InsertByScore(sorted, r)[i] in sorted
  {
    if sorted != [] && sorted[|sorted| - 1].score < r.score {
      var init, last := sorted[..|sorted| - 1], sorted[|sorted| - 1];
      InsertKeepsOrder(init, r);
      var more := InsertByScore(init, r);
      forall i | 0 <= i < |more| ensures more[i].score >= last.score && (more[i] == r || more[i] in sorted) {
        if more[i] != r { var k :| 0 <= k < |init| && init[k] == more[i]; assert sorted[k] == more[i]; }
      }
    }
  }

  /** A result is put behind all equal ones: per score, insertion is appending. */
  lemma {:induction false} InsertIsStable(sorted: seq<FuzzyResult>, r: FuzzyResult, score: int)
    ensures WithScore(InsertByScore(sorted, r), score) == WithScore(sorted + [r], score)
  {
    hide WithScore;
    if sorted == [] {
      assert [] + [r] == [r];
    } else if sorted[|sorted| - 1].score < r.score {
      var init, last := sorted[..|sorted| - 1], sorted[|sorted| - 1];
      InsertIsStable(init, r, score);
      UnequalScoresCommute(init, last, r, score);
      assert sorted == init + [last];
      WithScoreAppend(InsertByScore(init, r), last, score);
      WithScoreAppend(init + [r], last, score);
    }
  }

  /** Swapping two neighbours of different scores changes the order of no two equal ones. */
  lemma UnequalScoresCommute(init: seq<FuzzyResult>, a: FuzzyResult, b: FuzzyResult, score: int)
    requires a.score != b.score
    ensures WithScore(init + [a] + [b], score) == WithScore(init + [b] + [a], score)
  {
    hide WithScore;
    WithScoreAppend(init, a, score);
    WithScoreAppend(init, b, score);
    WithScoreAppend(init + [a], b, score);
    WithScoreAppend(init + [b], a, score);
  }

  /** The sort loses and invents nothing, orders by score, and keeps equal scores in their order. */
  lemma {:induction false} SortFacts(results: seq<FuzzyResult>, score: int)
    ensures multiset(SortByScore(results)) == multiset(results)
    ensures Descending(SortByScore(results))
    ensures WithScore(SortByScore(results), score) == WithScore(results, score)
  {
    if results != [] {
      var init, last := results[..|results| - 1], results[|results| - 1];
      assert results == init + [last];
      SortFacts(init, score);
      InsertKeepsAll(SortByScore(init), last);
      InsertKeepsOrder(SortByScore(init), last);
      InsertIsStable(SortByScore(init), last, score);
      WithScoreAppend(SortByScore(init), last, score);
      WithScoreAppend(init, last, score);
    }
  }

  /** The first `limit` elements; a negative limit leaves out that many at the end. */
  function Slice<T>(s: seq<T>, limit: int): (r: seq<T>)
    ensures r <= s
    ensures limit >= 0 ==> |r| == limit || (|r| == |s| < limit)
    ensures limit < 0 ==> |r| - limit == |s| || (r == [] && |s| < -limit)
  {
    if limit < 0 then (if |s| + limit <= 0 then [] else s[..|s| + limit])
    else if limit >= |s| then s
    else s[..limit]
  }

  /** The results for all paths, in path order. */
  function MatchAll(query: string, paths: seq<string>): seq<FuzzyResult> {
    if paths == [] then []
    else
      var r := MatchPath(query, paths[|paths| - 1]);
      MatchAll(query, paths[..|paths| - 1]) + (if r.Some? then [r.value] else [])
  }

  function Unranked(paths: seq<string>): (r: seq<FuzzyResult>)
    ensures |r| == |paths| && forall i | 0 <= i < |paths| :: r[i] == FuzzyResult(paths[i], 0, [])
  {
    if paths == [] then [] else Unranked(paths[..|paths| - 1]) + [FuzzyResult(paths[|paths| - 1], 0, [])]
  }

  method FuzzyMatch(query: string, paths: seq<string>, limit: int) returns (results: seq<FuzzyResult>)
    ensures query == [] ==> results == Unranked(Slice(paths, limit))
    ensures query != [] ==> results == Slice(SortByScore(MatchAll(query, paths)), limit)
  {
    if |query| == 0 {
      var first := Slice(paths, limit);
      results := [];
      for i := 0 to |first|
        invariant results == Unranked(first[..i])
      {
        assert first[..i + 1][..i] == first[..i];
        results := results + [FuzzyResult(first[i], 0, [])];
      }
      assert first[..|first|] == first;
      return;
    }
    hide MatchPath, SortByScore;
    results := [];
    for i := 0 to |paths|
      invariant results == MatchAll(query, paths[..i])
    {
      assert paths[..i + 1][..i] == paths[..i];
      var r := MatchOne(query, paths[i]);
      if r.Some? { results := results + [r.value]; }
    }
    assert paths[..|paths|] == paths;
    results := Slice(SortByScore(results), limit);
  }

  /** One turn of the loop: the basename first, then the whole path. */
  method MatchOne(query: string, path: string) returns (r: Option<FuzzyResult>)
    ensures r == MatchPath(query, path)
  {
    hide Greedy, Score, BasenameScore, PathScore, MatchPath, LowerAll;
    MatchPathIs(query, path);
    var lowerQuery := LowerAll(query);
    var basename := path[BasenameStart(path)..];
    var basenameResult := MatchString(lowerQuery, LowerAll(basename));
    if basenameResult.Some? {
      return Some(FuzzyResult(path, basenameResult.value.score + 100, basenameResult.value.indices));
    }
    var pathResult := MatchString(lowerQuery, LowerAll(path));
    if pathResult.Some? {
      var basenameMatches := InBasename(pathResult.value.indices, BasenameStart(path));
      return Some(FuzzyResult(path, pathResult.value.score, basenameMatches));
    }
    return None;
  }

  lemma MatchNamesPath(query: string, path: string)
    ensures MatchPath(query, path).Some? ==> MatchPath(query, path).value.path == path
  {
  }

  /** Before sorting, the results of some paths and of more paths stand in that order. */
  lemma {:induction false} MatchedInOrder(query: string, paths: seq<string>, more: seq<string>)
    ensures MatchAll(query, paths + more) == MatchAll(query, paths) + MatchAll(query, more)
  {
    hide MatchPath;
    if more == [] {
      assert paths + more == paths;
    } else {
      var init, last := more[..|more| - 1], more[|more| - 1];
      MatchedInOrder(query, paths, init);
      assert (paths + more)[..|paths + more| - 1] == paths + init;
    }
  }

  /** Before the limit, the results are exactly the results of the matching paths. */
  lemma {:induction false} AllMatchesListed(query: string, paths: seq<string>, r: FuzzyResult)
    ensures r in MatchAll(query, paths) <==>
      r.path in paths && MatchPath(query, r.path) == Some(r)
  {
    hide MatchPath;
    if paths != [] {
      MatchNamesPath(query, paths[|paths| - 1]);
      AllMatchesListed(query, paths[..|paths| - 1], r);
      assert paths == paths[..|paths| - 1] + [paths[|paths| - 1]];
    }
  }

  /** Cutting at a limit never drops a result that outscores a kept one. */
  lemma DroppedNeverOutscoresKept(query: string, paths: seq<string>, limit: int, i: nat, j: nat)
    requires var kept := Slice(SortByScore(MatchAll(query, paths)), limit);
      i < |kept| <= j < |SortByScore(MatchAll(query, paths))|
    ensures var sorted := SortByScore(MatchAll(query, paths));
      Slice(sorted, limit)[i] == sorted[i] && sorted[i].score >= sorted[j].score
  {
    hide MatchAll, SortByScore;
    SortFacts(MatchAll(query, paths), 0);
  }

  // ----- When basename matches always rank first -----

  /** No path-only match of the query reaches the score of a basename match. */
  ghost predicate BasenamesRankFirst(query: string) {
    forall p, q | BasenameScore(query, p).Some? && BasenameScore(query, q).None? && PathScore(query, q).Some? ::
      BasenameScore(query, p).value > PathScore(query, q).value
  }

  lemma ShortQueriesRankBasenamesFirst(query: string)
    requires |query| <= 6
    ensures BasenamesRankFirst(query)
  {
    forall p, q | BasenameScore(query, p).Some? && BasenameScore(query, q).None? && PathScore(query, q).Some?
      ensures BasenameScore(query, p).value > PathScore(query, q).value
    {
      ResultBounds(query, p);
      ResultBounds(query, q);
    }
  }

  /** The most a match of the query can score outside a basename: 20 points at the very start, 20 right after a
    separator of the query itself, 15 after a separator put in between. */
  function Ceiling(q: string): nat {
    if q == "" then 0
    else if |q| == 1 then 20
    else Ceiling(q[..|q| - 1]) + (if IsSeparator(q[|q| - 2]) then 20 else 15)
  }

  lemma {:induction false} ScoreCeiling(q: string, target: string, at: seq<nat>)
    requires Embeds(q, target, 0, at)
    ensures forall i | 0 <= i < |at| :: at[i] < |target|
    ensures Score(target, at) <= Ceiling(q)
  {
    if q != "" {
      var k := |q| - 1;
      assert Embeds(q[..k], target, 0, at[..k]);
      ScoreCeiling(q[..k], target, at[..k]);
      if k > 0 { assert at[k - 1] < at[k] && target[at[k - 1]] == q[k - 1]; } else { assert at[..k] == []; }
    }
  }

  /** A path that reaches the ceiling: a slash between characters, except after a separator. */
  function HighPath(q: string): string {
    if |q| <= 1 then q
    else HighPath(q[..|q| - 1]) + (if IsSeparator(q[|q| - 2]) then "" else "/") + [q[|q| - 1]]
  }

  /** Where the characters of the query are in it. */
  function HighAt(q: string): (at: seq<nat>)
    ensures |at| == |q|
  {
    if q == "" then [] else HighAt(q[..|q| - 1]) + [if |q| == 1 then 0 else |HighPath(q)| - 1]
  }

  /** Character `i` is placed to score the most. */
  ghost predicate PlacedHigh(q: string, path: string, at: seq<nat>, i: nat)
    requires i < |q| == |at|
  {
    && at[i] < |path| && path[at[i]] == q[i]
    && (i == 0 ==> at[i] == 0)
    && (i > 0 ==> at[i] == at[i - 1] + (if IsSeparator(q[i - 1]) then 1 else 2))
    && (i > 0 && !IsSeparator(q[i - 1]) ==> path[at[i] - 1] == '/')
  }

  ghost predicate High(q: string, path: string, at: seq<nat>) {
    |at| == |q| && forall i | 0 <= i < |q| :: PlacedHigh(q, path, at, i)
  }

  lemma PlacedStays(q: string, path: string, at: seq<nat>, i: nat, c: char, next: nat, more: string)
    requires i < |q| == |at| && PlacedHigh(q, path, at, i)
    ensures PlacedHigh(q + [c], path + more, at + [next], i)
  {
  }

  lemma LastPlacedHigh(q: string, path: string, at: seq<nat>, c: char, rest: string)
    requires q != "" && |at| == |q| && at[|q| - 1] + 1 == |path|
    ensures var gap := if IsSeparator(q[|q| - 1]) then "" else "/";
      PlacedHigh(q + [c], path + (gap + [c] + rest), at + [|path| + |gap|], |q|)
  {
    var gap := if IsSeparator(q[|q| - 1]) then "" else "/";
    assert (path + (gap + [c] + rest))[|path| + |gap|] == (gap + [c] + rest)[|gap|] == c;
  }

  lemma HighOneMore(q: string, path: string, at: seq<nat>, c: char, rest: string)
    requires High(q, path, at) && q != "" && at[|q| - 1] + 1 == |path|
    ensures var gap := if IsSeparator(q[|q| - 1]) then "" else "/";
      High(q + [c], path + (gap + [c] + rest), at + [|path| + |gap|])
  {
    hide PlacedHigh;
    var gap := if IsSeparator(q[|q| - 1]) then "" else "/";
    LastPlacedHigh(q, path, at, c, rest);
    var longer, further, places := q + [c], path + (gap + [c] + rest), at + [|path| + |gap|];
    forall i | 0 <= i < |q| ensures PlacedHigh(longer, further, places, i) {
      PlacedStays(q, path, at, i, c, |path| + |gap|, gap + [c] + rest);
    }
  }

  lemma {:induction false} HighPathIsHigh(q: string, rest: string)
    ensures High(q, HighPath(q) + rest, HighAt(q))
    ensures q != "" ==> HighPath(q) != "" && HighAt(q)[|q| - 1] + 1 == |HighPath(q)|
  {
    if |q| <= 1 {
      assert q != "" ==> PlacedHigh(q, q + rest, [0], 0);
    } else {
      hide High;
      var init, c := q[..|q| - 1], q[|q| - 1];
      var path, gap := HighPath(init), if IsSeparator(q[|q| - 2]) then "" else "/";
      HighPathIsHigh(init, "");
      assert path + "" == path && init[|init| - 1] == q[|q| - 2];
      HighOneMore(init, path, HighAt(init), c, rest);
      assert init + [c] == q;
      assert path + (gap + [c] + rest) == HighPath(q) + rest;
    }
  }

  lemma {:induction false} HighPathHolds(q: string, i: nat)
    requires i < |HighPath(q)|
    ensures HighPath(q)[i] == '/' || HighPath(q)[i] in q
  {
    if |q| > 1 {
      var init := q[..|q| - 1];
      if i < |HighPath(init)| {
        HighPathHolds(init, i);
        assert forall c | c in init :: c in q;
      }
    }
  }

  lemma HighPoints(q: string, path: string, at: seq<nat>, k: nat)
    requires High(q, path, at) && k < |q|
    ensures at[k] < |path|
    ensures Points(path, at[..k], at[k]) == (if k == 0 then 20 else if IsSeparator(q[k - 1]) then 20 else 15)
  {
    assert PlacedHigh(q, path, at, k);
    if k > 0 {
      assert PlacedHigh(q, path, at, k - 1);
      assert at[..k][|at[..k]| - 1] == at[k - 1];
    } else {
      assert at[..k] == [];
    }
  }

  lemma {:induction false} HighScore(q: string, path: string, at: seq<nat>, n: nat)
    requires High(q, path, at) && n <= |q|
    ensures forall i | 0 <= i < n :: at[..n][i] < |path|
    ensures Score(path, at[..n]) == Ceiling(q[..n])
  {
    hide Points;
    if n > 0 {
      HighScore(q, path, at, n - 1);
      HighPoints(q, path, at, n - 1);
      assert at[..n][..n - 1] == at[..n - 1] && q[..n][..n - 1] == q[..n - 1];
    }
  }

  lemma {:induction false} HighIncreases(q: string, path: string, at: seq<nat>, i: nat, j: nat)
    requires High(q, path, at) && i < j < |q|
    ensures at[i] < at[j]
  {
    assert PlacedHigh(q, path, at, j);
    if i < j - 1 { HighIncreases(q, path, at, i, j - 1); }
  }

  lemma HighAtIndex(q: string, path: string, at: seq<nat>, i: nat)
    requires High(q, path, at) && i < |q|
    ensures |at| == |q| && PlacedHigh(q, path, at, i)
  {
  }

  lemma {:induction false} HighIsLeftmost(q: string, path: string, at: seq<nat>, g: seq<nat>, i: nat)
    requires High(q, path, at) && Embeds(q, path, 0, g) && '/' !in q && i < |q|
    ensures g[i] >= at[i]
  {
    hide High;
    HighAtIndex(q, path, at, i);
    if i > 0 {
      HighIsLeftmost(q, path, at, g, i - 1);
      assert g[i - 1] < g[i] && path[g[i]] == q[i];
    }
  }

  lemma HighIsChosen(q: string, path: string, at: seq<nat>)
    requires High(q, path, at) && '/' !in q
    ensures Greedy(q, path, 0) == Some(at)
  {
    hide Greedy, High;
    assert Embeds(q, path, 0, at) by { HighEmbeds(q, path, at); }
    GreedyIsLeftmost(q, path, 0, at);
    var g := Greedy(q, path, 0).value;
    forall i | 0 <= i < |q| ensures g[i] == at[i] { HighIsLeftmost(q, path, at, g, i); }
    assert g == at;
  }

  lemma HighEmbeds(q: string, path: string, at: seq<nat>)
    requires High(q, path, at)
    ensures Embeds(q, path, 0, at)
  {
    forall i, j | 0 <= i < j < |at| ensures at[i] < at[j] { HighIncreases(q, path, at, i, j); }
    forall i | 0 <= i < |at| ensures at[i] < |path| && path[at[i]] == q[i] { HighAtIndex(q, path, at, i); }
  }

  /** Something other than the character, neither a separator nor upper case. */
  function Filler(c: char): char { if c == 'x' then 'y' else 'x' }

  /** A name in which every character earns the least: each is preceded by a filler. */
  function LowName(q: string): (name: string)
    ensures |name| == 2 * |q|
  {
    seq(2 * |q|, i requires 0 <= i < 2 * |q| => if i % 2 == 0 then Filler(q[i / 2]) else q[i / 2])
  }

  function OddPlaces(n: nat): (at: seq<nat>)
    ensures |at| == n
  {
    seq(n, i requires 0 <= i < n => 2 * i + 1)
  }

  lemma LowNameAt(q: string, i: nat)
    requires i < |q|
    ensures LowName(q)[2 * i] == Filler(q[i]) && LowName(q)[2 * i + 1] == q[i]
  {
    assert (2 * i + 1) / 2 == i && (2 * i + 1) % 2 == 1;
  }

  lemma {:induction false} LowScore(q: string, n: nat)
    requires n <= |q|
    ensures forall i | 0 <= i < n :: OddPlaces(n)[i] < |LowName(q)|
    ensures Score(LowName(q), OddPlaces(n)) == 5 * n
  {
    hide LowName;
    if n > 0 {
      LowScore(q, n - 1);
      LowNameAt(q, n - 1);
      assert OddPlaces(n)[..n - 1] == OddPlaces(n - 1);
    }
  }

  lemma {:induction false} LowIsLeftmost(q: string, g: seq<nat>, i: nat)
    requires Embeds(q, LowName(q), 0, g) && i < |q|
    ensures g[i] >= 2 * i + 1
  {
    hide LowName;
    if i > 0 {
      LowIsLeftmost(q, g, i - 1);
      assert g[i - 1] < g[i];
    }
    LowNameAt(q, i);
    assert LowName(q)[g[i]] == q[i];
  }

  lemma LowIsChosen(q: string)
    ensures Greedy(q, LowName(q), 0) == Some(OddPlaces(|q|))
  {
    hide Greedy, LowName;
    var at := OddPlaces(|q|);
    forall i | 0 <= i < |q| ensures at[i] < |LowName(q)| && LowName(q)[at[i]] == q[i] { LowNameAt(q, i); }
    assert Embeds(q, LowName(q), 0, at);
    GreedyIsLeftmost(q, LowName(q), 0, at);
    var g := Greedy(q, LowName(q), 0).value;
    forall i | 0 <= i < |q| ensures g[i] == at[i] { LowIsLeftmost(q, g, i); }
    assert g == at;
  }

  lemma LowerUnchanged(s: string)
    requires forall i | 0 <= i < |s| :: Lower(s[i]) == s[i]
    ensures LowerAll(s) == s
  {
    assert forall i | 0 <= i < |s| :: LowerAll(s)[i] == s[i];
  }

  lemma NoSlashNoDirectory(path: string)
    requires forall i | 0 <= i < |path| :: path[i] != '/'
    ensures Basename(path) == path
  {
    assert BasenameStart(path) == 0;
  }

  /** A path's scores from the positions of the greedy choice. */
  lemma ScoresFrom(query: string, path: string, at: seq<nat>)
    requires LowerAll(path) == path
    requires Greedy(LowerAll(query), path, 0) == Some(at)
    ensures forall i | 0 <= i < |at| :: at[i] < |path|
    ensures PathScore(query, path) == Some(Score(path, at))
    ensures Basename(path) == path ==> BasenameScore(query, path) == Some(Score(path, at) + 100)
    ensures Basename(path) == [] && query != [] ==> BasenameScore(query, path) == None
  {
    hide Greedy, Score, LowerAll, Basename;
    IndicesInRange(LowerAll(query), path);
    if query != [] { GreedyNeedsRoom(LowerAll(query)); }
  }

  lemma GreedyNeedsRoom(query: string)
    requires query != []
    ensures LowerAll([]) == [] && Greedy(query, [], 0) == None
  {
  }

  /** A lower-case name without directory. */
  ghost predicate PlainName(name: string) { forall i | 0 <= i < |name| :: Lower(name[i]) == name[i] && name[i] != '/' }

  lemma LowNameIsPlain(query: string)
    requires '/' !in LowerAll(query)
    ensures PlainName(LowName(LowerAll(query)))
  {
    hide LowName;
    var q := LowerAll(query);
    var name := LowName(q);
    forall i | 0 <= i < |name| ensures Lower(name[i]) == name[i] && name[i] != '/' {
      LowNameAt(q, i / 2);
      assert q[i / 2] == Lower(query[i / 2]);
      assert i == 2 * (i / 2) || i == 2 * (i / 2) + 1;
    }
  }

  lemma HighPathIsPlain(query: string)
    ensures var path := HighPath(LowerAll(query)) + "/"; forall i | 0 <= i < |path| :: Lower(path[i]) == path[i]
  {
    hide HighPath;
    var q := LowerAll(query);
    var path := HighPath(q) + "/";
    forall i | 0 <= i < |path| ensures Lower(path[i]) == path[i] {
      if i < |path| - 1 {
        HighPathHolds(q, i);
        if path[i] != '/' {
          var k :| 0 <= k < |q| && q[k] == path[i];
          assert q[k] == Lower(query[k]);
        }
      }
    }
  }

  /** The least score of a basename match, attained. */
  lemma LowNameScores(query: string)
    requires '/' !in LowerAll(query)
    ensures var score := BasenameScore(query, LowName(LowerAll(query))); score.Some? && score.value == 5 * |query| + 100
  {
    hide *;
    var q, n := LowerAll(query), |query|;
    assert |q| == n;
    LowNameIsPlain(query);
    NameScores(query, LowName(q), OddPlaces(n), 5 * n) by {
      LowIsChosen(q);
      LowScore(q, |q|);
    }
  }

  lemma NameScores(query: string, name: string, at: seq<nat>, score: int)
    requires PlainName(name)
    requires Greedy(LowerAll(query), name, 0) == Some(at)
    requires (forall i | 0 <= i < |at| :: at[i] < |name|) && Score(name, at) == score
    ensures BasenameScore(query, name).Some? && BasenameScore(query, name).value == score + 100
  {
    hide Greedy, Score, BasenameScore, PathScore, Basename;
    LowerUnchanged(name);
    NoSlashNoDirectory(name);
    ScoresFrom(query, name, at);
  }

  /** The greatest score of a path-only match, attained. */
  lemma HighPathScores(query: string)
    requires query != "" && '/' !in LowerAll(query)
    ensures var path := HighPath(LowerAll(query)) + "/";
      BasenameScore(query, path) == None && PathScore(query, path) == Some(Ceiling(LowerAll(query)))
  {
    hide Greedy, Score, BasenameScore, PathScore, HighPath, HighAt, Ceiling, High, LowerAll;
    var q := LowerAll(query);
    var path, at := HighPath(q) + "/", HighAt(q);
    HighPathIsPlain(query);
    LowerUnchanged(path);
    HighPathIsHigh(q, "/");
    HighIsChosen(q, path, at);
    assert path[|path| - 1] == '/' && Basename(path) == [];
    ScoresFrom(query, path, at);
    HighScore(q, path, at, |q|);
    assert q[..|q|] == q && at[..|q|] == at;
  }

  /** For every single query: its basename matches outrank all others exactly if it contains a slash, and so has no
    basename match, or even the best match elsewhere scores less than the poorest basename match. */
  lemma RankFirstIffCeiling(query: string)
    ensures BasenamesRankFirst(query) <==> '/' in LowerAll(query) || Ceiling(LowerAll(query)) < 5 * |query| + 100
  {
    hide BasenameScore, PathScore, Ceiling, LowName, HighPath, LowerAll;
    var q := LowerAll(query);
    if '/' in q || Ceiling(q) < 5 * |query| + 100 {
      forall p, r | BasenameScore(query, p).Some? && BasenameScore(query, r).None? && PathScore(query, r).Some?
        ensures BasenameScore(query, p).value > PathScore(query, r).value
      {
        SlashIsNoName(query, p);
        BasenameAtLeast(query, p);
        PathAtMost(query, r);
      }
    } else if BasenamesRankFirst(query) {
      if query != "" {
        LowNameScores(query);
        HighPathScores(query);
      } else {
        EmptyCeiling();
      }
    }
  }

  lemma EmptyCeiling()
    ensures LowerAll("") == "" && Ceiling("") == 0
  {
  }

  lemma SlashIsNoName(query: string, path: string)
    requires BasenameScore(query, path).Some?
    ensures '/' !in LowerAll(query)
  {
    var q, base := LowerAll(query), LowerAll(Basename(path));
    GreedyIsLeftmost(q, base, 0, []);
    var at := Greedy(q, base, 0).value;
    forall i | 0 <= i < |q| ensures q[i] != '/' {
      assert base[at[i]] == q[i];
      assert base[at[i]] == Lower(Basename(path)[at[i]]);
    }
  }

  lemma BasenameAtLeast(query: string, path: string)
    requires BasenameScore(query, path).Some?
    ensures BasenameScore(query, path).value >= 5 * |query| + 100
  {
    hide Greedy, Score, Basename;
    var q, base := LowerAll(query), LowerAll(Basename(path));
    GreedyIsLeftmost(q, base, 0, []);
    ScoreBounds(base, Greedy(q, base, 0).value);
  }

  lemma PathAtMost(query: string, path: string)
    requires PathScore(query, path).Some?
    ensures PathScore(query, path).value <= Ceiling(LowerAll(query))
  {
    hide Greedy, Score, Ceiling;
    var q, full := LowerAll(query), LowerAll(path);
    GreedyIsLeftmost(q, full, 0, []);
    ScoreCeiling(q, full, Greedy(q, full, 0).value);
  }

  /** Separators that another character follows. */
  function InnerSeparators(query: string): nat {
    if |query| <= 1 then 0
    else InnerSeparators(query[..|query| - 1]) + (if IsSeparator(query[|query| - 2]) then 1 else 0)
  }

  lemma {:induction false} CeilingIs(query: string)
    requires query != ""
    ensures Ceiling(LowerAll(query)) == 15 * |query| + 5 + 5 * InnerSeparators(query)
  {
    var k := |query| - 1;
    if k > 0 {
      CeilingIs(query[..k]);
      assert LowerAll(query)[..k] == LowerAll(query[..k]);
      assert LowerAll(query)[k - 1] == Lower(query[k - 1]);
    }
  }

  lemma SlashIff(query: string)
    ensures '/' in LowerAll(query) <==> '/' in query
  {
    var q := LowerAll(query);
    assert forall i | 0 <= i < |query| :: q[i] == Lower(query[i]) && (q[i] == '/' <==> query[i] == '/');
    if k :| 0 <= k < |query| && query[k] == '/' { assert q[k] == '/'; }
    if k :| 0 <= k < |q| && q[k] == '/' { assert query[k] == '/'; }
  }

  /** The guarantee for one query, from its length and its separators: up to six characters always, up to nine with
    few separators, ten and more never. */
  lemma BasenamesRankFirstIff(query: string)
    ensures BasenamesRankFirst(query) <==> '/' in query || 2 * |query| + InnerSeparators(query) < 19
  {
    hide BasenamesRankFirst, LowerAll, Ceiling;
    RankFirstIffCeiling(query);
    SlashIff(query);
    if query == "" { EmptyCeiling(); } else { CeilingIs(query); }
  }

  lemma {:induction false} InnerSeparatorsAtMost(query: string)
    ensures query != "" ==> InnerSeparators(query) < |query|
    ensures query != "" && (forall i | 0 <= i < |query| :: query[i] == '-') ==> InnerSeparators(query) == |query| - 1
  {
    if |query| > 1 { InnerSeparatorsAtMost(query[..|query| - 1]); }
  }

  /** Six characters are exactly how far the guarantee reaches for all queries of a length. */
  lemma AllRankFirstIff(n: nat)
    requires 1 <= n
    ensures (forall query | |query| == n :: BasenamesRankFirst(query)) <==> n <= 6
  {
    hide BasenamesRankFirst;
    if n <= 6 {
      forall query: string | |query| == n ensures BasenamesRankFirst(query) {
        BasenamesRankFirstIff(query);
        InnerSeparatorsAtMost(query);
      }
    } else {
      var dashes := seq(n, i => '-');
      BasenamesRankFirstIff(dashes);
      InnerSeparatorsAtMost(dashes);
      assert |dashes| == n && !BasenamesRankFirst(dashes);
    }
  }
}
