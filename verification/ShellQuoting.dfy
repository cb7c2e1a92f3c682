/** Quoting for the shell, undone by the shell's own rules.

  The reference point is a token recogniser after POSIX.1-2017, Shell Command Language, sections 2.2.1
  to 2.2.3 (escape character, single-quotes, double-quotes) and 2.3 (token recognition). */
module ShellQuoting {
  import opened Wrappers

  // ----- The shell's side -----

  datatype Token = Word(text: string) | Operator(text: string)

  datatype Mode = Plain | Single | Double

  predicate IsBlank(c: char) { c == ' ' || c == '\t' }

  /** Characters that a backslash escapes inside double-quotes. */
  predicate IsEscapedInDouble(c: char) { c in "$`\"\\\n" }

  /** The length of the longest control or redirection operator at the start of the input, or 0. */
  function OperatorLength(s: string): (n: nat)
    ensures n <= |s|
  {
    if s == [] then 0
    else if |s| >= 3 && s[..3] == "<<-" then 3
    else if |s| >= 2 && s[..2] in {"&&", "||", ";;", "<<", ">>", "<&", ">&", "<>", ">|"} then 2
    else if s[0] in "&|;<>()\n" then 1
    else 0
  }

  function Flush(word: Option<string>): seq<Token> {
    if word.Some? then [Word(word.value)] else []
  }

  function Prepend(tokens: seq<Token>, rest: Option<seq<Token>>): Option<seq<Token>> {
    if rest.Some? then Some(tokens + rest.value) else None
  }

  function Extend(word: Option<string>, text: string): (r: Option<string>)
    ensures r.Some?
  {
    Some((if word.Some? then word.value else "") + text)
  }

  function SkipComment(s: string): (r: string)
    ensures |r| <= |s|
  {
    if s == [] || s[0] == '\n' then s else SkipComment(s[1..])
  }

  /** Characters whose meaning outside quotation marks is not the shell's alone: expansions, and patterns that
    stand for whatever files there are. */
  predicate StartsExpansion(c: char) { c in "$`*?[" }

  /** The tokens of the remaining input, given the word so far.  Fails on an unterminated quotation and on what
    is outside these sections: expansions, patterns for file names, and a tilde at the start of a word. */
  function Lex(s: string, word: Option<string>, mode: Mode): Option<seq<Token>>
    decreases |s|
  {
    if s == [] then (if mode == Plain then Some(Flush(word)) else None)
    else
      var c, rest := s[0], s[1..];
      match mode
      case Single =>
        if c == '\'' then Lex(rest, word, Plain) else Lex(rest, Extend(word, [c]), Single)
      case Double =>
        if c == '"' then Lex(rest, word, Plain)
        else if c == '\\' && rest != [] && IsEscapedInDouble(rest[0]) then
          Lex(rest[1..], if rest[0] == '\n' then word else Extend(word, [rest[0]]), Double)
        else if c == '$' || c == '`' then None
        else Lex(rest, Extend(word, [c]), Double)
      case Plain =>
        if c == '\'' then Lex(rest, Extend(word, ""), Single)
        else if c == '"' then Lex(rest, Extend(word, ""), Double)
        else if c == '\\' then
          if rest == [] then None
          else if rest[0] == '\n' then Lex(rest[1..], word, Plain)
          else Lex(rest[1..], Extend(word, [rest[0]]), Plain)
        else if StartsExpansion(c) || (c == '~' && word.None?) then None
        else if OperatorLength(s) > 0 then
          Prepend(Flush(word) + [Operator(s[..OperatorLength(s)])], Lex(s[OperatorLength(s)..], None, Plain))
        else if IsBlank(c) then Prepend(Flush(word), Lex(rest, None, Plain))
        else if c == '#' && word.None? then Lex(SkipComment(rest), None, Plain)
        else Lex(rest, Extend(word, [c]), Plain)
  }

  function Tokens(s: string): Option<seq<Token>> { Lex(s, None, Plain) }

  // ----- The quoting functions -----

  function ReplaceQuotes(s: string, quoted: string): string {
    if s == [] then [] else (if s[0] == '\'' then quoted else [s[0]]) + ReplaceQuotes(s[1..], quoted)
  }

  /** Go: a quote closes, is put in double-quotes, and opens again. */
  function ShellEscape(s: string): string {
    "'" + ReplaceQuotes(s, "'\"'\"'") + "'"
  }

  predicate IsBareCharacter(c: char) {
    'a' <= c <= 'z' || 'A' <= c <= 'Z' || '0' <= c <= '9' || c in "_./@:-"
  }

  predicate IsBare(s: string) {
    s != [] && forall i | 0 <= i < |s| :: IsBareCharacter(s[i])
  }

  /** The terminal pane: harmless paths stay as they are; a quote closes, is escaped, and opens again. */
  function PathEscape(path: string): string {
    if IsBare(path) then path else "'" + ReplaceQuotes(path, "'\\''") + "'"
  }

  /** A path is left as it is exactly if it consists of letters, digits and a few harmless marks (97 is `a`, 65 `A`
    and 48 `0`). */
  lemma BarePathsStay(path: string)
    ensures PathEscape(path) == path <==>
      && path != ""
      && forall i | 0 <= i < |path| ::
           var code := path[i] as int;
           97 <= code < 97 + 26 || 65 <= code < 65 + 26 || 48 <= code < 48 + 10
           || path[i] in {'_', '.', '/', '@', ':', '-'}
  {
    if !IsBare(path) { QuotingIsLonger(path); }
  }

  lemma {:induction false} QuotingIsLonger(s: string)
    ensures |ReplaceQuotes(s, "'\\''")| >= |s|
  {
    if s != [] { QuotingIsLonger(s[1..]); }
  }

  function JoinedBy(words: seq<string>, sep: string): string {
    if words == [] then ""
    else if |words| == 1 then words[0]
    else words[0] + sep + JoinedBy(words[1..], sep)
  }

  function EscapedPaths(paths: seq<string>): seq<string> {
    seq(|paths|, i requires 0 <= i < |paths| => PathEscape(paths[i]))
  }

  function CommandLine(name: string, args: seq<string>): string {
    name + (if args == [] then "" else " " + JoinedBy(args, " "))
  }

  /** The command for a remote directory; no directory, no `cd`. */
  function BuildRemoteCommand(dir: string, name: string, args: seq<string>): string {
    if dir == "" then CommandLine(name, args)
    else "cd " + ShellEscape(dir) + " && " + CommandLine(name, args)
  }

  /** What is sent over the connection: the command as one argument of a login shell. */
  function LoginShellCommand(dir: string, name: string, args: seq<string>): string {
    "bash -lc " + ShellEscape(BuildRemoteCommand(dir, name, args))
  }

  // ----- Undoing one quotation, wherever it stands -----

  lemma ExtendTwice(word: Option<string>, a: string, b: string)
    ensures Extend(Extend(word, a), b) == Extend(word, a + b)
  {
    var before := if word.Some? then word.value else "";
    assert (before + a) + b == before + (a + b);
  }

  lemma ExtendByNothing(word: Option<string>)
    requires word.Some?
    ensures Extend(word, "") == word
  {
    assert word.value + "" == word.value;
  }

  lemma FirstExtension(text: string)
    ensures Extend(None, text) == Some(text)
  {
    assert "" + text == text;
  }

  lemma ReplaceStep(s: string, quoted: string)
    ensures s == [] ==> ReplaceQuotes(s, quoted) == ""
    ensures s != [] && s[0] == '\'' ==> ReplaceQuotes(s, quoted) == quoted + ReplaceQuotes(s[1..], quoted)
    ensures s != [] && s[0] != '\'' ==> ReplaceQuotes(s, quoted) == [s[0]] + ReplaceQuotes(s[1..], quoted)
  {
  }

  lemma CloseQuote(rest: string, word: Option<string>)
    ensures Lex("'" + rest, word, Single) == Lex(rest, word, Plain)
  {
    assert ("'" + rest)[1..] == rest;
  }

  lemma OpenQuote(rest: string, word: Option<string>)
    ensures Lex("'" + rest, word, Plain) == Lex(rest, Extend(word, ""), Single)
  {
    assert ("'" + rest)[1..] == rest;
  }

  lemma QuotedCharacter(c: char, rest: string, word: Option<string>)
    requires c != '\''
    ensures Lex([c] + rest, word, Single) == Lex(rest, Extend(word, [c]), Single)
  {
    assert ([c] + rest)[1..] == rest;
  }

  /** Inside single-quotes: the replaced text and the closing quote amount to the text. */
  lemma {:induction false} LexInsideGoQuotes(s: string, rest: string, word: Option<string>)
    requires word.Some?
    ensures Lex(ReplaceQuotes(s, "'\"'\"'") + "'" + rest, word, Single) == Lex(rest, Extend(word, s), Plain)
  {
    hide Lex, Extend, ReplaceQuotes;
    if s == [] {
      assert ReplaceQuotes(s, "'\"'\"'") + "'" + rest == "'" + rest by { ReplaceStep(s, "'\"'\"'"); }
      CloseQuote(rest, word);
      ExtendByNothing(word);
    } else {
      var c, tail := s[0], ReplaceQuotes(s[1..], "'\"'\"'") + "'" + rest;
      ReplaceStep(s, "'\"'\"'");
      assert s == [c] + s[1..];
      LexInsideGoQuotes(s[1..], rest, Extend(word, [c]));
      ExtendTwice(word, [c], s[1..]);
      if c == '\'' {
        assert ReplaceQuotes(s, "'\"'\"'") + "'" + rest == "'\"'\"'" + tail;
        assert [c] == "'";
        LexGoQuote(tail, word);
      } else {
        assert ReplaceQuotes(s, "'\"'\"'") + "'" + rest == [c] + tail;
        QuotedCharacter(c, tail, word);
      }
    }
  }

  lemma QuoteInDoubleQuotes(rest: string, word: Option<string>)
    requires word.Some?
    ensures Lex("\"'\"" + rest, word, Plain) == Lex(rest, Extend(word, "'"), Plain)
  {
    assert ("\"'\"" + rest)[1..] == "'\"" + rest;
    ExtendByNothing(word);
    assert Lex("\"'\"" + rest, word, Plain) == Lex("'\"" + rest, word, Double);
    assert ("'\"" + rest)[1..] == "\"" + rest;
    assert Lex("'\"" + rest, word, Double) == Lex("\"" + rest, Extend(word, "'"), Double);
    assert ("\"" + rest)[1..] == rest;
  }

  /** Close, a double-quoted quote, open: one quote character. */
  lemma LexGoQuote(tail: string, word: Option<string>)
    requires word.Some?
    ensures Lex("'\"'\"'" + tail, word, Single) == Lex(tail, Extend(word, "'"), Single)
  {
    hide Lex, Extend;
    var reopened := "'" + tail;
    assert "'\"'\"'" + tail == "'" + ("\"'\"" + reopened);
    CloseQuote("\"'\"" + reopened, word);
    QuoteInDoubleQuotes(reopened, word);
    OpenQuote(tail, Extend(word, "'"));
    ExtendByNothing(Extend(word, "'"));
  }

  lemma {:induction false} LexInsidePathQuotes(s: string, rest: string, word: Option<string>)
    requires word.Some?
    ensures Lex(ReplaceQuotes(s, "'\\''") + "'" + rest, word, Single) == Lex(rest, Extend(word, s), Plain)
  {
    hide Lex, Extend, ReplaceQuotes;
    if s == [] {
      assert ReplaceQuotes(s, "'\\''") + "'" + rest == "'" + rest by { ReplaceStep(s, "'\\''"); }
      CloseQuote(rest, word);
      ExtendByNothing(word);
    } else {
      var c, tail := s[0], ReplaceQuotes(s[1..], "'\\''") + "'" + rest;
      ReplaceStep(s, "'\\''");
      assert s == [c] + s[1..];
      LexInsidePathQuotes(s[1..], rest, Extend(word, [c]));
      ExtendTwice(word, [c], s[1..]);
      if c == '\'' {
        assert ReplaceQuotes(s, "'\\''") + "'" + rest == "'\\''" + tail;
        assert [c] == "'";
        LexPathQuote(tail, word);
      } else {
        assert ReplaceQuotes(s, "'\\''") + "'" + rest == [c] + tail;
        QuotedCharacter(c, tail, word);
      }
    }
  }

  /** Close, an escaped quote, open: one quote character. */
  lemma LexPathQuote(tail: string, word: Option<string>)
    requires word.Some?
    ensures Lex("'\\''" + tail, word, Single) == Lex(tail, Extend(word, "'"), Single)
  {
    var quoted := "\\'" + ("'" + tail);
    assert "'\\''" + tail == "'" + quoted;
    CloseQuote(quoted, word);
    assert quoted[1..] == "'" + ("'" + tail);
    assert quoted[1..][1..] == "'" + tail;
    OpenQuote(tail, Extend(word, "'"));
    ExtendByNothing(Extend(word, "'"));
  }

  /** A quoted string adds exactly its text to the current word. */
  lemma LexEscaped(s: string, rest: string, word: Option<string>)
    ensures Lex(ShellEscape(s) + rest, word, Plain) == Lex(rest, Extend(word, s), Plain)
  {
    hide Lex, Extend, ReplaceQuotes;
    var inner := ReplaceQuotes(s, "'\"'\"'") + "'" + rest;
    assert ShellEscape(s) + rest == "'" + inner;
    OpenQuote(inner, word);
    LexInsideGoQuotes(s, rest, Extend(word, ""));
    ExtendTwice(word, "", s);
    assert "" + s == s;
  }

  lemma {:induction false} LexBare(s: string, rest: string, word: Option<string>)
    requires forall i | 0 <= i < |s| :: IsBareCharacter(s[i])
    ensures s != [] ==> Lex(s + rest, word, Plain) == Lex(rest, Extend(word, s), Plain)
  {
    if s != [] {
      assert (s + rest)[1..] == s[1..] + rest;
      assert OperatorLength(s + rest) == 0 by { BareIsNoOperator(s + rest); }
      assert s == [s[0]] + s[1..];
      ExtendTwice(word, [s[0]], s[1..]);
      if |s| > 1 {
        LexBare(s[1..], rest, Extend(word, [s[0]]));
      } else {
        assert s[1..] == [] && [] + rest == rest && [s[0]] == s;
      }
    }
  }

  lemma BareIsNoOperator(s: string)
    requires s != [] && IsBareCharacter(s[0])
    ensures OperatorLength(s) == 0
  {
    assert |s| >= 3 ==> s[..3][0] == s[0];
    assert |s| >= 2 ==> s[..2][0] == s[0];
    assert forall op | op in {"&&", "||", ";;", "<<", ">>", "<&", ">&", "<>", ">|"} :: op[0] in "&|;<>";
  }

  lemma LexEscapedPath(path: string, rest: string, word: Option<string>)
    ensures Lex(PathEscape(path) + rest, word, Plain) == Lex(rest, Extend(word, path), Plain)
  {
    hide Lex, Extend, ReplaceQuotes;
    if IsBare(path) {
      LexBare(path, rest, word);
    } else {
      var inner := ReplaceQuotes(path, "'\\''") + "'" + rest;
      assert PathEscape(path) + rest == "'" + inner;
      OpenQuote(inner, word);
      LexInsidePathQuotes(path, rest, Extend(word, ""));
      ExtendTwice(word, "", path);
      assert "" + path == path;
    }
  }

  lemma LexBlank(rest: string, word: Option<string>)
    ensures Lex(" " + rest, word, Plain) == Prepend(Flush(word), Lex(rest, None, Plain))
  {
    assert (" " + rest)[1..] == rest;
    assert OperatorLength(" " + rest) == 0 by {
      assert |rest| >= 2 ==> (" " + rest)[..3][0] == ' ';
      assert |rest| >= 1 ==> (" " + rest)[..2][0] == ' ';
      assert forall op | op in {"&&", "||", ";;", "<<", ">>", "<&", ">&", "<>", ">|"} :: op[0] in "&|;<>";
    }
  }

  lemma LexAnd(rest: string, word: Option<string>)
    ensures Lex("&& " + rest, word, Plain) == Prepend(Flush(word) + [Operator("&&")], Lex(rest, None, Plain))
  {
    var s := "&& " + rest;
    assert s[..2] == "&&";
    assert s[..3][0] == '&';
    assert OperatorLength(s) == 2;
    assert s[2..] == " " + rest;
    LexBlank(rest, None);
    var more := Lex(rest, None, Plain);
    if more.Some? { assert [] + more.value == more.value; }
  }

  // ----- Round trips -----

  /** For every string: its quoted form is one word, and the word is the string. */
  lemma EscapeRoundTrip(s: string)
    ensures Tokens(ShellEscape(s)) == Some([Word(s)])
    ensures Tokens(PathEscape(s)) == Some([Word(s)])
  {
    hide Extend, ShellEscape, PathEscape;
    LexEscaped(s, "", None);
    LexEscapedPath(s, "", None);
    assert ShellEscape(s) + "" == ShellEscape(s);
    assert PathEscape(s) + "" == PathEscape(s);
    FirstExtension(s);
  }

  /** Different strings have different quoted forms. */
  lemma EscapeIsInjective(s: string, t: string)
    requires ShellEscape(s) == ShellEscape(t) || PathEscape(s) == PathEscape(t)
    ensures s == t
  {
    EscapeRoundTrip(s);
    EscapeRoundTrip(t);
  }

  lemma NoTokens()
    ensures Tokens("") == Some([])
  {
  }

  function Words(texts: seq<string>): seq<Token> {
    seq(|texts|, i requires 0 <= i < |texts| => Word(texts[i]))
  }

  /** The space-joined list of quoted paths reads back as the list, for any paths. */
  lemma {:induction false} PathListRoundTrip(paths: seq<string>)
    ensures Tokens(JoinedBy(EscapedPaths(paths), " ")) == Some(Words(paths))
  {
    hide Lex, Extend, PathEscape, IsBare;
    if |paths| == 0 {
      NoTokens();
    } else if |paths| == 1 {
      EscapeRoundTrip(paths[0]);
      assert Words(paths) == [Word(paths[0])];
    } else {
      var rest := JoinedBy(EscapedPaths(paths[1..]), " ");
      assert EscapedPaths(paths)[1..] == EscapedPaths(paths[1..]);
      PathListRoundTrip(paths[1..]);
      assert JoinedBy(EscapedPaths(paths), " ") == PathEscape(paths[0]) + (" " + rest);
      LexEscapedPath(paths[0], " " + rest, None);
      FirstExtension(paths[0]);
      LexBlank(rest, Some(paths[0]));
      assert [Word(paths[0])] + Words(paths[1..]) == Words(paths);
    }
  }

  /** A `cd` to the directory, and the remaining tokens only if that works. */
  function CdThen(dir: string, rest: Option<seq<Token>>): Option<seq<Token>> {
    Prepend([Word("cd"), Word(dir), Operator("&&")], rest)
  }

  /** The remote command changes to exactly the given directory and then is the given command line. */
  lemma RemoteCommandParses(dir: string, name: string, args: seq<string>)
    ensures dir == "" ==> Tokens(BuildRemoteCommand(dir, name, args)) == Tokens(CommandLine(name, args))
    ensures dir != "" ==> Tokens(BuildRemoteCommand(dir, name, args)) == CdThen(dir, Tokens(CommandLine(name, args)))
  {
    hide Lex, Extend, ShellEscape, CommandLine;
    if dir != "" {
      var line := CommandLine(name, args);
      var afterDir := " " + ("&& " + line);
      var afterCd := " " + (ShellEscape(dir) + afterDir);
      assert BuildRemoteCommand(dir, name, args) == "cd" + afterCd;
      LexBare("cd", afterCd, None);
      FirstExtension("cd");
      LexBlank(ShellEscape(dir) + afterDir, Some("cd"));
      LexEscaped(dir, afterDir, None);
      FirstExtension(dir);
      LexBlank("&& " + line, Some(dir));
      LexAnd(line, None);
      var more := Tokens(line);
      if more.Some? {
        assert [Word("cd")] + ([Word(dir)] + ([] + [Operator("&&")] + more.value))
            == [Word("cd"), Word(dir), Operator("&&")] + more.value;
      }
    }
  }

  /** Two levels: the login shell gets exactly three words, the last of which, read again, is the remote
    command; so the directory arrives as it was given, whatever it contains. */
  lemma LoginShellUnquotesTwice(dir: string, name: string, args: seq<string>)
    ensures Tokens(LoginShellCommand(dir, name, args))
         == Some([Word("bash"), Word("-lc"), Word(BuildRemoteCommand(dir, name, args))])
    ensures dir != "" ==> Tokens(BuildRemoteCommand(dir, name, args)) == CdThen(dir, Tokens(CommandLine(name, args)))
  {
    hide Lex, Extend, ShellEscape, BuildRemoteCommand;
    var inner := BuildRemoteCommand(dir, name, args);
    RemoteCommandParses(dir, name, args);
    var afterFlag := " " + ShellEscape(inner);
    var afterBash := " " + ("-lc" + afterFlag);
    assert LoginShellCommand(dir, name, args) == "bash" + afterBash;
    LexBare("bash", afterBash, None);
    FirstExtension("bash");
    LexBlank("-lc" + afterFlag, Some("bash"));
    LexBare("-lc", afterFlag, None);
    FirstExtension("-lc");
    LexBlank(ShellEscape(inner), Some("-lc"));
    EscapeRoundTrip(inner);
    assert [Word("bash")] + ([Word("-lc")] + [Word(inner)]) == [Word("bash"), Word("-lc"), Word(inner)];
  }
}
