/** Command lines whose words are joined without quoting: which words arrive as they are. */
module ShellArguments {
  import opened Wrappers
  import opened ShellQuoting

  predicate StartsOperator(c: char) { c in "&|;<>()\n" }

  /** Characters that mean something to the shell wherever they stand. */
  predicate IsActive(c: char) { c in "'\"\\$`*?[&|;<>()\n \t" }

  /** A word that is safe without quotes: not empty, no comment, no home directory, nothing active. */
  predicate Harmless(word: string) {
    word != "" && word[0] !in "#~" && forall i | 0 <= i < |word| :: !IsActive(word[i])
  }

  ghost predicate AllWords(tokens: seq<Token>) { forall t | t in tokens :: t.Word? }

  /** What a reading of words amounts to: their characters, and one separator each. */
  ghost function Weight(tokens: seq<Token>): nat {
    if tokens == [] then 0 else |tokens[0].text| + 1 + Weight(tokens[1..])
  }

  /** The most that can still be read, given the word so far. */
  ghost function Capacity(s: string, word: Option<string>): nat {
    |s| + 1 + (if word.Some? then |word.value| else 0)
  }

  lemma OperatorIff(s: string)
    ensures OperatorLength(s) > 0 <==> s != "" && StartsOperator(s[0])
    ensures s != "" ==> OperatorLength(s) > 0 ==> |s[OperatorLength(s)..]| < |s|
  {
    if s != "" {
      assert |s| >= 3 ==> s[..3][0] == s[0];
      assert |s| >= 2 ==> s[..2][0] == s[0];
      assert forall op | op in {"&&", "||", ";;", "<<", ">>", "<&", ">&", "<>", ">|"} :: op[0] in "&|;<>";
    }
  }

  lemma WeightOfFlushed(word: Option<string>, rest: seq<Token>)
    ensures Weight(Flush(word) + rest) == (if word.Some? then |word.value| + 1 else 0) + Weight(rest)
    ensures AllWords(Flush(word) + rest) ==> AllWords(rest)
  {
    if word.Some? {
      assert (Flush(word) + rest)[1..] == rest;
      assert forall t | t in rest :: t in Flush(word) + rest;
    } else {
      assert Flush(word) + rest == rest;
    }
  }

  lemma OperatorIsNoWord(word: Option<string>, op: string, rest: seq<Token>)
    ensures !AllWords(Flush(word) + [Operator(op)] + rest)
  {
    var tokens := Flush(word) + [Operator(op)] + rest;
    assert tokens[|Flush(word)|] == Operator(op);
    assert tokens[|Flush(word)|] in tokens;
  }

  ghost predicate Reads(s: string, word: Option<string>, mode: Mode) {
    Lex(s, word, mode).Some? && AllWords(Lex(s, word, mode).value)
  }

  /** One step inside quotation marks never gains anything. */
  lemma QuotedStep(s: string, word: Option<string>, mode: Mode)
    returns (rest: string, next: Option<string>, then_: Mode)
    requires s != "" && mode != Plain && Lex(s, word, mode).Some?
    ensures |rest| < |s| && Lex(s, word, mode) == Lex(rest, next, then_)
    ensures Capacity(rest, next) <= Capacity(s, word)
  {
    hide OperatorLength;
    var c := s[0];
    rest, next, then_ := s[1..], word, mode;
    if mode == Single {
      if c == '\'' { then_ := Plain; } else { next := Extend(word, [c]); }
    } else if c == '"' {
      then_ := Plain;
    } else if c == '\\' && rest != "" && IsEscapedInDouble(rest[0]) {
      if rest[0] != '\n' { next := Extend(word, [rest[0]]); }
      rest := rest[1..];
    } else {
      next := Extend(word, [c]);
    }
  }

  /** Outside quotation marks, quoting costs at least the quoting character. */
  lemma QuotingStep(s: string, word: Option<string>) returns (rest: string, next: Option<string>, then_: Mode)
    requires s != "" && s[0] in "'\"\\" && Lex(s, word, Plain).Some?
    ensures |rest| < |s| && Lex(s, word, Plain) == Lex(rest, next, then_)
    ensures Capacity(rest, next) < Capacity(s, word)
  {
    hide OperatorLength;
    rest, next, then_ := s[1..], word, Plain;
    if s[0] == '\'' {
      next, then_ := Extend(word, ""), Single;
    } else if s[0] == '"' {
      next, then_ := Extend(word, ""), Double;
    } else {
      if rest[0] != '\n' { next := Extend(word, [rest[0]]); }
      rest := rest[1..];
    }
  }

  /** The other steps outside quotation marks. */
  lemma PlainStep(s: string, word: Option<string>)
    requires s != "" && s[0] !in "'\"\\"
    ensures StartsExpansion(s[0]) || (s[0] == '~' && word.None?) ==> Lex(s, word, Plain).None?
    ensures StartsOperator(s[0]) ==> !Reads(s, word, Plain)
    ensures IsBlank(s[0]) ==> Lex(s, word, Plain) == Prepend(Flush(word), Lex(s[1..], None, Plain))
    ensures s[0] == '#' && word.None? ==> Lex(s, word, Plain) == Lex(SkipComment(s[1..]), None, Plain)
    ensures !IsActive(s[0]) && (s[0] in "#~" ==> word.Some?) ==>
      Lex(s, word, Plain) == Lex(s[1..], Extend(word, [s[0]]), Plain)
  {
    OperatorIff(s);
    if StartsOperator(s[0]) {
      hide OperatorLength;
      var n := OperatorLength(s);
      var rest := Lex(s[n..], None, Plain);
      if rest.Some? { OperatorIsNoWord(word, s[..n], rest.value); }
    }
  }

  /** No reading amounts to more than the line holds. */
  lemma {:induction false} WithinCapacity(s: string, word: Option<string>, mode: Mode)
    requires Reads(s, word, mode)
    ensures Weight(Lex(s, word, mode).value) <= Capacity(s, word)
    decreases |s|
  {
    if s == "" {
    } else if mode != Plain {
      hide Lex, Weight;
      var rest, next, then_ := QuotedStep(s, word, mode);
      WithinCapacity(rest, next, then_);
    } else if s[0] in "'\"\\" {
      hide Lex, Weight;
      var rest, next, then_ := QuotingStep(s, word);
      WithinCapacity(rest, next, then_);
    } else {
      hide Lex, Weight;
      PlainStep(s, word);
      if IsBlank(s[0]) {
        BlankWithin(s, word);
        WithinCapacity(s[1..], None, Plain);
      } else if s[0] == '#' && word.None? {
        WithinCapacity(SkipComment(s[1..]), None, Plain);
      } else {
        WithinCapacity(s[1..], Extend(word, [s[0]]), Plain);
      }
    }
  }

  lemma BlankWithin(s: string, word: Option<string>)
    requires s != "" && IsBlank(s[0]) && Reads(s, word, Plain)
    ensures Reads(s[1..], None, Plain)
    ensures Weight(Lex(s, word, Plain).value)
         == (if word.Some? then |word.value| + 1 else 0) + Weight(Lex(s[1..], None, Plain).value)
  {
    hide Lex, Weight;
    PlainStep(s, word);
    WeightOfFlushed(word, Lex(s[1..], None, Plain).value);
  }

  /** A line that is read in full loses nothing at its first character. */
  lemma FullReadingStartsHarmless(s: string, word: Option<string>)
    requires s != "" && Reads(s, word, Plain) && Weight(Lex(s, word, Plain).value) == Capacity(s, word)
    ensures s[0] !in "'\"\\" && !StartsExpansion(s[0]) && !StartsOperator(s[0])
    ensures word.None? ==> s[0] !in "#~" && !IsBlank(s[0])
  {
    hide Lex, Weight;
    if s[0] in "'\"\\" {
      var rest, next, then_ := QuotingStep(s, word);
      WithinCapacity(rest, next, then_);
    } else {
      PlainStep(s, word);
      if word.None? && s[0] == '#' {
        WithinCapacity(SkipComment(s[1..]), None, Plain);
      } else if word.None? && IsBlank(s[0]) {
        BlankWithin(s, word);
        WithinCapacity(s[1..], None, Plain);
      }
    }
  }

  /** If a full reading begins with the given text as its first word, the text holds nothing active. */
  lemma {:induction false} FullReadingTakes(text: string, rest: string, word: Option<string>)
    requires text != "" || word.Some?
    requires Reads(text + rest, word, Plain)
    requires Weight(Lex(text + rest, word, Plain).value) == Capacity(text + rest, word)
    requires Lex(text + rest, word, Plain).value != []
    requires Lex(text + rest, word, Plain).value[0] == Word(Extend(word, text).value)
    ensures forall i | 0 <= i < |text| :: !IsActive(text[i])
    ensures word.None? ==> text[0] !in "#~"
    ensures Lex(text + rest, word, Plain) == Lex(rest, Extend(word, text), Plain)
    decreases |text|
  {
    hide Lex, Weight;
    if text == "" {
      ExtendByNothing(word);
      assert text + rest == rest;
    } else {
      var s, c := text + rest, text[0];
      assert s[0] == c && s[1..] == text[1..] + rest;
      FullReadingStartsHarmless(s, word);
      PlainStep(s, word);
      if !IsBlank(c) {
        assert text == [c] + text[1..];
        ExtendTwice(word, [c], text[1..]);
        FullReadingTakes(text[1..], rest, Extend(word, [c]));
        assert forall i | 1 <= i < |text| :: text[i] == text[1..][i - 1];
      }
    }
  }

  lemma {:induction false} LexHarmless(text: string, rest: string, word: Option<string>)
    requires text != "" && (word.None? ==> text[0] !in "#~")
    requires forall i | 0 <= i < |text| :: !IsActive(text[i])
    ensures Lex(text + rest, word, Plain) == Lex(rest, Extend(word, text), Plain)
  {
    hide Lex;
    var s, c := text + rest, text[0];
    assert s[0] == c && s[1..] == text[1..] + rest;
    PlainStep(s, word);
    assert text == [c] + text[1..];
    ExtendTwice(word, [c], text[1..]);
    if |text| > 1 {
      LexHarmless(text[1..], rest, Extend(word, [c]));
    } else {
      assert text[1..] + rest == rest && text == [c];
    }
  }

  lemma {:induction false} WordsWeigh(words: seq<string>)
    requires words != []
    ensures Weight(Words(words)) == |JoinedBy(words, " ")| + 1
    ensures AllWords(Words(words))
  {
    assert Words(words)[1..] == Words(words[1..]);
    if |words| > 1 { WordsWeigh(words[1..]); }
  }

  /** The first word of a line, and the rest of it. */
  lemma JoinedFirst(words: seq<string>)
    requires words != []
    ensures |words| == 1 ==> JoinedBy(words, " ") == words[0] + ""
    ensures |words| > 1 ==> JoinedBy(words, " ") == words[0] + (" " + JoinedBy(words[1..], " "))
    ensures Words(words) == [Word(words[0])] + Words(words[1..])
  {
    hide JoinedBy, Words;
    JoinedStep(words);
    WordsStep(words);
  }

  lemma WordsStep(words: seq<string>)
    requires words != []
    ensures Words(words) == [Word(words[0])] + Words(words[1..])
  {
  }

  lemma JoinedStep(words: seq<string>)
    requires words != []
    ensures |words| == 1 ==> JoinedBy(words, " ") == words[0] + ""
    ensures |words| > 1 ==> JoinedBy(words, " ") == words[0] + (" " + JoinedBy(words[1..], " "))
  {
    hide Words;
    if |words| == 1 {
      assert words[0] + "" == words[0];
    } else {
      var rest := JoinedBy(words[1..], " ");
      assert words[0] + " " + rest == words[0] + (" " + rest);
    }
  }

  lemma {:induction false} HarmlessWordsArrive(words: seq<string>)
    requires words != [] && forall i | 0 <= i < |words| :: Harmless(words[i])
    ensures Tokens(JoinedBy(words, " ")) == Some(Words(words))
  {
    hide Lex, Extend, IsActive;
    JoinedFirst(words);
    FirstExtension(words[0]);
    if |words| == 1 {
      LexHarmless(words[0], "", None);
      EndOfLine(words[0]);
      assert Words(words) == [Word(words[0])];
    } else {
      var rest := JoinedBy(words[1..], " ");
      LexHarmless(words[0], " " + rest, None);
      LexBlank(rest, Some(words[0]));
      HarmlessWordsArrive(words[1..]);
    }
  }

  lemma EndOfLine(word: string)
    ensures Lex("", Some(word), Plain) == Some([Word(word)])
  {
  }

  lemma {:induction false} ArrivingWordsAreHarmless(words: seq<string>)
    requires words != [] && Tokens(JoinedBy(words, " ")) == Some(Words(words))
    ensures forall i | 0 <= i < |words| :: Harmless(words[i])
  {
    hide Lex, Extend, IsActive, Weight, AllWords;
    JoinedFirst(words);
    WordsWeigh(words);
    var first, rest := words[0], if |words| == 1 then "" else " " + JoinedBy(words[1..], " ");
    var line := first + rest;
    assert line == JoinedBy(words, " ");
    if first == "" {
      assert line == rest;
      if |words| > 1 { FullReadingStartsHarmless(line, None); } else { NothingOnTheLine(); }
    } else {
      FirstExtension(first);
      FullReadingTakes(first, rest, None);
      if |words| > 1 {
        LexBlank(JoinedBy(words[1..], " "), Some(first));
        assert [Word(first)] + Words(words[1..]) == Words(words);
        var more := Tokens(JoinedBy(words[1..], " "));
        assert [Word(first)] + more.value == Words(words);
        assert more.value == ([Word(first)] + more.value)[1..];
        ArrivingWordsAreHarmless(words[1..]);
      }
    }
  }

  lemma NothingOnTheLine()
    ensures Lex("", None, Plain) == Some([])
  {
  }

  lemma CommandLineJoins(name: string, args: seq<string>)
    ensures CommandLine(name, args) == JoinedBy([name] + args, " ")
  {
    assert ([name] + args)[1..] == args;
    if args == [] {
      assert name + "" == name;
    } else {
      assert name + (" " + JoinedBy(args, " ")) == name + " " + JoinedBy(args, " ");
    }
  }

  /** Program and arguments arrive as they were given exactly when each is harmless: not empty, not a comment,
    not starting with a tilde, and free of quotes, blanks, expansions, patterns and operators. */
  lemma ArgumentsArriveIff(name: string, args: seq<string>)
    ensures Tokens(CommandLine(name, args)) == Some(Words([name] + args))
       <==> Harmless(name) && forall i | 0 <= i < |args| :: Harmless(args[i])
  {
    hide Tokens, Harmless;
    var words := [name] + args;
    CommandLineJoins(name, args);
    assert forall i | 0 <= i < |args| :: words[i + 1] == args[i];
    if Tokens(CommandLine(name, args)) == Some(Words(words)) {
      ArrivingWordsAreHarmless(words);
      assert Harmless(words[0]);
    } else if Harmless(name) && forall i | 0 <= i < |args| :: Harmless(args[i]) {
      HarmlessWordsArrive(words);
    }
  }

  /** An argument with a blank between harmless pieces arrives as two. */
  lemma UnquotedArgumentSplits(name: string, left: string, right: string)
    requires Harmless(name) && Harmless(left) && Harmless(right)
    ensures Tokens(CommandLine(name, [left + " " + right])) == Some([Word(name), Word(left), Word(right)])
  {
    hide Tokens, Harmless;
    ArgumentsArriveIff(name, [left, right]);
    assert JoinedBy([left, right], " ") == left + " " + right;
    assert JoinedBy([left + " " + right], " ") == left + " " + right;
    assert Words([name] + [left, right]) == [Word(name), Word(left), Word(right)];
  }

  /** Double-quotes around a harmless text: the shell takes them away. */
  lemma {:induction false} LexDoubleQuoted(text: string, rest: string, word: Option<string>)
    requires word.Some? && forall i | 0 <= i < |text| :: text[i] !in "\"\\$`"
    ensures Lex(text + "\"" + rest, word, Double) == Lex(rest, Extend(word, text), Plain)
  {
    var s := text + "\"" + rest;
    if text == "" {
      ExtendByNothing(word);
      assert s[1..] == rest;
    } else {
      assert s[1..] == text[1..] + "\"" + rest;
      assert text == [text[0]] + text[1..];
      ExtendTwice(word, [text[0]], text[1..]);
      LexDoubleQuoted(text[1..], rest, Extend(word, [text[0]]));
    }
  }

  /** A quoted key inside an argument arrives without its quotes: no blank is needed to lose something.  This is
    how a configuration in JSON would fare. */
  lemma QuotedKeyLosesQuotes(name: string, before: string, key: string, after: string)
    requires Harmless(name) && Harmless(before) && Harmless(key) && Harmless(after)
    ensures Tokens(CommandLine(name, [before + "\"" + key + "\"" + after]))
         == Some([Word(name), Word(before + key + after)])
  {
    hide Lex, Extend;
    var tail := key + "\"" + after;
    var arg := before + "\"" + key + "\"" + after;
    var line := name + (" " + (before + ("\"" + tail)));
    CommandLineJoins(name, [arg]);
    JoinedFirst([name] + [arg]);
    assert ([name] + [arg])[1..] == [arg];
    assert CommandLine(name, [arg]) == line;
    LexHarmless(name, " " + (before + ("\"" + tail)), None);
    FirstExtension(name);
    LexBlank(before + ("\"" + tail), Some(name));
    LexHarmless(before, "\"" + tail, None);
    FirstExtension(before);
    OpenDouble(tail, before);
    LexDoubleQuoted(key, after, Some(before));
    ExtendIs(before, key);
    assert after + "" == after;
    LexHarmless(after, "", Some(before + key));
    ExtendIs(before + key, after);
    EndOfLine(before + key + after);
    var arrived := before + key + after;
    assert Tokens(before + ("\"" + tail)) == Some([Word(arrived)]);
    assert [Word(name)] + [Word(arrived)] == [Word(name), Word(arrived)];
  }

  lemma OpenDouble(rest: string, word: string)
    ensures Lex("\"" + rest, Some(word), Plain) == Lex(rest, Some(word), Double)
  {
    assert ("\"" + rest)[1..] == rest;
    ExtendByNothing(Some(word));
  }

  lemma ExtendIs(word: string, text: string)
    ensures Extend(Some(word), text) == Some(word + text)
  {
  }

  lemma PlainTextIsHarmless(word: string)
    requires word != ""
    requires forall i | 0 <= i < |word| :: 'A' <= word[i] <= 'Z' || 'a' <= word[i] <= 'z' || word[i] in ":{}"
    ensures Harmless(word)
  {
  }

  /** A path with a pattern character, as routes in a directory of pages have, does not arrive: the shell puts
    whatever files match in its place. */
  lemma PatternInPathIsExpanded(name: string, before: string, c: char, after: string)
    requires Harmless(name) && Harmless(before) && StartsExpansion(c)
    ensures Tokens(CommandLine(name, ["show", before + [c] + after])).None?
  {
    hide Lex, Extend, JoinedBy;
    var path := before + [c] + after;
    var words := [name] + ["show", path];
    CommandLineJoins(name, ["show", path]);
    JoinedFirst(words);
    assert words[1..] == ["show", path] && words[1..][1..] == [path];
    JoinedFirst(words[1..]);
    JoinedFirst([path]);
    assert JoinedBy([path], " ") == path == before + ([c] + after);
    assert JoinedBy(words[1..], " ") == "show" + (" " + path);
    assert CommandLine(name, ["show", path]) == name + (" " + ("show" + (" " + path)));
    LexHarmless(name, " " + ("show" + (" " + path)), None);
    FirstExtension(name);
    LexBlank("show" + (" " + path), Some(name));
    PlainTextIsHarmless("show");
    LexHarmless("show", " " + path, None);
    FirstExtension("show");
    LexBlank(path, Some("show"));
    LexHarmless(before, [c] + after, None);
    PlainStep([c] + after, Extend(None, before));
    assert Tokens(path).None?;
    assert Tokens("show" + (" " + path)).None?;
  }

  /** The configuration that a session's program is started with does not arrive as it was given. */
  lemma ConfigurationArrivesStripped()
    ensures Tokens(CommandLine("claude", ["{\"mcpServers\":{}}"])) == Some([Word("claude"), Word("{mcpServers:{}}")])
  {
    hide Tokens, Harmless, CommandLine;
    ConfigurationPieces();
    QuotedKeyLosesQuotes("claude", "{", "mcpServers", ":{}}");
    assert "{" + "\"" + "mcpServers" + "\"" + ":{}}" == "{\"mcpServers\":{}}";
    assert "{" + "mcpServers" + ":{}}" == "{mcpServers:{}}";
  }

  lemma ConfigurationPieces()
    ensures Harmless("claude") && Harmless("{") && Harmless("mcpServers") && Harmless(":{}}")
  {
    hide Harmless;
    PlainTextIsHarmless("claude");
    PlainTextIsHarmless("{");
    PlainTextIsHarmless("mcpServers");
    PlainTextIsHarmless(":{}}");
  }
}
