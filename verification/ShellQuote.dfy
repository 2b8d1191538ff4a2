/** opShellQuote and the command it quotes for (cmd/mcp-gateway/operator.go),
    against the POSIX shell's own reading of words: IEEE Std 1003.1-2017, Shell
    Command Language, sections 2.2.1 (backslash), 2.2.2 (single quotes), 2.3
    (token recognition) and 2.6.7 (quote removal). */
module ShellQuote {
  import opened GoText

  const NUL: char := 0 as char
  const QUOTE: char := '\''

  // ---- The shell ----------------------------------------------------------------

  predicate Blank(c: char) { c == ' ' || c == '\t' }

  /** A character that, unquoted, may be more than itself: an operator, an
      expansion, a double quote, a pattern, a comment or tilde, the end of the
      command, or NUL, which no word can hold. */
  predicate Active(c: char) {
    c in "|&;<>()$`\"*?[#~\n" || c == NUL
  }

  /** The words of s after quote removal, or None where s is anything but plain
      and quoted words. `cur` is the word being read, if one has begun. */
  function Read(s: string, cur: Option<string>): Option<seq<string>>
    decreases |s|
  {
    if s == "" then Some(Flush(cur))
    else if Blank(s[0]) then Prepend(Flush(cur), Read(s[1..], None))
    else if s[0] == QUOTE then InQuotes(s[1..], Begun(cur))
    else if s[0] == '\\' then
      if |s| < 2 then None
      else if s[1] == '\n' then Read(s[2..], cur)
      else if s[1] == NUL then None
      else Read(s[2..], Some(Begun(cur) + [s[1]]))
    else if Active(s[0]) then None
    else Read(s[1..], Some(Begun(cur) + [s[0]]))
  }

  /** Inside single quotes every character stands for itself. */
  function InQuotes(s: string, word: string): Option<seq<string>>
    decreases |s|
  {
    if s == "" || s[0] == NUL then None
    else if s[0] == QUOTE then Read(s[1..], Some(word))
    else InQuotes(s[1..], word + [s[0]])
  }

  function Flush(cur: Option<string>): seq<string> { if cur.Some? then [cur.value] else [] }

  function Begun(cur: Option<string>): string { if cur.Some? then cur.value else "" }

  function Prepend(first: seq<string>, rest: Option<seq<string>>): Option<seq<string>> {
    if rest.Some? then Some(first + rest.value) else None
  }

  function Words(s: string): Option<seq<string>> { Read(s, None) }

  // ---- opShellQuote ---------------------------------------------------------------

  predicate Safe(c: char) {
    'a' <= c <= 'z' || 'A' <= c <= 'Z' || '0' <= c <= '9' || c in "/._-+:@%=,"
  }

  predicate AllSafe(s: string) { forall c <- s :: Safe(c) }

  /** strings.ReplaceAll(s, "'", `'\''`). */
  function Escape(s: string): string {
    if s == "" then "" else (if s[0] == QUOTE then "'\\''" else [s[0]]) + Escape(s[1..])
  }

  function Quote(s: string): string {
    if s != "" && AllSafe(s) then s else "'" + Escape(s) + "'"
  }

  // ---- What the shell reads ------------------------------------------------------------

  lemma {:induction false} SafeIsLiteral(s: string, cur: Option<string>, rest: string)
    requires AllSafe(s) && s != ""
    ensures Read(s + rest, cur) == Read(rest, Some(Begun(cur) + s))
    decreases |s|
  {
    var next, tail := Some(Begun(cur) + [s[0]]), s[1..];
    assert s[0] in s && s + rest == [s[0]] + (tail + rest);
    SafeStep(s[0], tail + rest, cur);
    assert Begun(next) + tail == Begun(cur) + s;
    if tail == [] {
      assert tail + rest == rest && s == [s[0]];
    } else {
      assert forall c <- tail :: c in s;
      SafeIsLiteral(tail, next, rest);
    }
  }

  lemma SafeIsPlain(c: char)
    requires Safe(c)
    ensures !Blank(c) && c != QUOTE && c != '\\' && !Active(c)
  { }

  lemma SafeStep(c: char, tail: string, cur: Option<string>)
    requires Safe(c)
    ensures Read([c] + tail, cur) == Read(tail, Some(Begun(cur) + [c]))
  {
    assert ([c] + tail)[0] == c && ([c] + tail)[1..] == tail;
    SafeIsPlain(c);
  }

  lemma QuotedStep(c: char, tail: string, word: string)
    requires c != NUL && c != QUOTE
    ensures InQuotes([c] + tail, word) == InQuotes(tail, word + [c])
  {
    assert ([c] + tail)[1..] == tail;
  }

  /** A quote opens a quoted part of the word, and closes it. */
  lemma QuoteStep(tail: string, word: string)
    ensures Read("'" + tail, None) == InQuotes(tail, "")
    ensures InQuotes("'" + tail, word) == Read(tail, Some(word))
  {
    assert ("'" + tail)[1..] == tail;
  }

  /** An escaped quote is read as a quote, and the quoting goes on. */
  lemma EscapedQuote(word: string, tail: string)
    ensures InQuotes("'\\''" + tail, word) == InQuotes(tail, word + "'")
  {
    var a, b, c := "'\\''" + tail, "\\''" + tail, "'" + tail;
    assert a[1..] == b && b[2..] == c && c[1..] == tail;
    assert InQuotes(a, word) == Read(b, Some(word));
    assert Read(b, Some(word)) == Read(c, Some(word + "'"));
  }

  lemma Assoc(a: string, b: string, c: string)
    ensures (a + b) + c == a + (b + c)
  { }

  lemma {:induction false} EscapeIsLiteral(s: string, word: string, rest: string)
    requires NUL !in s
    ensures InQuotes(Escape(s) + ("'" + rest), word) == Read(rest, Some(word + s))
    decreases |s|
  {
    if s == "" {
      QuoteStep(rest, word);
      assert "" + ("'" + rest) == "'" + rest && word + s == word;
    } else {
      var next := word + [s[0]];
      EscapeIsLiteral(s[1..], next, rest);
      Assoc(word, [s[0]], s[1..]);
      assert [s[0]] + s[1..] == s && s[0] in s;
      EscapedHead(s, word, "'" + rest);
    }
  }

  /** The first character, escaped or not, is read as itself. */
  lemma EscapedHead(s: string, word: string, rest: string)
    requires s != "" && s[0] != NUL
    ensures InQuotes(Escape(s) + rest, word) == InQuotes(Escape(s[1..]) + rest, word + [s[0]])
  {
    var tail := Escape(s[1..]);
    if s[0] == QUOTE {
      Assoc("'\\''", tail, rest);
      EscapedQuote(word, tail + rest);
    } else {
      Assoc([s[0]], tail, rest);
      QuotedStep(s[0], tail + rest, word);
    }
  }

  lemma Rebracket(e: string, rest: string)
    ensures "'" + e + "'" + rest == "'" + (e + ("'" + rest))
  { }

  /** Whatever follows it, a quoted string is read as that string, into the
      word being read. */
  lemma QuoteIsLiteral(s: string, rest: string)
    requires NUL !in s
    ensures Read(Quote(s) + rest, None) == Read(rest, Some(s))
  {
    if s != "" && AllSafe(s) {
      SafeIsLiteral(s, None, rest);
      assert Begun(None) + s == s;
    } else {
      EscapeIsLiteral(s, "", rest);
      QuoteStep(Escape(s) + ("'" + rest), "");
      Rebracket(Escape(s), rest);
      assert "" + s == s;
    }
  }

  lemma {:induction false} NulIsNeverQuoted(s: string, word: string, rest: string)
    requires NUL in s
    ensures InQuotes(Escape(s) + rest, word).None?
    decreases |s|
  {
    var tail := Escape(s[1..]) + rest;
    if s[0] == NUL {
      assert Escape(s) + rest == [s[0]] + tail;
    } else if s[0] == QUOTE {
      NulIsNeverQuoted(s[1..], word + "'", rest);
      EscapedQuote(word, tail);
      assert Escape(s) + rest == "'\\''" + tail;
    } else {
      NulIsNeverQuoted(s[1..], word + [s[0]], rest);
      assert Escape(s) + rest == [s[0]] + tail && ([s[0]] + tail)[1..] == tail;
    }
  }

  /** The shell reads a quoted string as exactly one word, equal to it; only a
      string with a NUL, which no argument can carry, is not read back. */
  lemma QuoteRoundTrips(s: string)
    ensures Words(Quote(s)) == Some([s]) <==> NUL !in s
  {
    if NUL !in s {
      QuoteIsLiteral(s, "");
      assert Quote(s) + "" == Quote(s);
    } else {
      assert !Safe(NUL);
      NulIsNeverQuoted(s, "", "'");
      assert Quote(s)[1..] == Escape(s) + "'";
    }
  }

  function CommandLine(args: seq<string>): string {
    if args == [] then "" else Quote(args[0]) + (if |args| == 1 then "" else " " + CommandLine(args[1..]))
  }

  /** A line of quoted arguments is read as those arguments, however many and
      whatever is in them. */
  lemma {:induction false} CommandLineRoundTrips(args: seq<string>)
    requires forall a <- args :: NUL !in a
    ensures Words(CommandLine(args)) == Some(args)
  {
    if args != [] {
      assert args[0] in args;
      var rest := if |args| == 1 then "" else " " + CommandLine(args[1..]);
      QuoteIsLiteral(args[0], rest);
      assert CommandLine(args) == Quote(args[0]) + rest;
      if |args| == 1 {
        assert args == [args[0]];
      } else {
        CommandLineRoundTrips(args[1..]);
        assert rest[0] == ' ' && rest[1..] == CommandLine(args[1..]);
        assert Read(rest, Some(args[0])) == Prepend([args[0]], Words(CommandLine(args[1..])));
        assert [args[0]] + args[1..] == args;
      }
    }
  }

  /** opEnv.cmd: the command an operator is told to run next. */
  function Command(sub: string, configPath: string): string {
    if configPath == "" then "mcp-gateway " + sub
    else "mcp-gateway " + sub + " -config " + Quote(configPath)
  }

  /** A subcommand as the source writes it: words with single spaces. */
  function Spaced(words: seq<string>): string
    requires words != []
  {
    if |words| == 1 then words[0] else words[0] + " " + Spaced(words[1..])
  }

  predicate SafeWords(words: seq<string>) { forall w <- words :: w != "" && AllSafe(w) }

  /** Safe words are the same quoted. */
  lemma {:induction false} SafeWordsAreQuoted(words: seq<string>)
    requires words != [] && SafeWords(words)
    ensures CommandLine(words) == Spaced(words) && forall w <- words :: NUL !in w
  {
    assert words[0] in words && !Safe(NUL);
    assert words == [words[0]] + words[1..];
    if |words| > 1 {
      forall w <- words[1..] ensures w in words { }
      SafeWordsAreQuoted(words[1..]);
      Assoc(words[0], " ", Spaced(words[1..]));
    }
  }

  lemma {:induction false} LineConcat(a: seq<string>, b: seq<string>)
    requires a != [] && b != []
    ensures CommandLine(a + b) == CommandLine(a) + (" " + CommandLine(b))
  {
    assert (a + b)[0] == a[0] && (a + b)[1..] == a[1..] + b;
    if |a| == 1 {
      assert a[1..] + b == b && Quote(a[0]) + "" == Quote(a[0]);
    } else {
      LineConcat(a[1..], b);
      assert " " + (CommandLine(a[1..]) + (" " + CommandLine(b))) == " " + CommandLine(a[1..]) + (" " + CommandLine(b));
      Assoc(Quote(a[0]), " " + CommandLine(a[1..]), " " + CommandLine(b));
    }
  }

  const PROGRAM := "mcp-gateway"
  const FLAG := "-config"

  lemma FixedWordsAreSafe()
    ensures AllSafe(PROGRAM) && AllSafe(FLAG) && PROGRAM != "" && FLAG != ""
  { }

  lemma ProgramFirst(words: seq<string>)
    requires words != [] && SafeWords(words)
    ensures SafeWords([PROGRAM] + words) && CommandLine([PROGRAM] + words) == PROGRAM + " " + Spaced(words)
  {
    FixedWordsAreSafe();
    var line := [PROGRAM] + words;
    assert line[1..] == words;
    forall w <- line ensures w != "" && AllSafe(w) { }
    SafeWordsAreQuoted(line);
  }

  lemma FlagThenPath(path: string)
    ensures CommandLine([FLAG, path]) == FLAG + (" " + Quote(path))
  {
    FixedWordsAreSafe();
    assert [FLAG, path][1..] == [path];
  }

  /** The command line of a hint is the quoted line of its words. */
  lemma HintIsACommandLine(words: seq<string>, configPath: string)
    requires words != [] && SafeWords(words)
    ensures Command(Spaced(words), configPath) == CommandLine(WordsOf(words, configPath))
  {
    ProgramFirst(words);
    assert PROGRAM + " " == "mcp-gateway ";
    if configPath != "" {
      LineConcat([PROGRAM] + words, [FLAG, configPath]);
      FlagThenPath(configPath);
      TwoSpaces(PROGRAM + " " + Spaced(words), Quote(configPath));
    }
  }

  /** The words a hint is meant as. */
  function WordsOf(words: seq<string>, configPath: string): seq<string> {
    if configPath == "" then [PROGRAM] + words else [PROGRAM] + words + [FLAG, configPath]
  }

  lemma NoNul(s: string)
    requires AllSafe(s)
    ensures NUL !in s
  {
    assert !Safe(NUL);
  }

  lemma TwoSpaces(line: string, path: string)
    ensures line + (" " + (FLAG + (" " + path))) == line + " -config " + path
  {
    assert " " + (FLAG + (" " + path)) == " -config " + path;
    Assoc(line, " -config ", path);
  }

  /** Pasted as shown, the hint is read as the program, the words of the
      subcommand and the configuration file that was loaded. */
  lemma CommandNamesTheFile(words: seq<string>, configPath: string)
    requires words != [] && SafeWords(words) && NUL !in configPath
    ensures Words(Command(Spaced(words), configPath)) == Some(WordsOf(words, configPath))
  {
    HintIsACommandLine(words, configPath);
    FixedWordsAreSafe();
    forall a <- WordsOf(words, configPath) ensures NUL !in a {
      if a != configPath { NoNul(a); }
    }
    CommandLineRoundTrips(WordsOf(words, configPath));
  }
}
