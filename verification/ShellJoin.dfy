/** Quoting arguments for `sg docker -c` (packages/dev-setup/src/tools/docker.rs:71-96), against the
    way a POSIX shell takes a command line apart: Shell Command Language, sections 2.2.1, 2.2.2 and
    2.3 of POSIX.1-2017. */
module ShellJoin {
  import opened Wrappers

  predicate AsciiAlphanumeric(c: char) {
    '0' <= c <= '9' || 'a' <= c <= 'z' || 'A' <= c <= 'Z'
  }

  predicate Plain(c: char) { AsciiAlphanumeric(c) || c in {'-', '_', '.', '/', ':', '=', '@', ','} }

  predicate AllPlain(s: string) { forall i :: 0 <= i < |s| ==> Plain(s[i]) }

  /** Every single quote closes the quoting, stands escaped, and opens it again. */
  function Escape(s: string): string {
    if s == "" then "" else (if s[0] == '\'' then "'\\''" else [s[0]]) + Escape(s[1..])
  }

  function Quote(arg: string): string {
    if AllPlain(arg) then arg else "'" + Escape(arg) + "'"
  }

  function Join(words: seq<string>): string {
    if words == [] then "" else if |words| == 1 then words[0] else words[0] + " " + Join(words[1..])
  }

  function Quotes(args: seq<string>): seq<string> {
    if args == [] then [] else [Quote(args[0])] + Quotes(args[1..])
  }

  function ShellJoin(args: seq<string>): string { Join(Quotes(args)) }

  // ----- How a shell reads it

  /** Between words, in a word read so far, or between single quotes within one. */
  datatype Mode = Blank | Word(read: string) | SingleQuoted(read: string)

  predicate IsBlank(c: char) { c == ' ' || c == '\t' }

  /** Characters that, unquoted, make a shell do more than split words: operators, expansions,
      patterns, comments, double quotes, the end of the command. */
  predicate Special(c: char) {
    c in {'|', '&', ';', '<', '>', '(', ')', '$', '`', '"', '*', '?', '[', ']', '#', '~', '%', '!', '{', '}', '^', '\n'}
  }

  /** The words of a simple command with quotes removed; None if the text is no such command. */
  function Split(text: string, mode: Mode): Option<seq<string>>
    decreases |text|, if mode.Blank? then 1 else 0
  {
    match mode
    case Blank =>
      if text == "" then Some([])
      else if IsBlank(text[0]) then Split(text[1..], Blank)
      else Split(text, Word(""))
    case Word(read) =>
      if text == "" then Some([read])
      else if IsBlank(text[0]) then
        match Split(text[1..], Blank)
        case Some(words) => Some([read] + words)
        case None => None
      else if text[0] == '\'' then Split(text[1..], SingleQuoted(read))
      else if text[0] == '\\' then
        if |text| == 1 then None
        else if text[1] == '\n' then Split(text[2..], Word(read))
        else Split(text[2..], Word(read + [text[1]]))
      else if Special(text[0]) then None
      else Split(text[1..], Word(read + [text[0]]))
    case SingleQuoted(read) =>
      if text == "" then None
      else if text[0] == '\'' then Split(text[1..], Word(read))
      else Split(text[1..], SingleQuoted(read + [text[0]]))
  }

  function ShellWords(text: string): Option<seq<string>> { Split(text, Blank) }

  // ----- Reading back what was printed

  lemma PlainIsOrdinary(c: char)
    requires Plain(c)
    ensures !IsBlank(c) && c != '\'' && c != '\\' && !Special(c)
  {
  }

  lemma SplitPlainChar(c: char, rest: string, read: string)
    requires Plain(c)
    ensures Split([c] + rest, Word(read)) == Split(rest, Word(read + [c]))
  {
    hide Plain, Special;
    PlainIsOrdinary(c);
    assert ([c] + rest)[1..] == rest;
  }

  lemma {:induction false} SplitPlain(s: string, rest: string, read: string)
    requires AllPlain(s)
    ensures Split(s + rest, Word(read)) == Split(rest, Word(read + s))
  {
    hide Split, Plain;
    if s == "" {
      assert s + rest == rest && read + s == read;
    } else {
      assert Plain(s[0]);
      assert s + rest == [s[0]] + (s[1..] + rest);
      assert read + [s[0]] + s[1..] == read + s;
      SplitPlainChar(s[0], s[1..] + rest, read);
      SplitPlain(s[1..], rest, read + [s[0]]);
    }
  }

  lemma {:induction false} SplitEscaped(s: string, rest: string, read: string)
    ensures Split(Escape(s) + "'" + rest, SingleQuoted(read)) == Split(rest, Word(read + s))
  {
    if s == "" {
      assert Escape(s) + "'" + rest == "'" + rest && ("'" + rest)[1..] == rest && read + s == read;
    } else {
      var tail := Escape(s[1..]) + "'" + rest;
      assert read + [s[0]] + s[1..] == read + s;
      SplitEscaped(s[1..], rest, read + [s[0]]);
      if s[0] == '\'' {
        assert Escape(s) + "'" + rest == "'\\''" + tail;
        EscapedQuote(tail, read);
      } else {
        assert Escape(s) + "'" + rest == [s[0]] + tail;
        assert ([s[0]] + tail)[1..] == tail;
      }
    }
  }

  lemma EscapedQuote(tail: string, read: string)
    ensures Split("'\\''" + tail, SingleQuoted(read)) == Split(tail, SingleQuoted(read + "'"))
  {
    var t := "'\\''" + tail;
    assert t[1..] == "\\''" + tail && t[1..][2..] == "'" + tail && t[1..][2..][1..] == tail;
    assert Split(t, SingleQuoted(read)) == Split(t[1..], Word(read));
    assert Split(t[1..], Word(read)) == Split(t[1..][2..], Word(read + "'"));
  }

  lemma SplitStarts(text: string)
    requires text != "" && !IsBlank(text[0])
    ensures Split(text, Blank) == Split(text, Word(""))
  {
  }

  lemma PlainReadsBack(arg: string, rest: string)
    requires arg != "" && AllPlain(arg)
    ensures Split(arg + rest, Blank) == Split(rest, Word(arg))
  {
    hide Split, Plain;
    assert Plain(arg[0]) && (arg + rest)[0] == arg[0] && "" + arg == arg;
    PlainIsOrdinary(arg[0]);
    SplitPlain(arg, rest, "");
    SplitStarts(arg + rest);
  }

  lemma QuotedReadsBack(arg: string, rest: string)
    ensures Split("'" + Escape(arg) + "'" + rest, Blank) == Split(rest, Word(arg))
  {
    hide Split, Escape;
    var inner := Escape(arg) + "'" + rest;
    assert "'" + Escape(arg) + "'" + rest == "'" + inner && "" + arg == arg;
    SplitStarts("'" + inner);
    OpensQuote(inner);
    SplitEscaped(arg, rest, "");
  }

  /** A non-empty argument reads back as itself, whatever follows. */
  lemma QuoteReadsBack(arg: string, rest: string)
    requires arg != ""
    ensures Split(Quote(arg) + rest, Blank) == Split(rest, Word(arg))
  {
    hide Split, Escape, AllPlain;
    if AllPlain(arg) { PlainReadsBack(arg, rest); } else { QuotedReadsBack(arg, rest); }
  }

  lemma OpensQuote(rest: string)
    ensures Split("'" + rest, Word("")) == Split(rest, SingleQuoted(""))
  {
    assert ("'" + rest)[1..] == rest;
  }

  lemma SplitAtBlank(rest: string, word: string)
    ensures Split(" " + rest, Blank) == Split(rest, Blank)
    ensures Split(" " + rest, Word(word)) ==
            match Split(rest, Blank) case Some(words) => Some([word] + words) case None => None
  {
    assert (" " + rest)[1..] == rest;
  }

  function NonEmpty(args: seq<string>): seq<string> {
    if args == [] then [] else (if args[0] == "" then [] else [args[0]]) + NonEmpty(args[1..])
  }

  /** A shell reads a joined command line as its arguments, without the empty ones. */
  lemma {:induction false} ReadsBackNonEmpty(args: seq<string>)
    ensures ShellWords(ShellJoin(args)) == Some(NonEmpty(args))
  {
    hide Split, Quote;
    if args == [] {
      SplitEnds("");
    } else {
      var first, more := args[0], args[1..];
      ReadsBackNonEmpty(more);
      EmptyPrintsNothing();
      SplitEnds(first);
      if more == [] {
        assert ShellJoin(args) == Quote(first) + "";
        assert NonEmpty(args) == if first == "" then [] else [first];
        if first != "" { QuoteReadsBack(first, ""); }
      } else {
        var rest := " " + ShellJoin(more);
        assert Quotes(args)[1..] == Quotes(more);
        assert ShellJoin(args) == Quote(first) + rest;
        assert first == "" ==> Quote(first) + rest == rest && NonEmpty(args) == NonEmpty(more);
        SplitAtBlank(ShellJoin(more), first);
        if first != "" { QuoteReadsBack(first, rest); }
      }
    }
  }

  lemma SplitEnds(word: string)
    ensures Split("", Blank) == Some([]) && Split("", Word(word)) == Some([word])
  {
  }

  lemma EmptyPrintsNothing()
    ensures Quote("") == ""
  {
  }

  lemma {:induction false} NonEmptyIsAll(args: seq<string>)
    ensures |NonEmpty(args)| <= |args|
    ensures NonEmpty(args) == args <==> "" !in args
  {
    if args != [] {
      NonEmptyIsAll(args[1..]);
      assert args == [args[0]] + args[1..];
      if args[0] != "" && NonEmpty(args) == args {
        assert NonEmpty(args)[1..] == NonEmpty(args[1..]);
      }
    }
  }

  /** A shell reads back exactly the arguments if and only if none is empty. */
  lemma RoundTripIff(args: seq<string>)
    ensures ShellWords(ShellJoin(args)) == Some(args) <==> "" !in args
  {
    ReadsBackNonEmpty(args);
    NonEmptyIsAll(args);
  }

  /** The command line handed to `sg docker -c` runs docker on those arguments. */
  lemma DockerCommandLine(args: seq<string>)
    ensures ShellWords("docker " + ShellJoin(args)) == Some(["docker"] + NonEmpty(args))
  {
    var rest := " " + ShellJoin(args);
    assert "docker " + ShellJoin(args) == "docker" + rest && rest[1..] == ShellJoin(args);
    assert AllPlain("docker") && "" + "docker" == "docker" && ("docker" + rest)[0] == 'd';
    SplitPlain("docker", rest, "");
    ReadsBackNonEmpty(args);
  }

  /** Different argument lists, without empty arguments, never print alike. */
  lemma JoinIsInjective(args: seq<string>, args': seq<string>)
    requires "" !in args && "" !in args' && ShellJoin(args) == ShellJoin(args')
    ensures args == args'
  {
    RoundTripIff(args);
    RoundTripIff(args');
  }

  lemma {:induction false} EscapeLength(s: string)
    ensures |Escape(s)| >= |s|
  {
    if s != "" { EscapeLength(s[1..]); }
  }

  /** An argument is printed as it is exactly if it is made of letters, digits and `-_./:=@,`; any other is
      put between single quotes. */
  lemma PrintedAsIsIff(arg: string)
    ensures Quote(arg) == arg <==> forall i :: 0 <= i < |arg| ==>
              || 'a' <= arg[i] <= 'z' || 'A' <= arg[i] <= 'Z' || '0' <= arg[i] <= '9'
              || arg[i] in {'-', '_', '.', '/', ':', '=', '@', ','}
    ensures Quote(arg) != arg ==> |Quote(arg)| >= |arg| + 2 && Quote(arg)[0] == '\'' && Quote(arg)[|Quote(arg)| - 1] == '\''
  {
    EscapeLength(arg);
  }
}
