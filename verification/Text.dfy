/** The string operations the profile writer uses, as the Rust standard library defines them:
    `find`, `lines`, `trim_end`, `trim_matches('\n')` and `join`. */
module Text {
  import opened Wrappers

  predicate Occurs(s: string, pattern: string, i: nat) {
    i + |pattern| <= |s| && s[i..i + |pattern|] == pattern
  }

  function FindFrom(s: string, pattern: string, i: nat): (r: Option<nat>)
    requires i <= |s|
    ensures r.Some? ==> i <= r.value && Occurs(s, pattern, r.value) && forall j: nat :: i <= j < r.value ==> !Occurs(s, pattern, j)
    ensures r.None? ==> forall j: nat :: i <= j ==> !Occurs(s, pattern, j)
    decreases |s| - i
  {
    if Occurs(s, pattern, i) then Some(i) else if i == |s| then None else FindFrom(s, pattern, i + 1)
  }

  /** The first occurrence. */
  function Find(s: string, pattern: string): (r: Option<nat>)
    ensures r.Some? ==> Occurs(s, pattern, r.value) && forall j: nat :: j < r.value ==> !Occurs(s, pattern, j)
    ensures r.None? ==> forall j: nat :: !Occurs(s, pattern, j)
  {
    FindFrom(s, pattern, 0)
  }

  predicate Contains(s: string, pattern: string) { Find(s, pattern).Some? }

  lemma FindIs(s: string, pattern: string, i: nat)
    requires Occurs(s, pattern, i) && forall j: nat :: j < i ==> !Occurs(s, pattern, j)
    ensures Find(s, pattern) == Some(i)
  {
  }

  /** The characters with the Unicode property White_Space. */
  predicate Whitespace(c: char) {
    || '\U{0009}' <= c <= '\U{000D}' || c == ' ' || c == '\U{0085}' || c == '\U{00A0}' || c == '\U{1680}'
    || '\U{2000}' <= c <= '\U{200A}' || c == '\U{2028}' || c == '\U{2029}' || c == '\U{202F}' || c == '\U{205F}'
    || c == '\U{3000}'
  }

  function TrimEnd(s: string): (r: string)
    ensures r <= s && (r != "" ==> !Whitespace(r[|r| - 1]))
  {
    if s != "" && Whitespace(s[|s| - 1]) then TrimEnd(s[..|s| - 1]) else s
  }

  function TrimNewlinesEnd(s: string): string {
    if s != "" && s[|s| - 1] == '\n' then TrimNewlinesEnd(s[..|s| - 1]) else s
  }

  function TrimNewlines(s: string): string {
    if s != "" && s[0] == '\n' then TrimNewlines(s[1..]) else TrimNewlinesEnd(s)
  }

  function StripCarriageReturn(s: string): (r: string)
    ensures r <= s
  {
    if s != "" && s[|s| - 1] == '\r' then s[..|s| - 1] else s
  }

  /** Lines end in a newline, with a carriage return before it stripped; the last need not end. */
  function Lines(s: string): seq<string>
    decreases |s|
  {
    if s == "" then []
    else
      match Find(s, "\n")
      case None => [s]
      case Some(i) => [StripCarriageReturn(s[..i])] + Lines(s[i + 1..])
  }

  /** Lines trimmed at the end, those left empty dropped. */
  function Kept(lines: seq<string>): seq<string> {
    if lines == [] then []
    else (if TrimEnd(lines[0]) == "" then [] else [TrimEnd(lines[0])]) + Kept(lines[1..])
  }

  function NonEmptyLines(s: string): seq<string> { Kept(Lines(s)) }

  function JoinLines(lines: seq<string>): string {
    if lines == [] then "" else if |lines| == 1 then lines[0] else lines[0] + "\n" + JoinLines(lines[1..])
  }

  // ----- Lines in, lines out

  predicate OneLine(s: string) { '\n' !in s }

  /** A line as the block keeps it. */
  predicate Clean(line: string) {
    line != "" && OneLine(line) && !Whitespace(line[|line| - 1])
  }

  predicate AllClean(lines: seq<string>) { forall l :: l in lines ==> Clean(l) }

  lemma NewlineAt(s: string, i: nat)
    ensures Occurs(s, "\n", i) <==> i < |s| && s[i] == '\n'
  {
    if i < |s| { assert s[i..i + 1] == [s[i]]; }
  }

  lemma FindNewline(first: string, rest: string)
    requires OneLine(first)
    ensures Find(first + "\n" + rest, "\n") == Some(|first|)
  {
    var s := first + "\n" + rest;
    NewlineAt(s, |first|);
    forall j: nat | j < |first| ensures !Occurs(s, "\n", j) {
      NewlineAt(s, j);
      assert s[j] == first[j];
    }
  }

  lemma NoNewline(s: string)
    requires OneLine(s)
    ensures Find(s, "\n") == None
  {
    forall j: nat ensures !Occurs(s, "\n", j) {
      NewlineAt(s, j);
    }
  }

  lemma TrimEndClean(line: string)
    requires Clean(line)
    ensures TrimEnd(line) == line && StripCarriageReturn(line) == line
  {
  }

  /** Joined lines split back into themselves. */
  lemma {:induction false} JoinSplits(lines: seq<string>)
    requires AllClean(lines)
    ensures NonEmptyLines(JoinLines(lines)) == lines
  {
    hide Find, Clean, TrimEnd, Whitespace, OneLine;
    if lines != [] {
      var first, more := lines[0], lines[1..];
      assert Clean(first) && AllClean(more);
      CleanIsLine(first);
      TrimEndClean(first);
      JoinSplits(more);
      assert lines == [first] + more;
      if more == [] {
        NoNewline(first);
        assert Lines(first) == [first];
        assert Kept([first]) == [first] + Kept([]);
      } else {
        var s := first + "\n" + JoinLines(more);
        FindNewline(first, JoinLines(more));
        assert s[..|first|] == first && s[|first| + 1..] == JoinLines(more);
        assert Lines(s) == [first] + Lines(JoinLines(more));
        assert ([first] + Lines(JoinLines(more)))[1..] == Lines(JoinLines(more));
      }
    }
  }

  lemma CleanIsLine(line: string)
    requires Clean(line)
    ensures OneLine(line) && line != "" && line[0] != '\n' && line[|line| - 1] != '\n'
  {
  }

  /** Joined lines begin and end with their first and last characters. */
  lemma {:induction false} JoinEnds(lines: seq<string>)
    requires AllClean(lines) && lines != []
    ensures var j := JoinLines(lines); j != "" && j[0] != '\n' && j[|j| - 1] != '\n'
  {
    hide Clean;
    assert Clean(lines[0]);
    CleanIsLine(lines[0]);
    if |lines| > 1 {
      assert AllClean(lines[1..]);
      JoinEnds(lines[1..]);
    }
  }

  lemma TrimInside(j: string)
    requires j == "" || (j[0] != '\n' && j[|j| - 1] != '\n')
    ensures TrimNewlines("\n" + j + "\n") == j
  {
    var s := "\n" + j + "\n";
    assert s[1..] == j + "\n";
    if j == "" {
      assert s[1..][1..] == "" && TrimNewlines("") == "";
      assert TrimNewlines(s[1..]) == TrimNewlines(s[1..][1..]);
    } else {
      assert (j + "\n")[0] == j[0] && (j + "\n")[..|j|] == j;
      assert TrimNewlines(j + "\n") == TrimNewlinesEnd(j + "\n") == TrimNewlinesEnd(j);
    }
  }

  lemma {:induction false} LinesAreOneLine(s: string)
    ensures forall l :: l in Lines(s) ==> OneLine(l)
    decreases |s|
  {
    match Find(s, "\n")
    case None =>
      if !OneLine(s) {
        var i :| 0 <= i < |s| && s[i] == '\n';
        assert Occurs(s, "\n", i);
      }
    case Some(i) =>
      if !OneLine(s[..i]) {
        var j :| 0 <= j < i && s[..i][j] == '\n';
        assert Occurs(s, "\n", j);
      }
      LinesAreOneLine(s[i + 1..]);
  }

  lemma {:induction false} KeptIsClean(lines: seq<string>)
    requires forall l :: l in lines ==> OneLine(l)
    ensures AllClean(Kept(lines))
  {
    if lines != [] {
      assert lines[0] in lines;
      KeptIsClean(lines[1..]);
    }
  }

  lemma NonEmptyLinesAreClean(s: string)
    ensures AllClean(NonEmptyLines(s))
  {
    LinesAreOneLine(s);
    KeptIsClean(Lines(s));
  }

  // ----- Where a pattern lies

  /** A pattern on one line, not ending in white space. */
  predicate Inline(pattern: string) {
    pattern != "" && OneLine(pattern) && !Whitespace(pattern[|pattern| - 1])
  }

  lemma OccursAt(s: string, pattern: string, i: nat, k: nat)
    requires Occurs(s, pattern, i) && k < |pattern|
    ensures s[i + k] == pattern[k]
  {
    assert s[i..i + |pattern|][k] == s[i + k];
  }

  lemma OccursChars(s: string, pattern: string, i: nat)
    requires Occurs(s, pattern, i)
    ensures forall n :: i <= n < i + |pattern| ==> s[n] == pattern[n - i]
  {
    forall n | i <= n < i + |pattern| ensures s[n] == pattern[n - i] {
      OccursAt(s, pattern, i, n - i);
    }
  }

  lemma OccursIn(s: string, pattern: string, i: nat)
    requires Occurs(s, pattern, i)
    ensures Contains(s, pattern)
  {
  }

  lemma MissesNewline(s: string, pattern: string, i: nat, n: nat)
    requires OneLine(pattern) && Occurs(s, pattern, i) && n < |s| && s[n] == '\n'
    ensures n < i || i + |pattern| <= n
  {
    OccursChars(s, pattern, i);
  }

  /** Around a newline, a pattern lies on one side or the other. */
  lemma OneSide(a: string, b: string, pattern: string)
    requires Inline(pattern)
    ensures forall i: nat :: Occurs(a + "\n" + b, pattern, i) <==>
              Occurs(a, pattern, i) || (i > |a| && Occurs(b, pattern, i - |a| - 1))
  {
    var s := a + "\n" + b;
    forall i: nat
      ensures Occurs(s, pattern, i) <==> Occurs(a, pattern, i) || (i > |a| && Occurs(b, pattern, i - |a| - 1))
    {
      if Occurs(s, pattern, i) { MissesNewline(s, pattern, i, |a|); }
      if i + |pattern| <= |a| {
        assert s[i..i + |pattern|] == a[i..i + |pattern|];
      } else if i > |a| && i + |pattern| <= |s| {
        assert s[i..i + |pattern|] == b[i - |a| - 1..i - |a| - 1 + |pattern|];
      }
    }
  }

  /** Joined lines contain a pattern exactly if one of them does. */
  lemma {:induction false} JoinContains(lines: seq<string>, pattern: string)
    requires Inline(pattern)
    ensures Contains(JoinLines(lines), pattern) <==> exists l :: l in lines && Contains(l, pattern)
  {
    hide Inline;
    if lines == [] {
      NothingInEmpty(pattern);
    } else if |lines| == 1 {
      assert lines == [lines[0]];
    } else {
      JoinContains(lines[1..], pattern);
      SideContains(lines[0], JoinLines(lines[1..]), pattern);
      assert lines == [lines[0]] + lines[1..];
    }
  }

  lemma NothingInEmpty(pattern: string)
    requires Inline(pattern)
    ensures !Contains("", pattern)
  {
  }

  lemma SideContains(a: string, b: string, pattern: string)
    requires Inline(pattern)
    ensures Contains(a + "\n" + b, pattern) <==> Contains(a, pattern) || Contains(b, pattern)
  {
    var s := a + "\n" + b;
    OneSide(a, b, pattern);
    if Contains(a, pattern) { OccursIn(s, pattern, Find(a, pattern).value); }
    if Contains(b, pattern) { assert Occurs(s, pattern, Find(b, pattern).value + |a| + 1); }
    if Contains(s, pattern) {
      var i := Find(s, pattern).value;
      if Occurs(a, pattern, i) { OccursIn(a, pattern, i); } else { OccursIn(b, pattern, i - |a| - 1); }
    }
  }

  /** Trimming what the pattern does not end in keeps or loses no pattern. */
  lemma CutContains(s: string, t: string, pattern: string)
    requires Inline(pattern) && t <= s && forall i :: |t| <= i < |s| ==> Whitespace(s[i])
    ensures Contains(t, pattern) <==> Contains(s, pattern)
  {
    if Contains(s, pattern) {
      var i := Find(s, pattern).value;
      OccursAt(s, pattern, i, |pattern| - 1);
      assert i + |pattern| <= |t|;
      assert t[i..i + |pattern|] == s[i..i + |pattern|];
      OccursIn(t, pattern, i);
    }
    if Contains(t, pattern) {
      var i := Find(t, pattern).value;
      assert s[i..i + |pattern|] == t[i..i + |pattern|];
      OccursIn(s, pattern, i);
    }
  }

  lemma {:induction false} TrimEndCuts(s: string)
    ensures forall i :: |TrimEnd(s)| <= i < |s| ==> Whitespace(s[i])
  {
    if s != "" && Whitespace(s[|s| - 1]) { TrimEndCuts(s[..|s| - 1]); }
  }

  /** A text contains a pattern exactly if one of the lines kept of it does. */
  lemma {:induction false} LinesContain(s: string, pattern: string)
    requires Inline(pattern)
    ensures Contains(s, pattern) <==> exists l :: l in NonEmptyLines(s) && Contains(l, pattern)
    decreases |s|
  {
    hide Inline, TrimEnd, Contains;
    if s == "" {
      NothingInEmpty(pattern);
    } else {
      match Find(s, "\n")
      case None =>
        KeptFirst(s, [], pattern);
        assert Lines(s) == [s] + [];
      case Some(i) =>
        var a, b := s[..i], s[i + 1..];
        assert s == a + "\n" + b by { assert s[i..i + 1] == "\n"; }
        SideContains(a, b, pattern);
        LinesContain(b, pattern);
        StripContains(a, pattern);
        KeptFirst(StripCarriageReturn(a), Lines(b), pattern);
    }
  }

  lemma StripContains(s: string, pattern: string)
    requires Inline(pattern)
    ensures Contains(StripCarriageReturn(s), pattern) <==> Contains(s, pattern)
  {
    CutContains(s, StripCarriageReturn(s), pattern);
  }

  lemma KeptFirst(line: string, more: seq<string>, pattern: string)
    requires Inline(pattern)
    ensures (exists l :: l in Kept([line] + more) && Contains(l, pattern))
            <==> Contains(line, pattern) || exists l :: l in Kept(more) && Contains(l, pattern)
  {
    hide Inline, Contains, TrimEnd;
    TrimEndCuts(line);
    CutContains(line, TrimEnd(line), pattern);
    NothingInEmpty(pattern);
    assert ([line] + more)[1..] == more;
  }
}
