/** The marker block that holds the dev setup's lines in a shell profile
    (packages/dev-setup/src/profile.rs:7-104). */
module Profile {
  import opened Wrappers
  import opened Text

  function Begin(): string { "# >>> epistl dev-setup >>>" }

  function End(): string { "# <<< epistl dev-setup <<<" }

  datatype Outcome = Updated | AlreadyPresent

  /** Where the first begin marker and the first end marker from there on start. */
  datatype Span = Span(begin: nat, end: nat)

  lemma MarkerFacts()
    ensures Inline(Begin()) && Inline(End()) && |Begin()| == |End()| == 26
    ensures Begin()[2] != End()[2] && End()[0] == '#' && forall i :: 1 <= i < |Begin()| ==> Begin()[i] != '#'
  {
  }

  /** The markers do not overlap. */
  lemma MarkersApart(t: string, e: nat)
    requires Occurs(t, Begin(), 0) && Occurs(t, End(), e)
    ensures |Begin()| <= e
  {
    hide Begin, End, Inline;
    MarkerFacts();
    OccursChars(t, Begin(), 0);
    OccursChars(t, End(), e);
    assert t[e] == '#' && t[e + 2] == End()[2] && t[2] == Begin()[2];
  }

  lemma OccursFrom(s: string, pattern: string, i: nat, j: nat)
    requires i <= |s|
    ensures Occurs(s[i..], pattern, j) <==> Occurs(s, pattern, i + j)
  {
    if i + j + |pattern| <= |s| { assert s[i..][j..j + |pattern|] == s[i + j..i + j + |pattern|]; }
  }

  lemma SpanFits(s: string, begin: nat, rel: nat)
    requires Occurs(s, Begin(), begin) && Occurs(s[begin..], End(), rel)
    ensures begin + |Begin()| <= begin + rel && begin + rel + |End()| <= |s|
  {
    hide Begin, End;
    OccursFrom(s, Begin(), begin, 0);
    MarkersApart(s[begin..], rel);
  }

  function FindBlock(s: string): (r: Option<Span>)
    ensures r.Some? ==> r.value.begin + |Begin()| <= r.value.end && r.value.end + |End()| <= |s|
  {
    match Find(s, Begin())
    case None => None
    case Some(begin) =>
      match Find(s[begin..], End())
      case None => None
      case Some(rel) =>
        SpanFits(s, begin, rel);
        Some(Span(begin, begin + rel))
  }

  function ExtractBlockLines(s: string): Option<seq<string>> {
    match FindBlock(s)
    case None => None
    case Some(span) => Some(NonEmptyLines(TrimNewlines(s[span.begin + |Begin()|..span.end])))
  }

  function Merge(existing: seq<string>, incoming: seq<string>): seq<string>
    decreases |incoming|
  {
    if incoming == [] then existing
    else Merge(if incoming[0] in existing then existing else existing + [incoming[0]], incoming[1..])
  }

  /** Past the end marker, and past the newline after it. */
  function After(s: string, span: Span): (r: nat)
    requires span.end + |End()| <= |s|
    ensures r <= |s|
  {
    var end := span.end + |End()|;
    if end < |s| && s[end] == '\n' then end + 1 else end
  }

  function ReplaceBlock(s: string, block: string): Option<string> {
    match FindBlock(s)
    case None => None
    case Some(span) => Some(s[..span.begin] + block + s[After(s, span)..])
  }

  function Block(lines: seq<string>): string {
    Begin() + "\n" + JoinLines(lines) + "\n" + End() + "\n"
  }

  function Merged(s: string, body: string): seq<string> {
    var prior := ExtractBlockLines(s);
    Merge(if prior.Some? then prior.value else [], NonEmptyLines(body))
  }

  /** What comes before a block appended to the text. */
  function Lead(s: string): string {
    (if s != "" && s[|s| - 1] != '\n' then s + "\n" else s) + "\n"
  }

  /** The text a call leaves; it is the text it found exactly if the call changes nothing. */
  function Ensured(s: string, body: string): string {
    match ReplaceBlock(s, Block(Merged(s, body)))
    case Some(updated) => updated
    case None => Lead(s) + Block(Merged(s, body))
  }

  function OutcomeOf(s: string, body: string): Outcome {
    if ReplaceBlock(s, Block(Merged(s, body))) == Some(s) then AlreadyPresent else Updated
  }

  /** The profile; None if there is no such file. */
  class ProfileFile {
    var contents: Option<string>

    constructor (contents: Option<string>)
      ensures this.contents == contents
    {
      this.contents := contents;
    }

    method MergeLines(existing: seq<string>, incoming: seq<string>) returns (out: seq<string>)
      ensures out == Merge(existing, incoming)
    {
      out := existing;
      for i := 0 to |incoming|
        invariant Merge(existing, incoming) == Merge(out, incoming[i..])
      {
        assert incoming[i..][1..] == incoming[i + 1..];
        if incoming[i] !in out {
          out := out + [incoming[i]];
        }
      }
    }

    method EnsureProfileBlock(body: string) returns (outcome: Outcome)
      modifies this
      ensures var s := if old(contents).Some? then old(contents).value else "";
              && outcome == OutcomeOf(s, body)
              && contents == if outcome == AlreadyPresent then old(contents) else Some(Ensured(s, body))
    {
      var incoming := NonEmptyLines(body);
      var existing := if contents.Some? then contents.value else "";
      var prior := ExtractBlockLines(existing);
      var merged := MergeLines(if prior.Some? then prior.value else [], incoming);
      var block := Begin() + "\n" + JoinLines(merged) + "\n" + End() + "\n";
      var updated := ReplaceBlock(existing, block);
      if updated == Some(existing) {
        EmptyHasNoBlock();
        return AlreadyPresent;
      }
      var text: string;
      if updated.Some? {
        text := updated.value;
      } else {
        text := existing;
        if text != "" && text[|text| - 1] != '\n' {
          text := text + "\n";
        }
        text := text + "\n";
        text := text + block;
      }
      contents := Some(text);
      outcome := Updated;
    }
  }

  lemma EmptyHasNoBlock()
    ensures FindBlock("") == None
  {
    hide Begin, End;
    MarkerFacts();
    NothingInEmpty(Begin());
  }

  // ----- What a merge keeps

  /** The lines there were come first, in their order. */
  lemma {:induction false} MergeExtends(existing: seq<string>, incoming: seq<string>)
    ensures existing <= Merge(existing, incoming)
    decreases |incoming|
  {
    if incoming != [] {
      MergeExtends(if incoming[0] in existing then existing else existing + [incoming[0]], incoming[1..]);
    }
  }

  lemma {:induction false} MergeMember(existing: seq<string>, incoming: seq<string>, l: string)
    ensures l in Merge(existing, incoming) <==> l in existing || l in incoming
    decreases |incoming|
  {
    if incoming != [] {
      MergeMember(if incoming[0] in existing then existing else existing + [incoming[0]], incoming[1..], l);
      assert l in incoming <==> l == incoming[0] || l in incoming[1..] by {
        assert incoming == [incoming[0]] + incoming[1..];
      }
    }
  }

  /** After them the missing ones of those coming in, and nothing else. */
  lemma MergeKeeps(existing: seq<string>, incoming: seq<string>)
    ensures existing <= Merge(existing, incoming)
    ensures forall l :: l in Merge(existing, incoming) <==> l in existing || l in incoming
  {
    hide Merge;
    MergeExtends(existing, incoming);
    forall l ensures l in Merge(existing, incoming) <==> l in existing || l in incoming {
      MergeMember(existing, incoming, l);
    }
  }

  /** A line added by a merge is there once. */
  lemma {:induction false} MergeAddsOnce(existing: seq<string>, incoming: seq<string>)
    ensures forall i, j :: 0 <= i < j < |Merge(existing, incoming)| && |existing| <= j ==>
              Merge(existing, incoming)[i] != Merge(existing, incoming)[j]
    decreases |incoming|
  {
    if incoming != [] {
      var next := if incoming[0] in existing then existing else existing + [incoming[0]];
      MergeAddsOnce(next, incoming[1..]);
      MergeExtends(next, incoming[1..]);
    }
  }

  /** The lines added come in the order in which they come in. */
  lemma {:induction false} MergeInOrder(existing: seq<string>, incoming: seq<string>, i: nat) returns (positions: seq<nat>)
    requires i <= |incoming|
    ensures forall n :: 0 <= n < |positions| ==> i <= positions[n] < |incoming|
    ensures forall m, n :: 0 <= m < n < |positions| ==> positions[m] < positions[n]
    ensures var merged := Merge(existing, incoming[i..]);
            && |merged| == |existing| + |positions|
            && forall n :: 0 <= n < |positions| ==> merged[|existing| + n] == incoming[positions[n]]
    decreases |incoming| - i
  {
    positions := [];
    if i < |incoming| {
      assert incoming[i..][1..] == incoming[i + 1..];
      if incoming[i] in existing {
        positions := MergeInOrder(existing, incoming, i + 1);
      } else {
        var later := MergeInOrder(existing + [incoming[i]], incoming, i + 1);
        positions := [i] + later;
        MergeExtends(existing + [incoming[i]], incoming[i + 1..]);
      }
    }
  }

  lemma {:induction false} MergePresent(existing: seq<string>, incoming: seq<string>)
    requires forall l :: l in incoming ==> l in existing
    ensures Merge(existing, incoming) == existing
    decreases |incoming|
  {
    if incoming != [] {
      assert incoming[0] in existing && forall l :: l in incoming[1..] ==> l in incoming;
      MergePresent(existing, incoming[1..]);
    }
  }

  // ----- Finding a block that was written

  predicate NoEnd(lines: seq<string>) { forall l :: l in lines ==> !Contains(l, End()) }

  /** The first end marker in a block of lines without one is the block's own. */
  lemma EndOfBlock(lines: seq<string>, tail: string)
    requires NoEnd(lines)
    ensures Find(Block(lines) + tail, End()) == Some(|Begin()| + |JoinLines(lines)| + 2)
  {
    hide Begin, End, Find, Inline;
    MarkerFacts();
    var j, last := JoinLines(lines), End() + "\n" + tail;
    var text := Begin() + "\n" + (j + "\n" + last);
    assert Block(lines) + tail == text;
    JoinContains(lines, End());
    OneSide(Begin(), j + "\n" + last, End());
    OneSide(j, last, End());
    assert last[0..|End()|] == End();
    assert Occurs(last, End(), 0);
    forall i: nat | i < |Begin()| + |j| + 2 ensures !Occurs(text, End(), i) {
      if Occurs(Begin(), End(), i) { BeginHasNoEnd(i); }
    }
    FindIs(text, End(), |Begin()| + |j| + 2);
  }

  lemma BeginHasNoEnd(i: nat)
    ensures !Occurs(Begin(), End(), i)
  {
    hide Begin, End;
    MarkerFacts();
    assert Begin()[0..|Begin()|] == Begin();
    if Occurs(Begin(), End(), i) { MarkersApart(Begin(), i); }
  }

  /** A text with a block of clean lines after its first begin marker: the block is found, its lines
      come out as they are, and another block takes exactly its place. */
  lemma BlockFound(lead: string, lines: seq<string>, tail: string, block: string)
    requires AllClean(lines) && NoEnd(lines)
    requires Find(lead + Block(lines) + tail, Begin()) == Some(|lead|)
    ensures ExtractBlockLines(lead + Block(lines) + tail) == Some(lines)
    ensures ReplaceBlock(lead + Block(lines) + tail, block) == Some(lead + block + tail)
  {
    hide Begin, End, Find, Clean, Inline, Block, JoinLines;
    var s, j := lead + Block(lines) + tail, JoinLines(lines);
    BlockSlices(lead, lines, tail);
    EndOfBlock(lines, tail);
    var end := |lead| + |Begin()| + |j| + 2;
    assert FindBlock(s) == Some(Span(|lead|, end));
    if lines != [] { JoinEnds(lines); } else { JoinNothing(); }
    TrimInside(j);
    JoinSplits(lines);
  }

  /** Where the parts of a block lie in a text. */
  lemma BlockSlices(lead: string, lines: seq<string>, tail: string)
    ensures var s, end := lead + Block(lines) + tail, |lead| + |Begin()| + |JoinLines(lines)| + 2;
            && s[..|lead|] == lead && s[|lead|..] == Block(lines) + tail
            && end + |End()| < |s| && s[end + |End()|] == '\n' && s[end + |End()| + 1..] == tail
            && s[|lead| + |Begin()|..end] == "\n" + JoinLines(lines) + "\n"
  {
    hide Begin, End, JoinLines;
    var s, j := lead + Block(lines) + tail, JoinLines(lines);
    assert s == (lead + Begin()) + ("\n" + j + "\n") + (End() + "\n" + tail);
    assert s == (lead + Begin() + "\n" + j + "\n" + End() + "\n") + tail;
  }

  // ----- The first call's text

  lemma PrefixOccurs(s: string, n: nat, pattern: string, j: nat)
    requires j + |pattern| <= n <= |s|
    ensures Occurs(s[..n], pattern, j) <==> Occurs(s, pattern, j)
  {
    assert s[..n][j..j + |pattern|] == s[j..j + |pattern|];
  }

  /** A prefix that reaches over the first occurrence settles where it is. */
  lemma FindInPrefix(s: string, s': string, pattern: string, i: nat)
    requires Find(s, pattern) == Some(i) && i + |pattern| <= |s'| && s[..i + |pattern|] == s'[..i + |pattern|]
    ensures Find(s', pattern) == Some(i)
  {
    forall j: nat | j <= i ensures Occurs(s', pattern, j) <==> Occurs(s, pattern, j) {
      PrefixOccurs(s, i + |pattern|, pattern, j);
      PrefixOccurs(s', i + |pattern|, pattern, j);
    }
    FindIs(s', pattern, i);
  }

  lemma BeginBlock(lines: seq<string>, tail: string)
    ensures Occurs(Block(lines) + tail, Begin(), 0)
  {
    hide Begin, End;
    assert (Block(lines) + tail)[0..|Begin()|] == Begin();
  }

  /** An appended block's begin marker is the first, if there was none. */
  lemma AppendedFirst(s: string, lines: seq<string>)
    requires !Contains(s, Begin())
    ensures Find(Lead(s) + Block(lines) + "", Begin()) == Some(|Lead(s)|)
  {
    hide Begin, End, Find, Inline, Block;
    MarkerFacts();
    BeginBlock(lines, "");
    assert Block(lines) + "" == Block(lines);
    var q := if s != "" && s[|s| - 1] != '\n' then s + "\n" else s;
    var text := q + "\n" + Block(lines);
    assert Lead(s) + Block(lines) + "" == text;
    if q != s {
      assert q == s + "\n" + "";
      SideContains(s, "", Begin());
      NothingInEmpty(Begin());
    }
    OneSide(q, Block(lines), Begin());
    forall i: nat | i < |q| + 1 ensures !Occurs(text, Begin(), i) {
      if Occurs(q, Begin(), i) { OccursIn(q, Begin(), i); }
    }
    FindIs(text, Begin(), |q| + 1);
  }

  /** The lines taken from a block have no end marker in them. */
  lemma PriorHasNoEnd(s: string)
    requires ExtractBlockLines(s).Some?
    ensures NoEnd(ExtractBlockLines(s).value) && AllClean(ExtractBlockLines(s).value)
  {
    hide Begin, End, Inline, Clean, Find;
    MarkerFacts();
    var span := FindBlock(s).value;
    var slice := s[span.begin + |Begin()|..span.end];
    if Contains(slice, End()) {
      var i := Find(slice, End()).value;
      SliceOccurs(s, span.begin, span.begin + |Begin()|, span.end, End(), i);
    }
    TrimNewlinesContains(slice, End());
    LinesContain(TrimNewlines(slice), End());
    NonEmptyLinesAreClean(TrimNewlines(slice));
  }

  lemma SliceOccurs(s: string, from: nat, lo: nat, hi: nat, pattern: string, i: nat)
    requires from <= lo <= hi <= |s| && pattern != "" && Occurs(s[lo..hi], pattern, i)
    ensures Occurs(s[from..], pattern, lo - from + i) && lo + i < hi
  {
    var at := lo + i;
    forall k | 0 <= k < |pattern| ensures s[at + k] == pattern[k] {
      OccursAt(s[lo..hi], pattern, i, k);
    }
    assert s[at..at + |pattern|] == pattern;
    OccursFrom(s, pattern, from, lo - from + i);
  }

  lemma {:induction false} TrimNewlinesContains(s: string, pattern: string)
    requires Inline(pattern) && !Contains(s, pattern)
    ensures !Contains(TrimNewlines(s), pattern)
  {
    hide Inline;
    if s != "" && s[0] == '\n' {
      assert s == "" + "\n" + s[1..];
      SideContains("", s[1..], pattern);
      TrimNewlinesContains(s[1..], pattern);
    } else {
      TrimNewlinesEndContains(s, pattern);
    }
  }

  lemma {:induction false} TrimNewlinesEndContains(s: string, pattern: string)
    requires Inline(pattern) && !Contains(s, pattern)
    ensures !Contains(TrimNewlinesEnd(s), pattern)
  {
    hide Inline;
    if s != "" && s[|s| - 1] == '\n' {
      assert s == s[..|s| - 1] + "\n" + "";
      SideContains(s[..|s| - 1], "", pattern);
      TrimNewlinesEndContains(s[..|s| - 1], pattern);
    }
  }

  /** A begin marker with no end marker after it. */
  predicate Unterminated(s: string) { Contains(s, Begin()) && FindBlock(s).None? }

  lemma MergedIsClean(s: string, body: string)
    ensures AllClean(Merged(s, body))
    ensures NoEnd(Merged(s, body)) <==> !Contains(body, End())
  {
    hide Begin, End, Inline, Clean, ExtractBlockLines, Contains, NonEmptyLines;
    MarkerFacts();
    var prior := if ExtractBlockLines(s).Some? then ExtractBlockLines(s).value else [];
    if ExtractBlockLines(s).Some? { PriorHasNoEnd(s); }
    NonEmptyLinesAreClean(body);
    LinesContain(body, End());
    MergeKeeps(prior, NonEmptyLines(body));
  }

  /** After a call the block holds the merged lines, and a second call with the same body finds nothing
      to do: it reports AlreadyPresent and would leave the very same text. */
  lemma BlockHoldsMerged(s: string, body: string)
    requires !Unterminated(s) && !Contains(body, End())
    ensures ExtractBlockLines(Ensured(s, body)) == Some(Merged(s, body))
    ensures OutcomeOf(Ensured(s, body), body) == AlreadyPresent
    ensures Ensured(Ensured(s, body), body) == Ensured(s, body)
  {
    hide Begin, End, Inline, Clean, Find, Block, ExtractBlockLines, Merged;
    var m := Merged(s, body);
    MergedIsClean(s, body);
    var lead, tail := Around(s, m);
    BlockFound(lead, m, tail, Block(m));
    MergedAgain(s, Ensured(s, body), body);
  }

  lemma MergedAgain(s: string, s': string, body: string)
    requires ExtractBlockLines(s') == Some(Merged(s, body))
    ensures Merged(s', body) == Merged(s, body)
  {
    hide ExtractBlockLines, NonEmptyLines;
    var prior := if ExtractBlockLines(s).Some? then ExtractBlockLines(s).value else [];
    MergeKeeps(prior, NonEmptyLines(body));
    MergePresent(Merged(s, body), NonEmptyLines(body));
  }

  /** What a call leaves around the block: the text up to the begin marker and from after the end
      marker on, or all of the text if it had no block. */
  lemma Around(s: string, m: seq<string>) returns (lead: string, tail: string)
    requires !Unterminated(s)
    ensures lead + Block(m) + tail ==
            match ReplaceBlock(s, Block(m)) case Some(updated) => updated case None => Lead(s) + Block(m)
    ensures Find(lead + Block(m) + tail, Begin()) == Some(|lead|)
    ensures match FindBlock(s)
            case Some(span) =>
              && lead == s[..span.begin]
              && tail == s[span.end + 26 + (if span.end + 26 < |s| && s[span.end + 26] == '\n' then 1 else 0)..]
            case None => tail == "" && lead == s + if s == "" || s[|s| - 1] == '\n' then "\n" else "\n\n"
  {
    hide Begin, End, Inline, Find, Block, Contains, Occurs;
    MarkerFacts();
    match FindBlock(s)
    case Some(span) =>
      lead, tail := s[..span.begin], s[After(s, span)..];
      BeginBlock(m, tail);
      FoundBegin(s);
      assert lead + Block(m) + tail == lead + (Block(m) + tail);
      PrefixAgrees(s, lead, Block(m) + tail, Begin());
      FindInPrefix(s, lead + Block(m) + tail, Begin(), span.begin);
    case None =>
      lead, tail := Lead(s), "";
      assert lead + Block(m) + tail == lead + Block(m);
      AppendedFirst(s, m);
  }

  lemma FoundBegin(s: string)
    requires FindBlock(s).Some?
    ensures Find(s, Begin()) == Some(FindBlock(s).value.begin)
    ensures FindBlock(s).value.begin + |Begin()| <= |s|
    ensures Occurs(s, Begin(), FindBlock(s).value.begin)
  {
    hide Begin, End;
  }

  lemma PrefixAgrees(s: string, lead: string, rest: string, pattern: string)
    requires lead <= s && Occurs(s, pattern, |lead|) && Occurs(rest, pattern, 0)
    ensures |lead| + |pattern| <= |lead + rest| && s[..|lead| + |pattern|] == (lead + rest)[..|lead| + |pattern|]
  {
    assert s[..|lead| + |pattern|] == s[..|lead|] + s[|lead|..|lead| + |pattern|];
    assert (lead + rest)[..|lead| + |pattern|] == lead + rest[..|pattern|];
  }

  // ----- When a second call changes nothing

  /** No blank line: no two newlines in a row. */
  ghost predicate NoBlank(s: string) {
    forall i, j :: 0 <= i && j == i + 1 && j < |s| ==> s[i] != '\n' || s[j] != '\n'
  }

  lemma {:induction false} JoinNoBlank(lines: seq<string>)
    requires AllClean(lines)
    ensures NoBlank(JoinLines(lines))
  {
    hide Clean;
    if lines != [] {
      var first := lines[0];
      assert Clean(first);
      CleanIsLine(first);
      if |lines| > 1 {
        assert AllClean(lines[1..]);
        JoinNoBlank(lines[1..]);
        JoinEnds(lines[1..]);
        BlankJoin(first, JoinLines(lines[1..]));
      } else {
        OneLineNoBlank(first);
      }
    }
  }

  lemma OneLineNoBlank(s: string)
    requires OneLine(s)
    ensures NoBlank(s)
  {
  }

  lemma BlankJoin(first: string, rest: string)
    requires OneLine(first) && first != "" && NoBlank(rest) && rest != "" && rest[0] != '\n'
    ensures NoBlank(first + "\n" + rest)
  {
    var s := first + "\n" + rest;
    forall i, j | 0 <= i && j == i + 1 && j < |s| ensures s[i] != '\n' || s[j] != '\n' {
      if j < |first| { assert s[i] == first[i]; } else if i > |first| { assert s[i] == rest[i - |first| - 1] && s[j] == rest[j - |first| - 1]; }
    }
  }

  /** A text that a call leaves as it is holds a block exactly as a call writes it: the end marker
      found is that block's own. */
  lemma UnchangedHasBlock(s: string, lines: seq<string>) returns (begin: nat)
    requires ReplaceBlock(s, Block(lines)) == Some(s)
    ensures Find(s, Begin()) == Some(begin) && begin + |Block(lines)| <= |s|
    ensures s[begin..begin + |Block(lines)|] == Block(lines)
    ensures Find(s[begin..], End()) == Some(|Begin()| + |JoinLines(lines)| + 2)
  {
    hide Begin, End, Find, Inline, JoinLines, Block;
    MarkerFacts();
    BlockSize(lines);
    var span := FindBlock(s).value;
    begin := span.begin;
    var after, block := After(s, span), Block(lines);
    assert s == s[..begin] + block + s[after..];
    assert after == begin + |block|;
    assert s[begin..after] == block;
    assert s[after - 1] == block[|block| - 1] == '\n';
    OccursFrom(s, End(), begin, span.end - begin);
    LastOfEnd(s, span.end);
  }

  lemma BlockSize(lines: seq<string>)
    ensures |Block(lines)| == |Begin()| + |JoinLines(lines)| + |End()| + 3 && Block(lines)[|Block(lines)| - 1] == '\n'
  {
    hide Begin, End, JoinLines;
  }

  lemma LastOfEnd(s: string, i: nat)
    requires Occurs(s, End(), i)
    ensures s[i + |End()| - 1] != '\n'
  {
    hide Begin, End;
    MarkerFacts();
    OccursAt(s, End(), i, |End()| - 1);
  }

  /** So none of its lines contains the end marker. */
  lemma UnchangedHasNoEnd(s: string, lines: seq<string>)
    requires ReplaceBlock(s, Block(lines)) == Some(s)
    ensures NoEnd(lines)
  {
    hide Begin, End, Find, Inline;
    MarkerFacts();
    var begin := UnchangedHasBlock(s, lines);
    var j := JoinLines(lines);
    JoinContains(lines, End());
    if Contains(j, End()) {
      var k := Find(j, End()).value;
      FoundOccurs(j, End());
      BlockOccurs(lines, k);
      PrefixOccurs(s[begin..], |Block(lines)|, End(), |Begin()| + 1 + k);
      FoundFirst(s[begin..], End(), |Begin()| + 1 + k);
    }
  }

  lemma FoundOccurs(s: string, pattern: string)
    requires Contains(s, pattern)
    ensures Occurs(s, pattern, Find(s, pattern).value)
  {
  }

  lemma FoundFirst(s: string, pattern: string, i: nat)
    requires Occurs(s, pattern, i)
    ensures Find(s, pattern).Some? && Find(s, pattern).value <= i
  {
  }

  lemma BlockOccurs(lines: seq<string>, k: nat)
    requires Occurs(JoinLines(lines), End(), k)
    ensures Occurs(Block(lines), End(), |Begin()| + 1 + k)
  {
    hide Begin, End, JoinLines;
    MarkerFacts();
    var block, j := Block(lines), JoinLines(lines);
    assert block[|Begin()| + 1..|Begin()| + 1 + |j|] == j;
    SliceOccurs(block, 0, |Begin()| + 1, |Begin()| + 1 + |j|, End(), k);
    assert block[0..] == block;
  }

  lemma BlockChars(lines: seq<string>, r: nat)
    requires |Begin()| <= r <= |Begin()| + |JoinLines(lines)|
    ensures r < |Block(lines)|
    ensures Block(lines)[r] == if r == |Begin()| then '\n' else JoinLines(lines)[r - |Begin()| - 1]
  {
    hide Begin, End, JoinLines;
  }

  /** No two newlines in a row on the way to a block's last line. */
  lemma BlockNoBlank(lines: seq<string>, r: nat)
    requires AllClean(lines) && |Begin()| <= r < |Begin()| + |JoinLines(lines)|
    ensures r + 1 < |Block(lines)| && (Block(lines)[r] != '\n' || Block(lines)[r + 1] != '\n')
  {
    hide Begin, End, Clean, Block, JoinLines;
    BlockChars(lines, r);
    BlockChars(lines, r + 1);
    JoinNoBlank(lines);
    JoinNothing();
    if lines != [] { JoinEnds(lines); }
  }

  lemma JoinNothing()
    ensures JoinLines([]) == ""
  {
  }

  lemma LeadEnds(s: string)
    ensures |s| + 1 <= |Lead(s)| <= |s| + 2 && s <= Lead(s) && Lead(s)[|Lead(s)| - 1] == '\n'
    ensures s != "" ==> |Lead(s)| >= 2 && Lead(s)[|Lead(s)| - 2] == '\n'
    ensures s != "" && s[|s| - 1] != '\n' ==> |Lead(s)| == |s| + 2
  {
  }

  /** No end marker lies before the newline that ends the lead of an appended block. */
  lemma NoEndInLead(s: string, q: string, begin: nat, e: nat)
    requires Unterminated(s) && Find(s, Begin()) == Some(begin) && begin <= |s| && (q == s || q == s + "\n")
    ensures !Occurs(q, End(), begin + e)
  {
    hide Begin, End, Inline, Find;
    MarkerFacts();
    if q != s {
      assert q == s + "\n" + "";
      OneSide(s, "", End());
    }
    OccursFrom(s, End(), begin, e);
    NoBlockNoEnd(s, begin, e);
  }

  /** An end marker in the text left for an unterminated one lies in the appended block. */
  lemma EndIsAppended(s: string, lines: seq<string>, begin: nat, e: nat)
    requires Unterminated(s) && Find(s, Begin()) == Some(begin) && begin <= |s|
    requires Occurs(Lead(s) + Block(lines), End(), begin + e)
    ensures |Lead(s)| + |Begin()| <= begin + e
  {
    hide Begin, End, Inline, Find, Block, Unterminated;
    MarkerFacts();
    var q := if s != "" && s[|s| - 1] != '\n' then s + "\n" else s;
    var t, x := q + "\n" + Block(lines), begin + e;
    assert t == Lead(s) + Block(lines);
    NoEndInLead(s, q, begin, e);
    OneSide(q, Block(lines), End());
    BeginBlock(lines, "");
    assert t[|q| + 1..] == Block(lines) + "";
    OccursFrom(t, End(), |q| + 1, x - |q| - 1);
    MarkersApart(t[|q| + 1..], x - |q| - 1);
  }

  lemma NoBlockNoEnd(s: string, begin: nat, e: nat)
    requires FindBlock(s) == None && Find(s, Begin()) == Some(begin) && begin <= |s|
    ensures !Occurs(s[begin..], End(), e)
  {
  }

  /** Where a block lies, up to its last line, no two newlines meet. */
  lemma NoGap(t: string, lines: seq<string>, begin: nat, p: nat)
    requires AllClean(lines) && begin + |Block(lines)| <= |t| && t[begin..begin + |Block(lines)|] == Block(lines)
    requires begin + |Begin()| + 2 <= p <= begin + |JoinLines(lines)| + 2
    ensures p <= |t| && (t[p - 2] != '\n' || t[p - 1] != '\n')
  {
    hide Begin, End, Clean, JoinLines, Block;
    MarkerFacts();
    var r := p - 2 - begin;
    BlockNoBlank(lines, r);
    assert Block(lines)[r] == t[begin + r] && Block(lines)[r + 1] == t[begin + r + 1];
  }

  /** The begin marker of an unterminated block stays the first in the text left for it, and ends
      before the newline the text is led out with. */
  lemma UnterminatedBegin(s: string, lines: seq<string>) returns (b: nat)
    requires Unterminated(s)
    ensures Find(s, Begin()) == Find(Lead(s) + Block(lines), Begin()) == Some(b)
    ensures b + |Begin()| + 2 <= |Lead(s)| && Lead(s)[|Lead(s)| - 2] == Lead(s)[|Lead(s)| - 1] == '\n'
  {
    hide Begin, End, Inline, Find, Block, Lead;
    MarkerFacts();
    LeadEnds(s);
    FoundOccurs(s, Begin());
    b := Find(s, Begin()).value;
    var t := Lead(s) + Block(lines);
    assert s[..b + |Begin()|] == t[..b + |Begin()|];
    FindInPrefix(s, t, Begin(), b);
    OccursAt(s, Begin(), b, |Begin()| - 1);
    LastOfBegin();
  }

  /** After an unterminated begin marker is appended to, the next call always rewrites the text: it
      takes the blank line before the appended block out. */
  lemma UnterminatedChangesAgain(s: string, body: string)
    requires Unterminated(s)
    ensures OutcomeOf(Ensured(s, body), body) == Updated
  {
    hide Begin, End, Inline, Find, Block, Merged, Clean, JoinLines, Lead, Unterminated;
    var m := Merged(s, body);
    var t := Lead(s) + Block(m);
    UnterminatedAppends(s, body);
    if ReplaceBlock(t, Block(Merged(t, body))) == Some(t) { WouldClash(s, m, Merged(t, body), body); }
  }

  lemma UnterminatedAppends(s: string, body: string)
    requires Unterminated(s)
    ensures Ensured(s, body) == Lead(s) + Block(Merged(s, body))
  {
    hide Begin, End, Find, Block, Merged, Lead;
  }

  lemma WouldClash(s: string, lines: seq<string>, lines': seq<string>, body: string)
    requires Unterminated(s) && lines' == Merged(Lead(s) + Block(lines), body)
    ensures ReplaceBlock(Lead(s) + Block(lines), Block(lines')) != Some(Lead(s) + Block(lines))
  {
    hide Begin, End, Inline, Find, Block, Merged, Clean, JoinLines, Lead, Unterminated, ReplaceBlock;
    var t := Lead(s) + Block(lines);
    if ReplaceBlock(t, Block(lines')) == Some(t) {
      MergedIsClean(t, body);
      var begin := UnchangedHasBlock(t, lines');
      var b := UnterminatedBegin(s, lines);
      var e := |Begin()| + |JoinLines(lines')| + 2;
      FoundOccurs(t[begin..], End());
      OccursFrom(t, End(), begin, e);
      EndIsAppended(s, lines, begin, e);
      NoGap(t, lines', begin, |Lead(s)|);
    }
  }

  lemma LastOfBegin()
    ensures Begin()[|Begin()| - 1] != '\n'
  {
    hide Begin;
    MarkerFacts();
  }

  /** A second call reports AlreadyPresent, on a text identical to the first call's, if and only if the
      text had no unterminated begin marker and the body contains no end marker. */
  lemma IdempotentIff(s: string, body: string)
    ensures OutcomeOf(Ensured(s, body), body) == AlreadyPresent <==> !Unterminated(s) && !Contains(body, End())
  {
    hide Begin, End, Contains, Unterminated, Ensured, Merged, Block, ReplaceBlock, Clean;
    if Unterminated(s) {
      UnterminatedChangesAgain(s, body);
    } else if !Contains(body, End()) {
      BlockHoldsMerged(s, body);
    } else if OutcomeOf(Ensured(s, body), body) == AlreadyPresent {
      UnchangedHasNoEnd(Ensured(s, body), Merged(Ensured(s, body), body));
      MergedIsClean(Ensured(s, body), body);
    }
  }

  /** The text around the block is left as it was, and so is the order of the lines in it; every line
      of the body is there, and nothing that was in neither. */
  lemma RestUntouched(s: string, body: string) returns (lead: string, tail: string)
    requires !Unterminated(s)
    ensures Ensured(s, body) == lead + Block(Merged(s, body)) + tail
    ensures match FindBlock(s)
            case Some(span) =>
              && lead == s[..span.begin]
              && tail == s[span.end + 26 + (if span.end + 26 < |s| && s[span.end + 26] == '\n' then 1 else 0)..]
            case None => tail == "" && lead == s + if s == "" || s[|s| - 1] == '\n' then "\n" else "\n\n"
    ensures ExtractBlockLines(s).Some? ==> ExtractBlockLines(s).value <= Merged(s, body)
    ensures forall l :: l in Merged(s, body) <==>
              l in NonEmptyLines(body) || (ExtractBlockLines(s).Some? && l in ExtractBlockLines(s).value)
  {
    hide Begin, End, Block, Find, NonEmptyLines, FindBlock;
    MarkerFacts();
    lead, tail := Around(s, Merged(s, body));
    MergeKeeps(if ExtractBlockLines(s).Some? then ExtractBlockLines(s).value else [], NonEmptyLines(body));
  }

  /** A call reports AlreadyPresent exactly if it would leave the text as it is. */
  lemma PresentIff(s: string, body: string)
    ensures OutcomeOf(s, body) == AlreadyPresent <==> Ensured(s, body) == s
  {
    hide Begin, End, Block, Lead, Merged, ReplaceBlock;
    LeadEnds(s);
  }

  /** The block as it stands in the file. */
  lemma BlockText(lines: seq<string>)
    ensures Block(lines) == "# >>> epistl dev-setup >>>\n" + JoinLines(lines) + "\n# <<< epistl dev-setup <<<\n"
  {
    var j := JoinLines(lines);
    assert Begin() + "\n" == "# >>> epistl dev-setup >>>\n";
    assert "\n" + End() + "\n" == "\n# <<< epistl dev-setup <<<\n";
    assert Block(lines) == (Begin() + "\n") + j + ("\n" + End() + "\n");
  }
}
