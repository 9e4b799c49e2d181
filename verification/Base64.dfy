/** Base64 (apps/mobile/src/utils/base64.ts, lines 118-193). */
module Base64 {
  import opened Words
  import Utf8

  type Sextet = n: nat | n < 0x40

  function Upper(): string { "ABCDEFGHIJKLMNOPQRSTUVWXYZ" }

  function Lower(): string { "abcdefghijklmnopqrstuvwxyz" }

  function Digits(): string { "0123456789" }

  /** BASE64_CHARS. */
  function Alphabet(): (s: string)
    ensures |s| == 64
  {
    Upper() + Lower() + Digits() + "+/"
  }

  function CharOf(v: Sextet): char { Alphabet()[v] }

  // ----- Section 4 of RFC 4648, the reference for encoder and decoder

  /** A 24-bit group as four 6-bit groups, first to last. */
  function GroupSextets(v: nat): seq<Sextet>
    requires v < 0x100_0000
  {
    [v / 0x40000, v / 0x1000 % 0x40, v / 0x40 % 0x40, v % 0x40]
  }

  /** The 24-bit group of up to three octets, zero bits added on the right. */
  function Group(b0: Byte, b1: Byte, b2: Byte): (v: nat)
    ensures v < 0x100_0000
  {
    b0 * 0x10000 + b1 * 0x100 + b2
  }

  function Sextets(bytes: Bytes): seq<Sextet> {
    if |bytes| == 0 then []
    else if |bytes| == 1 then GroupSextets(Group(bytes[0], 0, 0))[..2]
    else if |bytes| == 2 then GroupSextets(Group(bytes[0], bytes[1], 0))[..3]
    else GroupSextets(Group(bytes[0], bytes[1], bytes[2])) + Sextets(bytes[3..])
  }

  function Chars(vs: seq<Sextet>): string {
    if vs == [] then "" else [CharOf(vs[0])] + Chars(vs[1..])
  }

  function Padding(n: nat): string { if n % 3 == 0 then "" else if n % 3 == 1 then "==" else "=" }

  function Rfc4648(bytes: Bytes): string { Chars(Sextets(bytes)) + Padding(|bytes|) }

  lemma {:induction false} CharsAppend(a: seq<Sextet>, b: seq<Sextet>)
    ensures Chars(a + b) == Chars(a) + Chars(b)
  {
    if a == [] {
      assert a + b == b;
    } else {
      assert (a + b)[1..] == a[1..] + b;
      CharsAppend(a[1..], b);
    }
  }

  lemma CharsLength(vs: seq<Sextet>)
    ensures |Chars(vs)| == |vs|
    ensures forall k :: 0 <= k < |vs| ==> Chars(vs)[k] == CharOf(vs[k])
  {
  }

  lemma {:induction false} SextetsLength(bytes: Bytes)
    ensures |Sextets(bytes)| == (4 * |bytes| + 2) / 3
  {
    if |bytes| >= 3 { SextetsLength(bytes[3..]); }
  }

  /** The output is four characters for every three bytes begun. */
  lemma Rfc4648Length(bytes: Bytes)
    ensures |Rfc4648(bytes)| == 4 * ((|bytes| + 2) / 3)
  {
    hide Sextets, Chars;
    SextetsLength(bytes);
    CharsLength(Sextets(bytes));
  }

  // ----- The encoder

  /** What one turn of the encoder's loop appends for the bytes at i. */
  function Turn(bytes: Bytes, i: nat): string
    requires i < |bytes|
  {
    var b0 := bytes[i];
    var has1, has2 := i + 1 < |bytes|, i + 2 < |bytes|;
    var b1, b2 := if has1 then bytes[i + 1] else 0, if has2 then bytes[i + 2] else 0;
    [CharOf(b0 / 4),
     CharOf(Or(b0 % 4 * 0x10, b1 / 0x10, 0x10)),
     if has1 then CharOf(Or(b1 % 0x10 * 4, b2 / 0x40, 4)) else '=',
     if has2 then CharOf(b2 % 0x40) else '=']
  }

  lemma GroupOf(d0: Sextet, d1: Sextet, d2: Sextet, d3: Sextet)
    ensures GroupSextets(d0 * 0x40000 + d1 * 0x1000 + d2 * 0x40 + d3) == [d0, d1, d2, d3]
  {
    var v := d0 * 0x40000 + d1 * 0x1000 + d2 * 0x40 + d3;
    assert v / 0x40 == d0 * 0x1000 + d1 * 0x40 + d2;
    assert v / 0x1000 == d0 * 0x40 + d1;
    assert v / 0x40000 == d0;
  }

  /** The four indices of the encoder are the four 6-bit groups. */
  lemma GroupDigits(b0: Byte, b1: Byte, b2: Byte)
    ensures GroupSextets(Group(b0, b1, b2)) == [b0 / 4, b0 % 4 * 0x10 + b1 / 0x10, b1 % 0x10 * 4 + b2 / 0x40, b2 % 0x40]
  {
    hide GroupSextets;
    GroupOf(b0 / 4, b0 % 4 * 0x10 + b1 / 0x10, b1 % 0x10 * 4 + b2 / 0x40, b2 % 0x40);
  }

  lemma CharsOfFour(vs: seq<Sextet>)
    requires |vs| <= 4
    ensures Chars(vs) == seq(|vs|, k requires 0 <= k < |vs| => CharOf(vs[k]))
  {
    hide CharOf;
    CharsLength(vs);
  }

  lemma FullTurn(bytes: Bytes, i: nat)
    requires i + 3 <= |bytes|
    ensures Chars(GroupSextets(Group(bytes[i], bytes[i + 1], bytes[i + 2]))) == Turn(bytes, i)
  {
    hide GroupSextets, CharOf, Chars, Group;
    GroupDigits(bytes[i], bytes[i + 1], bytes[i + 2]);
    CharsOfFour(GroupSextets(Group(bytes[i], bytes[i + 1], bytes[i + 2])));
  }

  /** What the encoder has still to produce from index i. */
  function Rest(bytes: Bytes, i: nat): string { if i < |bytes| then Rfc4648(bytes[i..]) else "" }

  lemma RestStarts(bytes: Bytes)
    ensures Rest(bytes, 0) == Rfc4648(bytes)
    ensures forall i :: i >= |bytes| ==> Rest(bytes, i) == ""
  {
    assert bytes[0..] == bytes;
  }

  lemma RestStep(bytes: Bytes, i: nat)
    requires i < |bytes|
    ensures Rest(bytes, i) == Turn(bytes, i) + Rest(bytes, i + 3)
  {
    hide GroupSextets, CharOf, Group, Chars, Turn;
    var rest := bytes[i..];
    if i + 3 <= |bytes| {
      FullTurn(bytes, i);
      assert rest[3..] == bytes[i + 3..];
      CharsAppend(GroupSextets(Group(bytes[i], bytes[i + 1], bytes[i + 2])), Sextets(rest[3..]));
      if i + 3 == |bytes| { EmptyChars(bytes[i + 3..]); }
    } else {
      LastTurn(bytes, i);
    }
  }

  lemma EmptyChars(bytes: Bytes)
    requires bytes == []
    ensures Chars(Sextets(bytes)) == ""
  {
  }

  lemma LastTurn(bytes: Bytes, i: nat)
    requires i < |bytes| < i + 3
    ensures Rfc4648(bytes[i..]) == Turn(bytes, i)
  {
    hide GroupSextets, CharOf, Chars, Group;
    GroupDigits(bytes[i], if i + 1 < |bytes| then bytes[i + 1] else 0, 0);
    CharsOfFour(Sextets(bytes[i..]));
  }

  method BytesToBase64(bytes: Bytes) returns (result: string)
    ensures result == Rfc4648(bytes)
  {
    hide Rest, Rfc4648, CharOf;
    result := "";
    var i := 0;
    RestStarts(bytes);
    while i < |bytes|
      invariant 0 <= i
      invariant result + Rest(bytes, i) == Rfc4648(bytes)
    {
      RestStep(bytes, i);
      var b0 := bytes[i];
      var has1, has2 := i + 1 < |bytes|, i + 2 < |bytes|;
      var b1, b2 := if has1 then bytes[i + 1] else 0, if has2 then bytes[i + 2] else 0;
      ghost var before := result;
      result := result + [CharOf(b0 / 4)];
      result := result + [CharOf(Or(b0 % 4 * 0x10, b1 / 0x10, 0x10))];
      result := result + [if has1 then CharOf(Or(b1 % 0x10 * 4, b2 / 0x40, 4)) else '='];
      result := result + [if has2 then CharOf(b2 % 0x40) else '='];
      assert result == before + Turn(bytes, i);
      i := i + 3;
      assert result + Rest(bytes, i) == before + (Turn(bytes, i - 3) + Rest(bytes, i));
    }
  }

  // ----- The decoder

  /** The first index of `c` in `s`, or -1. */
  function IndexIn(s: string, c: char): int {
    if s == "" then -1
    else if s[0] == c then 0
    else
      var i := IndexIn(s[1..], c);
      if i < 0 then -1 else i + 1
  }

  lemma UpperIs(k: nat)
    requires k < 26
    ensures Upper()[k] as int == 65 + k
  {
  }

  lemma LowerIs(k: nat)
    requires k < 26
    ensures Lower()[k] as int == 97 + k
  {
  }

  lemma DigitIs(k: nat)
    requires k < 10
    ensures Digits()[k] as int == 48 + k
  {
  }

  /** The alphabet runs A-Z, a-z, 0-9, +, /. */
  lemma AlphabetIs(v: Sextet)
    ensures CharOf(v) as int == if v < 26 then 65 + v else if v < 52 then 71 + v
                                else if v < 62 then v - 4 else if v == 62 then 43 else 47
  {
    AlphabetLengths();
    hide Upper, Lower, Digits;
    if v < 26 { UpperIs(v); } else if v < 52 { LowerIs(v - 26); } else if v < 62 { DigitIs(v - 52); }
  }

  lemma AlphabetLengths()
    ensures |Upper()| == |Lower()| == 26 && |Digits()| == 10
  {
  }

  lemma {:induction false} IndexInFinds(s: string, k: nat)
    requires k < |s| && forall j :: 0 <= j < k ==> s[j] != s[k]
    ensures IndexIn(s, s[k]) == k
  {
    if k > 0 { IndexInFinds(s[1..], k - 1); }
  }

  lemma {:induction false} IndexInMisses(s: string, c: char)
    ensures IndexIn(s, c) < 0 <==> c !in s
    ensures IndexIn(s, c) < |s|
  {
    if s != "" { IndexInMisses(s[1..], c); }
  }

  /** The decoder finds every character the encoder writes, and never the padding. */
  lemma IndexUndoes(v: Sextet)
    ensures IndexIn(Alphabet(), CharOf(v)) == v
    ensures CharOf(v) != '='
  {
    AlphabetIs(v);
    hide Upper, Lower, Digits;
    forall j: nat | j < v ensures Alphabet()[j] != Alphabet()[v] {
      AlphabetIs(j);
    }
    IndexInFinds(Alphabet(), v);
  }

  /** The text without its trailing padding. */
  function StripPadding(s: string): string {
    if s != "" && s[|s| - 1] == '=' then StripPadding(s[..|s| - 1]) else s
  }

  /** The sextets of the characters that are in the alphabet; others are skipped. */
  function Values(s: string): seq<Sextet> {
    if s == "" then []
    else
      IndexInMisses(Alphabet(), s[|s| - 1]);
      var v := IndexIn(Alphabet(), s[|s| - 1]);
      Values(s[..|s| - 1]) + if v == -1 then [] else [v]
  }

  /** The three octets of a group of four sextets, each from the two it straddles. */
  function First(a: nat, b: nat): Byte
    requires a < 0x40 && b < 0x40
  {
    a * 4 + b / 0x10
  }

  function Second(b: nat, c: nat): Byte
    requires b < 0x40 && c < 0x40
  {
    b % 0x10 * 0x10 + c / 4
  }

  function Third(c: nat, d: nat): Byte
    requires c < 0x40 && d < 0x40
  {
    c % 4 * 0x40 + d
  }

  /** The octets that the sextets complete; leftover bits are dropped. */
  function Octets(vs: seq<Sextet>): Bytes {
    if |vs| < 2 then []
    else if |vs| == 2 then [First(vs[0], vs[1])]
    else if |vs| == 3 then [First(vs[0], vs[1]), Second(vs[1], vs[2])]
    else [First(vs[0], vs[1]), Second(vs[1], vs[2]), Third(vs[2], vs[3])] + Octets(vs[4..])
  }

  /** What the decoder must produce on any text. */
  function Decoded(text: string): Bytes { Octets(Values(StripPadding(text))) }

  /** What sextet v completes after n others, the last of which is `last`. */
  function Completes(n: nat, last: Sextet, v: Sextet): Bytes {
    if n % 4 == 0 then [] else if n % 4 == 1 then [First(last, v)] else if n % 4 == 2 then [Second(last, v)]
    else [Third(last, v)]
  }

  lemma {:induction false} OctetsAppend(vs: seq<Sextet>, v: Sextet)
    ensures Octets(vs + [v]) == Octets(vs) + Completes(|vs|, if vs == [] then 0 else vs[|vs| - 1], v)
  {
    hide First, Second, Third;
    if |vs| >= 4 {
      hide Octets;
      var first, more := vs[..4], vs[4..];
      OctetsSplit(vs);
      OctetsSplit(vs + [v]);
      assert (vs + [v])[..4] == first && (vs + [v])[4..] == more + [v];
      OctetsAppend(more, v);
      if |vs| == 4 {
        NoOctets(more);
        NoOctets(more + [v]);
      } else {
        assert more[|more| - 1] == vs[|vs| - 1] && |more| % 4 == |vs| % 4;
      }
    }
  }

  lemma OctetsSplit(vs: seq<Sextet>)
    requires |vs| >= 4
    ensures Octets(vs) == Octets(vs[..4]) + Octets(vs[4..])
  {
    hide First, Second, Third;
    assert vs[..4][4..] == [];
  }

  lemma NoOctets(vs: seq<Sextet>)
    requires |vs| < 2
    ensures Octets(vs) == []
  {
  }

  /** The bits collected after n sextets and not yet pushed. */
  function Pending(n: nat): nat { if n % 4 == 0 then 0 else if n % 4 == 1 then 6 else if n % 4 == 2 then 4 else 2 }

  function PowerOfTwo(k: nat): nat
    requires k <= 6
  {
    if k == 0 then 1 else 2 * PowerOfTwo(k - 1)
  }

  lemma DivIs(x: int, d: int, q: int, r: int)
    requires d == 4 || d == 0x10 || d == 0x40 || d == 0x100 || d == TWO_TO_THE_32
    requires x == q * d + r && 0 <= r < d
    ensures x / d == q && x % d == r
  {
  }

  /** The low six bits of the accumulator are the last sextet, and the octet pushed is made of it and
      the new one, although the accumulator overflows and turns negative. */
  lemma PushedOctet(buffer: int, next: int, last: nat, v: nat)
    requires last < 0x40 && v < 0x40
    requires buffer % 0x40 == last && (next - (buffer * 0x40 + v)) % TWO_TO_THE_32 == 0
    ensures next % 0x40 == v
    ensures next / 0x10 % 0x100 == First(last, v)
    ensures next / 4 % 0x100 == Second(last, v)
    ensures next % 0x100 == Third(last, v)
  {
    var k, m := buffer / 0x40, (next - (buffer * 0x40 + v)) / TWO_TO_THE_32;
    LowBits(next, k + m * 0x10_0000, last, v);
  }

  lemma LowBits(next: int, high: int, last: nat, v: nat)
    requires last < 0x40 && v < 0x40 && next == high * 0x1000 + last * 0x40 + v
    ensures next % 0x40 == v
    ensures next / 0x10 % 0x100 == First(last, v)
    ensures next / 4 % 0x100 == Second(last, v)
    ensures next % 0x100 == Third(last, v)
  {
    DivIs(next, 0x40, high * 0x40 + last, v);
    DivIs(next, 0x10, high * 0x100 + First(last, v), v % 0x10);
    DivIs(next / 0x10, 0x100, high, First(last, v));
    DivIs(next, 4, high * 0x400 + last * 0x10 + v / 4, v % 4);
    DivIs(next / 4, 0x100, high * 4 + last / 0x10, Second(last, v));
    DivIs(next, 0x100, high * 0x10 + last / 4, Third(last, v));
  }

  /** `(x >> k) & 0xff` for the shifts the decoder makes; the arithmetic shift rounds down. */
  function ShiftedByte(x: int, k: nat): Byte
    requires k == 0 || k == 2 || k == 4
  {
    (if k == 0 then x else if k == 2 then x / 4 else x / 0x10) % 0x100
  }

  /** The decoder's state after the sextets vs. */
  ghost predicate Accumulated(vs: seq<Sextet>, buffer: int, bitsCollected: nat, bytes: Bytes) {
    && -0x8000_0000 <= buffer < 0x8000_0000
    && (vs != [] ==> buffer % 0x40 == vs[|vs| - 1])
    && bitsCollected == Pending(|vs|)
    && bytes == Octets(vs)
  }

  /** `next` is the accumulator with v shifted in, up to overflow. */
  ghost predicate ShiftsIn(buffer: int, v: nat, next: int) {
    -0x8000_0000 <= next < 0x8000_0000 && (next - (buffer * 0x40 + v)) % TWO_TO_THE_32 == 0
  }

  lemma PushedByte(buffer: int, next: int, v: Sextet)
    requires ShiftsIn(buffer, v, next)
    ensures next % 0x40 == v
    ensures var last := buffer % 0x40;
            && ShiftedByte(next, 4) == First(last, v)
            && ShiftedByte(next, 2) == Second(last, v)
            && ShiftedByte(next, 0) == Third(last, v)
  {
    PushedOctet(buffer, next, buffer % 0x40, v);
  }

  /** One sextet shifted in, and an octet pushed when eight bits are there. */
  lemma AccumulateOne(vs: seq<Sextet>, buffer: int, bits: nat, bytes: Bytes, v: Sextet, next: int)
    requires Accumulated(vs, buffer, bits, bytes) && ShiftsIn(buffer, v, next)
    ensures bits + 6 < 8 ==> Accumulated(vs + [v], next, bits + 6, bytes)
    ensures bits + 6 >= 8 ==> bits - 2 in {0, 2, 4}
                              && Accumulated(vs + [v], next, bits - 2, bytes + [ShiftedByte(next, bits - 2)])
  {
    hide Octets, First, Second, Third, ShiftedByte;
    OctetsAppend(vs, v);
    PushedByte(buffer, next, v);
    assert -0x8000_0000 <= next < 0x8000_0000;
  }

  lemma ValuesStep(s: string, i: nat)
    requires i < |s|
    ensures var v := IndexIn(Alphabet(), s[i]);
            -1 <= v < 64 && Values(s[..i + 1]) == Values(s[..i]) + if v == -1 then [] else [v]
  {
    hide Alphabet;
    IndexInMisses(Alphabet(), s[i]);
    IndexInAtLeast(Alphabet(), s[i]);
    assert s[..i + 1][..i] == s[..i];
  }

  lemma {:induction false} IndexInAtLeast(s: string, c: char)
    ensures IndexIn(s, c) >= -1
  {
    if s != "" { IndexInAtLeast(s[1..], c); }
  }

  method Base64ToBytes(base64: string) returns (bytes: Bytes)
    ensures bytes == Decoded(base64)
  {
    hide Accumulated, Values, Alphabet, StripPadding, Octets, ShiftsIn, ShiftedByte, ToInt32;
    var cleaned := StripPadding(base64);
    bytes := [];
    var buffer: int, bitsCollected: nat := 0, 0;
    NothingAccumulated(cleaned);
    for i := 0 to |cleaned|
      invariant Accumulated(Values(cleaned[..i]), buffer, bitsCollected, bytes)
    {
      ValuesStep(cleaned, i);
      ghost var vs := Values(cleaned[..i]);
      var value := IndexIn(Alphabet(), cleaned[i]);
      if value == -1 {
        assert vs + [] == vs;
        continue;
      }
      ghost var before := buffer;
      ShiftedIn(buffer, value);
      buffer := Or(ToInt32(buffer * 0x40), value, 0x40);
      AccumulateOne(vs, before, bitsCollected, bytes, value, buffer);
      bitsCollected := bitsCollected + 6;
      if bitsCollected >= 8 {
        bitsCollected := bitsCollected - 8;
        bytes := bytes + [ShiftedByte(buffer, bitsCollected)];
      }
    }
    assert cleaned[..|cleaned|] == cleaned;
    AccumulatedOctets(Values(cleaned), buffer, bitsCollected, bytes);
  }

  lemma AccumulatedOctets(vs: seq<Sextet>, buffer: int, bits: nat, bytes: Bytes)
    requires Accumulated(vs, buffer, bits, bytes)
    ensures bytes == Octets(vs)
  {
  }

  lemma NothingAccumulated(cleaned: string)
    ensures Accumulated(Values(cleaned[..0]), 0, 0, [])
  {
  }

  /** The low six bits are free after the shift, also when it overflows. */
  lemma ShiftedIn(buffer: int, value: nat)
    requires value < 0x40
    ensures ToInt32(buffer * 0x40) % 0x40 == 0
    ensures ShiftsIn(buffer, value, ToInt32(buffer * 0x40) + value)
  {
    var shifted := ToInt32(buffer * 0x40);
    var m := (shifted - buffer * 0x40) / TWO_TO_THE_32;
    assert shifted == (buffer + m * 0x400_0000) * 0x40;
    DivIs(shifted, 0x40, buffer + m * 0x400_0000, 0);
  }

  // ----- Decoding undoes encoding

  lemma {:induction false} ValuesOfChars(vs: seq<Sextet>)
    ensures Values(Chars(vs)) == vs
  {
    hide Alphabet, CharOf;
    if vs != [] {
      var front, last := vs[..|vs| - 1], vs[|vs| - 1];
      assert vs == front + [last];
      CharsAppend(front, [last]);
      assert Chars([last]) == [CharOf(last)] by { assert [last][1..] == []; }
      assert Chars(vs)[..|vs| - 1] == Chars(front) by { CharsLength(front); }
      CharsLength(vs);
      IndexUndoes(last);
      ValuesOfChars(front);
    }
  }

  /** The padding is what stripping removes: no character of the alphabet is '='. */
  lemma StripRemovesPadding(bytes: Bytes)
    ensures StripPadding(Rfc4648(bytes)) == Chars(Sextets(bytes))
  {
    hide Sextets, Alphabet, CharOf;
    var body := Chars(Sextets(bytes));
    CharsLength(Sextets(bytes));
    assert StripPadding(body) == body by {
      if body != "" { IndexUndoes(Sextets(bytes)[|body| - 1]); }
    }
    assert (body + "=")[..|body|] == body;
    assert (body + "==")[..|body| + 1] == body + "=";
    assert body + "" == body;
  }

  lemma GroupsUndo(b0: nat, b1: nat, b2: nat)
    requires b0 < 0x100 && b1 < 0x100 && b2 < 0x100
    ensures First(b0 / 4, b0 % 4 * 0x10 + b1 / 0x10) == b0
    ensures Second(b0 % 4 * 0x10 + b1 / 0x10, b1 % 0x10 * 4 + b2 / 0x40) == b1
    ensures Third(b1 % 0x10 * 4 + b2 / 0x40, b2 % 0x40) == b2
  {
    DivIs(b0 % 4 * 0x10 + b1 / 0x10, 0x10, b0 % 4, b1 / 0x10);
    DivIs(b1 % 0x10 * 4 + b2 / 0x40, 4, b1 % 0x10, b2 / 0x40);
  }

  lemma {:induction false} OctetsOfSextets(bytes: Bytes)
    ensures Octets(Sextets(bytes)) == bytes
  {
    hide GroupSextets, Group, First, Second, Third;
    if bytes != [] {
      var b1, b2 := if |bytes| > 1 then bytes[1] else 0, if |bytes| > 2 then bytes[2] else 0;
      GroupDigits(bytes[0], b1, b2);
      GroupsUndo(bytes[0], b1, b2);
      if |bytes| >= 3 {
        OctetsOfSextets(bytes[3..]);
        assert Sextets(bytes)[4..] == Sextets(bytes[3..]);
      }
    }
  }

  /** Decoding the base64 text of a byte array returns the array. */
  lemma RoundTrip(bytes: Bytes)
    ensures Decoded(Rfc4648(bytes)) == bytes
  {
    hide StripPadding, Values, Octets, Rfc4648, Sextets, Chars;
    StripRemovesPadding(bytes);
    ValuesOfChars(Sextets(bytes));
    OctetsOfSextets(bytes);
  }

  /** Text survives UTF-8 and base64 together. */
  lemma TextRoundTrip(text: Utf8.Text)
    ensures Utf8.Decoded(Decoded(Rfc4648(Utf8.Encoded(text)))) == text
  {
    RoundTrip(Utf8.Encoded(text));
    Utf8.RoundTrip(text);
  }

  // ----- Any text

  /** The characters of the alphabet that a text holds. */
  function Kept(s: string): string {
    if s == "" then "" else Kept(s[..|s| - 1]) + if s[|s| - 1] in Alphabet() then [s[|s| - 1]] else ""
  }

  lemma {:induction false} ValuesOfKept(s: string)
    ensures Values(Kept(s)) == Values(s) && |Values(s)| == |Kept(s)|
  {
    hide Alphabet;
    if s != "" {
      var init, last := s[..|s| - 1], s[|s| - 1];
      ValuesOfKept(init);
      IndexInMisses(Alphabet(), last);
      IndexInAtLeast(Alphabet(), last);
      if last in Alphabet() {
        assert Kept(s)[..|Kept(s)| - 1] == Kept(init);
      } else {
        assert Kept(s) == Kept(init);
      }
    }
  }

  lemma {:induction false} PaddingHasNoValue(s: string)
    ensures Values(StripPadding(s)) == Values(s)
  {
    hide Alphabet;
    if s != "" && s[|s| - 1] == '=' {
      PaddingHasNoValue(s[..|s| - 1]);
      NotInAlphabet();
      IndexInMisses(Alphabet(), '=');
      IndexInAtLeast(Alphabet(), '=');
    }
  }

  lemma NotInAlphabet()
    ensures '=' !in Alphabet()
  {
    hide Alphabet, CharOf;
    forall v: nat | v < 64 ensures Alphabet()[v] != '=' {
      IndexUndoes(v);
      CharIs(v);
    }
  }

  lemma CharIs(v: Sextet)
    ensures CharOf(v) == Alphabet()[v]
  {
  }

  lemma {:induction false} OctetsLength(vs: seq<Sextet>)
    ensures |Octets(vs)| == |vs| * 3 / 4
  {
    if |vs| >= 4 { OctetsLength(vs[4..]); }
  }

  /** Characters outside the alphabet, padding among them, change nothing wherever they stand: the base64
      text of a byte array decodes to the array however they are strewn through it or left off. Every
      four characters that count make three bytes, rounded down. */
  lemma OnlyAlphabetCounts(text: string)
    ensures Decoded(text) == Decoded(Kept(text))
    ensures |Decoded(text)| == |Kept(text)| * 3 / 4
    ensures forall bytes :: Kept(text) == Chars(Sextets(bytes)) ==> Decoded(text) == bytes
  {
    hide StripPadding, Values, Octets, Sextets, Chars, Kept;
    PaddingHasNoValue(text);
    PaddingHasNoValue(Kept(text));
    ValuesOfKept(text);
    OctetsLength(Values(text));
    forall bytes | Kept(text) == Chars(Sextets(bytes)) ensures Decoded(text) == bytes {
      ValuesOfChars(Sextets(bytes));
      OctetsOfSextets(bytes);
    }
  }
}
