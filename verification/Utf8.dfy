/** UTF-16 to UTF-8 and back (apps/mobile/src/utils/base64.ts, lines 13-96).

    A string is a sequence of 16-bit code units, surrogates included.
 */
module Utf8 {
  import opened Words

  type Unit = n: nat | n < 0x10000

  type Text = seq<Unit>

  predicate IsHigh(u: nat) { 0xd800 <= u <= 0xdbff }

  predicate IsLow(u: nat) { 0xdc00 <= u <= 0xdfff }

  /** A surrogate pair stands at the front. */
  predicate StartsWithPair(text: Text) {
    |text| >= 2 && IsHigh(text[0]) && IsLow(text[1])
  }

  type Point = n: nat | n <= 0x10ffff

  function Combine(high: nat, low: nat): Point
    requires IsHigh(high) && IsLow(low)
  {
    0x10000 + (high - 0xd800) * 0x400 + (low - 0xdc00)
  }

  /** The code points of a string; a lone surrogate counts as itself. */
  function Points(text: Text): seq<Point> {
    if text == [] then []
    else if StartsWithPair(text) then [Combine(text[0], text[1])] + Points(text[2..])
    else [text[0]] + Points(text[1..])
  }

  // ----- Section 3 of RFC 3629, the reference for the encoder

  /** The octets that the table assigns to a character number: the row is chosen by the number's
      range, the fixed bits are as printed, and the x bits read back as the number. */
  predicate IsRfc3629(c: int, o: Bytes) {
    if c <= 0x7f then |o| == 1 && o[0] <= 0x7f && X(o, 0, 0) == c
    else if c <= 0x7ff then |o| == 2 && 0xc0 <= o[0] <= 0xdf && IsTail(o[1]) && X(o, 0, 0xc0) * 0x40 + X(o, 1, 0x80) == c
    else if c <= 0xffff then
      |o| == 3 && 0xe0 <= o[0] <= 0xef && IsTail(o[1]) && IsTail(o[2])
      && X(o, 0, 0xe0) * 0x1000 + X(o, 1, 0x80) * 0x40 + X(o, 2, 0x80) == c
    else
      |o| == 4 && 0xf0 <= o[0] <= 0xf7 && IsTail(o[1]) && IsTail(o[2]) && IsTail(o[3])
      && X(o, 0, 0xf0) * 0x40000 + X(o, 1, 0x80) * 0x1000 + X(o, 2, 0x80) * 0x40 + X(o, 3, 0x80) == c
  }

  /** 10xxxxxx */
  predicate IsTail(b: Byte) { 0x80 <= b <= 0xbf }

  /** The x bits of octet k, below its fixed bits. */
  function X(o: Bytes, k: nat, fixed: nat): int
    requires k < |o|
  {
    o[k] - fixed
  }

  /** The table leaves one choice of octets per character. */
  lemma Rfc3629IsUnique(c: nat, a: Bytes, b: Bytes)
    requires IsRfc3629(c, a) && IsRfc3629(c, b)
    ensures a == b
  {
    assert |a| == |b| && a[0] == b[0];
    if |a| == 4 { assert a[3] == b[3]; }
  }

  /** The octets of a code point, as the encoder's four branches write them. */
  function EncodePoint(c: Point): Bytes {
    if c < 0x80 then [c]
    else if c < 0x800 then [Or(0xc0, c / 0x40, 0x20), Or(0x80, c % 0x40, 0x40)]
    else if c < 0x10000 then [Or(0xe0, c / 0x1000, 0x10), Or(0x80, c / 0x40 % 0x40, 0x40), Or(0x80, c % 0x40, 0x40)]
    else
      [Or(0xf0, c / 0x40000, 0x8), Or(0x80, c / 0x1000 % 0x40, 0x40), Or(0x80, c / 0x40 % 0x40, 0x40),
       Or(0x80, c % 0x40, 0x40)]
  }

  /** A number is made of its base-64 digits. */
  lemma Digits(c: nat)
    ensures c == c / 0x40 * 0x40 + c % 0x40
    ensures c == c / 0x1000 * 0x1000 + c / 0x40 % 0x40 * 0x40 + c % 0x40
    ensures c == c / 0x40000 * 0x40000 + c / 0x1000 % 0x40 * 0x1000 + c / 0x40 % 0x40 * 0x40 + c % 0x40
  {
    Digit(c, 0x40);
    Digit(c, 0x1000);
  }

  lemma Digit(c: nat, unit: nat)
    requires unit == 0x40 || unit == 0x1000
    ensures c / unit == c / (unit * 0x40) * 0x40 + c / unit % 0x40
  {
    if unit == 0x40 { assert c / 0x40 / 0x40 == c / 0x1000; } else { assert c / 0x1000 / 0x40 == c / 0x40000; }
  }

  lemma TwoOctets(h: nat, l: nat)
    requires 0x2 <= h < 0x20 && l < 0x40
    ensures IsRfc3629(h * 0x40 + l, [Or(0xc0, h, 0x20), Or(0x80, l, 0x40)])
    ensures LeadOf(0xc0 + h) == Lead(h, 1) && Gather(h, [0x80 + l]) == h * 0x40 + l
  {
    GatherAtMostThree(h, [0x80 + l]);
  }

  lemma ThreeOctets(h: nat, m: nat, l: nat)
    requires h < 0x10 && m < 0x40 && l < 0x40 && h * 0x1000 + m * 0x40 + l >= 0x800
    ensures IsRfc3629(h * 0x1000 + m * 0x40 + l, [Or(0xe0, h, 0x10), Or(0x80, m, 0x40), Or(0x80, l, 0x40)])
    ensures LeadOf(0xe0 + h) == Lead(h, 2) && Gather(h, [0x80 + m, 0x80 + l]) == h * 0x1000 + m * 0x40 + l
  {
    GatherAtMostThree(h, [0x80 + m, 0x80 + l]);
  }

  lemma FourOctets(h: nat, m: nat, n: nat, l: nat)
    requires h < 0x8 && m < 0x40 && n < 0x40 && l < 0x40 && h * 0x40000 + m * 0x1000 >= 0x10000
    ensures var c := h * 0x40000 + m * 0x1000 + n * 0x40 + l;
            && IsRfc3629(c, [Or(0xf0, h, 0x8), Or(0x80, m, 0x40), Or(0x80, n, 0x40), Or(0x80, l, 0x40)])
            && LeadOf(0xf0 + h) == Lead(h, 3) && Gather(h, [0x80 + m, 0x80 + n, 0x80 + l]) == c
  {
    hide Gather;
    assert (0x80 + m) % 0x40 == m && (0x80 + n) % 0x40 == n && (0x80 + l) % 0x40 == l;
    GatherAtMostThree(h, [0x80 + m, 0x80 + n, 0x80 + l]);
  }

  /** The encoder's octets are the table's, and the decoder reads the code point back from them. */
  lemma EncodePointIsRfc3629(c: Point)
    ensures var o := EncodePoint(c);
            && IsRfc3629(c, o)
            && LeadOf(o[0]).Lead? && LeadOf(o[0]).extra == |o| - 1
            && Gather(LeadOf(o[0]).bits, o[1..]) == c
  {
    hide IsRfc3629, LeadOf, Gather;
    Digits(c);
    var o := EncodePoint(c);
    if c < 0x80 { OneOctet(c); assert o[1..] == []; }
    else if c < 0x800 { TwoOctets(c / 0x40, c % 0x40); assert o[1..] == [0x80 + c % 0x40]; }
    else if c < 0x10000 {
      ThreeOctets(c / 0x1000, c / 0x40 % 0x40, c % 0x40);
      assert o[1..] == [0x80 + c / 0x40 % 0x40, 0x80 + c % 0x40];
    } else {
      FourOctets(c / 0x40000, c / 0x1000 % 0x40, c / 0x40 % 0x40, c % 0x40);
      assert o[1..] == [0x80 + c / 0x1000 % 0x40, 0x80 + c / 0x40 % 0x40, 0x80 + c % 0x40];
    }
  }

  lemma OneOctet(c: nat)
    requires c < 0x80
    ensures IsRfc3629(c, [c]) && LeadOf(c) == Lead(c, 0) && Gather(c, []) == c
  {
  }

  function EncodePoints(points: seq<Point>): Bytes {
    if points == [] then [] else EncodePoint(points[0]) + EncodePoints(points[1..])
  }

  /** What the encoder must produce. */
  function Encoded(text: Text): Bytes { EncodePoints(Points(text)) }

  lemma EncodedStep(text: Text, i: nat)
    requires i < |text|
    ensures StartsWithPair(text[i..]) ==>
              Encoded(text[i..]) == EncodePoint(Combine(text[i], text[i + 1])) + Encoded(text[i + 2..])
    ensures !StartsWithPair(text[i..]) ==> Encoded(text[i..]) == EncodePoint(text[i]) + Encoded(text[i + 1..])
  {
    hide EncodePoint;
    var rest := text[i..];
    var points := Points(rest);
    assert points != [] && points == [points[0]] + points[1..];
    if StartsWithPair(rest) {
      assert rest[2..] == text[i + 2..];
    } else {
      assert rest[1..] == text[i + 1..];
    }
  }

  /** The four branches of the encoder's loop. */
  method PushPoint(bytes: Bytes, codePoint: Point) returns (pushed: Bytes)
    ensures pushed == bytes + EncodePoint(codePoint)
  {
    if codePoint < 0x80 {
      pushed := bytes + [codePoint];
    } else if codePoint < 0x800 {
      pushed := bytes + [Or(0xc0, codePoint / 0x40, 0x20), Or(0x80, codePoint % 0x40, 0x40)];
    } else if codePoint < 0x10000 {
      pushed := bytes + [Or(0xe0, codePoint / 0x1000, 0x10), Or(0x80, codePoint / 0x40 % 0x40, 0x40),
                         Or(0x80, codePoint % 0x40, 0x40)];
    } else {
      pushed := bytes + [Or(0xf0, codePoint / 0x40000, 0x8), Or(0x80, codePoint / 0x1000 % 0x40, 0x40),
                         Or(0x80, codePoint / 0x40 % 0x40, 0x40), Or(0x80, codePoint % 0x40, 0x40)];
    }
  }

  method Utf8Bytes(text: Text) returns (bytes: Bytes)
    ensures bytes == Encoded(text)
  {
    hide EncodePoint, Points;
    bytes := [];
    var i := 0;
    assert text[0..] == text;
    while i < |text|
      invariant 0 <= i <= |text|
      invariant bytes + Encoded(text[i..]) == Encoded(text)
    {
      ghost var before, start := bytes, i;
      EncodedStep(text, i);
      var codePoint: nat := text[i];
      if 0xd800 <= codePoint <= 0xdbff && i + 1 < |text| {
        var low := text[i + 1];
        if 0xdc00 <= low <= 0xdfff {
          codePoint := 0x10000 + (codePoint - 0xd800) * 0x400 + (low - 0xdc00);
          i := i + 1;
        }
      }
      bytes := PushPoint(bytes, codePoint);
      i := i + 1;
      assert bytes + Encoded(text[i..]) == before + (EncodePoint(codePoint) + Encoded(text[i..]));
    }
    assert text[i..] == [] && Encoded([]) == [] by { EmptyEncoded(); }
  }

  lemma EmptyEncoded()
    ensures Encoded([]) == []
  {
  }

  // ----- Decoding

  /** What a lead byte contributes and how many bytes it announces to follow. */
  datatype Lead = NotALead | Lead(bits: nat, extra: nat)

  function LeadOf(byte0: Byte): Lead {
    if byte0 < 0x80 then Lead(byte0, 0)
    else if byte0 / 0x20 == 0x6 then Lead(byte0 % 0x20, 1)
    else if byte0 / 0x10 == 0xe then Lead(byte0 % 0x10, 2)
    else if byte0 / 0x8 == 0x1e then Lead(byte0 % 0x8, 3)
    else NotALead
  }

  /** `bits` extended by the low six bits of each of the bytes. */
  function Gather(bits: nat, bytes: Bytes): nat {
    if bytes == [] then bits else Gather(bits, bytes[..|bytes| - 1]) * 0x40 + bytes[|bytes| - 1] % 0x40
  }

  function UnitsOf(c: nat): Text
    requires c <= 0x1fffff
  {
    if c > 0xffff then [0xd800 + (c - 0x10000) / 0x400, 0xdc00 + (c - 0x10000) % 0x400] else [c]
  }

  lemma GatherBound(byte0: Byte, rest: Bytes)
    requires LeadOf(byte0).Lead? && |rest| <= LeadOf(byte0).extra
    ensures Gather(LeadOf(byte0).bits, rest) <= 0x1fffff
  {
    GatherAtMostThree(LeadOf(byte0).bits, rest);
  }

  lemma GatherAtMostThree(bits: nat, rest: Bytes)
    requires |rest| <= 3
    ensures Gather(bits, rest) ==
            if |rest| == 0 then bits
            else if |rest| == 1 then bits * 0x40 + rest[0] % 0x40
            else if |rest| == 2 then (bits * 0x40 + rest[0] % 0x40) * 0x40 + rest[1] % 0x40
            else ((bits * 0x40 + rest[0] % 0x40) * 0x40 + rest[1] % 0x40) * 0x40 + rest[2] % 0x40
  {
    if |rest| > 0 { GatherAtMostThree(bits, rest[..|rest| - 1]); }
  }

  /** What the decoder must produce on any bytes: a stray byte and a truncated tail are dropped. */
  function Decoded(bytes: Bytes): Text {
    if bytes == [] then []
    else
      match LeadOf(bytes[0])
      case NotALead => Decoded(bytes[1..])
      case Lead(bits, extra) =>
        if extra >= |bytes| then []
        else
          GatherBound(bytes[0], bytes[1..extra + 1]);
          UnitsOf(Gather(bits, bytes[1..extra + 1])) + Decoded(bytes[extra + 1..])
  }

  lemma GatherNext(bits: nat, bytes: Bytes, i: nat, j: nat)
    requires i < j < |bytes|
    ensures Gather(bits, bytes[i + 1..j + 1]) == Gather(bits, bytes[i + 1..j]) * 0x40 + bytes[j] % 0x40
  {
    assert bytes[i + 1..j + 1][..j - i - 1] == bytes[i + 1..j];
  }

  /** What is still to come from index i, which may lie beyond a truncated tail. */
  function Rest(bytes: Bytes, i: nat): Text { if i < |bytes| then Decoded(bytes[i..]) else [] }

  lemma RestStep(bytes: Bytes, i: nat)
    requires i < |bytes|
    ensures match LeadOf(bytes[i])
            case NotALead => Rest(bytes, i) == Rest(bytes, i + 1)
            case Lead(bits, extra) =>
              if i + extra >= |bytes| then Rest(bytes, i) == Rest(bytes, i + extra + 1)
              else
                var point := Gather(bits, bytes[i + 1..i + extra + 1]);
                point <= 0x1fffff && Rest(bytes, i) == UnitsOf(point) + Rest(bytes, i + extra + 1)
  {
    hide Gather, UnitsOf, LeadOf;
    var rest, lead := bytes[i..], LeadOf(bytes[i]);
    assert rest[0] == bytes[i];
    if lead.NotALead? {
      assert rest[1..] == bytes[i + 1..];
    } else if i + lead.extra < |bytes| {
      GatherBound(bytes[i], bytes[i + 1..i + lead.extra + 1]);
      assert rest[1..lead.extra + 1] == bytes[i + 1..i + lead.extra + 1];
      assert rest[lead.extra + 1..] == bytes[i + lead.extra + 1..];
      assert Decoded(rest) == UnitsOf(Gather(lead.bits, rest[1..lead.extra + 1])) + Decoded(rest[lead.extra + 1..]);
    }
  }

  /** The two branches that append a decoded code point. */
  method PushUnits(result: Text, codePoint: nat) returns (pushed: Text)
    requires codePoint <= 0x1fffff
    ensures pushed == result + UnitsOf(codePoint)
  {
    if codePoint > 0xffff {
      var adjusted := codePoint - 0x10000;
      pushed := result + [0xd800 + adjusted / 0x400, 0xdc00 + adjusted % 0x400];
    } else {
      pushed := result + [codePoint];
    }
  }

  /** The inner loop: the continuation bytes after a lead byte at `i`, or -1 when the input ends
      among them. */
  method ReadTails(bytes: Bytes, i: nat, bits: nat, extraBytes: nat) returns (codePoint: int)
    requires i < |bytes|
    ensures codePoint == if i + extraBytes < |bytes| then Gather(bits, bytes[i + 1..i + extraBytes + 1]) else -1
  {
    GatherAtMostThree(bits, []);
    hide Gather;
    codePoint := bits;
    var j := 1;
    assert bytes[i + 1..i + j] == [];
    while j <= extraBytes
      invariant 1 <= j <= extraBytes + 1 && i + j <= |bytes|
      invariant codePoint == Gather(bits, bytes[i + 1..i + j])
    {
      if i + j >= |bytes| {
        codePoint := -1;
        break;
      }
      GatherNext(bits, bytes, i, i + j);
      codePoint := Or(codePoint * 0x40, bytes[i + j] % 0x40, 0x40);
      j := j + 1;
    }
  }

  lemma RestEnds(bytes: Bytes)
    ensures Rest(bytes, 0) == Decoded(bytes)
    ensures forall i :: i >= |bytes| ==> Rest(bytes, i) == []
  {
    assert bytes[0..] == bytes;
  }

  method DecodeUtf8Bytes(bytes: Bytes) returns (result: Text)
    ensures result == Decoded(bytes)
  {
    hide *;
    result := [];
    var i := 0;
    RestEnds(bytes);
    while i < |bytes|
      invariant 0 <= i
      invariant result + Rest(bytes, i) == Decoded(bytes)
      decreases |bytes| - i
    {
      ghost var before := result;
      RestStep(bytes, i);
      var lead := LeadOf(bytes[i]);
      if lead.NotALead? {
        i := i + 1;
        continue;
      }
      var codePoint := ReadTails(bytes, i, lead.bits, lead.extra);
      i := i + lead.extra + 1;
      if codePoint < 0 {
        continue;
      }
      result := PushUnits(result, codePoint);
      assert result + Rest(bytes, i) == before + (UnitsOf(codePoint) + Rest(bytes, i));
    }
  }

  // ----- Decoding undoes encoding

  /** One code point, encoded and followed by anything, decodes to its code units. */
  lemma DecodeOne(c: Point, rest: Bytes)
    ensures Decoded(EncodePoint(c) + rest) == UnitsOf(c) + Decoded(rest)
  {
    var o := EncodePoint(c);
    var bytes := o + rest;
    EncodePointIsRfc3629(c);
    hide EncodePoint, LeadOf, Gather;
    RestStep(bytes, 0);
    assert bytes[0..] == bytes && bytes[1..|o|] == o[1..] && bytes[|o|..] == rest;
  }

  lemma PairUnits(high: Unit, low: Unit)
    requires IsHigh(high) && IsLow(low)
    ensures UnitsOf(Combine(high, low)) == [high, low]
  {
  }

  /** Decoding the UTF-8 encoding returns the string, for every sequence of 16-bit code units, lone
      surrogates included. */
  lemma {:induction false} RoundTrip(text: Text)
    ensures Decoded(Encoded(text)) == text
  {
    hide Decoded, Encoded, EncodePoint;
    assert text[0..] == text;
    if text == [] {
      EmptyRoundTrip();
    } else {
      EncodedStep(text, 0);
      if StartsWithPair(text) {
        PairUnits(text[0], text[1]);
        DecodeOne(Combine(text[0], text[1]), Encoded(text[2..]));
        RoundTrip(text[2..]);
        assert [text[0], text[1]] + text[2..] == text;
      } else {
        DecodeOne(text[0], Encoded(text[1..]));
        RoundTrip(text[1..]);
        assert [text[0]] + text[1..] == text;
      }
    }
  }

  lemma EmptyRoundTrip()
    ensures Decoded(Encoded([])) == []
  {
  }

  predicate IsScalar(c: nat) { c <= 0x10ffff && !(0xd800 <= c <= 0xdfff) }

  /** Every surrogate of the string is half of a pair. */
  predicate WellFormed(text: Text) {
    text == [] || (if StartsWithPair(text) then WellFormed(text[2..])
                   else !IsHigh(text[0]) && !IsLow(text[0]) && WellFormed(text[1..]))
  }

  /** `bytes` is the octets of each character in turn. */
  ghost predicate IsUtf8Of(points: seq<Point>, bytes: Bytes) {
    if points == [] then bytes == []
    else exists n :: 1 <= n <= |bytes| && IsRfc3629(points[0], bytes[..n]) && IsUtf8Of(points[1..], bytes[n..])
  }

  lemma {:induction false} EncodedIsUtf8(points: seq<Point>)
    ensures IsUtf8Of(points, EncodePoints(points))
  {
    if points != [] {
      var n, bytes := |EncodePoint(points[0])|, EncodePoints(points);
      EncodedIsUtf8(points[1..]);
      EncodePointIsRfc3629(points[0]);
      assert bytes[..n] == EncodePoint(points[0]) && bytes[n..] == EncodePoints(points[1..]);
    }
  }

  /** On well-formed input every code point is a scalar value and the encoder writes its RFC 3629 octets. */
  lemma {:induction false} EncoderMatchesRfc3629(text: Text)
    requires WellFormed(text)
    ensures forall k :: 0 <= k < |Points(text)| ==> IsScalar(Points(text)[k])
    ensures IsUtf8Of(Points(text), Encoded(text))
  {
    EncodedIsUtf8(Points(text));
    hide IsUtf8Of, EncodePoints;
    if text != [] {
      EncoderMatchesRfc3629(text[if StartsWithPair(text) then 2 else 1..]);
    }
  }

  // ----- Bytes that are no encoding

  /** Text decodes the same whatever bytes come after its encoding. */
  lemma {:induction false} DecodesInFront(points: seq<Point>, rest: Bytes)
    ensures Decoded(EncodePoints(points) + rest) == Decoded(EncodePoints(points)) + Decoded(rest)
  {
    hide Decoded, EncodePoint, UnitsOf;
    if points == [] {
      assert EncodePoints(points) + rest == rest;
      EmptyRoundTrip();
    } else {
      var first, more := EncodePoint(points[0]), EncodePoints(points[1..]);
      assert EncodePoints(points) + rest == first + (more + rest);
      DecodeOne(points[0], more + rest);
      DecodeOne(points[0], more);
      DecodesInFront(points[1..], rest);
    }
  }

  /** A byte that can begin no character is passed over and the rest is read as if it were not there; a
      character that is cut off at the end is dropped. */
  lemma MalformedIsDropped(text: Text, stray: Byte, more: Text, c: Point, k: nat)
    requires 0x80 <= stray < 0xc0 || 0xf8 <= stray
    requires k < |EncodePoint(c)|
    ensures Decoded(Encoded(text) + [stray] + Encoded(more)) == text + more
    ensures Decoded(Encoded(text) + EncodePoint(c)[..k]) == text
  {
    hide EncodePoint, UnitsOf;
    var points, rest := Points(text), [stray] + Encoded(more);
    assert Encoded(text) + [stray] + Encoded(more) == Encoded(text) + rest;
    DecodesInFront(points, rest);
    RoundTrip(text);
    RoundTrip(more);
    assert rest[1..] == Encoded(more);
    DecodesInFront(points, EncodePoint(c)[..k]);
    EncodePointIsRfc3629(c);
    if k > 0 { assert EncodePoint(c)[..k][0] == EncodePoint(c)[0]; }
  }

  /** A lead byte takes as many bytes as it announces, whatever they are, and their low six bits. */
  lemma LeadTakesAll(a: Byte, b: Byte, c: Byte, d: Byte, rest: Bytes)
    ensures 0xc0 <= a < 0xe0 ==> Decoded([a, b] + rest) == [(a - 0xc0) * 0x40 + b % 0x40] + Decoded(rest)
    ensures 0xe0 <= a < 0xf0 ==>
              Decoded([a, b, c] + rest) == [(a - 0xe0) * 0x1000 + b % 0x40 * 0x40 + c % 0x40] + Decoded(rest)
    ensures 0xf0 <= a < 0xf8 ==>
              var point := (a - 0xf0) * 0x40000 + b % 0x40 * 0x1000 + c % 0x40 * 0x40 + d % 0x40;
              Decoded([a, b, c, d] + rest)
              == (if point < 0x10000 then [point]
                  else [0xd800 + (point - 0x10000) / 0x400, 0xdc00 + (point - 0x10000) % 0x400]) + Decoded(rest)
  {
    if 0xc0 <= a < 0xe0 { TakesOne(a, b, rest); }
    else if 0xe0 <= a < 0xf0 { TakesTwo(a, b, c, rest); }
    else if 0xf0 <= a < 0xf8 { TakesThree(a, b, c, d, rest); }
  }

  lemma TakesOne(a: Byte, b: Byte, rest: Bytes)
    requires 0xc0 <= a < 0xe0
    ensures Decoded([a, b] + rest) == [(a - 0xc0) * 0x40 + b % 0x40] + Decoded(rest)
  {
    hide Gather;
    var bytes := [a, b] + rest;
    assert bytes[0..] == bytes && bytes[1..2] == [b] && bytes[2..] == rest;
    RestStep(bytes, 0);
    GatherAtMostThree(a - 0xc0, [b]);
    assert LeadOf(a) == Lead(a - 0xc0, 1);
  }

  lemma TakesTwo(a: Byte, b: Byte, c: Byte, rest: Bytes)
    requires 0xe0 <= a < 0xf0
    ensures Decoded([a, b, c] + rest) == [(a - 0xe0) * 0x1000 + b % 0x40 * 0x40 + c % 0x40] + Decoded(rest)
  {
    hide Gather;
    var bytes := [a, b, c] + rest;
    assert bytes[0..] == bytes && bytes[1..3] == [b, c] && bytes[3..] == rest;
    RestStep(bytes, 0);
    GatherAtMostThree(a - 0xe0, [b, c]);
    assert LeadOf(a) == Lead(a - 0xe0, 2);
  }

  lemma TakesThree(a: Byte, b: Byte, c: Byte, d: Byte, rest: Bytes)
    requires 0xf0 <= a < 0xf8
    ensures var point := (a - 0xf0) * 0x40000 + b % 0x40 * 0x1000 + c % 0x40 * 0x40 + d % 0x40;
            Decoded([a, b, c, d] + rest)
            == (if point < 0x10000 then [point]
                else [0xd800 + (point - 0x10000) / 0x400, 0xdc00 + (point - 0x10000) % 0x400]) + Decoded(rest)
  {
    hide Gather;
    var bytes := [a, b, c, d] + rest;
    assert bytes[0..] == bytes && bytes[1..4] == [b, c, d] && bytes[4..] == rest;
    RestStep(bytes, 0);
    GatherAtMostThree(a - 0xf0, [b, c, d]);
    assert LeadOf(a) == Lead(a - 0xf0, 3);
  }
}
