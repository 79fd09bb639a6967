/**
  Bytes, and the UTF-8 encoding form of RFC 3629: the grammar of section 4, the
  bit distribution of section 3, and the two byte routines of
  native/proxy/src/ws_proxy.cpp that depend on them, the code point appender
  and the scrubber.
*/
module Utf8 {
  import opened Sequences

  newtype Byte = b: int | 0 <= b < 0x100
  type Bytes = seq<Byte>

  /** A Unicode scalar value: any code point that is not a surrogate. */
  predicate IsScalar(v: int) {
    0 <= v <= 0xD7FF || 0xE000 <= v <= 0x10FFFF
  }

  ghost predicate AllScalars(vs: seq<int>) {
    forall v | v in vs :: IsScalar(v)
  }

  // ---------------------------------------------------------------------------
  // The grammar of section 4 of RFC 3629
  // ---------------------------------------------------------------------------

  predicate IsTail(b: Byte) {
    0x80 <= b <= 0xBF
  }

  /** The number of octets a lead octet announces; 0 when it can start nothing. */
  function LeadWidth(lead: Byte): (k: nat) {
    if lead <= 0x7F then 1
    else if 0xC2 <= lead <= 0xDF then 2
    else if 0xE0 <= lead <= 0xEF then 3
    else if 0xF0 <= lead <= 0xF4 then 4
    else 0
  }

  /** The second octets a lead octet admits: four leads narrow the range of a tail. */
  predicate SecondFits(lead: Byte, second: Byte) {
    && IsTail(second)
    && (lead == 0xE0 ==> second >= 0xA0) && (lead == 0xED ==> second <= 0x9F)
    && (lead == 0xF0 ==> second >= 0x90) && (lead == 0xF4 ==> second <= 0x8F)
  }

  /** One well-formed sequence of one to four octets. */
  predicate IsChar(s: Bytes) {
    && s != [] && |s| == LeadWidth(s[0])
    && (|s| >= 2 ==> SecondFits(s[0], s[1]))
    && (|s| >= 3 ==> IsTail(s[2]))
    && (|s| >= 4 ==> IsTail(s[3]))
  }

  /** IsChar is UTF8-char of the grammar, alternative by alternative. */
  lemma IsCharIsTheGrammar(s: Bytes)
    ensures IsChar(s) <==>
              || (|s| == 1 && s[0] <= 0x7F)
              || (|s| == 2 && 0xC2 <= s[0] <= 0xDF && IsTail(s[1]))
              || (|s| == 3 && s[0] == 0xE0 && 0xA0 <= s[1] <= 0xBF && IsTail(s[2]))
              || (|s| == 3 && 0xE1 <= s[0] <= 0xEC && IsTail(s[1]) && IsTail(s[2]))
              || (|s| == 3 && s[0] == 0xED && 0x80 <= s[1] <= 0x9F && IsTail(s[2]))
              || (|s| == 3 && 0xEE <= s[0] <= 0xEF && IsTail(s[1]) && IsTail(s[2]))
              || (|s| == 4 && s[0] == 0xF0 && 0x90 <= s[1] <= 0xBF && IsTail(s[2]) && IsTail(s[3]))
              || (|s| == 4 && 0xF1 <= s[0] <= 0xF3 && IsTail(s[1]) && IsTail(s[2]) && IsTail(s[3]))
              || (|s| == 4 && s[0] == 0xF4 && 0x80 <= s[1] <= 0x8F && IsTail(s[2]) && IsTail(s[3]))
  {
  }

  /** How many octets the UTF8-char at the front of `s` has; 0 when there is none. */
  function FrontWidth(s: Bytes): (k: nat)
    ensures k <= |s|
    ensures k > 0 ==> IsChar(s[..k])
  {
    if s != [] && LeadWidth(s[0]) <= |s| && IsChar(s[..LeadWidth(s[0])]) then LeadWidth(s[0]) else 0
  }

  /** UTF8-octets: a string of UTF8-chars and nothing else. */
  predicate WellFormed(s: Bytes)
    decreases |s|
  {
    s == [] || (FrontWidth(s) > 0 && WellFormed(s[FrontWidth(s)..]))
  }

  /** The grammar is prefix-free, so reading a char off the front is unambiguous. */
  lemma FrontOfChar(c: Bytes, rest: Bytes)
    requires IsChar(c)
    ensures FrontWidth(c + rest) == |c|
    ensures (c + rest)[..|c|] == c && (c + rest)[|c|..] == rest
    ensures WellFormed(c + rest) == WellFormed(rest)
  {
    Undo(c, rest);
  }

  lemma {:induction false} WellFormedConcat(a: Bytes, b: Bytes)
    requires WellFormed(a) && WellFormed(b)
    ensures WellFormed(a + b)
    decreases |a|
  {
    if a == [] {
      Units(b);
    } else {
      var c, rest := a[..FrontWidth(a)], a[FrontWidth(a)..];
      WellFormedConcat(rest, b);
      FrontOfChar(c, rest + b);
      Halves(a, |c|);
      Assoc(c, rest, b);
    }
  }

  lemma CharWellFormed(c: Bytes)
    requires IsChar(c)
    ensures WellFormed(c)
  {
    FrontOfChar(c, []);
    Units(c);
  }

  // ---------------------------------------------------------------------------
  // The bit distribution of section 3 of RFC 3629
  // ---------------------------------------------------------------------------

  /**
    The octets of a code point: the lead carries the high bits, each tail six
    more. A value outside the code space has none.
  */
  function Encode(v: int): (s: Bytes)
    ensures |s| <= 4
  {
    if v < 0 || v > 0x10FFFF then []
    else if v <= 0x7F then [v as Byte]
    else if v <= 0x7FF then [(0xC0 + v / 64) as Byte, TailOf(v)]
    else if v <= 0xFFFF then [(0xE0 + v / 4096) as Byte, TailOf(v / 64), TailOf(v)]
    else [(0xF0 + v / 262144) as Byte, TailOf(v / 4096), TailOf(v / 64), TailOf(v)]
  }

  /** A tail octet holding the low six bits of `v`. */
  function TailOf(v: int): Byte {
    (0x80 + v % 64) as Byte
  }

  /** The value a UTF8-char stands for: its payload bits read in order. */
  function Decode(c: Bytes): int
    requires IsChar(c)
  {
    match |c|
    case 1 => c[0] as int
    case 2 => Payload(c[0], 0xC0) * 64 + Payload(c[1], 0x80)
    case 3 => Payload(c[0], 0xE0) * 4096 + Payload(c[1], 0x80) * 64 + Payload(c[2], 0x80)
    case _ =>
      Payload(c[0], 0xF0) * 262144 + Payload(c[1], 0x80) * 4096 + Payload(c[2], 0x80) * 64 + Payload(c[3], 0x80)
  }

  /** The bits an octet carries below its marker. */
  function Payload(b: Byte, marker: int): int {
    b as int - marker
  }

  /** Encoding a scalar gives a char of the grammar, and decoding it gives the scalar back. */
  lemma EncodeIsChar(v: int)
    requires IsScalar(v)
    ensures IsChar(Encode(v))
    ensures Decode(Encode(v)) == v
  {
    if v <= 0x7F {
    } else if v <= 0x7FF {
      assert 2 <= v / 64 < 32;
    } else if v <= 0xFFFF {
      SplitThree(v);
    } else {
      SplitFour(v);
    }
  }

  lemma SplitThree(v: int)
    requires 0x7FF < v <= 0xFFFF && IsScalar(v)
    ensures v == v / 4096 * 4096 + v / 64 % 64 * 64 + v % 64
    ensures 0 <= v / 4096 < 16
    ensures v / 4096 == 0 ==> v / 64 % 64 >= 0x20
    ensures v / 4096 == 13 ==> v / 64 % 64 <= 0x1F
  {
    var q := v / 64;
    assert v / 4096 == q / 64;
    assert q == q / 64 * 64 + q % 64;
  }

  lemma SplitFour(v: int)
    requires 0xFFFF < v <= 0x10FFFF
    ensures v == v / 262144 * 262144 + v / 4096 % 64 * 4096 + v / 64 % 64 * 64 + v % 64
    ensures 0 <= v / 262144 <= 4
    ensures v / 262144 == 0 ==> v / 4096 % 64 >= 0x10
    ensures v / 262144 == 4 ==> v / 4096 % 64 <= 0x0F
  {
    var q := v / 64;
    var r := q / 64;
    assert v / 4096 == r;
    assert v / 262144 == r / 64;
    assert r == r / 64 * 64 + r % 64;
    assert q == r * 64 + q % 64;
  }

  /** The converse: every char of the grammar is the encoding of a scalar. */
  lemma DecodeIsScalar(c: Bytes)
    requires IsChar(c)
    ensures IsScalar(Decode(c))
    ensures Encode(Decode(c)) == c
  {
    if |c| == 3 {
      DigitsOfThree(Payload(c[0], 0xE0), Payload(c[1], 0x80), Payload(c[2], 0x80));
    } else if |c| == 4 {
      DigitsOfFour(Payload(c[0], 0xF0), Payload(c[1], 0x80), Payload(c[2], 0x80), Payload(c[3], 0x80));
    }
  }

  lemma DigitsOfThree(x: nat, y: nat, z: nat)
    requires y < 64 && z < 64
    ensures var v := x * 4096 + y * 64 + z; v / 4096 == x && v / 64 % 64 == y && v % 64 == z
  {
    assert (x * 4096 + y * 64 + z) / 64 == x * 64 + y;
  }

  lemma DigitsOfFour(w: nat, x: nat, y: nat, z: nat)
    requires x < 64 && y < 64 && z < 64
    ensures var v := w * 262144 + x * 4096 + y * 64 + z;
            v / 262144 == w && v / 4096 % 64 == x && v / 64 % 64 == y && v % 64 == z
  {
    var v, high := w * 262144 + x * 4096 + y * 64 + z, w * 4096 + x * 64 + y;
    assert v == high * 64 + z;
    DigitsOfThree(w, x, y);
    assert v / 64 == high;
    assert v / 4096 == high / 64 == w * 64 + x;
    assert v / 262144 == high / 4096;
  }

  /** The first byte in which two texts differ is the smaller one in the first. */
  predicate IsBefore(a: Bytes, b: Bytes) {
    exists i | 0 <= i < |a| && i < |b| :: a[i] < b[i] && a[..i] == b[..i]
  }

  lemma FirstDiffers(a: Bytes, b: Bytes)
    requires a != [] && b != [] && a[0] < b[0]
    ensures IsBefore(a, b)
  {
    assert a[..0] == b[..0];
  }

  lemma SecondDiffers(a: Bytes, b: Bytes)
    requires |a| >= 2 && |b| >= 2 && a[0] == b[0] && a[1] < b[1]
    ensures IsBefore(a, b)
  {
    assert a[..1] == [a[0]] == b[..1];
  }

  lemma ThirdDiffers(a: Bytes, b: Bytes)
    requires |a| >= 3 && |b| >= 3 && a[0] == b[0] && a[1] == b[1] && a[2] < b[2]
    ensures IsBefore(a, b)
  {
    assert a[..2] == [a[0], a[1]] == b[..2];
  }

  lemma FourthDiffers(a: Bytes, b: Bytes)
    requires |a| >= 4 && |b| >= 4 && a[0] == b[0] && a[1] == b[1] && a[2] == b[2] && a[3] < b[3]
    ensures IsBefore(a, b)
  {
    assert a[..3] == [a[0], a[1], a[2]] == b[..3];
  }

  lemma OrderOfTwo(v: int, w: int)
    requires 0x7F < v < w <= 0x7FF
    ensures IsBefore(Encode(v), Encode(w))
  {
    if v / 64 < w / 64 {
      FirstDiffers(Encode(v), Encode(w));
    } else {
      assert v / 64 == w / 64;
      SecondDiffers(Encode(v), Encode(w));
    }
  }

  lemma OrderOfThree(v: int, w: int)
    requires 0x7FF < v < w <= 0xFFFF && IsScalar(v) && IsScalar(w)
    ensures IsBefore(Encode(v), Encode(w))
  {
    SplitThree(v);
    SplitThree(w);
    if v / 4096 < w / 4096 {
      FirstDiffers(Encode(v), Encode(w));
    } else if v / 64 % 64 < w / 64 % 64 {
      SecondDiffers(Encode(v), Encode(w));
    } else {
      ThirdDiffers(Encode(v), Encode(w));
    }
  }

  lemma OrderOfFour(v: int, w: int)
    requires 0xFFFF < v < w <= 0x10FFFF
    ensures IsBefore(Encode(v), Encode(w))
  {
    SplitFour(v);
    SplitFour(w);
    if v / 262144 < w / 262144 {
      FirstDiffers(Encode(v), Encode(w));
    } else if v / 4096 % 64 < w / 4096 % 64 {
      SecondDiffers(Encode(v), Encode(w));
    } else if v / 64 % 64 < w / 64 % 64 {
      ThirdDiffers(Encode(v), Encode(w));
    } else {
      FourthDiffers(Encode(v), Encode(w));
    }
  }

  /**
    Encoding keeps the order of the scalars, as section 1 of RFC 3629 says; and as it makes
    a char of each, and each char is of one, no other encoding does.
  */
  lemma EncodeKeepsOrder(v: int, w: int)
    requires IsScalar(v) && IsScalar(w) && v < w
    ensures IsBefore(Encode(v), Encode(w))
  {
    if w <= 0x7F {
      FirstDiffers(Encode(v), Encode(w));
    } else if 0x7F < v && w <= 0x7FF {
      OrderOfTwo(v, w);
    } else if 0x7FF < v && w <= 0xFFFF {
      OrderOfThree(v, w);
    } else if 0xFFFF < v {
      OrderOfFour(v, w);
    } else {
      WiderIsLater(v, w);
    }
  }

  lemma WiderIsLater(v: int, w: int)
    requires IsScalar(v) && IsScalar(w) && (v <= 0x7F < w || v <= 0x7FF < w || v <= 0xFFFF < w)
    ensures IsBefore(Encode(v), Encode(w))
  {
    FirstDiffers(Encode(v), Encode(w));
  }

  function EncodeAll(vs: seq<int>): Bytes {
    if vs == [] then [] else EncodeAll(vs[..|vs| - 1]) + Encode(vs[|vs| - 1])
  }

  lemma {:induction false} EncodeAllConcat(a: seq<int>, b: seq<int>)
    ensures EncodeAll(a + b) == EncodeAll(a) + EncodeAll(b)
  {
    if b == [] {
      assert a + b == a;
    } else {
      var n := |b| - 1;
      EncodeAllConcat(a, b[..n]);
      assert (a + b)[..|a + b| - 1] == a + b[..n] && (a + b)[|a + b| - 1] == b[n];
      Assoc(EncodeAll(a), EncodeAll(b[..n]), Encode(b[n]));
    }
  }

  lemma EncodeOne(v: int)
    ensures EncodeAll([v]) == Encode(v)
  {
    assert [v][..0] == [];
    Units(Encode(v));
  }

  lemma {:induction false} EncodeAllWellFormed(vs: seq<int>)
    requires AllScalars(vs)
    ensures WellFormed(EncodeAll(vs))
  {
    if vs != [] {
      var n := |vs| - 1;
      EncodeAllWellFormed(vs[..n]);
      EncodeIsChar(vs[n]);
      CharWellFormed(Encode(vs[n]));
      WellFormedConcat(EncodeAll(vs[..n]), Encode(vs[n]));
    }
  }

  /** The scalars a well-formed text spells. */
  function DecodeAll(s: Bytes): (vs: seq<int>)
    requires WellFormed(s)
    decreases |s|
  {
    if s == [] then []
    else [Decode(s[..FrontWidth(s)])] + DecodeAll(s[FrontWidth(s)..])
  }

  lemma {:induction false} EncodeDecodeAll(s: Bytes)
    requires WellFormed(s)
    ensures AllScalars(DecodeAll(s))
    ensures EncodeAll(DecodeAll(s)) == s
    decreases |s|
  {
    if s != [] {
      var k := FrontWidth(s);
      var c, rest := s[..k], DecodeAll(s[k..]);
      DecodeIsScalar(c);
      EncodeDecodeAll(s[k..]);
      EncodeAllConcat([Decode(c)], rest);
      EncodeOne(Decode(c));
      Halves(s, k);
    }
  }

  /** A text is well formed exactly when it is the encoding of some scalars. */
  lemma WellFormedIffEncoded(s: Bytes)
    ensures WellFormed(s) <==> exists vs: seq<int> :: AllScalars(vs) && EncodeAll(vs) == s
  {
    if WellFormed(s) {
      EncodeDecodeAll(s);
    }
    if vs: seq<int> :| AllScalars(vs) && EncodeAll(vs) == s {
      EncodeAllWellFormed(vs);
    }
  }

  /**
    The appender: masks are remainders here and shifts are quotients. A value
    above the code space appends nothing.
  */
  method AppendCodePoint(target: Bytes, codePoint: nat) returns (r: Bytes)
    ensures r == target + Encode(codePoint)
  {
    if codePoint <= 0x7F {
      return target + [codePoint as Byte];
    }
    if codePoint <= 0x7FF {
      return target + [(0xC0 + codePoint / 64 % 32) as Byte] + [(0x80 + codePoint % 64) as Byte];
    }
    if codePoint <= 0xFFFF {
      return target + [(0xE0 + codePoint / 4096 % 16) as Byte] + [(0x80 + codePoint / 64 % 64) as Byte]
             + [(0x80 + codePoint % 64) as Byte];
    }
    if codePoint <= 0x10FFFF {
      return target + [(0xF0 + codePoint / 262144 % 8) as Byte] + [(0x80 + codePoint / 4096 % 64) as Byte]
             + [(0x80 + codePoint / 64 % 64) as Byte] + [(0x80 + codePoint % 64) as Byte];
    }
    r := target;
  }

  // ---------------------------------------------------------------------------
  // The scrubber
  // ---------------------------------------------------------------------------

  /** What scrubbing means: keep each char found at the front, else drop one byte. */
  function Scrub(s: Bytes): Bytes
    decreases |s|
  {
    if s == [] then []
    else if FrontWidth(s) > 0 then s[..FrontWidth(s)] + Scrub(s[FrontWidth(s)..])
    else Scrub(s[1..])
  }

  lemma ScrubChar(c: Bytes, rest: Bytes)
    requires IsChar(c)
    ensures Scrub(c + rest) == c + Scrub(rest)
  {
    FrontOfChar(c, rest);
  }

  /** The output is always well-formed UTF-8 and only ever loses bytes, never reorders them. */
  lemma {:induction false} ScrubSound(s: Bytes)
    ensures WellFormed(Scrub(s))
    ensures Subsequence(Scrub(s), s)
    decreases |s|
  {
    if s == [] {
    } else if FrontWidth(s) > 0 {
      var k := FrontWidth(s);
      ScrubSound(s[k..]);
      CharWellFormed(s[..k]);
      WellFormedConcat(s[..k], Scrub(s[k..]));
      SubsequenceUnderPrefix(s[..k], Scrub(s[k..]), s[k..]);
      Halves(s, k);
    } else {
      ScrubSound(s[1..]);
    }
  }

  /** Nothing is lost from a well-formed front, whatever follows it. */
  lemma {:induction false} ScrubKeepsPrefix(a: Bytes, b: Bytes)
    requires WellFormed(a)
    ensures Scrub(a + b) == a + Scrub(b)
    decreases |a|
  {
    if a == [] {
      Units(b);
      Units(Scrub(b));
    } else {
      var c, rest := a[..FrontWidth(a)], a[FrontWidth(a)..];
      Halves(a, |c|);
      ScrubKeepsPrefix(rest, b);
      ScrubChar(c, rest + b);
      Assoc(c, rest, b);
      Assoc(c, rest, Scrub(b));
    }
  }

  /** Exactly the well-formed texts are fixed, so a second pass never changes anything. */
  lemma {:induction false} ScrubFixpoint(s: Bytes)
    ensures Scrub(s) == s <==> WellFormed(s)
    ensures Scrub(Scrub(s)) == Scrub(s)
  {
    ScrubSound(s);
    var t := Scrub(s);
    ScrubKeepsPrefix(t, []);
    Units(t);
    if WellFormed(s) {
      ScrubKeepsPrefix(s, []);
      Units(s);
    }
  }

  /** The scrubber's tests on the bytes from `i` decide the same width as the grammar. */
  lemma WidthAt(input: Bytes, i: nat, width: nat)
    requires i < |input| && width == LeadWidth(input[i]) && width >= 2
    ensures FrontWidth(input[i..]) == width <==>
              && i + width <= |input|
              && (forall m {:trigger input[m]} | i + 1 <= m < i + width :: IsTail(input[m]))
              && SecondFits(input[i], input[i + 1])
    ensures FrontWidth(input[i..]) == width || FrontWidth(input[i..]) == 0
  {
    var rest := input[i..];
    if width <= |rest| {
      assert forall m | 0 <= m < width :: rest[..width][m] == input[i + m];
      if SecondFits(input[i], input[i + 1]) && forall m {:trigger input[m]} | i + 1 <= m < i + width :: IsTail(input[m]) {
        assert width >= 3 ==> IsTail(input[i + 2]);
        assert width >= 4 ==> IsTail(input[i + 3]);
      }
    }
  }

  /** One step of scrubbing, on the bytes from `i`. */
  lemma ScrubAt(input: Bytes, i: nat)
    requires i < |input|
    ensures var k := FrontWidth(input[i..]);
            Scrub(input[i..]) == if k > 0 then input[i..i + k] + Scrub(input[i + k..]) else Scrub(input[i + 1..])
    ensures input[i] <= 0x7F ==> FrontWidth(input[i..]) == 1 && input[i..i + 1] == [input[i]]
    ensures LeadWidth(input[i]) == 0 ==> FrontWidth(input[i..]) == 0
  {
    var k := FrontWidth(input[i..]);
    assert input[i..][..k] == input[i..i + k];
    assert input[i..][k..] == input[i + k..];
    assert input[i..][1..] == input[i + 1..];
  }

  /** The scrubber's tests, in its order: how wide a char starts at `i`, or 0 to drop the byte. */
  method MeasureChar(input: Bytes, i: nat) returns (width: nat)
    requires i < |input|
    ensures width == FrontWidth(input[i..])
  {
    ScrubAt(input, i);
    var lead := input[i];
    if lead <= 0x7F {
      return 1;
    }

    width := 0;
    if lead >= 0xC2 && lead <= 0xDF {
      width := 2;
    } else if lead >= 0xE0 && lead <= 0xEF {
      width := 3;
    } else if lead >= 0xF0 && lead <= 0xF4 {
      width := 4;
    } else {
      return 0;
    }

    WidthAt(input, i, width);
    if i + width > |input| {
      return 0;
    }

    var j := 1;
    while j < width
      invariant 1 <= j <= width
      invariant forall m {:trigger input[m]} | i + 1 <= m < i + j :: IsTail(input[m])
    {
      var cont := input[i + j];
      if cont / 64 != 2 {
        return 0;
      }
      j := j + 1;
    }

    var second := input[i + 1];
    if (lead == 0xE0 && second < 0xA0) || (lead == 0xED && second > 0x9F) ||
       (lead == 0xF0 && second < 0x90) || (lead == 0xF4 && second > 0x8F) {
      return 0;
    }
  }

  method StripInvalidBytes(input: Bytes) returns (sanitized: Bytes)
    ensures sanitized == Scrub(input)
  {
    sanitized := [];
    var i := 0;
    while i < |input|
      invariant 0 <= i <= |input|
      invariant sanitized + Scrub(input[i..]) == Scrub(input)
    {
      ScrubAt(input, i);
      var width := MeasureChar(input, i);
      if width == 0 {
        i := i + 1;
        continue;
      }
      Assoc(sanitized, input[i..i + width], Scrub(input[i + width..]));
      sanitized := sanitized + input[i..i + width];
      i := i + width;
    }
  }
}
