/**
  How native/proxy/src/ws_proxy.cpp makes a request out of what came over a socket: the
  parts of Utf16, Utf8, JsonSlice and JsonEscape put together, up to the text that is
  parsed. Whether the JSON library accepts a text as an object is a parameter.
*/
module PayloadRepair {
  import opened Sequences
  import opened Options
  import opened Utf8
  import opened Utf16
  import opened JsonText
  import opened JsonSlice
  import JsonEscape
  import JsonScrub

  // ---------------------------------------------------------------------------
  // Edges
  // ---------------------------------------------------------------------------

  predicate IsEdge(b: Byte) {
    b <= 0x20 || b == 0x7F
  }

  /** The byte order mark of UTF-8. */
  predicate HasMark(s: Bytes) {
    |s| >= 3 && s[0] == 0xEF && s[1] == 0xBB && s[2] == 0xBF
  }

  function DropMark(s: Bytes): Bytes {
    if HasMark(s) then s[3..] else s
  }

  function DropFront(s: Bytes): Bytes
    decreases |s|
  {
    if s != [] && IsEdge(s[0]) then DropFront(s[1..]) else s
  }

  function DropBack(s: Bytes): Bytes
    decreases |s|
  {
    if s != [] && IsEdge(s[|s| - 1]) then DropBack(s[..|s| - 1]) else s
  }

  function TrimEdges(s: Bytes): Bytes {
    DropBack(DropFront(DropMark(s)))
  }

  lemma DropFrontAt(s: Bytes, i: nat)
    requires i < |s|
    ensures DropFront(s[i..]) == if IsEdge(s[i]) then DropFront(s[i + 1..]) else s[i..]
  {
    assert s[i..][1..] == s[i + 1..];
  }

  lemma DropBackAt(s: Bytes, i: nat, j: nat)
    requires i < j <= |s|
    ensures DropBack(s[i..j]) == if IsEdge(s[j - 1]) then DropBack(s[i..j - 1]) else s[i..j]
  {
    assert s[i..j][..|s[i..j]| - 1] == s[i..j - 1];
  }

  /** What goes at the edges: blanks and control bytes. */
  ghost predicate AllEdges(s: Bytes) {
    forall i | 0 <= i < |s| :: s[i] <= 0x20 || s[i] == 0x7F
  }

  lemma {:induction false} DropFrontForm(s: Bytes) returns (i: nat)
    ensures i <= |s| && DropFront(s) == s[i..] && AllEdges(s[..i])
    ensures i < |s| ==> s[i] > 0x20 && s[i] != 0x7F
    decreases |s|
  {
    i := 0;
    if s != [] && IsEdge(s[0]) {
      var j := DropFrontForm(s[1..]);
      i := j + 1;
      assert forall k | 1 <= k < i :: s[..i][k] == s[1..][..j][k - 1];
    }
  }

  lemma {:induction false} DropBackForm(s: Bytes) returns (j: nat)
    ensures j <= |s| && DropBack(s) == s[..j] && AllEdges(s[j..])
    ensures j > 0 ==> s[j - 1] > 0x20 && s[j - 1] != 0x7F
    decreases |s|
  {
    j := |s|;
    if s != [] && IsEdge(s[|s| - 1]) {
      var n := |s| - 1;
      j := DropBackForm(s[..n]);
      assert s[..n][..j] == s[..j];
      assert forall k | 0 <= k < n - j :: s[j..][k] == s[..n][j..][k];
    } else {
      assert s[..j] == s;
    }
  }

  /** Trimming takes off a byte order mark, then everything at the edges, and nothing else. */
  lemma TrimMeans(s: Bytes) returns (mark: nat, i: nat, j: nat)
    ensures mark == if |s| >= 3 && s[0] == 0xEF && s[1] == 0xBB && s[2] == 0xBF then 3 else 0
    ensures mark <= i <= j <= |s| && TrimEdges(s) == s[i..j] && AllEdges(s[mark..i]) && AllEdges(s[j..])
    ensures i < j ==> s[i] > 0x20 && s[i] != 0x7F && s[j - 1] > 0x20 && s[j - 1] != 0x7F
  {
    mark := if HasMark(s) then 3 else 0;
    var unmarked := s[mark..];
    assert DropMark(s) == unmarked;
    var a := DropFrontForm(unmarked);
    i := mark + a;
    assert unmarked[a..] == s[i..] && unmarked[..a] == s[mark..i];
    var b := DropBackForm(s[i..]);
    j := i + b;
    assert s[i..][..b] == s[i..j] && s[i..][b..] == s[j..];
  }

  method TrimWsPayloadEdges(payload: Bytes) returns (r: Bytes)
    ensures r == TrimEdges(payload)
  {
    if payload == [] {
      return [];
    }
    var begin := 0;
    if |payload| >= 3 && payload[0] == 0xEF && payload[1] == 0xBB && payload[2] == 0xBF {
      begin := 3;
    }
    assert payload[0..] == payload;
    begin := SkipFront(payload, begin);
    var end := SkipBack(payload, begin);
    r := payload[begin..end];
  }

  method SkipFront(payload: Bytes, start: nat) returns (begin: nat)
    requires start <= |payload|
    ensures begin <= |payload| && payload[begin..] == DropFront(payload[start..])
  {
    begin := start;
    while begin < |payload| && IsEdge(payload[begin])
      invariant begin <= |payload|
      invariant DropFront(payload[begin..]) == DropFront(payload[start..])
    {
      DropFrontAt(payload, begin);
      begin := begin + 1;
    }
    if begin < |payload| {
      DropFrontAt(payload, begin);
    }
  }

  method SkipBack(payload: Bytes, begin: nat) returns (end: nat)
    requires begin <= |payload|
    ensures begin <= end <= |payload| && payload[begin..end] == DropBack(payload[begin..])
  {
    end := |payload|;
    assert payload[begin..] == payload[begin..end];
    while end > begin && IsEdge(payload[end - 1])
      invariant begin <= end <= |payload|
      invariant DropBack(payload[begin..end]) == DropBack(payload[begin..])
    {
      DropBackAt(payload, begin, end);
      end := end - 1;
    }
    if end > begin {
      DropBackAt(payload, begin, end);
    }
  }

  // ---------------------------------------------------------------------------
  // Normalizing and repairing
  // ---------------------------------------------------------------------------

  /** What a payload is read as: what it decodes to as UTF-16, as it is or trimmed, else the payload. */
  function ReadAs(payload: Bytes): Bytes {
    var utf16, trimmed := DecodePayload(payload), DecodePayload(TrimEdges(payload));
    if utf16.Some? then utf16.value else if trimmed.Some? then trimmed.value else payload
  }

  function Normalized(payload: Bytes): Bytes {
    TrimEdges(ReadAs(payload))
  }

  method NormalizeWebsocketRequestPayload(payload: Bytes) returns (r: Bytes)
    ensures r == Normalized(payload)
  {
    var utf16 := TryDecodeUtf16Json(payload);
    if utf16.Some? {
      r := TrimWsPayloadEdges(utf16.value);
      return;
    }
    var trimmed := TrimWsPayloadEdges(payload);
    utf16 := TryDecodeUtf16Json(trimmed);
    if utf16.Some? {
      r := TrimWsPayloadEdges(utf16.value);
      return;
    }
    r := trimmed;
  }

  /** The text to parse, from the normalized input and its slice; none if the payload is to be passed through. */
  function Chosen(input: Bytes, slice: Option<Bytes>, parses: Bytes -> bool): Option<Bytes> {
    if parses(input) then Some(input)
    else
      var candidate := if slice.Some? then Normalized(slice.value) else input;
      var sanitized := JsonEscape.Escape(JsonEscape.OUTSIDE, Scrub(candidate));
      if parses(candidate) then Some(candidate) else if parses(sanitized) then Some(sanitized) else None
  }

  /** What is made of a payload. */
  ghost predicate IsRepair(payload: Bytes, parses: Bytes -> bool, r: Option<Bytes>) {
    exists slice :: IsSlice(Scrub(Normalized(payload)), slice) && r == Chosen(Scrub(Normalized(payload)), slice, parses)
  }

  lemma RepairUnique(payload: Bytes, parses: Bytes -> bool, r: Option<Bytes>, q: Option<Bytes>)
    requires IsRepair(payload, parses, r) && IsRepair(payload, parses, q)
    ensures r == q
  {
    var input := Scrub(Normalized(payload));
    var a :| IsSlice(input, a) && r == Chosen(input, a, parses);
    var b :| IsSlice(input, b) && q == Chosen(input, b, parses);
    SliceUnique(input, a, b);
  }

  /** The first of some texts that parses. */
  function FirstParsed(texts: seq<Bytes>, parses: Bytes -> bool): Option<Bytes> {
    if texts == [] then None else if parses(texts[0]) then Some(texts[0]) else FirstParsed(texts[1..], parses)
  }

  lemma FirstOfTwo(a: Bytes, b: Bytes, parses: Bytes -> bool)
    ensures FirstParsed([a, b], parses) == if parses(a) then Some(a) else if parses(b) then Some(b) else None
  {
    assert [a, b][1..] == [b] && [b][1..] == [];
    assert FirstParsed([b], parses) == if parses(b) then Some(b) else FirstParsed([], parses);
  }

  lemma FirstOfThree(a: Bytes, b: Bytes, c: Bytes, parses: Bytes -> bool)
    ensures FirstParsed([a, b, c], parses) ==
            if parses(a) then Some(a) else if parses(b) then Some(b) else if parses(c) then Some(c) else None
  {
    assert [a, b, c][1..] == [b, c];
    FirstOfTwo(b, c, parses);
  }

  /**
    Any payload: the first that parses of it, trimmed and scrubbed, the object cut out of
    that, and this with its control bytes escaped; without an object the payload itself is
    escaped.
  */
  lemma RepairSays(payload: Bytes, parses: Bytes -> bool, r: Option<Bytes>) returns (slice: Option<Bytes>)
    requires IsRepair(payload, parses, r)
    ensures var input := Scrub(TrimEdges(ReadAs(payload)));
            && IsSlice(input, slice)
            && (slice.None? ==> r == FirstParsed([input, JsonEscape.Escape(JsonEscape.OUTSIDE, input)], parses))
            && (slice.Some? ==>
                  var o := TrimEdges(ReadAs(slice.value));
                  r == FirstParsed([input, o, JsonEscape.Escape(JsonEscape.OUTSIDE, Scrub(o))], parses))
  {
    var input := Scrub(Normalized(payload));
    slice :| IsSlice(input, slice) && r == Chosen(input, slice, parses);
    ScrubFixpoint(Normalized(payload));
    if slice.Some? {
      var o := Normalized(slice.value);
      FirstOfThree(input, o, JsonEscape.Escape(JsonEscape.OUTSIDE, Scrub(o)), parses);
    } else {
      FirstOfTwo(input, JsonEscape.Escape(JsonEscape.OUTSIDE, input), parses);
    }
  }

  method RepairPayload(payload: Bytes, parses: Bytes -> bool) returns (r: Option<Bytes>)
    ensures IsRepair(payload, parses, r)
  {
    var normalized := NormalizeWebsocketRequestPayload(payload);
    var input := StripInvalidBytes(normalized);
    var extracted := TryExtractJsonObjectSlice(input);
    if parses(input) {
      return Some(input);
    }
    var candidate := input;
    if extracted.Some? {
      candidate := NormalizeWebsocketRequestPayload(extracted.value);
    }
    if !parses(candidate) {
      var scrubbed := StripInvalidBytes(candidate);
      var sanitized := JsonEscape.EscapeControlBytes(scrubbed);
      if parses(sanitized) {
        return Some(sanitized);
      }
      return None;
    }
    return Some(candidate);
  }

  // ---------------------------------------------------------------------------
  // Well-formed throughout
  // ---------------------------------------------------------------------------

  /** A byte of ASCII splits a well-formed text into well-formed ones. */
  lemma {:induction false} SplitAtAscii(x: Bytes, b: Byte, y: Bytes)
    requires WellFormed(x + ([b] + y)) && b < 0x80
    ensures WellFormed(x) && WellFormed(y)
    decreases |x|
  {
    if x == [] {
      Units([b] + y);
      FrontOfChar([b], y);
    } else {
      var k := FrontWidth(x);
      JsonScrub.SameFront(x, [b] + y);
      CutFront(x, k, [b] + y);
      FrontOfChar(x[..k], x[k..] + ([b] + y));
      SplitAtAscii(x[k..], b, y);
      FrontOfChar(x[..k], x[k..]);
    }
  }

  lemma CutFront(x: Bytes, k: nat, rest: Bytes)
    requires k <= |x|
    ensures x == x[..k] + x[k..] && x + rest == x[..k] + (x[k..] + rest)
  {
    Halves(x, k);
    Assoc(x[..k], x[k..], rest);
  }

  lemma {:induction false} DropFrontWellFormed(s: Bytes)
    requires WellFormed(s)
    ensures WellFormed(DropFront(s))
    decreases |s|
  {
    if s != [] && IsEdge(s[0]) {
      assert s == [] + ([s[0]] + s[1..]);
      SplitAtAscii([], s[0], s[1..]);
      DropFrontWellFormed(s[1..]);
    }
  }

  lemma {:induction false} DropBackWellFormed(s: Bytes)
    requires WellFormed(s)
    ensures WellFormed(DropBack(s))
    decreases |s|
  {
    if s != [] && IsEdge(s[|s| - 1]) {
      var n := |s| - 1;
      assert s == s[..n] + ([s[n]] + []);
      SplitAtAscii(s[..n], s[n], []);
      DropBackWellFormed(s[..n]);
    }
  }

  lemma TrimWellFormed(s: Bytes)
    requires WellFormed(s)
    ensures WellFormed(TrimEdges(s))
  {
    if HasMark(s) {
      assert IsChar(s[..3]);
      FrontOfChar(s[..3], s[3..]);
      Halves(s, 3);
    }
    DropFrontWellFormed(DropMark(s));
    DropBackWellFormed(DropFront(DropMark(s)));
  }

  lemma NormalizedWellFormed(s: Bytes)
    requires WellFormed(s)
    ensures WellFormed(Normalized(s))
  {
    TrimWellFormed(s);
    if DecodePayload(s).Some? {
      DecodedIsWellFormed(s);
      TrimWellFormed(DecodePayload(s).value);
    } else if DecodePayload(TrimEdges(s)).Some? {
      DecodedIsWellFormed(TrimEdges(s));
      TrimWellFormed(DecodePayload(TrimEdges(s)).value);
    }
  }

  /** So does a stretch between two of them. */
  lemma Enclosed(before: Bytes, text: Bytes, after: Bytes)
    requires WellFormed(before + (text + after))
    requires |text| >= 2 && text[0] < 0x80 && text[|text| - 1] < 0x80
    ensures WellFormed(text)
  {
    var n := |text| - 1;
    var inner := text[1..n];
    TwoEnds(text);
    Assoc([text[0]], inner + [text[n]], after);
    Assoc(inner, [text[n]], after);
    SplitAtAscii(before, text[0], inner + ([text[n]] + after));
    SplitAtAscii(inner, text[n], after);
    CharWellFormed([text[0]]);
    CharWellFormed([text[n]]);
    WellFormedConcat(inner, [text[n]]);
    WellFormedConcat([text[0]], inner + [text[n]]);
  }

  lemma TwoEnds(text: Bytes)
    requires |text| >= 2
    ensures text == [text[0]] + (text[1..|text| - 1] + [text[|text| - 1]])
  {
  }

  lemma BalancedEnds(slice: Bytes)
    requires slice != [] && slice[0] == OPEN_BRACE && Balanced(slice) && forall n: nat | 0 < n < |slice| :: !Balanced(slice[..n])
    ensures |slice| >= 2 && slice[|slice| - 1] < 0x80
  {
    var n := |slice| - 1;
    assert slice == slice[..n] + [slice[n]] && slice == [slice[0]] + slice[1..];
    ScanConcat(Outside(0), slice[..n], [slice[n]]);
    ScanOne(ScanAll(Outside(0), slice[..n]), slice[n]);
    ScanConcat(Outside(0), [slice[0]], slice[1..]);
    ScanOne(Outside(0), slice[0]);
  }

  /** A slice of a well-formed text is well-formed. */
  lemma SliceWellFormed(s: Bytes, slice: Bytes)
    requires WellFormed(s) && IsSlice(s, Some(slice))
    ensures WellFormed(slice)
  {
    var start: nat :| SliceAt(s, start, slice);
    BalancedEnds(slice);
    assert s == s[..start] + (s[start..start + |slice|] + s[start + |slice|..]);
    Enclosed(s[..start], slice, s[start + |slice|..]);
  }

  lemma {:induction false} HighBytesStay(l: JsonEscape.Lex, s: Bytes)
    requires forall i | 0 <= i < |s| :: s[i] >= 0x80
    ensures JsonEscape.Escape(l, s) == s
    decreases |s|
  {
    if s != [] {
      HighBytesStay(JsonEscape.Next(l, s[0]), s[1..]);
    }
  }

  lemma CharEscapes(l: JsonEscape.Lex, c: Bytes)
    requires IsChar(c)
    ensures WellFormed(JsonEscape.Escape(l, c))
  {
    if |c| == 1 {
      var e := JsonEscape.Emit(l, c[0]);
      assert c[1..] == [];
      Units(e);
      assert JsonEscape.Escape(l, c) == e;
      if |e| == 2 {
        assert e == [e[0]] + [e[1]];
        CharWellFormed([e[0]]);
        CharWellFormed([e[1]]);
        WellFormedConcat([e[0]], [e[1]]);
      } else if |e| == 1 {
        CharWellFormed(e);
      }
    } else {
      HighBytesStay(l, c);
      CharWellFormed(c);
    }
  }

  lemma {:induction false} EscapeWellFormed(l: JsonEscape.Lex, s: Bytes)
    requires WellFormed(s)
    ensures WellFormed(JsonEscape.Escape(l, s))
    decreases |s|
  {
    if s != [] {
      var k := FrontWidth(s);
      var c, rest := s[..k], s[k..];
      Halves(s, k);
      JsonEscape.Concat(l, c, rest);
      CharEscapes(l, c);
      EscapeWellFormed(JsonEscape.LexAll(l, c), rest);
      WellFormedConcat(JsonEscape.Escape(l, c), JsonEscape.Escape(JsonEscape.LexAll(l, c), rest));
    }
  }

  /** Whatever came in and whatever the library accepts, the text that is parsed is well-formed UTF-8. */
  lemma RepairWellFormed(payload: Bytes, parses: Bytes -> bool, r: Option<Bytes>)
    requires IsRepair(payload, parses, r) && r.Some?
    ensures WellFormed(r.value)
  {
    var input := Scrub(Normalized(payload));
    var slice :| IsSlice(input, slice) && r == Chosen(input, slice, parses);
    ScrubSound(Normalized(payload));
    CandidateWellFormed(input, slice);
    ChosenWellFormed(input, slice, parses);
  }

  lemma CandidateWellFormed(input: Bytes, slice: Option<Bytes>)
    requires WellFormed(input) && IsSlice(input, slice)
    ensures slice.Some? ==> WellFormed(Normalized(slice.value))
  {
    if slice.Some? {
      SliceWellFormed(input, slice.value);
      NormalizedWellFormed(slice.value);
    }
  }

  lemma ChosenWellFormed(input: Bytes, slice: Option<Bytes>, parses: Bytes -> bool)
    requires WellFormed(input) && (slice.Some? ==> WellFormed(Normalized(slice.value)))
    ensures Chosen(input, slice, parses).Some? ==> WellFormed(Chosen(input, slice, parses).value)
  {
    var candidate := if slice.Some? then Normalized(slice.value) else input;
    ScrubSound(candidate);
    EscapeWellFormed(JsonEscape.OUTSIDE, Scrub(candidate));
  }

  // ---------------------------------------------------------------------------
  // What is recovered
  // ---------------------------------------------------------------------------

  lemma {:induction false} NoZeroBytes(s: Bytes, parity: nat, n: nat)
    requires 2 * n <= |s| && parity < 2 && 0 !in s
    ensures ZeroBytes(s, parity, n) == 0
  {
    if n > 0 {
      NoZeroBytes(s, parity, n - 1);
      assert s[2 * (n - 1) + parity] in s;
    }
  }

  /** UTF-8 without zero bytes is not taken for UTF-16. */
  lemma NotUtf16(s: Bytes)
    requires WellFormed(s) && 0 !in s
    ensures DecodePayload(s).None?
  {
    if |s| >= 4 {
      var n := if |s| / 2 < 64 then |s| / 2 else 64;
      NoZeroBytes(s, 0, n);
      NoZeroBytes(s, 1, n);
      assert FrontWidth(s) > 0 && LeadWidth(s[0]) > 0;
    }
  }

  lemma {:induction false} DropsOnly(s: Bytes)
    ensures forall b | b in DropFront(s) :: b in s
    ensures forall b | b in DropBack(s) :: b in s
    decreases |s|
  {
    if s != [] {
      assert forall b | b in s[1..] :: b in s;
      assert forall b | b in s[..|s| - 1] :: b in s;
      DropsOnly(s[1..]);
      DropsOnly(s[..|s| - 1]);
    }
  }

  lemma TrimDropsOnly(s: Bytes)
    ensures forall b | b in TrimEdges(s) :: b in s
  {
    DropsOnly(DropMark(s));
    DropsOnly(DropFront(DropMark(s)));
  }

  /** UTF-8 without zero bytes is read as it is. */
  lemma ReadAsUtf8(s: Bytes)
    requires WellFormed(s) && 0 !in s
    ensures ReadAs(s) == s
  {
    NotUtf16(s);
    TrimWellFormed(s);
    TrimDropsOnly(s);
    NotUtf16(TrimEdges(s));
  }

  lemma EncodedHasNoZero(v: int)
    requires IsScalar(v) && v != 0
    ensures 0 !in Encode(v)
  {
    EncodeIsChar(v);
  }

  lemma {:induction false} NonZeroHasNoZero(vs: seq<int>)
    requires AllScalars(vs)
    ensures AllScalars(NonZero(vs)) && 0 !in EncodeAll(NonZero(vs))
  {
    if vs != [] {
      var n := |vs| - 1;
      NonZeroHasNoZero(vs[..n]);
      if vs[n] != 0 {
        EncodedHasNoZero(vs[n]);
        Undo(NonZero(vs[..n]), [vs[n]]);
      } else {
        Units(NonZero(vs[..n]));
      }
    }
  }

  /** A text sent as UTF-16 with a byte order mark is treated exactly like the same text sent as UTF-8, U+0000 left out. */
  lemma EncodingDoesNotMatter(vs: seq<int>, littleEndian: bool, parses: Bytes -> bool, r: Option<Bytes>)
    requires AllScalars(vs)
    ensures AllUnits(EncodeAllUnits(vs))
    ensures IsRepair(ByteOrderMark(littleEndian) + Serialize(EncodeAllUnits(vs), littleEndian), parses, r) <==>
            IsRepair(EncodeAll(NonZero(vs)), parses, r)
  {
    DecodeEncoded(vs, littleEndian);
    NonZeroHasNoZero(vs);
    EncodeAllWellFormed(NonZero(vs));
    ReadAsUtf8(EncodeAll(NonZero(vs)));
    var utf16 := ByteOrderMark(littleEndian) + Serialize(EncodeAllUnits(vs), littleEndian);
    if vs == [] {
      MarkAlone(littleEndian);
      Units(ByteOrderMark(littleEndian));
    }
    SameInput(utf16, EncodeAll(NonZero(vs)), parses, r);
  }

  lemma {:induction false} EdgesGo(pad: Bytes, rest: Bytes)
    requires AllEdges(pad) && rest != [] && !IsEdge(rest[0])
    ensures DropFront(pad + rest) == rest
    decreases |pad|
  {
    if pad == [] {
      Units(rest);
    } else {
      assert (pad + rest)[1..] == pad[1..] + rest;
      EdgesGo(pad[1..], rest);
    }
  }

  lemma UntrimmedIsKept(s: Bytes)
    requires s != [] && !IsEdge(s[|s| - 1])
    ensures DropBack(s) == s
  {
  }

  lemma TrimPad(pad: Bytes, sent: Bytes)
    requires AllEdges(pad) && sent != [] && sent[0] == 0xFE && !IsEdge(sent[|sent| - 1])
    ensures TrimEdges(pad + sent) == sent
  {
    assert (pad + sent)[0] == if pad == [] then sent[0] else pad[0];
    EdgesGo(pad, sent);
    UntrimmedIsKept(sent);
  }

  lemma PaddedIsRead(pad: Bytes, sent: Bytes, d: Bytes)
    requires AllEdges(pad) && sent != [] && sent[0] == 0xFE && !IsEdge(sent[|sent| - 1])
    requires |pad| % 2 == 1 && DecodePayload(sent) == Some(d)
    ensures ReadAs(pad + sent) == d
  {
    TrimPad(pad, sent);
    EvenIsDecoded(sent);
    OddSum(pad, sent);
    OddIsNotDecoded(pad + sent);
  }

  lemma OddSum(a: Bytes, b: Bytes)
    requires |a| % 2 == 1 && |b| % 2 == 0
    ensures |a + b| % 2 == 1
  {
  }

  lemma EvenIsDecoded(s: Bytes)
    requires DecodePayload(s).Some?
    ensures |s| % 2 == 0
  {
  }

  /** An odd number of blanks before a text in UTF-16 hides it from the first look, but not from the second. */
  lemma PaddedUtf16IsRead(pad: Bytes, vs: seq<int>)
    requires AllEdges(pad) && |pad| % 2 == 1 && AllScalars(vs) && vs != []
    ensures AllUnits(EncodeAllUnits(vs))
    ensures var sent := ByteOrderMark(false) + Serialize(EncodeAllUnits(vs), false);
            !IsEdge(sent[|sent| - 1]) ==> ReadAs(pad + sent) == EncodeAll(NonZero(vs))
  {
    DecodeEncoded(vs, false);
    var sent := ByteOrderMark(false) + Serialize(EncodeAllUnits(vs), false);
    assert sent[0] == 0xFE;
    if !IsEdge(sent[|sent| - 1]) {
      PaddedIsRead(pad, sent, EncodeAll(NonZero(vs)));
    }
  }

  lemma OddIsNotDecoded(s: Bytes)
    requires |s| % 2 == 1
    ensures DecodePayload(s).None?
  {
  }

  lemma MarkAlone(littleEndian: bool)
    ensures Scrub(Normalized(ByteOrderMark(littleEndian))) == Scrub(Normalized([])) == []
  {
    var mark := ByteOrderMark(littleEndian);
    assert TrimEdges(mark) == mark;
    assert FrontWidth(mark) == 0 && mark[1..] == [mark[1]];
    assert FrontWidth([mark[1]]) == 0 && [mark[1]][1..] == [];
  }

  lemma SameInput(a: Bytes, b: Bytes, parses: Bytes -> bool, r: Option<Bytes>)
    requires Scrub(Normalized(a)) == Scrub(Normalized(b))
    ensures IsRepair(a, parses, r) <==> IsRepair(b, parses, r)
  {
  }

  lemma {:induction false} DropFrontBefore(junk: Bytes, rest: Bytes)
    requires rest != [] && !IsEdge(rest[0])
    ensures DropFront(junk + rest) == DropFront(junk) + rest
    decreases |junk|
  {
    if junk == [] {
      Units(rest);
    } else if IsEdge(junk[0]) {
      assert (junk + rest)[1..] == junk[1..] + rest;
      DropFrontBefore(junk[1..], rest);
    }
  }

  lemma {:induction false} DropBackAfter(front: Bytes, tail: Bytes)
    requires front != [] && !IsEdge(front[|front| - 1])
    ensures DropBack(front + tail) == front + DropBack(tail)
    decreases |tail|
  {
    if tail == [] {
      Units(front);
    } else if IsEdge(tail[|tail| - 1]) {
      assert (front + tail)[..|front + tail| - 1] == front + tail[..|tail| - 1];
      DropBackAfter(front, tail[..|tail| - 1]);
    }
  }

  lemma DropMarkBefore(junk: Bytes, rest: Bytes)
    requires rest != [] && rest[0] < 0x80
    ensures DropMark(junk + rest) == DropMark(junk) + rest
  {
    assert (junk + rest)[|junk|] == rest[0];
    if HasMark(junk + rest) {
      assert |junk| >= 3;
      assert (junk + rest)[3..] == junk[3..] + rest;
    }
  }

  /** Trimming does not reach a text that begins and ends with a brace. */
  lemma TrimAround(junk: Bytes, text: Bytes, tail: Bytes)
    requires text != [] && text[0] == OPEN_BRACE && !IsEdge(text[|text| - 1])
    ensures TrimEdges(junk + (text + tail)) == DropFront(DropMark(junk)) + text + DropBack(tail)
  {
    var front := DropFront(DropMark(junk));
    DropMarkBefore(junk, text + tail);
    DropFrontBefore(DropMark(junk), text + tail);
    Assoc(front, text, tail);
    assert (front + text)[|front + text| - 1] == text[|text| - 1];
    DropBackAfter(front + text, tail);
  }

  lemma ObjectEnds(ms: Members)
    ensures var text := Print(Object(ms));
            |text| >= 2 && text[0] == OPEN_BRACE && text[|text| - 1] == CLOSE_BRACE
  {
  }

  lemma TrimObject(ms: Members)
    ensures TrimEdges(Print(Object(ms))) == Print(Object(ms))
  {
    var text := Print(Object(ms));
    ObjectEnds(ms);
    TrimAround([], text, []);
    assert [] + (text + []) == text && [] + text + [] == text;
  }

  /** A text that begins and ends in ASCII is scrubbed by itself. */
  lemma ScrubAround(junk: Bytes, text: Bytes, tail: Bytes)
    requires text != [] && text[0] < 0x80 && text[|text| - 1] < 0x80
    ensures Scrub(junk + text + tail) == Scrub(junk) + Scrub(text) + Scrub(tail)
  {
    JsonScrub.ScrubBefore(junk, text);
    assert (junk + text)[|junk + text| - 1] == text[|text| - 1];
    JsonScrub.ScrubAfter(junk + text, tail);
  }

  /** Trimming and scrubbing leave the object, its strings scrubbed, the first thing to be sliced. */
  lemma SliceIsObject(junk: Bytes, ms: Members, tail: Bytes, slice: Option<Bytes>)
    requires OPEN_BRACE !in junk && MembersOk(ms, true)
    requires IsSlice(Scrub(TrimEdges(junk + (Print(Object(ms)) + tail))), slice)
    ensures slice == Some(Print(JsonScrub.Scrubbed(Object(ms))))
  {
    var text, front := Print(Object(ms)), DropFront(DropMark(junk));
    ObjectEnds(ms);
    TrimAround(junk, text, tail);
    ScrubAround(front, text, DropBack(tail));
    DropsOnly(DropMark(junk));
    JsonScrub.ScrubDropsOnly(front);
    JsonScrub.ValueScrubs(Object(ms));
    SliceUndoesPrint(Scrub(front), JsonScrub.ScrubbedMembers(ms), Scrub(DropBack(tail)), slice);
  }

  /** Later attempts at a printed object that is well-formed and not taken for UTF-16. */
  lemma ChosenObject(input: Bytes, ms: Members, parses: Bytes -> bool)
    requires MembersOk(ms, true) && WellFormed(Print(Object(ms))) && DecodePayload(Print(Object(ms))).None?
    ensures var text, clean := Print(Object(ms)), Print(JsonEscape.Clean(Object(ms)));
            Chosen(input, Some(text), parses) ==
            if parses(input) then Some(input) else if parses(text) then Some(text)
            else if parses(clean) then Some(clean) else None
  {
    TrimObject(ms);
    ScrubFixpoint(Print(Object(ms)));
    JsonEscape.ValueBecomes(Object(ms));
  }

  /** What a payload holding an object, its strings perhaps broken, ought to be made into. */
  function Recovered(whole: Bytes, ms: Members, parses: Bytes -> bool): Option<Bytes> {
    var value := JsonScrub.Scrubbed(Object(ms));
    var text, clean := Print(value), Print(JsonEscape.Clean(value));
    if parses(whole) then Some(whole) else if parses(text) then Some(text)
    else if parses(clean) then Some(clean) else None
  }

  /** Whatever the payload, it is repaired to the object: first slice, then text. */
  lemma SliceIsChosen(payload: Bytes, junk: Bytes, ms: Members, tail: Bytes, parses: Bytes -> bool, r: Option<Bytes>)
    requires ReadAs(payload) == junk + (Print(Object(ms)) + tail) && OPEN_BRACE !in junk && MembersOk(ms, true)
    requires IsRepair(payload, parses, r)
    ensures r == Chosen(Scrub(TrimEdges(ReadAs(payload))), Some(Print(JsonScrub.Scrubbed(Object(ms)))), parses)
  {
    var input := Scrub(Normalized(payload));
    var slice :| IsSlice(input, slice) && r == Chosen(input, slice, parses);
    SliceIsObject(junk, ms, tail, slice);
  }

  /**
    The whole repair, of any bytes that are read as junk without a brace, a JSON object, and
    any tail, the strings of the object holding any bytes but quote and backslash. What is
    parsed is the payload trimmed and scrubbed if the library takes that, else the object
    alone, its strings scrubbed, else that with its control bytes escaped; the payload is
    passed through only if the library takes none of them. The object has to stay clear of
    one branch: the guess that takes a text with enough zero bytes for UTF-16.
  */
  lemma ObjectIsRecovered(payload: Bytes, junk: Bytes, ms: Members, tail: Bytes, parses: Bytes -> bool, r: Option<Bytes>)
    requires ReadAs(payload) == junk + (Print(Object(ms)) + tail) && OPEN_BRACE !in junk && MembersOk(ms, true)
    requires DecodePayload(Print(JsonScrub.Scrubbed(Object(ms)))).None? && IsRepair(payload, parses, r)
    ensures r == Recovered(Scrub(TrimEdges(ReadAs(payload))), ms, parses)
    ensures ValueOk(JsonEscape.Clean(JsonScrub.Scrubbed(Object(ms))), false)
  {
    SliceIsChosen(payload, junk, ms, tail, parses, r);
    JsonScrub.ValueScrubs(Object(ms));
    ScrubSound(Print(Object(ms)));
    ChosenObject(Scrub(TrimEdges(ReadAs(payload))), JsonScrub.ScrubbedMembers(ms), parses);
    JsonEscape.ValueBecomes(JsonScrub.Scrubbed(Object(ms)));
  }

  // ---------------------------------------------------------------------------
  // Objects that are taken for UTF-16
  // ---------------------------------------------------------------------------

  lemma {:induction false} FirstUnitLeads(us: seq<int>)
    requires us != [] && 0x800 <= us[0] < 0xD800 && Run(us).Some?
    ensures Run(us).value.text != [] && Run(us).value.text[0] == Encode(us[0])[0]
  {
    var front := us[..|us| - 1];
    if front == [] {
      assert us == [us[0]];
      Units(Encode(us[0]));
    } else {
      FirstUnitLeads(front);
    }
  }

  lemma SecondByte(ms: Members)
    requires MembersOk(ms, true)
    ensures var text := Print(Object(ms));
            |text| >= 2 && text[0] == OPEN_BRACE && (IsWs(text[1]) || text[1] == QUOTE || text[1] == CLOSE_BRACE)
  {
    match ms
    case NoMembers(ws) => FirstOr(ws, [CLOSE_BRACE]);
    case LastMember(before, name, middle, space, value, after) => EntryLeads(before, name, middle, space);
    case Member(before, name, middle, space, value, after, rest) => EntryLeads(before, name, middle, space);
  }

  lemma FirstOr(ws: Bytes, rest: Bytes)
    requires AllWs(ws) && rest != []
    ensures IsWs((ws + rest)[0]) || (ws + rest)[0] == rest[0]
  {
    if ws != [] {
      assert ws[0] in ws;
    }
  }

  lemma EntryLeads(before: Bytes, name: seq<Piece>, middle: Bytes, space: Bytes)
    requires AllWs(before)
    ensures var entry := PrintEntry(before, name, middle, space);
            entry != [] && (IsWs(entry[0]) || entry[0] == QUOTE)
  {
    FirstOr(before, PrintText(name));
  }

  /** Read as UTF-16, an object begins with a character no JSON text begins with. */
  lemma MisreadLeads(ms: Members, d: Bytes)
    requires MembersOk(ms, true) && DecodePayload(Print(Object(ms))) == Some(d)
    ensures d != [] && 0xE0 <= d[0] < 0xEF
  {
    var text := Print(Object(ms));
    SecondByte(ms);
    LeadsByBytes(text, d);
  }

  lemma LeadsByBytes(text: Bytes, d: Bytes)
    requires DecodePayload(text) == Some(d) && text[0] == OPEN_BRACE && 0x09 <= text[1] <= CLOSE_BRACE
    ensures d != [] && 0xE0 <= d[0] < 0xEF
  {
    var little := Detect(text).value.0;
    assert text[0..] == text;
    var us := ReadUnits(text, little);
    FirstUnitLeads(us);
    assert 0x800 <= us[0] < 0xD800;
  }

  lemma FirstByteStays(d: Bytes)
    requires WellFormed(d) && d != [] && 0xE0 <= d[0] < 0xEF
    ensures TrimEdges(d) != [] && TrimEdges(d)[0] == d[0]
    ensures var e := JsonEscape.Escape(JsonEscape.OUTSIDE, Scrub(TrimEdges(d))); e != [] && e[0] == d[0]
  {
    DropBackAfter(d[..1], d[1..]);
    Halves(d, 1);
    var t := TrimEdges(d);
    TrimWellFormed(d);
    ScrubFixpoint(t);
    JsonEscape.Concat(JsonEscape.OUTSIDE, t[..1], t[1..]);
    Halves(t, 1);
    HighBytesStay(JsonEscape.OUTSIDE, t[..1]);
  }

  lemma ChosenMisread(input: Bytes, text: Bytes, d: Bytes, parses: Bytes -> bool)
    requires input != text && text != [] && text[0] == OPEN_BRACE && (forall s :: parses(s) <==> s == text)
    requires DecodePayload(text) == Some(d) && d != [] && 0xE0 <= d[0] < 0xEF
    ensures Chosen(input, Some(text), parses) == None
  {
    DecodedIsWellFormed(text);
    FirstByteStays(d);
    assert Normalized(text) == TrimEdges(d);
  }

  /** A tail that makes the length of a payload odd. */
  function OddTail(s: Bytes): Bytes {
    if |s| % 2 == 0 then [0x78] else [0x78, 0x78]
  }

  lemma OddLength(s: Bytes)
    ensures |s + OddTail(s)| % 2 == 1
  {
  }

  lemma OddIsReadAsItIs(s: Bytes)
    requires |s| % 2 == 1 && TrimEdges(s) == s
    ensures ReadAs(s) == s
  {
  }

  lemma TailStays(tail: Bytes)
    requires tail == [0x78] || tail == [0x78, 0x78]
    ensures DropBack(tail) == tail && Scrub(tail) == tail
  {
    JsonScrub.ScrubsItself(tail);
  }

  lemma TrimLonger(text: Bytes, tail: Bytes)
    requires text != [] && text[0] == OPEN_BRACE && text[|text| - 1] == CLOSE_BRACE && DropBack(tail) == tail
    ensures TrimEdges(text + tail) == text + tail
  {
    TrimAround([], text, tail);
    Units(text + tail);
    Units(text);
  }

  lemma ScrubLonger(text: Bytes, tail: Bytes)
    requires text != [] && text[|text| - 1] == CLOSE_BRACE && Scrub(tail) == tail
    ensures Scrub(text + tail) == Scrub(text) + tail
  {
    JsonScrub.ScrubAfter(text, tail);
  }

  /** With such a tail a text is read as it is, and nothing is trimmed. */
  lemma LongerStays(text: Bytes, tail: Bytes)
    requires text != [] && text[0] == OPEN_BRACE && text[|text| - 1] == CLOSE_BRACE
    requires |text + tail| % 2 == 1 && DropBack(tail) == tail && Scrub(tail) == tail
    ensures ReadAs(text + tail) == text + tail && Scrub(TrimEdges(text + tail)) == Scrub(text) + tail
  {
    TrimLonger(text, tail);
    ScrubLonger(text, tail);
    OddIsReadAsItIs(text + tail);
  }

  /** The shortest payload of an odd length that holds the object. */
  function Odd(ms: Members): Bytes {
    Print(Object(ms)) + OddTail(Print(Object(ms)))
  }

  lemma OddHolds(ms: Members)
    requires MembersOk(ms, true)
    ensures Holds(Odd(ms), [], ms, OddTail(Print(Object(ms))))
    ensures var text := Print(JsonScrub.Scrubbed(Object(ms)));
            Scrub(TrimEdges(ReadAs(Odd(ms)))) == text + OddTail(Print(Object(ms)))
  {
    ObjectEnds(ms);
    TailStays(OddTail(Print(Object(ms))));
    OddLength(Print(Object(ms)));
    LongerStays(Print(Object(ms)), OddTail(Print(Object(ms))));
    JsonScrub.ValueScrubs(Object(ms));
    Units(Odd(ms));
  }

  /** From that payload, and for a library that takes just the object, a misread object is not recovered. */
  lemma MisreadIsLost(ms: Members, text: Bytes, parses: Bytes -> bool, r: Option<Bytes>)
    requires MembersOk(ms, true) && text == Print(JsonScrub.Scrubbed(Object(ms)))
    requires DecodePayload(text).Some? && (forall s :: parses(s) <==> s == text) && IsRepair(Odd(ms), parses, r)
    ensures r == None && Recovered(Scrub(TrimEdges(ReadAs(Odd(ms)))), ms, parses) == Some(text)
  {
    var tail := OddTail(Print(Object(ms)));
    OddHolds(ms);
    SliceIsChosen(Odd(ms), [], ms, tail, parses, r);
    JsonScrub.ValueScrubs(Object(ms));
    MisreadLeads(JsonScrub.ScrubbedMembers(ms), DecodePayload(text).value);
    ObjectEnds(JsonScrub.ScrubbedMembers(ms));
    assert |text + tail| > |text|;
    ChosenMisread(text + tail, text, DecodePayload(text).value, parses);
  }

  /** The object is recovered from whatever surrounds it, for every library. */
  ghost predicate AlwaysRecovered(ms: Members) {
    forall payload, junk, tail, parses, r ::
      Holds(payload, junk, ms, tail) && IsRepair(payload, parses, r) ==>
        r == Recovered(Scrub(TrimEdges(ReadAs(payload))), ms, parses)
  }

  predicate Holds(payload: Bytes, junk: Bytes, ms: Members, tail: Bytes) {
    ReadAs(payload) == junk + (Print(Object(ms)) + tail) && OPEN_BRACE !in junk
  }

  /** That one branch is exactly what an object has to stay clear of. */
  lemma RecoveredIff(ms: Members)
    requires MembersOk(ms, true)
    ensures AlwaysRecovered(ms) <==> DecodePayload(Print(JsonScrub.Scrubbed(Object(ms)))).None?
  {
    var text := Print(JsonScrub.Scrubbed(Object(ms)));
    if DecodePayload(text).None? {
      forall payload, junk, tail, parses, r | Holds(payload, junk, ms, tail) && IsRepair(payload, parses, r)
        ensures r == Recovered(Scrub(TrimEdges(ReadAs(payload))), ms, parses)
      {
        ObjectIsRecovered(payload, junk, ms, tail, parses, r);
      }
    } else {
      IsLostSomewhere(ms, text, s => s == text);
    }
  }

  lemma IsLostSomewhere(ms: Members, text: Bytes, parses: Bytes -> bool)
    requires MembersOk(ms, true) && text == Print(JsonScrub.Scrubbed(Object(ms)))
    requires DecodePayload(text).Some? && forall s :: parses(s) <==> s == text
    ensures !AlwaysRecovered(ms)
  {
    var r := RepairExists(Odd(ms), parses);
    MisreadIsLost(ms, text, parses, r);
    OddHolds(ms);
    assert Holds(Odd(ms), [], ms, OddTail(Print(Object(ms)))) && IsRepair(Odd(ms), parses, r);
  }

  lemma RepairExists(payload: Bytes, parses: Bytes -> bool) returns (r: Option<Bytes>)
    ensures IsRepair(payload, parses, r)
  {
    var slice := JsonSlice.SliceExists(Scrub(Normalized(payload)));
    r := Chosen(Scrub(Normalized(payload)), slice, parses);
  }

  // ---------------------------------------------------------------------------
  // There are such objects
  // ---------------------------------------------------------------------------

  /** A string of zero bytes and letters in turn. */
  const LETTERS: Bytes := [0, 0x61, 0, 0x61, 0, 0x61, 0, 0x61, 0, 0x61, 0, 0x61, 0]

  const MISREAD := LastMember([], [], [], [], Text(JsonScrub.Plains(LETTERS)), [])

  const MISREAD_TEXT: Bytes := [OPEN_BRACE, QUOTE, QUOTE, COLON] + ([QUOTE] + LETTERS + [QUOTE]) + [CLOSE_BRACE]

  lemma LettersPrint()
    ensures PrintText(JsonScrub.Plains(LETTERS)) == [QUOTE] + LETTERS + [QUOTE]
    ensures PiecesOk(JsonScrub.Plains(LETTERS), true)
  {
    JsonScrub.PrintPlains(LETTERS);
    JsonScrub.PlainsOk(LETTERS);
  }

  /** An object with one member of an empty name. */
  lemma NamelessPrints(value: Value)
    ensures Print(Object(LastMember([], [], [], [], value, []))) ==
            [OPEN_BRACE, QUOTE, QUOTE, COLON] + Print(value) + [CLOSE_BRACE]
  {
    EmptyNamePrints();
    Units([QUOTE, QUOTE, COLON] + Print(value));
    assert PrintMembers(LastMember([], [], [], [], value, [])) == [QUOTE, QUOTE, COLON] + Print(value);
    Assoc([OPEN_BRACE], [QUOTE, QUOTE, COLON], Print(value));
  }

  lemma EmptyNamePrints()
    ensures PrintEntry([], [], [], []) == [QUOTE, QUOTE, COLON]
  {
    assert PrintText([]) == [QUOTE, QUOTE];
  }

  lemma MisreadPrints()
    ensures Print(Object(MISREAD)) == MISREAD_TEXT && MembersOk(MISREAD, true)
  {
    LettersPrint();
    NamelessPrints(Text(JsonScrub.Plains(LETTERS)));
    assert AllWs([]) && PiecesOk([], true);
  }

  lemma {:induction false} PlainUnits(us: seq<int>)
    requires forall i | 0 <= i < |us| :: 0 < us[i] < 0xD800
    ensures Run(us) == Some(Progress(EncodeAll(us), 0))
  {
    if us != [] {
      PlainUnits(us[..|us| - 1]);
    }
  }

  lemma {:induction false} ZerosBetween(s: Bytes, parity: nat, low: nat, high: nat, zero: bool)
    requires low <= high && 2 * high <= |s| && parity < 2
    requires forall k | low <= k < high :: s[2 * k + parity] == 0 <==> zero
    ensures ZeroBytes(s, parity, high) == ZeroBytes(s, parity, low) + if zero then high - low else 0
    decreases high
  {
    if low < high {
      ZerosBetween(s, parity, low, high - 1, zero);
    }
  }

  lemma MisreadIsDetected()
    ensures Detect(MISREAD_TEXT) == Some((true, 0))
  {
    var s := MISREAD_TEXT;
    assert |s| == 20;
    ZerosBetween(s, 0, 0, 10, false);
    ZerosBetween(s, 1, 0, 2, false);
    ZerosBetween(s, 1, 2, 9, true);
    ZerosBetween(s, 1, 9, 10, false);
  }

  lemma MisreadUnits()
    ensures |MISREAD_TEXT| == 20
    ensures var us := ReadUnits(MISREAD_TEXT, true); forall i | 0 <= i < |us| :: 0 < us[i] < 0xD800
  {
  }

  lemma DecodesPlainUnits(s: Bytes)
    requires |s| >= 4 && |s| % 2 == 0 && Detect(s) == Some((true, 0))
    requires var us := ReadUnits(s, true); forall i | 0 <= i < |us| :: 0 < us[i] < 0xD800
    ensures DecodePayload(s).Some?
  {
    assert s[0..] == s;
    PlainUnits(ReadUnits(s, true));
  }

  lemma MisreadDecodes()
    ensures DecodePayload(MISREAD_TEXT).Some?
  {
    MisreadIsDetected();
    MisreadUnits();
    DecodesPlainUnits(MISREAD_TEXT);
  }

  lemma AsciiValueStays(v: Value)
    requires ValueOk(v, true) && forall b | b in Print(v) :: b < 0x80
    ensures Print(JsonScrub.Scrubbed(v)) == Print(v)
  {
    JsonScrub.ValueScrubs(v);
    JsonScrub.ScrubsItself(Print(v));
  }

  lemma MisreadIsAscii()
    ensures forall b | b in MISREAD_TEXT :: b < 0x80
  {
  }

  /** A string in which every other byte is zero. */
  lemma AnObjectIsMisread()
    ensures MembersOk(MISREAD, true) && !AlwaysRecovered(MISREAD)
  {
    MisreadPrints();
    MisreadIsAscii();
    AsciiValueStays(Object(MISREAD));
    MisreadDecodes();
    RecoveredIff(MISREAD);
  }
}
