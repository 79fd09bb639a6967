/**
  Cutting a JSON object out of surrounding junk: try_extract_json_object_slice of
  native/proxy/src/ws_proxy.cpp, which tracks strings, escapes and brace depth.
*/
module JsonSlice {
  import opened Sequences
  import opened Options
  import opened Utf8
  import opened JsonText

  /** The lexer's variables. */
  datatype Scan = Scan(inString: bool, escape: bool, depth: int)

  function Outside(depth: int): Scan {
    Scan(false, false, depth)
  }

  function Step(st: Scan, b: Byte): Scan {
    if st.inString then
      if st.escape then st.(escape := false)
      else if b == BACKSLASH then st.(escape := true)
      else if b == QUOTE then st.(inString := false)
      else st
    else if b == QUOTE then st.(inString := true)
    else if b == OPEN_BRACE then st.(depth := st.depth + 1)
    else if b == CLOSE_BRACE then st.(depth := st.depth - 1)
    else st
  }

  function ScanAll(st: Scan, s: Bytes): Scan
    decreases |s|
  {
    if s == [] then st else ScanAll(Step(st, s[0]), s[1..])
  }

  lemma {:induction false} ScanConcat(st: Scan, a: Bytes, b: Bytes)
    ensures ScanAll(st, a + b) == ScanAll(ScanAll(st, a), b)
    decreases |a|
  {
    if a == [] {
      Units(b);
    } else {
      ScanConcat(Step(st, a[0]), a[1..], b);
      assert (a + b)[1..] == a[1..] + b;
    }
  }

  lemma ScanOne(st: Scan, b: Byte)
    ensures ScanAll(st, [b]) == Step(st, b)
  {
    assert [b][1..] == [];
  }

  lemma ScanTwo(st: Scan, b: Byte, c: Byte)
    ensures ScanAll(st, [b, c]) == Step(Step(st, b), c)
    ensures forall floor :: Above(st, [b, c], floor) <==>
              st.depth >= floor && Step(st, b).depth >= floor && Step(Step(st, b), c).depth >= floor
  {
    assert [b, c][1..] == [c] && [c][1..] == [];
    ScanOne(Step(st, b), c);
    forall floor
      ensures Above(Step(st, b), [c], floor) <==> Step(st, b).depth >= floor && Step(Step(st, b), c).depth >= floor
    {
    }
  }

  /** Braces balance outside strings. */
  predicate Balanced(s: Bytes) {
    var st := ScanAll(Outside(0), s);
    !st.inString && st.depth == 0
  }

  /**
    What is to be returned: the shortest balanced non-empty stretch that starts at
    the first opening brace, or nothing when there is no brace or no such stretch.
  */
  ghost predicate IsSlice(payload: Bytes, r: Option<Bytes>) {
    match r
    case Some(slice) =>
      exists start: nat :: SliceAt(payload, start, slice)
    case None =>
      forall start: nat, end: nat | FirstBrace(payload, start) && start < end <= |payload| ::
        !Balanced(payload[start..end])
  }

  ghost predicate FirstBrace(payload: Bytes, start: nat) {
    start < |payload| && payload[start] == OPEN_BRACE && OPEN_BRACE !in payload[..start]
  }

  ghost predicate SliceAt(payload: Bytes, start: nat, slice: Bytes) {
    && FirstBrace(payload, start)
    && slice != [] && start + |slice| <= |payload| && payload[start..start + |slice|] == slice
    && Balanced(slice)
    && forall n: nat | 0 < n < |slice| :: !Balanced(slice[..n])
  }

  lemma FirstBraceUnique(payload: Bytes, i: nat, j: nat)
    requires FirstBrace(payload, i) && FirstBrace(payload, j)
    ensures i == j
  {
  }

  /** The specification leaves no choice. */
  lemma SliceUnique(payload: Bytes, r: Option<Bytes>, q: Option<Bytes>)
    requires IsSlice(payload, r) && IsSlice(payload, q)
    ensures r == q
  {
    if r.Some? && q.Some? {
      var i: nat :| SliceAt(payload, i, r.value);
      var j: nat :| SliceAt(payload, j, q.value);
      FirstBraceUnique(payload, i, j);
      SliceAtUnique(payload, i, r.value, q.value);
    }
  }

  lemma SliceAtUnique(payload: Bytes, start: nat, a: Bytes, b: Bytes)
    requires SliceAt(payload, start, a) && SliceAt(payload, start, b)
    ensures a == b
  {
    var n := if |a| < |b| then |a| else |b|;
    assert a[..n] == payload[start..start + n] == b[..n];
    Units(a);
    assert a == a[..|a|] && b == b[..|b|];
  }

  lemma {:induction false} ShortestExists(payload: Bytes, start: nat, end: nat) returns (slice: Bytes)
    requires FirstBrace(payload, start) && start < end <= |payload| && Balanced(payload[start..end])
    ensures SliceAt(payload, start, slice)
    decreases end
  {
    slice := payload[start..end];
    if n: nat :| 0 < n < |slice| && Balanced(slice[..n]) {
      assert slice[..n] == payload[start..start + n];
      slice := ShortestExists(payload, start, start + n);
    }
  }

  lemma SliceExists(payload: Bytes) returns (r: Option<Bytes>)
    ensures IsSlice(payload, r)
  {
    if start: nat, end: nat :| FirstBrace(payload, start) && start < end <= |payload| && Balanced(payload[start..end]) {
      var slice := ShortestExists(payload, start, end);
      r := Some(slice);
    } else {
      r := None;
    }
  }

  method FindBrace(payload: Bytes) returns (start: nat)
    ensures start <= |payload| && OPEN_BRACE !in payload[..start]
    ensures start < |payload| ==> payload[start] == OPEN_BRACE
  {
    start := 0;
    while start < |payload| && payload[start] != OPEN_BRACE
      invariant start <= |payload| && OPEN_BRACE !in payload[..start]
    {
      start := start + 1;
    }
  }

  method TryExtractJsonObjectSlice(payload: Bytes) returns (r: Option<Bytes>)
    ensures IsSlice(payload, r)
  {
    var start := FindBrace(payload);
    if start == |payload| {
      return None;
    }
    assert FirstBrace(payload, start);

    var inString, escape, depth := false, false, 0;
    var index := start;
    assert payload[start..index] == [];
    while index < |payload|
      invariant start <= index <= |payload|
      invariant ScanAll(Outside(0), payload[start..index]) == Scan(inString, escape, depth)
      invariant index > start ==> depth >= 1
      invariant index == start ==> depth == 0 && !inString
      invariant OpenUpTo(payload, start, index)
    {
      var ch := payload[index];
      ScanNext(payload, start, index);
      index := index + 1;
      if inString {
        if escape {
          escape := false;
        } else if ch == BACKSLASH {
          escape := true;
        } else if ch == QUOTE {
          inString := false;
        }
        continue;
      }
      if ch == QUOTE {
        inString := true;
        continue;
      }
      if ch == OPEN_BRACE {
        depth := depth + 1;
        continue;
      }
      if ch != CLOSE_BRACE {
        continue;
      }
      depth := depth - 1;
      if depth != 0 {
        continue;
      }
      SliceFound(payload, start, index);
      return Some(payload[start..index]);
    }
    NothingFound(payload, start);
    r := None;
  }

  ghost predicate OpenUpTo(payload: Bytes, start: nat, index: nat)
    requires start <= index <= |payload|
  {
    forall end: nat | start < end <= index :: !Balanced(payload[start..end])
  }

  lemma SliceFound(payload: Bytes, start: nat, index: nat)
    requires FirstBrace(payload, start) && start < index <= |payload|
    requires OpenUpTo(payload, start, index - 1) && Balanced(payload[start..index])
    ensures IsSlice(payload, Some(payload[start..index]))
  {
    var slice := payload[start..index];
    forall n: nat | 0 < n < |slice|
      ensures !Balanced(slice[..n])
    {
      assert slice[..n] == payload[start..start + n];
    }
    assert SliceAt(payload, start, slice);
  }

  lemma NothingFound(payload: Bytes, start: nat)
    requires FirstBrace(payload, start) && OpenUpTo(payload, start, |payload|)
    ensures IsSlice(payload, None)
  {
    forall i: nat, end: nat | FirstBrace(payload, i) && i < end <= |payload|
      ensures !Balanced(payload[i..end])
    {
      FirstBraceUnique(payload, i, start);
    }
  }

  lemma ScanNext(payload: Bytes, start: nat, index: nat)
    requires start <= index < |payload|
    ensures ScanAll(Outside(0), payload[start..index + 1]) ==
            Step(ScanAll(Outside(0), payload[start..index]), payload[index])
    ensures OpenUpTo(payload, start, index) && !Balanced(payload[start..index + 1]) ==>
              OpenUpTo(payload, start, index + 1)
  {
    assert payload[start..index + 1] == payload[start..index] + [payload[index]];
    ScanConcat(Outside(0), payload[start..index], [payload[index]]);
    ScanOne(ScanAll(Outside(0), payload[start..index]), payload[index]);
  }

  // ---------------------------------------------------------------------------
  // Slicing undoes printing
  // ---------------------------------------------------------------------------

  /** Scanning `s` never goes below `floor`. */
  predicate Above(st: Scan, s: Bytes, floor: int)
    decreases |s|
  {
    st.depth >= floor && (s == [] || Above(Step(st, s[0]), s[1..], floor))
  }

  lemma {:induction false} AboveConcat(st: Scan, a: Bytes, b: Bytes, floor: int)
    requires Above(st, a, floor) && Above(ScanAll(st, a), b, floor)
    ensures Above(st, a + b, floor)
    decreases |a|
  {
    if a == [] {
      Units(b);
    } else {
      AboveConcat(Step(st, a[0]), a[1..], b, floor);
      assert (a + b)[1..] == a[1..] + b;
    }
  }

  lemma {:induction false} AboveAt(st: Scan, s: Bytes, floor: int, n: nat)
    requires Above(st, s, floor) && n <= |s|
    ensures ScanAll(st, s[..n]).depth >= floor
    decreases n
  {
    if n > 0 {
      AboveAt(Step(st, s[0]), s[1..], floor, n - 1);
      assert s[..n][1..] == s[1..][..n - 1];
    }
  }

  /** A stretch that leaves the lexer as it found it, outside strings, and opens no lower. */
  predicate Returns(depth: int, s: Bytes) {
    ScanAll(Outside(depth), s) == Outside(depth) && Above(Outside(depth), s, depth)
  }

  lemma ReturnsConcat(depth: int, a: Bytes, b: Bytes)
    requires Returns(depth, a) && Returns(depth, b)
    ensures Returns(depth, a + b)
  {
    ScanConcat(Outside(depth), a, b);
    AboveConcat(Outside(depth), a, b, depth);
  }

  lemma {:induction false} ReturnsPlain(depth: int, s: Bytes)
    requires QUOTE !in s && OPEN_BRACE !in s && CLOSE_BRACE !in s
    ensures Returns(depth, s)
  {
    if s != [] {
      ReturnsPlain(depth, s[1..]);
      assert s[0] in s;
    }
  }

  lemma {:induction false} InsideString(depth: int, ps: seq<Piece>)
    requires PiecesOk(ps, true)
    ensures ScanAll(Scan(true, false, depth), PrintPieces(ps)) == Scan(true, false, depth)
    ensures Above(Scan(true, false, depth), PrintPieces(ps), depth)
  {
    if ps != [] {
      var st := Scan(true, false, depth);
      InsideString(depth, ps[1..]);
      InsidePiece(depth, ps[0]);
      ScanConcat(st, PrintPiece(ps[0]), PrintPieces(ps[1..]));
      AboveConcat(st, PrintPiece(ps[0]), PrintPieces(ps[1..]), depth);
    }
  }

  lemma InsidePiece(depth: int, p: Piece)
    requires PieceOk(p, true)
    ensures ScanAll(Scan(true, false, depth), PrintPiece(p)) == Scan(true, false, depth)
    ensures Above(Scan(true, false, depth), PrintPiece(p), depth)
  {
    var st := Scan(true, false, depth);
    match p
    case Plain(b) =>
      assert [b][1..] == [];
    case Short(code) =>
      ScanTwo(st, BACKSLASH, code);
    case Unicode(hex) =>
      var lead: Bytes := [BACKSLASH, 0x75];
      ScanTwo(st, BACKSLASH, 0x75);
      InsideHex(st, hex);
      ScanConcat(st, lead, hex);
      AboveConcat(st, lead, hex, depth);
  }

  lemma {:induction false} InsideHex(st: Scan, hex: Bytes)
    requires st.inString && !st.escape && forall b | b in hex :: IsHexDigit(b)
    ensures ScanAll(st, hex) == st && Above(st, hex, st.depth)
  {
    if hex != [] {
      assert hex[0] in hex;
      InsideHex(st, hex[1..]);
    }
  }

  lemma TextReturns(depth: int, ps: seq<Piece>)
    requires PiecesOk(ps, true)
    ensures Returns(depth, PrintText(ps))
  {
    var open, inside := [QUOTE], Scan(true, false, depth);
    InsideString(depth, ps);
    ScanOne(Outside(depth), QUOTE);
    ScanOne(inside, QUOTE);
    assert open[1..] == [];
    ScanConcat(Outside(depth), open, PrintPieces(ps));
    AboveConcat(Outside(depth), open, PrintPieces(ps), depth);
    ScanConcat(Outside(depth), open + PrintPieces(ps), open);
    AboveConcat(Outside(depth), open + PrintPieces(ps), open, depth);
  }

  lemma {:induction false} ValueReturns(depth: int, v: Value)
    requires ValueOk(v, true)
    ensures Returns(depth, Print(v))
    decreases v, 0
  {
    match v
    case Scalar(text) =>
      ReturnsPlain(depth, text);
    case Text(pieces) =>
      TextReturns(depth, pieces);
    case Array(items) =>
      ItemsReturn(depth, items);
      ReturnsPlain(depth, [OPEN_BRACKET]);
      ReturnsPlain(depth, [CLOSE_BRACKET]);
      ReturnsConcat(depth, [OPEN_BRACKET], PrintItems(items));
      ReturnsConcat(depth, [OPEN_BRACKET] + PrintItems(items), [CLOSE_BRACKET]);
    case Object(members) =>
      MembersReturn(depth + 1, members);
      ObjectReturns(depth, PrintMembers(members));
  }

  lemma ObjectReturns(depth: int, body: Bytes)
    requires Returns(depth + 1, body)
    ensures Returns(depth, [OPEN_BRACE] + body + [CLOSE_BRACE])
  {
    var st, open, close := Outside(depth), [OPEN_BRACE], [CLOSE_BRACE];
    assert open[1..] == [] && close[1..] == [];
    ScanConcat(st, open, body);
    AboveLower(Outside(depth + 1), body, depth + 1, depth);
    AboveConcat(st, open, body, depth);
    ScanConcat(st, open + body, close);
    AboveConcat(st, open + body, close, depth);
  }

  lemma {:induction false} AboveLower(st: Scan, s: Bytes, floor: int, lower: int)
    requires Above(st, s, floor) && lower <= floor
    ensures Above(st, s, lower)
    decreases |s|
  {
    if s != [] {
      AboveLower(Step(st, s[0]), s[1..], floor, lower);
    }
  }

  lemma {:induction false} ItemsReturn(depth: int, xs: Items)
    requires ItemsOk(xs, true)
    ensures Returns(depth, PrintItems(xs))
    decreases xs
  {
    match xs
    case NoItems(ws) =>
      ReturnsPlain(depth, ws);
    case LastItem(before, value, after) =>
      PaddedReturns(depth, before, value, after);
    case Item(before, value, after, rest) =>
      PaddedReturns(depth, before, value, after);
      ItemsReturn(depth, rest);
      ReturnsPlain(depth, [COMMA]);
      ReturnsConcat(depth, before + Print(value) + after, [COMMA]);
      ReturnsConcat(depth, before + Print(value) + after + [COMMA], PrintItems(rest));
  }

  lemma {:induction false} PaddedReturns(depth: int, before: Bytes, value: Value, after: Bytes)
    requires AllWs(before) && ValueOk(value, true) && AllWs(after)
    ensures Returns(depth, before + Print(value) + after)
    decreases value, 1
  {
    ReturnsPlain(depth, before);
    ValueReturns(depth, value);
    ReturnsPlain(depth, after);
    ReturnsConcat(depth, before, Print(value));
    ReturnsConcat(depth, before + Print(value), after);
  }

  lemma EntryReturns(depth: int, before: Bytes, name: seq<Piece>, middle: Bytes, space: Bytes)
    requires EntryOk(before, name, middle, space, true)
    ensures Returns(depth, PrintEntry(before, name, middle, space))
  {
    ReturnsPlain(depth, before);
    TextReturns(depth, name);
    ReturnsPlain(depth, middle);
    ReturnsPlain(depth, [COLON]);
    ReturnsPlain(depth, space);
    ReturnsConcat(depth, before, PrintText(name));
    ReturnsConcat(depth, before + PrintText(name), middle);
    ReturnsConcat(depth, before + PrintText(name) + middle, [COLON]);
    ReturnsConcat(depth, before + PrintText(name) + middle + [COLON], space);
  }

  lemma {:induction false} MembersReturn(depth: int, ms: Members)
    requires MembersOk(ms, true)
    ensures Returns(depth, PrintMembers(ms))
    decreases ms
  {
    match ms
    case NoMembers(ws) =>
      ReturnsPlain(depth, ws);
    case LastMember(before, name, middle, space, value, after) =>
      var entry := PrintEntry(before, name, middle, space);
      EntryReturns(depth, before, name, middle, space);
      PaddedReturns(depth, [], value, after);
      Units(Print(value));
      ReturnsConcat(depth, entry, Print(value) + after);
      Assoc(entry, Print(value), after);
    case Member(before, name, middle, space, value, after, rest) =>
      var entry := PrintEntry(before, name, middle, space);
      EntryReturns(depth, before, name, middle, space);
      PaddedReturns(depth, [], value, after);
      Units(Print(value));
      ReturnsConcat(depth, entry, Print(value) + after);
      Assoc(entry, Print(value), after);
      ReturnsPlain(depth, [COMMA]);
      ReturnsConcat(depth, entry + Print(value) + after, [COMMA]);
      MembersReturn(depth, rest);
      ReturnsConcat(depth, entry + Print(value) + after + [COMMA], PrintMembers(rest));
  }

  /** A printed object balances at its last byte and not before. */
  lemma ObjectBalances(ms: Members)
    requires MembersOk(ms, true)
    ensures Balanced(Print(Object(ms)))
    ensures forall n: nat | 0 < n < |Print(Object(ms))| :: !Balanced(Print(Object(ms))[..n])
  {
    var text, body := Print(Object(ms)), PrintMembers(ms);
    ValueReturns(0, Object(ms));
    MembersReturn(1, ms);
    forall n: nat | 0 < n < |text|
      ensures !Balanced(text[..n])
    {
      assert text[..n] == [OPEN_BRACE] + body[..n - 1];
      ScanConcat(Outside(0), [OPEN_BRACE], body[..n - 1]);
      ScanOne(Outside(0), OPEN_BRACE);
      AboveAt(Outside(1), body, 1, n - 1);
    }
  }

  /**
    For every object of the grammar, printed with any whitespace, even with raw
    control bytes in its strings, after any junk without an opening brace and
    before any junk at all, exactly the printed object is cut out.
  */
  lemma SliceUndoesPrint(junk: Bytes, ms: Members, tail: Bytes, r: Option<Bytes>)
    requires OPEN_BRACE !in junk && MembersOk(ms, true)
    requires IsSlice(junk + Print(Object(ms)) + tail, r)
    ensures r == Some(Print(Object(ms)))
  {
    var text := Print(Object(ms));
    var payload := junk + text + tail;
    ObjectBalances(ms);
    assert payload[..|junk|] == junk;
    assert payload[|junk|..|junk| + |text|] == text;
    assert payload[|junk|] == text[0];
    assert SliceAt(payload, |junk|, text);
    assert IsSlice(payload, Some(text));
    SliceUnique(payload, r, Some(text));
  }
}
