/**
  The last repair of a websocket payload, escape_control_bytes_in_json_strings of
  native/proxy/src/ws_proxy.cpp: control bytes outside strings are dropped unless
  they are whitespace; inside strings they become their short escape, or nothing.
*/
module JsonEscape {
  import opened Sequences
  import opened Options
  import opened Utf8
  import opened JsonText
  import JsonSlice

  predicate IsDisallowed(b: Byte) {
    b < 0x20 || b == 0x7F
  }

  /** The letter of the two-byte escape of a control byte, if section 7 of RFC 8259 has one. */
  function ShortCode(b: Byte): Option<Byte> {
    if b == 0x08 then Some(0x62)
    else if b == 0x0C then Some(0x66)
    else if b == 0x0A then Some(0x6E)
    else if b == 0x0D then Some(0x72)
    else if b == 0x09 then Some(0x74)
    else None
  }

  datatype Lex = Lex(inString: bool, escape: bool)

  const OUTSIDE := Lex(false, false)
  const INSIDE := Lex(true, false)

  function Next(l: Lex, b: Byte): Lex {
    if !l.inString then (if b == QUOTE then INSIDE else l)
    else if l.escape then INSIDE
    else if b == BACKSLASH then Lex(true, true)
    else if b == QUOTE then OUTSIDE
    else l
  }

  function Emit(l: Lex, b: Byte): Bytes {
    if !l.inString then (if IsDisallowed(b) && !IsWs(b) then [] else [b])
    else if l.escape || b == BACKSLASH || b == QUOTE || !IsDisallowed(b) then [b]
    else if ShortCode(b).Some? then [BACKSLASH, ShortCode(b).value]
    else []
  }

  function LexAll(l: Lex, s: Bytes): Lex
    decreases |s|
  {
    if s == [] then l else LexAll(Next(l, s[0]), s[1..])
  }

  function Escape(l: Lex, s: Bytes): Bytes
    decreases |s|
  {
    if s == [] then [] else Emit(l, s[0]) + Escape(Next(l, s[0]), s[1..])
  }

  method EscapeControlBytes(payload: Bytes) returns (sanitized: Bytes)
    ensures sanitized == Escape(OUTSIDE, payload)
  {
    sanitized := [];
    var inString, escape := false, false;
    assert payload[0..] == payload;
    for i := 0 to |payload|
      invariant !inString ==> !escape
      invariant sanitized + Escape(Lex(inString, escape), payload[i..]) == Escape(OUTSIDE, payload)
    {
      var ch := payload[i];
      EscapeAt(sanitized, payload, i, Lex(inString, escape));
      if !inString {
        if IsDisallowed(ch) && !IsWs(ch) {
          continue;
        }
        sanitized := sanitized + [ch];
        if ch == QUOTE {
          inString := true;
        }
        continue;
      }
      if escape {
        sanitized := sanitized + [ch];
        escape := false;
        continue;
      }
      if ch == BACKSLASH {
        sanitized := sanitized + [BACKSLASH];
        escape := true;
        continue;
      }
      if ch == QUOTE {
        sanitized := sanitized + [QUOTE];
        inString := false;
        continue;
      }
      if IsDisallowed(ch) {
        match ch {
          case 0x08 => sanitized := sanitized + [BACKSLASH, 0x62];
          case 0x0C => sanitized := sanitized + [BACKSLASH, 0x66];
          case 0x0A => sanitized := sanitized + [BACKSLASH, 0x6E];
          case 0x0D => sanitized := sanitized + [BACKSLASH, 0x72];
          case 0x09 => sanitized := sanitized + [BACKSLASH, 0x74];
          case _ =>
        }
        continue;
      }
      sanitized := sanitized + [ch];
    }
    Units(sanitized);
  }

  lemma EscapeAt(done: Bytes, payload: Bytes, i: nat, l: Lex)
    requires i < |payload|
    ensures done + Escape(l, payload[i..]) ==
            (done + Emit(l, payload[i])) + Escape(Next(l, payload[i]), payload[i + 1..])
    ensures done + [] == done
  {
    assert payload[i..][1..] == payload[i + 1..];
    Assoc(done, Emit(l, payload[i]), Escape(Next(l, payload[i]), payload[i + 1..]));
  }

  // ---------------------------------------------------------------------------
  // The pass keeps the lexer's state and settles in one go
  // ---------------------------------------------------------------------------

  lemma {:induction false} Concat(l: Lex, a: Bytes, b: Bytes)
    ensures LexAll(l, a + b) == LexAll(LexAll(l, a), b)
    ensures Escape(l, a + b) == Escape(l, a) + Escape(LexAll(l, a), b)
    decreases |a|
  {
    if a == [] {
      Units(b);
      Units(Escape(l, b));
    } else {
      Concat(Next(l, a[0]), a[1..], b);
      assert (a + b)[1..] == a[1..] + b;
      Assoc(Emit(l, a[0]), Escape(Next(l, a[0]), a[1..]), Escape(LexAll(l, a), b));
    }
  }

  lemma TwoBytes(l: Lex, b: Byte, c: Byte)
    ensures Escape(l, [b, c]) == Emit(l, b) + Emit(Next(l, b), c)
    ensures LexAll(l, [b, c]) == Next(Next(l, b), c)
  {
    assert [b, c][1..] == [c] && [c][1..] == [];
    assert LexAll(Next(l, b), [c]) == Next(Next(l, b), c);
    Units(Emit(Next(l, b), c));
    assert Escape(Next(l, b), [c]) == Emit(Next(l, b), c);
  }

  /** What one byte turns into is lexed like the byte, and is not turned into anything else. */
  lemma OneByte(l: Lex, b: Byte)
    requires !l.inString ==> !l.escape
    ensures LexAll(l, Emit(l, b)) == Next(l, b)
    ensures Escape(l, Emit(l, b)) == Emit(l, b)
  {
    var e := Emit(l, b);
    if |e| == 1 {
      assert e[1..] == [];
    } else if |e| == 2 {
      TwoBytes(l, e[0], e[1]);
      assert e == [e[0], e[1]];
    }
  }

  /** The output lexes to the same state as the input, and escaping it again changes nothing. */
  lemma {:induction false} EscapeSettles(l: Lex, s: Bytes)
    requires !l.inString ==> !l.escape
    ensures LexAll(l, Escape(l, s)) == LexAll(l, s)
    ensures Escape(l, Escape(l, s)) == Escape(l, s)
    decreases |s|
  {
    if s != [] {
      OneByte(l, s[0]);
      EscapeSettles(Next(l, s[0]), s[1..]);
      Concat(l, Emit(l, s[0]), Escape(Next(l, s[0]), s[1..]));
    }
  }

  /** Where a raw control byte may still stand: as whitespace outside strings, or right after a backslash. */
  ghost predicate ControlsPlaced(l: Lex, s: Bytes)
    decreases |s|
  {
    s == []
    || (&& (IsDisallowed(s[0]) ==> (!l.inString && IsWs(s[0])) || (l.inString && l.escape))
        && ControlsPlaced(Next(l, s[0]), s[1..]))
  }

  lemma {:induction false} PlacedConcat(l: Lex, a: Bytes, b: Bytes)
    requires ControlsPlaced(l, a) && ControlsPlaced(LexAll(l, a), b)
    ensures ControlsPlaced(l, a + b)
    decreases |a|
  {
    if a == [] {
      Units(b);
    } else {
      PlacedConcat(Next(l, a[0]), a[1..], b);
      assert (a + b)[1..] == a[1..] + b;
    }
  }

  lemma {:induction false} EscapePlacesControls(l: Lex, s: Bytes)
    requires !l.inString ==> !l.escape
    ensures ControlsPlaced(l, Escape(l, s))
    decreases |s|
  {
    if s != [] {
      OneByte(l, s[0]);
      var e := Emit(l, s[0]);
      if |e| == 2 {
        assert e[1..] == [e[1]] && [e[1]][1..] == [];
      }
      EscapePlacesControls(Next(l, s[0]), s[1..]);
      PlacedConcat(l, e, Escape(Next(l, s[0]), s[1..]));
    }
  }

  // ---------------------------------------------------------------------------
  // On printed trees
  // ---------------------------------------------------------------------------

  function CleanPiece(p: Piece): seq<Piece> {
    match p
    case Plain(b) =>
      if !IsDisallowed(b) then [p]
      else if ShortCode(b).Some? then [Short(ShortCode(b).value)]
      else []
    case _ => [p]
  }

  function CleanPieces(ps: seq<Piece>): seq<Piece> {
    if ps == [] then [] else CleanPiece(ps[0]) + CleanPieces(ps[1..])
  }

  /** The same tree with every raw control byte of its strings escaped, or dropped for want of an escape. */
  function Clean(v: Value): Value {
    match v
    case Scalar(_) => v
    case Text(pieces) => Text(CleanPieces(pieces))
    case Array(items) => Array(CleanItems(items))
    case Object(members) => Object(CleanMembers(members))
  }

  function CleanItems(xs: Items): Items {
    match xs
    case NoItems(_) => xs
    case LastItem(before, value, after) => LastItem(before, Clean(value), after)
    case Item(before, value, after, rest) => Item(before, Clean(value), after, CleanItems(rest))
  }

  function CleanMembers(ms: Members): Members {
    match ms
    case NoMembers(_) => ms
    case LastMember(before, name, middle, space, value, after) =>
      LastMember(before, CleanPieces(name), middle, space, Clean(value), after)
    case Member(before, name, middle, space, value, after, rest) =>
      Member(before, CleanPieces(name), middle, space, Clean(value), after, CleanMembers(rest))
  }

  /** What a piece of a string stands for: a byte, or what four hexadecimal digits name. */
  datatype Char = Octet(b: Byte) | Named(hex: Bytes)

  function Denoted(p: Piece): Char {
    match p
    case Plain(b) => Octet(b)
    case Unicode(hex) => Named(hex)
    case Short(code) =>
      if code == 0x62 then Octet(0x08)
      else if code == 0x66 then Octet(0x0C)
      else if code == 0x6E then Octet(0x0A)
      else if code == 0x72 then Octet(0x0D)
      else if code == 0x74 then Octet(0x09)
      else Octet(code)
  }

  function AllDenoted(ps: seq<Piece>): (r: seq<Char>)
    ensures |r| == |ps| && forall i | 0 <= i < |r| :: r[i] == Denoted(ps[i])
  {
    seq(|ps|, i requires 0 <= i < |ps| => Denoted(ps[i]))
  }

  /** A raw control byte that no short escape stands for. */
  predicate IsUnwritable(p: Piece) {
    p.Plain? && (p.b < 0x20 || p.b == 0x7F) && p.b !in {0x08, 0x09, 0x0A, 0x0C, 0x0D}
  }

  function Writable(ps: seq<Piece>): seq<Piece> {
    if ps == [] then [] else (if IsUnwritable(ps[0]) then [] else [ps[0]]) + Writable(ps[1..])
  }

  /** A cleaned string stands for what the string did, but for the control bytes that cannot be written. */
  lemma {:induction false} CleanStandsForTheSame(ps: seq<Piece>)
    ensures AllDenoted(CleanPieces(ps)) == AllDenoted(Writable(ps))
  {
    if ps != [] {
      CleanStandsForTheSame(ps[1..]);
      var clean, kept := CleanPiece(ps[0]), if IsUnwritable(ps[0]) then [] else [ps[0]];
      assert AllDenoted(clean) == AllDenoted(kept);
      DenotedConcat(clean, CleanPieces(ps[1..]));
      DenotedConcat(kept, Writable(ps[1..]));
    }
  }

  lemma DenotedConcat(a: seq<Piece>, b: seq<Piece>)
    ensures AllDenoted(a + b) == AllDenoted(a) + AllDenoted(b)
  {
  }

  /** How many raw DEL bytes stand in the strings. */
  function PieceDels(ps: seq<Piece>): nat {
    if ps == [] then 0 else (if ps[0] == Plain(0x7F) then 1 else 0) + PieceDels(ps[1..])
  }

  function Dels(v: Value): nat {
    match v
    case Scalar(_) => 0
    case Text(pieces) => PieceDels(pieces)
    case Array(items) => ItemDels(items)
    case Object(members) => MemberDels(members)
  }

  function ItemDels(xs: Items): nat {
    match xs
    case NoItems(_) => 0
    case LastItem(_, value, _) => Dels(value)
    case Item(_, value, _, rest) => Dels(value) + ItemDels(rest)
  }

  function MemberDels(ms: Members): nat {
    match ms
    case NoMembers(_) => 0
    case LastMember(_, name, _, _, value, _) => PieceDels(name) + Dels(value)
    case Member(_, name, _, _, value, _, rest) => PieceDels(name) + Dels(value) + MemberDels(rest)
  }

  /** From outside strings, `s` becomes `t` and leaves the lexer outside strings. */
  predicate Becomes(s: Bytes, t: Bytes) {
    Escape(OUTSIDE, s) == t && LexAll(OUTSIDE, s) == OUTSIDE
  }

  lemma BecomesConcat(a: Bytes, a': Bytes, b: Bytes, b': Bytes)
    requires Becomes(a, a') && Becomes(b, b')
    ensures Becomes(a + b, a' + b')
  {
    Concat(OUTSIDE, a, b);
  }

  lemma {:induction false} BecomesItself(s: Bytes)
    requires forall b | b in s :: b != QUOTE && (IsDisallowed(b) ==> IsWs(b))
    ensures Becomes(s, s)
  {
    if s != [] {
      assert s[0] in s && forall b | b in s[1..] :: b in s;
      BecomesItself(s[1..]);
    }
  }

  lemma {:induction false} HexInside(s: Bytes)
    requires forall b | b in s :: IsHexDigit(b)
    ensures Escape(INSIDE, s) == s && LexAll(INSIDE, s) == INSIDE
  {
    if s != [] {
      assert s[0] in s;
      HexInside(s[1..]);
    }
  }

  lemma PrintOne(p: Piece)
    ensures PrintPieces([p]) == PrintPiece(p)
  {
    assert [p][1..] == [];
    Units(PrintPiece(p));
  }

  lemma PieceInside(p: Piece)
    requires PieceOk(p, true)
    ensures Escape(INSIDE, PrintPiece(p)) == PrintPieces(CleanPiece(p))
    ensures LexAll(INSIDE, PrintPiece(p)) == INSIDE
    ensures PiecesOk(CleanPiece(p), false)
  {
    match p
    case Plain(b) =>
      assert [b][1..] == [];
      Units(Emit(INSIDE, b));
      PrintOne(p);
      if CleanPiece(p) != [] {
        PrintOne(CleanPiece(p)[0]);
        assert CleanPiece(p) == [CleanPiece(p)[0]];
      }
    case Short(code) =>
      TwoBytes(INSIDE, BACKSLASH, code);
      PrintOne(p);
    case Unicode(hex) =>
      var lead: Bytes := [BACKSLASH, 0x75];
      TwoBytes(INSIDE, BACKSLASH, 0x75);
      HexInside(hex);
      Concat(INSIDE, lead, hex);
      PrintOne(p);
  }

  lemma {:induction false} PrintPiecesConcat(a: seq<Piece>, b: seq<Piece>)
    ensures PrintPieces(a + b) == PrintPieces(a) + PrintPieces(b)
  {
    if a == [] {
      Units(b);
      Units(PrintPieces(b));
    } else {
      PrintPiecesConcat(a[1..], b);
      assert (a + b)[1..] == a[1..] + b;
      Assoc(PrintPiece(a[0]), PrintPieces(a[1..]), PrintPieces(b));
    }
  }

  lemma {:induction false} PiecesInside(ps: seq<Piece>)
    requires PiecesOk(ps, true)
    ensures Escape(INSIDE, PrintPieces(ps)) == PrintPieces(CleanPieces(ps))
    ensures LexAll(INSIDE, PrintPieces(ps)) == INSIDE
    ensures PiecesOk(CleanPieces(ps), false)
  {
    if ps != [] {
      PieceInside(ps[0]);
      PiecesInside(ps[1..]);
      Concat(INSIDE, PrintPiece(ps[0]), PrintPieces(ps[1..]));
      PrintPiecesConcat(CleanPiece(ps[0]), CleanPieces(ps[1..]));
    }
  }

  lemma TextBecomes(ps: seq<Piece>)
    requires PiecesOk(ps, true)
    ensures Becomes(PrintText(ps), PrintText(CleanPieces(ps)))
    ensures PiecesOk(CleanPieces(ps), false)
  {
    PiecesInside(ps);
    var q := [QUOTE];
    assert q[1..] == [];
    Concat(OUTSIDE, q, PrintPieces(ps));
    Concat(OUTSIDE, q + PrintPieces(ps), q);
  }

  /**
    For every tree of the grammar with raw control bytes in its strings, the pass
    turns its printing into the printing of the cleaned tree, which is a JSON text.
  */
  lemma {:induction false} ValueBecomes(v: Value)
    requires ValueOk(v, true)
    ensures Becomes(Print(v), Print(Clean(v)))
    ensures ValueOk(Clean(v), false)
    decreases v, 0
  {
    match v
    case Scalar(text) =>
      BecomesItself(text);
    case Text(pieces) =>
      TextBecomes(pieces);
    case Array(items) =>
      ItemsBecome(items);
      BecomesItself([OPEN_BRACKET]);
      BecomesItself([CLOSE_BRACKET]);
      BecomesConcat([OPEN_BRACKET], [OPEN_BRACKET], PrintItems(items), PrintItems(CleanItems(items)));
      BecomesConcat([OPEN_BRACKET] + PrintItems(items), [OPEN_BRACKET] + PrintItems(CleanItems(items)),
                    [CLOSE_BRACKET], [CLOSE_BRACKET]);
    case Object(members) =>
      MembersBecome(members);
      BecomesItself([OPEN_BRACE]);
      BecomesItself([CLOSE_BRACE]);
      BecomesConcat([OPEN_BRACE], [OPEN_BRACE], PrintMembers(members), PrintMembers(CleanMembers(members)));
      BecomesConcat([OPEN_BRACE] + PrintMembers(members), [OPEN_BRACE] + PrintMembers(CleanMembers(members)),
                    [CLOSE_BRACE], [CLOSE_BRACE]);
  }

  lemma {:induction false} PaddedBecomes(before: Bytes, before': Bytes, value: Value, after: Bytes)
    requires Becomes(before, before') && ValueOk(value, true) && AllWs(after)
    ensures Becomes(before + Print(value) + after, before' + Print(Clean(value)) + after)
    ensures ValueOk(Clean(value), false)
    decreases value, 1
  {
    ValueBecomes(value);
    BecomesItself(after);
    BecomesConcat(before, before', Print(value), Print(Clean(value)));
    BecomesConcat(before + Print(value), before' + Print(Clean(value)), after, after);
  }

  lemma {:induction false} ItemsBecome(xs: Items)
    requires ItemsOk(xs, true)
    ensures Becomes(PrintItems(xs), PrintItems(CleanItems(xs)))
    ensures ItemsOk(CleanItems(xs), false)
    decreases xs
  {
    match xs
    case NoItems(ws) =>
      BecomesItself(ws);
    case LastItem(before, value, after) =>
      BecomesItself(before);
      PaddedBecomes(before, before, value, after);
    case Item(before, value, after, rest) =>
      BecomesItself(before);
      PaddedBecomes(before, before, value, after);
      ItemsBecome(rest);
      AndThen(before + Print(value) + after, before + Print(Clean(value)) + after,
              PrintItems(rest), PrintItems(CleanItems(rest)));
  }

  lemma AndThen(a: Bytes, a': Bytes, b: Bytes, b': Bytes)
    requires Becomes(a, a') && Becomes(b, b')
    ensures Becomes(a + [COMMA] + b, a' + [COMMA] + b')
  {
    BecomesItself([COMMA]);
    BecomesConcat(a, a', [COMMA], [COMMA]);
    BecomesConcat(a + [COMMA], a' + [COMMA], b, b');
  }

  lemma EntryBecomes(before: Bytes, name: seq<Piece>, middle: Bytes, space: Bytes)
    requires EntryOk(before, name, middle, space, true)
    ensures Becomes(PrintEntry(before, name, middle, space), PrintEntry(before, CleanPieces(name), middle, space))
    ensures EntryOk(before, CleanPieces(name), middle, space, false)
  {
    var s, t := PrintText(name), PrintText(CleanPieces(name));
    TextBecomes(name);
    BecomesItself(before);
    BecomesItself(middle);
    BecomesItself([COLON]);
    BecomesItself(space);
    BecomesConcat(before, before, s, t);
    BecomesConcat(before + s, before + t, middle, middle);
    BecomesConcat(before + s + middle, before + t + middle, [COLON], [COLON]);
    BecomesConcat(before + s + middle + [COLON], before + t + middle + [COLON], space, space);
  }

  lemma {:induction false} MembersBecome(ms: Members)
    requires MembersOk(ms, true)
    ensures Becomes(PrintMembers(ms), PrintMembers(CleanMembers(ms)))
    ensures MembersOk(CleanMembers(ms), false)
    decreases ms
  {
    match ms
    case NoMembers(ws) =>
      BecomesItself(ws);
    case LastMember(before, name, middle, space, value, after) =>
      EntryBecomes(before, name, middle, space);
      PaddedBecomes(PrintEntry(before, name, middle, space), PrintEntry(before, CleanPieces(name), middle, space),
                    value, after);
    case Member(before, name, middle, space, value, after, rest) =>
      var e, e' := PrintEntry(before, name, middle, space), PrintEntry(before, CleanPieces(name), middle, space);
      EntryBecomes(before, name, middle, space);
      PaddedBecomes(e, e', value, after);
      MembersBecome(rest);
      AndThen(e + Print(value) + after, e' + Print(Clean(value)) + after,
              PrintMembers(rest), PrintMembers(CleanMembers(rest)));
  }

  // ---------------------------------------------------------------------------
  // Which JSON texts come through unchanged
  // ---------------------------------------------------------------------------

  lemma {:induction false} PiecesShrink(ps: seq<Piece>)
    requires PiecesOk(ps, false)
    ensures |PrintPieces(CleanPieces(ps))| + PieceDels(ps) == |PrintPieces(ps)|
    ensures PieceDels(ps) == 0 ==> CleanPieces(ps) == ps
  {
    if ps != [] {
      var p := ps[0];
      assert PieceOk(p, false);
      PiecesShrink(ps[1..]);
      PrintPiecesConcat(CleanPiece(p), CleanPieces(ps[1..]));
      PrintOne(p);
    }
  }

  /** In a JSON text only DEL is at stake; each one dropped shortens the text. */
  lemma {:induction false} Shrinks(v: Value)
    requires ValueOk(v, false)
    ensures |Print(Clean(v))| + Dels(v) == |Print(v)|
    ensures Dels(v) == 0 ==> Clean(v) == v
    decreases v
  {
    match v
    case Scalar(_) =>
    case Text(pieces) => PiecesShrink(pieces);
    case Array(items) => ItemsShrink(items);
    case Object(members) => MembersShrink(members);
  }

  lemma {:induction false} ItemsShrink(xs: Items)
    requires ItemsOk(xs, false)
    ensures |PrintItems(CleanItems(xs))| + ItemDels(xs) == |PrintItems(xs)|
    ensures ItemDels(xs) == 0 ==> CleanItems(xs) == xs
    decreases xs
  {
    match xs
    case NoItems(_) =>
    case LastItem(_, value, _) => Shrinks(value);
    case Item(_, value, _, rest) =>
      Shrinks(value);
      ItemsShrink(rest);
  }

  lemma {:induction false} MembersShrink(ms: Members)
    requires MembersOk(ms, false)
    ensures |PrintMembers(CleanMembers(ms))| + MemberDels(ms) == |PrintMembers(ms)|
    ensures MemberDels(ms) == 0 ==> CleanMembers(ms) == ms
    decreases ms
  {
    match ms
    case NoMembers(_) =>
    case LastMember(_, name, _, _, value, _) =>
      PiecesShrink(name);
      Shrinks(value);
    case Member(_, name, _, _, value, _, rest) =>
      PiecesShrink(name);
      Shrinks(value);
      MembersShrink(rest);
  }

  /**
    RFC 8259 lets DEL stand raw in a string, the pass drops it: a JSON text is
    left alone exactly when its strings hold no raw DEL.
  */
  lemma JsonTextUnchanged(v: Value)
    requires ValueOk(v, false)
    ensures Escape(OUTSIDE, Print(v)) == Print(v) <==> Dels(v) == 0
  {
    OkIsRawOk(v);
    ValueBecomes(v);
    Shrinks(v);
  }

  lemma {:induction false} OkIsRawOk(v: Value)
    requires ValueOk(v, false)
    ensures ValueOk(v, true)
    decreases v
  {
    match v
    case Scalar(_) =>
    case Text(_) =>
    case Array(items) => ItemsOkIsRawOk(items);
    case Object(members) => MembersOkIsRawOk(members);
  }

  lemma {:induction false} ItemsOkIsRawOk(xs: Items)
    requires ItemsOk(xs, false)
    ensures ItemsOk(xs, true)
    decreases xs
  {
    match xs
    case NoItems(_) =>
    case LastItem(_, value, _) => OkIsRawOk(value);
    case Item(_, value, _, rest) =>
      OkIsRawOk(value);
      ItemsOkIsRawOk(rest);
  }

  lemma {:induction false} MembersOkIsRawOk(ms: Members)
    requires MembersOk(ms, false)
    ensures MembersOk(ms, true)
    decreases ms
  {
    match ms
    case NoMembers(_) =>
    case LastMember(_, _, _, _, value, _) => OkIsRawOk(value);
    case Member(_, _, _, _, value, _, rest) =>
      OkIsRawOk(value);
      MembersOkIsRawOk(rest);
  }

  /**
    The two repairs together: an object with raw control bytes in its strings,
    buried in junk, is recovered as a JSON text of the cleaned object.
  */
  lemma RecoverObject(junk: Bytes, ms: Members, tail: Bytes, slice: Option<Bytes>)
    requires OPEN_BRACE !in junk && MembersOk(ms, true)
    requires JsonSlice.IsSlice(junk + Print(Object(ms)) + tail, slice)
    ensures slice.Some? && Escape(OUTSIDE, slice.value) == Print(Clean(Object(ms)))
    ensures ValueOk(Clean(Object(ms)), false)
  {
    JsonSlice.SliceUndoesPrint(junk, ms, tail, slice);
    ValueBecomes(Object(ms));
  }
}
