/**
  What the byte scrubber does to a printed JSON value whose strings hold any bytes: it
  scrubs each stretch of raw bytes inside the strings and touches nothing else.
*/
module JsonScrub {
  import opened Sequences
  import opened Utf8
  import opened JsonText
  import JsonEscape

  // ---------------------------------------------------------------------------
  // Where a text can be cut
  // ---------------------------------------------------------------------------

  /** No char reaches across the border before a byte of ASCII. */
  lemma {:induction false} ScrubBefore(a: Bytes, b: Bytes)
    requires b != [] ==> b[0] < 0x80
    ensures Scrub(a + b) == Scrub(a) + Scrub(b)
    decreases |a|
  {
    if a == [] || b == [] {
      Units(a);
      Units(b);
      Units(Scrub(a));
      Units(Scrub(b));
    } else {
      SameFront(a, b);
      var k := FrontWidth(a);
      if k > 0 {
        Halves(a, k);
        Assoc(a[..k], a[k..], b);
        ScrubBefore(a[k..], b);
        ScrubChar(a[..k], a[k..] + b);
        Assoc(a[..k], Scrub(a[k..]), Scrub(b));
      } else {
        assert (a + b)[1..] == a[1..] + b;
        ScrubBefore(a[1..], b);
      }
    }
  }

  lemma SameFront(a: Bytes, b: Bytes)
    requires a != [] && b != [] && b[0] < 0x80
    ensures FrontWidth(a + b) == FrontWidth(a)
  {
    var w := LeadWidth(a[0]);
    assert (a + b)[|a|] == b[0];
    if w <= |a| {
      assert (a + b)[..w] == a[..w];
    } else if w <= |a + b| {
      var c := (a + b)[..w];
      assert c[|a|] == b[0] && !IsTail(b[0]);
    }
  }

  lemma ScrubAfter(a: Bytes, b: Bytes)
    requires a != [] && a[|a| - 1] < 0x80
    ensures Scrub(a + b) == Scrub(a) + Scrub(b)
  {
    var n := |a| - 1;
    var c := [a[n]];
    assert a == a[..n] + c;
    Assoc(a[..n], c, b);
    ScrubBefore(a[..n], c + b);
    ScrubBefore(a[..n], c);
    ScrubChar(c, b);
    ScrubChar(c, []);
    Units(c);
    Assoc(Scrub(a[..n]), c, Scrub(b));
  }

  /** Empty, or ASCII at both ends: no char reaches across either end. */
  predicate IsSolid(s: Bytes) {
    s == [] || (s[0] < 0x80 && s[|s| - 1] < 0x80)
  }

  /** `s` scrubs to `t`, whatever stands around it. */
  predicate Scrubs(s: Bytes, t: Bytes) {
    Scrub(s) == t && IsSolid(s)
  }

  lemma ScrubsConcat(a: Bytes, a': Bytes, b: Bytes, b': Bytes)
    requires Scrubs(a, a') && Scrubs(b, b')
    ensures Scrubs(a + b, a' + b')
  {
    ScrubBefore(a, b);
  }

  lemma {:induction false} ScrubsItself(s: Bytes)
    requires forall b | b in s :: b < 0x80
    ensures Scrubs(s, s)
  {
    if s != [] {
      assert s[0] in s && s[|s| - 1] in s && forall b | b in s[1..] :: b in s;
      ScrubsItself(s[1..]);
      ScrubChar([s[0]], s[1..]);
      assert s == [s[0]] + s[1..];
    }
  }

  lemma {:induction false} ScrubDropsOnly(s: Bytes)
    ensures forall b | b in Scrub(s) :: b in s
    decreases |s|
  {
    if s != [] {
      var k := if FrontWidth(s) > 0 then FrontWidth(s) else 1;
      ScrubDropsOnly(s[k..]);
      assert forall b | b in s[..k] || b in s[k..] :: b in s;
    }
  }

  // ---------------------------------------------------------------------------
  // Strings
  // ---------------------------------------------------------------------------

  /** How many raw bytes a string begins with. */
  function Run(ps: seq<Piece>): (n: nat)
    ensures n <= |ps| && (forall i | 0 <= i < n :: ps[i].Plain?) && (n < |ps| ==> !ps[n].Plain?)
  {
    if ps == [] || !ps[0].Plain? then 0 else 1 + Run(ps[1..])
  }

  function Plains(s: Bytes): (r: seq<Piece>)
    ensures |r| == |s| && forall i | 0 <= i < |r| :: r[i] == Plain(s[i])
  {
    seq(|s|, i requires 0 <= i < |s| => Plain(s[i]))
  }

  /** Every stretch of raw bytes scrubbed, the escapes as they are. */
  function ScrubPieces(ps: seq<Piece>): seq<Piece>
    decreases |ps|
  {
    if ps == [] then []
    else if !ps[0].Plain? then [ps[0]] + ScrubPieces(ps[1..])
    else Plains(Scrub(PrintPieces(ps[..Run(ps)]))) + ScrubPieces(ps[Run(ps)..])
  }

  lemma {:induction false} PrintPlains(s: Bytes)
    ensures PrintPieces(Plains(s)) == s
  {
    if s != [] {
      PrintPlains(s[1..]);
      assert Plains(s)[1..] == Plains(s[1..]);
    }
  }

  lemma {:induction false} RawBytes(ps: seq<Piece>)
    requires PiecesOk(ps, true) && forall i | 0 <= i < |ps| :: ps[i].Plain?
    ensures forall b | b in PrintPieces(ps) :: b != QUOTE && b != BACKSLASH
  {
    if ps != [] {
      assert PieceOk(ps[0], true) && forall p | p in ps[1..] :: p in ps;
      RawBytes(ps[1..]);
    }
  }

  lemma EscapeIsAscii(p: Piece)
    requires PieceOk(p, true) && !p.Plain?
    ensures Scrubs(PrintPiece(p), PrintPiece(p)) && PrintPiece(p) != []
  {
    ScrubsItself(PrintPiece(p));
  }

  lemma EscapeLeads(ps: seq<Piece>)
    requires ps != [] && !ps[0].Plain?
    ensures PrintPieces(ps) != [] && PrintPieces(ps)[0] < 0x80
  {
  }

  lemma PlainsOk(s: Bytes)
    requires forall b | b in s :: b != QUOTE && b != BACKSLASH
    ensures PiecesOk(Plains(s), true)
  {
    forall p | p in Plains(s)
      ensures PieceOk(p, true)
    {
      var i :| 0 <= i < |s| && p == Plains(s)[i];
      assert s[i] in s;
    }
  }

  lemma PlainsAreOk(run: seq<Piece>)
    requires PiecesOk(run, true) && forall i | 0 <= i < |run| :: run[i].Plain?
    ensures PiecesOk(Plains(Scrub(PrintPieces(run))), true)
  {
    RawBytes(run);
    ScrubDropsOnly(PrintPieces(run));
    PlainsOk(Scrub(PrintPieces(run)));
  }

  lemma BothOk(a: seq<Piece>, b: seq<Piece>)
    requires PiecesOk(a, true) && PiecesOk(b, true)
    ensures PiecesOk(a + b, true)
  {
  }

  /** The stretch of raw bytes at the front of a string. */
  lemma RunScrubs(run: seq<Piece>, rest: seq<Piece>)
    requires PiecesOk(run, true) && (forall i | 0 <= i < |run| :: run[i].Plain?) && (rest != [] ==> !rest[0].Plain?)
    requires Scrub(PrintPieces(rest)) == PrintPieces(ScrubPieces(rest)) && PiecesOk(ScrubPieces(rest), true)
    ensures var ps := Plains(Scrub(PrintPieces(run))) + ScrubPieces(rest);
            Scrub(PrintPieces(run + rest)) == PrintPieces(ps) && PiecesOk(ps, true)
  {
    var bytes := PrintPieces(run);
    JsonEscape.PrintPiecesConcat(run, rest);
    if rest != [] {
      EscapeLeads(rest);
    }
    ScrubBefore(bytes, PrintPieces(rest));
    JsonEscape.PrintPiecesConcat(Plains(Scrub(bytes)), ScrubPieces(rest));
    PrintPlains(Scrub(bytes));
    PlainsAreOk(run);
    BothOk(Plains(Scrub(bytes)), ScrubPieces(rest));
  }

  lemma {:induction false} PiecesScrub(ps: seq<Piece>)
    requires PiecesOk(ps, true)
    ensures Scrub(PrintPieces(ps)) == PrintPieces(ScrubPieces(ps)) && PiecesOk(ScrubPieces(ps), true)
    decreases |ps|
  {
    if ps != [] {
      var n := Run(ps);
      assert forall p | p in ps[1..] || p in ps[..n] || p in ps[n..] :: p in ps;
      assert PieceOk(ps[0], true);
      if n == 0 {
        PiecesScrub(ps[1..]);
        EscapeIsAscii(ps[0]);
        ScrubAfter(PrintPiece(ps[0]), PrintPieces(ps[1..]));
      } else {
        PiecesScrub(ps[n..]);
        RunScrubs(ps[..n], ps[n..]);
        Halves(ps, n);
      }
    }
  }

  lemma TextScrubs(ps: seq<Piece>)
    requires PiecesOk(ps, true)
    ensures Scrubs(PrintText(ps), PrintText(ScrubPieces(ps)))
    ensures PiecesOk(ScrubPieces(ps), true)
  {
    var quote := [QUOTE];
    var text := PrintPieces(ps);
    PiecesScrub(ps);
    ScrubsItself(quote);
    ScrubAfter(quote, text);
    ScrubBefore(quote + text, quote);
  }

  // ---------------------------------------------------------------------------
  // Trees
  // ---------------------------------------------------------------------------

  /** The same tree with its strings scrubbed. */
  function Scrubbed(v: Value): Value {
    match v
    case Scalar(_) => v
    case Text(pieces) => Text(ScrubPieces(pieces))
    case Array(items) => Array(ScrubbedItems(items))
    case Object(members) => Object(ScrubbedMembers(members))
  }

  function ScrubbedItems(xs: Items): Items {
    match xs
    case NoItems(_) => xs
    case LastItem(before, value, after) => LastItem(before, Scrubbed(value), after)
    case Item(before, value, after, rest) => Item(before, Scrubbed(value), after, ScrubbedItems(rest))
  }

  function ScrubbedMembers(ms: Members): Members {
    match ms
    case NoMembers(_) => ms
    case LastMember(before, name, middle, space, value, after) =>
      LastMember(before, ScrubPieces(name), middle, space, Scrubbed(value), after)
    case Member(before, name, middle, space, value, after, rest) =>
      Member(before, ScrubPieces(name), middle, space, Scrubbed(value), after, ScrubbedMembers(rest))
  }

  lemma BracketsScrub(open: Byte, s: Bytes, t: Bytes, close: Byte)
    requires open < 0x80 && close < 0x80 && Scrubs(s, t)
    ensures Scrubs([open] + s + [close], [open] + t + [close])
  {
    ScrubsItself([open]);
    ScrubsItself([close]);
    ScrubsConcat([open], [open], s, t);
    ScrubsConcat([open] + s, [open] + t, [close], [close]);
  }

  /** Scrubbing a printed value is printing the scrubbed value. */
  lemma {:induction false} ValueScrubs(v: Value)
    requires ValueOk(v, true)
    ensures Scrubs(Print(v), Print(Scrubbed(v)))
    ensures ValueOk(Scrubbed(v), true)
    decreases v, 0
  {
    match v
    case Scalar(text) =>
      ScrubsItself(text);
    case Text(pieces) =>
      TextScrubs(pieces);
    case Array(items) =>
      ItemsScrub(items);
      BracketsScrub(OPEN_BRACKET, PrintItems(items), PrintItems(ScrubbedItems(items)), CLOSE_BRACKET);
    case Object(members) =>
      MembersScrub(members);
      BracketsScrub(OPEN_BRACE, PrintMembers(members), PrintMembers(ScrubbedMembers(members)), CLOSE_BRACE);
  }

  lemma {:induction false} PaddedScrubs(before: Bytes, before': Bytes, value: Value, after: Bytes)
    requires Scrubs(before, before') && ValueOk(value, true) && AllWs(after)
    ensures Scrubs(before + Print(value) + after, before' + Print(Scrubbed(value)) + after)
    ensures ValueOk(Scrubbed(value), true)
    decreases value, 1
  {
    ValueScrubs(value);
    ScrubsItself(after);
    ScrubsConcat(before, before', Print(value), Print(Scrubbed(value)));
    ScrubsConcat(before + Print(value), before' + Print(Scrubbed(value)), after, after);
  }

  lemma AndThenScrubs(a: Bytes, a': Bytes, b: Bytes, b': Bytes)
    requires Scrubs(a, a') && Scrubs(b, b')
    ensures Scrubs(a + [COMMA] + b, a' + [COMMA] + b')
  {
    ScrubsItself([COMMA]);
    ScrubsConcat(a, a', [COMMA], [COMMA]);
    ScrubsConcat(a + [COMMA], a' + [COMMA], b, b');
  }

  lemma {:induction false} ItemsScrub(xs: Items)
    requires ItemsOk(xs, true)
    ensures Scrubs(PrintItems(xs), PrintItems(ScrubbedItems(xs)))
    ensures ItemsOk(ScrubbedItems(xs), true)
    decreases xs
  {
    match xs
    case NoItems(ws) =>
      ScrubsItself(ws);
    case LastItem(before, value, after) =>
      ScrubsItself(before);
      PaddedScrubs(before, before, value, after);
    case Item(before, value, after, rest) =>
      ScrubsItself(before);
      PaddedScrubs(before, before, value, after);
      ItemsScrub(rest);
      AndThenScrubs(before + Print(value) + after, before + Print(Scrubbed(value)) + after,
                    PrintItems(rest), PrintItems(ScrubbedItems(rest)));
  }

  lemma EntryScrubs(before: Bytes, name: seq<Piece>, middle: Bytes, space: Bytes)
    requires EntryOk(before, name, middle, space, true)
    ensures Scrubs(PrintEntry(before, name, middle, space), PrintEntry(before, ScrubPieces(name), middle, space))
    ensures EntryOk(before, ScrubPieces(name), middle, space, true)
  {
    var s, t := PrintText(name), PrintText(ScrubPieces(name));
    TextScrubs(name);
    ScrubsItself(before);
    ScrubsItself(middle);
    ScrubsItself([COLON]);
    ScrubsItself(space);
    ScrubsConcat(before, before, s, t);
    ScrubsConcat(before + s, before + t, middle, middle);
    ScrubsConcat(before + s + middle, before + t + middle, [COLON], [COLON]);
    ScrubsConcat(before + s + middle + [COLON], before + t + middle + [COLON], space, space);
  }

  lemma {:induction false} MembersScrub(ms: Members)
    requires MembersOk(ms, true)
    ensures Scrubs(PrintMembers(ms), PrintMembers(ScrubbedMembers(ms)))
    ensures MembersOk(ScrubbedMembers(ms), true)
    decreases ms
  {
    match ms
    case NoMembers(ws) =>
      ScrubsItself(ws);
    case LastMember(before, name, middle, space, value, after) =>
      EntryScrubs(before, name, middle, space);
      PaddedScrubs(PrintEntry(before, name, middle, space), PrintEntry(before, ScrubPieces(name), middle, space),
                   value, after);
    case Member(before, name, middle, space, value, after, rest) =>
      var e, e' := PrintEntry(before, name, middle, space), PrintEntry(before, ScrubPieces(name), middle, space);
      EntryScrubs(before, name, middle, space);
      PaddedScrubs(e, e', value, after);
      MembersScrub(rest);
      AndThenScrubs(e + Print(value) + after, e' + Print(Scrubbed(value)) + after,
                    PrintMembers(rest), PrintMembers(ScrubbedMembers(rest)));
  }
}
