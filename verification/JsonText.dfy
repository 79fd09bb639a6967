/**
  JSON texts as section 2 to 7 of RFC 8259 build them, byte by byte: a tree that
  keeps every optional whitespace and every spelling of a string character, and
  its printing. Scalars other than strings are taken loosely, as any run of the
  bytes that numbers and the three literal names are made of.
*/
module JsonText {
  import opened Utf8

  const QUOTE: Byte := 0x22
  const BACKSLASH: Byte := 0x5C
  const OPEN_BRACE: Byte := 0x7B
  const CLOSE_BRACE: Byte := 0x7D
  const OPEN_BRACKET: Byte := 0x5B
  const CLOSE_BRACKET: Byte := 0x5D
  const COMMA: Byte := 0x2C
  const COLON: Byte := 0x3A

  /** One character of a string: a byte as it is, a two-byte escape, or \uXXXX. */
  datatype Piece = Plain(b: Byte) | Short(code: Byte) | Unicode(hex: Bytes)

  datatype Value =
    | Scalar(text: Bytes)
    | Text(pieces: seq<Piece>)
    | Array(items: Items)
    | Object(members: Members)

  datatype Items =
    | NoItems(ws: Bytes)
    | LastItem(before: Bytes, value: Value, after: Bytes)
    | Item(before: Bytes, value: Value, after: Bytes, rest: Items)

  datatype Members =
    | NoMembers(ws: Bytes)
    | LastMember(before: Bytes, name: seq<Piece>, middle: Bytes, space: Bytes, value: Value, after: Bytes)
    | Member(before: Bytes, name: seq<Piece>, middle: Bytes, space: Bytes, value: Value, after: Bytes, rest: Members)

  // ---------------------------------------------------------------------------
  // Printing
  // ---------------------------------------------------------------------------

  function PrintPiece(p: Piece): Bytes {
    match p
    case Plain(b) => [b]
    case Short(code) => [BACKSLASH, code]
    case Unicode(hex) => [BACKSLASH, 0x75] + hex
  }

  function PrintPieces(ps: seq<Piece>): Bytes {
    if ps == [] then [] else PrintPiece(ps[0]) + PrintPieces(ps[1..])
  }

  function PrintText(ps: seq<Piece>): Bytes {
    [QUOTE] + PrintPieces(ps) + [QUOTE]
  }

  function Print(v: Value): Bytes {
    match v
    case Scalar(text) => text
    case Text(pieces) => PrintText(pieces)
    case Array(items) => [OPEN_BRACKET] + PrintItems(items) + [CLOSE_BRACKET]
    case Object(members) => [OPEN_BRACE] + PrintMembers(members) + [CLOSE_BRACE]
  }

  function PrintItems(xs: Items): Bytes {
    match xs
    case NoItems(ws) => ws
    case LastItem(before, value, after) => before + Print(value) + after
    case Item(before, value, after, rest) => before + Print(value) + after + [COMMA] + PrintItems(rest)
  }

  function PrintEntry(before: Bytes, name: seq<Piece>, middle: Bytes, space: Bytes): Bytes {
    before + PrintText(name) + middle + [COLON] + space
  }

  function PrintMembers(ms: Members): Bytes {
    match ms
    case NoMembers(ws) => ws
    case LastMember(before, name, middle, space, value, after) =>
      PrintEntry(before, name, middle, space) + Print(value) + after
    case Member(before, name, middle, space, value, after, rest) =>
      PrintEntry(before, name, middle, space) + Print(value) + after + [COMMA] + PrintMembers(rest)
  }

  // ---------------------------------------------------------------------------
  // Which trees print to a JSON text
  // ---------------------------------------------------------------------------

  predicate IsWs(b: Byte) {
    b == 0x20 || b == 0x09 || b == 0x0A || b == 0x0D
  }

  ghost predicate AllWs(s: Bytes) {
    forall b | b in s :: IsWs(b)
  }

  predicate IsHexDigit(b: Byte) {
    0x30 <= b <= 0x39 || 0x41 <= b <= 0x46 || 0x61 <= b <= 0x66
  }

  predicate IsScalarByte(b: Byte) {
    0x30 <= b <= 0x39 || 0x41 <= b <= 0x5A || 0x61 <= b <= 0x7A || b == 0x2B || b == 0x2D || b == 0x2E
  }

  predicate IsShortCode(b: Byte) {
    b in [QUOTE, BACKSLASH, 0x2F, 0x62, 0x66, 0x6E, 0x72, 0x74]
  }

  /** With `raw`, control bytes may stand unescaped in a string, which RFC 8259 forbids. */
  ghost predicate PieceOk(p: Piece, raw: bool) {
    match p
    case Plain(b) => b != QUOTE && b != BACKSLASH && (raw || b >= 0x20)
    case Short(code) => IsShortCode(code)
    case Unicode(hex) => |hex| == 4 && forall b | b in hex :: IsHexDigit(b)
  }

  ghost predicate PiecesOk(ps: seq<Piece>, raw: bool) {
    forall p | p in ps :: PieceOk(p, raw)
  }

  ghost predicate ValueOk(v: Value, raw: bool) {
    match v
    case Scalar(text) => forall b | b in text :: IsScalarByte(b)
    case Text(pieces) => PiecesOk(pieces, raw)
    case Array(items) => ItemsOk(items, raw)
    case Object(members) => MembersOk(members, raw)
  }

  ghost predicate ItemsOk(xs: Items, raw: bool) {
    match xs
    case NoItems(ws) => AllWs(ws)
    case LastItem(before, value, after) => AllWs(before) && ValueOk(value, raw) && AllWs(after)
    case Item(before, value, after, rest) =>
      AllWs(before) && ValueOk(value, raw) && AllWs(after) && !rest.NoItems? && ItemsOk(rest, raw)
  }

  ghost predicate EntryOk(before: Bytes, name: seq<Piece>, middle: Bytes, space: Bytes, raw: bool) {
    AllWs(before) && PiecesOk(name, raw) && AllWs(middle) && AllWs(space)
  }

  ghost predicate MembersOk(ms: Members, raw: bool) {
    match ms
    case NoMembers(ws) => AllWs(ws)
    case LastMember(before, name, middle, space, value, after) =>
      EntryOk(before, name, middle, space, raw) && ValueOk(value, raw) && AllWs(after)
    case Member(before, name, middle, space, value, after, rest) =>
      EntryOk(before, name, middle, space, raw) && ValueOk(value, raw) && AllWs(after)
      && !rest.NoMembers? && MembersOk(rest, raw)
  }
}
