/** How app/src/main/codexSetup.ts reads one line of a configuration file; strings are JavaScript strings. */
module CodexLines {
  import opened Options
  import opened Sequences

  // ---------------------------------------------------------------------------
  // Trimming and comments
  // ---------------------------------------------------------------------------

  /** What JavaScript trims, and what \s matches. */
  predicate IsWhite(c: char) {
    || '\t' <= c <= '\r' || c == ' ' || c == '\U{A0}' || c == '\U{1680}' || '\U{2000}' <= c <= '\U{200A}'
    || c == '\U{2028}' || c == '\U{2029}' || c == '\U{202F}' || c == '\U{205F}' || c == '\U{3000}' || c == '\U{FEFF}'
  }

  /** What a dot of a regular expression does not match. */
  predicate IsLineBreak(c: char) {
    c == '\n' || c == '\r' || c == '\U{2028}' || c == '\U{2029}'
  }

  predicate IsKeyChar(c: char) {
    'A' <= c <= 'Z' || 'a' <= c <= 'z' || '0' <= c <= '9' || c == '_' || c == '.' || c == '-'
  }

  function TrimStart(s: string): (r: string)
    ensures r == "" || !IsWhite(r[0])
    ensures s == "" || !IsWhite(s[0]) ==> r == s
    ensures |r| <= |s| && r == s[|s| - |r|..]
  {
    if s != "" && IsWhite(s[0]) then TrimStart(s[1..]) else s
  }

  function TrimEnd(s: string): (r: string)
    ensures r == "" || !IsWhite(r[|r| - 1])
    ensures s == "" || !IsWhite(s[|s| - 1]) ==> r == s
    ensures r <= s
  {
    if s != "" && IsWhite(s[|s| - 1]) then TrimEnd(s[..|s| - 1]) else s
  }

  function Trim(s: string): string {
    TrimEnd(TrimStart(s))
  }

  function BeforeHash(s: string): (r: string)
    ensures r <= s && '#' !in r
    ensures '#' !in s ==> r == s
    ensures |r| < |s| ==> s[|r|] == '#'
  {
    if s == "" || s[0] == '#' then "" else [s[0]] + BeforeHash(s[1..])
  }

  function StripInlineComment(s: string): string {
    Trim(BeforeHash(s))
  }

  // ---------------------------------------------------------------------------
  // Sections, keys and values
  // ---------------------------------------------------------------------------

  /** ^\[([^\]]+)\]$ */
  function SectionOf(s: string): Option<string> {
    if |s| >= 3 && s[0] == '[' && s[|s| - 1] == ']' && ']' !in s[1..|s| - 1] then Some(s[1..|s| - 1]) else None
  }

  function KeyLength(s: string): (n: nat)
    ensures n <= |s|
    ensures forall i | 0 <= i < n :: IsKeyChar(s[i])
    ensures n < |s| ==> !IsKeyChar(s[n])
  {
    if s == "" || !IsKeyChar(s[0]) then 0 else 1 + KeyLength(s[1..])
  }

  function AfterKey(s: string): string {
    TrimStart(s[KeyLength(s)..])
  }

  /** ^([A-Za-z0-9_.-]+)\s*= */
  function MatchKey(s: string): Option<string> {
    if KeyLength(s) > 0 && AfterKey(s) != "" && AfterKey(s)[0] == '=' then Some(s[..KeyLength(s)]) else None
  }

  datatype Entry = Entry(key: string, value: string)

  /** ^([A-Za-z0-9_.-]+)\s*=\s*(.+)$, of a trimmed expression; the value trimmed. */
  function KeyValue(s: string): Option<Entry> {
    if MatchKey(s).None? then None
    else
      var value := TrimStart(AfterKey(s)[1..]);
      if value == "" || exists i | 0 <= i < |value| :: IsLineBreak(value[i]) then None
      else Some(Entry(MatchKey(s).value, Trim(value)))
  }

  function Quoted(s: string, quote: char): Option<string> {
    if |s| >= 2 && s[0] == quote && s[|s| - 1] == quote && forall i | 0 <= i < |s| :: !IsLineBreak(s[i])
    then Some(s[1..|s| - 1]) else None
  }

  /** The text of a value in double or single quotes. */
  function TomlString(raw: string): Option<string> {
    var value := StripInlineComment(raw);
    var double := Quoted(value, '"');
    if double.Some? then double else Quoted(value, '\'')
  }

  // ---------------------------------------------------------------------------
  // Lines, as the inspector and as the rewriter read them
  // ---------------------------------------------------------------------------

  function ActiveExpression(line: string): Option<string> {
    var trimmed := TrimStart(line);
    if trimmed == "" || trimmed[0] == '#' || StripInlineComment(trimmed) == "" then None
    else Some(StripInlineComment(trimmed))
  }

  function ActiveSection(line: string): Option<string> {
    var e := ActiveExpression(line);
    if e.Some? then SectionOf(e.value) else None
  }

  function ActiveEntry(line: string): Option<Entry> {
    var e := ActiveExpression(line);
    if e.Some? then KeyValue(e.value) else None
  }

  /** What a line that is commented out says. */
  function CommentedExpression(line: string): Option<string> {
    var trimmed := TrimStart(line);
    if trimmed == "" || trimmed[0] != '#' || StripInlineComment(TrimStart(trimmed[1..])) == "" then None
    else Some(StripInlineComment(TrimStart(trimmed[1..])))
  }

  function CommentedSection(line: string): Option<string> {
    var e := CommentedExpression(line);
    if e.Some? then SectionOf(e.value) else None
  }

  function CommentedEntry(line: string): Option<Entry> {
    var e := CommentedExpression(line);
    if e.Some? then KeyValue(e.value) else None
  }

  /** A line is active or commented out, not both. */
  lemma CommentedIsInactive(line: string)
    ensures CommentedSection(line).Some? ==> ActiveSection(line).None? && ActiveEntry(line).None?
  {
    assert CommentedExpression(line).Some? ==> ActiveExpression(line).None?;
  }

  /** sectionNameForLine: unlike the inspector, a comment behind the header hides it. */
  function SectionAt(line: string): Option<string> {
    var trimmed := Trim(line);
    if trimmed == "" || trimmed[0] == '#' then None else SectionOf(trimmed)
  }

  /** The key a line sets, whatever its value. */
  function PresentKey(line: string): Option<string> {
    var trimmed := Trim(line);
    if trimmed == "" || trimmed[0] == '#' then None else MatchKey(trimmed)
  }

  /** isActiveKeyLine: ^key\s*= of the trimmed line. */
  predicate IsKeyLine(line: string, key: string) {
    var trimmed := Trim(line);
    && trimmed != "" && trimmed[0] != '#'
    && key <= trimmed && Equals(trimmed[|key|..])
  }

  // ---------------------------------------------------------------------------
  // What the two readings have in common
  // ---------------------------------------------------------------------------

  lemma {:induction false} KeyLengthOf(key: string, rest: string)
    requires forall i | 0 <= i < |key| :: IsKeyChar(key[i])
    requires rest == "" || !IsKeyChar(rest[0])
    ensures KeyLength(key + rest) == |key|
  {
    var s := key + rest;
    assert forall i | 0 <= i < |key| :: s[i] == key[i];
    assert rest != "" ==> s[|key|] == rest[0];
  }

  lemma {:induction false} TrimStartOf(blank: string, rest: string)
    requires forall i | 0 <= i < |blank| :: IsWhite(blank[i])
    requires rest != "" && !IsWhite(rest[0])
    ensures TrimStart(blank + rest) == rest
  {
    if blank == "" {
      Units(rest);
    } else {
      assert (blank + rest)[1..] == blank[1..] + rest;
      TrimStartOf(blank[1..], rest);
    }
  }

  lemma {:induction false} TrimStartCuts(s: string)
    ensures forall i | 0 <= i < |s| - |TrimStart(s)| :: IsWhite(s[i])
  {
    if s != "" && IsWhite(s[0]) {
      TrimStartCuts(s[1..]);
      forall i | 0 <= i < |s| - |TrimStart(s)|
        ensures IsWhite(s[i])
      {
        assert i > 0 ==> s[i] == s[1..][i - 1];
      }
    }
  }

  lemma {:induction false} TrimEndKeeps(s: string, n: nat)
    requires n < |s| && !IsWhite(s[n])
    ensures s[..n + 1] <= TrimEnd(s)
  {
    if IsWhite(s[|s| - 1]) {
      TrimEndKeeps(s[..|s| - 1], n);
    }
  }

  lemma BeforeHashKeeps(s: string, n: nat)
    requires n < |s| && '#' !in s[..n + 1]
    ensures s[..n + 1] <= BeforeHash(s)
  {
    assert forall i | 0 <= i <= n :: s[i] in s[..n + 1];
  }

  /** A key, blanks and an equals sign, and then anything. */
  lemma MatchOf(key: string, blank: string, rest: string)
    requires key != "" && (forall i | 0 <= i < |key| :: IsKeyChar(key[i])) && (forall i | 0 <= i < |blank| :: IsWhite(blank[i]))
    ensures MatchKey(key + (blank + ("=" + rest))) == Some(key)
    ensures AfterKey(key + (blank + ("=" + rest))) == "=" + rest
  {
    var tail := blank + ("=" + rest);
    assert tail[0] == if blank == "" then '=' else blank[0];
    KeyLengthOf(key, tail);
    TrimStartOf(blank, "=" + rest);
    Undo(key, tail);
  }

  lemma NoHashInKey(key: string, blank: string)
    requires (forall i | 0 <= i < |key| :: IsKeyChar(key[i])) && (forall i | 0 <= i < |blank| :: IsWhite(blank[i]))
    ensures '#' !in key + (blank + "=")
  {
    assert !IsKeyChar('#') && !IsWhite('#');
    assert forall c | c in key :: c != '#';
    assert forall c | c in blank :: c != '#';
  }

  lemma BlankUpTo(tail: string, n: nat)
    requires n == |tail| - |TrimStart(tail)| && TrimStart(tail) != ""
    ensures n < |tail| && tail[n] == TrimStart(tail)[0] && forall i | 0 <= i < n :: IsWhite(tail[i])
  {
    TrimStartCuts(tail);
  }

  lemma CutTwice(s: string, k: nat, m: nat)
    requires k + m < |s|
    ensures s[..k + m + 1] == s[..k] + (s[k..][..m] + [s[k + m]]) && s[k..][m] == s[k + m]
  {
  }

  /** Where the key part of a text ends. */
  lemma MatchForm(s: string) returns (key: string, blank: string, n: nat)
    requires MatchKey(s).Some?
    ensures MatchKey(s) == Some(key) && n < |s| && s[n] == '=' && s[..n + 1] == key + (blank + "=")
    ensures key != "" && (forall i | 0 <= i < |key| :: IsKeyChar(key[i])) && (forall i | 0 <= i < |blank| :: IsWhite(blank[i]))
    ensures '#' !in s[..n + 1]
  {
    var k := KeyLength(s);
    var tail := s[k..];
    var m := |tail| - |TrimStart(tail)|;
    BlankUpTo(tail, m);
    key, blank, n := s[..k], tail[..m], k + m;
    CutTwice(s, k, m);
    assert s[..n + 1] == key + (blank + "=");
    NoHashInKey(key, blank);
  }

  /** Only the text up to the equals sign decides the key. */
  lemma MatchInPrefix(s: string, u: string)
    requires MatchKey(s).Some? && s <= u
    ensures MatchKey(u) == MatchKey(s)
  {
    var key, blank, n := MatchForm(s);
    assert s[..n + 1] <= u;
    MatchAgain(u, key, blank);
  }

  lemma MatchAgain(u: string, key: string, blank: string)
    requires key + (blank + "=") <= u
    requires key != "" && (forall i | 0 <= i < |key| :: IsKeyChar(key[i])) && (forall i | 0 <= i < |blank| :: IsWhite(blank[i]))
    ensures MatchKey(u) == Some(key)
  {
    var front := key + (blank + "=");
    var rest := u[|front|..];
    MatchOf(key, blank, rest);
    assert u == front + rest;
    Assoc(key, blank + "=", rest);
    Assoc(blank, "=", rest);
    assert u == key + (blank + ("=" + rest));
  }

  lemma MatchBeforeEnd(s: string)
    requires MatchKey(s).Some?
    ensures MatchKey(TrimEnd(s)) == MatchKey(s)
  {
    var key, blank, n := MatchForm(s);
    assert !IsWhite('=');
    TrimEndKeeps(s, n);
    MatchAgain(TrimEnd(s), key, blank);
  }

  lemma MatchTrimmed(s: string)
    ensures MatchKey(TrimEnd(s)) == MatchKey(s)
  {
    if MatchKey(s).Some? {
      MatchBeforeEnd(s);
    } else if MatchKey(TrimEnd(s)).Some? {
      MatchInPrefix(TrimEnd(s), s);
    }
  }

  lemma MatchBeforeHash(s: string)
    requires MatchKey(s).Some?
    ensures MatchKey(BeforeHash(s)) == MatchKey(s)
  {
    var key, blank, n := MatchForm(s);
    BeforeHashKeeps(s, n);
    MatchAgain(BeforeHash(s), key, blank);
  }

  lemma MatchUncommented(s: string)
    ensures MatchKey(BeforeHash(s)) == MatchKey(s)
  {
    if MatchKey(s).Some? {
      MatchBeforeHash(s);
    } else if MatchKey(BeforeHash(s)).Some? {
      MatchInPrefix(BeforeHash(s), s);
    }
  }

  lemma MatchStarts(s: string)
    requires MatchKey(s).Some?
    ensures s != "" && IsKeyChar(s[0])
  {
  }

  /** An active line without its comment and the blanks around it. */
  function Bare(line: string): string {
    TrimEnd(BeforeHash(TrimStart(line)))
  }

  lemma ExpressionForm(line: string)
    ensures ActiveExpression(line) == if Bare(line) == "" then None else Some(Bare(line))
  {
    var t := TrimStart(line);
    var u := BeforeHash(t);
    assert u != "" ==> u[0] == t[0];
    assert TrimStart(u) == u;
  }

  lemma PresentForm(line: string)
    ensures PresentKey(line) == MatchKey(Trim(line))
  {
    if MatchKey(Trim(line)).Some? {
      MatchStarts(Trim(line));
    }
  }

  lemma SectionForm(line: string)
    ensures SectionAt(line) == SectionOf(Trim(line))
  {
  }

  /** Inspector and rewriter see the same key on a line. */
  lemma KeysAgree(line: string)
    ensures var e := ActiveExpression(line);
            PresentKey(line) == if e.Some? then MatchKey(e.value) else None
    ensures PresentKey(line) == MatchKey(TrimStart(line))
  {
    var t := TrimStart(line);
    ExpressionForm(line);
    PresentForm(line);
    MatchTrimmed(t);
    MatchUncommented(t);
    MatchTrimmed(BeforeHash(t));
  }

  predicate IsKey(key: string) {
    key != "" && forall i | 0 <= i < |key| :: IsKeyChar(key[i])
  }

  /** The text behind a key goes on with blanks and an equals sign. */
  predicate Equals(tail: string) {
    TrimStart(tail) != "" && TrimStart(tail)[0] == '='
  }

  lemma EqualsEndsKey(tail: string)
    requires Equals(tail)
    ensures tail != "" && !IsKeyChar(tail[0])
  {
    if !IsWhite(tail[0]) {
      assert TrimStart(tail) == tail;
    }
  }

  /** The two ways of asking whether a text sets a key. */
  lemma MatchOfPrefix(t: string, key: string)
    requires IsKey(key)
    ensures MatchKey(t) == Some(key) <==> key <= t && Equals(t[|key|..])
  {
    if key <= t && Equals(t[|key|..]) {
      EqualsEndsKey(t[|key|..]);
      KeyLengthOf(key, t[|key|..]);
      Halves(t, |key|);
      assert t[..|key|] == key;
    }
    if MatchKey(t) == Some(key) {
      assert key == t[..KeyLength(t)] && |key| == KeyLength(t);
    }
  }

  lemma KeyLineIsPresentKey(line: string, key: string)
    requires IsKey(key)
    ensures IsKeyLine(line, key) <==> PresentKey(line) == Some(key)
  {
    PresentForm(line);
    MatchOfPrefix(Trim(line), key);
    if key <= Trim(line) {
      assert IsKeyChar(Trim(line)[0]);
    }
  }

  lemma NoHeaderOf(s: string)
    requires MatchKey(s).Some?
    ensures SectionOf(s).None?
  {
    MatchStarts(s);
  }

  /** A line that sets a key is no header. */
  lemma KeyIsNoHeader(line: string)
    requires PresentKey(line).Some?
    ensures SectionAt(line).None? && ActiveSection(line).None?
  {
    KeysAgree(line);
    PresentForm(line);
    SectionForm(line);
    NoHeaderOf(Trim(line));
    NoHeaderOf(ActiveExpression(line).value);
  }

  lemma {:induction false} TrimEndCuts(s: string)
    ensures forall i | |TrimEnd(s)| <= i < |s| :: IsWhite(s[i])
  {
    if s != "" && IsWhite(s[|s| - 1]) {
      TrimEndCuts(s[..|s| - 1]);
    }
  }

  /** Without a comment, the two read the same header. */
  lemma HeadersAgreeWithoutHash(line: string)
    requires '#' !in Trim(line)
    ensures ActiveSection(line) == SectionAt(line)
  {
    var t := TrimStart(line);
    TrimEndCuts(t);
    assert forall i | 0 <= i < |TrimEnd(t)| :: t[i] == TrimEnd(t)[i] && t[i] in TrimEnd(t);
    assert '#' !in t;
    ExpressionForm(line);
    SectionForm(line);
  }

  // ---------------------------------------------------------------------------
  // Carriage returns
  // ---------------------------------------------------------------------------

  /** A line without the carriage return it may end in. */
  function DropCr(line: string): string {
    if line != "" && line[|line| - 1] == '\r' then line[..|line| - 1] else line
  }

  lemma {:induction false} TrimStartBefore(a: string, c: char)
    requires IsWhite(c)
    ensures TrimStart(a + [c]) == if TrimStart(a) == "" then "" else TrimStart(a) + [c]
  {
    if a == "" {
      assert [c][1..] == "";
      assert a + [c] == [c];
    } else if IsWhite(a[0]) {
      assert (a + [c])[1..] == a[1..] + [c];
      TrimStartBefore(a[1..], c);
    }
  }

  lemma TrimEndBefore(a: string, c: char)
    requires IsWhite(c)
    ensures TrimEnd(a + [c]) == TrimEnd(a)
  {
    assert (a + [c])[..|a|] == a;
  }

  lemma CommentGoes(s: string, n: nat)
    requires n < |s| && s[n] == '#' && forall i | 0 <= i < n :: s[i] != '#'
    ensures BeforeHash(s) == s[..n]
  {
    var r := BeforeHash(s);
    assert forall k | 0 <= k < |r| :: s[k] == r[k] && r[k] in r;
  }

  lemma NoHashBefore(s: string)
    ensures forall i | 0 <= i < |BeforeHash(s)| :: s[i] != '#'
  {
    var r := BeforeHash(s);
    assert forall k | 0 <= k < |r| :: s[k] == r[k] && r[k] in r;
  }

  lemma BeforeHashOf(a: string, c: char)
    requires c != '#'
    ensures BeforeHash(a + [c]) == if |BeforeHash(a)| < |a| then BeforeHash(a) else a + [c]
  {
    var n := |BeforeHash(a)|;
    NoHashBefore(a);
    if n < |a| {
      CommentGoes(a, n);
      CommentGoes(a + [c], n);
    } else {
      assert forall i | 0 <= i < |a + [c]| :: (a + [c])[i] != '#';
    }
  }

  lemma UncommentedBefore(a: string, c: char)
    requires IsWhite(c)
    ensures TrimEnd(BeforeHash(a + [c])) == TrimEnd(BeforeHash(a))
  {
    assert !IsWhite('#');
    BeforeHashOf(a, c);
    TrimEndBefore(a, c);
  }

  lemma BlankBehind(line: string, c: char)
    requires IsWhite(c)
    ensures Trim(line + [c]) == Trim(line) && Bare(line + [c]) == Bare(line)
  {
    TrimStartBefore(line, c);
    TrimEndBefore(TrimStart(line), c);
    UncommentedBefore(TrimStart(line), c);
  }

  /** No reading of a line sees a carriage return at its end. */
  lemma ReadWithoutCr(line: string)
    ensures Trim(DropCr(line)) == Trim(line)
    ensures SectionAt(DropCr(line)) == SectionAt(line) && PresentKey(DropCr(line)) == PresentKey(line)
    ensures ActiveExpression(DropCr(line)) == ActiveExpression(line)
  {
    if DropCr(line) != line {
      assert DropCr(line) + ['\r'] == line;
      BlankBehind(DropCr(line), '\r');
      ExpressionForm(line);
      ExpressionForm(DropCr(line));
    }
  }

  // ---------------------------------------------------------------------------
  // The lines the rewriter writes
  // ---------------------------------------------------------------------------

  function EntryLine(e: Entry): string {
    e.key + (" = " + e.value)
  }

  predicate IsPlainEntry(e: Entry) {
    && IsKey(e.key)
    && e.value != "" && !IsWhite(e.value[0]) && !IsWhite(e.value[|e.value| - 1])
    && (forall i | 0 <= i < |e.value| :: !IsLineBreak(e.value[i]))
    && '#' !in e.value
  }

  lemma LineHasNoEdges(e: Entry)
    requires IsPlainEntry(e)
    ensures TrimStart(EntryLine(e)) == EntryLine(e) == TrimEnd(EntryLine(e))
  {
    var line := EntryLine(e);
    assert line[0] == e.key[0];
    assert line[|line| - 1] == e.value[|e.value| - 1];
  }

  lemma LineIsBare(e: Entry)
    requires IsPlainEntry(e)
    ensures EntryLine(e) != "" && '#' !in EntryLine(e)
    ensures forall i | 0 <= i < |EntryLine(e)| :: !IsLineBreak(EntryLine(e)[i])
    ensures TrimStart(EntryLine(e)) == EntryLine(e) == TrimEnd(EntryLine(e))
  {
    var line := EntryLine(e);
    LineHasNoEdges(e);
    forall i | 0 <= i < |line|
      ensures !IsLineBreak(line[i]) && line[i] != '#'
    {
      if i < |e.key| {
        assert line[i] == e.key[i];
      } else if i >= |e.key| + 3 {
        assert line[i] == e.value[i - |e.key| - 3];
      }
    }
  }

  lemma ValueIs(s: string, e: Entry)
    requires MatchKey(s) == Some(e.key) && TrimStart(AfterKey(s)[1..]) == e.value && Trim(e.value) == e.value != ""
    requires forall i | 0 <= i < |e.value| :: !IsLineBreak(e.value[i])
    ensures KeyValue(s) == Some(e)
  {
  }

  lemma LineMatches(e: Entry)
    requires IsPlainEntry(e)
    ensures MatchKey(EntryLine(e)) == Some(e.key) && KeyValue(EntryLine(e)) == Some(e)
  {
    var line := EntryLine(e);
    assert " = " + e.value == " " + ("=" + (" " + e.value));
    MatchOf(e.key, " ", " " + e.value);
    assert AfterKey(line)[1..] == " " + e.value;
    TrimStartOf(" ", e.value);
    assert Trim(e.value) == e.value;
    ValueIs(line, e);
  }

  lemma ExpressionOfLine(e: Entry)
    requires IsPlainEntry(e)
    ensures ActiveExpression(EntryLine(e)) == Some(EntryLine(e)) && Trim(EntryLine(e)) == EntryLine(e)
  {
    LineIsBare(e);
    ExpressionForm(EntryLine(e));
  }

  /** A written entry is read back. */
  lemma EntryIsReadBack(e: Entry)
    requires IsPlainEntry(e)
    ensures ActiveEntry(EntryLine(e)) == Some(e) && PresentKey(EntryLine(e)) == Some(e.key)
    ensures SectionAt(EntryLine(e)).None? && ActiveSection(EntryLine(e)).None?
  {
    var line := EntryLine(e);
    ExpressionOfLine(e);
    LineMatches(e);
    PresentForm(line);
    KeyIsNoHeader(line);
  }

  lemma BlankLine()
    ensures SectionAt("").None? && ActiveSection("").None? && ActiveEntry("").None? && PresentKey("").None?
  {
  }
}
