/** What rewriting promises of the text of a configuration file. */
module CodexFiles {
  import opened Options
  import opened Sequences
  import opened CodexLines
  import opened CodexConfig
  import opened CodexAgreement
  import opened CodexVerdict

  // ---------------------------------------------------------------------------
  // Joining and splitting
  // ---------------------------------------------------------------------------

  predicate HaveNoLineEnd(lines: seq<string>) {
    forall i | 0 <= i < |lines| :: '\n' !in lines[i]
  }

  lemma {:induction false} SplitBehind(line: string, rest: string)
    requires '\n' !in line
    ensures Split(line + rest) == [line + Split(rest)[0]] + Split(rest)[1..]
  {
    if line == "" {
      Units(rest);
      Units(Split(rest)[0]);
    } else {
      assert (line + rest)[1..] == line[1..] + rest;
      SplitBehind(line[1..], rest);
      assert [line[0]] + (line[1..] + Split(rest)[0]) == line + Split(rest)[0];
    }
  }

  lemma {:induction false} SplitJoin(lines: seq<string>)
    requires lines != [] && HaveNoLineEnd(lines)
    ensures Split(Join(lines)) == lines
  {
    var first := lines[0];
    if |lines| == 1 {
      SplitBehind(first, "");
      Units(first);
    } else {
      var rest := "\n" + Join(lines[1..]);
      SplitJoin(lines[1..]);
      SplitBehind(first, rest);
      assert rest[1..] == Join(lines[1..]);
      Units(first);
    }
  }

  lemma {:induction false} SplitHasNoLineEnd(t: string)
    ensures forall i | 0 <= i < |Split(t)| :: '\n' !in Split(t)[i]
  {
    if t != "" {
      SplitHasNoLineEnd(t[1..]);
    }
  }

  lemma {:induction false} JoinEnds(lines: seq<string>)
    requires lines != [] && HaveNoLineEnd(lines)
    ensures var t := Join(lines);
            && (t != "" && t[|t| - 1] == '\n' <==> |lines| >= 2 && lines[|lines| - 1] == "")
            && Join(lines + [""]) == t + "\n"
  {
    var first, t := lines[0], Join(lines);
    if |lines| == 1 {
      assert first != "" ==> first[|first| - 1] in first;
      assert (lines + [""])[1..] == [""];
    } else {
      JoinEnds(lines[1..]);
      var rest := Join(lines[1..]);
      assert (lines + [""])[1..] == lines[1..] + [""];
      Assoc("\n", rest, "\n");
      Assoc(first, "\n" + rest, "\n");
      if rest == "" {
        JoinEmpty(lines[1..]);
        assert t[|t| - 1] == '\n';
      } else {
        assert t[|t| - 1] == rest[|rest| - 1];
        if |lines| == 2 {
          assert lines[1..] == [lines[1]] && Join(lines[1..]) == lines[1];
          assert lines[1][|lines[1]| - 1] in lines[1];
        }
      }
    }
  }

  lemma JoinEmpty(lines: seq<string>)
    requires lines != [] && Join(lines) == ""
    ensures lines == [""]
  {
  }

  function DropCrs(lines: seq<string>): (r: seq<string>)
    ensures |r| == |lines| && forall i | 0 <= i < |r| :: r[i] == DropCr(lines[i])
  {
    seq(|lines|, i requires 0 <= i < |lines| => DropCr(lines[i]))
  }

  lemma {:induction false} NormalizeLine(line: string, rest: string)
    requires '\n' !in line
    ensures Normalize(line + ("\n" + rest)) == DropCr(line) + ("\n" + Normalize(rest))
  {
    var t := line + ("\n" + rest);
    if line == "" {
      assert t == "\n" + rest && t[1..] == rest;
    } else {
      var tail := line[1..];
      assert t[1..] == tail + ("\n" + rest);
      NormalizeLine(tail, rest);
      assert t[1] == if tail == "" then '\n' else tail[0];
      if tail == "" {
        assert line == [line[0]];
      } else {
        assert DropCr(line) == [line[0]] + DropCr(tail);
        Assoc([line[0]], DropCr(tail), "\n" + Normalize(rest));
      }
    }
  }

  /** Reading back what was written costs every line but the last one carriage return at its end. */
  lemma {:induction false} NormalizeJoin(lines: seq<string>)
    requires lines != [] && HaveNoLineEnd(lines) && lines[|lines| - 1] == ""
    ensures Normalize(Join(lines)) == Join(DropCrs(lines))
  {
    if |lines| > 1 {
      NormalizeJoin(lines[1..]);
      NormalizeLine(lines[0], Join(lines[1..]));
      assert DropCrs(lines)[1..] == DropCrs(lines[1..]);
    }
  }

  lemma {:induction false} NormalizeOne(line: string)
    requires '\n' !in line
    ensures Normalize(line) == line
  {
    if line != "" {
      NormalizeOne(line[1..]);
      assert |line| >= 2 ==> line[1] in line;
    }
  }

  lemma {:induction false} JoinSplit(t: string)
    ensures Join(Split(t)) == t
  {
    if t != "" {
      JoinSplit(t[1..]);
      var rest := Split(t[1..]);
      if t[0] == '\n' {
        assert ([""] + rest)[1..] == rest;
        assert "\n" + t[1..] == t;
      } else {
        JoinFront(t[0], rest);
        assert [t[0]] + t[1..] == t;
      }
    }
  }

  lemma JoinFront(c: char, lines: seq<string>)
    requires lines != []
    ensures Join([[c] + lines[0]] + lines[1..]) == [c] + Join(lines)
  {
    var more := [[c] + lines[0]] + lines[1..];
    if |lines| > 1 {
      assert more[1..] == lines[1..];
      Assoc([c], lines[0], "\n" + Join(lines[1..]));
    }
  }

  /** Lines of which all but the last had the one carriage return at their end taken off. */
  function WithoutCrs(lines: seq<string>): seq<string> {
    if |lines| <= 1 then lines else [DropCr(lines[0])] + WithoutCrs(lines[1..])
  }

  lemma {:induction false} NormalizeAll(lines: seq<string>)
    requires lines != [] && HaveNoLineEnd(lines)
    ensures WithoutCrs(lines) != [] && HaveNoLineEnd(WithoutCrs(lines))
    ensures Normalize(Join(lines)) == Join(WithoutCrs(lines))
  {
    if |lines| == 1 {
      NormalizeOne(lines[0]);
    } else {
      NormalizeAll(lines[1..]);
      NormalizeLine(lines[0], Join(lines[1..]));
      assert WithoutCrs(lines)[1..] == WithoutCrs(lines[1..]);
    }
  }

  /** The lines of any text but the empty one: what stands between its line feeds, without the carriage return before each. */
  lemma LinesSay(text: string) returns (raw: seq<string>)
    ensures raw != [] && HaveNoLineEnd(raw) && Join(raw) == text
    ensures Lines(text) == if text == "" then [] else WithoutCrs(raw)
  {
    raw := Split(text);
    JoinSplit(text);
    SplitHasNoLineEnd(text);
    NormalizeAll(raw);
    SplitJoin(WithoutCrs(raw));
    NormalizedIsEmpty(text);
  }

  lemma NormalizedIsEmpty(text: string)
    ensures Normalize(text) == "" <==> text == ""
  {
    if text != "" && |text| >= 2 && text[0] == '\r' && text[1] == '\n' {
      NormalizedIsEmpty(text[1..]);
    }
  }

  // ---------------------------------------------------------------------------
  // The rewriter's own lines
  // ---------------------------------------------------------------------------

  /** A line that is read back as it was written: no line end in it, no carriage return at its end. */
  predicate IsClean(line: string) {
    '\n' !in line && DropCr(line) == line
  }

  lemma OwnIsClean(line: string)
    requires IsOwn(line) || line == MODEL_LINE
    ensures IsClean(line)
  {
    NameIsPlain();
    UrlIsPlain();
    WireIsPlain();
    FlagsArePlain();
    ModelIsPlain();
    if exists i | 0 <= i < |SETTINGS| :: line == EntryLine(SETTINGS[i]) {
      var i :| 0 <= i < |SETTINGS| && line == EntryLine(SETTINGS[i]);
      EntryIsClean(SETTINGS[i]);
    } else if line == MODEL_LINE {
      EntryIsClean(MODEL_ENTRY);
    } else if line == HEADER {
      HeaderIsClean();
    }
  }

  lemma EntryIsClean(e: Entry)
    requires IsPlainEntry(e)
    ensures IsClean(EntryLine(e))
  {
    LineIsBare(e);
    assert IsLineBreak('\n') && IsLineBreak('\r');
  }

  lemma HeaderIsClean()
    ensures IsClean(HEADER)
  {
    assert '\n' !in PROVIDER;
  }

  lemma {:induction false} WithoutKeeps(c: Reader, lines: seq<string>)
    ensures forall l | l in lines && !c.model(l) :: l in Without(c, lines)
  {
    if lines != [] {
      WithoutKeeps(c, lines[..|lines| - 1]);
      assert lines == lines[..|lines| - 1] + [lines[|lines| - 1]];
    }
  }

  /** Where the lines of a rewritten file come from. */
  lemma UpdatedLines(c: Reader, lines: seq<string>)
    requires Sound(c)
    ensures forall l | l in Ended(Updated(c, lines)) :: l in Without(c, lines) || IsOwn(l) || l == MODEL_LINE
    ensures forall l | l in Without(c, lines) :: l in Ended(Updated(c, lines))
  {
    var s := Updated(c, lines);
    var at, more := OtherLinesStay(c, lines);
    var j := OneModelAfterBoth(c, lines);
    WithoutKeeps(c, s);
    WithoutOnlyDrops(c, s);
    forall l | l in Ended(s)
      ensures l in Without(c, lines) || IsOwn(l) || l == MODEL_LINE
    {
      if l in s && !c.model(l) {
        FromInserted(Without(c, lines), at, more, l);
      }
    }
    forall l | l in Without(c, lines)
      ensures l in Ended(s)
    {
      IntoInserted(Without(c, lines), at, more, l);
    }
  }

  lemma FromInserted(lines: seq<string>, at: nat, more: seq<string>, l: string)
    requires at <= |lines| && AllOwn(more) && l in Inserted(lines, at, more)
    ensures l in lines || IsOwn(l)
  {
    if l in more {
      var i :| 0 <= i < |more| && more[i] == l;
    }
  }

  lemma IntoInserted(lines: seq<string>, at: nat, more: seq<string>, l: string)
    requires at <= |lines| && l in lines
    ensures l in Inserted(lines, at, more)
  {
    Halves(lines, at);
    assert l in lines[..at] || l in lines[at..];
  }

  lemma UpdatedHaveNoLineEnd(c: Reader, lines: seq<string>)
    requires Sound(c) && HaveNoLineEnd(lines)
    ensures HaveNoLineEnd(Ended(Updated(c, lines)))
  {
    var f := Ended(Updated(c, lines));
    UpdatedLines(c, lines);
    WithoutOnlyDrops(c, lines);
    forall i | 0 <= i < |f|
      ensures '\n' !in f[i]
    {
      assert f[i] in f;
      if f[i] !in Without(c, lines) {
        OwnIsClean(f[i]);
      }
    }
  }

  // ---------------------------------------------------------------------------
  // Lines without their carriage returns
  // ---------------------------------------------------------------------------

  /** No reading of a line depends on a carriage return at its end. */
  ghost predicate IgnoresCr(c: Reader) {
    forall l :: c.section(DropCr(l)) == c.section(l) && c.key(DropCr(l)) == c.key(l) && c.model(DropCr(l)) == c.model(l)
                && c.activeSection(DropCr(l)) == c.activeSection(l) && c.activeEntry(DropCr(l)) == c.activeEntry(l)
  }

  lemma SourceIgnoresCr()
    ensures IgnoresCr(SOURCE)
  {
    forall l
      ensures SOURCE.section(DropCr(l)) == SOURCE.section(l) && SOURCE.key(DropCr(l)) == SOURCE.key(l)
              && SOURCE.model(DropCr(l)) == SOURCE.model(l)
              && SOURCE.activeSection(DropCr(l)) == SOURCE.activeSection(l)
              && SOURCE.activeEntry(DropCr(l)) == SOURCE.activeEntry(l)
    {
      ReadWithoutCr(l);
    }
  }

  lemma FirstOfDropped(lines: seq<string>, from: nat, p: string -> bool)
    requires from <= |lines| && forall i | 0 <= i < |lines| :: p(DropCr(lines[i])) == p(lines[i])
    ensures FirstFrom(DropCrs(lines), from, p) == FirstFrom(lines, from, p)
  {
    FirstIs(DropCrs(lines), from, p, FirstFrom(lines, from, p));
  }

  lemma KeysOfDropped(c: Reader, lines: seq<string>)
    requires IgnoresCr(c)
    ensures KeysOf(c, lines) <= KeysOf(c, DropCrs(lines))
  {
    forall key | key in KeysOf(c, lines)
      ensures key in KeysOf(c, DropCrs(lines))
    {
      var l :| l in lines && c.key(l) == Some(key);
      var i :| 0 <= i < |lines| && lines[i] == l;
      assert DropCrs(lines)[i] in DropCrs(lines) && c.key(DropCr(l)) == Some(key);
    }
  }

  lemma BoundsWithoutCrs(c: Reader, lines: seq<string>)
    requires IgnoresCr(c)
    ensures SectionBounds(c, DropCrs(lines)) == SectionBounds(c, lines)
  {
    FirstOfDropped(lines, 0, ProviderHeader(c));
    if SectionBounds(c, lines).Some? {
      FirstOfDropped(lines, SectionBounds(c, lines).value.start + 1, Header(c));
    }
  }

  lemma KeysWithoutCrs(c: Reader, lines: seq<string>, b: Bounds)
    requires IgnoresCr(c) && b.start < b.end <= |lines|
    ensures KeysInSection(c, lines, b) <= KeysInSection(c, DropCrs(lines), b)
  {
    assert DropCrs(lines)[b.start + 1..b.end] == DropCrs(lines[b.start + 1..b.end]);
    KeysOfDropped(c, lines[b.start + 1..b.end]);
  }

  lemma CompleteWithoutCrs(c: Reader, lines: seq<string>)
    requires IgnoresCr(c) && IsComplete(c, lines)
    ensures IsComplete(c, DropCrs(lines))
  {
    BoundsWithoutCrs(c, lines);
    KeysWithoutCrs(c, lines, SectionBounds(c, lines).value);
  }

  lemma ModelWithoutCrs(c: Reader, lines: seq<string>, j: nat)
    requires IgnoresCr(c) && OnlyModelAt(c, lines, j)
    ensures OnlyModelAt(c, DropCrs(lines), j)
  {
    OwnIsClean(MODEL_LINE);
  }

  lemma {:induction false} InspectWithoutCrs(c: Reader, v: View, lines: seq<string>)
    requires IgnoresCr(c)
    ensures Inspect(c, v, DropCrs(lines)) == Inspect(c, v, lines)
  {
    if lines != [] {
      InspectWithoutCrs(c, v, lines[..|lines| - 1]);
      assert DropCrs(lines)[..|lines| - 1] == DropCrs(lines[..|lines| - 1]);
    }
  }

  lemma EndedWithoutCrs(lines: seq<string>)
    requires lines != [] && Ended(lines) == lines
    ensures Ended(DropCrs(lines)) == DropCrs(lines)
  {
  }

  /** Rewritten lines stay as they are also when they lose their carriage returns. */
  lemma SettledWithoutCrs(c: Reader, lines: seq<string>)
    requires Sound(c) && IgnoresCr(c)
    ensures var g := DropCrs(Ended(Updated(c, lines))); Updated(c, g) == g && Ended(g) == g
  {
    var f := Ended(Updated(c, lines));
    var j := OneModelAfterBoth(c, lines);
    ModelWithoutCrs(c, f, j);
    EndedIsComplete(c, lines);
    CompleteWithoutCrs(c, f);
    BothAreSettled(c, DropCrs(f), j);
    EndedTwice(Updated(c, lines));
    EndedWithoutCrs(f);
  }

  // ---------------------------------------------------------------------------
  // Whole files
  // ---------------------------------------------------------------------------

  lemma LinesHaveNoLineEnd(text: string)
    ensures HaveNoLineEnd(Lines(text))
  {
    SplitHasNoLineEnd(Normalize(text));
  }

  lemma DroppedHaveNoLineEnd(lines: seq<string>)
    requires HaveNoLineEnd(lines)
    ensures HaveNoLineEnd(DropCrs(lines))
  {
    forall i | 0 <= i < |lines|
      ensures '\n' !in DropCr(lines[i])
    {
      assert forall x | x in DropCr(lines[i]) :: x in lines[i];
    }
  }

  lemma JoinOfSeveral(lines: seq<string>)
    requires |lines| >= 2
    ensures Join(lines) != ""
  {
    assert Join(lines) == lines[0] + ("\n" + Join(lines[1..]));
  }

  lemma LinesOfJoin(s: seq<string>)
    requires s != [] && HaveNoLineEnd(s)
    ensures WithLineEnd(Join(s)) == Join(Ended(s))
    ensures Split(Normalize(WithLineEnd(Join(s)))) == Lines(WithLineEnd(Join(s))) == DropCrs(Ended(s))
  {
    var f := Ended(s);
    JoinEnds(s);
    LinesOfLines(f);
  }

  lemma LinesOfLines(f: seq<string>)
    requires |f| >= 2 && HaveNoLineEnd(f) && f[|f| - 1] == ""
    ensures Split(Normalize(Join(f))) == Lines(Join(f)) == DropCrs(f)
  {
    NormalizeJoin(f);
    DroppedHaveNoLineEnd(f);
    SplitJoin(DropCrs(f));
    JoinOfSeveral(DropCrs(f));
  }

  function Rewritten(text: string): seq<string> {
    Ended(Updated(SOURCE, Lines(text)))
  }

  /** A rewritten file is its lines joined; reading it back costs each of them a carriage return at its end. */
  lemma LinesOfBuild(text: string)
    ensures HaveNoLineEnd(Rewritten(text)) && Build(text) == Join(Rewritten(text))
    ensures Split(Normalize(Build(text))) == Lines(Build(text)) == DropCrs(Rewritten(text))
  {
    var s := Updated(SOURCE, Lines(text));
    SourceIsSound();
    LinesHaveNoLineEnd(text);
    UpdatedHaveNoLineEnd(SOURCE, Lines(text));
    forall i | 0 <= i < |s|
      ensures '\n' !in s[i]
    {
      assert s[i] == Ended(s)[i];
    }
    LinesOfJoin(s);
  }

  /** No other line than those that set the model provider ends in a carriage return, once CRLF is read as a line end. */
  predicate HasPlainLineEnds(text: string) {
    var others := Without(SOURCE, Lines(text));
    forall i | 0 <= i < |others| :: DropCr(others[i]) == others[i]
  }

  lemma NothingDroppedIff(f: seq<string>, others: seq<string>)
    requires forall l | l in f :: l in others || DropCr(l) == l
    requires forall l | l in others :: l in f
    ensures DropCrs(f) == f <==> forall i | 0 <= i < |others| :: DropCr(others[i]) == others[i]
  {
    if DropCrs(f) == f {
      forall i | 0 <= i < |others|
        ensures DropCr(others[i]) == others[i]
      {
        assert others[i] in others;
        var k :| 0 <= k < |f| && f[k] == others[i];
        assert DropCrs(f)[k] == f[k];
      }
    }
    if forall i | 0 <= i < |others| :: DropCr(others[i]) == others[i] {
      forall i | 0 <= i < |f|
        ensures DropCr(f[i]) == f[i]
      {
        assert f[i] in f;
      }
    }
  }

  lemma PlainIffNothingDropped(text: string)
    ensures HasPlainLineEnds(text) <==> DropCrs(Rewritten(text)) == Rewritten(text)
  {
    SourceIsSound();
    UpdatedLines(SOURCE, Lines(text));
    forall l | l in Rewritten(text) && l !in Without(SOURCE, Lines(text))
      ensures DropCr(l) == l
    {
      OwnIsClean(l);
    }
    NothingDroppedIff(Rewritten(text), Without(SOURCE, Lines(text)));
  }

  /** Rewriting a rewritten file changes nothing, exactly if no other line ends in a stray carriage return. */
  lemma RewritingSettlesIff(text: string)
    ensures Build(Build(text)) == Build(text) <==> HasPlainLineEnds(text)
  {
    var f := Rewritten(text);
    SourceIsSound();
    SourceIgnoresCr();
    LinesOfBuild(text);
    LinesOfBuild(Build(text));
    SettledWithoutCrs(SOURCE, Lines(text));
    PlainIffNothingDropped(text);
    LinesHaveNoLineEnd(Build(text));
    SplitJoin(f);
    SplitJoin(DropCrs(f));
  }

  /** So it does in a text without carriage returns ... */
  lemma TextWithoutCrSettles(text: string)
    requires '\r' !in text
    ensures Build(Build(text)) == Build(text)
  {
    NormalizeWithoutCr(text);
    SplitIsFromText(text, '\r');
    WithoutOnlyDrops(SOURCE, Lines(text));
    var others := Without(SOURCE, Lines(text));
    forall i | 0 <= i < |others|
      ensures DropCr(others[i]) == others[i]
    {
      assert others[i] in others;
    }
    RewritingSettlesIff(text);
  }

  lemma {:induction false} NormalizeWithoutCr(text: string)
    requires '\r' !in text
    ensures Normalize(text) == text
  {
    if text != "" {
      assert text[0] in text && forall x | x in text[1..] :: x in text;
      NormalizeWithoutCr(text[1..]);
    }
  }

  lemma {:induction false} SplitIsFromText(t: string, c: char)
    requires c !in t
    ensures forall i | 0 <= i < |Split(t)| :: c !in Split(t)[i]
  {
    if t != "" {
      assert forall x | x in t[1..] :: x in t;
      SplitIsFromText(t[1..], c);
    }
  }

  const STRAY := "a\r\r\n"

  /** ... and not in this one. */
  lemma AStrayCrDoesNotSettle()
    ensures Build(Build(STRAY)) != Build(STRAY)
  {
    StrayLines();
    StrayIsNoModel();
    WithoutKeeps(SOURCE, Lines(STRAY));
    assert Lines(STRAY)[0] in Lines(STRAY);
    var others := Without(SOURCE, Lines(STRAY));
    var i :| 0 <= i < |others| && others[i] == "a\r";
    assert DropCr(others[i]) == "a";
    RewritingSettlesIff(STRAY);
  }

  lemma StrayLines()
    ensures Lines(STRAY) == ["a\r", ""]
  {
    assert STRAY == "a\r\r" + ("\n" + "");
    NormalizeLine("a\r\r", "");
    assert DropCr("a\r\r") == "a\r";
    SplitBehind("a\r", "\n");
    assert "\n"[1..] == "";
    assert "a\r" + "" == "a\r";
  }

  lemma StrayIsNoModel()
    ensures !SOURCE.model("a\r")
  {
    assert |Trim("a\r")| <= 2;
  }

  /** The lines of a file that do not set the model provider are all written back, in order. */
  lemma RewritingKeepsOtherLines(text: string)
    ensures Build(text) == Join(Rewritten(text))
    ensures Subsequence(Without(SOURCE, Lines(text)), Without(SOURCE, Rewritten(text)))
  {
    SourceIsSound();
    LinesOfBuild(text);
    var kept := Without(SOURCE, Lines(text));
    var s := Updated(SOURCE, Lines(text));
    var at, more := OtherLinesStay(SOURCE, Lines(text));
    var end := if Ended(s) == s then [] else Without(SOURCE, [""]);
    Units(Without(SOURCE, s));
    WithoutConcat(SOURCE, s, [""]);
    SubsequenceReflexive(kept[at..]);
    SubsequenceBeforeSuffix(kept[at..], kept[at..], end);
    SubsequenceBehindPrefix(more, kept[at..], kept[at..] + end);
    SubsequenceUnderPrefix(kept[..at], kept[at..], more + (kept[at..] + end));
    Halves(kept, at);
    Assoc(more, kept[at..], end);
    Assoc(kept[..at], more + kept[at..], end);
  }

  lemma {:induction false} SubsequenceBeforeSuffix(a: seq<string>, b: seq<string>, end: seq<string>)
    requires Subsequence(a, b)
    ensures Subsequence(a, b + end)
    decreases |b|
  {
    if a != [] {
      assert (b + end)[1..] == b[1..] + end;
      if Subsequence(a, b[1..]) {
        SubsequenceBeforeSuffix(a, b[1..], end);
      } else {
        SubsequenceBeforeSuffix(a[1..], b[1..], end);
      }
    }
  }

  lemma {:induction false} SubsequenceBehindPrefix(p: seq<string>, a: seq<string>, b: seq<string>)
    requires Subsequence(a, b)
    ensures Subsequence(a, p + b)
    decreases |p|
  {
    if p == [] {
      Units(b);
    } else {
      SubsequenceBehindPrefix(p[1..], a, b);
      assert (p + b)[1..] == p[1..] + b;
    }
  }

  /**
    Exactly when the inspector accepts a rewritten file: no header that it sees came
    before the place of the model-provider line, and each required key is one it saw, or
    one the section pass writes where it sees it.
  */
  lemma RewrittenIsConfiguredIff(text: string)
    ensures Configured(Build(text)) <==> ModelIsSeen(SOURCE, Lines(text)) && KeysCount(SOURCE, Lines(text))
  {
    SourceIsSound();
    SourceIgnoresCr();
    LinesOfBuild(text);
    InspectWithoutCrs(SOURCE, BEFORE, Rewritten(text));
    VerdictOnLines(SOURCE, Lines(text));
  }

  // ---------------------------------------------------------------------------
  // A header with a comment
  // ---------------------------------------------------------------------------

  function Commented(name: string, comment: string): string {
    ("[" + (name + "]")) + (" #" + comment)
  }

  /** A header with a comment behind it is none to the rewriter. */
  lemma CommentedHeaderIsNone(name: string, comment: string)
    requires name != "" && ']' !in name && '#' !in name
    ensures var line := Commented(name, comment);
            ActiveSection(line) == Some(name) && SectionAt(line).None? && PresentKey(line).None?
  {
    var bare, line := "[" + (name + "]"), Commented(name, comment);
    assert !IsWhite('[') && !IsWhite(']') && !IsKeyChar('[') && !IsWhite('#');
    assert line[0] == '[' && TrimStart(line) == line && TrimStart(bare) == bare;
    CommentGoes(line, |bare| + 1);
    assert BeforeHash(line) == bare + [' '];
    TrimEndBefore(bare, ' ');
    SectionOfName(name);
    ExpressionForm(line);
    SectionForm(line);
    PresentForm(line);
    BracketInside(bare, comment);
  }

  lemma BracketInside(bare: string, comment: string)
    requires |bare| > 1 && bare[|bare| - 1] == ']'
    ensures SectionOf(TrimEnd(bare + (" #" + comment))).None?
  {
    var line := bare + (" #" + comment);
    assert line[|bare| + 1] == '#' && !IsWhite('#');
    TrimEndKeeps(line, |bare| + 1);
    var t := TrimEnd(line);
    assert t[|bare| - 1] == line[|bare| - 1] == ']';
    TwoBrackets(t, |bare| - 1);
  }

  lemma TwoBrackets(t: string, n: nat)
    requires 1 <= n < |t| - 1 && t[n] == ']'
    ensures SectionOf(t).None?
  {
    assert t[1..|t| - 1][n - 1] == ']';
  }

  /**
    So a file that opens with such a header and does not name a model provider is never
    configured by rewriting: the line goes behind the header.
  */
  lemma CommentedHeaderIsMissed(name: string, comment: string, text: string)
    requires name != "" && ']' !in name && '#' !in name
    requires Lines(text) != [] && Lines(text)[0] == Commented(name, comment) && HasNoModel(SOURCE, Lines(text))
    ensures !Configured(Build(text))
  {
    CommentedHeaderIsNone(name, comment);
    BehindHeader(SOURCE, Lines(text));
    RewrittenIsConfiguredIff(text);
  }

  lemma BehindHeader(c: Reader, lines: seq<string>)
    requires lines != [] && HasNoModel(c, lines) && c.section(lines[0]).None? && c.activeSection(lines[0]).Some?
    ensures !ModelIsSeen(c, lines)
  {
    assert !Header(c)(lines[0]);
    FirstIsLast(c, lines, ModelPlace(c, lines));
  }

  lemma {:induction false} FirstIsLast(c: Reader, lines: seq<string>, n: nat)
    requires 1 <= n <= |lines| && c.activeSection(lines[0]).Some?
    ensures LastActive(c, lines[..n]).Some?
  {
    if n > 1 {
      FirstIsLast(c, lines, n - 1);
      assert lines[..n][..n - 1] == lines[..n - 1];
    }
  }
}
