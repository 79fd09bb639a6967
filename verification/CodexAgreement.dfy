/** What the configuration rewriter promises: it settles, keeps what is not its own, and the inspector accepts its result. */
module CodexAgreement {
  import opened Options
  import opened Sequences
  import opened CodexLines
  import opened CodexConfig

  // ---------------------------------------------------------------------------
  // What is used of a reader
  // ---------------------------------------------------------------------------

  predicate ReadsBack(c: Reader, e: Entry) {
    var line := EntryLine(e);
    && c.activeEntry(line) == Some(e) && c.key(line) == Some(e.key)
    && c.section(line).None? && c.activeSection(line).None?
  }

  ghost predicate Sound(c: Reader) {
    && (forall l :: c.model(l) <==> c.key(l) == Some(MODEL_KEY))
    && (forall l :: c.key(l).Some? ==> c.section(l).None? && c.activeSection(l).None?)
    && (forall l :: c.activeEntry(l).Some? ==> c.key(l) == Some(c.activeEntry(l).value.key))
    && (forall l :: c.section(l) == Some(PROVIDER) ==> c.activeSection(l) == Some(PROVIDER))
    && ReadsBack(c, MODEL_ENTRY)
    && (forall i | 0 <= i < |SETTINGS| :: ReadsBack(c, SETTINGS[i]))
    && c.section(HEADER) == c.activeSection(HEADER) == Some(PROVIDER)
    && c.section("") == c.activeSection("") == None && c.activeEntry("") == None && c.key("") == None
  }

  lemma KeyIsPlain(key: string)
    requires key in REQUIRED + {MODEL_KEY}
    ensures IsKey(key)
  {
  }

  lemma NameIsPlain()
    ensures IsPlainEntry(SETTINGS[0])
  {
    KeyIsPlain("name");
  }

  predicate IsPlainText(s: string) {
    forall i | 0 <= i < |s| :: !IsLineBreak(s[i]) && s[i] != '#'
  }

  lemma HostIsPlain()
    ensures IsPlainText("\"http://127.0.0.1:2455")
  {
  }

  lemma PathIsPlain()
    ensures IsPlainText("/backend-api/codex\"")
  {
  }

  lemma UrlIsPlain()
    ensures IsPlainEntry(SETTINGS[1])
  {
    HostIsPlain();
    PathIsPlain();
    assert IsPlainText(BASE_URL);
    assert !IsWhite(BASE_URL[0]) && !IsWhite(BASE_URL[|BASE_URL| - 1]);
    KeyIsPlain("base_url");
  }

  lemma WireIsPlain()
    ensures IsPlainEntry(SETTINGS[2])
  {
    KeyIsPlain("wire_api");
  }

  lemma FlagsArePlain()
    ensures IsPlainEntry(SETTINGS[3]) && IsPlainEntry(SETTINGS[4])
  {
    KeyIsPlain("supports_websockets");
    KeyIsPlain("requires_openai_auth");
  }

  lemma ModelIsPlain()
    ensures IsPlainEntry(MODEL_ENTRY)
  {
    KeyIsPlain(MODEL_KEY);
  }

  lemma SectionOfName(name: string)
    requires name != "" && ']' !in name
    ensures SectionOf("[" + (name + "]")) == Some(name)
  {
    assert ("[" + (name + "]"))[1..|name| + 1] == name;
  }

  lemma ProviderIsName()
    ensures ']' !in PROVIDER && '#' !in PROVIDER
  {
  }

  lemma NameOfSection(s: string)
    requires SectionOf(s).Some?
    ensures s == "[" + (SectionOf(s).value + "]")
  {
  }

  /** The name has no '#', so a header with it has none either, and both readings of it agree. */
  lemma ProviderHeaderIsBare(line: string)
    requires SectionAt(line) == Some(PROVIDER)
    ensures ActiveSection(line) == Some(PROVIDER)
  {
    ProviderIsName();
    SectionForm(line);
    NameOfSection(Trim(line));
    HeadersAgreeWithoutHash(line);
  }

  lemma HeaderIsRead()
    ensures SectionAt(HEADER) == ActiveSection(HEADER) == Some(PROVIDER)
  {
    ProviderIsName();
    SectionOfName(PROVIDER);
    BracketsStay(PROVIDER);
    SectionForm(HEADER);
    ProviderHeaderIsBare(HEADER);
  }

  lemma BracketsStay(name: string)
    ensures Trim("[" + (name + "]")) == "[" + (name + "]")
  {
    var s := "[" + (name + "]");
    assert s[0] == '[' && s[|s| - 1] == ']' && !IsWhite('[') && !IsWhite(']');
    assert TrimStart(s) == s;
  }

  /** The source's way of reading lines is sound. */
  lemma SourceIsSound()
    ensures Sound(SOURCE)
  {
    forall l
      ensures SOURCE.model(l) <==> SOURCE.key(l) == Some(MODEL_KEY)
    {
      KeyIsPlain(MODEL_KEY);
      KeyLineIsPresentKey(l, MODEL_KEY);
    }
    forall l
      ensures SOURCE.key(l).Some? ==> SOURCE.section(l).None? && SOURCE.activeSection(l).None?
    {
      if PresentKey(l).Some? {
        KeyIsNoHeader(l);
      }
    }
    forall l
      ensures SOURCE.section(l) == Some(PROVIDER) ==> SOURCE.activeSection(l) == Some(PROVIDER)
    {
      if SectionAt(l) == Some(PROVIDER) {
        ProviderHeaderIsBare(l);
      }
    }
    forall l
      ensures SOURCE.activeEntry(l).Some? ==> SOURCE.key(l) == Some(SOURCE.activeEntry(l).value.key)
    {
      KeysAgree(l);
    }
    NameIsPlain();
    UrlIsPlain();
    WireIsPlain();
    FlagsArePlain();
    ModelIsPlain();
    forall i | 0 <= i < |SETTINGS|
      ensures ReadsBack(SOURCE, SETTINGS[i])
    {
      EntryIsReadBack(SETTINGS[i]);
    }
    EntryIsReadBack(MODEL_ENTRY);
    HeaderIsRead();
    BlankLine();
  }

  // ---------------------------------------------------------------------------
  // One model-provider line
  // ---------------------------------------------------------------------------

  predicate HasNoModel(c: Reader, lines: seq<string>) {
    forall i | 0 <= i < |lines| :: !c.model(lines[i])
  }

  /** The line at `i` is the one the rewriter writes, and no other sets the model provider. */
  predicate OnlyModelAt(c: Reader, lines: seq<string>, i: nat) {
    && i < |lines| && lines[i] == MODEL_LINE
    && forall j | 0 <= j < |lines| && j != i :: !c.model(lines[j])
  }

  lemma {:induction false} WithoutHasNone(c: Reader, lines: seq<string>)
    ensures HasNoModel(c, Without(c, lines))
  {
    if lines != [] {
      WithoutHasNone(c, lines[..|lines| - 1]);
    }
  }

  lemma OnlyModelBetween(c: Reader, a: seq<string>, b: seq<string>)
    requires HasNoModel(c, a) && HasNoModel(c, b) && c.model(MODEL_LINE)
    ensures OnlyModelAt(c, a + ([MODEL_LINE] + b), |a|)
    ensures Without(c, a + ([MODEL_LINE] + b)) == a + b
  {
    WithoutConcat(c, a, [MODEL_LINE] + b);
    WithoutConcat(c, [MODEL_LINE], b);
    WithoutOne(c, MODEL_LINE);
    NothingToDrop(c, a);
    NothingToDrop(c, b);
    Units(b);
  }

  /** Where the model pass puts its line: in the place of the first one, or before the first header. */
  function ModelPlace(c: Reader, lines: seq<string>): (i: nat)
    ensures i <= |lines|
  {
    var i := FirstFrom(lines, 0, c.model);
    if i == |lines| then FirstFrom(lines, 0, Header(c)) else i
  }

  predicate HasNoHeader(c: Reader, lines: seq<string>) {
    forall i | 0 <= i < |lines| :: c.section(lines[i]).None?
  }

  lemma ModelInserted(c: Reader, lines: seq<string>, h: nat)
    requires HasNoModel(c, lines) && c.model(MODEL_LINE) && h <= |lines|
    ensures var m := Inserted(lines, h, [MODEL_LINE]);
            OnlyModelAt(c, m, h) && Without(c, m) == Without(c, lines) && m[..h] == lines[..h]
  {
    var a, b := lines[..h], lines[h..];
    OnlyModelBetween(c, a, b);
    Halves(lines, h);
    NothingToDrop(c, lines);
    Undo(a, [MODEL_LINE] + b);
  }

  lemma ModelReplaced(c: Reader, lines: seq<string>, i: nat)
    requires i < |lines| && c.model(lines[i]) && HasNoModel(c, lines[..i]) && c.model(MODEL_LINE)
    ensures var m := lines[..i] + ([MODEL_LINE] + Without(c, lines[i + 1..]));
            OnlyModelAt(c, m, i) && Without(c, m) == Without(c, lines) && m[..i] == lines[..i]
  {
    var rest := Without(c, lines[i + 1..]);
    WithoutHasNone(c, lines[i + 1..]);
    OnlyModelBetween(c, lines[..i], rest);
    WithoutAround(c, lines, i);
    Undo(lines[..i], [MODEL_LINE] + rest);
  }

  /** After the first pass: one model-provider line, at its place, what came before it unchanged, the other lines in order. */
  lemma OneModelLine(c: Reader, lines: seq<string>)
    requires Sound(c)
    ensures var m, i := UpsertModel(c, lines), ModelPlace(c, lines);
            OnlyModelAt(c, m, i) && m[..i] == lines[..i] && Without(c, m) == Without(c, lines)
  {
    var i := FirstFrom(lines, 0, c.model);
    assert c.model(MODEL_LINE);
    if i == |lines| {
      ModelInserted(c, lines, FirstFrom(lines, 0, Header(c)));
    } else {
      assert HasNoModel(c, lines[..i]);
      ModelReplaced(c, lines, i);
    }
  }

  lemma WithoutAround(c: Reader, lines: seq<string>, i: nat)
    requires i < |lines| && c.model(lines[i]) && HasNoModel(c, lines[..i])
    ensures Without(c, lines) == lines[..i] + Without(c, lines[i + 1..])
  {
    var tail := lines[i + 1..];
    assert lines == lines[..i] + ([lines[i]] + tail);
    WithoutConcat(c, lines[..i], [lines[i]] + tail);
    WithoutConcat(c, [lines[i]], tail);
    WithoutOne(c, lines[i]);
    NothingToDrop(c, lines[..i]);
    Units(Without(c, tail));
  }

  lemma ModelIsSettled(c: Reader, lines: seq<string>, i: nat)
    requires OnlyModelAt(c, lines, i) && c.model(MODEL_LINE)
    ensures UpsertModel(c, lines) == lines
  {
    FirstIs(lines, 0, c.model, i);
    NothingToDrop(c, lines[i + 1..]);
    assert lines == lines[..i] + ([MODEL_LINE] + lines[i + 1..]);
  }

  lemma InsertedKeepsModel(c: Reader, lines: seq<string>, i: nat, at: nat, more: seq<string>) returns (j: nat)
    requires OnlyModelAt(c, lines, i) && at <= |lines| && HasNoModel(c, more)
    ensures OnlyModelAt(c, Inserted(lines, at, more), j)
  {
    j := if i < at then i else i + |more|;
  }

  // ---------------------------------------------------------------------------
  // A complete provider section
  // ---------------------------------------------------------------------------

  /** A line the section pass writes. */
  predicate IsOwn(line: string) {
    line == "" || line == HEADER || exists i | 0 <= i < |SETTINGS| :: line == EntryLine(SETTINGS[i])
  }

  predicate AllOwn(lines: seq<string>) {
    forall i | 0 <= i < |lines| :: IsOwn(lines[i])
  }

  lemma OwnHasNoModel(c: Reader, lines: seq<string>)
    requires Sound(c) && AllOwn(lines)
    ensures HasNoModel(c, lines)
  {
    forall i | 0 <= i < |lines|
      ensures !c.model(lines[i])
    {
      if exists k | 0 <= k < |SETTINGS| :: lines[i] == EntryLine(SETTINGS[k]) {
        var k :| 0 <= k < |SETTINGS| && lines[i] == EntryLine(SETTINGS[k]);
        assert ReadsBack(c, SETTINGS[k]);
      } else {
        assert lines[i] == "" || lines[i] == HEADER;
      }
    }
  }

  lemma {:induction false} MissingIsExact(settings: seq<Entry>, present: set<string>)
    ensures forall e :: e in MissingOf(settings, present) <==> e in settings && e.key !in present
  {
    if settings != [] {
      MissingIsExact(settings[1..], present);
      assert settings == [settings[0]] + settings[1..];
    }
  }

  lemma MissingIsOwn(c: Reader, present: set<string>)
    requires Sound(c)
    ensures AllOwn(EntryLines(MissingOf(SETTINGS, present)))
    ensures HasNoHeader(c, EntryLines(MissingOf(SETTINGS, present)))
  {
    MissingIsExact(SETTINGS, present);
    var missing := MissingOf(SETTINGS, present);
    forall i | 0 <= i < |missing|
      ensures IsOwn(EntryLine(missing[i])) && c.section(EntryLine(missing[i])).None?
    {
      assert missing[i] in SETTINGS;
      var k :| 0 <= k < |SETTINGS| && SETTINGS[k] == missing[i];
      assert ReadsBack(c, SETTINGS[k]);
    }
  }

  lemma SettingsAreOwn(c: Reader)
    requires Sound(c)
    ensures AllOwn(EntryLines(SETTINGS)) && HasNoHeader(c, EntryLines(SETTINGS))
  {
    forall k | 0 <= k < |SETTINGS|
      ensures IsOwn(EntryLine(SETTINGS[k])) && c.section(EntryLine(SETTINGS[k])).None?
    {
      assert ReadsBack(c, SETTINGS[k]);
    }
  }

  /** The section pass inserts lines of its own, at one place. */
  lemma SectionPassInserts(c: Reader, lines: seq<string>) returns (at: nat, more: seq<string>)
    requires Sound(c)
    ensures at <= |lines| && AllOwn(more) && UpsertSection(c, lines) == Inserted(lines, at, more)
  {
    var b := SectionBounds(c, lines);
    if b.None? {
      SettingsAreOwn(c);
      at, more := |lines|, Gap(c, lines) + ([HEADER] + EntryLines(SETTINGS));
      Units(more);
      OwnAppends([HEADER], EntryLines(SETTINGS));
      OwnAppends(Gap(c, lines), [HEADER] + EntryLines(SETTINGS));
      assert lines[..at] == lines && lines[at..] == [];
    } else {
      MissingIsOwn(c, KeysInSection(c, lines, b.value));
      at, more := b.value.end, EntryLines(MissingOf(SETTINGS, KeysInSection(c, lines, b.value)));
    }
  }

  lemma OwnAppends(a: seq<string>, b: seq<string>)
    requires AllOwn(a) && AllOwn(b)
    ensures AllOwn(a + b)
  {
  }

  /** A provider section `inside` between its header and the next, behind lines without one. */
  predicate IsSection(c: Reader, before: seq<string>, header: string, inside: seq<string>, after: seq<string>) {
    && (forall i | 0 <= i < |before| :: c.section(before[i]) != Some(PROVIDER))
    && c.section(header) == Some(PROVIDER)
    && HasNoHeader(c, inside)
    && (after != [] ==> c.section(after[0]).Some?)
  }

  lemma BoundsOf(c: Reader, before: seq<string>, header: string, inside: seq<string>, after: seq<string>)
    requires IsSection(c, before, header, inside, after)
    ensures var lines := before + ([header] + (inside + after));
            var b := Bounds(|before|, |before| + 1 + |inside|);
            SectionBounds(c, lines) == Some(b) && KeysInSection(c, lines, b) == KeysOf(c, inside)
  {
    var lines := before + ([header] + (inside + after));
    FirstIs(lines, 0, ProviderHeader(c), |before|);
    FirstIs(lines, |before| + 1, Header(c), |before| + 1 + |inside|);
    assert lines[|before| + 1..|before| + 1 + |inside|] == inside;
  }

  /** The first provider section of lines that have one. */
  lemma SectionOfLines(c: Reader, lines: seq<string>)
    returns (before: seq<string>, header: string, inside: seq<string>, after: seq<string>)
    requires SectionBounds(c, lines).Some?
    ensures IsSection(c, before, header, inside, after) && lines == before + ([header] + (inside + after))
  {
    var b := SectionBounds(c, lines).value;
    before, header, inside, after := lines[..b.start], lines[b.start], lines[b.start + 1..b.end], lines[b.end..];
    forall i | 0 <= i < b.start
      ensures c.section(before[i]) != Some(PROVIDER)
    {
      assert !ProviderHeader(c)(lines[i]);
    }
    forall i | 0 <= i < |inside|
      ensures c.section(inside[i]).None?
    {
      assert !Header(c)(lines[b.start + 1 + i]);
    }
    assert ProviderHeader(c)(lines[b.start]);
    assert b.end < |lines| ==> Header(c)(lines[b.end]);
  }

  predicate HasAllKeys(keys: set<string>) {
    forall i | 0 <= i < |SETTINGS| :: SETTINGS[i].key in keys
  }

  predicate IsComplete(c: Reader, lines: seq<string>) {
    SectionBounds(c, lines).Some? && HasAllKeys(KeysInSection(c, lines, SectionBounds(c, lines).value))
  }

  lemma {:induction false} NothingMissing(settings: seq<Entry>, present: set<string>)
    requires forall i | 0 <= i < |settings| :: settings[i].key in present
    ensures MissingOf(settings, present) == []
  {
    if settings != [] {
      NothingMissing(settings[1..], present);
    }
  }

  lemma InsertNothing(lines: seq<string>, at: nat)
    requires at <= |lines|
    ensures Inserted(lines, at, []) == lines
  {
    Units(lines[at..]);
    Halves(lines, at);
  }

  lemma CompleteIsSettled(c: Reader, lines: seq<string>)
    requires IsComplete(c, lines)
    ensures UpsertSection(c, lines) == lines
  {
    var b := SectionBounds(c, lines).value;
    NothingMissing(SETTINGS, KeysInSection(c, lines, b));
    assert EntryLines([]) == [];
    InsertNothing(lines, b.end);
  }

  lemma KeysOfEntries(c: Reader, entries: seq<Entry>)
    requires Sound(c) && forall e | e in entries :: e in SETTINGS
    ensures forall e | e in entries :: e.key in KeysOf(c, EntryLines(entries))
  {
    forall e | e in entries
      ensures e.key in KeysOf(c, EntryLines(entries))
    {
      var k :| 0 <= k < |SETTINGS| && SETTINGS[k] == e;
      assert ReadsBack(c, SETTINGS[k]);
      var i :| 0 <= i < |entries| && entries[i] == e;
      assert EntryLines(entries)[i] in EntryLines(entries);
    }
  }

  lemma SettingsHaveAllKeys(c: Reader)
    requires Sound(c)
    ensures HasAllKeys(KeysOf(c, EntryLines(SETTINGS)))
  {
    KeysOfEntries(c, SETTINGS);
    assert forall i | 0 <= i < |SETTINGS| :: SETTINGS[i] in SETTINGS;
  }

  lemma FilledHasAllKeys(c: Reader, inside: seq<string>)
    requires Sound(c)
    ensures HasAllKeys(KeysOf(c, inside + EntryLines(MissingOf(SETTINGS, KeysOf(c, inside)))))
  {
    var missing := MissingOf(SETTINGS, KeysOf(c, inside));
    MissingIsExact(SETTINGS, KeysOf(c, inside));
    KeysOfConcat(c, inside, EntryLines(missing));
    KeysOfEntries(c, missing);
    MissingCompletes(KeysOf(c, inside), KeysOf(c, EntryLines(missing)));
  }

  lemma MissingCompletes(present: set<string>, added: set<string>)
    requires forall e | e in SETTINGS && e.key !in present :: e.key in added
    ensures HasAllKeys(present + added)
  {
    assert forall i | 0 <= i < |SETTINGS| :: SETTINGS[i] in SETTINGS;
  }

  lemma CompleteOf(c: Reader, before: seq<string>, header: string, inside: seq<string>, after: seq<string>)
    requires IsSection(c, before, header, inside, after) && HasAllKeys(KeysOf(c, inside))
    ensures IsComplete(c, before + ([header] + (inside + after)))
  {
    BoundsOf(c, before, header, inside, after);
  }

  lemma InsertBehind(before: seq<string>, header: string, inside: seq<string>, after: seq<string>, more: seq<string>)
    ensures Inserted(before + ([header] + (inside + after)), |before| + 1 + |inside|, more) ==
            before + ([header] + ((inside + more) + after))
  {
    var lines, at := before + ([header] + (inside + after)), |before| + 1 + |inside|;
    assert lines[..at] == before + ([header] + inside) && lines[at..] == after;
    Assoc(before, [header] + inside, more + after);
    Assoc([header], inside, more + after);
    Assoc(inside, more, after);
  }

  lemma NewSectionIsComplete(c: Reader, lines: seq<string>)
    requires Sound(c) && SectionBounds(c, lines).None?
    ensures IsComplete(c, UpsertSection(c, lines))
  {
    var before, inside := lines + Gap(c, lines), EntryLines(SETTINGS);
    SettingsAreOwn(c);
    SettingsHaveAllKeys(c);
    assert forall i | 0 <= i < |lines| :: !ProviderHeader(c)(lines[i]);
    CompleteOf(c, before, HEADER, inside, []);
    Units(inside);
    Assoc(lines, Gap(c, lines), [HEADER] + inside);
  }

  lemma WithMoreInside(c: Reader, before: seq<string>, header: string, inside: seq<string>, after: seq<string>, more: seq<string>)
    requires IsSection(c, before, header, inside, after) && HasNoHeader(c, more)
    ensures IsSection(c, before, header, inside + more, after)
  {
  }

  lemma FillSection(c: Reader, before: seq<string>, header: string, inside: seq<string>, after: seq<string>)
    requires Sound(c) && IsSection(c, before, header, inside, after)
    ensures IsComplete(c, Inserted(before + ([header] + (inside + after)), |before| + 1 + |inside|,
                                   EntryLines(MissingOf(SETTINGS, KeysOf(c, inside)))))
  {
    var more := EntryLines(MissingOf(SETTINGS, KeysOf(c, inside)));
    MissingIsOwn(c, KeysOf(c, inside));
    WithMoreInside(c, before, header, inside, after, more);
    FilledHasAllKeys(c, inside);
    CompleteOf(c, before, header, inside + more, after);
    InsertBehind(before, header, inside, after, more);
  }

  /** A section pass over lines that have the section. */
  lemma FilledForm(c: Reader, lines: seq<string>)
    returns (before: seq<string>, header: string, inside: seq<string>, after: seq<string>)
    requires SectionBounds(c, lines).Some?
    ensures IsSection(c, before, header, inside, after) && lines == before + ([header] + (inside + after))
    ensures UpsertSection(c, lines) ==
            Inserted(lines, |before| + 1 + |inside|, EntryLines(MissingOf(SETTINGS, KeysOf(c, inside))))
  {
    before, header, inside, after := SectionOfLines(c, lines);
    BoundsOf(c, before, header, inside, after);
  }

  lemma FilledSectionIsComplete(c: Reader, lines: seq<string>)
    requires Sound(c) && SectionBounds(c, lines).Some?
    ensures IsComplete(c, UpsertSection(c, lines))
  {
    var before, header, inside, after := FilledForm(c, lines);
    FillSection(c, before, header, inside, after);
  }

  lemma SectionIsComplete(c: Reader, lines: seq<string>)
    requires Sound(c)
    ensures IsComplete(c, UpsertSection(c, lines))
  {
    if SectionBounds(c, lines).None? {
      NewSectionIsComplete(c, lines);
    } else {
      FilledSectionIsComplete(c, lines);
    }
  }

  lemma AppendBehind(before: seq<string>, header: string, inside: seq<string>, after: seq<string>, more: seq<string>)
    ensures (before + ([header] + (inside + after))) + more == before + ([header] + (inside + (after + more)))
  {
    Assoc(before, [header] + (inside + after), more);
    Assoc([header], inside + after, more);
    Assoc(inside, after, more);
  }

  lemma BlankKeepsComplete(c: Reader, lines: seq<string>)
    requires Sound(c) && IsComplete(c, lines)
    ensures IsComplete(c, lines + [""])
  {
    var before, header, inside, after := SectionOfLines(c, lines);
    BoundsOf(c, before, header, inside, after);
    AppendBehind(before, header, inside, after, [""]);
    if after == [] {
      KeysOfConcat(c, inside, [""]);
      WithMoreInside(c, before, header, inside, [], [""]);
      CompleteOf(c, before, header, inside + [""], []);
      Units([""]);
      Units(inside + [""]);
    } else {
      CompleteOf(c, before, header, inside, after + [""]);
    }
  }

  // ---------------------------------------------------------------------------
  // The rewriter settles
  // ---------------------------------------------------------------------------

  /** The lines of a rewritten file: what is joined, and a blank line at the end. */
  function Ended(lines: seq<string>): seq<string> {
    if |lines| >= 2 && lines[|lines| - 1] == "" then lines else lines + [""]
  }

  lemma OneModelAfterBoth(c: Reader, lines: seq<string>) returns (j: nat)
    requires Sound(c)
    ensures OnlyModelAt(c, Ended(Updated(c, lines)), j)
  {
    var m := UpsertModel(c, lines);
    OneModelLine(c, lines);
    var at, more := SectionPassInserts(c, m);
    OwnHasNoModel(c, more);
    j := InsertedKeepsModel(c, m, ModelPlace(c, lines), at, more);
    BlankHasNoModel(c);
    EndedKeepsModel(c, Updated(c, lines), j);
  }

  lemma BlankHasNoModel(c: Reader)
    requires Sound(c)
    ensures !c.model("")
  {
  }

  lemma EndedKeepsModel(c: Reader, lines: seq<string>, j: nat)
    requires OnlyModelAt(c, lines, j) && !c.model("")
    ensures OnlyModelAt(c, Ended(lines), j)
  {
  }

  lemma EndedIsComplete(c: Reader, lines: seq<string>)
    requires Sound(c)
    ensures IsComplete(c, Ended(Updated(c, lines)))
  {
    SectionIsComplete(c, UpsertModel(c, lines));
    BlankKeepsComplete(c, Updated(c, lines));
  }

  lemma EndedTwice(lines: seq<string>)
    requires lines != []
    ensures Ended(Ended(lines)) == Ended(lines)
  {
  }

  lemma BothAreSettled(c: Reader, lines: seq<string>, j: nat)
    requires Sound(c) && OnlyModelAt(c, lines, j) && IsComplete(c, lines)
    ensures Updated(c, lines) == lines
  {
    ModelIsSettled(c, lines, j);
    CompleteIsSettled(c, lines);
  }

  /** Rewriting rewritten lines changes nothing. */
  lemma UpdatedSettles(c: Reader, lines: seq<string>)
    requires Sound(c)
    ensures var settled := Ended(Updated(c, lines));
            Updated(c, settled) == settled && Ended(settled) == settled
  {
    var settled := Ended(Updated(c, lines));
    var j := OneModelAfterBoth(c, lines);
    EndedIsComplete(c, lines);
    BothAreSettled(c, settled, j);
    EndedTwice(Updated(c, lines));
  }

  /** Every line that does not set the model provider stays, in order; the others that come in are the rewriter's own, at one place. */
  lemma OtherLinesStay(c: Reader, lines: seq<string>) returns (at: nat, more: seq<string>)
    requires Sound(c)
    ensures at <= |Without(c, lines)| && AllOwn(more)
    ensures Without(c, Updated(c, lines)) == Inserted(Without(c, lines), at, more)
  {
    var m := UpsertModel(c, lines);
    OneModelLine(c, lines);
    var k;
    k, more := SectionPassInserts(c, m);
    OwnHasNoModel(c, more);
    NothingToDrop(c, more);
    WithoutConcat(c, m[..k], more + m[k..]);
    WithoutConcat(c, more, m[k..]);
    WithoutConcat(c, m[..k], m[k..]);
    Halves(m, k);
    at := |Without(c, m[..k])|;
    Undo(Without(c, m[..k]), Without(c, m[k..]));
  }
}
