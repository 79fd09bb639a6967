/** When the inspector accepts what the rewriter wrote, and what rewriting does to the text of a file. */
module CodexVerdict {
  import opened Options
  import opened Sequences
  import opened CodexLines
  import opened CodexConfig
  import opened CodexAgreement

  // ---------------------------------------------------------------------------
  // The inspector over parts of a file
  // ---------------------------------------------------------------------------

  lemma {:induction false} InspectConcat(c: Reader, v: View, a: seq<string>, b: seq<string>)
    ensures Inspect(c, v, a + b) == Inspect(c, Inspect(c, v, a), b)
  {
    if b == [] {
      Units(a);
    } else {
      assert (a + b)[..|a + b| - 1] == a + b[..|b| - 1];
      InspectConcat(c, v, a, b[..|b| - 1]);
    }
  }

  lemma InspectOne(c: Reader, v: View, line: string)
    ensures Inspect(c, v, [line]) == Look(c, v, line)
  {
    assert [line][..0] == [];
  }

  predicate SameButProvider(v: View, w: View) {
    v.section == w.section && v.hasSection == w.hasSection && v.keys == w.keys
  }

  lemma LookAtModel(c: Reader, v: View, line: string)
    requires Sound(c) && c.model(line)
    ensures SameButProvider(Look(c, v, line), v)
  {
  }

  lemma LookAtOther(c: Reader, v: View, line: string)
    requires Sound(c) && !c.model(line)
    ensures Look(c, v, line).provider == v.provider
  {
  }

  lemma LookAlike(c: Reader, v: View, w: View, line: string)
    requires SameButProvider(v, w)
    ensures SameButProvider(Look(c, v, line), Look(c, w, line))
  {
  }

  /** Lines that set the model provider bear on nothing else. */
  lemma {:induction false} InspectWithout(c: Reader, v: View, lines: seq<string>)
    requires Sound(c)
    ensures SameButProvider(Inspect(c, v, Without(c, lines)), Inspect(c, v, lines))
  {
    if lines != [] {
      var front, last := lines[..|lines| - 1], lines[|lines| - 1];
      InspectWithout(c, v, front);
      var u, w := Inspect(c, v, Without(c, front)), Inspect(c, v, front);
      if c.model(last) {
        LookAtModel(c, w, last);
      } else {
        InspectConcat(c, v, Without(c, front), [last]);
        InspectOne(c, u, last);
        LookAlike(c, u, w, last);
      }
    }
  }

  lemma {:induction false} ProviderStays(c: Reader, v: View, lines: seq<string>)
    requires Sound(c) && HasNoModel(c, lines)
    ensures Inspect(c, v, lines).provider == v.provider
  {
    if lines != [] {
      ProviderStays(c, v, lines[..|lines| - 1]);
      LookAtOther(c, Inspect(c, v, lines[..|lines| - 1]), lines[|lines| - 1]);
    }
  }

  function MoreKeys(v: View, keys: set<string>): View {
    v.(keys := v.keys + keys)
  }

  lemma {:induction false} KeysOnlyAdd(c: Reader, v: View, lines: seq<string>, keys: set<string>)
    ensures Inspect(c, MoreKeys(v, keys), lines) == MoreKeys(Inspect(c, v, lines), keys)
  {
    if lines != [] {
      KeysOnlyAdd(c, v, lines[..|lines| - 1], keys);
      LookAdds(c, Inspect(c, v, lines[..|lines| - 1]), lines[|lines| - 1], keys);
    }
  }

  lemma LookAdds(c: Reader, v: View, line: string, keys: set<string>)
    ensures Look(c, MoreKeys(v, keys), line) == MoreKeys(Look(c, v, line), keys)
  {
    var entry := c.activeEntry(line);
    if entry.Some? {
      assert (v.keys + keys) + {entry.value.key} == (v.keys + {entry.value.key}) + keys;
    }
  }

  function KeySet(entries: seq<Entry>): set<string> {
    set e | e in entries :: e.key
  }

  lemma LookAtEntry(c: Reader, v: View, e: Entry)
    requires ReadsBack(c, e) && e.key in REQUIRED && v.section == Some(PROVIDER)
    ensures Look(c, v, EntryLine(e)) == MoreKeys(v, {e.key})
  {
  }

  lemma KeySetNext(entries: seq<Entry>, e: Entry, v: View)
    ensures MoreKeys(MoreKeys(v, KeySet(entries)), {e.key}) == MoreKeys(v, KeySet(entries + [e]))
  {
    assert KeySet(entries + [e]) == KeySet(entries) + {e.key};
    assert (v.keys + KeySet(entries)) + {e.key} == v.keys + KeySet(entries + [e]);
  }

  lemma {:induction false} InspectEntries(c: Reader, v: View, entries: seq<Entry>)
    requires Sound(c) && v.section == Some(PROVIDER)
    requires forall i | 0 <= i < |entries| :: ReadsBack(c, entries[i]) && entries[i].key in REQUIRED
    ensures Inspect(c, v, EntryLines(entries)) == MoreKeys(v, KeySet(entries))
  {
    if entries != [] {
      var front, last := entries[..|entries| - 1], entries[|entries| - 1];
      InspectEntries(c, v, front);
      assert EntryLines(entries)[..|entries| - 1] == EntryLines(front);
      assert entries == front + [last];
      LookAtEntry(c, MoreKeys(v, KeySet(front)), last);
      KeySetNext(front, last, v);
    }
  }

  /** Entries in another section than the provider's say nothing. */
  lemma LookAside(c: Reader, v: View, e: Entry)
    requires ReadsBack(c, e) && v.section.Some? && v.section != Some(PROVIDER)
    ensures Look(c, v, EntryLine(e)) == v
  {
  }

  lemma {:induction false} InspectAside(c: Reader, v: View, entries: seq<Entry>)
    requires v.section.Some? && v.section != Some(PROVIDER)
    requires forall i | 0 <= i < |entries| :: ReadsBack(c, entries[i])
    ensures Inspect(c, v, EntryLines(entries)) == v
  {
    if entries != [] {
      var front, last := entries[..|entries| - 1], entries[|entries| - 1];
      InspectAside(c, v, front);
      assert EntryLines(entries)[..|entries| - 1] == EntryLines(front);
      LookAside(c, v, last);
    }
  }

  // ---------------------------------------------------------------------------
  // The section the inspector is in
  // ---------------------------------------------------------------------------

  /** The last header the inspector sees. */
  function LastActive(c: Reader, lines: seq<string>): Option<string> {
    if lines == [] then None
    else
      var last := c.activeSection(lines[|lines| - 1]);
      if last.Some? then last else LastActive(c, lines[..|lines| - 1])
  }

  lemma {:induction false} SectionIsLastActive(c: Reader, v: View, lines: seq<string>)
    ensures Inspect(c, v, lines).section == if LastActive(c, lines).Some? then LastActive(c, lines) else v.section
    ensures v.hasSection ==> Inspect(c, v, lines).hasSection
  {
    if lines != [] {
      SectionIsLastActive(c, v, lines[..|lines| - 1]);
    }
  }

  lemma {:induction false} LastActiveWithout(c: Reader, lines: seq<string>)
    requires Sound(c)
    ensures LastActive(c, Without(c, lines)) == LastActive(c, lines)
  {
    if lines != [] {
      var front, last := lines[..|lines| - 1], lines[|lines| - 1];
      LastActiveWithout(c, front);
      if !c.model(last) {
        Undo(Without(c, front), [last]);
      }
    }
  }

  // ---------------------------------------------------------------------------
  // The section pass
  // ---------------------------------------------------------------------------

  /** Whether the section pass gives the inspector the key: in a new section, or in the first one if that lacks it and no other header the inspector sees has come in between. */
  predicate WillBeFilled(c: Reader, lines: seq<string>, key: string) {
    var b := SectionBounds(c, lines);
    || b.None?
    || (key !in KeysInSection(c, lines, b.value) && LastActive(c, lines[..b.value.end]) == Some(PROVIDER))
  }

  function FilledKeys(c: Reader, lines: seq<string>): set<string> {
    set key | key in REQUIRED && WillBeFilled(c, lines, key)
  }

  lemma SettingKeys()
    ensures KeySet(SETTINGS) == REQUIRED
    ensures forall e | e in SETTINGS :: e.key in REQUIRED
  {
    assert SETTINGS[0].key == "name" && SETTINGS[1].key == "base_url" && SETTINGS[2].key == "wire_api";
    assert SETTINGS[3].key == "supports_websockets" && SETTINGS[4].key == "requires_openai_auth";
    assert forall i | 0 <= i < |SETTINGS| :: SETTINGS[i] in SETTINGS;
  }

  lemma MissingKeys(c: Reader, present: set<string>)
    requires Sound(c)
    ensures KeySet(MissingOf(SETTINGS, present)) == REQUIRED - present
    ensures var m := MissingOf(SETTINGS, present);
            forall i | 0 <= i < |m| :: ReadsBack(c, m[i]) && m[i].key in REQUIRED
  {
    var m := MissingOf(SETTINGS, present);
    MissingIsExact(SETTINGS, present);
    SettingKeys();
    forall i | 0 <= i < |m|
      ensures ReadsBack(c, m[i]) && m[i].key in REQUIRED
    {
      assert m[i] in m;
      var k :| 0 <= k < |SETTINGS| && SETTINGS[k] == m[i];
      assert ReadsBack(c, SETTINGS[k]);
    }
    forall key | key in REQUIRED - present
      ensures key in KeySet(m)
    {
      var e :| e in SETTINGS && e.key == key;
      assert e in m;
    }
  }

  /** What of a section pass the inspector sees: the section, and the keys that were missing, if they come in under its header. */
  lemma ViewAfterFilling(c: Reader, before: seq<string>, header: string, inside: seq<string>, after: seq<string>)
    requires Sound(c) && IsSection(c, before, header, inside, after)
    ensures var m := EntryLines(MissingOf(SETTINGS, KeysOf(c, inside)));
            var v := Inspect(c, BEFORE, before + ([header] + (inside + after)));
            var filled := if LastActive(c, before + ([header] + inside)) == Some(PROVIDER) then REQUIRED - KeysOf(c, inside) else {};
            && Inspect(c, BEFORE, before + ([header] + ((inside + m) + after))) == MoreKeys(v, filled)
            && v.hasSection
  {
    var missing := MissingOf(SETTINGS, KeysOf(c, inside));
    var m := EntryLines(missing);
    var entered := Look(c, Inspect(c, BEFORE, before), header);
    var u := Inspect(c, entered, inside);
    SectionIsLastActive(c, entered, inside);
    SectionIsLastActive(c, u, after);
    InspectTwoParts(c, before, header, inside);
    SectionIsLastActive(c, BEFORE, before + ([header] + inside));
    InspectParts(c, before, header, inside, after);
    InspectParts(c, before, header, inside + m, after);
    InspectConcat(c, entered, inside, m);
    MissingKeys(c, KeysOf(c, inside));
    if u.section == Some(PROVIDER) {
      InspectEntries(c, u, missing);
      KeysOnlyAdd(c, u, after, KeySet(missing));
    } else {
      InspectAside(c, u, missing);
      NoMoreKeys(Inspect(c, u, after));
    }
  }

  lemma NoMoreKeys(v: View)
    ensures MoreKeys(v, {}) == v
  {
  }

  lemma InspectTwoParts(c: Reader, before: seq<string>, header: string, inside: seq<string>)
    ensures Inspect(c, BEFORE, before + ([header] + inside)) ==
            Inspect(c, Look(c, Inspect(c, BEFORE, before), header), inside)
  {
    InspectParts(c, before, header, inside, []);
    Units(inside);
  }

  lemma InspectParts(c: Reader, before: seq<string>, header: string, inside: seq<string>, after: seq<string>)
    ensures Inspect(c, BEFORE, before + ([header] + (inside + after))) ==
            Inspect(c, Inspect(c, Look(c, Inspect(c, BEFORE, before), header), inside), after)
  {
    var v := Inspect(c, BEFORE, before);
    InspectConcat(c, BEFORE, before, [header] + (inside + after));
    InspectConcat(c, v, [header], inside + after);
    InspectOne(c, v, header);
    InspectConcat(c, Look(c, v, header), inside, after);
  }

  lemma ViewAfterAppending(c: Reader, lines: seq<string>)
    requires Sound(c) && SectionBounds(c, lines).None?
    ensures var v, w := Inspect(c, BEFORE, lines), Inspect(c, BEFORE, UpsertSection(c, lines));
            w.provider == v.provider && w.hasSection && w.keys == v.keys + REQUIRED
  {
    var v := Inspect(c, BEFORE, lines);
    InspectConcat(c, BEFORE, lines, Gap(c, lines) + ([HEADER] + EntryLines(SETTINGS)));
    InspectConcat(c, v, Gap(c, lines), [HEADER] + EntryLines(SETTINGS));
    InspectOne(c, v, "");
    assert Inspect(c, v, Gap(c, lines)) == v;
    InspectConcat(c, v, [HEADER], EntryLines(SETTINGS));
    InspectOne(c, v, HEADER);
    SettingKeys();
    AllReadBack(c);
    InspectEntries(c, Look(c, v, HEADER), SETTINGS);
  }

  lemma AllReadBack(c: Reader)
    requires Sound(c)
    ensures forall i | 0 <= i < |SETTINGS| :: ReadsBack(c, SETTINGS[i]) && SETTINGS[i].key in REQUIRED
  {
    SettingKeys();
    assert forall i | 0 <= i < |SETTINGS| :: SETTINGS[i] in SETTINGS;
  }

  lemma ViewAfterSection(c: Reader, lines: seq<string>)
    requires Sound(c)
    ensures var v, w := Inspect(c, BEFORE, lines), Inspect(c, BEFORE, UpsertSection(c, lines));
            w.provider == v.provider && w.hasSection && w.keys == v.keys + FilledKeys(c, lines)
  {
    if SectionBounds(c, lines).None? {
      ViewAfterAppending(c, lines);
      assert FilledKeys(c, lines) == REQUIRED;
    } else {
      var before, header, inside, after := FilledForm(c, lines);
      ViewAfterFilling(c, before, header, inside, after);
      InsertBehind(before, header, inside, after, EntryLines(MissingOf(SETTINGS, KeysOf(c, inside))));
      FilledKeysOf(c, before, header, inside, after);
    }
  }

  lemma FilledKeysOf(c: Reader, before: seq<string>, header: string, inside: seq<string>, after: seq<string>)
    requires IsSection(c, before, header, inside, after)
    ensures FilledKeys(c, before + ([header] + (inside + after))) ==
            if LastActive(c, before + ([header] + inside)) == Some(PROVIDER) then REQUIRED - KeysOf(c, inside) else {}
  {
    BoundsOf(c, before, header, inside, after);
    UpToSection(before, header, inside, after);
    FilledKeysIn(c, before + ([header] + (inside + after)), Bounds(|before|, |before| + 1 + |inside|),
                 before + ([header] + inside), KeysOf(c, inside));
  }

  lemma UpToSection(before: seq<string>, header: string, inside: seq<string>, after: seq<string>)
    ensures (before + ([header] + (inside + after)))[..|before| + 1 + |inside|] == before + ([header] + inside)
  {
  }

  lemma FilledKeysIn(c: Reader, lines: seq<string>, b: Bounds, upTo: seq<string>, present: set<string>)
    requires SectionBounds(c, lines) == Some(b) && b.start < b.end <= |lines|
    requires lines[..b.end] == upTo && KeysInSection(c, lines, b) == present
    ensures FilledKeys(c, lines) == if LastActive(c, upTo) == Some(PROVIDER) then REQUIRED - present else {}
  {
  }

  // ---------------------------------------------------------------------------
  // The model pass
  // ---------------------------------------------------------------------------

  lemma QuotedText(text: string)
    requires '#' !in text && forall i | 0 <= i < |text| :: !IsLineBreak(text[i])
    ensures TomlString("\"" + (text + "\"")) == Some(text)
  {
    var q := "\"" + (text + "\"");
    assert q[0] == '"' && q[|q| - 1] == '"' && q[1..|q| - 1] == text;
    forall i | 0 <= i < |q|
      ensures !IsLineBreak(q[i])
    {
      assert 1 <= i < |q| - 1 ==> q[i] == text[i - 1];
    }
    assert StripInlineComment(q) == q;
  }

  lemma ModelValue()
    ensures TomlString(MODEL_ENTRY.value) == Some("tightrope")
  {
    assert MODEL_ENTRY.value == "\"" + ("tightrope" + "\"");
    QuotedText("tightrope");
  }

  lemma {:induction false} WithoutOnlyDrops(c: Reader, lines: seq<string>)
    ensures forall l | l in Without(c, lines) :: l in lines
  {
    if lines != [] {
      WithoutOnlyDrops(c, lines[..|lines| - 1]);
    }
  }

  /** No header the inspector sees comes before the place of the model-provider line. */
  predicate ModelIsSeen(c: Reader, lines: seq<string>) {
    LastActive(c, lines[..ModelPlace(c, lines)]).None?
  }

  /** After the model pass the inspector finds the provider exactly if the line comes before every header it sees. */
  lemma ViewAfterModel(c: Reader, lines: seq<string>)
    requires Sound(c)
    ensures var v, w := Inspect(c, BEFORE, lines), Inspect(c, BEFORE, UpsertModel(c, lines));
            && SameButProvider(v, w)
            && w.provider == if ModelIsSeen(c, lines) then Some("tightrope") else None
  {
    OneModelLine(c, lines);
    InspectWithout(c, BEFORE, lines);
    InspectWithout(c, BEFORE, UpsertModel(c, lines));
    ProviderFound(c, UpsertModel(c, lines), ModelPlace(c, lines));
  }

  lemma ProviderFound(c: Reader, m: seq<string>, i: nat)
    requires Sound(c) && OnlyModelAt(c, m, i)
    ensures Inspect(c, BEFORE, m).provider == if LastActive(c, m[..i]).None? then Some("tightrope") else None
  {
    var before, after := m[..i], m[i + 1..];
    var v := Inspect(c, BEFORE, before);
    assert m == before + ([MODEL_LINE] + after);
    InspectConcat(c, BEFORE, before, [MODEL_LINE] + after);
    InspectConcat(c, v, [MODEL_LINE], after);
    InspectOne(c, v, MODEL_LINE);
    ProviderStays(c, BEFORE, before);
    ProviderStays(c, Look(c, v, MODEL_LINE), after);
    SectionIsLastActive(c, BEFORE, before);
    ModelValue();
    assert ReadsBack(c, MODEL_ENTRY);
  }

  // ---------------------------------------------------------------------------
  // The verdict
  // ---------------------------------------------------------------------------

  lemma {:induction false} KeysWithout(c: Reader, lines: seq<string>)
    requires Sound(c)
    ensures KeysOf(c, Without(c, lines)) - {MODEL_KEY} == KeysOf(c, lines) - {MODEL_KEY}
    ensures HasNoHeader(c, lines) ==> HasNoHeader(c, Without(c, lines))
  {
    if lines != [] {
      var front, last := lines[..|lines| - 1], lines[|lines| - 1];
      KeysWithout(c, front);
      assert lines == front + [last];
      KeysOfConcat(c, front, [last]);
      KeysOfConcat(c, Without(c, front), [last]);
      if c.model(last) {
        assert [last][0] in [last] && c.key(last) == Some(MODEL_KEY);
        assert KeysOf(c, [last]) == {MODEL_KEY};
        assert KeysOf(c, lines) - {MODEL_KEY} == KeysOf(c, front) - {MODEL_KEY};
      } else {
        assert KeysOf(c, lines) - {MODEL_KEY} == (KeysOf(c, front) - {MODEL_KEY}) + (KeysOf(c, [last]) - {MODEL_KEY});
      }
    }
  }

  lemma WithoutParts(c: Reader, before: seq<string>, header: string, inside: seq<string>, after: seq<string>)
    requires !c.model(header)
    ensures Without(c, before + ([header] + (inside + after))) ==
            Without(c, before) + ([header] + (Without(c, inside) + Without(c, after)))
  {
    WithoutConcat(c, before, [header] + (inside + after));
    WithoutConcat(c, [header], inside + after);
    WithoutOne(c, header);
    WithoutConcat(c, inside, after);
  }

  lemma WithoutKeepsFirst(c: Reader, lines: seq<string>)
    requires lines != [] && !c.model(lines[0])
    ensures Without(c, lines) != [] && Without(c, lines)[0] == lines[0]
  {
    assert lines == [lines[0]] + lines[1..];
    WithoutConcat(c, [lines[0]], lines[1..]);
    WithoutOne(c, lines[0]);
  }

  lemma SectionWithout(c: Reader, before: seq<string>, header: string, inside: seq<string>, after: seq<string>)
    requires Sound(c) && IsSection(c, before, header, inside, after)
    ensures IsSection(c, Without(c, before), header, Without(c, inside), Without(c, after))
    ensures Without(c, before + ([header] + (inside + after))) ==
            Without(c, before) + ([header] + (Without(c, inside) + Without(c, after)))
  {
    WithoutOnlyDrops(c, before);
    assert forall l | l in before :: c.section(l) != Some(PROVIDER);
    KeysWithout(c, inside);
    WithoutParts(c, before, header, inside, after);
    if after != [] {
      WithoutKeepsFirst(c, after);
    }
  }

  lemma SameFilled(c: Reader, inside: seq<string>)
    requires Sound(c)
    ensures REQUIRED - KeysOf(c, Without(c, inside)) == REQUIRED - KeysOf(c, inside)
  {
    KeysWithout(c, inside);
    NotRequired();
    var a, b := KeysOf(c, Without(c, inside)), KeysOf(c, inside);
    forall key | key in REQUIRED
      ensures key in a <==> key in b
    {
      assert key in a - {MODEL_KEY} <==> key in a;
      assert key in b - {MODEL_KEY} <==> key in b;
    }
  }

  lemma FilledKeysWithout(c: Reader, lines: seq<string>)
    requires Sound(c)
    ensures FilledKeys(c, Without(c, lines)) == FilledKeys(c, lines)
  {
    if SectionBounds(c, lines).None? {
      assert forall i | 0 <= i < |lines| :: !ProviderHeader(c)(lines[i]);
      assert forall l | l in lines :: !ProviderHeader(c)(l);
      WithoutOnlyDrops(c, lines);
    } else {
      var before, header, inside, after := SectionOfLines(c, lines);
      FilledKeysOf(c, before, header, inside, after);
      SectionWithout(c, before, header, inside, after);
      FilledKeysOf(c, Without(c, before), header, Without(c, inside), Without(c, after));
      SameFilled(c, inside);
      WithoutParts(c, before, header, inside, []);
      Units(inside);
      Units(Without(c, inside));
      LastActiveWithout(c, before + ([header] + inside));
    }
  }

  /** Every required key is filled in by the section pass, or one the inspector accepts already. */
  predicate KeysCount(c: Reader, lines: seq<string>) {
    forall key | key in REQUIRED :: WillBeFilled(c, lines, key) || key in Inspect(c, BEFORE, lines).keys
  }

  lemma NotRequired()
    ensures MODEL_KEY !in REQUIRED
  {
  }

  /** The inspector's verdict on rewritten lines, from the lines before. */
  lemma VerdictOnLines(c: Reader, lines: seq<string>)
    requires Sound(c)
    ensures IsConfigured(Inspect(c, BEFORE, Ended(Updated(c, lines)))) <==> ModelIsSeen(c, lines) && KeysCount(c, lines)
  {
    var m := UpsertModel(c, lines);
    ViewAfterModel(c, lines);
    ViewAfterSection(c, m);
    OneModelLine(c, lines);
    FilledKeysWithout(c, m);
    FilledKeysWithout(c, lines);
    EndedLooksTheSame(c, Updated(c, lines));
    AllPresent(c, lines, Inspect(c, BEFORE, lines).keys);
  }

  lemma AllPresent(c: Reader, lines: seq<string>, keys: set<string>)
    ensures REQUIRED <= keys + FilledKeys(c, lines) <==>
            forall key | key in REQUIRED :: WillBeFilled(c, lines, key) || key in keys
  {
    forall key | key in REQUIRED
      ensures key in keys + FilledKeys(c, lines) <==> WillBeFilled(c, lines, key) || key in keys
    {
    }
  }

  lemma EndedLooksTheSame(c: Reader, lines: seq<string>)
    requires Sound(c)
    ensures Inspect(c, BEFORE, Ended(lines)) == Inspect(c, BEFORE, lines)
  {
    InspectConcat(c, BEFORE, lines, [""]);
    InspectOne(c, Inspect(c, BEFORE, lines), "");
  }
}
