/** What the inspector's fields come to at the end of a file, and what the rewriter writes where. */
module CodexMeaning {
  import opened Options
  import opened Sequences
  import opened CodexLines
  import opened CodexConfig
  import opened CodexAgreement
  import opened CodexVerdict

  // ---------------------------------------------------------------------------
  // What the inspector has seen
  // ---------------------------------------------------------------------------

  /** The i-th line is no header and stands in a section, or before all of them. */
  predicate StandsIn(c: Reader, lines: seq<string>, i: nat, section: Option<string>)
    requires i < |lines|
  {
    c.activeSection(lines[i]).None? && LastActive(c, lines[..i]) == section
  }

  /** The i-th line sets a key there. */
  predicate Sets(c: Reader, lines: seq<string>, i: nat, section: Option<string>, key: string)
    requires i < |lines|
  {
    StandsIn(c, lines, i, section) && c.activeEntry(lines[i]).Some? && c.activeEntry(lines[i]).value.key == key
  }

  /** The i-th line is the last to do so. */
  predicate SetsLast(c: Reader, lines: seq<string>, i: nat, section: Option<string>, key: string)
    requires i < |lines|
  {
    Sets(c, lines, i, section, key) && forall j | i < j < |lines| :: !Sets(c, lines, j, section, key)
  }

  lemma SetsInFront(c: Reader, lines: seq<string>, n: nat, i: nat, section: Option<string>, key: string)
    requires i < n <= |lines|
    ensures Sets(c, lines[..n], i, section, key) <==> Sets(c, lines, i, section, key)
  {
    assert lines[..n][..i] == lines[..i];
  }

  const TIGHTROPE := Some("model_providers.tightrope")

  lemma {:induction false} NoneActive(c: Reader, lines: seq<string>)
    requires forall i | 0 <= i < |lines| :: c.activeSection(lines[i]).None?
    ensures LastActive(c, lines).None?
  {
    if lines != [] {
      NoneActive(c, lines[..|lines| - 1]);
    }
  }

  /** The section behind some lines is the one their last header names. */
  lemma {:induction false} LastActiveSays(c: Reader, lines: seq<string>, i: nat)
    requires i < |lines| && c.activeSection(lines[i]).Some?
    requires forall j | i < j < |lines| :: c.activeSection(lines[j]).None?
    ensures LastActive(c, lines) == c.activeSection(lines[i])
    decreases |lines|
  {
    if i < |lines| - 1 {
      LastActiveSays(c, lines[..|lines| - 1], i);
    }
  }

  lemma {:induction false} SectionIsLast(c: Reader, lines: seq<string>)
    ensures Inspect(c, BEFORE, lines).section == LastActive(c, lines)
  {
    if lines != [] {
      SectionIsLast(c, lines[..|lines| - 1]);
    }
  }

  /** Some line is the header of the provider's section. */
  predicate HasHeader(c: Reader, lines: seq<string>) {
    exists i | 0 <= i < |lines| :: c.activeSection(lines[i]) == TIGHTROPE
  }

  lemma HasHeaderNext(c: Reader, front: seq<string>, last: string)
    ensures HasHeader(c, front + [last]) <==> HasHeader(c, front) || c.activeSection(last) == TIGHTROPE
  {
    var lines := front + [last];
    if HasHeader(c, front) {
      var i :| 0 <= i < |front| && c.activeSection(front[i]) == TIGHTROPE;
      assert lines[i] == front[i];
    }
    if c.activeSection(last) == TIGHTROPE {
      assert lines[|front|] == last;
    }
  }

  lemma {:induction false} HeaderIsSeen(c: Reader, lines: seq<string>)
    ensures Inspect(c, BEFORE, lines).section == LastActive(c, lines)
    ensures Inspect(c, BEFORE, lines).hasSection <==> HasHeader(c, lines)
  {
    SectionIsLast(c, lines);
    if lines != [] {
      var front, last := lines[..|lines| - 1], lines[|lines| - 1];
      HeaderIsSeen(c, front);
      HasHeaderNext(c, front, last);
      assert lines == front + [last];
    }
  }

  ghost predicate IsSetIn(c: Reader, lines: seq<string>, section: Option<string>, key: string) {
    exists i :: 0 <= i < |lines| && Sets(c, lines, i, section, key)
  }

  lemma SetInNext(c: Reader, lines: seq<string>, section: Option<string>, key: string)
    requires lines != []
    ensures var n := |lines| - 1;
            IsSetIn(c, lines, section, key) <==> IsSetIn(c, lines[..n], section, key) || Sets(c, lines, n, section, key)
  {
    var n := |lines| - 1;
    forall i: nat | i < n
      ensures Sets(c, lines[..n], i, section, key) <==> Sets(c, lines, i, section, key)
    {
      SetsInFront(c, lines, n, i, section, key);
    }
    if IsSetIn(c, lines[..n], section, key) {
      var i :| 0 <= i < n && Sets(c, lines[..n], i, section, key);
      assert Sets(c, lines, i, section, key);
    }
    if IsSetIn(c, lines, section, key) {
      var i :| 0 <= i < |lines| && Sets(c, lines, i, section, key);
      assert i < n ==> Sets(c, lines[..n], i, section, key);
    }
  }

  predicate IsRequired(key: string) {
    key in {"base_url", "name", "requires_openai_auth", "supports_websockets", "wire_api"}
  }

  lemma {:induction false} KeysAreSeen(c: Reader, lines: seq<string>, key: string)
    ensures key in Inspect(c, BEFORE, lines).keys <==> IsRequired(key) && IsSetIn(c, lines, TIGHTROPE, key)
  {
    if lines != [] {
      var front := lines[..|lines| - 1];
      KeysAreSeen(c, front, key);
      HeaderIsSeen(c, front);
      SetInNext(c, lines, TIGHTROPE, key);
    }
  }

  lemma {:induction false} NoProviderSeen(c: Reader, lines: seq<string>)
    requires !IsSetIn(c, lines, None, "model_provider")
    ensures Inspect(c, BEFORE, lines).provider.None?
  {
    if lines != [] {
      var front := lines[..|lines| - 1];
      SetInNext(c, lines, None, "model_provider");
      NoProviderSeen(c, front);
      HeaderIsSeen(c, front);
      assert !Sets(c, lines, |front|, None, "model_provider");
    }
  }

  lemma ProviderKept(c: Reader, lines: seq<string>)
    requires lines != [] && !Sets(c, lines, |lines| - 1, None, "model_provider")
    ensures Inspect(c, BEFORE, lines).provider == Inspect(c, BEFORE, lines[..|lines| - 1]).provider
  {
    InspectUnfolds(c, lines);
    SectionIsLast(c, lines[..|lines| - 1]);
  }

  lemma ProviderSet(c: Reader, lines: seq<string>)
    requires lines != [] && Sets(c, lines, |lines| - 1, None, "model_provider")
    ensures Inspect(c, BEFORE, lines).provider == TomlString(c.activeEntry(lines[|lines| - 1]).value.value)
  {
    InspectUnfolds(c, lines);
    SectionIsLast(c, lines[..|lines| - 1]);
  }

  lemma InspectUnfolds(c: Reader, lines: seq<string>)
    requires lines != []
    ensures Inspect(c, BEFORE, lines) == Look(c, Inspect(c, BEFORE, lines[..|lines| - 1]), lines[|lines| - 1])
  {
  }

  lemma SetsLastInFront(c: Reader, lines: seq<string>, n: nat, i: nat)
    requires i < n <= |lines| && SetsLast(c, lines, i, None, "model_provider")
    ensures SetsLast(c, lines[..n], i, None, "model_provider")
  {
    forall j | i <= j < n
      ensures Sets(c, lines[..n], j, None, "model_provider") <==> Sets(c, lines, j, None, "model_provider")
    {
      SetsInFront(c, lines, n, j, None, "model_provider");
    }
  }

  lemma {:induction false} ProviderIsSeen(c: Reader, lines: seq<string>, i: nat)
    requires i < |lines| && SetsLast(c, lines, i, None, "model_provider")
    ensures Inspect(c, BEFORE, lines).provider == TomlString(c.activeEntry(lines[i]).value.value)
    decreases |lines|
  {
    var n := |lines| - 1;
    if i < n {
      SetsLastInFront(c, lines, n, i);
      ProviderIsSeen(c, lines[..n], i);
      assert !Sets(c, lines, n, None, "model_provider");
      ProviderKept(c, lines);
    } else {
      ProviderSet(c, lines);
    }
  }

  lemma {:induction false} LastSetting(c: Reader, lines: seq<string>, n: nat, section: Option<string>, key: string) returns (i: nat)
    requires n <= |lines| && (forall j | n <= j < |lines| :: !Sets(c, lines, j, section, key))
    requires IsSetIn(c, lines, section, key)
    ensures i < |lines| && SetsLast(c, lines, i, section, key)
  {
    if Sets(c, lines, n - 1, section, key) {
      i := n - 1;
    } else {
      i := LastSetting(c, lines, n - 1, section, key);
    }
  }

  /** The provider a file names: what the last line before all sections that sets it says. */
  ghost predicate NamesProvider(c: Reader, lines: seq<string>, name: string) {
    exists i :: 0 <= i < |lines| && SetsLast(c, lines, i, None, "model_provider")
                && TomlString(c.activeEntry(lines[i]).value.value) == Some(name)
  }

  /** When a file counts as configured, said of its lines. */
  lemma ConfiguredSays(c: Reader, lines: seq<string>)
    ensures IsConfigured(Inspect(c, BEFORE, lines)) <==>
            && NamesProvider(c, lines, "tightrope")
            && HasHeader(c, lines)
            && (forall key | IsRequired(key) :: IsSetIn(c, lines, TIGHTROPE, key))
  {
    HeaderIsSeen(c, lines);
    forall key
      ensures key in Inspect(c, BEFORE, lines).keys <==> IsRequired(key) && IsSetIn(c, lines, TIGHTROPE, key)
    {
      KeysAreSeen(c, lines, key);
    }
    assert forall key :: IsRequired(key) <==> key in REQUIRED;
    ProviderSays(c, lines, "tightrope");
  }

  lemma ProviderSays(c: Reader, lines: seq<string>, name: string)
    ensures Inspect(c, BEFORE, lines).provider == Some(name) <==> NamesProvider(c, lines, name)
  {
    if IsSetIn(c, lines, None, "model_provider") {
      var i := LastSetting(c, lines, |lines|, None, "model_provider");
      ProviderIsSeen(c, lines, i);
      forall j: nat | j < |lines| && SetsLast(c, lines, j, None, "model_provider")
        ensures j == i
      {
      }
    } else {
      NoProviderSeen(c, lines);
    }
  }

  // ---------------------------------------------------------------------------
  // What it has seen commented out
  // ---------------------------------------------------------------------------

  /** The last header commented out, since the last that is not. */
  function LastCommented(c: Reader, lines: seq<string>): Option<string> {
    if lines == [] then None
    else
      var last := lines[|lines| - 1];
      if c.activeSection(last).Some? then None
      else if c.commentedSection(last).Some? then c.commentedSection(last)
      else LastCommented(c, lines[..|lines| - 1])
  }

  /** The i-th line says something only behind its hash. */
  predicate IsMuted(c: Reader, lines: seq<string>, i: nat)
    requires i < |lines|
  {
    && c.activeSection(lines[i]).None? && c.commentedSection(lines[i]).None? && c.activeEntry(lines[i]).None?
    && c.commentedEntry(lines[i]).Some?
  }

  predicate MutesKey(c: Reader, lines: seq<string>, i: nat, key: string)
    requires i < |lines|
  {
    && IsMuted(c, lines, i) && c.commentedEntry(lines[i]).value.key == key
    && (LastActive(c, lines[..i]) == TIGHTROPE || LastCommented(c, lines[..i]) == TIGHTROPE)
  }

  predicate MutesModel(c: Reader, lines: seq<string>, i: nat)
    requires i < |lines|
  {
    && IsMuted(c, lines, i) && c.commentedEntry(lines[i]).value.key == "model_provider"
    && LastActive(c, lines[..i]).None? && LastCommented(c, lines[..i]).None?
  }

  predicate MutesHeader(c: Reader, lines: seq<string>, i: nat)
    requires i < |lines|
  {
    c.activeSection(lines[i]).None? && c.commentedSection(lines[i]) == TIGHTROPE
  }

  lemma MutedInFront(c: Reader, lines: seq<string>, n: nat, i: nat, key: string)
    requires i < n <= |lines|
    ensures MutesKey(c, lines[..n], i, key) <==> MutesKey(c, lines, i, key)
    ensures MutesModel(c, lines[..n], i) <==> MutesModel(c, lines, i)
    ensures MutesHeader(c, lines[..n], i) <==> MutesHeader(c, lines, i)
  {
    assert lines[..n][..i] == lines[..i];
  }

  lemma {:induction false} CommentedIsLast(c: Reader, lines: seq<string>)
    ensures InspectHints(c, lines).section == LastCommented(c, lines)
  {
    if lines != [] {
      CommentedIsLast(c, lines[..|lines| - 1]);
    }
  }

  ghost predicate SomeMutesKey(c: Reader, lines: seq<string>, key: string) {
    exists i :: 0 <= i < |lines| && MutesKey(c, lines, i, key)
  }

  ghost predicate SomeMutesHeader(c: Reader, lines: seq<string>) {
    exists i :: 0 <= i < |lines| && MutesHeader(c, lines, i)
  }

  lemma SomeMutesNext(c: Reader, lines: seq<string>, key: string)
    requires lines != []
    ensures var n := |lines| - 1;
            && (SomeMutesKey(c, lines, key) <==> SomeMutesKey(c, lines[..n], key) || MutesKey(c, lines, n, key))
            && (SomeMutesHeader(c, lines) <==> SomeMutesHeader(c, lines[..n]) || MutesHeader(c, lines, n))
  {
    var n := |lines| - 1;
    forall i: nat | i < n
      ensures MutesKey(c, lines[..n], i, key) <==> MutesKey(c, lines, i, key)
      ensures MutesHeader(c, lines[..n], i) <==> MutesHeader(c, lines, i)
    {
      MutedInFront(c, lines, n, i, key);
    }
    if SomeMutesKey(c, lines[..n], key) {
      var i :| 0 <= i < n && MutesKey(c, lines[..n], i, key);
      assert MutesKey(c, lines, i, key);
    }
    if SomeMutesHeader(c, lines[..n]) {
      var i :| 0 <= i < n && MutesHeader(c, lines[..n], i);
      assert MutesHeader(c, lines, i);
    }
    if i: nat :| i < |lines| && MutesKey(c, lines, i, key) {
      assert i < n ==> MutesKey(c, lines[..n], i, key);
    }
    if i: nat :| i < |lines| && MutesHeader(c, lines, i) {
      assert i < n ==> MutesHeader(c, lines[..n], i);
    }
  }

  lemma {:induction false} MutedKeysAreSeen(c: Reader, lines: seq<string>, key: string)
    ensures key in InspectHints(c, lines).keys <==> IsRequired(key) && SomeMutesKey(c, lines, key)
    ensures InspectHints(c, lines).hasSection <==> SomeMutesHeader(c, lines)
  {
    if lines != [] {
      var front := lines[..|lines| - 1];
      MutedKeysAreSeen(c, front, key);
      HeaderIsSeen(c, front);
      CommentedIsLast(c, front);
      SomeMutesNext(c, lines, key);
    }
  }

  lemma ModelHintKept(c: Reader, lines: seq<string>)
    requires lines != [] && !MutesModel(c, lines, |lines| - 1)
    ensures InspectHints(c, lines).model == InspectHints(c, lines[..|lines| - 1]).model
  {
    HintsUnfold(c, lines);
    SectionIsLast(c, lines[..|lines| - 1]);
    CommentedIsLast(c, lines[..|lines| - 1]);
  }

  lemma ModelHintSet(c: Reader, lines: seq<string>)
    requires lines != [] && MutesModel(c, lines, |lines| - 1)
    ensures InspectHints(c, lines).model <==>
            TomlString(c.commentedEntry(lines[|lines| - 1]).value.value) == Some("tightrope")
  {
    HintsUnfold(c, lines);
    SectionIsLast(c, lines[..|lines| - 1]);
    CommentedIsLast(c, lines[..|lines| - 1]);
  }

  lemma HintsUnfold(c: Reader, lines: seq<string>)
    requires lines != []
    ensures var front := lines[..|lines| - 1];
            InspectHints(c, lines) == LookBehindHash(c, Inspect(c, BEFORE, front), InspectHints(c, front), lines[|lines| - 1])
  {
  }

  predicate MutesLast(c: Reader, lines: seq<string>, i: nat)
    requires i < |lines|
  {
    MutesModel(c, lines, i) && forall j | i < j < |lines| :: !MutesModel(c, lines, j)
  }

  lemma MutesLastInFront(c: Reader, lines: seq<string>, n: nat, i: nat)
    requires i < n <= |lines| && MutesLast(c, lines, i)
    ensures MutesLast(c, lines[..n], i)
  {
    forall j | i <= j < n
      ensures MutesModel(c, lines[..n], j) <==> MutesModel(c, lines, j)
    {
      MutedInFront(c, lines, n, j, "");
    }
  }

  lemma {:induction false} MutedModelIsSeen(c: Reader, lines: seq<string>, i: nat)
    requires i < |lines| && MutesLast(c, lines, i)
    ensures InspectHints(c, lines).model <==> TomlString(c.commentedEntry(lines[i]).value.value) == Some("tightrope")
    decreases |lines|
  {
    var n := |lines| - 1;
    if i < n {
      MutesLastInFront(c, lines, n, i);
      MutedModelIsSeen(c, lines[..n], i);
      assert !MutesModel(c, lines, n);
      ModelHintKept(c, lines);
    } else {
      ModelHintSet(c, lines);
    }
  }

  lemma {:induction false} NoMutedModel(c: Reader, lines: seq<string>)
    requires forall i | 0 <= i < |lines| :: !MutesModel(c, lines, i)
    ensures !InspectHints(c, lines).model
  {
    if lines != [] {
      var n := |lines| - 1;
      forall i | 0 <= i < n
        ensures !MutesModel(c, lines[..n], i)
      {
        MutedInFront(c, lines, n, i, "");
      }
      NoMutedModel(c, lines[..n]);
      HeaderIsSeen(c, lines[..n]);
      CommentedIsLast(c, lines[..n]);
      assert !MutesModel(c, lines, n);
    }
  }

  /** The last line that names a provider behind a hash before all sections names this one. */
  ghost predicate HintsAtProvider(c: Reader, lines: seq<string>) {
    exists i :: 0 <= i < |lines| && MutesLast(c, lines, i)
                && TomlString(c.commentedEntry(lines[i]).value.value) == Some("tightrope")
  }

  lemma {:induction false} LastMuted(c: Reader, lines: seq<string>, n: nat) returns (i: nat)
    requires n <= |lines| && (forall j | n <= j < |lines| :: !MutesModel(c, lines, j))
    requires exists j :: 0 <= j < |lines| && MutesModel(c, lines, j)
    ensures i < |lines| && MutesLast(c, lines, i)
  {
    if MutesModel(c, lines, n - 1) {
      i := n - 1;
    } else {
      i := LastMuted(c, lines, n - 1);
    }
  }

  lemma HintedModelSays(c: Reader, lines: seq<string>)
    ensures InspectHints(c, lines).model <==> HintsAtProvider(c, lines)
  {
    if exists j :: 0 <= j < |lines| && MutesModel(c, lines, j) {
      var i := LastMuted(c, lines, |lines|);
      MutedModelIsSeen(c, lines, i);
      forall j: nat | j < |lines| && MutesLast(c, lines, j)
        ensures j == i
      {
      }
    } else {
      NoMutedModel(c, lines);
    }
  }

  /** The two hints, said of the lines. */
  lemma HintsSay(c: Reader, lines: seq<string>)
    ensures var state := SetupOf(Inspect(c, BEFORE, lines), InspectHints(c, lines));
            && (state.hasCommentedProviderEntry <==> HintsAtProvider(c, lines) || SomeMutesHeader(c, lines))
            && (state.hasCommentedSettingsEntry <==> exists key :: IsRequired(key) && SomeMutesKey(c, lines, key))
  {
    var h := InspectHints(c, lines);
    HintedModelSays(c, lines);
    MutedKeysAreSeen(c, lines, "");
    forall key
      ensures key in h.keys <==> IsRequired(key) && SomeMutesKey(c, lines, key)
    {
      MutedKeysAreSeen(c, lines, key);
    }
    if h.keys != {} {
      var key :| key in h.keys;
      assert IsRequired(key) && SomeMutesKey(c, lines, key);
    }
  }

  // ---------------------------------------------------------------------------
  // What is written
  // ---------------------------------------------------------------------------

  const TABLE := [
    Entry("name", "\"OpenAI\""),
    Entry("base_url", "\"http://127.0.0.1:2455/backend-api/codex\""),
    Entry("wire_api", "\"responses\""),
    Entry("supports_websockets", "true"),
    Entry("requires_openai_auth", "true")]

  /** The lines of the settings that are not set yet, in their order. */
  function Unset(settings: seq<Entry>, present: set<string>): seq<string> {
    if settings == [] then []
    else
      var last := settings[|settings| - 1];
      Unset(settings[..|settings| - 1], present) + if last.key in present then [] else [last.key + (" = " + last.value)]
  }

  lemma TableIs()
    ensures SETTINGS == TABLE
  {
    assert BASE_URL == "\"http://127.0.0.1:2455/backend-api/codex\"";
  }

  lemma {:induction false} UnsetFrom(settings: seq<Entry>, present: set<string>)
    requires settings != []
    ensures Unset(settings, present) ==
            (if settings[0].key in present then [] else [EntryLine(settings[0])]) + Unset(settings[1..], present)
  {
    var n := |settings| - 1;
    if n == 0 {
      assert settings[..0] == [] && settings[1..] == [];
    } else {
      UnsetFrom(settings[..n], present);
      assert settings[..n][1..] == settings[1..][..n - 1];
      Assoc(if settings[0].key in present then [] else [EntryLine(settings[0])], Unset(settings[1..n], present),
            if settings[n].key in present then [] else [EntryLine(settings[n])]);
      assert settings[1..][..n - 1] == settings[1..n] && settings[1..][n - 1] == settings[n];
    }
  }

  lemma {:induction false} MissingIsUnset(settings: seq<Entry>, present: set<string>)
    ensures EntryLines(MissingOf(settings, present)) == Unset(settings, present)
  {
    if settings != [] {
      MissingIsUnset(settings[1..], present);
      UnsetFrom(settings, present);
      var rest := MissingOf(settings[1..], present);
      assert EntryLines([settings[0]] + rest) == [EntryLine(settings[0])] + EntryLines(rest);
    }
  }

  lemma {:induction false} AllUnset(settings: seq<Entry>)
    ensures EntryLines(settings) == Unset(settings, {})
  {
    if settings != [] {
      var n := |settings| - 1;
      AllUnset(settings[..n]);
      assert EntryLines(settings) == EntryLines(settings[..n]) + [EntryLine(settings[n])];
    }
  }

  lemma NoBounds(c: Reader, lines: seq<string>)
    requires forall i | 0 <= i < |lines| :: c.section(lines[i]) != Some(PROVIDER)
    ensures SectionBounds(c, lines).None?
  {
    FirstIs(lines, 0, ProviderHeader(c), |lines|);
  }

  lemma NamesAre()
    ensures PROVIDER == "model_providers.tightrope" && HEADER == "[model_providers.tightrope]"
  {
  }

  lemma TableLines()
    ensures EntryLines(SETTINGS) == Unset(TABLE, {})
  {
    TableIs();
    AllUnset(TABLE);
  }

  /** Without a section of the provider one comes at the end, behind a blank line unless there is one. */
  lemma NewSectionSays(c: Reader, lines: seq<string>)
    requires forall i | 0 <= i < |lines| :: c.section(lines[i]) != TIGHTROPE
    ensures var gap := if lines != [] && !c.blank(lines[|lines| - 1]) then [""] else [];
            UpsertSection(c, lines) == lines + (gap + (["[model_providers.tightrope]"] + Unset(TABLE, {})))
  {
    NamesAre();
    NoBounds(c, lines);
    TableLines();
  }

  /** Into the first section of the provider, at its end, go the settings it has no line for. */
  lemma OldSectionSays(c: Reader, before: seq<string>, header: string, inside: seq<string>, after: seq<string>)
    requires IsSection(c, before, header, inside, after)
    ensures UpsertSection(c, before + ([header] + (inside + after))) ==
            before + ([header] + ((inside + Unset(TABLE, KeysOf(c, inside))) + after))
  {
    TableIs();
    BoundsOf(c, before, header, inside, after);
    MissingIsUnset(TABLE, KeysOf(c, inside));
    InsertBehind(before, header, inside, after, Unset(TABLE, KeysOf(c, inside)));
  }

  /** The model line takes the place of the first there is, or comes before the first header. */
  lemma ModelPlaceSays(c: Reader, lines: seq<string>)
    ensures var i := ModelPlace(c, lines);
            if exists j :: 0 <= j < |lines| && c.model(lines[j]) then
              i < |lines| && c.model(lines[i]) && forall j | 0 <= j < i :: !c.model(lines[j])
            else
              (i < |lines| ==> c.section(lines[i]).Some?) && forall j | 0 <= j < i :: c.section(lines[j]).None?
  {
    var i := FirstFrom(lines, 0, c.model);
    if i == |lines| {
      var j := FirstFrom(lines, 0, Header(c));
      assert forall k | 0 <= k < j :: !Header(c)(lines[k]);
      assert j < |lines| ==> Header(c)(lines[j]);
    }
  }

  lemma NewLines()
    ensures UpsertModel(SOURCE, []) == ["model_provider = \"tightrope\""]
  {
    assert MODEL_LINE == "model_provider = \"tightrope\"";
  }

  const FIRST_LINE := "model_provider = \"tightrope\""

  lemma ModelLineReads(c: Reader)
    requires Sound(c)
    ensures c.section(MODEL_LINE).None? && c.key(MODEL_LINE).Some?
  {
    assert ReadsBack(c, MODEL_ENTRY);
  }

  lemma FirstLine()
    ensures SOURCE.section(FIRST_LINE).None? && !SOURCE.blank(FIRST_LINE)
  {
    SourceIsSound();
    ModelLineReads(SOURCE);
    LineIsNotBlank(MODEL_LINE);
    FirstIsModelLine();
  }

  lemma FirstIsModelLine()
    ensures MODEL_LINE == FIRST_LINE
  {
  }

  lemma AfterFirstLine()
    ensures UpsertSection(SOURCE, [FIRST_LINE]) == [FIRST_LINE, "", "[model_providers.tightrope]"] + Unset(TABLE, {})
  {
    FirstLine();
    NewSectionSays(SOURCE, [FIRST_LINE]);
    Flat(FIRST_LINE, "", "[model_providers.tightrope]", Unset(TABLE, {}));
  }

  lemma Flat(a: string, b: string, c: string, rest: seq<string>)
    ensures [a] + ([b] + ([c] + rest)) == [a, b, c] + rest
  {
  }

  /** The file written where there was none. */
  lemma NewFileSays()
    ensures Updated(SOURCE, []) == ["model_provider = \"tightrope\"", "", "[model_providers.tightrope]"] + [
              "name = \"OpenAI\"",
              "base_url = " + "\"http://127.0.0.1:2455/backend-api/codex\"",
              "wire_api = \"responses\"",
              "supports_websockets = true",
              "requires_openai_auth = true"]
  {
    NewLines();
    AfterFirstLine();
    UnsetTable();
  }

  lemma LineIsNotBlank(line: string)
    requires SOURCE.key(line).Some?
    ensures !SOURCE.blank(line)
  {
  }

  lemma UnsetTable()
    ensures Unset(TABLE, {}) == [
              "name = \"OpenAI\"",
              "base_url = " + "\"http://127.0.0.1:2455/backend-api/codex\"",
              "wire_api = \"responses\"",
              "supports_websockets = true",
              "requires_openai_auth = true"]
  {
    AllUnset(TABLE);
    assert EntryLine(TABLE[0]) == "name = \"OpenAI\"";
    Assoc("base_url", " = ", TABLE[1].value);
    assert "base_url" + " = " == "base_url = ";
    assert EntryLine(TABLE[2]) == "wire_api = \"responses\"";
    assert EntryLine(TABLE[3]) == "supports_websockets = true";
    assert EntryLine(TABLE[4]) == "requires_openai_auth = true";
  }
}
