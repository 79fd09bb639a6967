/**
  The configuration rewriter and the inspector of app/src/main/codexSetup.ts. The
  rewriter works by line with regular expressions of its own; the inspector reads the
  result as TOML. What they promise each other is proved in CodexAgreement.
*/
module CodexConfig {
  import opened Options
  import opened Sequences
  import opened CodexLines

  const PROVIDER := "model_providers.tightrope"
  const HEADER := "[" + (PROVIDER + "]")
  const MODEL_KEY := "model_provider"
  const MODEL_ENTRY := Entry(MODEL_KEY, "\"tightrope\"")
  const MODEL_LINE := EntryLine(MODEL_ENTRY)
  const BASE_URL := "\"http://127.0.0.1:2455" + "/backend-api/codex\""
  const SETTINGS := [
    Entry("name", "\"OpenAI\""),
    Entry("base_url", BASE_URL),
    Entry("wire_api", "\"responses\""),
    Entry("supports_websockets", "true"),
    Entry("requires_openai_auth", "true")]
  const REQUIRED := {"name", "base_url", "wire_api", "supports_websockets", "requires_openai_auth"}

  // ---------------------------------------------------------------------------
  // Texts and lines
  // ---------------------------------------------------------------------------

  /** CRLF becomes LF; a CR elsewhere stays. */
  function Normalize(t: string): string {
    if t == "" then ""
    else if |t| >= 2 && t[0] == '\r' && t[1] == '\n' then Normalize(t[1..])
    else [t[0]] + Normalize(t[1..])
  }

  function Split(t: string): (r: seq<string>)
    ensures r != []
  {
    if t == "" then [""]
    else
      var rest := Split(t[1..]);
      if t[0] == '\n' then [""] + rest else [[t[0]] + rest[0]] + rest[1..]
  }

  function Join(ls: seq<string>): string
    requires ls != []
  {
    if |ls| == 1 then ls[0] else ls[0] + ("\n" + Join(ls[1..]))
  }

  /** The lines of a file; an empty one has none. */
  function Lines(text: string): seq<string> {
    if Normalize(text) == "" then [] else Split(Normalize(text))
  }

  /**
    How single lines are read: by the rewriter (the section a header names, the key a
    line sets, whether it is blank, whether it sets the model provider) and by the
    inspector (section and entry). All that follows goes through a reader; the one the
    source uses is SOURCE.
  */
  datatype Reader = Reader(
    section: string -> Option<string>, key: string -> Option<string>, blank: string -> bool, model: string -> bool,
    activeSection: string -> Option<string>, activeEntry: string -> Option<Entry>,
    commentedSection: string -> Option<string>, commentedEntry: string -> Option<Entry>)

  const SOURCE := Reader(
    SectionAt, PresentKey, (line: string) => Trim(line) == "", (line: string) => IsKeyLine(line, MODEL_KEY),
    ActiveSection, ActiveEntry, CommentedSection, CommentedEntry)

  // ---------------------------------------------------------------------------
  // The rewriter
  // ---------------------------------------------------------------------------

  function Header(c: Reader): string -> bool {
    (line: string) => c.section(line).Some?
  }

  function ProviderHeader(c: Reader): string -> bool {
    (line: string) => c.section(line) == Some(PROVIDER)
  }

  /** The first line from `from` on with a property; the end if none has it. */
  function FirstFrom(lines: seq<string>, from: nat, p: string -> bool): (i: nat)
    requires from <= |lines|
    ensures from <= i <= |lines|
    ensures forall k | from <= k < i :: !p(lines[k])
    ensures i < |lines| ==> p(lines[i])
    decreases |lines| - from
  {
    if from == |lines| || p(lines[from]) then from else FirstFrom(lines, from + 1, p)
  }

  function Without(c: Reader, lines: seq<string>): seq<string> {
    if lines == [] then []
    else
      var front, last := Without(c, lines[..|lines| - 1]), lines[|lines| - 1];
      if c.model(last) then front else front + [last]
  }

  function Inserted(lines: seq<string>, at: nat, more: seq<string>): seq<string>
    requires at <= |lines|
  {
    lines[..at] + (more + lines[at..])
  }

  /** The first model-provider line is replaced and the others go; if there is none, one comes before the first section. */
  function UpsertModel(c: Reader, lines: seq<string>): (r: seq<string>)
    ensures r != []
  {
    var i := FirstFrom(lines, 0, c.model);
    if i == |lines| then Inserted(lines, FirstFrom(lines, 0, Header(c)), [MODEL_LINE])
    else lines[..i] + ([MODEL_LINE] + Without(c, lines[i + 1..]))
  }

  datatype Bounds = Bounds(start: nat, end: nat)

  /** The first section of the provider: from its header to the next header of any section. */
  function SectionBounds(c: Reader, lines: seq<string>): (r: Option<Bounds>)
    ensures r.Some? ==> r.value.start < r.value.end <= |lines|
  {
    var s := FirstFrom(lines, 0, ProviderHeader(c));
    if s == |lines| then None else Some(Bounds(s, FirstFrom(lines, s + 1, Header(c))))
  }

  /** The keys lines set, whatever their values. */
  function KeysOf(c: Reader, lines: seq<string>): set<string> {
    set l | l in lines && c.key(l).Some? :: c.key(l).value
  }

  function MissingOf(settings: seq<Entry>, present: set<string>): seq<Entry> {
    if settings == [] then []
    else
      var rest := MissingOf(settings[1..], present);
      if settings[0].key in present then rest else [settings[0]] + rest
  }

  function EntryLines(entries: seq<Entry>): (r: seq<string>)
    ensures |r| == |entries| && forall i | 0 <= i < |r| :: r[i] == EntryLine(entries[i])
  {
    seq(|entries|, i requires 0 <= i < |entries| => EntryLine(entries[i]))
  }

  function KeysInSection(c: Reader, lines: seq<string>, b: Bounds): set<string>
    requires b.start < b.end <= |lines|
  {
    KeysOf(c, lines[b.start + 1..b.end])
  }

  /** A blank line between what is there and a new section. */
  function Gap(c: Reader, lines: seq<string>): seq<string> {
    if lines != [] && !c.blank(lines[|lines| - 1]) then [""] else []
  }

  function UpsertSection(c: Reader, lines: seq<string>): seq<string> {
    var b := SectionBounds(c, lines);
    if b.None? then lines + (Gap(c, lines) + ([HEADER] + EntryLines(SETTINGS)))
    else Inserted(lines, b.value.end, EntryLines(MissingOf(SETTINGS, KeysInSection(c, lines, b.value))))
  }

  lemma SectionNotEmpty(c: Reader, lines: seq<string>)
    requires lines != []
    ensures UpsertSection(c, lines) != []
  {
  }

  function Updated(c: Reader, lines: seq<string>): (r: seq<string>)
    ensures r != []
  {
    SectionNotEmpty(c, UpsertModel(c, lines));
    UpsertSection(c, UpsertModel(c, lines))
  }

  /** Exactly one line end more unless there is one. */
  function WithLineEnd(t: string): (r: string)
    ensures r != "" && r[|r| - 1] == '\n' && t <= r
    ensures |r| == if t != "" && t[|t| - 1] == '\n' then |t| else |t| + 1
  {
    if t != "" && t[|t| - 1] == '\n' then t else t + "\n"
  }

  /** The rewritten file. */
  function Build(text: string): string
  {
    WithLineEnd(Join(Updated(SOURCE, Lines(text))))
  }

  lemma {:induction false} WithoutConcat(c: Reader, a: seq<string>, b: seq<string>)
    ensures Without(c, a + b) == Without(c, a) + Without(c, b)
  {
    if b == [] {
      Units(a);
      Units(Without(c, a));
    } else {
      var front, last := b[..|b| - 1], b[|b| - 1];
      assert (a + b)[..|a + b| - 1] == a + front;
      WithoutConcat(c, a, front);
      Assoc(Without(c, a), Without(c, front), [last]);
    }
  }

  lemma {:induction false} NothingToDrop(c: Reader, lines: seq<string>)
    requires forall i | 0 <= i < |lines| :: !c.model(lines[i])
    ensures Without(c, lines) == lines
  {
    if lines != [] {
      NothingToDrop(c, lines[..|lines| - 1]);
    }
  }

  lemma FirstIs(lines: seq<string>, from: nat, p: string -> bool, i: nat)
    requires from <= i <= |lines| && (i < |lines| ==> p(lines[i])) && forall k | from <= k < i :: !p(lines[k])
    ensures FirstFrom(lines, from, p) == i
  {
  }

  /** The lines kept so far by the loop below, before and after the first model-provider line. */
  function Kept(c: Reader, lines: seq<string>): seq<string> {
    var i := FirstFrom(lines, 0, c.model);
    if i == |lines| then lines else lines[..i] + ([MODEL_LINE] + Without(c, lines[i + 1..]))
  }

  lemma KeptForm(c: Reader, lines: seq<string>, i: nat)
    requires i < |lines| && c.model(lines[i]) && forall k | 0 <= k < i :: !c.model(lines[k])
    ensures FirstFrom(lines, 0, c.model) == i
    ensures Kept(c, lines) == lines[..i] + ([MODEL_LINE] + Without(c, lines[i + 1..]))
  {
  }

  lemma Longer(lines: seq<string>, line: string, i: nat)
    requires i < |lines|
    ensures (lines + [line])[i + 1..] == lines[i + 1..] + [line] && (lines + [line])[..i] == lines[..i]
  {
  }

  lemma KeptAfter(c: Reader, lines: seq<string>, line: string)
    requires FirstFrom(lines, 0, c.model) < |lines|
    ensures Kept(c, lines + [line]) == if c.model(line) then Kept(c, lines) else Kept(c, lines) + [line]
    ensures FirstFrom(lines + [line], 0, c.model) < |lines| + 1
  {
    var i := FirstFrom(lines, 0, c.model);
    KeptForm(c, lines, i);
    KeptForm(c, lines + [line], i);
    Longer(lines, line, i);
    WithoutConcat(c, lines[i + 1..], [line]);
    WithoutOne(c, line);
    Regroup(lines[..i], [MODEL_LINE], Without(c, lines[i + 1..]), if c.model(line) then [] else [line]);
  }

  lemma Regroup(a: seq<string>, b: seq<string>, d: seq<string>, e: seq<string>)
    ensures a + (b + (d + e)) == (a + (b + d)) + e
    ensures e == [] ==> a + (b + (d + e)) == a + (b + d)
  {
    Assoc(b, d, e);
    Assoc(a, b + d, e);
  }

  lemma WithoutOne(c: Reader, line: string)
    ensures Without(c, [line]) == if c.model(line) then [] else [line]
  {
    assert [line][..0] == [];
  }

  lemma KeptBefore(c: Reader, lines: seq<string>, line: string)
    requires FirstFrom(lines, 0, c.model) == |lines|
    ensures Kept(c, lines + [line]) == Kept(c, lines) + [if c.model(line) then MODEL_LINE else line]
    ensures FirstFrom(lines + [line], 0, c.model) < |lines| + 1 <==> c.model(line)
  {
    var more := lines + [line];
    FirstIs(more, 0, c.model, if c.model(line) then |lines| else |more|);
    if c.model(line) {
      assert more[..|lines|] == lines && more[|lines| + 1..] == [];
      Units([MODEL_LINE]);
    }
  }

  lemma KeptNext(c: Reader, lines: seq<string>, line: string)
    ensures var seen := FirstFrom(lines, 0, c.model) < |lines|;
            && Kept(c, lines + [line]) ==
                 (if !c.model(line) then Kept(c, lines) + [line]
                  else if seen then Kept(c, lines) else Kept(c, lines) + [MODEL_LINE])
            && (FirstFrom(lines + [line], 0, c.model) < |lines| + 1 <==> seen || c.model(line))
  {
    if FirstFrom(lines, 0, c.model) < |lines| {
      KeptAfter(c, lines, line);
    } else {
      KeptBefore(c, lines, line);
    }
  }

  /** Once all lines are seen: what is kept is the result, or all lines are and the new one is still to come. */
  lemma KeptIsUpserted(c: Reader, lines: seq<string>)
    ensures if FirstFrom(lines, 0, c.model) < |lines| then Kept(c, lines) == UpsertModel(c, lines)
            else Kept(c, lines) == lines
                 && UpsertModel(c, lines) == Inserted(lines, FirstFrom(lines, 0, Header(c)), [MODEL_LINE])
  {
  }

  method UpsertModelProvider(c: Reader, lines: seq<string>) returns (updated: seq<string>)
    ensures updated == UpsertModel(c, lines)
  {
    updated := [];
    var seen := false;
    for i := 0 to |lines|
      invariant updated == Kept(c, lines[..i])
      invariant seen <==> FirstFrom(lines[..i], 0, c.model) < i
    {
      var line := lines[i];
      KeptNext(c, lines[..i], line);
      assert lines[..i + 1] == lines[..i] + [line];
      if !c.model(line) {
        updated := updated + [line];
        continue;
      }
      if !seen {
        updated := updated + [MODEL_LINE];
        seen := true;
      }
    }
    assert lines[..|lines|] == lines;
    KeptIsUpserted(c, lines);
    if seen {
      return;
    }
    var insertAt := FirstHeader(c, updated);
    updated := updated[..insertAt] + ([MODEL_LINE] + updated[insertAt..]);
  }

  method FirstHeader(c: Reader, lines: seq<string>) returns (i: nat)
    ensures i <= |lines| && i == FirstFrom(lines, 0, Header(c))
  {
    i := 0;
    while i < |lines| && c.section(lines[i]).None?
      invariant 0 <= i <= |lines|
      invariant forall k | 0 <= k < i :: !Header(c)(lines[k])
    {
      i := i + 1;
    }
    FirstIs(lines, 0, Header(c), i);
  }

  method FindSectionBounds(c: Reader, lines: seq<string>) returns (r: Option<Bounds>)
    ensures r == SectionBounds(c, lines)
  {
    var start := -1;
    for i := 0 to |lines|
      invariant start == -1 ==> forall k | 0 <= k < i :: !ProviderHeader(c)(lines[k])
      invariant start != -1 ==>
                  0 <= start < i && ProviderHeader(c)(lines[start]) && (forall k | 0 <= k < start :: !ProviderHeader(c)(lines[k]))
                  && forall k | start < k < i :: !Header(c)(lines[k])
    {
      var current := c.section(lines[i]);
      if current.None? {
        continue;
      }
      if start == -1 {
        if current.value == PROVIDER {
          start := i;
        }
        continue;
      }
      FirstIs(lines, 0, ProviderHeader(c), start);
      FirstIs(lines, start + 1, Header(c), i);
      return Some(Bounds(start, i));
    }
    FirstIs(lines, 0, ProviderHeader(c), if start == -1 then |lines| else start);
    if start == -1 {
      return None;
    }
    FirstIs(lines, start + 1, Header(c), |lines|);
    r := Some(Bounds(start, |lines|));
  }

  method UpsertTightropeProviderSection(c: Reader, lines: seq<string>) returns (updated: seq<string>)
    ensures updated == UpsertSection(c, lines)
  {
    var bounds := FindSectionBounds(c, lines);
    if bounds.None? {
      updated := lines;
      if |updated| > 0 && !c.blank(updated[|updated| - 1]) {
        updated := updated + [""];
      }
      Assoc(lines, Gap(c, lines), [HEADER] + EntryLines(SETTINGS));
      Units(lines);
      updated := updated + ([HEADER] + EntryLines(SETTINGS));
      return;
    }
    var b := bounds.value;
    var present := PresentKeys(c, lines, b);
    var missing := MissingOf(SETTINGS, present);
    if missing == [] {
      Halves(lines, b.end);
      Units(lines[b.end..]);
      return lines;
    }
    updated := lines[..b.end] + (EntryLines(missing) + lines[b.end..]);
  }

  method PresentKeys(c: Reader, lines: seq<string>, b: Bounds) returns (present: set<string>)
    requires b.start < b.end <= |lines|
    ensures present == KeysInSection(c, lines, b)
  {
    present := {};
    for i := b.start + 1 to b.end
      invariant present == KeysOf(c, lines[b.start + 1..i])
    {
      assert lines[b.start + 1..i + 1] == lines[b.start + 1..i] + [lines[i]];
      KeysOfConcat(c, lines[b.start + 1..i], [lines[i]]);
      var key := c.key(lines[i]);
      if key.None? {
        continue;
      }
      present := present + {key.value};
    }
  }

  lemma KeysOfConcat(c: Reader, a: seq<string>, b: seq<string>)
    ensures KeysOf(c, a + b) == KeysOf(c, a) + KeysOf(c, b)
  {
    assert forall l :: l in a + b <==> l in a || l in b;
  }

  // ---------------------------------------------------------------------------
  // The inspector
  // ---------------------------------------------------------------------------

  /** What the inspector has seen. */
  datatype View = View(section: Option<string>, provider: Option<string>, hasSection: bool, keys: set<string>)

  const BEFORE := View(None, None, false, {})

  function Look(c: Reader, v: View, line: string): View {
    var section, entry := c.activeSection(line), c.activeEntry(line);
    if section.Some? then v.(section := section, hasSection := v.hasSection || section == Some(PROVIDER))
    else if entry.None? then v
    else v.(
      provider := if v.section.None? && entry.value.key == MODEL_KEY then TomlString(entry.value.value) else v.provider,
      keys := if v.section == Some(PROVIDER) && entry.value.key in REQUIRED then v.keys + {entry.value.key} else v.keys)
  }

  function Inspect(c: Reader, v: View, lines: seq<string>): View {
    if lines == [] then v else Look(c, Inspect(c, v, lines[..|lines| - 1]), lines[|lines| - 1])
  }

  predicate IsConfigured(v: View) {
    v.provider == Some("tightrope") && v.hasSection && REQUIRED <= v.keys
  }

  /** What it has seen commented out. */
  datatype Hints = Hints(section: Option<string>, model: bool, hasSection: bool, keys: set<string>)

  const NO_HINTS := Hints(None, false, false, {})

  function LookBehindHash(c: Reader, v: View, h: Hints, line: string): Hints {
    var section, entry := c.commentedSection(line), c.commentedEntry(line);
    if c.activeSection(line).Some? then h.(section := None)
    else if section.Some? then h.(section := section, hasSection := h.hasSection || section == Some(PROVIDER))
    else if c.activeEntry(line).Some? || entry.None? then h
    else h.(
      model := if v.section.None? && h.section.None? && entry.value.key == MODEL_KEY
               then TomlString(entry.value.value) == Some("tightrope") else h.model,
      keys := if (v.section == Some(PROVIDER) || h.section == Some(PROVIDER)) && entry.value.key in REQUIRED
              then h.keys + {entry.value.key} else h.keys)
  }

  function InspectHints(c: Reader, lines: seq<string>): Hints {
    if lines == [] then NO_HINTS
    else
      var front := lines[..|lines| - 1];
      LookBehindHash(c, Inspect(c, BEFORE, front), InspectHints(c, front), lines[|lines| - 1])
  }

  datatype SetupState = SetupState(configured: bool, hasCommentedProviderEntry: bool, hasCommentedSettingsEntry: bool)

  function SetupOf(v: View, h: Hints): SetupState {
    SetupState(IsConfigured(v), h.model || h.hasSection, h.keys != {})
  }

  /** The inspector's verdict on a text. */
  predicate Configured(text: string) {
    IsConfigured(Inspect(SOURCE, BEFORE, Split(Normalize(text))))
  }

  method InspectLines(c: Reader, lines: seq<string>) returns (state: SetupState)
    requires forall line :: c.commentedSection(line).Some? ==> c.activeSection(line).None? && c.activeEntry(line).None?
    ensures state == SetupOf(Inspect(c, BEFORE, lines), InspectHints(c, lines))
  {
    var section, provider, commentedSection: Option<string> := None, None, None;
    var hasSection, hasCommentedModel, hasCommentedSection := false, false, false;
    var keys, commentedKeys: set<string> := {}, {};
    for i := 0 to |lines|
      invariant Inspect(c, BEFORE, lines[..i]) == View(section, provider, hasSection, keys)
      invariant InspectHints(c, lines[..i]) == Hints(commentedSection, hasCommentedModel, hasCommentedSection, commentedKeys)
    {
      var line := lines[i];
      assert lines[..i + 1][..i] == lines[..i];
      var active := c.activeSection(line);
      if active.Some? {
        section, commentedSection := active, None;
        if section.value == PROVIDER {
          hasSection := true;
        }
        continue;
      }
      var commented := c.commentedSection(line);
      if commented.Some? {
        commentedSection := commented;
        if commentedSection.value == PROVIDER {
          hasCommentedSection := true;
        }
        continue;
      }
      var entry := c.activeEntry(line);
      if entry.Some? {
        if section.None? && entry.value.key == MODEL_KEY {
          provider := TomlString(entry.value.value);
        }
        if section == Some(PROVIDER) && entry.value.key in REQUIRED {
          keys := keys + {entry.value.key};
        }
        continue;
      }
      var commentedEntry := c.commentedEntry(line);
      if commentedEntry.None? {
        continue;
      }
      if section.None? && commentedSection.None? && commentedEntry.value.key == MODEL_KEY {
        hasCommentedModel := TomlString(commentedEntry.value.value) == Some("tightrope");
      }
      if (section == Some(PROVIDER) || commentedSection == Some(PROVIDER)) && commentedEntry.value.key in REQUIRED {
        commentedKeys := commentedKeys + {commentedEntry.value.key};
      }
    }
    assert lines[..|lines|] == lines;
    state := SetupState(
      provider == Some("tightrope") && hasSection && REQUIRED <= keys,
      hasCommentedModel || hasCommentedSection, commentedKeys != {});
  }

  lemma CommentedIsNotActive()
    ensures forall line :: SOURCE.commentedSection(line).Some? ==>
              SOURCE.activeSection(line).None? && SOURCE.activeEntry(line).None?
  {
    forall line
      ensures SOURCE.commentedSection(line).Some? ==> SOURCE.activeSection(line).None? && SOURCE.activeEntry(line).None?
    {
      CommentedIsInactive(line);
    }
  }

  method InspectTightropeSetup(text: string) returns (state: SetupState)
    ensures state == SetupOf(Inspect(SOURCE, BEFORE, Split(Normalize(text))), InspectHints(SOURCE, Split(Normalize(text))))
    ensures state.configured <==> Configured(text)
  {
    CommentedIsNotActive();
    state := InspectLines(SOURCE, Split(Normalize(text)));
  }

  method BuildUpdatedConfig(text: string) returns (updated: string)
    ensures updated == Build(text)
  {
    var withModel := UpsertModelProvider(SOURCE, Lines(text));
    var withSection := UpsertTightropeProviderSection(SOURCE, withModel);
    updated := EnsureLineEnd(Join(withSection));
  }

  method EnsureLineEnd(joined: string) returns (updated: string)
    ensures updated == WithLineEnd(joined)
  {
    if joined != "" && joined[|joined| - 1] == '\n' {
      return joined;
    }
    updated := joined + "\n";
  }
}
