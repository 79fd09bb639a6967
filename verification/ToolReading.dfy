/** Where in an event each part of a tool-call delta is found, and what becomes of the others. */
module ToolReading {
  import opened Options
  import opened Sequences
  import opened Json
  import opened ToolCalls

  // ---------------------------------------------------------------------------
  // Places in an event
  // ---------------------------------------------------------------------------

  /** The object under a key, if there is one. */
  function Inside(o: Option<Fields>, key: string): Option<Fields> {
    if o.Some? && key in o.value && o.value[key].Obj? then Some(o.value[key].fields) else None
  }

  function TextAt(o: Option<Fields>, key: string): Option<string> {
    if o.Some? && key in o.value && o.value[key].Str? then Some(o.value[key].text) else None
  }

  function NotEmpty(s: Option<string>): Option<string> {
    if s == Some("") then None else s
  }

  /** The first source that says anything. */
  function FirstOf(sources: seq<Option<string>>): Option<string> {
    if sources == [] then None else if sources[0].Some? then sources[0] else FirstOf(sources[1..])
  }

  /** A text occurs in another. */
  ghost predicate Occurs(part: string, s: string) {
    exists before, after :: s == before + part + after
  }

  ghost predicate OccursAt(part: string, s: Option<string>) {
    s.Some? && Occurs(part, s.value)
  }

  predicate HasAny(o: Fields, keys: set<string>) {
    exists k | k in keys :: k in o
  }

  /** An item that is about a tool call. */
  ghost predicate IsAboutTool(item: Fields) {
    || OccursAt("tool", TextAt(Some(item), "type")) || OccursAt("function", TextAt(Some(item), "type"))
    || HasAny(item, {"call_id", "tool_call_id", "arguments", "function", "name"})
  }

  ghost predicate HasToolItem(o: Fields) {
    Inside(Some(o), "item").Some? && IsAboutTool(Inside(Some(o), "item").value)
  }

  /** An event that is about a tool call. */
  ghost predicate SpeaksOfTool(o: Fields) {
    || OccursAt("tool_call", TextAt(Some(o), "type")) || OccursAt("function_call", TextAt(Some(o), "type"))
    || HasToolItem(o) || HasAny(o, {"call_id", "tool_call_id"})
    || ("arguments" in o && HasAny(o, {"name", "function"}))
  }

  /** Where to look: the item if it is about a tool call, else the event itself. */
  ghost function Subject(o: Fields): Fields {
    if HasToolItem(o) then Inside(Some(o), "item").value else o
  }

  // ---------------------------------------------------------------------------
  // What is read
  // ---------------------------------------------------------------------------

  lemma ContainsSays(s: string, part: string)
    ensures Contains(s, part) <==> Occurs(part, s)
  {
    if Contains(s, part) {
      var i :| 0 <= i <= |s| && part <= s[i..];
      assert s == s[..i] + part + s[i..][|part|..];
    }
    if Occurs(part, s) {
      var before, after :| s == before + part + after;
      assert s[|before|..] == part + after;
    }
  }

  lemma ItemSays(item: Fields)
    ensures IsToolItem(item) <==> IsAboutTool(item)
  {
    var t := StringField(item, "type");
    if t.Some? {
      ContainsSays(t.value, "tool");
      ContainsSays(t.value, "function");
    }
    assert ContainsToolFields(item) <==> HasAny(item, {"call_id", "tool_call_id", "arguments", "function", "name"});
  }

  lemma EventSays(o: Fields)
    ensures IsToolCallEvent(o) <==> SpeaksOfTool(o)
    ensures Candidate(o) == Subject(o)
  {
    var t, item := StringField(o, "type"), ObjectField(o, "item");
    if t.Some? {
      ContainsSays(t.value, "tool_call");
      ContainsSays(t.value, "function_call");
    }
    if item.Some? {
      ItemSays(item.value);
    }
  }

  lemma Unfolded(a: Option<string>, rest: seq<Option<string>>)
    ensures FirstOf([a] + rest) == if a.Some? then a else FirstOf(rest)
    ensures FirstNonEmpty([a] + rest) == if Filled(a) then a else FirstNonEmpty(rest)
  {
    assert ([a] + rest)[1..] == rest;
  }

  lemma OfTwo(a: Option<string>, b: Option<string>)
    ensures FirstOf([a, b]) == OrElse(a, b)
    ensures FirstNonEmpty([a, b]) == OrElse(NotEmpty(a), NotEmpty(b))
  {
    Unfolded(b, []);
    Unfolded(a, [b]);
    assert [b] + [] == [b] && [a] + [b] == [a, b];
  }

  lemma OfThree(a: Option<string>, b: Option<string>, c: Option<string>)
    ensures FirstOf([a, b, c]) == OrElse(a, OrElse(b, c))
    ensures FirstNonEmpty([a, b, c]) == OrElse(NotEmpty(a), OrElse(NotEmpty(b), NotEmpty(c)))
  {
    OfTwo(b, c);
    Unfolded(a, [b, c]);
    assert [a] + [b, c] == [a, b, c];
  }

  lemma {:induction false} Appended(a: seq<Option<string>>, b: seq<Option<string>>)
    ensures FirstOf(a + b) == OrElse(FirstOf(a), FirstOf(b))
    decreases |a|
  {
    if a == [] {
      Units(b);
    } else {
      Appended(a[1..], b);
      assert (a + b)[1..] == a[1..] + b;
    }
  }

  /** The sources of a call's id, in the order they are asked. */
  function IdSources(c: Fields, d: Option<Fields>): seq<Option<string>> {
    [NotEmpty(TextAt(Some(c), "call_id")), NotEmpty(TextAt(Some(c), "tool_call_id")), NotEmpty(TextAt(Some(c), "id")),
     NotEmpty(TextAt(d, "id")), NotEmpty(TextAt(d, "call_id")), NotEmpty(TextAt(d, "tool_call_id"))]
  }

  function NameSources(c: Fields, d: Option<Fields>): seq<Option<string>> {
    [NotEmpty(TextAt(Some(c), "name")), NotEmpty(TextAt(Some(c), "tool_name")),
     TextAt(d, "name"), TextAt(Inside(Some(c), "function"), "name"), TextAt(Inside(d, "function"), "name")]
  }

  function ArgumentSources(c: Fields, d: Option<Fields>): seq<Option<string>> {
    [TextAt(Some(c), "arguments"), NotEmpty(TextAt(Some(c), "delta")),
     TextAt(d, "arguments"), TextAt(Inside(d, "function"), "arguments")]
  }

  lemma IdSays(c: Fields, d: Option<Fields>)
    ensures ReadCallId(c, d) == FirstOf(IdSources(c, d))
  {
    var s := IdSources(c, d);
    OfThree(StringField(c, "call_id"), StringField(c, "tool_call_id"), StringField(c, "id"));
    if d.Some? {
      OfThree(StringField(d.value, "id"), StringField(d.value, "call_id"), StringField(d.value, "tool_call_id"));
    }
    OfThree(s[0], s[1], s[2]);
    OfThree(s[3], s[4], s[5]);
    Appended([s[0], s[1], s[2]], [s[3], s[4], s[5]]);
    assert s == [s[0], s[1], s[2]] + [s[3], s[4], s[5]];
  }

  lemma NameSays(c: Fields, d: Option<Fields>)
    ensures ReadName(c, d) == FirstOf(NameSources(c, d))
  {
    var s := NameSources(c, d);
    OfTwo(StringField(c, "name"), StringField(c, "tool_name"));
    OfTwo(s[0], s[1]);
    OfThree(s[2], s[3], s[4]);
    Appended([s[0], s[1]], [s[2], s[3], s[4]]);
    assert s == [s[0], s[1]] + [s[2], s[3], s[4]];
  }

  lemma ArgumentsSay(c: Fields)
    ensures ReadArguments(c, ObjectField(c, "delta")) == FirstOf(ArgumentSources(c, ObjectField(c, "delta")))
  {
    var d := ObjectField(c, "delta");
    var s := ArgumentSources(c, d);
    Unfolded(StringField(c, "delta"), []);
    assert [StringField(c, "delta")] + [] == [StringField(c, "delta")];
    OfTwo(s[0], s[1]);
    OfTwo(s[2], s[3]);
    Appended([s[0], s[1]], [s[2], s[3]]);
    assert s == [s[0], s[1]] + [s[2], s[3]];
  }

  /** How arguments are meant: pieces to append, or all of them so far; unknown of none. */
  ghost predicate IsModeOf(mode: Mode, o: Fields, c: Fields, arguments: Option<string>) {
    var t := TextAt(Some(o), "type");
    if !Filled(arguments) then mode == Unknown
    else if t == Some("response.function_call_arguments.delta") then mode == Increment
    else if t == Some("response.function_call_arguments.done") then mode == Snapshot
    else if t.Some? && "response.output_item." <= t.value then mode == Snapshot
    else if OccursAt(".delta", t) then mode == Increment
    else if OccursAt(".done", t) then mode == Snapshot
    else mode == (if "delta" in c then Increment else Snapshot)
  }

  lemma ModeSays(o: Fields, c: Fields, arguments: Option<string>)
    ensures IsModeOf(InferMode(o, c, arguments), o, c, arguments)
  {
    var t := StringField(o, "type");
    if t.Some? {
      ContainsSays(t.value, ".delta");
      ContainsSays(t.value, ".done");
    }
  }

  /** The type of a call, if it is not the event's: tool calls and function calls are functions. */
  predicate IsTypeOf(toolType: Option<string>, c: Fields) {
    var t := FirstOf([NotEmpty(TextAt(Some(c), "tool_type")), NotEmpty(TextAt(Some(c), "type"))]);
    if t.None? || "response." <= t.value then toolType == None
    else if t.value in {"tool_call", "function_call"} then toolType == Some("function")
    else toolType == t
  }

  lemma TypeSays(c: Fields)
    ensures IsTypeOf(ReadToolType(c), c)
  {
    OfTwo(StringField(c, "tool_type"), StringField(c, "type"));
    OfTwo(NotEmpty(StringField(c, "tool_type")), NotEmpty(StringField(c, "type")));
    assert "tool_call"[0] != "response."[0] && "function_call"[0] != "response."[0];
  }

  /**
    What is read from any event: something, exactly if it is about a tool call and some
    source has an id, a name or arguments; and then of each the first source that has it.
  */
  lemma ReadSays(event: Json)
    ensures if !event.Obj? || !SpeaksOfTool(event.fields) then Read(event).None?
            else
              var c := Subject(event.fields);
              var d := Inside(Some(c), "delta");
              var id, name, arguments := FirstOf(IdSources(c, d)), FirstOf(NameSources(c, d)), FirstOf(ArgumentSources(c, d));
              && (Read(event).None? <==> id.None? && name.None? && arguments.None?)
              && (Read(event).Some? ==>
                    var r := Read(event).value;
                    && r.callId == id && r.name == name && r.arguments == arguments
                    && IsModeOf(r.mode, event.fields, c, arguments) && IsTypeOf(r.toolType, c))
  {
    if event.Obj? {
      var o := event.fields;
      EventSays(o);
      var c := Candidate(o);
      var d := ObjectField(c, "delta");
      IdSays(c, d);
      NameSays(c, d);
      ArgumentsSay(c);
      ModeSays(o, c, ReadArguments(c, d));
      TypeSays(c);
    }
  }

  // ---------------------------------------------------------------------------
  // What the server holds of a call
  // ---------------------------------------------------------------------------

  /** The last id said of a call. */
  function LastId(deltas: seq<Delta>, i: nat): Option<string> {
    if deltas == [] then None
    else
      var last := deltas[|deltas| - 1];
      if last.index == i && NotEmpty(last.what.callId).Some? then last.what.callId else LastId(deltas[..|deltas| - 1], i)
  }

  function LastName(deltas: seq<Delta>, i: nat): Option<string> {
    if deltas == [] then None
    else
      var last := deltas[|deltas| - 1];
      if last.index == i && NotEmpty(last.what.name).Some? then last.what.name else LastName(deltas[..|deltas| - 1], i)
  }

  /** Its arguments: pieces are appended, all that is said otherwise replaces what was said before. */
  function Said(deltas: seq<Delta>, i: nat): string {
    if deltas == [] then ""
    else
      var front, last := Said(deltas[..|deltas| - 1], i), deltas[|deltas| - 1];
      if last.index != i || NotEmpty(last.what.arguments).None? then front
      else if last.what.mode == Increment then front + last.what.arguments.value
      else last.what.arguments.value
  }

  /** Its type, "function" until another is said. */
  function LastType(deltas: seq<Delta>, i: nat): string {
    if deltas == [] then "function"
    else
      var last := deltas[|deltas| - 1];
      if last.index == i && NotEmpty(last.what.toolType).Some? then last.what.toolType.value
      else LastType(deltas[..|deltas| - 1], i)
  }

  /** What goes out of a delta names its call, and its type as it is then. */
  lemma TypeGoesOut(deltas: seq<Delta>, d: Delta)
    ensures var out := Outgoing(Serve(deltas).calls, d);
            out.Some? ==> out.value.index == d.index && out.value.what.toolType == Some(LastType(deltas + [d], d.index))
  {
    var all := deltas + [d];
    assert all[..|all| - 1] == deltas;
    ServerSays(deltas, d.index);
  }

  /** After any stream of deltas the server has of each call the last id, name and type, and the arguments as said. */
  lemma {:induction false} ServerSays(deltas: seq<Delta>, i: nat)
    ensures var call := CallAt(Serve(deltas).calls, i);
            && call.callId == LastId(deltas, i) && call.name == LastName(deltas, i)
            && call.arguments == Said(deltas, i) && call.toolType == LastType(deltas, i)
  {
    if deltas != [] {
      var n := |deltas| - 1;
      ServerSays(deltas[..n], i);
      MergedAt(Serve(deltas[..n]).calls, deltas[n], i);
    }
  }
}
