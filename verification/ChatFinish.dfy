/**
  What the end of a chat completion says, streamed or collected, read off the response
  it stems from.
*/
module ChatFinish {
  import opened Options
  import opened Sequences
  import opened Json
  import opened ToolCalls
  import opened ChatStream
  import opened ChatCompletion

  // ---------------------------------------------------------------------------
  // What a response says
  // ---------------------------------------------------------------------------

  /** Why a response says it is incomplete. */
  function ReasonGiven(response: Json): Option<string> {
    if response.Obj? && "incomplete_details" in response.fields && response.fields["incomplete_details"].Obj? then
      StringField(response.fields["incomplete_details"].fields, "reason")
    else None
  }

  /** The finish reason for it. */
  predicate FinishesFor(reason: string, given: Option<string>) {
    && (reason == "length" <==> given == Some("max_output_tokens") || given == Some("max_tokens"))
    && (reason == "content_filter" <==> given == Some("content_filter"))
    && (reason == "stop" <==> reason != "length" && reason != "content_filter")
  }

  predicate Copies(m: Fields, key: string, source: Fields, sourceKey: string) {
    (key in m <==> sourceKey in source) && (key in m ==> m[key] == source[sourceKey])
  }

  /** The usage of a chat completion is that of the response, under the names a chat client knows. */
  predicate IsUsageOf(usage: Json, response: Fields) {
    var given: Fields := if "usage" in response && response["usage"].Obj? then response["usage"].fields else map[];
    && usage.Obj? && usage.fields.Keys <= {"prompt_tokens", "completion_tokens", "total_tokens"}
    && Copies(usage.fields, "prompt_tokens", given, "input_tokens")
    && Copies(usage.fields, "completion_tokens", given, "output_tokens")
    && Copies(usage.fields, "total_tokens", given, "total_tokens")
  }

  predicate IsIdOf(id: string, response: Fields) {
    if "id" in response && response["id"].Str? && response["id"].text != "" then id == response["id"].text
    else id == "chatcmpl_temp"
  }

  function ResponseIn(event: Json): Fields {
    if event.Obj? && "response" in event.fields && event.fields["response"].Obj? then event.fields["response"].fields
    else map[]
  }

  // ---------------------------------------------------------------------------
  // Streamed
  // ---------------------------------------------------------------------------

  predicate IsCompletion(event: Json) {
    TypeOf(event) == Some(COMPLETED) || TypeOf(event) == Some(INCOMPLETE)
  }

  /** Where the finish chunk of a finished stream stands. */
  function FinishAt(out: seq<Chunk>, includeUsage: bool): int {
    |out| - if includeUsage then 3 else 2
  }

  /** The state a terminal event is handled in. */
  function Before(events: seq<Json>, event: Json, includeUsage: bool): State {
    var s := Run(events, includeUsage);
    if DeltaOf(s, event).Some? then AfterTool(s, DeltaOf(s, event).value) else s
  }

  lemma UsageIsGiven(response: Fields)
    ensures IsUsageOf(ChatUsage(if "usage" in response then response["usage"] else Obj(map[])), response)
  {
  }

  lemma UsageOfEvent(event: Json)
    requires event.Obj?
    ensures IsUsageOf(FinalUsage(event.fields), ResponseIn(event)) && IsIdOf(FinalId(event.fields), ResponseIn(event))
  {
    UsageIsGiven(ResponseIn(event));
  }

  lemma IncompleteSays(response: Json)
    ensures FinishesFor(FinishReasonFromIncomplete(response), ReasonGiven(response))
  {
  }

  lemma BeforeIsOpen(events: seq<Json>, event: Json, includeUsage: bool)
    requires !Run(events, includeUsage).ended
    ensures Open(Before(events, event, includeUsage))
  {
    RunShape(events, includeUsage);
    var s := Run(events, includeUsage);
    if DeltaOf(s, event).Some? {
      AfterToolOpen(s, DeltaOf(s, event).value);
    }
  }

  lemma TerminalStep(events: seq<Json>, event: Json, includeUsage: bool)
    requires !Run(events, includeUsage).ended && TypeOf(event).Some? && TypeOf(event).value != TEXT_DELTA
    requires !IsStale(Run(events, includeUsage), event)
    ensures Run(events + [event], includeUsage) ==
            AfterTerminal(Before(events, event, includeUsage), event.fields, TypeOf(event).value, includeUsage)
  {
    RunOneMore(events, event, includeUsage);
  }

  lemma NoCallsBehind(body: seq<Chunk>, end: seq<Chunk>)
    requires forall i | 0 <= i < |end| :: !end[i].ToolCall?
    ensures HasToolCall(body + end) <==> HasToolCall(body)
  {
    var out := body + end;
    if i :| 0 <= i < |body| && body[i].ToolCall? {
      assert out[i].ToolCall?;
    }
  }

  /** The chunks a completion event ends a stream with. */
  lemma EndOf(s: State, event: Json, includeUsage: bool)
    requires Open(s) && IsCompletion(event)
    ensures var o, incomplete := event.fields, TypeOf(event) == Some(INCOMPLETE);
            var out := AfterTerminal(s, o, TypeOf(event).value, includeUsage).out;
            var n := FinishAt(out, includeUsage);
            && n == |s.out| && out[..n] == s.out && out[|out| - 1] == Done
            && out[n] == Finish(FinalId(o), FinalReason(s.sawTool, o, incomplete))
            && (includeUsage ==> out[n + 1] == Usage(FinalId(o), FinalUsage(o)))
            && (s.sawTool <==> HasToolCall(out))
  {
    var o, incomplete := event.fields, TypeOf(event) == Some(INCOMPLETE);
    var usage := if includeUsage then [Usage(FinalId(o), FinalUsage(o))] else [];
    NoCallsBehind(s.out, [Finish(FinalId(o), FinalReason(s.sawTool, o, incomplete))] + usage + [Done]);
  }

  /** The reason a finish gives, from the event it stems from. */
  predicate IsReasonOf(reason: string, called: bool, event: Json) {
    if called then reason == "tool_calls"
    else if TypeOf(event) == Some(INCOMPLETE) then FinishesFor(reason, ReasonGiven(Obj(ResponseIn(event))))
    else reason == "stop"
  }

  /** A stream that ends with the finish, the usage if asked for, and [DONE] of a completion event. */
  predicate EndsAs(out: seq<Chunk>, event: Json, includeUsage: bool) {
    var n := FinishAt(out, includeUsage);
    && 0 <= n < |out| - 1 && out[|out| - 1].Done?
    && out[n].Finish? && IsIdOf(out[n].id, ResponseIn(event)) && IsReasonOf(out[n].reason, HasToolCall(out), event)
    && (includeUsage ==>
          out[n + 1].Usage? && out[n + 1].id == out[n].id && IsUsageOf(out[n + 1].usage, ResponseIn(event)))
  }

  lemma StateEnds(s: State, event: Json, includeUsage: bool)
    requires Open(s) && IsCompletion(event)
    ensures EndsAs(AfterTerminal(s, event.fields, TypeOf(event).value, includeUsage).out, event, includeUsage)
  {
    EndOf(s, event, includeUsage);
    UsageOfEvent(event);
    ReasonOfEvent(s.sawTool, event);
  }

  /**
    How every finished stream ends, from the event that finished it: the finish chunk has
    the id of its response and says "tool_calls" after any tool chunk, else what the
    response gives as the reason of its incompleteness, else "stop"; the usage chunk, if
    asked for, has the same id and the response's usage; [DONE] comes last.
  */
  lemma FinishSays(events: seq<Json>, event: Json, includeUsage: bool)
    requires !Run(events, includeUsage).ended && IsCompletion(event) && !IsStale(Run(events, includeUsage), event)
    ensures EndsAs(Translate(events + [event], includeUsage), event, includeUsage)
  {
    BeforeIsOpen(events, event, includeUsage);
    TerminalStep(events, event, includeUsage);
    EndedByCompletion(Before(events, event, includeUsage), event, includeUsage);
    StateEnds(Before(events, event, includeUsage), event, includeUsage);
  }

  lemma EndedByCompletion(s: State, event: Json, includeUsage: bool)
    requires IsCompletion(event)
    ensures AfterTerminal(s, event.fields, TypeOf(event).value, includeUsage).ended
  {
  }

  lemma ReasonOfEvent(sawTool: bool, event: Json)
    requires IsCompletion(event)
    ensures IsReasonOf(FinalReason(sawTool, event.fields, TypeOf(event) == Some(INCOMPLETE)), sawTool, event)
  {
    if "response" in event.fields {
      IncompleteSays(event.fields["response"]);
    }
  }

  function Told(code: string, message: string): Json {
    Obj(map["code" := Str(code), "message" := Str(message), "type" := Str("server_error")])
  }

  /** What a failure event says went wrong: for response.failed the error of its response, for error its own. */
  predicate IsErrorOf(error: Json, event: Json) {
    var holder := if TypeOf(event) == Some("error") then event.fields else ResponseIn(event);
    error == if "error" in holder then holder["error"] else Told("upstream_error", "Upstream error")
  }

  /** A stream that fails passes the error on, and says [DONE]. */
  lemma FailureSays(events: seq<Json>, event: Json, includeUsage: bool)
    requires !Run(events, includeUsage).ended && (TypeOf(event) == Some(FAILED) || TypeOf(event) == Some("error"))
    requires !IsStale(Run(events, includeUsage), event)
    ensures var out := Translate(events + [event], includeUsage);
            && |out| >= 2 && out[|out| - 1].Done?
            && out[|out| - 2].Failure? && IsErrorOf(out[|out| - 2].error, event)
  {
    TerminalStep(events, event, includeUsage);
    ErrorIs(event);
    FailureEnds(Before(events, event, includeUsage), event, includeUsage);
  }

  lemma FailureEnds(s: State, event: Json, includeUsage: bool)
    requires TypeOf(event) == Some(FAILED) || TypeOf(event) == Some("error")
    ensures var t := AfterTerminal(s, event.fields, TypeOf(event).value, includeUsage);
            t.ended && t.out == s.out + [Failure(FailureOf(event.fields, TypeOf(event) == Some(FAILED))), Done]
  {
  }

  lemma ToldIs(code: string, message: string)
    ensures ErrorObject(code, message) == Told(code, message)
  {
    assert ErrorObject(code, message).fields == Told(code, message).fields;
  }

  lemma ErrorIs(event: Json)
    requires TypeOf(event) == Some(FAILED) || TypeOf(event) == Some("error")
    ensures IsErrorOf(FailureOf(event.fields, TypeOf(event) == Some(FAILED)), event)
  {
    assert FAILED[0] == 'r' && "error"[0] == 'e';
    ToldIs("upstream_error", "Upstream error");
  }

  /** A stream that just stops is told to be cut short. */
  lemma CutShortSays(events: seq<Json>, includeUsage: bool)
    requires !Run(events, includeUsage).ended
    ensures Translate(events, includeUsage) ==
            Run(events, includeUsage).out + [Failure(Told("upstream_error", "Upstream stream was incomplete")), Done]
  {
    ToldIs("upstream_error", "Upstream stream was incomplete");
  }

  // ---------------------------------------------------------------------------
  // Before the end
  // ---------------------------------------------------------------------------

  predicate IsTerminal(event: Json) {
    var t := TypeOf(event);
    t == Some("response.completed") || t == Some("response.incomplete") || t == Some("response.failed") || t == Some("error")
  }

  lemma TypesSay()
    ensures TEXT_DELTA == "response.output_text.delta"
    ensures COMPLETED == "response.completed" && INCOMPLETE == "response.incomplete" && FAILED == "response.failed"
    ensures |COMPLETED| == 18 && |INCOMPLETE| == 19 && |FAILED| == 15 && |TEXT_DELTA| == 26 && |"error"| == 5
  {
  }

  lemma TextIsNotTerminal(event: Json)
    requires TypeOf(event) == Some(TEXT_DELTA)
    ensures !IsTerminal(event)
  {
    TypesSay();
  }

  lemma StepEnds(s: State, event: Json, includeUsage: bool)
    requires !s.ended
    ensures Step(s, event, includeUsage).ended <==> IsTerminal(event) && !IsStale(s, event)
  {
    TypesSay();
    if TypeOf(event) == Some(TEXT_DELTA) {
      TextIsNotTerminal(event);
    }
  }

  ghost predicate EndsWith(events: seq<Json>, i: nat, includeUsage: bool)
    requires i < |events|
  {
    IsTerminal(events[i]) && !IsStale(Run(events[..i], includeUsage), events[i])
  }

  /** A stream is ended by completion and failure events and nothing else, unless these are stale. */
  lemma {:induction false} EndedIff(events: seq<Json>, includeUsage: bool)
    ensures Run(events, includeUsage).ended <==> exists i: nat :: i < |events| && EndsWith(events, i, includeUsage)
  {
    if events != [] {
      var n := |events| - 1;
      var front := events[..n];
      EndedIff(front, includeUsage);
      assert forall i: nat | i < n :: front[..i] == events[..i];
      assert forall i: nat | i < n :: EndsWith(front, i, includeUsage) <==> EndsWith(events, i, includeUsage);
      if !Run(front, includeUsage).ended {
        StepEnds(Run(front, includeUsage), events[n], includeUsage);
        assert Run(events, includeUsage).ended <==> EndsWith(events, n, includeUsage);
      }
    }
  }

  /** What any event adds before the end: its text, or what is new of its tool call, with the role if it comes first. */
  function Adds(s: State, event: Json): seq<Chunk> {
    var t := TypeOf(event);
    if t.None? then []
    else if t == Some("response.output_text.delta") then
      var text := StringField(event.fields, "delta");
      [Content(s.out == [], if text.Some? then text.value else "")]
    else
      var d := DeltaOf(s, event);
      if d.None? || Outgoing(s.calls, d.value).None? then [] else [ToolCall(s.out == [], Outgoing(s.calls, d.value).value)]
  }

  lemma TerminalAdds(s: State, event: Json, includeUsage: bool)
    requires TypeOf(event).Some?
    ensures var t := AfterTerminal(s, event.fields, TypeOf(event).value, includeUsage);
            s.out <= t.out && (!IsTerminal(event) ==> t == s)
  {
    TypesSay();
  }

  lemma ToolAdds(s: State, event: Json)
    requires Open(s) && DeltaOf(s, event).Some?
    ensures var out := Outgoing(s.calls, DeltaOf(s, event).value);
            AfterTool(s, DeltaOf(s, event).value).out ==
            s.out + if out.None? then [] else [ToolCall(s.out == [], out.value)]
  {
  }

  lemma StepAdds(s: State, event: Json, includeUsage: bool)
    requires Open(s)
    ensures s.out + Adds(s, event) <= Step(s, event, includeUsage).out
    ensures !IsTerminal(event) || IsStale(s, event) ==> Step(s, event, includeUsage).out == s.out + Adds(s, event)
  {
    if TypeOf(event).Some? && TypeOf(event).value != TEXT_DELTA {
      var d := DeltaOf(s, event);
      if d.Some? {
        ToolAdds(s, event);
      }
      TerminalAdds(if d.Some? then AfterTool(s, d.value) else s, event, includeUsage);
    } else if TypeOf(event).Some? {
      TextIsNotTerminal(event);
    }
  }

  lemma EventSays(events: seq<Json>, event: Json, includeUsage: bool)
    requires !Run(events, includeUsage).ended
    ensures var s, out := Run(events, includeUsage), Run(events + [event], includeUsage).out;
            && s.out + Adds(s, event) <= out
            && (!IsTerminal(event) || IsStale(s, event) ==> out == s.out + Adds(s, event))
  {
    RunShape(events, includeUsage);
    RunOneMore(events, event, includeUsage);
    StepAdds(Run(events, includeUsage), event, includeUsage);
  }

  // ---------------------------------------------------------------------------
  // Collected
  // ---------------------------------------------------------------------------

  /** The same of a collected completion, and when there is one at all. */
  lemma CompletionSays(status: int, body: Json, model: string)
    ensures var r := Completed(status, body, model);
            && (r.AsIs? <==> status >= 400 || (body.Obj? && "error" in body.fields))
            && (r.Invalid? <==> status < 400 && !body.Obj?)
            && (r.Chat? ==>
                  var c, o := r.completion, body.fields;
                  && IsIdOf(c.id, o)
                  && c.model == (if "model" in o && o["model"].Str? && o["model"].text != "" then o["model"].text else model)
                  && (if c.calls != [] then c.reason == "tool_calls"
                      else if StringField(o, "status") == Some("incomplete") then FinishesFor(c.reason, ReasonGiven(body))
                      else c.reason == "stop")
                  && (if c.content.Some? then c.content.value else "") == OutputText(OutputOf(o))
                  && (c.content.None? ==> c.calls != []) && (c.content == Some("") ==> c.calls == [])
                  && (c.usage.Some? ==> IsUsageOf(c.usage.value, o) && c.usage.value != Obj(map[]))
                  && (c.usage.None? ==> IsUsageOf(Obj(map[]), o)))
  {
    if body.Obj? {
      UsageIsGiven(body.fields);
      IncompleteSays(body);
    }
  }

  // ---------------------------------------------------------------------------
  // Items of the output
  // ---------------------------------------------------------------------------

  /** A part of a message: some text, or something else. */
  datatype ContentPart = TextPart(kind: string, text: string) | OtherPart(part: Json)

  predicate IsContentPart(p: ContentPart) {
    match p
    case TextPart(kind, _) => kind == "output_text" || kind == "text"
    case OtherPart(part) =>
      part.Obj? ==> StringField(part.fields, "type") != Some("output_text") && StringField(part.fields, "type") != Some("text")
  }

  function AsJson(p: ContentPart): Json {
    match p
    case TextPart(kind, text) => Obj(map["type" := Str(kind), "text" := Str(text)])
    case OtherPart(part) => part
  }

  function PartsOf(parts: seq<ContentPart>): (r: seq<Json>)
    ensures |r| == |parts| && forall i | 0 <= i < |r| :: r[i] == AsJson(parts[i])
  {
    seq(|parts|, i requires 0 <= i < |parts| => AsJson(parts[i]))
  }

  function TextIn(parts: seq<ContentPart>): string {
    if parts == [] then ""
    else TextIn(parts[..|parts| - 1]) + if parts[|parts| - 1].TextPart? then parts[|parts| - 1].text else ""
  }

  lemma PartSays(p: ContentPart)
    requires IsContentPart(p)
    ensures PartText(AsJson(p)) == if p.TextPart? then p.text else ""
  {
  }

  lemma {:induction false} PartsSay(parts: seq<ContentPart>)
    requires forall i | 0 <= i < |parts| :: IsContentPart(parts[i])
    ensures PartsText(PartsOf(parts)) == TextIn(parts)
  {
    if parts != [] {
      var n := |parts| - 1;
      PartsSay(parts[..n]);
      PartSays(parts[n]);
      assert PartsOf(parts)[..n] == PartsOf(parts[..n]);
    }
  }

  /** A message is read as the texts among its parts, in order; a bare text item as its text. */
  lemma MessageIsRead(kind: string, parts: seq<ContentPart>, text: string)
    requires kind != "output_text" && forall i | 0 <= i < |parts| :: IsContentPart(parts[i])
    ensures ItemText(Obj(map["type" := Str(kind), "content" := Arr(PartsOf(parts))])) == TextIn(parts)
    ensures ItemText(Obj(map["type" := Str("output_text"), "text" := Str(text)])) == text
  {
    PartsSay(parts);
    ContentIsRead(kind, PartsOf(parts));
  }

  lemma ContentIsRead(kind: string, parts: seq<Json>)
    requires kind != "output_text"
    ensures ItemText(Obj(map["type" := Str(kind), "content" := Arr(parts)])) == PartsText(parts)
  {
  }

  /** A call is read with its call_id, else its id, else its tool_call_id. */
  lemma CallIsRead(item: Fields, model: string)
    requires StringField(item, "type") == Some("function_call") || StringField(item, "type") == Some("tool_call")
    ensures var r := Completed(200, Obj(map["output" := Arr([Obj(item)])]), model);
            && r.Chat? && |r.completion.calls| == 1 && r.completion.reason == "tool_calls"
            && var c := r.completion.calls[0];
            && c.callId == (if StringField(item, "call_id").Some? then StringField(item, "call_id")
                            else if StringField(item, "id").Some? then StringField(item, "id")
                            else StringField(item, "tool_call_id"))
            && c.name == StringField(item, "name") && c.arguments == StringField(item, "arguments")
  {
    var output := [Obj(item)];
    assert output[..0] == [];
    assert CallsOf(output) == [CallOf(item)];
  }

  /** The calls of an output are those of its call items, in order, and of no others. */
  lemma CallsSay(output: seq<Json>, item: Json)
    ensures CallsOf(output + [item]) ==
            CallsOf(output) +
            if item.Obj? && (StringField(item.fields, "type") == Some("function_call") || StringField(item.fields, "type") == Some("tool_call"))
            then [CallOf(item.fields)] else []
  {
    Undo(output, [item]);
  }
}
