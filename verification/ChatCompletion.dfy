/**
  The path of a chat completion that is not streamed to the client:
  collect_response_body_from_stream_events of native/proxy/src/proxy_service.cpp
  puts one response together from the events, responses_json_to_chat_completion of
  native/proxy/src/chat_completions_service.cpp turns it into a completion.
*/
module ChatCompletion {
  import opened Options
  import opened Sequences
  import opened Json
  import opened ToolCalls
  import opened ChatStream

  const ITEM_ADDED := "response.output_item.added"
  const ITEM_DONE := "response.output_item.done"

  // ---------------------------------------------------------------------------
  // Collecting the response
  // ---------------------------------------------------------------------------

  /** The values of a map in ascending order of their keys. */
  function Ordered(m: map<int, Json>): seq<Json>
    decreases |m|
  {
    if |m| == 0 then []
    else
      MaximumExists(m.Keys);
      assert exists k :: k in m.Keys && forall j | j in m.Keys :: j <= k by {
        var k :| IsMaximum(m.Keys, k);
        assert k in m.Keys && forall j | j in m.Keys :: j <= k;
      }
      var k :| k in m.Keys && forall j | j in m.Keys :: j <= k;
      Ordered(m - {k}) + [m[k]]
  }

  /** An event that files an output item under its index. */
  predicate FilesItem(event: Json) {
    && (TypeOf(event) == Some(ITEM_ADDED) || TypeOf(event) == Some(ITEM_DONE))
    && "output_index" in event.fields && event.fields["output_index"].Number?
    && "item" in event.fields && event.fields["item"].Obj?
  }

  function IndexOf(event: Json): int
    requires FilesItem(event)
  {
    Truncate(event.fields["output_index"].number)
  }

  function Filed(items: map<int, Json>, event: Json): map<int, Json> {
    if FilesItem(event) then items[IndexOf(event) := event.fields["item"]] else items
  }

  predicate EmptyOrMissing(o: Fields, key: string) {
    key in o ==> o[key].Arr? && o[key].items == []
  }

  function WithOutput(response: Fields, items: map<int, Json>): Fields {
    if EmptyOrMissing(response, "output") && items != map[] then response["output" := Arr(Ordered(items))] else response
  }

  /** The response body the events of a stream add up to, after `items` were filed. */
  function Collected(events: seq<Json>, items: map<int, Json>): Option<Json> {
    if events == [] then None
    else
      var t, rest := TypeOf(events[0]), events[1..];
      if t == Some("error") then
        if "error" in events[0].fields then Some(Obj(map["error" := events[0].fields["error"]])) else Collected(rest, items)
      else if t == Some(COMPLETED) || t == Some(INCOMPLETE) || t == Some(FAILED) then
        var response := ObjectField(events[0].fields, "response");
        if response.None? then Collected(rest, items) else Some(Obj(WithOutput(response.value, items)))
      else Collected(rest, Filed(items, events[0]))
  }

  method CollectResponseBody(events: seq<Json>) returns (body: Option<Json>)
    ensures body == Collected(events, map[])
  {
    var items: map<int, Json> := map[];
    for i := 0 to |events|
      invariant Collected(events, map[]) == Collected(events[i..], items)
    {
      var event := events[i];
      assert events[i..][0] == event && events[i..][1..] == events[i + 1..];
      if !event.Obj? {
        continue;
      }
      var o := event.fields;
      var t := StringField(o, "type");
      if t.None? {
        continue;
      }
      if t.value == "error" {
        if "error" in o {
          return Some(Obj(map["error" := o["error"]]));
        }
        continue;
      }
      if t.value == ITEM_ADDED || t.value == ITEM_DONE {
        if "output_index" in o && o["output_index"].Number? && "item" in o && o["item"].Obj? {
          items := items[Truncate(o["output_index"].number) := o["item"]];
        }
        continue;
      }
      if t.value != COMPLETED && t.value != INCOMPLETE && t.value != FAILED {
        continue;
      }
      var response := ObjectField(o, "response");
      if response.None? {
        continue;
      }
      var payload := response.value;
      if EmptyOrMissing(payload, "output") && items != map[] {
        payload := payload["output" := Arr(Ordered(items))];
      }
      return Some(Obj(payload));
    }
    body := None;
  }

  // ---------------------------------------------------------------------------
  // Turning it into a completion
  // ---------------------------------------------------------------------------

  datatype CompletedCall = CompletedCall(callId: Option<string>, name: Option<string>, arguments: Option<string>)

  /** A chat completion; every call in it is of type "function". */
  datatype Completion = Completion(
    id: string, model: string, content: Option<string>, calls: seq<CompletedCall>, reason: string, usage: Option<Json>)

  datatype Outcome = Chat(completion: Completion) | AsIs | Invalid

  predicate IsCallItem(item: Json) {
    item.Obj? && (StringField(item.fields, "type") == Some("function_call")
                  || StringField(item.fields, "type") == Some("tool_call"))
  }

  function CallOf(item: Fields): CompletedCall {
    CompletedCall(
      OrElse(StringField(item, "call_id"), OrElse(StringField(item, "id"), StringField(item, "tool_call_id"))),
      StringField(item, "name"), StringField(item, "arguments"))
  }

  function CallsOf(output: seq<Json>): seq<CompletedCall> {
    if output == [] then []
    else
      var front, last := CallsOf(output[..|output| - 1]), output[|output| - 1];
      if IsCallItem(last) then front + [CallOf(last.fields)] else front
  }

  function PartText(part: Json): string {
    if !part.Obj? then ""
    else
      var t, text := StringField(part.fields, "type"), StringField(part.fields, "text");
      if (t == Some("output_text") || t == Some("text")) && text.Some? then text.value else ""
  }

  function PartsText(parts: seq<Json>): string {
    if parts == [] then "" else PartsText(parts[..|parts| - 1]) + PartText(parts[|parts| - 1])
  }

  function ItemText(item: Json): string {
    if !item.Obj? then ""
    else if StringField(item.fields, "type") == Some("output_text") then
      var text := StringField(item.fields, "text");
      if text.Some? then text.value else ""
    else if "content" in item.fields && item.fields["content"].Arr? then PartsText(item.fields["content"].items)
    else ""
  }

  function OutputText(output: seq<Json>): string {
    if output == [] then "" else OutputText(output[..|output| - 1]) + ItemText(output[|output| - 1])
  }

  function OutputOf(response: Fields): seq<Json> {
    if "output" in response && response["output"].Arr? then response["output"].items else []
  }

  function NonEmptyOr(s: Option<string>, otherwise: string): string {
    if s.Some? && s.value != "" then s.value else otherwise
  }

  function ReasonOf(response: Fields, calls: seq<CompletedCall>): string {
    if calls != [] then "tool_calls"
    else if StringField(response, "status") == Some("incomplete") then FinishReasonFromIncomplete(Obj(response))
    else "stop"
  }

  function MappedUsage(response: Fields): Option<Json> {
    var usage := if "usage" in response then ChatUsage(response["usage"]) else Obj(map[]);
    if usage == Obj(map[]) then None else Some(usage)
  }

  /** What a body is turned into; a body that is not an object stands for one that does not parse. */
  function Completed(status: int, body: Json, model: string): Outcome {
    if status >= 400 then AsIs
    else if !body.Obj? then Invalid
    else if "error" in body.fields then AsIs
    else
      var o := body.fields;
      var text, calls := OutputText(OutputOf(o)), CallsOf(OutputOf(o));
      Chat(Completion(
        NonEmptyOr(StringField(o, "id"), "chatcmpl_temp"), NonEmptyOr(StringField(o, "model"), model),
        if text != "" || calls == [] then Some(text) else None, calls, ReasonOf(o, calls), MappedUsage(o)))
  }

  method ResponsesJsonToChatCompletion(status: int, body: Json, model: string) returns (r: Outcome)
    ensures r == Completed(status, body, model)
  {
    if status >= 400 {
      return AsIs;
    }
    if !body.Obj? {
      return Invalid;
    }
    var o := body.fields;
    if "error" in o {
      return AsIs;
    }
    var output := OutputOf(o);
    var text, calls := "", [];
    for i := 0 to |output|
      invariant text == OutputText(output[..i]) && calls == CallsOf(output[..i])
    {
      assert output[..i + 1][..i] == output[..i];
      text := text + ItemText(output[i]);
      if IsCallItem(output[i]) {
        calls := calls + [CallOf(output[i].fields)];
      }
    }
    assert output[..|output|] == output;
    var content := Some(text);
    if text == "" && calls != [] {
      content := None;
    }
    return Chat(Completion(
      NonEmptyOr(StringField(o, "id"), "chatcmpl_temp"), NonEmptyOr(StringField(o, "model"), model),
      content, calls, ReasonOf(o, calls), MappedUsage(o)));
  }
}
