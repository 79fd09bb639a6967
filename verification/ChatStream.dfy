/**
  responses_events_to_chat_events of native/proxy/src/chat_completions_service.cpp:
  the stream of a response turned into the stream of a chat completion. Chunks are
  kept structured; their constant members (object, model, creation time, choice
  index) are left out. An event that is not a JSON object stands for one that does
  not parse.
*/
module ChatStream {
  import opened Options
  import opened Sequences
  import opened Json
  import opened ToolCalls

  datatype Chunk =
    | Content(role: bool, text: string)
    | ToolCall(role: bool, call: Delta)
    | Finish(id: string, reason: string)
    | Usage(id: string, usage: Json)
    | Failure(error: Json)
    | Done

  const TEXT_DELTA := "response.output_text.delta"
  const COMPLETED := "response.completed"
  const INCOMPLETE := "response.incomplete"
  const FAILED := "response.failed"

  function ErrorObject(code: string, message: string): Json {
    Obj(map["message" := Str(message), "type" := Str("server_error"), "code" := Str(code)])
  }

  const CUT_SHORT := Failure(ErrorObject("upstream_error", "Upstream stream was incomplete"))

  function TypeOf(event: Json): Option<string> {
    if event.Obj? then StringField(event.fields, "type") else None
  }

  function FinishReasonFromIncomplete(response: Json): (r: string)
    ensures r == "stop" || r == "length" || r == "content_filter"
  {
    if !response.Obj? then "stop"
    else
      var details := ObjectField(response.fields, "incomplete_details");
      if details.None? then "stop"
      else
        var reason := StringField(details.value, "reason");
        if reason == Some("max_output_tokens") || reason == Some("max_tokens") then "length"
        else if reason == Some("content_filter") then "content_filter"
        else "stop"
  }

  function ChatUsage(usage: Json): Json {
    if !usage.Obj? then Obj(map[])
    else
      var u := usage.fields;
      var i: Fields := if "input_tokens" in u then map["prompt_tokens" := u["input_tokens"]] else map[];
      var o: Fields := if "output_tokens" in u then map["completion_tokens" := u["output_tokens"]] else map[];
      var t: Fields := if "total_tokens" in u then map["total_tokens" := u["total_tokens"]] else map[];
      Obj(i + o + t)
  }

  // ---------------------------------------------------------------------------
  // One event
  // ---------------------------------------------------------------------------

  datatype State = State(sentRole: bool, sawTool: bool, index: Index, calls: seq<Call>, out: seq<Chunk>, ended: bool)

  const START := State(false, false, EMPTY_INDEX, [], [], false)

  function Add(s: State, chunks: seq<Chunk>): State {
    s.(out := s.out + chunks)
  }

  /** The delta an event carries, numbered by the calls seen so far. */
  function DeltaOf(s: State, event: Json): Option<Delta> {
    var r := Read(event);
    if r.None? then None else Some(Delta(Lookup(s.index, KeyOf(r.value.callId, r.value.name)), r.value))
  }

  function AfterTool(s: State, d: Delta): State {
    var t := s.(index := Register(s.index, KeyOf(d.what.callId, d.what.name)), calls := Merged(s.calls, d));
    var out := Outgoing(s.calls, d);
    if out.None? then t
    else Add(t, [ToolCall(!s.sentRole, out.value)]).(sentRole := true, sawTool := true)
  }

  /** What a failure event says went wrong. */
  function FailureOf(o: Fields, failed: bool): Json {
    var holder := if failed then ObjectField(o, "response") else Some(o);
    if holder.Some? && "error" in holder.value then holder.value["error"]
    else ErrorObject("upstream_error", "Upstream error")
  }

  function FinalId(o: Fields): string {
    var response := ObjectField(o, "response");
    var id := if response.Some? then StringField(response.value, "id") else None;
    if id.Some? && id.value != "" then id.value else "chatcmpl_temp"
  }

  function FinalUsage(o: Fields): Json {
    var response := ObjectField(o, "response");
    if response.Some? && "usage" in response.value then ChatUsage(response.value["usage"]) else Obj(map[])
  }

  function FinalReason(sawTool: bool, o: Fields, incomplete: bool): string {
    if sawTool then "tool_calls"
    else if incomplete && "response" in o then FinishReasonFromIncomplete(o["response"])
    else "stop"
  }

  function AfterTerminal(s: State, o: Fields, kind: string, includeUsage: bool): State {
    if kind == FAILED || kind == "error" then
      Add(s, [Failure(FailureOf(o, kind == FAILED)), Done]).(ended := true)
    else if kind == COMPLETED || kind == INCOMPLETE then
      var usage := if includeUsage then [Usage(FinalId(o), FinalUsage(o))] else [];
      Add(s, [Finish(FinalId(o), FinalReason(s.sawTool, o, kind == INCOMPLETE))] + usage + [Done]).(ended := true)
    else s
  }

  function Step(s: State, event: Json, includeUsage: bool): State {
    var t := TypeOf(event);
    if s.ended || t.None? then s
    else if t.value == TEXT_DELTA then
      var text := StringField(event.fields, "delta");
      Add(s, [Content(!s.sentRole, if text.Some? then text.value else "")]).(sentRole := true)
    else
      var d := DeltaOf(s, event);
      if d.Some? && Outgoing(s.calls, d.value).None? then AfterTool(s, d.value)
      else AfterTerminal(if d.Some? then AfterTool(s, d.value) else s, event.fields, t.value, includeUsage)
  }

  function Run(events: seq<Json>, includeUsage: bool): State {
    if events == [] then START
    else Step(Run(events[..|events| - 1], includeUsage), events[|events| - 1], includeUsage)
  }

  /** The chat stream of an event list. */
  function Translate(events: seq<Json>, includeUsage: bool): seq<Chunk> {
    var s := Run(events, includeUsage);
    if s.ended then s.out else s.out + [CUT_SHORT, Done]
  }

  lemma RunNext(events: seq<Json>, n: nat, includeUsage: bool)
    requires n < |events|
    ensures Run(events[..n + 1], includeUsage) == Step(Run(events[..n], includeUsage), events[n], includeUsage)
  {
    assert events[..n + 1][..n] == events[..n];
  }

  /** Nothing after the terminal event matters. */
  lemma {:induction false} EndIsFinal(events: seq<Json>, n: nat, includeUsage: bool)
    requires n <= |events| && Run(events[..n], includeUsage).ended
    ensures Run(events, includeUsage) == Run(events[..n], includeUsage)
    decreases |events| - n
  {
    if n == |events| {
      assert events[..n] == events;
    } else {
      RunNext(events, n, includeUsage);
      EndIsFinal(events, n + 1, includeUsage);
    }
  }

  /** The two terminal branches of the loop below. */
  method AppendTerminal(
    ghost s: State, before: seq<Chunk>, sawTool: bool, o: Fields, kind: string, includeUsage: bool)
    returns (out: seq<Chunk>, ended: bool)
    requires s.out == before && s.sawTool == sawTool && !s.ended
    ensures AfterTerminal(s, o, kind, includeUsage) == s.(out := out, ended := ended)
  {
    out, ended := before, false;
    if kind == FAILED || kind == "error" {
      out, ended := out + [Failure(FailureOf(o, kind == FAILED)), Done], true;
    } else if kind == COMPLETED || kind == INCOMPLETE {
      var last := [Finish(FinalId(o), FinalReason(sawTool, o, kind == INCOMPLETE))];
      if includeUsage {
        last := last + [Usage(FinalId(o), FinalUsage(o))];
      }
      Units([last[0]]);
      out, ended := out + (last + [Done]), true;
    }
  }

  /** One turn of the loop below. */
  method HandleEvent(
    ghost s: State, event: Json, toolIndex: ToolCallIndex, tools: ToolCallList,
    sentRole: bool, sawTool: bool, before: seq<Chunk>, includeUsage: bool)
    returns (role: bool, saw: bool, out: seq<Chunk>, ended: bool)
    requires s == State(sentRole, sawTool, toolIndex.View(), tools.calls, before, false)
    modifies toolIndex, tools
    ensures Step(s, event, includeUsage) == State(role, saw, toolIndex.View(), tools.calls, out, ended)
  {
    role, saw, out, ended := sentRole, sawTool, before, false;
    if !event.Obj? {
      return;
    }
    var o := event.fields;
    var t := StringField(o, "type");
    if t.None? {
      return;
    }
    if t.value == TEXT_DELTA {
      var text := StringField(o, "delta");
      out := out + [Content(!role, if text.Some? then text.value else "")];
      role := true;
      return;
    }
    ghost var now := s;
    var r := Read(event);
    if r.Some? {
      var index := toolIndex.IndexFor(r.value.callId, r.value.name);
      var outgoing := tools.Merge(Delta(index, r.value));
      if outgoing.None? {
        return;
      }
      out := out + [ToolCall(!role, outgoing.value)];
      role, saw := true, true;
      now := AfterTool(s, Delta(index, r.value));
    }
    out, ended := AppendTerminal(now, out, saw, o, t.value, includeUsage);
  }

  method ResponsesEventsToChatEvents(events: seq<Json>, includeUsage: bool) returns (out: seq<Chunk>)
    ensures out == Translate(events, includeUsage)
  {
    out := [];
    var sentRole, sawTool, ended := false, false, false;
    var toolIndex := new ToolCallIndex();
    var tools := new ToolCallList();
    for i := 0 to |events|
      invariant fresh(toolIndex) && fresh(tools)
      invariant Run(events[..i], includeUsage) == State(sentRole, sawTool, toolIndex.View(), tools.calls, out, false)
    {
      RunNext(events, i, includeUsage);
      sentRole, sawTool, out, ended := HandleEvent(
        Run(events[..i], includeUsage), events[i], toolIndex, tools, sentRole, sawTool, out, includeUsage);
      if ended {
        EndIsFinal(events, i + 1, includeUsage);
        return;
      }
    }
    assert events[..|events|] == events;
    out := out + [CUT_SHORT, Done];
  }

  // ---------------------------------------------------------------------------
  // The shape of every stream
  // ---------------------------------------------------------------------------

  predicate IsPiece(c: Chunk) {
    c.Content? || c.ToolCall?
  }

  /** Content and tool chunks, with the role on the first alone. */
  predicate IsBody(out: seq<Chunk>) {
    forall i | 0 <= i < |out| :: IsPiece(out[i]) && (out[i].role <==> i == 0)
  }

  predicate HasToolCall(out: seq<Chunk>) {
    exists i | 0 <= i < |out| :: out[i].ToolCall?
  }

  predicate IsEnding(end: seq<Chunk>, called: bool, includeUsage: bool) {
    || (|end| == 2 && end[0].Failure? && end[1].Done?)
    || (&& |end| == (if includeUsage then 3 else 2) && end[0].Finish? && end[|end| - 1].Done?
        && (includeUsage ==> end[1].Usage?)
        && (end[0].reason == "tool_calls" <==> called))
  }

  /** `k` splits a stream into its body and its ending. */
  predicate SplitsAt(out: seq<Chunk>, k: nat, includeUsage: bool)
    requires k <= |out|
  {
    IsBody(out[..k]) && IsEnding(out[k..], HasToolCall(out[..k]), includeUsage)
  }

  ghost predicate WellShaped(out: seq<Chunk>, includeUsage: bool) {
    exists k | 0 <= k <= |out| :: SplitsAt(out, k, includeUsage)
  }

  /** What every open state keeps. */
  predicate Open(s: State) {
    !s.ended && IsBody(s.out) && (s.sentRole <==> s.out != []) && (s.sawTool <==> HasToolCall(s.out))
  }

  lemma BodyGrows(s: State, c: Chunk)
    requires Open(s) && IsPiece(c) && c.role == !s.sentRole
    ensures Open(Add(s, [c]).(sentRole := true, sawTool := s.sawTool || c.ToolCall?))
  {
    var out := s.out + [c];
    assert out[..|s.out|] == s.out;
    if c.ToolCall? {
      assert out[|s.out|].ToolCall?;
    }
    if HasToolCall(s.out) {
      var i :| 0 <= i < |s.out| && s.out[i].ToolCall?;
      assert out[i].ToolCall?;
    }
  }

  lemma Closes(s: State, end: seq<Chunk>, includeUsage: bool)
    requires Open(s) && IsEnding(end, s.sawTool, includeUsage)
    ensures WellShaped(s.out + end, includeUsage)
  {
    Undo(s.out, end);
    assert SplitsAt(s.out + end, |s.out|, includeUsage);
  }

  lemma AfterToolOpen(s: State, d: Delta)
    requires Open(s)
    ensures Open(AfterTool(s, d))
  {
    var out := Outgoing(s.calls, d);
    if out.Some? {
      BodyGrows(s, ToolCall(!s.sentRole, out.value));
    }
  }

  lemma AfterTerminalShape(s: State, o: Fields, kind: string, includeUsage: bool)
    requires Open(s)
    ensures var t := AfterTerminal(s, o, kind, includeUsage);
            if t.ended then WellShaped(t.out, includeUsage) else Open(t)
  {
    if kind == FAILED || kind == "error" {
      Closes(s, [Failure(FailureOf(o, kind == FAILED)), Done], includeUsage);
    } else if kind == COMPLETED || kind == INCOMPLETE {
      var usage := if includeUsage then [Usage(FinalId(o), FinalUsage(o))] else [];
      Closes(s, [Finish(FinalId(o), FinalReason(s.sawTool, o, kind == INCOMPLETE))] + usage + [Done], includeUsage);
    }
  }

  lemma StepShape(s: State, event: Json, includeUsage: bool)
    requires Open(s)
    ensures var t := Step(s, event, includeUsage);
            if t.ended then WellShaped(t.out, includeUsage) else Open(t)
  {
    var kind := TypeOf(event);
    if kind.Some? {
      if kind.value == TEXT_DELTA {
        var text := StringField(event.fields, "delta");
        BodyGrows(s, Content(!s.sentRole, if text.Some? then text.value else ""));
      } else {
        var d := DeltaOf(s, event);
        if d.Some? {
          AfterToolOpen(s, d.value);
          AfterTerminalShape(AfterTool(s, d.value), event.fields, kind.value, includeUsage);
        } else {
          AfterTerminalShape(s, event.fields, kind.value, includeUsage);
        }
      }
    }
  }

  lemma {:induction false} RunShape(events: seq<Json>, includeUsage: bool)
    ensures var s := Run(events, includeUsage);
            if s.ended then WellShaped(s.out, includeUsage) else Open(s)
  {
    if events != [] {
      var front := events[..|events| - 1];
      RunShape(front, includeUsage);
      if !Run(front, includeUsage).ended {
        StepShape(Run(front, includeUsage), events[|events| - 1], includeUsage);
      }
    }
  }

  /**
    Every stream, whatever the events: pieces with the role on the first alone, then
    either a failure and [DONE] or a finish, the usage if asked for, and [DONE]; the
    finish says "tool_calls" exactly when a tool call went out.
  */
  lemma EveryStreamIsWellShaped(events: seq<Json>, includeUsage: bool)
    ensures WellShaped(Translate(events, includeUsage), includeUsage)
  {
    RunShape(events, includeUsage);
    var s := Run(events, includeUsage);
    if !s.ended {
      Closes(s, [CUT_SHORT, Done], includeUsage);
    }
  }

  lemma BodyAt(out: seq<Chunk>, k: nat)
    requires k <= |out| && IsBody(out[..k])
    ensures forall i | 0 <= i < k :: IsPiece(out[i]) && (out[i].role <==> i == 0)
  {
    assert forall i | 0 <= i < k :: out[i] == out[..k][i];
  }

  lemma EndingAt(out: seq<Chunk>, k: nat, called: bool, includeUsage: bool)
    requires k <= |out| && IsEnding(out[k..], called, includeUsage)
    ensures |out| >= 2 && forall i | k <= i < |out| :: out[i].Done? <==> i == |out| - 1
    ensures forall i | k <= i < |out| :: !IsPiece(out[i])
    ensures forall i | k <= i < |out| && out[i].Finish? :: i == k && (out[i].reason == "tool_calls" <==> called)
  {
    assert forall i | k <= i < |out| :: out[i] == out[k..][i - k];
  }

  lemma CallsInBody(out: seq<Chunk>, k: nat)
    requires k <= |out| && forall i | k <= i < |out| :: !IsPiece(out[i])
    ensures HasToolCall(out) <==> HasToolCall(out[..k])
  {
    if i :| 0 <= i < |out| && out[i].ToolCall? {
      assert out[..k][i].ToolCall?;
    }
    if i :| 0 <= i < k && out[..k][i].ToolCall? {
      assert out[i].ToolCall?;
    }
  }

  /** Reading a well-shaped stream: [DONE] comes last and only there, one chunk at most finishes it. */
  lemma ShapeMeans(out: seq<Chunk>, includeUsage: bool)
    requires WellShaped(out, includeUsage)
    ensures |out| >= 2 && forall i | 0 <= i < |out| :: out[i].Done? <==> i == |out| - 1
    ensures forall i, j | 0 <= i < j < |out| :: !(out[i].Finish? && out[j].Finish?)
    ensures forall i | 0 <= i < |out| && IsPiece(out[i]) :: out[i].role <==> i == 0
    ensures forall i | 0 <= i < |out| && out[i].Finish? :: out[i].reason == "tool_calls" <==> HasToolCall(out)
  {
    var k :| 0 <= k <= |out| && SplitsAt(out, k, includeUsage);
    BodyAt(out, k);
    EndingAt(out, k, HasToolCall(out[..k]), includeUsage);
    CallsInBody(out, k);
  }

  // ---------------------------------------------------------------------------
  // The tool calls of a stream
  // ---------------------------------------------------------------------------

  /** The delta an event makes the translator merge. */
  function MergedBy(s: State, event: Json): Option<Delta> {
    if s.ended || TypeOf(event).None? || TypeOf(event).value == TEXT_DELTA then None else DeltaOf(s, event)
  }

  /** The deltas an event list makes the translator merge. */
  function Deltas(events: seq<Json>, includeUsage: bool): seq<Delta> {
    if events == [] then []
    else
      var front, last := events[..|events| - 1], events[|events| - 1];
      var s := Run(front, includeUsage);
      Deltas(front, includeUsage) + Sent(MergedBy(s, last))
  }

  function Keys(deltas: seq<Delta>): (r: seq<Option<string>>)
    ensures |r| == |deltas|
    ensures forall i | 0 <= i < |deltas| :: r[i] == KeyOf(deltas[i].what.callId, deltas[i].what.name)
  {
    seq(|deltas|, i requires 0 <= i < |deltas| => KeyOf(deltas[i].what.callId, deltas[i].what.name))
  }

  function CallsSent(out: seq<Chunk>): seq<Delta> {
    if out == [] then []
    else
      var last := out[|out| - 1];
      CallsSent(out[..|out| - 1]) + if last.ToolCall? then [last.call] else []
  }

  lemma {:induction false} CallsSentSplits(a: seq<Chunk>, b: seq<Chunk>)
    ensures CallsSent(a + b) == CallsSent(a) + CallsSent(b)
  {
    if b == [] {
      Units(a);
      Units(CallsSent(a));
    } else {
      var front, last := b[..|b| - 1], b[|b| - 1];
      assert (a + b)[..|a + b| - 1] == a + front;
      CallsSentSplits(a, front);
      Assoc(CallsSent(a), CallsSent(front), if last.ToolCall? then [last.call] else []);
    }
  }

  lemma NoCallsSent(s: State, chunks: seq<Chunk>)
    requires forall i | 0 <= i < |chunks| :: !chunks[i].ToolCall?
    ensures CallsSent(Add(s, chunks).out) == CallsSent(s.out)
    decreases |chunks|
  {
    if chunks != [] {
      NoCallsSent(s, chunks[..|chunks| - 1]);
      Assoc(s.out, chunks[..|chunks| - 1], [chunks[|chunks| - 1]]);
      Halves(chunks, |chunks| - 1);
      assert (s.out + chunks)[..|s.out + chunks| - 1] == s.out + chunks[..|chunks| - 1];
      Units(CallsSent(s.out));
    } else {
      Units(s.out);
    }
  }

  lemma TerminalSendsNoCalls(s: State, o: Fields, kind: string, includeUsage: bool)
    ensures var t := AfterTerminal(s, o, kind, includeUsage);
            t.calls == s.calls && t.index == s.index && CallsSent(t.out) == CallsSent(s.out)
  {
    if kind == FAILED || kind == "error" {
      NoCallsSent(s, [Failure(FailureOf(o, kind == FAILED)), Done]);
    } else if kind == COMPLETED || kind == INCOMPLETE {
      var usage := if includeUsage then [Usage(FinalId(o), FinalUsage(o))] else [];
      NoCallsSent(s, [Finish(FinalId(o), FinalReason(s.sawTool, o, kind == INCOMPLETE))] + usage + [Done]);
    }
  }

  lemma ToolSendsItsCall(s: State, d: Delta)
    ensures CallsSent(AfterTool(s, d).out) == CallsSent(s.out) + Sent(Outgoing(s.calls, d))
  {
    var out := Outgoing(s.calls, d);
    if out.Some? {
      assert (s.out + [ToolCall(!s.sentRole, out.value)])[..|s.out|] == s.out;
    } else {
      Units(CallsSent(s.out));
    }
  }

  lemma KeysNext(deltas: seq<Delta>, d: Delta)
    ensures IndexAfter(Keys(deltas + [d])) == Register(IndexAfter(Keys(deltas)), KeyOf(d.what.callId, d.what.name))
  {
    var ks := Keys(deltas + [d]);
    assert ks[..|ks| - 1] == Keys(deltas);
  }

  /** A state whose tool side is that of the delta server after `deltas`, each numbered by its key. */
  ghost predicate Tracks(s: State, deltas: seq<Delta>) {
    && s.calls == Serve(deltas).calls && CallsSent(s.out) == Serve(deltas).sent
    && s.index == IndexAfter(Keys(deltas))
    && NumberedByKey(deltas)
  }

  ghost predicate NumberedByKey(deltas: seq<Delta>) {
    forall i | 0 <= i < |deltas| :: deltas[i].index == NumberAt(Keys(deltas), i)
  }

  lemma NumberedNext(deltas: seq<Delta>, d: Delta)
    requires NumberedByKey(deltas)
    requires d.index == Lookup(IndexAfter(Keys(deltas)), KeyOf(d.what.callId, d.what.name))
    ensures NumberedByKey(deltas + [d])
  {
    var more := deltas + [d];
    forall i | 0 <= i < |more|
      ensures more[i].index == NumberAt(Keys(more), i)
    {
      if i < |deltas| {
        assert Keys(more)[..i] == Keys(deltas)[..i];
      } else {
        assert Keys(more)[..i] == Keys(deltas);
      }
    }
  }

  lemma ToolTracks(s: State, event: Json, deltas: seq<Delta>)
    requires Tracks(s, deltas) && DeltaOf(s, event).Some?
    ensures Tracks(AfterTool(s, DeltaOf(s, event).value), deltas + Sent(DeltaOf(s, event)))
  {
    var d := DeltaOf(s, event).value;
    assert (deltas + [d])[..|deltas|] == deltas;
    KeysNext(deltas, d);
    ToolSendsItsCall(s, d);
    NumberedNext(deltas, d);
  }

  lemma StepTracks(s: State, event: Json, deltas: seq<Delta>, includeUsage: bool)
    requires Tracks(s, deltas) && !s.ended && TypeOf(event).Some? && TypeOf(event).value != TEXT_DELTA
    ensures Tracks(Step(s, event, includeUsage), deltas + Sent(DeltaOf(s, event)))
  {
    if DeltaOf(s, event).Some? {
      ToolTracks(s, event, deltas);
      TerminalSendsNoCalls(AfterTool(s, DeltaOf(s, event).value), event.fields, TypeOf(event).value, includeUsage);
    } else {
      Units(deltas);
      TerminalSendsNoCalls(s, event.fields, TypeOf(event).value, includeUsage);
    }
  }

  /**
    The translator's tool state, for every event list: the calls it holds and the tool
    chunks it emits are those of the delta server, and each delta is numbered by its key.
  */
  lemma {:induction false} StreamServes(events: seq<Json>, includeUsage: bool)
    ensures Tracks(Run(events, includeUsage), Deltas(events, includeUsage))
  {
    if events != [] {
      var front, last := events[..|events| - 1], events[|events| - 1];
      StreamServes(front, includeUsage);
      AnyStepTracks(Run(front, includeUsage), last, Deltas(front, includeUsage), includeUsage);
    }
  }

  lemma TextTracks(s: State, event: Json, deltas: seq<Delta>, includeUsage: bool)
    requires Tracks(s, deltas) && !s.ended && TypeOf(event) == Some(TEXT_DELTA)
    ensures Tracks(Step(s, event, includeUsage), deltas)
  {
    var text := StringField(event.fields, "delta");
    NoCallsSent(s, [Content(!s.sentRole, if text.Some? then text.value else "")]);
  }

  lemma AnyStepTracks(s: State, event: Json, deltas: seq<Delta>, includeUsage: bool)
    requires Tracks(s, deltas)
    ensures Tracks(Step(s, event, includeUsage), deltas + Sent(MergedBy(s, event)))
  {
    if s.ended || TypeOf(event).None? {
      Units(deltas);
    } else if TypeOf(event).value == TEXT_DELTA {
      Units(deltas);
      TextTracks(s, event, deltas, includeUsage);
    } else {
      StepTracks(s, event, deltas, includeUsage);
    }
  }

  /** An event whose tool fields say nothing new in this state. */
  predicate IsStale(s: State, event: Json) {
    DeltaOf(s, event).Some? && Outgoing(s.calls, DeltaOf(s, event).value).None?
  }

  predicate HasFinish(out: seq<Chunk>) {
    exists i | 0 <= i < |out| :: out[i].Finish?
  }

  lemma RunOneMore(events: seq<Json>, event: Json, includeUsage: bool)
    ensures Run(events + [event], includeUsage) == Step(Run(events, includeUsage), event, includeUsage)
  {
    Undo(events, [event]);
  }

  /**
    A stream finishes with its completion event exactly if that is not stale; otherwise
    the client is told that the upstream was cut short.
  */
  lemma CompletionFinishesUnlessStale(events: seq<Json>, event: Json, includeUsage: bool)
    requires !Run(events, includeUsage).ended && (TypeOf(event) == Some(COMPLETED) || TypeOf(event) == Some(INCOMPLETE))
    ensures var s, out := Run(events, includeUsage), Translate(events + [event], includeUsage);
            && (HasFinish(out) <==> !IsStale(s, event))
            && (IsStale(s, event) ==> out == s.out + [CUT_SHORT, Done])
  {
    RunOneMore(events, event, includeUsage);
    if IsStale(Run(events, includeUsage), event) {
      RunShape(events, includeUsage);
      StaleIsCutShort(Run(events, includeUsage), event, includeUsage);
    } else {
      FreshFinishes(Run(events, includeUsage), event, includeUsage);
    }
  }

  lemma StaleIsCutShort(s: State, event: Json, includeUsage: bool)
    requires Open(s) && IsStale(s, event) && TypeOf(event).Some? && TypeOf(event).value != TEXT_DELTA
    ensures var t := Step(s, event, includeUsage);
            !t.ended && t.out == s.out && !HasFinish(s.out + [CUT_SHORT, Done])
  {
    assert forall i | 0 <= i < |s.out| :: IsPiece(s.out[i]);
  }

  lemma FreshFinishes(s: State, event: Json, includeUsage: bool)
    requires !s.ended && !IsStale(s, event) && (TypeOf(event) == Some(COMPLETED) || TypeOf(event) == Some(INCOMPLETE))
    ensures var t := Step(s, event, includeUsage); t.ended && HasFinish(t.out)
  {
    var d := DeltaOf(s, event);
    EndingFinishes(if d.Some? then AfterTool(s, d.value) else s, event.fields, TypeOf(event).value, includeUsage);
  }

  lemma EndingFinishes(s: State, o: Fields, kind: string, includeUsage: bool)
    requires kind == COMPLETED || kind == INCOMPLETE
    ensures AfterTerminal(s, o, kind, includeUsage).ended && HasFinish(AfterTerminal(s, o, kind, includeUsage).out)
  {
    assert AfterTerminal(s, o, kind, includeUsage).out[|s.out|].Finish?;
  }
}
