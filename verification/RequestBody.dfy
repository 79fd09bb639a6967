/**
  What native/proxy/session/src/http_bridge.cpp reads from a request body and how it
  rewrites one to continue, or no longer continue, an earlier response. A body that
  is not an object stands for one that does not parse.
*/
module RequestBody {
  import opened Options
  import opened Json

  const PREVIOUS := "previous_response_id"

  predicate IsSpace(c: char) {
    c == ' ' || '\t' <= c <= '\r'
  }

  function TrimStart(s: string): string {
    if s != "" && IsSpace(s[0]) then TrimStart(s[1..]) else s
  }

  function TrimEnd(s: string): string {
    if s != "" && IsSpace(s[|s| - 1]) then TrimEnd(s[..|s| - 1]) else s
  }

  function Trim(s: string): string {
    TrimEnd(TrimStart(s))
  }

  /** The response a request continues. */
  function PreviousResponse(body: Json): Option<string> {
    if !body.Obj? then None
    else
      var id := StringField(body.fields, PREVIOUS);
      if id.None? || Trim(id.value) == "" then None else Some(Trim(id.value))
  }

  predicate HasPrevious(body: Json) {
    PreviousResponse(body).Some?
  }

  predicate IsCallOutput(item: Json) {
    && item.Obj?
    && (|| StringField(item.fields, "type") == Some("function_call_output")
        || (&& ("call_id" in item.fields || "tool_call_id" in item.fields)
            && ("output" in item.fields || "content" in item.fields)))
  }

  predicate InputHasCallOutput(o: Fields) {
    "input" in o && o["input"].Arr? && exists i | 0 <= i < |o["input"].items| :: IsCallOutput(o["input"].items[i])
  }

  /** A function-call output in the input, or in that of the response objects nested below. */
  predicate HasCallOutput(body: Json)
    decreases body
  {
    body.Obj? && (InputHasCallOutput(body.fields) || ("response" in body.fields && HasCallOutput(body.fields["response"])))
  }

  function Inject(body: Json, id: string): Option<Json> {
    if body.Obj? then Some(Obj(body.fields[PREVIOUS := Str(id)])) else None
  }

  function Strip(body: Json): Option<Json> {
    if body.Obj? then Some(Obj(body.fields - {PREVIOUS})) else None
  }

  /** Continuing with the response the bridge remembers, if that is another one. */
  function ReplaceFromBridge(body: Json, remembered: Option<string>): Option<Json> {
    var previous := PreviousResponse(body);
    if previous.None? || remembered.None? || remembered.value == "" || remembered == previous then None
    else Inject(body, remembered.value)
  }

  // ---------------------------------------------------------------------------
  // Carrying the context along instead of continuing
  // ---------------------------------------------------------------------------

  const MAX_RECOVERY_ITEMS := 16
  const MAX_RECOVERY_BYTES := 96 * 1024
  const MAX_TEXT_BYTES := 16 * 1024

  function UserText(text: string): Json {
    var part := Obj(map["type" := Str("input_text"), "text" := Str(if |text| <= MAX_TEXT_BYTES then text else text[..MAX_TEXT_BYTES])]);
    Obj(map["role" := Str("user"), "content" := Arr([part])])
  }

  function RecoveryInput(body: Json): Option<seq<Json>>
    requires body.Obj?
  {
    var o := body.fields;
    if ("tools" in o && o["tools"].Arr? && o["tools"].items != []) || HasCallOutput(body) || "input" !in o then None
    else if o["input"].Str? then Some([UserText(o["input"].text)])
    else if o["input"].Arr? then Some(o["input"].items)
    else None
  }

  predicate LooksContextual(o: Fields) {
    && "input" in o && o["input"].Arr? && o["input"].items != []
    && var items := o["input"].items;
    && (|items| > 1 || (items[0].Obj? && StringField(items[0].fields, "role") !in {None, Some("user")}))
  }

  /** Leading items go until at most 16 are left whose text, `size` bytes long, is not over 96 KiB. */
  function Trimmed(items: seq<Json>, size: seq<Json> -> nat): seq<Json> {
    if items == [] then []
    else if |items| > MAX_RECOVERY_ITEMS || size(items) > MAX_RECOVERY_BYTES then Trimmed(items[1..], size)
    else items
  }

  /** What the session remembers of an earlier response, and how long items are when written out. */
  datatype Context = Context(items: Option<seq<Json>>, size: seq<Json> -> nat)

  function RebuildWithLocalContext(body: Json, context: Context): Option<Json> {
    if HasCallOutput(body) || !HasPrevious(body) then None
    else
      var input := RecoveryInput(body);
      if input.None? then None
      else if LooksContextual(body.fields) then Strip(body)
      else if context.items.None? || context.items.value == [] then None
      else
        var items := Trimmed(context.items.value + input.value, context.size);
        Some(Obj((body.fields - {PREVIOUS})["input" := Arr(items)]))
  }

  /** The body to go on with when the earlier response is out of reach; none if call outputs depend on it. */
  function Fallback(body: Json, continuation: bool, callOutput: bool, context: Context): Option<Json> {
    if !continuation then Some(body)
    else if callOutput then None
    else
      var rebuilt := RebuildWithLocalContext(body, context);
      if rebuilt.Some? then rebuilt else Strip(body)
  }

  // ---------------------------------------------------------------------------
  // What the rewritings keep
  // ---------------------------------------------------------------------------

  predicate Blank(s: string) {
    forall i | 0 <= i < |s| :: IsSpace(s[i])
  }

  lemma {:induction false} TrimStartEmpty(s: string)
    ensures TrimStart(s) == "" <==> Blank(s)
    ensures !Blank(s) ==> !Blank(TrimStart(s))
  {
    if s != "" && IsSpace(s[0]) {
      TrimStartEmpty(s[1..]);
      assert Blank(s) <==> Blank(s[1..]) by {
        assert forall i | 1 <= i < |s| :: s[i] == s[1..][i - 1];
      }
    }
  }

  lemma {:induction false} TrimEndEmpty(s: string)
    ensures TrimEnd(s) == "" <==> Blank(s)
  {
    if s != "" && IsSpace(s[|s| - 1]) {
      TrimEndEmpty(s[..|s| - 1]);
    }
  }

  /** Trimming leaves nothing exactly of a blank text. */
  lemma TrimEmpty(s: string)
    ensures Trim(s) == "" <==> Blank(s)
  {
    TrimStartEmpty(s);
    TrimEndEmpty(TrimStart(s));
    if Blank(s) {
      assert TrimStart(s) == "";
    }
  }

  /** Two bodies that differ at most in the earlier response they name. */
  predicate SameButPrevious(a: Json, b: Json) {
    a == b || (a.Obj? && b.Obj? && a.fields - {PREVIOUS} == b.fields - {PREVIOUS})
  }

  /** Two bodies that differ at most in the earlier response and the input. */
  predicate SameRequest(a: Json, b: Json) {
    a == b || (a.Obj? && b.Obj? && a.fields - {PREVIOUS, "input"} == b.fields - {PREVIOUS, "input"})
  }

  lemma SameField(a: Fields, b: Fields, key: string)
    requires a - {PREVIOUS} == b - {PREVIOUS} && key != PREVIOUS
    ensures key in a <==> key in b
    ensures key in a ==> a[key] == b[key]
  {
    assert key in a <==> key in a - {PREVIOUS};
    assert key in b <==> key in b - {PREVIOUS};
    assert key in a ==> a[key] == (a - {PREVIOUS})[key];
    assert key in b ==> b[key] == (b - {PREVIOUS})[key];
  }

  lemma CallOutputKept(a: Json, b: Json)
    requires SameButPrevious(a, b)
    ensures HasCallOutput(a) <==> HasCallOutput(b)
  {
    if a != b {
      SameField(a.fields, b.fields, "input");
      SameField(a.fields, b.fields, "response");
    }
  }

  lemma StripKeeps(body: Json)
    requires body.Obj?
    ensures !HasPrevious(Strip(body).value) && SameButPrevious(body, Strip(body).value)
    ensures HasCallOutput(Strip(body).value) <==> HasCallOutput(body)
  {
    CallOutputKept(body, Strip(body).value);
  }

  /** A body rewritten from the bridge continues the remembered response, and is the same request otherwise. */
  lemma ReplaceKeeps(body: Json, remembered: Option<string>)
    requires ReplaceFromBridge(body, remembered).Some? && !Blank(remembered.value)
    ensures var r := ReplaceFromBridge(body, remembered).value;
            && PreviousResponse(r) == Some(Trim(remembered.value))
            && SameButPrevious(body, r) && (HasCallOutput(r) <==> HasCallOutput(body))
  {
    var r := ReplaceFromBridge(body, remembered).value;
    TrimEmpty(remembered.value);
    assert body.fields - {PREVIOUS} == r.fields - {PREVIOUS};
    CallOutputKept(body, r);
  }

  lemma SameButPreviousIsSameRequest(a: Json, b: Json)
    requires SameButPrevious(a, b)
    ensures SameRequest(a, b)
  {
    if a != b {
      assert a.fields - {PREVIOUS, "input"} == (a.fields - {PREVIOUS}) - {"input"};
      assert b.fields - {PREVIOUS, "input"} == (b.fields - {PREVIOUS}) - {"input"};
    }
  }

  /** There is a fallback unless call outputs depend on the earlier response; it continues nothing. */
  lemma FallbackKeeps(body: Json, context: Context)
    ensures var f := Fallback(body, HasPrevious(body), HasPrevious(body) && HasCallOutput(body), context);
            && (f.Some? <==> !(HasPrevious(body) && HasCallOutput(body)))
            && (f.Some? ==> !HasPrevious(f.value) && SameRequest(body, f.value))
            && (!HasPrevious(body) ==> f == Some(body))
  {
    if HasPrevious(body) {
      StripKeeps(body);
      SameButPreviousIsSameRequest(body, Strip(body).value);
      var rebuilt := RebuildWithLocalContext(body, context);
      if rebuilt.Some? {
        assert body.fields - {PREVIOUS, "input"} == rebuilt.value.fields - {PREVIOUS, "input"};
      }
    }
  }
}
