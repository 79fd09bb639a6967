/** What the readings and rewritings of a request body come to, said without them. */
module RequestMeaning {
  import opened Options
  import opened Sequences
  import opened Json
  import opened RequestBody

  // ---------------------------------------------------------------------------
  // Reading
  // ---------------------------------------------------------------------------

  predicate IsWhite(c: char) {
    c in {' ', '\t', '\n', '\r', '\U{000B}', '\U{000C}'}
  }

  lemma {:induction false} TrimStartMeans(s: string) returns (i: nat)
    ensures i <= |s| && TrimStart(s) == s[i..] && (forall k | 0 <= k < i :: IsWhite(s[k])) && (i < |s| ==> !IsWhite(s[i]))
  {
    i := 0;
    if s != "" && IsSpace(s[0]) {
      var j := TrimStartMeans(s[1..]);
      i := j + 1;
      assert forall k | 1 <= k < i :: s[k] == s[1..][k - 1];
    }
  }

  lemma {:induction false} TrimEndMeans(s: string) returns (j: nat)
    ensures j <= |s| && TrimEnd(s) == s[..j] && (forall k | j <= k < |s| :: IsWhite(s[k])) && (j > 0 ==> !IsWhite(s[j - 1]))
  {
    j := |s|;
    if s != "" && IsSpace(s[|s| - 1]) {
      j := TrimEndMeans(s[..|s| - 1]);
      assert s[..|s| - 1][..j] == s[..j];
    } else {
      assert s[..j] == s;
    }
  }

  /** Of a text between white space, trimming leaves the text. */
  ghost predicate IsCore(s: string, i: nat, j: nat) {
    && i <= j <= |s| && (forall k | 0 <= k < i || j <= k < |s| :: IsWhite(s[k]))
    && (i < j ==> !IsWhite(s[i]) && !IsWhite(s[j - 1]))
  }

  lemma TrimMeans(s: string) returns (i: nat, j: nat)
    ensures IsCore(s, i, j) && Trim(s) == s[i..j]
  {
    i := TrimStartMeans(s);
    var n := TrimEndMeans(s[i..]);
    j := i + n;
    assert forall k | j <= k < |s| :: s[k] == s[i..][k - i];
  }

  /** A body continues the response it names between white space, if it names one. */
  lemma PreviousSays(body: Json) returns (i: nat, j: nat)
    ensures if body.Obj? && PREVIOUS in body.fields && body.fields[PREVIOUS].Str? then
              && IsCore(body.fields[PREVIOUS].text, i, j)
              && PreviousResponse(body) == if i == j then None else Some(body.fields[PREVIOUS].text[i..j])
            else PreviousResponse(body).None?
    ensures PREVIOUS == "previous_response_id"
  {
    i, j := 0, 0;
    if body.Obj? && PREVIOUS in body.fields && body.fields[PREVIOUS].Str? {
      i, j := TrimMeans(body.fields[PREVIOUS].text);
    }
  }

  /** An item that answers a function call: called so, or with a call's id and what came of it. */
  predicate AnswersCall(item: Json) {
    item.Obj? &&
    (|| ("type" in item.fields && item.fields["type"] == Str("function_call_output"))
     || (&& !({"call_id", "tool_call_id"} !! item.fields.Keys)
         && !({"output", "content"} !! item.fields.Keys)))
  }

  /** The body, or the response object nested so many levels deep in it. */
  function Nested(body: Json, depth: nat): Json {
    if depth == 0 then body
    else if body.Obj? && "response" in body.fields then Nested(body.fields["response"], depth - 1)
    else Null
  }

  /** The i-th input item at a depth. */
  predicate HasAnswerAt(body: Json, depth: nat, i: nat) {
    var o := Nested(body, depth);
    && o.Obj? && "input" in o.fields && o.fields["input"].Arr? && i < |o.fields["input"].items|
    && AnswersCall(o.fields["input"].items[i])
  }

  lemma AnswerIsSeen(item: Json)
    ensures IsCallOutput(item) <==> AnswersCall(item)
  {
    if item.Obj? {
      assert "call_id" in item.fields.Keys || "tool_call_id" in item.fields.Keys <==>
             !({"call_id", "tool_call_id"} !! item.fields.Keys);
      assert "output" in item.fields.Keys || "content" in item.fields.Keys <==>
             !({"output", "content"} !! item.fields.Keys);
    }
  }

  lemma InputSays(body: Json)
    requires body.Obj?
    ensures InputHasCallOutput(body.fields) <==> exists i: nat :: HasAnswerAt(body, 0, i)
  {
    if InputHasCallOutput(body.fields) {
      var i :| 0 <= i < |body.fields["input"].items| && IsCallOutput(body.fields["input"].items[i]);
      AnswerIsSeen(body.fields["input"].items[i]);
      assert HasAnswerAt(body, 0, i);
    }
    if i: nat :| HasAnswerAt(body, 0, i) {
      AnswerIsSeen(body.fields["input"].items[i]);
    }
  }

  /** A body has call outputs exactly if some input item, at some depth, answers a call. */
  lemma {:induction false} CallOutputSays(body: Json)
    ensures HasCallOutput(body) <==> exists depth: nat, i: nat :: HasAnswerAt(body, depth, i)
    decreases body
  {
    if body.Obj? {
      InputSays(body);
      if "response" in body.fields {
        var inner := body.fields["response"];
        CallOutputSays(inner);
        if depth: nat, i: nat :| HasAnswerAt(inner, depth, i) {
          assert Nested(body, depth + 1) == Nested(inner, depth);
          assert HasAnswerAt(body, depth + 1, i);
        }
      }
      if depth: nat, i: nat :| HasAnswerAt(body, depth, i) {
        AnswerIsHere(body, depth, i);
      }
    } else {
      forall depth: nat, i: nat
        ensures !HasAnswerAt(body, depth, i)
      {
        NothingNested(body, depth);
      }
    }
  }

  lemma NothingNested(body: Json, depth: nat)
    requires !body.Obj?
    ensures !Nested(body, depth).Obj?
  {
  }

  lemma AnswerIsHere(body: Json, depth: nat, i: nat)
    requires body.Obj? && HasAnswerAt(body, depth, i)
    ensures depth == 0 || ("response" in body.fields && HasAnswerAt(body.fields["response"], depth - 1, i))
  {
  }

  // ---------------------------------------------------------------------------
  // Rebuilding
  // ---------------------------------------------------------------------------

  /** What may be carried along: at most 16 items of at most 96 KiB. */
  predicate Fits(items: seq<Json>, size: seq<Json> -> nat) {
    items == [] || (|items| <= 16 && size(items) <= 98304)
  }

  /** The longest end that fits begins at `k`. */
  predicate IsLongestEnd(items: seq<Json>, size: seq<Json> -> nat, k: nat) {
    k <= |items| && Fits(items[k..], size) && forall j | 0 <= j < k :: !Fits(items[j..], size)
  }

  lemma {:induction false} TrimmedSays(items: seq<Json>, size: seq<Json> -> nat) returns (k: nat)
    ensures IsLongestEnd(items, size, k) && Trimmed(items, size) == items[k..]
  {
    k := 0;
    assert items[0..] == items;
    if !Fits(items, size) {
      var n := TrimmedSays(items[1..], size);
      k := n + 1;
      assert forall j | 0 <= j <= |items| - 1 :: items[1..][j..] == items[j + 1..];
      assert forall j | 1 <= j < k :: items[j..] == items[1..][j - 1..];
    }
  }

  function Cut(text: string): string {
    if |text| > 16384 then text[..16384] else text
  }

  /** A text input as the message it stands for. */
  function Message(text: string): Json {
    Obj(map["content" := Arr([Obj(map["text" := Str(Cut(text)), "type" := Str("input_text")])]), "role" := Str("user")])
  }

  function Own(input: Json): seq<Json> {
    if input.Str? then [Message(input.text)] else if input.Arr? then input.items else []
  }

  predicate IsConversation(input: Json) {
    && input.Arr? && input.items != []
    && (|input.items| == 1 ==>
          var only := input.items[0];
          only.Obj? && "role" in only.fields && only.fields["role"].Str? && only.fields["role"] != Str("user"))
  }

  predicate HasTools(o: Fields) {
    "tools" in o && o["tools"].Arr? && o["tools"].items != []
  }

  lemma MessageIs(text: string)
    ensures UserText(text) == Message(text)
  {
    var part := UserText(text).fields["content"].items[0];
    assert part.fields == Message(text).fields["content"].items[0].fields;
    assert UserText(text).fields["content"] == Message(text).fields["content"];
    assert UserText(text).fields == Message(text).fields;
  }

  lemma RecoveryInputSays(body: Json)
    requires body.Obj? && !HasCallOutput(body)
    ensures var o := body.fields;
            RecoveryInput(body) ==
            if HasTools(o) || "input" !in o || !(o["input"].Str? || o["input"].Arr?) then None else Some(Own(o["input"]))
  {
    if "input" in body.fields && body.fields["input"].Str? {
      MessageIs(body.fields["input"].text);
    }
  }

  /**
    A continuation rebuilt from local context: a conversation is sent as it stands; any
    other input goes behind what is remembered of the earlier response, as much of the end
    of both as fits. There is nothing to rebuild from with tools, without input, or without
    memory.
  */
  lemma RebuildSays(body: Json, context: Context) returns (k: nat)
    requires HasPrevious(body) && !HasCallOutput(body)
    ensures var o, r := body.fields, RebuildWithLocalContext(body, context);
            if HasTools(o) || "input" !in o || !(o["input"].Str? || o["input"].Arr?) then r.None?
            else if IsConversation(o["input"]) then r == Some(Obj(o - {PREVIOUS}))
            else if context.items.None? || context.items.value == [] then r.None?
            else
              var all := context.items.value + Own(o["input"]);
              && IsLongestEnd(all, context.size, k)
              && r == Some(Obj((o - {PREVIOUS})["input" := Arr(all[k..])]))
  {
    var o := body.fields;
    k := 0;
    RecoveryInputSays(body);
    if "input" in o && context.items.Some? {
      k := TrimmedSays(context.items.value + Own(o["input"]), context.size);
    }
  }
}
