/**
  Tool-call deltas of native/proxy/src/chat_completions_service.cpp: reading one
  out of an event, numbering its call, and merging it into the calls seen so far
  while working out what is new enough to be sent on.
*/
module ToolCalls {
  import opened Options
  import opened Sequences
  import opened Json

  datatype Mode = Unknown | Increment | Snapshot

  /** What an event says about a call, before the call has a number. */
  datatype Reading = Reading(
    callId: Option<string>, name: Option<string>, arguments: Option<string>, mode: Mode, toolType: Option<string>)

  datatype Delta = Delta(index: nat, what: Reading)

  // ---------------------------------------------------------------------------
  // Reading
  // ---------------------------------------------------------------------------

  predicate ContainsToolFields(o: Fields) {
    "call_id" in o || "tool_call_id" in o || "arguments" in o || "function" in o || "name" in o
  }

  predicate TypeSuggestsTool(o: Fields) {
    var t := StringField(o, "type");
    t.Some? && (Contains(t.value, "tool") || Contains(t.value, "function"))
  }

  predicate IsToolItem(item: Fields) {
    TypeSuggestsTool(item) || ContainsToolFields(item)
  }

  predicate IsToolCallEvent(o: Fields) {
    var t, item := StringField(o, "type"), ObjectField(o, "item");
    || (t.Some? && (Contains(t.value, "tool_call") || Contains(t.value, "function_call")))
    || (item.Some? && IsToolItem(item.value))
    || "call_id" in o || "tool_call_id" in o
    || ("arguments" in o && ("name" in o || "function" in o))
  }

  function Candidate(o: Fields): Fields {
    var item := ObjectField(o, "item");
    if item.Some? && IsToolItem(item.value) then item.value else o
  }

  function InferMode(o: Fields, candidate: Fields, arguments: Option<string>): Mode {
    if arguments.None? || arguments.value == "" then Unknown
    else
      var t := StringField(o, "type");
      if t == Some("response.function_call_arguments.delta") then Increment
      else if t == Some("response.function_call_arguments.done") then Snapshot
      else if t.Some? && "response.output_item." <= t.value then Snapshot
      else if t.Some? && Contains(t.value, ".delta") then Increment
      else if t.Some? && Contains(t.value, ".done") then Snapshot
      else if "delta" in candidate then Increment
      else Snapshot
  }

  function ReadCallId(c: Fields, d: Option<Fields>): Option<string> {
    var own := FirstNonEmpty([StringField(c, "call_id"), StringField(c, "tool_call_id"), StringField(c, "id")]);
    if own.Some? || d.None? then own
    else FirstNonEmpty([StringField(d.value, "id"), StringField(d.value, "call_id"), StringField(d.value, "tool_call_id")])
  }

  function FunctionField(o: Fields, key: string): Option<string> {
    var f := ObjectField(o, "function");
    if f.Some? then StringField(f.value, key) else None
  }

  function ReadName(c: Fields, d: Option<Fields>): Option<string> {
    var own := FirstNonEmpty([StringField(c, "name"), StringField(c, "tool_name")]);
    var inDelta := if d.Some? then StringField(d.value, "name") else None;
    var inDeltaFunction := if d.Some? then FunctionField(d.value, "name") else None;
    OrElse(own, OrElse(inDelta, OrElse(FunctionField(c, "name"), inDeltaFunction)))
  }

  function ReadArguments(c: Fields, d: Option<Fields>): Option<string> {
    var deltaText := if d.None? then FirstNonEmpty([StringField(c, "delta")]) else None;
    var inDelta := if d.Some? then StringField(d.value, "arguments") else None;
    var inDeltaFunction := if d.Some? then FunctionField(d.value, "arguments") else None;
    OrElse(StringField(c, "arguments"), OrElse(deltaText, OrElse(inDelta, inDeltaFunction)))
  }

  function ReadToolType(c: Fields): Option<string> {
    var t := FirstNonEmpty([StringField(c, "tool_type"), StringField(c, "type")]);
    if t.Some? && "response." <= t.value then None
    else if t == Some("tool_call") || t == Some("function_call") then Some("function")
    else t
  }

  /** What an event says about a tool call, if anything. */
  function Read(event: Json): Option<Reading> {
    if !event.Obj? || !IsToolCallEvent(event.fields) then None
    else
      var c := Candidate(event.fields);
      var d := ObjectField(c, "delta");
      var callId, name, arguments := ReadCallId(c, d), ReadName(c, d), ReadArguments(c, d);
      if callId.None? && name.None? && arguments.None? then None
      else Some(Reading(callId, name, arguments, InferMode(event.fields, c, arguments), ReadToolType(c)))
  }

  // ---------------------------------------------------------------------------
  // Numbering
  // ---------------------------------------------------------------------------

  datatype Index = Index(indexes: map<string, nat>, next: nat)

  const EMPTY_INDEX := Index(map[], 0)

  /** The key a call is known by: its id, else its name, else none. */
  function KeyOf(callId: Option<string>, name: Option<string>): Option<string> {
    if callId.Some? && callId.value != "" then Some("id:" + callId.value)
    else if name.Some? && name.value != "" then Some("name:" + name.value)
    else None
  }

  /** Two keyed deltas share a key exactly when they have the same id, or no id and the same name. */
  lemma KeysIdentify(a: Option<string>, n: Option<string>, b: Option<string>, m: Option<string>)
    requires KeyOf(a, n).Some? && KeyOf(b, m).Some?
    ensures KeyOf(a, n) == KeyOf(b, m) <==> if Filled(a) then a == b else !Filled(b) && n == m
  {
    var p, q := KeyOf(a, n).value, KeyOf(b, m).value;
    assert p[0] == (if Filled(a) then 'i' else 'n') && q[0] == if Filled(b) then 'i' else 'n';
    assert Filled(a) ==> p[3..] == a.value;
    assert Filled(b) ==> q[3..] == b.value;
    assert !Filled(a) ==> p[5..] == n.value;
    assert !Filled(b) ==> q[5..] == m.value;
  }

  function Lookup(x: Index, key: Option<string>): nat {
    if key.None? then 0 else if key.value in x.indexes then x.indexes[key.value] else x.next
  }

  function Register(x: Index, key: Option<string>): Index {
    if key.None? || key.value in x.indexes then x else Index(x.indexes[key.value := x.next], x.next + 1)
  }

  ghost predicate IsGiven(x: Index, n: nat) {
    exists k :: k in x.indexes && x.indexes[k] == n
  }

  /** The numbers given out are 0 up to `next`, one per key. */
  ghost predicate Dense(x: Index) {
    && (forall k | k in x.indexes :: x.indexes[k] < x.next)
    && (forall j, k | j in x.indexes && k in x.indexes && j != k :: x.indexes[j] != x.indexes[k])
    && (forall n: nat | n < x.next :: IsGiven(x, n))
  }

  lemma RegisterKeepsDense(x: Index, key: Option<string>)
    requires Dense(x)
    ensures Dense(Register(x, key))
  {
    var y := Register(x, key);
    forall n: nat | n < y.next
      ensures IsGiven(y, n)
    {
      if n < x.next {
        assert IsGiven(x, n);
        var k :| k in x.indexes && x.indexes[k] == n;
        assert k in y.indexes && y.indexes[k] == n;
      } else {
        assert y.indexes[key.value] == n;
      }
    }
  }

  class ToolCallIndex {
    var indexes: map<string, nat>
    var next: nat

    constructor ()
      ensures View() == EMPTY_INDEX
    {
      indexes, next := map[], 0;
    }

    function View(): Index
      reads this
    {
      Index(indexes, next)
    }

    method IndexFor(callId: Option<string>, name: Option<string>) returns (index: nat)
      modifies this
      ensures index == Lookup(old(View()), KeyOf(callId, name))
      ensures View() == Register(old(View()), KeyOf(callId, name))
    {
      var key;
      if callId.Some? && callId.value != "" {
        key := "id:" + callId.value;
      } else if name.Some? && name.value != "" {
        key := "name:" + name.value;
      } else {
        return 0;
      }
      if key in indexes {
        return indexes[key];
      }
      index := next;
      next := next + 1;
      indexes := indexes[key := index];
    }
  }

  /** The numbers along a sequence of keys. */
  function IndexAfter(keys: seq<Option<string>>): Index {
    if keys == [] then EMPTY_INDEX else Register(IndexAfter(keys[..|keys| - 1]), keys[|keys| - 1])
  }

  lemma {:induction false} NumbersStay(keys: seq<Option<string>>, i: nat, key: string)
    requires i <= |keys| && key in IndexAfter(keys[..i]).indexes
    ensures key in IndexAfter(keys).indexes && IndexAfter(keys).indexes[key] == IndexAfter(keys[..i]).indexes[key]
    decreases |keys| - i
  {
    if i == |keys| {
      assert keys[..i] == keys;
    } else {
      assert keys[..i + 1][..i] == keys[..i];
      NumbersStay(keys, i + 1, key);
    }
  }

  lemma {:induction false} IndexIsDense(keys: seq<Option<string>>)
    ensures Dense(IndexAfter(keys))
  {
    if keys != [] {
      IndexIsDense(keys[..|keys| - 1]);
      RegisterKeepsDense(IndexAfter(keys[..|keys| - 1]), keys[|keys| - 1]);
    }
  }

  /** The number the i-th delta of a stream gets. */
  function NumberAt(keys: seq<Option<string>>, i: nat): nat
    requires i < |keys|
  {
    Lookup(IndexAfter(keys[..i]), keys[i])
  }

  /** Along any stream, two keyed deltas get the same number exactly when they carry the same key; no number is skipped. */
  lemma NumbersIdentifyCalls(keys: seq<Option<string>>, i: nat, j: nat)
    requires i < |keys| && j < |keys| && keys[i].Some? && keys[j].Some?
    ensures NumberAt(keys, i) == NumberAt(keys, j) <==> keys[i] == keys[j]
    ensures forall n: nat | n < IndexAfter(keys).next :: IsGiven(IndexAfter(keys), n)
  {
    IndexIsDense(keys);
    NumberIsFinal(keys, i);
    NumberIsFinal(keys, j);
  }

  lemma NumberIsFinal(keys: seq<Option<string>>, i: nat)
    requires i < |keys| && keys[i].Some?
    ensures keys[i].value in IndexAfter(keys).indexes
    ensures NumberAt(keys, i) == IndexAfter(keys).indexes[keys[i].value]
  {
    assert keys[..i + 1][..i] == keys[..i];
    NumbersStay(keys, i + 1, keys[i].value);
  }

  // ---------------------------------------------------------------------------
  // Merging
  // ---------------------------------------------------------------------------

  datatype Call = Call(
    callId: Option<string>, name: Option<string>, emittedCallId: Option<string>, emittedName: Option<string>,
    arguments: string, toolType: string)

  const NEW_CALL := Call(None, None, None, None, "", "function")

  /** The arguments a call has after a delta, and the piece to send on. */
  function MergeArguments(arguments: string, d: Reading): (string, Option<string>) {
    if !Filled(d.arguments) then (arguments, None)
    else if d.mode == Increment then (arguments + d.arguments.value, d.arguments)
    else if arguments == "" then (d.arguments.value, d.arguments)
    else if arguments == d.arguments.value then (arguments, None)
    else if arguments <= d.arguments.value then (d.arguments.value, Some(d.arguments.value[|arguments|..]))
    else (d.arguments.value, None)
  }

  function Unsaid(said: Option<string>, value: Option<string>): Option<string> {
    if Filled(value) && said != value then value else None
  }

  function Latest(held: Option<string>, value: Option<string>): Option<string> {
    if Filled(value) then value else held
  }

  function MergeInto(c: Call, d: Reading): Call {
    Call(Latest(c.callId, d.callId), Latest(c.name, d.name),
         Latest(c.emittedCallId, d.callId), Latest(c.emittedName, d.name),
         MergeArguments(c.arguments, d).0, if Filled(d.toolType) then d.toolType.value else c.toolType)
  }

  /** What goes out for a delta: only what the client does not know yet. */
  function Emitted(c: Call, d: Reading): Reading {
    Reading(Unsaid(c.emittedCallId, d.callId), Unsaid(c.emittedName, d.name), MergeArguments(c.arguments, d).1,
            Increment, if Filled(d.toolType) then d.toolType else Some(c.toolType))
  }

  predicate SaysNothing(r: Reading) {
    r.callId.None? && r.name.None? && r.arguments.None?
  }

  function Grown(calls: seq<Call>, n: nat): (r: seq<Call>)
    ensures |r| == if |calls| > n then |calls| else n
    ensures forall i | 0 <= i < |r| :: r[i] == if i < |calls| then calls[i] else NEW_CALL
  {
    if |calls| >= n then calls else calls + seq(n - |calls|, _ => NEW_CALL)
  }

  function Merged(calls: seq<Call>, d: Delta): (r: seq<Call>)
    ensures |r| > d.index && |r| >= |calls|
  {
    var grown := Grown(calls, d.index + 1);
    grown[d.index := MergeInto(grown[d.index], d.what)]
  }

  function CallAt(calls: seq<Call>, i: nat): Call {
    if i < |calls| then calls[i] else NEW_CALL
  }

  function Outgoing(calls: seq<Call>, d: Delta): Option<Delta> {
    var e := Emitted(CallAt(calls, d.index), d.what);
    if SaysNothing(e) then None else Some(Delta(d.index, e))
  }

  class ToolCallList {
    var calls: seq<Call>

    constructor ()
      ensures calls == []
    {
      calls := [];
    }

    method Merge(delta: Delta) returns (emitted: Option<Delta>)
      modifies this
      ensures calls == Merged(old(calls), delta)
      ensures emitted == Outgoing(old(calls), delta)
    {
      var d := delta.what;
      while |calls| <= delta.index
        invariant |calls| <= delta.index + 1 || calls == old(calls)
        invariant |calls| >= |old(calls)|
        invariant forall i | 0 <= i < |calls| :: calls[i] == if i < |old(calls)| then old(calls)[i] else NEW_CALL
        decreases delta.index + 1 - |calls|
      {
        calls := calls + [NEW_CALL];
      }
      assert calls == Grown(old(calls), delta.index + 1);

      var state := calls[delta.index];
      var outId, outName := None, None;
      if d.callId.Some? && d.callId.value != "" {
        state := state.(callId := d.callId);
        if state.emittedCallId.None? || state.emittedCallId.value != d.callId.value {
          state := state.(emittedCallId := d.callId);
          outId := d.callId;
        }
      }
      if d.name.Some? && d.name.value != "" {
        state := state.(name := d.name);
        if state.emittedName.None? || state.emittedName.value != d.name.value {
          state := state.(emittedName := d.name);
          outName := d.name;
        }
      }
      var arguments, piece := NormalizeArguments(state.arguments, d);
      state := state.(arguments := arguments);
      var outType := Some(state.toolType);
      if d.toolType.Some? && d.toolType.value != "" {
        state := state.(toolType := d.toolType.value);
        outType := d.toolType;
      }
      calls := calls[delta.index := state];
      if outId.None? && outName.None? && piece.None? {
        return None;
      }
      emitted := Some(Delta(delta.index, Reading(outId, outName, piece, Increment, outType)));
    }
  }

  method NormalizeArguments(before: string, d: Reading) returns (after: string, piece: Option<string>)
    ensures (after, piece) == MergeArguments(before, d)
  {
    if d.arguments.None? || d.arguments.value == "" {
      return before, None;
    }
    var given := d.arguments.value;
    if d.mode == Increment {
      return before + given, d.arguments;
    }
    if before == "" {
      return given, d.arguments;
    }
    if before == given {
      return before, None;
    }
    if before <= given {
      var suffix := given[|before|..];
      if suffix == "" {
        return given, None;
      }
      return given, Some(suffix);
    }
    after, piece := given, None;
  }

  // ---------------------------------------------------------------------------
  // What a client puts together
  // ---------------------------------------------------------------------------

  /** A call as a client knows it that appends argument pieces and keeps the last id and name. */
  datatype Known = Known(callId: Option<string>, name: Option<string>, arguments: string)

  function Learn(k: Known, r: Reading): Known {
    Known(OrElse(r.callId, k.callId), OrElse(r.name, k.name),
          k.arguments + if r.arguments.Some? then r.arguments.value else "")
  }

  /** What the client knows of call `i` after a stream of outgoing deltas. */
  function ClientCall(sent: seq<Delta>, i: nat): Known {
    if sent == [] then Known(None, None, "")
    else
      var k, last := ClientCall(sent[..|sent| - 1], i), sent[|sent| - 1];
      if last.index == i then Learn(k, last.what) else k
  }

  /** The server's side after a stream of deltas: the calls, and what was sent for them. */
  datatype Server = Server(calls: seq<Call>, sent: seq<Delta>)

  function Sent(o: Option<Delta>): seq<Delta> {
    if o.Some? then [o.value] else []
  }

  function Serve(deltas: seq<Delta>): Server {
    if deltas == [] then Server([], [])
    else
      var before, d := Serve(deltas[..|deltas| - 1]), deltas[|deltas| - 1];
      Server(Merged(before.calls, d), before.sent + Sent(Outgoing(before.calls, d)))
  }

  /** A snapshot that does not continue the arguments already accumulated. */
  predicate Diverges(arguments: string, r: Reading) {
    Filled(r.arguments) && r.mode != Increment && arguments != "" && !(arguments <= r.arguments.value)
  }

  ghost predicate DivergesAt(deltas: seq<Delta>, i: nat, n: nat)
    requires n < |deltas|
  {
    deltas[n].index == i && Diverges(CallAt(Serve(deltas[..n]).calls, i).arguments, deltas[n].what)
  }

  /** No snapshot for call `i` has diverged so far. */
  ghost predicate Faithful(deltas: seq<Delta>, i: nat) {
    forall n | 0 <= n < |deltas| :: !DivergesAt(deltas, i, n)
  }

  ghost predicate InStep(deltas: seq<Delta>, i: nat) {
    ClientCall(Serve(deltas).sent, i).arguments == CallAt(Serve(deltas).calls, i).arguments
  }

  lemma ServeNext(deltas: seq<Delta>, n: nat)
    requires n < |deltas|
    ensures Serve(deltas[..n + 1]) ==
            Server(Merged(Serve(deltas[..n]).calls, deltas[n]),
                   Serve(deltas[..n]).sent + Sent(Outgoing(Serve(deltas[..n]).calls, deltas[n])))
  {
    assert deltas[..n + 1][..n] == deltas[..n];
  }

  lemma ClientNext(sent: seq<Delta>, o: Option<Delta>, i: nat)
    ensures ClientCall(sent + Sent(o), i) ==
            if o.Some? && o.value.index == i then Learn(ClientCall(sent, i), o.value.what) else ClientCall(sent, i)
  {
    if o.Some? {
      assert (sent + [o.value])[..|sent + [o.value]| - 1] == sent;
    } else {
      Units(sent);
    }
  }

  lemma MergedAt(calls: seq<Call>, d: Delta, i: nat)
    ensures CallAt(Merged(calls, d), i) == if i == d.index then MergeInto(CallAt(calls, i), d.what) else CallAt(calls, i)
  {
  }

  /** What one step does to the server's and the client's view of call `i`. */
  lemma ServeAt(deltas: seq<Delta>, i: nat, n: nat)
    requires n < |deltas|
    ensures var known, call := ClientCall(Serve(deltas[..n]).sent, i), CallAt(Serve(deltas[..n]).calls, i);
            var hit, d := deltas[n].index == i, deltas[n].what;
            && CallAt(Serve(deltas[..n + 1]).calls, i) == (if hit then MergeInto(call, d) else call)
            && ClientCall(Serve(deltas[..n + 1]).sent, i) == if hit then Learn(known, Emitted(call, d)) else known
  {
    var before, d := Serve(deltas[..n]), deltas[n];
    ServeNext(deltas, n);
    MergedAt(before.calls, d, i);
    ClientNext(before.sent, Outgoing(before.calls, d), i);
    var known := ClientCall(before.sent, i);
    assert known.arguments + "" == known.arguments;
  }

  lemma LearnArguments(known: Known, c: Call, d: Reading)
    requires known.arguments == c.arguments
    ensures Learn(known, Emitted(c, d)).arguments == MergeInto(c, d).arguments <==> !Diverges(c.arguments, d)
  {
    var a := c.arguments;
    assert a + "" == a;
    if Filled(d.arguments) {
      var given := d.arguments.value;
      if a == "" {
        assert a + given == given;
      } else if a <= given {
        assert a + given[|a|..] == given;
      }
    }
  }

  /** One delta from an agreement: the two sides still agree exactly when it does not diverge. */
  lemma StepInStep(deltas: seq<Delta>, i: nat, n: nat)
    requires n < |deltas| && InStep(deltas[..n], i)
    ensures InStep(deltas[..n + 1], i) <==> !DivergesAt(deltas, i, n)
  {
    ServeAt(deltas, i, n);
    if deltas[n].index == i {
      LearnArguments(ClientCall(Serve(deltas[..n]).sent, i), CallAt(Serve(deltas[..n]).calls, i), deltas[n].what);
    }
  }

  /**
    Over any stream of deltas, a client that appends what it is sent holds the
    server's arguments after every one of them if and only if no snapshot for that
    call ever diverged.
  */
  lemma {:induction false} InStepIffFaithful(deltas: seq<Delta>, i: nat)
    ensures (forall n | 0 <= n <= |deltas| :: InStep(deltas[..n], i)) <==> Faithful(deltas, i)
  {
    if Faithful(deltas, i) {
      forall n | 0 <= n <= |deltas|
        ensures InStep(deltas[..n], i)
      {
        StaysInStep(deltas, i, n);
      }
    }
    if forall n | 0 <= n <= |deltas| :: InStep(deltas[..n], i) {
      forall n | 0 <= n < |deltas|
        ensures !DivergesAt(deltas, i, n)
      {
        assert InStep(deltas[..n], i) && InStep(deltas[..n + 1], i);
        StepInStep(deltas, i, n);
      }
    }
  }

  lemma {:induction false} StaysInStep(deltas: seq<Delta>, i: nat, n: nat)
    requires n <= |deltas| && Faithful(deltas, i)
    ensures InStep(deltas[..n], i)
  {
    if n > 0 {
      StaysInStep(deltas, i, n - 1);
      StepInStep(deltas, i, n - 1);
    }
  }

  predicate NamesAgree(known: Known, c: Call) {
    known.callId == c.callId == c.emittedCallId && known.name == c.name == c.emittedName
  }

  lemma LearnNames(known: Known, c: Call, d: Reading)
    requires NamesAgree(known, c)
    ensures NamesAgree(Learn(known, Emitted(c, d)), MergeInto(c, d))
    ensures Emitted(c, d).callId.Some? ==> Emitted(c, d).callId != known.callId
    ensures Emitted(c, d).name.Some? ==> Emitted(c, d).name != known.name
  {
  }

  lemma {:induction false} NamesUpTo(deltas: seq<Delta>, i: nat, n: nat)
    requires n <= |deltas|
    ensures NamesAgree(ClientCall(Serve(deltas[..n]).sent, i), CallAt(Serve(deltas[..n]).calls, i))
  {
    if n > 0 {
      NamesUpTo(deltas, i, n - 1);
      ServeAt(deltas, i, n - 1);
      LearnNames(ClientCall(Serve(deltas[..n - 1]).sent, i), CallAt(Serve(deltas[..n - 1]).calls, i), deltas[n - 1].what);
    }
  }

  /** The id and name a client holds are the server's latest, for every call and every stream. */
  lemma NamesInStep(deltas: seq<Delta>, i: nat)
    ensures var known, call := ClientCall(Serve(deltas).sent, i), CallAt(Serve(deltas).calls, i);
            && known.callId == call.callId == call.emittedCallId
            && known.name == call.name == call.emittedName
  {
    NamesUpTo(deltas, i, |deltas|);
    assert deltas[..|deltas|] == deltas;
  }

  /** `out` is news to a client that was sent `sent`. */
  predicate IsNews(sent: seq<Delta>, out: Delta) {
    var known := ClientCall(sent, out.index);
    && (out.what.callId.Some? ==> out.what.callId != known.callId)
    && (out.what.name.Some? ==> out.what.name != known.name)
    && !SaysNothing(out.what)
  }

  lemma OutgoingIsNews(deltas: seq<Delta>, d: Delta)
    ensures var out := Outgoing(Serve(deltas).calls, d); out.Some? ==> IsNews(Serve(deltas).sent, out.value)
  {
    NamesInStep(deltas, d.index);
    LearnNames(ClientCall(Serve(deltas).sent, d.index), CallAt(Serve(deltas).calls, d.index), d.what);
  }

  /** Nothing is said twice in a row: an id or name goes out only when it differs from what the client holds. */
  lemma {:induction false} NothingRepeated(deltas: seq<Delta>, n: nat)
    requires n < |Serve(deltas).sent|
    ensures IsNews(Serve(deltas).sent[..n], Serve(deltas).sent[n])
    decreases |deltas|
  {
    var front, last := deltas[..|deltas| - 1], deltas[|deltas| - 1];
    var before := Serve(front).sent;
    SentGrows(before, Outgoing(Serve(front).calls, last), n);
    if n < |before| {
      NothingRepeated(front, n);
    } else {
      OutgoingIsNews(front, last);
    }
  }

  lemma SentGrows(sent: seq<Delta>, o: Option<Delta>, n: nat)
    requires n < |sent + Sent(o)|
    ensures n < |sent| ==> (sent + Sent(o))[n] == sent[n] && (sent + Sent(o))[..n] == sent[..n]
    ensures n >= |sent| ==> o.Some? && (sent + Sent(o))[n] == o.value && (sent + Sent(o))[..n] == sent
  {
  }
}
