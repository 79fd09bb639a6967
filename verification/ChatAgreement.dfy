/**
  The streamed and the collected chat completion of the same upstream events agree:
  a client that puts the chunks together holds the tool calls and the finish reason
  of the collected one.
*/
module ChatAgreement {
  import opened Options
  import opened Sequences
  import opened Json
  import opened ToolCalls
  import opened ChatStream
  import opened ChatCompletion

  // ---------------------------------------------------------------------------
  // The streams compared
  // ---------------------------------------------------------------------------

  /** A tool call that arrives whole, as a finished output item. */
  predicate BringsCall(e: Json) {
    && TypeOf(e) == Some(ITEM_DONE) && FilesItem(e)
    && IsCallItem(e.fields["item"])
    && var item := e.fields["item"].fields;
    && Filled(StringField(item, "call_id")) && Filled(StringField(item, "name"))
    && StringField(item, "arguments").Some?
    && ReadToolType(item) == Some("function")
  }

  /** An event that says nothing of a tool call and does not end the stream. */
  predicate IsPlain(e: Json) {
    var t := TypeOf(e);
    t.Some? ==>
      && t.value !in {"error", COMPLETED, INCOMPLETE, FAILED}
      && (t.value == TEXT_DELTA || Read(e).None?)
      && (FilesItem(e) ==> !IsCallItem(e.fields["item"]))
  }

  function CallIn(e: Json): Known
    requires BringsCall(e)
  {
    var item := e.fields["item"].fields;
    Known(StringField(item, "call_id"), StringField(item, "name"), StringField(item, "arguments").value)
  }

  /** Two events in this order: calls keep to the order of their indices and have ids of their own. */
  predicate InOrder(a: Json, b: Json) {
    BringsCall(a) && FilesItem(b) ==>
      && (!BringsCall(b) ==> IndexOf(a) != IndexOf(b))
      && (BringsCall(b) ==> IndexOf(a) < IndexOf(b) && CallIn(a).callId != CallIn(b).callId)
  }

  predicate IsBeginning(events: seq<Json>) {
    && (forall i | 0 <= i < |events| :: BringsCall(events[i]) || IsPlain(events[i]))
    && (forall i, j | 0 <= i < j < |events| :: InOrder(events[i], events[j]))
  }

  /** A terminal event with no tool fields, whose response has no output of its own. */
  predicate IsEnd(e: Json) {
    && (TypeOf(e) == Some(COMPLETED) || TypeOf(e) == Some(INCOMPLETE))
    && Read(e).None?
    && ObjectField(e.fields, "response").Some?
    && var response := ObjectField(e.fields, "response").value;
    && EmptyOrMissing(response, "output")
    && (TypeOf(e) == Some(INCOMPLETE) <==> StringField(response, "status") == Some("incomplete"))
  }

  datatype Slot = Slot(index: int, item: Json, call: Known)

  /** The calls of a beginning, in the order they came. */
  function Slots(events: seq<Json>): seq<Slot> {
    if events == [] then []
    else
      var e := events[|events| - 1];
      Slots(events[..|events| - 1]) + if BringsCall(e) then [Slot(IndexOf(e), e.fields["item"], CallIn(e))] else []
  }

  function CallsIn(slots: seq<Slot>): (r: seq<Known>)
    ensures |r| == |slots| && forall i | 0 <= i < |r| :: r[i] == slots[i].call
  {
    seq(|slots|, i requires 0 <= i < |slots| => slots[i].call)
  }

  /** Every slot stems from an event. */
  lemma {:induction false} SlotsStem(events: seq<Json>, i: nat)
    requires i < |Slots(events)|
    ensures exists n :: 0 <= n < |events| && BringsCall(events[n])
                        && Slots(events)[i] == Slot(IndexOf(events[n]), events[n].fields["item"], CallIn(events[n]))
  {
    var front := events[..|events| - 1];
    if i < |Slots(front)| {
      SlotsStem(front, i);
      var n :| 0 <= n < |front| && BringsCall(front[n])
               && Slots(front)[i] == Slot(IndexOf(front[n]), front[n].fields["item"], CallIn(front[n]));
      assert events[n] == front[n];
    } else {
      assert BringsCall(events[|events| - 1]);
    }
  }

  // ---------------------------------------------------------------------------
  // The collected side
  // ---------------------------------------------------------------------------

  function ItemsAfter(events: seq<Json>): map<int, Json> {
    if events == [] then map[] else Filed(ItemsAfter(events[..|events| - 1]), events[|events| - 1])
  }

  ghost predicate Ascending(slots: seq<Slot>) {
    forall i, j | 0 <= i < j < |slots| :: slots[i].index < slots[j].index
  }

  /** The tool calls among filed items are those of the slots. */
  ghost predicate Holds(items: map<int, Json>, slots: seq<Slot>) {
    && (forall i | 0 <= i < |slots| :: slots[i].index in items && items[slots[i].index] == slots[i].item)
    && (forall k | k in items && IsCallItem(items[k]) :: exists i :: 0 <= i < |slots| && slots[i].index == k)
    && (forall i | 0 <= i < |slots| :: IsCallItem(slots[i].item))
  }

  /** How an item event stands to the calls before it. */
  lemma EarlierSlots(events: seq<Json>, e: Json)
    requires IsBeginning(events + [e]) && FilesItem(e)
    ensures forall i | 0 <= i < |Slots(events)| ::
              if BringsCall(e) then
                Slots(events)[i].index < IndexOf(e) && Slots(events)[i].call.callId != CallIn(e).callId
              else Slots(events)[i].index != IndexOf(e)
  {
    var slots := Slots(events);
    forall i | 0 <= i < |slots|
      ensures if BringsCall(e) then slots[i].index < IndexOf(e) && slots[i].call.callId != CallIn(e).callId
              else slots[i].index != IndexOf(e)
    {
      SlotsStem(events, i);
      var n :| 0 <= n < |events| && BringsCall(events[n])
               && slots[i] == Slot(IndexOf(events[n]), events[n].fields["item"], CallIn(events[n]));
      assert (events + [e])[n] == events[n] && (events + [e])[|events|] == e;
      assert InOrder(events[n], e);
    }
  }

  /** A beginning without its last event. */
  lemma Shorter(events: seq<Json>)
    requires IsBeginning(events) && events != []
    ensures var front, e := events[..|events| - 1], events[|events| - 1];
            events == front + [e] && IsBeginning(front) && (BringsCall(e) || IsPlain(e))
  {
  }

  lemma {:induction false} ItemsHoldSlots(events: seq<Json>)
    requires IsBeginning(events)
    ensures Ascending(Slots(events)) && Holds(ItemsAfter(events), Slots(events))
  {
    if events != [] {
      var front, e := events[..|events| - 1], events[|events| - 1];
      Shorter(events);
      ItemsHoldSlots(front);
      var slots, items := Slots(front), ItemsAfter(front);
      Units(slots);
      if FilesItem(e) {
        EarlierSlots(front, e);
        FileOne(items, slots, e);
      } else {
        assert ItemsAfter(events) == items && Slots(events) == slots;
      }
    }
  }

  lemma FileOne(items: map<int, Json>, slots: seq<Slot>, e: Json)
    requires Holds(items, slots) && Ascending(slots) && FilesItem(e) && (BringsCall(e) || IsPlain(e))
    requires forall i | 0 <= i < |slots| ::
               if BringsCall(e) then slots[i].index < IndexOf(e) else slots[i].index != IndexOf(e)
    ensures var more := if BringsCall(e) then slots + [Slot(IndexOf(e), e.fields["item"], CallIn(e))] else slots;
            Ascending(more) && Holds(Filed(items, e), more)
  {
    if BringsCall(e) {
      AddSlot(items, slots, Slot(IndexOf(e), e.fields["item"], CallIn(e)));
    } else {
      assert !IsCallItem(e.fields["item"]);
      AddOther(items, slots, IndexOf(e), e.fields["item"]);
    }
  }

  lemma AddSlot(items: map<int, Json>, slots: seq<Slot>, last: Slot)
    requires Holds(items, slots) && Ascending(slots) && IsCallItem(last.item)
    requires forall i | 0 <= i < |slots| :: slots[i].index < last.index
    ensures Ascending(slots + [last]) && Holds(items[last.index := last.item], slots + [last])
  {
    var filed, more := items[last.index := last.item], slots + [last];
    forall k | k in filed && IsCallItem(filed[k])
      ensures exists i :: 0 <= i < |more| && more[i].index == k
    {
      if k == last.index {
        assert more[|slots|].index == k;
      } else {
        var i :| 0 <= i < |slots| && slots[i].index == k;
        assert more[i].index == k;
      }
    }
  }

  lemma AddOther(items: map<int, Json>, slots: seq<Slot>, k: int, item: Json)
    requires Holds(items, slots) && !IsCallItem(item)
    requires forall i | 0 <= i < |slots| :: slots[i].index != k
    ensures Holds(items[k := item], slots)
  {
  }

  function AsKnown(c: CompletedCall): Known {
    Known(c.callId, c.name, if c.arguments.Some? then c.arguments.value else "")
  }

  function AllKnown(calls: seq<CompletedCall>): seq<Known> {
    if calls == [] then [] else AllKnown(calls[..|calls| - 1]) + [AsKnown(calls[|calls| - 1])]
  }

  ghost predicate Faithful(slots: seq<Slot>) {
    forall i | 0 <= i < |slots| :: slots[i].item.Obj? && slots[i].call == AsKnown(CallOf(slots[i].item.fields))
  }

  lemma SlotsAreFaithful(events: seq<Json>)
    ensures Faithful(Slots(events))
  {
    forall i | 0 <= i < |Slots(events)|
      ensures Slots(events)[i].item.Obj? && Slots(events)[i].call == AsKnown(CallOf(Slots(events)[i].item.fields))
    {
      SlotsStem(events, i);
    }
  }

  /** Taking out the item with the largest index. */
  lemma LessOne(items: map<int, Json>, slots: seq<Slot>, k: int)
    requires Holds(items, slots) && Ascending(slots) && IsMaximum(items.Keys, k)
    ensures if IsCallItem(items[k]) then
              && slots != [] && slots[|slots| - 1].index == k && slots[|slots| - 1].item == items[k]
              && Holds(items - {k}, slots[..|slots| - 1])
            else Holds(items - {k}, slots)
  {
    var less := items - {k};
    if IsCallItem(items[k]) {
      var i :| 0 <= i < |slots| && slots[i].index == k;
      var last := slots[|slots| - 1].index;
      assert last in items.Keys && slots[i].index <= last;
      var fewer := slots[..|slots| - 1];
      forall j | j in less && IsCallItem(less[j])
        ensures exists i :: 0 <= i < |fewer| && fewer[i].index == j
      {
        var i :| 0 <= i < |slots| && slots[i].index == j;
        assert fewer[i].index == j;
      }
    }
  }

  lemma OrderedEnds(items: map<int, Json>) returns (k: int)
    requires |items| > 0
    ensures IsMaximum(items.Keys, k) && Ordered(items) == Ordered(items - {k}) + [items[k]]
  {
    MaximumExists(items.Keys);
    k :| k in items.Keys && (forall j | j in items.Keys :: j <= k) && Ordered(items) == Ordered(items - {k}) + [items[k]];
  }

  lemma KnownNext(front: seq<Json>, item: Json)
    ensures AllKnown(CallsOf(front + [item])) ==
            AllKnown(CallsOf(front)) + if IsCallItem(item) then [AsKnown(CallOf(item.fields))] else []
  {
    Undo(front, [item]);
    if IsCallItem(item) {
      Undo(CallsOf(front), [CallOf(item.fields)]);
    } else {
      Units(AllKnown(CallsOf(front)));
    }
  }

  lemma FrontSlots(slots: seq<Slot>)
    requires Ascending(slots) && Faithful(slots) && slots != []
    ensures var n := |slots| - 1;
            && Ascending(slots[..n]) && Faithful(slots[..n])
            && CallsIn(slots) == CallsIn(slots[..n]) + [AsKnown(CallOf(slots[n].item.fields))]
  {
  }

  lemma SomethingHeld(items: map<int, Json>, slots: seq<Slot>)
    requires Holds(items, slots) && slots != []
    ensures |items| > 0
  {
    assert slots[0].index in items.Keys;
  }

  /** Putting the items in index order leaves the calls in slot order. */
  lemma {:induction false} OrderedCalls(items: map<int, Json>, slots: seq<Slot>)
    requires Ascending(slots) && Holds(items, slots) && Faithful(slots)
    ensures AllKnown(CallsOf(Ordered(items))) == CallsIn(slots)
    decreases |items|
  {
    if slots != [] {
      SomethingHeld(items, slots);
    }
    if |items| > 0 {
      var k := OrderedEnds(items);
      var i := |slots| - 1;
      LessOne(items, slots, k);
      KnownNext(Ordered(items - {k}), items[k]);
      if IsCallItem(items[k]) {
        FrontSlots(slots);
        OrderedCalls(items - {k}, slots[..i]);
      } else {
        OrderedCalls(items - {k}, slots);
        Units(CallsIn(slots));
      }
    }
  }

  /** An event that does not end the collecting. */
  predicate Passes(e: Json) {
    TypeOf(e).Some? ==> TypeOf(e).value !in {"error", COMPLETED, INCOMPLETE, FAILED}
  }

  predicate AllPass(events: seq<Json>) {
    forall i | 0 <= i < |events| :: Passes(events[i])
  }

  lemma BeginningPasses(events: seq<Json>)
    requires IsBeginning(events)
    ensures AllPass(events)
  {
    forall i | 0 <= i < |events|
      ensures Passes(events[i])
    {
      assert BringsCall(events[i]) || IsPlain(events[i]);
    }
  }

  lemma {:induction false} CollectPast(before: seq<Json>, n: nat, after: seq<Json>)
    requires n <= |before| && AllPass(before)
    ensures Collected(before + after, map[]) == Collected(before[n..] + after, ItemsAfter(before[..n]))
  {
    if n == 0 {
      assert before[0..] == before;
    } else {
      CollectPast(before, n - 1, after);
      var e, rest := before[n - 1], before[n - 1..] + after;
      assert rest[0] == e && rest[1..] == before[n..] + after;
      assert before[..n][..n - 1] == before[..n - 1];
      assert Passes(e);
    }
  }

  // ---------------------------------------------------------------------------
  // The streamed side
  // ---------------------------------------------------------------------------

  function ReadingOf(call: Known): Reading {
    Reading(call.callId, call.name, if call.arguments == "" then None else Some(call.arguments), Increment, Some("function"))
  }

  function Sends(calls: seq<Known>): (r: seq<Delta>)
    ensures |r| == |calls| && forall i | 0 <= i < |r| :: r[i] == Delta(i, ReadingOf(calls[i]))
  {
    seq(|calls|, i requires 0 <= i < |calls| => Delta(i, ReadingOf(calls[i])))
  }

  /** A state in which every call so far went out whole, once, under its own number. */
  ghost predicate SentWhole(s: State, calls: seq<Known>) {
    && !s.ended && s.index.next == |calls| == |s.calls|
    && CallsSent(s.out) == Sends(calls)
    && (s.sawTool <==> calls != [])
    && KnowsOnly(s.index.indexes, calls)
  }

  lemma ReadCall(e: Json)
    requires BringsCall(e)
    ensures var c := CallIn(e);
            Read(e) == Some(Reading(c.callId, c.name, Some(c.arguments),
                                    if c.arguments == "" then Unknown else Snapshot, Some("function")))
  {
    var item := e.fields["item"].fields;
    assert "call_id" in item;
    assert "response.output_item." <= ITEM_DONE;
  }

  /** The numbers given out are those of the calls sent. */
  ghost predicate KnowsOnly(indexes: map<string, nat>, calls: seq<Known>) {
    forall k | k in indexes :: exists i :: 0 <= i < |calls| && Some(k) == KeyOf(calls[i].callId, None)
  }

  lemma NewKey(indexes: map<string, nat>, calls: seq<Known>, c: Known)
    requires KnowsOnly(indexes, calls) && Filled(c.callId)
    requires forall i | 0 <= i < |calls| :: calls[i].callId != c.callId
    ensures "id:" + c.callId.value !in indexes
    ensures KnowsOnly(indexes["id:" + c.callId.value := |calls|], calls + [c])
  {
    var key, more := "id:" + c.callId.value, calls + [c];
    assert key[3..] == c.callId.value;
    forall i | 0 <= i < |calls|
      ensures Some(key) != KeyOf(calls[i].callId, None)
    {
      assert Filled(calls[i].callId) ==> ("id:" + calls[i].callId.value)[3..] == calls[i].callId.value;
    }
    forall k | k in indexes || k == key
      ensures exists i :: 0 <= i < |more| && Some(k) == KeyOf(more[i].callId, None)
    {
      if k == key {
        assert Some(k) == KeyOf(more[|calls|].callId, None);
      } else {
        var i :| 0 <= i < |calls| && Some(k) == KeyOf(calls[i].callId, None);
        assert more[i] == calls[i];
      }
    }
  }

  /** A call arriving whole under a new number goes out whole. */
  lemma WholeCallGoesOut(calls: seq<Call>, c: Known, r: Reading)
    requires Filled(c.callId) && Filled(c.name)
    requires r == Reading(c.callId, c.name, Some(c.arguments), if c.arguments == "" then Unknown else Snapshot, Some("function"))
    ensures Outgoing(calls, Delta(|calls|, r)) == Some(Delta(|calls|, ReadingOf(c)))
    ensures |Merged(calls, Delta(|calls|, r))| == |calls| + 1
  {
  }

  /** An event that brings a call of an unknown id gives it the next number. */
  lemma CallStep(s: State, e: Json, includeUsage: bool)
    requires BringsCall(e) && !s.ended && s.index.next == |s.calls|
    requires "id:" + CallIn(e).callId.value !in s.index.indexes
    ensures Read(e).Some? && Step(s, e, includeUsage) == AfterTool(s, Delta(|s.calls|, Read(e).value))
  {
    ReadCall(e);
    var d := Delta(|s.calls|, Read(e).value);
    assert DeltaOf(s, e) == Some(d);
    WholeCallGoesOut(s.calls, CallIn(e), d.what);
    NotTerminal(AfterTool(s, d), e.fields, includeUsage);
  }

  lemma NotTerminal(s: State, o: Fields, includeUsage: bool)
    ensures AfterTerminal(s, o, ITEM_DONE, includeUsage) == s
  {
  }

  lemma SendCall(s: State, calls: seq<Known>, e: Json, includeUsage: bool)
    requires SentWhole(s, calls) && BringsCall(e)
    requires forall i | 0 <= i < |calls| :: calls[i].callId != CallIn(e).callId
    ensures SentWhole(Step(s, e, includeUsage), calls + [CallIn(e)])
  {
    ReadCall(e);
    NewKey(s.index.indexes, calls, CallIn(e));
    CallStep(s, e, includeUsage);
    SendWhole(s, calls, CallIn(e), Read(e).value);
  }

  lemma SendWhole(s: State, calls: seq<Known>, c: Known, r: Reading)
    requires SentWhole(s, calls) && Filled(c.callId) && Filled(c.name)
    requires r == Reading(c.callId, c.name, Some(c.arguments), if c.arguments == "" then Unknown else Snapshot, Some("function"))
    requires "id:" + c.callId.value !in s.index.indexes
    requires KnowsOnly(s.index.indexes["id:" + c.callId.value := |calls|], calls + [c])
    ensures SentWhole(AfterTool(s, Delta(|calls|, r)), calls + [c])
  {
    WholeCallGoesOut(s.calls, c, r);
    ToolSendsItsCall(s, Delta(|calls|, r));
    ToolGoesOut(s, Delta(|calls|, r));
    SendsOneMore(calls, c);
  }

  lemma ToolGoesOut(s: State, d: Delta)
    requires Outgoing(s.calls, d).Some?
    ensures var t := AfterTool(s, d);
            && t.sawTool && t.ended == s.ended && t.calls == Merged(s.calls, d)
            && t.index == Register(s.index, KeyOf(d.what.callId, d.what.name))
  {
  }

  lemma SendsOneMore(calls: seq<Known>, c: Known)
    ensures Sends(calls + [c]) == Sends(calls) + [Delta(|calls|, ReadingOf(c))]
  {
  }

  lemma PassPlain(s: State, calls: seq<Known>, e: Json, includeUsage: bool)
    requires SentWhole(s, calls) && IsPlain(e)
    ensures SentWhole(Step(s, e, includeUsage), calls)
  {
    if TypeOf(e) == Some(TEXT_DELTA) {
      var text := StringField(e.fields, "delta");
      NoCallsSent(s, [Content(!s.sentRole, if text.Some? then text.value else "")]);
    }
  }

  lemma {:induction false} BeginningIsSent(events: seq<Json>, includeUsage: bool)
    requires IsBeginning(events)
    ensures SentWhole(Run(events, includeUsage), CallsIn(Slots(events)))
  {
    if events != [] {
      var front, e := events[..|events| - 1], events[|events| - 1];
      Shorter(events);
      BeginningIsSent(front, includeUsage);
      var s, calls := Run(front, includeUsage), CallsIn(Slots(front));
      Units(Slots(front));
      if BringsCall(e) {
        EarlierSlots(front, e);
        SendCall(s, calls, e, includeUsage);
        assert CallsIn(Slots(events)) == calls + [CallIn(e)];
      } else {
        PassPlain(s, calls, e, includeUsage);
      }
    }
  }

  // ---------------------------------------------------------------------------
  // What the client holds
  // ---------------------------------------------------------------------------

  function CallCount(sent: seq<Delta>): nat {
    if sent == [] then 0
    else
      var n, last := CallCount(sent[..|sent| - 1]), sent[|sent| - 1].index + 1;
      if n < last then last else n
  }

  /** The tool-call list of a client that puts the chunks together by index. */
  function ClientCalls(sent: seq<Delta>): (r: seq<Known>)
    ensures |r| == CallCount(sent) && forall i | 0 <= i < |r| :: r[i] == ClientCall(sent, i)
  {
    seq(CallCount(sent), i requires 0 <= i < CallCount(sent) => ClientCall(sent, i))
  }

  function FinishReason(out: seq<Chunk>): Option<string> {
    if out == [] then None
    else if out[|out| - 1].Finish? then Some(out[|out| - 1].reason)
    else FinishReason(out[..|out| - 1])
  }

  lemma {:induction false} ClientHolds(calls: seq<Known>, n: nat, i: nat)
    requires n <= |calls|
    ensures CallCount(Sends(calls)[..n]) == n
    ensures ClientCall(Sends(calls)[..n], i) ==
            if i < n then Known(calls[i].callId, calls[i].name, calls[i].arguments).(
                callId := OrElse(calls[i].callId, None), name := OrElse(calls[i].name, None))
            else Known(None, None, "")
  {
    if n > 0 {
      ClientHolds(calls, n - 1, i);
      assert Sends(calls)[..n][..n - 1] == Sends(calls)[..n - 1];
      Units(calls[n - 1].arguments);
    }
  }

  lemma ClientHoldsAll(calls: seq<Known>)
    ensures ClientCalls(Sends(calls)) == calls
  {
    assert Sends(calls)[..|calls|] == Sends(calls);
    ClientHolds(calls, |calls|, 0);
    forall i | 0 <= i < |calls|
      ensures ClientCall(Sends(calls), i) == calls[i]
    {
      ClientHolds(calls, |calls|, i);
    }
  }

  // ---------------------------------------------------------------------------
  // Agreement
  // ---------------------------------------------------------------------------

  function Whole(before: seq<Json>, e: Json, after: seq<Json>): seq<Json> {
    before + ([e] + after)
  }

  lemma EndStep(s: State, e: Json, includeUsage: bool)
    requires !s.ended && IsEnd(e)
    ensures Step(s, e, includeUsage) == AfterTerminal(s, e.fields, TypeOf(e).value, includeUsage)
    ensures Step(s, e, includeUsage).ended
  {
  }

  /** The terminal event adds no call, and says how the stream came out. */
  lemma StreamEnds(before: seq<Json>, e: Json, after: seq<Json>, includeUsage: bool)
    requires !Run(before, includeUsage).ended && IsEnd(e)
    ensures var s, out := Run(before, includeUsage), Translate(Whole(before, e, after), includeUsage);
            && CallsSent(out) == CallsSent(s.out)
            && FinishReason(out) == Some(FinalReason(s.sawTool, e.fields, TypeOf(e) == Some(INCOMPLETE)))
  {
    var events, s := Whole(before, e, after), Run(before, includeUsage);
    assert events[..|before|] == before && events[|before|] == e;
    RunNext(events, |before|, includeUsage);
    EndStep(s, e, includeUsage);
    EndIsFinal(events, |before| + 1, includeUsage);
    TerminalSendsNoCalls(s, e.fields, TypeOf(e).value, includeUsage);
    FinishIsFound(s, e.fields, TypeOf(e).value, includeUsage);
  }

  lemma Streamed(before: seq<Json>, e: Json, after: seq<Json>, includeUsage: bool)
    requires IsBeginning(before) && IsEnd(e)
    ensures var out := Translate(Whole(before, e, after), includeUsage);
            var calls := CallsIn(Slots(before));
            && ClientCalls(CallsSent(out)) == calls
            && FinishReason(out) == Some(FinalReason(calls != [], e.fields, TypeOf(e) == Some(INCOMPLETE)))
  {
    BeginningIsSent(before, includeUsage);
    StreamEnds(before, e, after, includeUsage);
    ClientHoldsAll(CallsIn(Slots(before)));
  }

  lemma FinishIsFound(s: State, o: Fields, kind: string, includeUsage: bool)
    requires kind == COMPLETED || kind == INCOMPLETE
    ensures FinishReason(AfterTerminal(s, o, kind, includeUsage).out) ==
            Some(FinalReason(s.sawTool, o, kind == INCOMPLETE))
  {
    var finish := Finish(FinalId(o), FinalReason(s.sawTool, o, kind == INCOMPLETE));
    var usage := if includeUsage then [Usage(FinalId(o), FinalUsage(o))] else [];
    var out := s.out + ([finish] + usage + [Done]);
    var most := s.out + [finish] + usage;
    assert out[..|out| - 1] == most && out[|out| - 1] == Done;
    if includeUsage {
      assert most[..|most| - 1] == s.out + [finish];
    }
    assert FinishReason(s.out + [finish]) == Some(finish.reason);
    assert FinishReason(out) == FinishReason(most);
  }

  lemma CollectedBody(before: seq<Json>, e: Json, after: seq<Json>)
    requires AllPass(before) && IsEnd(e)
    ensures Collected(Whole(before, e, after), map[]) ==
            Some(Obj(WithOutput(ObjectField(e.fields, "response").value, ItemsAfter(before))))
  {
    CollectPast(before, |before|, [e] + after);
    assert before[..|before|] == before;
    Units([e] + after);
    assert before[|before|..] + ([e] + after) == [e] + after;
  }

  lemma CollectedCalls(before: seq<Json>, response: Fields)
    requires IsBeginning(before) && EmptyOrMissing(response, "output")
    ensures AllKnown(CallsOf(OutputOf(WithOutput(response, ItemsAfter(before))))) == CallsIn(Slots(before))
  {
    ItemsHoldSlots(before);
    SlotsAreFaithful(before);
    OrderedCalls(ItemsAfter(before), Slots(before));
    if ItemsAfter(before) == map[] {
      assert OutputOf(WithOutput(response, ItemsAfter(before))) == [] == Ordered(ItemsAfter(before));
    }
  }

  /**
    When every tool call comes whole, in index order and with an id of its own, and
    the response that ends the stream has no output of its own, the collected body
    becomes a completion exactly if that response has no "error" key; then the
    client's tool calls and finish reason are the completion's.
  */
  lemma StreamAgreesWithBody(before: seq<Json>, e: Json, after: seq<Json>, includeUsage: bool, model: string)
    requires IsBeginning(before) && IsEnd(e)
    ensures var out := Translate(Whole(before, e, after), includeUsage);
            var body := Collected(Whole(before, e, after), map[]);
            && body.Some?
            && var r := Completed(200, body.value, model);
            && (r.Chat? <==> "error" !in e.fields["response"].fields)
            && (r.Chat? ==>
                  && ClientCalls(CallsSent(out)) == AllKnown(r.completion.calls)
                  && FinishReason(out) == Some(r.completion.reason))
  {
    var response := ObjectField(e.fields, "response").value;
    var o := WithOutput(response, ItemsAfter(before));
    Streamed(before, e, after, includeUsage);
    BeginningPasses(before);
    CollectedBody(before, e, after);
    CollectedCalls(before, response);
    SameReason(response, ItemsAfter(before));
    var calls := CallsOf(OutputOf(o));
    assert calls != [] <==> AllKnown(calls) != [];
  }

  lemma SameReason(response: Fields, items: map<int, Json>)
    ensures FinishReasonFromIncomplete(Obj(WithOutput(response, items))) == FinishReasonFromIncomplete(Obj(response))
    ensures StringField(WithOutput(response, items), "status") == StringField(response, "status")
    ensures "error" in WithOutput(response, items) <==> "error" in response
  {
    assert "output" != "incomplete_details" && "output" != "status" && "output" != "error";
  }

  // ---------------------------------------------------------------------------
  // A completion that goes missing
  // ---------------------------------------------------------------------------

  /**
    A call that came whole, and then a completion event that carries its id: the event
    says nothing new of the call and is skipped, so that the client is told the stream
    was cut short.
  */
  lemma RepeatedIdHidesCompletion(e: Json, end: Json, includeUsage: bool)
    requires BringsCall(e) && (TypeOf(end) == Some(COMPLETED) || TypeOf(end) == Some(INCOMPLETE))
    requires Read(end).Some? && Read(end).value.callId == CallIn(e).callId
    requires Read(end).value.name.None? && Read(end).value.arguments.None?
    ensures Translate([e, end], includeUsage) == [ToolCall(true, Delta(0, ReadingOf(CallIn(e)))), CUT_SHORT, Done]
  {
    var s := Run([e], includeUsage);
    AfterOneCall(e, includeUsage);
    assert [e] + [end] == [e, end];
    assert DeltaOf(s, end) == Some(Delta(0, Read(end).value));
    CompletionFinishesUnlessStale([e], end, includeUsage);
  }

  lemma AfterOneCall(e: Json, includeUsage: bool)
    requires BringsCall(e)
    ensures var s, c := Run([e], includeUsage), CallIn(e);
            && !s.ended && s.out == [ToolCall(true, Delta(0, ReadingOf(c)))]
            && |s.calls| == 1 && s.calls[0].emittedCallId == c.callId
            && s.index.indexes == map["id:" + c.callId.value := 0]
  {
    var c := CallIn(e);
    RunOneMore([], e, includeUsage);
    assert [] + [e] == [e];
    ReadCall(e);
    CallStep(START, e, includeUsage);
    WholeCallGoesOut([], c, Read(e).value);
  }

  const CALL_ITEM: Fields := map[
    "type" := Str("function_call"), "call_id" := Str("c"), "name" := Str("f"), "arguments" := Str("{}")]
  const CALL_DONE: Fields := map["type" := Str(ITEM_DONE), "output_index" := Number(0.0), "item" := Obj(CALL_ITEM)]
  const COMPLETION: Fields := map["type" := Str(COMPLETED), "call_id" := Str("c"), "response" := Obj(map[])]

  lemma FirstOfTwo(a: Option<string>, b: Option<string>)
    ensures FirstNonEmpty([a, b]) == if Filled(a) then a else if Filled(b) then b else None
  {
    assert [a, b][1..] == [b] && [b][1..] == [];
    assert FirstNonEmpty([b]) == if Filled(b) then b else None;
  }

  lemma CallDoneBringsCall()
    ensures BringsCall(Obj(CALL_DONE)) && CallIn(Obj(CALL_DONE)) == Known(Some("c"), Some("f"), "{}")
  {
    FirstOfTwo(StringField(CALL_ITEM, "tool_type"), StringField(CALL_ITEM, "type"));
    assert "function_call"[0] != "response."[0];
    assert ReadToolType(CALL_ITEM) == Some("function");
  }

  lemma CompletionCarriesId()
    ensures TypeOf(Obj(COMPLETION)) == Some(COMPLETED) && Read(Obj(COMPLETION)).Some?
    ensures var r := Read(Obj(COMPLETION)).value; r.callId == Some("c") && r.name.None? && r.arguments.None?
  {
    assert ObjectField(COMPLETION, "delta").None? && ObjectField(COMPLETION, "item").None?;
    FirstOfTwo(StringField(COMPLETION, "name"), StringField(COMPLETION, "tool_name"));
    assert FirstNonEmpty([StringField(COMPLETION, "delta")]) == None;
    assert ReadName(COMPLETION, None) == None && ReadArguments(COMPLETION, None) == None;
    assert ReadCallId(COMPLETION, None) == Some("c");
  }

  /** Such a stream. */
  lemma ACompletionGoesMissing(includeUsage: bool)
    ensures Translate([Obj(CALL_DONE), Obj(COMPLETION)], includeUsage) ==
            [ToolCall(true, Delta(0, ReadingOf(Known(Some("c"), Some("f"), "{}")))), CUT_SHORT, Done]
  {
    CallDoneBringsCall();
    CompletionCarriesId();
    RepeatedIdHidesCompletion(Obj(CALL_DONE), Obj(COMPLETION), includeUsage);
  }
}
