/**
  The text of a streamed chat completion against that of the collected one. A client
  puts together the text deltas, the collected completion the texts of the items filed.
*/
module ChatText {
  import opened Options
  import opened Sequences
  import opened Json
  import opened ToolCalls
  import opened ChatStream
  import opened ChatCompletion
  import opened ChatAgreement

  // ---------------------------------------------------------------------------
  // The streamed side
  // ---------------------------------------------------------------------------

  function ChunkText(c: Chunk): string {
    if c.Content? then c.text else ""
  }

  /** What a client that appends the content chunks holds. */
  function TextOf(out: seq<Chunk>): string {
    if out == [] then "" else TextOf(out[..|out| - 1]) + ChunkText(out[|out| - 1])
  }

  function DeltaText(e: Json): string {
    if TypeOf(e) != Some(TEXT_DELTA) then ""
    else
      var text := StringField(e.fields, "delta");
      if text.Some? then text.value else ""
  }

  /** The text deltas of a stream, joined. */
  function DeltasText(events: seq<Json>): string {
    if events == [] then "" else DeltasText(events[..|events| - 1]) + DeltaText(events[|events| - 1])
  }

  lemma TextNext(out: seq<Chunk>, c: Chunk)
    ensures TextOf(out + [c]) == TextOf(out) + ChunkText(c)
  {
    Undo(out, [c]);
  }

  lemma NoTextNext(out: seq<Chunk>, c: Chunk)
    requires !c.Content?
    ensures TextOf(out + [c]) == TextOf(out)
  {
    TextNext(out, c);
    Units(TextOf(out));
  }

  lemma ToolSaysNoText(s: State, d: Delta)
    ensures TextOf(AfterTool(s, d).out) == TextOf(s.out)
  {
    var out := Outgoing(s.calls, d);
    if out.Some? {
      NoTextNext(s.out, ToolCall(!s.sentRole, out.value));
    }
  }

  lemma PassingIsNotTerminal(s: State, e: Json, includeUsage: bool)
    requires Passes(e) && TypeOf(e).Some?
    ensures AfterTerminal(s, e.fields, TypeOf(e).value, includeUsage) == s
  {
  }

  lemma StepText(s: State, e: Json, includeUsage: bool)
    requires !s.ended && Passes(e)
    ensures var t := Step(s, e, includeUsage); !t.ended && TextOf(t.out) == TextOf(s.out) + DeltaText(e)
  {
    Units(TextOf(s.out));
    if TypeOf(e) == Some(TEXT_DELTA) {
      TextNext(s.out, Content(!s.sentRole, DeltaText(e)));
    } else if TypeOf(e).Some? {
      var d := DeltaOf(s, e);
      PassingIsNotTerminal(if d.Some? then AfterTool(s, d.value) else s, e, includeUsage);
      if d.Some? {
        ToolSaysNoText(s, d.value);
      }
    }
  }

  lemma {:induction false} RunText(events: seq<Json>, includeUsage: bool)
    requires AllPass(events)
    ensures var s := Run(events, includeUsage); !s.ended && TextOf(s.out) == DeltasText(events)
  {
    if events != [] {
      var n := |events| - 1;
      RunText(events[..n], includeUsage);
      assert Passes(events[n]);
      StepText(Run(events[..n], includeUsage), events[n], includeUsage);
    }
  }

  lemma {:induction false} NoText(a: seq<Chunk>, b: seq<Chunk>)
    requires forall i | 0 <= i < |b| :: !b[i].Content?
    ensures TextOf(a + b) == TextOf(a)
    decreases |b|
  {
    if b == [] {
      Units(a);
    } else {
      var n := |b| - 1;
      NoText(a, b[..n]);
      NoTextNext(a + b[..n], b[n]);
      assert a + b == a + b[..n] + [b[n]];
    }
  }

  lemma TerminalSaysNoText(s: State, o: Fields, kind: string, includeUsage: bool)
    requires kind == COMPLETED || kind == INCOMPLETE
    ensures TextOf(AfterTerminal(s, o, kind, includeUsage).out) == TextOf(s.out)
  {
    var usage := if includeUsage then [Usage(FinalId(o), FinalUsage(o))] else [];
    NoText(s.out, [Finish(FinalId(o), FinalReason(s.sawTool, o, kind == INCOMPLETE))] + usage + [Done]);
  }

  lemma StreamedText(before: seq<Json>, e: Json, after: seq<Json>, includeUsage: bool)
    requires AllPass(before) && IsEnd(e)
    ensures TextOf(Translate(Whole(before, e, after), includeUsage)) == DeltasText(before)
  {
    var events, s := Whole(before, e, after), Run(before, includeUsage);
    RunText(before, includeUsage);
    assert events[..|before|] == before && events[|before|] == e;
    RunNext(events, |before|, includeUsage);
    EndStep(s, e, includeUsage);
    EndIsFinal(events, |before| + 1, includeUsage);
    TerminalSaysNoText(s, e.fields, TypeOf(e).value, includeUsage);
  }

  // ---------------------------------------------------------------------------
  // The collected side
  // ---------------------------------------------------------------------------

  function FiledText(e: Json): string {
    if FilesItem(e) then ItemText(e.fields["item"]) else ""
  }

  /** The texts of the items of a stream, in the order they came, joined. */
  function ItemsText(events: seq<Json>): string {
    if events == [] then "" else ItemsText(events[..|events| - 1]) + FiledText(events[|events| - 1])
  }

  /** Two events in this order: items keep to the order of their indices, and only one without text is filed again. */
  predicate FiledInOrder(a: Json, b: Json) {
    FilesItem(a) && FilesItem(b) ==> IndexOf(a) <= IndexOf(b) && (IndexOf(a) == IndexOf(b) ==> FiledText(a) == "")
  }

  predicate AllInOrder(events: seq<Json>) {
    forall i, j | 0 <= i < j < |events| :: FiledInOrder(events[i], events[j])
  }

  /** Every filed item stems from an event. */
  lemma {:induction false} ItemStems(events: seq<Json>, k: int) returns (n: nat)
    requires k in ItemsAfter(events)
    ensures n < |events| && FilesItem(events[n]) && IndexOf(events[n]) == k && events[n].fields["item"] == ItemsAfter(events)[k]
  {
    n := |events| - 1;
    if !FilesItem(events[n]) || IndexOf(events[n]) != k {
      n := ItemStems(events[..n], k);
    }
  }

  lemma OutputTextNext(output: seq<Json>, item: Json)
    ensures OutputText(output + [item]) == OutputText(output) + ItemText(item)
  {
    Undo(output, [item]);
  }

  /** The text of items without the one under the largest index. */
  lemma LastItemText(items: map<int, Json>, k: int, less: map<int, Json>, item: Json)
    requires IsMaximum(items.Keys, k) && less == items - {k} && items[k] == item
    ensures OutputText(Ordered(items)) == OutputText(Ordered(less)) + ItemText(item)
  {
    assert k in items.Keys;
    var j := OrderedEnds(items);
    assert j == k;
    OutputTextNext(Ordered(less), item);
  }

  lemma FiledIsLast(items: map<int, Json>, k: int, item: Json)
    requires forall j | j in items :: j <= k
    ensures IsMaximum(items[k := item].Keys, k) && items[k := item] - {k} == items - {k}
    ensures if k in items then IsMaximum(items.Keys, k) else items - {k} == items
  {
  }

  /** An item filed behind all others, or in the place of a last one without text. */
  lemma FileLast(items: map<int, Json>, k: int, item: Json)
    requires forall j | j in items :: j <= k
    requires k in items ==> ItemText(items[k]) == ""
    ensures OutputText(Ordered(items[k := item])) == OutputText(Ordered(items)) + ItemText(item)
  {
    var less, more := items - {k}, items[k := item];
    FiledIsLast(items, k, item);
    LastItemText(more, k, less, item);
    FewerSameText(items, k, less);
  }

  lemma FewerSameText(items: map<int, Json>, k: int, less: map<int, Json>)
    requires less == items - {k} && if k in items then IsMaximum(items.Keys, k) else less == items
    requires k in items ==> ItemText(items[k]) == ""
    ensures OutputText(Ordered(less)) == OutputText(Ordered(items))
  {
    if k in items {
      LastItemText(items, k, less, items[k]);
      Units(OutputText(Ordered(less)));
    }
  }

  lemma {:induction false} ItemsInOrder(events: seq<Json>)
    requires AllInOrder(events)
    ensures OutputText(Ordered(ItemsAfter(events))) == ItemsText(events)
  {
    if events != [] {
      var front, e := events[..|events| - 1], events[|events| - 1];
      ItemsInOrder(front);
      if FilesItem(e) {
        LastInOrder(events);
        FileLast(ItemsAfter(front), IndexOf(e), e.fields["item"]);
      } else {
        Units(ItemsText(front));
      }
    }
  }

  lemma LastInOrder(events: seq<Json>)
    requires AllInOrder(events) && events != [] && FilesItem(events[|events| - 1])
    ensures var items, k := ItemsAfter(events[..|events| - 1]), IndexOf(events[|events| - 1]);
            && (forall j | j in items :: j <= k)
            && (k in items ==> ItemText(items[k]) == "")
  {
    var front, e := events[..|events| - 1], events[|events| - 1];
    forall j | j in ItemsAfter(front)
      ensures j <= IndexOf(e) && (j == IndexOf(e) ==> ItemText(ItemsAfter(front)[j]) == "")
    {
      var n := ItemStems(front, j);
      assert front[n] == events[n] && FiledInOrder(events[n], e);
    }
  }

  lemma CollectedText(before: seq<Json>, response: Fields)
    requires AllInOrder(before) && EmptyOrMissing(response, "output")
    ensures OutputText(OutputOf(WithOutput(response, ItemsAfter(before)))) == ItemsText(before)
  {
    ItemsInOrder(before);
    if ItemsAfter(before) == map[] {
      assert OutputOf(WithOutput(response, ItemsAfter(before))) == [] == Ordered(ItemsAfter(before));
    }
  }

  // ---------------------------------------------------------------------------
  // Agreement
  // ---------------------------------------------------------------------------

  /**
    With items filed in index order, the client holds the collected completion's text,
    if and only if the text deltas join to what the texts of the items join to.
  */
  lemma TextAgreesIff(before: seq<Json>, e: Json, after: seq<Json>, includeUsage: bool, model: string)
    requires AllPass(before) && AllInOrder(before) && IsEnd(e)
    ensures var out := Translate(Whole(before, e, after), includeUsage);
            var body := Collected(Whole(before, e, after), map[]);
            && body.Some?
            && var r := Completed(200, body.value, model);
            r.Chat? ==>
              (TextOf(out) == (if r.completion.content.Some? then r.completion.content.value else "")
               <==> DeltasText(before) == ItemsText(before))
  {
    StreamedText(before, e, after, includeUsage);
    CollectedBody(before, e, after);
    CollectedText(before, ObjectField(e.fields, "response").value);
  }
}
