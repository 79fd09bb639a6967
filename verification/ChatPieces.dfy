/**
  Streams in which calls are spelled out: announced by an added item, their arguments in
  pieces that name no call, then whole, and at last the finished item. The pieces all go
  to call 0; this is when the client still holds what the collected completion does.
*/
module ChatPieces {
  import opened Options
  import opened Sequences
  import opened Json
  import opened ToolCalls
  import opened ChatStream
  import opened ChatCompletion
  import opened ChatAgreement

  // ---------------------------------------------------------------------------
  // The streams
  // ---------------------------------------------------------------------------

  /** An event, or the events that spell out a call. */
  datatype Part =
    | Other(e: Json)
    | Spelled(added: Json, pieces: seq<Json>, whole: Json, done: Json)

  /** Neither text nor an end. */
  predicate IsMiddle(e: Json) {
    TypeOf(e).Some? && TypeOf(e).value !in {TEXT_DELTA, "error", COMPLETED, INCOMPLETE, FAILED}
  }

  predicate NamesNoCall(r: Reading) {
    KeyOf(r.callId, r.name).None?
  }

  /** A piece of some call's arguments, without a word of which. */
  predicate IsArgumentPiece(e: Json) {
    && IsMiddle(e) && !FilesItem(e) && Read(e).Some? && NamesNoCall(Read(e).value)
    && Filled(Read(e).value.arguments) && Read(e).value.mode == Increment
  }

  function PieceText(e: Json): string
    requires IsArgumentPiece(e)
  {
    Read(e).value.arguments.value
  }

  predicate ArePieces(pieces: seq<Json>) {
    forall i | 0 <= i < |pieces| :: IsArgumentPiece(pieces[i])
  }

  function Joined(pieces: seq<Json>): string
    requires ArePieces(pieces)
  {
    if pieces == [] then "" else Joined(pieces[..|pieces| - 1]) + PieceText(pieces[|pieces| - 1])
  }

  predicate IsSpelled(p: Part) {
    && p.Spelled? && BringsCall(p.done) && ArePieces(p.pieces)
    && var c := CallIn(p.done);
    // the announcement: the call's id and name, under the same index
    && IsMiddle(p.added) && FilesItem(p.added) && IndexOf(p.added) == IndexOf(p.done)
    && Read(p.added).Some? && Read(p.added).value.callId == c.callId && Read(p.added).value.name == c.name
    && !Filled(Read(p.added).value.arguments)
    // the pieces add up to the arguments, and are then said once more as a whole
    && Joined(p.pieces) == c.arguments
    && IsMiddle(p.whole) && !FilesItem(p.whole)
    && Read(p.whole).Some? && NamesNoCall(Read(p.whole).value)
    && Read(p.whole).value.arguments == Some(c.arguments) && Read(p.whole).value.mode != Increment
  }

  predicate IsPart(p: Part) {
    if p.Other? then BringsCall(p.e) || IsPlain(p.e) else IsSpelled(p)
  }

  function PartEvents(p: Part): seq<Json> {
    if p.Other? then [p.e] else [p.added] + (p.pieces + [p.whole, p.done])
  }

  function EventsOf(parts: seq<Part>): seq<Json> {
    if parts == [] then [] else EventsOf(parts[..|parts| - 1]) + PartEvents(parts[|parts| - 1])
  }

  function LastEvent(p: Part): Json {
    if p.Other? then p.e else p.done
  }

  /** The same stream with every call whole. */
  function Reduced(parts: seq<Part>): (r: seq<Json>)
    ensures |r| == |parts| && forall i | 0 <= i < |r| :: r[i] == LastEvent(parts[i])
  {
    seq(|parts|, i requires 0 <= i < |parts| => LastEvent(parts[i]))
  }

  predicate AreParts(parts: seq<Part>) {
    (forall i | 0 <= i < |parts| :: IsPart(parts[i])) && IsBeginning(Reduced(parts))
  }

  /** The arguments a part spells out in pieces. */
  function SpelledText(p: Part): string {
    if IsSpelled(p) then CallIn(p.done).arguments else ""
  }

  /** What a part brings to call 0 though it is another call's. */
  function Stray(front: seq<Part>, p: Part): string {
    if Slots(Reduced(front)) == [] then "" else SpelledText(p)
  }

  function Strays(parts: seq<Part>): (r: seq<string>)
    ensures |r| == |parts| && forall i | 0 <= i < |r| :: r[i] == Stray(parts[..i], parts[i])
  {
    seq(|parts|, i requires 0 <= i < |parts| => Stray(parts[..i], parts[i]))
  }

  function Concat(texts: seq<string>): string {
    if texts == [] then "" else Concat(texts[..|texts| - 1]) + texts[|texts| - 1]
  }

  function Surplus(parts: seq<Part>): string {
    Concat(Strays(parts))
  }

  // ---------------------------------------------------------------------------
  // The collected side does not see the difference
  // ---------------------------------------------------------------------------

  lemma {:induction false} ItemsConcat(a: seq<Json>, b: seq<Json>)
    requires forall i | 0 <= i < |b| :: !FilesItem(b[i])
    ensures ItemsAfter(a + b) == ItemsAfter(a)
    decreases |b|
  {
    if b == [] {
      Units(a);
    } else {
      assert (a + b)[..|a + b| - 1] == a + b[..|b| - 1];
      ItemsConcat(a, b[..|b| - 1]);
    }
  }

  lemma ItemsNext(a: seq<Json>, e: Json)
    ensures ItemsAfter(a + [e]) == Filed(ItemsAfter(a), e)
  {
    Undo(a, [e]);
  }

  lemma PartUnfolds(before: seq<Json>, p: Part)
    requires p.Spelled?
    ensures before + PartEvents(p) == ((before + [p.added]) + (p.pieces + [p.whole])) + [p.done]
  {
    assert [p.whole, p.done] == [p.whole] + [p.done];
    Assoc(p.pieces, [p.whole], [p.done]);
    Assoc(before, [p.added], p.pieces + [p.whole, p.done]);
    Assoc(before + [p.added], p.pieces + [p.whole], [p.done]);
  }

  lemma MiddleFilesNothing(p: Part)
    requires IsSpelled(p)
    ensures var middle := p.pieces + [p.whole]; forall i | 0 <= i < |middle| :: !FilesItem(middle[i])
  {
    var middle := p.pieces + [p.whole];
    forall i | 0 <= i < |middle|
      ensures !FilesItem(middle[i])
    {
      assert i < |p.pieces| ==> IsArgumentPiece(p.pieces[i]);
    }
  }

  lemma RefiledAt(items: map<int, Json>, a: Json, b: Json)
    requires FilesItem(a) && FilesItem(b) && IndexOf(a) == IndexOf(b)
    ensures Filed(Filed(items, a), b) == Filed(items, b)
  {
  }

  lemma ItemsAfterSpelled(before: seq<Json>, p: Part)
    requires IsSpelled(p)
    ensures ItemsAfter(before + PartEvents(p)) == Filed(ItemsAfter(before), p.done)
  {
    var announced, middle := before + [p.added], p.pieces + [p.whole];
    PartUnfolds(before, p);
    ItemsNext(before, p.added);
    MiddleFilesNothing(p);
    ItemsConcat(announced, middle);
    ItemsNext(announced + middle, p.done);
    RefiledAt(ItemsAfter(before), p.added, p.done);
  }

  lemma ItemsAfterPart(before: seq<Json>, p: Part)
    requires IsPart(p)
    ensures ItemsAfter(before + PartEvents(p)) == Filed(ItemsAfter(before), LastEvent(p))
  {
    if p.Other? {
      ItemsNext(before, p.e);
    } else {
      ItemsAfterSpelled(before, p);
    }
  }

  lemma ReducedNext(parts: seq<Part>)
    requires parts != []
    ensures Reduced(parts) == Reduced(parts[..|parts| - 1]) + [LastEvent(parts[|parts| - 1])]
  {
    var reduced := Reduced(parts[..|parts| - 1]) + [LastEvent(parts[|parts| - 1])];
    assert |Reduced(parts)| == |reduced|;
    assert forall i | 0 <= i < |parts| :: Reduced(parts)[i] == reduced[i];
  }

  lemma SameItemsNext(a: seq<Json>, b: seq<Json>, p: Part)
    requires IsPart(p) && ItemsAfter(a) == ItemsAfter(b)
    ensures ItemsAfter(a + PartEvents(p)) == ItemsAfter(b + [LastEvent(p)])
  {
    ItemsAfterPart(a, p);
    ItemsNext(b, LastEvent(p));
  }

  lemma {:induction false} SameItems(parts: seq<Part>)
    requires forall i | 0 <= i < |parts| :: IsPart(parts[i])
    ensures ItemsAfter(EventsOf(parts)) == ItemsAfter(Reduced(parts))
  {
    if parts != [] {
      var front, last := parts[..|parts| - 1], parts[|parts| - 1];
      SameItems(front);
      SameItemsNext(EventsOf(front), Reduced(front), last);
      ReducedNext(parts);
    }
  }

  lemma MiddlePasses(e: Json)
    requires IsMiddle(e) || BringsCall(e) || IsPlain(e)
    ensures Passes(e)
  {
  }

  lemma PiecePasses(pieces: seq<Json>)
    requires ArePieces(pieces)
    ensures AllPass(pieces)
  {
    forall i | 0 <= i < |pieces|
      ensures Passes(pieces[i])
    {
      assert IsArgumentPiece(pieces[i]);
      MiddlePasses(pieces[i]);
    }
  }

  lemma SpelledPasses(p: Part)
    requires IsSpelled(p)
    ensures AllPass([p.added]) && AllPass(p.pieces) && AllPass([p.whole, p.done])
  {
    MiddlePasses(p.added);
    MiddlePasses(p.whole);
    MiddlePasses(p.done);
    PiecePasses(p.pieces);
  }

  lemma PartPasses(p: Part)
    requires IsPart(p)
    ensures AllPass(PartEvents(p))
  {
    if p.Other? {
      MiddlePasses(p.e);
    } else {
      SpelledPasses(p);
    }
  }

  lemma {:induction false} PartsPass(parts: seq<Part>)
    requires forall i | 0 <= i < |parts| :: IsPart(parts[i])
    ensures AllPass(EventsOf(parts))
  {
    if parts != [] {
      PartsPass(parts[..|parts| - 1]);
      PartPasses(parts[|parts| - 1]);
    }
  }

  // ---------------------------------------------------------------------------
  // The streamed side, one delta at a time
  // ---------------------------------------------------------------------------

  function ClientOf(s: State, i: nat): Known {
    ClientCall(CallsSent(s.out), i)
  }

  /** What one merged delta does to either side's view of a call. */
  lemma ToolView(s: State, d: Delta, i: nat)
    ensures var t := AfterTool(s, d);
            var hit, known, call := d.index == i, ClientOf(s, i), CallAt(s.calls, i);
            && CallAt(t.calls, i) == (if hit then MergeInto(call, d.what) else call)
            && ClientOf(t, i) == if hit then Learn(known, Emitted(call, d.what)) else known
  {
    MergedAt(s.calls, d, i);
    ToolSendsItsCall(s, d);
    ClientNext(CallsSent(s.out), Outgoing(s.calls, d), i);
    Units(ClientOf(s, i).arguments);
  }

  lemma CountNext(sent: seq<Delta>, o: Option<Delta>)
    ensures CallCount(sent + Sent(o)) ==
            if o.Some? && o.value.index + 1 > CallCount(sent) then o.value.index + 1 else CallCount(sent)
  {
    if o.Some? {
      Undo(sent, [o.value]);
    } else {
      Units(sent);
    }
  }

  lemma MiddleStep(s: State, e: Json, includeUsage: bool)
    requires !s.ended && IsMiddle(e) && Read(e).Some?
    ensures DeltaOf(s, e).Some? && Step(s, e, includeUsage) == AfterTool(s, DeltaOf(s, e).value)
  {
  }

  /** The stream so far: the calls by their ids, and what the client holds of them. */
  ghost predicate Holding(s: State, calls: seq<Known>, known: seq<Known>) {
    && !s.ended && s.index.next == |calls| == |s.calls| == |known| == CallCount(CallsSent(s.out))
    && (s.sawTool <==> calls != [])
    && KnowsOnly(s.index.indexes, calls)
    && forall i | 0 <= i < |known| :: ClientOf(s, i) == known[i]
  }

  /** What the server has of one call. */
  predicate HasSent(s: State, n: nat, c: Known, arguments: string) {
    && n < |s.calls| && s.calls[n].emittedCallId == c.callId && s.calls[n].emittedName == c.name
    && s.calls[n].arguments == arguments
  }

  predicate IsAnnouncement(r: Reading, c: Known) {
    Filled(c.callId) && Filled(c.name) && r.callId == c.callId && r.name == c.name
  }

  function ArgumentsOf(r: Reading): string {
    if Filled(r.arguments) then r.arguments.value else ""
  }

  /** The server's side of an announcement. */
  lemma AnnounceToServer(s: State, c: Known, r: Reading)
    requires IsAnnouncement(r, c)
    ensures var t, n := AfterTool(s, Delta(|s.calls|, r)), |s.calls|;
            && |t.calls| == n + 1 && HasSent(t, n, c, ArgumentsOf(r)) && t.ended == s.ended && t.sawTool
            && (forall i | 0 <= i < n :: t.calls[i] == s.calls[i])
  {
  }

  /** The client's side of it. */
  lemma AnnounceToClient(s: State, c: Known, r: Reading)
    requires IsAnnouncement(r, c) && CallCount(CallsSent(s.out)) == |s.calls|
    ensures var t, n := AfterTool(s, Delta(|s.calls|, r)), |s.calls|;
            && CallCount(CallsSent(t.out)) == n + 1
            && ClientOf(t, n) == Known(c.callId, c.name, ArgumentsOf(r))
            && (forall i | 0 <= i < n :: ClientOf(t, i) == ClientOf(s, i))
  {
    var n, d := |s.calls|, Delta(|s.calls|, r);
    ToolSendsItsCall(s, d);
    CountNext(CallsSent(s.out), Outgoing(s.calls, d));
    NothingKnown(CallsSent(s.out), n);
    FirstWord(r, c);
    ToolView(s, d, n);
    forall i | 0 <= i < n
      ensures ClientOf(AfterTool(s, d), i) == ClientOf(s, i)
    {
      ToolView(s, d, i);
    }
  }

  lemma FirstWord(r: Reading, c: Known)
    requires IsAnnouncement(r, c)
    ensures var e := Emitted(NEW_CALL, r);
            !SaysNothing(e) && Learn(Known(None, None, ""), e) == Known(c.callId, c.name, ArgumentsOf(r))
  {
    Units(ArgumentsOf(r));
  }

  ghost predicate IsNumbered(x: Index, c: Known, n: nat) {
    Filled(c.callId) && "id:" + c.callId.value in x.indexes && x.indexes["id:" + c.callId.value] == n
  }

  lemma AnnounceToIndex(x: Index, calls: seq<Known>, c: Known, r: Reading)
    requires x.next == |calls| && KnowsOnly(x.indexes, calls) && IsAnnouncement(r, c)
    requires forall i | 0 <= i < |calls| :: calls[i].callId != c.callId
    ensures var key := KeyOf(r.callId, r.name); var y := Register(x, key);
            && Lookup(x, key) == |calls| && y.next == |calls| + 1
            && KnowsOnly(y.indexes, calls + [c]) && IsNumbered(y, c, |calls|)
  {
    NewKey(x.indexes, calls, c);
  }

  lemma IndexAfterTool(s: State, d: Delta)
    ensures AfterTool(s, d).index == Register(s.index, KeyOf(d.what.callId, d.what.name))
  {
  }

  lemma HoldsOneMore(s: State, t: State, calls: seq<Known>, known: seq<Known>, c: Known, k: Known)
    requires Holding(s, calls, known) && !t.ended && t.sawTool && KnowsOnly(t.index.indexes, calls + [c])
    requires t.index.next == |t.calls| == CallCount(CallsSent(t.out)) == |calls| + 1
    requires ClientOf(t, |calls|) == k && forall i | 0 <= i < |calls| :: ClientOf(t, i) == ClientOf(s, i)
    ensures Holding(t, calls + [c], known + [k])
  {
  }

  /** A call of an unknown id gets the next number, and goes out with what is said of it. */
  lemma Announce(s: State, calls: seq<Known>, known: seq<Known>, c: Known, r: Reading)
    requires Holding(s, calls, known) && IsAnnouncement(r, c)
    requires forall i | 0 <= i < |calls| :: calls[i].callId != c.callId
    ensures Lookup(s.index, KeyOf(r.callId, r.name)) == |calls|
    ensures var t := AfterTool(s, Delta(|calls|, r));
            && Holding(t, calls + [c], known + [Known(c.callId, c.name, ArgumentsOf(r))])
            && HasSent(t, |calls|, c, ArgumentsOf(r)) && IsNumbered(t.index, c, |calls|)
            && (forall i | 0 <= i < |calls| :: t.calls[i] == s.calls[i])
  {
    var t := AfterTool(s, Delta(|calls|, r));
    AnnounceToIndex(s.index, calls, c, r);
    AnnounceToServer(s, c, r);
    AnnounceToClient(s, c, r);
    IndexAfterTool(s, Delta(|calls|, r));
    HoldsOneMore(s, t, calls, known, c, Known(c.callId, c.name, ArgumentsOf(r)));
  }

  lemma {:induction false} NothingKnown(sent: seq<Delta>, n: nat)
    requires CallCount(sent) <= n
    ensures ClientCall(sent, n) == Known(None, None, "")
  {
    if sent != [] {
      NothingKnown(sent[..|sent| - 1], n);
    }
  }

  /** Anything said of a known call that brings no new id or name. */
  lemma Continue(s: State, calls: seq<Known>, known: seq<Known>, n: nat, r: Reading, piece: string)
    requires Holding(s, calls, known) && n < |calls|
    requires KeyOf(r.callId, r.name).None? || Register(s.index, KeyOf(r.callId, r.name)) == s.index
    requires var e := Emitted(s.calls[n], r);
             e.callId.None? && e.name.None? && piece == if e.arguments.Some? then e.arguments.value else ""
    ensures var t := AfterTool(s, Delta(n, r));
            && Holding(t, calls, known[n := known[n].(arguments := known[n].arguments + piece)])
            && t.index == s.index && t.calls[n] == MergeInto(s.calls[n], r)
            && forall i | 0 <= i < |calls| && i != n :: t.calls[i] == s.calls[i]
  {
    var d := Delta(n, r);
    var t := AfterTool(s, d);
    var more := known[n := known[n].(arguments := known[n].arguments + piece)];
    ToolSendsItsCall(s, d);
    CountNext(CallsSent(s.out), Outgoing(s.calls, d));
    forall i | 0 <= i < |more|
      ensures ClientOf(t, i) == more[i]
    {
      ToolView(s, d, i);
    }
    forall i | 0 <= i < |calls|
      ensures t.calls[i] == if i == n then MergeInto(s.calls[n], r) else s.calls[i]
    {
      MergedAt(s.calls, d, i);
    }
  }

  // ---------------------------------------------------------------------------
  // A call spelled out
  // ---------------------------------------------------------------------------

  lemma Nameless(s: State, r: Reading)
    requires NamesNoCall(r)
    ensures Lookup(s.index, KeyOf(r.callId, r.name)) == 0
    ensures forall c :: Emitted(c, r).callId.None? && Emitted(c, r).name.None?
  {
  }

  /** A piece goes to call 0, whoever's it is. */
  lemma PieceStep(s: State, calls: seq<Known>, known: seq<Known>, e: Json, includeUsage: bool)
    requires Holding(s, calls, known) && calls != [] && IsArgumentPiece(e)
    ensures var t := Step(s, e, includeUsage);
            && Holding(t, calls, known[0 := known[0].(arguments := known[0].arguments + PieceText(e))])
            && t.index == s.index && t.calls[0] == s.calls[0].(arguments := s.calls[0].arguments + PieceText(e), toolType := t.calls[0].toolType)
            && forall i | 1 <= i < |calls| :: t.calls[i] == s.calls[i]
  {
    var r := Read(e).value;
    MiddleStep(s, e, includeUsage);
    Nameless(s, r);
    Continue(s, calls, known, 0, r, PieceText(e));
  }

  function StepAll(s: State, events: seq<Json>, includeUsage: bool): State {
    if events == [] then s else Step(StepAll(s, events[..|events| - 1], includeUsage), events[|events| - 1], includeUsage)
  }

  lemma {:induction false} RunConcat(a: seq<Json>, b: seq<Json>, includeUsage: bool)
    ensures Run(a + b, includeUsage) == StepAll(Run(a, includeUsage), b, includeUsage)
    decreases |b|
  {
    if b == [] {
      Units(a);
    } else {
      assert (a + b)[..|a + b| - 1] == a + b[..|b| - 1];
      RunConcat(a, b[..|b| - 1], includeUsage);
    }
  }

  /** Arguments added to call 0, on both sides. */
  ghost predicate FedZero(s: State, t: State, calls: seq<Known>, known: seq<Known>, text: string)
    requires |known| > 0
  {
    && Holding(t, calls, known[0 := known[0].(arguments := known[0].arguments + text)])
    && t.index == s.index && |t.calls| == |s.calls| > 0
    && t.calls[0] == s.calls[0].(arguments := s.calls[0].arguments + text, toolType := t.calls[0].toolType)
    && forall i | 1 <= i < |calls| && i < |s.calls| :: t.calls[i] == s.calls[i]
  }

  lemma {:induction false} PiecesStep(s: State, calls: seq<Known>, known: seq<Known>, pieces: seq<Json>, includeUsage: bool)
    requires Holding(s, calls, known) && calls != [] && ArePieces(pieces)
    ensures FedZero(s, StepAll(s, pieces, includeUsage), calls, known, Joined(pieces))
  {
    if pieces == [] {
      Units(known[0].arguments);
      Units(s.calls[0].arguments);
      assert known[0 := known[0]] == known;
    } else {
      var front, last := pieces[..|pieces| - 1], pieces[|pieces| - 1];
      assert IsArgumentPiece(last);
      PiecesStep(s, calls, known, front, includeUsage);
      var t := StepAll(s, front, includeUsage);
      var more := known[0 := known[0].(arguments := known[0].arguments + Joined(front))];
      PieceStep(t, calls, more, last, includeUsage);
      Assoc(known[0].arguments, Joined(front), PieceText(last));
      Assoc(s.calls[0].arguments, Joined(front), PieceText(last));
      assert more[0 := more[0].(arguments := more[0].arguments + PieceText(last))] ==
             known[0 := known[0].(arguments := known[0].arguments + Joined(pieces))];
    }
  }

  /** A snapshot of what was just added sends nothing. */
  lemma SnapshotIsQuiet(before: string, text: string, r: Reading)
    requires r.arguments == Some(text) && r.mode != Increment
    ensures MergeArguments(before + text, r).1.None?
    ensures before == "" ==> MergeArguments(before + text, r).0 == text
  {
    if before == "" {
      assert before + text == text;
    } else {
      assert !(before + text <= text);
    }
  }

  lemma WholeStep(s: State, calls: seq<Known>, known: seq<Known>, e: Json, before: string, text: string, includeUsage: bool)
    requires Holding(s, calls, known) && calls != [] && s.calls[0].arguments == before + text
    requires IsMiddle(e) && Read(e).Some? && NamesNoCall(Read(e).value)
    requires Read(e).value.arguments == Some(text) && Read(e).value.mode != Increment
    ensures var t := Step(s, e, includeUsage);
            && Holding(t, calls, known) && t.index == s.index
            && t.calls[0].emittedCallId == s.calls[0].emittedCallId && t.calls[0].emittedName == s.calls[0].emittedName
            && (before == "" ==> t.calls[0].arguments == text)
            && forall i | 1 <= i < |calls| :: t.calls[i] == s.calls[i]
  {
    var r := Read(e).value;
    MiddleStep(s, e, includeUsage);
    Nameless(s, r);
    SnapshotIsQuiet(before, text, r);
    Continue(s, calls, known, 0, r, "");
    Units(known[0].arguments);
    assert known[0 := known[0]] == known;
  }

  /** The finished item of an announced call sends what of the arguments has not gone out under its number. */
  lemma DoneStep(s: State, calls: seq<Known>, known: seq<Known>, n: nat, e: Json, held: string, includeUsage: bool)
    requires Holding(s, calls, known) && BringsCall(e) && n < |calls|
    requires HasSent(s, n, CallIn(e), held) && (held == "" || held == CallIn(e).arguments)
    requires IsNumbered(s.index, CallIn(e), n)
    ensures var piece := if held == "" then CallIn(e).arguments else "";
            Holding(Step(s, e, includeUsage), calls, known[n := known[n].(arguments := known[n].arguments + piece)])
  {
    var c := CallIn(e);
    ReadCall(e);
    var r := Read(e).value;
    assert DeltaOf(s, e) == Some(Delta(n, r));
    NotTerminal(AfterTool(s, Delta(n, r)), e.fields, includeUsage);
    assert Step(s, e, includeUsage) == AfterTool(s, Delta(n, r));
    Continue(s, calls, known, n, r, if held == "" then c.arguments else "");
  }

  lemma {:induction false} StepAllConcat(s: State, a: seq<Json>, b: seq<Json>, includeUsage: bool)
    ensures StepAll(s, a + b, includeUsage) == StepAll(StepAll(s, a, includeUsage), b, includeUsage)
    decreases |b|
  {
    if b == [] {
      Units(a);
    } else {
      assert (a + b)[..|a + b| - 1] == a + b[..|b| - 1];
      StepAllConcat(s, a, b[..|b| - 1], includeUsage);
    }
  }

  lemma StepAllOne(s: State, e: Json, includeUsage: bool)
    ensures StepAll(s, [e], includeUsage) == Step(s, e, includeUsage)
  {
    assert [e][..0] == [];
  }

  lemma SpelledUnfolds(s: State, p: Part, includeUsage: bool)
    requires p.Spelled?
    ensures var s2 := StepAll(Step(s, p.added, includeUsage), p.pieces, includeUsage);
            StepAll(s, PartEvents(p), includeUsage) == Step(Step(s2, p.whole, includeUsage), p.done, includeUsage)
  {
    var s1 := Step(s, p.added, includeUsage);
    var s2 := StepAll(s1, p.pieces, includeUsage);
    assert [p.whole, p.done] == [p.whole] + [p.done];
    StepAllConcat(s, [p.added], p.pieces + [p.whole, p.done], includeUsage);
    StepAllOne(s, p.added, includeUsage);
    StepAllConcat(s1, p.pieces, [p.whole, p.done], includeUsage);
    StepAllConcat(s2, [p.whole], [p.done], includeUsage);
    StepAllOne(s2, p.whole, includeUsage);
    StepAllOne(Step(s2, p.whole, includeUsage), p.done, includeUsage);
  }

  function Fed(known: seq<Known>, text: string): (r: seq<Known>)
    ensures |r| == |known|
  {
    if known == [] then [] else known[0 := known[0].(arguments := known[0].arguments + text)]
  }

  lemma AddedStep(s: State, calls: seq<Known>, known: seq<Known>, p: Part, includeUsage: bool)
    requires Holding(s, calls, known) && IsSpelled(p)
    requires forall i | 0 <= i < |calls| :: calls[i].callId != CallIn(p.done).callId
    ensures var t, c := Step(s, p.added, includeUsage), CallIn(p.done);
            && Holding(t, calls + [c], known + [Known(c.callId, c.name, "")])
            && HasSent(t, |calls|, c, "") && IsNumbered(t.index, c, |calls|)
            && (forall i | 0 <= i < |calls| :: t.calls[i] == s.calls[i])
  {
    var r := Read(p.added).value;
    MiddleStep(s, p.added, includeUsage);
    Announce(s, calls, known, CallIn(p.done), r);
  }

  /** The pieces and their sum say nothing under the call's own number unless that is 0. */
  lemma MiddleSteps(s: State, calls: seq<Known>, known: seq<Known>, n: nat, p: Part, includeUsage: bool)
    requires Holding(s, calls, known) && IsSpelled(p) && n < |calls|
    requires HasSent(s, n, CallIn(p.done), "") && IsNumbered(s.index, CallIn(p.done), n)
    ensures var t, c := Step(StepAll(s, p.pieces, includeUsage), p.whole, includeUsage), CallIn(p.done);
            && Holding(t, calls, Fed(known, c.arguments)) && IsNumbered(t.index, c, n)
            && HasSent(t, n, c, if n == 0 then c.arguments else "")
  {
    var c := CallIn(p.done);
    PiecesStep(s, calls, known, p.pieces, includeUsage);
    var t := StepAll(s, p.pieces, includeUsage);
    assert t.calls[0].arguments == s.calls[0].arguments + c.arguments;
    WholeStep(t, calls, Fed(known, c.arguments), p.whole, s.calls[0].arguments, c.arguments, includeUsage);
  }

  lemma FedLast(known: seq<Known>, k: Known, text: string)
    requires k.arguments == ""
    ensures var n, fed := |known|, Fed(known + [k], text);
            && fed[n].arguments == (if n == 0 then text else "")
            && fed[n := fed[n].(arguments := fed[n].arguments + if n == 0 then "" else text)] ==
               Fed(known, text) + [k.(arguments := text)]
  {
    Units(text);
  }

  /** A call spelled out comes to the client whole, and once more at the end of call 0 if it is another one. */
  lemma SpelledStep(s: State, calls: seq<Known>, known: seq<Known>, p: Part, includeUsage: bool)
    requires Holding(s, calls, known) && IsSpelled(p)
    requires forall i | 0 <= i < |calls| :: calls[i].callId != CallIn(p.done).callId
    ensures var c := CallIn(p.done);
            Holding(StepAll(s, PartEvents(p), includeUsage), calls + [c], Fed(known, c.arguments) + [c])
  {
    var c, n := CallIn(p.done), |calls|;
    var k := Known(c.callId, c.name, "");
    SpelledUnfolds(s, p, includeUsage);
    AddedStep(s, calls, known, p, includeUsage);
    var t := Step(s, p.added, includeUsage);
    MiddleSteps(t, calls + [c], known + [k], n, p, includeUsage);
    var u := Step(StepAll(t, p.pieces, includeUsage), p.whole, includeUsage);
    DoneStep(u, calls + [c], Fed(known + [k], c.arguments), n, p.done, if n == 0 then c.arguments else "", includeUsage);
    FedLast(known, k, c.arguments);
  }

  lemma CallStepHolds(s: State, calls: seq<Known>, known: seq<Known>, e: Json, includeUsage: bool)
    requires Holding(s, calls, known) && BringsCall(e)
    requires forall i | 0 <= i < |calls| :: calls[i].callId != CallIn(e).callId
    ensures Holding(Step(s, e, includeUsage), calls + [CallIn(e)], known + [CallIn(e)])
  {
    ReadCall(e);
    NewKey(s.index.indexes, calls, CallIn(e));
    CallStep(s, e, includeUsage);
    Announce(s, calls, known, CallIn(e), Read(e).value);
  }

  lemma PlainStepHolds(s: State, calls: seq<Known>, known: seq<Known>, e: Json, includeUsage: bool)
    requires Holding(s, calls, known) && IsPlain(e)
    ensures Holding(Step(s, e, includeUsage), calls, known)
  {
    if TypeOf(e) == Some(TEXT_DELTA) {
      var text := StringField(e.fields, "delta");
      NoCallsSent(s, [Content(!s.sentRole, if text.Some? then text.value else "")]);
    }
  }

  // ---------------------------------------------------------------------------
  // Whole streams
  // ---------------------------------------------------------------------------

  lemma FedTwice(known: seq<Known>, a: string, b: string)
    ensures Fed(Fed(known, a), b) == Fed(known, a + b)
  {
    if known != [] {
      Assoc(known[0].arguments, a, b);
    }
  }

  lemma FedNothing(known: seq<Known>)
    ensures Fed(known, "") == known
  {
    if known != [] {
      Units(known[0].arguments);
    }
  }

  lemma FedBefore(known: seq<Known>, c: Known, text: string)
    requires known != []
    ensures Fed(known + [c], text) == Fed(known, text) + [c]
  {
  }

  lemma PartsShorter(parts: seq<Part>)
    requires AreParts(parts) && parts != []
    ensures var front, last := parts[..|parts| - 1], parts[|parts| - 1];
            && AreParts(front) && IsPart(last)
            && Reduced(parts)[..|parts| - 1] == Reduced(front) && Reduced(parts) == Reduced(front) + [LastEvent(last)]
  {
    var front := parts[..|parts| - 1];
    assert Reduced(parts)[..|parts| - 1] == Reduced(front);
    Shorter(Reduced(parts));
    assert forall i | 0 <= i < |front| :: front[i] == parts[i];
  }

  lemma NewId(events: seq<Json>, e: Json)
    requires IsBeginning(events + [e]) && BringsCall(e)
    ensures forall i | 0 <= i < |Slots(events)| :: CallsIn(Slots(events))[i].callId != CallIn(e).callId
  {
    EarlierSlots(events, e);
  }

  lemma SlotsNext(events: seq<Json>, e: Json)
    ensures CallsIn(Slots(events + [e])) == CallsIn(Slots(events)) + if BringsCall(e) then [CallIn(e)] else []
  {
    Undo(events, [e]);
    Units(Slots(events));
  }

  lemma CallsNext(front: seq<Json>, e: Json)
    requires IsBeginning(front + [e]) && BringsCall(e)
    ensures var calls := CallsIn(Slots(front));
            && CallsIn(Slots(front + [e])) == calls + [CallIn(e)]
            && forall i | 0 <= i < |calls| :: calls[i].callId != CallIn(e).callId
  {
    SlotsNext(front, e);
    NewId(front, e);
  }

  lemma {:induction false} PartsHeld(parts: seq<Part>, includeUsage: bool)
    requires AreParts(parts)
    ensures var calls := CallsIn(Slots(Reduced(parts)));
            Holding(Run(EventsOf(parts), includeUsage), calls, Fed(calls, Surplus(parts)))
  {
    if parts != [] {
      var front, last := parts[..|parts| - 1], parts[|parts| - 1];
      PartsShorter(parts);
      PartsHeld(front, includeUsage);
      SurplusNeedsCalls(front);
      SurplusNext(front, last);
      assert front + [last] == parts;
      RunConcat(EventsOf(front), PartEvents(last), includeUsage);
      NextHeld(Run(EventsOf(front), includeUsage), front, Surplus(front), last, includeUsage);
      assert Reduced(parts) == Reduced(front) + [LastEvent(last)];
    }
  }

  lemma NextHeld(s: State, front: seq<Part>, surplus: string, p: Part, includeUsage: bool)
    requires Holding(s, CallsIn(Slots(Reduced(front))), Fed(CallsIn(Slots(Reduced(front))), surplus)) && IsPart(p)
    requires IsBeginning(Reduced(front) + [LastEvent(p)]) && (Slots(Reduced(front)) == [] ==> surplus == "")
    ensures var calls := CallsIn(Slots(Reduced(front) + [LastEvent(p)]));
            Holding(StepAll(s, PartEvents(p), includeUsage), calls, Fed(calls, surplus + Stray(front, p)))
  {
    var calls, e := CallsIn(Slots(Reduced(front))), LastEvent(p);
    if BringsCall(e) {
      CallsNext(Reduced(front), e);
      CallHeld(s, calls, surplus, p, includeUsage);
    } else {
      SlotsNext(Reduced(front), e);
      Units(calls);
      Units(surplus);
      StepAllOne(s, e, includeUsage);
      PlainStepHolds(s, calls, Fed(calls, surplus), e, includeUsage);
    }
  }

  lemma CallHeld(s: State, calls: seq<Known>, surplus: string, p: Part, includeUsage: bool)
    requires Holding(s, calls, Fed(calls, surplus)) && IsPart(p) && (calls == [] ==> surplus == "")
    requires BringsCall(LastEvent(p)) && forall i | 0 <= i < |calls| :: calls[i].callId != CallIn(LastEvent(p)).callId
    ensures var c := CallIn(LastEvent(p));
            var extra := if calls == [] then "" else SpelledText(p);
            Holding(StepAll(s, PartEvents(p), includeUsage), calls + [c], Fed(calls + [c], surplus + extra))
  {
    var c, known := CallIn(LastEvent(p)), Fed(calls, surplus);
    Units(surplus);
    if p.Other? {
      StepAllOne(s, p.e, includeUsage);
      CallStepHolds(s, calls, known, p.e, includeUsage);
      FedMore(calls, c, surplus);
    } else {
      SpelledStep(s, calls, known, p, includeUsage);
      FedTwice(calls, surplus, c.arguments);
      FedMore(calls, c, if calls == [] then "" else surplus + c.arguments);
    }
  }

  lemma FedMore(calls: seq<Known>, c: Known, text: string)
    requires calls == [] ==> text == ""
    ensures Fed(calls + [c], text) == Fed(calls, text) + [c]
  {
    if calls == [] {
      FedNothing([c]);
    } else {
      FedBefore(calls, c, text);
    }
  }

  lemma SurplusNext(front: seq<Part>, p: Part)
    ensures Surplus(front + [p]) == Surplus(front) + Stray(front, p)
  {
    var parts := front + [p];
    forall i | 0 <= i < |front|
      ensures Strays(parts)[i] == Strays(front)[i]
    {
      assert parts[..i] == front[..i];
    }
    assert parts[..|front|] == front;
    assert Strays(parts)[..|front|] == Strays(front);
  }

  lemma {:induction false} ConcatIsEmptyIff(texts: seq<string>)
    ensures Concat(texts) == "" <==> forall i | 0 <= i < |texts| :: texts[i] == ""
  {
    if texts != [] {
      var n := |texts| - 1;
      ConcatIsEmptyIff(texts[..n]);
      assert forall i | 0 <= i < n :: texts[..n][i] == texts[i];
      assert |Concat(texts)| == |Concat(texts[..n])| + |texts[n]|;
    }
  }

  lemma {:induction false} SlotsGrow(events: seq<Json>, n: nat)
    requires n <= |events|
    ensures |Slots(events[..n])| <= |Slots(events)|
    decreases |events|
  {
    if n < |events| {
      SlotsGrow(events[..|events| - 1], n);
      assert events[..|events| - 1][..n] == events[..n];
    } else {
      assert events[..n] == events;
    }
  }

  lemma SurplusNeedsCalls(parts: seq<Part>)
    ensures Slots(Reduced(parts)) == [] ==> Surplus(parts) == ""
  {
    forall i | 0 <= i < |parts| && Slots(Reduced(parts)) == []
      ensures Strays(parts)[i] == ""
    {
      SlotsGrow(Reduced(parts), i);
      assert Reduced(parts)[..i] == Reduced(parts[..i]);
    }
    ConcatIsEmptyIff(Strays(parts));
  }

  /** Before a part that spells out any arguments there is no call. */
  predicate OnlyFirstSpelled(parts: seq<Part>) {
    forall i | 0 <= i < |parts| && SpelledText(parts[i]) != "" :: Slots(Reduced(parts[..i])) == []
  }

  lemma SurplusIff(parts: seq<Part>)
    ensures Surplus(parts) == "" <==> OnlyFirstSpelled(parts)
  {
    ConcatIsEmptyIff(Strays(parts));
    forall i | 0 <= i < |parts|
      ensures Strays(parts)[i] == "" <==> (SpelledText(parts[i]) != "" ==> Slots(Reduced(parts[..i])) == [])
    {
    }
  }

  lemma FedNeedsText(calls: seq<Known>, text: string)
    requires calls == [] ==> text == ""
    ensures Fed(calls, text) == calls <==> text == ""
  {
    if calls != [] {
      Units(calls[0].arguments);
      assert |calls[0].arguments + text| == |calls[0].arguments| + |text|;
      if text == "" {
        FedNothing(calls);
      }
    }
  }

  lemma ClientIsHeld(s: State, calls: seq<Known>, known: seq<Known>)
    requires Holding(s, calls, known)
    ensures ClientCalls(CallsSent(s.out)) == known
  {
    assert forall i | 0 <= i < |known| :: ClientOf(s, i) == known[i];
  }

  lemma SpelledStreamed(parts: seq<Part>, e: Json, after: seq<Json>, includeUsage: bool)
    requires AreParts(parts) && IsEnd(e)
    ensures var out, calls := Translate(Whole(EventsOf(parts), e, after), includeUsage), CallsIn(Slots(Reduced(parts)));
            && ClientCalls(CallsSent(out)) == Fed(calls, Surplus(parts))
            && FinishReason(out) == Some(FinalReason(calls != [], e.fields, TypeOf(e) == Some(INCOMPLETE)))
            && (ClientCalls(CallsSent(out)) == calls <==> OnlyFirstSpelled(parts))
  {
    var s, calls := Run(EventsOf(parts), includeUsage), CallsIn(Slots(Reduced(parts)));
    PartsHeld(parts, includeUsage);
    StreamEnds(EventsOf(parts), e, after, includeUsage);
    ClientIsHeld(s, calls, Fed(calls, Surplus(parts)));
    SurplusNeedsCalls(parts);
    SurplusIff(parts);
    FedNeedsText(calls, Surplus(parts));
  }

  /**
    Calls that come whole or spelled out, in any mixture: the client's finish reason is
    the collected completion's, and its tool calls are exactly when no call but the first
    has its arguments in pieces.
  */
  lemma SpelledStreamAgreesIff(parts: seq<Part>, e: Json, after: seq<Json>, includeUsage: bool, model: string)
    requires AreParts(parts) && IsEnd(e)
    ensures var events := Whole(EventsOf(parts), e, after);
            var out, body := Translate(events, includeUsage), Collected(events, map[]);
            && body.Some?
            && var r := Completed(200, body.value, model);
            && (r.Chat? <==> "error" !in e.fields["response"].fields)
            && (r.Chat? ==>
                  && (ClientCalls(CallsSent(out)) == AllKnown(r.completion.calls) <==> OnlyFirstSpelled(parts))
                  && FinishReason(out) == Some(r.completion.reason))
  {
    var before, response := EventsOf(parts), ObjectField(e.fields, "response").value;
    SpelledStreamed(parts, e, after, includeUsage);
    assert forall i | 0 <= i < |parts| :: IsPart(parts[i]);
    PartsPass(parts);
    CollectedBody(before, e, after);
    SameItems(parts);
    CollectedCalls(Reduced(parts), response);
    SameReason(response, ItemsAfter(before));
    var calls := CallsOf(OutputOf(WithOutput(response, ItemsAfter(before))));
    assert calls != [] <==> AllKnown(calls) != [];
  }

  // ---------------------------------------------------------------------------
  // Two calls spelled out
  // ---------------------------------------------------------------------------

  const ARGUMENTS_DELTA := "response.function_call_arguments.delta"
  const ARGUMENTS_DONE := "response.function_call_arguments.done"

  function CallItem(id: string, name: string, arguments: string): Fields {
    map["type" := Str("function_call"), "call_id" := Str(id), "name" := Str(name), "arguments" := Str(arguments)]
  }

  function ItemEvent(kind: string, k: nat, item: Fields): Fields {
    map["type" := Str(kind), "output_index" := Number(k as real), "item" := Obj(item)]
  }

  function DeltaEvent(text: string): Fields {
    map["type" := Str(ARGUMENTS_DELTA), "delta" := Str(text)]
  }

  function WholeEvent(text: string): Fields {
    map["type" := Str(ARGUMENTS_DONE), "arguments" := Str(text)]
  }

  /** A call in the four events that make one, its arguments in one piece. */
  function SpelledOut(k: nat, id: string, name: string, text: string): Part {
    Spelled(Obj(ItemEvent(ITEM_ADDED, k, CallItem(id, name, ""))), [Obj(DeltaEvent(text))],
            Obj(WholeEvent(text)), Obj(ItemEvent(ITEM_DONE, k, CallItem(id, name, text))))
  }

  lemma FirstOfThree(a: Option<string>, b: Option<string>, c: Option<string>)
    ensures FirstNonEmpty([a, b, c]) == if Filled(a) then a else if Filled(b) then b else if Filled(c) then c else None
  {
    assert [a, b, c][1..] == [b, c];
    FirstOfTwo(b, c);
  }

  lemma ItemReads(kind: string, k: nat, id: string, name: string, text: string)
    requires (kind == ITEM_ADDED || kind == ITEM_DONE) && id != "" && name != ""
    ensures var item := CallItem(id, name, text);
            var r := Read(Obj(ItemEvent(kind, k, item)));
            && ReadToolType(item) == Some("function") && r.Some?
            && r.value.callId == Some(id) && r.value.name == Some(name) && r.value.arguments == Some(text)
  {
    var item := CallItem(id, name, text);
    assert "call_id" in item && ContainsToolFields(item);
    FirstOfTwo(StringField(item, "tool_type"), StringField(item, "type"));
    assert "function_call"[0] != "response."[0];
    FirstOfThree(StringField(item, "call_id"), StringField(item, "tool_call_id"), StringField(item, "id"));
    FirstOfTwo(StringField(item, "name"), StringField(item, "tool_name"));
    assert ReadName(item, None) == Some(name) && ReadArguments(item, None) == Some(text);
  }

  lemma NothingNamed(o: Fields)
    requires "call_id" !in o && "tool_call_id" !in o && "id" !in o && "name" !in o && "tool_name" !in o && "function" !in o
    ensures ReadCallId(o, None) == None && ReadName(o, None) == None
  {
    FirstOfTwo(StringField(o, "name"), StringField(o, "tool_name"));
    FirstOfThree(StringField(o, "call_id"), StringField(o, "tool_call_id"), StringField(o, "id"));
  }

  predicate IsOfArguments(o: Fields) {
    && o.Keys <= {"type", "delta", "arguments"}
    && (StringField(o, "type") == Some(ARGUMENTS_DELTA) || StringField(o, "type") == Some(ARGUMENTS_DONE))
  }

  lemma MentionsFunctionCall()
    ensures Contains(ARGUMENTS_DELTA, "function_call") && Contains(ARGUMENTS_DONE, "function_call")
  {
    assert ARGUMENTS_DELTA[9..][..13] == "function_call";
    assert ARGUMENTS_DONE[9..][..13] == "function_call";
  }

  lemma ArgumentsAreToolCall(o: Fields)
    requires IsOfArguments(o)
    ensures IsToolCallEvent(o) && Candidate(o) == o
  {
    assert "item" !in o.Keys;
    MentionsFunctionCall();
  }

  lemma ArgumentsAreMiddle(o: Fields)
    requires IsOfArguments(o)
    ensures !FilesItem(Obj(o)) && IsMiddle(Obj(o))
  {
    assert "item" !in o.Keys;
    assert ARGUMENTS_DELTA[9] == ARGUMENTS_DONE[9] == 'f';
    assert TEXT_DELTA[9] == 'o' && COMPLETED[9] == 'c' && INCOMPLETE[9] == 'i' && FAILED[10] == 'a' && "error"[0] == 'e';
  }

  lemma DeltaReads(text: string)
    requires text != ""
    ensures Read(Obj(DeltaEvent(text))) == Some(Reading(None, None, Some(text), Increment, None))
  {
    var o := DeltaEvent(text);
    ArgumentsAreToolCall(o);
    NothingNamed(o);
    assert FirstNonEmpty([Some(text)]) == Some(text);
    assert ReadArguments(o, None) == Some(text);
    NoToolType(o);
  }

  lemma NoToolType(o: Fields)
    requires IsOfArguments(o)
    ensures ReadToolType(o) == None
  {
    assert "tool_type" !in o.Keys;
    FirstOfTwo(None, StringField(o, "type"));
    assert "response." <= ARGUMENTS_DELTA && "response." <= ARGUMENTS_DONE;
  }

  lemma WholeReads(text: string)
    ensures Read(Obj(WholeEvent(text))) ==
            Some(Reading(None, None, Some(text), if text == "" then Unknown else Snapshot, None))
  {
    var o := WholeEvent(text);
    ArgumentsAreToolCall(o);
    NothingNamed(o);
    assert ReadArguments(o, None) == Some(text);
    assert |ARGUMENTS_DONE| != |ARGUMENTS_DELTA|;
    NoToolType(o);
  }

  lemma DeltaIsPiece(text: string)
    requires text != ""
    ensures ArePieces([Obj(DeltaEvent(text))]) && Joined([Obj(DeltaEvent(text))]) == text
  {
    var e := Obj(DeltaEvent(text));
    DeltaReads(text);
    ArgumentsAreMiddle(DeltaEvent(text));
    assert IsArgumentPiece(e) && PieceText(e) == text;
    assert [e][..0] == [];
    Units(text);
  }

  lemma ItemIsFiled(kind: string, k: nat, item: Fields)
    requires kind == ITEM_ADDED || kind == ITEM_DONE
    ensures var e := Obj(ItemEvent(kind, k, item)); FilesItem(e) && IndexOf(e) == k && IsMiddle(e)
  {
    assert ITEM_ADDED[9..17] == ITEM_DONE[9..17] == "output_i" && TEXT_DELTA[16] == 't' && COMPLETED[9] == 'c';
    assert ITEM_ADDED[9] == ITEM_ADDED[9..17][0] && ITEM_DONE[9] == ITEM_DONE[9..17][0];
    assert INCOMPLETE[9] == 'i' && FAILED[10] == 'a' && "error"[0] == 'e';
  }

  lemma DoneBringsCall(k: nat, id: string, name: string, text: string)
    requires id != "" && name != ""
    ensures var e := Obj(ItemEvent(ITEM_DONE, k, CallItem(id, name, text)));
            BringsCall(e) && CallIn(e) == Known(Some(id), Some(name), text)
  {
    ItemReads(ITEM_DONE, k, id, name, text);
    ItemIsFiled(ITEM_DONE, k, CallItem(id, name, text));
  }

  lemma SpelledOutIsSpelled(k: nat, id: string, name: string, text: string)
    requires id != "" && name != "" && text != ""
    ensures var p := SpelledOut(k, id, name, text);
            && IsSpelled(p) && CallIn(p.done) == Known(Some(id), Some(name), text) && IndexOf(p.done) == k
  {
    DoneBringsCall(k, id, name, text);
    ItemIsFiled(ITEM_DONE, k, CallItem(id, name, text));
    ItemReads(ITEM_ADDED, k, id, name, "");
    ItemIsFiled(ITEM_ADDED, k, CallItem(id, name, ""));
    DeltaIsPiece(text);
    WholeReads(text);
    ArgumentsAreMiddle(WholeEvent(text));
  }

  lemma TwoAreParts(p: Part, q: Part)
    requires IsPart(p) && IsPart(q) && IsBeginning([LastEvent(p), LastEvent(q)])
    ensures AreParts([p, q])
  {
    ReducedTwo(p, q);
    forall i | 0 <= i < 2
      ensures IsPart([p, q][i])
    {
    }
  }

  lemma ReducedTwo(p: Part, q: Part)
    ensures Reduced([p, q]) == [LastEvent(p), LastEvent(q)]
  {
  }

  lemma TwoBegin(a: Json, b: Json)
    requires BringsCall(a) && BringsCall(b) && IndexOf(a) < IndexOf(b) && CallIn(a).callId != CallIn(b).callId
    ensures IsBeginning([a, b])
  {
    assert InOrder(a, b);
  }

  lemma TwoPartsCalls(p: Part, q: Part)
    requires BringsCall(LastEvent(p)) && BringsCall(LastEvent(q))
    ensures |Slots(Reduced([p]))| == 1
    ensures CallsIn(Slots(Reduced([p, q]))) == [CallIn(LastEvent(p)), CallIn(LastEvent(q))]
  {
    assert Reduced([p, q]) == [LastEvent(p), LastEvent(q)] && Reduced([p]) == [LastEvent(p)];
    TwoCalls(LastEvent(p), LastEvent(q));
  }

  lemma SecondIsStray(p: Part, q: Part)
    requires |Slots(Reduced([p]))| == 1
    ensures Surplus([p, q]) == SpelledText(q)
  {
    SurplusNext([], p);
    SurplusNext([p], q);
    assert [] + [p] == [p] && [p] + [q] == [p, q];
    assert Surplus([]) == "";
    EmptyFront(p);
    Units(SpelledText(q));
  }

  lemma EmptyFront(p: Part)
    ensures Stray([], p) == ""
  {
    assert Reduced([]) == [];
  }

  lemma FedTwo(c: Known, d: Known, text: string)
    ensures Fed([c, d], text) == [c.(arguments := c.arguments + text), d]
  {
  }

  lemma TwoSpelledStreamed(p: Part, q: Part, e: Json, after: seq<Json>, includeUsage: bool)
    requires IsSpelled(p) && IsSpelled(q) && IndexOf(p.done) < IndexOf(q.done)
    requires CallIn(p.done).callId != CallIn(q.done).callId && IsEnd(e)
    ensures var c, d := CallIn(p.done), CallIn(q.done);
            && AreParts([p, q])
            && ClientCalls(CallsSent(Translate(Whole(EventsOf([p, q]), e, after), includeUsage))) ==
               [c.(arguments := c.arguments + d.arguments), d]
  {
    var c, d := CallIn(p.done), CallIn(q.done);
    TwoBegin(p.done, q.done);
    TwoAreParts(p, q);
    TwoPartsCalls(p, q);
    SecondIsStray(p, q);
    SpelledStreamed([p, q], e, after, includeUsage);
    FedTwo(c, d, d.arguments);
  }

  /** Two calls, each announced, its arguments in a piece and then whole: the client's first call ends with both. */
  lemma ArgumentsLandInTheFirstCall(
    c: Known, d: Known, e: Json, after: seq<Json>, includeUsage: bool)
    requires Filled(c.callId) && Filled(c.name) && c.arguments != "" && Filled(d.callId) && Filled(d.name) && d.arguments != ""
    requires c.callId != d.callId && IsEnd(e)
    ensures var parts := [SpelledOut(0, c.callId.value, c.name.value, c.arguments),
                          SpelledOut(1, d.callId.value, d.name.value, d.arguments)];
            && AreParts(parts)
            && ClientCalls(CallsSent(Translate(Whole(EventsOf(parts), e, after), includeUsage))) ==
               [c.(arguments := c.arguments + d.arguments), d]
  {
    SpelledOutIsSpelled(0, c.callId.value, c.name.value, c.arguments);
    SpelledOutIsSpelled(1, d.callId.value, d.name.value, d.arguments);
    TwoSpelledStreamed(SpelledOut(0, c.callId.value, c.name.value, c.arguments),
                       SpelledOut(1, d.callId.value, d.name.value, d.arguments), e, after, includeUsage);
  }

  lemma TwoCalls(a: Json, b: Json)
    requires BringsCall(a) && BringsCall(b)
    ensures |Slots([a])| == 1 && CallsIn(Slots([a, b])) == [CallIn(a), CallIn(b)]
  {
    assert [a, b][..1] == [a] && [a][..0] == [];
  }
}
