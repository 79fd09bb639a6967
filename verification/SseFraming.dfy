/**
  Server-sent event framing: the printer write_sse of
  native/server/src/http_runtime_utils.cpp and the reader parse_sse_events of
  native/proxy/src/upstream_transport.cpp.
*/
module SseFraming {
  import opened Sequences
  import opened Utf8

  const LF: Byte := 0x0A
  const CR: Byte := 0x0D
  const DATA: Bytes := [0x64, 0x61, 0x74, 0x61, 0x3A]
  const DONE: Bytes := [0x5B, 0x44, 0x4F, 0x4E, 0x45, 0x5D]

  /** std::isspace in the C locale. */
  predicate IsSpace(b: Byte) {
    b == 0x20 || 0x09 <= b <= 0x0D
  }

  function TrimStart(s: Bytes): (t: Bytes)
    ensures |t| <= |s|
    ensures |t| == |s| ==> t == s
  {
    if s != [] && IsSpace(s[0]) then TrimStart(s[1..]) else s
  }

  function TrimEnd(s: Bytes): (t: Bytes)
    ensures |t| <= |s|
    ensures |t| == |s| ==> t == s
  {
    if s != [] && IsSpace(s[|s| - 1]) then TrimEnd(s[..|s| - 1]) else s
  }

  function Trim(s: Bytes): (t: Bytes)
    ensures |t| <= |s|
    ensures |t| == |s| ==> t == s
  {
    TrimEnd(TrimStart(s))
  }

  // ---------------------------------------------------------------------------
  // Printing
  // ---------------------------------------------------------------------------

  function Frame(event: Bytes): Bytes {
    DATA + [0x20] + event + [LF, LF]
  }

  function Printed(events: seq<Bytes>): Bytes {
    if events == [] then [] else Frame(events[0]) + Printed(events[1..])
  }

  lemma {:induction false} PrintedConcat(a: seq<Bytes>, b: seq<Bytes>)
    ensures Printed(a + b) == Printed(a) + Printed(b)
  {
    if a == [] {
      Units(b);
      Units(Printed(b));
    } else {
      PrintedConcat(a[1..], b);
      assert (a + b)[1..] == a[1..] + b;
      Assoc(Frame(a[0]), Printed(a[1..]), Printed(b));
    }
  }

  method WriteSse(events: seq<Bytes>) returns (text: Bytes)
    ensures text == Printed(events)
    ensures |events| == 1 ==> text == [0x64, 0x61, 0x74, 0x61, 0x3A, 0x20] + events[0] + [0x0A, 0x0A]
  {
    text := [];
    for i := 0 to |events|
      invariant text == Printed(events[..i])
    {
      assert events[..i + 1] == events[..i] + [events[i]];
      PrintedConcat(events[..i], [events[i]]);
      assert [events[i]][1..] == [];
      Units(Frame(events[i]));
      ghost var before := text;
      text := text + (DATA + [0x20]);
      text := text + events[i];
      text := text + [LF, LF];
      Assoc(before, DATA + [0x20], events[i]);
      Assoc(before, DATA + [0x20] + events[i], [LF, LF]);
    }
    assert events[..|events|] == events;
    if |events| == 1 {
      assert events[1..] == [];
      Units(Frame(events[0]));
    }
  }

  // ---------------------------------------------------------------------------
  // Parsing
  // ---------------------------------------------------------------------------

  function LineEnd(body: Bytes): (k: nat)
    ensures k <= |body| && LF !in body[..k]
    ensures k < |body| ==> body[k] == LF
  {
    if body == [] || body[0] == LF then 0 else 1 + LineEnd(body[1..])
  }

  function DropCr(line: Bytes): Bytes {
    if line != [] && line[|line| - 1] == CR then line[..|line| - 1] else line
  }

  function Flush(current: Bytes): seq<Bytes> {
    if current == [] then [] else [current]
  }

  /** Data lines of one event are joined by line feeds. */
  function Join(current: Bytes, data: Bytes): Bytes {
    if data == [] then current else if current == [] then data else current + [LF] + data
  }

  /** What one line does: the event it ends, the event text it leaves, and whether reading stops. */
  datatype Effect = Effect(emitted: seq<Bytes>, current: Bytes, stop: bool)

  function OnLine(rawLine: Bytes, current: Bytes): Effect {
    var line := DropCr(rawLine);
    if line == [] then Effect(Flush(current), [], false)
    else if DATA <= line then
      (if Trim(line[5..]) == DONE then Effect([], current, true)
       else Effect([], Join(current, Trim(line[5..])), false))
    else Effect([], current, false)
  }

  /** The events still to come from `body`, with `current` collected so far. */
  function Parse(body: Bytes, current: Bytes): seq<Bytes>
    decreases |body|
  {
    var k := LineEnd(body);
    var effect := OnLine(body[..k], current);
    effect.emitted + if effect.stop || k == |body| then Flush(effect.current) else Parse(body[k + 1..], effect.current)
  }

  method FindLineFeed(body: Bytes, start: nat) returns (end: nat)
    requires start <= |body|
    ensures end == start + LineEnd(body[start..])
  {
    end := start;
    while end < |body| && body[end] != LF
      invariant start <= end <= |body|
      invariant end + LineEnd(body[end..]) == start + LineEnd(body[start..])
    {
      assert body[end..][1..] == body[end + 1..];
      end := end + 1;
    }
  }

  method HandleLine(rawLine: Bytes, current: Bytes) returns (effect: Effect)
    ensures effect == OnLine(rawLine, current)
  {
    var line := rawLine;
    if line != [] && line[|line| - 1] == CR {
      line := line[..|line| - 1];
    }
    if line == [] {
      if current != [] {
        return Effect([current], [], false);
      }
    } else if DATA <= line {
      var data := Trim(line[5..]);
      if data == DONE {
        return Effect([], current, true);
      }
      if data != [] {
        var joined := current;
        if joined != [] {
          joined := joined + [LF];
        }
        return Effect([], joined + data, false);
      }
    }
    effect := Effect([], current, false);
  }

  /** What parsing is left with: the lines from `start` on, or only the data collected so far. */
  ghost function Left(body: Bytes, start: nat, current: Bytes): seq<Bytes> {
    if start <= |body| then Parse(body[start..], current) else Flush(current)
  }

  /** One turn of the loop below; it ends with `next` behind the text when there is nothing more to read. */
  method ReadLine(body: Bytes, start: nat, before: seq<Bytes>, collected: Bytes)
    returns (events: seq<Bytes>, current: Bytes, next: nat)
    requires start <= |body|
    ensures start < next <= |body| + 1
    ensures events + Left(body, next, current) == before + Left(body, start, collected)
  {
    var end := FindLineFeed(body, start);
    ghost var rest := ParseAt(before, body, start, end, collected);
    var effect := HandleLine(body[start..end], collected);
    events, current := before + effect.emitted, effect.current;
    next := if effect.stop || end == |body| then |body| + 1 else end + 1;
  }

  method ParseSseEvents(body: Bytes) returns (events: seq<Bytes>)
    ensures events == Parse(body, [])
  {
    events := [];
    var current, start := [], 0;
    assert body[0..] == body;
    Units(Parse(body, []));
    while start <= |body|
      invariant start <= |body| + 1
      invariant events + Left(body, start, current) == Parse(body, [])
    {
      events, current, start := ReadLine(body, start, events, current);
    }
    Units(events);
    if current != [] {
      events := events + [current];
    }
  }

  /** What is still to come after a line. */
  lemma ParseAt(done: seq<Bytes>, body: Bytes, start: nat, end: nat, current: Bytes) returns (rest: seq<Bytes>)
    requires start <= |body| && end == start + LineEnd(body[start..])
    ensures end <= |body| && (end < |body| ==> body[end] == LF)
    ensures var effect := OnLine(body[start..end], current);
            && done + Parse(body[start..], current) == (done + effect.emitted) + rest
            && rest == if effect.stop || end == |body| then Flush(effect.current) else Parse(body[end + 1..], effect.current)
  {
    var tail := body[start..];
    var k := end - start;
    assert tail[..k] == body[start..end];
    if end < |body| {
      assert tail[k + 1..] == body[end + 1..];
    }
    var effect := OnLine(body[start..end], current);
    rest := if effect.stop || end == |body| then Flush(effect.current) else Parse(body[end + 1..], effect.current);
    Assoc(done, effect.emitted, rest);
  }

  // ---------------------------------------------------------------------------
  // The round trip
  // ---------------------------------------------------------------------------

  lemma {:induction false} LineEndOf(line: Bytes, rest: Bytes)
    requires LF !in line
    ensures LineEnd(line + [LF] + rest) == |line|
    ensures (line + [LF] + rest)[..|line|] == line && (line + [LF] + rest)[|line| + 1..] == rest
    decreases |line|
  {
    if line != [] {
      LineEndOf(line[1..], rest);
      assert (line + [LF] + rest)[1..] == line[1..] + [LF] + rest;
    }
  }

  /** Reading one complete line. */
  lemma ParseLine(line: Bytes, rest: Bytes, current: Bytes)
    requires LF !in line
    ensures var effect := OnLine(line, current);
            Parse(line + [LF] + rest, current) ==
            effect.emitted + if effect.stop then Flush(effect.current) else Parse(rest, effect.current)
  {
    LineEndOf(line, rest);
  }

  lemma ParseBlank(rest: Bytes, current: Bytes)
    ensures Parse([LF] + rest, current) == Flush(current) + Parse(rest, [])
  {
    ParseLine([], rest, current);
    assert [] + [LF] + rest == [LF] + rest;
  }

  lemma {:induction false} TrimCr(s: Bytes)
    ensures Trim(s + [CR]) == Trim(s)
    decreases |s|
  {
    if s != [] && IsSpace(s[0]) {
      assert (s + [CR])[1..] == s[1..] + [CR];
      TrimCr(s[1..]);
    } else if s == [] {
      assert [CR][1..] == [];
      assert [] + [CR] == [CR];
    } else {
      assert (s + [CR])[..|s|] == s;
    }
  }

  /** The data of a framed line is the trimmed event, whatever its edges. */
  lemma FramedData(event: Bytes)
    ensures var line := DropCr(DATA + [0x20] + event);
            DATA <= line && line != [] && Trim(line[5..]) == Trim(event)
  {
    var raw := DATA + [0x20] + event;
    assert raw[5..] == [0x20] + event;
    assert ([0x20] + event)[1..] == event;
    assert Trim([0x20] + event) == Trim(event);
    if raw[|raw| - 1] == CR {
      var front := event[..|event| - 1];
      assert event == front + [CR];
      TrimCr(front);
      assert raw[..|raw| - 1][5..] == [0x20] + front;
      assert ([0x20] + front)[1..] == front;
      assert Trim([0x20] + front) == Trim(front);
    }
  }

  function TotalSize(events: seq<Bytes>): nat {
    if events == [] then 0 else |events[0]| + 1 + TotalSize(events[1..])
  }

  /** What a collected event will count for. */
  function Weight(current: Bytes): nat {
    if current == [] then 0 else |current| + 1
  }

  lemma {:induction false} SizeConcat(a: seq<Bytes>, b: seq<Bytes>)
    ensures TotalSize(a + b) == TotalSize(a) + TotalSize(b)
  {
    if a == [] {
      Units(b);
    } else {
      SizeConcat(a[1..], b);
      assert (a + b)[1..] == a[1..] + b;
    }
  }

  lemma SizeOfFlush(current: Bytes)
    ensures TotalSize(Flush(current)) == Weight(current)
  {
    assert current != [] ==> [current][1..] == [];
  }

  /** One line adds no more than its own length. */
  lemma LineShrinks(line: Bytes, current: Bytes)
    ensures var effect := OnLine(line, current);
            TotalSize(effect.emitted) + Weight(effect.current) <= Weight(current) + |line|
  {
    SizeOfFlush(current);
  }

  /** An event free of line feeds is read back trimmed, unless nothing is left of it or it is the end marker. */
  lemma ParseFrame(event: Bytes, rest: Bytes)
    requires LF !in event
    ensures Parse(Frame(event) + rest, []) ==
            if Trim(event) == DONE then [] else Flush(Trim(event)) + Parse(rest, [])
  {
    var line := DATA + [0x20] + event;
    assert Frame(event) + rest == line + [LF] + ([LF] + rest);
    FramedData(event);
    ParseLine(line, [LF] + rest, []);
    ParseBlank(rest, Trim(event));
    Units(Parse([LF] + rest, Trim(event)));
  }

  /** Reading never makes more text than was written: `x` is the tail of an event that holds line feeds. */
  lemma {:induction false} ParseShrinks(x: Bytes, rest: Bytes, current: Bytes)
    ensures TotalSize(Parse(x + [LF, LF] + rest, current)) <=
            Weight(current) + |x| + TotalSize(Parse(rest, []))
    decreases |x|
  {
    var k := LineEnd(x);
    var line := x[..k];
    var tail := if k == |x| then [LF] + rest else x[k + 1..] + [LF, LF] + rest;
    assert x + [LF, LF] + rest == line + [LF] + tail;
    ParseLine(line, tail, current);
    var effect := OnLine(line, current);
    LineShrinks(line, current);
    SizeOfFlush(effect.current);
    if effect.stop {
      SizeConcat(effect.emitted, Flush(effect.current));
    } else {
      SizeConcat(effect.emitted, Parse(tail, effect.current));
      if k == |x| {
        ParseBlank(rest, effect.current);
        SizeConcat(Flush(effect.current), Parse(rest, []));
      } else {
        ParseShrinks(x[k + 1..], rest, effect.current);
      }
    }
  }

  /** An event the framing can carry: not empty, no line feed, no space at its edges. */
  predicate Carried(event: Bytes) {
    event != [] && LF !in event && Trim(event) == event
  }

  /** The events before the first end marker. */
  function BeforeDone(events: seq<Bytes>): seq<Bytes> {
    if events == [] || events[0] == DONE then [] else [events[0]] + BeforeDone(events[1..])
  }

  lemma FrameShrinks(event: Bytes, rest: Bytes)
    requires event != DONE
    ensures TotalSize(Parse(Frame(event) + rest, [])) <= |event| + 1 + TotalSize(Parse(rest, []))
    ensures TotalSize(Parse(Frame(event) + rest, [])) == |event| + 1 + TotalSize(Parse(rest, [])) ==> Carried(event)
  {
    if LF !in event {
      ParseFrame(event, rest);
      SizeOfFlush(Trim(event));
      SizeConcat(Flush(Trim(event)), Parse(rest, []));
    } else {
      var k := LineEnd(event);
      var first, x := event[..k], event[k + 1..];
      var line, tail := DATA + [0x20] + first, x + [LF, LF] + rest;
      assert Frame(event) + rest == line + [LF] + tail;
      FramedData(first);
      ParseLine(line, tail, []);
      Units(Parse(tail, Trim(first)));
      ParseShrinks(x, rest, Trim(first));
    }
  }

  lemma {:induction false} PrintedShrinks(events: seq<Bytes>)
    ensures TotalSize(Parse(Printed(events), [])) <= TotalSize(BeforeDone(events))
    ensures TotalSize(Parse(Printed(events), [])) == TotalSize(BeforeDone(events)) ==>
              AllCarried(BeforeDone(events))
  {
    if events == [] {
    } else if events[0] == DONE {
      ParseFrame(DONE, Printed(events[1..]));
    } else {
      PrintedShrinks(events[1..]);
      FrameShrinks(events[0], Printed(events[1..]));
      OneMoreEvent(events[0], BeforeDone(events[1..]));
    }
  }

  lemma OneMoreEvent(event: Bytes, events: seq<Bytes>)
    ensures TotalSize([event] + events) == |event| + 1 + TotalSize(events)
    ensures Carried(event) && AllCarried(events) ==> AllCarried([event] + events)
  {
    assert ([event] + events)[1..] == events;
  }

  lemma CarriedFrame(event: Bytes, rest: Bytes)
    requires Carried(event) && event != DONE
    ensures Parse(Frame(event) + rest, []) == [event] + Parse(rest, [])
  {
    ParseFrame(event, rest);
  }

  ghost predicate AllCarried(events: seq<Bytes>) {
    forall e | e in events :: Carried(e)
  }

  lemma {:induction false} CarriedComesBack(events: seq<Bytes>)
    requires AllCarried(BeforeDone(events))
    ensures Parse(Printed(events), []) == BeforeDone(events)
  {
    if events == [] {
    } else if events[0] == DONE {
      ParseFrame(DONE, Printed(events[1..]));
    } else {
      var first, others := events[0], BeforeDone(events[1..]);
      assert BeforeDone(events) == [first] + others;
      assert first in BeforeDone(events) && forall e | e in others :: e in BeforeDone(events);
      CarriedComesBack(events[1..]);
      CarriedFrame(first, Printed(events[1..]));
    }
  }

  /**
    The round trip, and exactly when it holds: whatever is printed, reading gives
    back the events before the first end marker if and only if each of these is
    one the framing can carry.
  */
  lemma RoundTrip(events: seq<Bytes>)
    ensures Parse(Printed(events), []) == BeforeDone(events) <==> AllCarried(BeforeDone(events))
  {
    PrintedShrinks(events);
    if AllCarried(BeforeDone(events)) {
      CarriedComesBack(events);
    }
  }
}
