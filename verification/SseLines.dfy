/**
  What the reader of server-sent events makes of any text, said over the list of its
  lines: blank lines part it into blocks, the data of a block makes an event, and the
  end marker ends it.
*/
module SseLines {
  import opened Sequences
  import opened Utf8
  import opened SseFraming

  // ---------------------------------------------------------------------------
  // Texts and their lines
  // ---------------------------------------------------------------------------

  /** The stretches between line feeds. */
  function Lines(text: Bytes): (lines: seq<Bytes>)
    ensures lines != []
  {
    if text == [] then [[]]
    else if text[0] == LF then [[]] + Lines(text[1..])
    else
      var rest := Lines(text[1..]);
      [[text[0]] + rest[0]] + rest[1..]
  }

  predicate IsBlank(line: Bytes) {
    line == [] || line == [CR]
  }

  predicate IsData(line: Bytes) {
    |line| >= 5 && line[0] == 0x64 && line[1] == 0x61 && line[2] == 0x74 && line[3] == 0x61 && line[4] == 0x3A
  }

  function DataIn(line: Bytes): Bytes
    requires IsData(line)
  {
    Trim(line[5..])
  }

  /** A data line that says [DONE]. */
  predicate IsDone(line: Bytes) {
    IsData(line) && DataIn(line) == [0x5B, 0x44, 0x4F, 0x4E, 0x45, 0x5D]
  }

  // ---------------------------------------------------------------------------
  // What the lines say
  // ---------------------------------------------------------------------------

  /** The lines before the first end marker. */
  function BeforeMarker(lines: seq<Bytes>): seq<Bytes> {
    if lines == [] || IsDone(lines[0]) then [] else [lines[0]] + BeforeMarker(lines[1..])
  }

  /** The data in a block of lines, empty data left out. */
  function DataOf(block: seq<Bytes>): seq<Bytes> {
    if block == [] then []
    else (if IsData(block[0]) && DataIn(block[0]) != [] then [DataIn(block[0])] else []) + DataOf(block[1..])
  }

  /** Texts with a line feed between each two. */
  function Joined(parts: seq<Bytes>): Bytes {
    if parts == [] then [] else if |parts| == 1 then parts[0] else parts[0] + [LF] + Joined(parts[1..])
  }

  function EventOf(block: seq<Bytes>): seq<Bytes> {
    if DataOf(block) == [] then [] else [Joined(DataOf(block))]
  }

  function FirstBlank(lines: seq<Bytes>): (n: nat)
    ensures n <= |lines| && (forall i | 0 <= i < n :: !IsBlank(lines[i])) && (n < |lines| ==> IsBlank(lines[n]))
  {
    if lines == [] || IsBlank(lines[0]) then 0 else 1 + FirstBlank(lines[1..])
  }

  /** One event for each block that has any data. */
  function EventsIn(lines: seq<Bytes>): seq<Bytes>
    decreases |lines|
  {
    var n := FirstBlank(lines);
    EventOf(lines[..n]) + if n == |lines| then [] else EventsIn(lines[n + 1..])
  }

  // ---------------------------------------------------------------------------
  // Trimming
  // ---------------------------------------------------------------------------

  lemma {:induction false} TrimStartMeans(s: Bytes) returns (i: nat)
    ensures i <= |s| && TrimStart(s) == s[i..] && (forall k | 0 <= k < i :: s[k] == 0x20 || 0x09 <= s[k] <= 0x0D)
    ensures i < |s| ==> !(s[i] == 0x20 || 0x09 <= s[i] <= 0x0D)
  {
    i := 0;
    if s != [] && IsSpace(s[0]) {
      var j := TrimStartMeans(s[1..]);
      i := j + 1;
      assert forall k | 1 <= k < i :: s[k] == s[1..][k - 1];
    }
  }

  lemma {:induction false} TrimEndMeans(s: Bytes) returns (j: nat)
    ensures j <= |s| && TrimEnd(s) == s[..j] && (forall k | j <= k < |s| :: s[k] == 0x20 || 0x09 <= s[k] <= 0x0D)
    ensures j > 0 ==> !(s[j - 1] == 0x20 || 0x09 <= s[j - 1] <= 0x0D)
  {
    j := |s|;
    if s != [] && IsSpace(s[|s| - 1]) {
      j := TrimEndMeans(s[..|s| - 1]);
      assert s[..|s| - 1][..j] == s[..j];
    } else {
      assert s[..j] == s;
    }
  }

  /** Trimming takes white space from both ends, all of it and nothing else. */
  lemma TrimMeans(s: Bytes) returns (i: nat, j: nat)
    ensures i <= j <= |s| && Trim(s) == s[i..j]
    ensures forall k | 0 <= k < i || j <= k < |s| :: s[k] == 0x20 || 0x09 <= s[k] <= 0x0D
    ensures i < j ==> forall k | k == i || k == j - 1 :: !(s[k] == 0x20 || 0x09 <= s[k] <= 0x0D)
  {
    i := TrimStartMeans(s);
    var n := TrimEndMeans(s[i..]);
    j := i + n;
    assert forall k | j <= k < |s| :: s[k] == s[i..][k - i];
  }

  // ---------------------------------------------------------------------------
  // The reader, line by line
  // ---------------------------------------------------------------------------

  lemma {:induction false} LinesFrom(text: Bytes)
    ensures var k := LineEnd(text);
            Lines(text) == if k == |text| then [text] else [text[..k]] + Lines(text[k + 1..])
  {
    if text != [] && text[0] != LF {
      LinesFrom(text[1..]);
      var k := LineEnd(text);
      if k < |text| {
        assert text[1..][..k - 1] == text[1..k] && text[1..][k..] == text[k + 1..];
        assert [text[0]] + text[1..k] == text[..k];
      } else {
        assert [text[0]] + text[1..] == text;
      }
    }
  }

  /** What a line does, in the words above. */
  lemma LineDoes(line: Bytes, current: Bytes)
    ensures OnLine(line, current) ==
            if IsBlank(line) then Effect(Flush(current), [], false)
            else if IsDone(line) then Effect([], current, true)
            else if IsData(line) then Effect([], Join(current, DataIn(line)), false)
            else Effect([], current, false)
  {
    var bare := DropCr(line);
    assert IsData(line) <==> DATA <= line;
    assert DATA <= line <==> DATA <= bare;
    if IsData(line) && bare != line {
      assert line[5..] == bare[5..] + [CR];
      TrimCr(bare[5..]);
    }
  }

  /** The events of lines of which some data is collected already. */
  function EventsAfter(current: Bytes, lines: seq<Bytes>): seq<Bytes>
    decreases |lines|
  {
    if lines == [] then Flush(current)
    else if IsBlank(lines[0]) then Flush(current) + EventsAfter([], lines[1..])
    else if IsDone(lines[0]) then Flush(current)
    else if IsData(lines[0]) then EventsAfter(Join(current, DataIn(lines[0])), lines[1..])
    else EventsAfter(current, lines[1..])
  }

  /** The same, one line at a time. */
  lemma AfterLine(current: Bytes, line: Bytes, rest: seq<Bytes>)
    ensures var effect := OnLine(line, current);
            EventsAfter(current, [line] + rest) ==
            effect.emitted + if effect.stop then Flush(effect.current) else EventsAfter(effect.current, rest)
  {
    LineDoes(line, current);
    assert ([line] + rest)[1..] == rest;
    Units(Flush(current));
    Units(EventsAfter(OnLine(line, current).current, rest));
  }

  lemma {:induction false} ParseIsAfter(text: Bytes, current: Bytes)
    ensures Parse(text, current) == EventsAfter(current, Lines(text))
    decreases |text|
  {
    var k := LineEnd(text);
    var rest := if k == |text| then [] else Lines(text[k + 1..]);
    LinesFrom(text);
    assert text[..|text|] == text;
    assert Lines(text) == [text[..k]] + rest;
    AfterLine(current, text[..k], rest);
    if k < |text| {
      ParseIsAfter(text[k + 1..], OnLine(text[..k], current).current);
    }
  }

  // ---------------------------------------------------------------------------
  // Blocks
  // ---------------------------------------------------------------------------

  /** The data collected so far and the data of a block. */
  function Collected(current: Bytes, block: seq<Bytes>): Bytes
    decreases |block|
  {
    if block == [] then current
    else Collected(if IsData(block[0]) then Join(current, DataIn(block[0])) else current, block[1..])
  }

  /** What is still to come, block by block. */
  lemma {:induction false} AfterBlock(current: Bytes, lines: seq<Bytes>)
    requires forall i | 0 <= i < |lines| :: !IsDone(lines[i])
    ensures var n := FirstBlank(lines);
            EventsAfter(current, lines) ==
            Flush(Collected(current, lines[..n])) + if n == |lines| then [] else EventsAfter([], lines[n + 1..])
    decreases |lines|
  {
    var n := FirstBlank(lines);
    if lines == [] || IsBlank(lines[0]) {
      Units(Flush(current));
    } else {
      var next := if IsData(lines[0]) then Join(current, DataIn(lines[0])) else current;
      assert !IsDone(lines[0]);
      AfterBlock(next, lines[1..]);
      assert lines[..n][0] == lines[0] && lines[..n][1..] == lines[1..][..n - 1];
      assert n < |lines| ==> lines[1..][n..] == lines[n + 1..];
    }
  }

  /** Texts with a line feed behind each. */
  function Continued(current: Bytes, parts: seq<Bytes>): Bytes
    decreases |parts|
  {
    if parts == [] then current else Continued(Join(current, parts[0]), parts[1..])
  }

  lemma {:induction false} CollectedIs(current: Bytes, block: seq<Bytes>)
    ensures Collected(current, block) == Continued(current, DataOf(block))
    decreases |block|
  {
    if block != [] {
      var next := if IsData(block[0]) then Join(current, DataIn(block[0])) else current;
      CollectedIs(next, block[1..]);
      if IsData(block[0]) && DataIn(block[0]) != [] {
        assert DataOf(block)[0] == DataIn(block[0]) && DataOf(block)[1..] == DataOf(block[1..]);
      } else {
        Units(DataOf(block[1..]));
      }
    }
  }

  predicate NoneEmpty(parts: seq<Bytes>) {
    forall i | 0 <= i < |parts| :: parts[i] != []
  }

  lemma {:induction false} DataIsNotEmpty(block: seq<Bytes>)
    ensures NoneEmpty(DataOf(block))
  {
    if block != [] {
      DataIsNotEmpty(block[1..]);
    }
  }

  lemma {:induction false} ContinuedIs(current: Bytes, parts: seq<Bytes>)
    requires NoneEmpty(parts) && current != []
    ensures Continued(current, parts) == Joined([current] + parts)
    decreases |parts|
  {
    var all := [current] + parts;
    assert all[1..] == parts;
    if parts == [] {
      assert |all| == 1;
    } else {
      var next := current + [LF] + parts[0];
      ContinuedIs(next, parts[1..]);
      JoinedTwice(current, parts);
    }
  }

  lemma JoinedTwice(current: Bytes, parts: seq<Bytes>)
    requires parts != []
    ensures Joined([current + [LF] + parts[0]] + parts[1..]) == current + [LF] + Joined(parts)
  {
    var first := current + [LF] + parts[0];
    var all := [first] + parts[1..];
    assert all[1..] == parts[1..] && all[0] == first;
    if |parts| > 1 {
      Assoc(current + [LF], parts[0], [LF]);
      Assoc(current + [LF], parts[0] + [LF], Joined(parts[1..]));
    }
  }

  /** The data of a block makes one event. */
  lemma BlockIsEvent(block: seq<Bytes>)
    ensures Flush(Collected([], block)) == EventOf(block)
  {
    var parts := DataOf(block);
    CollectedIs([], block);
    DataIsNotEmpty(block);
    if parts != [] {
      assert parts[0] != [];
      ContinuedIs(parts[0], parts[1..]);
      assert [parts[0]] + parts[1..] == parts;
      assert Joined(parts) != [];
    }
  }

  lemma {:induction false} AfterIsEvents(lines: seq<Bytes>)
    requires forall i | 0 <= i < |lines| :: !IsDone(lines[i])
    ensures EventsAfter([], lines) == EventsIn(lines)
    decreases |lines|
  {
    var n := FirstBlank(lines);
    AfterBlock([], lines);
    BlockIsEvent(lines[..n]);
    if n < |lines| {
      AfterIsEvents(lines[n + 1..]);
    }
  }

  // ---------------------------------------------------------------------------
  // The end marker
  // ---------------------------------------------------------------------------

  lemma {:induction false} NoMarkerBefore(lines: seq<Bytes>)
    ensures forall i | 0 <= i < |BeforeMarker(lines)| :: !IsDone(BeforeMarker(lines)[i])
  {
    if lines != [] && !IsDone(lines[0]) {
      NoMarkerBefore(lines[1..]);
    }
  }

  lemma {:induction false} StopsAtMarker(current: Bytes, lines: seq<Bytes>)
    ensures EventsAfter(current, lines) == EventsAfter(current, BeforeMarker(lines))
    decreases |lines|
  {
    if lines != [] && !IsDone(lines[0]) {
      var first, rest := lines[0], lines[1..];
      assert BeforeMarker(lines)[0] == first && BeforeMarker(lines)[1..] == BeforeMarker(rest);
      StopsAtMarker(if IsBlank(first) then [] else if IsData(first) then Join(current, DataIn(first)) else current, rest);
    }
  }

  /** Any text: its events are those of its lines before the first end marker. */
  lemma ParseMeans(text: Bytes)
    ensures Parse(text, []) == EventsIn(BeforeMarker(Lines(text)))
  {
    ParseIsAfter(text, []);
    StopsAtMarker([], Lines(text));
    NoMarkerBefore(Lines(text));
    AfterIsEvents(BeforeMarker(Lines(text)));
  }

  // ---------------------------------------------------------------------------
  // Lines that say nothing
  // ---------------------------------------------------------------------------

  predicate SaysNothing(line: Bytes) {
    !IsBlank(line) && !IsData(line)
  }

  lemma {:induction false} LineAside(current: Bytes, before: seq<Bytes>, line: Bytes, after: seq<Bytes>)
    requires SaysNothing(line)
    ensures EventsAfter(current, before + ([line] + after)) == EventsAfter(current, before + after)
    decreases |before|
  {
    if before == [] {
      Units([line] + after);
      Units(after);
      assert ([line] + after)[1..] == after;
    } else {
      var first, rest := before[0], before[1..];
      assert (before + ([line] + after))[1..] == rest + ([line] + after) && (before + after)[1..] == rest + after;
      LineAside(if IsBlank(first) then [] else if IsData(first) then Join(current, DataIn(first)) else current,
                rest, line, after);
    }
  }

  lemma {:induction false} LinesConcat(a: Bytes, b: Bytes)
    requires a == [] || a[|a| - 1] == LF
    ensures var n := |Lines(a)| - 1; Lines(a + b) == Lines(a)[..n] + Lines(b)
    decreases |a|
  {
    if a == [] {
      Units(b);
      Units(Lines(b));
    } else {
      var rest := a[1..];
      assert (a + b)[1..] == rest + b;
      LinesConcat(rest, b);
      var n := |Lines(rest)| - 1;
      if a[0] == LF {
        assert Lines(a)[..n + 1] == [[]] + Lines(rest)[..n];
        Assoc([[]], Lines(rest)[..n], Lines(b));
      } else {
        AtLeastTwo(rest);
        FrontJoins(a[0], Lines(rest), n, Lines(b));
      }
    }
  }

  lemma FrontJoins(first: Byte, lines: seq<Bytes>, n: nat, more: seq<Bytes>)
    requires 0 < n == |lines| - 1
    ensures var joined := [[first] + lines[0]] + lines[1..];
            var all := lines[..n] + more;
            [[first] + all[0]] + all[1..] == joined[..n] + more
  {
  }

  lemma {:induction false} AtLeastTwo(a: Bytes)
    requires a != [] && a[|a| - 1] == LF
    ensures |Lines(a)| >= 2
    decreases |a|
  {
    if a[0] != LF {
      AtLeastTwo(a[1..]);
    }
  }

  lemma LinesOfLine(line: Bytes, b: Bytes)
    requires LF !in line
    ensures Lines(line + [LF] + b) == [line] + Lines(b)
  {
    LineEndOf(line, b);
    LinesFrom(line + [LF] + b);
  }

  /** A line that is neither blank nor data changes nothing, wherever it stands: `event:`, `id:`, `retry:`, comments. */
  lemma OtherLinesAreIgnored(a: Bytes, line: Bytes, b: Bytes)
    requires a == [] || a[|a| - 1] == LF
    requires LF !in line && SaysNothing(line)
    ensures Parse(a + (line + [LF] + b), []) == Parse(a + b, [])
  {
    var n := |Lines(a)| - 1;
    LinesConcat(a, line + [LF] + b);
    LinesConcat(a, b);
    LinesOfLine(line, b);
    LineAside([], Lines(a)[..n], line, Lines(b));
    ParseIsAfter(a + (line + [LF] + b), []);
    ParseIsAfter(a + b, []);
  }
}
