/**
  The UTF-16 to UTF-8 decoder that native/proxy/src/ws_proxy.cpp tries on every
  websocket payload, against the UTF-16 encoding of section 2.1 of RFC 2781.
*/
module Utf16 {
  import opened Sequences
  import opened Utf8
  import opened Options

  // ---------------------------------------------------------------------------
  // Encoding, as RFC 2781 gives it
  // ---------------------------------------------------------------------------

  function EncodeUnits(v: int): seq<int> {
    if v < 0x10000 then [v]
    else [0xD800 + (v - 0x10000) / 0x400, 0xDC00 + (v - 0x10000) % 0x400]
  }

  function EncodeAllUnits(vs: seq<int>): seq<int> {
    if vs == [] then [] else EncodeAllUnits(vs[..|vs| - 1]) + EncodeUnits(vs[|vs| - 1])
  }

  predicate IsUnit(u: int) {
    0 <= u < 0x10000
  }

  predicate IsHigh(u: int) {
    0xD800 <= u <= 0xDBFF
  }

  predicate IsLow(u: int) {
    0xDC00 <= u <= 0xDFFF
  }

  function UnitBytes(u: int, littleEndian: bool): (s: Bytes)
    requires IsUnit(u)
    ensures |s| == 2
  {
    if littleEndian then [(u % 0x100) as Byte, (u / 0x100) as Byte]
    else [(u / 0x100) as Byte, (u % 0x100) as Byte]
  }

  ghost predicate AllUnits(us: seq<int>) {
    forall u | u in us :: IsUnit(u)
  }

  function Serialize(us: seq<int>, littleEndian: bool): (s: Bytes)
    requires AllUnits(us)
    ensures |s| == 2 * |us|
  {
    if us == [] then [] else UnitBytes(us[0], littleEndian) + Serialize(us[1..], littleEndian)
  }

  function ByteOrderMark(littleEndian: bool): Bytes {
    UnitBytes(0xFEFF, littleEndian)
  }

  // ---------------------------------------------------------------------------
  // What the decoder computes
  // ---------------------------------------------------------------------------

  function ReadUnit(first: Byte, second: Byte, littleEndian: bool): (u: int)
    ensures IsUnit(u)
  {
    if littleEndian then first as int + second as int * 0x100 else first as int * 0x100 + second as int
  }

  /** The units of a payload of even length. */
  function ReadUnits(s: Bytes, littleEndian: bool): (us: seq<int>)
    ensures |us| == |s| / 2
    ensures forall k | 0 <= k < |us| :: us[k] == ReadUnit(s[2 * k], s[2 * k + 1], littleEndian)
  {
    seq(|s| / 2, k requires 0 <= k < |s| / 2 => ReadUnit(s[2 * k], s[2 * k + 1], littleEndian))
  }

  /** The loop's variables: the text so far and a high surrogate waiting for its low one, or 0. */
  datatype Progress = Progress(text: Bytes, pending: int)

  function Advance(p: Progress, u: int): Option<Progress> {
    if u == 0 then Some(p)
    else if IsHigh(u) then (if p.pending != 0 then None else Some(p.(pending := u)))
    else if IsLow(u) then
      if p.pending == 0 then None
      else Some(Progress(p.text + Encode(0x10000 + (p.pending - 0xD800) * 0x400 + (u - 0xDC00)), 0))
    else if p.pending != 0 then None
    else Some(Progress(p.text + Encode(u), 0))
  }

  function Run(us: seq<int>): Option<Progress> {
    if us == [] then Some(Progress([], 0))
    else
      match Run(us[..|us| - 1])
      case None => None
      case Some(p) => Advance(p, us[|us| - 1])
  }

  /** A surrogate still waiting at the end spoils the whole payload. */
  function Finish(p: Option<Progress>): Option<Bytes> {
    if p.Some? && p.value.pending == 0 then Some(p.value.text) else None
  }

  function ZeroBytes(s: Bytes, parity: nat, n: nat): nat
    requires 2 * n <= |s| && parity < 2
  {
    if n == 0 then 0 else ZeroBytes(s, parity, n - 1) + if s[2 * (n - 1) + parity] == 0 then 1 else 0
  }

  /** Byte order and where the units start: a byte order mark decides, else a count of zero bytes. */
  function Detect(s: Bytes): Option<(bool, nat)>
    requires |s| >= 4
  {
    if s[0] == 0xFF && s[1] == 0xFE then Some((true, 2))
    else if s[0] == 0xFE && s[1] == 0xFF then Some((false, 2))
    else
      var n := if |s| / 2 < 64 then |s| / 2 else 64;
      var even, odd := ZeroBytes(s, 0, n), ZeroBytes(s, 1, n);
      var little := odd * 10 >= n * 7 && even * 10 <= n * 3;
      var big := even * 10 >= n * 7 && odd * 10 <= n * 3;
      if !little && !big then None else Some((little, 0))
  }

  function DecodePayload(s: Bytes): Option<Bytes> {
    if |s| < 4 || |s| % 2 != 0 then None
    else
      match Detect(s)
      case None => None
      case Some((little, offset)) =>
        Finish(Run(ReadUnits(s[offset..], little)))
  }

  /** The zero bytes on one side of the first units. */
  function ZeroSides(s: Bytes, parity: nat, n: nat): set<nat>
    requires 2 * n <= |s| && parity < 2
  {
    set k | 0 <= k < n && s[2 * k + parity] == 0
  }

  lemma {:induction false} ZerosAreCounted(s: Bytes, parity: nat, n: nat)
    requires 2 * n <= |s| && parity < 2
    ensures ZeroBytes(s, parity, n) == |ZeroSides(s, parity, n)|
  {
    if n > 0 {
      ZerosAreCounted(s, parity, n - 1);
      var front := ZeroSides(s, parity, n - 1);
      assert ZeroSides(s, parity, n) == if s[2 * (n - 1) + parity] == 0 then front + {n - 1} else front;
    } else {
      assert ZeroSides(s, parity, 0) == {};
    }
  }

  /**
    How the byte order is found: by a mark; else, of the first 64 units at most, seven in
    ten have to be zero on one side and no more than three in ten on the other.
  */
  lemma DetectSays(s: Bytes)
    requires |s| >= 4
    ensures var n := if |s| < 128 then |s| / 2 else 64;
            var first, second := |ZeroSides(s, 0, n)|, |ZeroSides(s, 1, n)|;
            Detect(s) ==
            if s[..2] == [0xFF, 0xFE] then Some((true, 2))
            else if s[..2] == [0xFE, 0xFF] then Some((false, 2))
            else if 10 * second >= 7 * n && 10 * first <= 3 * n then Some((true, 0))
            else if 10 * first >= 7 * n && 10 * second <= 3 * n then Some((false, 0))
            else None
  {
    var n := if |s| < 128 then |s| / 2 else 64;
    ZerosAreCounted(s, 0, n);
    ZerosAreCounted(s, 1, n);
    assert s[..2] == [s[0], s[1]];
  }

  // ---------------------------------------------------------------------------
  // The decoder
  // ---------------------------------------------------------------------------

  lemma {:induction false} RunStuck(us: seq<int>, k: nat)
    requires k <= |us| && Run(us[..k]) == None
    ensures Run(us) == None
    decreases |us| - k
  {
    if k == |us| {
      assert us[..k] == us;
    } else {
      assert us[..k + 1][..k] == us[..k];
      RunStuck(us, k + 1);
    }
  }

  lemma RunNext(us: seq<int>, k: nat, p: Progress)
    requires k < |us| && Run(us[..k]) == Some(p)
    ensures Run(us[..k + 1]) == Advance(p, us[k])
    ensures Advance(p, us[k]) == None ==> Run(us) == None
  {
    assert us[..k + 1][..k] == us[..k];
    if Advance(p, us[k]) == None {
      RunStuck(us, k + 1);
    }
  }

  method DecodeUnits(payload: Bytes, offset: nat, littleEndian: bool, ghost us: seq<int>) returns (r: Option<Bytes>)
    requires offset <= |payload| && |us| == (|payload| - offset) / 2
    requires forall k | 0 <= k < |us| ::
               us[k] == ReadUnit(payload[offset + 2 * k], payload[offset + 2 * k + 1], littleEndian)
    ensures r == Finish(Run(us))
  {
    var decoded, pending := [], 0;
    var index := offset;
    ghost var k := 0;
    while index + 1 < |payload|
      invariant k <= |us| && index == offset + 2 * k
      invariant Run(us[..k]) == Some(Progress(decoded, pending))
      invariant pending == 0 || IsHigh(pending)
    {
      RunNext(us, k, Progress(decoded, pending));
      var unit := ReadUnit(payload[index], payload[index + 1], littleEndian);
      k, index := k + 1, index + 2;
      if unit == 0 {
        continue;
      }
      if unit >= 0xD800 && unit <= 0xDBFF {
        if pending != 0 {
          return None;
        }
        pending := unit;
        continue;
      }
      if unit >= 0xDC00 && unit <= 0xDFFF {
        if pending == 0 {
          return None;
        }
        decoded := AppendCodePoint(decoded, 0x10000 + (pending - 0xD800) * 0x400 + (unit - 0xDC00));
        pending := 0;
        continue;
      }
      if pending != 0 {
        return None;
      }
      decoded := AppendCodePoint(decoded, unit);
    }
    assert us[..k] == us;
    if pending != 0 {
      return None;
    }
    r := Some(decoded);
  }

  method TryDecodeUtf16Json(payload: Bytes) returns (r: Option<Bytes>)
    ensures r == DecodePayload(payload)
  {
    if |payload| < 4 || |payload| % 2 != 0 {
      return None;
    }

    var littleEndian, offset := false, 0;
    var first, second := payload[0], payload[1];
    if first == 0xFF && second == 0xFE {
      littleEndian, offset := true, 2;
    } else if first == 0xFE && second == 0xFF {
      littleEndian, offset := false, 2;
    } else {
      var sampleUnits := if |payload| / 2 < 64 then |payload| / 2 else 64;
      var zeroEven, zeroOdd := 0, 0;
      for index := 0 to sampleUnits
        invariant zeroEven == ZeroBytes(payload, 0, index)
        invariant zeroOdd == ZeroBytes(payload, 1, index)
      {
        if payload[index * 2] == 0 {
          zeroEven := zeroEven + 1;
        }
        if payload[index * 2 + 1] == 0 {
          zeroOdd := zeroOdd + 1;
        }
      }
      var looksLittle := zeroOdd * 10 >= sampleUnits * 7 && zeroEven * 10 <= sampleUnits * 3;
      var looksBig := zeroEven * 10 >= sampleUnits * 7 && zeroOdd * 10 <= sampleUnits * 3;
      if !looksLittle && !looksBig {
        return None;
      }
      littleEndian := looksLittle;
    }
    r := DecodeUnits(payload, offset, littleEndian, ReadUnits(payload[offset..], littleEndian));
  }

  // ---------------------------------------------------------------------------
  // Which unit sequences are accepted, and as what
  // ---------------------------------------------------------------------------

  function NonZero(us: seq<int>): seq<int> {
    if us == [] then []
    else NonZero(us[..|us| - 1]) + if us[|us| - 1] == 0 then [] else [us[|us| - 1]]
  }

  function Pending(p: int): seq<int> {
    if p == 0 then [] else [p]
  }

  lemma EncodeAllUnitsOne(vs: seq<int>, v: int)
    ensures EncodeAllUnits(vs + [v]) == EncodeAllUnits(vs) + EncodeUnits(v)
    ensures EncodeAll(vs + [v]) == EncodeAll(vs) + Encode(v)
  {
    assert (vs + [v])[..|vs + [v]| - 1] == vs;
  }

  /**
    Soundness: if the run gets to (text, pending), then the non-zero units are
    the encoding of some scalars, followed by the pending surrogate, and the
    text is the UTF-8 encoding of the same scalars.
  */
  lemma {:induction false} RunSound(us: seq<int>) returns (vs: seq<int>)
    requires AllUnits(us) && Run(us).Some?
    ensures AllScalars(vs) && 0 !in vs
    ensures var Some(p) := Run(us);
            && (p.pending == 0 || IsHigh(p.pending))
            && NonZero(us) == EncodeAllUnits(vs) + Pending(p.pending)
            && p.text == EncodeAll(vs)
  {
    vs := [];
    if us != [] {
      var front, u := us[..|us| - 1], us[|us| - 1];
      vs := RunSound(front);
      vs := RunSoundStep(vs, Run(front).value, u);
      Assoc(NonZero(front), if u == 0 then [] else [u], []);
    }
  }

  /** One more unit: the scalars spelled so far grow by at most one. */
  lemma RunSoundStep(vs: seq<int>, p: Progress, u: int) returns (ws: seq<int>)
    requires AllScalars(vs) && 0 !in vs && IsUnit(u)
    requires p.pending == 0 || IsHigh(p.pending)
    requires p.text == EncodeAll(vs) && Advance(p, u).Some?
    ensures AllScalars(ws) && 0 !in ws
    ensures var Some(q) := Advance(p, u);
            && (q.pending == 0 || IsHigh(q.pending))
            && (EncodeAllUnits(vs) + Pending(p.pending)) + (if u == 0 then [] else [u])
               == EncodeAllUnits(ws) + Pending(q.pending)
            && q.text == EncodeAll(ws)
  {
    if u == 0 || IsHigh(u) {
      ws := vs;
    } else {
      var v := if IsLow(u) then 0x10000 + (p.pending - 0xD800) * 0x400 + (u - 0xDC00) else u;
      ws := vs + [v];
      EncodeAllUnitsOne(vs, v);
      if IsLow(u) {
        SurrogatePair(p.pending, u);
        Assoc(EncodeAllUnits(vs), [p.pending], [u]);
      }
      assert forall w | w in ws :: w in vs || w == v;
    }
  }

  lemma SurrogatePair(high: int, low: int)
    requires IsHigh(high) && IsLow(low)
    ensures var v := 0x10000 + (high - 0xD800) * 0x400 + (low - 0xDC00);
            IsScalar(v) && v >= 0x10000 && EncodeUnits(v) == [high, low]
  {
  }

  /** Completeness: the encoding of non-zero scalars, zero units strewn in at will, is accepted. */
  lemma {:induction false} RunComplete(us: seq<int>, vs: seq<int>, pending: int)
    requires AllScalars(vs) && 0 !in vs && (pending == 0 || IsHigh(pending))
    requires NonZero(us) == EncodeAllUnits(vs) + Pending(pending)
    ensures Run(us) == Some(Progress(EncodeAll(vs), pending))
    decreases |us|
  {
    if us == [] {
      if vs != [] {
        assert false;
      }
    } else {
      var front, u := us[..|us| - 1], us[|us| - 1];
      if u == 0 {
        Units(NonZero(front));
        RunComplete(front, vs, pending);
      } else if pending != 0 {
        LastOf(NonZero(front), u, EncodeAllUnits(vs), pending);
        Units(EncodeAllUnits(vs));
        RunComplete(front, vs, 0);
      } else {
        Units(EncodeAllUnits(vs));
        assert vs != [];
        RunCompleteLast(us, vs);
      }
    }
  }

  lemma LastOf<T>(a: seq<T>, x: T, b: seq<T>, y: T)
    requires a + [x] == b + [y]
    ensures a == b && x == y
  {
    assert |a| == |b|;
    assert a == (a + [x])[..|a|];
    assert b == (b + [y])[..|b|];
    assert (a + [x])[|a|] == x && (b + [y])[|b|] == y;
  }

  lemma {:induction false} RunCompleteLast(us: seq<int>, vs: seq<int>)
    requires AllScalars(vs) && 0 !in vs && us != [] && us[|us| - 1] != 0 && vs != []
    requires NonZero(us) == EncodeAllUnits(vs)
    ensures Run(us) == Some(Progress(EncodeAll(vs), 0))
    decreases |us|, 0
  {
    var front, u := us[..|us| - 1], us[|us| - 1];
    var init, v := vs[..|vs| - 1], vs[|vs| - 1];
    assert NonZero(front) + [u] == EncodeAllUnits(init) + EncodeUnits(v);
    assert v in vs;
    if v < 0x10000 {
      LastOf(NonZero(front), u, EncodeAllUnits(init), v);
      Units(EncodeAllUnits(init));
      RunComplete(front, init, 0);
    } else {
      var high, low := 0xD800 + (v - 0x10000) / 0x400, 0xDC00 + (v - 0x10000) % 0x400;
      Assoc(EncodeAllUnits(init), [high], [low]);
      LastOf(NonZero(front), u, EncodeAllUnits(init) + [high], low);
      RunComplete(front, init, high);
      assert 0x10000 + (high - 0xD800) * 0x400 + (low - 0xDC00) == v;
    }
  }

  /** Both directions at once: what the decoder accepts, and what it answers. */
  lemma AcceptedUnits(us: seq<int>, text: Bytes)
    requires AllUnits(us)
    ensures Run(us) == Some(Progress(text, 0)) <==>
            exists vs: seq<int> :: AllScalars(vs) && 0 !in vs && NonZero(us) == EncodeAllUnits(vs) && text == EncodeAll(vs)
  {
    if Run(us) == Some(Progress(text, 0)) {
      var vs := RunSound(us);
      Units(EncodeAllUnits(vs));
    }
    if vs: seq<int> :| AllScalars(vs) && 0 !in vs && NonZero(us) == EncodeAllUnits(vs) && text == EncodeAll(vs) {
      Units(EncodeAllUnits(vs));
      RunComplete(us, vs, 0);
    }
  }

  /** Whatever the input, a returned text is well-formed, so the scrub that follows changes nothing. */
  lemma DecodedIsWellFormed(s: Bytes)
    requires DecodePayload(s).Some?
    ensures WellFormed(DecodePayload(s).value)
    ensures Scrub(DecodePayload(s).value) == DecodePayload(s).value
  {
    var (little, offset) := Detect(s).value;
    var us := ReadUnits(s[offset..], little);
    var vs := RunSound(us);
    EncodeAllWellFormed(vs);
    ScrubFixpoint(EncodeAll(vs));
  }

  // ---------------------------------------------------------------------------
  // The round trip
  // ---------------------------------------------------------------------------

  lemma {:induction false} EncodeAllUnitsValid(vs: seq<int>)
    requires AllScalars(vs)
    ensures AllUnits(EncodeAllUnits(vs))
    ensures |EncodeAllUnits(vs)| >= |vs|
  {
    if vs != [] {
      var v := vs[|vs| - 1];
      assert v in vs;
      EncodeAllUnitsValid(vs[..|vs| - 1]);
      assert forall u | u in EncodeUnits(v) :: IsUnit(u);
    }
  }

  lemma {:induction false} SerializeAt(us: seq<int>, littleEndian: bool, k: nat)
    requires AllUnits(us) && k < |us|
    ensures ReadUnit(Serialize(us, littleEndian)[2 * k], Serialize(us, littleEndian)[2 * k + 1], littleEndian) == us[k]
  {
    var head, tail := UnitBytes(us[0], littleEndian), Serialize(us[1..], littleEndian);
    if k == 0 {
      assert (head + tail)[0] == head[0] && (head + tail)[1] == head[1];
    } else {
      SerializeAt(us[1..], littleEndian, k - 1);
      assert (head + tail)[2 * k] == tail[2 * (k - 1)] && (head + tail)[2 * k + 1] == tail[2 * (k - 1) + 1];
    }
  }

  lemma ReadSerialized(us: seq<int>, littleEndian: bool)
    requires AllUnits(us)
    ensures ReadUnits(Serialize(us, littleEndian), littleEndian) == us
  {
    forall k | 0 <= k < |us|
      ensures ReadUnits(Serialize(us, littleEndian), littleEndian)[k] == us[k]
    {
      SerializeAt(us, littleEndian, k);
    }
  }

  lemma {:induction false} NonZeroConcat(a: seq<int>, b: seq<int>)
    ensures NonZero(a + b) == NonZero(a) + NonZero(b)
  {
    if b == [] {
      Units(a);
      Units(NonZero(a));
    } else {
      NonZeroConcat(a, b[..|b| - 1]);
      assert (a + b)[..|a + b| - 1] == a + b[..|b| - 1];
      Assoc(NonZero(a), NonZero(b[..|b| - 1]), if b[|b| - 1] == 0 then [] else [b[|b| - 1]]);
    }
  }

  /** Dropping zero units is dropping the scalar zero. */
  lemma {:induction false} NonZeroOfEncoded(vs: seq<int>)
    requires AllScalars(vs)
    ensures NonZero(EncodeAllUnits(vs)) == EncodeAllUnits(NonZero(vs))
    ensures AllScalars(NonZero(vs)) && 0 !in NonZero(vs)
  {
    if vs != [] {
      var init, v := vs[..|vs| - 1], vs[|vs| - 1];
      assert v in vs;
      NonZeroOfEncoded(init);
      NonZeroConcat(EncodeAllUnits(init), EncodeUnits(v));
      NonZeroOfOne(v);
      if v == 0 {
        Units(EncodeAllUnits(NonZero(init)));
        Units(NonZero(init));
      } else {
        EncodeAllUnitsOne(NonZero(init), v);
      }
    }
  }

  lemma NonZeroOfOne(v: int)
    requires IsScalar(v)
    ensures NonZero(EncodeUnits(v)) == if v == 0 then [] else EncodeUnits(v)
  {
    NonZeroConcat([EncodeUnits(v)[0]], EncodeUnits(v)[1..]);
    assert EncodeUnits(v) == [EncodeUnits(v)[0]] + EncodeUnits(v)[1..];
    NonZeroOfUnit(EncodeUnits(v)[0]);
    if v >= 0x10000 {
      NonZeroOfUnit(EncodeUnits(v)[1]);
      assert EncodeUnits(v)[1..] == [EncodeUnits(v)[1]];
    } else {
      Units(NonZero([v]));
    }
  }

  lemma NonZeroOfUnit(u: int)
    ensures NonZero([u]) == if u == 0 then [] else [u]
  {
    assert [u][..0] == [];
  }

  /**
    The round trip in either byte order. A scalar sequence encoded with a byte
    order mark comes back as its UTF-8 encoding with every U+0000 left out; the
    mark alone is too short to be tried.
  */
  lemma DecodeEncoded(vs: seq<int>, littleEndian: bool)
    requires AllScalars(vs)
    ensures AllUnits(EncodeAllUnits(vs))
    ensures DecodePayload(ByteOrderMark(littleEndian) + Serialize(EncodeAllUnits(vs), littleEndian)) ==
            if vs == [] then None else Some(EncodeAll(NonZero(vs)))
  {
    EncodeAllUnitsValid(vs);
    var us := EncodeAllUnits(vs);
    if vs != [] {
      MarkDecides(Serialize(us, littleEndian), littleEndian);
      ReadSerialized(us, littleEndian);
      NonZeroOfEncoded(vs);
      AcceptedUnits(us, EncodeAll(NonZero(vs)));
    }
  }

  lemma MarkDecides(body: Bytes, littleEndian: bool)
    requires |body| >= 2 && |body| % 2 == 0
    ensures DecodePayload(ByteOrderMark(littleEndian) + body) ==
            Finish(Run(ReadUnits(body, littleEndian)))
  {
    Undo(ByteOrderMark(littleEndian), body);
    MarkDetected(ByteOrderMark(littleEndian) + body, littleEndian);
  }

  lemma MarkDetected(s: Bytes, littleEndian: bool)
    requires |s| >= 4 && s[..2] == ByteOrderMark(littleEndian)
    ensures Detect(s) == Some((littleEndian, 2))
  {
    assert s[0] == s[..2][0] && s[1] == s[..2][1];
  }

  lemma {:induction false} NonZeroLength(vs: seq<int>)
    ensures |NonZero(vs)| <= |vs|
    ensures NonZero(vs) == vs <==> 0 !in vs
  {
    if vs != [] {
      NonZeroLength(vs[..|vs| - 1]);
      Halves(vs, |vs| - 1);
      if NonZero(vs) == vs && vs[|vs| - 1] != 0 {
        LastOf(NonZero(vs[..|vs| - 1]), vs[|vs| - 1], vs[..|vs| - 1], vs[|vs| - 1]);
      }
      if 0 in vs[..|vs| - 1] {
        assert 0 in vs;
      }
    }
  }

  lemma {:induction false} EncodedLength(vs: seq<int>)
    requires AllScalars(vs)
    ensures |EncodeAll(NonZero(vs))| <= |EncodeAll(vs)|
    ensures |EncodeAll(NonZero(vs))| == |EncodeAll(vs)| ==> 0 !in vs
  {
    if vs != [] {
      var init, v := vs[..|vs| - 1], vs[|vs| - 1];
      assert v in vs;
      EncodedLength(init);
      if v == 0 {
        Units(NonZero(init));
      } else {
        EncodeAllUnitsOne(NonZero(init), v);
      }
    }
  }

  /**
    When the round trip is exact: a non-empty scalar sequence comes back as its
    own UTF-8 encoding if and only if it does not hold U+0000.
  */
  lemma RoundTripExactly(vs: seq<int>, littleEndian: bool)
    requires AllScalars(vs)
    ensures AllUnits(EncodeAllUnits(vs))
    ensures DecodePayload(ByteOrderMark(littleEndian) + Serialize(EncodeAllUnits(vs), littleEndian)) == Some(EncodeAll(vs))
            <==> vs != [] && 0 !in vs
  {
    DecodeEncoded(vs, littleEndian);
    NonZeroLength(vs);
    EncodedLength(vs);
  }
}
