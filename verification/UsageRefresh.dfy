/**
  The automatic usage refresh of native/server/src/proxy_request_logger.cpp: one
  tracker per account, whose three fields stand for the history of its requests and
  refreshes. Every call holds the tracker mutex, so any interleaving of threads is one
  sequence of calls; the times they pass were read before, in no particular order.
*/
module UsageRefresh {
  import opened Options

  const THRESHOLD: nat := 12
  const MIN_INTERVAL_MS := 10_000

  datatype Tracker = Tracker(pending: nat, lastStartedAt: int, inFlight: bool)

  const IDLE := Tracker(0, 0, false)

  /** A counted request at a time, or the end of a refresh. */
  datatype Event = Request(account: int, now: int) | Completed(account: int, success: bool)

  // ---------------------------------------------------------------------------
  // What a history says
  // ---------------------------------------------------------------------------

  /** Some request of the account was counted. */
  predicate Seen(h: seq<Event>, a: int) {
    exists i | 0 <= i < |h| :: h[i].Request? && h[i].account == a
  }

  /** The last event is a request that starts a refresh. */
  predicate Starts(h: seq<Event>)
    decreases |h|, 0
  {
    && h != [] && h[|h| - 1].Request?
    && var front, a := h[..|h| - 1], h[|h| - 1].account;
    && (Count(front, a) + 1 >= THRESHOLD || Failed(front, a))
    && !InFlight(front, a)
    && Rested(LastStart(front, a), h[|h| - 1].now)
  }

  predicate Rested(last: Option<int>, now: int) {
    last.Some? && last.value > 0 ==> now - last.value >= MIN_INTERVAL_MS
  }

  /** The account's requests since its last refresh started. */
  function Count(h: seq<Event>, a: int): nat
    decreases |h|, 1
  {
    if h == [] then 0
    else
      var front, last := h[..|h| - 1], h[|h| - 1];
      if last.Request? && last.account == a then if Starts(h) then 0 else Count(front, a) + 1 else Count(front, a)
  }

  /** A refresh of the account failed since its last one started. */
  predicate Failed(h: seq<Event>, a: int)
    decreases |h|, 1
  {
    && h != []
    && var front, last := h[..|h| - 1], h[|h| - 1];
    if last.account != a then Failed(front, a)
    else if last.Request? then !Starts(h) && Failed(front, a)
    else Failed(front, a) || (!last.success && Seen(front, a))
  }

  predicate InFlight(h: seq<Event>, a: int)
    decreases |h|, 1
  {
    && h != []
    && var front, last := h[..|h| - 1], h[|h| - 1];
    if last.account != a then InFlight(front, a) else last.Request? && (Starts(h) || InFlight(front, a))
  }

  function LastStart(h: seq<Event>, a: int): Option<int>
    decreases |h|, 1
  {
    if h == [] then None
    else
      var front, last := h[..|h| - 1], h[|h| - 1];
      if last.account == a && Starts(h) then Some(last.now) else LastStart(front, a)
  }

  // ---------------------------------------------------------------------------
  // The trackers
  // ---------------------------------------------------------------------------

  /** A tracker that stands for a history. */
  predicate Means(t: Tracker, h: seq<Event>, a: int) {
    && t.pending <= THRESHOLD
    && (if Failed(h, a) then t.pending >= THRESHOLD - 1
        else t.pending == if Count(h, a) < THRESHOLD then Count(h, a) else THRESHOLD)
    && t.lastStartedAt == (var last := LastStart(h, a); if last.Some? then last.value else 0)
    && (t.inFlight <==> InFlight(h, a))
  }

  lemma MeansNext(t: Tracker, h: seq<Event>, a: int, e: Event)
    requires Means(t, h, a)
    ensures e.account != a ==> Means(t, h + [e], a)
    ensures e == Completed(a, true) ==> Means(t.(inFlight := false), h + [e], a)
    ensures e == Completed(a, false) && Seen(h, a) ==>
              Means(t.(inFlight := false, pending := if t.pending < THRESHOLD - 1 then THRESHOLD - 1 else t.pending), h + [e], a)
  {
    var next := h + [e];
    assert next[..|next| - 1] == h;
  }

  lemma MeansRequest(t: Tracker, h: seq<Event>, a: int, now: int)
    requires Means(t, h, a)
    ensures var pending := if t.pending + 1 < THRESHOLD then t.pending + 1 else THRESHOLD;
            var due := pending == THRESHOLD && !t.inFlight && (t.lastStartedAt > 0 ==> now - t.lastStartedAt >= MIN_INTERVAL_MS);
            && (due <==> Starts(h + [Request(a, now)]))
            && Means(if due then Tracker(0, now, true) else t.(pending := pending), h + [Request(a, now)], a)
  {
    var next := h + [Request(a, now)];
    assert next[..|next| - 1] == h;
  }

  lemma SeenNext(h: seq<Event>, a: int, e: Event)
    ensures Seen(h + [e], a) <==> Seen(h, a) || (e.Request? && e.account == a)
  {
    var next := h + [e];
    if Seen(h, a) {
      var i :| 0 <= i < |h| && h[i].Request? && h[i].account == a;
      assert next[i] == h[i];
    }
    if e.Request? && e.account == a {
      assert next[|h|] == e;
    }
  }

  lemma {:induction false} UnseenIsIdle(h: seq<Event>, a: int)
    requires !Seen(h, a)
    ensures Means(IDLE, h, a)
  {
    if h != [] {
      var front, last := h[..|h| - 1], h[|h| - 1];
      assert h == front + [last];
      SeenNext(front, a, last);
      UnseenIsIdle(front, a);
      MeansNext(IDLE, front, a, last);
      if last.account == a {
        assert last == Completed(a, last.success);
      }
    }
  }

  class Trackers {
    var trackers: map<int, Tracker>
    ghost var history: seq<Event>

    /** The tracker of every account stands for its history; accounts without one have none. */
    ghost predicate Valid()
      reads this
    {
      && (forall a | a in trackers :: Means(trackers[a], history, a))
      && (forall a :: Seen(history, a) <==> a in trackers)
    }

    constructor ()
      ensures Valid() && history == []
    {
      trackers, history := map[], [];
    }

    /** mark_usage_refresh_due */
    method MarkDue(account: int, now: int) returns (due: bool)
      requires Valid()
      modifies this
      ensures Valid() && history == old(history) + [Request(account, now)]
      ensures due <==> Starts(history)
    {
      ghost var before := history;
      NextForAll(Request(account, now));
      if account !in trackers {
        UnseenIsIdle(history, account);
      }
      var tracker := if account in trackers then trackers[account] else IDLE;
      MeansRequest(tracker, history, account, now);
      history := before + [Request(account, now)];
      tracker := tracker.(pending := if tracker.pending + 1 < THRESHOLD then tracker.pending + 1 else THRESHOLD);
      trackers := trackers[account := tracker];
      if tracker.pending < THRESHOLD {
        return false;
      }
      if tracker.inFlight {
        return false;
      }
      if tracker.lastStartedAt > 0 && now - tracker.lastStartedAt < MIN_INTERVAL_MS {
        return false;
      }
      trackers := trackers[account := Tracker(0, now, true)];
      due := true;
    }

    /** mark_usage_refresh_complete */
    method MarkComplete(account: int, success: bool)
      requires Valid()
      modifies this
      ensures Valid() && history == old(history) + [Completed(account, success)]
    {
      NextForAll(Completed(account, success));
      history := history + [Completed(account, success)];
      if account !in trackers {
        return;
      }
      var tracker := trackers[account].(inFlight := false);
      if !success && tracker.pending < THRESHOLD - 1 {
        tracker := tracker.(pending := THRESHOLD - 1);
      }
      trackers := trackers[account := tracker];
    }

    /** What one more event means for the trackers it does not touch. */
    lemma NextForAll(e: Event)
      requires Valid()
      ensures forall a :: Seen(history + [e], a) <==> a in trackers || (e.Request? && e.account == a)
      ensures forall a | a in trackers && a != e.account :: Means(trackers[a], history + [e], a)
      ensures e.Completed? && e.account in trackers ==>
                var t := trackers[e.account];
                Means(t.(inFlight := false, pending := if !e.success && t.pending < THRESHOLD - 1 then THRESHOLD - 1 else t.pending),
                      history + [e], e.account)
    {
      forall a
        ensures Seen(history + [e], a) <==> a in trackers || (e.Request? && e.account == a)
      {
        SeenNext(history, a, e);
      }
      forall a | a in trackers
        ensures a != e.account ==> Means(trackers[a], history + [e], a)
      {
        MeansNext(trackers[a], history, a, e);
      }
      if e.Completed? && e.account in trackers {
        MeansNext(trackers[e.account], history, e.account, e);
      }
    }
  }

  // ---------------------------------------------------------------------------
  // What holds of every history
  // ---------------------------------------------------------------------------

  /** The event at `i` starts a refresh of the account. */
  predicate StartsAt(h: seq<Event>, a: int, i: nat)
    requires i < |h|
  {
    h[i].account == a && Starts(h[..i + 1])
  }

  lemma {:induction false} LastStartIsLatest(h: seq<Event>, a: int, i: nat)
    requires i < |h| && StartsAt(h, a, i)
    ensures LastStart(h, a).Some?
    ensures h[i].now > 0 ==> LastStart(h, a).value >= h[i].now
    decreases |h|
  {
    var front, last := h[..|h| - 1], h[|h| - 1];
    if i == |h| - 1 {
      assert h[..i + 1] == h;
    } else {
      assert front[..i + 1] == h[..i + 1];
      LastStartIsLatest(front, a, i);
    }
  }

  /** Refreshes of an account start at least ten seconds apart by the recorded times, whatever the clock does. */
  lemma StartsAreSpaced(h: seq<Event>, a: int, i: nat, j: nat)
    requires i < j < |h| && StartsAt(h, a, i) && StartsAt(h, a, j) && h[i].now > 0
    ensures h[j].now - h[i].now >= 10_000
  {
    var before := h[..j];
    assert h[..j + 1][..j] == before && before[..i + 1] == h[..i + 1];
    LastStartIsLatest(before, a, i);
  }

  function Requests(h: seq<Event>, a: int): nat {
    if h == [] then 0
    else Requests(h[..|h| - 1], a) + if h[|h| - 1].Request? && h[|h| - 1].account == a then 1 else 0
  }

  /** No refresh of the account starts from `i` on. */
  ghost predicate NoStart(h: seq<Event>, a: int, i: nat) {
    forall k | i <= k < |h| :: !StartsAt(h, a, k)
  }

  /** The failed refreshes of the account from `i` on. */
  predicate FailsSince(h: seq<Event>, a: int, i: nat) {
    exists k | i <= k < |h| :: h[k] == Completed(a, false)
  }

  lemma Cut(h: seq<Event>, i: nat)
    requires i < |h|
    ensures h[i..][..|h[i..]| - 1] == h[..|h| - 1][i..] && h[i..][|h[i..]| - 1] == h[|h| - 1]
  {
  }

  lemma {:induction false} CountIsExact(h: seq<Event>, a: int, i: nat)
    requires i <= |h| && NoStart(h, a, i) && (i == 0 || StartsAt(h, a, i - 1))
    ensures Count(h, a) == Requests(h[i..], a)
    ensures Failed(h, a) ==> FailsSince(h, a, i)
    decreases |h|
  {
    if i == |h| {
      assert h[i..] == [];
      if i > 0 {
        assert h[..i - 1 + 1] == h;
      }
    } else {
      var front, last := h[..|h| - 1], h[|h| - 1];
      forall k | i <= k < |front|
        ensures !StartsAt(front, a, k)
      {
        assert front[..k + 1] == h[..k + 1];
        assert !StartsAt(h, a, k);
      }
      assert i > 0 ==> front[..i - 1 + 1] == h[..i - 1 + 1];
      CountIsExact(front, a, i);
      Cut(h, i);
      assert h[..|h| - 1 + 1] == h && !StartsAt(h, a, |h| - 1);
      if FailsSince(front, a, i) {
        var k :| i <= k < |front| && front[k] == Completed(a, false);
        assert h[k] == front[k];
      }
      assert last == h[|h| - 1];
    }
  }

  /**
    Between two starts of an account's refresh, and before the first, at least twelve of
    its requests were counted, the one that starts it among them, or one if a refresh failed.
  */
  lemma StartsAreEarned(h: seq<Event>, a: int, i: nat, j: nat)
    requires i <= j < |h| && StartsAt(h, a, j) && (i == 0 || StartsAt(h, a, i - 1))
    requires forall k | i <= k < j :: !StartsAt(h, a, k)
    ensures Requests(h[i..j + 1], a) >= 12 || (FailsSince(h[..j], a, i) && Requests(h[i..j + 1], a) >= 1)
  {
    var before := h[..j];
    assert h[..j + 1][..j] == before;
    assert i > 0 ==> before[..i - 1 + 1] == h[..i - 1 + 1];
    forall k | i <= k < |before|
      ensures !StartsAt(before, a, k)
    {
      assert before[..k + 1] == h[..k + 1] && !StartsAt(h, a, k);
    }
    CountIsExact(before, a, i);
    assert h[i..j + 1][..j - i] == before[i..];
  }

  /** Since the i-th event: a refresh of the account, of which some request was counted before, has failed. */
  predicate HasFailed(h: seq<Event>, a: int, i: nat) {
    exists k | i <= k < |h| :: h[k] == Completed(a, false) && Seen(h[..k], a)
  }

  /** Since the i-th event: a refresh of the account has ended. */
  predicate HasEnded(h: seq<Event>, a: int, i: nat) {
    exists k | i <= k < |h| :: h[k].Completed? && h[k].account == a
  }

  lemma SinceNext(front: seq<Event>, last: Event, a: int, i: nat)
    requires i <= |front|
    ensures HasFailed(front + [last], a, i) <==> HasFailed(front, a, i) || (last == Completed(a, false) && Seen(front, a))
    ensures HasEnded(front + [last], a, i) <==> HasEnded(front, a, i) || (last.Completed? && last.account == a)
  {
    var h := front + [last];
    assert h[..|front|] == front;
    forall k | i <= k < |front|
      ensures h[k] == front[k] && h[..k] == front[..k]
    {
    }
    assert h[|front|] == last;
  }

  lemma NoStartBefore(h: seq<Event>, a: int, i: nat)
    requires i < |h| && NoStart(h, a, i)
    ensures NoStart(h[..|h| - 1], a, i) && !(h[|h| - 1].account == a && Starts(h))
  {
    var front := h[..|h| - 1];
    forall k | i <= k < |front|
      ensures !StartsAt(front, a, k)
    {
      assert front[..k + 1] == h[..k + 1] && !StartsAt(h, a, k);
    }
    assert h[..|h| - 1 + 1] == h && !StartsAt(h, a, |h| - 1);
  }

  /** What the trackers keep, said of the events since the last start. */
  lemma {:induction false} SinceLastStart(h: seq<Event>, a: int, i: nat)
    requires i <= |h| && NoStart(h, a, i) && (i == 0 || StartsAt(h, a, i - 1))
    ensures Failed(h, a) <==> HasFailed(h, a, i)
    ensures InFlight(h, a) <==> i > 0 && !HasEnded(h, a, i)
    ensures LastStart(h, a) == if i == 0 then None else Some(h[i - 1].now)
    decreases |h|
  {
    if i == |h| {
      if i > 0 {
        assert h[..i - 1 + 1] == h;
      }
    } else {
      var front, last := h[..|h| - 1], h[|h| - 1];
      NoStartBefore(h, a, i);
      assert i > 0 ==> front[..i - 1 + 1] == h[..i - 1 + 1];
      SinceLastStart(front, a, i);
      assert h == front + [last];
      SinceNext(front, last, a, i);
    }
  }

  /**
    When a request starts a refresh, from the events since the last start: with it twelve
    requests were counted or a refresh failed, none is in flight, and the last one started
    ten seconds ago or at no recorded time.
  */
  lemma StartsExactly(h: seq<Event>, a: int, i: nat, now: int)
    requires i <= |h| && NoStart(h, a, i) && (i == 0 || StartsAt(h, a, i - 1))
    ensures Starts(h + [Request(a, now)]) <==>
            && (Requests(h[i..], a) >= 11 || HasFailed(h, a, i))
            && (i == 0 || (HasEnded(h, a, i) && (h[i - 1].now <= 0 || now - h[i - 1].now >= 10_000)))
  {
    var next := h + [Request(a, now)];
    assert next[..|next| - 1] == h;
    CountIsExact(h, a, i);
    SinceLastStart(h, a, i);
  }

  function Begun(h: seq<Event>, a: int): nat {
    if h == [] then 0
    else Begun(h[..|h| - 1], a) + if h[|h| - 1].account == a && Starts(h) then 1 else 0
  }

  function Ended(h: seq<Event>, a: int): nat {
    if h == [] then 0
    else Ended(h[..|h| - 1], a) + if h[|h| - 1].account == a && h[|h| - 1].Completed? then 1 else 0
  }

  /** Only refreshes that started are completed, each once. */
  ghost predicate EndsWhatBegan(h: seq<Event>, a: int) {
    forall n | 0 <= n <= |h| :: Ended(h[..n], a) <= Begun(h[..n], a)
  }

  /** At most one refresh of an account runs at any time. */
  lemma {:induction false} OneRefreshAtATime(h: seq<Event>, a: int)
    requires EndsWhatBegan(h, a)
    ensures Begun(h, a) == Ended(h, a) + if InFlight(h, a) then 1 else 0
  {
    if h != [] {
      var front := h[..|h| - 1];
      forall n | 0 <= n <= |front|
        ensures Ended(front[..n], a) <= Begun(front[..n], a)
      {
        assert front[..n] == h[..n];
      }
      OneRefreshAtATime(front, a);
      assert h[..|h|] == h;
    }
  }
}
