/**
  The lag totals and the alert of refresh_cluster_peers in native/bridge/src/bridge.cpp:
  a few fields, updated at every refresh, that stand for the history of refreshes.
*/
module LagAlert {
  import opened Options

  const MAX_U64: nat := 0xFFFF_FFFF_FFFF_FFFF

  /** One refresh: the lag of each peer, the policy read at that time, and the clock. */
  datatype Refresh = Refresh(lags: seq<nat>, threshold: nat, sustained: nat, now: nat)

  /** Values of 64 bits, as the source holds them; the policy is read as positive. */
  predicate IsRefresh(r: Refresh) {
    && (forall i | 0 <= i < |r.lags| :: r.lags[i] <= MAX_U64)
    && 1 <= r.threshold <= MAX_U64 && 1 <= r.sustained <= MAX_U64
  }

  predicate IsHistory(h: seq<Refresh>) {
    forall i | 0 <= i < |h| :: IsRefresh(h[i])
  }

  // ---------------------------------------------------------------------------
  // Totals
  // ---------------------------------------------------------------------------

  function Sum(s: seq<nat>): nat {
    if s == [] then 0 else Sum(s[..|s| - 1]) + s[|s| - 1]
  }

  function Min(a: int, b: int): int {
    if a < b then a else b
  }

  predicate IsMax(s: seq<nat>, m: nat) {
    && (forall i | 0 <= i < |s| :: s[i] <= m)
    && (if s == [] then m == 0 else m in s)
  }

  predicate Lags(r: Refresh) {
    exists i | 0 <= i < |r.lags| :: r.lags[i] >= r.threshold
  }

  function Largest(s: seq<nat>): (m: nat)
    ensures IsMax(s, m)
  {
    if s == [] then 0
    else
      var m, x := Largest(s[..|s| - 1]), s[|s| - 1];
      if x > m || |s| == 1 then x else m
  }

  function Lagging(s: seq<nat>, threshold: nat): (n: nat)
    ensures n <= |s|
    ensures n > 0 <==> exists i | 0 <= i < |s| :: s[i] >= threshold
  {
    if s == [] then 0 else Lagging(s[..|s| - 1], threshold) + if s[|s| - 1] >= threshold then 1 else 0
  }

  function Quotient(a: nat, n: nat): nat
    requires n > 0
  {
    a / n
  }

  function Mean(lags: seq<nat>): nat {
    if lags == [] then 0 else Quotient(Min(Sum(lags), MAX_U64), |lags|)
  }

  lemma OneMore(lags: seq<nat>, i: nat, threshold: nat)
    requires i < |lags|
    ensures Sum(lags[..i + 1]) == Sum(lags[..i]) + lags[i]
    ensures Largest(lags[..i + 1]) == if lags[i] > Largest(lags[..i]) then lags[i] else Largest(lags[..i])
    ensures Lagging(lags[..i + 1], threshold) == Lagging(lags[..i], threshold) + if lags[i] >= threshold then 1 else 0
  {
    assert lags[..i + 1][..i] == lags[..i];
  }

  /** The total stops at the largest 64-bit value instead of wrapping around. */
  method Totals(lags: seq<nat>, threshold: nat) returns (total: nat, largest: nat, lagging: nat, average: nat)
    requires forall i | 0 <= i < |lags| :: lags[i] <= MAX_U64
    ensures total == Min(Sum(lags), MAX_U64)
    ensures largest == Largest(lags) && lagging == Lagging(lags, threshold)
    ensures IsMax(lags, largest)
    ensures lagging == |set i | 0 <= i < |lags| && lags[i] >= threshold|
    ensures average == Mean(lags)
    ensures if lags == [] then average == 0 else average * |lags| <= total < (average + 1) * |lags|
    ensures average <= largest <= total
  {
    total, largest, lagging := Accumulated(lags, threshold);
    average := if lags == [] then 0 else Quotient(total, |lags|);
    MeanBounded(lags);
    LaggingCounts(lags, threshold);
    if lags != [] {
      QuotientSays(total, |lags|);
    }
  }

  /** The total of two groups of peers is that of both together, and of one peer its lag. */
  lemma {:induction false} SumSays(a: seq<nat>, b: seq<nat>, x: nat)
    ensures Sum([]) == 0 && Sum([x]) == x
    ensures Sum(a + b) == Sum(a) + Sum(b)
    decreases |b|
  {
    assert [x][..0] == [];
    if b == [] {
      assert a + b == a;
    } else {
      var n := |b| - 1;
      assert (a + b)[..|a| + n] == a + b[..n];
      SumSays(a, b[..n], x);
    }
  }

  lemma QuotientSays(a: nat, n: nat)
    requires n > 0
    ensures Quotient(a, n) * n <= a < (Quotient(a, n) + 1) * n
  {
    assert a == a / n * n + a % n;
  }

  lemma {:induction false} LaggingCounts(s: seq<nat>, threshold: nat)
    ensures Lagging(s, threshold) == |set i | 0 <= i < |s| && s[i] >= threshold|
  {
    var here := set i | 0 <= i < |s| && s[i] >= threshold;
    if s == [] {
      assert here == {};
    } else {
      var n := |s| - 1;
      var front := s[..n];
      LaggingCounts(front, threshold);
      var before := set i | 0 <= i < |front| && front[i] >= threshold;
      assert here == if s[n] >= threshold then before + {n} else before;
    }
  }

  /** The loop of `Totals`. */
  method Accumulated(lags: seq<nat>, threshold: nat) returns (total: nat, largest: nat, lagging: nat)
    requires forall i | 0 <= i < |lags| :: lags[i] <= MAX_U64
    ensures total == Min(Sum(lags), MAX_U64)
    ensures largest == Largest(lags) && lagging == Lagging(lags, threshold)
  {
    total, largest, lagging := 0, 0, 0;
    for i := 0 to |lags|
      invariant total == Min(Sum(lags[..i]), MAX_U64)
      invariant largest == Largest(lags[..i]) && lagging == Lagging(lags[..i], threshold)
    {
      OneMore(lags, i, threshold);
      total := if total > MAX_U64 - lags[i] then MAX_U64 else total + lags[i];
      if lags[i] > largest {
        largest := lags[i];
      }
      if lags[i] >= threshold {
        lagging := lagging + 1;
      }
    }
    assert lags[..|lags|] == lags;
  }

  lemma {:induction false} SumBounds(s: seq<nat>, m: nat)
    requires forall i | 0 <= i < |s| :: s[i] <= m
    ensures Sum(s) <= m * |s|
    ensures forall i | 0 <= i < |s| :: s[i] <= Sum(s)
  {
    if s != [] {
      SumBounds(s[..|s| - 1], m);
    }
  }

  lemma Cancel(a: nat, b: nat, n: nat)
    requires n > 0 && a * n <= b * n
    ensures a <= b
  {
  }

  lemma DivideBelow(a: nat, m: nat, n: nat)
    requires n > 0 && a <= m * n
    ensures a / n <= m
  {
    assert (a / n) * n <= a;
    Cancel(a / n, m, n);
  }

  /** Average, largest and total of a refresh, in this order, also when the total has saturated. */
  lemma MeanBounded(lags: seq<nat>)
    requires forall i | 0 <= i < |lags| :: lags[i] <= MAX_U64
    ensures Mean(lags) <= Largest(lags) <= Min(Sum(lags), MAX_U64)
  {
    var m := Largest(lags);
    SumBounds(lags, m);
    if lags != [] {
      DivideBelow(Min(Sum(lags), MAX_U64), m, |lags|);
    }
  }

  // ---------------------------------------------------------------------------
  // The alert
  // ---------------------------------------------------------------------------

  /** The fields of the cluster state; `ewma` without rounding. */
  datatype State = State(ewma: real, samples: nat, streak: nat, active: bool, lastAlertAt: Option<nat>)

  const START := State(0.0, 0, 0, false, None)

  function Blend(sample: real, held: real): real {
    0.2 * sample + 0.8 * held
  }

  class Cluster {
    var ewma: real
    var samples: nat
    var streak: nat
    var active: bool
    var lastAlertAt: Option<nat>
    ghost var history: seq<Refresh>

    function View(): State
      reads this
    {
      State(ewma, samples, streak, active, lastAlertAt)
    }

    constructor ()
      ensures View() == START && history == []
    {
      ewma, samples, streak, active, lastAlertAt := 0.0, 0, 0, false, None;
      history := [];
    }

    ghost predicate Valid()
      reads this
    {
      IsHistory(history) && View() == Meaning(history)
    }

    /** One refresh; a signal goes out exactly when the alert turns on or off with peers there. */
    method RefreshPeers(r: Refresh) returns (total: nat, largest: nat, lagging: nat, average: nat, signal: bool)
      requires IsRefresh(r) && Valid()
      modifies this
      ensures history == old(history) + [r] && Valid()
      ensures total == Min(Sum(r.lags), MAX_U64) && average <= largest <= total && IsMax(r.lags, largest)
      ensures lagging == |set i | 0 <= i < |r.lags| && r.lags[i] >= r.threshold|
      ensures if r.lags == [] then average == 0 else average * |r.lags| <= total < (average + 1) * |r.lags|
      ensures signal <==> r.lags != [] && active != old(active)
    {
      NextMeaning(history, r);
      history := history + [r];
      total, largest, lagging, average := Totals(r.lags, r.threshold);
      signal := Update(r, largest, lagging);
    }

    method Update(r: Refresh, largest: nat, lagging: nat) returns (signal: bool)
      requires largest == Largest(r.lags) && lagging == Lagging(r.lags, r.threshold)
      requires samples <= MAX_U64 && streak <= MAX_U64
      modifies this`ewma, this`samples, this`streak, this`active, this`lastAlertAt
      ensures View() == Advanced(old(View()), r)
      ensures signal <==> r.lags != [] && active != old(active)
    {
      signal := false;
      if r.lags == [] {
        ewma, samples, streak, active := 0.0, 0, 0, false;
      } else {
        ewma := if samples > 0 then Blend(largest as real, ewma) else largest as real;
        if samples < MAX_U64 {
          samples := samples + 1;
        }
        if lagging > 0 {
          if streak < MAX_U64 {
            streak := streak + 1;
          }
        } else {
          streak := 0;
        }
        var nextActive := streak >= r.sustained;
        if !active && nextActive {
          lastAlertAt := Some(r.now);
        }
        signal := active != nextActive;
        active := nextActive;
      }
    }
  }

  // ---------------------------------------------------------------------------
  // What the fields mean
  // ---------------------------------------------------------------------------

  /** How many of the last refreshes, without a gap, had a lagging peer. */
  function LaggingRun(h: seq<Refresh>): (n: nat)
    ensures n <= |h|
  {
    if h == [] || !Lags(h[|h| - 1]) then 0 else LaggingRun(h[..|h| - 1]) + 1
  }

  /** How many of the last refreshes, without a gap, had any peer. */
  function PeeredRun(h: seq<Refresh>): (n: nat)
    ensures n <= |h|
  {
    if h == [] || h[|h| - 1].lags == [] then 0 else PeeredRun(h[..|h| - 1]) + 1
  }

  function Average(h: seq<Refresh>): real {
    if h == [] || h[|h| - 1].lags == [] then 0.0
    else
      var front, largest := h[..|h| - 1], Largest(h[|h| - 1].lags) as real;
      if PeeredRun(front) > 0 then Blend(largest, Average(front)) else largest
  }

  /** The last `n` refreshes had a lagging peer, each. */
  ghost predicate AllLagging(h: seq<Refresh>, n: nat) {
    n <= |h| && forall i | |h| - n <= i < |h| :: Lags(h[i])
  }

  /** Each of the last refreshes, as many as the policy of the last one asks for, had a lagging peer. */
  ghost predicate Alarming(h: seq<Refresh>) {
    h != [] && AllLagging(h, h[|h| - 1].sustained)
  }

  /** The time of the last refresh at which the alert came up. */
  ghost function LastRise(h: seq<Refresh>): Option<nat> {
    if h == [] then None
    else
      var front := h[..|h| - 1];
      if Alarming(h) && !Alarming(front) then Some(h[|h| - 1].now) else LastRise(front)
  }

  ghost function Meaning(h: seq<Refresh>): State {
    State(Average(h), Min(PeeredRun(h), MAX_U64), Min(LaggingRun(h), MAX_U64), Alarming(h), LastRise(h))
  }

  lemma {:induction false} RunIsExact(h: seq<Refresh>, n: nat)
    ensures AllLagging(h, n) <==> LaggingRun(h) >= n
  {
    if h != [] && n > 0 {
      var front, last := h[..|h| - 1], h[|h| - 1];
      RunIsExact(front, n - 1);
      assert h == front + [last];
      AllLaggingNext(front, last, n - 1);
    }
  }

  lemma AllLaggingNext(h: seq<Refresh>, r: Refresh, n: nat)
    ensures AllLagging(h + [r], n + 1) <==> AllLagging(h, n) && Lags(r)
  {
    var more := h + [r];
    assert more[|h|] == r;
    if AllLagging(more, n + 1) {
      forall i | |h| - n <= i < |h|
        ensures Lags(h[i])
      {
        assert more[i] == h[i];
      }
    }
  }

  /** The saturating streak decides the alert exactly as the history does. */
  lemma StreakDecides(h: seq<Refresh>)
    requires h != [] && IsHistory(h)
    ensures Alarming(h) <==> Min(LaggingRun(h), MAX_U64) >= h[|h| - 1].sustained
  {
    RunIsExact(h, h[|h| - 1].sustained);
    assert IsRefresh(h[|h| - 1]);
  }

  /** The fields after a refresh. */
  function Advanced(s: State, r: Refresh): State {
    if r.lags == [] then State(0.0, 0, 0, false, s.lastAlertAt)
    else
      var largest, streak := Largest(r.lags) as real, if Lags(r) then Min(s.streak + 1, MAX_U64) else 0;
      State(if s.samples > 0 then Blend(largest, s.ewma) else largest, Min(s.samples + 1, MAX_U64), streak,
            streak >= r.sustained, if streak >= r.sustained && !s.active then Some(r.now) else s.lastAlertAt)
  }

  /** The fields after one more refresh are the meaning of the longer history. */
  lemma NextMeaning(h: seq<Refresh>, r: Refresh)
    requires IsHistory(h) && IsRefresh(r)
    ensures IsHistory(h + [r]) && Meaning(h + [r]) == Advanced(Meaning(h), r)
  {
    var next := h + [r];
    assert next[..|next| - 1] == h;
    StreakDecides(next);
  }

  /** A cluster state reached by any refreshes has an active alert exactly when the last refreshes were all lagging. */
  lemma AlertMeansSustainedLag(h: seq<Refresh>)
    requires IsHistory(h)
    ensures Meaning(h).active <==>
            h != [] && LaggingRun(h) >= h[|h| - 1].sustained
  {
    if h != [] {
      StreakDecides(h);
      assert IsRefresh(h[|h| - 1]);
    }
  }

  function Power(base: real, n: nat): real {
    if n == 0 then 1.0 else base * Power(base, n - 1)
  }

  /** The weight of the i-th of n maxima: a fifth, or all of the first, faded by a fifth for each one since. */
  function Weight(i: nat, n: nat): real
    requires i < n
  {
    (if i == 0 then 1.0 else 0.2) * Power(0.8, n - 1 - i)
  }

  /** What it makes of its maximum. */
  function Term(i: nat, n: nat, x: nat): real
    requires i < n
  {
    Weight(i, n) * x as real
  }

  function Weighted(maxima: seq<nat>, n: nat): real
    requires |maxima| <= n
  {
    if maxima == [] then 0.0
    else Weighted(maxima[..|maxima| - 1], n) + Term(|maxima| - 1, n, maxima[|maxima| - 1])
  }

  /** The maxima of the refreshes since peers were last missing. */
  function Maxima(h: seq<Refresh>): (m: seq<nat>)
    ensures |m| == PeeredRun(h)
  {
    if h == [] || h[|h| - 1].lags == [] then [] else Maxima(h[..|h| - 1]) + [Largest(h[|h| - 1].lags)]
  }

  lemma {:induction false} Faded(maxima: seq<nat>, n: nat)
    requires |maxima| <= n
    ensures Weighted(maxima, n + 1) == 0.8 * Weighted(maxima, n)
  {
    if maxima != [] {
      var i := |maxima| - 1;
      Faded(maxima[..i], n);
      assert Power(0.8, n - i) == 0.8 * Power(0.8, n - 1 - i);
      assert Weight(i, n + 1) == 0.8 * Weight(i, n);
      Distribute(Weight(i, n), maxima[i] as real, Weighted(maxima[..i], n));
    }
  }

  lemma Distribute(w: real, x: real, rest: real)
    ensures 0.8 * rest + (0.8 * w) * x == 0.8 * (rest + w * x)
  {
  }

  /** What the newest maximum adds. */
  function Share(m: seq<nat>, x: nat): real {
    if m == [] then x as real else 0.2 * x as real
  }

  lemma Product(w: real, x: real)
    ensures w == 1.0 ==> w * x == x
    ensures w == 0.2 ==> w * x == 0.2 * x
  {
  }

  lemma NewestShare(m: seq<nat>, x: nat)
    ensures Term(|m|, |m| + 1, x) == Share(m, x)
  {
    NewestWeight(|m|);
    Product(Weight(|m|, |m| + 1), x as real);
  }

  lemma NewestCounts(m: seq<nat>, x: nat)
    ensures Weighted(m + [x], |m| + 1) == Weighted(m, |m| + 1) + Share(m, x)
  {
    NewestShare(m, x);
    WeightedUnfolds(m, x, |m| + 1);
  }

  lemma WeightedNext(m: seq<nat>, x: nat)
    ensures Weighted(m + [x], |m| + 1) == 0.8 * Weighted(m, |m|) + Share(m, x)
  {
    NewestCounts(m, x);
    Faded(m, |m|);
  }

  lemma WeightedUnfolds(m: seq<nat>, x: nat, n: nat)
    requires |m| < n
    ensures Weighted(m + [x], n) == Weighted(m, n) + Term(|m|, n, x)
  {
    var more := m + [x];
    assert more[..|more| - 1] == m && more[|more| - 1] == x;
    LastWeighs(more, n);
  }

  lemma LastWeighs(m: seq<nat>, n: nat)
    requires m != [] && |m| <= n
    ensures Weighted(m, n) == Weighted(m[..|m| - 1], n) + Term(|m| - 1, n, m[|m| - 1])
  {
  }

  lemma NewestWeight(n: nat)
    ensures Weight(n, n + 1) == if n == 0 then 1.0 else 0.2
  {
    assert Power(0.8, 0) == 1.0;
  }

  /** The moving average is the weighted sum of the maxima since peers were last missing. */
  lemma {:induction false} AverageIsWeighted(h: seq<Refresh>)
    ensures Average(h) == Weighted(Maxima(h), |Maxima(h)|)
  {
    if h != [] && h[|h| - 1].lags != [] {
      var front, x := h[..|h| - 1], Largest(h[|h| - 1].lags);
      AverageIsWeighted(front);
      WeightedNext(Maxima(front), x);
    }
  }

  lemma EwmaIsWeighted(h: seq<Refresh>)
    ensures Meaning(h).ewma == Weighted(Maxima(h), |Maxima(h)|)
  {
    AverageIsWeighted(h);
  }

  /** The alert comes up with the i-th refresh. */
  ghost predicate Rises(h: seq<Refresh>, i: nat)
    requires i < |h|
  {
    Alarming(h[..i + 1]) && !Alarming(h[..i])
  }

  lemma RisesInFront(h: seq<Refresh>, n: nat, i: nat)
    requires i < n <= |h|
    ensures Rises(h[..n], i) <==> Rises(h, i)
  {
    assert h[..n][..i + 1] == h[..i + 1] && h[..n][..i] == h[..i];
  }

  lemma {:induction false} NoRise(h: seq<Refresh>)
    requires forall i | 0 <= i < |h| :: !Rises(h, i)
    ensures LastRise(h).None?
  {
    if h != [] {
      var n := |h| - 1;
      forall i | 0 <= i < n
        ensures !Rises(h[..n], i)
      {
        RisesInFront(h, n, i);
      }
      NoRise(h[..n]);
      assert h[..n + 1] == h && !Rises(h, n);
    }
  }

  /** The time kept is that of the last refresh at which the alert came up. */
  lemma {:induction false} LastRiseIsKept(h: seq<Refresh>, i: nat)
    requires i < |h| && Rises(h, i) && forall j | i < j < |h| :: !Rises(h, j)
    ensures Meaning(h).lastAlertAt == Some(h[i].now)
    decreases |h|
  {
    var n := |h| - 1;
    assert h[..n + 1] == h;
    if i < n {
      forall j | i < j < n
        ensures !Rises(h[..n], j)
      {
        RisesInFront(h, n, j);
      }
      RisesInFront(h, n, i);
      LastRiseIsKept(h[..n], i);
      assert !Rises(h, n);
    }
  }

  /** There is one exactly if the alert ever came up. */
  lemma RiseIsKept(h: seq<Refresh>)
    ensures Meaning(h).lastAlertAt.Some? <==> exists i :: 0 <= i < |h| && Rises(h, i)
  {
    if forall i | 0 <= i < |h| :: !Rises(h, i) {
      NoRise(h);
    } else {
      var i := LatestRise(h, |h|);
      LastRiseIsKept(h, i);
    }
  }

  lemma {:induction false} LatestRise(h: seq<Refresh>, n: nat) returns (i: nat)
    requires n <= |h| && exists j :: 0 <= j < n && Rises(h, j)
    requires forall j | n <= j < |h| :: !Rises(h, j)
    ensures i < n && Rises(h, i) && forall j | i < j < |h| :: !Rises(h, j)
  {
    if Rises(h, n - 1) {
      i := n - 1;
    } else {
      i := LatestRise(h, n - 1);
    }
  }

  /** The moving average lies between the smallest and the largest maximum since peers were last missing. */
  lemma {:induction false} AverageStaysBetween(h: seq<Refresh>, low: real, high: real)
    requires PeeredRun(h) > 0
    requires forall i | |h| - PeeredRun(h) <= i < |h| :: low <= Largest(h[i].lags) as real <= high
    ensures low <= Meaning(h).ewma <= high
  {
    var front := h[..|h| - 1];
    assert low <= Largest(h[|h| - 1].lags) as real <= high;
    if PeeredRun(front) > 0 {
      assert forall i | |front| - PeeredRun(front) <= i < |front| :: front[i] == h[i];
      AverageStaysBetween(front, low, high);
    }
  }
}
