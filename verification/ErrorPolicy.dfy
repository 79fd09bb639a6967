/**
  native/proxy/src/proxy_error_policy.cpp: what an upstream result says went wrong,
  whether the account is exhausted, and how often a plan is executed. Searches for
  wordings in raw text are answers of the result (`quotaWords`, `rateWords`,
  `deactivatedWords`); a body or event that is not an object stands for one that is
  empty or does not parse.
*/
module ErrorPolicy {
  import opened Options
  import opened Json

  datatype Upstream = Upstream(
    status: int, errorCode: string, body: Json, events: seq<Json>,
    quotaWords: bool, rateWords: bool, deactivatedWords: bool)

  // ---------------------------------------------------------------------------
  // Codes
  // ---------------------------------------------------------------------------

  function LowerChar(c: char): (r: char)
    ensures if 'A' <= c <= 'Z' then r as int == c as int + 32 else r == c
  {
    if 'A' <= c <= 'Z' then c - 'A' + 'a' else c
  }

  function Lower(s: string): (r: string)
    ensures |r| == |s| && forall i | 0 <= i < |s| :: r[i] == LowerChar(s[i])
  {
    seq(|s|, i requires 0 <= i < |s| => LowerChar(s[i]))
  }

  function Alias(code: string): string {
    if code == "upstream_transport_failed" || code == "upstream_transport_init_failed" then "upstream_unavailable"
    else if code == "upstream_transport_timeout" then "upstream_request_timeout"
    else code
  }

  function NormalizeCode(code: string, errorType: string): string {
    if code != "" then Alias(Lower(code))
    else if errorType != "" then Alias(Lower(errorType))
    else "upstream_error"
  }

  /** A code that normalizing leaves as it is. */
  predicate IsNormal(code: string) {
    code != "" && Lower(code) == code && Alias(code) == code
  }

  lemma NormalizedIsNormal(code: string, errorType: string)
    ensures IsNormal(NormalizeCode(code, errorType))
  {
    var from := if code != "" then code else errorType;
    assert Lower(Lower(from)) == Lower(from);
    assert Lower("upstream_unavailable") == "upstream_unavailable";
    assert Lower("upstream_request_timeout") == "upstream_request_timeout";
    assert Lower("upstream_error") == "upstream_error";
  }

  // ---------------------------------------------------------------------------
  // Details
  // ---------------------------------------------------------------------------

  datatype Details = Details(code: string, message: string, kind: string, param: string)

  const NO_DETAILS := Details("", "", "", "")

  function Text(o: Fields, key: string): string {
    var s := StringField(o, key);
    if s.Some? then s.value else ""
  }

  function DetailsOfError(e: Fields): Details {
    var kind := Text(e, "type");
    var code := if StringField(e, "code").Some? then NormalizeCode(Text(e, "code"), "")
                else if StringField(e, "type").Some? then NormalizeCode("", kind)
                else "";
    Details(code, Text(e, "message"), kind, Text(e, "param"))
  }

  /** The error object of a payload: its own, else that of its response. */
  function DetailsOf(payload: Json): Option<Details> {
    if !payload.Obj? then None
    else
      var own, response := ObjectField(payload.fields, "error"), ObjectField(payload.fields, "response");
      var nested := if response.Some? then ObjectField(response.value, "error") else None;
      var e := OrElse(own, nested);
      if e.None? then None else Some(DetailsOfError(e.value))
  }

  function Or(a: string, b: string): string {
    if a != "" then a else b
  }

  function Merge(base: Details, overlay: Details): Details {
    Details(Or(base.code, overlay.code), Or(base.message, overlay.message),
            Or(base.kind, overlay.kind), Or(base.param, overlay.param))
  }

  function MergePayload(base: Details, payload: Json): Details {
    var d := DetailsOf(payload);
    if d.None? then base else Merge(base, d.value)
  }

  predicate Enough(d: Details) {
    d.code != "" && d.message != "" && d.kind != ""
  }

  function Closed(d: Details): Details {
    var code := Or(d.code, "upstream_error");
    Details(code, d.message, Or(d.kind, if code == "upstream_request_timeout" then "timeout_error" else "server_error"), d.param)
  }

  /** What the result itself and its body say. */
  function Opening(u: Upstream): Details {
    MergePayload(Details(if u.errorCode != "" then NormalizeCode(u.errorCode, "") else "", "", "", ""), u.body)
  }

  /** The details of a result if every event were read. */
  function AllMerged(base: Details, events: seq<Json>): Details {
    if events == [] then base else MergePayload(AllMerged(base, events[..|events| - 1]), events[|events| - 1])
  }

  /** Reading stops behind the first event after which code, message and kind are known. */
  function Merged(base: Details, events: seq<Json>): Details
    decreases |events|
  {
    if events == [] then base
    else
      var d := MergePayload(base, events[0]);
      if Enough(d) then d else Merged(d, events[1..])
  }

  function DetailsOfResult(u: Upstream): Details {
    Closed(Merged(Opening(u), u.events))
  }

  function ResolvedCode(u: Upstream): string {
    DetailsOfResult(u).code
  }

  lemma MergedAt(d: Details, events: seq<Json>, i: nat)
    requires i < |events|
    ensures var next := MergePayload(d, events[i]);
            Merged(d, events[i..]) == if Enough(next) then next else Merged(next, events[i + 1..])
  {
    assert events[i..][0] == events[i] && events[i..][1..] == events[i + 1..];
  }

  method ExtractUpstreamErrorDetails(u: Upstream) returns (d: Details)
    ensures d == DetailsOfResult(u)
  {
    d := NO_DETAILS;
    if u.errorCode != "" {
      d := d.(code := NormalizeCode(u.errorCode, ""));
    }
    var ofBody := DetailsOf(u.body);
    if ofBody.Some? {
      d := Merge(d, ofBody.value);
    }
    var i := 0;
    while i < |u.events|
      invariant 0 <= i <= |u.events|
      invariant Merged(Opening(u), u.events) == Merged(d, u.events[i..])
    {
      MergedAt(d, u.events, i);
      var ofEvent := DetailsOf(u.events[i]);
      if ofEvent.Some? {
        d := Merge(d, ofEvent.value);
      }
      i := i + 1;
      if d.code != "" && d.message != "" && d.kind != "" {
        break;
      }
    }
    if d.code == "" {
      d := d.(code := "upstream_error");
    }
    if d.kind == "" {
      d := d.(kind := if d.code == "upstream_request_timeout" then "timeout_error" else "server_error");
    }
  }

  /** How many events are read. */
  function EventsRead(base: Details, events: seq<Json>): (n: nat)
    ensures n <= |events|
    decreases |events|
  {
    if events == [] then 0
    else if Enough(MergePayload(base, events[0])) then 1
    else 1 + EventsRead(MergePayload(base, events[0]), events[1..])
  }

  lemma {:induction false} AllMergedFrom(base: Details, events: seq<Json>)
    requires events != []
    ensures AllMerged(base, events) == AllMerged(MergePayload(base, events[0]), events[1..])
  {
    if |events| > 1 {
      var front := events[..|events| - 1];
      AllMergedFrom(base, front);
      assert events[1..][..|events| - 2] == front[1..];
    } else {
      assert events[..0] == [];
    }
  }

  lemma {:induction false} MergedReads(base: Details, events: seq<Json>)
    ensures Merged(base, events) == AllMerged(base, events[..EventsRead(base, events)])
    decreases |events|
  {
    if events != [] {
      var n, d := EventsRead(base, events), MergePayload(base, events[0]);
      AllMergedFrom(base, events[..n]);
      if !Enough(d) {
        MergedReads(d, events[1..]);
        assert events[..n][1..] == events[1..][..n - 1];
      } else {
        assert events[..n][1..] == [];
      }
    }
  }

  lemma {:induction false} MoreChangesNothing(base: Details, events: seq<Json>)
    requires Enough(base)
    ensures AllMerged(base, events).(param := base.param) == base
    ensures base.param != "" ==> AllMerged(base, events) == base
  {
    if events != [] {
      MoreChangesNothing(base, events[..|events| - 1]);
    }
  }

  predicate NamesParam(payload: Json) {
    DetailsOf(payload).Some? && DetailsOf(payload).value.param != ""
  }

  lemma {:induction false} ParamOfAll(base: Details, events: seq<Json>)
    ensures AllMerged(base, events).param != "" <==>
            base.param != "" || exists i | 0 <= i < |events| :: NamesParam(events[i])
  {
    if events != [] {
      var front, last := events[..|events| - 1], events[|events| - 1];
      ParamOfAll(base, front);
      assert events == front + [last];
      assert forall i | 0 <= i < |front| :: events[i] == front[i];
    }
  }

  /** The param is among the events read, or nowhere behind them. */
  predicate KeepsParam(base: Details, events: seq<Json>) {
    var n := EventsRead(base, events);
    || base.param != "" || (exists i | 0 <= i < n :: NamesParam(events[i]))
    || forall i | n <= i < |events| :: !NamesParam(events[i])
  }

  lemma KeepsParamFrom(base: Details, events: seq<Json>)
    requires events != [] && !Enough(MergePayload(base, events[0]))
    ensures KeepsParam(base, events) <==> KeepsParam(MergePayload(base, events[0]), events[1..])
  {
    var d, n := MergePayload(base, events[0]), EventsRead(base, events);
    assert d.param != "" <==> base.param != "" || NamesParam(events[0]);
    assert forall i | 1 <= i < |events| :: events[i] == events[1..][i - 1];
    assert forall i | 0 <= i < |events| - 1 :: events[1..][i] == events[i + 1];
  }

  lemma KeepsParamAtStop(base: Details, events: seq<Json>)
    requires events != [] && Enough(MergePayload(base, events[0]))
    ensures KeepsParam(base, events) <==>
            || MergePayload(base, events[0]).param != ""
            || forall i | 0 <= i < |events[1..]| :: !NamesParam(events[1..][i])
  {
    assert forall i | 1 <= i < |events| :: events[i] == events[1..][i - 1];
    assert forall i | 0 <= i < |events| - 1 :: events[1..][i] == events[i + 1];
  }

  /**
    Stopping early never costs a code, a message or a kind. It costs the `param` exactly
    if neither the result nor an event that is read names one, and a later event does.
  */
  lemma {:induction false} EarlyStopMissesOnlyParam(base: Details, events: seq<Json>)
    ensures var part, whole := Merged(base, events), AllMerged(base, events);
            && part.code == whole.code && part.message == whole.message && part.kind == whole.kind
            && (part.param == whole.param <==> KeepsParam(base, events))
    decreases |events|
  {
    if events != [] {
      var d, rest := MergePayload(base, events[0]), events[1..];
      AllMergedFrom(base, events);
      if Enough(d) {
        MoreChangesNothing(d, rest);
        ParamOfAll(d, rest);
        KeepsParamAtStop(base, events);
      } else {
        EarlyStopMissesOnlyParam(d, rest);
        KeepsParamFrom(base, events);
      }
    }
  }

  /** ... which does happen: the first event says all but the param, the second names it. */
  lemma AParamIsLost() returns (u: Upstream)
    ensures DetailsOfResult(u).param == "" && Closed(AllMerged(Opening(u), u.events)).param == "model"
  {
    var first := map["code" := Str("c"), "message" := Str("m"), "type" := Str("t")];
    var second := map["param" := Str("model")];
    var events := [Obj(map["error" := Obj(first)]), Obj(map["error" := Obj(second)])];
    u := Upstream(400, "", Null, events, false, false, false);
    var d := MergePayload(NO_DETAILS, events[0]);
    assert DetailsOf(events[0]) == Some(Details("c", "m", "t", "")) by {
      assert Lower("c") == "c";
    }
    assert Opening(u) == NO_DETAILS && Enough(d);
    AllMergedFrom(NO_DETAILS, events);
    AllMergedFrom(d, events[1..]);
    assert events[1..][1..] == [];
  }

  predicate CodeIsNormal(d: Details) {
    d.code == "" || IsNormal(d.code)
  }

  lemma MergeKeepsNormal(base: Details, payload: Json)
    requires CodeIsNormal(base)
    ensures CodeIsNormal(MergePayload(base, payload))
  {
    var d := DetailsOf(payload);
    if d.Some? {
      var own, response := ObjectField(payload.fields, "error"), ObjectField(payload.fields, "response");
      var e := OrElse(own, if response.Some? then ObjectField(response.value, "error") else None).value;
      NormalizedIsNormal(Text(e, "code"), "");
      NormalizedIsNormal("", Text(e, "type"));
    }
  }

  lemma {:induction false} MergedIsNormal(base: Details, events: seq<Json>)
    requires CodeIsNormal(base)
    ensures CodeIsNormal(Merged(base, events))
    decreases |events|
  {
    if events != [] {
      MergeKeepsNormal(base, events[0]);
      MergedIsNormal(MergePayload(base, events[0]), events[1..]);
    }
  }

  /** The code of any result is in normal form: reading it again, or normalizing it, gives it back. */
  lemma ResolvedCodeIsNormal(u: Upstream)
    ensures IsNormal(ResolvedCode(u))
    ensures NormalizeCode(ResolvedCode(u), "") == ResolvedCode(u)
    ensures ResolvedCode(u.(errorCode := ResolvedCode(u))) == ResolvedCode(u)
  {
    NormalizedIsNormal(u.errorCode, "");
    MergeKeepsNormal(Details(if u.errorCode != "" then NormalizeCode(u.errorCode, "") else "", "", "", ""), u.body);
    MergedIsNormal(Opening(u), u.events);
    assert Lower("upstream_error") == "upstream_error";
    var again := u.(errorCode := ResolvedCode(u));
    CodeStays(Opening(again), again.events);
  }

  lemma {:induction false} CodeStays(base: Details, events: seq<Json>)
    requires base.code != ""
    ensures Merged(base, events).code == base.code
    decreases |events|
  {
    if events != [] {
      CodeStays(MergePayload(base, events[0]), events[1..]);
    }
  }

  // ---------------------------------------------------------------------------
  // Exhausted accounts and retries
  // ---------------------------------------------------------------------------

  function ExhaustedStatus(u: Upstream): Option<string> {
    var d := DetailsOfResult(u);
    var code, kind := Lower(d.code), Lower(d.kind);
    if code in {"insufficient_quota", "quota_exceeded", "credits_exhausted", "billing_hard_limit_reached", "billing_not_active"}
    then Some("quota_blocked")
    else if u.status >= 400 && u.quotaWords then Some("quota_blocked")
    else if code in {"rate_limit_exceeded", "rate_limited", "too_many_requests"} then Some("rate_limited")
    else if kind in {"rate_limit_exceeded", "rate_limited"} then Some("rate_limited")
    else if u.status >= 400 && u.rateWords then Some("rate_limited")
    else if u.status == 429 then Some("rate_limited")
    else None
  }

  function FirstEventCode(events: seq<Json>): string {
    if events == [] then ""
    else
      var d := DetailsOf(events[0]);
      if d.Some? && d.value.code != "" then d.value.code else FirstEventCode(events[1..])
  }

  predicate ShouldRetryStream(u: Upstream) {
    && ExhaustedStatus(u).None?
    && (if u.status >= 400 then u.status == 500 || NormalizeCode(u.errorCode, "") == "server_error"
        else FirstEventCode(u.events) == "server_error")
  }

  predicate ShouldRetryStreamOrIncomplete(u: Upstream) {
    || ShouldRetryStream(u)
    || NormalizeCode(ResolvedCode(u), "") in {"stream_incomplete", "upstream_incomplete"}
  }

  predicate ShouldRetryCompact(u: Upstream) {
    ExhaustedStatus(u).None? && u.status in {401, 500, 502, 503, 504}
  }

  /** A result that says the account is exhausted is retried by no rule but one, and by that one only as an incomplete stream. */
  lemma ExhaustedIsRetriedOnlyIfIncomplete(u: Upstream)
    requires ExhaustedStatus(u).Some?
    ensures !ShouldRetryStream(u) && !ShouldRetryCompact(u)
    ensures ShouldRetryStreamOrIncomplete(u) <==> ResolvedCode(u) in {"stream_incomplete", "upstream_incomplete"}
  {
    ResolvedCodeIsNormal(u);
  }

  /** ... which does happen. */
  lemma AnExhaustedResultIsRetried() returns (u: Upstream)
    ensures ExhaustedStatus(u).Some? && ShouldRetryStreamOrIncomplete(u)
  {
    u := Upstream(429, "stream_incomplete", Null, [], false, false, false);
    assert Lower("stream_incomplete") == "stream_incomplete";
  }

  /** A result as the retry loop leaves it: with its code resolved, or that of its exhausted account. */
  function Resolved(u: Upstream): Upstream {
    var named := u.(errorCode := ResolvedCode(u));
    var status := ExhaustedStatus(named);
    if status.Some? && (named.errorCode == "" || named.errorCode == "upstream_error") then
      named.(errorCode := if status.value == "quota_blocked" then "insufficient_quota" else "rate_limit_exceeded")
    else named
  }

  /** The k-th answer, as the retry loop leaves it. */
  function Answer(results: nat -> Upstream, k: nat): Upstream {
    Resolved(results(k))
  }

  /** Whether the k-th answer is one to retry. */
  function Again(results: nat -> Upstream, retry: Upstream -> bool): nat -> bool {
    (k: nat) => retry(Answer(results, k))
  }

  /** The attempt the retry loop ends with. */
  ghost predicate IsLastAttempt(again: nat -> bool, budget: nat, n: nat) {
    && n <= budget
    && (n == budget || !again(n))
    && forall k: nat | k < n :: again(k)
  }

  ghost predicate AllAgain(again: nat -> bool, n: nat) {
    forall k: nat | k < n :: again(k)
  }

  lemma OneMore(again: nat -> bool, budget: nat, n: nat)
    requires n <= budget && AllAgain(again, n)
    ensures if n == budget || !again(n) then IsLastAttempt(again, budget, n) else AllAgain(again, n + 1)
  {
  }

  function LastAttempt(again: nat -> bool, budget: nat, from: nat): (n: nat)
    requires from <= budget
    ensures from <= n <= budget
    ensures n == budget || !again(n)
    ensures forall k: nat | from <= k < n :: again(k)
    decreases budget - from
  {
    if from >= budget || !again(from) then from else LastAttempt(again, budget, from + 1)
  }

  lemma OneLastAttempt(again: nat -> bool, budget: nat, n: nat)
    requires IsLastAttempt(again, budget, n)
    ensures n == LastAttempt(again, budget, 0)
  {
  }

  lemma OnlyLastAttempt(results: nat -> Upstream, retry: Upstream -> bool, budget: nat, n: nat)
    requires IsLastAttempt(Again(results, retry), budget, n)
    ensures n == LastAttempt(Again(results, retry), budget, 0)
  {
    OneLastAttempt(Again(results, retry), budget, n);
  }

  method Settle(u: Upstream) returns (r: Upstream)
    ensures r == Resolved(u)
  {
    r := u.(errorCode := ResolvedCode(u));
    var exhausted := ExhaustedStatus(r);
    if exhausted.Some? && (r.errorCode == "" || r.errorCode == "upstream_error") {
      r := r.(errorCode := if exhausted.value == "quota_blocked" then "insufficient_quota" else "rate_limit_exceeded");
    }
  }

  /** One turn of the loop below. */
  method Attempt(results: nat -> Upstream, retry: Upstream -> bool, attempt: nat) returns (upstream: Upstream, again: bool)
    ensures upstream == Answer(results, attempt) && again == Again(results, retry)(attempt)
  {
    upstream := Settle(results(attempt));
    again := retry(upstream);
  }

  /** `results(k)` is the upstream's k-th answer; it is asked at most once more than the budget. */
  method ExecuteWithRetryBudget(results: nat -> Upstream, budget: nat, retry: Upstream -> bool)
    returns (upstream: Upstream, attempts: nat)
    ensures 1 <= attempts <= budget + 1
    ensures IsLastAttempt(Again(results, retry), budget, attempts - 1)
    ensures upstream == Answer(results, attempts - 1)
  {
    var attempt := 0;
    while true
      invariant 0 <= attempt <= budget && AllAgain(Again(results, retry), attempt)
      decreases budget - attempt
    {
      var again;
      upstream, again := Attempt(results, retry, attempt);
      OneMore(Again(results, retry), budget, attempt);
      if attempt >= budget || !again {
        return upstream, attempt + 1;
      }
      attempt := attempt + 1;
    }
  }
}
