/**
  What an upstream result is taken to say, read off the error objects in its body and
  events: the first one to say something is heard, field by field.
*/
module ErrorMeaning {
  import opened Options
  import opened Sequences
  import opened Json
  import opened ErrorPolicy

  // ---------------------------------------------------------------------------
  // The error objects of a result
  // ---------------------------------------------------------------------------

  predicate HasError(o: Fields) {
    "error" in o && o["error"].Obj?
  }

  /** The error object of a payload, or that of the response in it. */
  function ErrorIn(payload: Json): Option<Fields> {
    if !payload.Obj? then None
    else if HasError(payload.fields) then Some(payload.fields["error"].fields)
    else if "response" in payload.fields && payload.fields["response"].Obj? && HasError(payload.fields["response"].fields) then
      Some(payload.fields["response"].fields["error"].fields)
    else None
  }

  function Errors(payloads: seq<Json>): seq<Fields> {
    if payloads == [] then []
    else Errors(payloads[..|payloads| - 1]) +
         if ErrorIn(payloads[|payloads| - 1]).Some? then [ErrorIn(payloads[|payloads| - 1]).value] else []
  }

  function Said(e: Fields, key: string): string {
    if key in e && e[key].Str? then e[key].text else ""
  }

  /** The first text under a key that is not empty. */
  function FirstSaid(errors: seq<Fields>, key: string): string {
    if errors == [] then ""
    else if FirstSaid(errors[..|errors| - 1], key) != "" then FirstSaid(errors[..|errors| - 1], key)
    else Said(errors[|errors| - 1], key)
  }

  const ALIASES: map<string, string> := map[
    "upstream_transport_failed" := "upstream_unavailable",
    "upstream_transport_init_failed" := "upstream_unavailable",
    "upstream_transport_timeout" := "upstream_request_timeout"]

  /** A code in lower case and under the name the proxy uses for it. */
  function Code(raw: string): string {
    if raw == "" then "upstream_error" else if Lower(raw) in ALIASES then ALIASES[Lower(raw)] else Lower(raw)
  }

  predicate IsText(e: Fields, key: string) {
    key in e && e[key].Str?
  }

  /** The code an error object has: its own, or its type for want of one. */
  function CodeSaid(e: Fields): string {
    if IsText(e, "code") then Code(e["code"].text) else if IsText(e, "type") then Code(e["type"].text) else ""
  }

  function FirstCode(errors: seq<Fields>): string {
    if errors == [] then ""
    else if FirstCode(errors[..|errors| - 1]) != "" then FirstCode(errors[..|errors| - 1])
    else CodeSaid(errors[|errors| - 1])
  }

  lemma ErrorIsFound(payload: Json)
    ensures DetailsOf(payload).Some? <==> ErrorIn(payload).Some?
    ensures ErrorIn(payload).Some? ==>
              var e := ErrorIn(payload).value;
              DetailsOf(payload).value == Details(CodeSaid(e), Said(e, "message"), Said(e, "type"), Said(e, "param"))
  {
    if ErrorIn(payload).Some? {
      var e := ErrorIn(payload).value;
      CodesMean(Said(e, "code"), Said(e, "type"));
    }
  }

  /** The proxy's names for codes: in lower case, two aliases apart. */
  lemma CodesMean(code: string, errorType: string)
    ensures code != "" ==> NormalizeCode(code, errorType) == Code(code)
    ensures code == "" ==> NormalizeCode(code, errorType) == Code(errorType)
  {
  }

  // ---------------------------------------------------------------------------
  // Details
  // ---------------------------------------------------------------------------

  lemma {:induction false} AllMergedSays(base: Details, events: seq<Json>)
    ensures var d, errors := AllMerged(base, events), Errors(events);
            && d.code == Or(base.code, FirstCode(errors)) && d.message == Or(base.message, FirstSaid(errors, "message"))
            && d.kind == Or(base.kind, FirstSaid(errors, "type")) && d.param == Or(base.param, FirstSaid(errors, "param"))
  {
    if events != [] {
      var front, last := events[..|events| - 1], events[|events| - 1];
      AllMergedSays(base, front);
      ErrorIsFound(last);
      if ErrorIn(last).Some? {
        Undo(Errors(front), [ErrorIn(last).value]);
      } else {
        Units(Errors(front));
      }
    }
  }

  lemma {:induction false} FirstOfBoth(a: seq<Fields>, b: seq<Fields>, key: string)
    ensures FirstSaid(a + b, key) == Or(FirstSaid(a, key), FirstSaid(b, key))
    ensures FirstCode(a + b) == Or(FirstCode(a), FirstCode(b))
    decreases |b|
  {
    if b == [] {
      Units(a);
    } else {
      assert (a + b)[..|a + b| - 1] == a + b[..|b| - 1];
      FirstOfBoth(a, b[..|b| - 1], key);
    }
  }

  /** All the error objects of a result: its body's, then those of its events. */
  function ErrorsOf(u: Upstream): seq<Fields> {
    Errors([u.body]) + Errors(u.events)
  }

  function CodeOf(u: Upstream): string {
    if u.errorCode != "" then Code(u.errorCode)
    else if FirstCode(ErrorsOf(u)) != "" then FirstCode(ErrorsOf(u))
    else "upstream_error"
  }

  function KindOf(u: Upstream): string {
    if FirstSaid(ErrorsOf(u), "type") != "" then FirstSaid(ErrorsOf(u), "type")
    else if CodeOf(u) == "upstream_request_timeout" then "timeout_error"
    else "server_error"
  }

  lemma OpeningSays(u: Upstream)
    ensures var d, errors := Opening(u), Errors([u.body]);
            && d.code == (if u.errorCode != "" then Code(u.errorCode) else FirstCode(errors))
            && d.message == FirstSaid(errors, "message")
            && d.kind == FirstSaid(errors, "type") && d.param == FirstSaid(errors, "param")
  {
    CodesMean(u.errorCode, "");
    var base := Details(if u.errorCode != "" then NormalizeCode(u.errorCode, "") else "", "", "", "");
    AllMergedSays(base, [u.body]);
    assert [u.body][..0] == [];
    CodeIsFilled(u.errorCode);
  }

  lemma CodeIsFilled(raw: string)
    ensures Code(raw) != ""
  {
  }

  /**
    The details of any result: its own code, else the first one an error object has; the
    first message and type; and, the case of an early stop aside, the first param.
  */
  lemma DetailsSay(u: Upstream)
    ensures var d := DetailsOfResult(u);
            && d.code == CodeOf(u) && d.message == FirstSaid(ErrorsOf(u), "message") && d.kind == KindOf(u)
            && (KeepsParam(Opening(u), u.events) ==> d.param == FirstSaid(ErrorsOf(u), "param"))
  {
    OpeningSays(u);
    AllMergedSays(Opening(u), u.events);
    EarlyStopMissesOnlyParam(Opening(u), u.events);
    FirstOfBoth(Errors([u.body]), Errors(u.events), "message");
    FirstOfBoth(Errors([u.body]), Errors(u.events), "type");
    FirstOfBoth(Errors([u.body]), Errors(u.events), "param");
    CodeIsFilled(u.errorCode);
  }

  // ---------------------------------------------------------------------------
  // Exhausted accounts and retries
  // ---------------------------------------------------------------------------

  /** A quota is used up: the code says so, or the words of a failed result do. */
  predicate SaysQuota(u: Upstream) {
    || Lower(CodeOf(u)) in {"insufficient_quota", "quota_exceeded", "credits_exhausted", "billing_hard_limit_reached",
                            "billing_not_active"}
    || (u.status >= 400 && u.quotaWords)
  }

  predicate SaysRate(u: Upstream) {
    || Lower(CodeOf(u)) in {"rate_limit_exceeded", "rate_limited", "too_many_requests"}
    || Lower(KindOf(u)) in {"rate_limit_exceeded", "rate_limited"}
    || (u.status >= 400 && u.rateWords)
    || u.status == 429
  }

  lemma ExhaustedSays(u: Upstream)
    ensures ExhaustedStatus(u) ==
            if SaysQuota(u) then Some("quota_blocked") else if SaysRate(u) then Some("rate_limited") else None
  {
    DetailsSay(u);
  }

  lemma {:induction false} FirstEventSays(events: seq<Json>)
    ensures FirstEventCode(events) == FirstCode(Errors(events))
    decreases |events|
  {
    if events != [] {
      var rest := events[1..];
      FirstEventSays(rest);
      ErrorIsFound(events[0]);
      ErrorsFrom(events);
      FirstOfBoth(Errors([events[0]]), Errors(rest), "code");
      assert [events[0]][..0] == [];
    }
  }

  lemma {:induction false} ErrorsFrom(events: seq<Json>)
    requires events != []
    ensures Errors(events) == Errors([events[0]]) + Errors(events[1..])
  {
    var n := |events| - 1;
    if n == 0 {
      assert events == [events[0]];
      Units(Errors(events));
    } else {
      ErrorsFrom(events[..n]);
      assert events[..n][1..] == events[1..][..n - 1];
      Assoc(Errors([events[0]]), Errors(events[1..n]), if ErrorIn(events[n]).Some? then [ErrorIn(events[n]).value] else []);
      assert events[1..][..n - 1] == events[1..n];
    }
  }

  /**
    Which results are sent again, in what they say: none of an exhausted account, and of
    the others those with status 500 or code server_error, the code of a successful one
    being its first event's; a request that may be continued also if it came out incomplete.
  */
  lemma RetriedSays(u: Upstream)
    ensures ShouldRetryStream(u) <==>
            && !SaysQuota(u) && !SaysRate(u)
            && (if u.status < 400 then FirstCode(Errors(u.events)) == "server_error"
                else u.status == 500 || (u.errorCode != "" && Code(u.errorCode) == "server_error"))
    ensures ShouldRetryStreamOrIncomplete(u) <==>
            ShouldRetryStream(u) || CodeOf(u) == "stream_incomplete" || CodeOf(u) == "upstream_incomplete"
    ensures ShouldRetryCompact(u) <==>
            !SaysQuota(u) && !SaysRate(u) && (u.status == 401 || u.status == 500 || 502 <= u.status <= 504)
  {
    ExhaustedSays(u);
    DetailsSay(u);
    FirstEventSays(u.events);
    CodesMean(u.errorCode, "");
    ResolvedCodeIsNormal(u);
  }

  lemma CodeIsStable(u: Upstream)
    ensures CodeOf(u) != "" && Code(CodeOf(u)) == CodeOf(u)
  {
    DetailsSay(u);
    ResolvedCodeIsNormal(u);
    CodesMean(CodeOf(u), "");
  }

  /** Once its code is settled, a result still says the same. */
  lemma NamedSays(u: Upstream)
    ensures var named := u.(errorCode := CodeOf(u));
            CodeOf(named) == CodeOf(u) && (SaysQuota(named) <==> SaysQuota(u)) && (SaysRate(named) <==> SaysRate(u))
  {
    var named := u.(errorCode := CodeOf(u));
    CodeIsStable(u);
    assert ErrorsOf(named) == ErrorsOf(u);
    assert CodeOf(named) == CodeOf(u) && KindOf(named) == KindOf(u);
  }

  /** The code a result is left with: what it says, or, if that is nothing in particular, what its exhaustion is called. */
  lemma SettledSays(u: Upstream)
    ensures Resolved(u) == u.(errorCode := Resolved(u).errorCode)
    ensures Resolved(u).errorCode ==
            if CodeOf(u) != "upstream_error" then CodeOf(u)
            else if SaysQuota(u) then "insufficient_quota" else if SaysRate(u) then "rate_limit_exceeded"
            else "upstream_error"
  {
    DetailsSay(u);
    NamedSays(u);
    ExhaustedSays(u.(errorCode := CodeOf(u)));
  }
}
