/**
  How a responses request is carried out: collect_responses_json and
  stream_responses_sse of native/proxy/src/proxy_service.cpp, the same flow in
  proxy_responses_websocket of native/proxy/src/ws_proxy.cpp, and
  guard_backend_codex_previous_response of native/proxy/src/proxy_service_helpers.cpp.
  Everything the flow asks its surroundings is an answer in `Answers`; a theorem about
  all answers is one about every behaviour of session store, accounts and upstream.
*/
module Orchestration {
  import opened Options
  import opened Json
  import opened RequestBody
  import opened ErrorPolicy

  datatype Transport = Collected | Sse | Websocket
  datatype Route = V1Responses | CodexResponses | OtherRoute

  /** The places where a plan is built and executed. */
  datatype Site = First | Refresh | Bridge | Stripped | Failover

  datatype Credentials = Credentials(account: string, token: string)

  datatype Answers = Answers(
    affinityAccount: string, accountFromHeader: bool,
    preferred: Option<string>, continuity: Option<string>,
    preferredRewritten: Option<string>, continuityRewritten: Option<string>,
    bridgedAtGuard: Option<string>, bridgedAtRetry: Option<string>,
    accountKnown: bool, credentials: Option<Credentials>, otherCredentials: Option<Credentials>,
    refreshed: string -> Option<Credentials>, failoverCredentials: Option<Credentials>, inLockPool: bool,
    context: Site -> Context, builds: Site -> bool, result: (Site, nat) -> Upstream)

  /**
    What the session store guarantees: the ids it remembers are trimmed and not empty, and
    refreshing an account's token gives credentials of that account.
  */
  ghost predicate Plausible(a: Answers) {
    && (a.bridgedAtGuard.Some? ==> !Blank(a.bridgedAtGuard.value))
    && (a.bridgedAtRetry.Some? ==> !Blank(a.bridgedAtRetry.value))
    && (forall account :: a.refreshed(account).Some? ==> a.refreshed(account).value.account == account)
  }

  datatype Plan = Plan(body: Json, account: string, token: string)
  datatype Round = Round(plan: Plan, attempts: nat)

  datatype State = State(
    body: Json, continuation: bool, callOutput: bool, account: string, token: string,
    upstream: Upstream, rounds: seq<Round>)

  datatype Outcome = Refused(status: int) | Answered(upstream: Upstream)
  datatype Served = Served(outcome: Outcome, rounds: seq<Round>)

  const STREAM_RETRY_BUDGET: nat := 2
  const NO_UPSTREAM := Upstream(500, "", Null, [], false, false, false)

  // ---------------------------------------------------------------------------
  // The guard
  // ---------------------------------------------------------------------------

  datatype Guarded = Guarded(
    body: Json, continuation: bool, callOutput: bool, preferred: Option<string>, continuity: Option<string>)

  function ReadGuard(body: Json, preferred: Option<string>, continuity: Option<string>): Guarded {
    if HasPrevious(body) then Guarded(body, true, HasCallOutput(body), preferred, continuity)
    else Guarded(body, false, false, None, None)
  }

  function StripUnlessBound(g: Guarded, a: Answers): Guarded {
    if Filled(g.preferred) || Filled(g.continuity) || a.accountFromHeader || g.callOutput then g
    else
      var stripped := Strip(g.body);
      if stripped.Some? then Guarded(stripped.value, false, false, None, None) else g
  }

  function Guard(codex: bool, raw: Json, a: Answers): Guarded {
    var g := ReadGuard(raw, a.preferred, a.continuity);
    if !codex || !g.continuation then g
    else
      var rewritten := ReplaceFromBridge(raw, a.bridgedAtGuard);
      StripUnlessBound(if rewritten.Some? then ReadGuard(rewritten.value, a.preferredRewritten, a.continuityRewritten) else g, a)
  }

  method GuardPreviousResponse(codex: bool, raw: Json, a: Answers) returns (guard: Guarded)
    ensures guard == Guard(codex, raw, a)
  {
    guard := ReadGuard(raw, a.preferred, a.continuity);
    if !codex || !guard.continuation {
      return;
    }
    var rewritten := ReplaceFromBridge(guard.body, a.bridgedAtGuard);
    if rewritten.Some? {
      guard := ReadGuard(rewritten.value, a.preferredRewritten, a.continuityRewritten);
    }
    var hasAccountContext := Filled(guard.preferred) || Filled(guard.continuity) || a.accountFromHeader;
    if hasAccountContext || guard.callOutput {
      return;
    }
    var stripped := Strip(guard.body);
    if stripped.Some? {
      guard := Guarded(stripped.value, false, false, None, None);
    }
  }

  // ---------------------------------------------------------------------------
  // The stages
  // ---------------------------------------------------------------------------

  /** The account a request is to run on if it can. */
  function Preference(g: Guarded, a: Answers): string {
    if Filled(g.preferred) then g.preferred.value
    else if Filled(g.continuity) then g.continuity.value
    else if !g.continuation || a.affinityAccount != "" then a.affinityAccount
    else ""
  }

  predicate IsStrict(g: Guarded, a: Answers) {
    g.continuation && Preference(g, a) != ""
  }

  function Apply(s: State, credentials: Option<Credentials>): State {
    if credentials.Some? then s.(account := credentials.value.account, token := credentials.value.token) else s
  }

  /** After the choice of credentials, before anything is sent. */
  function Credentialed(g: Guarded, a: Answers): State {
    var s := State(g.body, g.continuation, g.callOutput, a.affinityAccount, "", NO_UPSTREAM, []);
    if a.credentials.Some? || !IsStrict(g, a) then Apply(s, a.credentials)
    else
      var body := if a.accountFromHeader then None else Fallback(g.body, g.continuation, g.callOutput, a.context(First));
      if body.None? then s
      else Apply(s.(body := body.value, continuation := false, callOutput := false), a.otherCredentials)
  }

  function RetryRule(t: Transport): Upstream -> bool {
    if t == Websocket then ShouldRetryStream else ShouldRetryStreamOrIncomplete
  }

  function ResultsAt(site: Site, a: Answers): nat -> Upstream {
    (k: nat) => a.result(site, k)
  }

  function LastAt(site: Site, t: Transport, a: Answers): (n: nat)
    ensures n <= STREAM_RETRY_BUDGET
  {
    LastAttempt(Again(ResultsAt(site, a), RetryRule(t)), STREAM_RETRY_BUDGET, 0)
  }

  method ExecuteByRule(results: nat -> Upstream, retry: Upstream -> bool) returns (upstream: Upstream, attempts: nat)
    ensures attempts >= 1 && upstream == Answer(results, attempts - 1)
    ensures attempts - 1 == LastAttempt(Again(results, retry), STREAM_RETRY_BUDGET, 0)
  {
    upstream, attempts := ExecuteWithRetryBudget(results, STREAM_RETRY_BUDGET, retry);
    OnlyLastAttempt(results, retry, STREAM_RETRY_BUDGET, attempts - 1);
  }

  method ExecuteAt(site: Site, t: Transport, a: Answers) returns (upstream: Upstream, attempts: nat)
    ensures upstream == Answer(ResultsAt(site, a), LastAt(site, t, a)) && attempts == LastAt(site, t, a) + 1
  {
    upstream, attempts := ExecuteByRule(ResultsAt(site, a), RetryRule(t));
  }

  function WithRound(s: State, answer: Upstream, plan: Plan, attempts: nat): State {
    s.(upstream := answer, rounds := s.rounds + [Round(plan, attempts)])
  }

  /** A plan executed within its retry budget. */
  function Executed(s: State, site: Site, plan: Plan, t: Transport, a: Answers): State {
    var n := LastAt(site, t, a);
    WithRound(s, Answer(ResultsAt(site, a), n), plan, n + 1)
  }

  lemma RanIsExecuted(s: State, site: Site, plan: Plan, t: Transport, a: Answers, answer: Upstream, attempts: nat)
    requires answer == Answer(ResultsAt(site, a), LastAt(site, t, a)) && attempts == LastAt(site, t, a) + 1
    ensures Executed(s, site, plan, t, a) ==
            State(s.body, s.continuation, s.callOutput, s.account, s.token, answer, s.rounds + [Round(plan, attempts)])
  {
    assert Executed(s, site, plan, t, a) == WithRound(s, answer, plan, attempts);
  }

  function PlanOf(s: State): Plan {
    Plan(s.body, s.account, s.token)
  }

  function AfterFirst(s: State, t: Transport, a: Answers): State {
    Executed(s, First, PlanOf(s), t, a)
  }

  predicate Deactivated(u: Upstream) {
    u.status == 401 && u.deactivatedWords
  }

  function AfterRefresh(s: State, t: Transport, a: Answers): State {
    if s.upstream.status == 401 && s.account != "" && !Deactivated(s.upstream) && a.refreshed(s.account).Some? then
      var r := Apply(s, a.refreshed(s.account));
      if a.builds(Refresh) then Executed(r, Refresh, PlanOf(r), t, a) else r
    else s
  }

  predicate PreviousNotFound(u: Upstream) {
    ResolvedCode(u) == "previous_response_not_found"
  }

  function AfterBridge(s: State, codex: bool, t: Transport, a: Answers): State {
    if codex && s.continuation && s.callOutput && PreviousNotFound(s.upstream) then
      var rewritten := ReplaceFromBridge(s.body, a.bridgedAtRetry);
      if rewritten.Some? && a.builds(Bridge) then Executed(s, Bridge, PlanOf(s).(body := rewritten.value), t, a) else s
    else s
  }

  /** A state that goes on with another body, its flags read off that body. */
  function Rebodied(s: State, body: Json): State {
    s.(body := body, continuation := HasPrevious(body), callOutput := HasPrevious(body) && HasCallOutput(body))
  }

  function AfterStrip(s: State, t: Transport, a: Answers): State {
    if s.continuation && !s.callOutput && PreviousNotFound(s.upstream) then
      var body := Fallback(s.body, s.continuation, s.callOutput, a.context(Stripped));
      if body.Some? && a.builds(Stripped) then
        var r := Rebodied(s, body.value);
        Executed(r, Stripped, PlanOf(r), t, a)
      else s
    else s
  }

  predicate MarksExhausted(u: Upstream, account: string, inLockPool: bool) {
    && account != ""
    && (|| ExhaustedStatus(u).Some?
        || (&& u.status >= 500 && inLockPool
            && NormalizeCode(ResolvedCode(u), "") in {"upstream_unavailable", "upstream_error", "server_error"}))
  }

  function AfterFailover(s: State, t: Transport, a: Answers): State {
    if MarksExhausted(s.upstream, s.account, a.inLockPool) && !a.accountFromHeader then
      var body := Fallback(s.body, s.continuation, s.callOutput, a.context(Failover));
      if body.Some? && a.failoverCredentials.Some? && a.builds(Failover) then
        var r := Rebodied(Apply(s, a.failoverCredentials), body.value);
        Executed(r, Failover, PlanOf(r), t, a)
      else s
    else s
  }

  function Recovered(s: State, codex: bool, t: Transport, a: Answers): State {
    AfterFailover(AfterStrip(AfterBridge(AfterRefresh(AfterFirst(s, t, a), t, a), codex, t, a), t, a), t, a)
  }

  function Flow(t: Transport, route: Route, raw: Json, a: Answers): Served {
    if route == OtherRoute then Served(Refused(404), [])
    else
      var codex := route == CodexResponses;
      var g := Guard(codex, raw, a);
      var s := Credentialed(g, a);
      if IsStrict(g, a) && a.accountKnown && s.token == "" then Served(Refused(409), [])
      else if !a.builds(First) then Served(Refused(400), [])
      else
        var done := Recovered(s, codex, t, a);
        Served(Answered(done.upstream), done.rounds)
  }

  // ---------------------------------------------------------------------------
  // The flow as it runs
  // ---------------------------------------------------------------------------

  class Request {
    var body: Json
    var continuation: bool
    var callOutput: bool
    var account: string
    var token: string
    var upstream: Upstream
    var rounds: seq<Round>

    function View(): State
      reads this
    {
      State(body, continuation, callOutput, account, token, upstream, rounds)
    }

    constructor (g: Guarded, affinityAccount: string)
      ensures View() == State(g.body, g.continuation, g.callOutput, affinityAccount, "", NO_UPSTREAM, [])
    {
      body, continuation, callOutput := g.body, g.continuation, g.callOutput;
      account, token := affinityAccount, "";
      upstream, rounds := NO_UPSTREAM, [];
    }

    method ApplyCredentials(credentials: Option<Credentials>) returns (applied: bool)
      modifies this
      ensures View() == Apply(old(View()), credentials)
      ensures applied <==> credentials.Some?
    {
      if credentials.None? {
        return false;
      }
      account, token := credentials.value.account, credentials.value.token;
      applied := true;
    }

    method ChooseCredentials(g: Guarded, a: Answers)
      requires View() == State(g.body, g.continuation, g.callOutput, a.affinityAccount, "", NO_UPSTREAM, [])
      modifies this
      ensures View() == Credentialed(g, a)
    {
      var applied := ApplyCredentials(a.credentials);
      if !applied && IsStrict(g, a) {
        var fallback := None;
        if !a.accountFromHeader {
          fallback := Fallback(body, continuation, callOutput, a.context(First));
        }
        if fallback.Some? {
          body := fallback.value;
          continuation, callOutput := false, false;
          account := a.affinityAccount;
          applied := ApplyCredentials(a.otherCredentials);
        }
      }
    }

    method Execute(site: Site, plan: Plan, t: Transport, a: Answers)
      modifies this
      ensures View() == Executed(old(View()), site, plan, t, a)
    {
      ghost var before := View();
      var answer, attempts := ExecuteAt(site, t, a);
      RanIsExecuted(before, site, plan, t, a, answer, attempts);
      upstream := answer;
      rounds := rounds + [Round(plan, attempts)];
    }

    method Adopt(other: Json)
      modifies this
      ensures View() == Rebodied(old(View()), other)
    {
      body := other;
      continuation := HasPrevious(body);
      callOutput := continuation && HasCallOutput(body);
    }

    method RefreshIfUnauthorized(t: Transport, a: Answers)
      modifies this
      ensures View() == AfterRefresh(old(View()), t, a)
    {
      if upstream.status == 401 && account != "" {
        if !Deactivated(upstream) {
          var refreshed := a.refreshed(account);
          if refreshed.Some? {
            account := refreshed.value.account;
            token := refreshed.value.token;
            if a.builds(Refresh) {
              Execute(Refresh, Plan(body, account, token), t, a);
            }
          }
        }
      }
    }

    method RetryFromBridge(codex: bool, t: Transport, a: Answers)
      modifies this
      ensures View() == AfterBridge(old(View()), codex, t, a)
    {
      if codex && continuation && callOutput && PreviousNotFound(upstream) {
        var rewritten := ReplaceFromBridge(body, a.bridgedAtRetry);
        if rewritten.Some? {
          if a.builds(Bridge) {
            Execute(Bridge, Plan(rewritten.value, account, token), t, a);
          }
        }
      }
    }

    method RetryStripped(t: Transport, a: Answers)
      modifies this
      ensures View() == AfterStrip(old(View()), t, a)
    {
      if continuation && !callOutput && PreviousNotFound(upstream) {
        var stripped := Fallback(body, continuation, callOutput, a.context(Stripped));
        if stripped.Some? {
          if a.builds(Stripped) {
            var plan := Plan(stripped.value, account, token);
            Adopt(stripped.value);
            Execute(Stripped, plan, t, a);
          }
        }
      }
    }

    method FailOverIfExhausted(t: Transport, a: Answers)
      modifies this
      ensures View() == AfterFailover(old(View()), t, a)
    {
      var exhausted := MarksExhausted(upstream, account, a.inLockPool);
      if exhausted && !a.accountFromHeader {
        var fallback := Fallback(body, continuation, callOutput, a.context(Failover));
        if fallback.Some? {
          if a.failoverCredentials.Some? {
            var c := a.failoverCredentials.value;
            if a.builds(Failover) {
              var plan := Plan(fallback.value, c.account, c.token);
              account, token := c.account, c.token;
              Adopt(fallback.value);
              Execute(Failover, plan, t, a);
            }
          }
        }
      }
    }
  }

  method Respond(t: Transport, route: Route, raw: Json, a: Answers) returns (outcome: Outcome, rounds: seq<Round>)
    ensures Served(outcome, rounds) == Flow(t, route, raw, a)
  {
    if route == OtherRoute {
      return Refused(404), [];
    }
    var codex := route == CodexResponses;
    var g := GuardPreviousResponse(codex, raw, a);
    var request := new Request(g, a.affinityAccount);
    request.ChooseCredentials(g, a);
    if IsStrict(g, a) && a.accountKnown && request.token == "" {
      return Refused(409), [];
    }
    if !a.builds(First) {
      return Refused(400), [];
    }
    request.Execute(First, Plan(request.body, request.account, request.token), t, a);
    request.RefreshIfUnauthorized(t, a);
    request.RetryFromBridge(codex, t, a);
    request.RetryStripped(t, a);
    request.FailOverIfExhausted(t, a);
    return Answered(request.upstream), request.rounds;
  }
}
