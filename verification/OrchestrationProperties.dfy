/** What holds of every responses request, whatever the session store, the accounts and the upstream do. */
module OrchestrationProperties {
  import opened Options
  import opened Json
  import opened RequestBody
  import opened ErrorPolicy
  import opened Orchestration

  /** A continuation that carries function-call outputs, which only make sense to the earlier response. */
  predicate IsBound(raw: Json) {
    HasPrevious(raw) && HasCallOutput(raw)
  }

  /** A body that may be sent for a request. */
  predicate MaySend(raw: Json, body: Json) {
    && SameRequest(raw, body)
    && (!HasPrevious(raw) ==> body == raw)
    && (IsBound(raw) ==> IsBound(body) && SameButPrevious(raw, body))
  }

  predicate FlagsTrackBody(s: State) {
    (s.continuation <==> HasPrevious(s.body)) && (s.callOutput <==> IsBound(s.body))
  }

  predicate RoundOk(raw: Json, r: Round) {
    1 <= r.attempts <= STREAM_RETRY_BUDGET + 1 && MaySend(raw, r.plan.body)
  }

  /** What every state of the flow keeps. */
  predicate Kept(raw: Json, s: State) {
    && FlagsTrackBody(s) && MaySend(raw, s.body)
    && forall i | 0 <= i < |s.rounds| :: RoundOk(raw, s.rounds[i])
  }

  /** Every round so far ran on the account of the state. */
  predicate OnOneAccount(s: State) {
    forall i | 0 <= i < |s.rounds| :: s.rounds[i].plan.account == s.account
  }

  // ---------------------------------------------------------------------------
  // Rewriting bodies
  // ---------------------------------------------------------------------------

  lemma SameRequestTransitive(a: Json, b: Json, c: Json)
    requires SameRequest(a, b) && SameRequest(b, c)
    ensures SameRequest(a, c)
  {
  }

  lemma ReplaceMaySend(raw: Json, body: Json, remembered: Option<string>)
    requires MaySend(raw, body) && ReplaceFromBridge(body, remembered).Some? && !Blank(remembered.value)
    ensures var r := ReplaceFromBridge(body, remembered).value;
            MaySend(raw, r) && HasPrevious(r) && (HasCallOutput(r) <==> HasCallOutput(body))
  {
    var r := ReplaceFromBridge(body, remembered).value;
    ReplaceKeeps(body, remembered);
    SameButPreviousIsSameRequest(body, r);
    SameRequestTransitive(raw, body, r);
  }

  lemma FallbackMaySend(raw: Json, body: Json, context: Context)
    requires MaySend(raw, body)
    ensures var f := Fallback(body, HasPrevious(body), IsBound(body), context);
            f.Some? ==> MaySend(raw, f.value) && !HasPrevious(f.value)
  {
    FallbackKeeps(body, context);
    var f := Fallback(body, HasPrevious(body), IsBound(body), context);
    if f.Some? {
      SameRequestTransitive(raw, body, f.value);
    }
  }

  // ---------------------------------------------------------------------------
  // Each stage
  // ---------------------------------------------------------------------------

  lemma GuardKeeps(codex: bool, raw: Json, a: Answers)
    requires Plausible(a)
    ensures var g := Guard(codex, raw, a);
            && (g.continuation <==> HasPrevious(g.body)) && (g.callOutput <==> IsBound(g.body)) && MaySend(raw, g.body)
  {
    var g := ReadGuard(raw, a.preferred, a.continuity);
    if codex && g.continuation {
      var rewritten := ReplaceFromBridge(raw, a.bridgedAtGuard);
      if rewritten.Some? {
        ReplaceMaySend(raw, raw, a.bridgedAtGuard);
        GuardStripKeeps(raw, ReadGuard(rewritten.value, a.preferredRewritten, a.continuityRewritten), a);
      } else {
        GuardStripKeeps(raw, g, a);
      }
    }
  }

  lemma GuardStripKeeps(raw: Json, g: Guarded, a: Answers)
    requires g.continuation && HasPrevious(g.body) && (g.callOutput <==> HasCallOutput(g.body)) && MaySend(raw, g.body)
    ensures var r := StripUnlessBound(g, a);
            && (r.continuation <==> HasPrevious(r.body)) && (r.callOutput <==> IsBound(r.body)) && MaySend(raw, r.body)
  {
    if !g.callOutput {
      StripKeeps(g.body);
      SameButPreviousIsSameRequest(g.body, Strip(g.body).value);
      SameRequestTransitive(raw, g.body, Strip(g.body).value);
    }
  }

  lemma CredentialedKeeps(codex: bool, raw: Json, a: Answers)
    requires Plausible(a)
    ensures Kept(raw, Credentialed(Guard(codex, raw, a), a)) && Credentialed(Guard(codex, raw, a), a).rounds == []
  {
    GuardKeeps(codex, raw, a);
    FallbackMaySend(raw, Guard(codex, raw, a).body, a.context(First));
  }

  lemma ExecutedKeeps(raw: Json, s: State, site: Site, plan: Plan, t: Transport, a: Answers)
    requires Kept(raw, s) && MaySend(raw, plan.body)
    ensures var e := Executed(s, site, plan, t, a);
            && Kept(raw, e) && |e.rounds| == |s.rounds| + 1
            && e.rounds[..|s.rounds|] == s.rounds && e.rounds[|s.rounds|].plan == plan
            && e == s.(upstream := e.upstream, rounds := e.rounds)
  {
  }

  /** One more round at most, for which the state's account is used. */
  predicate Advances(raw: Json, s: State, e: State) {
    && Kept(raw, e) && OnOneAccount(e)
    && |s.rounds| <= |e.rounds| <= |s.rounds| + 1
  }

  lemma OneMore(raw: Json, s: State, site: Site, t: Transport, a: Answers)
    requires Kept(raw, s) && OnOneAccount(s)
    ensures Advances(raw, s, Executed(s, site, PlanOf(s), t, a))
  {
    ExecutedKeeps(raw, s, site, PlanOf(s), t, a);
    var e := Executed(s, site, PlanOf(s), t, a);
    assert forall i | 0 <= i < |s.rounds| :: e.rounds[i] == s.rounds[i];
  }

  lemma FirstKeeps(raw: Json, s: State, t: Transport, a: Answers)
    requires Kept(raw, s) && s.rounds == []
    ensures Advances(raw, s, AfterFirst(s, t, a))
    ensures AfterFirst(s, t, a).continuation == s.continuation && AfterFirst(s, t, a).callOutput == s.callOutput
  {
    ExecutedKeeps(raw, s, First, PlanOf(s), t, a);
  }

  lemma RefreshKeeps(raw: Json, s: State, t: Transport, a: Answers)
    requires Kept(raw, s) && OnOneAccount(s) && Plausible(a)
    ensures Advances(raw, s, AfterRefresh(s, t, a))
    ensures AfterRefresh(s, t, a).callOutput == s.callOutput
  {
    var r := Apply(s, a.refreshed(s.account));
    assert r.account == s.account && Kept(raw, r) && OnOneAccount(r);
    OneMore(raw, r, Refresh, t, a);
  }

  lemma BridgeKeeps(raw: Json, s: State, codex: bool, t: Transport, a: Answers)
    requires Kept(raw, s) && OnOneAccount(s) && Plausible(a)
    ensures Advances(raw, s, AfterBridge(s, codex, t, a))
    ensures AfterBridge(s, codex, t, a).callOutput == s.callOutput
    ensures !s.callOutput ==> AfterBridge(s, codex, t, a) == s
  {
    var rewritten := ReplaceFromBridge(s.body, a.bridgedAtRetry);
    if s.continuation && rewritten.Some? {
      ReplaceMaySend(raw, s.body, a.bridgedAtRetry);
      ExecutedKeeps(raw, s, Bridge, PlanOf(s).(body := rewritten.value), t, a);
    }
  }

  lemma StripStageKeeps(raw: Json, s: State, t: Transport, a: Answers)
    requires Kept(raw, s) && OnOneAccount(s)
    ensures Advances(raw, s, AfterStrip(s, t, a))
    ensures s.callOutput ==> AfterStrip(s, t, a) == s
  {
    FallbackMaySend(raw, s.body, a.context(Stripped));
    var body := Fallback(s.body, s.continuation, s.callOutput, a.context(Stripped));
    if body.Some? {
      var r := Rebodied(s, body.value);
      ExecutedKeeps(raw, r, Stripped, PlanOf(r), t, a);
    }
  }

  lemma FailoverKeeps(raw: Json, s: State, t: Transport, a: Answers)
    requires Kept(raw, s) && OnOneAccount(s)
    ensures var e := AfterFailover(s, t, a);
            && Kept(raw, e)
            && (e == s || (|e.rounds| == |s.rounds| + 1 && e.rounds[..|s.rounds|] == s.rounds
                           && !HasPrevious(e.rounds[|s.rounds|].plan.body)))
    ensures s.callOutput ==> AfterFailover(s, t, a) == s
  {
    FallbackMaySend(raw, s.body, a.context(Failover));
    FallbackKeeps(s.body, a.context(Failover));
    var body := Fallback(s.body, s.continuation, s.callOutput, a.context(Failover));
    if body.Some? {
      var r := Rebodied(Apply(s, a.failoverCredentials), body.value);
      ExecutedKeeps(raw, r, Failover, PlanOf(r), t, a);
    }
  }

  // ---------------------------------------------------------------------------
  // The whole flow
  // ---------------------------------------------------------------------------

  /** The rounds of a request, `last` of which may be a failover to another account. */
  predicate WellRun(raw: Json, rounds: seq<Round>) {
    && |rounds| <= (if IsBound(raw) then 3 else 4)
    && (forall i | 0 <= i < |rounds| :: RoundOk(raw, rounds[i]))
    && (forall i, j | 0 <= i < j < |rounds| && rounds[i].plan.account != rounds[j].plan.account ::
          j == |rounds| - 1 && !HasPrevious(rounds[j].plan.body))
  }

  lemma RecoveredIsWellRun(raw: Json, s0: State, codex: bool, t: Transport, a: Answers)
    requires Kept(raw, s0) && s0.rounds == [] && Plausible(a)
    ensures WellRun(raw, Recovered(s0, codex, t, a).rounds) && Recovered(s0, codex, t, a).rounds != []
  {
    FirstKeeps(raw, s0, t, a);
    var s1 := AfterFirst(s0, t, a);
    RefreshKeeps(raw, s1, t, a);
    var s2 := AfterRefresh(s1, t, a);
    BridgeKeeps(raw, s2, codex, t, a);
    var s3 := AfterBridge(s2, codex, t, a);
    StripStageKeeps(raw, s3, t, a);
    var s4 := AfterStrip(s3, t, a);
    FailoverKeeps(raw, s4, t, a);
    var s5 := AfterFailover(s4, t, a);
    assert IsBound(raw) ==> s2.callOutput;
    OnlyTheLastSwitches(raw, s4, s5);
  }

  lemma OnlyTheLastSwitches(raw: Json, s: State, e: State)
    requires OnOneAccount(s) && Kept(raw, e) && |e.rounds| <= if IsBound(raw) then 3 else 4
    requires e == s || (|e.rounds| == |s.rounds| + 1 && e.rounds[..|s.rounds|] == s.rounds
                        && !HasPrevious(e.rounds[|s.rounds|].plan.body))
    ensures WellRun(raw, e.rounds)
  {
    forall k | 0 <= k < |s.rounds|
      ensures e.rounds[k].plan.account == s.account
    {
      assert e.rounds[k] == e.rounds[..|s.rounds|][k];
    }
  }

  lemma FlowIsWellRun(t: Transport, route: Route, raw: Json, a: Answers)
    requires Plausible(a)
    ensures var served := Flow(t, route, raw, a);
            WellRun(raw, served.rounds) && (served.rounds == [] <==> served.outcome.Refused?)
  {
    if route != OtherRoute {
      var codex := route == CodexResponses;
      CredentialedKeeps(codex, raw, a);
      RecoveredIsWellRun(raw, Credentialed(Guard(codex, raw, a), a), codex, t, a);
    }
  }

  /**
    A continuation with function-call outputs: every plan sent still continues an earlier
    response and differs from the request in nothing else, and all go to one account.
  */
  lemma CallOutputsStayWithTheirResponse(t: Transport, route: Route, raw: Json, a: Answers)
    requires Plausible(a) && IsBound(raw)
    ensures var rounds := Flow(t, route, raw, a).rounds;
            && |rounds| <= 3
            && (forall i | 0 <= i < |rounds| ::
                  && HasPrevious(rounds[i].plan.body) && HasCallOutput(rounds[i].plan.body)
                  && SameButPrevious(raw, rounds[i].plan.body))
            && (forall i, j | 0 <= i < |rounds| && 0 <= j < |rounds| :: rounds[i].plan.account == rounds[j].plan.account)
  {
    FlowIsWellRun(t, route, raw, a);
    BoundRounds(raw, Flow(t, route, raw, a).rounds);
  }

  lemma BoundRounds(raw: Json, rounds: seq<Round>)
    requires WellRun(raw, rounds) && IsBound(raw)
    ensures |rounds| <= 3
    ensures forall i | 0 <= i < |rounds| ::
              && HasPrevious(rounds[i].plan.body) && HasCallOutput(rounds[i].plan.body)
              && SameButPrevious(raw, rounds[i].plan.body)
    ensures forall i, j | 0 <= i < |rounds| && 0 <= j < |rounds| :: rounds[i].plan.account == rounds[j].plan.account
  {
    forall i | 0 <= i < |rounds|
      ensures IsBound(rounds[i].plan.body) && SameButPrevious(raw, rounds[i].plan.body)
    {
      assert RoundOk(raw, rounds[i]);
    }
  }

  /** An earlier response is only ever named to the account the request started on. */
  lemma PreviousResponseStaysOnItsAccount(t: Transport, route: Route, raw: Json, a: Answers, i: nat)
    requires Plausible(a) && i < |Flow(t, route, raw, a).rounds|
    ensures var rounds := Flow(t, route, raw, a).rounds;
            HasPrevious(rounds[i].plan.body) ==> rounds[i].plan.account == rounds[0].plan.account
  {
    FlowIsWellRun(t, route, raw, a);
  }

  /** Nothing but the earlier response and the input is ever changed, and not even these unless the request continues one. */
  lemma RequestIsKept(t: Transport, route: Route, raw: Json, a: Answers, i: nat)
    requires Plausible(a) && i < |Flow(t, route, raw, a).rounds|
    ensures var body := Flow(t, route, raw, a).rounds[i].plan.body;
            SameRequest(raw, body) && (!HasPrevious(raw) ==> body == raw)
  {
    FlowIsWellRun(t, route, raw, a);
    assert RoundOk(raw, Flow(t, route, raw, a).rounds[i]);
  }

  /**
    A continuation with call outputs whose account is known but gives no credentials is
    refused, and nothing is sent anywhere.
  */
  lemma UnavailableAccountIsRefused(t: Transport, route: Route, raw: Json, a: Answers)
    requires Plausible(a) && route != OtherRoute && IsBound(raw) && a.accountKnown && a.credentials.None?
    requires Preference(Guard(route == CodexResponses, raw, a), a) != ""
    ensures Flow(t, route, raw, a) == Served(Refused(409), [])
  {
    GuardKeeps(route == CodexResponses, raw, a);
  }

  function Executions(rounds: seq<Round>): nat {
    if rounds == [] then 0 else Executions(rounds[..|rounds| - 1]) + rounds[|rounds| - 1].attempts
  }

  lemma {:induction false} ExecutionsBounded(raw: Json, rounds: seq<Round>)
    requires forall i | 0 <= i < |rounds| :: RoundOk(raw, rounds[i])
    ensures Executions(rounds) <= 3 * |rounds|
  {
    if rounds != [] {
      ExecutionsBounded(raw, rounds[..|rounds| - 1]);
      assert RoundOk(raw, rounds[|rounds| - 1]);
    }
  }

  /** The upstream is asked at most twelve times, nine for a continuation with call outputs. */
  lemma UpstreamIsAskedBoundedly(t: Transport, route: Route, raw: Json, a: Answers)
    requires Plausible(a)
    ensures var rounds := Flow(t, route, raw, a).rounds;
            |rounds| <= 4 && Executions(rounds) <= if IsBound(raw) then 9 else 12
  {
    FlowIsWellRun(t, route, raw, a);
    ExecutionsBounded(raw, Flow(t, route, raw, a).rounds);
  }

  // ---------------------------------------------------------------------------
  // The bound is met
  // ---------------------------------------------------------------------------

  /** A failure that names its code and says nothing else. */
  function Failing(status: int, code: string): Upstream {
    Upstream(status, code, Null, [], false, false, false)
  }

  lemma FailingIsRetried(status: int, code: string)
    requires status == 500 || (status == 401 && code == "server_error")
    requires code == "server_error" || code == "previous_response_not_found"
    ensures var u := Failing(status, code);
            ResolvedCode(u) == code && ExhaustedStatus(u).None? && Resolved(u) == u && ShouldRetryStreamOrIncomplete(u)
  {
    assert Lower("server_error") == "server_error" && Lower("previous_response_not_found") == "previous_response_not_found";
    assert Lower("timeout_error") == "timeout_error";
  }

  lemma ExecutedThrice(s: State, site: Site, plan: Plan, a: Answers, u: Upstream)
    requires forall k: nat :: a.result(site, k) == u
    requires Resolved(u) == u && ShouldRetryStreamOrIncomplete(u)
    ensures Executed(s, site, plan, Sse, a) == s.(upstream := u, rounds := s.rounds + [Round(plan, 3)])
  {
    var again := Again(ResultsAt(site, a), RetryRule(Sse));
    assert LastAt(site, Sse, a) == LastAttempt(again, STREAM_RETRY_BUDGET, 0);
    assert RetryRule(Sse)(u);
    forall k: nat
      ensures again(k)
    {
      assert Answer(ResultsAt(site, a), k) == u;
    }
    assert Answer(ResultsAt(site, a), 2) == u;
  }

  const CONTINUING := Obj(map[PREVIOUS := Str("r")])

  const WORST := Answers(
    "", false, None, None, None, None, None, None, false, Some(Credentials("a", "t")), None,
    account => Some(Credentials(account, "u")), Some(Credentials("b", "t")), true,
    (site: Site) => Context(None, (items: seq<Json>) => 0), (site: Site) => true,
    (site: Site, k: nat) =>
      if site == First then Failing(401, "server_error")
      else if site == Refresh then Failing(500, "previous_response_not_found")
      else Failing(500, "server_error"))

  lemma ContinuingFacts()
    ensures HasPrevious(CONTINUING) && !HasCallOutput(CONTINUING)
    ensures forall c :: Fallback(CONTINUING, true, false, c) == Strip(CONTINUING)
    ensures !HasPrevious(Strip(CONTINUING).value)
  {
    TrimEmpty("r");
    assert !Blank("r");
  }

  const HELD := State(CONTINUING, true, false, "a", "t", NO_UPSTREAM, [])

  lemma ToThirdRound()
    ensures Credentialed(Guard(false, CONTINUING, WORST), WORST) == HELD && !IsStrict(Guard(false, CONTINUING, WORST), WORST)
    ensures AfterRefresh(AfterFirst(HELD, Sse, WORST), Sse, WORST) ==
            State(CONTINUING, true, false, "a", "u", Failing(500, "previous_response_not_found"),
                  [Round(Plan(CONTINUING, "a", "t"), 3), Round(Plan(CONTINUING, "a", "u"), 3)])
  {
    ContinuingFacts();
    FailingIsRetried(401, "server_error");
    FailingIsRetried(500, "previous_response_not_found");
    ExecutedThrice(HELD, First, PlanOf(HELD), WORST, Failing(401, "server_error"));
    var refreshed := AfterFirst(HELD, Sse, WORST).(token := "u");
    ExecutedThrice(refreshed, Refresh, PlanOf(refreshed), WORST, Failing(500, "previous_response_not_found"));
  }

  lemma ThirdRound(s: State)
    requires s.body == CONTINUING && s.continuation && !s.callOutput && s.account == "a" && |s.rounds| == 2
    requires s.upstream == Failing(500, "previous_response_not_found")
    ensures var e := AfterStrip(s, Sse, WORST);
            && e.account == "a" && !e.continuation && e.upstream == Failing(500, "server_error")
            && |e.rounds| == 3 && e.rounds[..2] == s.rounds && e.rounds[2].attempts == 3
  {
    ContinuingFacts();
    FailingIsRetried(500, "previous_response_not_found");
    FailingIsRetried(500, "server_error");
    var r := Rebodied(s, Strip(CONTINUING).value);
    ExecutedThrice(r, Stripped, PlanOf(r), WORST, Failing(500, "server_error"));
  }

  lemma FourthRound(s: State)
    requires !s.continuation && s.account == "a" && |s.rounds| == 3 && s.upstream == Failing(500, "server_error")
    ensures var e := AfterFailover(s, Sse, WORST);
            |e.rounds| == 4 && e.rounds[..3] == s.rounds && e.rounds[3].attempts == 3
  {
    FailingIsRetried(500, "server_error");
    assert NormalizeCode("server_error", "") == "server_error" by {
      ResolvedCodeIsNormal(Failing(500, "server_error"));
    }
    assert MarksExhausted(s.upstream, "a", true);
    var r := Rebodied(s.(account := "b", token := "t"), s.body);
    ExecutedThrice(r, Failover, PlanOf(r), WORST, Failing(500, "server_error"));
  }

  lemma LastTwoRounds(s: State)
    requires s.body == CONTINUING && s.continuation && !s.callOutput && s.account == "a" && |s.rounds| == 2
    requires s.upstream == Failing(500, "previous_response_not_found")
    requires s.rounds[0].attempts == s.rounds[1].attempts == 3
    ensures Executions(AfterFailover(AfterStrip(s, Sse, WORST), Sse, WORST).rounds) == 12
  {
    ThirdRound(s);
    var s3 := AfterStrip(s, Sse, WORST);
    FourthRound(s3);
    Counted(s.rounds, s3.rounds, AfterFailover(s3, Sse, WORST).rounds);
  }

  lemma FourRounds()
    ensures Executions(Recovered(HELD, false, Sse, WORST).rounds) == 12
  {
    ToThirdRound();
    var s2 := AfterRefresh(AfterFirst(HELD, Sse, WORST), Sse, WORST);
    NotBridged(s2);
    LastTwoRounds(s2);
  }

  lemma NotBridged(s: State)
    ensures AfterBridge(s, false, Sse, WORST) == s
  {
  }

  /** A request that meets a refused token, a lost response and a failing locked account is tried twelve times. */
  lemma TwelveExecutionsHappen()
    ensures Plausible(WORST) && Executions(Flow(Sse, V1Responses, CONTINUING, WORST).rounds) == 12
  {
    ToThirdRound();
    FourRounds();
  }

  lemma Counted(two: seq<Round>, three: seq<Round>, four: seq<Round>)
    requires |two| == 2 && two[0].attempts == two[1].attempts == 3
    requires |three| == 3 && three[..2] == two && three[2].attempts == 3
    requires |four| == 4 && four[..3] == three && four[3].attempts == 3
    ensures Executions(four) == 12
  {
    assert Executions(two[..1]) == 3;
    assert Executions(two) == 6;
    assert Executions(three) == 9;
  }
}
