/**
  Which plans a responses request sends, in which order and on whose account, read off
  the request and the answers alone.
*/
module OrchestrationMeaning {
  import opened Options
  import opened Sequences
  import opened Json
  import opened RequestBody
  import opened ErrorPolicy
  import opened ErrorMeaning
  import opened Orchestration
  import opened OrchestrationProperties

  // ---------------------------------------------------------------------------
  // The start
  // ---------------------------------------------------------------------------

  /** The bridge remembers another response than the one the body continues. */
  predicate RemembersAnother(body: Json, remembered: Option<string>) {
    HasPrevious(body) && Filled(remembered) && remembered != PreviousResponse(body)
  }

  function Continuing(body: Json, id: string): Json {
    if body.Obj? then Obj(body.fields[PREVIOUS := Str(id)]) else body
  }

  function Freed(body: Json): Json {
    if body.Obj? then Obj(body.fields - {PREVIOUS}) else body
  }

  function FirstFilled(a: Option<string>, b: Option<string>, otherwise: string): string {
    if Filled(a) then a.value else if Filled(b) then b.value else otherwise
  }

  /** What a request starts with, and the account it would rather run on. */
  datatype Start = Start(body: Json, preference: string)

  predicate IsRewritten(codex: bool, raw: Json, a: Answers) {
    codex && RemembersAnother(raw, a.bridgedAtGuard)
  }

  /** The account that holds the earlier response, as far as anybody knows. */
  function Holder(codex: bool, raw: Json, a: Answers): string {
    if !HasPrevious(raw) then ""
    else if IsRewritten(codex, raw, a) then FirstFilled(a.preferredRewritten, a.continuityRewritten, "")
    else FirstFilled(a.preferred, a.continuity, "")
  }

  /** Nobody knows where the earlier response is, and nothing depends on it. */
  predicate IsAdrift(codex: bool, raw: Json, a: Answers) {
    codex && HasPrevious(raw) && Holder(codex, raw, a) == "" && !a.accountFromHeader && !HasCallOutput(raw)
  }

  function StartOf(codex: bool, raw: Json, a: Answers): Start {
    var body := if IsRewritten(codex, raw, a) then Continuing(raw, a.bridgedAtGuard.value) else raw;
    if IsAdrift(codex, raw, a) then Start(Freed(body), a.affinityAccount)
    else Start(body, if Holder(codex, raw, a) != "" then Holder(codex, raw, a) else a.affinityAccount)
  }

  lemma RewrittenKeeps(body: Json, id: string)
    requires HasPrevious(body) && !Blank(id)
    ensures HasPrevious(Continuing(body, id)) && (HasCallOutput(Continuing(body, id)) <==> HasCallOutput(body))
  {
    TrimEmpty(id);
    CallOutputKept(body, Continuing(body, id));
  }

  lemma ReplaceSays(body: Json, remembered: Option<string>)
    ensures ReplaceFromBridge(body, remembered) ==
            if RemembersAnother(body, remembered) then Some(Continuing(body, remembered.value)) else None
  {
  }

  /** The guard, said plainly. */
  lemma GuardSays(codex: bool, raw: Json, a: Answers)
    requires Plausible(a)
    ensures var g, start := Guard(codex, raw, a), StartOf(codex, raw, a);
            && g.body == start.body && Preference(g, a) == start.preference
            && (g.continuation <==> HasPrevious(start.body)) && (g.callOutput <==> IsBound(start.body))
            && (g.continuation <==> HasPrevious(raw) && !IsAdrift(codex, raw, a))
            && (HasCallOutput(start.body) <==> HasCallOutput(raw))
  {
    GuardKeeps(codex, raw, a);
    if codex && HasPrevious(raw) {
      ReplaceSays(raw, a.bridgedAtGuard);
      var body := raw;
      if IsRewritten(codex, raw, a) {
        RewrittenKeeps(raw, a.bridgedAtGuard.value);
        body := Continuing(raw, a.bridgedAtGuard.value);
      }
      StripKeeps(body);
      CallOutputKept(body, Freed(body));
    }
  }

  // ---------------------------------------------------------------------------
  // The rounds
  // ---------------------------------------------------------------------------

  /** What the upstream says in the end when asked at a place. */
  function Told(site: Site, t: Transport, a: Answers): Upstream {
    Answer(ResultsAt(site, a), LastAt(site, t, a))
  }

  /** What makes a plan be sent once more as it is; over a WebSocket an incomplete answer does not. */
  predicate IsSentAgain(t: Transport, u: Upstream) {
    || (&& !SaysQuota(u) && !SaysRate(u)
        && (if u.status < 400 then FirstCode(Errors(u.events)) == "server_error"
            else u.status == 500 || (u.errorCode != "" && Code(u.errorCode) == "server_error")))
    || (t != Websocket && (CodeOf(u) == "stream_incomplete" || CodeOf(u) == "upstream_incomplete"))
  }

  lemma RuleSays(t: Transport, u: Upstream)
    ensures RetryRule(t)(u) <==> IsSentAgain(t, u)
  {
    RetriedSays(u);
  }

  /** How often a plan is sent: until an answer is not to be sent again, three times at most. */
  lemma AttemptsSay(site: Site, t: Transport, a: Answers)
    ensures var n := LastAt(site, t, a);
            && n <= 2 && (forall k: nat | k < n :: IsSentAgain(t, Answer(ResultsAt(site, a), k)))
            && (n == 2 || !IsSentAgain(t, Answer(ResultsAt(site, a), n)))
  {
    var n, again := LastAt(site, t, a), Again(ResultsAt(site, a), RetryRule(t));
    forall k: nat
      ensures again(k) <==> IsSentAgain(t, Answer(ResultsAt(site, a), k))
    {
      RuleSays(t, Answer(ResultsAt(site, a), k));
    }
    assert n == LastAttempt(again, 2, 0);
  }

  function RoundAt(site: Site, body: Json, c: Credentials, t: Transport, a: Answers): Round {
    Round(Plan(body, c.account, c.token), LastAt(site, t, a) + 1)
  }

  predicate LostResponse(u: Upstream) {
    CodeOf(u) == "previous_response_not_found"
  }

  /** The account is to be given up. */
  predicate IsExhausted(u: Upstream, a: Answers) {
    || SaysQuota(u) || SaysRate(u)
    || (u.status >= 500 && a.inLockPool
        && (CodeOf(u) == "upstream_unavailable" || CodeOf(u) == "upstream_error" || CodeOf(u) == "server_error"))
  }

  /** A body that continues nothing: as it is if it does not, else rebuilt from local context, else freed. */
  function Fresh(body: Json, context: Context): Json {
    if !HasPrevious(body) then body
    else if RebuildWithLocalContext(body, context).Some? then RebuildWithLocalContext(body, context).value
    else Freed(body)
  }

  /** What is sent first, and as whom. */
  datatype Sending = Sending(body: Json, credentials: Credentials)

  function FirstSending(codex: bool, raw: Json, a: Answers): Sending {
    var start := StartOf(codex, raw, a);
    var nobody := Credentials(a.affinityAccount, "");
    if a.credentials.Some? then Sending(start.body, a.credentials.value)
    else if HasPrevious(start.body) && start.preference != "" && !a.accountFromHeader && !HasCallOutput(start.body) then
      Sending(Fresh(start.body, a.context(First)), if a.otherCredentials.Some? then a.otherCredentials.value else nobody)
    else Sending(start.body, nobody)
  }

  /** A token was refused that can be refreshed. */
  predicate IsRefreshed(c: Credentials, t: Transport, a: Answers) {
    var u := Told(First, t, a);
    u.status == 401 && !u.deactivatedWords && c.account != "" && a.refreshed(c.account).Some?
  }

  function Refreshed(c: Credentials, t: Transport, a: Answers): Credentials {
    if IsRefreshed(c, t, a) then a.refreshed(c.account).value else c
  }

  /** The four rounds that may follow the first, and what was said last before each. */
  predicate HasRefreshRound(s: Sending, t: Transport, a: Answers) {
    IsRefreshed(s.credentials, t, a) && a.builds(Refresh)
  }

  function SaidBeforeBridge(s: Sending, t: Transport, a: Answers): Upstream {
    if HasRefreshRound(s, t, a) then Told(Refresh, t, a) else Told(First, t, a)
  }

  predicate HasBridgeRound(s: Sending, codex: bool, t: Transport, a: Answers) {
    && codex && IsBound(s.body) && LostResponse(SaidBeforeBridge(s, t, a))
    && RemembersAnother(s.body, a.bridgedAtRetry) && a.builds(Bridge)
  }

  function SaidBeforeStrip(s: Sending, codex: bool, t: Transport, a: Answers): Upstream {
    if HasBridgeRound(s, codex, t, a) then Told(Bridge, t, a) else SaidBeforeBridge(s, t, a)
  }

  predicate HasStrippedRound(s: Sending, codex: bool, t: Transport, a: Answers) {
    HasPrevious(s.body) && !HasCallOutput(s.body) && LostResponse(SaidBeforeStrip(s, codex, t, a)) && a.builds(Stripped)
  }

  function SaidBeforeFailover(s: Sending, codex: bool, t: Transport, a: Answers): Upstream {
    if HasStrippedRound(s, codex, t, a) then Told(Stripped, t, a) else SaidBeforeStrip(s, codex, t, a)
  }

  predicate HasFailoverRound(s: Sending, codex: bool, t: Transport, a: Answers) {
    && Refreshed(s.credentials, t, a).account != "" && IsExhausted(SaidBeforeFailover(s, codex, t, a), a)
    && !a.accountFromHeader && !IsBound(s.body) && a.failoverCredentials.Some? && a.builds(Failover)
  }

  function BodyBeforeFailover(s: Sending, codex: bool, t: Transport, a: Answers): Json {
    if HasStrippedRound(s, codex, t, a) then Fresh(s.body, a.context(Stripped)) else s.body
  }

  function OneIf(c: bool, r: Round): seq<Round> {
    if c then [r] else []
  }

  /** The rounds up to the failover, all as the refreshed account but the first. */
  function EarlierRounds(s: Sending, codex: bool, t: Transport, a: Answers): seq<Round> {
    var c := Refreshed(s.credentials, t, a);
    var another := if a.bridgedAtRetry.Some? then a.bridgedAtRetry.value else "";
    [RoundAt(First, s.body, s.credentials, t, a)]
    + OneIf(HasRefreshRound(s, t, a), RoundAt(Refresh, s.body, c, t, a))
    + OneIf(HasBridgeRound(s, codex, t, a), RoundAt(Bridge, Continuing(s.body, another), c, t, a))
    + OneIf(HasStrippedRound(s, codex, t, a), RoundAt(Stripped, Fresh(s.body, a.context(Stripped)), c, t, a))
  }

  function FailoverRound(s: Sending, codex: bool, t: Transport, a: Answers): seq<Round> {
    if HasFailoverRound(s, codex, t, a)
    then [RoundAt(Failover, Fresh(BodyBeforeFailover(s, codex, t, a), a.context(Failover)), a.failoverCredentials.value, t, a)]
    else []
  }

  function LastSaid(s: Sending, codex: bool, t: Transport, a: Answers): Upstream {
    if HasFailoverRound(s, codex, t, a) then Told(Failover, t, a) else SaidBeforeFailover(s, codex, t, a)
  }

  // ---------------------------------------------------------------------------
  // The flow sends them
  // ---------------------------------------------------------------------------

  lemma FallbackSays(body: Json, context: Context)
    ensures Fallback(body, HasPrevious(body), IsBound(body), context) ==
            if IsBound(body) then None else Some(Fresh(body, context))
  {
  }

  lemma CodeSays(u: Upstream)
    ensures ResolvedCode(u) == CodeOf(u) && NormalizeCode(CodeOf(u), "") == CodeOf(u)
  {
    DetailsSay(u);
    ResolvedCodeIsNormal(u);
  }

  lemma FreshContinuesNothing(body: Json, context: Context)
    requires !IsBound(body)
    ensures !HasPrevious(Fresh(body, context))
  {
    FallbackKeeps(body, context);
    FallbackSays(body, context);
  }

  lemma FirstSays(codex: bool, raw: Json, a: Answers)
    requires Plausible(a)
    ensures var s, first := Credentialed(Guard(codex, raw, a), a), FirstSending(codex, raw, a);
            && s.body == first.body && s.account == first.credentials.account && s.token == first.credentials.token
            && FlagsTrackBody(s) && s.rounds == []
  {
    var g := Guard(codex, raw, a);
    GuardSays(codex, raw, a);
    CredentialedKeeps(codex, raw, a);
    FallbackSays(g.body, a.context(First));
  }

  /** A state of the flow: where it stands in the rounds above. */
  ghost predicate StandsAt(s: State, body: Json, c: Credentials, said: Upstream, rounds: seq<Round>) {
    && s.body == body && FlagsTrackBody(s) && s.account == c.account && s.token == c.token
    && s.upstream == said && s.rounds == rounds
  }

  lemma RefreshSays(s: State, first: Sending, t: Transport, a: Answers)
    requires StandsAt(s, first.body, first.credentials, Told(First, t, a), [RoundAt(First, first.body, first.credentials, t, a)])
    ensures var c := Refreshed(first.credentials, t, a);
            StandsAt(AfterRefresh(s, t, a), first.body, c, SaidBeforeBridge(first, t, a),
                     s.rounds + OneIf(HasRefreshRound(first, t, a), RoundAt(Refresh, first.body, c, t, a)))
  {
    Units(s.rounds);
  }

  lemma BridgeSays(s: State, first: Sending, c: Credentials, codex: bool, t: Transport, a: Answers)
    requires StandsAt(s, first.body, c, SaidBeforeBridge(first, t, a), s.rounds)
    ensures var another := if a.bridgedAtRetry.Some? then a.bridgedAtRetry.value else "";
            StandsAt(AfterBridge(s, codex, t, a), first.body, c, SaidBeforeStrip(first, codex, t, a),
                     s.rounds + OneIf(HasBridgeRound(first, codex, t, a), RoundAt(Bridge, Continuing(s.body, another), c, t, a)))
  {
    ReplaceSays(s.body, a.bridgedAtRetry);
    CodeSays(s.upstream);
    Units(s.rounds);
  }

  lemma StripSays(s: State, first: Sending, c: Credentials, codex: bool, t: Transport, a: Answers)
    requires StandsAt(s, first.body, c, SaidBeforeStrip(first, codex, t, a), s.rounds)
    ensures StandsAt(AfterStrip(s, t, a), BodyBeforeFailover(first, codex, t, a), c, SaidBeforeFailover(first, codex, t, a),
                     s.rounds + OneIf(HasStrippedRound(first, codex, t, a),
                                      RoundAt(Stripped, Fresh(s.body, a.context(Stripped)), c, t, a)))
  {
    FallbackSays(s.body, a.context(Stripped));
    CodeSays(s.upstream);
    Units(s.rounds);
  }

  lemma MarksSays(u: Upstream, account: string, a: Answers)
    ensures MarksExhausted(u, account, a.inLockPool) <==> account != "" && IsExhausted(u, a)
  {
    ExhaustedSays(u);
    CodeSays(u);
  }

  lemma StillBound(first: Sending, codex: bool, t: Transport, a: Answers)
    ensures IsBound(BodyBeforeFailover(first, codex, t, a)) <==> IsBound(first.body)
  {
    if HasStrippedRound(first, codex, t, a) {
      FreshContinuesNothing(first.body, a.context(Stripped));
    }
  }

  predicate FailsOver(s: State, a: Answers) {
    && s.account != "" && IsExhausted(s.upstream, a) && !a.accountFromHeader && !IsBound(s.body)
    && a.failoverCredentials.Some? && a.builds(Failover)
  }

  lemma FailoverStage(s: State, t: Transport, a: Answers)
    requires FlagsTrackBody(s)
    ensures var e := AfterFailover(s, t, a);
            if FailsOver(s, a) then
              && e.rounds == s.rounds + [RoundAt(Failover, Fresh(s.body, a.context(Failover)), a.failoverCredentials.value, t, a)]
              && e.upstream == Told(Failover, t, a)
            else e.rounds == s.rounds + [] && e.upstream == s.upstream
  {
    FallbackSays(s.body, a.context(Failover));
    MarksSays(s.upstream, s.account, a);
    Units(s.rounds);
  }

  lemma FailoverSays(s: State, first: Sending, codex: bool, t: Transport, a: Answers)
    requires StandsAt(s, BodyBeforeFailover(first, codex, t, a), Refreshed(first.credentials, t, a),
                      SaidBeforeFailover(first, codex, t, a), s.rounds)
    ensures var e := AfterFailover(s, t, a);
            e.rounds == s.rounds + FailoverRound(first, codex, t, a) && e.upstream == LastSaid(first, codex, t, a)
  {
    FailoverStage(s, t, a);
    StillBound(first, codex, t, a);
  }

  lemma RecoveredSays(s: State, first: Sending, codex: bool, t: Transport, a: Answers)
    requires s.body == first.body && FlagsTrackBody(s) && s.rounds == []
    requires s.account == first.credentials.account && s.token == first.credentials.token
    ensures var e := Recovered(s, codex, t, a);
            && e.rounds == EarlierRounds(first, codex, t, a) + FailoverRound(first, codex, t, a)
            && e.upstream == LastSaid(first, codex, t, a)
  {
    var c := Refreshed(first.credentials, t, a);
    var s1 := AfterFirst(s, t, a);
    Units([RoundAt(First, first.body, first.credentials, t, a)]);
    RefreshSays(s1, first, t, a);
    var s2 := AfterRefresh(s1, t, a);
    BridgeSays(s2, first, c, codex, t, a);
    var s3 := AfterBridge(s2, codex, t, a);
    StripSays(s3, first, c, codex, t, a);
    FailoverSays(AfterStrip(s3, t, a), first, codex, t, a);
  }

  /** Whether a request is turned away before anything is sent, and how. */
  function Refusal(route: Route, raw: Json, a: Answers): Option<int> {
    var codex := route == CodexResponses;
    var start := StartOf(codex, raw, a);
    if route == OtherRoute then Some(404)
    else if HasPrevious(start.body) && start.preference != "" && a.accountKnown
            && FirstSending(codex, raw, a).credentials.token == "" then Some(409)
    else if !a.builds(First) then Some(400)
    else None
  }

  /** Every request: what is refused, what is sent in which order and as whom, and what is answered. */
  lemma FlowSays(t: Transport, route: Route, raw: Json, a: Answers)
    requires Plausible(a)
    ensures var codex, refusal := route == CodexResponses, Refusal(route, raw, a);
            var first := FirstSending(codex, raw, a);
            Flow(t, route, raw, a) ==
            if refusal.Some? then Served(Refused(refusal.value), [])
            else Served(Answered(LastSaid(first, codex, t, a)),
                        EarlierRounds(first, codex, t, a) + FailoverRound(first, codex, t, a))
  {
    if route != OtherRoute {
      var codex := route == CodexResponses;
      GuardSays(codex, raw, a);
      FirstSays(codex, raw, a);
      RecoveredSays(Credentialed(Guard(codex, raw, a), a), FirstSending(codex, raw, a), codex, t, a);
    }
  }

  // ---------------------------------------------------------------------------
  // On whose account
  // ---------------------------------------------------------------------------

  predicate IsSentAs(r: Round, c: Credentials) {
    r.plan.account == c.account && r.plan.token == c.token
  }

  lemma EarlierAreSentAs(first: Sending, codex: bool, t: Transport, a: Answers, i: nat)
    requires i < |EarlierRounds(first, codex, t, a)|
    ensures IsSentAs(EarlierRounds(first, codex, t, a)[i],
                     if i == 0 then first.credentials else Refreshed(first.credentials, t, a))
  {
  }

  /**
    Who a request is sent as: first as the credentials chosen, then, once a token was
    refused, as the refreshed ones; and last, if and only if that account is given up for
    another, as the failover credentials, with a body that continues nothing.
  */
  lemma SentAs(t: Transport, route: Route, raw: Json, a: Answers, i: nat)
    requires Plausible(a) && i < |Flow(t, route, raw, a).rounds|
    ensures var codex, rounds := route == CodexResponses, Flow(t, route, raw, a).rounds;
            var first := FirstSending(codex, raw, a);
            if i == |rounds| - 1 && HasFailoverRound(first, codex, t, a) then
              && i > 0 && a.failoverCredentials.Some? && IsSentAs(rounds[i], a.failoverCredentials.value)
              && !HasPrevious(rounds[i].plan.body)
            else IsSentAs(rounds[i], if i == 0 then first.credentials else Refreshed(first.credentials, t, a))
  {
    var codex := route == CodexResponses;
    var first := FirstSending(codex, raw, a);
    FlowSays(t, route, raw, a);
    var n := |EarlierRounds(first, codex, t, a)|;
    if i < n {
      EarlierAreSentAs(first, codex, t, a, i);
    } else {
      StillBound(first, codex, t, a);
      FreshContinuesNothing(BodyBeforeFailover(first, codex, t, a), a.context(Failover));
    }
  }
}
