/** The `/route` handler and the handler of its runtime-authorization denials. */
module RouteHandler {
  import opened Wrappers
  import opened AuthorizationContract
  import opened Routing
  import opened PolicyReload
  import opened ReplayGuard
  import opened Verifier
  import opened RuntimeViolation
  import Limiter = RateLimiter

  /** The parsed body, the credentials and the clock readings of one request. */
  datatype Ask = Ask(
    request: RouteRequest, explain: bool, authorization: Option<Envelope>,
    apiKey: Option<string>, clientHost: Option<string>, limiterNow: real, verifyNow: int, reach: Reach)

  datatype Answer =
    | RateLimited
    | Unauthorized
    | Denied(denial: Denial)
    | NotRouted(outcome: RouteOutcome)
    | Decided(outcome: RouteOutcome)

  /** What the verifier holds when a request reaches it. */
  datatype VerifierView = VerifierView(
    cfg: Config, crypto: Crypto, snapshots: map<string, Snapshot>, guard: Guard, store: map<string, int>)

  /** What a request meets: the limiter's answer, the configured keys, and the verifier if there is one. */
  datatype World = World(allowed: bool, apiKeys: map<string, string>, required: bool, verifier: Option<VerifierView>)

  /** The facts about a request that its denial evidence is built from. */
  datatype Evidence = Evidence(
    request: RouteRequest, authorization: Option<Envelope>, verified: bool, selected: Option<string>)

  function LimiterKey(ask: Ask): string {
    (if ask.clientHost.Some? then ask.clientHost.value else "unknown") + ":" + ask.request.agentName
  }

  function HostOf(ask: Ask): string {
    match ask.clientHost
    case None => "unknown"
    case Some(host) => host
  }

  /** One address continues the other, by what the other's agent name starts with. */
  predicate Continues(shorter: Ask, longer: Ask, x: string) {
    && HostOf(longer) == HostOf(shorter) + ":" + x
    && shorter.request.agentName == x + ":" + longer.request.agentName
  }

  lemma SharedBudget(shorter: Ask, longer: Ask)
    requires LimiterKey(shorter) == LimiterKey(longer) && |HostOf(shorter)| < |HostOf(longer)|
    ensures exists x :: Continues(shorter, longer, x)
  {
    var host, key := HostOf(longer), LimiterKey(longer);
    var n := |HostOf(shorter)|;
    assert host == key[..|host|] && HostOf(shorter) == key[..n];
    assert key[n] == ':' && key[|host|] == ':';
    var x := host[n + 1..];
    assert host == HostOf(shorter) + ":" + x;
    assert shorter.request.agentName == key[n + 1..] == x + ":" + longer.request.agentName;
    assert Continues(shorter, longer, x);
  }

  /** Two callers share a budget exactly when address and agent are equal, or the address of one continues that
  of the other by what the other's agent name starts with. */
  lemma LimiterKeysExactly(a: Ask, b: Ask)
    ensures LimiterKey(a) == LimiterKey(b) <==>
              || (HostOf(a) == HostOf(b) && a.request.agentName == b.request.agentName)
              || (exists x :: Continues(a, b, x))
              || (exists x :: Continues(b, a, x))
  {
    assert LimiterKey(a) == HostOf(a) + ":" + a.request.agentName;
    assert LimiterKey(b) == HostOf(b) + ":" + b.request.agentName;
    if LimiterKey(a) == LimiterKey(b) {
      if |HostOf(a)| < |HostOf(b)| {
        SharedBudget(a, b);
      } else if |HostOf(b)| < |HostOf(a)| {
        SharedBudget(b, a);
      } else {
        assert HostOf(a) == LimiterKey(a)[..|HostOf(a)|] && HostOf(b) == LimiterKey(b)[..|HostOf(b)|];
        assert a.request.agentName == LimiterKey(a)[|HostOf(a)| + 1..];
        assert b.request.agentName == LimiterKey(b)[|HostOf(b)| + 1..];
      }
    }
    if x :| Continues(a, b, x) {
      ContinuesShares(a, b, x);
    }
    if x :| Continues(b, a, x) {
      ContinuesShares(b, a, x);
    }
  }

  lemma ContinuesShares(shorter: Ask, longer: Ask, x: string)
    requires Continues(shorter, longer, x)
    ensures LimiterKey(shorter) == LimiterKey(longer)
  {
    assert LimiterKey(longer) == HostOf(shorter) + ":" + x + ":" + longer.request.agentName;
  }

  /** Agent names without a colon give distinct callers distinct budgets. */
  lemma PlainNamesHaveOwnBudgets(a: Ask, b: Ask)
    requires ':' !in a.request.agentName && ':' !in b.request.agentName
    ensures LimiterKey(a) == LimiterKey(b) <==>
              HostOf(a) == HostOf(b) && a.request.agentName == b.request.agentName
  {
    LimiterKeysExactly(a, b);
    if x :| Continues(a, b, x) {
      ContinuesByColon(a, b, x);
    }
    if x :| Continues(b, a, x) {
      ContinuesByColon(b, a, x);
    }
  }

  lemma ContinuesByColon(shorter: Ask, longer: Ask, x: string)
    requires Continues(shorter, longer, x)
    ensures ':' in shorter.request.agentName
  {
    assert shorter.request.agentName[|x|] == ':';
  }

  /** Agent "3:bot" at one address shares the budget of agent "bot" at another. */
  lemma CallersShareBudget(ask: Ask)
    ensures var a := ask.(clientHost := Some("1::2"), request := ask.request.(agentName := "3:bot"));
            var b := ask.(clientHost := Some("1::2:3"), request := ask.request.(agentName := "bot"));
            LimiterKey(a) == LimiterKey(b)
  {
    var a := ask.(clientHost := Some("1::2"), request := ask.request.(agentName := "3:bot"));
    var b := ask.(clientHost := Some("1::2:3"), request := ask.request.(agentName := "bot"));
    ContinuesShares(a, b, "3");
  }

  predicate Authenticated(apiKeys: map<string, string>, agentName: string, apiKey: Option<string>) {
    agentName in apiKeys && apiKey == Some(apiKeys[agentName])
  }

  /** The verifier's result for the presented authorization. */
  function Checked(v: VerifierView, ask: Ask): Result<Verified, Denial>
    requires ask.authorization.Some?
  {
    VerifyResult(v.cfg, v.crypto, v.snapshots, v.guard, v.store, ask.authorization.value, ask.request,
                 Instant(ask.verifyNow, true), ask.reach)
  }

  /** Outcome of the authorization gate: nothing to verify, or a verified authorization, or a denial. */
  function Gate(required: bool, verifier: Option<VerifierView>, ask: Ask): Result<Option<Verified>, Denial> {
    if required then
      if ask.authorization.None? then Failure(Denial(RuntimeAuthorizationRequired, false))
      else if verifier.None? then Failure(Denial(RuntimeAuthorizationUnavailable, false))
      else
        var result := Checked(verifier.value, ask);
        if result.Success? then Success(Some(result.value)) else Failure(result.error)
    else if ask.authorization.Some? then Failure(Denial(RuntimeAuthorizationNotConfigured, false))
    else Success(None)
  }

  /** What the gate leaves in the replay store. */
  function StoreAfterGate(required: bool, v: VerifierView, ask: Ask): map<string, int> {
    if required && ask.authorization.Some?
    then StoreAfterCall(v.cfg, v.crypto, v.snapshots, v.guard, v.store, ask.authorization.value, ask.request,
                        Instant(ask.verifyNow, true), ask.reach)
    else v.store
  }

  /** What the handler leaves in the replay store: a refused request never gets to the gate. */
  function StoreAfterRequest(w: World, ask: Ask): map<string, int>
    requires w.verifier.Some?
  {
    if w.allowed && Authenticated(w.apiKeys, ask.request.agentName, ask.apiKey)
    then StoreAfterGate(w.required, w.verifier.value, ask) else w.verifier.value.store
  }

  /** The answers that only a request past the gate gets. */
  predicate PastTheGate(answer: Answer) {
    || answer.Decided? || answer.NotRouted?
    || (answer.Denied? && answer.denial.code in MODEL_SCOPE_CODES)
  }

  /** The answer once routing has decided. */
  function Respond(verified: Option<Verified>, outcome: RouteOutcome): Answer {
    if !outcome.Routed? then NotRouted(outcome)
    else if verified.None? then Decided(outcome)
    else
      var denied := SelectedModelDenial(verified.value.envelope.claims.scope, outcome.selected);
      if denied.Some? then Denied(Denial(denied.value, false)) else Decided(outcome)
  }

  /** The answer and the evidence of a request that passed the gate, on the policy it captured. */
  ghost predicate DecidedAnswer(ask: Ask, policy: RoutingPolicy, provider: AvailabilityProvider,
                                verified: Option<Verified>, answer: Answer, evidence: Evidence)
  {
    exists outcome ::
      && Decides(policy, provider, ask.request, ask.explain, outcome)
      && answer == Respond(verified, outcome)
      && evidence == Evidence(ask.request, ask.authorization, verified.Some?,
                              if verified.Some? && outcome.Routed? then Some(outcome.selected) else None)
  }

  /** The answer and the evidence of an authenticated request. */
  ghost predicate GatedAnswer(required: bool, verifier: Option<VerifierView>, ask: Ask, policy: RoutingPolicy,
                              provider: AvailabilityProvider, answer: Answer, evidence: Evidence) {
    var gate := Gate(required, verifier, ask);
    if gate.Failure? then
      answer == Denied(gate.error) && evidence == Evidence(ask.request, ask.authorization, false, None)
    else DecidedAnswer(ask, policy, provider, gate.value, answer, evidence)
  }

  /** The handler's answer and the evidence it leaves. */
  ghost predicate Answers(w: World, ask: Ask, policy: RoutingPolicy, provider: AvailabilityProvider,
                          answer: Answer, evidence: Evidence) {
    if !w.allowed then answer == RateLimited && evidence == Evidence(ask.request, ask.authorization, false, None)
    else if !Authenticated(w.apiKeys, ask.request.agentName, ask.apiKey) then
      answer == Unauthorized && evidence == Evidence(ask.request, ask.authorization, false, None)
    else GatedAnswer(w.required, w.verifier, ask, policy, provider, answer, evidence)
  }

  class RequestState {
    var evidence: Option<Evidence>

    constructor ()
      ensures evidence.None?
    {
      evidence := None;
    }
  }

  class RouterApp {
    const required: bool
    const apiKeys: map<string, string>
    const limiter: Limiter.InMemoryRateLimiter
    const verifier: RuntimeAuthorizationVerifier?
    const app: AppState

    constructor (required: bool, apiKeys: map<string, string>, limiter: Limiter.InMemoryRateLimiter,
                 verifier: RuntimeAuthorizationVerifier?, app: AppState)
      ensures this.required == required && this.apiKeys == apiKeys
      ensures this.limiter == limiter && this.verifier == verifier && this.app == app
    {
      this.required, this.apiKeys, this.limiter, this.verifier, this.app := required, apiKeys, limiter, verifier, app;
    }

    function GuardFootprint(): set<object> {
      if verifier == null then {} else verifier.guard.Footprint()
    }

    ghost predicate Valid()
      reads this, limiter, GuardFootprint()
    {
      && limiter.Valid()
      && (verifier != null ==> verifier.guard.Valid() && UniqueKids(verifier.cfg.keySet.keys))
    }

    function View(): Option<VerifierView>
      reads GuardFootprint(), if verifier != null then {verifier.control} else {}
    {
      if verifier == null then None
      else Some(VerifierView(verifier.cfg, verifier.crypto, verifier.control.snapshots,
                             verifier.guard.Kind(), verifier.guard.Store()))
    }

    ghost predicate Allows(ask: Ask)
      reads limiter
    {
      Limiter.Admits(limiter.config, limiter.history, Limiter.Call(LimiterKey(ask), ask.limiterNow))
    }

    /** The presented authorization's identifier is in the replay store. */
    predicate Spent(ask: Ask)
      reads GuardFootprint()
    {
      && verifier != null && ask.authorization.Some?
      && KeyOf(verifier.guard.Kind(), ask.authorization.value.claims.authorizationId) in verifier.guard.Store()
    }

    /** What a request meets on arrival. */
    ghost function Meets(ask: Ask): World
      reads limiter, GuardFootprint(), if verifier != null then {verifier.control} else {}
    {
      World(Allows(ask), apiKeys, required, View())
    }

    /** What nothing but the guard and Governance changes. */
    twostate lemma ViewKept()
      requires verifier != null ==> unchanged(verifier.control)
      requires verifier != null && verifier.guard.LocalGuard? ==> unchanged(verifier.guard.local)
      requires verifier != null && verifier.guard.SharedGuard? ==> unchanged(verifier.guard.shared.keyspace)
      ensures View() == old(View())
    {
    }

    method WithinRate(ask: Ask) returns (allowed: bool)
      requires limiter.Valid()
      modifies limiter
      ensures limiter.Valid() && allowed == old(Allows(ask))
    {
      allowed := limiter.Allow(LimiterKey(ask), ask.limiterNow);
    }

    method RunVerifier(ask: Ask) returns (result: Result<Verified, Denial>)
      requires Valid() && verifier != null && ask.authorization.Some?
      modifies GuardFootprint()
      ensures Valid() && result == Checked(old(View()).value, ask)
      ensures required ==> verifier.guard.Store() == StoreAfterGate(required, old(View()).value, ask)
      ensures result.Success? ==> Spent(ask)
    {
      var effects;
      result, effects := verifier.Verify(ask.authorization.value, ask.request, Instant(ask.verifyNow, true), ask.reach);
    }

    /** The gate: nothing to verify, a verified and consumed authorization, or a denial. */
    method Authorize(ask: Ask) returns (gate: Result<Option<Verified>, Denial>)
      requires Valid()
      modifies GuardFootprint()
      ensures Valid()
      ensures gate == Gate(required, old(View()), ask)
      ensures verifier != null ==> verifier.guard.Store() == StoreAfterGate(required, old(View()).value, ask)
      ensures gate.Success? && gate.value.Some? ==> verifier != null && Spent(ask)
    {
      if required {
        if ask.authorization.None? {
          return Failure(Denial(RuntimeAuthorizationRequired, false));
        }
        if verifier == null {
          return Failure(Denial(RuntimeAuthorizationUnavailable, false));
        }
        var result := RunVerifier(ask);
        return if result.Success? then Success(Some(result.value)) else Failure(result.error);
      }
      if ask.authorization.Some? {
        return Failure(Denial(RuntimeAuthorizationNotConfigured, false));
      }
      return Success(None);
    }

    /** Routing, and the check of the selected group against the signed scope. */
    method Decide(ask: Ask, useCase: RouteModelUseCase, state: RequestState, verified: Option<Verified>)
      returns (answer: Answer)
      requires verified.Some? ==> verifier != null
      modifies state
      ensures state.evidence.Some?
      ensures verifier != null ==> verifier.guard.Store() == old(verifier.guard.Store())
      ensures DecidedAnswer(ask, useCase.policy, useCase.provider, verified, answer, state.evidence.value)
    {
      state.evidence := Some(Evidence(ask.request, ask.authorization, verified.Some?, None));
      var outcome := useCase.Route(ask.request, ask.explain);
      if !outcome.Routed? {
        return NotRouted(outcome);
      }
      if verified.Some? {
        state.evidence := Some(Evidence(ask.request, ask.authorization, true, Some(outcome.selected)));
        var denied := verifier.RequireSelectedModel(verified.value, outcome.selected);
        if denied.Some? {
          return Denied(Denial(denied.value, false));
        }
      }
      return Decided(outcome);
    }

    /** What follows authentication. */
    method RouteAuthenticated(ask: Ask, useCase: RouteModelUseCase, state: RequestState) returns (answer: Answer)
      requires Valid() && state.evidence == Some(Evidence(ask.request, ask.authorization, false, None))
      modifies state, GuardFootprint()
      ensures Valid() && state.evidence.Some?
      ensures GatedAnswer(required, old(View()), ask, useCase.policy, useCase.provider, answer, state.evidence.value)
      ensures verifier != null ==> verifier.guard.Store() == StoreAfterGate(required, old(View()).value, ask)
      ensures required && PastTheGate(answer) ==> Spent(ask)
    {
      ghost var view := View();
      var gate := Authorize(ask);
      if gate.Failure? {
        GateDenials(required, view, ask);
        return Denied(gate.error);
      }
      answer := Decide(ask, useCase, state, gate.value);
    }

    /** `useCase` is the one the request captured when it started. */
    method Route(ask: Ask, useCase: RouteModelUseCase, state: RequestState) returns (answer: Answer)
      requires Valid()
      modifies state, limiter, GuardFootprint()
      ensures Valid() && state.evidence.Some?
      ensures Answers(old(Meets(ask)), ask, useCase.policy, useCase.provider, answer, state.evidence.value)
      ensures verifier != null ==> verifier.guard.Store() == StoreAfterRequest(old(Meets(ask)), ask)
      ensures required && PastTheGate(answer) ==> Spent(ask)
      ensures answer.RateLimited? <==> !old(Allows(ask))
      ensures answer.Unauthorized? <==>
                old(Allows(ask))
                && !(ask.request.agentName in apiKeys && ask.apiKey == Some(apiKeys[ask.request.agentName]))
    {
      state.evidence := Some(Evidence(ask.request, ask.authorization, false, None));
      var allowed := WithinRate(ask);
      if !allowed {
        return RateLimited;
      }
      if !Authenticated(apiKeys, ask.request.agentName, ask.apiKey) {
        return Unauthorized;
      }
      ViewKept();
      answer := RouteAuthenticated(ask, useCase, state);
    }

    /** The handler of runtime-authorization denials. */
    function HandleDenial(state: RequestState, denial: Denial, h: Hashing, o: Origin)
      : (violation: Option<Result<ViolationEnvelope, ValidationError>>)
      reads state
      ensures violation.None? <==> state.evidence.None?
      ensures state.evidence.Some? ==> Reported(state.evidence.value, denial, h, o, violation.value)
    {
      if state.evidence.None? then None
      else
        var e, verified := state.evidence.value, ReportedVerified(state.evidence.value, denial);
        BuildsExactly(h, o, denial.code, e.request, e.authorization, verified, e.selected);
        Some(BuildRuntimeViolation(h, o, denial.code, e.request, e.authorization, verified, e.selected))
    }

    /** One request, from the use case it captures to its answer and evidence. */
    method Serve(ask: Ask, state: RequestState, h: Hashing, o: Origin)
      returns (answer: Answer, violation: Option<Result<ViolationEnvelope, ValidationError>>)
      requires Valid() && app.Valid()
      modifies state, limiter, GuardFootprint()
      ensures Valid()
      ensures answer.Denied? <==> violation.Some?
      ensures answer.Denied? ==>
                ValidDenial(old(Meets(ask)), ask, old(app.useCase).policy, old(app.useCase).provider,
                            answer.denial, h, o, violation.value)
      ensures required && answer.Decided? ==>
                AuthorizedDecision(old(Meets(ask)), ask, old(app.useCase).policy, old(app.useCase).provider,
                                   answer.outcome)
      ensures verifier != null ==> verifier.guard.Store() == StoreAfterRequest(old(Meets(ask)), ask)
      ensures required && PastTheGate(answer) ==> Spent(ask)
    {
      ghost var w := Meets(ask);
      var useCase := app.GetRouteModelUseCase();
      ghost var reader := app.reader;
      answer := Route(ask, useCase, state);
      violation := None;
      if answer.Denied? {
        violation := HandleDenial(state, answer.denial, h, o);
        DenialsAreValid(w, ask, useCase.policy, useCase.provider, answer, state.evidence.value, h, o, violation.value);
      } else if required && answer.Decided? {
        DecisionIsAuthorized(w, ask, reader, useCase.policy, useCase.provider, answer, state.evidence.value);
      }
    }
  }

  // ---------------------------------------------------------------------------------------------
  // Denials leave valid evidence
  // ---------------------------------------------------------------------------------------------

  lemma PureDenialCodes(cfg: Config, crypto: Crypto, e: Envelope, r: RouteRequest, now: Instant)
    ensures var denial := PureDenial(cfg, crypto, e, r, now);
            denial.Some? ==> denial.value !in MODEL_SCOPE_CODES
  {
    StageOrder(cfg, crypto, e, r, now);
  }

  /** What a denial at the gate can say. */
  lemma GateDenials(required: bool, verifier: Option<VerifierView>, ask: Ask)
    requires Gate(required, verifier, ask).Failure?
    ensures var denial := Gate(required, verifier, ask).error;
            && denial.code !in MODEL_SCOPE_CODES
            && (ask.authorization.None? ==> denial == Denial(RuntimeAuthorizationRequired, false))
            && (denial.authorizationVerified ==>
                  && ask.authorization.Some? && verifier.Some?
                  && PureStagesPass(verifier.value, ask))
  {
    if required && ask.authorization.Some? && verifier.Some? {
      var v := verifier.value;
      PureDenialCodes(v.cfg, v.crypto, ask.authorization.value, ask.request, Instant(ask.verifyNow, true));
    }
  }

  function PresentedBy(ask: Ask): Presentation
    requires ask.authorization.Some?
  {
    Presented(ask.authorization.value, Instant(ask.verifyNow, true), ask.reach)
  }

  predicate PureStagesPass(v: VerifierView, ask: Ask)
    requires ask.authorization.Some?
  {
    PureDenial(v.cfg, v.crypto, ask.authorization.value, ask.request, Instant(ask.verifyNow, true)).None?
  }

  /** Whether the exception handler reports the authorization as verified. */
  predicate ReportedVerified(evidence: Evidence, denial: Denial) {
    evidence.verified || denial.authorizationVerified
  }

  /** Every denial leaves facts that both validators accept. */
  lemma DenialsAreConsistent(w: World, ask: Ask, policy: RoutingPolicy, provider: AvailabilityProvider,
                             answer: Answer, evidence: Evidence)
    requires Answers(w, ask, policy, provider, answer, evidence) && answer.Denied?
    ensures evidence.request == ask.request && evidence.authorization == ask.authorization
    ensures Consistent(answer.denial.code, ask.authorization.Some?, ReportedVerified(evidence, answer.denial),
                       evidence.selected)
  {
    var gate := Gate(w.required, w.verifier, ask);
    if gate.Failure? {
      GateDenials(w.required, w.verifier, ask);
    } else {
      SelectedModelCodes(ask, policy, provider, gate.value, answer, evidence);
      GateVerified(w.required, w.verifier, ask);
    }
  }

  lemma SelectedModelCodes(ask: Ask, policy: RoutingPolicy, provider: AvailabilityProvider, verified: Option<Verified>,
                           answer: Answer, evidence: Evidence)
    requires DecidedAnswer(ask, policy, provider, verified, answer, evidence) && answer.Denied?
    ensures verified.Some? && answer.denial.code in MODEL_SCOPE_CODES && evidence.verified && evidence.selected.Some?
  {
  }

  lemma GateVerified(required: bool, verifier: Option<VerifierView>, ask: Ask)
    requires Gate(required, verifier, ask).Success? && Gate(required, verifier, ask).value.Some?
    ensures ask.authorization.Some? && verifier.Some? && PureStagesPass(verifier.value, ask)
    ensures Gate(required, verifier, ask).value.value.envelope == ask.authorization.value
    ensures var v, claims := verifier.value, ask.authorization.value.claims;
            && (v.cfg.controlConfigured ==> Permits(v.snapshots, claims.subject.agentId, claims.subject.agentVersion))
            && Finds(v.guard, v.store, PresentedBy(ask)).Fresh?
  {
    var v, claims := verifier.value, ask.authorization.value.claims;
    EnforcePermits(v.snapshots, claims.subject.agentId, claims.subject.agentVersion, ask.reach.control);
  }

  /** The evidence built from what a handler left: built exactly when that is consistent, then valid and
  reporting the denial. */
  predicate Reported(e: Evidence, denial: Denial, h: Hashing, o: Origin,
                     violation: Result<ViolationEnvelope, ValidationError>) {
    && (violation.Success? <==>
          Consistent(denial.code, e.authorization.Some?, ReportedVerified(e, denial), e.selected))
    && (violation.Success? ==>
          && ValidEnvelope(h, violation.value)
          && CarriesOrigin(violation.value.event, o)
          && ReportsDenial(h, violation.value.event, denial.code, e.request, e.authorization,
                           ReportedVerified(e, denial), e.selected))
  }

  /** The group a denial reports: the routed one for a model-scope code, none for any other. */
  ghost predicate ReportedGroup(policy: RoutingPolicy, provider: AvailabilityProvider, ask: Ask, code: DenialCode,
                                group: Option<string>) {
    if code in MODEL_SCOPE_CODES then
      exists outcome ::
        Decides(policy, provider, ask.request, ask.explain, outcome) && outcome.Routed?
          && group == Some(outcome.selected)
    else group == None
  }

  /** The denial comes with evidence that both validators accept; it reports this denial of this request, the
  routed group exactly for a model-scope denial, and an authorization as verified exactly for a model-scope or
  a control denial, so only if it passed every pure stage. */
  ghost predicate ValidDenial(w: World, ask: Ask, policy: RoutingPolicy, provider: AvailabilityProvider, denial: Denial,
                              h: Hashing, o: Origin, violation: Result<ViolationEnvelope, ValidationError>) {
    && violation.Success? && ValidEnvelope(h, violation.value)
    && var event := violation.value.event;
       && ReportedGroup(policy, provider, ask, denial.code, event.selectedModelGroup)
       && CarriesOrigin(event, o)
       && ReportsDenial(h, event, denial.code, ask.request, ask.authorization,
                        denial.authorizationVerified || denial.code in MODEL_SCOPE_CODES, event.selectedModelGroup)
       && (event.authorization.state.TrustVerified? ==>
             ask.authorization.Some? && w.verifier.Some? && PureStagesPass(w.verifier.value, ask))
  }

  lemma EvidenceOfDenial(w: World, ask: Ask, policy: RoutingPolicy, provider: AvailabilityProvider,
                         answer: Answer, evidence: Evidence)
    requires Answers(w, ask, policy, provider, answer, evidence) && answer.Denied?
    ensures evidence.verified <==> answer.denial.code in MODEL_SCOPE_CODES
    ensures ReportedGroup(policy, provider, ask, answer.denial.code, evidence.selected)
  {
    if Gate(w.required, w.verifier, ask).Failure? {
      GateDenials(w.required, w.verifier, ask);
    } else {
      SelectedModelCodes(ask, policy, provider, Gate(w.required, w.verifier, ask).value, answer, evidence);
    }
  }

  lemma DenialsAreValid(w: World, ask: Ask, policy: RoutingPolicy, provider: AvailabilityProvider, answer: Answer,
                        evidence: Evidence, h: Hashing, o: Origin,
                        violation: Result<ViolationEnvelope, ValidationError>)
    requires Answers(w, ask, policy, provider, answer, evidence) && answer.Denied?
    requires Reported(evidence, answer.denial, h, o, violation)
    ensures ValidDenial(w, ask, policy, provider, answer.denial, h, o, violation)
  {
    DenialsAreConsistent(w, ask, policy, provider, answer, evidence);
    EvidenceOfDenial(w, ask, policy, provider, answer, evidence);
    if ReportedVerified(evidence, answer.denial) {
      VerifiedMeansStagesPassed(w, ask, policy, provider, answer, evidence);
    }
  }

  /** A denial is reported as verified only for an authorization that passed every stage through
  provenance. */
  lemma VerifiedMeansStagesPassed(w: World, ask: Ask, policy: RoutingPolicy, provider: AvailabilityProvider,
                                  answer: Answer, evidence: Evidence)
    requires Answers(w, ask, policy, provider, answer, evidence) && answer.Denied?
    requires ReportedVerified(evidence, answer.denial)
    ensures ask.authorization.Some? && w.verifier.Some? && PureStagesPass(w.verifier.value, ask)
  {
    if Gate(w.required, w.verifier, ask).Failure? {
      GateDenials(w.required, w.verifier, ask);
    } else {
      SelectedModelCodes(ask, policy, provider, Gate(w.required, w.verifier, ask).value, answer, evidence);
      GateVerified(w.required, w.verifier, ask);
    }
  }

  // ---------------------------------------------------------------------------------------------
  // A decision is authorized end to end
  // ---------------------------------------------------------------------------------------------

  /** A signed entry of the authorization names the group and allows the request's own data class. */
  ghost predicate GroupSigned(e: Envelope, r: RouteRequest, selected: string) {
    exists m :: m in e.claims.scope.models && m.routingGroup == selected && r.dataClassification in m.allowedDataClasses
  }

  /** The group passes all nine constraints for the request. */
  ghost predicate PassesEveryConstraint(policy: RoutingPolicy, provider: AvailabilityProvider, r: RouteRequest,
                                        explain: bool, w: WorkloadRule) {
    && w.modelGroup in policy.modelGroups
    && FirstFailureIs(r, EffectiveProfile(provider, Candidates(policy, w.modelGroup, explain), w.modelGroup), w, None)
  }

  /** The authorization covers this very request, runtime control permits its agent version, and its
  identifier is unspent. */
  ghost predicate Admitted(v: VerifierView, ask: Ask) {
    && ask.authorization.Some?
    && var claims := ask.authorization.value.claims;
       && Authorizes(v.cfg, v.crypto, ask.authorization.value, ask.request, Instant(ask.verifyNow, true))
       && (v.cfg.controlConfigured ==> Permits(v.snapshots, claims.subject.agentId, claims.subject.agentVersion))
       && Finds(v.guard, v.store, PresentedBy(ask)).Fresh?
  }

  /** The outcome selects the group the policy maps the workload to; it passes all nine constraints, and is
  signed for the request's own data class. */
  ghost predicate ScopedSelection(policy: RoutingPolicy, provider: AvailabilityProvider, r: RouteRequest, explain: bool,
                                  e: Envelope, outcome: RouteOutcome) {
    && outcome.Routed? && r.workload in policy.workloads
    && outcome.selected == policy.workloads[r.workload].modelGroup
    && outcome.policyDigest == policy.policyDigest
    && PassesEveryConstraint(policy, provider, r, explain, policy.workloads[r.workload])
    && GroupSigned(e, r, outcome.selected)
  }

  ghost predicate AuthorizedDecision(w: World, ask: Ask, policy: RoutingPolicy, provider: AvailabilityProvider,
                                     outcome: RouteOutcome) {
    && w.verifier.Some? && Admitted(w.verifier.value, ask)
    && ScopedSelection(policy, provider, ask.request, ask.explain, ask.authorization.value, outcome)
  }

  /** With enforcement on and a loaded policy, a returned decision was authorized end to end. */
  lemma DecisionIsAuthorized(w: World, ask: Ask, reader: Reader, policy: RoutingPolicy, provider: AvailabilityProvider,
                             answer: Answer, evidence: Evidence)
    requires Answers(w, ask, policy, provider, answer, evidence) && answer.Decided? && w.required
    requires w.verifier.Some? ==> UniqueKids(w.verifier.value.cfg.keySet.keys)
    requires Loaded(reader, policy)
    ensures AuthorizedDecision(w, ask, policy, provider, answer.outcome)
  {
    var gate := Gate(w.required, w.verifier, ask);
    assert gate.value.Some?;
    GateVerified(w.required, w.verifier, ask);
    var v, e := w.verifier.value, ask.authorization.value;
    PureStagesExactly(v.cfg, v.crypto, e, ask.request, Instant(ask.verifyNow, true));
    LoadedIsSound(reader, policy);
    var outcome :| Decides(policy, provider, ask.request, ask.explain, outcome)
      && answer == Respond(gate.value, outcome);
    SelectionIsScoped(policy, provider, ask.request, ask.explain, e, outcome);
  }

  /** On a policy that declares the mapped group, a routed outcome whose group is in the scope signed for this
  request is a scoped selection. */
  lemma SelectionIsScoped(policy: RoutingPolicy, provider: AvailabilityProvider, r: RouteRequest, explain: bool,
                          e: Envelope, outcome: RouteOutcome)
    requires Decides(policy, provider, r, explain, outcome) && outcome.Routed? && MappingDeclared(policy, r.workload)
    requires RequestFactsMatch(e.claims, r) && SelectedModelDenial(e.claims.scope, outcome.selected).None?
    ensures ScopedSelection(policy, provider, r, explain, e, outcome)
  {
    SelectedModelExactly(e.claims.scope, outcome.selected);
  }

  // ---------------------------------------------------------------------------------------------
  // Which requests spend their identifier
  // ---------------------------------------------------------------------------------------------

  /** A request spends its identifier exactly if it got past the gate, decided or not, or if its consumption
  ran at the shared guard and only the answer was lost. At the process-local guard an identifier that the
  clock skew accepted after its expiry is not even then refused again. */
  lemma RequestSpendsExactly(w: World, ask: Ask, policy: RoutingPolicy, provider: AvailabilityProvider,
                             answer: Answer, evidence: Evidence)
    requires Answers(w, ask, policy, provider, answer, evidence) && w.required
    requires w.verifier.Some? && ask.authorization.Some?
    requires !Finds(w.verifier.value.guard, w.verifier.value.store, PresentedBy(ask)).Replayed?
    ensures var guard := w.verifier.value.guard;
            Finds(guard, StoreAfterRequest(w, ask), PresentedBy(ask)).Replayed? <==>
              || (PastTheGate(answer) && (guard.Shared? || ask.verifyNow < ask.authorization.value.claims.expiresAt))
              || (answer == Denied(Denial(ReplayStoreUnavailable, false))
                  && guard.Shared? && ask.reach.replay == Lost(true))
  {
    if w.allowed && Authenticated(w.apiKeys, ask.request.agentName, ask.apiKey) {
      var v := w.verifier.value;
      GateSpendsExactly(v, ask);
      var gate := Gate(w.required, w.verifier, ask);
      if gate.Failure? {
        GateDenials(w.required, w.verifier, ask);
      } else if answer.Denied? {
        SelectedModelCodes(ask, policy, provider, gate.value, answer, evidence);
      }
    }
  }

  lemma GateSpendsExactly(v: VerifierView, ask: Ask)
    requires ask.authorization.Some? && !Finds(v.guard, v.store, PresentedBy(ask)).Replayed?
    ensures var gate := Gate(true, Some(v), ask);
            Finds(v.guard, StoreAfterGate(true, v, ask), PresentedBy(ask)).Replayed? <==>
              if gate.Success? then v.guard.Shared? || ask.verifyNow < ask.authorization.value.claims.expiresAt
              else gate.error == Denial(ReplayStoreUnavailable, false)
                   && v.guard.Shared? && ask.reach.replay == Lost(true)
  {
    var e, now := ask.authorization.value, Instant(ask.verifyNow, true);
    AcceptedExactly(v.cfg, v.crypto, v.snapshots, v.guard, v.store, e, ask.request, now, ask.reach);
    if Checked(v, ask).Success? {
      AcceptedSpendsExactly(v.cfg, v.crypto, v.snapshots, v.guard, v.store, e, ask.request, now, ask.reach);
    } else {
      DeniedSpendsExactly(v.cfg, v.crypto, v.snapshots, v.guard, v.store, e, ask.request, now, ask.reach);
      UnavailableExactly(v, ask);
    }
  }

  /** The store is reported unavailable exactly when a call reaches the guard and its answer is lost. */
  lemma UnavailableExactly(v: VerifierView, ask: Ask)
    requires ask.authorization.Some?
    ensures Checked(v, ask) == Failure(Denial(ReplayStoreUnavailable, false)) <==>
              && ReachesGuard(v.cfg, v.crypto, v.snapshots, ask.authorization.value, ask.request,
                              Instant(ask.verifyNow, true), ask.reach)
              && !AnswerArrives(v.guard, ask.reach.replay)
  {
    var e, now := ask.authorization.value, Instant(ask.verifyNow, true);
    StageOrder(v.cfg, v.crypto, e, ask.request, now);
    EnforcePermits(v.snapshots, e.claims.subject.agentId, e.claims.subject.agentVersion, ask.reach.control);
  }
}
