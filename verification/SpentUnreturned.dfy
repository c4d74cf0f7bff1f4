/** Two requests that are denied with their identifier spent: one whose selected group is not signed, one whose
consumption ran but whose answer was lost. */
module SpentUnreturned {
  import opened Wrappers
  import opened Vocabulary
  import opened Utf8
  import opened AuthorizationContract
  import opened Routing
  import opened ReplayGuard
  import opened Verifier
  import opened RouteHandler
  import opened RuntimeViolation

  const PROVENANCE := PolicyProvenance("p", "1", "d", "c", "1", "e")

  const SCOPE := Scope(
    TierLow, Public, A0Information, [AuthorizedModel("m", 1, "1", "other", "r", [Public])], [], [], 1, [])

  const CLAIMS := Claims(
    "id", "governance", ["router"], 10, 10, 100, Subject("n", "s", 1, "agent-id", 1, "r"),
    RequestBinding("flow", "task", "work", 0, 0, false, 1, 0), SCOPE, "digest", PROVENANCE)

  const REQUEST := RouteRequest(10, "flow", "task", "agent", "work", Low, Public, 0, 0, false, 1, 0.0)

  const CONFIG := Config(
    KeySet(1, [TrustedKey("kid", ActiveKey, "public", 0, 1000)]), "governance", "router",
    map["agent" := "agent-id"], PROVENANCE, false, 0)

  const PROFILE := ModelGroupProfile({Public}, {Low}, false, false, 0, 0, 0.0, 0.0, true, {}, false)

  const POLICY := RoutingPolicy("p", "1", "d", map["small" := PROFILE], map["work" := WorkloadRule("small", false)])

  function AcceptAll(): Crypto {
    Crypto((k: string, s: string, b: Bytes) => true, (p: Protected, c: Claims) => [])
  }

  function View(): VerifierView {
    VerifierView(CONFIG, AcceptAll(), map[], Shared("replay:"), map[])
  }

  function AskWith(delivery: Delivery): Ask {
    Ask(REQUEST, false, Some(Envelope(Protected("kid"), CLAIMS, "signature")), None, None, 0.0, 50,
        Reach(true, delivery, 50))
  }

  lemma StagesPass(delivery: Delivery)
    ensures PureStagesPass(View(), AskWith(delivery))
  {
    StageOrder(CONFIG, AcceptAll(), AskWith(delivery).authorization.value, REQUEST, Instant(50, true));
    RequestBindingExactly(CLAIMS, REQUEST);
    assert CONFIG.audience == CLAIMS.audience[0];
    assert Resolve(CONFIG.keySet.keys, "kid") == Some(CONFIG.keySet.keys[0]);
  }

  lemma NoTokensNoCost(p: ModelGroupProfile)
    ensures p.EstimatedCost(0, 0) == 0.0
  {
    assert TokenCost(0, p.inputCostUsdPerMillionTokens) == 0.0;
    assert TokenCost(0, p.outputCostUsdPerMillionTokens) == 0.0;
  }

  /** A request for no tokens passes wherever its classes, latency and agent are allowed. */
  lemma NoTokensPass(r: RouteRequest, p: ModelGroupProfile, w: WorkloadRule)
    requires r.dataClassification in p.authorizedDataClassifications && r.riskLevel in p.authorizedRiskLevels
    requires !r.structuredOutputRequired && !w.requiresToolCalling && p.available && p.allowedAgents == {}
    requires r.contextTokensEstimated == r.maxOutputTokensEstimated == 0 <= p.maxContextTokens
    requires r.maxCostUsd >= 0.0 && p.typicalLatencyMs <= r.maxLatencyMs
    ensures FirstFailureFrom(r, p, w, 0) == None
  {
    NoTokensNoCost(p);
    PassesAllNine(r, p, w);
  }

  lemma SmallIsAvailable()
    ensures EffectiveProfile(StaticAvailability(), map["small" := PROFILE], "small") == PROFILE
  {
    assert Declared(map["small" := PROFILE])["small"];
  }

  lemma SelectsSmall()
    ensures RouteOf(POLICY, StaticAvailability(), REQUEST, false) == Routed("small", [], "d")
  {
    NoTokensPass(REQUEST, PROFILE, WorkloadRule("small", false));
    SmallIsAvailable();
    assert Candidates(POLICY, "small", false) == map["small" := PROFILE];
    var workload := WorkloadRule("small", false);
    assert FailureOf(StaticAvailability(), map["small" := PROFILE], REQUEST, workload, "small") == None;
  }

  /** Nothing was lost, the request is denied after routing, and its identifier is refused from then on. */
  lemma ModelScopeDenialSpends()
    ensures var ask := AskWith(Answered);
            var gate := Gate(true, Some(View()), ask);
            && gate.Success?
            && Respond(gate.value, RouteOf(POLICY, StaticAvailability(), ask.request, ask.explain))
               == Denied(Denial(SelectedModelGroupNotAuthorized, false))
            && !Finds(View().guard, View().store, PresentedBy(ask)).Replayed?
            && Finds(View().guard, StoreAfterGate(true, View(), ask), PresentedBy(ask)).Replayed?
  {
    var ask := AskWith(Answered);
    StagesPass(Answered);
    AcceptedExactly(CONFIG, AcceptAll(), map[], View().guard, map[], ask.authorization.value, REQUEST,
                    Instant(50, true), ask.reach);
    GateSpendsExactly(View(), ask);
    SelectsSmall();
    MatchingMembers(SCOPE.models, "small");
    assert Matching(SCOPE.models, "small") == [];
  }

  lemma LostAnswerDenialSpends()
    ensures var ask := AskWith(Lost(true));
            && Gate(true, Some(View()), ask) == Failure(Denial(ReplayStoreUnavailable, false))
            && !Finds(View().guard, View().store, PresentedBy(ask)).Replayed?
            && Finds(View().guard, StoreAfterGate(true, View(), ask), PresentedBy(ask)).Replayed?
  {
    var ask := AskWith(Lost(true));
    StagesPass(Lost(true));
    UnavailableExactly(View(), ask);
    GateSpendsExactly(View(), ask);
  }
}
