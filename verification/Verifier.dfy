/** Verification of one signed authorization against one routing request: seven pure stages in a fixed
order, then the control read, then single-use consumption.

`Crypto.verifies` stands for Ed25519, including the decoding of the signature text. */
module Verifier {
  import opened Wrappers
  import opened Vocabulary
  import opened Utf8
  import opened AuthorizationContract
  import opened Routing
  import opened ReplayGuard

  // ---------------------------------------------------------------------------------------------
  // The trusted key set
  // ---------------------------------------------------------------------------------------------

  datatype KeyStatus = ActiveKey | RetiringKey | RevokedKey

  datatype TrustedKey = TrustedKey(kid: string, status: KeyStatus, publicKey: string, notBefore: int, verifyUntil: int)

  datatype KeySet = KeySet(generation: int, keys: seq<TrustedKey>)

  /** The first key with the identifier. */
  function Resolve(keys: seq<TrustedKey>, kid: string): Option<TrustedKey> {
    if keys == [] then None else if keys[0].kid == kid then Some(keys[0]) else Resolve(keys[1..], kid)
  }

  predicate UniqueKids(keys: seq<TrustedKey>) {
    forall i, j :: 0 <= i < j < |keys| ==> keys[i].kid != keys[j].kid
  }

  predicate WellFormedKey(k: TrustedKey) {
    k.kid != "" && k.notBefore < k.verifyUntil
  }

  datatype InvalidKeySet = InvalidKeySet

  /** A document entry: malformed material, or its decoded key. */
  type KeyEntry = Option<TrustedKey>

  method ParseKeySet(generation: int, entries: seq<KeyEntry>) returns (r: Result<KeySet, InvalidKeySet>)
    ensures r.Success? <==>
              && generation >= 1 && entries != []
              && (forall i :: 0 <= i < |entries| ==>
                    entries[i].Some? && entries[i].value.kid != ""
                    && entries[i].value.notBefore < entries[i].value.verifyUntil)
              && (forall i, j :: 0 <= i < j < |entries| && entries[i].Some? && entries[j].Some? ==>
                    entries[i].value.kid != entries[j].value.kid)
              && (exists i :: 0 <= i < |entries| && entries[i].Some? && entries[i].value.status == ActiveKey)
    ensures r.Success? ==>
              && UniqueKids(r.value.keys) && r.value.generation == generation
              && |r.value.keys| == |entries|
              && forall i :: 0 <= i < |entries| ==> entries[i] == Some(r.value.keys[i])
  {
    if generation < 1 || entries == [] {
      return Failure(InvalidKeySet);
    }
    var keys: seq<TrustedKey> := [];
    var seen: set<string> := {};
    for i := 0 to |entries|
      invariant |keys| == i
      invariant forall j :: 0 <= j < i ==> entries[j] == Some(keys[j]) && WellFormedKey(keys[j])
      invariant forall kid :: kid in seen <==> exists j :: 0 <= j < i && keys[j].kid == kid
      invariant UniqueKids(keys)
    {
      if entries[i].None? || !WellFormedKey(entries[i].value) {
        return Failure(InvalidKeySet);
      }
      var key := entries[i].value;
      if key.kid in seen {
        return Failure(InvalidKeySet);
      }
      seen := seen + {key.kid};
      keys := keys + [key];
    }
    if !exists i :: 0 <= i < |keys| && keys[i].status == ActiveKey {
      return Failure(InvalidKeySet);
    }
    return Success(KeySet(generation, keys));
  }

  /** In a parsed key set an identifier resolves to exactly its key, with no fallback. */
  lemma {:induction false} ResolveExactly(keys: seq<TrustedKey>, kid: string)
    requires UniqueKids(keys)
    ensures forall k :: Resolve(keys, kid) == Some(k) <==> k in keys && k.kid == kid
  {
    if keys != [] {
      ResolveExactly(keys[1..], kid);
      assert keys == [keys[0]] + keys[1..];
      if keys[0].kid == kid {
        forall k | k in keys[1..] ensures k.kid != kid {
          var j :| 0 <= j < |keys[1..]| && keys[1..][j] == k;
          assert keys[j + 1] == k;
        }
      }
    }
  }

  // ---------------------------------------------------------------------------------------------
  // Runtime control
  // ---------------------------------------------------------------------------------------------

  /** `Active` means the kill switch is engaged. */
  datatype ControlState = Inactive | Active

  datatype Snapshot = Snapshot(agentId: string, controlEpoch: nat, state: ControlState, revokedThroughAgentVersion: nat)

  /** What reading the projection gave: nothing trustworthy, or the stored snapshot if there is one. */
  datatype Reading = Unavailable | Found(snapshot: Option<Snapshot>)

  datatype DenialCode =
    | InvalidTime
    | IssuerMismatch | AudienceMismatch | IssuedInFuture | NotYetValid | Expired
    | UnknownKey | KeyRevoked | KeyNotValidForIssueTime | KeyVerificationWindowClosed
    | InvalidSignature
    | RequestCostPrecisionUnsupported | RequestBindingMismatch
    | AgentBindingMismatch
    | GovernancePolicyMismatch
    | RuntimeControlUnavailable | KillSwitchEngaged | RuntimeAuthorizationRevoked
    | ReplayDetected | ReplayStoreFull | ReplayStoreUnavailable
    | SelectedModelGroupNotAuthorized | SelectedModelDataClassNotAuthorized
    | RuntimeAuthorizationRequired | RuntimeAuthorizationUnavailable | RuntimeAuthorizationNotConfigured

  function Enforce(reading: Reading, agentVersion: int): Option<DenialCode> {
    if reading.Unavailable? || reading.snapshot.None? then Some(RuntimeControlUnavailable)
    else if reading.snapshot.value.state.Active? then Some(KillSwitchEngaged)
    else if agentVersion <= reading.snapshot.value.revokedThroughAgentVersion then Some(RuntimeAuthorizationRevoked)
    else None
  }

  predicate Permits(snapshots: map<string, Snapshot>, agentId: string, agentVersion: int) {
    && agentId in snapshots
    && snapshots[agentId].agentId == agentId
    && snapshots[agentId].state.Inactive?
    && snapshots[agentId].revokedThroughAgentVersion < agentVersion
  }

  /** Enforcement lets a call through only on a trustworthy, inactive snapshot whose revocation floor is
  below the signed version. */
  lemma EnforcePermits(snapshots: map<string, Snapshot>, agentId: string, agentVersion: int, reachable: bool)
    ensures Enforce(ReadingOf(snapshots, agentId, reachable), agentVersion).None? <==>
              reachable && Permits(snapshots, agentId, agentVersion)
  {
  }

  /** A projection that cannot be read, is missing or is misfiled is unavailable; then the kill switch, then the
  revocation floor. */
  lemma EnforceExactly(snapshots: map<string, Snapshot>, agentId: string, agentVersion: int, reachable: bool)
    ensures Enforce(ReadingOf(snapshots, agentId, reachable), agentVersion) ==
              if !reachable || agentId !in snapshots || snapshots[agentId].agentId != agentId then
                Some(RuntimeControlUnavailable)
              else match snapshots[agentId]
                case Snapshot(_, _, Active, _) => Some(KillSwitchEngaged)
                case Snapshot(_, _, Inactive, floor) =>
                  if agentVersion <= floor then Some(RuntimeAuthorizationRevoked) else None
  {
  }

  class ControlStore {
    var snapshots: map<string, Snapshot>

    constructor (snapshots: map<string, Snapshot>)
      ensures this.snapshots == snapshots
    {
      this.snapshots := snapshots;
    }

    /** A snapshot is handed out exactly when it can be read and is filed under its own agent; one filed
    under another agent reads like no projection at all, never like a missing snapshot. */
    method Read(agentId: string, reachable: bool) returns (reading: Reading)
      ensures forall s :: reading == Found(Some(s)) <==>
                reachable && agentId in snapshots && snapshots[agentId] == s && s.agentId == agentId
      ensures reading == Found(None) <==> reachable && agentId !in snapshots
    {
      if !reachable {
        return Unavailable;
      }
      if agentId !in snapshots {
        return Found(None);
      }
      var snapshot := snapshots[agentId];
      reading := if snapshot.agentId != agentId then Unavailable else Found(Some(snapshot));
    }
  }

  function ReadingOf(snapshots: map<string, Snapshot>, agentId: string, reachable: bool): Reading {
    if !reachable then Unavailable
    else if agentId !in snapshots then Found(None)
    else if snapshots[agentId].agentId != agentId then Unavailable
    else Found(Some(snapshots[agentId]))
  }

  // ---------------------------------------------------------------------------------------------
  // The pure stages
  // ---------------------------------------------------------------------------------------------

  datatype Config = Config(
    keySet: KeySet, issuer: string, audience: string, agentBindings: map<string, string>,
    expectedPolicy: PolicyProvenance, controlConfigured: bool, clockSkew: nat)

  /** `verifies` is the signature check of a key and a signature over bytes; `signed` are the bytes that an
  envelope is checked over. */
  datatype Crypto = Crypto(verifies: (string, string, Bytes) -> bool, signed: (Protected, Claims) -> Bytes)

  /** The check over the canonical signing bytes, which is the one the service makes. */
  function OverSigningBytes(verifies: (string, string, Bytes) -> bool, iso: int -> string): Crypto {
    Crypto(verifies, (p: Protected, c: Claims) => SigningBytes(p, c, iso))
  }

  /** A verification time and whether it is expressed in UTC. */
  datatype Instant = Instant(micros: int, utc: bool)

  function When(failed: bool, code: DenialCode, otherwise: Option<DenialCode>): Option<DenialCode> {
    if failed then Some(code) else otherwise
  }

  function IdentityAndTime(cfg: Config, claims: Claims, now: int): Option<DenialCode> {
    When(claims.issuer != cfg.issuer, IssuerMismatch,
    When(cfg.audience !in claims.audience, AudienceMismatch,
    When(claims.issuedAt > now + cfg.clockSkew, IssuedInFuture,
    When(claims.notBefore > now + cfg.clockSkew, NotYetValid,
    When(claims.expiresAt <= now - cfg.clockSkew, Expired, None)))))
  }

  function RequireKey(cfg: Config, e: Envelope, now: int): Result<TrustedKey, DenialCode> {
    var found := Resolve(cfg.keySet.keys, e.protected.kid);
    if found.None? then Failure(UnknownKey)
    else
      var key := found.value;
      if key.status == RevokedKey then Failure(KeyRevoked)
      else if !(key.notBefore <= e.claims.issuedAt < key.verifyUntil) then Failure(KeyNotValidForIssueTime)
      else if now - cfg.clockSkew >= key.verifyUntil then Failure(KeyVerificationWindowClosed)
      else Success(key)
  }

  predicate SignatureVerifies(crypto: Crypto, e: Envelope, key: TrustedKey) {
    crypto.verifies(key.publicKey, e.signature, crypto.signed(e.protected, e.claims))
  }

  /** Integer USD micros, when the amount is a whole number of them. */
  function CostMicros(value: real): Option<int> {
    var micros := value * 1000000.0;
    if micros.Floor as real == micros then Some(micros.Floor) else None
  }

  predicate DiffersFromSigned(claims: Claims, r: RouteRequest, costMicros: int) {
    var signed := claims.request;
    || claims.issuedAt != r.requestedAt
    || signed.workflowId != r.workflowId
    || signed.taskId != r.taskId
    || signed.workload != r.workload
    || signed.contextTokensEstimated != r.contextTokensEstimated
    || signed.maxOutputTokensEstimated != r.maxOutputTokensEstimated
    || signed.structuredOutputRequired != r.structuredOutputRequired
    || signed.maxLatencyMs != r.maxLatencyMs
    || signed.maxCostUsdMicros != costMicros
    || TierText(claims.scope.riskTier) != RiskText(r.riskLevel)
    || claims.scope.dataClassification != r.dataClassification
  }

  function RequestBindingStage(claims: Claims, r: RouteRequest): Option<DenialCode> {
    var micros := CostMicros(r.maxCostUsd);
    if micros.None? then Some(RequestCostPrecisionUnsupported)
    else
      if DiffersFromSigned(claims, r, micros.value) then Some(RequestBindingMismatch) else None
  }

  function AgentBindingStage(cfg: Config, claims: Claims, agentName: string): Option<DenialCode> {
    if agentName !in cfg.agentBindings || cfg.agentBindings[agentName] != claims.subject.agentId
    then Some(AgentBindingMismatch) else None
  }

  function PolicyProvenanceStage(cfg: Config, claims: Claims): Option<DenialCode> {
    if claims.policy != cfg.expectedPolicy then Some(GovernancePolicyMismatch) else None
  }

  /** The verdicts of the pure stages, in their fixed order. */
  function Stages(cfg: Config, crypto: Crypto, e: Envelope, r: RouteRequest, now: Instant): seq<Option<DenialCode>> {
    var key := RequireKey(cfg, e, now.micros);
    [ if now.utc then None else Some(InvalidTime),
      IdentityAndTime(cfg, e.claims, now.micros),
      if key.Failure? then Some(key.error) else None,
      if key.Success? && !SignatureVerifies(crypto, e, key.value) then Some(InvalidSignature) else None,
      RequestBindingStage(e.claims, r),
      AgentBindingStage(cfg, e.claims, r.agentName),
      PolicyProvenanceStage(cfg, e.claims) ]
  }

  function FirstDenial(stages: seq<Option<DenialCode>>): Option<DenialCode> {
    if stages == [] then None else if stages[0].Some? then stages[0] else FirstDenial(stages[1..])
  }

  function PureDenial(cfg: Config, crypto: Crypto, e: Envelope, r: RouteRequest, now: Instant): Option<DenialCode> {
    FirstDenial(Stages(cfg, crypto, e, r, now))
  }

  predicate SameLevel(tier: RiskTier, level: RiskLevel) {
    match tier
    case TierLow => level.Low?
    case TierMedium => level.Medium?
    case TierHigh => level.High?
    case TierCritical => level.Critical?
  }

  /** The texts of a tier and a level are equal exactly when they name the same level. */
  lemma SameLevelExactly(tier: RiskTier, level: RiskLevel)
    ensures TierText(tier) == RiskText(level) <==> SameLevel(tier, level)
  {
    TierRoundTrip(RiskText(level), tier);
  }

  /** The eleven facts of the request that the authorization signs. */
  predicate RequestFactsMatch(claims: Claims, r: RouteRequest) {
    && claims.issuedAt == r.requestedAt
    && claims.request.workflowId == r.workflowId
    && claims.request.taskId == r.taskId
    && claims.request.workload == r.workload
    && claims.request.contextTokensEstimated == r.contextTokensEstimated
    && claims.request.maxOutputTokensEstimated == r.maxOutputTokensEstimated
    && claims.request.structuredOutputRequired == r.structuredOutputRequired
    && claims.request.maxLatencyMs == r.maxLatencyMs
    && r.maxCostUsd == claims.request.maxCostUsdMicros as real / 1000000.0
    && SameLevel(claims.scope.riskTier, r.riskLevel)
    && claims.scope.dataClassification == r.dataClassification
  }

  predicate TimesValid(cfg: Config, claims: Claims, now: int) {
    && claims.issuedAt <= now + cfg.clockSkew && claims.notBefore <= now + cfg.clockSkew
    && now - cfg.clockSkew < claims.expiresAt
  }

  /** Some trusted key, in its window, verifies the signature. */
  ghost predicate SignedByTrustedKey(cfg: Config, crypto: Crypto, e: Envelope, now: int) {
    exists key :: key in cfg.keySet.keys && key.kid == e.protected.kid && key.status != RevokedKey
                  && key.notBefore <= e.claims.issuedAt < key.verifyUntil && now - cfg.clockSkew < key.verifyUntil
                  && SignatureVerifies(crypto, e, key)
  }

  ghost predicate Authorizes(cfg: Config, crypto: Crypto, e: Envelope, r: RouteRequest, now: Instant) {
    && now.utc
    && e.claims.issuer == cfg.issuer && cfg.audience in e.claims.audience
    && TimesValid(cfg, e.claims, now.micros)
    && SignedByTrustedKey(cfg, crypto, e, now.micros)
    && RequestFactsMatch(e.claims, r)
    && r.agentName in cfg.agentBindings && cfg.agentBindings[r.agentName] == e.claims.subject.agentId
    && e.claims.policy == cfg.expectedPolicy
  }

  /** A signature that covers an envelope's bytes covers no other header and claims. */
  lemma SignedBytesBind(verifies: (string, string, Bytes) -> bool, iso: int -> string, e: Envelope, f: Envelope)
    requires Injective(iso)
    ensures OverSigningBytes(verifies, iso).signed(e.protected, e.claims) == SigningBytes(e.protected, e.claims, iso)
    ensures var crypto := OverSigningBytes(verifies, iso);
            crypto.signed(e.protected, e.claims) == crypto.signed(f.protected, f.claims) ==>
              e.protected == f.protected && e.claims == f.claims
  {
    if SigningBytes(e.protected, e.claims, iso) == SigningBytes(f.protected, f.claims, iso) {
      SigningBytesInjective(e.protected, e.claims, f.protected, f.claims, iso);
    }
  }

  lemma CostMicrosExactly(value: real, micros: int)
    ensures CostMicros(value) == Some(micros) <==> value == micros as real / 1000000.0
  {
    if value == micros as real / 1000000.0 {
      assert value * 1000000.0 == micros as real;
    }
  }

  lemma RequestBindingExactly(claims: Claims, r: RouteRequest)
    ensures RequestBindingStage(claims, r).None? <==> RequestFactsMatch(claims, r)
  {
    SameLevelExactly(claims.scope.riskTier, r.riskLevel);
    CostMicrosExactly(r.maxCostUsd, claims.request.maxCostUsdMicros);
    var micros := CostMicros(r.maxCostUsd);
    if micros.Some? {
      CostMicrosExactly(r.maxCostUsd, micros.value);
    }
  }

  lemma KeyStagesExactly(cfg: Config, crypto: Crypto, e: Envelope, now: int)
    requires UniqueKids(cfg.keySet.keys)
    ensures SignedByTrustedKey(cfg, crypto, e, now) <==>
              var key := RequireKey(cfg, e, now); key.Success? && SignatureVerifies(crypto, e, key.value)
  {
    ResolveExactly(cfg.keySet.keys, e.protected.kid);
    var found := Resolve(cfg.keySet.keys, e.protected.kid);
    if found.Some? {
      assert found == Some(found.value);
    }
    forall key | key in cfg.keySet.keys && key.kid == e.protected.kid ensures found == Some(key) {}
  }

  lemma FirstDenialNone(stages: seq<Option<DenialCode>>)
    ensures FirstDenial(stages).None? <==> forall i :: 0 <= i < |stages| ==> stages[i].None?
  {
    if stages != [] {
      FirstDenialNone(stages[1..]);
      assert forall i :: 0 <= i < |stages[1..]| ==> stages[1..][i] == stages[i + 1];
    }
  }

  /** Denying at the first failing stage: the stages before it passed. */
  lemma {:induction false} FirstDenialAt(stages: seq<Option<DenialCode>>, i: nat)
    requires i < |stages| && stages[i].Some? && forall j :: 0 <= j < i ==> stages[j].None?
    ensures FirstDenial(stages) == stages[i]
  {
    if i > 0 {
      FirstDenialAt(stages[1..], i - 1);
    }
  }

  lemma FirstOfSeven(a: Option<DenialCode>, b: Option<DenialCode>, c: Option<DenialCode>, d: Option<DenialCode>,
                     e: Option<DenialCode>, f: Option<DenialCode>, g: Option<DenialCode>)
    ensures FirstDenial([a, b, c, d, e, f, g]) ==
              if a.Some? then a else if b.Some? then b else if c.Some? then c else if d.Some? then d
              else if e.Some? then e else if f.Some? then f else g
  {
    var s := [a, b, c, d, e, f, g];
    FirstDenialNone(s);
    if a.Some? { FirstDenialAt(s, 0); }
    else if b.Some? { FirstDenialAt(s, 1); }
    else if c.Some? { FirstDenialAt(s, 2); }
    else if d.Some? { FirstDenialAt(s, 3); }
    else if e.Some? { FirstDenialAt(s, 4); }
    else if f.Some? { FirstDenialAt(s, 5); }
    else if g.Some? { FirstDenialAt(s, 6); }
  }

  lemma StageOrder(cfg: Config, crypto: Crypto, e: Envelope, r: RouteRequest, now: Instant)
    ensures var key := RequireKey(cfg, e, now.micros);
            PureDenial(cfg, crypto, e, r, now) ==
              if !now.utc then Some(InvalidTime)
              else if IdentityAndTime(cfg, e.claims, now.micros).Some? then IdentityAndTime(cfg, e.claims, now.micros)
              else if key.Failure? then Some(key.error)
              else if !SignatureVerifies(crypto, e, key.value) then Some(InvalidSignature)
              else if RequestBindingStage(e.claims, r).Some? then RequestBindingStage(e.claims, r)
              else if AgentBindingStage(cfg, e.claims, r.agentName).Some?
                then AgentBindingStage(cfg, e.claims, r.agentName)
              else PolicyProvenanceStage(cfg, e.claims)
  {
    var s := Stages(cfg, crypto, e, r, now);
    FirstOfSeven(s[0], s[1], s[2], s[3], s[4], s[5], s[6]);
    assert s == [s[0], s[1], s[2], s[3], s[4], s[5], s[6]];
  }

  /** The key set resolves the identifier to this key, or to none. */
  ghost predicate IsKeyOf(cfg: Config, kid: string, key: Option<TrustedKey>) {
    forall k :: key == Some(k) <==> k in cfg.keySet.keys && k.kid == kid
  }

  /** Identity, audience and times, in their order. */
  function IdentityReason(cfg: Config, claims: Claims, now: int): Option<DenialCode> {
    if claims.issuer != cfg.issuer then Some(IssuerMismatch)
    else if cfg.audience !in claims.audience then Some(AudienceMismatch)
    else if claims.issuedAt - cfg.clockSkew > now then Some(IssuedInFuture)
    else if claims.notBefore - cfg.clockSkew > now then Some(NotYetValid)
    else if now >= claims.expiresAt + cfg.clockSkew then Some(Expired)
    else None
  }

  /** The key and the signature, in their order. */
  function KeyReason(cfg: Config, crypto: Crypto, e: Envelope, now: int, key: Option<TrustedKey>): Option<DenialCode> {
    match key
    case None => Some(UnknownKey)
    case Some(k) =>
      if k.status.RevokedKey? then Some(KeyRevoked)
      else if e.claims.issuedAt < k.notBefore || e.claims.issuedAt >= k.verifyUntil then Some(KeyNotValidForIssueTime)
      else if now >= k.verifyUntil + cfg.clockSkew then Some(KeyVerificationWindowClosed)
      else if !crypto.verifies(k.publicKey, e.signature, crypto.signed(e.protected, e.claims)) then
        Some(InvalidSignature)
      else None
  }

  predicate InMicros(value: real, micros: int) { value == micros as real / 1000000.0 }

  /** What is bound to the request, the agent and the policy, in their order. */
  ghost function BindingReason(cfg: Config, e: Envelope, r: RouteRequest): Option<DenialCode> {
    if !(exists micros: int :: InMicros(r.maxCostUsd, micros)) then Some(RequestCostPrecisionUnsupported)
    else if !RequestFactsMatch(e.claims, r) then Some(RequestBindingMismatch)
    else if !(r.agentName in cfg.agentBindings && cfg.agentBindings[r.agentName] == e.claims.subject.agentId) then
      Some(AgentBindingMismatch)
    else if e.claims.policy != cfg.expectedPolicy then Some(GovernancePolicyMismatch)
    else None
  }

  lemma BindingReasonExactly(cfg: Config, e: Envelope, r: RouteRequest)
    ensures BindingReason(cfg, e, r) ==
              if RequestBindingStage(e.claims, r).Some? then RequestBindingStage(e.claims, r)
              else if AgentBindingStage(cfg, e.claims, r.agentName).Some?
                then AgentBindingStage(cfg, e.claims, r.agentName)
              else PolicyProvenanceStage(cfg, e.claims)
  {
    RequestBindingExactly(e.claims, r);
    var micros := CostMicros(r.maxCostUsd);
    if micros.Some? {
      CostMicrosExactly(r.maxCostUsd, micros.value);
      assert InMicros(r.maxCostUsd, micros.value);
    }
    if m: int :| InMicros(r.maxCostUsd, m) {
      CostMicrosExactly(r.maxCostUsd, m);
    }
  }

  lemma KeyReasonExactly(cfg: Config, crypto: Crypto, e: Envelope, now: int, key: Option<TrustedKey>)
    requires UniqueKids(cfg.keySet.keys) && IsKeyOf(cfg, e.protected.kid, key)
    ensures var found := RequireKey(cfg, e, now);
            KeyReason(cfg, crypto, e, now, key) ==
              if found.Failure? then Some(found.error)
              else if !SignatureVerifies(crypto, e, found.value) then Some(InvalidSignature)
              else None
  {
    ResolveExactly(cfg.keySet.keys, e.protected.kid);
    var resolved := Resolve(cfg.keySet.keys, e.protected.kid);
    assert resolved == key by {
      if key.Some? { assert key == Some(key.value); }
      if resolved.Some? { assert resolved == Some(resolved.value); }
    }
  }

  /** The denial of the pure stages, reason by reason, in their order and each under its own code. */
  lemma PureDenialExactly(cfg: Config, crypto: Crypto, e: Envelope, r: RouteRequest, now: Instant,
                          key: Option<TrustedKey>)
    requires UniqueKids(cfg.keySet.keys) && IsKeyOf(cfg, e.protected.kid, key)
    ensures PureDenial(cfg, crypto, e, r, now) ==
              if !now.utc then Some(InvalidTime)
              else if IdentityReason(cfg, e.claims, now.micros).Some? then IdentityReason(cfg, e.claims, now.micros)
              else if KeyReason(cfg, crypto, e, now.micros, key).Some? then
                KeyReason(cfg, crypto, e, now.micros, key)
              else BindingReason(cfg, e, r)
  {
    StageOrder(cfg, crypto, e, r, now);
    KeyReasonExactly(cfg, crypto, e, now.micros, key);
    BindingReasonExactly(cfg, e, r);
  }

  /** The stages pass together exactly when the authorization authorizes this request. */
  lemma PureStagesExactly(cfg: Config, crypto: Crypto, e: Envelope, r: RouteRequest, now: Instant)
    requires UniqueKids(cfg.keySet.keys)
    ensures PureDenial(cfg, crypto, e, r, now).None? <==> Authorizes(cfg, crypto, e, r, now)
  {
    StageOrder(cfg, crypto, e, r, now);
    KeyStagesExactly(cfg, crypto, e, now.micros);
    RequestBindingExactly(e.claims, r);
  }

  // ---------------------------------------------------------------------------------------------
  // Verification with its effects
  // ---------------------------------------------------------------------------------------------

  datatype Verified = Verified(envelope: Envelope, verifiedAt: int, keySetGeneration: int)

  datatype Denial = Denial(code: DenialCode, authorizationVerified: bool)

  datatype Effect = ReadControl(agentId: string) | ConsumeId(authorizationId: string)

  /** No verdict is a replay store that could not be reached. */
  function DenialOf(verdict: Option<Consumption>): Option<DenialCode> {
    match verdict
    case None => Some(ReplayStoreUnavailable)
    case Some(Fresh) => None
    case Some(Replayed) => Some(ReplayDetected)
    case Some(StoreFull) => Some(ReplayStoreFull)
  }

  /** What a call finds outside: whether the control projection can be read, how its consumption is
  delivered, and the replay server's clock then. */
  datatype Reach = Reach(control: bool, replay: Delivery, serverNow: int)

  /** The result of the two effectful stages, once the pure ones have passed. */
  function EffectfulResult(cfg: Config, e: Envelope, now: int, reading: Reading,
                           verdict: Option<Consumption>): Result<Verified, Denial> {
    var control := if cfg.controlConfigured then Enforce(reading, e.claims.subject.agentVersion) else None;
    if control.Some? then Failure(Denial(control.value, true))
    else if DenialOf(verdict).Some? then Failure(Denial(DenialOf(verdict).value, false))
    else Success(Verified(e, now, cfg.keySet.generation))
  }

  /** The first failing stage decides, the pure stages before the effectful ones. */
  function VerifyResult(cfg: Config, crypto: Crypto, snapshots: map<string, Snapshot>, kind: Guard,
                        store: map<string, int>, e: Envelope, r: RouteRequest, now: Instant, reach: Reach)
    : Result<Verified, Denial>
  {
    var denial := PureDenial(cfg, crypto, e, r, now);
    if denial.Some? then Failure(Denial(denial.value, false))
    else
      EffectfulResult(cfg, e, now.micros, ReadingOf(snapshots, e.claims.subject.agentId, reach.control),
                      if AnswerArrives(kind, reach.replay) then Some(Finds(kind, store, Presented(e, now, reach)))
                      else None)
  }

  /** What a call presents to the replay guard. */
  function Presented(e: Envelope, now: Instant, reach: Reach): Presentation {
    Presentation(e.claims.authorizationId, e.claims.expiresAt, now.micros, reach.serverNow)
  }

  /** Whether a call gets as far as the replay guard: the pure stages pass and control permits. */
  predicate ReachesGuard(cfg: Config, crypto: Crypto, snapshots: map<string, Snapshot>,
                         e: Envelope, r: RouteRequest, now: Instant, reach: Reach) {
    && PureDenial(cfg, crypto, e, r, now).None?
    && (cfg.controlConfigured ==>
          reach.control && Permits(snapshots, e.claims.subject.agentId, e.claims.subject.agentVersion))
  }

  /** What a call leaves in the replay store. */
  function StoreAfterCall(cfg: Config, crypto: Crypto, snapshots: map<string, Snapshot>, kind: Guard,
                          store: map<string, int>, e: Envelope, r: RouteRequest, now: Instant,
                          reach: Reach): map<string, int> {
    if ReachesGuard(cfg, crypto, snapshots, e, r, now, reach) && Runs(kind, reach.replay)
    then Leaves(kind, store, Presented(e, now, reach)) else store
  }

  /** Both effects, in their order. */
  function AllEffects(cfg: Config, e: Envelope): seq<Effect> {
    (if cfg.controlConfigured then [ReadControl(e.claims.subject.agentId)] else [])
    + [ConsumeId(e.claims.authorizationId)]
  }

  class RuntimeAuthorizationVerifier {
    const cfg: Config
    const crypto: Crypto
    const guard: GuardRef
    const control: ControlStore

    constructor (cfg: Config, crypto: Crypto, guard: GuardRef, control: ControlStore)
      ensures this.cfg == cfg && this.crypto == crypto && this.guard == guard && this.control == control
    {
      this.cfg, this.crypto, this.guard, this.control := cfg, crypto, guard, control;
    }

    /** The checks that touch no store. */
    method CheckPureStages(e: Envelope, r: RouteRequest, now: Instant) returns (denial: Option<DenialCode>)
      ensures denial == PureDenial(cfg, crypto, e, r, now)
    {
      StageOrder(cfg, crypto, e, r, now);
      if !now.utc {
        return Some(InvalidTime);
      }
      var identity := IdentityAndTime(cfg, e.claims, now.micros);
      if identity.Some? {
        return identity;
      }
      var key := RequireKey(cfg, e, now.micros);
      if key.Failure? {
        return Some(key.error);
      }
      if !SignatureVerifies(crypto, e, key.value) {
        return Some(InvalidSignature);
      }
      var binding := RequestBindingStage(e.claims, r);
      if binding.Some? {
        return binding;
      }
      var agent := AgentBindingStage(cfg, e.claims, r.agentName);
      if agent.Some? {
        return agent;
      }
      var provenance := PolicyProvenanceStage(cfg, e.claims);
      if provenance.Some? {
        return provenance;
      }
      return None;
    }

    /** Read the projection and enforce it: a version passes exactly when the projection permits it. */
    method EnforceControl(agentId: string, agentVersion: int, reachable: bool) returns (denied: Option<DenialCode>)
      ensures denied == Enforce(ReadingOf(control.snapshots, agentId, reachable), agentVersion)
      ensures denied.None? <==> reachable && Permits(control.snapshots, agentId, agentVersion)
    {
      var reading := control.Read(agentId, reachable);
      denied := Enforce(reading, agentVersion);
      EnforcePermits(control.snapshots, agentId, agentVersion, reachable);
    }

    method Verify(e: Envelope, r: RouteRequest, now: Instant, reach: Reach)
      returns (result: Result<Verified, Denial>, effects: seq<Effect>)
      requires guard.Valid()
      modifies guard.Footprint()
      ensures guard.Valid()
      ensures effects ==
                if PureDenial(cfg, crypto, e, r, now).Some? then []
                else if !ReachesGuard(cfg, crypto, control.snapshots, e, r, now, reach)
                then [ReadControl(e.claims.subject.agentId)]
                else AllEffects(cfg, e)
      ensures result ==
                VerifyResult(cfg, crypto, control.snapshots, guard.Kind(), old(guard.Store()), e, r, now, reach)
      ensures guard.Store() ==
                StoreAfterCall(cfg, crypto, control.snapshots, guard.Kind(), old(guard.Store()), e, r, now, reach)
      ensures result.Failure? && result.error.authorizationVerified ==>
                effects == [ReadControl(e.claims.subject.agentId)]
      ensures result.Success? ==>
                && Finds(guard.Kind(), old(guard.Store()), Presented(e, now, reach)).Fresh?
                && KeyOf(guard.Kind(), e.claims.authorizationId) in guard.Store()
      ensures result.Failure? && result.error.code != ReplayStoreUnavailable ==>
                guard.Store().Keys <= old(guard.Store()).Keys
    {
      effects := [];
      var claims := e.claims;
      var denial := CheckPureStages(e, r, now);
      if denial.Some? {
        return Failure(Denial(denial.value, false)), effects;
      }
      if cfg.controlConfigured {
        effects := [ReadControl(claims.subject.agentId)];
        var denied := EnforceControl(claims.subject.agentId, claims.subject.agentVersion, reach.control);
        if denied.Some? {
          return Failure(Denial(denied.value, true)), effects;
        }
      }
      effects := effects + [ConsumeId(claims.authorizationId)];
      GainsExactlyWhenFresh(guard.Kind(), guard.Store(), Presented(e, now, reach));
      var consumption := guard.Consume(Presented(e, now, reach), reach.replay);
      match consumption
      case Some(Fresh) => result := Success(Verified(e, now.micros, cfg.keySet.generation));
      case Some(Replayed) => result := Failure(Denial(ReplayDetected, false));
      case Some(StoreFull) => result := Failure(Denial(ReplayStoreFull, false));
      case None => result := Failure(Denial(ReplayStoreUnavailable, false));
    }

    /** The selected group must be signed, and signed for the request's data class. */
    function RequireSelectedModel(verified: Verified, selected: string): Option<DenialCode> {
      SelectedModelDenial(verified.envelope.claims.scope, selected)
    }
  }

  /** A call is accepted exactly when it reaches the guard and is answered that its identifier is fresh. */
  lemma AcceptedExactly(cfg: Config, crypto: Crypto, snapshots: map<string, Snapshot>, kind: Guard,
                        store: map<string, int>, e: Envelope, r: RouteRequest, now: Instant, reach: Reach)
    ensures VerifyResult(cfg, crypto, snapshots, kind, store, e, r, now, reach).Success? <==>
              && ReachesGuard(cfg, crypto, snapshots, e, r, now, reach)
              && AnswerArrives(kind, reach.replay)
              && Finds(kind, store, Presented(e, now, reach)).Fresh?
  {
    EnforcePermits(snapshots, e.claims.subject.agentId, e.claims.subject.agentVersion, reach.control);
  }

  /** A denied call spends its identifier exactly when its consumption ran at the shared guard and only the
  answer was lost. */
  lemma DeniedSpendsExactly(cfg: Config, crypto: Crypto, snapshots: map<string, Snapshot>, kind: Guard,
                            store: map<string, int>, e: Envelope, r: RouteRequest, now: Instant, reach: Reach)
    requires VerifyResult(cfg, crypto, snapshots, kind, store, e, r, now, reach).Failure?
    requires !Finds(kind, store, Presented(e, now, reach)).Replayed?
    ensures var after := StoreAfterCall(cfg, crypto, snapshots, kind, store, e, r, now, reach);
            Finds(kind, after, Presented(e, now, reach)).Replayed? <==>
              && ReachesGuard(cfg, crypto, snapshots, e, r, now, reach)
              && kind.Shared? && reach.replay == Lost(true)
  {
    AcceptedExactly(cfg, crypto, snapshots, kind, store, e, r, now, reach);
    RefusesExactly(kind, store, Presented(e, now, reach));
  }

  /** An accepted call spends its identifier; at the process-local guard only while it is unexpired, which the
  clock skew allows it not to be. */
  lemma AcceptedSpendsExactly(cfg: Config, crypto: Crypto, snapshots: map<string, Snapshot>, kind: Guard,
                              store: map<string, int>, e: Envelope, r: RouteRequest, now: Instant, reach: Reach)
    requires VerifyResult(cfg, crypto, snapshots, kind, store, e, r, now, reach).Success?
    ensures var after := StoreAfterCall(cfg, crypto, snapshots, kind, store, e, r, now, reach);
            Finds(kind, after, Presented(e, now, reach)).Replayed? <==>
              kind.Shared? || now.micros < e.claims.expiresAt
  {
    AcceptedExactly(cfg, crypto, snapshots, kind, store, e, r, now, reach);
    RefusesExactly(kind, store, Presented(e, now, reach));
  }

  function Matching(models: seq<AuthorizedModel>, group: string): seq<AuthorizedModel> {
    if models == [] then [] else
      (if models[0].routingGroup == group then [models[0]] else []) + Matching(models[1..], group)
  }

  function SelectedModelDenial(scope: Scope, selected: string): Option<DenialCode> {
    var matching := Matching(scope.models, selected);
    if matching == [] then Some(SelectedModelGroupNotAuthorized)
    else if !SomeModelAllows(matching, scope.dataClassification) then Some(SelectedModelDataClassNotAuthorized)
    else None
  }

  lemma {:induction false} MatchingMembers(models: seq<AuthorizedModel>, group: string)
    ensures forall m :: m in Matching(models, group) <==> m in models && m.routingGroup == group
  {
    if models != [] {
      MatchingMembers(models[1..], group);
      assert models == [models[0]] + models[1..];
    }
  }

  /** No signed entry names the group, or none that does allows the data class. */
  lemma SelectedModelReason(scope: Scope, selected: string)
    ensures SelectedModelDenial(scope, selected) ==
              if forall m :: m in scope.models ==> m.routingGroup != selected then
                Some(SelectedModelGroupNotAuthorized)
              else if forall m :: m in scope.models && m.routingGroup == selected ==>
                        scope.dataClassification !in m.allowedDataClasses then
                Some(SelectedModelDataClassNotAuthorized)
              else None
  {
    MatchingMembers(scope.models, selected);
    var matching := Matching(scope.models, selected);
    SelectedModelExactly(scope, selected);
    assert |matching| > 0 ==> matching[0] in matching;
    if m :| m in scope.models && m.routingGroup == selected {
      assert m in matching;
    }
  }

  /** The check passes exactly when one signed entry names the group and allows the data class. */
  lemma SelectedModelExactly(scope: Scope, selected: string)
    ensures SelectedModelDenial(scope, selected).None? <==>
              exists m :: m in scope.models && m.routingGroup == selected
                && scope.dataClassification in m.allowedDataClasses
  {
    MatchingMembers(scope.models, selected);
    var matching := Matching(scope.models, selected);
    if exists m :: m in scope.models && m.routingGroup == selected && scope.dataClassification in m.allowedDataClasses {
      var m :| m in scope.models && m.routingGroup == selected && scope.dataClassification in m.allowedDataClasses;
      assert m in matching;
    }
  }
}
