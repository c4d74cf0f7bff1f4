/** The evidence a runtime-authorization denial leaves: its category, what it says of the
authorization, and the validators that accept or refuse it. */
module RuntimeViolation {
  import opened Wrappers
  import opened Utf8
  import opened CanonicalJson
  import opened AuthorizationContract
  import opened Routing
  import opened Verifier

  datatype Category = AuthorizationCategory | ReplayCategory | RequestBindingCategory | ProvenanceCategory
    | ModelScopeCategory

  const REPLAY_CODES := {ReplayDetected, ReplayStoreFull, ReplayStoreUnavailable}
  const REQUEST_BINDING_CODES := {RequestCostPrecisionUnsupported, RequestBindingMismatch, AgentBindingMismatch}
  const PROVENANCE_CODES := {GovernancePolicyMismatch}
  const MODEL_SCOPE_CODES := {SelectedModelGroupNotAuthorized, SelectedModelDataClassNotAuthorized}

  function ViolationCategory(code: DenialCode): Category {
    if code in REPLAY_CODES then ReplayCategory
    else if code in REQUEST_BINDING_CODES then RequestBindingCategory
    else if code in PROVENANCE_CODES then ProvenanceCategory
    else if code in MODEL_SCOPE_CODES then ModelScopeCategory
    else AuthorizationCategory
  }

  /** The category of every code. */
  lemma CategoryExactly(code: DenialCode)
    ensures ViolationCategory(code) ==
              match code
              case ReplayDetected | ReplayStoreFull | ReplayStoreUnavailable => ReplayCategory
              case RequestCostPrecisionUnsupported | RequestBindingMismatch | AgentBindingMismatch =>
                RequestBindingCategory
              case GovernancePolicyMismatch => ProvenanceCategory
              case SelectedModelGroupNotAuthorized | SelectedModelDataClassNotAuthorized => ModelScopeCategory
              case _ => AuthorizationCategory
  {
  }

  datatype TrustState = Absent | Present | TrustVerified

  datatype AuthorizationContext = AuthorizationContext(
    state: TrustState, authorizationId: Option<string>, keyId: Option<string>,
    signingDigest: Option<string>, scopeDigest: Option<string>)

  datatype RequestContext = RequestContext(workflowId: string, taskId: string, agentName: string, workload: string)

  datatype ViolationEvent = ViolationEvent(
    eventId: string, occurredAt: int, serviceVersion: string, environment: string, correlationId: string,
    category: Category, code: DenialCode, request: RequestContext, authorization: AuthorizationContext,
    selectedModelGroup: Option<string>)

  datatype ViolationEnvelope = ViolationEnvelope(event: ViolationEvent, eventDigest: string)

  // ---------------------------------------------------------------------------------------------
  // Validators
  // ---------------------------------------------------------------------------------------------

  /** An absent authorization carries no identifier, any other carries them all. */
  predicate StateValid(a: AuthorizationContext) {
    if a.state.Absent? then a.authorizationId.None? && a.keyId.None? && a.signingDigest.None? && a.scopeDigest.None?
    else a.authorizationId.Some? && a.keyId.Some? && a.signingDigest.Some? && a.scopeDigest.Some?
  }

  /** Each identifier is there exactly when there was an authorization. */
  lemma StateValidExactly(a: AuthorizationContext)
    ensures StateValid(a) <==>
              forall id :: id in [a.authorizationId, a.keyId, a.signingDigest, a.scopeDigest] ==>
                (id.None? <==> a.state == Absent)
  {
    var ids := [a.authorizationId, a.keyId, a.signingDigest, a.scopeDigest];
    assert ids[0] in ids && ids[1] in ids && ids[2] in ids && ids[3] in ids;
  }

  predicate SemanticsValid(e: ViolationEvent) {
    && !(e.category != AuthorizationCategory && e.authorization.state.Absent?)
    && if e.category.ModelScopeCategory? then e.authorization.state.TrustVerified? && e.selectedModelGroup.Some?
       else e.selectedModelGroup.None?
  }

  // ---------------------------------------------------------------------------------------------
  // The bytes the digest covers
  // ---------------------------------------------------------------------------------------------

  function CategoryText(c: Category): string {
    match c
    case AuthorizationCategory => "authorization"
    case ReplayCategory => "replay"
    case RequestBindingCategory => "request_binding"
    case ProvenanceCategory => "governance_provenance"
    case ModelScopeCategory => "model_scope"
  }

  function StateText(s: TrustState): string {
    match s
    case Absent => "absent"
    case Present => "present"
    case TrustVerified => "verified"
  }

  function CodeText(c: DenialCode): string {
    match c
    case InvalidTime => "invalid_time"
    case IssuerMismatch => "issuer_mismatch"
    case AudienceMismatch => "audience_mismatch"
    case IssuedInFuture => "issued_in_future"
    case NotYetValid => "not_yet_valid"
    case Expired => "expired"
    case UnknownKey => "unknown_key"
    case KeyRevoked => "key_revoked"
    case KeyNotValidForIssueTime => "key_not_valid_for_issue_time"
    case KeyVerificationWindowClosed => "key_verification_window_closed"
    case InvalidSignature => "invalid_signature"
    case RequestCostPrecisionUnsupported => "request_cost_precision_unsupported"
    case RequestBindingMismatch => "request_binding_mismatch"
    case AgentBindingMismatch => "agent_binding_mismatch"
    case GovernancePolicyMismatch => "governance_policy_mismatch"
    case RuntimeControlUnavailable => "runtime_control_unavailable"
    case KillSwitchEngaged => "kill_switch_engaged"
    case RuntimeAuthorizationRevoked => "runtime_authorization_revoked"
    case ReplayDetected => "replay_detected"
    case ReplayStoreFull => "replay_store_full"
    case ReplayStoreUnavailable => "replay_store_unavailable"
    case SelectedModelGroupNotAuthorized => "selected_model_group_not_authorized"
    case SelectedModelDataClassNotAuthorized => "selected_model_data_class_not_authorized"
    case RuntimeAuthorizationRequired => "runtime_authorization_required"
    case RuntimeAuthorizationUnavailable => "runtime_authorization_unavailable"
    case RuntimeAuthorizationNotConfigured => "runtime_authorization_not_configured"
  }

  /** The wire text of a code. */
  predicate Spells(text: string, c: DenialCode) {
    match c
    case InvalidTime => text == "invalid_time"
    case IssuerMismatch => text == "issuer_mismatch"
    case AudienceMismatch => text == "audience_mismatch"
    case IssuedInFuture => text == "issued_in_future"
    case NotYetValid => text == "not_yet_valid"
    case Expired => text == "expired"
    case UnknownKey => text == "unknown_key"
    case KeyRevoked => text == "key_revoked"
    case KeyNotValidForIssueTime => text == "key_not_valid_for_issue_time"
    case KeyVerificationWindowClosed => text == "key_verification_window_closed"
    case InvalidSignature => text == "invalid_signature"
    case RequestCostPrecisionUnsupported => text == "request_cost_precision_unsupported"
    case RequestBindingMismatch => text == "request_binding_mismatch"
    case AgentBindingMismatch => text == "agent_binding_mismatch"
    case GovernancePolicyMismatch => text == "governance_policy_mismatch"
    case RuntimeControlUnavailable => text == "runtime_control_unavailable"
    case KillSwitchEngaged => text == "kill_switch_engaged"
    case RuntimeAuthorizationRevoked => text == "runtime_authorization_revoked"
    case ReplayDetected => text == "replay_detected"
    case ReplayStoreFull => text == "replay_store_full"
    case ReplayStoreUnavailable => text == "replay_store_unavailable"
    case SelectedModelGroupNotAuthorized => text == "selected_model_group_not_authorized"
    case SelectedModelDataClassNotAuthorized => text == "selected_model_data_class_not_authorized"
    case RuntimeAuthorizationRequired => text == "runtime_authorization_required"
    case RuntimeAuthorizationUnavailable => text == "runtime_authorization_unavailable"
    case RuntimeAuthorizationNotConfigured => text == "runtime_authorization_not_configured"
  }

  lemma CodeTextExactly(text: string, c: DenialCode)
    ensures Spells(text, c) <==> text == CodeText(c)
  {
  }

  function ParseCategory(text: string): Option<Category> {
    if text == "authorization" then Some(AuthorizationCategory)
    else if text == "replay" then Some(ReplayCategory)
    else if text == "request_binding" then Some(RequestBindingCategory)
    else if text == "governance_provenance" then Some(ProvenanceCategory)
    else if text == "model_scope" then Some(ModelScopeCategory)
    else None
  }

  function ParseState(text: string): Option<TrustState> {
    if text == "absent" then Some(Absent)
    else if text == "present" then Some(Present)
    else if text == "verified" then Some(TrustVerified)
    else None
  }

  /** Categories and states are written as the texts that read as them. */
  lemma LabelsRoundTrip(text: string, c: Category, s: TrustState)
    ensures ParseCategory(text) == Some(c) <==> text == CategoryText(c)
    ensures ParseState(text) == Some(s) <==> text == StateText(s)
  {
  }

  function OptionalText(o: Option<string>): Value {
    if o.Some? then Text(o.value) else Null
  }

  const REQUEST_CONTEXT_FIELDS := ["workflow_id", "task_id", "agent_name", "workload"]
  const AUTHORIZATION_FIELDS := ["state", "authorization_id", "key_id", "signing_digest", "scope_digest"]
  const EVENT_FIELDS := ["schema_version", "event_id", "occurred_at", "source_service", "service_version",
                         "environment", "correlation_id", "category", "code", "enforcement_action",
                         "request", "authorization", "selected_model_group"]

  function RequestContextValues(r: RequestContext): seq<Value> {
    [Text(r.workflowId), Text(r.taskId), Text(r.agentName), Text(r.workload)]
  }

  function AuthorizationValues(a: AuthorizationContext): seq<Value> {
    [Text(StateText(a.state)), OptionalText(a.authorizationId), OptionalText(a.keyId),
     OptionalText(a.signingDigest), OptionalText(a.scopeDigest)]
  }

  function EventValues(e: ViolationEvent, iso: int -> string): seq<Value> {
    [Text("1.0"), Text(e.eventId), Text(iso(e.occurredAt)), Text("policy-model-router"), Text(e.serviceVersion),
     Text(e.environment), Text(e.correlationId), Text(CategoryText(e.category)), Text(CodeText(e.code)),
     Text("blocked"),
     Dict(Fields(REQUEST_CONTEXT_FIELDS, RequestContextValues(e.request))),
     Dict(Fields(AUTHORIZATION_FIELDS, AuthorizationValues(e.authorization))), OptionalText(e.selectedModelGroup)]
  }

  function EventBytes(e: ViolationEvent, iso: int -> string): Bytes {
    CanonicalBytes(Dict(Fields(EVENT_FIELDS, EventValues(e, iso))))
  }

  /** The length and third character of a code's text, which tell the codes apart. */
  function CodeMark(c: DenialCode): (int, char) {
    match c
    case InvalidTime => (12, 'v')
    case IssuerMismatch => (15, 's')
    case AudienceMismatch => (17, 'd')
    case IssuedInFuture => (16, 's')
    case NotYetValid => (13, 't')
    case Expired => (7, 'p')
    case UnknownKey => (11, 'k')
    case KeyRevoked => (11, 'y')
    case KeyNotValidForIssueTime => (28, 'y')
    case KeyVerificationWindowClosed => (30, 'y')
    case InvalidSignature => (17, 'v')
    case RequestCostPrecisionUnsupported => (34, 'q')
    case RequestBindingMismatch => (24, 'q')
    case AgentBindingMismatch => (22, 'e')
    case GovernancePolicyMismatch => (26, 'v')
    case RuntimeControlUnavailable => (27, 'n')
    case KillSwitchEngaged => (19, 'l')
    case RuntimeAuthorizationRevoked => (29, 'n')
    case ReplayDetected => (15, 'p')
    case ReplayStoreFull => (17, 'p')
    case ReplayStoreUnavailable => (24, 'p')
    case SelectedModelGroupNotAuthorized => (35, 'l')
    case SelectedModelDataClassNotAuthorized => (40, 'l')
    case RuntimeAuthorizationRequired => (30, 'n')
    case RuntimeAuthorizationUnavailable => (33, 'n')
    case RuntimeAuthorizationNotConfigured => (36, 'n')
  }

  /** The codes of the claims and their key. */
  predicate ClaimsCode(c: DenialCode) {
    || c.InvalidTime? || c.IssuerMismatch? || c.AudienceMismatch? || c.IssuedInFuture?
    || c.NotYetValid? || c.Expired? || c.UnknownKey? || c.KeyRevoked?
    || c.KeyNotValidForIssueTime?
  }

  /** The codes of the verification window and the signature. */
  predicate SignatureCode(c: DenialCode) {
    c.KeyVerificationWindowClosed? || c.InvalidSignature?
  }

  /** The codes of the bindings. */
  predicate BindingCode(c: DenialCode) {
    c.RequestCostPrecisionUnsupported? || c.RequestBindingMismatch? || c.AgentBindingMismatch?
  }

  /** The codes of provenance and runtime control. */
  predicate ControlCode(c: DenialCode) {
    || c.GovernancePolicyMismatch? || c.RuntimeControlUnavailable? || c.KillSwitchEngaged?
    || c.RuntimeAuthorizationRevoked?
  }

  /** The codes of the replay guard. */
  predicate ReplayCode(c: DenialCode) {
    c.ReplayDetected? || c.ReplayStoreFull? || c.ReplayStoreUnavailable?
  }

  lemma ClaimsCodeMark(c: DenialCode)
    requires ClaimsCode(c)
    ensures |CodeText(c)| > 2 && CodeMark(c) == (|CodeText(c)|, CodeText(c)[2])
  {
  }

  lemma SignatureCodeMark(c: DenialCode)
    requires SignatureCode(c)
    ensures |CodeText(c)| > 2 && CodeMark(c) == (|CodeText(c)|, CodeText(c)[2])
  {
  }

  lemma BindingCodeMark(c: DenialCode)
    requires BindingCode(c)
    ensures |CodeText(c)| > 2 && CodeMark(c) == (|CodeText(c)|, CodeText(c)[2])
  {
  }

  lemma ControlCodeMark(c: DenialCode)
    requires ControlCode(c)
    ensures |CodeText(c)| > 2 && CodeMark(c) == (|CodeText(c)|, CodeText(c)[2])
  {
  }

  lemma ReplayCodeMark(c: DenialCode)
    requires ReplayCode(c)
    ensures |CodeText(c)| > 2 && CodeMark(c) == (|CodeText(c)|, CodeText(c)[2])
  {
  }

  lemma HandlerCodeMark(c: DenialCode)
    requires !ClaimsCode(c) && !SignatureCode(c) && !BindingCode(c) && !ControlCode(c) && !ReplayCode(c)
    ensures |CodeText(c)| > 2 && CodeMark(c) == (|CodeText(c)|, CodeText(c)[2])
  {
  }

  lemma CodeMarkOfText(c: DenialCode)
    ensures |CodeText(c)| > 2 && CodeMark(c) == (|CodeText(c)|, CodeText(c)[2])
  {
    if ClaimsCode(c) {
      ClaimsCodeMark(c);
    } else if SignatureCode(c) {
      SignatureCodeMark(c);
    } else if BindingCode(c) {
      BindingCodeMark(c);
    } else if ControlCode(c) {
      ControlCodeMark(c);
    } else if ReplayCode(c) {
      ReplayCodeMark(c);
    } else {
      HandlerCodeMark(c);
    }
  }

  lemma CodeMarksDistinct(c: DenialCode, d: DenialCode)
    requires CodeMark(c) == CodeMark(d)
    ensures c == d
  {
  }

  lemma CodeTextsInjective(c: DenialCode, d: DenialCode)
    requires CodeText(c) == CodeText(d)
    ensures c == d
  {
    CodeMarkOfText(c);
    CodeMarkOfText(d);
    CodeMarksDistinct(c, d);
  }

  lemma StateTextsInjective(s: TrustState, t: TrustState)
    requires StateText(s) == StateText(t)
    ensures s == t
  {
    assert |StateText(s)| == |StateText(t)| && StateText(s)[0] == StateText(t)[0];
  }

  lemma CategoryTextsInjective(c: Category, d: Category)
    requires CategoryText(c) == CategoryText(d)
    ensures c == d
  {
    assert |CategoryText(c)| == |CategoryText(d)| && CategoryText(c)[0] == CategoryText(d)[0];
  }

  lemma RequestContextInjective(r: RequestContext, q: RequestContext)
    requires Fields(REQUEST_CONTEXT_FIELDS, RequestContextValues(r)) ==
        Fields(REQUEST_CONTEXT_FIELDS, RequestContextValues(q))
    ensures r == q
  {
    FieldsInjective(REQUEST_CONTEXT_FIELDS, RequestContextValues(r), RequestContextValues(q));
  }

  lemma AuthorizationInjective(a: AuthorizationContext, b: AuthorizationContext)
    requires Fields(AUTHORIZATION_FIELDS, AuthorizationValues(a)) ==
        Fields(AUTHORIZATION_FIELDS, AuthorizationValues(b))
    ensures a == b
  {
    var v, w := AuthorizationValues(a), AuthorizationValues(b);
    FieldsInjective(AUTHORIZATION_FIELDS, v, w);
    assert v[0] == w[0] && v[1] == w[1] && v[2] == w[2] && v[3] == w[3] && v[4] == w[4];
    StateTextsInjective(a.state, b.state);
  }

  lemma EventValuesInjective(e: ViolationEvent, f: ViolationEvent, iso: int -> string)
    requires Injective(iso) && EventValues(e, iso) == EventValues(f, iso)
    ensures e == f
  {
    var v, w := EventValues(e, iso), EventValues(f, iso);
    assert v[1] == w[1] && v[2] == w[2] && v[4] == w[4] && v[5] == w[5] && v[6] == w[6] && v[12] == w[12];
    assert v[7] == w[7] && v[8] == w[8];
    CategoryTextsInjective(e.category, f.category);
    CodeTextsInjective(e.code, f.code);
    assert v[10] == w[10] && v[11] == w[11];
    RequestContextInjective(e.request, f.request);
    AuthorizationInjective(e.authorization, f.authorization);
  }

  lemma RecordBytesInjective(names: seq<string>, v: seq<Value>, w: seq<Value>)
    requires DistinctNames(names) && |names| == |v| == |w|
    requires CanonicalBytes(Dict(Fields(names, v))) == CanonicalBytes(Dict(Fields(names, w)))
    ensures v == w
  {
    CanonicalBytesInjective(Dict(Fields(names, v)), Dict(Fields(names, w)));
    FieldsInjective(names, v, w);
  }

  lemma EventFieldsDistinct()
    ensures DistinctNames(EVENT_FIELDS)
  {
    assert forall i, j :: 0 <= i < j < |EVENT_FIELDS| ==>
      |EVENT_FIELDS[i]| != |EVENT_FIELDS[j]| || EVENT_FIELDS[i][0] != EVENT_FIELDS[j][0]
        || EVENT_FIELDS[i][1] != EVENT_FIELDS[j][1];
  }

  /** The bytes under the digest determine the event, so evidence cannot be altered under them. */
  lemma EventBytesInjective(e: ViolationEvent, f: ViolationEvent, iso: int -> string)
    requires Injective(iso) && EventBytes(e, iso) == EventBytes(f, iso)
    ensures e == f
  {
    EventFieldsDistinct();
    RecordBytesInjective(EVENT_FIELDS, EventValues(e, iso), EventValues(f, iso));
    EventValuesInjective(e, f, iso);
  }

  // ---------------------------------------------------------------------------------------------
  // The layout of the digested object, name by name
  // ---------------------------------------------------------------------------------------------

  predicate IsOptional(v: Option<Value>, o: Option<string>) {
    match o
    case None => v == Some(Null)
    case Some(text) => v == Some(Text(text))
  }

  predicate IsRequestContext(v: Value, r: RequestContext) {
    && Names(v) == {"workflow_id", "task_id", "agent_name", "workload"}
    && At(v, "workflow_id") == Some(Text(r.workflowId))
    && At(v, "task_id") == Some(Text(r.taskId))
    && At(v, "agent_name") == Some(Text(r.agentName))
    && At(v, "workload") == Some(Text(r.workload))
  }

  predicate IsAuthorization(v: Value, a: AuthorizationContext) {
    && Names(v) == {"state", "authorization_id", "key_id", "signing_digest", "scope_digest"}
    && At(v, "state") == Some(Text(StateText(a.state)))
    && IsOptional(At(v, "authorization_id"), a.authorizationId)
    && IsOptional(At(v, "key_id"), a.keyId)
    && IsOptional(At(v, "signing_digest"), a.signingDigest)
    && IsOptional(At(v, "scope_digest"), a.scopeDigest)
  }

  predicate EventOrigin(v: Value, e: ViolationEvent, iso: int -> string) {
    && At(v, "event_id") == Some(Text(e.eventId))
    && At(v, "occurred_at") == Some(Text(iso(e.occurredAt)))
    && At(v, "service_version") == Some(Text(e.serviceVersion))
    && At(v, "environment") == Some(Text(e.environment))
    && At(v, "correlation_id") == Some(Text(e.correlationId))
  }

  predicate EventDenial(v: Value, e: ViolationEvent) {
    && At(v, "category") == Some(Text(CategoryText(e.category)))
    && At(v, "code") == Some(Text(CodeText(e.code)))
    && IsOptional(At(v, "selected_model_group"), e.selectedModelGroup)
  }

  predicate EventConstants(v: Value) {
    && At(v, "schema_version") == Some(Text("1.0"))
    && At(v, "source_service") == Some(Text("policy-model-router"))
    && At(v, "enforcement_action") == Some(Text("blocked"))
  }

  predicate EventRecords(v: Value, e: ViolationEvent) {
    && At(v, "request").Some? && IsRequestContext(At(v, "request").value, e.request)
    && At(v, "authorization").Some? && IsAuthorization(At(v, "authorization").value, e.authorization)
  }

  /** Every fact of the event under its own name, the constants, and nothing else. */
  predicate IsEvent(v: Value, e: ViolationEvent, iso: int -> string) {
    && Names(v) == {"schema_version", "event_id", "occurred_at", "source_service", "service_version",
                    "environment", "correlation_id", "category", "code", "enforcement_action",
                    "request", "authorization", "selected_model_group"}
    && EventOrigin(v, e, iso) && EventDenial(v, e) && EventConstants(v) && EventRecords(v, e)
  }

  lemma RequestContextLookups(v: Value, r: RequestContext)
    requires Carries(v, REQUEST_CONTEXT_FIELDS, RequestContextValues(r))
    requires Names(v) == set k | k in REQUEST_CONTEXT_FIELDS
    ensures IsRequestContext(v, r)
  {
    assert REQUEST_CONTEXT_FIELDS[0] == "workflow_id" && REQUEST_CONTEXT_FIELDS[1] == "task_id"
      && REQUEST_CONTEXT_FIELDS[2] == "agent_name" && REQUEST_CONTEXT_FIELDS[3] == "workload";
  }

  lemma AuthorizationLookups(v: Value, a: AuthorizationContext)
    requires Carries(v, AUTHORIZATION_FIELDS, AuthorizationValues(a))
    requires Names(v) == set k | k in AUTHORIZATION_FIELDS
    ensures IsAuthorization(v, a)
  {
    assert AUTHORIZATION_FIELDS[0] == "state" && AUTHORIZATION_FIELDS[1] == "authorization_id"
      && AUTHORIZATION_FIELDS[2] == "key_id" && AUTHORIZATION_FIELDS[3] == "signing_digest"
      && AUTHORIZATION_FIELDS[4] == "scope_digest";
  }

  lemma EventOriginLookups(v: Value, e: ViolationEvent, iso: int -> string)
    requires Carries(v, EVENT_FIELDS, EventValues(e, iso))
    ensures EventOrigin(v, e, iso)
  {
    assert EVENT_FIELDS[1] == "event_id" && EVENT_FIELDS[2] == "occurred_at"
      && EVENT_FIELDS[4] == "service_version" && EVENT_FIELDS[5] == "environment"
      && EVENT_FIELDS[6] == "correlation_id";
  }

  lemma EventDenialLookups(v: Value, e: ViolationEvent, iso: int -> string)
    requires Carries(v, EVENT_FIELDS, EventValues(e, iso))
    ensures EventDenial(v, e) && EventConstants(v)
  {
    assert EVENT_FIELDS[0] == "schema_version" && EVENT_FIELDS[3] == "source_service"
      && EVENT_FIELDS[9] == "enforcement_action" && EVENT_FIELDS[7] == "category"
      && EVENT_FIELDS[8] == "code" && EVENT_FIELDS[12] == "selected_model_group";
  }

  lemma EventRecordLookups(v: Value, e: ViolationEvent, iso: int -> string)
    requires Carries(v, EVENT_FIELDS, EventValues(e, iso))
    ensures At(v, "request") == Some(Dict(Fields(REQUEST_CONTEXT_FIELDS, RequestContextValues(e.request))))
    ensures At(v, "authorization") == Some(Dict(Fields(AUTHORIZATION_FIELDS, AuthorizationValues(e.authorization))))
  {
    assert EVENT_FIELDS[10] == "request" && EVENT_FIELDS[11] == "authorization";
  }

  lemma EventRecordsLayout(v: Value, e: ViolationEvent, iso: int -> string)
    requires Carries(v, EVENT_FIELDS, EventValues(e, iso))
    ensures EventRecords(v, e)
  {
    EventRecordLookups(v, e, iso);
    FieldsCarry(REQUEST_CONTEXT_FIELDS, RequestContextValues(e.request));
    RequestContextLookups(At(v, "request").value, e.request);
    FieldsCarry(AUTHORIZATION_FIELDS, AuthorizationValues(e.authorization));
    AuthorizationLookups(At(v, "authorization").value, e.authorization);
  }

  lemma EventNames()
    ensures (set k | k in EVENT_FIELDS) ==
            {"schema_version", "event_id", "occurred_at", "source_service", "service_version",
             "environment", "correlation_id", "category", "code", "enforcement_action",
             "request", "authorization", "selected_model_group"}
  {
    assert EVENT_FIELDS[0] == "schema_version" && EVENT_FIELDS[1] == "event_id"
      && EVENT_FIELDS[2] == "occurred_at" && EVENT_FIELDS[3] == "source_service"
      && EVENT_FIELDS[4] == "service_version" && EVENT_FIELDS[5] == "environment"
      && EVENT_FIELDS[6] == "correlation_id" && EVENT_FIELDS[7] == "category" && EVENT_FIELDS[8] == "code"
      && EVENT_FIELDS[9] == "enforcement_action" && EVENT_FIELDS[10] == "request"
      && EVENT_FIELDS[11] == "authorization" && EVENT_FIELDS[12] == "selected_model_group";
  }

  /** The bytes under the digest are the canonical bytes of that object. */
  lemma EventBytesLayout(e: ViolationEvent, iso: int -> string) returns (v: Value)
    ensures EventBytes(e, iso) == CanonicalBytes(v) && IsEvent(v, e, iso)
  {
    v := Dict(Fields(EVENT_FIELDS, EventValues(e, iso)));
    EventFieldsDistinct();
    FieldsCarry(EVENT_FIELDS, EventValues(e, iso));
    EventOriginLookups(v, e, iso);
    EventDenialLookups(v, e, iso);
    EventRecordsLayout(v, e, iso);
    EventNames();
  }

  // ---------------------------------------------------------------------------------------------
  // Building the evidence
  // ---------------------------------------------------------------------------------------------

  /** The digest function, and the bytes it is taken over for an authorization and for an event. */
  datatype Hashing = Hashing(digest: Bytes -> string, signed: (Protected, Claims) -> Bytes,
                             bytes: ViolationEvent -> Bytes)

  /** The digests the service takes: over canonical JSON, with that text of a timestamp. */
  function OverCanonicalJson(digest: Bytes -> string, iso: int -> string): Hashing {
    Hashing(digest, (p: Protected, c: Claims) => SigningBytes(p, c, iso), (e: ViolationEvent) => EventBytes(e, iso))
  }

  /** A digest of canonical bytes is taken over no other event's bytes. */
  lemma EvidenceBytesBind(digest: Bytes -> string, iso: int -> string, e: ViolationEvent, f: ViolationEvent)
    requires Injective(iso)
    ensures OverCanonicalJson(digest, iso).bytes(e) == EventBytes(e, iso)
    ensures OverCanonicalJson(digest, iso).bytes(e) == OverCanonicalJson(digest, iso).bytes(f) ==> e == f
  {
    if EventBytes(e, iso) == EventBytes(f, iso) {
      EventBytesInjective(e, f, iso);
    }
  }

  /** What the service adds to an event that does not come from the denial. */
  datatype Origin = Origin(eventId: string, occurredAt: int, serviceVersion: string, environment: string,
                           correlationId: string)

  function ContextOf(h: Hashing, authorization: Option<Envelope>, verified: bool): AuthorizationContext {
    match authorization
    case None => AuthorizationContext(Absent, None, None, None, None)
    case Some(a) =>
      AuthorizationContext(if verified then TrustVerified else Present, Some(a.claims.authorizationId),
                           Some(a.protected.kid), Some(h.digest(h.signed(a.protected, a.claims))),
                           Some(a.claims.scopeDigest))
  }

  function Event(o: Origin, code: DenialCode, r: RouteRequest, context: AuthorizationContext,
                 selected: Option<string>): ViolationEvent {
    ViolationEvent(o.eventId, o.occurredAt, o.serviceVersion, o.environment, o.correlationId, ViolationCategory(code),
                   code, RequestContext(r.workflowId, r.taskId, r.agentName, r.workload), context, selected)
  }

  lemma ContextValid(h: Hashing, authorization: Option<Envelope>, verified: bool)
    ensures var context := ContextOf(h, authorization, verified);
            && StateValid(context)
            && (context.state.Absent? <==> authorization.None?)
            && (context.state.TrustVerified? <==> authorization.Some? && verified)
  {
  }

  datatype ValidationError = ValidationError

  function BuildRuntimeViolation(h: Hashing, o: Origin, code: DenialCode, r: RouteRequest,
                                 authorization: Option<Envelope>, verified: bool,
                                 selected: Option<string>): Result<ViolationEnvelope, ValidationError> {
    var context := ContextOf(h, authorization, verified);
    var event := Event(o, code, r, context, selected);
    if !StateValid(context) || !SemanticsValid(event) then Failure(ValidationError)
    else Success(ViolationEnvelope(event, h.digest(h.bytes(event))))
  }

  /** What the validators ask of a denial's evidence. */
  predicate Consistent(code: DenialCode, present: bool, verified: bool, selected: Option<string>) {
    && (code in REPLAY_CODES + REQUEST_BINDING_CODES + PROVENANCE_CODES + MODEL_SCOPE_CODES ==> present)
    && (code in MODEL_SCOPE_CODES ==> verified)
    && (code in MODEL_SCOPE_CODES <==> selected.Some?)
  }

  lemma SemanticsExactly(e: ViolationEvent)
    requires e.category == ViolationCategory(e.code)
    ensures SemanticsValid(e) <==>
              Consistent(e.code, !e.authorization.state.Absent?, e.authorization.state.TrustVerified?,
                         e.selectedModelGroup)
  {
  }

  /** An envelope that both validators accept, whose digest is that of its own bytes. */
  predicate ValidEnvelope(h: Hashing, v: ViolationEnvelope) {
    StateValid(v.event.authorization) && SemanticsValid(v.event) && v.eventDigest == h.digest(h.bytes(v.event))
  }

  /** The event reports this denial of this request, and how far its authorization was trusted. */
  predicate ReportsDenial(h: Hashing, e: ViolationEvent, code: DenialCode, r: RouteRequest,
                          authorization: Option<Envelope>, verified: bool, selected: Option<string>) {
    && e.code == code && e.category == ViolationCategory(code) && e.selectedModelGroup == selected
    && e.request.workflowId == r.workflowId && e.request.taskId == r.taskId
    && e.request.agentName == r.agentName && e.request.workload == r.workload
    && (e.authorization.state.Absent? <==> authorization.None?)
    && (e.authorization.state.TrustVerified? <==> authorization.Some? && verified)
    && (authorization.Some? ==>
          && e.authorization.authorizationId == Some(authorization.value.claims.authorizationId)
          && e.authorization.keyId == Some(authorization.value.protected.kid)
          && e.authorization.scopeDigest == Some(authorization.value.claims.scopeDigest)
          && e.authorization.signingDigest ==
               Some(h.digest(h.signed(authorization.value.protected, authorization.value.claims))))
  }

  /** The event carries what the service added, each under its own name. */
  predicate CarriesOrigin(e: ViolationEvent, o: Origin) {
    && e.eventId == o.eventId && e.occurredAt == o.occurredAt && e.serviceVersion == o.serviceVersion
    && e.environment == o.environment && e.correlationId == o.correlationId
  }

  /** Evidence is built exactly from consistent denials; it is then valid and reports the denial. */
  lemma BuildsExactly(h: Hashing, o: Origin, code: DenialCode, r: RouteRequest,
                      authorization: Option<Envelope>, verified: bool, selected: Option<string>)
    ensures var built := BuildRuntimeViolation(h, o, code, r, authorization, verified, selected);
            && (built.Success? <==> Consistent(code, authorization.Some?, verified, selected))
            && (built.Success? ==>
                  && ValidEnvelope(h, built.value)
                  && CarriesOrigin(built.value.event, o)
                  && ReportsDenial(h, built.value.event, code, r, authorization, verified, selected))
  {
    var context := ContextOf(h, authorization, verified);
    ContextValid(h, authorization, verified);
    SemanticsExactly(Event(o, code, r, context, selected));
  }
}
