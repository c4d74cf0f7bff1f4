/** The signed authorization: its records, the validators that normalise them, and the bytes a
signature covers.

A UUID is its canonical text, a timestamp a number of microseconds in UTC. `iso` stands for the text a
timestamp serialises to. */
module AuthorizationContract {
  import opened Wrappers
  import opened Ordering
  import opened Utf8
  import opened CanonicalJson
  import opened Vocabulary

  datatype RiskTier = TierLow | TierMedium | TierHigh | TierCritical

  function TierText(r: RiskTier): string {
    match r
    case TierLow => "low"
    case TierMedium => "medium"
    case TierHigh => "high"
    case TierCritical => "critical"
  }

  datatype AutonomyLevel =
    | A0Information | A1Recommendation | A2PrepareForApproval
    | A3ReversibleActions | A4HighImpactActions | A5HighAutonomy

  function AutonomyText(a: AutonomyLevel): string {
    match a
    case A0Information => "a0_information"
    case A1Recommendation => "a1_recommendation"
    case A2PrepareForApproval => "a2_prepare_for_approval"
    case A3ReversibleActions => "a3_reversible_actions"
    case A4HighImpactActions => "a4_high_impact_actions"
    case A5HighAutonomy => "a5_high_autonomy"
  }

  function ParseTier(text: string): Option<RiskTier> {
    if text == "low" then Some(TierLow)
    else if text == "medium" then Some(TierMedium)
    else if text == "high" then Some(TierHigh)
    else if text == "critical" then Some(TierCritical)
    else None
  }

  /** A tier is written as the one text that reads as it. */
  lemma TierRoundTrip(text: string, r: RiskTier)
    ensures ParseTier(text) == Some(r) <==> text == TierText(r)
  {
  }

  function ParseAutonomy(text: string): Option<AutonomyLevel> {
    if text == "a0_information" then Some(A0Information)
    else if text == "a1_recommendation" then Some(A1Recommendation)
    else if text == "a2_prepare_for_approval" then Some(A2PrepareForApproval)
    else if text == "a3_reversible_actions" then Some(A3ReversibleActions)
    else if text == "a4_high_impact_actions" then Some(A4HighImpactActions)
    else if text == "a5_high_autonomy" then Some(A5HighAutonomy)
    else None
  }

  lemma AutonomyRoundTrip(text: string, a: AutonomyLevel)
    ensures ParseAutonomy(text) == Some(a) <==> text == AutonomyText(a)
  {
  }

  datatype Protected = Protected(kid: string)

  datatype PolicyProvenance = PolicyProvenance(
    policyId: string, policyVersion: string, policyDigest: string,
    controlCatalogId: string, controlCatalogVersion: string, controlCatalogDigest: string)

  datatype Subject = Subject(
    initiativeId: string, aiSystemId: string, aiSystemVersion: int,
    agentId: string, agentVersion: int, agentReviewDigest: string)

  datatype AuthorizedModel = AuthorizedModel(
    modelId: string, entityVersion: int, modelVersion: string,
    routingGroup: string, reviewDigest: string, allowedDataClasses: seq<DataClassification>)

  datatype RequestBinding = RequestBinding(
    workflowId: string, taskId: string, workload: string,
    contextTokensEstimated: int, maxOutputTokensEstimated: int,
    structuredOutputRequired: bool, maxLatencyMs: int, maxCostUsdMicros: int)

  datatype Scope = Scope(
    riskTier: RiskTier, dataClassification: DataClassification, autonomyLevel: AutonomyLevel,
    models: seq<AuthorizedModel>, allowedTools: seq<string>, permissions: seq<string>,
    maxRuntimeSeconds: int, humanApprovalPoints: seq<string>)

  datatype Claims = Claims(
    authorizationId: string, issuer: string, audience: seq<string>,
    issuedAt: int, notBefore: int, expiresAt: int,
    subject: Subject, request: RequestBinding, scope: Scope, scopeDigest: string,
    policy: PolicyProvenance)

  datatype Envelope = Envelope(protected: Protected, claims: Claims, signature: string)

  const MAX_LIFETIME_MICROS := 600 * 1_000_000

  // ---------------------------------------------------------------------------------------------
  // Normalising validators
  // ---------------------------------------------------------------------------------------------

  function ClassTexts(values: seq<DataClassification>): set<string> {
    set v | v in values :: ClassText(v)
  }

  function NormalizeClasses(values: seq<DataClassification>): seq<DataClassification> {
    var texts := SortedStrings(ClassTexts(values));
    seq(|texts|, i requires 0 <= i < |texts| => ClassOf(texts[i]))
  }

  /** Normalising keeps exactly the classes that occur. */
  lemma NormalizeClassesMembers(values: seq<DataClassification>)
    ensures forall c :: c in NormalizeClasses(values) <==> c in values
    ensures ClassTexts(NormalizeClasses(values)) == ClassTexts(values)
  {
    var texts := SortedStrings(ClassTexts(values));
    var normalized := NormalizeClasses(values);
    forall c ensures c in normalized <==> c in values {
      ClassOfText(c);
      if c in values {
        assert ClassText(c) in Elements(texts);
        var i :| 0 <= i < |texts| && texts[i] == ClassText(c);
        assert normalized[i] == c;
      }
      if c in normalized {
        var i :| 0 <= i < |normalized| && normalized[i] == c;
        assert texts[i] in Elements(texts);
        var v :| v in values && ClassText(v) == texts[i];
        ClassOfText(v);
      }
    }
  }

  lemma NormalizeClassesCanonical(values: seq<DataClassification>, others: seq<DataClassification>)
    requires forall c :: c in values <==> c in others
    ensures NormalizeClasses(values) == NormalizeClasses(others)
    ensures NormalizeClasses(NormalizeClasses(values)) == NormalizeClasses(values)
  {
    NormalizeClassesMembers(values);
    assert ClassTexts(values) == ClassTexts(others);
  }

  function NormalizeModel(m: AuthorizedModel): AuthorizedModel {
    m.(allowedDataClasses := NormalizeClasses(m.allowedDataClasses))
  }

  function NormalizeEach(models: seq<AuthorizedModel>): seq<AuthorizedModel> {
    seq(|models|, i requires 0 <= i < |models| => NormalizeModel(models[i]))
  }

  function ModelIds(models: seq<AuthorizedModel>): set<string> {
    set m | m in models :: m.modelId
  }

  /** `len(model_ids) == len(set(model_ids))`. */
  predicate UniqueIds(models: seq<AuthorizedModel>) {
    |models| == |ModelIds(models)|
  }

  lemma ModelIdsStep(models: seq<AuthorizedModel>)
    requires models != []
    ensures ModelIds(models) == {models[0].modelId} + ModelIds(models[1..])
  {
    assert models == [models[0]] + models[1..];
  }

  lemma {:induction false} ModelIdsBound(models: seq<AuthorizedModel>)
    ensures |ModelIds(models)| <= |models|
  {
    if models == [] {
      assert ModelIds(models) == {};
    } else {
      ModelIdsStep(models);
      ModelIdsBound(models[1..]);
    }
  }

  predicate PairwiseIds(models: seq<AuthorizedModel>) {
    forall i, j :: 0 <= i < j < |models| ==> models[i].modelId != models[j].modelId
  }

  /** Counting identifiers finds duplicates, and only them. */
  lemma {:induction false} UniqueIdsPairwise(models: seq<AuthorizedModel>)
    ensures UniqueIds(models) <==> PairwiseIds(models)
  {
    if models == [] {
      assert ModelIds(models) == {};
    } else {
      var id, rest := models[0].modelId, models[1..];
      ModelIdsStep(models);
      ModelIdsBound(rest);
      UniqueIdsPairwise(rest);
      assert id in ModelIds(rest) ==> {id} + ModelIds(rest) == ModelIds(rest);
      PairwiseStep(models);
    }
  }

  lemma PairwiseStep(models: seq<AuthorizedModel>)
    requires models != []
    ensures PairwiseIds(models) <==> models[0].modelId !in ModelIds(models[1..]) && PairwiseIds(models[1..])
  {
    var rest := models[1..];
    assert forall j :: 0 <= j < |rest| ==> rest[j] == models[j + 1] && rest[j].modelId in ModelIds(rest);
    if models[0].modelId in ModelIds(rest) {
      var m :| m in rest && m.modelId == models[0].modelId;
      var j :| 0 <= j < |rest| && rest[j] == m;
      assert models[0].modelId == models[j + 1].modelId;
    }
    if PairwiseIds(models) {
      forall i, j | 0 <= i < j < |rest| ensures rest[i].modelId != rest[j].modelId {
        assert models[i + 1].modelId != models[j + 1].modelId;
      }
    }
  }

  /** The first model with an identifier. */
  function ById(models: seq<AuthorizedModel>, id: string): (m: AuthorizedModel)
    requires exists x :: x in models && x.modelId == id
    ensures m in models && m.modelId == id
  {
    if models[0].modelId == id then models[0] else
      assert exists x :: x in models[1..] && x.modelId == id by {
        var x :| x in models && x.modelId == id;
        assert models == [models[0]] + models[1..];
      }
      ById(models[1..], id)
  }

  /** `sorted(values, key=lambda model: str(model.model_id))`. */
  function SortModels(models: seq<AuthorizedModel>): seq<AuthorizedModel> {
    var ids := SortedStrings(ModelIds(models));
    assert forall i :: 0 <= i < |ids| ==> ids[i] in Elements(ids);
    seq(|ids|, i requires 0 <= i < |ids| => ById(models, ids[i]))
  }

  lemma UniqueById(models: seq<AuthorizedModel>, m: AuthorizedModel)
    requires UniqueIds(models) && m in models
    ensures ById(models, m.modelId) == m
  {
    UniqueIdsPairwise(models);
  }

  lemma SortModelsMembers(models: seq<AuthorizedModel>)
    requires UniqueIds(models)
    ensures forall m :: m in SortModels(models) <==> m in models
    ensures UniqueIds(SortModels(models))
  {
    var ids, sorted := SortedStrings(ModelIds(models)), SortModels(models);
    assert forall i :: 0 <= i < |ids| ==> ids[i] in Elements(ids);
    forall m ensures m in sorted <==> m in models {
      if m in models {
        assert m.modelId in Elements(ids);
        var i :| 0 <= i < |ids| && ids[i] == m.modelId;
        UniqueById(models, m);
        assert sorted[i] == m;
      }
    }
    assert ModelIds(sorted) == ModelIds(models);
  }

  /** Sorting depends only on which models occur. */
  lemma SortModelsCanonical(models: seq<AuthorizedModel>, others: seq<AuthorizedModel>)
    requires UniqueIds(models) && UniqueIds(others)
    requires forall m :: m in models <==> m in others
    ensures SortModels(models) == SortModels(others)
  {
    assert ModelIds(models) == ModelIds(others);
    var ids := SortedStrings(ModelIds(models));
    var a, b := SortModels(models), SortModels(others);
    forall i | 0 <= i < |ids| ensures a[i] == b[i] {
      assert ids[i] in Elements(ids);
      var m :| m in models && m.modelId == ids[i];
      UniqueById(models, m);
      UniqueById(others, m);
    }
  }

  predicate NeedsApprovalPoint(a: AutonomyLevel) {
    a in {A2PrepareForApproval, A3ReversibleActions, A4HighImpactActions, A5HighAutonomy}
  }

  predicate AllHaveClasses(models: seq<AuthorizedModel>) {
    forall i :: 0 <= i < |models| ==> models[i].allowedDataClasses != []
  }

  predicate SomeModelAllows(models: seq<AuthorizedModel>, c: DataClassification) {
    exists m :: m in models && c in m.allowedDataClasses
  }

  /** Field validators, then the capability boundary. */
  function ValidateScope(s: Scope): Option<Scope> {
    if s.models == [] || !AllHaveClasses(s.models) then None
    else if !UniqueIds(s.models) then None
    else
      var models := SortModels(NormalizeEach(s.models));
      var scope := s.(models := models, allowedTools := Normalize(s.allowedTools),
                      permissions := Normalize(s.permissions),
                      humanApprovalPoints := Normalize(s.humanApprovalPoints));
      if scope.allowedTools != [] && scope.permissions == [] then None
      else if NeedsApprovalPoint(scope.autonomyLevel) && scope.humanApprovalPoints == [] then None
      else if !SomeModelAllows(models, scope.dataClassification) then None
      else Some(scope)
  }

  function Validate(c: Claims): Option<Claims> {
    ValidateWith(c, ValidateScope(c.scope))
  }

  /** The audience and the time window, once the scope has been validated. */
  function ValidateWith(c: Claims, scope: Option<Scope>): Option<Claims> {
    if scope.None? || c.audience == [] then None
    else if c.notBefore < c.issuedAt || c.expiresAt <= c.notBefore
            || c.expiresAt - c.issuedAt > MAX_LIFETIME_MICROS then None
    else Some(c.(scope := scope.value, audience := Normalize(c.audience)))
  }

  /** The claims say the same up to order and repetition in the set-like fields. */
  ghost predicate SameUpToOrder(c: Claims, d: Claims) {
    var s, t := c.scope, d.scope;
    && d == c.(audience := d.audience, scope := t)
    && t == s.(models := t.models, allowedTools := t.allowedTools, permissions := t.permissions,
               humanApprovalPoints := t.humanApprovalPoints)
    && Elements(c.audience) == Elements(d.audience)
    && Elements(s.allowedTools) == Elements(t.allowedTools)
    && Elements(s.permissions) == Elements(t.permissions)
    && Elements(s.humanApprovalPoints) == Elements(t.humanApprovalPoints)
    && multiset(NormalizeEach(s.models)) == multiset(NormalizeEach(t.models))
  }

  lemma NormalizeEachKeeps(models: seq<AuthorizedModel>)
    ensures ModelIds(NormalizeEach(models)) == ModelIds(models)
    ensures UniqueIds(NormalizeEach(models)) <==> UniqueIds(models)
    ensures AllHaveClasses(NormalizeEach(models)) <==> AllHaveClasses(models)
  {
    var n := NormalizeEach(models);
    assert forall i :: 0 <= i < |models| ==> n[i].modelId == models[i].modelId;
    forall id ensures id in ModelIds(n) <==> id in ModelIds(models) {
      if id in ModelIds(models) {
        var m :| m in models && m.modelId == id;
        var i :| 0 <= i < |models| && models[i] == m;
        assert n[i] in n;
      }
    }
    forall i | 0 <= i < |models| ensures n[i].allowedDataClasses == [] <==> models[i].allowedDataClasses == [] {
      NormalizeClassesMembers(models[i].allowedDataClasses);
      var a, b := models[i].allowedDataClasses, n[i].allowedDataClasses;
      if a != [] { assert a[0] in b; }
      if b != [] { assert b[0] in a; }
    }
  }

  lemma SameMembers<T>(a: seq<T>, b: seq<T>)
    requires multiset(a) == multiset(b)
    ensures forall x :: x in a <==> x in b
    ensures |a| == |b|
  {
    assert forall x :: x in a <==> x in multiset(a);
    assert |a| == |multiset(a)|;
  }

  lemma ModelsIgnoreOrder(models: seq<AuthorizedModel>, others: seq<AuthorizedModel>)
    requires multiset(NormalizeEach(models)) == multiset(NormalizeEach(others))
    ensures UniqueIds(models) <==> UniqueIds(others)
    ensures AllHaveClasses(models) <==> AllHaveClasses(others)
    ensures models == [] <==> others == []
    ensures UniqueIds(models) ==> SortModels(NormalizeEach(models)) == SortModels(NormalizeEach(others))
  {
    var a, b := NormalizeEach(models), NormalizeEach(others);
    NormalizeEachKeeps(models);
    NormalizeEachKeeps(others);
    SameMembers(a, b);
    assert ModelIds(a) == ModelIds(b);
    assert AllHaveClasses(a) <==> AllHaveClasses(b) by {
      assert forall i :: 0 <= i < |a| ==> a[i] in b;
      assert forall i :: 0 <= i < |b| ==> b[i] in a;
    }
    if UniqueIds(models) {
      SortModelsCanonical(a, b);
    }
  }

  /** Validation, and so the signed bytes, ignore order and repetition in the set-like fields. */
  lemma ValidateIgnoresOrder(c: Claims, d: Claims)
    requires SameUpToOrder(c, d)
    ensures Validate(c) == Validate(d)
  {
    ModelsIgnoreOrder(c.scope.models, d.scope.models);
    NoElements(c.audience);
    NoElements(d.audience);
  }

  lemma NormalizedMember(models: seq<AuthorizedModel>, m: AuthorizedModel)
    requires AllHaveClasses(models) && m in NormalizeEach(models)
    ensures NormalizeModel(m) == m && m.allowedDataClasses != []
  {
    var n := NormalizeEach(models);
    NormalizeEachKeeps(models);
    var j :| 0 <= j < |n| && n[j] == m;
    NormalizeClassesCanonical(models[j].allowedDataClasses, models[j].allowedDataClasses);
  }

  lemma SortedIsNormalized(models: seq<AuthorizedModel>)
    requires UniqueIds(models) && AllHaveClasses(models)
    ensures var sorted := SortModels(NormalizeEach(models));
            NormalizeEach(sorted) == sorted && AllHaveClasses(sorted)
  {
    var n := NormalizeEach(models);
    NormalizeEachKeeps(models);
    SortModelsMembers(n);
    var sorted := SortModels(n);
    forall i | 0 <= i < |sorted| ensures NormalizeModel(sorted[i]) == sorted[i] && sorted[i].allowedDataClasses != [] {
      assert sorted[i] in n;
      NormalizedMember(models, sorted[i]);
    }
    assert NormalizeEach(sorted) == sorted;
  }

  lemma NormalizedStaysNormalized(models: seq<AuthorizedModel>)
    requires UniqueIds(models) && AllHaveClasses(models) && models != []
    ensures var sorted := SortModels(NormalizeEach(models));
            && SortModels(NormalizeEach(sorted)) == sorted
            && UniqueIds(sorted) && AllHaveClasses(sorted) && sorted != []
  {
    var n := NormalizeEach(models);
    NormalizeEachKeeps(models);
    SortedIsNormalized(models);
    SortModelsMembers(n);
    SortModelsCanonical(n, SortModels(n));
    assert n[0] in SortModels(n);
  }

  lemma ValidateScopeIdempotent(s: Scope)
    requires ValidateScope(s).Some?
    ensures var v := ValidateScope(s).value;
            && ValidateScope(v) == Some(v)
            && (v.allowedTools != [] ==> v.permissions != [])
            && (NeedsApprovalPoint(v.autonomyLevel) ==> v.humanApprovalPoints != [])
            && UniqueIds(v.models) && SomeModelAllows(v.models, v.dataClassification)
  {
    NormalizedStaysNormalized(s.models);
    NormalizeFixed(s.allowedTools);
    NormalizeFixed(s.permissions);
    NormalizeFixed(s.humanApprovalPoints);
  }

  lemma NormalizeFixed(xs: seq<string>)
    ensures Normalize(Normalize(xs)) == Normalize(xs) && (Normalize(xs) == [] <==> xs == [])
  {
    NormalizeCanonical(xs, []);
    NoElements(xs);
    NoElements(Normalize(xs));
  }

  /** Validated claims are a fixed point, with the invariants the signature is meant to bind. */
  lemma ValidateIdempotent(c: Claims)
    requires Validate(c).Some?
    ensures var v := Validate(c).value;
            && Validate(v) == Some(v)
            && v.issuedAt <= v.notBefore < v.expiresAt <= v.issuedAt + MAX_LIFETIME_MICROS
            && (v.scope.allowedTools != [] ==> v.scope.permissions != [])
            && (NeedsApprovalPoint(v.scope.autonomyLevel) ==> v.scope.humanApprovalPoints != [])
            && UniqueIds(v.scope.models) && SomeModelAllows(v.scope.models, v.scope.dataClassification)
  {
    ValidateScopeIdempotent(c.scope);
    ValidateWithFixed(c, ValidateScope(c.scope));
  }

  lemma ValidateWithFixed(c: Claims, scope: Option<Scope>)
    requires ValidateWith(c, scope).Some?
    ensures var v := ValidateWith(c, scope).value;
            && scope == Some(v.scope) && ValidateWith(v, scope) == Some(v)
            && v.issuedAt <= v.notBefore < v.expiresAt <= v.issuedAt + MAX_LIFETIME_MICROS
  {
    NormalizeFixed(c.audience);
  }

  // ---------------------------------------------------------------------------------------------
  // What validation accepts, and what it returns
  // ---------------------------------------------------------------------------------------------

  predicate AcceptableScope(s: Scope) {
    && s.models != [] && (forall m :: m in s.models ==> m.allowedDataClasses != []) && PairwiseIds(s.models)
    && (s.allowedTools != [] ==> s.permissions != [])
    && (!s.autonomyLevel.A0Information? && !s.autonomyLevel.A1Recommendation? ==> s.humanApprovalPoints != [])
    && exists m :: m in s.models && s.dataClassification in m.allowedDataClasses
  }

  predicate Acceptable(c: Claims) {
    && AcceptableScope(c.scope) && c.audience != []
    && c.issuedAt <= c.notBefore < c.expiresAt <= c.issuedAt + 600_000_000
  }

  /** A strictly sorted listing of the same texts. */
  predicate SortedFrom(sorted: seq<string>, given: seq<string>) {
    StrictlySorted(sorted) && Elements(sorted) == Elements(given)
  }

  function TextsOf(cs: seq<DataClassification>): seq<string> {
    seq(|cs|, i requires 0 <= i < |cs| => ClassText(cs[i]))
  }

  /** The same model, with the same classes in the order of their texts. */
  predicate SameModel(sorted: AuthorizedModel, given: AuthorizedModel) {
    && sorted == given.(allowedDataClasses := sorted.allowedDataClasses)
    && StrictlySorted(TextsOf(sorted.allowedDataClasses))
    && forall c :: c in sorted.allowedDataClasses <==> c in given.allowedDataClasses
  }

  function IdsOf(models: seq<AuthorizedModel>): seq<string> {
    seq(|models|, i requires 0 <= i < |models| => models[i].modelId)
  }

  /** The same models, each normalised, in the order of their identifiers. */
  ghost predicate SameModels(sorted: seq<AuthorizedModel>, given: seq<AuthorizedModel>) {
    && StrictlySorted(IdsOf(sorted))
    && forall m :: m in sorted <==> m in NormalizeEach(given)
  }

  /** Every field kept, the set-like ones sorted and without repetition. */
  ghost predicate NormalFormOf(v: Claims, c: Claims) {
    && v == c.(audience := v.audience, scope := v.scope)
    && SortedFrom(v.audience, c.audience)
    && ScopeFormOf(v.scope, c.scope)
  }

  ghost predicate ScopeFormOf(v: Scope, s: Scope) {
    && v == s.(models := v.models, allowedTools := v.allowedTools, permissions := v.permissions,
               humanApprovalPoints := v.humanApprovalPoints)
    && SameModels(v.models, s.models)
    && SortedFrom(v.allowedTools, s.allowedTools)
    && SortedFrom(v.permissions, s.permissions)
    && SortedFrom(v.humanApprovalPoints, s.humanApprovalPoints)
  }

  /** Normalising a model keeps it, with its classes sorted. */
  lemma NormalizeModelSame(m: AuthorizedModel)
    ensures SameModel(NormalizeModel(m), m)
  {
    NormalizeClassesMembers(m.allowedDataClasses);
    var texts, classes := SortedStrings(ClassTexts(m.allowedDataClasses)), NormalizeClasses(m.allowedDataClasses);
    forall i | 0 <= i < |texts| ensures TextsOf(classes)[i] == texts[i] {
      assert texts[i] in Elements(texts);
      var c :| c in m.allowedDataClasses && ClassText(c) == texts[i];
      ClassOfText(c);
    }
    assert TextsOf(classes) == texts;
  }

  lemma SortedIds(models: seq<AuthorizedModel>)
    ensures StrictlySorted(IdsOf(SortModels(models)))
  {
    var ids := SortedStrings(ModelIds(models));
    assert forall i :: 0 <= i < |ids| ==> ids[i] in Elements(ids);
    assert IdsOf(SortModels(models)) == ids;
  }

  lemma SortedModelsSame(models: seq<AuthorizedModel>)
    requires UniqueIds(models)
    ensures SameModels(SortModels(NormalizeEach(models)), models)
  {
    NormalizeEachKeeps(models);
    SortModelsMembers(NormalizeEach(models));
    SortedIds(NormalizeEach(models));
  }

  lemma AllHaveClassesExactly(models: seq<AuthorizedModel>)
    ensures AllHaveClasses(models) <==> forall m :: m in models ==> m.allowedDataClasses != []
  {
    assert forall i :: 0 <= i < |models| ==> models[i] in models;
  }

  lemma ScopeValidatesExactly(s: Scope)
    ensures ValidateScope(s).Some? <==> AcceptableScope(s)
  {
    AllHaveClassesExactly(s.models);
    UniqueIdsPairwise(s.models);
    if s.models != [] && AllHaveClasses(s.models) && UniqueIds(s.models) {
      UniqueScopeValidatesExactly(s);
    }
  }

  lemma ValidatedScopeForm(s: Scope)
    requires ValidateScope(s).Some?
    ensures ScopeFormOf(ValidateScope(s).value, s)
  {
    SortedModelsSame(s.models);
  }

  lemma NeedsApprovalExactly(a: AutonomyLevel)
    ensures NeedsApprovalPoint(a) <==> !a.A0Information? && !a.A1Recommendation?
  {
    match a
    case A0Information => assert !NeedsApprovalPoint(a);
    case A1Recommendation => assert !NeedsApprovalPoint(a);
    case _ => assert NeedsApprovalPoint(a);
  }

  lemma UniqueScopeValidatesExactly(s: Scope)
    requires s.models != [] && AllHaveClasses(s.models) && UniqueIds(s.models)
    ensures ValidateScope(s).Some? <==>
              && (s.allowedTools != [] ==> s.permissions != [])
              && (!s.autonomyLevel.A0Information? && !s.autonomyLevel.A1Recommendation? ==>
                    s.humanApprovalPoints != [])
              && SomeModelAllows(s.models, s.dataClassification)
  {
    NeedsApprovalExactly(s.autonomyLevel);
    SortedAllows(s.models, s.dataClassification);
    ListsKept(s);
  }

  lemma ListsKept(s: Scope)
    ensures Normalize(s.allowedTools) == [] <==> s.allowedTools == []
    ensures Normalize(s.permissions) == [] <==> s.permissions == []
    ensures Normalize(s.humanApprovalPoints) == [] <==> s.humanApprovalPoints == []
  {
    NormalizeFixed(s.allowedTools);
    NormalizeFixed(s.permissions);
    NormalizeFixed(s.humanApprovalPoints);
  }

  lemma SortedAllows(models: seq<AuthorizedModel>, c: DataClassification)
    requires UniqueIds(models)
    ensures SomeModelAllows(SortModels(NormalizeEach(models)), c) <==> SomeModelAllows(models, c)
  {
    SortedModelsSame(models);
    SomeAllows(SortModels(NormalizeEach(models)), models, c);
  }

  lemma SomeAllows(sorted: seq<AuthorizedModel>, given: seq<AuthorizedModel>, c: DataClassification)
    requires SameModels(sorted, given)
    ensures SomeModelAllows(sorted, c) <==> exists m :: m in given && c in m.allowedDataClasses
  {
    if SomeModelAllows(sorted, c) {
      var m :| m in sorted && c in m.allowedDataClasses;
      NormalizedGives(given, m, c);
    }
    if m :| m in given && c in m.allowedDataClasses {
      var i :| 0 <= i < |given| && given[i] == m;
      NormalizeModelSame(m);
      assert NormalizeEach(given)[i] in sorted;
    }
  }

  lemma NormalizedGives(given: seq<AuthorizedModel>, m: AuthorizedModel, c: DataClassification)
    requires m in NormalizeEach(given) && c in m.allowedDataClasses
    ensures exists g :: g in given && c in g.allowedDataClasses
  {
    var i :| 0 <= i < |given| && NormalizeEach(given)[i] == m;
    NormalizeModelSame(given[i]);
    assert given[i] in given;
  }

  /** Validation accepts exactly the acceptable claims, and returns their normal form. */
  lemma ValidatesExactly(c: Claims)
    ensures Validate(c).Some? <==> Acceptable(c)
    ensures Validate(c).Some? ==> NormalFormOf(Validate(c).value, c)
  {
    ScopeValidatesExactly(c.scope);
    if Validate(c).Some? {
      ValidatedScopeForm(c.scope);
    }
  }

  // ---------------------------------------------------------------------------------------------
  // The signed bytes
  // ---------------------------------------------------------------------------------------------

  predicate DistinctNames(names: seq<string>) {
    forall i, j :: 0 <= i < j < |names| ==> names[i] != names[j]
  }

  /** A dumped record: field names with their values. */
  function Fields(names: seq<string>, values: seq<Value>): map<string, Value>
    requires |names| == |values|
  {
    if names == [] then map[] else Fields(names[1..], values[1..])[names[0] := values[0]]
  }

  lemma {:induction false} FieldsKeys(names: seq<string>, values: seq<Value>)
    requires |names| == |values|
    ensures forall k :: k in Fields(names, values) <==> k in names
  {
    if names != [] { FieldsKeys(names[1..], values[1..]); }
  }

  lemma {:induction false} FieldsInjective(names: seq<string>, v: seq<Value>, w: seq<Value>)
    requires DistinctNames(names) && |names| == |v| == |w|
    requires Fields(names, v) == Fields(names, w)
    ensures v == w
  {
    if names != [] {
      FieldsKeys(names[1..], v[1..]);
      FieldsKeys(names[1..], w[1..]);
      var fv, fw := Fields(names[1..], v[1..]), Fields(names[1..], w[1..]);
      assert Fields(names, v)[names[0]] == v[0] && Fields(names, w)[names[0]] == w[0];
      forall k | k in fv ensures k in fw && fv[k] == fw[k] {
        assert Fields(names, v)[k] == fv[k] && Fields(names, w)[k] == fw[k];
      }
      assert fv == fw;
      FieldsInjective(names[1..], v[1..], w[1..]);
      assert v == [v[0]] + v[1..] && w == [w[0]] + w[1..];
    }
  }

  function Texts(xs: seq<string>): Value {
    List(seq(|xs|, i requires 0 <= i < |xs| => Text(xs[i])))
  }

  lemma TextsInjective(xs: seq<string>, ys: seq<string>)
    requires Texts(xs) == Texts(ys)
    ensures xs == ys
  {
    assert |Texts(xs).items| == |Texts(ys).items|;
    forall i | 0 <= i < |xs| ensures xs[i] == ys[i] {
      assert Texts(xs).items[i] == Texts(ys).items[i];
    }
  }

  function Classes(cs: seq<DataClassification>): Value {
    List(seq(|cs|, i requires 0 <= i < |cs| => Text(ClassText(cs[i]))))
  }

  lemma ClassesInjective(xs: seq<DataClassification>, ys: seq<DataClassification>)
    requires Classes(xs) == Classes(ys)
    ensures xs == ys
  {
    assert |Classes(xs).items| == |Classes(ys).items|;
    forall i | 0 <= i < |xs| ensures xs[i] == ys[i] {
      assert Classes(xs).items[i] == Classes(ys).items[i];
      ClassOfText(xs[i]);
      ClassOfText(ys[i]);
    }
  }

  const PROTECTED_FIELDS := ["typ", "alg", "kid"]
  const POLICY_FIELDS := ["policy_id", "policy_version", "policy_digest",
                          "control_catalog_id", "control_catalog_version", "control_catalog_digest"]
  const SUBJECT_FIELDS := ["initiative_id", "ai_system_id", "ai_system_version",
                           "agent_id", "agent_version", "agent_review_digest"]
  const MODEL_FIELDS := ["model_id", "entity_version", "model_version",
                         "routing_group", "review_digest", "allowed_data_classes"]
  const REQUEST_FIELDS := ["workflow_id", "task_id", "workload", "context_tokens_estimated",
                           "max_output_tokens_estimated", "structured_output_required",
                           "max_latency_ms", "max_cost_usd_micros"]
  const SCOPE_FIELDS := ["risk_tier", "data_classification", "autonomy_level", "models", "allowed_tools",
                         "permissions", "max_runtime_seconds", "human_approval_points", "kill_switch_enabled"]
  const CLAIMS_FIELDS := ["schema_version", "authorization_id", "issuer", "audience", "issued_at", "not_before",
                          "expires_at", "subject", "request", "scope", "scope_digest", "policy"]
  const ENVELOPE_FIELDS := ["protected", "claims"]

  const MEDIA_TYPE := "application/vnd.verifiable-ai-governance.runtime-authorization+json"

  function ProtectedValues(p: Protected): seq<Value> { [Text(MEDIA_TYPE), Text("Ed25519"), Text(p.kid)] }

  function PolicyValues(p: PolicyProvenance): seq<Value> {
    [Text(p.policyId), Text(p.policyVersion), Text(p.policyDigest),
     Text(p.controlCatalogId), Text(p.controlCatalogVersion), Text(p.controlCatalogDigest)]
  }

  function SubjectValues(s: Subject): seq<Value> {
    [Text(s.initiativeId), Text(s.aiSystemId), Int(s.aiSystemVersion),
     Text(s.agentId), Int(s.agentVersion), Text(s.agentReviewDigest)]
  }

  function ModelValues(m: AuthorizedModel): seq<Value> {
    [Text(m.modelId), Int(m.entityVersion), Text(m.modelVersion),
     Text(m.routingGroup), Text(m.reviewDigest), Classes(m.allowedDataClasses)]
  }

  function RequestValues(r: RequestBinding): seq<Value> {
    [Text(r.workflowId), Text(r.taskId), Text(r.workload), Int(r.contextTokensEstimated),
     Int(r.maxOutputTokensEstimated), Bool(r.structuredOutputRequired),
     Int(r.maxLatencyMs), Int(r.maxCostUsdMicros)]
  }

  function Models(ms: seq<AuthorizedModel>): Value {
    List(seq(|ms|, i requires 0 <= i < |ms| => Dict(Fields(MODEL_FIELDS, ModelValues(ms[i])))))
  }

  function ScopeValues(s: Scope): seq<Value> {
    [Text(TierText(s.riskTier)), Text(ClassText(s.dataClassification)), Text(AutonomyText(s.autonomyLevel)),
     Models(s.models), Texts(s.allowedTools), Texts(s.permissions), Int(s.maxRuntimeSeconds),
     Texts(s.humanApprovalPoints), Bool(true)]
  }

  function ClaimsValues(c: Claims, iso: int -> string): seq<Value> {
    [Text("1.0"), Text(c.authorizationId), Text(c.issuer), Texts(c.audience), Text(iso(c.issuedAt)),
     Text(iso(c.notBefore)), Text(iso(c.expiresAt)), Dict(Fields(SUBJECT_FIELDS, SubjectValues(c.subject))),
     Dict(Fields(REQUEST_FIELDS, RequestValues(c.request))), Dict(Fields(SCOPE_FIELDS, ScopeValues(c.scope))),
     Text(c.scopeDigest), Dict(Fields(POLICY_FIELDS, PolicyValues(c.policy)))]
  }

  function ProtectedValue(p: Protected): Value { Dict(Fields(PROTECTED_FIELDS, ProtectedValues(p))) }

  function ClaimsValue(c: Claims, iso: int -> string): Value { Dict(Fields(CLAIMS_FIELDS, ClaimsValues(c, iso))) }

  /** Exactly the bytes Governance signs. */
  function SigningBytes(protected: Protected, claims: Claims, iso: int -> string): Bytes {
    CanonicalBytes(Dict(Fields(ENVELOPE_FIELDS, [ProtectedValue(protected), ClaimsValue(claims, iso)])))
  }

  ghost predicate Injective(iso: int -> string) {
    forall s, t :: iso(s) == iso(t) ==> s == t
  }

  lemma PolicyInjective(p: PolicyProvenance, q: PolicyProvenance)
    requires Fields(POLICY_FIELDS, PolicyValues(p)) == Fields(POLICY_FIELDS, PolicyValues(q))
    ensures p == q
  {
    FieldsInjective(POLICY_FIELDS, PolicyValues(p), PolicyValues(q));
    assert forall i :: 0 <= i < 6 ==> PolicyValues(p)[i] == PolicyValues(q)[i];
  }

  lemma SubjectInjective(s: Subject, t: Subject)
    requires Fields(SUBJECT_FIELDS, SubjectValues(s)) == Fields(SUBJECT_FIELDS, SubjectValues(t))
    ensures s == t
  {
    FieldsInjective(SUBJECT_FIELDS, SubjectValues(s), SubjectValues(t));
  }

  lemma RequestInjective(r: RequestBinding, q: RequestBinding)
    requires Fields(REQUEST_FIELDS, RequestValues(r)) == Fields(REQUEST_FIELDS, RequestValues(q))
    ensures r == q
  {
    FieldsInjective(REQUEST_FIELDS, RequestValues(r), RequestValues(q));
  }

  lemma ModelsInjective(ms: seq<AuthorizedModel>, ns: seq<AuthorizedModel>)
    requires Models(ms) == Models(ns)
    ensures ms == ns
  {
    assert |Models(ms).items| == |Models(ns).items|;
    forall i | 0 <= i < |ms| ensures ms[i] == ns[i] {
      assert Models(ms).items[i] == Models(ns).items[i];
      FieldsInjective(MODEL_FIELDS, ModelValues(ms[i]), ModelValues(ns[i]));
      ClassesInjective(ms[i].allowedDataClasses, ns[i].allowedDataClasses);
    }
  }

  lemma EnumTextsInjective(r: RiskTier, q: RiskTier, a: AutonomyLevel, b: AutonomyLevel)
    ensures TierText(r) == TierText(q) ==> r == q
    ensures AutonomyText(a) == AutonomyText(b) ==> a == b
  {
    assert |TierText(r)| == |TierText(q)| <==> r == q;
    assert |AutonomyText(a)| == |AutonomyText(b)| <==> a == b;
  }

  lemma ScopeInjective(s: Scope, t: Scope)
    requires Fields(SCOPE_FIELDS, ScopeValues(s)) == Fields(SCOPE_FIELDS, ScopeValues(t))
    ensures s == t
  {
    FieldsInjective(SCOPE_FIELDS, ScopeValues(s), ScopeValues(t));
    EnumTextsInjective(s.riskTier, t.riskTier, s.autonomyLevel, t.autonomyLevel);
    ClassOfText(s.dataClassification);
    ClassOfText(t.dataClassification);
    ModelsInjective(s.models, t.models);
    TextsInjective(s.allowedTools, t.allowedTools);
    TextsInjective(s.permissions, t.permissions);
    TextsInjective(s.humanApprovalPoints, t.humanApprovalPoints);
  }

  lemma ClaimsFieldsDistinct()
    ensures DistinctNames(CLAIMS_FIELDS)
  {
    assert forall i, j :: 0 <= i < j < |CLAIMS_FIELDS| ==>
      || |CLAIMS_FIELDS[i]| != |CLAIMS_FIELDS[j]|
      || CLAIMS_FIELDS[i][0] != CLAIMS_FIELDS[j][0] || CLAIMS_FIELDS[i][1] != CLAIMS_FIELDS[j][1];
  }

  lemma ClaimsValuesInjective(c: Claims, d: Claims, iso: int -> string)
    requires Injective(iso) && ClaimsValues(c, iso) == ClaimsValues(d, iso)
    ensures c == d
  {
    ClaimsTextsInjective(c, d, iso);
    ClaimsRecordsInjective(c, d, iso);
  }

  lemma ClaimsTextsInjective(c: Claims, d: Claims, iso: int -> string)
    requires Injective(iso) && ClaimsValues(c, iso) == ClaimsValues(d, iso)
    ensures c.authorizationId == d.authorizationId && c.issuer == d.issuer && c.audience == d.audience
    ensures c.issuedAt == d.issuedAt && c.notBefore == d.notBefore && c.expiresAt == d.expiresAt
    ensures c.scopeDigest == d.scopeDigest
  {
    var v, w := ClaimsValues(c, iso), ClaimsValues(d, iso);
    assert v[1] == w[1] && v[2] == w[2] && v[3] == w[3] && v[4] == w[4] && v[5] == w[5] && v[6] == w[6]
      && v[10] == w[10];
    TextsInjective(c.audience, d.audience);
  }

  lemma ClaimsRecordsInjective(c: Claims, d: Claims, iso: int -> string)
    requires ClaimsValues(c, iso) == ClaimsValues(d, iso)
    ensures c.subject == d.subject && c.request == d.request && c.scope == d.scope && c.policy == d.policy
  {
    var v, w := ClaimsValues(c, iso), ClaimsValues(d, iso);
    assert v[7] == w[7] && v[8] == w[8] && v[9] == w[9] && v[11] == w[11];
    SubjectInjective(c.subject, d.subject);
    RequestInjective(c.request, d.request);
    ScopeInjective(c.scope, d.scope);
    PolicyInjective(c.policy, d.policy);
  }

  lemma ClaimsInjective(c: Claims, d: Claims, iso: int -> string)
    requires Injective(iso)
    requires Fields(CLAIMS_FIELDS, ClaimsValues(c, iso)) == Fields(CLAIMS_FIELDS, ClaimsValues(d, iso))
    ensures c == d
  {
    ClaimsFieldsDistinct();
    FieldsInjective(CLAIMS_FIELDS, ClaimsValues(c, iso), ClaimsValues(d, iso));
    ClaimsValuesInjective(c, d, iso);
  }

  lemma ProtectedInjective(p: Protected, q: Protected)
    requires Fields(PROTECTED_FIELDS, ProtectedValues(p)) == Fields(PROTECTED_FIELDS, ProtectedValues(q))
    ensures p == q
  {
    FieldsInjective(PROTECTED_FIELDS, ProtectedValues(p), ProtectedValues(q));
    assert ProtectedValues(p)[2] == ProtectedValues(q)[2];
  }

  lemma EnvelopeInjective(pv: Value, cv: Value, qv: Value, dv: Value)
    requires CanonicalBytes(Dict(Fields(ENVELOPE_FIELDS, [pv, cv]))) ==
        CanonicalBytes(Dict(Fields(ENVELOPE_FIELDS, [qv, dv])))
    ensures pv == qv && cv == dv
  {
    CanonicalBytesInjective(Dict(Fields(ENVELOPE_FIELDS, [pv, cv])), Dict(Fields(ENVELOPE_FIELDS, [qv, dv])));
    FieldsInjective(ENVELOPE_FIELDS, [pv, cv], [qv, dv]);
    assert pv == [pv, cv][0] == [qv, dv][0] && cv == [pv, cv][1] == [qv, dv][1];
  }

  /** A signature over the bytes binds the key identifier and every claim. */
  lemma SigningBytesInjective(p: Protected, c: Claims, q: Protected, d: Claims, iso: int -> string)
    requires Injective(iso) && SigningBytes(p, c, iso) == SigningBytes(q, d, iso)
    ensures p == q && c == d
  {
    EnvelopeInjective(ProtectedValue(p), ClaimsValue(c, iso), ProtectedValue(q), ClaimsValue(d, iso));
    ProtectedInjective(p, q);
    ClaimsInjective(c, d, iso);
  }

  /** Governance and the Router compute the same signing bytes whatever order or repetition the
  set-like fields arrive in. */
  lemma SigningBytesIgnoreOrder(p: Protected, c: Claims, d: Claims, iso: int -> string)
    requires SameUpToOrder(c, d) && Validate(c).Some?
    ensures Validate(d).Some?
    ensures SigningBytes(p, Validate(c).value, iso) == SigningBytes(p, Validate(d).value, iso)
  {
    ValidateIgnoresOrder(c, d);
  }

  // ---------------------------------------------------------------------------------------------
  // The layout of the signed object, name by name
  // ---------------------------------------------------------------------------------------------

  /** What an object holds under a name. */
  function At(v: Value, name: string): Option<Value> {
    if v.Dict? && name in v.fields then Some(v.fields[name]) else None
  }

  function Names(v: Value): set<string> {
    if v.Dict? then v.fields.Keys else {}
  }

  predicate IsProtected(v: Value, p: Protected) {
    && Names(v) == {"typ", "alg", "kid"}
    && At(v, "typ") == Some(Text("application/vnd.verifiable-ai-governance.runtime-authorization+json"))
    && At(v, "alg") == Some(Text("Ed25519"))
    && At(v, "kid") == Some(Text(p.kid))
  }

  predicate IsPolicy(v: Value, p: PolicyProvenance) {
    && Names(v) == {"policy_id", "policy_version", "policy_digest", "control_catalog_id",
                    "control_catalog_version", "control_catalog_digest"}
    && At(v, "policy_id") == Some(Text(p.policyId))
    && At(v, "policy_version") == Some(Text(p.policyVersion))
    && At(v, "policy_digest") == Some(Text(p.policyDigest))
    && At(v, "control_catalog_id") == Some(Text(p.controlCatalogId))
    && At(v, "control_catalog_version") == Some(Text(p.controlCatalogVersion))
    && At(v, "control_catalog_digest") == Some(Text(p.controlCatalogDigest))
  }

  predicate IsSubject(v: Value, s: Subject) {
    && Names(v) == {"initiative_id", "ai_system_id", "ai_system_version", "agent_id",
                    "agent_version", "agent_review_digest"}
    && At(v, "initiative_id") == Some(Text(s.initiativeId))
    && At(v, "ai_system_id") == Some(Text(s.aiSystemId))
    && At(v, "ai_system_version") == Some(Int(s.aiSystemVersion))
    && At(v, "agent_id") == Some(Text(s.agentId))
    && At(v, "agent_version") == Some(Int(s.agentVersion))
    && At(v, "agent_review_digest") == Some(Text(s.agentReviewDigest))
  }

  predicate IsModel(v: Value, m: AuthorizedModel) {
    && Names(v) == {"model_id", "entity_version", "model_version", "routing_group",
                    "review_digest", "allowed_data_classes"}
    && At(v, "model_id") == Some(Text(m.modelId))
    && At(v, "entity_version") == Some(Int(m.entityVersion))
    && At(v, "model_version") == Some(Text(m.modelVersion))
    && At(v, "routing_group") == Some(Text(m.routingGroup))
    && At(v, "review_digest") == Some(Text(m.reviewDigest))
    && At(v, "allowed_data_classes").Some? && IsClasses(At(v, "allowed_data_classes").value, m.allowedDataClasses)
  }

  predicate RequestIds(v: Value, r: RequestBinding) {
    && At(v, "workflow_id") == Some(Text(r.workflowId))
    && At(v, "task_id") == Some(Text(r.taskId))
    && At(v, "workload") == Some(Text(r.workload))
    && At(v, "structured_output_required") == Some(Bool(r.structuredOutputRequired))
  }

  predicate RequestBounds(v: Value, r: RequestBinding) {
    && At(v, "context_tokens_estimated") == Some(Int(r.contextTokensEstimated))
    && At(v, "max_output_tokens_estimated") == Some(Int(r.maxOutputTokensEstimated))
    && At(v, "max_latency_ms") == Some(Int(r.maxLatencyMs))
    && At(v, "max_cost_usd_micros") == Some(Int(r.maxCostUsdMicros))
  }

  predicate IsRequest(v: Value, r: RequestBinding) {
    && Names(v) == {"workflow_id", "task_id", "workload", "context_tokens_estimated",
                    "max_output_tokens_estimated", "structured_output_required", "max_latency_ms",
                    "max_cost_usd_micros"}
    && RequestIds(v, r) && RequestBounds(v, r)
  }

  predicate IsModels(v: Value, ms: seq<AuthorizedModel>) {
    v.List? && |v.items| == |ms| && forall i :: 0 <= i < |ms| ==> IsModel(v.items[i], ms[i])
  }

  predicate IsTexts(v: Value, xs: seq<string>) {
    v.List? && |v.items| == |xs| && forall i :: 0 <= i < |xs| ==> v.items[i] == Text(xs[i])
  }

  predicate IsClasses(v: Value, cs: seq<DataClassification>) {
    v.List? && |v.items| == |cs| && forall i :: 0 <= i < |cs| ==> v.items[i] == Text(ClassText(cs[i]))
  }

  predicate ScopeFacts(v: Value, s: Scope) {
    && At(v, "risk_tier") == Some(Text(TierText(s.riskTier)))
    && At(v, "data_classification") == Some(Text(ClassText(s.dataClassification)))
    && At(v, "autonomy_level") == Some(Text(AutonomyText(s.autonomyLevel)))
    && At(v, "max_runtime_seconds") == Some(Int(s.maxRuntimeSeconds))
    && At(v, "kill_switch_enabled") == Some(Bool(true))
  }

  predicate ScopeLists(v: Value, s: Scope) {
    && At(v, "models").Some? && IsModels(At(v, "models").value, s.models)
    && At(v, "allowed_tools").Some? && IsTexts(At(v, "allowed_tools").value, s.allowedTools)
    && At(v, "permissions").Some? && IsTexts(At(v, "permissions").value, s.permissions)
    && At(v, "human_approval_points").Some? && IsTexts(At(v, "human_approval_points").value, s.humanApprovalPoints)
  }

  predicate IsScope(v: Value, s: Scope) {
    && Names(v) == {"risk_tier", "data_classification", "autonomy_level", "models",
                    "allowed_tools", "permissions", "max_runtime_seconds", "human_approval_points",
                    "kill_switch_enabled"}
    && ScopeFacts(v, s) && ScopeLists(v, s)
  }

  predicate ClaimsTexts(v: Value, c: Claims) {
    && At(v, "schema_version") == Some(Text("1.0"))
    && At(v, "authorization_id") == Some(Text(c.authorizationId))
    && At(v, "issuer") == Some(Text(c.issuer))
    && At(v, "scope_digest") == Some(Text(c.scopeDigest))
    && At(v, "audience").Some? && IsTexts(At(v, "audience").value, c.audience)
  }

  predicate ClaimsTimes(v: Value, c: Claims, iso: int -> string) {
    && At(v, "issued_at") == Some(Text(iso(c.issuedAt)))
    && At(v, "not_before") == Some(Text(iso(c.notBefore)))
    && At(v, "expires_at") == Some(Text(iso(c.expiresAt)))
  }

  predicate ClaimsRecords(v: Value, c: Claims) {
    && At(v, "subject").Some? && IsSubject(At(v, "subject").value, c.subject)
    && At(v, "request").Some? && IsRequest(At(v, "request").value, c.request)
    && At(v, "scope").Some? && IsScope(At(v, "scope").value, c.scope)
    && At(v, "policy").Some? && IsPolicy(At(v, "policy").value, c.policy)
  }

  predicate IsClaims(v: Value, c: Claims, iso: int -> string) {
    && Names(v) == {"schema_version", "authorization_id", "issuer", "audience", "issued_at",
                    "not_before", "expires_at", "subject", "request", "scope", "scope_digest",
                    "policy"}
    && ClaimsTexts(v, c) && ClaimsTimes(v, c, iso) && ClaimsRecords(v, c)
  }

  /** The object under the signature: every fact under its own name, the constants, and nothing else. */
  predicate IsSigned(v: Value, p: Protected, c: Claims, iso: int -> string) {
    && Names(v) == {"protected", "claims"}
    && At(v, "protected").Some? && IsProtected(At(v, "protected").value, p)
    && At(v, "claims").Some? && IsClaims(At(v, "claims").value, c, iso)
  }

  /** Every name carries the value listed at its position. */
  ghost predicate Carries(v: Value, names: seq<string>, values: seq<Value>) {
    |names| == |values| && forall i :: 0 <= i < |names| ==> At(v, names[i]) == Some(values[i])
  }

  lemma {:induction false} FieldsCarry(names: seq<string>, values: seq<Value>)
    requires DistinctNames(names) && |names| == |values|
    ensures Carries(Dict(Fields(names, values)), names, values)
    ensures Names(Dict(Fields(names, values))) == set k | k in names
  {
    FieldsKeys(names, values);
    if names != [] {
      FieldsCarry(names[1..], values[1..]);
      var all, rest := Dict(Fields(names, values)), Dict(Fields(names[1..], values[1..]));
      forall i | 0 <= i < |names| ensures At(all, names[i]) == Some(values[i]) {
        assert i > 0 ==> At(rest, names[1..][i - 1]) == Some(values[1..][i - 1]);
      }
    }
  }

  lemma ProtectedNames(v: Value, p: Protected)
    requires Carries(v, PROTECTED_FIELDS, ProtectedValues(p)) && Names(v) == set k | k in PROTECTED_FIELDS
    ensures IsProtected(v, p)
  {
    assert PROTECTED_FIELDS[0] == "typ" && PROTECTED_FIELDS[1] == "alg" && PROTECTED_FIELDS[2] == "kid";
  }

  lemma PolicyNames(v: Value, p: PolicyProvenance)
    requires Carries(v, POLICY_FIELDS, PolicyValues(p)) && Names(v) == set k | k in POLICY_FIELDS
    ensures IsPolicy(v, p)
  {
    assert POLICY_FIELDS[0] == "policy_id" && POLICY_FIELDS[1] == "policy_version"
      && POLICY_FIELDS[2] == "policy_digest" && POLICY_FIELDS[3] == "control_catalog_id"
      && POLICY_FIELDS[4] == "control_catalog_version" && POLICY_FIELDS[5] == "control_catalog_digest";
  }

  lemma SubjectNames(v: Value, s: Subject)
    requires Carries(v, SUBJECT_FIELDS, SubjectValues(s)) && Names(v) == set k | k in SUBJECT_FIELDS
    ensures IsSubject(v, s)
  {
    assert SUBJECT_FIELDS[0] == "initiative_id" && SUBJECT_FIELDS[1] == "ai_system_id"
      && SUBJECT_FIELDS[2] == "ai_system_version" && SUBJECT_FIELDS[3] == "agent_id"
      && SUBJECT_FIELDS[4] == "agent_version" && SUBJECT_FIELDS[5] == "agent_review_digest";
  }

  lemma ModelNames(v: Value, m: AuthorizedModel)
    requires Carries(v, MODEL_FIELDS, ModelValues(m)) && Names(v) == set k | k in MODEL_FIELDS
    ensures IsModel(v, m)
  {
    assert MODEL_FIELDS[0] == "model_id" && MODEL_FIELDS[1] == "entity_version"
      && MODEL_FIELDS[2] == "model_version" && MODEL_FIELDS[3] == "routing_group"
      && MODEL_FIELDS[4] == "review_digest" && MODEL_FIELDS[5] == "allowed_data_classes";
  }

  lemma RequestLookups(v: Value, r: RequestBinding)
    requires Carries(v, REQUEST_FIELDS, RequestValues(r))
    ensures RequestIds(v, r)
  {
    assert REQUEST_FIELDS[0] == "workflow_id" && REQUEST_FIELDS[1] == "task_id"
      && REQUEST_FIELDS[2] == "workload" && REQUEST_FIELDS[5] == "structured_output_required";
  }

  lemma RequestBoundLookups(v: Value, r: RequestBinding)
    requires Carries(v, REQUEST_FIELDS, RequestValues(r))
    ensures RequestBounds(v, r)
  {
    assert REQUEST_FIELDS[3] == "context_tokens_estimated"
      && REQUEST_FIELDS[4] == "max_output_tokens_estimated" && REQUEST_FIELDS[6] == "max_latency_ms"
      && REQUEST_FIELDS[7] == "max_cost_usd_micros";
  }

  lemma RequestNames()
    ensures (set k | k in REQUEST_FIELDS) ==
            {"workflow_id", "task_id", "workload", "context_tokens_estimated", "max_output_tokens_estimated",
             "structured_output_required", "max_latency_ms", "max_cost_usd_micros"}
  {
    assert REQUEST_FIELDS[0] == "workflow_id" && REQUEST_FIELDS[1] == "task_id"
      && REQUEST_FIELDS[2] == "workload" && REQUEST_FIELDS[3] == "context_tokens_estimated"
      && REQUEST_FIELDS[4] == "max_output_tokens_estimated"
      && REQUEST_FIELDS[5] == "structured_output_required" && REQUEST_FIELDS[6] == "max_latency_ms"
      && REQUEST_FIELDS[7] == "max_cost_usd_micros";
  }

  lemma ModelsLayout(ms: seq<AuthorizedModel>)
    ensures IsModels(Models(ms), ms)
  {
    forall i | 0 <= i < |ms| ensures IsModel(Models(ms).items[i], ms[i]) {
      FieldsCarry(MODEL_FIELDS, ModelValues(ms[i]));
      ModelNames(Models(ms).items[i], ms[i]);
    }
  }

  lemma ScopeFactLookups(v: Value, s: Scope)
    requires Carries(v, SCOPE_FIELDS, ScopeValues(s))
    ensures ScopeFacts(v, s)
  {
    assert SCOPE_FIELDS[0] == "risk_tier" && SCOPE_FIELDS[1] == "data_classification"
      && SCOPE_FIELDS[2] == "autonomy_level" && SCOPE_FIELDS[6] == "max_runtime_seconds"
      && SCOPE_FIELDS[8] == "kill_switch_enabled";
  }

  lemma ScopeListLookups(v: Value, s: Scope)
    requires Carries(v, SCOPE_FIELDS, ScopeValues(s))
    ensures ScopeLists(v, s)
  {
    ModelsLayout(s.models);
    assert SCOPE_FIELDS[3] == "models" && SCOPE_FIELDS[4] == "allowed_tools"
      && SCOPE_FIELDS[5] == "permissions" && SCOPE_FIELDS[7] == "human_approval_points";
  }

  lemma ScopeNames()
    ensures (set k | k in SCOPE_FIELDS) ==
            {"risk_tier", "data_classification", "autonomy_level", "models",
             "allowed_tools", "permissions", "max_runtime_seconds", "human_approval_points",
             "kill_switch_enabled"}
  {
    assert SCOPE_FIELDS[0] == "risk_tier" && SCOPE_FIELDS[1] == "data_classification"
      && SCOPE_FIELDS[2] == "autonomy_level" && SCOPE_FIELDS[3] == "models"
      && SCOPE_FIELDS[4] == "allowed_tools" && SCOPE_FIELDS[5] == "permissions"
      && SCOPE_FIELDS[6] == "max_runtime_seconds" && SCOPE_FIELDS[7] == "human_approval_points"
      && SCOPE_FIELDS[8] == "kill_switch_enabled";
  }

  lemma ScopeLayout(s: Scope)
    ensures IsScope(Dict(Fields(SCOPE_FIELDS, ScopeValues(s))), s)
  {
    FieldsCarry(SCOPE_FIELDS, ScopeValues(s));
    var v := Dict(Fields(SCOPE_FIELDS, ScopeValues(s)));
    ScopeFactLookups(v, s);
    ScopeListLookups(v, s);
    ScopeNames();
  }

  lemma ClaimsTextLookups(v: Value, c: Claims, iso: int -> string)
    requires Carries(v, CLAIMS_FIELDS, ClaimsValues(c, iso))
    ensures ClaimsTexts(v, c)
  {
    assert CLAIMS_FIELDS[0] == "schema_version" && CLAIMS_FIELDS[1] == "authorization_id"
      && CLAIMS_FIELDS[2] == "issuer" && CLAIMS_FIELDS[3] == "audience"
      && CLAIMS_FIELDS[10] == "scope_digest";
  }

  lemma ClaimsTimeLookups(v: Value, c: Claims, iso: int -> string)
    requires Carries(v, CLAIMS_FIELDS, ClaimsValues(c, iso))
    ensures ClaimsTimes(v, c, iso)
  {
    assert CLAIMS_FIELDS[4] == "issued_at" && CLAIMS_FIELDS[5] == "not_before"
      && CLAIMS_FIELDS[6] == "expires_at";
  }

  lemma ClaimsRecordLookups(v: Value, c: Claims, iso: int -> string)
    requires Carries(v, CLAIMS_FIELDS, ClaimsValues(c, iso))
    ensures At(v, "subject") == Some(Dict(Fields(SUBJECT_FIELDS, SubjectValues(c.subject))))
    ensures At(v, "request") == Some(Dict(Fields(REQUEST_FIELDS, RequestValues(c.request))))
    ensures At(v, "scope") == Some(Dict(Fields(SCOPE_FIELDS, ScopeValues(c.scope))))
    ensures At(v, "policy") == Some(Dict(Fields(POLICY_FIELDS, PolicyValues(c.policy))))
  {
    assert CLAIMS_FIELDS[7] == "subject" && CLAIMS_FIELDS[8] == "request" && CLAIMS_FIELDS[9] == "scope"
      && CLAIMS_FIELDS[11] == "policy";
  }

  lemma ClaimsNames()
    ensures (set k | k in CLAIMS_FIELDS) ==
            {"schema_version", "authorization_id", "issuer", "audience", "issued_at",
             "not_before", "expires_at", "subject", "request", "scope", "scope_digest",
             "policy"}
  {
    assert CLAIMS_FIELDS[0] == "schema_version" && CLAIMS_FIELDS[1] == "authorization_id"
      && CLAIMS_FIELDS[2] == "issuer" && CLAIMS_FIELDS[3] == "audience"
      && CLAIMS_FIELDS[4] == "issued_at" && CLAIMS_FIELDS[5] == "not_before"
      && CLAIMS_FIELDS[6] == "expires_at" && CLAIMS_FIELDS[7] == "subject"
      && CLAIMS_FIELDS[8] == "request" && CLAIMS_FIELDS[9] == "scope"
      && CLAIMS_FIELDS[10] == "scope_digest" && CLAIMS_FIELDS[11] == "policy";
  }

  lemma ClaimsRecordsLayout(v: Value, c: Claims, iso: int -> string)
    requires Carries(v, CLAIMS_FIELDS, ClaimsValues(c, iso))
    ensures ClaimsRecords(v, c)
  {
    ClaimsRecordLookups(v, c, iso);
    SubjectLayout(c.subject);
    RequestLayout(c.request);
    ScopeLayout(c.scope);
    PolicyLayout(c.policy);
  }

  lemma ClaimsLayout(c: Claims, iso: int -> string)
    ensures IsClaims(ClaimsValue(c, iso), c, iso)
  {
    ClaimsFieldsDistinct();
    FieldsCarry(CLAIMS_FIELDS, ClaimsValues(c, iso));
    var v := ClaimsValue(c, iso);
    ClaimsTextLookups(v, c, iso);
    ClaimsTimeLookups(v, c, iso);
    ClaimsRecordsLayout(v, c, iso);
    ClaimsNames();
  }

  lemma SubjectLayout(s: Subject)
    ensures IsSubject(Dict(Fields(SUBJECT_FIELDS, SubjectValues(s))), s)
  {
    FieldsCarry(SUBJECT_FIELDS, SubjectValues(s));
    SubjectNames(Dict(Fields(SUBJECT_FIELDS, SubjectValues(s))), s);
  }

  lemma RequestLayout(r: RequestBinding)
    ensures IsRequest(Dict(Fields(REQUEST_FIELDS, RequestValues(r))), r)
  {
    FieldsCarry(REQUEST_FIELDS, RequestValues(r));
    var v := Dict(Fields(REQUEST_FIELDS, RequestValues(r)));
    RequestLookups(v, r);
    RequestBoundLookups(v, r);
    RequestNames();
  }

  lemma PolicyLayout(p: PolicyProvenance)
    ensures IsPolicy(Dict(Fields(POLICY_FIELDS, PolicyValues(p))), p)
  {
    FieldsCarry(POLICY_FIELDS, PolicyValues(p));
    PolicyNames(Dict(Fields(POLICY_FIELDS, PolicyValues(p))), p);
  }

  /** The signing bytes are the canonical bytes of that object. */
  lemma SigningBytesLayout(p: Protected, c: Claims, iso: int -> string) returns (v: Value)
    ensures SigningBytes(p, c, iso) == CanonicalBytes(v) && IsSigned(v, p, c, iso)
  {
    var values := [ProtectedValue(p), ClaimsValue(c, iso)];
    v := Dict(Fields(ENVELOPE_FIELDS, values));
    FieldsCarry(ENVELOPE_FIELDS, values);
    EnvelopeNames(v, values[0], values[1]);
    FieldsCarry(PROTECTED_FIELDS, ProtectedValues(p));
    ProtectedNames(ProtectedValue(p), p);
    ClaimsLayout(c, iso);
  }

  lemma EnvelopeNames(v: Value, pv: Value, cv: Value)
    requires Carries(v, ENVELOPE_FIELDS, [pv, cv]) && Names(v) == set k | k in ENVELOPE_FIELDS
    ensures Names(v) == {"protected", "claims"}
    ensures At(v, "protected") == Some(pv) && At(v, "claims") == Some(cv)
  {
    assert ENVELOPE_FIELDS[0] == "protected" && ENVELOPE_FIELDS[1] == "claims";
  }
}
