/** The routing use case: nine ordered constraints over every candidate group, and the mapped group of
the workload selected only if it passes them all. */
module Routing {
  import opened Wrappers
  import opened Ordering
  import opened Vocabulary

  datatype RouteRequest = RouteRequest(
    requestedAt: int, workflowId: string, taskId: string, agentName: string, workload: string,
    riskLevel: RiskLevel, dataClassification: DataClassification,
    contextTokensEstimated: nat, maxOutputTokensEstimated: nat,
    structuredOutputRequired: bool, maxLatencyMs: int, maxCostUsd: real)

  function TokenCost(tokens: nat, pricePerMillion: real): real {
    tokens as real * pricePerMillion / 1000000.0
  }

  datatype ModelGroupProfile = ModelGroupProfile(
    authorizedDataClassifications: set<DataClassification>, authorizedRiskLevels: set<RiskLevel>,
    supportsStructuredOutput: bool, supportsToolCalling: bool,
    maxContextTokens: int, typicalLatencyMs: int,
    inputCostUsdPerMillionTokens: real, outputCostUsdPerMillionTokens: real,
    available: bool, allowedAgents: set<string>, staged: bool)
  {
    function EstimatedCost(inputTokens: nat, outputTokens: nat): real {
      TokenCost(inputTokens, inputCostUsdPerMillionTokens) + TokenCost(outputTokens, outputCostUsdPerMillionTokens)
    }
  }

  datatype WorkloadRule = WorkloadRule(modelGroup: string, requiresToolCalling: bool)

  datatype RoutingPolicy = RoutingPolicy(
    policyId: string, policyVersion: string, policyDigest: string,
    modelGroups: map<string, ModelGroupProfile>, workloads: map<string, WorkloadRule>)

  // ---------------------------------------------------------------------------------------------
  // Constraints
  // ---------------------------------------------------------------------------------------------

  type Constraint = (RouteRequest, ModelGroupProfile, WorkloadRule) -> Option<ReasonCode>

  function Unless(satisfied: bool, code: ReasonCode): Option<ReasonCode> {
    if satisfied then None else Some(code)
  }

  function CheckDataClassification(r: RouteRequest, p: ModelGroupProfile, w: WorkloadRule): Option<ReasonCode> {
    Unless(r.dataClassification in p.authorizedDataClassifications, DataClassificationNotAuthorized)
  }

  function CheckRiskLevel(r: RouteRequest, p: ModelGroupProfile, w: WorkloadRule): Option<ReasonCode> {
    Unless(r.riskLevel in p.authorizedRiskLevels, RiskLevelNotAuthorized)
  }

  function CheckStructuredOutput(r: RouteRequest, p: ModelGroupProfile, w: WorkloadRule): Option<ReasonCode> {
    Unless(!r.structuredOutputRequired || p.supportsStructuredOutput, StructuredOutputUnsupported)
  }

  function CheckToolCalling(r: RouteRequest, p: ModelGroupProfile, w: WorkloadRule): Option<ReasonCode> {
    Unless(!w.requiresToolCalling || p.supportsToolCalling, ToolCallingUnsupported)
  }

  function CheckContextWindow(r: RouteRequest, p: ModelGroupProfile, w: WorkloadRule): Option<ReasonCode> {
    Unless(r.contextTokensEstimated + r.maxOutputTokensEstimated <= p.maxContextTokens, ContextWindowExceeded)
  }

  function CheckMaxCost(r: RouteRequest, p: ModelGroupProfile, w: WorkloadRule): Option<ReasonCode> {
    Unless(p.EstimatedCost(r.contextTokensEstimated, r.maxOutputTokensEstimated) <= r.maxCostUsd, CostCeilingExceeded)
  }

  function CheckMaxLatency(r: RouteRequest, p: ModelGroupProfile, w: WorkloadRule): Option<ReasonCode> {
    Unless(p.typicalLatencyMs <= r.maxLatencyMs, LatencyCeilingExceeded)
  }

  function CheckAvailability(r: RouteRequest, p: ModelGroupProfile, w: WorkloadRule): Option<ReasonCode> {
    Unless(p.available, ModelGroupUnavailable)
  }

  function CheckAgentAllowlist(r: RouteRequest, p: ModelGroupProfile, w: WorkloadRule): Option<ReasonCode> {
    Unless(p.allowedAgents == {} || r.agentName in p.allowedAgents, AgentNotAllowed)
  }

  const CONSTRAINTS: seq<Constraint> := [
    CheckDataClassification, CheckRiskLevel, CheckStructuredOutput, CheckToolCalling, CheckContextWindow,
    CheckMaxCost, CheckMaxLatency, CheckAvailability, CheckAgentAllowlist
  ]

  /** The position of the first constraint a candidate fails, or their number. */
  ghost predicate FailsFirstAt(r: RouteRequest, p: ModelGroupProfile, w: WorkloadRule, i: nat) {
    && i <= |CONSTRAINTS|
    && (forall j :: 0 <= j < i ==> CONSTRAINTS[j](r, p, w).None?)
    && (i < |CONSTRAINTS| ==> CONSTRAINTS[i](r, p, w).Some?)
  }

  /** The code of the first constraint in order that a candidate fails, if any. */
  ghost predicate FirstFailureIs(r: RouteRequest, p: ModelGroupProfile, w: WorkloadRule, code: Option<ReasonCode>) {
    exists i: nat :: FailsFirstAt(r, p, w, i) && code == if i < |CONSTRAINTS| then CONSTRAINTS[i](r, p, w) else None
  }

  lemma FirstFailureUnique(r: RouteRequest, p: ModelGroupProfile, w: WorkloadRule,
                           a: Option<ReasonCode>, b: Option<ReasonCode>)
    requires FirstFailureIs(r, p, w, a) && FirstFailureIs(r, p, w, b)
    ensures a == b
  {
    var i: nat :| FailsFirstAt(r, p, w, i) && a == if i < |CONSTRAINTS| then CONSTRAINTS[i](r, p, w) else None;
    var j: nat :| FailsFirstAt(r, p, w, j) && b == if j < |CONSTRAINTS| then CONSTRAINTS[j](r, p, w) else None;
    assert i == j;
  }

  /** Each constraint reports its own code, so a code names the constraint that failed. */
  lemma CodesNameConstraints(r: RouteRequest, p: ModelGroupProfile, w: WorkloadRule, i: nat, j: nat)
    requires i < |CONSTRAINTS| && j < |CONSTRAINTS|
    requires CONSTRAINTS[i](r, p, w).Some? && CONSTRAINTS[i](r, p, w) == CONSTRAINTS[j](r, p, w)
    ensures i == j && CONSTRAINTS[i](r, p, w) != Some(WorkloadMappedElsewhere)
  {
  }

  // ---------------------------------------------------------------------------------------------
  // The decision
  // ---------------------------------------------------------------------------------------------

  /** Effective availability of a candidate set, given the flags the policy declares for it. */
  type AvailabilityProvider = map<string, bool> -> map<string, bool>

  function Declared(groups: map<string, ModelGroupProfile>): map<string, bool> {
    map g | g in groups :: groups[g].available
  }

  /** The groups evaluated: the whole catalog to explain, the mapped group alone otherwise. */
  function Candidates(policy: RoutingPolicy, selected: string, explain: bool): map<string, ModelGroupProfile>
    requires explain || selected in policy.modelGroups
  {
    if explain then policy.modelGroups else map[selected := policy.modelGroups[selected]]
  }

  /** A group the provider omits is unavailable. */
  predicate IsAvailable(provider: AvailabilityProvider, groups: map<string, ModelGroupProfile>, g: string) {
    g in provider(Declared(groups)) && provider(Declared(groups))[g]
  }

  function EffectiveProfile(provider: AvailabilityProvider, groups: map<string, ModelGroupProfile>, g: string)
    : ModelGroupProfile
    requires g in groups
  {
    groups[g].(available := IsAvailable(provider, groups, g))
  }

  datatype RejectedCandidate = RejectedCandidate(modelGroup: string, reasonCode: ReasonCode)

  datatype RouteOutcome =
    | Routed(selected: string, rejectedCandidates: seq<RejectedCandidate>, policyDigest: string)
    | NoViableModelGroup(rejected: string, reasonCode: ReasonCode, policyDigest: string)
    | IncompleteRoutingPolicy
    | UndeclaredGroup            // the bare `KeyError` of a policy that was never checked

  /** The list explains every declared group but the selected one, once each, by identifier. */
  ghost predicate Explains(policy: RoutingPolicy, provider: AvailabilityProvider, r: RouteRequest, w: WorkloadRule,
                           rejected: seq<RejectedCandidate>) {
    var ids := seq(|rejected|, i requires 0 <= i < |rejected| => rejected[i].modelGroup);
    && StrictlySorted(ids)
    && Elements(ids) == policy.modelGroups.Keys - {w.modelGroup}
    && forall i :: 0 <= i < |rejected| ==>
         Explained(policy, provider, r, w, rejected[i].modelGroup, rejected[i].reasonCode)
  }

  /** A candidate's code is its first failing constraint, or says that it passes all nine. */
  ghost predicate Explained(policy: RoutingPolicy, provider: AvailabilityProvider, r: RouteRequest, w: WorkloadRule,
                            g: string, code: ReasonCode) {
    g in policy.modelGroups && FirstFailureIs(r, EffectiveProfile(provider, policy.modelGroups, g), w,
      if code.WorkloadMappedElsewhere? then None else Some(code))
  }

  ghost predicate Decides(policy: RoutingPolicy, provider: AvailabilityProvider, r: RouteRequest, explain: bool,
                          outcome: RouteOutcome) {
    if r.workload !in policy.workloads then outcome.IncompleteRoutingPolicy?
    else
      var w := policy.workloads[r.workload];
      if w.modelGroup !in policy.modelGroups then
        if explain then
          && outcome.Routed? && outcome.selected == w.modelGroup && outcome.policyDigest == policy.policyDigest
          && Explains(policy, provider, r, w, outcome.rejectedCandidates)
        else outcome.UndeclaredGroup?
      else
        var groups := Candidates(policy, w.modelGroup, explain);
        var profile := EffectiveProfile(provider, groups, w.modelGroup);
        match outcome
        case NoViableModelGroup(g, code, digest) =>
          g == w.modelGroup && digest == policy.policyDigest && FirstFailureIs(r, profile, w, Some(code))
        case Routed(g, rejected, digest) =>
          && g == w.modelGroup && digest == policy.policyDigest
          && FirstFailureIs(r, profile, w, None)
          && if explain then Explains(policy, provider, r, w, rejected) else rejected == []
        case _ => false
  }

  function Reason(reasons: map<string, ReasonCode>, g: string): Option<ReasonCode> {
    if g in reasons then Some(reasons[g]) else None
  }

  /** The table holds the first failure of each evaluated candidate that has one. */
  ghost predicate Reasons(provider: AvailabilityProvider, groups: map<string, ModelGroupProfile>, done: set<string>,
                          r: RouteRequest, w: WorkloadRule, reasons: map<string, ReasonCode>)
    requires done <= groups.Keys
  {
    forall g :: g in done ==> FirstFailureIs(r, EffectiveProfile(provider, groups, g), w, Reason(reasons, g))
  }

  class RouteModelUseCase {
    const policy: RoutingPolicy
    const provider: AvailabilityProvider

    constructor (policy: RoutingPolicy, provider: AvailabilityProvider)
      ensures this.policy == policy && this.provider == provider
    {
      this.policy, this.provider := policy, provider;
    }

    method FirstFailure(r: RouteRequest, p: ModelGroupProfile, w: WorkloadRule) returns (failure: Option<ReasonCode>)
      ensures FirstFailureIs(r, p, w, failure) && failure == ReasonFor(r, p, w)
    {
      FailsAtReason(r, p, w);
      for i := 0 to |CONSTRAINTS|
        invariant forall j :: 0 <= j < i ==> CONSTRAINTS[j](r, p, w).None?
      {
        failure := CONSTRAINTS[i](r, p, w);
        if failure.Some? {
          assert FailsFirstAt(r, p, w, i);
          FirstFailureUnique(r, p, w, failure, ReasonFor(r, p, w));
          return;
        }
      }
      assert FailsFirstAt(r, p, w, |CONSTRAINTS|);
      FirstFailureUnique(r, p, w, None, ReasonFor(r, p, w));
      return None;
    }

    method Route(r: RouteRequest, explain: bool) returns (outcome: RouteOutcome)
      ensures Decides(policy, provider, r, explain, outcome)
    {
      if r.workload !in policy.workloads {
        return IncompleteRoutingPolicy;
      }
      var w := policy.workloads[r.workload];
      var selected := w.modelGroup;
      if !explain && selected !in policy.modelGroups {
        return UndeclaredGroup;
      }
      var candidates := Candidates(policy, selected, explain);
      var effective := provider(Declared(candidates));
      var reasons: map<string, ReasonCode> := map[];
      var remaining := candidates.Keys;
      while remaining != {}
        invariant remaining <= candidates.Keys && reasons.Keys <= candidates.Keys - remaining
        invariant Reasons(provider, candidates, candidates.Keys - remaining, r, w, reasons)
        decreases remaining
      {
        var g :| g in remaining;
        remaining := remaining - {g};
        var profile := candidates[g].(available := g in effective && effective[g]);
        var failure := FirstFailure(r, profile, w);
        if failure.Some? {
          reasons := reasons[g := failure.value];
        }
      }
      if selected in reasons {
        return NoViableModelGroup(selected, reasons[selected], policy.policyDigest);
      }
      var rejected: seq<RejectedCandidate> := [];
      if explain {
        rejected := Explanation(r, w, reasons);
      }
      outcome := Routed(selected, rejected, policy.policyDigest);
    }

    method SortedIds(ids: set<string>) returns (sorted: seq<string>)
      ensures StrictlySorted(sorted) && Elements(sorted) == ids
    {
      sorted := SortedStrings(ids);
    }

    /** The rejected candidates, sorted by identifier. */
    method Explanation(r: RouteRequest, w: WorkloadRule, reasons: map<string, ReasonCode>)
      returns (rejected: seq<RejectedCandidate>)
      requires Reasons(provider, policy.modelGroups, policy.modelGroups.Keys, r, w, reasons)
      ensures Explains(policy, provider, r, w, rejected)
    {
      rejected := [];
      var ids := SortedIds(policy.modelGroups.Keys);
      for i := 0 to |ids|
        invariant |rejected| == |Others(ids, i, w.modelGroup)|
        invariant forall j :: 0 <= j < |rejected| ==> rejected[j].modelGroup == Others(ids, i, w.modelGroup)[j]
        invariant forall j :: 0 <= j < |rejected| ==>
                    Explained(policy, provider, r, w, rejected[j].modelGroup, rejected[j].reasonCode)
      {
        var g := ids[i];
        if g != w.modelGroup {
          assert g in Elements(ids);
          var code := if g in reasons then reasons[g] else WorkloadMappedElsewhere;
          ExplainedByReason(policy, provider, r, w, g, reasons);
          rejected := rejected + [RejectedCandidate(g, code)];
        }
      }
      OthersExplain(policy, provider, r, w, ids, rejected);
    }
  }

  lemma ExplainedByReason(policy: RoutingPolicy, provider: AvailabilityProvider, r: RouteRequest, w: WorkloadRule,
                          g: string, reasons: map<string, ReasonCode>)
    requires g in policy.modelGroups && Reasons(provider, policy.modelGroups, policy.modelGroups.Keys, r, w, reasons)
    ensures Explained(policy, provider, r, w, g, if g in reasons then reasons[g] else WorkloadMappedElsewhere)
  {
    CodeIsNotMappedElsewhere(r, EffectiveProfile(provider, policy.modelGroups, g), w, Reason(reasons, g));
  }

  lemma OthersExplain(policy: RoutingPolicy, provider: AvailabilityProvider, r: RouteRequest, w: WorkloadRule,
                      ids: seq<string>, rejected: seq<RejectedCandidate>)
    requires StrictlySorted(ids) && Elements(ids) == policy.modelGroups.Keys
    requires var others := Others(ids, |ids|, w.modelGroup);
             |rejected| == |others| && forall j :: 0 <= j < |rejected| ==> rejected[j].modelGroup == others[j]
    requires forall j :: 0 <= j < |rejected| ==>
               Explained(policy, provider, r, w, rejected[j].modelGroup, rejected[j].reasonCode)
    ensures Explains(policy, provider, r, w, rejected)
  {
    OthersSorted(ids, |ids|, w.modelGroup);
    assert ids[..|ids|] == ids;
    assert seq(|rejected|, i requires 0 <= i < |rejected| => rejected[i].modelGroup) ==
      Others(ids, |ids|, w.modelGroup);
  }

  /** The first `n` identifiers without the selected one. */
  function Others(ids: seq<string>, n: nat, selected: string): seq<string>
    requires n <= |ids|
  {
    if n == 0 then [] else Others(ids, n - 1, selected) + if ids[n - 1] != selected then [ids[n - 1]] else []
  }

  lemma {:induction false} OthersSorted(ids: seq<string>, n: nat, selected: string)
    requires n <= |ids| && StrictlySorted(ids)
    ensures StrictlySorted(Others(ids, n, selected))
    ensures Elements(Others(ids, n, selected)) == Elements(ids[..n]) - {selected}
  {
    if n > 0 {
      var others, last := Others(ids, n - 1, selected), ids[n - 1];
      OthersSorted(ids, n - 1, selected);
      assert ids[..n] == ids[..n - 1] + [last];
      assert Elements(ids[..n]) == Elements(ids[..n - 1]) + {last};
      forall j | 0 <= j < |others| ensures StringLess(others[j], last) {
        assert others[j] in Elements(others);
        var k :| 0 <= k < n - 1 && ids[..n - 1][k] == others[j];
        assert ids[k] == others[j];
      }
      assert Elements(others + [last]) == Elements(others) + {last};
    }
  }

  lemma CodeIsNotMappedElsewhere(r: RouteRequest, p: ModelGroupProfile, w: WorkloadRule, code: Option<ReasonCode>)
    requires FirstFailureIs(r, p, w, code)
    ensures code != Some(WorkloadMappedElsewhere)
  {
    var i: nat :| FailsFirstAt(r, p, w, i) && code == if i < |CONSTRAINTS| then CONSTRAINTS[i](r, p, w) else None;
    if i < |CONSTRAINTS| {
      CodesNameConstraints(r, p, w, i, i);
    }
  }

  // ---------------------------------------------------------------------------------------------
  // The cheap path and the explaining path
  // ---------------------------------------------------------------------------------------------

  predicate Answer(provider: AvailabilityProvider, declared: map<string, bool>, g: string) {
    g in provider(declared) && provider(declared)[g]
  }

  /** The provider's answer for a group depends only on that group and its declared flag. */
  ghost predicate Pointwise(provider: AvailabilityProvider) {
    forall m: map<string, bool>, n: map<string, bool>, g: string ::
      g in m && g in n && m[g] == n[g] ==> Answer(provider, m, g) == Answer(provider, n, g)
  }

  /** The same group selected, or the same denial, under the same policy. */
  predicate SameChoice(a: RouteOutcome, b: RouteOutcome) {
    if a.Routed? && b.Routed? then a.selected == b.selected && a.policyDigest == b.policyDigest else a == b
  }

  /** Whether the workload's mapped group is declared: what the loader checks for every workload. */
  predicate MappingDeclared(policy: RoutingPolicy, workload: string) {
    workload in policy.workloads ==> policy.workloads[workload].modelGroup in policy.modelGroups
  }

  /** Asking for an explanation never changes the choice, for exactly the policies that declare the
  group a workload maps to. */
  lemma PathsAgreeExactly(policy: RoutingPolicy, provider: AvailabilityProvider, r: RouteRequest,
                          explained: RouteOutcome, cheap: RouteOutcome)
    requires Pointwise(provider)
    requires Decides(policy, provider, r, true, explained) && Decides(policy, provider, r, false, cheap)
    ensures SameChoice(explained, cheap) <==> MappingDeclared(policy, r.workload)
  {
    if r.workload in policy.workloads {
      var w := policy.workloads[r.workload];
      var g := w.modelGroup;
      if g in policy.modelGroups {
        var all, one := policy.modelGroups, Candidates(policy, g, false);
        assert Answer(provider, Declared(all), g) == Answer(provider, Declared(one), g);
        var profile := EffectiveProfile(provider, all, g);
        assert profile == EffectiveProfile(provider, one, g);
        var a := if explained.Routed? then None else Some(explained.reasonCode);
        var b := if cheap.Routed? then None else Some(cheap.reasonCode);
        FirstFailureUnique(r, profile, w, a, b);
      }
    }
  }

  /** The outcome is determined: which order the candidates were evaluated in cannot show. */
  lemma DecisionUnique(policy: RoutingPolicy, provider: AvailabilityProvider, r: RouteRequest, explain: bool,
                       a: RouteOutcome, b: RouteOutcome)
    requires Decides(policy, provider, r, explain, a) && Decides(policy, provider, r, explain, b)
    ensures a == b
  {
    if r.workload in policy.workloads {
      var w := policy.workloads[r.workload];
      if w.modelGroup in policy.modelGroups {
        var profile := EffectiveProfile(provider, Candidates(policy, w.modelGroup, explain), w.modelGroup);
        FirstFailureUnique(r, profile, w, if a.Routed? then None else Some(a.reasonCode),
                                          if b.Routed? then None else Some(b.reasonCode));
      }
      if explain && a.Routed? {
        ExplanationUnique(policy, provider, r, w, a.rejectedCandidates, b.rejectedCandidates);
      }
    }
  }

  lemma ExplanationUnique(policy: RoutingPolicy, provider: AvailabilityProvider, r: RouteRequest, w: WorkloadRule,
                          a: seq<RejectedCandidate>, b: seq<RejectedCandidate>)
    requires Explains(policy, provider, r, w, a) && Explains(policy, provider, r, w, b)
    ensures a == b
  {
    var x := seq(|a|, i requires 0 <= i < |a| => a[i].modelGroup);
    var y := seq(|b|, i requires 0 <= i < |b| => b[i].modelGroup);
    SortedUnique(x, y);
    forall i | 0 <= i < |a| ensures a[i] == b[i] {
      var g := x[i];
      assert g == a[i].modelGroup == b[i].modelGroup;
      ExplainedUnique(policy, provider, r, w, g, a[i].reasonCode, b[i].reasonCode);
    }
  }

  lemma ExplainedUnique(policy: RoutingPolicy, provider: AvailabilityProvider, r: RouteRequest, w: WorkloadRule,
                        g: string, c: ReasonCode, d: ReasonCode)
    requires Explained(policy, provider, r, w, g, c) && Explained(policy, provider, r, w, g, d)
    ensures c == d
  {
    FirstFailureUnique(r, EffectiveProfile(provider, policy.modelGroups, g), w,
                       if c.WorkloadMappedElsewhere? then None else Some(c),
                       if d.WorkloadMappedElsewhere? then None else Some(d));
  }

  // ---------------------------------------------------------------------------------------------
  // The decision as a function
  // ---------------------------------------------------------------------------------------------

  function FirstFailureFrom(r: RouteRequest, p: ModelGroupProfile, w: WorkloadRule, i: nat): Option<ReasonCode>
    requires i <= |CONSTRAINTS|
    decreases |CONSTRAINTS| - i
  {
    if i == |CONSTRAINTS| then None
    else if CONSTRAINTS[i](r, p, w).Some? then CONSTRAINTS[i](r, p, w)
    else FirstFailureFrom(r, p, w, i + 1)
  }

  lemma {:induction false} FirstFailureFromIs(r: RouteRequest, p: ModelGroupProfile, w: WorkloadRule, i: nat)
    requires i <= |CONSTRAINTS| && forall j :: 0 <= j < i ==> CONSTRAINTS[j](r, p, w).None?
    ensures FirstFailureIs(r, p, w, FirstFailureFrom(r, p, w, i))
    decreases |CONSTRAINTS| - i
  {
    if i == |CONSTRAINTS| || CONSTRAINTS[i](r, p, w).Some? {
      assert FailsFirstAt(r, p, w, i);
    } else {
      FirstFailureFromIs(r, p, w, i + 1);
    }
  }

  /** Passing the nine checks, by name, is having no first failure. */
  lemma PassesAllNine(r: RouteRequest, p: ModelGroupProfile, w: WorkloadRule)
    ensures FirstFailureFrom(r, p, w, 0) == None <==>
              && r.dataClassification in p.authorizedDataClassifications
              && r.riskLevel in p.authorizedRiskLevels
              && (r.structuredOutputRequired ==> p.supportsStructuredOutput)
              && (w.requiresToolCalling ==> p.supportsToolCalling)
              && r.contextTokensEstimated + r.maxOutputTokensEstimated <= p.maxContextTokens
              && p.EstimatedCost(r.contextTokensEstimated, r.maxOutputTokensEstimated) <= r.maxCostUsd
              && p.typicalLatencyMs <= r.maxLatencyMs
              && p.available
              && (p.allowedAgents == {} || r.agentName in p.allowedAgents)
  {
    var code := FirstFailureFrom(r, p, w, 0);
    FirstFailureFromIs(r, p, w, 0);
    var i: nat :| FailsFirstAt(r, p, w, i) && code == if i < |CONSTRAINTS| then CONSTRAINTS[i](r, p, w) else None;
    if i == |CONSTRAINTS| {
      assert forall j :: 0 <= j < |CONSTRAINTS| ==> CONSTRAINTS[j](r, p, w).None?;
    }
  }

  /** The nine conditions in their order, each with its reason code. */
  function ReasonFor(r: RouteRequest, p: ModelGroupProfile, w: WorkloadRule): Option<ReasonCode> {
    if r.dataClassification !in p.authorizedDataClassifications then Some(DataClassificationNotAuthorized)
    else if r.riskLevel !in p.authorizedRiskLevels then Some(RiskLevelNotAuthorized)
    else if r.structuredOutputRequired && !p.supportsStructuredOutput then Some(StructuredOutputUnsupported)
    else if w.requiresToolCalling && !p.supportsToolCalling then Some(ToolCallingUnsupported)
    else if r.contextTokensEstimated + r.maxOutputTokensEstimated > p.maxContextTokens then
      Some(ContextWindowExceeded)
    else if r.contextTokensEstimated as real * p.inputCostUsdPerMillionTokens / 1000000.0
            + r.maxOutputTokensEstimated as real * p.outputCostUsdPerMillionTokens / 1000000.0 > r.maxCostUsd then
      Some(CostCeilingExceeded)
    else if p.typicalLatencyMs > r.maxLatencyMs then Some(LatencyCeilingExceeded)
    else if !p.available then Some(ModelGroupUnavailable)
    else if p.allowedAgents != {} && r.agentName !in p.allowedAgents then Some(AgentNotAllowed)
    else None
  }

  /** The failure reported is the first of these, in this order and under this code. */
  lemma FirstFailureExactly(r: RouteRequest, p: ModelGroupProfile, w: WorkloadRule, code: Option<ReasonCode>)
    ensures FirstFailureIs(r, p, w, code) <==> code == ReasonFor(r, p, w)
  {
    FailsAtReason(r, p, w);
    if FirstFailureIs(r, p, w, code) {
      FirstFailureUnique(r, p, w, code, ReasonFor(r, p, w));
    }
  }

  function PositionOf(code: Option<ReasonCode>): nat {
    match code
    case Some(DataClassificationNotAuthorized) => 0
    case Some(RiskLevelNotAuthorized) => 1
    case Some(StructuredOutputUnsupported) => 2
    case Some(ToolCallingUnsupported) => 3
    case Some(ContextWindowExceeded) => 4
    case Some(CostCeilingExceeded) => 5
    case Some(LatencyCeilingExceeded) => 6
    case Some(ModelGroupUnavailable) => 7
    case Some(AgentNotAllowed) => 8
    case _ => 9
  }

  lemma FailsAtReason(r: RouteRequest, p: ModelGroupProfile, w: WorkloadRule)
    ensures FirstFailureIs(r, p, w, ReasonFor(r, p, w))
  {
    assert FailsFirstAt(r, p, w, PositionOf(ReasonFor(r, p, w)));
  }

  /** Every outcome, condition by condition: which groups are asked for, and what decides. */
  lemma OutcomeExactly(policy: RoutingPolicy, provider: AvailabilityProvider, r: RouteRequest, explain: bool,
                       outcome: RouteOutcome)
    requires Decides(policy, provider, r, explain, outcome)
    ensures outcome.IncompleteRoutingPolicy? <==> r.workload !in policy.workloads
    ensures r.workload in policy.workloads ==>
              var w, groups := policy.workloads[r.workload], policy.modelGroups;
              && (outcome.UndeclaredGroup? <==> !explain && w.modelGroup !in groups)
              && (w.modelGroup in groups ==>
                    var effective :=
                      provider(map g | g in groups && (explain || g == w.modelGroup) :: groups[g].available);
                    var available := w.modelGroup in effective && effective[w.modelGroup];
                    match ReasonFor(r, groups[w.modelGroup].(available := available), w)
                    case None =>
                      && outcome.Routed? && outcome.selected == w.modelGroup
                      && outcome.policyDigest == policy.policyDigest
                      && (!explain ==> outcome.rejectedCandidates == [])
                    case Some(code) => outcome == NoViableModelGroup(w.modelGroup, code, policy.policyDigest))
  {
    if r.workload in policy.workloads && policy.workloads[r.workload].modelGroup in policy.modelGroups {
      var w, groups := policy.workloads[r.workload], policy.modelGroups;
      var candidates := Candidates(policy, w.modelGroup, explain);
      assert Declared(candidates) == map g | g in groups && (explain || g == w.modelGroup) :: groups[g].available;
      FirstFailureExactly(r, EffectiveProfile(provider, candidates, w.modelGroup), w,
                          if outcome.Routed? then None else Some(outcome.reasonCode));
    }
  }

  /** Every explained candidate has its own first failing condition, or passes and is mapped elsewhere. */
  lemma ExplainedExactly(policy: RoutingPolicy, provider: AvailabilityProvider, r: RouteRequest, w: WorkloadRule,
                         g: string, code: ReasonCode)
    requires Explained(policy, provider, r, w, g, code)
    ensures var groups := policy.modelGroups;
            var effective := provider(map h | h in groups :: groups[h].available);
            var available := g in effective && effective[g];
            match ReasonFor(r, groups[g].(available := available), w)
            case None => code == WorkloadMappedElsewhere
            case Some(failure) => code == failure
  {
    var groups := policy.modelGroups;
    assert Declared(groups) == map h | h in groups :: groups[h].available;
    FirstFailureExactly(r, EffectiveProfile(provider, groups, g), w,
                        if code.WorkloadMappedElsewhere? then None else Some(code));
  }

  function FailureOf(provider: AvailabilityProvider, groups: map<string, ModelGroupProfile>, r: RouteRequest,
                     w: WorkloadRule, g: string): Option<ReasonCode>
    requires g in groups
  {
    FirstFailureFrom(r, EffectiveProfile(provider, groups, g), w, 0)
  }

  function ExplanationOf(policy: RoutingPolicy, provider: AvailabilityProvider, r: RouteRequest, w: WorkloadRule)
    : seq<RejectedCandidate>
  {
    var ids := SortedStrings(policy.modelGroups.Keys - {w.modelGroup});
    seq(|ids|, i requires 0 <= i < |ids| =>
      RejectedCandidate(ids[i], CandidateCode(policy, provider, r, w, ids[i])))
  }

  function CandidateCode(policy: RoutingPolicy, provider: AvailabilityProvider, r: RouteRequest, w: WorkloadRule,
                         g: string): ReasonCode
  {
    if g !in policy.modelGroups then WorkloadMappedElsewhere
    else
      var failure := FailureOf(provider, policy.modelGroups, r, w, g);
      if failure.Some? then failure.value else WorkloadMappedElsewhere
  }

  function RouteOf(policy: RoutingPolicy, provider: AvailabilityProvider, r: RouteRequest, explain: bool)
    : RouteOutcome
  {
    if r.workload !in policy.workloads then IncompleteRoutingPolicy
    else
      var w := policy.workloads[r.workload];
      var rejected := if explain then ExplanationOf(policy, provider, r, w) else [];
      if w.modelGroup !in policy.modelGroups then
        if explain then Routed(w.modelGroup, rejected, policy.policyDigest) else UndeclaredGroup
      else
        var failure := FailureOf(provider, Candidates(policy, w.modelGroup, explain), r, w, w.modelGroup);
        if failure.Some? then NoViableModelGroup(w.modelGroup, failure.value, policy.policyDigest)
        else Routed(w.modelGroup, rejected, policy.policyDigest)
  }

  lemma CandidateExplained(policy: RoutingPolicy, provider: AvailabilityProvider, r: RouteRequest, w: WorkloadRule,
                           g: string)
    requires g in policy.modelGroups
    ensures Explained(policy, provider, r, w, g, CandidateCode(policy, provider, r, w, g))
  {
    var profile := EffectiveProfile(provider, policy.modelGroups, g);
    FirstFailureFromIs(r, profile, w, 0);
    CodeIsNotMappedElsewhere(r, profile, w, FirstFailureFrom(r, profile, w, 0));
  }

  lemma ExplanationOfExplains(policy: RoutingPolicy, provider: AvailabilityProvider, r: RouteRequest, w: WorkloadRule)
    ensures Explains(policy, provider, r, w, ExplanationOf(policy, provider, r, w))
  {
    var ids := SortedStrings(policy.modelGroups.Keys - {w.modelGroup});
    var rejected := ExplanationOf(policy, provider, r, w);
    assert seq(|rejected|, i requires 0 <= i < |rejected| => rejected[i].modelGroup) == ids;
    forall i | 0 <= i < |rejected|
      ensures Explained(policy, provider, r, w, rejected[i].modelGroup, rejected[i].reasonCode)
    {
      assert ids[i] in Elements(ids);
      CandidateExplained(policy, provider, r, w, ids[i]);
    }
  }

  /** The relation the use case is specified by is total as well as functional: it is this function. */
  lemma DecidesExactly(policy: RoutingPolicy, provider: AvailabilityProvider, r: RouteRequest, explain: bool,
                       outcome: RouteOutcome)
    ensures Decides(policy, provider, r, explain, outcome) <==> outcome == RouteOf(policy, provider, r, explain)
  {
    RouteOfDecides(policy, provider, r, explain);
    if Decides(policy, provider, r, explain, outcome) {
      DecisionUnique(policy, provider, r, explain, outcome, RouteOf(policy, provider, r, explain));
    }
  }

  lemma RouteOfDecides(policy: RoutingPolicy, provider: AvailabilityProvider, r: RouteRequest, explain: bool)
    ensures Decides(policy, provider, r, explain, RouteOf(policy, provider, r, explain))
  {
    if r.workload in policy.workloads {
      var w := policy.workloads[r.workload];
      ExplanationOfExplains(policy, provider, r, w);
      if w.modelGroup in policy.modelGroups {
        var candidates := Candidates(policy, w.modelGroup, explain);
        FirstFailureFromIs(r, EffectiveProfile(provider, candidates, w.modelGroup), w, 0);
      }
    }
  }

  // ---------------------------------------------------------------------------------------------
  // Monotonicity
  // ---------------------------------------------------------------------------------------------

  /** `easier` asks for no more than `r` in any of the quantities the constraints bound. */
  predicate NoHarder(easier: RouteRequest, r: RouteRequest) {
    && easier.agentName == r.agentName && easier.workload == r.workload
    && easier.riskLevel == r.riskLevel && easier.dataClassification == r.dataClassification
    && easier.contextTokensEstimated <= r.contextTokensEstimated
    && easier.maxOutputTokensEstimated <= r.maxOutputTokensEstimated
    && (easier.structuredOutputRequired ==> r.structuredOutputRequired)
    && easier.maxLatencyMs >= r.maxLatencyMs && easier.maxCostUsd >= r.maxCostUsd
  }

  predicate CostsNonNegative(p: ModelGroupProfile) {
    p.inputCostUsdPerMillionTokens >= 0.0 && p.outputCostUsdPerMillionTokens >= 0.0
  }

  lemma PriceMonotone(m: nat, n: nat, price: real)
    requires m <= n && price >= 0.0
    ensures TokenCost(m, price) <= TokenCost(n, price)
  {
    assert (n - m) as real * price >= 0.0;
    assert n as real * price == m as real * price + (n - m) as real * price;
  }

  lemma CostMonotone(p: ModelGroupProfile, easier: RouteRequest, r: RouteRequest)
    requires CostsNonNegative(p) && NoHarder(easier, r)
    ensures p.EstimatedCost(easier.contextTokensEstimated, easier.maxOutputTokensEstimated)
            <= p.EstimatedCost(r.contextTokensEstimated, r.maxOutputTokensEstimated)
  {
    PriceMonotone(easier.contextTokensEstimated, r.contextTokensEstimated, p.inputCostUsdPerMillionTokens);
    PriceMonotone(easier.maxOutputTokensEstimated, r.maxOutputTokensEstimated, p.outputCostUsdPerMillionTokens);
  }

  lemma ConstraintMonotone(easier: RouteRequest, r: RouteRequest, p: ModelGroupProfile, better: ModelGroupProfile,
                           w: WorkloadRule, i: nat)
    requires NoHarder(easier, r) && CostsNonNegative(p)
    requires better == p.(available := better.available) && (p.available ==> better.available)
    requires i < |CONSTRAINTS| && CONSTRAINTS[i](r, p, w).None?
    ensures CONSTRAINTS[i](easier, better, w).None?
  {
    CostMonotone(p, easier, r);
  }

  /** An easier request, or more availability, never moves a candidate's first failure earlier. */
  lemma FirstFailureMonotone(easier: RouteRequest, r: RouteRequest, p: ModelGroupProfile, better: ModelGroupProfile,
                             w: WorkloadRule, i: nat, j: nat)
    requires NoHarder(easier, r) && CostsNonNegative(p)
    requires better == p.(available := better.available) && (p.available ==> better.available)
    requires FailsFirstAt(r, p, w, i) && FailsFirstAt(easier, better, w, j)
    ensures i <= j
  {
    if j < i {
      ConstraintMonotone(easier, r, p, better, w, j);
    }
  }

  /** The second provider grants whatever the first does. */
  ghost predicate AddsAvailability(provider: AvailabilityProvider, wider: AvailabilityProvider) {
    forall m: map<string, bool>, g: string :: Answer(provider, m, g) ==> Answer(wider, m, g)
  }

  /** `better` differs from the policy only by more `available` flags, and in its name and digest. */
  predicate MoreAvailable(policy: RoutingPolicy, better: RoutingPolicy) {
    && better.workloads == policy.workloads && better.modelGroups.Keys == policy.modelGroups.Keys
    && forall g :: g in policy.modelGroups ==>
         var p, q := policy.modelGroups[g], better.modelGroups[g];
         q == p.(available := q.available) && (p.available ==> q.available)
  }

  /** What the provider grants the mapped group of `policy`, the wider one grants it under `better`. */
  predicate GrantsAsMuch(policy: RoutingPolicy, provider: AvailabilityProvider,
                         better: RoutingPolicy, wider: AvailabilityProvider, g: string, explain: bool) {
    g in policy.modelGroups && g in better.modelGroups ==>
      IsAvailable(provider, Candidates(policy, g, explain), g) ==> IsAvailable(wider, Candidates(better, g, explain), g)
  }

  /** An accepted request stays accepted, for the same group, under any change that asks for less and grants
  as much. */
  lemma AcceptedStaysAccepted(policy: RoutingPolicy, better: RoutingPolicy,
                              provider: AvailabilityProvider, wider: AvailabilityProvider,
                              r: RouteRequest, easier: RouteRequest, explain: bool,
                              outcome: RouteOutcome, easierOutcome: RouteOutcome)
    requires forall g :: g in policy.modelGroups ==> CostsNonNegative(policy.modelGroups[g])
    requires NoHarder(easier, r) && MoreAvailable(policy, better)
    requires forall g :: GrantsAsMuch(policy, provider, better, wider, g, explain)
    requires Decides(policy, provider, r, explain, outcome) && Decides(better, wider, easier, explain, easierOutcome)
    requires outcome.Routed?
    ensures easierOutcome.Routed? && easierOutcome.selected == outcome.selected
  {
    var w := policy.workloads[r.workload];
    var g := w.modelGroup;
    if g in policy.modelGroups {
      assert GrantsAsMuch(policy, provider, better, wider, g, explain);
      var p := EffectiveProfile(provider, Candidates(policy, g, explain), g);
      var q := EffectiveProfile(wider, Candidates(better, g, explain), g);
      var i: nat :| FailsFirstAt(r, p, w, i) && None == if i < |CONSTRAINTS| then CONSTRAINTS[i](r, p, w) else None;
      if easierOutcome.NoViableModelGroup? {
        var code := Some(easierOutcome.reasonCode);
        var j: nat :| FailsFirstAt(easier, q, w, j)
                      && code == if j < |CONSTRAINTS| then CONSTRAINTS[j](easier, q, w) else None;
        FirstFailureMonotone(easier, r, p, q, w, i, j);
        assert false;
      }
    }
  }

  /** The same policy under a provider that grants whatever the first one does. */
  lemma RoutingMonotone(policy: RoutingPolicy, provider: AvailabilityProvider, wider: AvailabilityProvider,
                        r: RouteRequest, easier: RouteRequest, explain: bool,
                        outcome: RouteOutcome, easierOutcome: RouteOutcome)
    requires forall g :: g in policy.modelGroups ==> CostsNonNegative(policy.modelGroups[g])
    requires NoHarder(easier, r) && AddsAvailability(provider, wider)
    requires Decides(policy, provider, r, explain, outcome) && Decides(policy, wider, easier, explain, easierOutcome)
    requires outcome.Routed?
    ensures easierOutcome.Routed? && easierOutcome.selected == outcome.selected
  {
    forall g ensures GrantsAsMuch(policy, provider, policy, wider, g, explain) {
      if g in policy.modelGroups {
        var flags := Declared(Candidates(policy, g, explain));
        assert Answer(provider, flags, g) ==> Answer(wider, flags, g);
      }
    }
    AcceptedStaysAccepted(policy, policy, provider, wider, r, easier, explain, outcome, easierOutcome);
  }

  /** The provider of the service: the flags the policy declares. */
  function StaticAvailability(): AvailabilityProvider {
    (flags: map<string, bool>) => flags
  }

  /** A second policy that declares more groups available, under the static provider. */
  lemma RoutingMonotoneInFlags(policy: RoutingPolicy, better: RoutingPolicy,
                               r: RouteRequest, easier: RouteRequest, explain: bool,
                               outcome: RouteOutcome, easierOutcome: RouteOutcome)
    requires forall g :: g in policy.modelGroups ==> CostsNonNegative(policy.modelGroups[g])
    requires NoHarder(easier, r) && MoreAvailable(policy, better)
    requires Decides(policy, StaticAvailability(), r, explain, outcome)
    requires Decides(better, StaticAvailability(), easier, explain, easierOutcome)
    requires outcome.Routed?
    ensures easierOutcome.Routed? && easierOutcome.selected == outcome.selected
  {
    var static_ := StaticAvailability();
    forall g ensures GrantsAsMuch(policy, static_, better, static_, g, explain) {}
    AcceptedStaysAccepted(policy, better, static_, static_, r, easier, explain, outcome, easierOutcome);
  }
}
