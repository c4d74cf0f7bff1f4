/** Loading a routing policy, and replacing the running one while requests are in flight. */
module PolicyReload {
  import opened Wrappers
  import opened Routing

  // ---------------------------------------------------------------------------------------------
  // The loader
  // ---------------------------------------------------------------------------------------------

  predicate DistinctKeys<V>(pairs: seq<(string, V)>) {
    forall i, j :: 0 <= i < j < |pairs| ==> pairs[i].0 != pairs[j].0
  }

  datatype DuplicateKey = DuplicateKey(key: string)

  /** A YAML mapping whose keys must not repeat. */
  method ConstructMapping<V>(pairs: seq<(string, V)>) returns (r: Result<map<string, V>, DuplicateKey>)
    ensures r.Success? <==> DistinctKeys(pairs)
    ensures r.Success? ==>
              && (forall i :: 0 <= i < |pairs| ==> pairs[i].0 in r.value && r.value[pairs[i].0] == pairs[i].1)
              && (forall k :: k in r.value ==> exists i :: 0 <= i < |pairs| && pairs[i].0 == k)
  {
    var seen: set<string> := {};
    for i := 0 to |pairs|
      invariant forall k :: k in seen <==> exists j :: 0 <= j < i && pairs[j].0 == k
      invariant forall a, b :: 0 <= a < b < i ==> pairs[a].0 != pairs[b].0
    {
      var key := pairs[i].0;
      if key in seen {
        return Failure(DuplicateKey(key));
      }
      seen := seen + {key};
    }
    var mapping: map<string, V> := map[];
    for i := 0 to |pairs|
      invariant forall k :: k in mapping <==> exists j :: 0 <= j < i && pairs[j].0 == k
      invariant forall j :: 0 <= j < i ==> pairs[j].0 in mapping && mapping[pairs[j].0] == pairs[j].1
    {
      mapping := mapping[pairs[i].0 := pairs[i].1];
    }
    return Success(mapping);
  }

  /** The validated shape of the file, before referential integrity. */
  datatype PolicyConfig = PolicyConfig(
    policyId: string, policyVersion: string,
    modelGroups: map<string, ModelGroupProfile>, workloads: map<string, WorkloadRule>)

  /** Field constraints of one group. */
  predicate ProfileValid(p: ModelGroupProfile) {
    && p.authorizedDataClassifications != {} && p.authorizedRiskLevels != {}
    && p.maxContextTokens > 0 && p.typicalLatencyMs > 0 && CostsNonNegative(p)
  }

  /** Field constraints the configuration shape carries. */
  predicate FieldsValid(c: PolicyConfig) {
    && c.policyId != "" && c.policyVersion != ""
    && c.modelGroups != map[] && c.workloads != map[]
    && forall g :: g in c.modelGroups ==> ProfileValid(c.modelGroups[g])
  }

  function Referenced(c: PolicyConfig): set<string> {
    set w | w in c.workloads :: c.workloads[w].modelGroup
  }

  function Undefined(c: PolicyConfig): set<string> {
    set w | w in c.workloads && c.workloads[w].modelGroup !in c.modelGroups :: c.workloads[w].modelGroup
  }

  function Unreferenced(c: PolicyConfig): set<string> {
    set g | g in c.modelGroups.Keys - Referenced(c) && !c.modelGroups[g].staged
  }

  predicate ReferentialIntegrity(c: PolicyConfig) {
    Undefined(c) == {} && Unreferenced(c) == {}
  }

  datatype PolicyFile = Unreadable | Readable(text: string)

  datatype LoadError = CannotRead | InvalidYaml | SchemaMismatch

  /** How a text parses, and the digest of a text; both are left abstract. */
  datatype Reader = Reader(parse: string -> Option<PolicyConfig>, digest: string -> string)

  function ToDomain(c: PolicyConfig, digest: string): RoutingPolicy {
    RoutingPolicy(c.policyId, c.policyVersion, digest, c.modelGroups, c.workloads)
  }

  function LoadRoutingPolicy(reader: Reader, file: PolicyFile): Result<RoutingPolicy, LoadError> {
    match file
    case Unreadable => Failure(CannotRead)
    case Readable(text) =>
      match reader.parse(text)
      case None => Failure(InvalidYaml)
      case Some(config) =>
        if !FieldsValid(config) || !ReferentialIntegrity(config) then Failure(SchemaMismatch)
        else Success(ToDomain(config, reader.digest(text)))
  }

  /** What every installed policy guarantees, stated on the policy itself. */
  ghost predicate Sound(policy: RoutingPolicy) {
    && policy.workloads != map[]
    && (forall w :: w in policy.workloads ==> policy.workloads[w].modelGroup in policy.modelGroups)
    && (forall g :: g in policy.modelGroups ==>
          policy.modelGroups[g].staged || exists w :: w in policy.workloads && policy.workloads[w].modelGroup == g)
    && (forall g :: g in policy.modelGroups ==> CostsNonNegative(policy.modelGroups[g]))
    && (forall g :: g in policy.modelGroups ==>
          policy.modelGroups[g].authorizedDataClassifications != {} && policy.modelGroups[g].authorizedRiskLevels != {})
  }

  /** What the loader accepts, condition by condition. */
  predicate Acceptable(c: PolicyConfig) {
    && c.policyId != "" && c.policyVersion != "" && c.modelGroups != map[] && c.workloads != map[]
    && (forall g :: g in c.modelGroups ==>
          var p := c.modelGroups[g];
          && p.authorizedDataClassifications != {} && p.authorizedRiskLevels != {}
          && p.maxContextTokens >= 1 && p.typicalLatencyMs >= 1
          && p.inputCostUsdPerMillionTokens >= 0.0 && p.outputCostUsdPerMillionTokens >= 0.0)
    && (forall w :: w in c.workloads ==> c.workloads[w].modelGroup in c.modelGroups)
    && (forall g :: g in c.modelGroups ==>
          c.modelGroups[g].staged || exists w :: w in c.workloads && c.workloads[w].modelGroup == g)
  }

  /** A file loads exactly when it can be read, parses, and is acceptable; the policy is then that of the file,
  every group and every workload as declared, under the digest of its text. */
  lemma LoadsExactly(reader: Reader, file: PolicyFile)
    ensures LoadRoutingPolicy(reader, file) ==
              match file
              case Unreadable => Failure(CannotRead)
              case Readable(text) =>
                if reader.parse(text).None? then Failure(InvalidYaml)
                else
                  var c := reader.parse(text).value;
                  if !Acceptable(c) then Failure(SchemaMismatch)
                  else Success(RoutingPolicy(c.policyId, c.policyVersion, reader.digest(text),
                                             map g | g in c.modelGroups :: c.modelGroups[g],
                                             map w | w in c.workloads :: c.workloads[w]))
  {
    if file.Readable? && reader.parse(file.text).Some? {
      var c := reader.parse(file.text).value;
      IntegrityExactly(c);
      assert c.modelGroups == map g | g in c.modelGroups :: c.modelGroups[g];
      assert c.workloads == map w | w in c.workloads :: c.workloads[w];
    }
  }

  /** The policy came out of the loader, from a text with the digest it carries. */
  ghost predicate Loaded(reader: Reader, policy: RoutingPolicy) {
    exists text :: LoadRoutingPolicy(reader, Readable(text)) == Success(policy)
                   && policy.policyDigest == reader.digest(text)
  }

  /** The integrity check accepts exactly the configurations without dangling or unreachable groups. */
  lemma IntegrityExactly(c: PolicyConfig)
    ensures ReferentialIntegrity(c) <==>
              && (forall w :: w in c.workloads ==> c.workloads[w].modelGroup in c.modelGroups)
              && (forall g :: g in c.modelGroups ==>
                    c.modelGroups[g].staged || exists w :: w in c.workloads && c.workloads[w].modelGroup == g)
  {
    if ReferentialIntegrity(c) {
      forall w | w in c.workloads ensures c.workloads[w].modelGroup in c.modelGroups {
        assert c.workloads[w].modelGroup !in Undefined(c);
      }
      forall g | g in c.modelGroups
        ensures c.modelGroups[g].staged || exists w :: w in c.workloads && c.workloads[w].modelGroup == g
      {
        assert g !in Unreferenced(c);
      }
    }
  }

  lemma LoadedIsSound(reader: Reader, policy: RoutingPolicy)
    requires Loaded(reader, policy)
    ensures Sound(policy)
  {
    var text :| LoadRoutingPolicy(reader, Readable(text)) == Success(policy);
    IntegrityExactly(reader.parse(text).value);
  }

  // ---------------------------------------------------------------------------------------------
  // The application state
  // ---------------------------------------------------------------------------------------------

  class AppState {
    var useCase: RouteModelUseCase
    const reader: Reader

    ghost predicate Valid()
      reads this
    {
      Loaded(reader, useCase.policy)
    }

    constructor (reader: Reader, useCase: RouteModelUseCase)
      requires Loaded(reader, useCase.policy)
      ensures Valid() && this.useCase == useCase && this.reader == reader
    {
      this.reader, this.useCase := reader, useCase;
    }

    /** Install a freshly loaded policy as a new use case, or keep the running one. */
    method ReloadRoutingPolicy(file: PolicyFile) returns (reloaded: bool)
      requires Valid()
      modifies this
      ensures Valid()
      ensures reloaded == LoadRoutingPolicy(reader, file).Success?
      ensures !reloaded ==> useCase == old(useCase)
      ensures reloaded ==>
                && fresh(useCase) && useCase.provider == old(useCase).provider
                && Success(useCase.policy) == LoadRoutingPolicy(reader, file)
    {
      var loaded := LoadRoutingPolicy(reader, file);
      if loaded.Failure? {
        return false;
      }
      assert file == Readable(file.text);
      useCase := new RouteModelUseCase(loaded.value, useCase.provider);
      return true;
    }

    /** The use case a request resolves at its start. */
    function GetRouteModelUseCase(): RouteModelUseCase
      reads this
    {
      useCase
    }
  }

  // ---------------------------------------------------------------------------------------------
  // Interleavings of reloads with requests in flight
  // ---------------------------------------------------------------------------------------------

  datatype Event =
    | Reload(file: PolicyFile)
    | Start(id: nat, request: RouteRequest, explain: bool)
    | Finish(id: nat)
    | Elsewhere

  /** `useCase` is the reference a request captured: a position in the table of use cases built so far. */
  datatype InFlight = InFlight(startedAt: nat, request: RouteRequest, explain: bool, useCase: nat)

  datatype Decision = Decision(flight: InFlight, outcome: RouteOutcome)

  /** The last use case of the table is the installed one. */
  datatype State = State(useCases: seq<RoutingPolicy>, inFlight: map<nat, InFlight>, decisions: seq<Decision>)

  function Installed(s: State): RoutingPolicy
    requires s.useCases != []
  {
    s.useCases[|s.useCases| - 1]
  }

  /** A finish routes on whatever its reference holds by then. */
  function FinishStep(provider: AvailabilityProvider, s: State, id: nat): State {
    if !(id in s.inFlight && s.inFlight[id].useCase < |s.useCases|) then s
    else
      var f := s.inFlight[id];
      s.(inFlight := s.inFlight - {id},
         decisions := s.decisions + [Decision(f, RouteOf(s.useCases[f.useCase], provider, f.request, f.explain))])
  }

  function Step(reader: Reader, provider: AvailabilityProvider, s: State, e: Event, at: nat): State {
    match e
    case Reload(file) =>
      var loaded := LoadRoutingPolicy(reader, file);
      if loaded.Success? then s.(useCases := s.useCases + [loaded.value]) else s
    case Start(id, request, explain) =>
      if id in s.inFlight || s.useCases == [] then s
      else s.(inFlight := s.inFlight[id := InFlight(at, request, explain, |s.useCases| - 1)])
    case Finish(id) => FinishStep(provider, s, id)
    case Elsewhere => s
  }

  function After(reader: Reader, startup: RoutingPolicy, provider: AvailabilityProvider, events: seq<Event>): State {
    if events == [] then State([startup], map[], []) else
      Step(reader, provider, After(reader, startup, provider, events[..|events| - 1]),
           events[|events| - 1], |events| - 1)
  }

  /** The table only grows: a use case, once built, stays what it was. */
  lemma {:induction false} UseCasesKept(reader: Reader, startup: RoutingPolicy, provider: AvailabilityProvider,
                                        events: seq<Event>, i: nat, j: nat)
    requires i <= j <= |events|
    ensures var early, late := After(reader, startup, provider, events[..i]).useCases,
                               After(reader, startup, provider, events[..j]).useCases;
            0 < |early| <= |late| && late[..|early|] == early
    decreases j
  {
    if i < j {
      UseCasesKept(reader, startup, provider, events, i, j - 1);
      assert events[..j][..j - 1] == events[..j - 1];
    } else if j > 0 {
      UseCasesKept(reader, startup, provider, events, j - 1, j - 1);
      assert events[..j][..j - 1] == events[..j - 1];
    }
  }

  /** The flight was started by an event of the run and refers to the use case installed at that moment. */
  ghost predicate CapturedAtStart(reader: Reader, startup: RoutingPolicy, provider: AvailabilityProvider,
                                  events: seq<Event>, f: InFlight) {
    && f.startedAt < |events|
    && events[f.startedAt].Start? && events[f.startedAt].request == f.request
    && events[f.startedAt].explain == f.explain
    && f.useCase == |After(reader, startup, provider, events[..f.startedAt]).useCases| - 1
  }

  lemma CapturedLater(reader: Reader, startup: RoutingPolicy, provider: AvailabilityProvider,
                      events: seq<Event>, f: InFlight)
    requires events != [] && CapturedAtStart(reader, startup, provider, events[..|events| - 1], f)
    ensures CapturedAtStart(reader, startup, provider, events, f)
  {
    assert events[..|events| - 1][..f.startedAt] == events[..f.startedAt];
  }

  /** What a reference captured at the start finds later. */
  lemma ReferenceKept(reader: Reader, startup: RoutingPolicy, provider: AvailabilityProvider,
                      events: seq<Event>, f: InFlight)
    requires CapturedAtStart(reader, startup, provider, events, f)
    ensures var late := After(reader, startup, provider, events).useCases;
            var early := After(reader, startup, provider, events[..f.startedAt]);
            early.useCases != [] && f.useCase < |late| && late[f.useCase] == Installed(early)
  {
    UseCasesKept(reader, startup, provider, events, f.startedAt, f.startedAt);
    UseCaseKept(reader, startup, provider, events, f.startedAt, f.useCase);
  }

  lemma UseCaseKept(reader: Reader, startup: RoutingPolicy, provider: AvailabilityProvider, events: seq<Event>,
                    i: nat, n: nat)
    requires i <= |events| && n < |After(reader, startup, provider, events[..i]).useCases|
    ensures var early, late := After(reader, startup, provider, events[..i]).useCases,
                               After(reader, startup, provider, events).useCases;
            n < |late| && late[n] == early[n]
  {
    UseCasesKept(reader, startup, provider, events, i, |events|);
    assert events[..|events|] == events;
    var early := After(reader, startup, provider, events[..i]).useCases;
    assert early[n] == After(reader, startup, provider, events).useCases[..|early|][n];
  }

  ghost predicate DecidedOnCaptured(reader: Reader, startup: RoutingPolicy, provider: AvailabilityProvider,
                                    events: seq<Event>, d: Decision) {
    && CapturedAtStart(reader, startup, provider, events, d.flight)
    && var early := After(reader, startup, provider, events[..d.flight.startedAt]);
       early.useCases != [] && d.outcome == RouteOf(Installed(early), provider, d.flight.request, d.flight.explain)
  }

  lemma DecidedLater(reader: Reader, startup: RoutingPolicy, provider: AvailabilityProvider,
                     events: seq<Event>, d: Decision)
    requires events != [] && DecidedOnCaptured(reader, startup, provider, events[..|events| - 1], d)
    ensures DecidedOnCaptured(reader, startup, provider, events, d)
  {
    CapturedLater(reader, startup, provider, events, d.flight);
    assert events[..|events| - 1][..d.flight.startedAt] == events[..d.flight.startedAt];
  }

  ghost predicate AllCaptured(reader: Reader, startup: RoutingPolicy, provider: AvailabilityProvider,
                              events: seq<Event>, s: State) {
    && (forall id :: id in s.inFlight ==> CapturedAtStart(reader, startup, provider, events, s.inFlight[id]))
    && (forall i :: 0 <= i < |s.decisions| ==> DecidedOnCaptured(reader, startup, provider, events, s.decisions[i]))
  }

  lemma AllCapturedLater(reader: Reader, startup: RoutingPolicy, provider: AvailabilityProvider,
                         events: seq<Event>, s: State)
    requires events != [] && AllCaptured(reader, startup, provider, events[..|events| - 1], s)
    ensures AllCaptured(reader, startup, provider, events, s)
  {
    forall id | id in s.inFlight ensures CapturedAtStart(reader, startup, provider, events, s.inFlight[id]) {
      CapturedLater(reader, startup, provider, events, s.inFlight[id]);
    }
    forall i | 0 <= i < |s.decisions| ensures DecidedOnCaptured(reader, startup, provider, events, s.decisions[i]) {
      DecidedLater(reader, startup, provider, events, s.decisions[i]);
    }
  }

  lemma {:induction false} FlightsHoldTheirPolicy(reader: Reader, startup: RoutingPolicy,
                                                  provider: AvailabilityProvider, events: seq<Event>)
    ensures AllCaptured(reader, startup, provider, events, After(reader, startup, provider, events))
  {
    if events != [] {
      var before, e := events[..|events| - 1], events[|events| - 1];
      var s := After(reader, startup, provider, before);
      FlightsHoldTheirPolicy(reader, startup, provider, before);
      if e.Finish? && e.id in s.inFlight {
        var f := s.inFlight[e.id];
        assert CapturedAtStart(reader, startup, provider, before, f);
        ReferenceKept(reader, startup, provider, before, f);
        CapturedLater(reader, startup, provider, events, f);
        assert before[..f.startedAt] == events[..f.startedAt];
      }
      AllCapturedLater(reader, startup, provider, events, s);
      if e.Start? {
        UseCasesKept(reader, startup, provider, before, |before|, |before|);
        assert before[..|before|] == before == events[..|before|];
      }
    }
  }

  lemma {:induction false} InstalledIsLoaded(reader: Reader, startup: RoutingPolicy, provider: AvailabilityProvider,
                                             events: seq<Event>)
    requires Loaded(reader, startup)
    ensures var s := After(reader, startup, provider, events);
            s.useCases != [] && forall i :: 0 <= i < |s.useCases| ==> Loaded(reader, s.useCases[i])
  {
    if events != [] {
      InstalledIsLoaded(reader, startup, provider, events[..|events| - 1]);
      var e := events[|events| - 1];
      if e.Reload? && LoadRoutingPolicy(reader, e.file).Success? {
        assert e.file == Readable(e.file.text);
      }
    }
  }

  /** The policy of the last reload that loaded, or the one the service started with. */
  function LastLoaded(reader: Reader, startup: RoutingPolicy, events: seq<Event>): RoutingPolicy {
    if events == [] then startup
    else match events[|events| - 1]
      case Reload(file) =>
        var loaded := LoadRoutingPolicy(reader, file);
        if loaded.Success? then loaded.value else LastLoaded(reader, startup, events[..|events| - 1])
      case _ => LastLoaded(reader, startup, events[..|events| - 1])
  }

  /** Every reload that loads takes effect at once, and nothing else installs a policy. */
  lemma {:induction false} InstalledExactly(reader: Reader, startup: RoutingPolicy, provider: AvailabilityProvider,
                                            events: seq<Event>)
    ensures var s := After(reader, startup, provider, events);
            s.useCases != [] && Installed(s) == LastLoaded(reader, startup, events)
  {
    if events != [] {
      InstalledExactly(reader, startup, provider, events[..|events| - 1]);
    }
  }

  /** Over every interleaving: the decision of a request is that of the one policy installed when it
  started, whatever was installed since; it carries that policy's digest and never meets an undeclared
  group. */
  lemma DecisionsUseOnePolicy(reader: Reader, startup: RoutingPolicy, provider: AvailabilityProvider,
                              events: seq<Event>, i: nat)
    requires Loaded(reader, startup) && i < |After(reader, startup, provider, events).decisions|
    ensures var d := After(reader, startup, provider, events).decisions[i];
            && CapturedAtStart(reader, startup, provider, events, d.flight)
            && After(reader, startup, provider, events[..d.flight.startedAt]).useCases != []
            && var policy := Installed(After(reader, startup, provider, events[..d.flight.startedAt]));
               && Loaded(reader, policy) && Sound(policy)
               && d.outcome == RouteOf(policy, provider, d.flight.request, d.flight.explain)
               && !d.outcome.UndeclaredGroup?
               && (d.outcome.Routed? || d.outcome.NoViableModelGroup? ==> d.outcome.policyDigest == policy.policyDigest)
  {
    FlightsHoldTheirPolicy(reader, startup, provider, events);
    var d := After(reader, startup, provider, events).decisions[i];
    assert DecidedOnCaptured(reader, startup, provider, events, d);
    InstalledIsLoaded(reader, startup, provider, events[..d.flight.startedAt]);
    LoadedIsSound(reader, Installed(After(reader, startup, provider, events[..d.flight.startedAt])));
  }
}
