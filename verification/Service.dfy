/** Whole runs of the service with enforcement on: requests in flight, Governance writing control snapshots,
and policy reloads, in any order.

Each event is one step of the verification protocol, of the policy machine, or of both; a request that the
limiter or authentication refuses takes part in neither. */
module Service {
  import opened Wrappers
  import opened AuthorizationContract
  import opened Routing
  import opened ReplayGuard
  import opened Verifier
  import opened RouteHandler
  import Auth = ControlProtocol
  import App = PolicyReload

  datatype Setup = Setup(auth: Auth.Setup, reader: App.Reader, startup: RoutingPolicy, provider: AvailabilityProvider)

  datatype Event =
    | GovernanceWrites(agentId: string, snapshot: Snapshot)
    | Reload(file: App.PolicyFile)
    | Arrives(id: nat, call: Auth.Call, explain: bool)
    | ReadsControl(id: nat, reachable: bool)
    | Consumes(id: nat, serverNow: int, delivery: Delivery)
    | Routes(id: nat)

  /** A decision returned to its caller: the spend that admitted it, and the routing decision it returns. */
  datatype Returned = Returned(spend: nat, decision: nat)

  /** `admitted` holds the requests whose authorization was accepted and that have not routed yet. */
  datatype State = State(auth: Auth.State, app: App.State, admitted: map<nat, nat>, returned: seq<Returned>)

  function AuthEvent(s: State, e: Event): Auth.Event {
    match e
    case GovernanceWrites(agentId, snapshot) => Auth.GovernanceWrites(agentId, snapshot)
    case Arrives(id, call, _) => if id in s.app.inFlight then Auth.Elsewhere else Auth.Begins(id, call)
    case ReadsControl(id, reachable) => Auth.ReadsControl(id, reachable)
    case Consumes(id, serverNow, delivery) => Auth.Consumes(id, serverNow, delivery)
    case _ => Auth.Elsewhere
  }

  function AppEvent(s: State, e: Event): App.Event {
    match e
    case Reload(file) => App.Reload(file)
    case Arrives(id, call, explain) => App.Start(id, call.request, explain)
    case Routes(id) => if id in s.admitted then App.Finish(id) else App.Elsewhere
    case _ => App.Elsewhere
  }

  function AuthNext(w: Setup, s: State, e: Event, at: nat): Auth.State {
    Auth.Step(w.auth, s.auth, AuthEvent(s, e), at)
  }

  function AppNext(w: Setup, s: State, e: Event, at: nat): App.State {
    App.Step(w.reader, w.provider, s.app, AppEvent(s, e), at)
  }

  /** An accepted consumption admits its request; routing ends it. */
  function AdmittedNext(w: Setup, s: State, e: Event, auth: Auth.State): map<nat, nat> {
    match e
    case Consumes(id, _, _) =>
      var n := |s.auth.spends|;
      if n < |auth.spends| && Auth.Accepted(w.auth, auth.spends[n]) then s.admitted[id := n] else s.admitted
    case Routes(id) => s.admitted - {id}
    case _ => s.admitted
  }

  /** A routed request returns its decision only if the selected group is in the signed scope. */
  function ReturnedNext(s: State, e: Event, app: App.State): seq<Returned> {
    if !(e.Routes? && e.id in s.admitted && s.admitted[e.id] < |s.auth.spends| && |s.app.decisions| < |app.decisions|)
    then s.returned
    else
      var outcome := app.decisions[|s.app.decisions|].outcome;
      var scope := s.auth.spends[s.admitted[e.id]].call.envelope.claims.scope;
      if outcome.Routed? && SelectedModelDenial(scope, outcome.selected).None?
      then s.returned + [Returned(s.admitted[e.id], |s.app.decisions|)] else s.returned
  }

  function Step(w: Setup, s: State, e: Event, at: nat): State {
    var auth, app := AuthNext(w, s, e, at), AppNext(w, s, e, at);
    State(auth, app, AdmittedNext(w, s, e, auth), ReturnedNext(s, e, app))
  }

  function After(w: Setup, h: seq<Event>): State {
    if h == [] then State(Auth.Start(w.auth), App.State([w.startup], map[], []), map[], [])
    else Step(w, After(w, h[..|h| - 1]), h[|h| - 1], |h| - 1)
  }

  // ---------------------------------------------------------------------------------------------
  // The two machines inside
  // ---------------------------------------------------------------------------------------------

  /** What the verification protocol sees of a run, event by event. */
  function AuthRun(w: Setup, h: seq<Event>): (run: seq<Auth.Event>)
    ensures |run| == |h|
  {
    if h == [] then [] else AuthRun(w, h[..|h| - 1]) + [AuthEvent(After(w, h[..|h| - 1]), h[|h| - 1])]
  }

  function AppRun(w: Setup, h: seq<Event>): (run: seq<App.Event>)
    ensures |run| == |h|
  {
    if h == [] then [] else AppRun(w, h[..|h| - 1]) + [AppEvent(After(w, h[..|h| - 1]), h[|h| - 1])]
  }

  /** A run of the service is a run of each machine. */
  lemma {:induction false} RunsProject(w: Setup, h: seq<Event>)
    ensures After(w, h).auth == Auth.After(w.auth, AuthRun(w, h))
    ensures After(w, h).app == App.After(w.reader, w.startup, w.provider, AppRun(w, h))
  {
    if h != [] {
      var before := h[..|h| - 1];
      RunsProject(w, before);
      assert AuthRun(w, h)[..|h| - 1] == AuthRun(w, before);
      assert AppRun(w, h)[..|h| - 1] == AppRun(w, before);
    }
  }

  // ---------------------------------------------------------------------------------------------
  // Every returned decision has its own acceptance
  // ---------------------------------------------------------------------------------------------

  /** A request in verification is the request that waits to be routed under its identifier. */
  predicate Verifying(s: State) {
    forall id :: id in s.auth.flights ==>
      && id in s.app.inFlight && id !in s.admitted
      && s.app.inFlight[id].request == s.auth.flights[id].call.request
  }

  predicate SpendAdmits(w: Setup, s: State, spend: nat, request: RouteRequest) {
    && spend < |s.auth.spends| && Auth.Accepted(w.auth, s.auth.spends[spend])
    && s.auth.spends[spend].call.request == request
  }

  /** An admitted request was admitted by an accepted spend of its own facts. */
  predicate Admitting(w: Setup, s: State) {
    forall id :: id in s.admitted ==>
      id in s.app.inFlight && SpendAdmits(w, s, s.admitted[id], s.app.inFlight[id].request)
  }

  /** A returned decision is a routed decision on the request of its spend, in that spend's scope. */
  predicate ReturnedProperly(w: Setup, s: State, r: Returned) {
    && r.decision < |s.app.decisions|
    && SpendAdmits(w, s, r.spend, s.app.decisions[r.decision].flight.request)
    && s.app.decisions[r.decision].outcome.Routed?
    && SelectedModelDenial(s.auth.spends[r.spend].call.envelope.claims.scope,
                           s.app.decisions[r.decision].outcome.selected).None?
  }

  predicate Returning(w: Setup, s: State) {
    forall k :: 0 <= k < |s.returned| ==> ReturnedProperly(w, s, s.returned[k])
  }

  /** No spend serves two requests. */
  predicate Apart(admitted: map<nat, nat>, returned: seq<Returned>) {
    && (forall i, j :: i in admitted && j in admitted && i != j ==> admitted[i] != admitted[j])
    && (forall i, k :: i in admitted && 0 <= k < |returned| ==> admitted[i] != returned[k].spend)
    && (forall j, k :: 0 <= j < k < |returned| ==> returned[j].spend != returned[k].spend)
  }

  lemma ApartAdmit(admitted: map<nat, nat>, returned: seq<Returned>, id: nat, n: nat)
    requires Apart(admitted, returned)
    requires (forall i :: i in admitted ==> admitted[i] < n)
        && (forall k :: 0 <= k < |returned| ==> returned[k].spend < n)
    ensures Apart(admitted[id := n], returned)
  {
  }

  lemma ApartReturn(admitted: map<nat, nat>, returned: seq<Returned>, id: nat, decision: nat)
    requires Apart(admitted, returned) && id in admitted
    ensures Apart(admitted - {id}, returned) && Apart(admitted - {id}, returned + [Returned(admitted[id], decision)])
  {
  }

  /** Spends are only added, one at a time, by the consumption of a waiting flight. */
  lemma AuthSteps(w: Setup, s: State, e: Event, at: nat)
    ensures var t := AuthNext(w, s, e, at);
            && |s.auth.spends| <= |t.spends| <= |s.auth.spends| + 1 && t.spends[..|s.auth.spends|] == s.auth.spends
            && (|s.auth.spends| < |t.spends| ==>
                  && e.Consumes? && e.id in s.auth.flights && e.id !in t.flights
                  && t.spends[|s.auth.spends|].call == s.auth.flights[e.id].call)
            && (forall id :: id in t.flights ==>
                  if id in s.auth.flights then t.flights[id].call == s.auth.flights[id].call
                  else e.Arrives? && e.id == id && t.flights[id].call == e.call && id !in s.app.inFlight)
  {
  }

  /** Decisions are only added, by the routing of an admitted request, which alone ends a request. */
  lemma AppSteps(w: Setup, s: State, e: Event, at: nat)
    ensures var t := AppNext(w, s, e, at);
            && |s.app.decisions| <= |t.decisions| && t.decisions[..|s.app.decisions|] == s.app.decisions
            && (|s.app.decisions| < |t.decisions| ==>
                  && e.Routes? && e.id in s.admitted && e.id in s.app.inFlight
                  && t.decisions[|s.app.decisions|].flight == s.app.inFlight[e.id])
            && (forall id :: id in s.app.inFlight && !(e.Routes? && e.id == id && id in s.admitted) ==>
                  id in t.inFlight && t.inFlight[id] == s.app.inFlight[id])
            && (e.Arrives? && e.id !in s.app.inFlight && s.app.useCases != [] ==>
                  && e.id in t.inFlight && t.inFlight[e.id].request == e.call.request
                  && t.inFlight[e.id].startedAt == at && t.inFlight[e.id].explain == e.explain)
  {
  }

  lemma SpendAdmitsLater(w: Setup, s: State, e: Event, at: nat, spend: nat, request: RouteRequest)
    requires SpendAdmits(w, s, spend, request)
    ensures SpendAdmits(w, Step(w, s, e, at), spend, request)
  {
    AuthSteps(w, s, e, at);
    var t := Step(w, s, e, at);
    assert t.auth.spends[spend] == t.auth.spends[..|s.auth.spends|][spend];
  }

  lemma VerifyingStep(w: Setup, s: State, e: Event, at: nat)
    requires Verifying(s) && Admitting(w, s) && s.app.useCases != []
    ensures Verifying(Step(w, s, e, at))
  {
    AuthSteps(w, s, e, at);
    AppSteps(w, s, e, at);
  }

  lemma AdmittingStep(w: Setup, s: State, e: Event, at: nat)
    requires Verifying(s) && Admitting(w, s)
    ensures Admitting(w, Step(w, s, e, at))
  {
    AuthSteps(w, s, e, at);
    AppSteps(w, s, e, at);
    var t := Step(w, s, e, at);
    forall id | id in t.admitted
      ensures id in t.app.inFlight && SpendAdmits(w, t, t.admitted[id], t.app.inFlight[id].request)
    {
      if id in s.admitted && t.admitted[id] == s.admitted[id] {
        SpendAdmitsLater(w, s, e, at, s.admitted[id], s.app.inFlight[id].request);
      }
    }
  }

  lemma ReturningStep(w: Setup, s: State, e: Event, at: nat)
    requires Admitting(w, s) && Returning(w, s)
    ensures Returning(w, Step(w, s, e, at))
  {
    AppSteps(w, s, e, at);
    AuthSteps(w, s, e, at);
    var t := Step(w, s, e, at);
    forall k | 0 <= k < |t.returned| ensures ReturnedProperly(w, t, t.returned[k]) {
      var r := t.returned[k];
      if k < |s.returned| {
        assert ReturnedProperly(w, s, r);
        assert t.app.decisions[r.decision] == t.app.decisions[..|s.app.decisions|][r.decision];
        SpendAdmitsLater(w, s, e, at, r.spend, s.app.decisions[r.decision].flight.request);
        assert t.auth.spends[r.spend] == t.auth.spends[..|s.auth.spends|][r.spend];
      } else {
        SpendAdmitsLater(w, s, e, at, r.spend, s.app.inFlight[e.id].request);
        assert t.auth.spends[r.spend] == t.auth.spends[..|s.auth.spends|][r.spend];
      }
    }
  }

  lemma ApartStep(w: Setup, s: State, e: Event, at: nat)
    requires Admitting(w, s) && Returning(w, s) && Apart(s.admitted, s.returned)
    ensures Apart(Step(w, s, e, at).admitted, Step(w, s, e, at).returned)
  {
    if e.Consumes? {
      forall k | 0 <= k < |s.returned| ensures s.returned[k].spend < |s.auth.spends| {
        assert ReturnedProperly(w, s, s.returned[k]);
      }
      ApartAdmit(s.admitted, s.returned, e.id, |s.auth.spends|);
    } else if e.Routes? && e.id in s.admitted {
      ApartReturn(s.admitted, s.returned, e.id, |s.app.decisions|);
    } else if e.Routes? {
      assert s.admitted - {e.id} == s.admitted;
    }
  }

  lemma {:induction false} RunsAreSound(w: Setup, h: seq<Event>)
    ensures var s := After(w, h);
            s.app.useCases != [] && Verifying(s) && Admitting(w, s) && Returning(w, s) && Apart(s.admitted, s.returned)
  {
    if h != [] {
      var before, e := h[..|h| - 1], h[|h| - 1];
      RunsAreSound(w, before);
      var s := After(w, before);
      VerifyingStep(w, s, e, |h| - 1);
      AdmittingStep(w, s, e, |h| - 1);
      ReturningStep(w, s, e, |h| - 1);
      ApartStep(w, s, e, |h| - 1);
    }
  }

  // ---------------------------------------------------------------------------------------------
  // Every request is traced to its arrival
  // ---------------------------------------------------------------------------------------------

  /** The request was started by the arrival of this call. */
  predicate ArrivedAs(h: seq<Event>, f: App.InFlight, call: Auth.Call) {
    && f.startedAt < |h| && h[f.startedAt].Arrives?
    && h[f.startedAt].call == call && h[f.startedAt].explain == f.explain
  }

  /** Every request in flight, and every decision returned, is that of its own arrival. */
  predicate Traced(h: seq<Event>, s: State) {
    FlightsArrived(h, s) && AdmittedArrived(h, s) && ReturnedArrived(h, s)
  }

  predicate FlightsArrived(h: seq<Event>, s: State) {
    forall id :: id in s.auth.flights ==>
      id in s.app.inFlight && ArrivedAs(h, s.app.inFlight[id], s.auth.flights[id].call)
  }

  predicate AdmittedArrived(h: seq<Event>, s: State) {
    forall id :: id in s.admitted ==>
      && id in s.app.inFlight && s.admitted[id] < |s.auth.spends|
      && ArrivedAs(h, s.app.inFlight[id], s.auth.spends[s.admitted[id]].call)
  }

  predicate ReturnedArrived(h: seq<Event>, s: State) {
    forall k :: 0 <= k < |s.returned| ==>
      && s.returned[k].decision < |s.app.decisions| && s.returned[k].spend < |s.auth.spends|
      && ArrivedAs(h, s.app.decisions[s.returned[k].decision].flight, s.auth.spends[s.returned[k].spend].call)
  }

  /** What one event can change of the flights and the spends. */
  predicate AuthGrows(s: State, e: Event, t: State) {
    && |s.auth.spends| <= |t.auth.spends|
    && (forall k :: 0 <= k < |s.auth.spends| ==> t.auth.spends[k] == s.auth.spends[k])
    && (forall id :: id in t.auth.flights ==>
          if id in s.auth.flights then t.auth.flights[id].call == s.auth.flights[id].call
          else e.Arrives? && e.id == id && t.auth.flights[id].call == e.call && id !in s.app.inFlight)
  }

  /** What one event can change of the requests and the decisions. */
  predicate AppGrows(s: State, e: Event, at: nat, t: State) {
    && |s.app.decisions| <= |t.app.decisions|
    && (forall k :: 0 <= k < |s.app.decisions| ==> t.app.decisions[k] == s.app.decisions[k])
    && (forall id :: id in s.app.inFlight && !(e.Routes? && e.id == id && id in s.admitted) ==>
          id in t.app.inFlight && t.app.inFlight[id] == s.app.inFlight[id])
    && (e.Arrives? && e.id !in s.app.inFlight ==>
          && e.id in t.app.inFlight && t.app.inFlight[e.id].startedAt == at
          && t.app.inFlight[e.id].explain == e.explain)
  }

  /** What one event can change of the admitted and the returned. */
  predicate OutcomesGrow(s: State, e: Event, t: State) {
    && (forall id :: id in t.admitted && !(id in s.admitted && t.admitted[id] == s.admitted[id]) ==>
          && e.Consumes? && e.id == id && id in s.auth.flights
          && t.admitted[id] == |s.auth.spends| < |t.auth.spends|
          && t.auth.spends[t.admitted[id]].call == s.auth.flights[id].call)
    && (e.Routes? ==> e.id !in t.admitted)
    && (t.returned == s.returned
        || (e.Routes? && e.id in s.admitted && e.id in s.app.inFlight && |s.app.decisions| < |t.app.decisions|
            && t.app.decisions[|s.app.decisions|].flight == s.app.inFlight[e.id]
            && t.returned == s.returned + [Returned(s.admitted[e.id], |s.app.decisions|)]))
  }

  lemma StepGrows(w: Setup, s: State, e: Event, at: nat)
    requires s.app.useCases != []
    ensures AuthGrows(s, e, Step(w, s, e, at)) && AppGrows(s, e, at, Step(w, s, e, at))
    ensures OutcomesGrow(s, e, Step(w, s, e, at))
  {
    AuthSteps(w, s, e, at);
    AppSteps(w, s, e, at);
    var t := Step(w, s, e, at);
    forall k | 0 <= k < |s.auth.spends| ensures t.auth.spends[k] == s.auth.spends[k] {
      assert t.auth.spends[k] == t.auth.spends[..|s.auth.spends|][k];
    }
    forall k | 0 <= k < |s.app.decisions| ensures t.app.decisions[k] == s.app.decisions[k] {
      assert t.app.decisions[k] == t.app.decisions[..|s.app.decisions|][k];
    }
  }

  lemma ArrivedLater(h: seq<Event>, e: Event, f: App.InFlight, call: Auth.Call)
    requires ArrivedAs(h, f, call)
    ensures ArrivedAs(h + [e], f, call)
  {
  }

  lemma FlightsArrivedStep(h: seq<Event>, s: State, e: Event, t: State)
    requires AuthGrows(s, e, t) && AppGrows(s, e, |h|, t) && Verifying(s) && FlightsArrived(h, s)
    ensures FlightsArrived(h + [e], t)
  {
    forall id | id in t.auth.flights
      ensures id in t.app.inFlight && ArrivedAs(h + [e], t.app.inFlight[id], t.auth.flights[id].call)
    {
      if id in s.auth.flights {
        ArrivedLater(h, e, s.app.inFlight[id], s.auth.flights[id].call);
      } else {
        assert (h + [e])[|h|] == e;
      }
    }
  }

  lemma AdmittedArrivedStep(h: seq<Event>, s: State, e: Event, t: State)
    requires AuthGrows(s, e, t) && AppGrows(s, e, |h|, t) && OutcomesGrow(s, e, t)
    requires FlightsArrived(h, s) && AdmittedArrived(h, s)
    ensures AdmittedArrived(h + [e], t)
  {
    forall id | id in t.admitted
      ensures id in t.app.inFlight && t.admitted[id] < |t.auth.spends|
      ensures ArrivedAs(h + [e], t.app.inFlight[id], t.auth.spends[t.admitted[id]].call)
    {
      if id in s.admitted && t.admitted[id] == s.admitted[id] {
        ArrivedLater(h, e, s.app.inFlight[id], s.auth.spends[s.admitted[id]].call);
      } else {
        ArrivedLater(h, e, s.app.inFlight[id], s.auth.flights[id].call);
      }
    }
  }

  lemma ReturnedArrivedStep(h: seq<Event>, s: State, e: Event, t: State)
    requires AuthGrows(s, e, t) && AppGrows(s, e, |h|, t) && OutcomesGrow(s, e, t)
    requires AdmittedArrived(h, s) && ReturnedArrived(h, s)
    ensures ReturnedArrived(h + [e], t)
  {
    forall k | 0 <= k < |t.returned|
      ensures t.returned[k].decision < |t.app.decisions| && t.returned[k].spend < |t.auth.spends|
      ensures ArrivedAs(h + [e], t.app.decisions[t.returned[k].decision].flight,
                        t.auth.spends[t.returned[k].spend].call)
    {
      if k < |s.returned| {
        var r := s.returned[k];
        assert t.returned[k] == r;
        ArrivedLater(h, e, s.app.decisions[r.decision].flight, s.auth.spends[r.spend].call);
      } else {
        ArrivedLater(h, e, s.app.inFlight[e.id], s.auth.spends[s.admitted[e.id]].call);
      }
    }
  }

  lemma TraceStep(h: seq<Event>, s: State, e: Event, t: State)
    requires AuthGrows(s, e, t) && AppGrows(s, e, |h|, t) && OutcomesGrow(s, e, t)
    requires Verifying(s) && Traced(h, s)
    ensures Traced(h + [e], t)
  {
    FlightsArrivedStep(h, s, e, t);
    AdmittedArrivedStep(h, s, e, t);
    ReturnedArrivedStep(h, s, e, t);
  }

  lemma TracedNext(w: Setup, h: seq<Event>, s: State, e: Event)
    requires Verifying(s) && Traced(h, s) && s.app.useCases != []
    ensures Traced(h + [e], Step(w, s, e, |h|))
  {
    StepGrows(w, s, e, |h|);
    TraceStep(h, s, e, Step(w, s, e, |h|));
  }

  lemma {:induction false} RunsAreTraced(w: Setup, h: seq<Event>)
    ensures Traced(h, After(w, h))
  {
    if h != [] {
      var before, e := h[..|h| - 1], h[|h| - 1];
      RunsAreTraced(w, before);
      RunsAreSound(w, before);
      TracedNext(w, before, After(w, before), e);
      assert before + [e] == h;
    }
  }

  // ---------------------------------------------------------------------------------------------
  // Theorems over whole runs
  // ---------------------------------------------------------------------------------------------

  /** The last snapshot Governance wrote for an agent, or the one there was at the start. */
  function LastWritten(initial: map<string, Snapshot>, h: seq<Event>, agentId: string): Option<Snapshot> {
    if h == [] then if agentId in initial then Some(initial[agentId]) else None
    else match h[|h| - 1]
      case GovernanceWrites(a, snapshot) =>
        if a == agentId then Some(snapshot) else LastWritten(initial, h[..|h| - 1], agentId)
      case _ => LastWritten(initial, h[..|h| - 1], agentId)
  }

  /** The policy of the last reload that loaded, or the one the service started with. */
  function LastLoaded(reader: App.Reader, startup: RoutingPolicy, h: seq<Event>): RoutingPolicy {
    if h == [] then startup
    else match h[|h| - 1]
      case Reload(file) =>
        var loaded := App.LoadRoutingPolicy(reader, file);
        if loaded.Success? then loaded.value else LastLoaded(reader, startup, h[..|h| - 1])
      case _ => LastLoaded(reader, startup, h[..|h| - 1])
  }

  /** Governance alone writes the projection, and every write takes effect at once; the same holds of reloads
  and the installed policy. */
  lemma {:induction false} StateIsLatest(w: Setup, h: seq<Event>, agentId: string)
    ensures var control := Auth.ControlAfter(w.auth, AuthRun(w, h));
            (if agentId in control then Some(control[agentId]) else None) ==
              LastWritten(w.auth.snapshots, h, agentId)
    ensures App.LastLoaded(w.reader, w.startup, AppRun(w, h)) == LastLoaded(w.reader, w.startup, h)
  {
    if h != [] {
      var before := h[..|h| - 1];
      StateIsLatest(w, before, agentId);
      assert AuthRun(w, h)[..|h| - 1] == AuthRun(w, before);
      assert AppRun(w, h)[..|h| - 1] == AppRun(w, before);
    }
  }

  lemma {:induction false} RunPrefixes(w: Setup, h: seq<Event>, n: nat)
    requires n <= |h|
    ensures AuthRun(w, h)[..n] == AuthRun(w, h[..n]) && AppRun(w, h)[..n] == AppRun(w, h[..n])
  {
    if n < |h| {
      RunPrefixes(w, h[..|h| - 1], n);
      assert h[..|h| - 1][..n] == h[..n];
      assert AuthRun(w, h)[..n] == AuthRun(w, h)[..|h| - 1][..n];
      assert AppRun(w, h)[..n] == AppRun(w, h)[..|h| - 1][..n];
      assert AuthRun(w, h)[..|h| - 1] == AuthRun(w, h[..|h| - 1]);
      assert AppRun(w, h)[..|h| - 1] == AppRun(w, h[..|h| - 1]);
    } else {
      assert h[..n] == h;
    }
  }

  lemma RunEvent(w: Setup, h: seq<Event>, n: nat)
    requires n < |h|
    ensures AuthRun(w, h)[n] == AuthEvent(After(w, h[..n]), h[n])
  {
    RunPrefixes(w, h, n + 1);
    assert h[..n + 1][..n] == h[..n];
    assert AuthRun(w, h)[n] == AuthRun(w, h)[..n + 1][n];
  }

  /** The snapshot in force permits the agent's version. */
  predicate InForce(written: Option<Snapshot>, agentId: string, agentVersion: int) {
    && written.Some? && written.value.agentId == agentId
    && written.value.state == Inactive && agentVersion > written.value.revokedThroughAgentVersion
  }

  lemma PermittedByLatest(w: Setup, h: seq<Event>, n: nat, agentId: string, agentVersion: int)
    requires n <= |h|
    ensures Permits(Auth.ControlAfter(w.auth, AuthRun(w, h)[..n]), agentId, agentVersion) <==>
              InForce(LastWritten(w.auth.snapshots, h[..n], agentId), agentId, agentVersion)
  {
    RunPrefixes(w, h, n);
    StateIsLatest(w, h[..n], agentId);
  }

  lemma InstalledByLatest(w: Setup, h: seq<Event>, n: nat)
    requires n <= |h|
    ensures var s := App.After(w.reader, w.startup, w.provider, AppRun(w, h)[..n]);
            s.useCases != [] && App.Installed(s) == LastLoaded(w.reader, w.startup, h[..n])
  {
    RunPrefixes(w, h, n);
    App.InstalledExactly(w.reader, w.startup, w.provider, AppRun(w, h[..n]));
    StateIsLatest(w, h[..n], "");
  }

  /** Over every interleaving, each returned decision has an accepted authorization of its own. */
  lemma DecisionsHaveTheirAcceptance(w: Setup, h: seq<Event>, k: nat)
    requires k < |After(w, h).returned|
    ensures var s := After(w, h);
            && ReturnedProperly(w, s, s.returned[k])
            && forall j :: 0 <= j < |s.returned| && j != k ==> s.returned[j].spend != s.returned[k].spend
  {
    RunsAreSound(w, h);
  }

  /** No identifier yields two decisions, on any number of replicas, when consumptions are orderly. */
  lemma IdentifiersDecideOnce(w: Setup, h: seq<Event>, j: nat, k: nat)
    requires j < k < |After(w, h).returned|
    requires Auth.Orderly(w.auth.guard, Auth.Presentations(After(w, h).auth.spends))
    ensures var s := After(w, h);
            && s.returned[j].spend < |s.auth.spends| && s.returned[k].spend < |s.auth.spends|
            && Auth.AuthorizationId(s.auth.spends[s.returned[j].spend].call)
               != Auth.AuthorizationId(s.auth.spends[s.returned[k].spend].call)
  {
    RunsAreSound(w, h);
    RunsProject(w, h);
    var s := After(w, h);
    var a, b := s.returned[j].spend, s.returned[k].spend;
    assert ReturnedProperly(w, s, s.returned[j]) && ReturnedProperly(w, s, s.returned[k]);
    if a < b {
      Auth.AcceptedOnce(w.auth, AuthRun(w, h), a, b);
    } else {
      Auth.AcceptedOnce(w.auth, AuthRun(w, h), b, a);
    }
  }

  /** The spend that admitted a returned decision was authorized, and permitted by the snapshot in force when
  its control read ran. */
  lemma SpendsAreAuthorized(cfg: Config, crypto: Crypto, guard: Guard, snapshots: map<string, Snapshot>,
                            reader: App.Reader, startup: RoutingPolicy, provider: AvailabilityProvider,
                            h: seq<Event>, n: nat)
    requires UniqueKids(cfg.keySet.keys)
    requires n < |After(Setup(Auth.SetupOf(cfg, crypto, guard, snapshots), reader, startup, provider), h).auth.spends|
    ensures var w := Setup(Auth.SetupOf(cfg, crypto, guard, snapshots), reader, startup, provider);
            var a := After(w, h).auth.spends[n];
            && Authorizes(cfg, crypto, a.call.envelope, a.call.request, a.call.now)
            && (cfg.controlConfigured ==>
                  && a.readAt < |h| && h[a.readAt].ReadsControl?
                  && InForce(LastWritten(snapshots, h[..a.readAt], Auth.AgentId(a.call)),
                             Auth.AgentId(a.call), Auth.AgentVersion(a.call)))
  {
    var w := Setup(Auth.SetupOf(cfg, crypto, guard, snapshots), reader, startup, provider);
    RunsProject(w, h);
    Auth.AcceptedIsAuthorized(cfg, crypto, guard, snapshots, AuthRun(w, h), n);
    if cfg.controlConfigured {
      PermittedAtRead(w, h, After(w, h).auth.spends[n]);
    }
  }

  lemma PermittedAtRead(w: Setup, h: seq<Event>, a: Auth.Spend)
    requires a.readAt < |h| && AuthRun(w, h)[a.readAt].ReadsControl?
    requires Permits(Auth.ControlAfter(w.auth, AuthRun(w, h)[..a.readAt]), Auth.AgentId(a.call),
                     Auth.AgentVersion(a.call))
    ensures h[a.readAt].ReadsControl?
    ensures InForce(LastWritten(w.auth.snapshots, h[..a.readAt], Auth.AgentId(a.call)),
                    Auth.AgentId(a.call), Auth.AgentVersion(a.call))
  {
    RunEvent(w, h, a.readAt);
    PermittedByLatest(w, h, a.readAt, Auth.AgentId(a.call), Auth.AgentVersion(a.call));
  }

  /** Every decision is that of the policy last loaded when its request arrived. */
  lemma DecisionsAreRouted(w: Setup, h: seq<Event>, n: nat)
    requires App.Loaded(w.reader, w.startup) && n < |After(w, h).app.decisions|
    ensures var d := After(w, h).app.decisions[n];
            && d.flight.startedAt < |h|
            && var policy := LastLoaded(w.reader, w.startup, h[..d.flight.startedAt]);
               && App.Loaded(w.reader, policy) && App.Sound(policy)
               && Decides(policy, w.provider, d.flight.request, d.flight.explain, d.outcome)
  {
    RunsProject(w, h);
    App.DecisionsUseOnePolicy(w.reader, w.startup, w.provider, AppRun(w, h), n);
    var d := After(w, h).app.decisions[n];
    InstalledByLatest(w, h, d.flight.startedAt);
    var policy := App.Installed(App.After(w.reader, w.startup, w.provider, AppRun(w, h)[..d.flight.startedAt]));
    RouteOfDecides(policy, w.provider, d.flight.request, d.flight.explain);
  }

  /** Over every interleaving, a returned decision was authorized by a trusted signature over its own request
  and permitted when its control read ran; it is the decision of the policy installed when the request
  arrived, and selects a group that passes all nine constraints there and is signed for the request's data
  class. */
  lemma DecisionsAreAuthorized(cfg: Config, crypto: Crypto, guard: Guard, snapshots: map<string, Snapshot>,
                               reader: App.Reader, startup: RoutingPolicy, provider: AvailabilityProvider,
                               h: seq<Event>, k: nat)
    requires UniqueKids(cfg.keySet.keys) && App.Loaded(reader, startup)
    requires k < |After(Setup(Auth.SetupOf(cfg, crypto, guard, snapshots), reader, startup, provider), h).returned|
    ensures var w := Setup(Auth.SetupOf(cfg, crypto, guard, snapshots), reader, startup, provider);
            var s := After(w, h);
            && ReturnedProperly(w, s, s.returned[k])
            && var a, d := s.auth.spends[s.returned[k].spend], s.app.decisions[s.returned[k].decision];
               && Authorizes(cfg, crypto, a.call.envelope, a.call.request, a.call.now)
               && (cfg.controlConfigured ==>
                     && a.readAt < |h| && h[a.readAt].ReadsControl?
                     && InForce(LastWritten(snapshots, h[..a.readAt], Auth.AgentId(a.call)),
                                Auth.AgentId(a.call), Auth.AgentVersion(a.call)))
               && ArrivedAs(h, d.flight, a.call)
               && var policy := LastLoaded(reader, startup, h[..d.flight.startedAt]);
                  && App.Loaded(reader, policy)
                  && ScopedSelection(policy, provider, a.call.request, d.flight.explain, a.call.envelope, d.outcome)
  {
    var w := Setup(Auth.SetupOf(cfg, crypto, guard, snapshots), reader, startup, provider);
    RunsAreSound(w, h);
    RunsAreTraced(w, h);
    var returned := After(w, h).returned[k];
    assert ReturnedProperly(w, After(w, h), returned);
    SpendsAreAuthorized(cfg, crypto, guard, snapshots, reader, startup, provider, h, returned.spend);
    DecisionsAreRouted(w, h, returned.decision);
    var a, d := After(w, h).auth.spends[returned.spend], After(w, h).app.decisions[returned.decision];
    var policy := LastLoaded(reader, startup, h[..d.flight.startedAt]);
    SelectionIsScoped(policy, provider, a.call.request, d.flight.explain, a.call.envelope, d.outcome);
  }

  // ---------------------------------------------------------------------------------------------
  // One request alone is one call of the handler
  // ---------------------------------------------------------------------------------------------

  function CallOf(ask: Ask): Auth.Call
    requires ask.authorization.Some?
  {
    Auth.Call(ask.authorization.value, ask.request, Instant(ask.verifyNow, true))
  }

  /** Arrival, control read and consumption with nothing in between. */
  function Verified(w: Setup, s: State, id: nat, ask: Ask, at: nat): State
    requires ask.authorization.Some?
  {
    var arrived := Step(w, s, Arrives(id, CallOf(ask), ask.explain), at);
    var read := Step(w, arrived, ReadsControl(id, ask.reach.control), at + 1);
    Step(w, read, Consumes(id, ask.reach.serverNow, ask.reach.replay), at + 2)
  }

  predicate Unused(s: State, id: nat) {
    id !in s.auth.flights && id !in s.app.inFlight && id !in s.admitted
  }

  lemma MachinesAlone(w: Setup, s: State, id: nat, ask: Ask, at: nat)
    requires Unused(s, id) && ask.authorization.Some? && s.app.useCases != []
    ensures var t := Verified(w, s, id, ask, at);
            && t.auth == Auth.Uninterrupted(w.auth, s.auth, id, CallOf(ask), ask.reach, at)
            && t.app ==
              s.app.(inFlight := s.app.inFlight[id := App.InFlight(at, ask.request, ask.explain, |s.app.useCases| - 1)])
            && t.returned == s.returned
  {
  }

  lemma AdmissionAlone(w: Setup, s: State, id: nat, ask: Ask, at: nat)
    requires Unused(s, id) && ask.authorization.Some?
    ensures var t, n := Verified(w, s, id, ask, at), |s.auth.spends|;
            && (id in t.admitted <==> n < |t.auth.spends| && Auth.Accepted(w.auth, t.auth.spends[n]))
            && (id in t.admitted ==> t.admitted[id] == n)
  {
    var arrived := Step(w, s, Arrives(id, CallOf(ask), ask.explain), at);
    var read := Step(w, arrived, ReadsControl(id, ask.reach.control), at + 1);
    assert read.auth.spends == arrived.auth.spends == s.auth.spends;
  }

  lemma VerifiedAlone(w: Setup, s: State, id: nat, ask: Ask, at: nat)
    requires Unused(s, id) && ask.authorization.Some? && s.app.useCases != []
    ensures var t, n := Verified(w, s, id, ask, at), |s.auth.spends|;
            && t.auth == Auth.Uninterrupted(w.auth, s.auth, id, CallOf(ask), ask.reach, at)
            && t.app ==
              s.app.(inFlight := s.app.inFlight[id := App.InFlight(at, ask.request, ask.explain, |s.app.useCases| - 1)])
            && t.returned == s.returned
            && (id in t.admitted <==> n < |t.auth.spends| && Auth.Accepted(w.auth, t.auth.spends[n]))
            && (id in t.admitted ==> t.admitted[id] == n < |t.auth.spends| && t.auth.spends[n].call == CallOf(ask))
  {
    MachinesAlone(w, s, id, ask, at);
    AdmissionAlone(w, s, id, ask, at);
    Auth.UninterruptedEffects(w.auth, s.auth, id, CallOf(ask), ask.reach, at);
  }

  /** What routing a request returns: its decision, if the request was admitted and the selected group is in
  the scope that admitted it. */
  lemma RoutesStep(w: Setup, t: State, id: nat, at: nat)
    requires id in t.app.inFlight && t.app.inFlight[id].useCase < |t.app.useCases|
    requires id in t.admitted ==> t.admitted[id] < |t.auth.spends|
    ensures var f := t.app.inFlight[id];
            var outcome := RouteOf(t.app.useCases[f.useCase], w.provider, f.request, f.explain);
            |Step(w, t, Routes(id), at).returned| == |t.returned| + 1 <==>
              && id in t.admitted && outcome.Routed?
              && SelectedModelDenial(t.auth.spends[t.admitted[id]].call.envelope.claims.scope, outcome.selected).None?
  {
  }

  lemma RoutedAlone(w: Setup, s: State, id: nat, ask: Ask, at: nat)
    requires Unused(s, id) && ask.authorization.Some? && s.app.useCases != []
    ensures var t := Verified(w, s, id, ask, at);
            var outcome := RouteOf(App.Installed(s.app), w.provider, ask.request, ask.explain);
            |Step(w, t, Routes(id), at + 3).returned| == |s.returned| + 1 <==>
              && id in t.admitted && outcome.Routed?
              && SelectedModelDenial(ask.authorization.value.claims.scope, outcome.selected).None?
  {
    VerifiedAlone(w, s, id, ask, at);
    RoutesStep(w, Verified(w, s, id, ask, at), id, at + 3);
  }

  /** Alone, a request is admitted exactly when one verification succeeds. */
  lemma AdmittedAlone(cfg: Config, crypto: Crypto, guard: Guard, snapshots: map<string, Snapshot>,
                      w: Setup, s: State, id: nat, ask: Ask, at: nat)
    requires w.auth == Auth.SetupOf(cfg, crypto, guard, snapshots)
    requires Unused(s, id) && ask.authorization.Some? && s.app.useCases != []
    ensures id in Verified(w, s, id, ask, at).admitted <==>
              Checked(VerifierView(cfg, crypto, s.auth.control, guard, s.auth.store), ask).Success?
  {
    VerifiedAlone(w, s, id, ask, at);
    Auth.UninterruptedEffects(w.auth, s.auth, id, CallOf(ask), ask.reach, at);
    Auth.UninterruptedIsVerify(cfg, crypto, guard, snapshots, s.auth, id, CallOf(ask), ask.reach, at);
  }

  lemma GateAlone(v: VerifierView, ask: Ask)
    requires ask.authorization.Some?
    ensures var gate, result := Gate(true, Some(v), ask), Checked(v, ask);
            && (gate.Success? <==> result.Success?)
            && (gate.Success? ==> gate.value.Some? && gate.value.value.envelope == ask.authorization.value)
  {
  }

  /** A request whose four events follow one another gets a decision exactly when one call of the handler
  returns it, against the verifier's state and the use case it met on arrival. */
  lemma AloneIsTheHandler(cfg: Config, crypto: Crypto, guard: Guard, snapshots: map<string, Snapshot>,
                          reader: App.Reader, startup: RoutingPolicy, provider: AvailabilityProvider,
                          s: State, id: nat, ask: Ask, at: nat)
    requires Unused(s, id) && ask.authorization.Some? && s.app.useCases != []
    ensures var w := Setup(Auth.SetupOf(cfg, crypto, guard, snapshots), reader, startup, provider);
            var end := Step(w, Verified(w, s, id, ask, at), Routes(id), at + 3);
            var gate := Gate(true, Some(VerifierView(cfg, crypto, s.auth.control, guard, s.auth.store)), ask);
            var outcome := RouteOf(App.Installed(s.app), provider, ask.request, ask.explain);
            |end.returned| == |s.returned| + 1 <==> gate.Success? && Respond(gate.value, outcome) == Decided(outcome)
  {
    var w := Setup(Auth.SetupOf(cfg, crypto, guard, snapshots), reader, startup, provider);
    RoutedAlone(w, s, id, ask, at);
    AdmittedAlone(cfg, crypto, guard, snapshots, w, s, id, ask, at);
    GateAlone(VerifierView(cfg, crypto, s.auth.control, guard, s.auth.store), ask);
  }
}
