/** Every interleaving of Governance writing control snapshots with verifications in flight, on any number
of replicas.

A verification passes its pure stages, later reads the control projection, and later still consumes its
identifier at the replay guard; other requests and Governance act in between. The order of the events is
arbitrary. */
module ControlProtocol {
  import opened Wrappers
  import opened AuthorizationContract
  import opened Routing
  import opened ReplayGuard
  import opened Verifier

  /** One verification call: what it was asked and the clock reading it was given. */
  datatype Call = Call(envelope: Envelope, request: RouteRequest, now: Instant)

  /** `passes` is the verdict of the pure stages. */
  datatype Setup = Setup(passes: Call -> bool, controlConfigured: bool, guard: Guard, snapshots: map<string, Snapshot>)

  function SetupOf(cfg: Config, crypto: Crypto, guard: Guard, snapshots: map<string, Snapshot>): Setup {
    Setup((c: Call) => PureDenial(cfg, crypto, c.envelope, c.request, c.now).None?, cfg.controlConfigured, guard,
          snapshots)
  }

  datatype Event =
    | GovernanceWrites(agentId: string, snapshot: Snapshot)
    | Begins(ticket: nat, call: Call)
    | ReadsControl(ticket: nat, reachable: bool)
    | Consumes(ticket: nat, serverNow: int, delivery: Delivery)
    | Elsewhere

  /** `readAt` is the position in the run of the event that read the control projection. */
  datatype Flight =
    | AwaitsControl(call: Call)
    | AwaitsConsumption(call: Call, readAt: nat)

  /** A consumption that ran at the guard, with its position in the run and what the guard found. */
  datatype Spend = Spend(
    call: Call, readAt: nat, consumedAt: nat, serverNow: int, delivery: Delivery, found: Consumption)

  datatype State = State(
    control: map<string, Snapshot>, flights: map<nat, Flight>, store: map<string, int>, spends: seq<Spend>)

  function AgentId(c: Call): string { c.envelope.claims.subject.agentId }

  function AgentVersion(c: Call): int { c.envelope.claims.subject.agentVersion }

  function AuthorizationId(c: Call): string { c.envelope.claims.authorizationId }

  function PresentationOf(c: Call, serverNow: int): Presentation {
    Presentation(AuthorizationId(c), c.envelope.claims.expiresAt, c.now.micros, serverNow)
  }

  /** The verification succeeded: the guard found the identifier fresh and said so. */
  predicate Accepted(w: Setup, spend: Spend) {
    spend.found.Fresh? && AnswerArrives(w.guard, spend.delivery)
  }

  function Presentations(spends: seq<Spend>): seq<Presentation> {
    seq(|spends|, i requires 0 <= i < |spends| => PresentationOf(spends[i].call, spends[i].serverNow))
  }

  function Start(w: Setup): State {
    State(w.snapshots, map[], map[], [])
  }

  function Begin(w: Setup, s: State, ticket: nat, c: Call, at: nat): State {
    if ticket in s.flights || !w.passes(c) then s
    else s.(flights := s.flights[ticket := if w.controlConfigured then AwaitsControl(c) else AwaitsConsumption(c, at)])
  }

  function ReadControlStep(s: State, ticket: nat, reachable: bool, at: nat): State {
    if !(ticket in s.flights && s.flights[ticket].AwaitsControl?) then s
    else
      var c := s.flights[ticket].call;
      if Enforce(ReadingOf(s.control, AgentId(c), reachable), AgentVersion(c)).Some?
      then s.(flights := s.flights - {ticket})
      else s.(flights := s.flights[ticket := AwaitsConsumption(c, at)])
  }

  predicate Waits(s: State, ticket: nat) {
    ticket in s.flights && s.flights[ticket].AwaitsConsumption?
  }

  /** What a waiting flight's consumption finds. */
  function SpendOf(w: Setup, s: State, ticket: nat, serverNow: int, delivery: Delivery, at: nat): Spend
    requires Waits(s, ticket)
  {
    var flight := s.flights[ticket];
    Spend(flight.call, flight.readAt, at, serverNow, delivery,
          Finds(w.guard, s.store, PresentationOf(flight.call, serverNow)))
  }

  /** A command that never ran leaves no trace but the end of its flight. */
  function ConsumeStep(w: Setup, s: State, ticket: nat, serverNow: int, delivery: Delivery, at: nat): State {
    if !Waits(s, ticket) then s
    else if !Runs(w.guard, delivery) then s.(flights := s.flights - {ticket})
    else
      State(s.control, s.flights - {ticket},
            Leaves(w.guard, s.store, PresentationOf(s.flights[ticket].call, serverNow)),
            s.spends + [SpendOf(w, s, ticket, serverNow, delivery, at)])
  }

  function Step(w: Setup, s: State, event: Event, at: nat): State {
    match event
    case GovernanceWrites(agentId, snapshot) => s.(control := s.control[agentId := snapshot])
    case Begins(ticket, c) => Begin(w, s, ticket, c, at)
    case ReadsControl(ticket, reachable) => ReadControlStep(s, ticket, reachable, at)
    case Consumes(ticket, serverNow, delivery) => ConsumeStep(w, s, ticket, serverNow, delivery, at)
    case Elsewhere => s
  }

  function After(w: Setup, h: seq<Event>): State {
    if h == [] then Start(w) else Step(w, After(w, h[..|h| - 1]), h[|h| - 1], |h| - 1)
  }

  lemma AfterAppend(w: Setup, h: seq<Event>, event: Event)
    ensures After(w, h + [event]) == Step(w, After(w, h), event, |h|)
  {
    assert (h + [event])[..|h|] == h;
  }

  // ---------------------------------------------------------------------------------------------
  // What one request does alone
  // ---------------------------------------------------------------------------------------------

  /** The three steps of a call with nothing in between. */
  function Uninterrupted(w: Setup, s: State, ticket: nat, c: Call, reach: Reach, at: nat): State {
    ConsumeStep(w, ReadControlStep(Begin(w, s, ticket, c, at), ticket, reach.control, at + 1), ticket,
                reach.serverNow, reach.replay, at + 2)
  }

  lemma UninterruptedEffects(w: Setup, s: State, ticket: nat, c: Call, reach: Reach, at: nat)
    requires ticket !in s.flights
    ensures var end, p := Uninterrupted(w, s, ticket, c, reach, at), PresentationOf(c, reach.serverNow);
            var denied := w.controlConfigured
              && Enforce(ReadingOf(s.control, AgentId(c), reach.control), AgentVersion(c)).Some?;
            && end.flights == s.flights && end.control == s.control
            && if !w.passes(c) || denied || !Runs(w.guard, reach.replay) then end == s
               else
                 && end.store == Leaves(w.guard, s.store, p)
                 && |end.spends| == |s.spends| + 1 && end.spends[..|s.spends|] == s.spends
                 && end.spends[|s.spends|].found == Finds(w.guard, s.store, p)
                 && end.spends[|s.spends|].delivery == reach.replay && end.spends[|s.spends|].call == c
  {
    var begun := Begin(w, s, ticket, c, at);
    if w.passes(c) {
      assert begun.flights - {ticket} == s.flights;
      var read := ReadControlStep(begun, ticket, reach.control, at + 1);
      assert read.flights - {ticket} == s.flights;
    }
  }

  /** The steps of one call, uninterrupted, accept exactly when one verification succeeds, and leave the
  store as that verification does. */
  lemma UninterruptedIsVerify(cfg: Config, crypto: Crypto, guard: Guard, snapshots: map<string, Snapshot>,
                              s: State, ticket: nat, c: Call, reach: Reach, at: nat)
    requires ticket !in s.flights
    ensures var w := SetupOf(cfg, crypto, guard, snapshots);
            var end := Uninterrupted(w, s, ticket, c, reach, at);
            var result := VerifyResult(cfg, crypto, s.control, guard, s.store, c.envelope, c.request, c.now, reach);
            result.Success? <==> |end.spends| == |s.spends| + 1 && Accepted(w, end.spends[|s.spends|])
  {
    UninterruptedEffects(SetupOf(cfg, crypto, guard, snapshots), s, ticket, c, reach, at);
  }

  // ---------------------------------------------------------------------------------------------
  // What the control read of every spend saw
  // ---------------------------------------------------------------------------------------------

  /** The projection after a run: Governance alone writes it. */
  function ControlAfter(w: Setup, h: seq<Event>): map<string, Snapshot> {
    if h == [] then w.snapshots else
      var before, last := ControlAfter(w, h[..|h| - 1]), h[|h| - 1];
      if last.GovernanceWrites? then before[last.agentId := last.snapshot] else before
  }

  /** The call passed the pure stages, and event `readAt` of the run found it a trustworthy, inactive
  snapshot with a revocation floor below its version. */
  predicate Cleared(w: Setup, h: seq<Event>, c: Call, readAt: nat) {
    && w.passes(c)
    && readAt < |h|
    && (w.controlConfigured ==>
          h[readAt].ReadsControl? && Permits(ControlAfter(w, h[..readAt]), AgentId(c), AgentVersion(c)))
  }

  ghost predicate FlightsCleared(w: Setup, h: seq<Event>, flights: map<nat, Flight>) {
    forall t :: t in flights ==>
      && w.passes(flights[t].call)
      && (flights[t].AwaitsConsumption? ==> Cleared(w, h, flights[t].call, flights[t].readAt))
  }

  /** The spend was cleared, and consumed by a later event of the run. */
  predicate SpendCleared(w: Setup, h: seq<Event>, spend: Spend) {
    && Cleared(w, h, spend.call, spend.readAt)
    && spend.readAt < spend.consumedAt < |h|
    && h[spend.consumedAt].Consumes? && h[spend.consumedAt].serverNow == spend.serverNow
  }

  ghost predicate SpendsCleared(w: Setup, h: seq<Event>, spends: seq<Spend>) {
    && (forall k :: 0 <= k < |spends| ==> SpendCleared(w, h, spends[k]))
    && (forall j, k :: 0 <= j < k < |spends| ==> spends[j].consumedAt < spends[k].consumedAt)
  }

  lemma ClearedLonger(w: Setup, h: seq<Event>, c: Call, readAt: nat)
    requires h != [] && Cleared(w, h[..|h| - 1], c, readAt)
    ensures Cleared(w, h, c, readAt)
  {
    assert h[..|h| - 1][..readAt] == h[..readAt];
  }

  lemma ReadClears(w: Setup, h: seq<Event>, s: State, ticket: nat, reachable: bool)
    requires h != [] && h[|h| - 1] == ReadsControl(ticket, reachable)
    requires s.control == ControlAfter(w, h[..|h| - 1])
    requires ticket in s.flights && w.passes(s.flights[ticket].call)
    ensures var t := ReadControlStep(s, ticket, reachable, |h| - 1);
            ticket in t.flights && s.flights[ticket].AwaitsControl? ==>
              t.flights[ticket] == AwaitsConsumption(s.flights[ticket].call, |h| - 1)
                && Cleared(w, h, s.flights[ticket].call, |h| - 1)
  {
    var c := s.flights[ticket].call;
    EnforcePermits(s.control, AgentId(c), AgentVersion(c), reachable);
  }

  /** Nothing is consumed, so nothing is accepted, whose control read saw a missing, misfiled or active
  snapshot, or a revoked version. */
  lemma {:induction false} ConsumedOnlyIfCleared(w: Setup, h: seq<Event>)
    ensures var s := After(w, h);
            && s.control == ControlAfter(w, h)
            && FlightsCleared(w, h, s.flights)
            && SpendsCleared(w, h, s.spends)
  {
    if h != [] {
      var before := h[..|h| - 1];
      ConsumedOnlyIfCleared(w, before);
      var s, t := After(w, before), After(w, h);
      forall k: nat | k in t.flights
        ensures w.passes(t.flights[k].call)
        ensures t.flights[k].AwaitsConsumption? ==> Cleared(w, h, t.flights[k].call, t.flights[k].readAt)
      {
        FlightStep(w, h, s, k);
      }
      SpendStep(w, h, s);
    }
  }

  lemma SpendClearedLonger(w: Setup, h: seq<Event>, spend: Spend)
    requires h != [] && SpendCleared(w, h[..|h| - 1], spend)
    ensures SpendCleared(w, h, spend)
  {
    ClearedLonger(w, h, spend.call, spend.readAt);
  }

  lemma SpendsClearedLonger(w: Setup, h: seq<Event>, spends: seq<Spend>)
    requires h != [] && SpendsCleared(w, h[..|h| - 1], spends)
    ensures SpendsCleared(w, h, spends)
  {
    forall k | 0 <= k < |spends| ensures SpendCleared(w, h, spends[k]) {
      SpendClearedLonger(w, h, spends[k]);
    }
  }

  lemma SpendAdded(w: Setup, h: seq<Event>, spends: seq<Spend>, latest: Spend)
    requires h != [] && SpendsCleared(w, h[..|h| - 1], spends)
    requires SpendCleared(w, h, latest) && latest.consumedAt == |h| - 1
    ensures SpendsCleared(w, h, spends + [latest])
  {
    SpendsClearedLonger(w, h, spends);
    forall j | 0 <= j < |spends| ensures spends[j].consumedAt < |h| - 1 {
      assert SpendCleared(w, h[..|h| - 1], spends[j]);
    }
  }

  lemma SpendStep(w: Setup, h: seq<Event>, s: State)
    requires h != [] && s == After(w, h[..|h| - 1])
    requires FlightsCleared(w, h[..|h| - 1], s.flights) && SpendsCleared(w, h[..|h| - 1], s.spends)
    ensures SpendsCleared(w, h, After(w, h).spends)
  {
    var last := h[|h| - 1];
    if last.Consumes? && Waits(s, last.ticket) && Runs(w.guard, last.delivery) {
      ClearedLonger(w, h, s.flights[last.ticket].call, s.flights[last.ticket].readAt);
      SpendAdded(w, h, s.spends, SpendOf(w, s, last.ticket, last.serverNow, last.delivery, |h| - 1));
    } else {
      SpendsClearedLonger(w, h, s.spends);
    }
  }

  lemma FlightStep(w: Setup, h: seq<Event>, s: State, k: nat)
    requires h != [] && s == After(w, h[..|h| - 1]) && k in After(w, h).flights
    requires s.control == ControlAfter(w, h[..|h| - 1]) && FlightsCleared(w, h[..|h| - 1], s.flights)
    ensures var f := After(w, h).flights[k];
            && w.passes(f.call)
            && (f.AwaitsConsumption? ==> Cleared(w, h, f.call, f.readAt))
  {
    var last := h[|h| - 1];
    if k in s.flights {
      if s.flights[k].AwaitsConsumption? {
        ClearedLonger(w, h, s.flights[k].call, s.flights[k].readAt);
      } else if last.ReadsControl? && last.ticket == k {
        ReadClears(w, h, s, k, last.reachable);
      }
    }
  }

  /** In every interleaving an accepted call was authorized by a trusted signature over its own facts,
  and Governance permitted its agent version when its control read ran. */
  lemma AcceptedIsAuthorized(cfg: Config, crypto: Crypto, guard: Guard, snapshots: map<string, Snapshot>,
                             h: seq<Event>, k: nat)
    requires UniqueKids(cfg.keySet.keys)
    requires k < |After(SetupOf(cfg, crypto, guard, snapshots), h).spends|
    ensures var w := SetupOf(cfg, crypto, guard, snapshots);
            var a := After(w, h).spends[k];
            && Authorizes(cfg, crypto, a.call.envelope, a.call.request, a.call.now)
            && (cfg.controlConfigured ==>
                  && a.readAt < |h| && h[a.readAt].ReadsControl?
                  && Permits(ControlAfter(w, h[..a.readAt]), AgentId(a.call), AgentVersion(a.call)))
  {
    var w := SetupOf(cfg, crypto, guard, snapshots);
    ConsumedOnlyIfCleared(w, h);
    var a := After(w, h).spends[k];
    assert SpendCleared(w, h, a);
    PureStagesExactly(cfg, crypto, a.call.envelope, a.call.request, a.call.now);
  }

  // ---------------------------------------------------------------------------------------------
  // Revocation
  // ---------------------------------------------------------------------------------------------

  /** Governance never lowers an agent's revocation floor. */
  ghost predicate FloorsNeverFall(w: Setup, h: seq<Event>) {
    forall i :: 0 <= i < |h| && h[i].GovernanceWrites? && h[i].agentId in ControlAfter(w, h[..i]) ==>
      ControlAfter(w, h[..i])[h[i].agentId].revokedThroughAgentVersion <= h[i].snapshot.revokedThroughAgentVersion
  }

  predicate Revoked(control: map<string, Snapshot>, agentId: string, agentVersion: int) {
    agentId in control && agentVersion <= control[agentId].revokedThroughAgentVersion
  }

  lemma {:induction false} RevokedForGood(w: Setup, h: seq<Event>, i: nat, j: nat, agentId: string, agentVersion: int)
    requires FloorsNeverFall(w, h) && i <= j <= |h| && Revoked(ControlAfter(w, h[..i]), agentId, agentVersion)
    ensures Revoked(ControlAfter(w, h[..j]), agentId, agentVersion)
    decreases j
  {
    if i < j {
      RevokedForGood(w, h, i, j - 1, agentId, agentVersion);
      assert h[..j][..j - 1] == h[..j - 1];
    }
  }

  /** Once the floor reaches a version, every consumption of that version read the projection earlier. */
  lemma RevokedVersionsAreNotAccepted(w: Setup, h: seq<Event>, i: nat, k: nat)
    requires w.controlConfigured && FloorsNeverFall(w, h) && i <= |h| && k < |After(w, h).spends|
    ensures var a := After(w, h).spends[k];
            Revoked(ControlAfter(w, h[..i]), AgentId(a.call), AgentVersion(a.call)) ==> a.readAt < i
  {
    ConsumedOnlyIfCleared(w, h);
    var a := After(w, h).spends[k];
    assert SpendCleared(w, h, a);
    if Revoked(ControlAfter(w, h[..i]), AgentId(a.call), AgentVersion(a.call)) && i <= a.readAt {
      RevokedForGood(w, h, i, a.readAt, AgentId(a.call), AgentVersion(a.call));
      assert false;
    }
  }

  // ---------------------------------------------------------------------------------------------
  // Between the read and the consumption
  // ---------------------------------------------------------------------------------------------

  predicate ConsumptionOf(event: Event, ticket: nat) {
    event.Consumes? && event.ticket == ticket
  }

  lemma StillWaits(w: Setup, s: State, event: Event, ticket: nat, at: nat)
    requires Waits(s, ticket) && !ConsumptionOf(event, ticket)
    ensures Waits(Step(w, s, event, at), ticket) && Step(w, s, event, at).flights[ticket] == s.flights[ticket]
  {
  }

  /** A flight that passed its control read waits through everything but its own consumption. */
  lemma {:induction false} FlightWaits(w: Setup, h: seq<Event>, between: seq<Event>, ticket: nat)
    requires Waits(After(w, h), ticket)
    requires forall i :: 0 <= i < |between| ==> !ConsumptionOf(between[i], ticket)
    ensures Waits(After(w, h + between), ticket)
    ensures After(w, h + between).flights[ticket] == After(w, h).flights[ticket]
  {
    if between == [] {
      assert h + between == h;
    } else {
      var init, last := between[..|between| - 1], between[|between| - 1];
      FlightWaits(w, h, init, ticket);
      assert (h + init) + [last] == h + between;
      AfterAppend(w, h + init, last);
      StillWaits(w, After(w, h + init), last, ticket, |h + init|);
    }
  }

  /** The read decides: whatever happens between it and the consumption, an engaged kill switch or a raised
  floor included, the replay guard alone says whether the call is accepted. */
  lemma ReadDecides(w: Setup, h: seq<Event>, between: seq<Event>, ticket: nat, serverNow: int, delivery: Delivery)
    requires Waits(After(w, h), ticket)
    requires forall i :: 0 <= i < |between| ==> !ConsumptionOf(between[i], ticket)
    ensures var flight, s := After(w, h).flights[ticket], After(w, h + between);
            var end := After(w, h + between + [Consumes(ticket, serverNow, delivery)]);
            var found := Finds(w.guard, s.store, PresentationOf(flight.call, serverNow));
            end.spends == s.spends + if !Runs(w.guard, delivery) then [] else
              [Spend(flight.call, flight.readAt, |h| + |between|, serverNow, delivery, found)]
  {
    FlightWaits(w, h, between, ticket);
    AfterAppend(w, h + between, Consumes(ticket, serverNow, delivery));
  }

  /** A call accepted after its agent's kill switch was engaged: any waiting flight with an unspent identifier,
  when Governance writes an active snapshot before it is consumed. */
  lemma AcceptedThoughNoLongerPermitted(w: Setup, h: seq<Event>, ticket: nat, engaged: Snapshot, serverNow: int)
    requires Waits(After(w, h), ticket) && engaged.state.Active?
    requires Finds(w.guard, After(w, h).store, PresentationOf(After(w, h).flights[ticket].call, serverNow)).Fresh?
    ensures var c := After(w, h).flights[ticket].call;
            var written := h + [GovernanceWrites(AgentId(c), engaged)];
            var spends := After(w, written + [Consumes(ticket, serverNow, Answered)]).spends;
            && spends != []
            && var latest := spends[|spends| - 1];
               && latest.call == c && latest.consumedAt == |written| && Accepted(w, latest)
               && !Permits(ControlAfter(w, written), AgentId(c), AgentVersion(c))
  {
    var between := [GovernanceWrites(AgentId(After(w, h).flights[ticket].call), engaged)];
    AfterAppend(w, h, between[0]);
    ReadDecides(w, h, between, ticket, serverNow, Answered);
    assert (h + between)[..|h|] == h;
  }

  /** The last snapshot Governance wrote for an agent in events `i` to `j`. */
  function LatestWrite(h: seq<Event>, agentId: string, i: nat, j: nat): Option<Snapshot>
    requires i <= j <= |h|
  {
    if i == j then None
    else if h[j - 1].GovernanceWrites? && h[j - 1].agentId == agentId then Some(h[j - 1].snapshot)
    else LatestWrite(h, agentId, i, j - 1)
  }

  predicate SnapshotPermits(snapshot: Snapshot, agentId: string, agentVersion: int) {
    snapshot.agentId == agentId && snapshot.state.Inactive? && snapshot.revokedThroughAgentVersion < agentVersion
  }

  lemma {:induction false} PermittedLaterExactly(w: Setup, h: seq<Event>, agentId: string, agentVersion: int, i: nat,
                                                 j: nat)
    requires i <= j <= |h| && Permits(ControlAfter(w, h[..i]), agentId, agentVersion)
    ensures var written := LatestWrite(h, agentId, i, j);
            Permits(ControlAfter(w, h[..j]), agentId, agentVersion) <==>
              (written.Some? ==> SnapshotPermits(written.value, agentId, agentVersion))
    decreases j
  {
    if i < j {
      PermittedLaterExactly(w, h, agentId, agentVersion, i, j - 1);
      assert h[..j][..j - 1] == h[..j - 1];
    }
  }

  /** A call is still permitted when it is consumed exactly when the last snapshot written for its agent
  since its control read, if there is one, permits it. */
  lemma PermittedAtConsumptionExactly(w: Setup, h: seq<Event>, k: nat)
    requires w.controlConfigured && k < |After(w, h).spends|
    ensures var a := After(w, h).spends[k];
            && a.readAt < a.consumedAt < |h|
            && var written := LatestWrite(h, AgentId(a.call), a.readAt, a.consumedAt);
               Permits(ControlAfter(w, h[..a.consumedAt]), AgentId(a.call), AgentVersion(a.call)) <==>
                 (written.Some? ==> SnapshotPermits(written.value, AgentId(a.call), AgentVersion(a.call)))
  {
    ConsumedOnlyIfCleared(w, h);
    var a := After(w, h).spends[k];
    assert SpendCleared(w, h, a);
    PermittedLaterExactly(w, h, AgentId(a.call), AgentVersion(a.call), a.readAt, a.consumedAt);
  }

  // ---------------------------------------------------------------------------------------------
  // What the replay store holds
  // ---------------------------------------------------------------------------------------------

  /** The recorded findings are those of the presentations in order. */
  ghost predicate Recorded(g: Guard, spends: seq<Spend>) {
    forall i :: 0 <= i < |spends| ==> FindingAt(g, spends, i)
  }

  predicate FindingAt(g: Guard, spends: seq<Spend>, i: nat)
    requires i < |spends|
  {
    spends[i].found == Finds(g, StoreAfter(g, Presentations(spends[..i])),
                             PresentationOf(spends[i].call, spends[i].serverNow))
  }

  lemma PresentationsLonger(g: Guard, spends: seq<Spend>, latest: Spend)
    ensures StoreAfter(g, Presentations(spends + [latest])) ==
              Leaves(g, StoreAfter(g, Presentations(spends)), PresentationOf(latest.call, latest.serverNow))
  {
    assert Presentations(spends + [latest])[..|spends|] == Presentations(spends);
  }

  lemma RecordedLonger(g: Guard, spends: seq<Spend>, latest: Spend)
    requires Recorded(g, spends)
    requires latest.found == Finds(g, StoreAfter(g, Presentations(spends)),
                                   PresentationOf(latest.call, latest.serverNow))
    ensures Recorded(g, spends + [latest])
  {
    var more := spends + [latest];
    forall i | 0 <= i < |more| ensures FindingAt(g, more, i) {
      assert more[..i] == spends[..i];
      assert i < |spends| ==> FindingAt(g, spends, i);
      assert i == |spends| ==> spends[..i] == spends;
    }
  }

  lemma RecordedShorter(g: Guard, spends: seq<Spend>)
    requires Recorded(g, spends) && spends != []
    ensures Recorded(g, spends[..|spends| - 1])
  {
    var before := spends[..|spends| - 1];
    forall i | 0 <= i < |before| ensures FindingAt(g, before, i) {
      assert before[..i] == spends[..i];
      assert FindingAt(g, spends, i);
    }
  }

  /** Nothing but a consumption touches the replay store: a denial before it leaves every identifier as
  it was. */
  lemma OnlyConsumptionSpends(w: Setup, s: State, event: Event, at: nat)
    requires !event.Consumes?
    ensures Step(w, s, event, at).store == s.store && Step(w, s, event, at).spends == s.spends
  {
  }

  /** The store is what the recorded consumptions leave, and each found what the earlier ones left. */
  lemma {:induction false} StoreIsTheSpends(w: Setup, h: seq<Event>)
    ensures After(w, h).store == StoreAfter(w.guard, Presentations(After(w, h).spends))
    ensures Recorded(w.guard, After(w, h).spends)
  {
    if h != [] {
      StoreIsTheSpends(w, h[..|h| - 1]);
      var s, last := After(w, h[..|h| - 1]), h[|h| - 1];
      if !last.Consumes? {
        OnlyConsumptionSpends(w, s, last, |h| - 1);
      } else if Waits(s, last.ticket) && Runs(w.guard, last.delivery) {
        var latest := SpendOf(w, s, last.ticket, last.serverNow, last.delivery, |h| - 1);
        RecordedLonger(w.guard, s.spends, latest);
        PresentationsLonger(w.guard, s.spends, latest);
      }
    }
  }

  lemma {:induction false} HeldKeysWereFresh(g: Guard, spends: seq<Spend>, key: string)
    requires Recorded(g, spends) && key in StoreAfter(g, Presentations(spends))
    ensures exists i :: 0 <= i < |spends| && spends[i].found.Fresh? && KeyOf(g, AuthorizationId(spends[i].call)) == key
  {
    var before, last := spends[..|spends| - 1], spends[|spends| - 1];
    assert spends == before + [last] && FindingAt(g, spends, |before|);
    PresentationsLonger(g, before, last);
    GainsExactlyWhenFresh(g, StoreAfter(g, Presentations(before)), PresentationOf(last.call, last.serverNow));
    if key in StoreAfter(g, Presentations(before)) {
      RecordedShorter(g, spends);
      HeldKeysWereFresh(g, before, key);
      var i :| 0 <= i < |before| && before[i].found.Fresh? && KeyOf(g, AuthorizationId(before[i].call)) == key;
      assert spends[i].found.Fresh?;
    }
  }

  /** A key in the store is that of an accepted call, or of one whose consumption ran but whose answer was
  lost: a verification denied for any other reason leaves its identifier unspent. */
  lemma OnlyAcceptedIdsAreSpent(w: Setup, h: seq<Event>, key: string)
    requires key in After(w, h).store
    ensures exists k ::
              && 0 <= k < |After(w, h).spends|
              && KeyOf(w.guard, AuthorizationId(After(w, h).spends[k].call)) == key
              && (Accepted(w, After(w, h).spends[k]) || After(w, h).spends[k].delivery == Lost(true))
  {
    StoreIsTheSpends(w, h);
    ConsumedOnlyIfCleared(w, h);
    var spends := After(w, h).spends;
    SpendsRan(w, h);
    HeldKeysWereFresh(w.guard, spends, key);
    var k :| 0 <= k < |spends| && spends[k].found.Fresh? && KeyOf(w.guard, AuthorizationId(spends[k].call)) == key;
    assert Runs(w.guard, spends[k].delivery);
  }

  lemma {:induction false} FreshKeysStored(g: Guard, spends: seq<Spend>, k: nat)
    requires g.Shared? && Recorded(g, spends) && k < |spends| && spends[k].found.Fresh?
    ensures KeyOf(g, AuthorizationId(spends[k].call)) in StoreAfter(g, Presentations(spends))
  {
    var before, last := spends[..|spends| - 1], spends[|spends| - 1];
    assert spends == before + [last] && FindingAt(g, spends, |before|);
    PresentationsLonger(g, before, last);
    if k < |before| {
      RecordedShorter(g, spends);
      FreshKeysStored(g, before, k);
    } else {
      GainsExactlyWhenFresh(g, StoreAfter(g, Presentations(before)), PresentationOf(last.call, last.serverNow));
    }
  }

  /** The shared store holds exactly the keys of the calls that were accepted, or whose consumption ran and
  found the identifier fresh but whose answer was lost. */
  lemma SpentExactly(w: Setup, h: seq<Event>, key: string)
    requires w.guard.Shared?
    ensures key in After(w, h).store <==>
              exists k ::
                && 0 <= k < |After(w, h).spends|
                && KeyOf(w.guard, AuthorizationId(After(w, h).spends[k].call)) == key
                && After(w, h).spends[k].found.Fresh?
                && (Accepted(w, After(w, h).spends[k]) || After(w, h).spends[k].delivery == Lost(true))
  {
    StoreIsTheSpends(w, h);
    SpendsRan(w, h);
    var spends := After(w, h).spends;
    if key in After(w, h).store {
      HeldKeysWereFresh(w.guard, spends, key);
      var k :| 0 <= k < |spends| && spends[k].found.Fresh? && KeyOf(w.guard, AuthorizationId(spends[k].call)) == key;
      assert Runs(w.guard, spends[k].delivery);
    }
    forall k | 0 <= k < |spends| && spends[k].found.Fresh?
      ensures KeyOf(w.guard, AuthorizationId(spends[k].call)) in After(w, h).store
    {
      FreshKeysStored(w.guard, spends, k);
    }
  }

  /** A consumption that ran but whose answer was lost is denied, and its identifier is refused until the
  deadline it set. */
  lemma LostAnswerSpends(w: Setup, h: seq<Event>, ticket: nat, serverNow: int, again: Call, later: int)
    requires w.guard.Shared? && Waits(After(w, h), ticket)
    requires Finds(w.guard, After(w, h).store, PresentationOf(After(w, h).flights[ticket].call, serverNow)).Fresh?
    requires AuthorizationId(again) == AuthorizationId(After(w, h).flights[ticket].call)
    ensures var p := PresentationOf(After(w, h).flights[ticket].call, serverNow);
            var end := After(w, h + [Consumes(ticket, serverNow, Lost(true))]);
            && |end.spends| == |After(w, h).spends| + 1 && !Accepted(w, end.spends[|After(w, h).spends|])
            && (Finds(w.guard, end.store, PresentationOf(again, later)).Replayed? <==>
                  later < Deadline(KeyedAttempt(w.guard.keyPrefix, p)))
  {
    AfterAppend(w, h, Consumes(ticket, serverNow, Lost(true)));
  }

  lemma {:induction false} SpendsRan(w: Setup, h: seq<Event>)
    ensures forall k :: 0 <= k < |After(w, h).spends| ==> Runs(w.guard, After(w, h).spends[k].delivery)
  {
    if h != [] {
      SpendsRan(w, h[..|h| - 1]);
    }
  }

  // ---------------------------------------------------------------------------------------------
  // Single use
  // ---------------------------------------------------------------------------------------------

  /** The presentations of a run, in the order the guard saw them. */
  function Presented(w: Setup, h: seq<Event>): seq<Presentation> {
    Presentations(After(w, h).spends)
  }

  /** A second acceptance of an identifier comes at or after the first expiry, on the guard's clock. */
  lemma AcceptedAgainOnlyAfterExpiry(w: Setup, h: seq<Event>, j: nat, k: nat)
    requires j < k < |After(w, h).spends| && GuardClockNeverGoesBack(w.guard, Presented(w, h))
    requires w.guard.Shared? ==> ReadsFirst(Presented(w, h))
    requires Accepted(w, After(w, h).spends[j]) && Accepted(w, After(w, h).spends[k])
    requires AuthorizationId(After(w, h).spends[j].call) == AuthorizationId(After(w, h).spends[k].call)
    ensures GuardClock(w.guard, Presented(w, h)[k]) >= After(w, h).spends[j].call.envelope.claims.expiresAt
  {
    StoreIsTheSpends(w, h);
    var spends := After(w, h).spends;
    assert FindingAt(w.guard, spends, j) && FindingAt(w.guard, spends, k);
    assert Presented(w, h)[..j] == Presentations(spends[..j]) && Presented(w, h)[..k] == Presentations(spends[..k]);
    FoundFreshAgain(w.guard, Presented(w, h), j, k);
  }

  predicate IdsDetermineExpiry(h: seq<Presentation>) {
    forall i, j :: 0 <= i < j < |h| && h[i].id == h[j].id ==> h[i].expiresAt == h[j].expiresAt
  }

  /** Every consumption happens before the expiry of what it consumes, on the guard's clock. */
  predicate Timely(g: Guard, h: seq<Presentation>) {
    forall i :: 0 <= i < |h| ==> GuardClock(g, h[i]) < h[i].expiresAt
  }

  /** What single use needs of a run. */
  predicate Orderly(g: Guard, h: seq<Presentation>) {
    GuardClockNeverGoesBack(g, h) && (g.Shared? ==> ReadsFirst(h)) && IdsDetermineExpiry(h) && Timely(g, h)
  }

  /** No identifier is accepted twice, over every interleaving of any number of replicas. */
  lemma AcceptedOnce(w: Setup, h: seq<Event>, j: nat, k: nat)
    requires j < k < |After(w, h).spends| && Orderly(w.guard, Presented(w, h))
    requires Accepted(w, After(w, h).spends[j]) && Accepted(w, After(w, h).spends[k])
    ensures AuthorizationId(After(w, h).spends[j].call) != AuthorizationId(After(w, h).spends[k].call)
  {
    if AuthorizationId(After(w, h).spends[j].call) == AuthorizationId(After(w, h).spends[k].call) {
      var p := Presented(w, h);
      assert p[j].id == p[k].id && GuardClock(w.guard, p[k]) < p[k].expiresAt;
      AcceptedAgainOnlyAfterExpiry(w, h, j, k);
      assert false;
    }
  }

  lemma PassingIsUnexpired(cfg: Config, crypto: Crypto, c: Call)
    requires PureDenial(cfg, crypto, c.envelope, c.request, c.now).None?
    ensures c.envelope.claims.expiresAt > c.now.micros - cfg.clockSkew
  {
    StageOrder(cfg, crypto, c.envelope, c.request, c.now);
  }

  /** Every consumption is decided at the reading it carries: always so for the process-local guard, and
  for the shared one when no time passes between a reading and its command. */
  predicate Prompt(g: Guard, h: seq<Presentation>) {
    forall i :: 0 <= i < |h| ==> GuardClock(g, h[i]) == h[i].now
  }

  /** Without clock skew, what the verifier checks makes every prompt consumption timely. */
  lemma TimelyWithoutSkew(cfg: Config, crypto: Crypto, guard: Guard, snapshots: map<string, Snapshot>, h: seq<Event>)
    requires cfg.clockSkew == 0 && Prompt(guard, Presented(SetupOf(cfg, crypto, guard, snapshots), h))
    ensures Timely(guard, Presented(SetupOf(cfg, crypto, guard, snapshots), h))
  {
    var w := SetupOf(cfg, crypto, guard, snapshots);
    ConsumedOnlyIfCleared(w, h);
    var spends := After(w, h).spends;
    forall i | 0 <= i < |spends| ensures GuardClock(guard, Presented(w, h)[i]) < Presented(w, h)[i].expiresAt {
      assert SpendCleared(w, h, spends[i]);
      PassingIsUnexpired(cfg, crypto, spends[i].call);
    }
  }

  /** At zero clock skew the verifier accepts no identifier twice in a run of prompt consumptions. */
  lemma AcceptedOnceWithoutSkew(cfg: Config, crypto: Crypto, guard: Guard, snapshots: map<string, Snapshot>,
                                h: seq<Event>, j: nat, k: nat)
    requires cfg.clockSkew == 0
    requires var p := Presented(SetupOf(cfg, crypto, guard, snapshots), h);
             Prompt(guard, p) && GuardClockNeverGoesBack(guard, p) && IdsDetermineExpiry(p)
    requires var w := SetupOf(cfg, crypto, guard, snapshots);
             && j < k < |After(w, h).spends|
             && Accepted(w, After(w, h).spends[j]) && Accepted(w, After(w, h).spends[k])
    ensures var spends := After(SetupOf(cfg, crypto, guard, snapshots), h).spends;
            AuthorizationId(spends[j].call) != AuthorizationId(spends[k].call)
  {
    TimelyWithoutSkew(cfg, crypto, guard, snapshots, h);
    AcceptedOnce(SetupOf(cfg, crypto, guard, snapshots), h, j, k);
  }
}
