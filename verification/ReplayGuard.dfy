/** Single-use consumption of authorization identifiers: the process-local guard and the guard shared
through Redis. Times are microseconds. */
module ReplayGuard {
  import opened Wrappers

  datatype Consumption = Fresh | Replayed | StoreFull

  // ---------------------------------------------------------------------------------------------
  // The process-local guard
  // ---------------------------------------------------------------------------------------------

  type Entries = map<string, int>

  function Live(entries: Entries, now: int): Entries {
    map k | k in entries && entries[k] > now :: entries[k]
  }

  function Verdict(entries: Entries, maxEntries: nat, id: string, now: int): Consumption {
    if id in Live(entries, now) then Replayed
    else if |Live(entries, now)| >= maxEntries then StoreFull
    else Fresh
  }

  function Consumed(entries: Entries, maxEntries: nat, id: string, expiresAt: int, now: int): Entries {
    if Verdict(entries, maxEntries, id, now).Fresh? then Live(entries, now)[id := expiresAt] else Live(entries, now)
  }

  class InMemoryReplayGuard {
    const maxEntries: nat
    var entries: Entries

    ghost predicate Valid()
      reads this
    {
      |entries| <= maxEntries
    }

    constructor (maxEntries: nat)
      ensures Valid() && this.maxEntries == maxEntries && entries == map[]
    {
      this.maxEntries, this.entries := maxEntries, map[];
    }

    /** The store gains an identifier exactly when it answers fresh. */
    method Consume(id: string, expiresAt: int, now: int) returns (r: Consumption)
      requires Valid()
      modifies this
      ensures Valid()
      ensures r == Verdict(old(entries), maxEntries, id, now)
      ensures entries == Consumed(old(entries), maxEntries, id, expiresAt, now)
    {
      LiveSmaller(entries, now);
      entries := map k | k in entries && entries[k] > now :: entries[k];
      if id in entries {
        return Replayed;
      }
      if |entries| >= maxEntries {
        return StoreFull;
      }
      entries := entries[id := expiresAt];
      return Fresh;
    }
  }

  lemma LiveSmaller(entries: Entries, now: int)
    ensures |Live(entries, now)| <= |entries|
  {
    var live := Live(entries, now);
    assert live.Keys <= entries.Keys;
    assert entries.Keys == live.Keys + (entries.Keys - live.Keys);
    assert |entries.Keys| == |live.Keys| + |entries.Keys - live.Keys|;
  }

  // ---------------------------------------------------------------------------------------------
  // Runs of the process-local guard
  // ---------------------------------------------------------------------------------------------

  datatype Attempt = Attempt(id: string, expiresAt: int, now: int)

  function After(maxEntries: nat, h: seq<Attempt>): Entries {
    if h == [] then map[] else
      var last := h[|h| - 1];
      Consumed(After(maxEntries, h[..|h| - 1]), maxEntries, last.id, last.expiresAt, last.now)
  }

  function VerdictAt(maxEntries: nat, h: seq<Attempt>, i: nat): Consumption
    requires i < |h|
  {
    Verdict(After(maxEntries, h[..i]), maxEntries, h[i].id, h[i].now)
  }

  predicate FreshAt(maxEntries: nat, h: seq<Attempt>, i: nat)
    requires i < |h|
  {
    VerdictAt(maxEntries, h, i).Fresh?
  }

  /** No attempt between `i` and `n` accepts `id` again. */
  predicate NoneFreshBetween(maxEntries: nat, h: seq<Attempt>, i: nat, n: nat, id: string)
    requires n <= |h|
  {
    forall m :: i < m < n && h[m].id == id ==> !FreshAt(maxEntries, h, m)
  }

  /** No attempt in `(i, n)` read a clock at or past `expiry`. */
  predicate ClocksBefore(h: seq<Attempt>, i: nat, n: nat, expiry: int)
    requires n <= |h|
  {
    forall m :: i < m < n ==> h[m].now < expiry
  }

  /** An accepted identifier is held, with its expiry, exactly until an attempt, for any identifier,
  reads a clock at or past that expiry. */
  lemma {:induction false} HeldUntilPruned(maxEntries: nat, h: seq<Attempt>, i: nat, n: nat)
    requires i < n <= |h| && FreshAt(maxEntries, h, i)
    requires NoneFreshBetween(maxEntries, h, i, n, h[i].id)
    ensures var held := After(maxEntries, h[..n]);
            if ClocksBefore(h, i, n, h[i].expiresAt) then h[i].id in held && held[h[i].id] == h[i].expiresAt
            else h[i].id !in held
    decreases n
  {
    assert h[..n][..n - 1] == h[..n - 1];
    if n > i + 1 {
      HeldUntilPruned(maxEntries, h, i, n - 1);
      assert h[n - 1].id == h[i].id ==> !FreshAt(maxEntries, h, n - 1);
      HeldStep(maxEntries, After(maxEntries, h[..n - 1]), h[n - 1], h[i].id);
      assert ClocksBefore(h, i, n, h[i].expiresAt) <==>
               ClocksBefore(h, i, n - 1, h[i].expiresAt) && h[n - 1].now < h[i].expiresAt;
    }
  }

  /** An attempt that does not accept an identifier keeps it as it was, or prunes it once expired. */
  lemma HeldStep(maxEntries: nat, entries: Entries, a: Attempt, id: string)
    requires a.id == id ==> !Verdict(entries, maxEntries, a.id, a.now).Fresh?
    ensures var after := Consumed(entries, maxEntries, a.id, a.expiresAt, a.now);
            if id in entries && a.now < entries[id] then id in after && after[id] == entries[id] else id !in after
  {
  }

  /** Whatever the clocks do, presenting an accepted identifier again is recognised as a replay exactly
  when no attempt since, this one included, read a clock at or past the recorded expiry. */
  lemma ReplayRecognisedExactly(maxEntries: nat, h: seq<Attempt>, i: nat, j: nat)
    requires i < j < |h| && h[j].id == h[i].id && FreshAt(maxEntries, h, i)
    requires NoneFreshBetween(maxEntries, h, i, j, h[i].id)
    ensures VerdictAt(maxEntries, h, j).Replayed? <==> ClocksBefore(h, i, j + 1, h[i].expiresAt)
  {
    HeldUntilPruned(maxEntries, h, i, j);
  }

  predicate ClockNeverGoesBack(h: seq<Attempt>) {
    forall i, j :: 0 <= i < j < |h| ==> h[i].now <= h[j].now
  }

  lemma LastFreshBefore(maxEntries: nat, h: seq<Attempt>, i: nat, j: nat) returns (m: nat)
    requires i < j <= |h| && FreshAt(maxEntries, h, i)
    ensures i <= m < j && h[m].id == h[i].id && FreshAt(maxEntries, h, m)
    ensures NoneFreshBetween(maxEntries, h, m, j, h[i].id)
    decreases j
  {
    if h[j - 1].id == h[i].id && FreshAt(maxEntries, h, j - 1) {
      m := j - 1;
    } else {
      m := LastFreshBefore(maxEntries, h, i, j - 1);
    }
  }

  /** With a clock that never goes back, a second acceptance comes at or after the first expiry. */
  lemma {:induction false} SecondUseOnlyAfterExpiry(maxEntries: nat, h: seq<Attempt>, i: nat, j: nat)
    requires ClockNeverGoesBack(h) && i < j < |h| && h[i].id == h[j].id
    requires FreshAt(maxEntries, h, i) && FreshAt(maxEntries, h, j)
    ensures h[j].now >= h[i].expiresAt
    decreases j
  {
    var m := LastFreshBefore(maxEntries, h, i, j);
    if m == i {
      ReplayRecognisedExactly(maxEntries, h, i, j);
    } else {
      SecondUseOnlyAfterExpiry(maxEntries, h, i, m);
    }
  }

  /** The store never passes its bound, whatever the clocks do. */
  lemma {:induction false} StoreBounded(maxEntries: nat, h: seq<Attempt>)
    ensures |After(maxEntries, h)| <= maxEntries
  {
    if h != [] {
      StoreBounded(maxEntries, h[..|h| - 1]);
      LiveSmaller(After(maxEntries, h[..|h| - 1]), h[|h| - 1].now);
    }
  }

  lemma NotAcceptedAgain(maxEntries: nat, h: seq<Attempt>, i: nat)
    requires ClockNeverGoesBack(h) && i < |h| && FreshAt(maxEntries, h, i) && h[i].expiresAt > h[|h| - 1].now
    ensures NoneFreshBetween(maxEntries, h, i, |h|, h[i].id)
  {
    forall m | i < m < |h| && h[m].id == h[i].id ensures !FreshAt(maxEntries, h, m) {
      if FreshAt(maxEntries, h, m) {
        SecondUseOnlyAfterExpiry(maxEntries, h, i, m);
        assert false;
      }
    }
  }

  /** An accepted identifier that has not expired by the latest reading is still held. */
  lemma LiveIdsKept(maxEntries: nat, h: seq<Attempt>, i: nat)
    requires ClockNeverGoesBack(h) && i < |h| && FreshAt(maxEntries, h, i) && h[i].expiresAt > h[|h| - 1].now
    ensures h[i].id in After(maxEntries, h)
  {
    assert h[..|h|] == h;
    assert ClocksBefore(h, i, |h|, h[i].expiresAt) by {
      assert forall m :: i < m < |h| - 1 ==> h[m].now <= h[|h| - 1].now;
    }
    NotAcceptedAgain(maxEntries, h, i);
    HeldUntilPruned(maxEntries, h, i, |h|);
  }

  // ---------------------------------------------------------------------------------------------
  // Single use
  // ---------------------------------------------------------------------------------------------

  /** What the verifier has checked of every attempt: it is unexpired within the clock skew. */
  predicate TimeChecked(h: seq<Attempt>, skew: nat) {
    forall i :: 0 <= i < |h| ==> h[i].expiresAt > h[i].now - skew
  }

  predicate IdsDetermineExpiry(h: seq<Attempt>) {
    forall i, j :: 0 <= i < j < |h| && h[i].id == h[j].id ==> h[i].expiresAt == h[j].expiresAt
  }

  ghost predicate SingleUse(maxEntries: nat, h: seq<Attempt>) {
    forall i, j :: 0 <= i < j < |h| && h[i].id == h[j].id ==>
      !(FreshAt(maxEntries, h, i) && FreshAt(maxEntries, h, j))
  }

  lemma SingleUseWithoutSkew(maxEntries: nat, h: seq<Attempt>)
    requires ClockNeverGoesBack(h) && TimeChecked(h, 0) && IdsDetermineExpiry(h)
    ensures SingleUse(maxEntries, h)
  {
    forall i, j | 0 <= i < j < |h| && h[i].id == h[j].id
      ensures !(FreshAt(maxEntries, h, i) && FreshAt(maxEntries, h, j))
    {
      if FreshAt(maxEntries, h, i) && FreshAt(maxEntries, h, j) {
        SecondUseOnlyAfterExpiry(maxEntries, h, i, j);
        assert false;
      }
    }
  }

  /** One identifier presented just before its expiry and again at it. */
  function TwiceAroundExpiry(): seq<Attempt> {
    [Attempt("a", 1_000_000, 999_999), Attempt("a", 1_000_000, 1_000_000)]
  }

  lemma TwiceAroundExpiryAccepted(maxEntries: nat)
    requires maxEntries > 0
    ensures FreshAt(maxEntries, TwiceAroundExpiry(), 0) && FreshAt(maxEntries, TwiceAroundExpiry(), 1)
  {
    var h := TwiceAroundExpiry();
    assert h[..0] == [] && h[..1] == [h[0]] && h[..1][..0] == [];
    assert Live(map[], h[0].now) == map[];
    assert After(maxEntries, h[..1]) == map["a" := 1_000_000];
    assert Live(After(maxEntries, h[..1]), h[1].now) == map[];
  }

  /** Single use over every admissible run holds for zero clock skew and for no other. */
  lemma SingleUseExactlyWithoutSkew(maxEntries: nat, skew: nat)
    requires maxEntries > 0
    ensures skew == 0 <==>
              forall h: seq<Attempt> :: ClockNeverGoesBack(h) && TimeChecked(h, skew) && IdsDetermineExpiry(h) ==>
                SingleUse(maxEntries, h)
  {
    if skew == 0 {
      forall h: seq<Attempt> | ClockNeverGoesBack(h) && TimeChecked(h, skew) && IdsDetermineExpiry(h)
        ensures SingleUse(maxEntries, h)
      {
        SingleUseWithoutSkew(maxEntries, h);
      }
    } else {
      var h := TwiceAroundExpiry();
      TwiceAroundExpiryAccepted(maxEntries);
      assert ClockNeverGoesBack(h) && TimeChecked(h, skew) && IdsDetermineExpiry(h);
      assert h[0].id == h[1].id && !SingleUse(maxEntries, h);
    }
  }

  /** The clock hypothesis is needed: a reading taken before an expiry but consumed after another
  request pruned the entry is accepted a second time, with no skew at all. */
  function StaleReading(): seq<Attempt> {
    [Attempt("a", 100, 99), Attempt("b", 200, 100), Attempt("a", 100, 99)]
  }

  lemma StaleReadingAccepted(maxEntries: nat)
    requires maxEntries > 1
    ensures TimeChecked(StaleReading(), 0) && IdsDetermineExpiry(StaleReading())
    ensures FreshAt(maxEntries, StaleReading(), 0) && FreshAt(maxEntries, StaleReading(), 2)
  {
    var h := StaleReading();
    assert h[..0] == [] && h[..1] == [h[0]] && h[..1][..0] == [] && h[..2][..1] == h[..1];
    assert Live(map[], h[0].now) == map[];
    assert After(maxEntries, h[..1]) == map["a" := 100];
    assert Live(After(maxEntries, h[..1]), h[1].now) == map[];
    assert After(maxEntries, h[..2]) == map["b" := 200];
    assert Live(After(maxEntries, h[..2]), h[2].now) == map["b" := 200];
  }

  // ---------------------------------------------------------------------------------------------
  // The shared guard
  // ---------------------------------------------------------------------------------------------

  const SECOND := 1_000_000

  /** `max(1, math.ceil((expires_at - now).total_seconds()))`. */
  function TtlSeconds(expiresAt: int, now: int): (ttl: int)
    ensures now + ttl * 1_000_000 >= expiresAt
    ensures if expiresAt > now then now + (ttl - 1) * 1_000_000 < expiresAt else ttl == 1
  {
    var ceiling := (expiresAt - now + SECOND - 1) / SECOND;
    if ceiling < 1 then 1 else ceiling
  }

  /** Keys with their deadlines on the server's clock. */
  class RedisKeyspace {
    var deadlines: map<string, int>

    constructor ()
      ensures deadlines == map[]
    {
      deadlines := map[];
    }

    /** `SET key 1 NX EX ttl`. */
    method SetIfAbsent(key: string, ttlSeconds: int, serverNow: int) returns (set_: bool)
      modifies this
      ensures set_ <==> !(key in old(deadlines) && serverNow < old(deadlines)[key])
      ensures deadlines ==
                if set_ then old(deadlines)[key := serverNow + ttlSeconds * 1_000_000] else old(deadlines)
    {
      if key in deadlines && serverNow < deadlines[key] {
        return false;
      }
      deadlines := deadlines[key := serverNow + ttlSeconds * SECOND];
      return true;
    }
  }

  class RedisReplayGuard {
    const keyspace: RedisKeyspace
    const keyPrefix: string

    constructor (keyspace: RedisKeyspace, keyPrefix: string)
      ensures this.keyspace == keyspace && this.keyPrefix == keyPrefix
    {
      this.keyspace, this.keyPrefix := keyspace, keyPrefix;
    }

    /** `now` is the verifier's reading, `serverNow` the server's when the command runs. No answer means
    that the store counts as unavailable, whether or not the command ran. */
    method Consume(id: string, expiresAt: int, now: int, serverNow: int, delivery: Delivery)
      returns (r: Option<Consumption>)
      modifies keyspace
      ensures var attempt := SharedAttempt(keyPrefix + id, expiresAt, now, serverNow);
              && r == (if delivery.Lost? then None
                       else if SharedFresh(old(keyspace.deadlines), attempt) then Some(Fresh) else Some(Replayed))
              && keyspace.deadlines ==
                   if delivery == Lost(false) then old(keyspace.deadlines)
                   else SharedStep(old(keyspace.deadlines), attempt)
    {
      var ttl := TtlSeconds(expiresAt, now);
      if delivery == Lost(false) {
        return None;
      }
      var result := keyspace.SetIfAbsent(keyPrefix + id, ttl, serverNow);
      r := if delivery.Lost? then None else Some(if result then Fresh else Replayed);
    }
  }

  datatype SharedAttempt = SharedAttempt(key: string, expiresAt: int, now: int, serverNow: int)

  function Deadline(a: SharedAttempt): int {
    a.serverNow + TtlSeconds(a.expiresAt, a.now) * SECOND
  }

  predicate SharedFresh(deadlines: map<string, int>, a: SharedAttempt) {
    !(a.key in deadlines && a.serverNow < deadlines[a.key])
  }

  function SharedStep(deadlines: map<string, int>, a: SharedAttempt): map<string, int> {
    if SharedFresh(deadlines, a) then deadlines[a.key := Deadline(a)] else deadlines
  }

  function SharedAfter(h: seq<SharedAttempt>): map<string, int> {
    if h == [] then map[] else SharedStep(SharedAfter(h[..|h| - 1]), h[|h| - 1])
  }

  predicate SharedFreshAt(h: seq<SharedAttempt>, i: nat)
    requires i < |h|
  {
    SharedFresh(SharedAfter(h[..i]), h[i])
  }

  predicate ServerClockNeverGoesBack(h: seq<SharedAttempt>) {
    forall i, j :: 0 <= i < j < |h| ==> h[i].serverNow <= h[j].serverNow
  }

  predicate NoneSharedFreshBetween(h: seq<SharedAttempt>, i: nat, n: nat, key: string)
    requires n <= |h|
  {
    forall m :: i < m < n && h[m].key == key ==> !SharedFreshAt(h, m)
  }

  lemma {:induction false} DeadlineHeld(h: seq<SharedAttempt>, i: nat, n: nat)
    requires i < n <= |h| && SharedFreshAt(h, i) && NoneSharedFreshBetween(h, i, n, h[i].key)
    ensures h[i].key in SharedAfter(h[..n]) && SharedAfter(h[..n])[h[i].key] == Deadline(h[i])
    decreases n
  {
    assert h[..n][..n - 1] == h[..n - 1];
    if n > i + 1 {
      DeadlineHeld(h, i, n - 1);
      assert h[n - 1].key == h[i].key ==> !SharedFreshAt(h, n - 1);
    }
  }

  /** Whatever the clocks do, a key presented again is refused exactly before the deadline that its
  acceptance set. */
  lemma SharedReplayRecognisedExactly(h: seq<SharedAttempt>, i: nat, j: nat)
    requires i < j < |h| && h[j].key == h[i].key && SharedFreshAt(h, i)
    requires NoneSharedFreshBetween(h, i, j, h[i].key)
    ensures !SharedFreshAt(h, j) <==> h[j].serverNow < Deadline(h[i])
  {
    DeadlineHeld(h, i, j);
  }

  /** A key keeps a deadline at least as late as any accepted attempt for it gave. */
  lemma {:induction false} DeadlineRemembered(h: seq<SharedAttempt>, i: nat, n: nat)
    requires i < n <= |h| && SharedFreshAt(h, i) && ServerClockNeverGoesBack(h)
    ensures h[i].key in SharedAfter(h[..n]) && SharedAfter(h[..n])[h[i].key] >= Deadline(h[i])
    decreases n
  {
    assert h[..n][..n - 1] == h[..n - 1];
    if n > i + 1 {
      DeadlineRemembered(h, i, n - 1);
      var last := h[n - 1];
      if last.key == h[i].key && SharedFreshAt(h, n - 1) {
        assert Deadline(last) > last.serverNow >= SharedAfter(h[..n - 1])[last.key];
      }
    }
  }

  /** Over any number of replicas: a second acceptance of a key comes only once the server has reached
  the first deadline, and that deadline covers the expiry when the server's clock was not behind the
  first verifier's reading. */
  lemma SharedSecondUseOnlyAfterExpiry(h: seq<SharedAttempt>, i: nat, j: nat)
    requires ServerClockNeverGoesBack(h) && i < j < |h| && h[i].key == h[j].key
    requires SharedFreshAt(h, i) && SharedFreshAt(h, j)
    ensures h[j].serverNow >= Deadline(h[i])
    ensures h[i].serverNow >= h[i].now ==> h[j].serverNow >= h[i].expiresAt
  {
    DeadlineRemembered(h, i, j);
  }

  predicate KeysDetermineExpiry(h: seq<SharedAttempt>) {
    forall i, j :: 0 <= i < j < |h| && h[i].key == h[j].key ==> h[i].expiresAt == h[j].expiresAt
  }

  /** Runs on one clock: the verifier reads it, and at most `delay` later the server runs the command;
  the reading is before the expiry, within the skew. */
  predicate SharedRun(h: seq<SharedAttempt>, skew: nat, delay: nat) {
    && ServerClockNeverGoesBack(h) && KeysDetermineExpiry(h)
    && forall i :: 0 <= i < |h| ==>
         h[i].now <= h[i].serverNow <= h[i].now + delay && h[i].expiresAt > h[i].now - skew
  }

  /** Every command runs before the expiry of what it consumes. */
  predicate ConsumedBeforeExpiry(h: seq<SharedAttempt>) {
    forall i :: 0 <= i < |h| ==> h[i].now <= h[i].serverNow < h[i].expiresAt
  }

  ghost predicate SharedSingleUse(h: seq<SharedAttempt>) {
    forall i, j :: 0 <= i < j < |h| && h[i].key == h[j].key ==> !(SharedFreshAt(h, i) && SharedFreshAt(h, j))
  }

  /** Over any number of replicas: single use, as long as every command runs before the expiry. */
  lemma SharedSingleUseBeforeExpiry(h: seq<SharedAttempt>)
    requires ServerClockNeverGoesBack(h) && KeysDetermineExpiry(h) && ConsumedBeforeExpiry(h)
    ensures SharedSingleUse(h)
  {
    forall i, j | 0 <= i < j < |h| && h[i].key == h[j].key ensures !(SharedFreshAt(h, i) && SharedFreshAt(h, j)) {
      if SharedFreshAt(h, i) && SharedFreshAt(h, j) {
        SharedSecondUseOnlyAfterExpiry(h, i, j);
        assert false;
      }
    }
  }

  /** A whole second before the expiry, and again at it: the rounded lifetime leaves nothing over. The
  second reading is `late` before its command. */
  function SharedTwice(late: nat): seq<SharedAttempt> {
    [SharedAttempt("a", 2_000_000, 1_000_000, 1_000_000), SharedAttempt("a", 2_000_000, 2_000_000 - late, 2_000_000)]
  }

  lemma SharedTwiceAccepted(late: nat)
    ensures SharedFreshAt(SharedTwice(late), 0) && SharedFreshAt(SharedTwice(late), 1)
  {
    var h := SharedTwice(late);
    assert h[..0] == [] && h[..1] == [h[0]] && h[..1][..0] == [];
    assert TtlSeconds(h[0].expiresAt, h[0].now) == 1;
    assert SharedAfter(h[..1]) == map["a" := 2_000_000];
  }

  /** Over all runs with that skew and that delay the shared guard gives single use exactly when both are
  zero: a reading within the skew, or a command that runs late, is accepted a second time. */
  lemma SharedSingleUseExactly(skew: nat, delay: nat)
    ensures skew == 0 && delay == 0 <==>
              forall h: seq<SharedAttempt> :: SharedRun(h, skew, delay) ==> SharedSingleUse(h)
  {
    if skew == 0 && delay == 0 {
      forall h: seq<SharedAttempt> | SharedRun(h, skew, delay) ensures SharedSingleUse(h) {
        SharedSingleUseBeforeExpiry(h);
      }
    } else {
      var h := SharedTwice(if delay == 0 then 0 else 1);
      SharedTwiceAccepted(if delay == 0 then 0 else 1);
      assert SharedRun(h, skew, delay);
      assert h[0].key == h[1].key && !SharedSingleUse(h);
    }
  }

  // ---------------------------------------------------------------------------------------------
  // Either guard
  // ---------------------------------------------------------------------------------------------

  datatype Guard = Local(maxEntries: nat) | Shared(keyPrefix: string)

  /** One identifier presented for consumption, with the verifier's reading and the server's. */
  datatype Presentation = Presentation(id: string, expiresAt: int, now: int, serverNow: int)

  function LocalAttempt(p: Presentation): Attempt { Attempt(p.id, p.expiresAt, p.now) }

  function KeyedAttempt(keyPrefix: string, p: Presentation): SharedAttempt {
    SharedAttempt(keyPrefix + p.id, p.expiresAt, p.now, p.serverNow)
  }

  /** What the guard finds; from the process-local one the answer always arrives. */
  function Finds(g: Guard, store: map<string, int>, p: Presentation): Consumption {
    match g
    case Local(maxEntries) => Verdict(store, maxEntries, p.id, p.now)
    case Shared(keyPrefix) => if SharedFresh(store, KeyedAttempt(keyPrefix, p)) then Fresh else Replayed
  }

  function Leaves(g: Guard, store: map<string, int>, p: Presentation): map<string, int> {
    match g
    case Local(maxEntries) => Consumed(store, maxEntries, p.id, p.expiresAt, p.now)
    case Shared(keyPrefix) => SharedStep(store, KeyedAttempt(keyPrefix, p))
  }

  predicate AnswerArrives(g: Guard, delivery: Delivery) { g.Local? || delivery.Answered? }

  predicate Runs(g: Guard, delivery: Delivery) { g.Local? || delivery != Lost(false) }

  /** The key an identifier is stored under. */
  function KeyOf(g: Guard, id: string): string {
    match g
    case Local(_) => id
    case Shared(keyPrefix) => keyPrefix + id
  }

  /** A guard gains a key exactly when it finds the identifier fresh, and then that identifier's. */
  lemma GainsExactlyWhenFresh(g: Guard, store: map<string, int>, p: Presentation)
    ensures var left := Leaves(g, store, p);
            if Finds(g, store, p).Fresh? then
              && KeyOf(g, p.id) in left
              && left[KeyOf(g, p.id)] >= (if g.Local? then p.expiresAt else p.expiresAt + p.serverNow - p.now)
              && left.Keys <= store.Keys + {KeyOf(g, p.id)}
            else left.Keys <= store.Keys
  {
  }

  /** A guard refuses an identifier presented again at the same readings exactly if it refused it before, or
  has just found it fresh; the process-local one only while it is unexpired. */
  lemma RefusesExactly(g: Guard, store: map<string, int>, p: Presentation)
    ensures Finds(g, Leaves(g, store, p), p).Replayed? <==>
              || Finds(g, store, p).Replayed?
              || (Finds(g, store, p).Fresh? && (g.Shared? || p.now < p.expiresAt))
  {
  }

  /** A guard object. */
  datatype GuardRef = LocalGuard(local: InMemoryReplayGuard) | SharedGuard(shared: RedisReplayGuard)
  {
    function Kind(): Guard {
      match this
      case LocalGuard(g) => Local(g.maxEntries)
      case SharedGuard(g) => Shared(g.keyPrefix)
    }

    function Footprint(): set<object> {
      match this
      case LocalGuard(g) => {g}
      case SharedGuard(g) => {g.keyspace}
    }

    function Store(): map<string, int>
      reads Footprint()
    {
      match this
      case LocalGuard(g) => g.entries
      case SharedGuard(g) => g.keyspace.deadlines
    }

    ghost predicate Valid()
      reads Footprint()
    {
      LocalGuard? ==> local.Valid()
    }

    method Consume(p: Presentation, delivery: Delivery) returns (r: Option<Consumption>)
      requires Valid()
      modifies Footprint()
      ensures Valid()
      ensures r == if AnswerArrives(Kind(), delivery) then Some(Finds(Kind(), old(Store()), p)) else None
      ensures Store() == if Runs(Kind(), delivery) then Leaves(Kind(), old(Store()), p) else old(Store())
    {
      match this
      case LocalGuard(g) =>
        var found := g.Consume(p.id, p.expiresAt, p.now);
        r := Some(found);
      case SharedGuard(g) =>
        r := g.Consume(p.id, p.expiresAt, p.now, p.serverNow, delivery);
    }
  }

  /** The store after a run of presentations, starting empty. */
  function StoreAfter(g: Guard, h: seq<Presentation>): map<string, int> {
    if h == [] then map[] else Leaves(g, StoreAfter(g, h[..|h| - 1]), h[|h| - 1])
  }

  predicate FoundFreshAt(g: Guard, h: seq<Presentation>, i: nat)
    requires i < |h|
  {
    Finds(g, StoreAfter(g, h[..i]), h[i]).Fresh?
  }

  function LocalRun(h: seq<Presentation>): seq<Attempt> {
    seq(|h|, i requires 0 <= i < |h| => LocalAttempt(h[i]))
  }

  function KeyedRun(keyPrefix: string, h: seq<Presentation>): seq<SharedAttempt> {
    seq(|h|, i requires 0 <= i < |h| => KeyedAttempt(keyPrefix, h[i]))
  }

  lemma {:induction false} StoreIsLocal(maxEntries: nat, h: seq<Presentation>)
    ensures StoreAfter(Local(maxEntries), h) == After(maxEntries, LocalRun(h))
  {
    if h != [] {
      StoreIsLocal(maxEntries, h[..|h| - 1]);
      assert LocalRun(h)[..|h| - 1] == LocalRun(h[..|h| - 1]);
    }
  }

  lemma {:induction false} StoreIsShared(keyPrefix: string, h: seq<Presentation>)
    ensures StoreAfter(Shared(keyPrefix), h) == SharedAfter(KeyedRun(keyPrefix, h))
  {
    if h != [] {
      StoreIsShared(keyPrefix, h[..|h| - 1]);
      assert KeyedRun(keyPrefix, h)[..|h| - 1] == KeyedRun(keyPrefix, h[..|h| - 1]);
    }
  }

  lemma FoundFreshIs(g: Guard, h: seq<Presentation>, i: nat)
    requires i < |h|
    ensures g.Local? ==> FoundFreshAt(g, h, i) == FreshAt(g.maxEntries, LocalRun(h), i)
    ensures g.Shared? ==> FoundFreshAt(g, h, i) == SharedFreshAt(KeyedRun(g.keyPrefix, h), i)
  {
    match g
    case Local(maxEntries) =>
      StoreIsLocal(maxEntries, h[..i]);
      assert LocalRun(h)[..i] == LocalRun(h[..i]);
    case Shared(keyPrefix) =>
      StoreIsShared(keyPrefix, h[..i]);
      assert KeyedRun(keyPrefix, h)[..i] == KeyedRun(keyPrefix, h[..i]);
  }

  /** The clock the guard decides by: the verifier's reading, or the server's. */
  function GuardClock(g: Guard, p: Presentation): int {
    if g.Local? then p.now else p.serverNow
  }

  predicate GuardClockNeverGoesBack(g: Guard, h: seq<Presentation>) {
    forall i, j :: 0 <= i < j < |h| ==> GuardClock(g, h[i]) <= GuardClock(g, h[j])
  }

  /** Commands do not run before the readings they carry. */
  predicate ReadsFirst(h: seq<Presentation>) {
    forall i :: 0 <= i < |h| ==> h[i].now <= h[i].serverNow
  }

  /** With either guard, an identifier found fresh again is so only at or after its first expiry, on the
  guard's clock. */
  lemma FoundFreshAgain(g: Guard, h: seq<Presentation>, i: nat, j: nat)
    requires i < j < |h| && h[i].id == h[j].id && FoundFreshAt(g, h, i) && FoundFreshAt(g, h, j)
    requires GuardClockNeverGoesBack(g, h) && (g.Shared? ==> ReadsFirst(h))
    ensures GuardClock(g, h[j]) >= h[i].expiresAt
  {
    FoundFreshIs(g, h, i);
    FoundFreshIs(g, h, j);
    match g
    case Local(maxEntries) =>
      SecondUseOnlyAfterExpiry(maxEntries, LocalRun(h), i, j);
    case Shared(keyPrefix) =>
      SharedSecondUseOnlyAfterExpiry(KeyedRun(keyPrefix, h), i, j);
  }
}
