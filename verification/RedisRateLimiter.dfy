/** The rate limiter shared by all replicas: a counter per key in one Redis store, incremented and
given its time to live by a single atomic script. Times are milliseconds of the store's clock. */
module RedisRateLimiter {
  import opened Wrappers

  /** A stored counter; without a deadline it never expires on its own. */
  datatype Counter = Counter(count: int, expiresAt: Option<int>)

  type Entries = map<string, Counter>

  predicate Live(c: Counter, now: int) {
    c.expiresAt.None? || now < c.expiresAt.value
  }

  function Present(entries: Entries, key: string, now: int): Option<Counter> {
    if key in entries && Live(entries[key], now) then Some(entries[key]) else None
  }

  /** What one run of the script leaves for its key. */
  function NextCounter(found: Option<Counter>, windowMs: int, now: int): Counter {
    var count := (if found.Some? then found.value.count else 0) + 1;
    if count == 1 || found.None? || found.value.expiresAt.None? then Counter(count, Some(now + windowMs))
    else Counter(count, found.value.expiresAt)
  }

  /** The commands the script issues, each on the live keyspace. */
  class RedisStore {
    var entries: Entries

    constructor (entries: Entries)
      ensures this.entries == entries
    {
      this.entries := entries;
    }

    method Incr(key: string, now: int) returns (count: int)
      modifies this
      ensures var found := Present(old(entries), key, now);
              && count == (if found.Some? then found.value.count else 0) + 1
              && entries == old(entries)[key := Counter(count, if found.Some? then found.value.expiresAt else None)]
    {
      if key in entries && !Live(entries[key], now) {
        entries := entries - {key};
      }
      if key in entries {
        count := entries[key].count + 1;
        entries := entries[key := entries[key].(count := count)];
      } else {
        count := 1;
        entries := entries[key := Counter(1, None)];
      }
    }

    /** -2 for an absent key, -1 for a key without a deadline, otherwise the time left. */
    method Pttl(key: string, now: int) returns (left: int)
      ensures match Present(entries, key, now)
              case None => left == -2
              case Some(c) => left == if c.expiresAt.None? then -1 else c.expiresAt.value - now
    {
      if key !in entries || !Live(entries[key], now) {
        left := -2;
      } else if entries[key].expiresAt.None? {
        left := -1;
      } else {
        left := entries[key].expiresAt.value - now;
      }
    }

    method PExpire(key: string, ms: int, now: int)
      requires ms > 0
      modifies this
      ensures entries == match Present(old(entries), key, now)
                         case None => old(entries)
                         case Some(c) => old(entries)[key := c.(expiresAt := Some(now + ms))]
    {
      if key in entries && Live(entries[key], now) {
        entries := entries[key := entries[key].(expiresAt := Some(now + ms))];
      }
    }

    /** The increment-and-expire script, run atomically. */
    method IncrAndExpire(key: string, windowMs: int, now: int) returns (count: int)
      requires windowMs > 0
      modifies this
      ensures var next := NextCounter(Present(old(entries), key, now), windowMs, now);
              count == next.count && entries == old(entries)[key := next]
    {
      ghost var before := entries;
      count := Incr(key, now);
      var left := Pttl(key, now);
      if count == 1 || left < 0 {
        PExpire(key, windowMs, now);
      }
    }
  }

  class RedisRateLimiter {
    const store: RedisStore
    const maxRequests: int
    const windowMs: int

    constructor (store: RedisStore, maxRequests: int, windowMs: int)
      ensures this.store == store && this.maxRequests == maxRequests && this.windowMs == windowMs
    {
      this.store, this.maxRequests, this.windowMs := store, maxRequests, windowMs;
    }

    /** Fails open on a lost answer, whether or not the script ran. */
    method Allow(key: string, now: int, delivery: Delivery) returns (allowed: bool)
      requires windowMs > 0
      modifies store
      ensures delivery.Lost? ==> allowed
      ensures delivery.Answered? ==>
                allowed == (NextCounter(Present(old(store.entries), key, now), windowMs, now).count <= maxRequests)
      ensures store.entries ==
                if delivery == Lost(false) then old(store.entries)
                else Step(old(store.entries), windowMs, Call(key, now))
    {
      if delivery == Lost(false) {
        return true;
      }
      var count := store.IncrAndExpire(key, windowMs, now);
      allowed := delivery.Lost? || count <= maxRequests;
    }
  }

  // ---------------------------------------------------------------------------------------------
  // Runs: any interleaving of the replicas' script runs on one store
  // ---------------------------------------------------------------------------------------------

  datatype Call = Call(key: string, now: int)

  function Step(entries: Entries, windowMs: int, call: Call): Entries {
    entries[call.key := NextCounter(Present(entries, call.key, call.now), windowMs, call.now)]
  }

  function After(initial: Entries, windowMs: int, h: seq<Call>): Entries {
    if h == [] then initial else Step(After(initial, windowMs, h[..|h| - 1]), windowMs, h[|h| - 1])
  }

  /** The count the `i`-th script run returned. */
  function CountAt(initial: Entries, windowMs: int, h: seq<Call>, i: nat): int
    requires i < |h|
  {
    NextCounter(Present(After(initial, windowMs, h[..i]), h[i].key, h[i].now), windowMs, h[i].now).count
  }

  /** What a run counts and leaves: one more than a counter still before its deadline, under the same deadline, or
  the first of a counter that expires one window later. A counter found without a deadline gets one. */
  lemma RunExactly(initial: Entries, windowMs: int, h: seq<Call>, i: nat)
    requires i < |h|
    ensures var k, now, before := h[i].key, h[i].now, After(initial, windowMs, h[..i]);
            var left := After(initial, windowMs, h[..i + 1]);
            && left.Keys == before.Keys + {k} && (forall x :: x in before && x != k ==> left[x] == before[x])
            && CountAt(initial, windowMs, h, i) == left[k].count
            && left[k] ==
                 if k in before && before[k].expiresAt.Some? && before[k].expiresAt.value > now
                    && before[k].count != 0 then
                   Counter(before[k].count + 1, before[k].expiresAt)
                 else if k in before && (before[k].expiresAt.None? || before[k].expiresAt.value > now) then
                   Counter(before[k].count + 1, Some(now + windowMs))
                 else Counter(1, Some(now + windowMs))
  {
    assert h[..i + 1][..i] == h[..i];
  }

  predicate ClockNeverGoesBack(h: seq<Call>) {
    forall i, j :: 0 <= i < j < |h| ==> h[i].now <= h[j].now
  }

  /** Every deadline present is at most one window away. */
  predicate DeadlinesWithin(entries: Entries, now: int, windowMs: int) {
    forall k :: k in entries && entries[k].expiresAt.Some? ==> entries[k].expiresAt.value <= now + windowMs
  }

  predicate CountsNonNegative(entries: Entries) {
    forall k :: k in entries ==> entries[k].count >= 0
  }

  /** Each run leaves its key with a deadline inside the window, whatever it found, and no deadline
  anywhere ever moves further away than one window. */
  lemma {:induction false} DeadlinesStayWithin(initial: Entries, windowMs: int, h: seq<Call>)
    requires windowMs > 0 && h != [] && ClockNeverGoesBack(h)
    requires DeadlinesWithin(initial, h[0].now, windowMs)
    ensures var after, last := After(initial, windowMs, h), h[|h| - 1];
            && DeadlinesWithin(after, last.now, windowMs)
            && last.key in after && after[last.key].expiresAt.Some?
            && last.now < after[last.key].expiresAt.value <= last.now + windowMs
  {
    var before, last := h[..|h| - 1], h[|h| - 1];
    if before != [] {
      DeadlinesStayWithin(initial, windowMs, before);
      assert before[|before| - 1] == h[|h| - 2];
    }
    assert DeadlinesWithin(After(initial, windowMs, before), last.now, windowMs);
  }

  /** A counter keeps its deadline until a run for its key restarts the count. */
  lemma {:induction false} DeadlineKept(initial: Entries, windowMs: int, h: seq<Call>, k: string, i: nat)
    requires i < |h| && h[i].key == k && windowMs > 0
    requires forall m :: i < m < |h| && h[m].key == k ==> CountAt(initial, windowMs, h, m) != 1
    ensures k in After(initial, windowMs, h[..i + 1]) && k in After(initial, windowMs, h)
    ensures After(initial, windowMs, h)[k].expiresAt == After(initial, windowMs, h[..i + 1])[k].expiresAt
    ensures After(initial, windowMs, h)[k].expiresAt.Some?
    decreases |h|
  {
    var before, last := h[..|h| - 1], h[|h| - 1];
    if i == |h| - 1 {
      assert h[..i + 1] == h;
    } else {
      assert before[..i + 1] == h[..i + 1];
      forall m | i < m < |before| && before[m].key == k ensures CountAt(initial, windowMs, before, m) != 1 {
        assert before[..m] == h[..m] && before[m] == h[m];
      }
      DeadlineKept(initial, windowMs, before, k, i);
      assert h[..|h| - 1] == before;
      if last.key == k {
        assert CountAt(initial, windowMs, h, |h| - 1) != 1;
      }
    }
  }

  /** With no restart in between, the deadline met at run `j` is the one run `i` left, inside its window. */
  lemma DeadlineFrom(initial: Entries, windowMs: int, h: seq<Call>, i: nat, j: nat)
    requires windowMs > 0 && i < j < |h| && ClockNeverGoesBack(h)
    requires DeadlinesWithin(initial, h[0].now, windowMs)
    requires forall m :: i < m < j && h[m].key == h[i].key ==> CountAt(initial, windowMs, h, m) != 1
    ensures var before := After(initial, windowMs, h[..j]);
            && h[i].key in before && before[h[i].key].expiresAt.Some?
            && before[h[i].key].expiresAt.value <= h[i].now + windowMs
  {
    var before, k := h[..j], h[i].key;
    forall m | i < m < |before| && before[m].key == k ensures CountAt(initial, windowMs, before, m) != 1 {
      assert before[..m] == h[..m] && before[m] == h[m];
    }
    DeadlineKept(initial, windowMs, before, k, i);
    assert before[..i + 1] == h[..i + 1];
    DeadlinesStayWithin(initial, windowMs, h[..i + 1]);
  }

  /** No key is blocked forever: among the runs for a key that reach one window past any of them, one
  restarts the count. */
  lemma NoKeyBlockedForever(initial: Entries, windowMs: int, h: seq<Call>, i: nat, j: nat)
    requires windowMs > 0 && i < j < |h| && h[i].key == h[j].key && ClockNeverGoesBack(h)
    requires DeadlinesWithin(initial, h[0].now, windowMs)
    requires h[j].now >= h[i].now + windowMs
    ensures exists m :: i < m <= j && h[m].key == h[i].key && CountAt(initial, windowMs, h, m) == 1
  {
    if forall m :: i < m < j && h[m].key == h[i].key ==> CountAt(initial, windowMs, h, m) != 1 {
      DeadlineFrom(initial, windowMs, h, i, j);
      RunExactly(initial, windowMs, h, j);
    }
  }

  // ---------------------------------------------------------------------------------------------
  // How little is refused
  // ---------------------------------------------------------------------------------------------

  /** How many runs for `k` came after a time. */
  function RunsAfter(h: seq<Call>, k: string, after: int): nat {
    if h == [] then 0 else
      RunsAfter(h[..|h| - 1], k, after) + if h[|h| - 1].key == k && h[|h| - 1].now > after then 1 else 0
  }

  /** A counter that no earlier store left behind counts runs since one window before its deadline. */
  lemma {:induction false} CountsItsRuns(initial: Entries, windowMs: int, h: seq<Call>, k: string, after: int)
    requires ClockNeverGoesBack(h) && k !in initial && k in After(initial, windowMs, h)
    ensures var c := After(initial, windowMs, h)[k];
            && c.count >= 1 && c.expiresAt.Some? && h != [] && c.expiresAt.value - windowMs <= h[|h| - 1].now
            && (after < c.expiresAt.value - windowMs ==> c.count <= RunsAfter(h, k, after))
  {
    if h != [] {
      var before, last := h[..|h| - 1], h[|h| - 1];
      RunExactly(initial, windowMs, h, |h| - 1);
      assert h[..|h|] == h;
      if k in After(initial, windowMs, before) {
        CountsItsRuns(initial, windowMs, before, k, after);
        assert before[|before| - 1].now <= last.now;
      }
    }
  }

  /** Fairness: a key that no earlier store left behind is refused only if as many runs for it as the limit allows
  came within the window before, over all replicas. */
  lemma RefusedOnlyWhenFull(initial: Entries, windowMs: int, maxRequests: int, h: seq<Call>, i: nat)
    requires ClockNeverGoesBack(h) && i < |h| && h[i].key !in initial
    requires CountAt(initial, windowMs, h, i) > maxRequests
    ensures RunsAfter(h[..i], h[i].key, h[i].now - windowMs) >= maxRequests
  {
    var k := h[i].key;
    RunExactly(initial, windowMs, h, i);
    if k in After(initial, windowMs, h[..i]) {
      CountsItsRuns(initial, windowMs, h[..i], k, h[i].now - windowMs);
    }
  }

  // ---------------------------------------------------------------------------------------------
  // How much is admitted
  // ---------------------------------------------------------------------------------------------

  function AtLeastZero(n: int): (m: nat)
    ensures m >= n && (m > 0 ==> m == n)
  {
    if n < 0 then 0 else n
  }

  function Min(a: int, b: int): int { if a < b then a else b }

  /** How many of the runs `from..` for `k` returned a count within the limit. */
  function AdmittedFrom(initial: Entries, windowMs: int, maxRequests: int, h: seq<Call>, k: string, from: nat): nat {
    if |h| <= from then 0 else
      AdmittedFrom(initial, windowMs, maxRequests, h[..|h| - 1], k, from)
      + if h[|h| - 1].key == k && CountAt(initial, windowMs, h, |h| - 1) <= maxRequests then 1 else 0
  }

  lemma {:induction false} CountsStayNonNegative(initial: Entries, windowMs: int, h: seq<Call>)
    requires CountsNonNegative(initial)
    ensures CountsNonNegative(After(initial, windowMs, h))
  {
    if h != [] {
      CountsStayNonNegative(initial, windowMs, h[..|h| - 1]);
    }
  }

  /** Within one lifetime of a key counts only rise, so at most the limit is admitted. */
  lemma {:induction false} LifetimeBound(initial: Entries, windowMs: int, maxRequests: int, h: seq<Call>,
                                         k: string, from: nat)
    requires windowMs > 0 && CountsNonNegative(initial) && from < |h| && h[from].key == k
    requires forall m :: from < m < |h| && h[m].key == k ==> CountAt(initial, windowMs, h, m) != 1
    ensures k in After(initial, windowMs, h) && After(initial, windowMs, h)[k].count >= 1
    ensures AdmittedFrom(initial, windowMs, maxRequests, h, k, from)
            <= AtLeastZero(Min(After(initial, windowMs, h)[k].count, maxRequests))
    decreases |h|
  {
    var before, last := h[..|h| - 1], h[|h| - 1];
    CountsStayNonNegative(initial, windowMs, before);
    if from == |h| - 1 {
      assert AdmittedFrom(initial, windowMs, maxRequests, before, k, from) == 0;
    } else {
      forall m | from < m < |before| && before[m].key == k ensures CountAt(initial, windowMs, before, m) != 1 {
        assert before[..m] == h[..m] && before[m] == h[m];
      }
      LifetimeBound(initial, windowMs, maxRequests, before, k, from);
      if last.key == k {
        assert CountAt(initial, windowMs, h, |h| - 1) != 1;
      }
    }
  }

  /** How many runs for `k` at a time in `[from, until)` returned a count within the limit. */
  function AdmittedIn(initial: Entries, windowMs: int, maxRequests: int, h: seq<Call>, k: string,
                      from: int, until: int): nat {
    if h == [] then 0 else
      AdmittedIn(initial, windowMs, maxRequests, h[..|h| - 1], k, from, until)
      + if h[|h| - 1].key == k && from <= h[|h| - 1].now < until
           && CountAt(initial, windowMs, h, |h| - 1) <= maxRequests then 1 else 0
  }

  /** When the current lifetime of `k` began, if a run of `h` began it. */
  function LifetimeStart(initial: Entries, windowMs: int, h: seq<Call>, k: string): Option<int> {
    if h == [] then None
    else if h[|h| - 1].key == k && CountAt(initial, windowMs, h, |h| - 1) == 1 then Some(h[|h| - 1].now)
    else LifetimeStart(initial, windowMs, h[..|h| - 1], k)
  }

  lemma {:induction false} NothingBefore(initial: Entries, windowMs: int, maxRequests: int, h: seq<Call>,
                                         k: string, from: int)
    requires forall i :: 0 <= i < |h| ==> h[i].now < from
    ensures AdmittedIn(initial, windowMs, maxRequests, h, k, from, from + windowMs) == 0
  {
    if h != [] {
      NothingBefore(initial, windowMs, maxRequests, h[..|h| - 1], k, from);
    }
  }

  predicate WasCalled(h: seq<Call>, k: string) {
    exists i :: 0 <= i < |h| && h[i].key == k
  }

  /** Before the interval only the straddling lifetime counts, and not its first run; inside it at
  most one more lifetime begins, and that one outlasts the interval. */
  predicate Budget(admitted: nat, c: Counter, start: Option<int>, windowMs: int, maxRequests: int, from: int) {
    var m := AtLeastZero(maxRequests);
    && c.count >= 1
    && (start.Some? ==> c.expiresAt == Some(start.value + windowMs))
    && admitted <= if start.None? || start.value < from then AtLeastZero(Min(c.count, m) - 1)
                   else if start.value < from + windowMs then AtLeastZero(m - 1) + Min(c.count, m)
                   else AtLeastZero(2 * m - 1)
  }

  lemma BudgetStep(admitted: nat, c: Counter, start: Option<int>, windowMs: int, maxRequests: int, from: int, now: int)
    requires Budget(admitted, c, start, windowMs, maxRequests, from)
    requires start.Some? ==> start.value <= now
    requires now < from ==> admitted == 0
    ensures var next := NextCounter(if Live(c, now) then Some(c) else None, windowMs, now);
            var hit := if from <= now < from + windowMs && next.count <= maxRequests then 1 else 0;
            Budget(admitted + hit, next, if next.count == 1 then Some(now) else start, windowMs, maxRequests, from)
  {
  }

  lemma {:induction false} StartsNoLater(initial: Entries, windowMs: int, h: seq<Call>, k: string, now: int)
    requires forall i :: 0 <= i < |h| ==> h[i].now <= now
    ensures LifetimeStart(initial, windowMs, h, k).Some? ==> LifetimeStart(initial, windowMs, h, k).value <= now
  {
    if h != [] {
      StartsNoLater(initial, windowMs, h[..|h| - 1], k, now);
    }
  }

  /** The budget of a called key, or nothing yet. */
  ghost predicate WithinBudget(initial: Entries, windowMs: int, maxRequests: int, h: seq<Call>, k: string, from: int) {
    var admitted := AdmittedIn(initial, windowMs, maxRequests, h, k, from, from + windowMs);
    var start := LifetimeStart(initial, windowMs, h, k);
    if WasCalled(h, k) then
      && k in After(initial, windowMs, h)
      && Budget(admitted, After(initial, windowMs, h)[k], start, windowMs, maxRequests, from)
    else admitted == 0 && start.None?
  }

  lemma CalledStep(h: seq<Call>, k: string)
    requires h != []
    ensures WasCalled(h, k) <==> WasCalled(h[..|h| - 1], k) || h[|h| - 1].key == k
  {
    var before := h[..|h| - 1];
    assert forall i :: 0 <= i < |before| ==> before[i] == h[i];
  }

  lemma SlidingStep(initial: Entries, windowMs: int, maxRequests: int, h: seq<Call>, k: string, from: int)
    requires CountsNonNegative(initial) && h != [] && h[|h| - 1].key == k
    requires WithinBudget(initial, windowMs, maxRequests, h[..|h| - 1], k, from)
    requires forall i :: 0 <= i < |h| ==> h[i].now <= h[|h| - 1].now
    ensures WithinBudget(initial, windowMs, maxRequests, h, k, from)
  {
    var before, last := h[..|h| - 1], h[|h| - 1];
    CountsStayNonNegative(initial, windowMs, before);
    CalledStep(h, k);
    StartsNoLater(initial, windowMs, before, k, last.now);
    if last.now < from {
      NothingBefore(initial, windowMs, maxRequests, before, k, from);
    }
    if WasCalled(before, k) {
      BudgetStep(AdmittedIn(initial, windowMs, maxRequests, before, k, from, from + windowMs),
                 After(initial, windowMs, before)[k], LifetimeStart(initial, windowMs, before, k),
                 windowMs, maxRequests, from, last.now);
    }
  }

  lemma {:induction false} SlidingInvariant(initial: Entries, windowMs: int, maxRequests: int, h: seq<Call>,
                                            k: string, from: int)
    requires CountsNonNegative(initial) && ClockNeverGoesBack(h)
    ensures WithinBudget(initial, windowMs, maxRequests, h, k, from)
  {
    if h != [] {
      var before, last := h[..|h| - 1], h[|h| - 1];
      SlidingInvariant(initial, windowMs, maxRequests, before, k, from);
      if last.key == k {
        SlidingStep(initial, windowMs, maxRequests, h, k, from);
      } else {
        CalledStep(h, k);
      }
    }
  }

  /** Any interval of one window admits fewer than twice the limit for a key, over all replicas. */
  lemma SlidingBound(initial: Entries, windowMs: int, maxRequests: int, h: seq<Call>, k: string, from: int)
    requires CountsNonNegative(initial) && ClockNeverGoesBack(h)
    ensures AdmittedIn(initial, windowMs, maxRequests, h, k, from, from + windowMs)
            <= AtLeastZero(2 * maxRequests - 1)
  {
    SlidingInvariant(initial, windowMs, maxRequests, h, k, from);
  }
}
