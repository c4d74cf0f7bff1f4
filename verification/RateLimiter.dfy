/** The in-process rate limiter: a fixed-window counter per key, over an ordered map that keeps only
the most recently touched keys. */
module RateLimiter {
  import opened Wrappers

  datatype Window = Window(start: real, count: nat)

  datatype Config = Config(maxRequests: int, windowSeconds: real, maxTrackedKeys: int)

  datatype Call = Call(key: string, now: real)

  /** The window a call leaves behind, given the window found for its key. */
  function Touch(prior: Option<Window>, now: real, windowSeconds: real): Window {
    var found := if prior.Some? then prior.value else Window(now, 0);
    var current := if now - found.start >= windowSeconds then Window(now, 0) else found;
    current.(count := current.count + 1)
  }

  // ---------------------------------------------------------------------------------------------
  // Recency: which keys a history of calls leaves in the map
  // ---------------------------------------------------------------------------------------------

  function Without(s: seq<string>, k: string): seq<string> {
    if s == [] then [] else if s[0] == k then s[1..] else [s[0]] + Without(s[1..], k)
  }

  predicate Distinct(s: seq<string>) {
    forall i, j :: 0 <= i < j < |s| ==> s[i] != s[j]
  }

  /** The keys called so far, least recently called first. */
  function RecentKeys(h: seq<Call>): seq<string> {
    if h == [] then [] else
      var last := h[|h| - 1].key;
      Without(RecentKeys(h[..|h| - 1]), last) + [last]
  }

  function LastN(s: seq<string>, n: nat): seq<string> {
    if |s| <= n then s else s[|s| - n..]
  }

  function Cap(config: Config): nat {
    if config.maxTrackedKeys < 0 then 0 else config.maxTrackedKeys
  }

  /** The keys the map holds after a history: the `Cap` most recently called ones, in that order. */
  function Retained(config: Config, h: seq<Call>): (r: seq<string>)
    ensures |r| <= Cap(config)
  {
    LastN(RecentKeys(h), Cap(config))
  }

  /** The window stored for a key, if it is retained. */
  function Lookup(config: Config, h: seq<Call>, k: string): Option<Window> {
    if h == [] || k !in Retained(config, h) then None else
      var before, last := h[..|h| - 1], h[|h| - 1];
      var prior := Lookup(config, before, k);
      if last.key == k then Some(Touch(prior, last.now, config.windowSeconds)) else prior
  }

  /** The limiter's answer to one more call. */
  predicate Admits(config: Config, h: seq<Call>, call: Call) {
    Touch(Lookup(config, h, call.key), call.now, config.windowSeconds).count <= config.maxRequests
  }

  lemma {:induction false} WithoutMembers(s: seq<string>, k: string)
    ensures forall x :: x in Without(s, k) ==> x in s
    ensures forall x :: x in s && x != k ==> x in Without(s, k)
    ensures |Without(s, k)| == if k in s then |s| - 1 else |s|
    ensures k !in s ==> Without(s, k) == s
  {
    if s != [] && s[0] != k {
      WithoutMembers(s[1..], k);
    }
  }

  lemma {:induction false} WithoutDistinct(s: seq<string>, k: string)
    requires Distinct(s)
    ensures Distinct(Without(s, k)) && k !in Without(s, k)
  {
    if s != [] {
      assert s[0] !in s[1..];
      if s[0] != k {
        WithoutDistinct(s[1..], k);
        WithoutMembers(s[1..], k);
      }
    }
  }

  lemma {:induction false} RecentKeysDistinct(h: seq<Call>)
    ensures Distinct(RecentKeys(h))
  {
    if h != [] {
      var k := h[|h| - 1].key;
      var earlier := RecentKeys(h[..|h| - 1]);
      RecentKeysDistinct(h[..|h| - 1]);
      WithoutDistinct(earlier, k);
    }
  }

  lemma {:induction false} WithoutConcat(a: seq<string>, b: seq<string>, k: string)
    ensures Without(a + b, k) == if k in a then Without(a, k) + b else a + Without(b, k)
  {
    if a == [] {
      assert a + b == b;
    } else {
      assert (a + b)[1..] == a[1..] + b;
      if a[0] != k {
        WithoutConcat(a[1..], b, k);
        assert Without(a + b, k) == [a[0]] + Without(a[1..] + b, k);
      }
    }
  }

  lemma LastNOfConcat(a: seq<string>, b: seq<string>, n: nat)
    requires |b| >= n
    ensures LastN(a + b, n) == b[|b| - n..]
  {
  }

  lemma DistinctSplit(a: seq<string>, b: seq<string>, k: string)
    requires Distinct(a + b) && k in a
    ensures k !in b
  {
    var i :| 0 <= i < |a| && a[i] == k;
    assert (a + b)[i] == k;
    assert forall j :: 0 <= j < |b| ==> (a + b)[|a| + j] == b[j];
  }

  lemma MoveInTail(dropped: seq<string>, kept: seq<string>, k: string)
    requires k in dropped ==> k !in kept
    ensures var rest := if k in dropped then Without(dropped, k) else dropped;
            Without(dropped + kept, k) + [k] == rest + (Without(kept, k) + [k])
  {
    WithoutConcat(dropped, kept, k);
    WithoutMembers(kept, k);
  }

  /** Moving a key to the end and dropping the first key past the cap keeps the last `c` keys. */
  lemma TouchKeepsLastN(recent: seq<string>, k: string, c: nat)
    requires Distinct(recent)
    ensures var moved := Without(LastN(recent, c), k) + [k];
            LastN(Without(recent, k) + [k], c) == if |moved| > c then moved[1..] else moved
  {
    WithoutMembers(recent, k);
    if |recent| > c {
      var dropped, kept := recent[..|recent| - c], recent[|recent| - c..];
      assert recent == dropped + kept;
      TouchKeepsTail(dropped, kept, k);
      assert LastN(recent, c) == kept;
    }
  }

  lemma TouchKeepsTail(dropped: seq<string>, kept: seq<string>, k: string)
    requires Distinct(dropped + kept)
    ensures var moved := Without(kept, k) + [k];
            LastN(Without(dropped + kept, k) + [k], |kept|) == if |moved| > |kept| then moved[1..] else moved
  {
    if k in dropped {
      DistinctSplit(dropped, kept, k);
    }
    MoveInTail(dropped, kept, k);
    WithoutMembers(kept, k);
    LastNOfConcat(if k in dropped then Without(dropped, k) else dropped, Without(kept, k) + [k], |kept|);
  }

  /** A key retained now and not called last was retained before the last call. */
  lemma RetainedWereRetained(config: Config, h: seq<Call>, k: string)
    requires k in Retained(config, h)
    ensures h != []
    ensures h[|h| - 1].key != k ==> k in Retained(config, h[..|h| - 1])
  {
    var before, last := h[..|h| - 1], h[|h| - 1].key;
    RecentKeysDistinct(before);
    TouchKeepsLastN(RecentKeys(before), last, Cap(config));
    WithoutMembers(Retained(config, before), last);
  }

  /** The map holds the retained keys and no others, each with its window. */
  ghost predicate Holds(config: Config, h: seq<Call>, windows: map<string, Window>) {
    && (forall k :: k in windows <==> k in Retained(config, h))
    && (forall k :: k in windows ==> Lookup(config, h, k) == Some(windows[k]))
  }

  // ---------------------------------------------------------------------------------------------
  // The limiter
  // ---------------------------------------------------------------------------------------------

  class InMemoryRateLimiter {
    const config: Config
    var order: seq<string>
    var windows: map<string, Window>
    ghost var history: seq<Call>

    /** The ordered map holds exactly the most recently called keys, in order, with the windows
    their histories give. */
    ghost predicate Valid()
      reads this
    {
      && order == Retained(config, history)
      && Holds(config, history, windows)
    }

    constructor (config: Config)
      ensures Valid() && this.config == config && history == []
    {
      this.config := config;
      order, windows, history := [], map[], [];
    }

    method Allow(key: string, now: real) returns (allowed: bool)
      requires Valid()
      modifies this
      ensures Valid() && history == old(history) + [Call(key, now)]
      ensures allowed == Admits(config, old(history), Call(key, now))
      ensures |windows| <= Cap(config)
      ensures Spaced(config, history, key) ==> allowed == UncappedAdmits(config, old(history), Call(key, now))
    {
      ghost var before := history;
      AllowStep(config, before, Call(key, now), windows);
      AdmitsHeld(config, before, Call(key, now), windows);
      var window := Touch(if key in windows then Some(windows[key]) else None, now, config.windowSeconds);
      windows := windows[key := window];
      order := Without(order, key) + [key];
      if |windows| > config.maxTrackedKeys {
        var oldest := order[0];
        order := order[1..];
        windows := windows - {oldest};
      }
      history := history + [Call(key, now)];
      allowed := window.count <= config.maxRequests;
      assert history[..|before|] == before;
      RetainedDistinct(config, history);
      MapSize(windows, order);
      if Spaced(config, history, key) {
        SpacedAnswersAgree(config, history, key, |before|);
      }
    }
  }

  lemma RetainedStep(config: Config, before: seq<Call>, call: Call)
    ensures var moved := Without(Retained(config, before), call.key) + [call.key];
            && Distinct(moved)
            && (forall k :: k in moved <==> k in Retained(config, before) || k == call.key)
            && Retained(config, before + [call]) == if |moved| > Cap(config) then moved[1..] else moved
  {
    assert (before + [call])[..|before|] == before;
    RecentKeysDistinct(before);
    TouchKeepsLastN(RecentKeys(before), call.key, Cap(config));
    WithoutDistinct(Retained(config, before), call.key);
    WithoutMembers(Retained(config, before), call.key);
  }

  lemma {:induction false} DistinctSize(s: seq<string>, keys: set<string>)
    requires Distinct(s) && forall k :: k in keys <==> k in s
    ensures |keys| == |s|
  {
    if s == [] {
      assert keys == {};
    } else {
      assert s == [s[0]] + s[1..];
      assert s[0] !in s[1..];
      DistinctSize(s[1..], keys - {s[0]});
    }
  }

  lemma MapSize(windows: map<string, Window>, order: seq<string>)
    requires Distinct(order) && forall k :: k in windows <==> k in order
    ensures |windows| == |order|
  {
    DistinctSize(order, windows.Keys);
    assert |windows| == |windows.Keys|;
  }

  lemma RetainedDistinct(config: Config, h: seq<Call>)
    ensures Distinct(Retained(config, h))
  {
    RecentKeysDistinct(h);
  }

  /** Moving a key to the end of the order and storing its window keeps order and map in step. */
  lemma MovedKeys(retained: seq<string>, windows: map<string, Window>, k: string, window: Window)
    requires Distinct(retained) && forall x :: x in windows <==> x in retained
    ensures var moved, updated := Without(retained, k) + [k], windows[k := window];
            && |updated| == |moved|
            && (forall x :: x in updated <==> x in moved)
            && (forall x :: x in updated - {moved[0]} <==> x in moved[1..])
  {
    var moved, updated := Without(retained, k) + [k], windows[k := window];
    WithoutDistinct(retained, k);
    WithoutMembers(retained, k);
    MapSize(updated, moved);
    assert moved == [moved[0]] + moved[1..] && moved[0] !in moved[1..];
  }

  lemma AdmitsHeld(config: Config, before: seq<Call>, call: Call, windows: map<string, Window>)
    requires Holds(config, before, windows)
    ensures var window := Touch(if call.key in windows then Some(windows[call.key]) else None,
                                call.now, config.windowSeconds);
            Admits(config, before, call) == (window.count <= config.maxRequests)
  {
    assert Lookup(config, before, call.key) == if call.key in windows then Some(windows[call.key]) else None;
  }

  /** Storing the touched window, moving its key to the end and evicting past the cap leaves the map
  that the longer history calls for. */
  lemma AllowStep(config: Config, before: seq<Call>, call: Call, windows: map<string, Window>)
    requires Holds(config, before, windows)
    ensures var window := Touch(if call.key in windows then Some(windows[call.key]) else None,
                                call.now, config.windowSeconds);
            var updated := windows[call.key := window];
            var moved := Without(Retained(config, before), call.key) + [call.key];
            && |updated| == |moved|
            && (if |updated| > config.maxTrackedKeys then
                  && Retained(config, before + [call]) == moved[1..]
                  && Holds(config, before + [call], updated - {moved[0]})
                else
                  && Retained(config, before + [call]) == moved
                  && Holds(config, before + [call], updated))
  {
    var k := call.key;
    var window := Touch(if k in windows then Some(windows[k]) else None, call.now, config.windowSeconds);
    var updated := windows[k := window];
    var retained := Retained(config, before);
    var moved := Without(retained, k) + [k];
    RetainedDistinct(config, before);
    MovedKeys(retained, windows, k, window);
    RetainedStep(config, before, call);
    assert |updated| > config.maxTrackedKeys <==> |moved| > Cap(config);
    if |updated| > config.maxTrackedKeys {
      HoldsAfter(config, before, call, windows, updated - {moved[0]});
    } else {
      HoldsAfter(config, before, call, windows, updated);
    }
  }

  /** Keeping the retained keys, with the called key's window touched, keeps every window right. */
  lemma HoldsAfter(config: Config, before: seq<Call>, call: Call, windows: map<string, Window>,
                   kept: map<string, Window>)
    requires Holds(config, before, windows)
    requires forall x :: x in kept <==> x in Retained(config, before + [call])
    requires forall x :: x in kept && x != call.key ==> x in windows && kept[x] == windows[x]
    requires call.key in kept ==>
               kept[call.key] == Touch(if call.key in windows then Some(windows[call.key]) else None, call.now,
                                        config.windowSeconds)
    ensures Holds(config, before + [call], kept)
  {
    var after := before + [call];
    assert after[..|before|] == before;
    assert Lookup(config, before, call.key) == if call.key in windows then Some(windows[call.key]) else None;
    forall x | x in kept ensures Lookup(config, after, x) == Some(kept[x]) {
      assert x in Retained(config, after);
      RetainedWereRetained(config, after, x);
    }
  }

  // ---------------------------------------------------------------------------------------------
  // Refinement of the counter that never evicts
  // ---------------------------------------------------------------------------------------------

  predicate Called(h: seq<Call>, k: string) {
    exists i :: 0 <= i < |h| && h[i].key == k
  }

  /** The distinct other keys called since the last call for `k`. */
  function KeysSince(h: seq<Call>, k: string): set<string> {
    if h == [] || h[|h| - 1].key == k then {} else KeysSince(h[..|h| - 1], k) + {h[|h| - 1].key}
  }

  function UncappedWindow(config: Config, h: seq<Call>, k: string): Option<Window> {
    if h == [] then None else
      var before, last := h[..|h| - 1], h[|h| - 1];
      var prior := UncappedWindow(config, before, k);
      if last.key == k then Some(Touch(prior, last.now, config.windowSeconds)) else prior
  }

  predicate UncappedAdmits(config: Config, h: seq<Call>, call: Call) {
    Touch(UncappedWindow(config, h, call.key), call.now, config.windowSeconds).count <= config.maxRequests
  }

  /** Consecutive calls for `k` are separated by fewer than `Cap` distinct other keys. */
  predicate Spaced(config: Config, h: seq<Call>, k: string) {
    forall i :: 0 <= i < |h| && h[i].key == k && Called(h[..i], k) ==> |KeysSince(h[..i], k)| < Cap(config)
  }

  function AfterKey(s: seq<string>, k: string): seq<string> {
    if s == [] then [] else if s[0] == k then s[1..] else AfterKey(s[1..], k)
  }

  lemma {:induction false} AfterKeyConcat(a: seq<string>, b: seq<string>, k: string)
    ensures AfterKey(a + b, k) == if k in a then AfterKey(a, k) + b else AfterKey(b, k)
  {
    if a == [] {
      assert a + b == b;
    } else {
      assert (a + b)[1..] == a[1..] + b;
      if a[0] != k {
        AfterKeyConcat(a[1..], b, k);
      }
    }
  }

  lemma {:induction false} AfterKeySubset(s: seq<string>, k: string)
    ensures forall x :: x in AfterKey(s, k) ==> x in s
  {
    if s != [] && s[0] != k {
      AfterKeySubset(s[1..], k);
    }
  }

  lemma {:induction false} AfterKeyWithout(s: seq<string>, k: string, x: string)
    requires Distinct(s) && x != k
    ensures forall y :: y in AfterKey(Without(s, x), k) <==> y in AfterKey(s, k) && y != x
  {
    if s != [] {
      if s[0] == x {
        assert x !in s[1..];
        AfterKeySubset(s[1..], k);
      } else if s[0] == k {
        WithoutDistinct(s[1..], x);
        WithoutMembers(s[1..], x);
      } else {
        AfterKeyWithout(s[1..], k, x);
      }
    }
  }

  lemma CalledStep(h: seq<Call>, k: string)
    requires h != []
    ensures Called(h, k) <==> Called(h[..|h| - 1], k) || h[|h| - 1].key == k
  {
    assert forall i :: 0 <= i < |h| - 1 ==> h[..|h| - 1][i] == h[i];
  }

  /** The keys listed after `k` are the ones called since. */
  lemma {:induction false} RecencyIsKeysSince(h: seq<Call>, k: string)
    ensures k in RecentKeys(h) <==> Called(h, k)
    ensures Called(h, k) ==> forall y :: y in AfterKey(RecentKeys(h), k) <==> y in KeysSince(h, k)
  {
    if h != [] {
      var before, x := h[..|h| - 1], h[|h| - 1].key;
      var earlier := RecentKeys(before);
      RecencyIsKeysSince(before, k);
      RecentKeysDistinct(before);
      CalledStep(h, k);
      WithoutDistinct(earlier, x);
      WithoutMembers(earlier, x);
      AfterKeyConcat(Without(earlier, x), [x], k);
      if x != k {
        AfterKeyWithout(earlier, k, x);
      }
    }
  }

  lemma {:induction false} AfterKeyPosition(s: seq<string>, k: string, c: nat)
    requires Distinct(s) && k in s
    ensures Distinct(AfterKey(s, k))
    ensures |AfterKey(s, k)| < |s|
    ensures k in LastN(s, c) <==> |AfterKey(s, k)| < c
  {
    assert s == [s[0]] + s[1..];
    if |s| > c {
      assert s[|s| - c..] == s[1..][|s| - 1 - c..];
    }
    if s[0] == k {
      assert k !in s[1..];
    } else {
      AfterKeyPosition(s[1..], k, c);
    }
  }

  /** The eviction rule: a key is still tracked exactly when it was called and fewer than `Cap`
  distinct other keys have been called since. */
  lemma RetainedExactly(config: Config, h: seq<Call>, k: string)
    ensures k in Retained(config, h) <==> Called(h, k) && |KeysSince(h, k)| < Cap(config)
  {
    RecencyIsKeysSince(h, k);
    RecentKeysDistinct(h);
    if Called(h, k) {
      AfterKeyPosition(RecentKeys(h), k, Cap(config));
      DistinctSize(AfterKey(RecentKeys(h), k), KeysSince(h, k));
    }
  }

  lemma {:induction false} NotCalledNoWindow(config: Config, h: seq<Call>, k: string)
    ensures UncappedWindow(config, h, k).None? <==> !Called(h, k)
  {
    if h != [] {
      var before := h[..|h| - 1];
      NotCalledNoWindow(config, before, k);
      CalledStep(h, k);
    }
  }

  lemma SpacedPrefix(config: Config, h: seq<Call>, k: string, n: nat)
    requires n <= |h| && Spaced(config, h, k)
    ensures Spaced(config, h[..n], k)
  {
    forall i | 0 <= i < n && h[..n][i].key == k && Called(h[..n][..i], k)
      ensures |KeysSince(h[..n][..i], k)| < Cap(config)
    {
      assert h[..n][..i] == h[..i];
    }
  }

  lemma {:induction false} SpacedWindowsAgree(config: Config, h: seq<Call>, k: string)
    requires Spaced(config, h, k) && k in Retained(config, h)
    ensures Lookup(config, h, k) == UncappedWindow(config, h, k)
  {
    RetainedWereRetained(config, h, k);
    var before := h[..|h| - 1];
    SpacedPrefix(config, h, k, |before|);
    RetainedExactly(config, before, k);
    NotCalledNoWindow(config, before, k);
    if k in Retained(config, before) {
      SpacedWindowsAgree(config, before, k);
    }
  }

  /** Refinement: under that spacing every answer equals the uncapped counter's. */
  lemma SpacedAnswersAgree(config: Config, h: seq<Call>, k: string, j: nat)
    requires Spaced(config, h, k) && j < |h| && h[j].key == k
    ensures Admits(config, h[..j], h[j]) == UncappedAdmits(config, h[..j], h[j])
  {
    SpacedPrefix(config, h, k, j);
    RetainedExactly(config, h[..j], k);
    NotCalledNoWindow(config, h[..j], k);
    if k in Retained(config, h[..j]) {
      SpacedWindowsAgree(config, h[..j], k);
    }
  }

  predicate ClockNeverGoesBack(h: seq<Call>) {
    forall i, j :: 0 <= i < j < |h| ==> h[i].now <= h[j].now
  }

  // ---------------------------------------------------------------------------------------------
  // Which calls open a window, and what each answer counts
  // ---------------------------------------------------------------------------------------------

  /** The key of call `j` was never evicted between that call and call `n`. */
  predicate StaysTracked(config: Config, h: seq<Call>, j: nat, n: nat)
    requires j < |h| && n <= |h|
  {
    forall m :: j < m <= n ==> h[j].key in Retained(config, h[..m])
  }

  /** A call opens a window when every earlier opening of its key, still tracked, is at least a window old. */
  predicate Opens(config: Config, h: seq<Call>, i: nat)
    requires i < |h|
    decreases i
  {
    forall j :: 0 <= j < i && h[j].key == h[i].key && StaysTracked(config, h, j, i) && Opens(config, h, j) ==>
      h[i].now - h[j].now >= config.windowSeconds
  }

  /** Call `i` falls in the window that call `j` opened. */
  predicate InWindowOf(config: Config, h: seq<Call>, j: nat, i: nat)
    requires j <= i < |h|
  {
    && h[j].key == h[i].key && Opens(config, h, j) && StaysTracked(config, h, j, i)
    && (j == i || h[i].now - h[j].now < config.windowSeconds)
  }

  /** How many of the calls from position `j` up to `n` are for `k`. */
  function CallsBetween(h: seq<Call>, k: string, j: nat, n: nat): nat
    requires j <= n <= |h|
    decreases n
  {
    if n == j then 0 else CallsBetween(h, k, j, n - 1) + if h[n - 1].key == k then 1 else 0
  }

  /** The stored window is that of the latest opening, and counts the calls for its key since. */
  ghost predicate LatestOpening(config: Config, h: seq<Call>, n: nat, k: string, j: nat)
    requires n <= |h|
  {
    && j < n && h[j].key == k && Opens(config, h, j) && StaysTracked(config, h, j, n)
    && Lookup(config, h[..n], k) == Some(Window(h[j].now, CallsBetween(h, k, j, n)))
    && forall m :: j < m < n && h[m].key == k ==> !Opens(config, h, m)
  }

  /** A call opens a window exactly when the latest opening of its key is a window old. */
  lemma OpensByLatest(config: Config, h: seq<Call>, i: nat, j: nat)
    requires ClockNeverGoesBack(h) && i < |h| && LatestOpening(config, h, i, h[i].key, j)
    ensures Opens(config, h, i) <==> h[i].now - h[j].now >= config.windowSeconds
  {
    if h[i].now - h[j].now >= config.windowSeconds {
      forall m | 0 <= m < i && h[m].key == h[i].key && StaysTracked(config, h, m, i) && Opens(config, h, m)
        ensures h[i].now - h[m].now >= config.windowSeconds
      {
        if m < j {
          assert StaysTracked(config, h, m, j);
          assert h[j].now - h[m].now >= config.windowSeconds;
        }
      }
    }
  }

  /** The first call of a key that is not tracked opens a window, and no earlier one is still open. */
  lemma UntrackedOpens(config: Config, h: seq<Call>, i: nat)
    requires i < |h| && h[i].key !in Retained(config, h[..i])
    ensures Opens(config, h, i) && Lookup(config, h[..i], h[i].key).None?
    ensures forall m :: 0 <= m < i && h[m].key == h[i].key ==> !StaysTracked(config, h, m, i)
  {
  }

  /** One more call keeps the latest opening, or is it. */
  lemma LatestOpeningMoves(config: Config, h: seq<Call>, i: nat, before: nat)
    requires i < |h| && LatestOpening(config, h, i, h[i].key, before) && Opens(config, h, i)
    requires h[i].key in Retained(config, h[..i + 1]) && h[i].now - h[before].now >= config.windowSeconds
    ensures LatestOpening(config, h, i + 1, h[i].key, i)
  {
    LookupStep(config, h, i, h[i].key);
    assert StaysTracked(config, h, i, i + 1);
    assert CallsBetween(h, h[i].key, i, i + 1) == 1;
  }

  lemma LatestOpeningStays(config: Config, h: seq<Call>, i: nat, k: string, before: nat)
    requires i < |h| && LatestOpening(config, h, i, k, before) && k in Retained(config, h[..i + 1])
    requires h[i].key == k ==> !Opens(config, h, i) && h[i].now - h[before].now < config.windowSeconds
    ensures LatestOpening(config, h, i + 1, k, before)
  {
    LookupStep(config, h, i, k);
    TrackedLonger(config, h, before, i);
  }

  lemma LookupStep(config: Config, h: seq<Call>, i: nat, k: string)
    requires i < |h| && k in Retained(config, h[..i + 1])
    ensures Lookup(config, h[..i + 1], k) ==
              if h[i].key == k then Some(Touch(Lookup(config, h[..i], k), h[i].now, config.windowSeconds))
              else Lookup(config, h[..i], k)
  {
    assert h[..i + 1][..i] == h[..i];
  }

  lemma TrackedLonger(config: Config, h: seq<Call>, j: nat, i: nat)
    requires j < |h| && i < |h| && StaysTracked(config, h, j, i) && h[j].key in Retained(config, h[..i + 1])
    ensures StaysTracked(config, h, j, i + 1)
  {
  }

  lemma UntrackedIsLatest(config: Config, h: seq<Call>, i: nat)
    requires i < |h| && h[i].key in Retained(config, h[..i + 1]) && h[i].key !in Retained(config, h[..i])
    ensures LatestOpening(config, h, i + 1, h[i].key, i)
  {
    UntrackedOpens(config, h, i);
    LookupStep(config, h, i, h[i].key);
    assert CallsBetween(h, h[i].key, i, i + 1) == 1;
  }

  lemma CalledWhenTracked(config: Config, h: seq<Call>, n: nat, k: string)
    requires n <= |h| && k in Retained(config, h[..n])
    ensures n > 0 && (k !in Retained(config, h[..n - 1]) ==> h[n - 1].key == k)
  {
    RetainedWereRetained(config, h[..n], k);
    assert h[..n][..n - 1] == h[..n - 1];
  }

  lemma {:induction false} FindOpening(config: Config, h: seq<Call>, n: nat, k: string) returns (j: nat)
    requires ClockNeverGoesBack(h) && n <= |h| && k in Retained(config, h[..n])
    ensures LatestOpening(config, h, n, k, j)
    decreases n
  {
    var i := n - 1;
    CalledWhenTracked(config, h, n, k);
    if k !in Retained(config, h[..i]) {
      UntrackedIsLatest(config, h, i);
      j := i;
    } else {
      var before := FindOpening(config, h, i, k);
      if h[i].key == k {
        OpensByLatest(config, h, i, before);
      }
      if h[i].key == k && h[i].now - h[before].now >= config.windowSeconds {
        LatestOpeningMoves(config, h, i, before);
        j := i;
      } else {
        LatestOpeningStays(config, h, i, k, before);
        j := before;
      }
    }
  }

  /** The windows opened before the latest one are over. */
  lemma EarlierOpeningsAreOver(config: Config, h: seq<Call>, j: nat, latest: nat, i: nat)
    requires ClockNeverGoesBack(h) && i < |h| && j < latest < i
    requires h[j].key == h[i].key && Opens(config, h, j) && StaysTracked(config, h, j, i)
    requires LatestOpening(config, h, i, h[i].key, latest)
    ensures h[i].now - h[j].now >= config.windowSeconds
  {
    assert StaysTracked(config, h, j, latest);
    assert h[latest].now - h[j].now >= config.windowSeconds;
  }

  /** With the key tracked, the call falls in the latest window, or in its own if that one is over. */
  lemma TrackedWindow(config: Config, h: seq<Call>, i: nat, latest: nat, j: nat)
    requires ClockNeverGoesBack(h) && j <= i < |h| && LatestOpening(config, h, i, h[i].key, latest)
    ensures InWindowOf(config, h, j, i) <==>
              j == if h[i].now - h[latest].now >= config.windowSeconds then i else latest
  {
    OpensByLatest(config, h, i, latest);
    if j < latest && InWindowOf(config, h, j, i) {
      EarlierOpeningsAreOver(config, h, j, latest, i);
    }
  }

  /** Every call falls in exactly one window; its count there decides. */
  lemma FindWindow(config: Config, h: seq<Call>, i: nat) returns (own: nat)
    requires ClockNeverGoesBack(h) && i < |h|
    ensures own <= i && forall j :: 0 <= j <= i ==> (InWindowOf(config, h, j, i) <==> j == own)
    ensures Admits(config, h[..i], h[i]) <==> CallsBetween(h, h[i].key, own, i + 1) <= config.maxRequests
  {
    if h[i].key in Retained(config, h[..i]) {
      var latest := FindOpening(config, h, i, h[i].key);
      own := if h[i].now - h[latest].now >= config.windowSeconds then i else latest;
      forall j | 0 <= j <= i ensures InWindowOf(config, h, j, i) <==> j == own {
        TrackedWindow(config, h, i, latest, j);
      }
    } else {
      UntrackedOpens(config, h, i);
      own := i;
    }
  }

  /** The fixed window itself: every call falls in exactly one window, and is admitted exactly when the calls
  for its key from that window's opening on, itself included, are within the limit. */
  lemma AdmittedExactly(config: Config, h: seq<Call>, i: nat)
    requires ClockNeverGoesBack(h) && i < |h|
    ensures exists j :: 0 <= j <= i && InWindowOf(config, h, j, i)
    ensures forall j :: 0 <= j <= i && InWindowOf(config, h, j, i) ==>
              (Admits(config, h[..i], h[i]) <==> CallsBetween(h, h[i].key, j, i + 1) <= config.maxRequests)
  {
    var own := FindWindow(config, h, i);
    assert InWindowOf(config, h, own, i);
  }

  // ---------------------------------------------------------------------------------------------
  // Sliding intervals
  // ---------------------------------------------------------------------------------------------

  /** How many calls for `k` have a time in `(after, upTo]`. */
  function CallsIn(h: seq<Call>, k: string, after: real, upTo: real): nat {
    if h == [] then 0 else
      var last := h[|h| - 1];
      CallsIn(h[..|h| - 1], k, after, upTo) + if last.key == k && after < last.now <= upTo then 1 else 0
  }

  lemma {:induction false} BetweenIn(h: seq<Call>, k: string, j: nat, n: nat, after: real, upTo: real)
    requires j <= n <= |h| && forall m :: j <= m < n ==> after < h[m].now <= upTo
    ensures CallsBetween(h, k, j, n) <= CallsIn(h[..n], k, after, upTo)
    decreases n
  {
    if j < n {
      BetweenIn(h, k, j, n - 1, after, upTo);
      assert h[..n][..n - 1] == h[..n - 1];
    }
  }

  /** Fairness: a call is refused only if as many calls for its key as the limit allows, admitted or not, came
  within the window before it. */
  lemma RefusedOnlyWhenFull(config: Config, h: seq<Call>, i: nat)
    requires ClockNeverGoesBack(h) && i < |h| && !Admits(config, h[..i], h[i])
    ensures CallsIn(h[..i], h[i].key, h[i].now - config.windowSeconds, h[i].now) >= config.maxRequests
  {
    var j := FindWindow(config, h, i);
    if j < i {
      assert InWindowOf(config, h, j, i);
      BetweenIn(h, h[i].key, j, i, h[i].now - config.windowSeconds, h[i].now);
    }
  }

  /** How many calls for `k` with a time in `[from, until)` the limiter admitted. */
  function AdmittedIn(config: Config, h: seq<Call>, k: string, from: real, until: real): nat {
    if h == [] then 0 else
      var before, last := h[..|h| - 1], h[|h| - 1];
      AdmittedIn(config, before, k, from, until)
      + if last.key == k && from <= last.now < until && Admits(config, before, last) then 1 else 0
  }

  function AtLeastZero(n: int): (m: nat)
    ensures m >= n && (m > 0 ==> m == n)
  {
    if n < 0 then 0 else n
  }

  function Min(a: nat, b: nat): nat { if a < b then a else b }

  lemma {:induction false} NothingBefore(config: Config, h: seq<Call>, k: string, from: real)
    requires forall i :: 0 <= i < |h| ==> h[i].now < from
    ensures AdmittedIn(config, h, k, from, from + config.windowSeconds) == 0
  {
    if h != [] {
      NothingBefore(config, h[..|h| - 1], k, from);
    }
  }

  /** How many calls the interval can have admitted by the time the current window has this count. Before
  the interval only the straddling window counts, and not its first call; inside it at most one more window
  begins, and that one outlasts the interval. */
  predicate Budget(config: Config, admitted: nat, w: Option<Window>, from: real) {
    var m := AtLeastZero(config.maxRequests);
    match w
    case None => admitted == 0
    case Some(window) =>
      && window.count > 0
      && admitted <= if window.start < from then AtLeastZero(Min(window.count, m) - 1)
                     else if window.start < from + config.windowSeconds then AtLeastZero(m - 1) + Min(window.count, m)
                     else AtLeastZero(2 * m - 1)
  }

  lemma BudgetStep(config: Config, admitted: nat, w: Option<Window>, from: real, now: real)
    requires Budget(config, admitted, w, from) && (w.Some? ==> w.value.start <= now)
    requires now < from ==> admitted == 0
    ensures var next := Touch(w, now, config.windowSeconds);
            var hit := if from <= now < from + config.windowSeconds && next.count <= config.maxRequests then 1 else 0;
            Budget(config, admitted + hit, Some(next), from)
  {
  }

  lemma {:induction false} SlidingInvariant(config: Config, h: seq<Call>, k: string, from: real)
    requires ClockNeverGoesBack(h) && Spaced(config, h, k)
    ensures var admitted := AdmittedIn(config, h, k, from, from + config.windowSeconds);
            var w := UncappedWindow(config, h, k);
            && (w.Some? ==> exists i :: 0 <= i < |h| && w.value.start == h[i].now)
            && Budget(config, admitted, w, from)
  {
    if h != [] {
      var before, last := h[..|h| - 1], h[|h| - 1];
      SpacedPrefix(config, h, k, |before|);
      SlidingInvariant(config, before, k, from);
      if last.now < from {
        NothingBefore(config, before, k, from);
      }
      if last.key == k {
        SpacedAnswersAgree(config, h, k, |before|);
      }
      assert forall i :: 0 <= i < |before| ==> before[i] == h[i] && h[i].now <= last.now;
      assert h[|before|].now == last.now;
      if last.key == k {
        var admitted := AdmittedIn(config, before, k, from, from + config.windowSeconds);
        BudgetStep(config, admitted, UncappedWindow(config, before, k), from, last.now);
      }
    }
  }

  /** Any half-open interval of one window length admits fewer than twice the limit for a key whose
  calls are never far enough apart to be evicted. */
  lemma SlidingBound(config: Config, h: seq<Call>, k: string, from: real)
    requires ClockNeverGoesBack(h) && Spaced(config, h, k)
    ensures AdmittedIn(config, h, k, from, from + config.windowSeconds) <= AtLeastZero(2 * config.maxRequests - 1)
  {
    SlidingInvariant(config, h, k, from);
  }
}
