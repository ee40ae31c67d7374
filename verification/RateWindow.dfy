/**
 * Sliding windows over an unbounded admission log, the reference for both rate
 * limiters, and the local limiter over many keys with its eviction of keys.
 */
module RateWindow {
  import opened Prelude

  type Key = string

  const MAX_KEYS := 50_000
  const KEYS_AFTER_EVICTION := 45_000

  /** The readings later than the cutoff, in order. */
  function Later(log: seq<Time>, cutoff: Time): seq<Time> {
    if log == [] then [] else (if log[0] > cutoff then [log[0]] else []) + Later(log[1..], cutoff)
  }

  /** How many readings fall into the half-open interval (lo, hi]. */
  function Count(log: seq<Time>, lo: Time, hi: Time): nat {
    if log == [] then 0 else (if lo < log[0] <= hi then 1 else 0) + Count(log[1..], lo, hi)
  }

  /** How many fall into the window that ends at t. */
  function InWindow(log: seq<Time>, t: Time, window: Time): nat {
    Count(log, t - window, t)
  }

  /** No interval of length `window` holds more than `limit` entries. */
  ghost predicate WithinLimit(log: seq<Time>, limit: int, window: Time) {
    forall t :: InWindow(log, t, window) <= limit
  }

  lemma {:induction false} LaterAppend(a: seq<Time>, b: seq<Time>, cutoff: Time)
    ensures Later(a + b, cutoff) == Later(a, cutoff) + Later(b, cutoff)
  {
    if a == [] {
      assert a + b == b;
    } else {
      assert (a + b)[1..] == a[1..] + b;
      LaterAppend(a[1..], b, cutoff);
    }
  }

  lemma {:induction false} LaterTwice(log: seq<Time>, c1: Time, c2: Time)
    requires c1 <= c2
    ensures Later(Later(log, c1), c2) == Later(log, c2)
  {
    if log != [] {
      LaterTwice(log[1..], c1, c2);
      LaterAppend(if log[0] > c1 then [log[0]] else [], Later(log[1..], c1), c2);
    }
  }

  lemma {:induction false} LaterShorter(log: seq<Time>, cutoff: Time)
    ensures |Later(log, cutoff)| <= |log|
  {
    if log == [] {
    } else {
      LaterShorter(log[1..], cutoff);
    }
  }

  lemma LaterFewer(log: seq<Time>, c1: Time, c2: Time)
    requires c1 <= c2
    ensures |Later(log, c2)| <= |Later(log, c1)|
  {
    LaterTwice(log, c1, c2);
    LaterShorter(Later(log, c1), c2);
  }

  /** Pruning at any cutoff leaves no more to see from any other. */
  lemma PruningShowsNoMore(log: seq<Time>, c1: Time, c2: Time)
    ensures |Later(Later(log, c1), c2)| <= |Later(log, c2)|
  {
    if c1 <= c2 {
      LaterTwice(log, c1, c2);
    } else {
      LaterShorter(Later(log, c1), c2);
      LaterFewer(log, c2, c1);
    }
  }

  /** The readings left are those later than the cutoff, each as often as before. */
  lemma {:induction false} LaterMeans(log: seq<Time>, cutoff: Time)
    ensures forall x :: multiset(Later(log, cutoff))[x] == if x > cutoff then multiset(log)[x] else 0
    ensures forall x :: x in Later(log, cutoff) <==> x in log && x > cutoff
  {
    if log == [] {
    } else {
      LaterMeans(log[1..], cutoff);
      assert log == [log[0]] + log[1..];
    }
  }

  lemma {:induction false} CountAppend(a: seq<Time>, x: Time, lo: Time, hi: Time)
    ensures Count(a + [x], lo, hi) == Count(a, lo, hi) + if lo < x <= hi then 1 else 0
  {
    if a == [] {
      assert a + [x] == [x];
    } else {
      assert (a + [x])[1..] == a[1..] + [x];
      CountAppend(a[1..], x, lo, hi);
    }
  }

  lemma {:induction false} CountAtMostLater(log: seq<Time>, lo: Time, hi: Time, cutoff: Time)
    requires cutoff <= lo
    ensures Count(log, lo, hi) <= |Later(log, cutoff)|
  {
    if log != [] {
      CountAtMostLater(log[1..], lo, hi, cutoff);
    }
  }

  lemma {:induction false} CountNarrower(log: seq<Time>, lo1: Time, lo2: Time, hi: Time)
    requires lo1 <= lo2
    ensures Count(log, lo2, hi) <= Count(log, lo1, hi)
  {
    if log == [] {
    } else {
      CountNarrower(log[1..], lo1, lo2, hi);
    }
  }

  /** Admitting when fewer than `limit` entries are later than now - window never overfills any interval. */
  lemma AdmitWithinLimit(log: seq<Time>, now: Time, limit: int, window: Time)
    requires WithinLimit(log, limit, window) && |Later(log, now - window)| < limit
    ensures WithinLimit(log + [now], limit, window)
  {
    forall t ensures InWindow(log + [now], t, window) <= limit {
      CountAppend(log, now, t - window, t);
      assert InWindow(log, t, window) <= limit;
      if now <= t {
        CountAtMostLater(log, t - window, t, now - window);
      }
    }
  }

  // ---- The local limiter

  /** What one call leaves in the list of its key, and its answer. */
  function Decide(items: seq<Time>, now: Time, limit: int, window: Time): (seq<Time>, bool) {
    var kept := Later(items, now - window);
    if |kept| >= limit then (kept, false) else (kept + [now], true)
  }

  /** A call leaves exactly the live readings, and its own if fewer than `limit` are live. */
  lemma DecideLaw(items: seq<Time>, now: Time, limit: int, window: Time)
    requires window > 0
    ensures var (items', ok) := Decide(items, now, limit, window);
      && (forall x :: x in items' <==> (x in items && x > now - window) || (ok && x == now))
      && |items'| == |Later(items, now - window)| + (if ok then 1 else 0)
      && (ok <==> |Later(items, now - window)| < limit)
  {
    LaterMeans(items, now - window);
    hide Later;
  }

  /** The pruned list and the whole log keep showing the same from a cutoff that is not below this call's. */
  lemma DecideShows(items: seq<Time>, log: seq<Time>, now: Time, limit: int, window: Time, cutoff: Time)
    requires now - window <= cutoff && Later(items, cutoff) == Later(log, cutoff)
    ensures var (items', ok) := Decide(items, now, limit, window);
      Later(items', cutoff) == Later(if ok then log + [now] else log, cutoff)
  {
    LaterTwice(items, now - window, cutoff);
    LaterAppend(Later(items, now - window), [now], cutoff);
    LaterAppend(log, [now], cutoff);
    hide Later;
  }

  /** From any cutoff whatsoever the pruned list goes on showing no more than the log. */
  lemma DecideShowsNoMore(items: seq<Time>, log: seq<Time>, now: Time, limit: int, window: Time, cutoff: Time)
    requires |Later(items, cutoff)| <= |Later(log, cutoff)|
    ensures var (items', ok) := Decide(items, now, limit, window);
      |Later(items', cutoff)| <= |Later(if ok then log + [now] else log, cutoff)|
  {
    PruningShowsNoMore(items, now - window, cutoff);
    LaterAppend(Later(items, now - window), [now], cutoff);
    LaterAppend(log, [now], cutoff);
    hide Later;
  }

  /** `evicted` are the keys that the size cap makes this call drop, an arbitrary choice. */
  datatype Call = Call(key: Key, now: Time, limit: int, window: Time, evicted: set<Key>)

  type Store = map<Key, seq<Time>>

  function ItemsOf(store: Store, key: Key): seq<Time> {
    if key in store then store[key] else []
  }

  function Answer(store: Store, call: Call): bool {
    Decide(ItemsOf(store, call.key), call.now, call.limit, call.window).1
  }

  function Filed(store: Store, call: Call): Store {
    store[call.key := Decide(ItemsOf(store, call.key), call.now, call.limit, call.window).0]
  }

  function After(store: Store, call: Call): Store {
    Filed(store, call) - call.evicted
  }

  /** Keys go only after an admission that left more than the cap, down to the lower mark and no further. */
  predicate EvictionOk(store: Store, call: Call) {
    var filed := Filed(store, call);
    if Answer(store, call) && |filed| > MAX_KEYS
    then call.evicted <= filed.Keys && |After(store, call)| == KEYS_AFTER_EVICTION
    else call.evicted == {}
  }

  /** Keys are evicted only beyond 50000 of them, by an admission, and down to 45000. */
  lemma EvictionLaw(store: Store, call: Call)
    requires EvictionOk(store, call)
    ensures Answer(store, call) && |Filed(store, call)| > 50_000 ==> |After(store, call)| == 45_000
    ensures !Answer(store, call) || |Filed(store, call)| <= 50_000 ==> After(store, call) == Filed(store, call)
  {
    hide Filed, Answer;
    assert Filed(store, call) - {} == Filed(store, call);
  }

  ghost predicate StepAt(stores: seq<Store>, calls: seq<Call>, i: nat)
    requires i < |calls| < |stores|
  {
    calls[i].limit >= 1 && EvictionOk(stores[i], calls[i]) && stores[i + 1] == After(stores[i], calls[i])
  }

  /**
   * A run of the local limiter in lock order. The clock is read before the
   * lock is taken, so the readings need not be in this order.
   */
  ghost predicate IsRun(stores: seq<Store>, calls: seq<Call>) {
    |stores| == |calls| + 1 && stores[0] == map[] && forall i: nat :: i < |calls| ==> StepAt(stores, calls, i)
  }

  /** Every admission of the key in the first n calls. */
  ghost function Admissions(stores: seq<Store>, calls: seq<Call>, key: Key, n: nat): seq<Time>
    requires n <= |calls| <= |stores|
  {
    if n == 0 then []
    else
      Admissions(stores, calls, key, n - 1)
      + if calls[n - 1].key == key && Answer(stores[n - 1], calls[n - 1]) then [calls[n - 1].now] else []
  }

  /** The key is always checked with this limit and window and is not among the evicted. */
  ghost predicate SteadyKey(calls: seq<Call>, key: Key, limit: int, window: Time, n: nat)
    requires n <= |calls|
  {
    forall i :: 0 <= i < n ==>
      key !in calls[i].evicted && (calls[i].key == key ==> calls[i].limit == limit && calls[i].window == window)
  }

  /** The key is always checked with this limit and window; it may be evicted. */
  ghost predicate SteadyLimits(calls: seq<Call>, key: Key, limit: int, window: Time, n: nat)
    requires n <= |calls|
  {
    forall i :: 0 <= i < n && calls[i].key == key ==> calls[i].limit == limit && calls[i].window == window
  }

  /** The cutoff is not below that of any of the first n calls of the key. */
  ghost predicate Covered(calls: seq<Call>, key: Key, window: Time, n: nat, cutoff: Time)
    requires n <= |calls|
  {
    forall i :: 0 <= i < n && calls[i].key == key ==> calls[i].now - window <= cutoff
  }

  /** From any cutoff that covers the calls so far, the pruned list shows what the whole log shows. */
  lemma {:induction false} ListShowsLog(stores: seq<Store>, calls: seq<Call>, key: Key, limit: int, window: Time,
                                        n: nat, cutoff: Time)
    requires IsRun(stores, calls) && n <= |calls| && SteadyKey(calls, key, limit, window, n)
    requires Covered(calls, key, window, n, cutoff)
    ensures Later(ItemsOf(stores[n], key), cutoff) == Later(Admissions(stores, calls, key, n), cutoff)
  {
    hide Later, Decide, EvictionOk;
    if n > 0 {
      var store, call, log := stores[n - 1], calls[n - 1], Admissions(stores, calls, key, n - 1);
      assert StepAt(stores, calls, n - 1);
      ListShowsLog(stores, calls, key, limit, window, n - 1, cutoff);
      assert log + [] == log;
      if call.key == key {
        DecideShows(ItemsOf(store, key), log, call.now, limit, window, cutoff);
      }
    }
  }

  /** What one call leaves in the list of a key shows no more than what it leaves in the log. */
  lemma StepShowsNoMore(store: Store, call: Call, key: Key, log: seq<Time>, limit: int, window: Time, cutoff: Time)
    requires call.key == key ==> call.limit == limit && call.window == window
    requires |Later(ItemsOf(store, key), cutoff)| <= |Later(log, cutoff)|
    ensures var log' := log + if call.key == key && Answer(store, call) then [call.now] else [];
      |Later(ItemsOf(After(store, call), key), cutoff)| <= |Later(log', cutoff)|
  {
    assert Later([], cutoff) == [];
    hide Later, Decide;
    assert log + [] == log;
    if call.key == key {
      DecideShowsNoMore(ItemsOf(store, key), log, call.now, limit, window, cutoff);
    }
  }

  /** From any cutoff, and even when the key is evicted, the list shows no more than the log. */
  lemma {:induction false} ListShowsNoMore(stores: seq<Store>, calls: seq<Call>, key: Key, limit: int, window: Time,
                                           n: nat, cutoff: Time)
    requires IsRun(stores, calls) && n <= |calls| && SteadyLimits(calls, key, limit, window, n)
    ensures |Later(ItemsOf(stores[n], key), cutoff)| <= |Later(Admissions(stores, calls, key, n), cutoff)|
  {
    hide Later, Decide, EvictionOk, Answer, After;
    if n > 0 {
      assert StepAt(stores, calls, n - 1);
      ListShowsNoMore(stores, calls, key, limit, window, n - 1, cutoff);
      StepShowsNoMore(stores[n - 1], calls[n - 1], key, Admissions(stores, calls, key, n - 1), limit, window, cutoff);
    }
  }

  /** No reading of the key is more than `skew` behind an earlier one. */
  ghost predicate SkewAtMost(calls: seq<Call>, key: Key, skew: Time, n: nat)
    requires n <= |calls|
  {
    forall i, j :: 0 <= i < j < n && calls[i].key == key && calls[j].key == key ==>
      calls[i].now - skew <= calls[j].now
  }

  /** The whole log justifies every refusal, whatever the order of the readings and even if the key is evicted. */
  lemma RefusalsAreJustified(stores: seq<Store>, calls: seq<Call>, key: Key, limit: int, window: Time, n: nat)
    requires IsRun(stores, calls) && n < |calls| && calls[n].key == key
    requires SteadyLimits(calls, key, limit, window, n + 1)
    requires !Answer(stores[n], calls[n])
    ensures |Later(Admissions(stores, calls, key, n), calls[n].now - window)| >= limit
  {
    ListShowsNoMore(stores, calls, key, limit, window, n, calls[n].now - window);
    hide Later, EvictionOk, Admissions, IsRun, After, Filed;
  }

  /** An admission is justified by the log of a window that is shorter by the skew. */
  lemma AdmissionsAreJustified(stores: seq<Store>, calls: seq<Call>, key: Key, limit: int, window: Time, n: nat,
                               skew: Time)
    requires IsRun(stores, calls) && n < |calls| && calls[n].key == key && SteadyKey(calls, key, limit, window, n + 1)
    requires skew >= 0 && SkewAtMost(calls, key, skew, n + 1)
    requires Answer(stores[n], calls[n])
    ensures |Later(Admissions(stores, calls, key, n), calls[n].now - (window - skew))| < limit
  {
    var cutoff := calls[n].now - (window - skew);
    ListShowsLog(stores, calls, key, limit, window, n, cutoff);
    LaterFewer(ItemsOf(stores[n], key), calls[n].now - window, cutoff);
    hide Later, EvictionOk, Admissions, IsRun, After, Filed;
  }

  /** A call whose reading is not behind an earlier one of its key is decided exactly as if the whole log were kept. */
  lemma ExactSlidingWindow(stores: seq<Store>, calls: seq<Call>, key: Key, limit: int, window: Time, n: nat)
    requires IsRun(stores, calls) && n < |calls| && SteadyKey(calls, key, limit, window, n + 1) && calls[n].key == key
    requires Covered(calls, key, window, n, calls[n].now - window)
    ensures Answer(stores[n], calls[n]) <==> |Later(Admissions(stores, calls, key, n), calls[n].now - window)| < limit
  {
    ListShowsLog(stores, calls, key, limit, window, n, calls[n].now - window);
    hide Later, EvictionOk, Admissions, IsRun, After, Filed;
  }

  /** No interval that is shorter than the window by the skew ever holds more than `limit` admissions of the key. */
  lemma {:induction false} AdmissionsWithinLimit(stores: seq<Store>, calls: seq<Call>, key: Key, limit: int,
                                                 window: Time, n: nat, skew: Time)
    requires IsRun(stores, calls) && n <= |calls| && SteadyKey(calls, key, limit, window, n) && limit >= 0
    requires skew >= 0 && SkewAtMost(calls, key, skew, n)
    ensures WithinLimit(Admissions(stores, calls, key, n), limit, window - skew)
  {
    hide Answer, WithinLimit;
    if n == 0 {
      NothingWithinLimit(limit, window - skew);
    } else {
      var log := Admissions(stores, calls, key, n - 1);
      AdmissionsWithinLimit(stores, calls, key, limit, window, n - 1, skew);
      assert log + [] == log;
      if calls[n - 1].key == key && Answer(stores[n - 1], calls[n - 1]) {
        AdmissionsAreJustified(stores, calls, key, limit, window, n - 1, skew);
        AdmitWithinLimit(log, calls[n - 1].now, limit, window - skew);
      }
    }
  }

  lemma NothingWithinLimit(limit: int, window: Time)
    requires limit >= 0
    ensures WithinLimit([], limit, window)
  {
  }

  /** A refusal never adds a key, so the table stays within its cap after every call. */
  lemma {:induction false} KeysBounded(stores: seq<Store>, calls: seq<Call>, n: nat)
    requires IsRun(stores, calls) && n <= |calls|
    ensures |stores[n]| <= 50_000
  {
    if n > 0 {
      var store, call := stores[n - 1], calls[n - 1];
      assert StepAt(stores, calls, n - 1);
      KeysBounded(stores, calls, n - 1);
      if !Answer(store, call) {
        assert call.key in store;
        assert Filed(store, call).Keys == store.Keys;
      }
      assert Filed(store, call) - {} == Filed(store, call);
    }
  }

  // ---- The shorter interval cannot be lengthened

  /** In every run with this skew no interval of this length holds more than the limit. */
  ghost predicate HoldsFor(limit: int, window: Time, skew: Time, length: Time) {
    forall stores, calls, key, n: nat ::
      && IsRun(stores, calls) && n <= |calls| && SteadyKey(calls, key, limit, window, n)
      && SkewAtMost(calls, key, skew, n) ==>
        WithinLimit(Admissions(stores, calls, key, n), limit, length)
  }

  const KEY: Key := "k"

  function Zeros(n: nat): seq<Time> {
    if n == 0 then [] else Zeros(n - 1) + [0]
  }

  lemma {:induction false} ZerosLater(n: nat, cutoff: Time)
    ensures |Zeros(n)| == n && Later(Zeros(n), cutoff) == if cutoff < 0 then Zeros(n) else []
  {
    if n > 0 {
      ZerosLater(n - 1, cutoff);
      LaterAppend(Zeros(n - 1), [0], cutoff);
    }
  }

  lemma {:induction false} ZerosCount(n: nat, lo: Time, hi: Time)
    requires lo < 0 <= hi
    ensures Count(Zeros(n), lo, hi) == n
  {
    if n > 0 {
      ZerosCount(n - 1, lo, hi);
      CountAppend(Zeros(n - 1), 0, lo, hi);
    }
  }

  /** `limit` calls at 0, one a window later, and one that is `skew` behind that. */
  function SkewedCalls(limit: nat, window: Time, skew: Time): seq<Call> {
    seq(limit + 2, i =>
      Call(KEY, if i < limit then 0 else if i == limit then window else window - skew, limit, window, {}))
  }

  function SkewedStores(limit: nat, window: Time, skew: Time): seq<Store> {
    seq(limit + 3, i requires 0 <= i =>
      if i == 0 then map[] else
        map[KEY := if i <= limit then Zeros(i) else if i == limit + 1 then [window] else [window, window - skew]])
  }

  lemma SkewedStep(limit: nat, window: Time, skew: Time, i: nat)
    requires limit >= 2 && 0 <= skew <= window && window > 0 && i < limit + 2
    ensures var stores, calls := SkewedStores(limit, window, skew), SkewedCalls(limit, window, skew);
      StepAt(stores, calls, i) && Answer(stores[i], calls[i])
  {
    var stores, calls := SkewedStores(limit, window, skew), SkewedCalls(limit, window, skew);
    var items := if i <= limit then Zeros(i) else [window];
    var items' := if i < limit then Zeros(i + 1) else if i == limit then [window] else [window, window - skew];
    assert ItemsOf(stores[i], KEY) == items && stores[i + 1] == map[KEY := items'];
    assert stores[i] == map[] || stores[i] == map[KEY := items];
    SkewedDecision(limit, window, skew, i);
    OneKeyStep(stores[i], calls[i], items');
  }

  lemma SkewedDecision(limit: nat, window: Time, skew: Time, i: nat)
    requires limit >= 2 && 0 <= skew <= window && window > 0 && i < limit + 2
    ensures var now := if i < limit then 0 else if i == limit then window else window - skew;
      var items' := if i < limit then Zeros(i + 1) else if i == limit then [window] else [window, window - skew];
      Decide(if i <= limit then Zeros(i) else [window], now, limit, window) == (items', true)
  {
    if i < limit {
      ZerosLater(i, 0 - window);
    } else if i == limit {
      ZerosLater(limit, window - window);
      assert [] + [window] == [window];
    } else {
      assert (window - skew) - window == -skew;
      assert Later([window], -skew) == [window];
      assert [window] + [window - skew] == [window, window - skew];
    }
  }

  lemma OneKeyStep(store: Store, call: Call, items: seq<Time>)
    requires store.Keys <= {call.key} && call.evicted == {} && call.limit >= 1
    requires Decide(ItemsOf(store, call.key), call.now, call.limit, call.window) == (items, true)
    ensures Answer(store, call) && EvictionOk(store, call) && After(store, call) == map[call.key := items]
  {
    hide Decide;
    var filed := Filed(store, call);
    assert filed == map[call.key := items] && filed - {} == filed;
    assert |filed| == |filed.Keys| && filed.Keys == {call.key};
  }

  lemma {:induction false} SkewedAdmissions(limit: nat, window: Time, skew: Time, n: nat)
    requires limit >= 2 && 0 <= skew <= window && window > 0 && n <= limit + 2
    ensures Admissions(SkewedStores(limit, window, skew), SkewedCalls(limit, window, skew), KEY, n)
      == if n <= limit then Zeros(n)
         else if n == limit + 1 then Zeros(limit) + [window] else Zeros(limit) + [window] + [window - skew]
  {
    hide Answer, StepAt;
    if n > 0 {
      SkewedAdmissions(limit, window, skew, n - 1);
      SkewedStep(limit, window, skew, n - 1);
    }
  }

  lemma SkewedRun(limit: nat, window: Time, skew: Time)
    requires limit >= 2 && 0 <= skew <= window && window > 0
    ensures var stores, calls := SkewedStores(limit, window, skew), SkewedCalls(limit, window, skew);
      && IsRun(stores, calls) && SteadyKey(calls, KEY, limit, window, limit + 2)
      && SkewAtMost(calls, KEY, skew, limit + 2)
  {
    hide StepAt;
    forall i: nat | i < limit + 2
      ensures StepAt(SkewedStores(limit, window, skew), SkewedCalls(limit, window, skew), i)
    {
      SkewedStep(limit, window, skew, i);
    }
  }

  /** With a limit of at least 2 the bound holds for a length exactly when it is shorter than the window by the skew. */
  lemma SkewBoundIff(limit: int, window: Time, skew: Time, length: Time)
    requires limit >= 2 && 0 <= skew <= window && window > 0
    ensures HoldsFor(limit, window, skew, length) <==> length <= window - skew
  {
    hide StepAt, SteadyKey, SkewAtMost, WithinLimit, SkewedStores, SkewedCalls;
    if length <= window - skew {
      forall stores, calls, key, n: nat |
        && IsRun(stores, calls) && n <= |calls| && SteadyKey(calls, key, limit, window, n)
        && SkewAtMost(calls, key, skew, n)
        ensures WithinLimit(Admissions(stores, calls, key, n), limit, length)
      {
        AdmissionsWithinLimit(stores, calls, key, limit, window, n, skew);
        WithinShorter(Admissions(stores, calls, key, n), limit, window - skew, length);
      }
    } else {
      var stores, calls := SkewedStores(limit, window, skew), SkewedCalls(limit, window, skew);
      SkewedRun(limit, window, skew);
      SkewedAdmissions(limit, window, skew, limit + 2);
      SkewedOverfills(limit, window, skew, length);
      assert |calls| == limit + 2 by { SkewedSize(limit, window, skew); }
      assert !WithinLimit(Admissions(stores, calls, KEY, limit + 2), limit, length);
    }
  }

  lemma SkewedSize(limit: nat, window: Time, skew: Time)
    ensures |SkewedCalls(limit, window, skew)| == limit + 2
    ensures |SkewedStores(limit, window, skew)| == limit + 3
  {
  }

  lemma WithinShorter(log: seq<Time>, limit: int, long: Time, short: Time)
    requires WithinLimit(log, limit, long) && short <= long
    ensures WithinLimit(log, limit, short)
  {
    forall t ensures InWindow(log, t, short) <= limit {
      assert InWindow(log, t, long) <= limit;
      CountNarrower(log, t - long, t - short, t);
    }
  }

  lemma SkewedOverfills(limit: nat, window: Time, skew: Time, length: Time)
    requires 0 <= skew <= window && window > 0 && length > window - skew
    ensures !WithinLimit(Zeros(limit) + [window] + [window - skew], limit, length)
  {
    var t := window - skew;
    CountAppend(Zeros(limit) + [window], t, t - length, t);
    CountAppend(Zeros(limit), window, t - length, t);
    ZerosCount(limit, t - length, t);
    assert InWindow(Zeros(limit) + [window] + [t], t, length) > limit;
  }
}
