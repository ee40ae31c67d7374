/**
 * Concurrent calls of Check on one key: each passes or skips Redis by the
 * circuit breaker, may fail before or after the script ran, and then falls
 * back to the local limiter. A script may run more than once, because the
 * client library sends it again, and may run when its caller has given up on
 * it. Steps of different calls interleave freely.
 */
module CheckRuns {
  import opened Prelude
  import opened RateWindow
  import opened RedisScript

  /**
   * `redis` is false when no client is configured; `threshold` is at least 1.
   * A script runs at most `lag` after its caller's reading, and no reading is
   * more than `skew` behind one that the same store has seen.
   */
  datatype Settings = Settings(
    redis: bool, threshold: int, openFor: Time, limit: int, window: Time, lag: Time, skew: Time)
  {
    predicate Valid() { threshold >= 1 && openFor > 0 && limit >= 1 && lag >= 0 && 0 <= skew < window }

    /** The window less the skew: the length of the intervals that are bounded. */
    function Span(): Time { window - skew }

    /** The key outlives the span by the delay of any script. */
    predicate Covered() { lag <= TimeToLive(window) - Span() }
  }

  /** A call that Replied has run the script but its caller has not seen the reply. */
  datatype Phase = Asking | Replied(now: Time, ok: bool) | Falling | Done(at: Time, ok: bool)

  /**
   * `sent` are the calls whose script was sent to Redis, with the readings
   * that it carries. The last fields of each store are history: what it
   * admitted, its latest reading, and when Redis last ran a script.
   */
  datatype State = State(
    calls: map<Member, Phase>, sent: map<Member, Time>, failures: int, until: Option<Time>,
    z: SortedSet, redisLog: seq<Tick>, redisMax: Time, served: Time,
    items: seq<Time>, localLog: seq<Tick>, localMax: Time)

  /** The second time of Begin is the reading that a script would carry. */
  datatype Action =
    | Begin(id: Member, t: Time, now: Time)
    | Eval(id: Member, served: Time)
    | Reply(id: Member)
    | Fail(id: Member, t: Time)
    | Fallback(id: Member, now: Time)
    | Ping(ok: bool, t: Time)

  predicate CircuitOpen(s: State, t: Time) {
    s.until.Some? && t < s.until.value
  }

  function MarkSuccess(s: State): State {
    s.(failures := 0, until := None)
  }

  function MarkFailure(cfg: Settings, s: State, t: Time): State {
    var s1 := s.(failures := s.failures + 1);
    if s1.failures >= cfg.threshold then s1.(until := Some(t + cfg.openFor)) else s1
  }

  function Latest(a: Time, b: Time): Time {
    if a >= b then a else b
  }

  /** A ping may end at any time: it may have begun before the breaker opened. */
  predicate Enabled(cfg: Settings, s: State, a: Action) {
    match a
    case Begin(id, t, now) => id !in s.calls
    case Eval(id, served) =>
      && id in s.sent && s.served <= served && s.sent[id] <= served <= s.sent[id] + cfg.lag
      && s.redisMax - cfg.skew <= s.sent[id]
    case Reply(id) => id in s.calls && s.calls[id].Replied?
    case Fail(id, t) => id in s.calls && (s.calls[id] == Asking || s.calls[id].Replied?)
    case Fallback(id, now) => id in s.calls && s.calls[id] == Falling && s.localMax - cfg.skew <= now
    case Ping(ok, t) => cfg.redis
  }

  function Next(cfg: Settings, s: State, a: Action): State
    requires Enabled(cfg, s, a)
  {
    match a
    case Begin(id, t, now) =>
      if cfg.redis && !CircuitOpen(s, t)
      then s.(calls := s.calls[id := Asking], sent := s.sent[id := now])
      else s.(calls := s.calls[id := Falling])
    case Eval(id, served) =>
      var tick := Tick(id, s.sent[id], served);
      var (z, ok) := RunScript(s.z, tick, cfg.limit, cfg.window);
      var heard := id in s.calls && (s.calls[id] == Asking || s.calls[id].Replied?);
      s.(calls := if heard then s.calls[id := Replied(tick.now, ok)] else s.calls,
         z := z, redisLog := Logged(s.redisLog, tick, ok), redisMax := Latest(s.redisMax, tick.now), served := served)
    case Reply(id) =>
      MarkSuccess(s.(calls := s.calls[id := Done(s.calls[id].now, s.calls[id].ok)]))
    case Fail(id, t) =>
      MarkFailure(cfg, s.(calls := s.calls[id := Falling]), t)
    case Fallback(id, now) =>
      var (items, ok) := Decide(s.items, now, cfg.limit, cfg.window);
      var tick := Tick(id, now, now);
      s.(calls := s.calls[id := Done(now, ok)], items := items,
         localLog := if ok then s.localLog + [tick] else s.localLog, localMax := Latest(s.localMax, now))
    case Ping(ok, t) => if ok then MarkSuccess(s) else MarkFailure(cfg, s, t)
  }

  /** The state after the first step of a call, which reads the breaker. */
  function Begun(cfg: Settings, s: State, id: Member, asked: Time, now: Time): State
    requires id !in s.calls
  {
    Next(cfg, s, Begin(id, asked, now))
  }

  /** The state, as far as the breaker goes, after a call that got this reply if it asked Redis. */
  function BreakerAfter(cfg: Settings, s: State, id: Member, asked: Time, now: Time, reply: Option<bool>, failed: Time):
      State
    requires id !in s.calls
  {
    var s1 := Begun(cfg, s, id, asked, now);
    if s1.calls[id] != Asking then s1
    else if reply == None then Next(cfg, s1, Fail(id, failed))
    else Next(cfg, s1.(calls := s1.calls[id := Replied(now, reply.value)]), Reply(id))
  }

  function Start(t0: Time): State {
    State(map[], map[], 0, None, ABSENT, [], t0, t0, [], [], t0)
  }

  ghost predicate StepAt(cfg: Settings, ss: seq<State>, actions: seq<Action>, i: nat)
    requires i < |actions| < |ss|
  {
    Enabled(cfg, ss[i], actions[i]) && ss[i + 1] == Next(cfg, ss[i], actions[i])
  }

  ghost predicate IsRun(cfg: Settings, ss: seq<State>, actions: seq<Action>) {
    && cfg.Valid() && |ss| == |actions| + 1 && ss[0] == Start(ss[0].served)
    && forall i: nat :: i < |actions| ==> StepAt(cfg, ss, actions, i)
  }

  // ---- Invariants

  /** From here on the sorted set shows the whole log. */
  function RedisStart(cfg: Settings, s: State): Time {
    Latest(s.redisMax - cfg.window, s.served - TimeToLive(cfg.window))
  }

  /** Every entry of the log, and of the set, carries the reading of its call. */
  ghost predicate OwnReadings(s: State) {
    && (forall i :: 0 <= i < |s.redisLog| ==>
          s.redisLog[i].member in s.sent && s.redisLog[i].now == s.sent[s.redisLog[i].member])
    && (forall m :: m in s.z.scores ==> m in s.sent && s.z.scores[m] == s.sent[m])
  }

  ghost predicate RedisOk(cfg: Settings, s: State) {
    && Shows(s.z, s.redisLog, RedisStart(cfg, s)) && Timed(s.z, s.redisLog, s.served, cfg.window)
    && DistinctMembers(s.redisLog) && OwnReadings(s) && s.redisMax <= s.served
    && (cfg.Covered() ==> WithinLimit(Times(s.redisLog), cfg.limit, cfg.Span()))
  }

  ghost predicate LocalOk(cfg: Settings, s: State) {
    && LocalShows(s.items, s.localLog, s.localMax - cfg.window)
    && WithinLimit(Times(s.localLog), cfg.limit, cfg.Span())
  }

  /** Every admission is in the log of the store that granted it. */
  ghost predicate CallsOk(s: State) {
    && s.sent.Keys <= s.calls.Keys && (forall id :: id in s.calls && s.calls[id] == Asking ==> id in s.sent)
    && (forall id :: id in s.calls && s.calls[id].Replied? ==> id in s.sent && s.calls[id].now == s.sent[id])
    && (forall id :: id in s.calls && s.calls[id].Replied? && s.calls[id].ok ==>
          Has(s.redisLog, id, s.calls[id].now))
    && (forall id :: id in s.calls && s.calls[id].Done? && s.calls[id].ok ==>
          Has(s.redisLog, id, s.calls[id].at) || Has(s.localLog, id, s.calls[id].at))
  }

  ghost predicate BreakerOk(cfg: Settings, s: State) {
    s.failures >= 0 && (s.until.Some? <==> s.failures >= cfg.threshold)
  }

  ghost predicate StateOk(cfg: Settings, s: State) {
    RedisOk(cfg, s) && LocalOk(cfg, s) && CallsOk(s) && BreakerOk(cfg, s)
  }

  lemma StartOk(cfg: Settings, t0: Time)
    requires cfg.Valid()
    ensures StateOk(cfg, Start(t0))
  {
    assert Times([]) == [];
  }

  lemma OwnIsFreshOrHas(s: State, id: Member)
    requires OwnReadings(s) && id in s.sent
    ensures Fresh(id, s.redisLog) || Has(s.redisLog, id, s.sent[id])
  {
    if !Fresh(id, s.redisLog) {
      var i :| 0 <= i < |s.redisLog| && s.redisLog[i].member == id;
      assert s.redisLog[i].now == s.sent[id];
    }
  }

  lemma EvalKeeps(cfg: Settings, s: State, id: Member, served: Time)
    requires cfg.Valid() && RedisOk(cfg, s) && Enabled(cfg, s, Eval(id, served))
    ensures RedisOk(cfg, Next(cfg, s, Eval(id, served)))
  {
    hide RunScript, Shows, Timed, Later, Times, TimeToLive, WithinLimit, Fresh, Has;
    var tick := Tick(id, s.sent[id], served);
    var s' := Next(cfg, s, Eval(id, served));
    var ok := RunScript(s.z, tick, cfg.limit, cfg.window).1;
    OwnIsFreshOrHas(s, id);
    ScriptStep(s.z, s.redisLog, RedisStart(cfg, s), s.served, tick, cfg.limit, cfg.window, RedisStart(cfg, s'));
    LoggedIsDistinct(s.redisLog, tick, ok);
    EvalKeepsReadings(cfg, s, id, served);
    if cfg.Covered() && ok && Fresh(id, s.redisLog) {
      TimesAppend(s.redisLog, tick);
      AdmitWithinLimit(Times(s.redisLog), tick.now, cfg.limit, cfg.Span());
    }
  }

  lemma LoggedIsDistinct(log: seq<Tick>, tick: Tick, ok: bool)
    requires DistinctMembers(log)
    ensures DistinctMembers(Logged(log, tick, ok))
  {
  }

  lemma EvalKeepsReadings(cfg: Settings, s: State, id: Member, served: Time)
    requires OwnReadings(s) && Enabled(cfg, s, Eval(id, served))
    ensures OwnReadings(Next(cfg, s, Eval(id, served)))
  {
    hide TimeToLive;
  }

  lemma FallbackKeeps(cfg: Settings, s: State, id: Member, now: Time)
    requires cfg.Valid() && LocalOk(cfg, s) && Enabled(cfg, s, Fallback(id, now))
    ensures LocalOk(cfg, Next(cfg, s, Fallback(id, now)))
  {
    hide Decide, LocalShows, Later, Times, WithinLimit;
    var tick := Tick(id, now, now);
    LocalStep(s.items, s.localLog, s.localMax - cfg.window, tick, cfg.limit, cfg.window,
              Latest(s.localMax, now) - cfg.window);
    if Decide(s.items, now, cfg.limit, cfg.window).1 {
      TimesAppend(s.localLog, tick);
      AdmitWithinLimit(Times(s.localLog), now, cfg.limit, cfg.Span());
    }
  }

  lemma StepKeeps(cfg: Settings, s: State, a: Action)
    requires cfg.Valid() && StateOk(cfg, s) && Enabled(cfg, s, a)
    ensures StateOk(cfg, Next(cfg, s, a))
  {
    hide RunScript, Shows, Timed, LocalShows, WithinLimit, Decide, DistinctMembers, Times, Has, Fresh, TimeToLive;
    CallsStepKeeps(cfg, s, a);
    match a
    case Begin(id, t, now) => BeginKeeps(cfg, s, id, t, now);
    case Eval(id, served) => EvalKeeps(cfg, s, id, served);
    case Fallback(id, now) => FallbackKeeps(cfg, s, id, now);
    case _ =>
  }

  lemma BeginKeeps(cfg: Settings, s: State, id: Member, t: Time, now: Time)
    requires RedisOk(cfg, s) && CallsOk(s) && Enabled(cfg, s, Begin(id, t, now))
    ensures RedisOk(cfg, Next(cfg, s, Begin(id, t, now)))
  {
    hide Shows, Timed, WithinLimit, DistinctMembers, Times, Has, TimeToLive;
  }

  lemma HasStays(log: seq<Tick>, tick: Tick, ok: bool)
    ensures forall m, at :: Has(log, m, at) ==> Has(Logged(log, tick, ok), m, at) && Has(log + [tick], m, at)
    ensures Has(log + [tick], tick.member, tick.now)
  {
    forall m, at | Has(log, m, at) ensures Has(log + [tick], m, at) {
      var i :| 0 <= i < |log| && log[i].member == m && log[i].now == at;
      assert (log + [tick])[i] == log[i];
    }
    assert (log + [tick])[|log|] == tick;
  }

  lemma CallsStepKeeps(cfg: Settings, s: State, a: Action)
    requires OwnReadings(s) && CallsOk(s) && Enabled(cfg, s, a)
    ensures CallsOk(Next(cfg, s, a))
  {
    hide RunScript, Decide, Has, Fresh, OwnReadings;
    match a
    case Eval(id, served) =>
      var tick := Tick(id, s.sent[id], served);
      OwnIsFreshOrHas(s, id);
      HasStays(s.redisLog, tick, RunScript(s.z, tick, cfg.limit, cfg.window).1);
    case Fallback(id, now) => HasStays(s.localLog, Tick(id, now, now), true);
    case _ =>
  }

  lemma {:induction false} EveryStateOk(cfg: Settings, ss: seq<State>, actions: seq<Action>, n: nat)
    requires IsRun(cfg, ss, actions) && n < |ss|
    ensures StateOk(cfg, ss[n])
  {
    hide StateOk;
    if n == 0 {
      StartOk(cfg, ss[0].served);
    } else {
      assert StepAt(cfg, ss, actions, n - 1);
      EveryStateOk(cfg, ss, actions, n - 1);
      StepKeeps(cfg, ss[n - 1], actions[n - 1]);
    }
  }

  /** A skew of at least the delay asks nothing of the order of the readings at Redis: the delay bounds it. */
  lemma DelayBoundsSkew(cfg: Settings, ss: seq<State>, actions: seq<Action>, n: nat, id: Member, served: Time)
    requires IsRun(cfg, ss, actions) && n < |ss| && cfg.lag <= cfg.skew
    requires id in ss[n].sent && ss[n].served <= served && ss[n].sent[id] <= served <= ss[n].sent[id] + cfg.lag
    ensures Enabled(cfg, ss[n], Eval(id, served))
  {
    EveryStateOk(cfg, ss, actions, n);
  }

  // ---- The combined bound

  /** The members of a log with a reading in the window that ends at t. */
  function InLog(log: seq<Tick>, t: Time, window: Time): set<Member> {
    set tick | tick in log && t - window < tick.now <= t :: tick.member
  }

  lemma {:induction false} InLogBound(log: seq<Tick>, t: Time, window: Time)
    ensures |InLog(log, t, window)| <= InWindow(Times(log), t, window)
  {
    if log == [] {
      assert InLog(log, t, window) == {};
    } else {
      var init, last := log[..|log| - 1], log[|log| - 1];
      assert log == init + [last];
      InLogBound(init, t, window);
      CountAppend(Times(init), last.now, t - window, t);
      InLogAppend(init, last, t, window);
    }
  }

  lemma InLogAppend(log: seq<Tick>, last: Tick, t: Time, window: Time)
    ensures |InLog(log + [last], t, window)| <= |InLog(log, t, window)| + if t - window < last.now <= t then 1 else 0
  {
    var more := if t - window < last.now <= t then {last.member} else {};
    assert InLog(log + [last], t, window) <= InLog(log, t, window) + more;
    SubsetCard(InLog(log + [last], t, window), InLog(log, t, window) + more);
    assert |InLog(log, t, window) + more| <= |InLog(log, t, window)| + |more|;
  }

  /** The calls answered with yes on a reading in (t - length, t]. */
  function AdmittedIn(s: State, t: Time, length: Time): set<Member> {
    set id | id in s.calls && s.calls[id].Done? && s.calls[id].ok && t - length < s.calls[id].at <= t
  }

  lemma LoggedIsIn(log: seq<Tick>, id: Member, at: Time, t: Time, length: Time)
    requires Has(log, id, at) && t - length < at <= t
    ensures id in InLog(log, t, length)
  {
    var i :| 0 <= i < |log| && log[i].member == id && log[i].now == at;
    assert log[i] in log;
  }

  /**
   * Whatever Redis does, and however the breaker opens and closes, no
   * interval that is shorter than the window by the skew sees more than twice
   * the limit admitted, provided that the key outlives the delay of scripts.
   */
  lemma AtMostTwiceTheLimit(cfg: Settings, ss: seq<State>, actions: seq<Action>, n: nat, t: Time)
    requires IsRun(cfg, ss, actions) && n < |ss| && cfg.Covered()
    ensures |AdmittedIn(ss[n], t, cfg.Span())| <= 2 * cfg.limit
  {
    hide Has, Times, IsRun, Shows, Timed;
    var s, length := ss[n], cfg.Span();
    EveryStateOk(cfg, ss, actions, n);
    var a, b := InLog(s.redisLog, t, length), InLog(s.localLog, t, length);
    InLogBound(s.redisLog, t, length);
    InLogBound(s.localLog, t, length);
    hide InLog;
    forall id | id in AdmittedIn(s, t, length) ensures id in a + b {
      if Has(s.redisLog, id, s.calls[id].at) {
        LoggedIsIn(s.redisLog, id, s.calls[id].at, t, length);
      } else {
        LoggedIsIn(s.localLog, id, s.calls[id].at, t, length);
      }
    }
    SubsetCard(AdmittedIn(s, t, length), a + b);
    assert |a + b| <= |a| + |b|;
  }

  /** The breaker has a deadline exactly while the consecutive failures have reached the threshold. */
  lemma BreakerDeadline(cfg: Settings, ss: seq<State>, actions: seq<Action>, n: nat)
    requires IsRun(cfg, ss, actions) && n < |ss|
    ensures ss[n].until.Some? <==> ss[n].failures >= cfg.threshold
  {
    EveryStateOk(cfg, ss, actions, n);
  }

  /** How many times in a row Redis has failed: calls and pings count alike. */
  function Streak(actions: seq<Action>, n: nat): nat
    requires n <= |actions|
  {
    if n == 0 then 0
    else match actions[n - 1]
      case Reply(_) => 0
      case Ping(ok, _) => if ok then 0 else Streak(actions, n - 1) + 1
      case Fail(_, _) => Streak(actions, n - 1) + 1
      case _ => Streak(actions, n - 1)
  }

  /** The clock at the last failure. */
  function LastFailure(actions: seq<Action>, n: nat): Time
    requires n <= |actions|
  {
    if n == 0 then 0
    else match actions[n - 1]
      case Ping(ok, t) => if ok then LastFailure(actions, n - 1) else t
      case Fail(_, t) => t
      case _ => LastFailure(actions, n - 1)
  }

  /** The counter is the failures in a row; from the threshold on the deadline is openFor after the last of them. */
  lemma {:induction false} BreakerHistory(cfg: Settings, ss: seq<State>, actions: seq<Action>, n: nat)
    requires IsRun(cfg, ss, actions) && n < |ss|
    ensures ss[n].failures == Streak(actions, n)
    ensures ss[n].until ==
      if Streak(actions, n) >= cfg.threshold then Some(LastFailure(actions, n) + cfg.openFor) else None
  {
    if n == 0 {
    } else {
      assert StepAt(cfg, ss, actions, n - 1);
      BreakerHistory(cfg, ss, actions, n - 1);
      hide RunScript, Decide, Logged, TimeToLive;
    }
  }

  /** A new call asks Redis exactly when a client exists and no deadline set by enough failures in a row lies ahead. */
  lemma AsksRedisIffClosed(cfg: Settings, ss: seq<State>, actions: seq<Action>, n: nat)
    requires IsRun(cfg, ss, actions) && n < |actions| && actions[n].Begin?
    ensures actions[n].id in ss[n + 1].calls
    ensures ss[n].failures >= cfg.threshold ==> ss[n].until.Some?
    ensures ss[n + 1].calls[actions[n].id] == Asking <==>
      cfg.redis && (ss[n].failures >= cfg.threshold ==> ss[n].until.value <= actions[n].t)
  {
    EveryStateOk(cfg, ss, actions, n);
    assert StepAt(cfg, ss, actions, n);
  }

  // ---- The bound is attained, and its condition is needed

  ghost predicate Reachable(cfg: Settings, s: State) {
    exists ss, actions :: IsRun(cfg, ss, actions) && s == ss[|ss| - 1]
  }

  lemma OneMoreStep(cfg: Settings, s: State, a: Action)
    requires Reachable(cfg, s) && Enabled(cfg, s, a)
    ensures Reachable(cfg, Next(cfg, s, a))
  {
    hide Next, Enabled;
    var ss, actions :| IsRun(cfg, ss, actions) && s == ss[|ss| - 1];
    var ss', actions' := ss + [Next(cfg, s, a)], actions + [a];
    forall i: nat | i < |actions'| ensures StepAt(cfg, ss', actions', i) {
      if i < |actions| { assert StepAt(cfg, ss, actions, i); }
    }
    assert ss'[0] == ss[0];
    assert IsRun(cfg, ss', actions');
    assert Next(cfg, s, a) == ss'[|ss'| - 1];
  }

  lemma ReachableOk(cfg: Settings, s: State)
    requires Reachable(cfg, s)
    ensures cfg.Valid() && StateOk(cfg, s)
  {
    var ss, actions :| IsRun(cfg, ss, actions) && s == ss[|ss| - 1];
    EveryStateOk(cfg, ss, actions, |ss| - 1);
  }

  /** While fewer than `limit` entries are there for this script, Redis admits a new call. */
  lemma RedisAdmits(cfg: Settings, s: State, id: Member, now: Time, served: Time, k: nat) returns (s': State)
    requires Reachable(cfg, s) && cfg.redis && id !in s.calls && s.until == None
    requires s.redisMax <= now <= served <= now + cfg.lag && s.served <= served && cfg.skew >= 0
    requires |Present(s.z, served).scores| <= k < cfg.limit
    ensures Reachable(cfg, s') && s'.calls == s.calls[id := Done(now, true)] && s'.until == None
    ensures s'.redisMax == now && s'.served == served && |Present(s'.z, served).scores| <= k + 1
    ensures s'.z.expireAt == Some(served + TimeToLive(cfg.window))
    ensures s'.items == s.items && s'.localMax == s.localMax
  {
    hide Reachable, RunScript, TimeToLive;
    OneMoreStep(cfg, s, Begin(id, now, now));
    var s1 := Next(cfg, s, Begin(id, now, now));
    ScriptSaysYes(s1.z, Tick(id, now, served), cfg.limit, cfg.window, k);
    OneMoreStep(cfg, s1, Eval(id, served));
    var s2 := Next(cfg, s1, Eval(id, served));
    OneMoreStep(cfg, s2, Reply(id));
    s' := Next(cfg, s2, Reply(id));
  }

  lemma ScriptSaysYes(z: SortedSet, tick: Tick, limit: int, window: Time, k: nat)
    requires |Present(z, tick.served).scores| <= k < limit
    ensures var (z', ok) := RunScript(z, tick, limit, window);
      && ok && z'.expireAt == Some(tick.served + TimeToLive(window))
      && |Present(z', tick.served).scores| <= k + 1
  {
    hide TimeToLive, Pruned;
    var kept := Kept(z, tick, window);
    PrunedFewer(Present(z, tick.served).scores, tick.now - window);
    OneMoreKey(kept, tick.member, tick.now);
  }

  lemma OneMoreKey<K, V>(m: map<K, V>, key: K, value: V)
    ensures |m[key := value]| <= |m| + 1
  {
    assert m[key := value].Keys == m.Keys + {key};
    assert |m[key := value]| == |m[key := value].Keys| && |m| == |m.Keys|;
  }

  /** While its list is shorter than the limit, the fallback admits a call that fails at Redis or does not ask it. */
  lemma FallbackAdmits(cfg: Settings, s: State, id: Member, now: Time) returns (s': State)
    requires Reachable(cfg, s) && cfg.skew >= 0 && id !in s.calls && s.localMax <= now && |s.items| < cfg.limit
    ensures Reachable(cfg, s') && s'.calls == s.calls[id := Done(now, true)] && s'.localMax == now
    ensures |s'.items| <= |s.items| + 1
  {
    hide Reachable, Later;
    OneMoreStep(cfg, s, Begin(id, now, now));
    var s1 := Next(cfg, s, Begin(id, now, now));
    if s1.calls[id] == Asking {
      OneMoreStep(cfg, s1, Fail(id, now));
      s1 := Next(cfg, s1, Fail(id, now));
    }
    LaterShorter(s.items, now - cfg.window);
    OneMoreStep(cfg, s1, Fallback(id, now));
    s' := Next(cfg, s1, Fallback(id, now));
  }

  function Name(n: nat): Member {
    seq(n, _ => 'r')
  }

  /** The calls so far: n of them, with these names, each admitted at one of two readings. */
  ghost predicate Admitted(s: State, n: nat, at1: Time, at2: Time) {
    && |s.calls| == n
    && forall id :: id in s.calls ==> |id| < n && (s.calls[id] == Done(at1, true) || s.calls[id] == Done(at2, true))
  }

  /** Redis admits `limit` calls with one reading when it starts from nothing. */
  lemma {:induction false} RedisFills(cfg: Settings, s: State, n: nat, at1: Time, now: Time, served: Time, k: nat)
    returns (s': State)
    requires Reachable(cfg, s) && cfg.redis && s.until == None && cfg.skew >= 0 && Admitted(s, n, at1, now)
    requires s.redisMax <= now <= served <= now + cfg.lag && s.served <= served
    requires Present(s.z, served) == ABSENT && k <= cfg.limit
    ensures Reachable(cfg, s') && s'.until == None && Admitted(s', n + k, at1, now)
    ensures s'.redisMax <= now && s'.served <= served && |Present(s'.z, served).scores| <= k
    ensures k > 0 ==> s'.z.expireAt == Some(served + TimeToLive(cfg.window))
    ensures s'.items == s.items && s'.localMax == s.localMax
  {
    hide Reachable, Present, TimeToLive;
    if k == 0 {
      s' := s;
    } else {
      var s0 := RedisFills(cfg, s, n, at1, now, served, k - 1);
      s' := RedisAdmits(cfg, s0, Name(n + k - 1), now, served, k - 1);
    }
  }

  lemma {:induction false} FallbackFills(cfg: Settings, s: State, n: nat, at1: Time, now: Time, k: nat)
    returns (s': State)
    requires Reachable(cfg, s) && cfg.skew >= 0 && Admitted(s, n, at1, now)
    requires s.items == [] && s.localMax <= now && k <= cfg.limit
    ensures Reachable(cfg, s') && Admitted(s', n + k, at1, now) && |s'.items| <= k && s'.localMax <= now
  {
    hide Reachable;
    if k == 0 {
      s' := s;
    } else {
      var s0 := FallbackFills(cfg, s, n, at1, now, k - 1);
      s' := FallbackAdmits(cfg, s0, Name(n + k - 1), now);
    }
  }

  lemma StartReachable(cfg: Settings)
    requires cfg.Valid()
    ensures Reachable(cfg, Start(0))
  {
    assert IsRun(cfg, [Start(0)], []);
    assert Start(0) == [Start(0)][|[Start(0)]| - 1];
  }

  lemma AllAdmitted(s: State, n: nat, at1: Time, at2: Time, length: Time)
    requires Admitted(s, n, at1, at2) && at2 - length < at1 <= at2 && length > 0
    ensures |AdmittedIn(s, at2, length)| == n
  {
    assert AdmittedIn(s, at2, length) == s.calls.Keys;
    assert |s.calls.Keys| == |s.calls|;
  }

  /** `limit` calls admitted by Redis at the instant 0. */
  lemma FirstFill(cfg: Settings, at2: Time) returns (s: State)
    requires cfg.Valid() && cfg.redis
    ensures Reachable(cfg, s) && s.until == None && Admitted(s, cfg.limit, at2, 0) && s.redisMax <= 0 && s.served <= 0
    ensures s.z.expireAt == Some(TimeToLive(cfg.window)) && s.items == [] && s.localMax == 0
  {
    hide Reachable, TimeToLive;
    StartReachable(cfg);
    s := RedisFills(cfg, Start(0), 0, at2, 0, 0, cfg.limit);
  }

  /** The factor two is real: whatever the limit, some run admits twice as many calls at one instant. */
  lemma BoundIsTight(cfg: Settings)
    requires cfg.Valid() && cfg.redis
    ensures exists ss, actions :: IsRun(cfg, ss, actions) && |AdmittedIn(ss[|ss| - 1], 0, cfg.Span())| == 2 * cfg.limit
  {
    var s1 := FirstFill(cfg, 0);
    var s2 := FallbackFills(cfg, s1, cfg.limit, 0, 0, cfg.limit);
    AllAdmitted(s2, 2 * cfg.limit, 0, 0, cfg.Span());
    var ss, actions :| IsRun(cfg, ss, actions) && s2 == ss[|ss| - 1];
    assert |AdmittedIn(ss[|ss| - 1], 0, cfg.Span())| == 2 * cfg.limit;
  }

  ghost predicate NeverOverTwice(cfg: Settings) {
    forall ss, actions, n: nat, t ::
      IsRun(cfg, ss, actions) && n < |ss| ==> |AdmittedIn(ss[n], t, cfg.Span())| <= 2 * cfg.limit
  }

  /** When a script can run so late that it finds the key expired, Redis alone grants the limit twice. */
  lemma ThreeTimesTheLimit(cfg: Settings) returns (s: State, t: Time)
    requires cfg.Valid() && cfg.redis && !cfg.Covered()
    ensures Reachable(cfg, s) && |AdmittedIn(s, t, cfg.Span())| == 3 * cfg.limit
  {
    var ttl := TimeToLive(cfg.window);
    assert ttl >= 0;
    hide TimeToLive, Reachable;
    t := Latest(ttl - cfg.lag, 0);
    var s1 := FirstFill(cfg, t);
    SameAdmitted(s1, cfg.limit, t, 0);
    var s2 := RedisFills(cfg, s1, cfg.limit, 0, t, ttl, cfg.limit);
    s := FallbackFills(cfg, s2, 2 * cfg.limit, 0, t, cfg.limit);
    AllAdmitted(s, 3 * cfg.limit, 0, t, cfg.Span());
  }

  lemma SameAdmitted(s: State, n: nat, at1: Time, at2: Time)
    requires Admitted(s, n, at1, at2)
    ensures Admitted(s, n, at2, at1)
  {
  }

  /** With Redis the combined bound holds exactly while the key outlives the delay of scripts. */
  lemma TwiceTheLimitIff(cfg: Settings)
    requires cfg.Valid() && cfg.redis
    ensures NeverOverTwice(cfg) <==> cfg.Covered()
  {
    if cfg.Covered() {
      forall ss, actions, n: nat, t | IsRun(cfg, ss, actions) && n < |ss|
        ensures |AdmittedIn(ss[n], t, cfg.Span())| <= 2 * cfg.limit
      {
        AtMostTwiceTheLimit(cfg, ss, actions, n, t);
      }
    } else {
      var s, t := ThreeTimesTheLimit(cfg);
      var ss, actions :| IsRun(cfg, ss, actions) && s == ss[|ss| - 1];
      assert |AdmittedIn(ss[|ss| - 1], t, cfg.Span())| == 3 * cfg.limit;
    }
  }
}
