/**
 * The Lua rate script on one sorted set with its key expiry, and its agreement
 * with the local limiter. The caller reads its clock before it sends the
 * script; the key expires by the time at which the script runs.
 */
module RedisScript {
  import opened Prelude
  import opened RateWindow

  type Member = string

  /** An absent key is the empty set without expiry. */
  datatype SortedSet = SortedSet(scores: map<Member, Time>, expireAt: Option<Time>)

  const ABSENT := SortedSet(map[], None)

  /** One call: a member id, the caller's reading, and the time at which Redis runs the script. */
  datatype Tick = Tick(member: Member, now: Time, served: Time)

  /** int(window.Seconds() * 2) seconds, for a positive window. */
  function TimeToLive(window: Time): Time {
    2 * window / SECOND * SECOND
  }

  /** The key as a script finds it that runs at this time. */
  function Present(z: SortedSet, served: Time): SortedSet {
    if z.expireAt.Some? && z.expireAt.value <= served then ABSENT else z
  }

  /** zremrangebyscore from minus infinity to the cutoff. */
  function Pruned(scores: map<Member, Time>, cutoff: Time): map<Member, Time> {
    map m | m in scores && scores[m] > cutoff :: scores[m]
  }

  function Kept(z: SortedSet, tick: Tick, window: Time): map<Member, Time> {
    Pruned(Present(z, tick.served).scores, tick.now - window)
  }

  function RunScript(z: SortedSet, tick: Tick, limit: int, window: Time): (SortedSet, bool) {
    var kept := Kept(z, tick, window);
    if |kept| >= limit then
      (SortedSet(kept, if kept == map[] then None else Present(z, tick.served).expireAt), false)
    else
      (SortedSet(kept[tick.member := tick.now], Some(tick.served + TimeToLive(window))), true)
  }

  /** The entries that a script run finds and does not prune. */
  function Live(z: SortedSet, tick: Tick, window: Time): set<Member> {
    set m | m in z.scores && (z.expireAt == None || tick.served < z.expireAt.value) && tick.now - window < z.scores[m]
  }

  lemma KeptLaw(z: SortedSet, tick: Tick, window: Time)
    ensures var kept, live := Kept(z, tick, window), Live(z, tick, window);
      kept.Keys == live && |kept| == |live| && forall m :: m in live ==> kept[m] == z.scores[m]
    ensures Live(z, tick, window) != {} ==> Present(z, tick.served) == z
  {
    var kept, live := Kept(z, tick, window), Live(z, tick, window);
    assert kept.Keys == live;
    assert |kept| == |kept.Keys|;
  }

  /** An admission keeps what is live, adds the call's own entry and renews the expiry. */
  lemma ScriptAdmits(z: SortedSet, tick: Tick, limit: int, window: Time)
    requires |Live(z, tick, window)| < limit
    ensures var (z', ok) := RunScript(z, tick, limit, window);
      && ok && z'.scores.Keys == Live(z, tick, window) + {tick.member} && z'.scores[tick.member] == tick.now
      && (forall m :: m in Live(z, tick, window) && m != tick.member ==> z'.scores[m] == z.scores[m])
      && z'.expireAt == Some(tick.served + TimeToLive(window))
  {
    KeptLaw(z, tick, window);
    hide Kept, Live, TimeToLive;
  }

  /** A refusal keeps what is live and the expiry, and nothing else. */
  lemma ScriptRefuses(z: SortedSet, tick: Tick, limit: int, window: Time)
    requires |Live(z, tick, window)| >= limit >= 1
    ensures var (z', ok) := RunScript(z, tick, limit, window);
      && !ok && z'.scores.Keys == Live(z, tick, window) && z'.expireAt == z.expireAt
      && forall m :: m in Live(z, tick, window) ==> z'.scores[m] == z.scores[m]
  {
    KeptLaw(z, tick, window);
    assert Live(z, tick, window) != {};
    hide Kept, Live;
  }

  // ---- The admission log behind both stores

  function Times(log: seq<Tick>): seq<Time> {
    if log == [] then [] else Times(log[..|log| - 1]) + [log[|log| - 1].now]
  }

  function LaterScores(log: seq<Tick>, cutoff: Time): map<Member, Time> {
    if log == [] then map[]
    else
      var last := log[|log| - 1];
      var before := LaterScores(log[..|log| - 1], cutoff);
      if last.now > cutoff then before[last.member := last.now] else before
  }

  ghost predicate DistinctMembers(log: seq<Tick>) {
    forall i, j :: 0 <= i < j < |log| ==> log[i].member != log[j].member
  }

  predicate Fresh(member: Member, log: seq<Tick>) {
    forall i :: 0 <= i < |log| ==> log[i].member != member
  }

  /** The log has this member with this reading. */
  predicate Has(log: seq<Tick>, member: Member, now: Time) {
    exists i :: 0 <= i < |log| && log[i].member == member && log[i].now == now
  }

  ghost predicate NotAfter(log: seq<Tick>, now: Time) {
    forall i :: 0 <= i < |log| ==> log[i].now <= now
  }

  lemma {:induction false} LaterScoresKeys(log: seq<Tick>, cutoff: Time)
    ensures forall m :: m in LaterScores(log, cutoff) ==> !Fresh(m, log) && LaterScores(log, cutoff)[m] > cutoff
  {
    if log != [] {
      var init := log[..|log| - 1];
      LaterScoresKeys(init, cutoff);
      forall m | m in LaterScores(log, cutoff) ensures !Fresh(m, log) {
        if m != log[|log| - 1].member {
          assert m in LaterScores(init, cutoff) && !Fresh(m, init);
          var i :| 0 <= i < |init| && init[i].member == m;
          assert log[i].member == m;
        }
      }
    }
  }

  /** With distinct member ids the sorted set counts what the list counts. */
  lemma {:induction false} SameCount(log: seq<Tick>, cutoff: Time)
    requires DistinctMembers(log)
    ensures |LaterScores(log, cutoff)| == |Later(Times(log), cutoff)|
  {
    if log != [] {
      var init, last := log[..|log| - 1], log[|log| - 1];
      SameCount(init, cutoff);
      LaterAppend(Times(init), [last.now], cutoff);
      LaterScoresKeys(init, cutoff);
      assert Fresh(last.member, init);
      assert last.member !in LaterScores(init, cutoff);
    }
  }

  lemma {:induction false} NothingLater(log: seq<Tick>, cutoff: Time)
    requires NotAfter(log, cutoff)
    ensures LaterScores(log, cutoff) == map[]
  {
    if log != [] {
      NothingLater(log[..|log| - 1], cutoff);
    }
  }

  lemma {:induction false} HasScore(log: seq<Tick>, member: Member, now: Time, cutoff: Time)
    requires DistinctMembers(log) && Has(log, member, now) && now > cutoff
    ensures member in LaterScores(log, cutoff) && LaterScores(log, cutoff)[member] == now
  {
    var init, last := log[..|log| - 1], log[|log| - 1];
    if last.member == member {
      assert last.now == now;
    } else {
      var i :| 0 <= i < |log| && log[i].member == member && log[i].now == now;
      assert init[i] == log[i];
      HasScore(init, member, now, cutoff);
    }
  }

  // ---- What the script leaves

  /** From any cutoff that is not below `start`, the set shows what the log shows. */
  ghost predicate Shows(z: SortedSet, log: seq<Tick>, start: Time) {
    forall cutoff :: cutoff >= start ==> Pruned(z.scores, cutoff) == LaterScores(log, cutoff)
  }

  /** The log is not ahead of Redis, and the key lives for its time after every entry. */
  ghost predicate Timed(z: SortedSet, log: seq<Tick>, served: Time, window: Time) {
    forall i :: 0 <= i < |log| ==>
      && log[i].now <= log[i].served <= served
      && (z.expireAt.Some? ==> log[i].served + TimeToLive(window) <= z.expireAt.value)
  }

  /**
   * A key that is still there, or one whose expiry dropped only entries whose
   * readings are a time to live before the present script.
   */
  lemma PresentShows(z: SortedSet, log: seq<Tick>, start: Time, before: Time, served: Time, window: Time, start': Time)
    requires Shows(z, log, start) && Timed(z, log, before, window) && before <= served
    requires start <= start' && served - TimeToLive(window) <= start'
    ensures Shows(Present(z, served), log, start') && Timed(Present(z, served), log, served, window)
  {
    if Present(z, served) != z {
      forall cutoff | cutoff >= start' ensures LaterScores(log, cutoff) == map[] {
        NothingLater(log, cutoff);
      }
    }
  }

  lemma PrunedTwice(scores: map<Member, Time>, c1: Time, c2: Time)
    ensures c1 <= c2 ==> Pruned(Pruned(scores, c1), c2) == Pruned(scores, c2)
    ensures c2 <= c1 ==> Pruned(Pruned(scores, c1), c2) == Pruned(scores, c1)
  {
  }

  lemma PrunedAdd(scores: map<Member, Time>, m: Member, at: Time, cutoff: Time)
    requires m in scores ==> scores[m] == at
    ensures Pruned(scores[m := at], cutoff)
      == if at > cutoff then Pruned(scores, cutoff)[m := at] else Pruned(scores, cutoff)
  {
  }

  lemma PrunedFewer(scores: map<Member, Time>, cutoff: Time)
    ensures |Pruned(scores, cutoff)| <= |scores|
  {
    SubsetCard(Pruned(scores, cutoff).Keys, scores.Keys);
    assert |Pruned(scores, cutoff)| == |Pruned(scores, cutoff).Keys| && |scores| == |scores.Keys|;
  }

  /** The log after a call; a script that runs again for the same call adds nothing. */
  function Logged(log: seq<Tick>, tick: Tick, ok: bool): seq<Tick> {
    if ok && Fresh(tick.member, log) then log + [tick] else log
  }

  lemma ScoresAppend(log: seq<Tick>, tick: Tick, cutoff: Time)
    ensures LaterScores(log + [tick], cutoff)
      == if tick.now > cutoff then LaterScores(log, cutoff)[tick.member := tick.now] else LaterScores(log, cutoff)
  {
    assert (log + [tick])[..|log|] == log;
  }

  /** Adding the call's own entry to what was kept. */
  lemma AddedShows(kept: map<Member, Time>, log: seq<Tick>, tick: Tick, expireAt: Option<Time>, start: Time)
    requires forall cutoff :: cutoff >= start ==> Pruned(kept, cutoff) == LaterScores(log, cutoff)
    requires DistinctMembers(log) && (Fresh(tick.member, log) || Has(log, tick.member, tick.now))
    requires tick.member in kept ==> kept[tick.member] == tick.now
    ensures Shows(SortedSet(kept[tick.member := tick.now], expireAt), Logged(log, tick, true), start)
  {
    hide Pruned, LaterScores;
    forall cutoff | cutoff >= start
      ensures Pruned(kept[tick.member := tick.now], cutoff) == LaterScores(Logged(log, tick, true), cutoff)
    {
      PrunedAdd(kept, tick.member, tick.now, cutoff);
      if Fresh(tick.member, log) {
        ScoresAppend(log, tick, cutoff);
      } else if tick.now > cutoff {
        HasScore(log, tick.member, tick.now, cutoff);
        var scores := LaterScores(log, cutoff);
        assert scores[tick.member := tick.now] == scores;
      }
    }
  }

  /** A set holds an entry under each member only with that member's reading. */
  ghost predicate OwnScore(z: SortedSet, tick: Tick) {
    tick.member in z.scores ==> z.scores[tick.member] == tick.now
  }

  /**
   * One run of the script goes on showing the whole log from a cutoff that
   * neither this call nor the key's expiry has passed, and decides by it.
   */
  lemma ScriptStep(z: SortedSet, log: seq<Tick>, start: Time, before: Time, tick: Tick, limit: int, window: Time,
                   start': Time)
    requires Shows(z, log, start) && Timed(z, log, before, window) && before <= tick.served && tick.now <= tick.served
    requires DistinctMembers(log) && (Fresh(tick.member, log) || Has(log, tick.member, tick.now)) && OwnScore(z, tick)
    requires start <= start' && tick.served - TimeToLive(window) <= start' && tick.now - window <= start'
    ensures var (z', ok) := RunScript(z, tick, limit, window);
      && Shows(z', Logged(log, tick, ok), start') && Timed(z', Logged(log, tick, ok), tick.served, window)
      && (forall cutoff :: ok && cutoff >= start' ==> |Later(Times(log), cutoff)| < limit)
      && (start' == tick.now - window ==> (ok <==> |Later(Times(log), start')| < limit))
  {
    hide LaterScores, Later, Times, TimeToLive;
    PresentShows(z, log, start, before, tick.served, window, start');
    var kept := Kept(z, tick, window);
    forall cutoff | cutoff >= start' ensures Pruned(kept, cutoff) == LaterScores(log, cutoff) {
      PrunedTwice(Present(z, tick.served).scores, tick.now - window, cutoff);
    }
    forall cutoff | cutoff >= start' ensures |Later(Times(log), cutoff)| <= |kept| {
      SameCount(log, cutoff);
      PrunedFewer(kept, cutoff);
    }
    SameCount(log, start');
    hide Pruned;
    if |kept| < limit {
      AddedShows(kept, log, tick, Some(tick.served + TimeToLive(window)), start');
    }
  }

  /** From any cutoff that is not below `start`, the list shows what the log shows. */
  ghost predicate LocalShows(items: seq<Time>, log: seq<Tick>, start: Time) {
    forall cutoff :: cutoff >= start ==> Later(items, cutoff) == Later(Times(log), cutoff)
  }

  lemma TimesAppend(log: seq<Tick>, tick: Tick)
    ensures Times(log + [tick]) == Times(log) + [tick.now]
  {
    assert (log + [tick])[..|log|] == log;
  }

  /** The same for one call of the local limiter. */
  lemma LocalStep(items: seq<Time>, log: seq<Tick>, start: Time, tick: Tick, limit: int, window: Time, start': Time)
    requires LocalShows(items, log, start) && start <= start' && tick.now - window <= start'
    ensures var (items', ok) := Decide(items, tick.now, limit, window);
      && LocalShows(items', if ok then log + [tick] else log, start')
      && (forall cutoff :: ok && cutoff >= start' ==> |Later(Times(log), cutoff)| < limit)
      && (start' == tick.now - window ==> (ok <==> |Later(Times(log), start')| < limit))
  {
    hide Times;
    var (items', ok) := Decide(items, tick.now, limit, window);
    TimesAppend(log, tick);
    forall cutoff | cutoff >= start'
      ensures Later(items', cutoff) == Later(if ok then Times(log) + [tick.now] else Times(log), cutoff)
      ensures ok ==> |Later(Times(log), cutoff)| < limit
    {
      DecideShows(items, Times(log), tick.now, limit, window, cutoff);
      LaterFewer(items, tick.now - window, cutoff);
    }
  }

  // ---- Whole runs of one key

  function LocalAfter(ticks: seq<Tick>, limit: int, window: Time): seq<Time> {
    if ticks == [] then []
    else Decide(LocalAfter(ticks[..|ticks| - 1], limit, window), ticks[|ticks| - 1].now, limit, window).0
  }

  function RedisAfter(ticks: seq<Tick>, limit: int, window: Time): SortedSet {
    if ticks == [] then ABSENT
    else RunScript(RedisAfter(ticks[..|ticks| - 1], limit, window), ticks[|ticks| - 1], limit, window).0
  }

  /** The answer to the last of the calls. */
  function LocalAnswer(ticks: seq<Tick>, limit: int, window: Time): bool
    requires ticks != []
  {
    Decide(LocalAfter(ticks[..|ticks| - 1], limit, window), ticks[|ticks| - 1].now, limit, window).1
  }

  function RedisAnswer(ticks: seq<Tick>, limit: int, window: Time): bool
    requires ticks != []
  {
    RunScript(RedisAfter(ticks[..|ticks| - 1], limit, window), ticks[|ticks| - 1], limit, window).1
  }

  /**
   * Fresh member ids, scripts in the order in which Redis runs them, each at
   * most `lag` after the reading of its caller. The readings themselves need
   * not be in order.
   */
  ghost predicate Proper(ticks: seq<Tick>, lag: Time) {
    && DistinctMembers(ticks)
    && (forall i :: 0 <= i < |ticks| ==> ticks[i].now <= ticks[i].served <= ticks[i].now + lag)
    && (forall i, j :: 0 <= i < j < |ticks| ==> ticks[i].served <= ticks[j].served)
  }

  /** The entries later than the cutoff, in order. */
  function LaterTicks(log: seq<Tick>, cutoff: Time): seq<Tick> {
    if log == [] then []
    else
      var last := log[|log| - 1];
      LaterTicks(log[..|log| - 1], cutoff) + if last.now > cutoff then [last] else []
  }

  lemma {:induction false} LaterTicksTimes(log: seq<Tick>, cutoff: Time)
    ensures Times(LaterTicks(log, cutoff)) == Later(Times(log), cutoff)
  {
    if log == [] {
    } else {
      var init, last := log[..|log| - 1], log[|log| - 1];
      LaterTicksTimes(init, cutoff);
      LaterAppend(Times(init), [last.now], cutoff);
      TimesAppend(LaterTicks(init, cutoff), last);
      assert LaterTicks(init, cutoff) + [] == LaterTicks(init, cutoff);
    }
  }

  lemma {:induction false} LaterTicksPart(log: seq<Tick>, cutoff: Time)
    ensures forall tick :: tick in LaterTicks(log, cutoff) ==> tick in log
  {
    if log == [] {
    } else {
      LaterTicksPart(log[..|log| - 1], cutoff);
    }
  }

  lemma DistinctAppend(log: seq<Tick>, last: Tick)
    requires DistinctMembers(log) && forall tick :: tick in log ==> tick.member != last.member
    ensures DistinctMembers(log + [last])
  {
  }

  lemma NoneBefore(log: seq<Tick>, part: seq<Tick>)
    requires log != [] && DistinctMembers(log) && forall tick :: tick in part ==> tick in log[..|log| - 1]
    ensures forall tick :: tick in part ==> tick in log && tick.member != log[|log| - 1].member
  {
    var init := log[..|log| - 1];
    forall tick | tick in part ensures tick in log && tick.member != log[|log| - 1].member {
      var i :| 0 <= i < |init| && init[i] == tick;
      assert log[i] == tick;
    }
  }

  lemma {:induction false} LaterTicksDistinct(log: seq<Tick>, cutoff: Time)
    requires DistinctMembers(log)
    ensures DistinctMembers(LaterTicks(log, cutoff))
  {
    if log == [] {
    } else {
      var init, last := log[..|log| - 1], log[|log| - 1];
      var kept := LaterTicks(init, cutoff);
      LaterTicksDistinct(init, cutoff);
      LaterTicksPart(init, cutoff);
      NoneBefore(log, kept);
      DistinctAppend(kept, last);
      assert kept + [] == kept;
      hide DistinctMembers;
    }
  }

  lemma {:induction false} LaterTicksScores(log: seq<Tick>, c1: Time, c2: Time)
    ensures LaterScores(LaterTicks(log, c1), c2) == LaterScores(log, if c1 <= c2 then c2 else c1)
  {
    if log == [] {
    } else {
      var init, last := log[..|log| - 1], log[|log| - 1];
      LaterTicksScores(init, c1, c2);
      ScoresAppend(LaterTicks(init, c1), last, c2);
      assert LaterTicks(init, c1) + [] == LaterTicks(init, c1);
    }
  }

  /** What the local limiter holds, with member ids. */
  function LocalTicks(ticks: seq<Tick>, limit: int, window: Time): seq<Tick> {
    if ticks == [] then []
    else
      var last := ticks[|ticks| - 1];
      var kept := LaterTicks(LocalTicks(ticks[..|ticks| - 1], limit, window), last.now - window);
      if |kept| >= limit then kept else kept + [last]
  }

  lemma {:induction false} TimesLength(log: seq<Tick>)
    ensures |Times(log)| == |log|
  {
    if log == [] {
    } else {
      TimesLength(log[..|log| - 1]);
    }
  }

  lemma DecideTicks(held: seq<Tick>, tick: Tick, limit: int, window: Time)
    ensures var kept := LaterTicks(held, tick.now - window);
      Decide(Times(held), tick.now, limit, window)
      == if |kept| >= limit then (Times(kept), false) else (Times(kept + [tick]), true)
  {
    hide Times, LaterTicks, Later;
    var kept := LaterTicks(held, tick.now - window);
    LaterTicksTimes(held, tick.now - window);
    TimesLength(kept);
    TimesAppend(kept, tick);
  }

  lemma {:induction false} LocalTicksTimes(ticks: seq<Tick>, limit: int, window: Time)
    ensures Times(LocalTicks(ticks, limit, window)) == LocalAfter(ticks, limit, window)
  {
    hide Times, LaterTicks, Decide, LocalTicks, LocalAfter;
    if ticks == [] {
      LocalStartsEmpty(limit, window);
    } else {
      var init, last := ticks[..|ticks| - 1], ticks[|ticks| - 1];
      LocalUnfolds(ticks, limit, window);
      LocalTicksTimes(init, limit, window);
      DecideTicks(LocalTicks(init, limit, window), last, limit, window);
    }
  }

  lemma LocalStartsEmpty(limit: int, window: Time)
    ensures Times(LocalTicks([], limit, window)) == LocalAfter([], limit, window)
  {
  }

  lemma LocalUnfolds(ticks: seq<Tick>, limit: int, window: Time)
    requires ticks != []
    ensures var init, last := ticks[..|ticks| - 1], ticks[|ticks| - 1];
      var kept := LaterTicks(LocalTicks(init, limit, window), last.now - window);
      && LocalTicks(ticks, limit, window) == (if |kept| >= limit then kept else kept + [last])
      && LocalAfter(ticks, limit, window) == Decide(LocalAfter(init, limit, window), last.now, limit, window).0
  {
    hide LaterTicks, Decide;
  }

  lemma LocalAnswerCounts(ticks: seq<Tick>, limit: int, window: Time)
    requires ticks != []
    ensures var last, held := ticks[|ticks| - 1], LocalTicks(ticks[..|ticks| - 1], limit, window);
      LocalAnswer(ticks, limit, window) == (|LaterTicks(held, last.now - window)| < limit)
  {
    hide Times, LaterTicks, Decide, LocalTicks, LocalAfter;
    var init, last := ticks[..|ticks| - 1], ticks[|ticks| - 1];
    LocalTicksTimes(init, limit, window);
    DecideTicks(LocalTicks(init, limit, window), last, limit, window);
  }

  lemma {:induction false} LocalTicksPart(ticks: seq<Tick>, limit: int, window: Time)
    requires DistinctMembers(ticks)
    ensures DistinctMembers(LocalTicks(ticks, limit, window))
    ensures forall tick :: tick in LocalTicks(ticks, limit, window) ==> tick in ticks
  {
    hide LaterTicks;
    if ticks == [] {
    } else {
      var init, last := ticks[..|ticks| - 1], ticks[|ticks| - 1];
      var held := LocalTicks(init, limit, window);
      var kept := LaterTicks(held, last.now - window);
      LocalTicksPart(init, limit, window);
      LaterTicksPart(held, last.now - window);
      LaterTicksDistinct(held, last.now - window);
      NoneBefore(ticks, kept);
      DistinctAppend(kept, last);
      hide DistinctMembers;
    }
  }

  /** The largest delay that a script may have: the time to live less the window. */
  predicate Covers(window: Time, lag: Time) {
    lag <= TimeToLive(window) - window
  }

  /** What the script counts, and what it would keep, is what the local list holds. */
  lemma SameKept(z: SortedSet, held: seq<Tick>, before: Time, tick: Tick, window: Time, lag: Time)
    requires Shows(z, held, before - TimeToLive(window)) && Timed(z, held, before, window) && before <= tick.served
    requires tick.served <= tick.now + lag && Covers(window, lag) && DistinctMembers(held)
    ensures var kept, left := Kept(z, tick, window), LaterTicks(held, tick.now - window);
      && |kept| == |left|
      && (forall cutoff :: cutoff >= tick.served - TimeToLive(window) ==>
            Pruned(kept, cutoff) == LaterScores(left, cutoff))
      && Timed(Present(z, tick.served), left, tick.served, window)
  {
    hide LaterScores, Later, Times, TimeToLive, Pruned;
    var start' := tick.served - TimeToLive(window);
    var left := LaterTicks(held, tick.now - window);
    PresentShows(z, held, before - TimeToLive(window), before, tick.served, window, start');
    SameCount(held, tick.now - window);
    LaterTicksTimes(held, tick.now - window);
    LaterTicksPart(held, tick.now - window);
    TimesLength(left);
    forall cutoff | cutoff >= start' ensures Pruned(Kept(z, tick, window), cutoff) == LaterScores(left, cutoff) {
      PrunedTwice(Present(z, tick.served).scores, tick.now - window, cutoff);
      LaterTicksScores(held, tick.now - window, cutoff);
    }
    forall i | 0 <= i < |left| ensures left[i] in held { assert left[i] in left; }
  }

  /** Only members of these calls are in the set. */
  ghost predicate Callers(z: SortedSet, ticks: seq<Tick>) {
    forall m :: m in z.scores ==> !Fresh(m, ticks)
  }

  lemma OnlyCallers(ticks: seq<Tick>, z: SortedSet, limit: int, window: Time)
    requires ticks != [] && Callers(z, ticks[..|ticks| - 1])
    ensures Callers(RunScript(z, ticks[|ticks| - 1], limit, window).0, ticks)
  {
    var init, last := ticks[..|ticks| - 1], ticks[|ticks| - 1];
    forall m | m in RunScript(z, last, limit, window).0.scores ensures !Fresh(m, ticks) {
      if m != last.member {
        assert m in z.scores;
        var i :| 0 <= i < |init| && init[i].member == m;
        assert ticks[i].member == m;
      }
    }
  }

  /** Both limiters hold the same as far as any later call can see. */
  lemma {:induction false} BothHoldTheSame(ticks: seq<Tick>, limit: int, window: Time, lag: Time, served: Time)
    requires Proper(ticks, lag) && limit >= 1 && Covers(window, lag)
    requires ticks != [] ==> served == ticks[|ticks| - 1].served
    ensures var z, held := RedisAfter(ticks, limit, window), LocalTicks(ticks, limit, window);
      && Shows(z, held, served - TimeToLive(window)) && Timed(z, held, served, window)
      && Callers(z, ticks)
    ensures ticks != [] ==> LocalAnswer(ticks, limit, window) == RedisAnswer(ticks, limit, window)
  {
    hide LaterScores, Later, Times, TimeToLive, LaterTicks;
    if ticks == [] {
      assert Pruned(map[], served) == map[];
      NothingHeld(served - TimeToLive(window));
    } else {
      var init, last := ticks[..|ticks| - 1], ticks[|ticks| - 1];
      var before := if init == [] then served else init[|init| - 1].served;
      var z, held := RedisAfter(init, limit, window), LocalTicks(init, limit, window);
      BothHoldTheSame(init, limit, window, lag, before);
      LocalTicksPart(init, limit, window);
      LocalAnswerCounts(ticks, limit, window);
      SameKept(z, held, before, last, window, lag);
      LastIsFresh(ticks, z, held);
      OneCallMore(z, held, last, limit, window);
      OnlyCallers(ticks, z, limit, window);
    }
  }

  lemma NothingHeld(start: Time)
    ensures Shows(ABSENT, [], start)
  {
  }

  lemma LastIsFresh(ticks: seq<Tick>, z: SortedSet, held: seq<Tick>)
    requires ticks != [] && DistinctMembers(ticks)
    requires var init := ticks[..|ticks| - 1];
      && Callers(z, init)
      && (forall tick :: tick in held ==> tick in init)
    ensures var last := ticks[|ticks| - 1]; last.member !in z.scores && Fresh(last.member, held)
  {
    var init, last := ticks[..|ticks| - 1], ticks[|ticks| - 1];
    forall i | 0 <= i < |init| ensures init[i].member != last.member { assert init[i] == ticks[i]; }
    forall i | 0 <= i < |held| ensures held[i].member != last.member { assert held[i] in held && held[i] in init; }
  }

  /** One more call of both. */
  lemma OneCallMore(z: SortedSet, held: seq<Tick>, tick: Tick, limit: int, window: Time)
    requires var kept, left := Kept(z, tick, window), LaterTicks(held, tick.now - window);
      && |kept| == |left|
      && (forall cutoff :: cutoff >= tick.served - TimeToLive(window) ==>
            Pruned(kept, cutoff) == LaterScores(left, cutoff))
      && Timed(Present(z, tick.served), left, tick.served, window)
    requires DistinctMembers(held) && tick.member !in z.scores && Fresh(tick.member, held) && tick.now <= tick.served
    ensures var (z', ok) := RunScript(z, tick, limit, window);
      var left := LaterTicks(held, tick.now - window);
      var held' := if |left| >= limit then left else left + [tick];
      && Shows(z', held', tick.served - TimeToLive(window)) && Timed(z', held', tick.served, window)
      && (ok <==> |left| < limit)
  {
    hide LaterScores, Times, TimeToLive, LaterTicks;
    var kept, left := Kept(z, tick, window), LaterTicks(held, tick.now - window);
    LaterTicksPart(held, tick.now - window);
    LaterTicksDistinct(held, tick.now - window);
    assert tick.member !in kept;
    assert Fresh(tick.member, left) by {
      forall i | 0 <= i < |left| ensures left[i].member != tick.member { assert left[i] in left && left[i] in held; }
    }
    hide Pruned, Kept;
    if |kept| < limit {
      AddedShows(kept, left, tick, Some(tick.served + TimeToLive(window)), tick.served - TimeToLive(window));
    }
  }

  /** Every call of every proper run gets the same answer from both limiters. */
  ghost predicate SameMeaning(window: Time, lag: Time) {
    forall limit: int, ticks: seq<Tick> :: limit >= 1 && ticks != [] && Proper(ticks, lag) ==>
      LocalAnswer(ticks, limit, window) == RedisAnswer(ticks, limit, window)
  }

  /** A script that runs just after the key expired admits what the local limiter refuses, with readings in order. */
  lemma LateScriptDiffers(window: Time, lag: Time) returns (ticks: seq<Tick>)
    requires window > 0 && lag >= 0 && !Covers(window, lag)
    ensures |ticks| == 2 && Proper(ticks, lag) && ticks[0].now <= ticks[1].now
    ensures !LocalAnswer(ticks, 1, window) && RedisAnswer(ticks, 1, window)
  {
    var ttl := TimeToLive(window);
    assert ttl >= 0;
    var late := if ttl > lag then ttl - lag else 0;
    hide TimeToLive;
    var first, second := Tick("a", 0, 0), Tick("b", late, ttl);
    ticks := [first, second];
    assert ticks[..1] == [first] && [first][..0] == [];
    assert Later([], -window) == [] && [] + [0] == [0];
    assert LocalAfter([first], 1, window) == [0];
    assert Later([0], late - window) == [0];
    assert Pruned(map[], 0 - window) == map[] && Pruned(map[], late - window) == map[];
    assert RedisAfter([first], 1, window) == SortedSet(map["a" := 0], Some(ttl));
  }

  /**
   * The two limiters mean the same exactly while no script runs later after
   * its caller's reading than the time to live exceeds the window.
   */
  lemma TwoLimitersOneMeaning(window: Time, lag: Time)
    requires window > 0 && lag >= 0
    ensures SameMeaning(window, lag) <==> Covers(window, lag)
  {
    if Covers(window, lag) {
      forall limit: int, ticks: seq<Tick> | limit >= 1 && ticks != [] && Proper(ticks, lag)
        ensures LocalAnswer(ticks, limit, window) == RedisAnswer(ticks, limit, window)
      {
        BothHoldTheSame(ticks, limit, window, lag, ticks[|ticks| - 1].served);
      }
    } else {
      var ticks := LateScriptDiffers(window, lag);
    }
  }

  /** Without delay that is a window of at least half a second; for whole seconds it is a delay of at most a window. */
  lemma CoversMeans(window: Time, lag: Time)
    requires window > 0
    ensures Covers(window, 0) <==> 2 * window >= SECOND
    ensures window % SECOND == 0 ==> (Covers(window, lag) <==> lag <= window)
  {
    var seconds := 2 * window / SECOND;
    assert seconds * SECOND <= 2 * window < seconds * SECOND + SECOND;
    if window % SECOND == 0 { assert 2 * window == 2 * (window / SECOND) * SECOND; }
  }
}
