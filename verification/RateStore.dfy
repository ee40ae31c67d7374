/**
 * The rate store as an object: per key a slice over a backing array that is
 * compacted in place, a cap on the number of keys, and the breaker's fields.
 */
module RateStoreObject {
  import opened Prelude
  import opened RateWindow
  import CheckRuns

  /** A slice: the first `len` cells of its backing array. */
  datatype Slice = Slice(buf: array<Time>, len: nat)

  /** What came back from Redis: an error, or the script's answer. */
  datatype RedisReply = ReplyError | ReplyValue(ok: bool)

  lemma LaterFew(x: Time, cutoff: Time)
    ensures Later([], cutoff) == [] && Later([x], cutoff) == if x > cutoff then [x] else []
  {
  }

  /** Keeps the readings later than the cutoff at the front of the same array, in order. */
  method Compact(buf: array<Time>, len: nat, cutoff: Time) returns (kept: nat)
    requires len <= buf.Length
    modifies buf
    ensures kept <= len && buf[..kept] == Later(old(buf[..len]), cutoff)
  {
    hide Later;
    kept := 0;
    ghost var items := buf[..len];
    LaterFew(0, cutoff);
    for i := 0 to len
      invariant kept <= i
      invariant buf[..kept] == Later(items[..i], cutoff)
      invariant forall k :: i <= k < len ==> buf[k] == items[k]
    {
      assert buf[i] == items[i];
      assert items[..i + 1] == items[..i] + [items[i]];
      LaterAppend(items[..i], [items[i]], cutoff);
      LaterFew(items[i], cutoff);
      if buf[i] > cutoff {
        buf[kept] := buf[i];
        assert buf[..kept + 1] == buf[..kept] + [items[i]];
        kept := kept + 1;
      }
    }
    assert items[..len] == items;
  }

  /** Go's append: in place while there is room, into a larger array otherwise. */
  method Append(buf: array<Time>, len: nat, x: Time) returns (s: Slice)
    requires len <= buf.Length
    modifies buf
    ensures s.len == len + 1 <= s.buf.Length && s.buf[..s.len] == old(buf[..len]) + [x]
    ensures s.buf == buf || fresh(s.buf)
  {
    if len < buf.Length {
      buf[len] := x;
      assert buf[..len + 1] == buf[..len] + [x];
      s := Slice(buf, len + 1);
    } else {
      var grown := new Time[2 * len + 1];
      for i := 0 to len
        invariant buf[..] == old(buf[..]) && grown[..i] == buf[..i]
      {
        grown[i] := buf[i];
      }
      grown[len] := x;
      assert grown[..len + 1] == buf[..len] + [x];
      s := Slice(grown, len + 1);
    }
  }

  class RateStore {
    const threshold: int
    const openFor: Time
    var local: map<Key, Slice>
    var redisFailures: int
    /** None is the zero time. */
    var redisCircuitUntil: Option<Time>

    constructor (threshold: int, openFor: Time)
      requires threshold >= 1
      ensures Valid() && View() == map[] && this.threshold == threshold && this.openFor == openFor
    {
      this.threshold, this.openFor := threshold, openFor;
      local, redisFailures, redisCircuitUntil := map[], 0, None;
    }

    /** No two keys share a backing array. */
    ghost predicate Separate()
      reads `local
    {
      && (forall key :: key in local ==> local[key].len <= local[key].buf.Length)
      && (forall a, b :: a in local && b in local && local[a].buf == local[b].buf ==> a == b)
    }

    /** The breaker has a deadline exactly at or past the threshold. */
    ghost predicate Valid()
      reads this
    {
      && Separate() && redisFailures >= 0 && threshold >= 1
      && (redisCircuitUntil.Some? <==> redisFailures >= threshold)
    }

    ghost function Buffers(): set<object>
      reads `local
    {
      set key | key in local :: local[key].buf
    }

    /** The readings stored under each key. */
    ghost function View(): Store
      reads `local, Buffers()
      requires Separate()
    {
      map key | key in local :: local[key].buf[..local[key].len]
    }

    /** The slice of a key; a missing key has an empty one. */
    method SliceOf(key: Key) returns (s: Slice)
      requires Separate()
      ensures s.len <= s.buf.Length && s.buf[..s.len] == ItemsOf(View(), key)
      ensures if key in local then s == local[key] else fresh(s.buf)
    {
      if key in local {
        s := local[key];
      } else {
        var empty := new Time[0];
        s := Slice(empty, 0);
      }
    }

    /** Filing a slice whose array no other key uses changes the readings of that key alone. */
    twostate lemma OneKeyChanged(key: Key, new s: Slice)
      requires old(Separate()) && Separate() && local == old(local)[key := s]
      requires forall k :: k in old(local) && k != key ==> unchanged(old(local)[k].buf)
      ensures s.len <= s.buf.Length && View() == old(View())[key := s.buf[..s.len]]
    {
      assert local[key] == s;
      forall k | k in local && k != key ensures View()[k] == old(View())[k] { SameReadings(k); }
    }

    twostate lemma SameReadings(key: Key)
      requires old(Separate()) && Separate() && key in old(local) && key in local && local[key] == old(local)[key]
      requires unchanged(local[key].buf)
      ensures View()[key] == old(View())[key]
    {
    }

    /** Dropping keys drops their readings. */
    twostate lemma KeysDropped(keys: set<Key>)
      requires old(Separate()) && Separate() && local == old(local) - keys
      requires forall k :: k in local ==> unchanged(local[k].buf)
      ensures View() == old(View()) - keys
    {
      forall k | k in local ensures View()[k] == old(View())[k] { SameReadings(k); }
    }

    /** The decision and the new list of one key, before the cap is looked at. */
    method Settle(key: Key, now: Time, limit: int, window: Time) returns (ok: bool)
      requires Separate()
      modifies `local, Buffers()
      ensures Separate()
      ensures View() == old(View())[key := Decide(ItemsOf(old(View()), key), now, limit, window).0]
      ensures ok == Decide(ItemsOf(old(View()), key), now, limit, window).1
    {
      hide Later;
      var s := SliceOf(key);
      ghost var items := ItemsOf(View(), key);
      var kept := Compact(s.buf, s.len, now - window);
      assert s.buf[..kept] == Later(items, now - window);
      if kept >= limit {
        local := local[key := Slice(s.buf, kept)];
        OneKeyChanged(key, Slice(s.buf, kept));
        return false;
      }
      var grown := Append(s.buf, kept, now);
      local := local[key := grown];
      OneKeyChanged(key, grown);
      ok := true;
    }

    method CheckLocal(call: Call) returns (ok: bool, ghost evicted: set<Key>)
      requires Separate() && call.limit >= 1
      modifies `local, Buffers()
      ensures Separate()
      ensures ok == Answer(old(View()), call)
      ensures EvictionOk(old(View()), call.(evicted := evicted))
      ensures View() == After(old(View()), call.(evicted := evicted))
    {
      hide Decide;
      ghost var before := View();
      ok := Settle(call.key, call.now, call.limit, call.window);
      ghost var filed := View();
      evicted := CapKeys(ok);
      CallSettled(before, call, evicted, filed, View());
    }

    /** The cap is looked at only after an admission. */
    method CapKeys(admitted: bool) returns (ghost evicted: set<Key>)
      requires Separate()
      modifies `local
      ensures Separate() && View() == old(View()) - evicted
      ensures if admitted && |old(View())| > 50_000
              then evicted <= old(View()).Keys && |View()| == 45_000 else evicted == {}
    {
      evicted := {};
      if admitted && |local| > MAX_KEYS {
        local, evicted := EvictKeys(local);
      }
      KeysDropped(evicted);
      SameKeys();
    }

    twostate lemma SameKeys()
      requires old(Separate()) && Separate()
      ensures View().Keys == local.Keys && old(View()).Keys == old(local).Keys
      ensures |View()| == |local| && |old(View())| == |old(local)|
    {
      assert |View()| == |View().Keys| && |old(View())| == |old(View()).Keys|;
    }

    predicate CircuitOpen(now: Time)
      reads `redisCircuitUntil
    {
      redisCircuitUntil.Some? && now < redisCircuitUntil.value
    }

    method MarkRedisSuccess()
      requires Valid()
      modifies `redisFailures, `redisCircuitUntil
      ensures Valid() && redisFailures == 0 && redisCircuitUntil == None
    {
      redisFailures := 0;
      redisCircuitUntil := None;
    }

    method MarkRedisFailure(now: Time)
      requires Valid()
      modifies `redisFailures, `redisCircuitUntil
      ensures Valid() && redisFailures == old(redisFailures) + 1
      ensures redisCircuitUntil == if redisFailures >= threshold then Some(now + openFor) else old(redisCircuitUntil)
    {
      redisFailures := redisFailures + 1;
      if redisFailures >= threshold {
        redisCircuitUntil := Some(now + openFor);
      }
    }

    /** The breaker's fields are those of this state of the concurrent calls. */
    ghost predicate ReadOff(s: CheckRuns.State)
      reads `redisFailures, `redisCircuitUntil
    {
      s.failures == redisFailures && s.until == redisCircuitUntil
    }

    /**
     * One call from start to end; `asked` is the clock at the breaker, `failed`
     * the one after a failure. In the concurrent calls it is `id`: its steps
     * leave the breaker as this method does, and it asks Redis exactly when its
     * first step leads to Asking.
     */
    method Check(call: Call, hasRedis: bool, asked: Time, reply: RedisReply, failed: Time,
                 ghost cfg: CheckRuns.Settings, ghost s: CheckRuns.State, ghost id: string)
      returns (ok: bool, ghost evicted: set<Key>)
      requires Valid() && ReadOff(s) && id !in s.calls
      requires cfg.threshold == threshold && cfg.openFor == openFor && cfg.redis == hasRedis
      modifies this, Buffers()
      ensures Valid()
      ensures call.limit <= 0 ==> !ok && evicted == {}
      ensures call.limit <= 0 || !hasRedis || old(redisCircuitUntil.Some? && asked < redisCircuitUntil.value) ==>
        redisFailures == old(redisFailures) && redisCircuitUntil == old(redisCircuitUntil)
      ensures call.limit > 0 && hasRedis && !old(redisCircuitUntil.Some? && asked < redisCircuitUntil.value) ==>
        && redisFailures == (if reply.ReplyValue? then 0 else old(redisFailures) + 1)
        && redisCircuitUntil == if redisFailures >= threshold then Some(failed + openFor) else None
      ensures id in CheckRuns.Begun(cfg, s, id, asked, call.now).calls
      ensures CheckRuns.Begun(cfg, s, id, asked, call.now).calls[id] == CheckRuns.Asking <==>
        hasRedis && !old(redisCircuitUntil.Some? && asked < redisCircuitUntil.value)
      ensures call.limit > 0 ==> ReadOff(
        CheckRuns.BreakerAfter(cfg, s, id, asked, call.now, if reply.ReplyValue? then Some(reply.ok) else None, failed))
      ensures if call.limit > 0
                 && (reply.ReplyError? || !hasRedis || old(redisCircuitUntil.Some? && asked < redisCircuitUntil.value))
              then && ok == Answer(old(View()), call) && View() == After(old(View()), call.(evicted := evicted))
                   && EvictionOk(old(View()), call.(evicted := evicted))
              else View() == old(View()) && (call.limit > 0 ==> ok == reply.ok)
    {
      hide Decide, EvictionOk, After, Answer;
      evicted := {};
      if call.limit <= 0 {
        return false, {};
      }
      if hasRedis && !CircuitOpen(asked) {
        if reply.ReplyValue? {
          MarkRedisSuccess();
          return reply.ok, {};
        }
        MarkRedisFailure(failed);
      }
      ok, evicted := CheckLocal(call);
    }
  }

  lemma CallSettled(store: Store, call: Call, evicted: set<Key>, filed: Store, left: Store)
    requires filed == Filed(store, call) && left == filed - evicted
    requires if Answer(store, call) && |filed| > 50_000
             then evicted <= filed.Keys && |left| == 45_000 else evicted == {}
    ensures var done := call.(evicted := evicted);
      Answer(store, done) == Answer(store, call) && EvictionOk(store, done) && left == After(store, done)
  {
  }

  /** The cap: keys go in arbitrary order, down to the lower mark. */
  method EvictKeys<V>(table: map<Key, V>) returns (rest: map<Key, V>, ghost evicted: set<Key>)
    requires |table| > 50_000
    ensures evicted <= table.Keys && rest == table - evicted && |rest| == 45_000
  {
    rest, evicted := table, {};
    while |rest| > KEYS_AFTER_EVICTION
      invariant evicted <= table.Keys && rest == table - evicted && |rest| >= KEYS_AFTER_EVICTION
    {
      var key :| key in rest;
      assert rest.Keys - {key} == (rest - {key}).Keys;
      rest, evicted := rest - {key}, evicted + {key};
    }
  }
}
