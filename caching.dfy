/** `CacheClient`: cache-aside reads over the string store. Two strategies:
    pass-through with an empty-string marker for ids the database does not
    have, and logical expiry, where the cached JSON carries its own expiry
    time and a stale value is served while one caller rebuilds it under a
    set-if-absent lock. */
module Caching {
  import opened Common
  import opened Redis
  import opened RedisConstants

  /** The JSON mapping of values of type `R` (`JSONUtil.toJsonStr` and
      `JSONUtil.toBean`). */
  datatype Codec<!R> = Codec(encode: R -> string, decode: string -> R)

  /** What the serializer promises: decoding gives back what was encoded, and
      the JSON text of a value is never blank. */
  ghost predicate RoundTrips<R(!new)>(c: Codec<R>)
  {
    forall r :: c.decode(c.encode(r)) == r && !IsBlank(c.encode(r))
  }

  /** `RedisData`: a cached value with its logical expiry time (in epoch
      seconds). `data` is absent when the database had no row. */
  datatype RedisData<R> = RedisData(expireTime: int, data: Option<R>)

  /** The TTL of a rebuild lock, in seconds. */
  const LOCK_TTL_SECONDS: int := 10

  /** The rebuild lock of an id; it uses the shop lock prefix whatever the
      cache prefix is. */
  function LockKey(idText: string): string
  {
    LOCK_SHOP_KEY + idText
  }

  /** What pass-through writes after a database read: the empty marker for a
      missing row, for `CACHE_NULL_TTL` minutes; otherwise the value's JSON for
      the caller's TTL. */
  function MissEntry<R>(loaded: Option<R>, codec: Codec<R>, time: int, unit: TimeUnit): Entry
  {
    if loaded.None? then Entry("", ExpiresIn(ToSeconds(CACHE_NULL_TTL, Minutes)))
    else Entry(codec.encode(loaded.value), ExpiresIn(ToSeconds(time, unit)))
  }

  class CacheClient {
    const store: RedisStore

    constructor (store: RedisStore)
      ensures this.store == store
    {
      this.store := store;
    }

    /** `set`: the value's JSON under `key`, for the given TTL. */
    method Set<R>(key: string, value: R, time: int, unit: TimeUnit, codec: Codec<R>)
      modifies store`strings
      ensures store.strings == old(store.strings)[key := Entry(codec.encode(value), ExpiresIn(ToSeconds(time, unit)))]
    {
      store.Set(key, codec.encode(value), ExpiresIn(ToSeconds(time, unit)));
    }

    /** `setWithLogicalExpire`: the value wrapped with `now + time`, and no
        store TTL. */
    method SetWithLogicalExpire<R>(key: string, value: Option<R>, time: int, unit: TimeUnit, now: int, codec: Codec<RedisData<R>>)
      modifies store`strings
      ensures store.strings == old(store.strings)[key := Entry(codec.encode(RedisData(now + ToSeconds(time, unit), value)), Persistent)]
    {
      store.Set(key, codec.encode(RedisData(now + ToSeconds(time, unit), value)), Persistent);
    }

    /** `queryWithPassThrough`. A non-blank hit is decoded; a blank hit is the
        marker and reads as null; only a miss reaches the database (`loaded`),
        and its answer is cached either way. */
    method QueryWithPassThrough<ID, R>(keyPrefix: string, id: ID, idText: ID -> string, codec: Codec<R>,
                                       dbFallback: ID -> Option<R>, time: int, unit: TimeUnit)
      returns (r: Option<R>, ghost loaded: bool)
      modifies store`strings
      ensures var cached := old(store.Get(keyPrefix + idText(id)));
        cached.Some? ==>
          && !loaded && store.strings == old(store.strings)
          && r == (if IsBlank(cached.value) then None else Some(codec.decode(cached.value)))
      ensures var key := keyPrefix + idText(id);
        key !in old(store.strings) ==>
          && loaded && r == dbFallback(id)
          && store.strings == old(store.strings)[key := MissEntry(r, codec, time, unit)]
    {
      var key := keyPrefix + idText(id);
      var json := store.Get(key);
      loaded := false;
      if json.Some? && !IsBlank(json.value) {
        return Some(codec.decode(json.value)), loaded;
      }
      if json.Some? {
        return None, loaded;
      }
      loaded := true;
      r := dbFallback(id);
      if r.None? {
        store.Set(key, "", ExpiresIn(ToSeconds(CACHE_NULL_TTL, Minutes)));
        return;
      }
      Set(key, r.value, time, unit, codec);
    }

    /** `queryWithLogicalExpire`. An absent or blank entry reads as null. A
        fresh entry (expiry after `now`) is returned as is. A stale one is
        returned as well, after an attempt at the rebuild lock; `rebuilding`
        says the attempt won, and the caller then runs
        `RebuildWithLogicalExpire` (the asynchronous task). */
    method QueryWithLogicalExpire<ID, R>(keyPrefix: string, id: ID, idText: ID -> string,
                                         codec: Codec<RedisData<R>>, now: int)
      returns (r: Option<R>, rebuilding: bool)
      modifies store`strings
      ensures var cached := old(store.Get(keyPrefix + idText(id)));
        cached.None? || IsBlank(cached.value) ==>
          r.None? && !rebuilding && store.strings == old(store.strings)
      ensures var cached := old(store.Get(keyPrefix + idText(id)));
        cached.Some? && !IsBlank(cached.value) ==>
          var wrapped := codec.decode(cached.value);
          && r == wrapped.data
          && (wrapped.expireTime > now ==> !rebuilding && store.strings == old(store.strings))
          && (wrapped.expireTime <= now ==>
                && (rebuilding <==> LockKey(idText(id)) !in old(store.strings))
                && store.strings == if rebuilding then old(store.strings)[LockKey(idText(id)) := Entry("1", ExpiresIn(LOCK_TTL_SECONDS))] else old(store.strings))
    {
      var key := keyPrefix + idText(id);
      var json := store.Get(key);
      if json.None? || IsBlank(json.value) {
        return None, false;
      }
      var wrapped := codec.decode(json.value);
      r := wrapped.data;
      if wrapped.expireTime > now {
        return r, false;
      }
      rebuilding := TryLck(LockKey(idText(id)));
    }

    /** The rebuild task that a won lock starts: reload from the database,
        write with a fresh logical expiry, then release the lock. */
    method RebuildWithLogicalExpire<ID, R>(keyPrefix: string, id: ID, idText: ID -> string, codec: Codec<RedisData<R>>,
                                           dbFallback: ID -> Option<R>, time: int, unit: TimeUnit, now: int)
      modifies store`strings
      ensures store.strings ==
        old(store.strings)[keyPrefix + idText(id) := Entry(codec.encode(RedisData(now + ToSeconds(time, unit), dbFallback(id))), Persistent)]
        - {LockKey(idText(id))}
    {
      var r1 := dbFallback(id);
      SetWithLogicalExpire(keyPrefix + idText(id), r1, time, unit, now, codec);
      UnLock(LockKey(idText(id)));
    }

    /** `tryLck`: wins only when the key is absent, then holds "1" for ten seconds. */
    method TryLck(key: string) returns (ok: bool)
      modifies store`strings
      ensures ok <==> key !in old(store.strings)
      ensures store.strings == if ok then old(store.strings)[key := Entry("1", ExpiresIn(LOCK_TTL_SECONDS))] else old(store.strings)
    {
      ok := store.SetIfAbsent(key, "1", ExpiresIn(LOCK_TTL_SECONDS));
    }

    /** `unLock`: deletes the key whoever set it. */
    method UnLock(key: string)
      modifies store`strings
      ensures store.strings == old(store.strings) - {key}
    {
      var _ := store.Delete(key);
    }

    /** Pass-through caches what it answers: a second read of the same id
        gives the same result and does not reach the database. */
    method PassThroughIsStable<ID, R(!new)>(keyPrefix: string, id: ID, idText: ID -> string, codec: Codec<R>,
                                            dbFallback: ID -> Option<R>, time: int, unit: TimeUnit)
      returns (first: Option<R>, second: Option<R>, ghost loadedAgain: bool)
      requires RoundTrips(codec)
      modifies store`strings
      ensures second == first && !loadedAgain
    {
      ghost var loaded;
      first, loaded := QueryWithPassThrough(keyPrefix, id, idText, codec, dbFallback, time, unit);
      second, loadedAgain := QueryWithPassThrough(keyPrefix, id, idText, codec, dbFallback, time, unit);
    }

    /** After a won rebuild, the next read at the same moment sees the fresh
        database value, fresh enough not to lock again, and the lock is free.
        (A cache prefix equal to the lock prefix would make the unlock delete
        the value just written.) */
    method RebuildRefreshes<ID, R(!new)>(keyPrefix: string, id: ID, idText: ID -> string, codec: Codec<RedisData<R>>,
                                        dbFallback: ID -> Option<R>, time: int, unit: TimeUnit, now: int)
      returns (after: Option<R>, lockedAgain: bool)
      requires RoundTrips(codec) && time > 0 && keyPrefix != LOCK_SHOP_KEY
      modifies store`strings
      ensures after == dbFallback(id) && !lockedAgain
      ensures LockKey(idText(id)) !in store.strings
    {
      var key := keyPrefix + idText(id);
      DistinctPrefixes(keyPrefix, LOCK_SHOP_KEY, idText(id));
      RebuildWithLogicalExpire(keyPrefix, id, idText, codec, dbFallback, time, unit, now);
      assert store.Get(key) == Some(codec.encode(RedisData(now + ToSeconds(time, unit), dbFallback(id))));
      after, lockedAgain := QueryWithLogicalExpire(keyPrefix, id, idText, codec, now);
    }
  }

  /** Keys built on different prefixes of the same id differ. */
  lemma DistinctPrefixes(p: string, q: string, s: string)
    requires p != q
    ensures p + s != q + s
  {
    if |p| == |q| {
      assert (p + s)[..|p|] == p && (q + s)[..|q|] == q;
    } else {
      assert |p + s| != |q + s|;
    }
  }
}
