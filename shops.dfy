/** `ShopServiceImpl`: shop reads through the cache (pass-through, mutex and
    logical expiry), the cache-invalidating update, and the page of shops
    of a type, by table order or by distance. */
module Shops {
  import opened Common
  import opened Decimal
  import opened JavaLong
  import opened Redis
  import opened RedisConstants
  import opened SystemConstants
  import opened Caching

  /** A `tb_shop` row. `id` and `typeId` are nullable `Long`s; the columns the
      services do not look at are `columns`, by name, a null column being
      absent. */
  datatype Shop = Shop(id: Option<int>, typeId: Option<int>, columns: map<string, string>)

  /** A shop of a distance search: its id and its distance. */
  datatype GeoHit = GeoHit(shopId: int, distance: real)

  /** A shop as the type query returns it: `distance` is set only when the
      shops were found by distance. */
  datatype ShopAt = ShopAt(shop: Shop, distance: Option<real>)

  /** "店铺不存在" (no such shop). */
  const MSG_NO_SHOP: string := "\U{5E97}\U{94FA}\U{4E0D}\U{5B58}\U{5728}"
  /** "店铺id不能为空" (shop id required). */
  const MSG_ID_REQUIRED: string := "\U{5E97}\U{94FA}id\U{4E0D}\U{80FD}\U{4E3A}\U{7A7A}"

  /** How long the logical-expiry read asks its rebuild to last, in minutes. */
  const LOGICAL_TTL_MINUTES: int := 20
  /** How long `saveShop2Redis` makes a rebuilt entry last, in seconds. */
  const REBUILD_SECONDS: int := 20

  /** `CACHE_SHOP_KEY + id`. */
  function ShopKey(id: int): string
  {
    CACHE_SHOP_KEY + LongString(id)
  }

  /** Each shop has its own cache key. */
  lemma ShopKeyInjective(i: int, j: int)
    ensures ShopKey(i) == ShopKey(j) <==> i == j
  {
    if ShopKey(i) == ShopKey(j) {
      assert ShopKey(i)[|CACHE_SHOP_KEY|..] == LongString(i);
      assert ShopKey(j)[|CACHE_SHOP_KEY|..] == LongString(j);
      LongStringInjective(i, j);
    }
  }

  /** `getById`: the first row with the id. */
  function FindShop(rows: seq<Shop>, id: int): (r: Option<Shop>)
    ensures r.Some? ==> r.value in rows && r.value.id == Some(id)
    ensures r.None? ==> forall i :: 0 <= i < |rows| ==> rows[i].id != Some(id)
  {
    if rows == [] then None
    else if rows[0].id == Some(id) then Some(rows[0])
    else FindShop(rows[1..], id)
  }

  /** A row after `updateById` with `shop`: it keeps its id, and each column
      that is not null in `shop` overwrites the row's own; null columns of
      `shop` leave the row's value in place. */
  function Patched(row: Shop, shop: Shop): (r: Shop)
    ensures r.id == row.id
    ensures r.typeId == if shop.typeId.Some? then shop.typeId else row.typeId
    ensures forall c :: c in r.columns <==> c in row.columns || c in shop.columns
    ensures forall c :: c in shop.columns ==> r.columns[c] == shop.columns[c]
    ensures forall c :: c in row.columns && c !in shop.columns ==> r.columns[c] == row.columns[c]
  {
    Shop(row.id, if shop.typeId.Some? then shop.typeId else row.typeId, row.columns + shop.columns)
  }

  /** Applying the same update twice is applying it once. */
  lemma PatchedIdempotent(row: Shop, shop: Shop)
    ensures Patched(Patched(row, shop), shop) == Patched(row, shop)
  {
    assert Patched(Patched(row, shop), shop).columns == Patched(row, shop).columns;
  }

  /** `updateById`: every row with the shop's id takes the shop's non-null
      columns. */
  function UpdateRows(rows: seq<Shop>, shop: Shop): (r: seq<Shop>)
    ensures |r| == |rows|
    ensures forall i :: 0 <= i < |rows| ==> r[i] == if rows[i].id == shop.id then Patched(rows[i], shop) else rows[i]
  {
    if rows == [] then [] else [if rows[0].id == shop.id then Patched(rows[0], shop) else rows[0]] + UpdateRows(rows[1..], shop)
  }

  /** After an update, the updated id reads the new shop (when it had a row)
      and every other id reads what it read before. */
  lemma {:induction false} FindAfterUpdate(rows: seq<Shop>, shop: Shop, id: int)
    ensures FindShop(UpdateRows(rows, shop), id) ==
      if shop.id == Some(id) && FindShop(rows, id).Some? then Some(Patched(FindShop(rows, id).value, shop)) else FindShop(rows, id)
  {
    if rows != [] {
      assert UpdateRows(rows, shop)[1..] == UpdateRows(rows[1..], shop);
      FindAfterUpdate(rows[1..], shop, id);
    }
  }

  /** `Long.parseLong(ttl + digits)`: the TTL text with the random digits
      appended, read back as a number. */
  function JitteredTtl(ttl: nat, digits: string): Option<int>
  {
    ParseLong(NatString(ttl) + digits)
  }

  /** The jitter is decimal concatenation, not addition: two random digits
      `d` turn a TTL of `t` minutes into `100 * t + d`, between `100 * t`
      and `100 * t + 99`. */
  lemma JitterIsConcatenation(ttl: nat, digits: string)
    requires |digits| == 2 && AllDigits(digits) && 100 * ttl + 99 <= LONG_MAX
    ensures JitteredTtl(ttl, digits) == Some(100 * ttl + DigitsValue(digits))
    ensures 100 * ttl <= JitteredTtl(ttl, digits).value < 100 * ttl + 100
  {
    assert Pow10(2) == 100;
    ParseAppended(ttl, digits);
  }

  /** A cached string agrees with the database row: the blank marker stands
      for a missing row, anything else decodes to the row. */
  predicate Agrees(cached: string, row: Option<Shop>, codec: Codec<Shop>)
  {
    if IsBlank(cached) then row.None? else row == Some(codec.decode(cached))
  }

  /** Every cached shop entry of `strings` agrees with `rows`. */
  ghost predicate CoherentWith(strings: map<string, Entry>, rows: seq<Shop>, codec: Codec<Shop>)
  {
    forall id :: ShopKey(id) in strings ==> Agrees(strings[ShopKey(id)].value, FindShop(rows, id), codec)
  }

  /** Writing an entry that agrees with the table keeps the cache coherent,
      because no other id shares the key. */
  lemma CoherentAfterSet(strings: map<string, Entry>, rows: seq<Shop>, codec: Codec<Shop>, id: int, e: Entry)
    requires CoherentWith(strings, rows, codec) && Agrees(e.value, FindShop(rows, id), codec)
    ensures CoherentWith(strings[ShopKey(id) := e], rows, codec)
  {
    forall j | ShopKey(j) in strings[ShopKey(id) := e]
      ensures Agrees(strings[ShopKey(id) := e][ShopKey(j)].value, FindShop(rows, j), codec)
    {
      ShopKeyInjective(j, id);
      if j != id {
        assert ShopKey(j) in strings;
      }
    }
  }

  /** Lock keys are never shop keys: taking or releasing a rebuild lock
      leaves every cached shop as it was. */
  lemma LockKeyIsNotShopKey(s: string, id: int)
    ensures LockKey(s) != ShopKey(id)
  {
    assert LockKey(s)[0] == 'l' && ShopKey(id)[0] == 'c';
  }

  lemma CoherentAfterLock(strings: map<string, Entry>, rows: seq<Shop>, codec: Codec<Shop>, s: string, e: Entry)
    requires CoherentWith(strings, rows, codec)
    ensures CoherentWith(strings[LockKey(s) := e], rows, codec)
    ensures CoherentWith(strings - {LockKey(s)}, rows, codec)
  {
    forall j | ShopKey(j) in strings[LockKey(s) := e]
      ensures Agrees(strings[LockKey(s) := e][ShopKey(j)].value, FindShop(rows, j), codec)
    {
      LockKeyIsNotShopKey(s, j);
    }
  }

  /** The first `from`/`end` of a page: `(current - 1) * PAGE` and
      `current * PAGE`. */
  function PageFrom(current: int): int { (current - 1) * DEFAULT_PAGE_SIZE }
  function PageEnd(current: int): int { current * DEFAULT_PAGE_SIZE }

  /** The hits of page `current` of a distance search: the search keeps the
      first `end` hits, and the page is what lies past `from`. */
  function PageSlice(hits: seq<GeoHit>, current: int): (page: seq<GeoHit>)
    ensures |page| <= DEFAULT_PAGE_SIZE
  {
    var end := if PageEnd(current) < |hits| then PageEnd(current) else |hits|;
    if current < 1 || end <= PageFrom(current) then [] else hits[PageFrom(current)..end]
  }

  /** Pages follow each other without gap or overlap: pages `k` and `k + 1`
      together are the hits from `(k - 1) * PAGE` to `(k + 1) * PAGE`. */
  lemma PagesAreConsecutive(hits: seq<GeoHit>, k: int)
    requires k >= 1
    ensures var lo := if PageFrom(k) < |hits| then PageFrom(k) else |hits|;
      var hi := if PageEnd(k + 1) < |hits| then PageEnd(k + 1) else |hits|;
      PageSlice(hits, k) + PageSlice(hits, k + 1) == hits[lo..hi]
  {
    assert PageFrom(k + 1) == PageEnd(k);
    assert PageFrom(k) <= PageEnd(k);
  }

  /** The shops of a list of ids, in the order of the ids (`ORDER BY
      FIELD(id, ...)`), each with the distance recorded for it; ids without a
      row are skipped. When every id has a row, the `j`-th shop is the row of
      the `j`-th id. */
  function ShopsInOrder(rows: seq<Shop>, ids: seq<int>, distance: map<int, real>): (r: seq<ShopAt>)
    ensures |r| <= |ids|
    ensures forall i :: 0 <= i < |r| ==>
      && r[i].shop in rows && r[i].shop.id.Some? && r[i].shop.id.value in ids
      && r[i].distance == if r[i].shop.id.value in distance then Some(distance[r[i].shop.id.value]) else None
    ensures (forall j :: 0 <= j < |ids| ==> FindShop(rows, ids[j]).Some?) ==>
      && |r| == |ids|
      && forall j :: 0 <= j < |ids| ==> r[j].shop == FindShop(rows, ids[j]).value
  {
    if ids == [] then []
    else
      var rest := ShopsInOrder(rows, ids[1..], distance);
      assert forall j :: 0 <= j < |ids| - 1 ==> ids[1..][j] == ids[j + 1];
      match FindShop(rows, ids[0])
      case None => rest
      case Some(s) => [ShopAt(s, if ids[0] in distance then Some(distance[ids[0]]) else None)] + rest
  }

  /** The order of the result is the order of the ids: the shops of `a + b`
      are the shops of `a` followed by those of `b`. */
  lemma {:induction false} ShopsInOrderSplit(rows: seq<Shop>, a: seq<int>, b: seq<int>, distance: map<int, real>)
    ensures ShopsInOrder(rows, a + b, distance) == ShopsInOrder(rows, a, distance) + ShopsInOrder(rows, b, distance)
  {
    if a == [] {
      assert a + b == b;
    } else {
      assert (a + b)[0] == a[0] && (a + b)[1..] == a[1..] + b;
      ShopsInOrderSplit(rows, a[1..], b, distance);
    }
  }

  /** No shop that has a row is lost: every listed id with a row has its row
      in the result. */
  lemma {:induction false} ShopsInOrderComplete(rows: seq<Shop>, ids: seq<int>, distance: map<int, real>, j: int)
    requires 0 <= j < |ids| && FindShop(rows, ids[j]).Some?
    ensures exists i :: 0 <= i < |ShopsInOrder(rows, ids, distance)| && ShopsInOrder(rows, ids, distance)[i].shop == FindShop(rows, ids[j]).value
  {
    var r := ShopsInOrder(rows, ids, distance);
    if j == 0 {
      assert r[0].shop == FindShop(rows, ids[0]).value;
    } else {
      ShopsInOrderComplete(rows, ids[1..], distance, j - 1);
      var rest := ShopsInOrder(rows, ids[1..], distance);
      var i :| 0 <= i < |rest| && rest[i].shop == FindShop(rows, ids[j]).value;
      if FindShop(rows, ids[0]).Some? {
        assert r[i + 1] == rest[i];
      } else {
        assert r[i] == rest[i];
      }
    }
  }

  /** Where page `current` of a table query starts; a page number below 1 is
      page 1. */
  function TableFrom(current: int): nat
  {
    if current > 1 then (current - 1) * DEFAULT_PAGE_SIZE else 0
  }

  /** Page `current` of the rows of a type, in table order: the
      `DEFAULT_PAGE_SIZE` rows of the type from position `TableFrom(current)`
      on, or fewer at the end. */
  function TablePage(rows: seq<Shop>, typeId: int, current: int): (r: seq<Shop>)
    ensures var n := |OfType(rows, typeId)| - TableFrom(current);
      |r| == if n <= 0 then 0 else if n < DEFAULT_PAGE_SIZE then n else DEFAULT_PAGE_SIZE
    ensures forall i :: 0 <= i < |r| ==> r[i] == OfType(rows, typeId)[TableFrom(current) + i]
    ensures forall i :: 0 <= i < |r| ==> r[i].typeId == Some(typeId)
  {
    var ofType := OfType(rows, typeId);
    var from := TableFrom(current);
    var end := from + DEFAULT_PAGE_SIZE;
    if from >= |ofType| then [] else ofType[from .. if end < |ofType| then end else |ofType|]
  }

  /** `eq("type_id", typeId)`: the rows of the type, in table order. */
  function OfType(rows: seq<Shop>, typeId: int): (r: seq<Shop>)
    ensures |r| <= |rows|
    ensures forall s :: s in r <==> s in rows && s.typeId == Some(typeId)
  {
    if rows == [] then []
    else if rows[0].typeId == Some(typeId) then [rows[0]] + OfType(rows[1..], typeId)
    else OfType(rows[1..], typeId)
  }

  /** The filter keeps table order: the rows of the type in `a + b` are those
      in `a` followed by those in `b`. */
  lemma {:induction false} OfTypeSplit(a: seq<Shop>, b: seq<Shop>, typeId: int)
    ensures OfType(a + b, typeId) == OfType(a, typeId) + OfType(b, typeId)
  {
    if a == [] {
      assert a + b == b;
    } else {
      assert (a + b)[0] == a[0] && (a + b)[1..] == a[1..] + b;
      OfTypeSplit(a[1..], b, typeId);
    }
  }

  predicate DistinctShops(hits: seq<GeoHit>)
  {
    forall i, j :: 0 <= i < j < |hits| ==> hits[i].shopId != hits[j].shopId
  }

  class ShopService {
    const store: RedisStore
    const cacheClient: CacheClient
    /** The JSON mapping of a shop and of a shop wrapped with its expiry. */
    const shopCodec: Codec<Shop>
    const dataCodec: Codec<RedisData<Shop>>
    /** `tb_shop`, in table order. */
    var rows: seq<Shop>

    constructor (store: RedisStore, cacheClient: CacheClient, shopCodec: Codec<Shop>, dataCodec: Codec<RedisData<Shop>>, rows: seq<Shop>)
      requires cacheClient.store == store
      ensures this.store == store && this.cacheClient == cacheClient && this.rows == rows
      ensures this.shopCodec == shopCodec && this.dataCodec == dataCodec
    {
      this.store := store;
      this.cacheClient := cacheClient;
      this.shopCodec := shopCodec;
      this.dataCodec := dataCodec;
      this.rows := rows;
    }

    /** Every cached shop entry agrees with the table: the cache never answers
        differently from the database for the pass-through and mutex reads. */
    ghost predicate Coherent()
      reads this, store`strings
    {
      CoherentWith(store.strings, rows, shopCodec)
    }

    /** `queryById`: the logical-expiry read of `CACHE_SHOP_KEY + id`; no value
        is the failure "店铺不存在". `rebuilding` says this call won the rebuild
        lock; the caller then runs `RebuildById`. */
    method QueryById(id: int, now: int) returns (r: Result<Shop>, rebuilding: bool)
      requires cacheClient.store == store
      modifies store`strings
      ensures var cached := old(store.Get(ShopKey(id)));
        var value := if cached.None? || IsBlank(cached.value) then None else dataCodec.decode(cached.value).data;
        r == if value.None? then Fail(MSG_NO_SHOP) else Ok(value.value)
      ensures var cached := old(store.Get(ShopKey(id)));
        && (rebuilding <==> cached.Some? && !IsBlank(cached.value) && dataCodec.decode(cached.value).expireTime <= now
                            && LockKey(LongString(id)) !in old(store.strings))
        && store.strings == if rebuilding then old(store.strings)[LockKey(LongString(id)) := Entry("1", ExpiresIn(LOCK_TTL_SECONDS))] else old(store.strings)
    {
      var shop;
      shop, rebuilding := cacheClient.QueryWithLogicalExpire(CACHE_SHOP_KEY, id, LongString, dataCodec, now);
      if shop.None? {
        return Fail(MSG_NO_SHOP), rebuilding;
      }
      r := Ok(shop.value);
    }

    /** The rebuild `queryById` starts: the row reloaded with a 20-minute
        logical expiry, then the lock released. */
    method RebuildById(id: int, now: int)
      requires cacheClient.store == store
      modifies store`strings
      ensures store.strings ==
        old(store.strings)[ShopKey(id) := Entry(dataCodec.encode(RedisData(now + 60 * LOGICAL_TTL_MINUTES, FindShop(rows, id))), Persistent)]
        - {LockKey(LongString(id))}
    {
      var table := rows;
      cacheClient.RebuildWithLogicalExpire(CACHE_SHOP_KEY, id, LongString, dataCodec, (i: int) => FindShop(table, i), LOGICAL_TTL_MINUTES, Minutes, now);
    }

    /** The service's own logical-expiry read: the same steps as the cache
        client's, with `saveShop2Redis` (20 seconds) as its rebuild. */
    method QueryWithLogicalExpire(id: int, now: int) returns (r: Option<Shop>, rebuilding: bool)
      requires cacheClient.store == store
      modifies store`strings
      ensures var cached := old(store.Get(ShopKey(id)));
        && r == (if cached.None? || IsBlank(cached.value) then None else dataCodec.decode(cached.value).data)
        && (rebuilding <==> cached.Some? && !IsBlank(cached.value) && dataCodec.decode(cached.value).expireTime <= now
                            && LockKey(LongString(id)) !in old(store.strings))
        && store.strings == if rebuilding then old(store.strings)[LockKey(LongString(id)) := Entry("1", ExpiresIn(LOCK_TTL_SECONDS))] else old(store.strings)
    {
      r, rebuilding := cacheClient.QueryWithLogicalExpire(CACHE_SHOP_KEY, id, LongString, dataCodec, now);
    }

    /** The rebuild task of the service's own logical-expiry read. */
    method RebuildWithSave(id: int, now: int)
      requires cacheClient.store == store
      modifies store`strings
      ensures store.strings ==
        old(store.strings)[ShopKey(id) := Entry(dataCodec.encode(RedisData(now + REBUILD_SECONDS, FindShop(rows, id))), Persistent)]
        - {LockKey(LongString(id))}
    {
      SaveShop2Redis(id, REBUILD_SECONDS, now);
      cacheClient.UnLock(LockKey(LongString(id)));
    }

    /** `saveShop2Redis`: the row (or null) wrapped with `now + expireSeconds`,
        with no store TTL. */
    method SaveShop2Redis(id: int, expireSeconds: int, now: int)
      modifies store`strings
      ensures store.strings == old(store.strings)[ShopKey(id) := Entry(dataCodec.encode(RedisData(now + expireSeconds, FindShop(rows, id))), Persistent)]
    {
      var shop := FindShop(rows, id);
      store.Set(ShopKey(id), dataCodec.encode(RedisData(now + expireSeconds, shop)), Persistent);
    }

    /** The write after a database read, shared by pass-through and mutex: the
        empty marker for `CACHE_NULL_TTL` minutes, or the shop's JSON for the
        jittered TTL in minutes. */
    method WriteBack(id: int, shop: Option<Shop>, digits: string)
      requires |digits| == 2 && AllDigits(digits)
      modifies store`strings
      ensures store.strings == old(store.strings)[ShopKey(id) := ShopEntry(shop, digits)]
    {
      if shop.None? {
        store.Set(ShopKey(id), "", ExpiresIn(ToSeconds(CACHE_NULL_TTL, Minutes)));
        return;
      }
      JitterIsConcatenation(CACHE_SHOP_TTL, digits);
      var ttl := JitteredTtl(CACHE_SHOP_TTL, digits);
      store.Set(ShopKey(id), shopCodec.encode(shop.value), ExpiresIn(ToSeconds(ttl.value, Minutes)));
    }

    /** The entry a read writes back: the empty marker for `CACHE_NULL_TTL`
        minutes, or the shop's JSON for the jittered TTL in minutes. */
    function ShopEntry(shop: Option<Shop>, digits: string): Entry
      requires AllDigits(digits)
    {
      if shop.None? then Entry("", ExpiresIn(ToSeconds(CACHE_NULL_TTL, Minutes)))
      else Entry(shopCodec.encode(shop.value), ExpiresIn(ToSeconds(100 * CACHE_SHOP_TTL + DigitsValue(digits), Minutes)))
    }

    /** The entry written back for the table's own answer agrees with the
        table. */
    lemma ShopEntryAgrees(id: int, digits: string)
      requires AllDigits(digits) && RoundTrips(shopCodec)
      ensures Agrees(ShopEntry(FindShop(rows, id), digits).value, FindShop(rows, id), shopCodec)
    {
      var shop := FindShop(rows, id);
      if shop.Some? {
        assert shopCodec.decode(shopCodec.encode(shop.value)) == shop.value;
      }
    }

    /** `queryWithPassThrough` of the service: as the cache client's, with the
        TTL of a found shop jittered by the two random `digits`. It keeps the
        cache coherent with the table. */
    method QueryWithPassThrough(id: int, digits: string) returns (r: Option<Shop>, ghost loaded: bool)
      requires |digits| == 2 && AllDigits(digits)
      modifies store`strings
      ensures var cached := old(store.Get(ShopKey(id)));
        cached.Some? ==>
          && !loaded && store.strings == old(store.strings)
          && r == (if IsBlank(cached.value) then None else Some(shopCodec.decode(cached.value)))
      ensures ShopKey(id) !in old(store.strings) ==>
        && loaded && r == FindShop(rows, id)
        && store.strings == old(store.strings)[ShopKey(id) := ShopEntry(r, digits)]
      ensures RoundTrips(shopCodec) && old(Coherent()) ==> Coherent() && r == FindShop(rows, id)
    {
      var json := store.Get(ShopKey(id));
      loaded := false;
      if json.Some? && !IsBlank(json.value) {
        return Some(shopCodec.decode(json.value)), loaded;
      }
      if json.Some? {
        return None, loaded;
      }
      loaded := true;
      r := FindShop(rows, id);
      WriteBack(id, r, digits);
      if RoundTrips(shopCodec) && old(Coherent()) {
        ShopEntryAgrees(id, digits);
        CoherentAfterSet(old(store.strings), rows, shopCodec, id, ShopEntry(r, digits));
      }
    }

    /** `queryWithMutex` as written. A miss takes the lock `LOCK_SHOP_KEY +
        id`; a busy lock means sleep and retry, up to `fuel` more times.
        Running out of fuel (`None`) stands for the exception of an
        interrupted sleep. The `finally` of every frame deletes the lock key,
        so a caller that never won the lock deletes the lock of the caller
        that did. */
    method QueryWithMutexAsWritten(id: int, digits: string, fuel: nat) returns (r: Option<Option<Shop>>)
      requires |digits| == 2 && AllDigits(digits)
      requires cacheClient.store == store
      modifies store`strings
      decreases fuel
      ensures var cached := old(store.Get(ShopKey(id)));
        cached.Some? ==>
          store.strings == old(store.strings) && r == Some(if IsBlank(cached.value) then None else Some(shopCodec.decode(cached.value)))
      ensures ShopKey(id) !in old(store.strings) && LockKey(LongString(id)) in old(store.strings) ==>
        r.None? && store.strings == old(store.strings) - {LockKey(LongString(id))}
      ensures ShopKey(id) !in old(store.strings) && LockKey(LongString(id)) !in old(store.strings) ==>
        r == Some(FindShop(rows, id)) && store.strings == old(store.strings)[ShopKey(id) := ShopEntry(FindShop(rows, id), digits)]
    {
      var json := store.Get(ShopKey(id));
      if json.Some? && !IsBlank(json.value) {
        return Some(Some(shopCodec.decode(json.value)));
      }
      if json.Some? {
        return Some(None);
      }
      var lockKey := LockKey(LongString(id));
      DistinctPrefixes(CACHE_SHOP_KEY, LOCK_SHOP_KEY, LongString(id));
      var isLock := cacheClient.TryLck(lockKey);
      if !isLock {
        if fuel == 0 {
          r := None;
        } else {
          r := QueryWithMutexAsWritten(id, digits, fuel - 1);
        }
        cacheClient.UnLock(lockKey);
        return;
      }
      var shop := FindShop(rows, id);
      WriteBack(id, shop, digits);
      cacheClient.UnLock(lockKey);
      r := Some(shop);
    }

    /** `queryWithMutex` with the release moved inside the branch that won
        the lock: a busy lock is retried and finally given up, and the lock of
        the winner stays in place. A won lock is released after the write
        back, and the read keeps the cache coherent. */
    method QueryWithMutex(id: int, digits: string, fuel: nat) returns (r: Option<Option<Shop>>)
      requires |digits| == 2 && AllDigits(digits)
      requires cacheClient.store == store
      modifies store`strings
      decreases fuel
      ensures var cached := old(store.Get(ShopKey(id)));
        cached.Some? ==>
          store.strings == old(store.strings) && r == Some(if IsBlank(cached.value) then None else Some(shopCodec.decode(cached.value)))
      ensures ShopKey(id) !in old(store.strings) && LockKey(LongString(id)) in old(store.strings) ==>
        r.None? && store.strings == old(store.strings)
      ensures ShopKey(id) !in old(store.strings) && LockKey(LongString(id)) !in old(store.strings) ==>
        r == Some(FindShop(rows, id)) && store.strings == old(store.strings)[ShopKey(id) := ShopEntry(FindShop(rows, id), digits)]
      ensures RoundTrips(shopCodec) && old(Coherent()) ==> Coherent() && (r.Some? ==> r.value == FindShop(rows, id))
    {
      var json := store.Get(ShopKey(id));
      if json.Some? && !IsBlank(json.value) {
        return Some(Some(shopCodec.decode(json.value)));
      }
      if json.Some? {
        return Some(None);
      }
      var lockKey := LockKey(LongString(id));
      DistinctPrefixes(CACHE_SHOP_KEY, LOCK_SHOP_KEY, LongString(id));
      var isLock := cacheClient.TryLck(lockKey);
      if !isLock {
        if fuel == 0 {
          return None;
        }
        r := QueryWithMutex(id, digits, fuel - 1);
        return;
      }
      var shop := FindShop(rows, id);
      ghost var locked := store.strings;
      WriteBack(id, shop, digits);
      cacheClient.UnLock(lockKey);
      if RoundTrips(shopCodec) && old(Coherent()) {
        CoherentAfterLock(old(store.strings), rows, shopCodec, LongString(id), Entry("1", ExpiresIn(LOCK_TTL_SECONDS)));
        ShopEntryAgrees(id, digits);
        CoherentAfterSet(locked, rows, shopCodec, id, ShopEntry(shop, digits));
        CoherentAfterLock(locked[ShopKey(id) := ShopEntry(shop, digits)], rows, shopCodec, LongString(id), Entry("1", ExpiresIn(LOCK_TTL_SECONDS)));
      }
      r := Some(shop);
    }

    /** The defect of the `finally` release: a miss that finds the rebuild
        lock taken by another caller deletes that caller's lock, so a third
        caller can take it while the rebuild is still running. */
    method AsWrittenDropsForeignLock(id: int, digits: string) returns (r: Option<Option<Shop>>, thirdWins: bool)
      requires |digits| == 2 && AllDigits(digits)
      requires cacheClient.store == store
      requires ShopKey(id) !in store.strings && LockKey(LongString(id)) in store.strings
      modifies store`strings
      ensures r.None? && thirdWins
    {
      r := QueryWithMutexAsWritten(id, digits, 0);
      thirdWins := cacheClient.TryLck(LockKey(LongString(id)));
    }

    /** The same calls against the corrected read: the other caller's lock
        stays in place and the third caller is kept out. */
    method CorrectedKeepsForeignLock(id: int, digits: string) returns (r: Option<Option<Shop>>, thirdWins: bool)
      requires |digits| == 2 && AllDigits(digits)
      requires cacheClient.store == store
      requires ShopKey(id) !in store.strings && LockKey(LongString(id)) in store.strings
      modifies store`strings
      ensures r.None? && !thirdWins
    {
      r := QueryWithMutex(id, digits, 0);
      thirdWins := cacheClient.TryLck(LockKey(LongString(id)));
    }

    /** `update`: a shop without an id fails and changes nothing; otherwise
        the row is updated and then the cached entry deleted, which keeps the
        cache coherent with the table. */
    method Update(shop: Shop) returns (r: Result<()>)
      modifies this`rows, store`strings
      ensures shop.id.None? ==> r == Fail(MSG_ID_REQUIRED) && rows == old(rows) && store.strings == old(store.strings)
      ensures shop.id.Some? ==>
        && r == Ok(())
        && rows == UpdateRows(old(rows), shop)
        && store.strings == old(store.strings) - {ShopKey(shop.id.value)}
      ensures old(Coherent()) ==> Coherent()
    {
      if shop.id.None? {
        return Fail(MSG_ID_REQUIRED);
      }
      var id := shop.id.value;
      rows := UpdateRows(rows, shop);
      var _ := store.Delete(ShopKey(id));
      r := Ok(());
      if old(Coherent()) {
        forall j | ShopKey(j) in store.strings
          ensures Agrees(store.strings[ShopKey(j)].value, FindShop(rows, j), shopCodec)
        {
          ShopKeyInjective(j, id);
          FindAfterUpdate(old(rows), shop, j);
          assert ShopKey(j) in old(store.strings);
        }
      }
    }

    /** The `ids`/`distanceMap` loop of `queryShopByTpye`: the ids of the hits
        past `from`, in search order, and their distances. */
    method CollectPage(list: seq<GeoHit>, from: nat) returns (ids: seq<int>, distance: map<int, real>)
      requires from <= |list|
      ensures ids == Ids(list[from..]) && distance == Distances(list[from..])
    {
      ids, distance := [], map[];
      var k := from;
      while k < |list|
        invariant from <= k <= |list|
        invariant ids == Ids(list[from..k]) && distance == Distances(list[from..k])
      {
        assert list[from..k + 1][..k - from] == list[from..k];
        ids := ids + [list[k].shopId];
        distance := distance[list[k].shopId := list[k].distance];
        k := k + 1;
      }
      assert list[from..k] == list[from..];
    }

    /** `queryShopByTpye`. Without coordinates: the table page of the type.
        With them, `nearby` is the distance search (null: `None`), ordered by
        distance; the search keeps the first `end` hits, a page past them is
        empty, and otherwise the page's shops come back in search order, each
        with the distance of its hit. `None` is the exception of a search
        whose limit `end` is not positive. */
    method QueryShopByType(typeId: int, current: int, located: bool, nearby: Option<seq<GeoHit>>) returns (r: Option<Result<seq<ShopAt>>>)
      ensures !located ==> r == Some(Ok(ShopsOf(TablePage(rows, typeId, current))))
      ensures located && PageEnd(current) <= 0 ==> r.None?
      ensures located && PageEnd(current) > 0 && nearby.None? ==> r == Some(Ok([]))
      ensures located && PageEnd(current) > 0 && nearby.Some? ==>
        var page := PageSlice(nearby.value, current);
        r == Some(Ok(if page == [] then [] else ShopsInOrder(rows, Ids(page), Distances(page))))
    {
      if !located {
        return Some(Ok(ShopsOf(TablePage(rows, typeId, current))));
      }
      var from := PageFrom(current);
      var end := PageEnd(current);
      if end <= 0 {
        return None;
      }
      if nearby.None? {
        return Some(Ok([]));
      }
      var list := nearby.value[..if end < |nearby.value| then end else |nearby.value|];
      if |list| <= from {
        return Some(Ok([]));
      }
      var ids, distance := CollectPage(list, from);
      assert PageSlice(nearby.value, current) == list[from..];
      r := Some(Ok(ShopsInOrder(rows, ids, distance)));
    }
  }

  /** Table rows as the type query returns them, without distances. */
  function ShopsOf(shops: seq<Shop>): (r: seq<ShopAt>)
    ensures |r| == |shops|
    ensures forall i :: 0 <= i < |r| ==> r[i] == ShopAt(shops[i], None)
  {
    if shops == [] then [] else [ShopAt(shops[0], None)] + ShopsOf(shops[1..])
  }

  /** The shop ids of some hits, in order. */
  function Ids(hits: seq<GeoHit>): (ids: seq<int>)
    ensures |ids| == |hits|
    ensures forall i :: 0 <= i < |hits| ==> ids[i] == hits[i].shopId
  {
    if hits == [] then [] else Ids(hits[..|hits| - 1]) + [hits[|hits| - 1].shopId]
  }

  /** `distanceMap` after putting the hits in order: a later hit of the same
      shop overwrites an earlier one. */
  function Distances(hits: seq<GeoHit>): map<int, real>
  {
    if hits == [] then map[] else Distances(hits[..|hits| - 1])[hits[|hits| - 1].shopId := hits[|hits| - 1].distance]
  }

  /** Every hit's shop has a distance; with one hit per shop, as a distance
      search gives, it is the hit's own distance. */
  lemma {:induction false} DistancesOfHits(hits: seq<GeoHit>, i: int)
    requires 0 <= i < |hits|
    ensures hits[i].shopId in Distances(hits)
    ensures DistinctShops(hits) ==> Distances(hits)[hits[i].shopId] == hits[i].distance
  {
    var last := |hits| - 1;
    if i < last {
      DistancesOfHits(hits[..last], i);
    }
  }
}
