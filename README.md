# hm-dianping service core in Dafny

This project models the Redis-backed service layer of hm-dianping, a
restaurant-review and flash-sale web service written in Java (Spring and
`StringRedisTemplate`). All of the core logic is made of decisions and
updates over a shared Redis store. The model therefore has one in-memory
store (`Redis.RedisStore`) holding:

- string values with an optional TTL;
- hashes, sets and sorted sets;
- bitmaps.

Beside the store there is one consumer-group stream (`Redis.Stream`). Each
service is a class that holds the store and its own database table as
fields. The service methods change those fields step by step, as the Java
code does.

The modules follow the source:

- `Caching` models `CacheClient`:
  - pass-through reads with an empty-string negative marker;
  - logical expiry with a set-if-absent rebuild lock.
- `Locking` models `SimpleRedisLock`, with an owner token and an
  owner-checked release.
- `IdWorker` models `RedisIdWorker`: `timestamp << 32 | count` over a
  per-prefix, per-day counter.
- `VoucherOrders` models `VoucherOrderServiceImpl`:
  - the mapping of the admission script's reply;
  - the guarded stock decrement and order insert;
  - the per-user lock wrapper;
  - one pass of the stream consumer and one pass of its pending-list recovery.
- `Shops` models `ShopServiceImpl`:
  - the three cache strategies and the jittered TTL;
  - the cache-invalidating update;
  - the page of shops by type, by table order or by distance.
- `ShopTypes` models `ShopTypeServiceImpl.queryList`.
- `Users` models `UserServiceImpl`:
  - the SMS-code log-in with a token-keyed session hash;
  - the monthly check-in bitmap and its trailing-ones streak loop.
- `Blogs` models `BlogServiceImpl`: like toggling, fan-out of new blogs to
  follower feeds, and the `(minTime, offset)` scroll cursor.
- `Follows` models `FollowServiceImpl`: the follow and unfollow updates,
  `isFollow`, and the common-follows intersection.
- Supporting modules:
  - `Common`: option and result types, `TimeUnit`, hutool's blank test;
  - `JavaLong`: Java `long` arithmetic written out with explicit 64-bit wrap-around;
  - `Decimal`: `Long.toString` and `Long.valueOf`;
  - `Calendar`: `LocalDateTime`, its epoch second and the two date patterns;
  - `Ordering`: a verified insertion sort for `ORDER BY`.

Nothing external is called. The clock, random digits, UUIDs, generated
ids, database replies and the admission script's result are all
parameters. JSON mapping is an abstract `Codec` whose round-trip is
assumed where a property needs it (`Caching.RoundTrips`).

`CacheClient.queryWithPassThrough` writes a found value with the caller's
TTL unchanged (`utils/CacheClient.java:96-97`); only the shop service's own
reads add random digits to the TTL. `Caching.CacheClient.QueryWithPassThrough`
writes the unchanged TTL.

`createVoucherOrder` filters `voucher_id` against the whole `voucherOrder`
object (`VoucherOrderServiceImpl.java:409`, `:421`). The model uses the
intended `(userId, voucherId)` predicate instead (`VoucherOrders.HasOrder`).

A shop row has a nullable type id and a map of its other columns, a null
column being absent from the map. `updateById` writes only the columns
that are not null in its argument (`Shops.Patched`).

## Model

All source paths are below `hm-dianping/hm-dianping/src/main/java/com/hmdp/`.
The table cites them in full.

| member | source | states |
|---|---|---|
| Caching.CacheClient.constructor | hm-dianping/hm-dianping/src/main/java/com/hmdp/utils/CacheClient.java:30-32 | the client works on the store it is given |
| Caching.CacheClient.Set | hm-dianping/hm-dianping/src/main/java/com/hmdp/utils/CacheClient.java:41-43 | the key is overwritten unconditionally with the value's JSON and the caller's TTL; no other key changes |
| Caching.CacheClient.SetWithLogicalExpire | hm-dianping/hm-dianping/src/main/java/com/hmdp/utils/CacheClient.java:53-60 | the key holds the value wrapped with expiry `now + unit.toSeconds(time)`, and has no store TTL |
| Caching.CacheClient.QueryWithPassThrough | hm-dianping/hm-dianping/src/main/java/com/hmdp/utils/CacheClient.java:66-101 | a present non-blank value is decoded, and a blank one reads as null; in both cases the loader is not called and the store is unchanged. An absent key calls the loader once. A null result writes `""` for `CACHE_NULL_TTL` minutes; a found one writes its JSON with the caller's unjittered TTL and is returned |
| Caching.CacheClient.QueryWithLogicalExpire | hm-dianping/hm-dianping/src/main/java/com/hmdp/utils/CacheClient.java:108-159 | an absent or blank entry gives null, takes no lock and changes nothing. An unexpired entry gives its value and takes no lock. An expired entry gives its stale value; the lock `LOCK_SHOP_KEY + id` is tried whatever the prefix, and `rebuilding` holds exactly when the lock key was absent |
| Caching.CacheClient.RebuildWithLogicalExpire | hm-dianping/hm-dianping/src/main/java/com/hmdp/utils/CacheClient.java:140-155 | the rebuild task writes the reloaded value with a fresh logical expiry, then deletes the lock key |
| Caching.CacheClient.TryLck | hm-dianping/hm-dianping/src/main/java/com/hmdp/utils/CacheClient.java:161-165 | succeeds exactly when the key was absent; it then holds `"1"` for 10 seconds, and otherwise nothing changes |
| Caching.CacheClient.UnLock | hm-dianping/hm-dianping/src/main/java/com/hmdp/utils/CacheClient.java:173-175 | the key is deleted whoever holds it |
| Caching.CacheClient.PassThroughIsStable | hm-dianping/hm-dianping/src/main/java/com/hmdp/utils/CacheClient.java:69-100 | with a round-tripping codec, a second pass-through read gives the first read's answer without calling the loader |
| Caching.CacheClient.RebuildRefreshes | hm-dianping/hm-dianping/src/main/java/com/hmdp/utils/CacheClient.java:125-155 | after a rebuild, a read at the same moment gets the fresh database value, does not lock again, and finds the lock free |
| Caching.DistinctPrefixes | hm-dianping/hm-dianping/src/main/java/com/hmdp/utils/CacheClient.java:110-135 | a cache key and a lock key built on different prefixes of the same id differ |
| Locking.HolderTokenInjective | hm-dianping/hm-dianping/src/main/java/com/hmdp/utils/SimpleRedisLock.java:22-61 | two holder tokens `ID_PREFIX + threadId` are equal exactly when the process and the thread are |
| Locking.SimpleRedisLock.constructor | hm-dianping/hm-dianping/src/main/java/com/hmdp/utils/SimpleRedisLock.java:34-37 | the lock keeps its store and its name |
| Locking.SimpleRedisLock.TryLock | hm-dianping/hm-dianping/src/main/java/com/hmdp/utils/SimpleRedisLock.java:47-53 | true exactly when `"lock:" + name` was absent. The key then holds this thread's token with a `timeoutSec` lease; a held lock is left as it was |
| Locking.SimpleRedisLock.UnLock | hm-dianping/hm-dianping/src/main/java/com/hmdp/utils/SimpleRedisLock.java:56-74 | the key is deleted exactly when it holds the caller's token; otherwise the store is unchanged |
| Locking.SimpleRedisLock.AcquireThenRelease | hm-dianping/hm-dianping/src/main/java/com/hmdp/utils/SimpleRedisLock.java:47-62 | acquiring a free lock and releasing it from the same thread succeeds and leaves the store as it was |
| Locking.SimpleRedisLock.Contended | hm-dianping/hm-dianping/src/main/java/com/hmdp/utils/SimpleRedisLock.java:47-62 | while one thread holds the lock, another can neither take it nor release it |
| Locking.SimpleRedisLock.LateReleaseKeepsNewHolder | hm-dianping/hm-dianping/src/main/java/com/hmdp/utils/SimpleRedisLock.java:47-62 | when a lease runs out and a second thread takes the lock, the first thread's late release leaves the second holder's lock in place |
| JavaLong.Wrap | hm-dianping/hm-dianping/src/main/java/com/hmdp/utils/RedisIdWorker.java:28 | a long result is in long range, equals the mathematical value when that fits, and differs from it by a multiple of 2^64 |
| JavaLong.PackIsArithmetic | hm-dianping/hm-dianping/src/main/java/com/hmdp/utils/RedisIdWorker.java:42 | for an int-range `x` and `0 <= c < 2^32`, the long expression `(x << 32) \| c` equals `x * 2^32 + c`, including for negative `x` |
| JavaLong.IntValue | hm-dianping/hm-dianping/src/main/java/com/hmdp/service/impl/VoucherOrderServiceImpl.java:259 | `Long.intValue()` is in int range and keeps the low 32 bits |
| Calendar.CustomEpoch | hm-dianping/hm-dianping/src/main/java/com/hmdp/utils/RedisIdWorker.java:18 | `BEGIN_TIMESTAMP` 1640995200 is 2022-01-01T00:00:00Z |
| Calendar.DayStampExact | hm-dianping/hm-dianping/src/main/java/com/hmdp/utils/RedisIdWorker.java:33 | the `yyyy:MM:dd` text is ten characters long and equal for two times exactly on the same day |
| Calendar.MonthSuffixExact | hm-dianping/hm-dianping/src/main/java/com/hmdp/service/impl/UserServiceImpl.java:142 | the `:yyyyMM` text is seven characters long and equal for two times exactly in the same month |
| IdWorker.CounterKeyInjective | hm-dianping/hm-dianping/src/main/java/com/hmdp/utils/RedisIdWorker.java:33-36 | two counter keys `"icr:" + prefix + ":" + date` coincide exactly when the prefix and the day do |
| IdWorker.PackIsSum | hm-dianping/hm-dianping/src/main/java/com/hmdp/utils/RedisIdWorker.java:20-42 | the packed id is `timestamp * 2^32 + count` |
| IdWorker.PackRoundTrip | hm-dianping/hm-dianping/src/main/java/com/hmdp/utils/RedisIdWorker.java:20-42 | `id >> 32` gives the timestamp back, and the low 32 bits give the count back |
| IdWorker.PackOrder | hm-dianping/hm-dianping/src/main/java/com/hmdp/utils/RedisIdWorker.java:42 | ids order like (timestamp, count) pairs, in both directions |
| IdWorker.PackNonNegative | hm-dianping/hm-dianping/src/main/java/com/hmdp/utils/RedisIdWorker.java:42 | the id is non-negative while `0 <= timestamp < 2^31` |
| IdWorker.RedisIdWorker.NextId | hm-dianping/hm-dianping/src/main/java/com/hmdp/utils/RedisIdWorker.java:24-43 | the day's counter for the prefix goes up by exactly one, and the new count is packed under the current timestamp. A counter `INCR` cannot read fails the call and changes nothing |
| IdWorker.RedisIdWorker.TwoIdsIncrease | hm-dianping/hm-dianping/src/main/java/com/hmdp/utils/RedisIdWorker.java:24-43 | two ids for the same prefix and day, in time order, are non-negative and strictly increasing |
| Redis.CounterRoundTrip | hm-dianping/hm-dianping/src/main/java/com/hmdp/utils/RedisIdWorker.java:36 | a counter `INCR` wrote reads back as the same long |
| Redis.RedisStore.Get | hm-dianping/hm-dianping/src/main/java/com/hmdp/utils/CacheClient.java:71 | `GET` gives a value exactly for a present key, and it is the stored one |
| Redis.RedisStore.Set | hm-dianping/hm-dianping/src/main/java/com/hmdp/utils/CacheClient.java:42 | `SET` overwrites one key |
| Redis.RedisStore.SetIfAbsent | hm-dianping/hm-dianping/src/main/java/com/hmdp/utils/SimpleRedisLock.java:50-51 | `SET NX` writes exactly when the key is absent, and reports it |
| Redis.RedisStore.Delete | hm-dianping/hm-dianping/src/main/java/com/hmdp/utils/CacheClient.java:174 | `DEL` removes one key and reports whether it was there |
| Redis.RedisStore.Increment | hm-dianping/hm-dianping/src/main/java/com/hmdp/utils/RedisIdWorker.java:36 | `INCR` counts an absent key from 0 and keeps the TTL. A non-numeric value, or `LONG_MAX`, is an error that changes nothing |
| Redis.RedisStore.Lapse | hm-dianping/hm-dianping/src/main/java/com/hmdp/utils/SimpleRedisLock.java:51 | a key with a TTL can disappear; a key without one stays |
| Redis.RedisStore.HPutAll | hm-dianping/hm-dianping/src/main/java/com/hmdp/service/impl/UserServiceImpl.java:125 | `HMSET` merges fields into the hash |
| Redis.RedisStore.ExpireHash | hm-dianping/hm-dianping/src/main/java/com/hmdp/service/impl/UserServiceImpl.java:128 | `EXPIRE` sets the TTL of an existing hash only |
| Redis.RedisStore.SAdd | hm-dianping/hm-dianping/src/main/java/com/hmdp/service/impl/FollowServiceImpl.java:53 | `SADD` adds one member |
| Redis.RedisStore.SRem | hm-dianping/hm-dianping/src/main/java/com/hmdp/service/impl/FollowServiceImpl.java:62 | `SREM` removes one member |
| Redis.RedisStore.Intersect | hm-dianping/hm-dianping/src/main/java/com/hmdp/service/impl/FollowServiceImpl.java:96 | `SINTER` holds exactly the members of both sets |
| Redis.RedisStore.ZAdd | hm-dianping/hm-dianping/src/main/java/com/hmdp/service/impl/BlogServiceImpl.java:122 | after `ZADD` the member has the new score, and every other member keeps its own |
| Redis.RedisStore.ZRem | hm-dianping/hm-dianping/src/main/java/com/hmdp/service/impl/BlogServiceImpl.java:131 | after `ZREM` the member has no score, and every other member keeps its own |
| Redis.RedisStore.SetBit | hm-dianping/hm-dianping/src/main/java/com/hmdp/service/impl/UserServiceImpl.java:147 | `SETBIT` changes one bit and grows the string with zero bits |
| Redis.ZFind | hm-dianping/hm-dianping/src/main/java/com/hmdp/service/impl/BlogServiceImpl.java:96 | `ZSCORE` gives a score exactly when the member is in the set |
| Redis.ZUpsertFind | hm-dianping/hm-dianping/src/main/java/com/hmdp/service/impl/BlogServiceImpl.java:122 | after an upsert, the member's score is the new one and the other members' scores are unchanged |
| Redis.ZRemoveFind | hm-dianping/hm-dianping/src/main/java/com/hmdp/service/impl/BlogServiceImpl.java:131 | after a removal, the member has no score and the other members' scores are unchanged |
| Redis.RevOrderIsTotalPreorder | hm-dianping/hm-dianping/src/main/java/com/hmdp/service/impl/BlogServiceImpl.java:197-198 | reverse score order, with ties broken by member, is a total preorder |
| Redis.RevRangeByScoreSound | hm-dianping/hm-dianping/src/main/java/com/hmdp/service/impl/BlogServiceImpl.java:197-198 | a `ZREVRANGEBYSCORE ... LIMIT` page has at most `count` entries, in reverse score order, within the bounds, each one a member of the set |
| Redis.ScoreFilter | hm-dianping/hm-dianping/src/main/java/com/hmdp/service/impl/BlogServiceImpl.java:198 | the filter keeps exactly the entries with a score in range, and nothing else |
| Redis.UnsignedField | hm-dianping/hm-dianping/src/main/java/com/hmdp/service/impl/UserServiceImpl.java:163-170 | `BITFIELD GET u<width> 0` is below 2^width |
| Redis.WithBit | hm-dianping/hm-dianping/src/main/java/com/hmdp/service/impl/UserServiceImpl.java:147 | after `SETBIT`, the bit at the offset has the new value, every other bit is unchanged, and the string is long enough |
| Redis.Stream.Add | hm-dianping/hm-dianping/src/main/java/com/hmdp/service/impl/VoucherOrderServiceImpl.java:251-257 | `XADD`, done by the admission script, appends one entry and returns its id |
| Redis.Stream.ReadNew | hm-dianping/hm-dianping/src/main/java/com/hmdp/service/impl/VoucherOrderServiceImpl.java:113-117 | `XREADGROUP ... >` delivers the next undelivered entry and puts it on the pending list, or gives nothing when all are delivered |
| Redis.Stream.ReadPending | hm-dianping/hm-dianping/src/main/java/com/hmdp/service/impl/VoucherOrderServiceImpl.java:146-150 | `XREADGROUP ... 0` gives the oldest pending entry, and nothing exactly when the pending list is empty |
| Redis.Stream.Ack | hm-dianping/hm-dianping/src/main/java/com/hmdp/service/impl/VoucherOrderServiceImpl.java:131 | `XACK` takes the id off the pending list and keeps the stream valid |
| Redis.Without | hm-dianping/hm-dianping/src/main/java/com/hmdp/service/impl/VoucherOrderServiceImpl.java:164 | the pending list after an `XACK` keeps every other id and never the acknowledged one |
| Redis.WithoutFirst | hm-dianping/hm-dianping/src/main/java/com/hmdp/service/impl/VoucherOrderServiceImpl.java:157-164 | acknowledging the head of a duplicate-free pending list drops exactly the head |
| Decimal.LongRoundTrip | hm-dianping/hm-dianping/src/main/java/com/hmdp/service/impl/FollowServiceImpl.java:53-102 | `Long.valueOf(Long.toString(x)) == x` for every long |
| Decimal.LongStringInjective | hm-dianping/hm-dianping/src/main/java/com/hmdp/service/impl/FollowServiceImpl.java:53-102 | two longs print the same exactly when they are equal |
| Decimal.ParseAppended | hm-dianping/hm-dianping/src/main/java/com/hmdp/service/impl/ShopServiceImpl.java:191 | parsing a number's text followed by digits gives `n * 10^k + digits` |
| Ordering.SortCorrect | hm-dianping/hm-dianping/src/main/java/com/hmdp/service/impl/ShopTypeServiceImpl.java:65 | `ORDER BY` gives a sorted permutation of its input |
| VoucherOrders.SeckillReply | hm-dianping/hm-dianping/src/main/java/com/hmdp/service/impl/VoucherOrderServiceImpl.java:259-263 | the reply is `ok(orderId)` exactly when the result's `intValue()` is 0. Otherwise it fails with "库存不足" for 1 and "不能重复下单" for anything else |
| VoucherOrders.SeckillReplyLow32 | hm-dianping/hm-dianping/src/main/java/com/hmdp/service/impl/VoucherOrderServiceImpl.java:259 | only the low 32 bits of the script's long result decide the reply |
| VoucherOrders.AppendKeepsOnePerUser | hm-dianping/hm-dianping/src/main/java/com/hmdp/service/impl/VoucherOrderServiceImpl.java:404-442 | saving an order for a user without one for that voucher keeps one order per user and voucher |
| VoucherOrders.VoucherOrderService.SeckillVoucher | hm-dianping/hm-dianping/src/main/java/com/hmdp/service/impl/VoucherOrderServiceImpl.java:244-286 | the order id comes from `nextId("order")` before the script runs. The script's code is mapped by `SeckillReply`, and only code 0 queues the order `(orderId, userId, voucherId)`. Stock, orders and the stream stay valid |
| VoucherOrders.VoucherOrderService.CreateVoucherOrder | hm-dianping/hm-dianping/src/main/java/com/hmdp/service/impl/VoucherOrderServiceImpl.java:399-446 | an existing order for the user and voucher changes nothing. A decrement guarded by `stock > 0` that updates no row saves nothing. Otherwise stock drops by exactly one and exactly one order is saved. Stock never goes negative, stock plus sold stays the initial stock, and there is one order per user |
| VoucherOrders.VoucherOrderService.HandleVoucherOrder | hm-dianping/hm-dianping/src/main/java/com/hmdp/service/impl/VoucherOrderServiceImpl.java:202-231 | without the user's lock nothing happens and the call returns normally. With it the order is created, and the lock is released on every exit, including a database exception, which rolls back and propagates |
| VoucherOrders.VoucherOrderService.RunOnce | hm-dianping/hm-dianping/src/main/java/com/hmdp/service/impl/VoucherOrderServiceImpl.java:109-138 | an empty read changes nothing (`Idle`). Otherwise the entry is delivered, and handling throws (`Threw`) exactly when the database faults for a user whose lock is free. After `Threw` the entry stays pending and stock and orders are unchanged. Otherwise it is acknowledged (`Acked`), and the order was created exactly when the user's lock was free and `createVoucherOrder` admits it |
| VoucherOrders.VoucherOrderService.PendingOnce | hm-dianping/hm-dianping/src/main/java/com/hmdp/service/impl/VoucherOrderServiceImpl.java:141-171 | the pass leaves the loop exactly when the pending list is empty. Otherwise the oldest pending entry is handled. If handling threw, it stays at the head and stock and orders are unchanged. If not, it is dropped from the list, and its order was created exactly when the user's lock was free and `createVoucherOrder` admits it |
| VoucherOrders.VoucherOrderService.AdmittedOrderIsCreated | hm-dianping/hm-dianping/src/main/java/com/hmdp/service/impl/VoucherOrderServiceImpl.java:109-286 | an order the admission script queues (code 0) is created by the next fault-free consumer pass when the user's lock is free and stock remains; any other reply queues nothing and the pass is idle |
| VoucherOrders.VoucherOrderService.HandlePendingList | hm-dianping/hm-dianping/src/main/java/com/hmdp/service/impl/VoucherOrderServiceImpl.java:141-173 | the recovery loop exits only with an empty pending list. With no faults, enough passes always empty it |
| Shops.ShopKeyInjective | hm-dianping/hm-dianping/src/main/java/com/hmdp/service/impl/ShopServiceImpl.java:151 | `CACHE_SHOP_KEY + id` is a different key for every id |
| Shops.FindShop | hm-dianping/hm-dianping/src/main/java/com/hmdp/service/impl/ShopServiceImpl.java:178 | `getById` finds a row with the id, or reports that there is none |
| Shops.Patched | hm-dianping/hm-dianping/src/main/java/com/hmdp/service/impl/ShopServiceImpl.java:296 | an updated row keeps its id; each column that is not null in the argument overwrites the row's, and a null one leaves the row's value |
| Shops.PatchedIdempotent | hm-dianping/hm-dianping/src/main/java/com/hmdp/service/impl/ShopServiceImpl.java:296 | applying the same update twice is applying it once |
| Shops.UpdateRows | hm-dianping/hm-dianping/src/main/java/com/hmdp/service/impl/ShopServiceImpl.java:296 | `updateById` patches exactly the rows with the shop's id and leaves the others as they were |
| Shops.FindAfterUpdate | hm-dianping/hm-dianping/src/main/java/com/hmdp/service/impl/ShopServiceImpl.java:296 | after an update, the updated id reads its old row patched with the update (when it had a row), and every other id reads what it read before |
| Shops.JitterIsConcatenation | hm-dianping/hm-dianping/src/main/java/com/hmdp/service/impl/ShopServiceImpl.java:190-191 | `Long.parseLong(CACHE_SHOP_TTL + two random digits)` is `100 * ttl + d`, in `[100 * ttl, 100 * ttl + 100)`, not `ttl + d` |
| Shops.CoherentAfterSet | hm-dianping/hm-dianping/src/main/java/com/hmdp/service/impl/ShopServiceImpl.java:229-240 | writing a shop entry that agrees with the table keeps every cached shop coherent with the table |
| Shops.LockKeyIsNotShopKey | hm-dianping/hm-dianping/src/main/java/com/hmdp/service/impl/ShopServiceImpl.java:151-167 | a lock key is never a shop cache key |
| Shops.CoherentAfterLock | hm-dianping/hm-dianping/src/main/java/com/hmdp/service/impl/ShopServiceImpl.java:167-197 | taking or releasing a rebuild lock keeps the cache coherent |
| Shops.PageSlice | hm-dianping/hm-dianping/src/main/java/com/hmdp/service/impl/ShopServiceImpl.java:315-335 | a page of a distance search has at most `DEFAULT_PAGE_SIZE` hits |
| Shops.PagesAreConsecutive | hm-dianping/hm-dianping/src/main/java/com/hmdp/service/impl/ShopServiceImpl.java:315-316 | pages `k` and `k + 1` together are the hits from `(k - 1) * PAGE` to `(k + 1) * PAGE`, without gap or overlap |
| Shops.ShopsInOrder | hm-dianping/hm-dianping/src/main/java/com/hmdp/service/impl/ShopServiceImpl.java:348-353 | each shop is a table row whose id was asked for, carrying the distance recorded for that id. When every id has a row, there is one shop per id and the `j`-th shop is the row of the `j`-th id |
| Shops.ShopsInOrderSplit | hm-dianping/hm-dianping/src/main/java/com/hmdp/service/impl/ShopServiceImpl.java:348 | the shops follow the order of the ids: the shops of `a + b` are those of `a` followed by those of `b` |
| Shops.ShopsInOrderComplete | hm-dianping/hm-dianping/src/main/java/com/hmdp/service/impl/ShopServiceImpl.java:348 | every listed id that has a row has its row in the result |
| Shops.TablePage | hm-dianping/hm-dianping/src/main/java/com/hmdp/service/impl/ShopServiceImpl.java:306-311 | the page holds the rows of the type from position `(current - 1) * DEFAULT_PAGE_SIZE` on, in table order: `DEFAULT_PAGE_SIZE` of them, or the rest at the end, or none past the end |
| Shops.OfType | hm-dianping/hm-dianping/src/main/java/com/hmdp/service/impl/ShopServiceImpl.java:308 | `eq("type_id", typeId)` keeps exactly the rows of the type |
| Shops.OfTypeSplit | hm-dianping/hm-dianping/src/main/java/com/hmdp/service/impl/ShopServiceImpl.java:308 | the filter keeps table order: the rows of the type in `a + b` are those in `a` followed by those in `b` |
| Shops.ShopsOf | hm-dianping/hm-dianping/src/main/java/com/hmdp/service/impl/ShopServiceImpl.java:311 | table rows are returned one for one, without distances |
| Shops.Ids | hm-dianping/hm-dianping/src/main/java/com/hmdp/service/impl/ShopServiceImpl.java:342 | the id list holds the hits' shop ids, in search order |
| Shops.DistancesOfHits | hm-dianping/hm-dianping/src/main/java/com/hmdp/service/impl/ShopServiceImpl.java:345-352 | every hit's shop has a distance in the map; with one hit per shop it is the hit's own distance |
| Shops.ShopService.QueryById | hm-dianping/hm-dianping/src/main/java/com/hmdp/service/impl/ShopServiceImpl.java:78-84 | the logical-expiry read of `CACHE_SHOP_KEY + id`; no value fails with "店铺不存在", and the lock is taken only for an expired entry whose lock is free |
| Shops.ShopService.RebuildById | hm-dianping/hm-dianping/src/main/java/com/hmdp/service/impl/ShopServiceImpl.java:78-79 | the rebuild writes the row with a 20-minute logical expiry and frees the lock |
| Shops.ShopService.QueryWithLogicalExpire | hm-dianping/hm-dianping/src/main/java/com/hmdp/service/impl/ShopServiceImpl.java:96-142 | blank or absent gives null. Fresh gives the value. Stale gives the stale value and tries the lock `LOCK_SHOP_KEY + id` |
| Shops.ShopService.RebuildWithSave | hm-dianping/hm-dianping/src/main/java/com/hmdp/service/impl/ShopServiceImpl.java:127-137 | the rebuild task is `saveShop2Redis(id, 20)`, then the lock is deleted |
| Shops.ShopService.SaveShop2Redis | hm-dianping/hm-dianping/src/main/java/com/hmdp/service/impl/ShopServiceImpl.java:247-257 | the row (or null) is wrapped with `now + expireSeconds` and written with no store TTL |
| Shops.ShopService.WriteBack | hm-dianping/hm-dianping/src/main/java/com/hmdp/service/impl/ShopServiceImpl.java:180-191 | a missing row writes `""` for `CACHE_NULL_TTL` minutes; a found one writes its JSON for the concatenated TTL in minutes |
| Shops.ShopService.ShopEntryAgrees | hm-dianping/hm-dianping/src/main/java/com/hmdp/service/impl/ShopServiceImpl.java:229-240 | what a read writes back for the table's answer agrees with the table |
| Shops.ShopService.QueryWithPassThrough | hm-dianping/hm-dianping/src/main/java/com/hmdp/service/impl/ShopServiceImpl.java:209-244 | a hit returns without a database read (blank gives null). A miss reads the table and writes the answer back. The read keeps the cache coherent and then returns exactly the table's answer |
| Shops.ShopService.QueryWithMutexAsWritten | hm-dianping/hm-dianping/src/main/java/com/hmdp/service/impl/ShopServiceImpl.java:150-201 | as written: a miss that finds the lock held retries, and every frame's `finally` deletes the lock key whether or not it took it. Running out of fuel (`None`) stands for the exception of an interrupted sleep |
| Shops.ShopService.QueryWithMutex | hm-dianping/hm-dianping/src/main/java/com/hmdp/service/impl/ShopServiceImpl.java:150-201 | corrected: a busy lock leaves the store unchanged. A won lock reads the table, writes back and frees the lock. The read keeps the cache coherent, and any answer is the table's |
| Shops.ShopService.AsWrittenDropsForeignLock | hm-dianping/hm-dianping/src/main/java/com/hmdp/service/impl/ShopServiceImpl.java:170-197 | after an as-written miss against a held lock, a third caller can take the lock |
| Shops.ShopService.CorrectedKeepsForeignLock | hm-dianping/hm-dianping/src/main/java/com/hmdp/service/impl/ShopServiceImpl.java:170-197 | with the corrected release, the third caller is kept out |
| Shops.ShopService.Update | hm-dianping/hm-dianping/src/main/java/com/hmdp/service/impl/ShopServiceImpl.java:290-301 | a null id fails with "店铺id不能为空" and changes nothing. Otherwise the rows are updated and then `CACHE_SHOP_KEY + id` is deleted, which keeps the cache coherent |
| Shops.ShopService.CollectPage | hm-dianping/hm-dianping/src/main/java/com/hmdp/service/impl/ShopServiceImpl.java:337-346 | the loop collects exactly the ids and distances of the hits from `from` on |
| Shops.ShopService.QueryShopByType | hm-dianping/hm-dianping/src/main/java/com/hmdp/service/impl/ShopServiceImpl.java:304-356 | without coordinates it returns the type's table page. A null search, or one with no hits past `from`, gives an empty list. Otherwise the shops of the hits from `from` to `end` come back in search order, each with its distance |
| ShopTypes.OrderedIsSortedPermutation | hm-dianping/hm-dianping/src/main/java/com/hmdp/service/impl/ShopTypeServiceImpl.java:65 | the type list has every row once, by ascending `sort` |
| ShopTypes.ShopTypeService.QueryList | hm-dianping/hm-dianping/src/main/java/com/hmdp/service/impl/ShopTypeServiceImpl.java:53-78 | any cached string, even an empty one, is returned as it is and changes nothing. A miss with no types fails with "店铺类型不存在" and caches nothing. Otherwise the sorted list is returned and its text cached without a TTL |
| ShopTypes.ShopTypeService.SecondCallIsCached | hm-dianping/hm-dianping/src/main/java/com/hmdp/service/impl/ShopTypeServiceImpl.java:53-78 | after a database read, the next call is answered from the cache with the text of the list |
| Users.FindByPhone | hm-dianping/hm-dianping/src/main/java/com/hmdp/service/impl/UserServiceImpl.java:102 | the lookup finds a user with the phone, or reports that there is none |
| Users.FindAppended | hm-dianping/hm-dianping/src/main/java/com/hmdp/service/impl/UserServiceImpl.java:106-109 | after a user with a new phone is inserted, that phone finds the new user |
| Users.LoginUser | hm-dianping/hm-dianping/src/main/java/com/hmdp/service/impl/UserServiceImpl.java:102-109 | the log-in user has the phone; a phone without a user gets the new id and the nickname prefix plus the digits |
| Users.SessionFields | hm-dianping/hm-dianping/src/main/java/com/hmdp/service/impl/UserServiceImpl.java:117-121 | the session hash holds `id`, `nickName` and `icon`, every value as text |
| Users.SessionIdRoundTrip | hm-dianping/hm-dianping/src/main/java/com/hmdp/service/impl/UserServiceImpl.java:117-121 | the id stored in the session hash parses back to the user's id |
| Users.SignKeyInjective | hm-dianping/hm-dianping/src/main/java/com/hmdp/service/impl/UserServiceImpl.java:142-143 | two sign keys coincide exactly when the user and the month do |
| Users.Streak | hm-dianping/hm-dianping/src/main/java/com/hmdp/service/impl/UserServiceImpl.java:161-195 | the streak ending on a day is at most that day's number |
| Users.TrailingOnesIsStreak | hm-dianping/hm-dianping/src/main/java/com/hmdp/service/impl/UserServiceImpl.java:163-195 | the trailing ones of the first `dayOfMonth` bits, read as a number, are exactly the days signed in a row up to today |
| Users.SignExtendsStreak | hm-dianping/hm-dianping/src/main/java/com/hmdp/service/impl/UserServiceImpl.java:145-147 | signing today makes today's streak one more than yesterday's |
| Users.StreakBefore | hm-dianping/hm-dianping/src/main/java/com/hmdp/service/impl/UserServiceImpl.java:147 | setting a later bit does not change an earlier streak |
| Users.FieldFitsLong | hm-dianping/hm-dianping/src/main/java/com/hmdp/service/impl/UserServiceImpl.java:163-176 | a month's bitfield fits a non-negative long |
| Users.CountTrailingOnes | hm-dianping/hm-dianping/src/main/java/com/hmdp/service/impl/UserServiceImpl.java:176-193 | the loop of `num & 1` and `num >>>= 1` counts exactly the trailing ones, and gives 0 for 0 |
| Users.UserService.SendCode | hm-dianping/hm-dianping/src/main/java/com/hmdp/service/impl/UserServiceImpl.java:60-78 | a malformed phone fails and writes nothing; otherwise the code is stored under `LOGIN_CODE_KEY + phone` for `LOGIN_CODE_TTL` minutes |
| Users.UserService.CreateUserWithPhone | hm-dianping/hm-dianping/src/main/java/com/hmdp/service/impl/UserServiceImpl.java:198-206 | one new row with the phone and the nickname `USER_NICK_NAME_PREFIX` plus the random digits |
| Users.UserService.StoreSession | hm-dianping/hm-dianping/src/main/java/com/hmdp/service/impl/UserServiceImpl.java:116-128 | the session hash is merged under `LOGIN_USER_KEY + token` and expires after `LOGIN_USER_TTL` minutes |
| Users.UserService.Login | hm-dianping/hm-dianping/src/main/java/com/hmdp/service/impl/UserServiceImpl.java:81-133 | a malformed phone fails. A missing or different code fails with "验证码错误". A failure changes nothing. Success (exactly when both checks pass) returns the token, creates the user only for an unknown phone, stores the session hash, and keeps phones unique |
| Users.UserService.SendThenLogin | hm-dianping/hm-dianping/src/main/java/com/hmdp/service/impl/UserServiceImpl.java:60-133 | a code sent to a well-formed phone lets that phone log in |
| Users.UserService.Sign | hm-dianping/hm-dianping/src/main/java/com/hmdp/service/impl/UserServiceImpl.java:136-149 | sets bit `dayOfMonth - 1` of the user's bitmap for the month |
| Users.UserService.SignCount | hm-dianping/hm-dianping/src/main/java/com/hmdp/service/impl/UserServiceImpl.java:152-196 | the count is the current check-in streak, between 0 and `dayOfMonth` |
| Users.UserService.SignThenCount | hm-dianping/hm-dianping/src/main/java/com/hmdp/service/impl/UserServiceImpl.java:136-196 | sign, then count, gives one more than yesterday's streak |
| Follows.CountFollows | hm-dianping/hm-dianping/src/main/java/com/hmdp/service/impl/FollowServiceImpl.java:77-78 | the count is positive exactly when a matching row exists |
| Follows.RemoveFollows | hm-dianping/hm-dianping/src/main/java/com/hmdp/service/impl/FollowServiceImpl.java:57-59 | the delete removes exactly the matching rows |
| Follows.FollowersOf | hm-dianping/hm-dianping/src/main/java/com/hmdp/service/impl/BlogServiceImpl.java:175 | the follower query keeps exactly the rows with `follow_user_id` equal to the author |
| Follows.UsersWithIds | hm-dianping/hm-dianping/src/main/java/com/hmdp/service/impl/FollowServiceImpl.java:104 | `listByIds` keeps exactly the users whose id is asked for |
| Follows.SpelledIds | hm-dianping/hm-dianping/src/main/java/com/hmdp/service/impl/FollowServiceImpl.java:102 | every numeric member's value is among the parsed ids |
| Follows.SpelledIdsOfPrintedIds | hm-dianping/hm-dianping/src/main/java/com/hmdp/service/impl/FollowServiceImpl.java:53-102 | for sets written by `follow`, an id is parsed from the set exactly when its text is a member |
| Follows.FollowService.FollowUser | hm-dianping/hm-dianping/src/main/java/com/hmdp/service/impl/FollowServiceImpl.java:40-68 | follow saves a row and adds the id to `follows:userId` only if the save succeeded. Unfollow deletes the matching rows and removes the id only if a row was deleted |
| Follows.FollowService.IsFollow | hm-dianping/hm-dianping/src/main/java/com/hmdp/service/impl/FollowServiceImpl.java:71-84 | true exactly when a matching row exists |
| Follows.FollowService.FollowThenUnfollow | hm-dianping/hm-dianping/src/main/java/com/hmdp/service/impl/FollowServiceImpl.java:40-84 | after a saved follow, `isFollow` is true; after the unfollow, it is false and the id is out of the set |
| Follows.FollowService.FollowCommon | hm-dianping/hm-dianping/src/main/java/com/hmdp/service/impl/FollowServiceImpl.java:87-109 | an empty intersection gives an empty list, and a non-numeric member is the parse exception. Otherwise the result is exactly the users whose ids the intersection spells |
| Blogs.AddLiked | hm-dianping/hm-dianping/src/main/java/com/hmdp/service/impl/BlogServiceImpl.java:119-128 | `liked = liked + delta` changes exactly the blog's row |
| Blogs.AddLikedKeepsIds | hm-dianping/hm-dianping/src/main/java/com/hmdp/service/impl/BlogServiceImpl.java:119-128 | a counter update keeps the blog in the table |
| Blogs.AddLikedUndo | hm-dianping/hm-dianping/src/main/java/com/hmdp/service/impl/BlogServiceImpl.java:119-128 | `+1` then `-1` leaves the counters as they were |
| Blogs.Toggle | hm-dianping/hm-dianping/src/main/java/com/hmdp/service/impl/BlogServiceImpl.java:117-133 | a like toggle flips exactly the user's membership |
| Blogs.ToggleTwice | hm-dianping/hm-dianping/src/main/java/com/hmdp/service/impl/BlogServiceImpl.java:117-133 | two toggles restore the likers |
| Blogs.FindBlog | hm-dianping/hm-dianping/src/main/java/com/hmdp/service/impl/BlogServiceImpl.java:222-224 | a blog lookup finds a row with the id, or reports that there is none |
| Blogs.BlogsInOrder | hm-dianping/hm-dianping/src/main/java/com/hmdp/service/impl/BlogServiceImpl.java:222-224 | each blog is a table row whose id was asked for. When every id has a row, there is one blog per id and the `j`-th blog is the row of the `j`-th id |
| Blogs.BlogsInOrderSplit | hm-dianping/hm-dianping/src/main/java/com/hmdp/service/impl/BlogServiceImpl.java:222-224 | the blogs follow the order of the ids: the blogs of `a + b` are those of `a` followed by those of `b` |
| Blogs.BlogsInOrderComplete | hm-dianping/hm-dianping/src/main/java/com/hmdp/service/impl/BlogServiceImpl.java:222-224 | every listed id that has a row has its row in the result |
| Blogs.FeedKeysHas | hm-dianping/hm-dianping/src/main/java/com/hmdp/service/impl/BlogServiceImpl.java:177-181 | every follower row's feed key is among the pushed keys |
| Blogs.WithZAddFind | hm-dianping/hm-dianping/src/main/java/com/hmdp/service/impl/BlogServiceImpl.java:183 | one push sets the blog's score in one feed and changes no other score |
| Blogs.PushedScores | hm-dianping/hm-dianping/src/main/java/com/hmdp/service/impl/BlogServiceImpl.java:177-184 | after the fan-out, the blog has the push time in every follower's feed, and no other feed entry changed |
| Blogs.TailRun | hm-dianping/hm-dianping/src/main/java/com/hmdp/service/impl/BlogServiceImpl.java:205-217 | the final run of a score is no longer than the page |
| Blogs.PageIds | hm-dianping/hm-dianping/src/main/java/com/hmdp/service/impl/BlogServiceImpl.java:209 | every member parses, in page order, or the parse throws exactly when some member is not a number |
| Blogs.ScanPage | hm-dianping/hm-dianping/src/main/java/com/hmdp/service/impl/BlogServiceImpl.java:204-218 | `ids` lists the members in page order; `minTime` is the last score; `os` is the final run of that score, one more when every score is 0 |
| Blogs.PageCursor | hm-dianping/hm-dianping/src/main/java/com/hmdp/service/impl/BlogServiceImpl.java:204-234 | the page's ids with the cursor as written, or as corrected |
| Blogs.CountIsTailRun | hm-dianping/hm-dianping/src/main/java/com/hmdp/service/impl/BlogServiceImpl.java:205-217 | in a page in reverse score order, the entries with the last score are exactly the final run |
| Blogs.FeedPageIsSlice | hm-dianping/hm-dianping/src/main/java/com/hmdp/service/impl/BlogServiceImpl.java:197-198 | a non-empty page is the slice of the sorted feed from `offset` |
| Blogs.SkippedCount | hm-dianping/hm-dianping/src/main/java/com/hmdp/service/impl/BlogServiceImpl.java:197-198 | the skipped entries count toward the new `minTime` only when the whole page has the score `max` |
| Blogs.NextOffsetCountsDelivered | hm-dianping/hm-dianping/src/main/java/com/hmdp/service/impl/BlogServiceImpl.java:205-234 | the corrected offset is exactly the number of delivered entries whose score is the new `minTime` |
| Blogs.AsWrittenRepeatsPage | hm-dianping/hm-dianping/src/main/java/com/hmdp/service/impl/BlogServiceImpl.java:205-234 | as written: when a page scored `max` is as long as the offset, the returned cursor equals the request, so the same page comes again |
| Blogs.BlogService.WithLikeFlag | hm-dianping/hm-dianping/src/main/java/com/hmdp/service/impl/BlogServiceImpl.java:86-99 | with no viewer the blog is unchanged; otherwise `isLike` holds exactly when the viewer has a score in `BLOG_LIKED_KEY + id` |
| Blogs.BlogService.LikeBlog | hm-dianping/hm-dianping/src/main/java/com/hmdp/service/impl/BlogServiceImpl.java:108-135 | not yet liked: `liked + 1`, and the user is added with the time as score only if a row was updated. Liked: `liked - 1`, and the user is removed only if a row was updated. No other liker changes |
| Blogs.BlogService.Likers | hm-dianping/hm-dianping/src/main/java/com/hmdp/service/impl/BlogServiceImpl.java:115 | the likers are exactly the members with a score |
| Blogs.BlogService.LikeStep | hm-dianping/hm-dianping/src/main/java/com/hmdp/service/impl/BlogServiceImpl.java:108-135 | a like of an existing blog moves the counter by one and toggles the user among the likers |
| Blogs.BlogService.LikeTwiceRestores | hm-dianping/hm-dianping/src/main/java/com/hmdp/service/impl/BlogServiceImpl.java:117-133 | two likes by the same user restore both the counters and the likers |
| Blogs.BlogService.SaveBlog | hm-dianping/hm-dianping/src/main/java/com/hmdp/service/impl/BlogServiceImpl.java:165-189 | a failed save fails with "新增笔记失败" and pushes nothing. Otherwise the blog is stored and pushed to every follower's feed, and its id is returned |
| Blogs.BlogService.PushToFeeds | hm-dianping/hm-dianping/src/main/java/com/hmdp/service/impl/BlogServiceImpl.java:177-184 | the loop pushes the blog to each follower's feed in turn |
| Blogs.BlogService.SaveReachesFollowers | hm-dianping/hm-dianping/src/main/java/com/hmdp/service/impl/BlogServiceImpl.java:165-189 | after a save, every follower's feed has the blog at the push time, and no other feed entry changed |
| Blogs.BlogService.Scroll | hm-dianping/hm-dianping/src/main/java/com/hmdp/service/impl/BlogServiceImpl.java:192-238 | the page is at most 2 feed entries in `[0, max]` from `offset`. An empty page is `ok()` with no data, and a non-numeric member is the exception. Otherwise the page's blogs come back in page order with the viewer's like flag, plus `minTime` and the offset |
| Blogs.BlogService.LikeFlags | hm-dianping/hm-dianping/src/main/java/com/hmdp/service/impl/BlogServiceImpl.java:226-231 | each listed blog is flagged for the viewer |

## Left out

- Concurrency is not modelled. The asynchronous rebuild tasks, the consumer
  thread and interleavings between callers are out. A rebuild is a separate
  method the caller runs after winning the lock (`RebuildWithLogicalExpire`,
  `RebuildById`, `RebuildWithSave`).
- Two scripts the store runs are not part of this model: `seckill.lua` and
  `unlock.lua`.
  - The admission script's result code is an input. On code 0 the script's
    `XADD` of the order is part of `SeckillVoucher`, since the Java code never
    appends itself. Stock and buyer bookkeeping inside the script are not
    stated.
  - `unlock.lua` is modelled by the compare-then-delete of the older
    `unLock`, done as one step.
- Redisson `RLock` is out. The per-user lock of `handleVoucherOrder` is a set of
  users whose lock is held elsewhere (`locked`).
- `ILock` is not a separate interface. `SimpleRedisLock` is modelled as a plain
  class because this model has no interfaces.
- `RedisConstants`, `SystemConstants` and `RegexUtils` are not part of this
  model. The prefixes and TTLs in `RedisConstants` are stand-ins, and
  `isPhoneInvalid` is a parameter. `SHOP_GEO_KEY` appears only through the
  search result, which is an input.
- JSON and bean mapping are an abstract `Codec`. Its round-trip is assumed only
  where a property states it (`Caching.RoundTrips`).
- The clock, random digits, UUIDs, thread ids, inserted ids and
  `System.currentTimeMillis()` are parameters.
- Time does not flow. A TTL that runs out is the explicit event
  `Redis.RedisStore.Lapse`.
- Each Redis data type has its own key space. The services never reuse a key
  across types, so `WRONGTYPE` errors are not modelled.
- Database replies that depend on the database are parameters:
  - `saveOk` for an insert;
  - `fault` for an exception inside `createVoucherOrder`.

  An update or delete succeeds exactly when some row matches: `likeBlog` and
  unfollow.
- `Shops.ShopService.QueryWithMutexAsWritten`: the unbounded sleep-and-retry
  recursion is bounded by `fuel`. Running out of fuel (`None`) stands for the
  `InterruptedException` of the sleep, which the source rethrows after its
  `finally` has run.
- `Shops.ShopService.QueryWithMutex`: the same fuel bound applies. `Thread.sleep`
  and `InterruptedException` are not modelled.
- `Shops.ShopService.QueryShopByType` has several gaps:
  - The geo search over `Double` coordinates within 5 km is an input: the hits
    in distance order.
  - Its limit to `end` hits is applied by the model.
  - Distances are `real`.
  - Member names are taken as already-parsed shop ids.
  - The 32-bit `int` arithmetic of `from` and `end` is unbounded.
  - A null `current` is not modelled.
  - A non-positive `end` is taken to be the exception the search throws.
- `Shops.ShopsInOrder`: an id repeated among the hits returns its shop once
  per hit, where `in (...)` returns it once. A geo set never repeats a member.
- `Blogs.BlogsInOrder`: likewise a repeated id returns its blog once per
  occurrence. The members of a feed page are distinct printed ids.
- `Shops.Patched`: the columns other than the id and the type are one map, so
  their individual SQL types are not modelled.
- `ShopTypes.Ordered`: rows with equal `sort` keep table order, because the
  sort is stable. SQL leaves the order of such ties unspecified.
- `Caching.CacheClient.QueryWithPassThrough`: the loader `dbFallback` cannot
  throw. The source would then write nothing and let the exception
  propagate.
- `Blogs.BlogService.SaveBlog`: one `nowMillis` is the score for every
  follower. The source reads `System.currentTimeMillis()` once per follower,
  so later followers can get later scores.
- `Locking.SimpleRedisLock.TryLock`: the store always answers `SET NX`, so
  the null reply that `Boolean.TRUE.equals` treats as failure does not occur.
- `Users.UserService.SignCount`: a null or empty `BITFIELD` reply is not
  modelled, because the store always answers. A missing key reads as zero,
  which gives 0 as the source does.
- `Users.UserService.Login`: `query().eq("phone", phone).one()` is assumed to
  find at most one row. `Login` proves it keeps phones unique, and
  `FindByPhone` takes the first match.
- `Blogs.BlogService.Scroll` simplifies three things:
  - Scores are integers, the millisecond timestamps the service writes, not
    doubles.
  - `queryBlogUser` (author name and icon) is not modelled; the author is
    assumed to exist.
  - The order of members with equal scores is by member text. Redis orders
    them lexicographically by bytes.
- `Blogs.AsWrittenNextOffset`: a page whose scores are all 0 counts one too
  many, because `minTime` starts at 0 and `os` at 1. Timestamps are never
  0, so this is not listed as a finding.
- `queryHotBlog`, `queryBlogById`, `queryBlogLikes` and `queryBlogUser` in
  `BlogServiceImpl` are outside the modelled core. So are the thread-local
  `UserHolder` and the interceptors, whose user id is a parameter.
- `VoucherOrders.VoucherOrderService.CreateVoucherOrder`: `@Transactional`
  and the `AopContext` proxy make the method one atomic step.
- `VoucherOrders.VoucherOrderService.CreateVoucherOrder`: the order-count query
  filters `voucher_id` against the whole order object (lines 409 and 421), not
  its voucher id. The model checks `(userId, voucherId)` instead
  (`VoucherOrders.HasOrder`).
- `VoucherOrders.VoucherOrderService.HandlePendingList`: the loop is bounded
  by the number of passes given. The source loops until the list is empty.
- `VoucherOrders.VoucherOrderService.RunOnce`: the two-second blocking read is
  one non-blocking read, and the `while (true)` loop is one pass per call.

## Findings

| source | as written | input that shows it | evidently intended | confidence | as-written member | corrected member |
|---|---|---|---|---|---|---|
| hm-dianping/hm-dianping/src/main/java/com/hmdp/service/impl/ShopServiceImpl.java:170-197 | `queryWithMutex` releases the lock in `finally`, also in a frame that found the lock busy and never took it | two interleavings. (1) The shop key is absent and caller A holds `lock:shop:<id>`. Caller B finds it busy and sleeps, and the sleep is interrupted. B's `finally` deletes A's lock, and a third caller's `tryLck` succeeds while A is still rebuilding. (2) B's retry wins the lock, rebuilds and releases it, and a fourth caller then takes the lock. B's outer frame then returns and deletes the fourth caller's lock. In the model, the fuel-0 exit stands for the interrupt in (1) | only the caller that won `tryLck` releases it; a busy caller leaves the lock alone | not executed | Shops.ShopService.QueryWithMutexAsWritten, Shops.ShopService.AsWrittenDropsForeignLock | Shops.ShopService.QueryWithMutex, Shops.ShopService.CorrectedKeepsForeignLock |
| hm-dianping/hm-dianping/src/main/java/com/hmdp/service/impl/BlogServiceImpl.java:205-234 | `queryBlogOfFollow` returns as `offset` the run of `minTime` within this page only. When the whole page has the request's own `max`, the entries the request skipped also have that score but are not counted | a feed with four entries of the same timestamp `t`, requested with `max = t, offset = 2`: the page is entries 3 and 4, and the returned cursor is again `(t, 2)`, so the same page is returned forever | when `minTime == max`, the next offset adds the request's offset, which gives `(t, 4)` | not executed | Blogs.AsWrittenNextOffset, Blogs.AsWrittenRepeatsPage | Blogs.NextOffset, Blogs.NextOffsetCountsDelivered |
