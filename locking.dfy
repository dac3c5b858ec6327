/** `SimpleRedisLock`, the store-backed implementation of `ILock`: a named lock
    is the string key `"lock:" + name`; acquiring sets it to the caller's
    holder token only when absent, with a lease; releasing deletes it only
    when it still holds the caller's token, so a holder whose lease ran out
    cannot release the lock of whoever took it next. */
module Locking {
  import opened Common
  import opened Decimal
  import opened Redis

  const KEY_PREFIX: string := "lock:"

  /** `ID_PREFIX + threadId`: the process's UUID (32 hex digits), a dash, and
      the thread id. */
  function HolderToken(processId: string, threadId: int): string
  {
    processId + "-" + LongString(threadId)
  }

  /** Tokens of processes with same-length ids are equal only for the same
      process and the same thread. */
  lemma HolderTokenInjective(p: string, t: int, q: string, u: int)
    requires |p| == |q|
    ensures HolderToken(p, t) == HolderToken(q, u) <==> p == q && t == u
  {
    var a, b := HolderToken(p, t), HolderToken(q, u);
    if a == b {
      assert a[..|p|] == p && b[..|q|] == q;
      assert a[|p| + 1..] == LongString(t) && b[|q| + 1..] == LongString(u);
      LongStringInjective(t, u);
    }
  }

  class SimpleRedisLock {
    const store: RedisStore
    const name: string
    /** The per-process UUID part of `ID_PREFIX`. */
    const processId: string

    constructor (store: RedisStore, name: string, processId: string)
      ensures this.store == store && this.name == name && this.processId == processId
    {
      this.store := store;
      this.name := name;
      this.processId := processId;
    }

    function Key(): string
    {
      KEY_PREFIX + name
    }

    /** The lock is held, by the holder with token `token`. */
    predicate HeldBy(token: string)
      reads this, store`strings
    {
      Key() in store.strings && store.strings[Key()].value == token
    }

    /** `tryLock`: true exactly when the key was absent; the key then holds
        this thread's token with a `timeoutSec` lease. A held lock is left as
        it was. */
    method TryLock(timeoutSec: int, threadId: int) returns (ok: bool)
      modifies store`strings
      ensures ok <==> Key() !in old(store.strings)
      ensures ok ==> store.strings == old(store.strings)[Key() := Entry(HolderToken(processId, threadId), ExpiresIn(timeoutSec))]
      ensures !ok ==> store.strings == old(store.strings)
    {
      var id := HolderToken(processId, threadId);
      ok := store.SetIfAbsent(Key(), id, ExpiresIn(timeoutSec));
    }

    /** `unLock`: deletes the key only when it holds this thread's token;
        otherwise nothing changes. */
    method UnLock(threadId: int)
      modifies store`strings
      ensures old(HeldBy(HolderToken(processId, threadId))) ==> store.strings == old(store.strings) - {Key()}
      ensures !old(HeldBy(HolderToken(processId, threadId))) ==> store.strings == old(store.strings)
    {
      var id := HolderToken(processId, threadId);
      var stored := store.Get(Key());
      if stored == Some(id) {
        var _ := store.Delete(Key());
      }
    }

    /** Acquiring a free lock and releasing it from the same thread leaves the
        store as it was. */
    method AcquireThenRelease(timeoutSec: int, threadId: int) returns (ok: bool)
      requires Key() !in store.strings
      modifies store`strings
      ensures ok && store.strings == old(store.strings)
    {
      ok := TryLock(timeoutSec, threadId);
      UnLock(threadId);
      assert store.strings == old(store.strings)[Key() := Entry(HolderToken(processId, threadId), ExpiresIn(timeoutSec))] - {Key()};
    }

    /** While one thread holds the lock, another thread can neither take it
        nor release it. */
    method Contended(timeoutSec: int, holder: int, other: int) returns (ok: bool)
      requires holder != other && HeldBy(HolderToken(processId, holder))
      modifies store`strings
      ensures !ok && store.strings == old(store.strings)
    {
      HolderTokenInjective(processId, holder, processId, other);
      ok := TryLock(timeoutSec, other);
      UnLock(other);
    }

    /** A lease that runs out lets another thread in; the first thread's late
        release then leaves the new holder's lock in place. */
    method LateReleaseKeepsNewHolder(timeoutSec: int, first: int, second: int) returns (firstOk: bool, secondOk: bool)
      requires first != second && Key() !in store.strings
      modifies store`strings
      ensures firstOk && secondOk && HeldBy(HolderToken(processId, second))
    {
      HolderTokenInjective(processId, first, processId, second);
      firstOk := TryLock(timeoutSec, first);
      store.Lapse(Key());
      secondOk := TryLock(timeoutSec, second);
      UnLock(first);
    }
  }
}
