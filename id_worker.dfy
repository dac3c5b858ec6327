/** `RedisIdWorker`: globally unique order ids. The high 32 bits are the
    seconds since 2022-01-01T00:00:00Z, the low 32 bits a per-prefix,
    per-day counter kept in the store. */
module IdWorker {
  import opened Common
  import opened JavaLong
  import opened Decimal
  import opened Calendar
  import opened Redis

  const BEGIN_TIMESTAMP: int := 1640995200
  const COUNT_BITS: nat := 32

  /** `nowSecond - BEGIN_TIMESTAMP` as a long. */
  function Timestamp(now: DateTime): int
    requires Calendar.Valid(now)
  {
    Wrap(EpochSecond(now) - BEGIN_TIMESTAMP)
  }

  /** `"icr:" + keyPrefix + ":" + date`, the date as `yyyy:MM:dd`. */
  function CounterKey(keyPrefix: string, now: DateTime): string
    requires Calendar.Valid(now)
  {
    "icr:" + keyPrefix + ":" + DayStamp(now)
  }

  /** `timestamp << COUNT_BITS | count`. */
  function PackId(timestamp: int, count: int): int
  {
    Or(ShiftLeft(timestamp, COUNT_BITS), count)
  }

  /** There is one counter per prefix and day: two counter keys coincide
      exactly when both the prefix and the calendar day do. */
  lemma CounterKeyInjective(p: string, a: DateTime, q: string, b: DateTime)
    requires Calendar.Valid(a) && Calendar.Valid(b)
    ensures CounterKey(p, a) == CounterKey(q, b) <==> p == q && SameDay(a, b)
  {
    DayStampExact(a, b);
    DayStampExact(b, a);
    var ka, kb := CounterKey(p, a), CounterKey(q, b);
    if ka == kb {
      assert |p| == |q|;
      assert ka[4..4 + |p|] == p && kb[4..4 + |q|] == q;
      assert ka[5 + |p|..] == DayStamp(a) && kb[5 + |q|..] == DayStamp(b);
    }
  }

  /** Within the id's range the packing is plain arithmetic: `t * 2^32 + c`. */
  lemma PackIsSum(t: int, c: int)
    requires -0x8000_0000 <= t < 0x8000_0000 && 0 <= c < TWO_32
    ensures PackId(t, c) == t * TWO_32 + c
  {
    PackIsArithmetic(t, c);
  }

  /** The id decodes back into its timestamp (`id >> 32`) and its count
      (`id & 0xFFFFFFFF`). */
  lemma PackRoundTrip(t: int, c: int)
    requires -0x8000_0000 <= t < 0x8000_0000 && 0 <= c < TWO_32
    ensures ShiftRight(PackId(t, c), COUNT_BITS) == t
    ensures LowBits(PackId(t, c), COUNT_BITS) == c
  {
    PackIsSum(t, c);
    Pow2Value();
  }

  /** Ids order like (timestamp, count) pairs: a later second always gives a
      larger id, and within a second the larger count does. */
  lemma PackOrder(t1: int, c1: int, t2: int, c2: int)
    requires -0x8000_0000 <= t1 < 0x8000_0000 && 0 <= c1 < TWO_32
    requires -0x8000_0000 <= t2 < 0x8000_0000 && 0 <= c2 < TWO_32
    ensures PackId(t1, c1) < PackId(t2, c2) <==> t1 < t2 || (t1 == t2 && c1 < c2)
  {
    PackIsSum(t1, c1);
    PackIsSum(t2, c2);
  }

  /** An id is non-negative while the timestamp is. */
  lemma PackNonNegative(t: int, c: int)
    requires 0 <= t < 0x8000_0000 && 0 <= c < TWO_32
    ensures PackId(t, c) >= 0
  {
    PackIsSum(t, c);
  }

  /** The count the next `INCR` of the counter gives, when it succeeds. */
  function NextCount(counter: Option<Entry>): Option<int>
  {
    match counter
    case None => Some(1)
    case Some(e) =>
      var was := CounterValue(e.value);
      if was.Some? && was.value < LONG_MAX then Some(was.value + 1) else None
  }

  /** The string keys after `INCR key`: the counter advanced by one, keeping
      its TTL, or no change when the counter cannot be read. */
  function Bumped(strings: map<string, Entry>, key: string): map<string, Entry>
  {
    var count := NextCount(if key in strings then Some(strings[key]) else None);
    if count.None? then strings
    else strings[key := Entry(LongString(count.value), if key in strings then strings[key].expiry else Persistent)]
  }

  class RedisIdWorker {
    const store: RedisStore

    constructor (store: RedisStore)
      ensures this.store == store
    {
      this.store := store;
    }

    function Counter(key: string): Option<Entry>
      reads store`strings
    {
      if key in store.strings then Some(store.strings[key]) else None
    }

    /** `nextId`: bumps the day's counter for the prefix by one and packs the
        new count under the current timestamp. A counter that `INCR` cannot
        read fails the call (`None`) and changes nothing. */
    method NextId(keyPrefix: string, now: DateTime) returns (id: Option<int>)
      requires Calendar.Valid(now)
      modifies store`strings
      ensures var key := CounterKey(keyPrefix, now);
        var count := NextCount(old(Counter(key)));
        && id == (if count.Some? then Some(PackId(Timestamp(now), count.value)) else None)
        && store.strings == Bumped(old(store.strings), key)
    {
      var timestamp := Timestamp(now);
      var key := CounterKey(keyPrefix, now);
      assert LongString(1) == "1";
      var count := store.Increment(key);
      if count.None? {
        return None;
      }
      id := Some(PackId(timestamp, count.value));
    }

    /** Two ids taken for the same prefix on the same day, the second no
        earlier than the first, are increasing, while the day's count stays
        below 2^32 and the clock within 2^31 seconds of the epoch. */
    method TwoIdsIncrease(keyPrefix: string, t1: DateTime, t2: DateTime) returns (id1: Option<int>, id2: Option<int>)
      requires Calendar.Valid(t1) && Calendar.Valid(t2) && SameDay(t1, t2)
      requires BEGIN_TIMESTAMP <= EpochSecond(t1) <= EpochSecond(t2) < BEGIN_TIMESTAMP + 0x8000_0000
      requires var c := Counter(CounterKey(keyPrefix, t1));
        c.None? || (CounterValue(c.value.value).Some? && 0 <= CounterValue(c.value.value).value < TWO_32 - 2)
      modifies store`strings
      ensures id1.Some? && id2.Some? && 0 <= id1.value < id2.value
    {
      var key := CounterKey(keyPrefix, t1);
      CounterKeyInjective(keyPrefix, t1, keyPrefix, t2);
      ghost var c1 := NextCount(Counter(key));
      id1 := NextId(keyPrefix, t1);
      CounterRoundTrip(c1.value);
      ghost var c2 := NextCount(Counter(key));
      assert c2 == Some(c1.value + 1);
      id2 := NextId(keyPrefix, t2);
      PackNonNegative(Timestamp(t1), c1.value);
      PackOrder(Timestamp(t1), c1.value, Timestamp(t2), c2.value);
    }
  }
}
