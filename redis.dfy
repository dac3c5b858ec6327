/** The part of Redis the services use, as one in-memory store: string values
    with an optional time-to-live, hashes, sets, sorted sets and bitmaps.
    Each data type lives in its own map; the services never give two data
    types the same key. Time is not tracked: a TTL that runs out is the
    separate event `Lapse`. */
module Redis {
  import opened Common
  import opened Decimal
  import opened JavaLong
  import Ordering

  datatype Expiry = Persistent | ExpiresIn(seconds: int)

  datatype Entry = Entry(value: string, expiry: Expiry)

  datatype HashEntry = HashEntry(fields: map<string, string>, expiry: Expiry)

  /** A sorted-set member with its score (a `ZSetOperations.TypedTuple`). */
  datatype Scored = Scored(member: string, score: int)

  /** A counter as `INCR` reads it: the canonical decimal text of a long. */
  function CounterValue(s: string): (r: Option<int>)
    ensures r.Some? ==> InLong(r.value) && LongString(r.value) == s
  {
    match ParseLong(s)
    case None => None
    case Some(v) => if LongString(v) == s then Some(v) else None
  }

  /** Whatever `INCR` writes, it reads back. */
  lemma CounterRoundTrip(v: int)
    requires InLong(v)
    ensures CounterValue(LongString(v)) == Some(v)
  {
    LongRoundTrip(v);
  }

  /** The score of `member`, if it is in the sorted set. */
  function ZFind(z: seq<Scored>, member: string): (r: Option<int>)
    ensures r.Some? <==> exists i :: 0 <= i < |z| && z[i].member == member
  {
    if z == [] then None
    else if z[0].member == member then Some(z[0].score)
    else ZFind(z[1..], member)
  }

  function ZReplace(z: seq<Scored>, member: string, score: int): (r: seq<Scored>)
    ensures |r| == |z|
    ensures forall i :: 0 <= i < |z| ==> r[i] == (if z[i].member == member then Scored(member, score) else z[i])
  {
    if z == [] then [] else [if z[0].member == member then Scored(member, score) else z[0]] + ZReplace(z[1..], member, score)
  }

  /** `ZADD`: a present member gets the new score, a new one is appended. */
  function ZUpsert(z: seq<Scored>, member: string, score: int): seq<Scored>
  {
    if ZFind(z, member).Some? then ZReplace(z, member, score) else z + [Scored(member, score)]
  }

  /** `ZREM`. */
  function ZRemove(z: seq<Scored>, member: string): (r: seq<Scored>)
    ensures forall i :: 0 <= i < |r| ==> r[i].member != member && r[i] in z
  {
    if z == [] then []
    else if z[0].member == member then ZRemove(z[1..], member)
    else [z[0]] + ZRemove(z[1..], member)
  }

  lemma {:induction false} ZFindReplace(z: seq<Scored>, member: string, score: int, other: string)
    ensures ZFind(ZReplace(z, member, score), other) ==
      (if other == member && ZFind(z, member).Some? then Some(score) else ZFind(z, other))
  {
    if z != [] {
      ZFindReplace(z[1..], member, score, other);
      assert ZReplace(z, member, score)[1..] == ZReplace(z[1..], member, score);
    }
  }

  lemma {:induction false} ZFindAppend(z: seq<Scored>, x: Scored, other: string)
    ensures ZFind(z + [x], other) == if ZFind(z, other).Some? then ZFind(z, other) else if x.member == other then Some(x.score) else None
  {
    if z != [] {
      assert (z + [x])[1..] == z[1..] + [x];
      ZFindAppend(z[1..], x, other);
    }
  }

  /** After `ZADD key member score`, the member has that score and every
      other member keeps its own. */
  lemma ZUpsertFind(z: seq<Scored>, member: string, score: int, other: string)
    ensures ZFind(ZUpsert(z, member, score), other) == if other == member then Some(score) else ZFind(z, other)
  {
    if ZFind(z, member).Some? {
      ZFindReplace(z, member, score, other);
    } else {
      ZFindAppend(z, Scored(member, score), other);
    }
  }

  /** After `ZREM key member`, the member has no score and every other
      member keeps its own. */
  lemma {:induction false} ZRemoveFind(z: seq<Scored>, member: string, other: string)
    ensures ZFind(ZRemove(z, member), other) == if other == member then None else ZFind(z, other)
  {
    if z != [] {
      ZRemoveFind(z[1..], member, other);
    }
  }

  /** Reverse score order: higher scores first, equal scores by member,
      higher first — the order of `ZREVRANGEBYSCORE`. */
  predicate RevOrder(a: Scored, b: Scored)
  {
    a.score > b.score || (a.score == b.score && Ordering.StrLe(b.member, a.member))
  }

  lemma RevOrderIsTotalPreorder()
    ensures Ordering.TotalPreorder(RevOrder)
  {
    forall a, b ensures RevOrder(a, b) || RevOrder(b, a) {
      Ordering.StrLeTotal(a.member, b.member);
    }
    forall a, b, c | RevOrder(a, b) && RevOrder(b, c) ensures RevOrder(a, c) {
      if a.score == b.score == c.score {
        Ordering.StrLeTransitive(c.member, b.member, a.member);
      }
    }
  }

  function ScoreFilter(z: seq<Scored>, min: int, max: int): (r: seq<Scored>)
    ensures forall i :: 0 <= i < |r| ==> min <= r[i].score <= max
    ensures forall x :: x in z && min <= x.score <= max ==> x in r
    ensures multiset(r) <= multiset(z)
  {
    if z == [] then []
    else
      assert z == [z[0]] + z[1..];
      if min <= z[0].score <= max then [z[0]] + ScoreFilter(z[1..], min, max) else ScoreFilter(z[1..], min, max)
  }

  /** `ZREVRANGEBYSCORE key max min WITHSCORES LIMIT offset count`: the
      members with a score in `[min, max]` in reverse score order, from
      position `offset`, at most `count` of them; a negative offset gives
      nothing. */
  function RevRangeByScore(z: seq<Scored>, min: int, max: int, offset: int, count: nat): seq<Scored>
  {
    var all := Ordering.Sort(ScoreFilter(z, min, max), RevOrder);
    if offset < 0 || offset >= |all| then []
    else all[offset .. if offset + count < |all| then offset + count else |all|]
  }

  /** A page of the reverse range is in reverse score order, within the score
      bounds, no longer than asked, and made of members of the set. */
  lemma RevRangeByScoreSound(z: seq<Scored>, min: int, max: int, offset: int, count: nat)
    ensures var page := RevRangeByScore(z, min, max, offset, count);
      && |page| <= count
      && Ordering.Sorted(page, RevOrder)
      && (forall i :: 0 <= i < |page| ==> min <= page[i].score <= max && page[i] in z)
  {
    RevOrderIsTotalPreorder();
    var f := ScoreFilter(z, min, max);
    var all := Ordering.Sort(f, RevOrder);
    Ordering.SortCorrect(f, RevOrder);
    var page := RevRangeByScore(z, min, max, offset, count);
    if page != [] {
      var hi := if offset + count < |all| then offset + count else |all|;
      assert page == all[offset..hi];
      SliceSorted(all, offset, hi);
      forall i | 0 <= i < |page| ensures min <= page[i].score <= max && page[i] in z {
        SortedMember(z, f, all, offset + i);
      }
    }
  }

  lemma SliceSorted(s: seq<Scored>, lo: nat, hi: nat)
    requires lo <= hi <= |s| && Ordering.Sorted(s, RevOrder)
    ensures Ordering.Sorted(s[lo..hi], RevOrder)
  {
    forall i, j | 0 <= i < j < hi - lo ensures RevOrder(s[lo..hi][i], s[lo..hi][j]) {
      assert s[lo..hi][i] == s[lo + i] && s[lo..hi][j] == s[lo + j];
    }
  }

  lemma SortedMember(z: seq<Scored>, f: seq<Scored>, all: seq<Scored>, k: nat)
    requires k < |all| && multiset(all) == multiset(f) && multiset(f) <= multiset(z)
    ensures all[k] in f && all[k] in z
  {
    assert all[k] in multiset(all);
    assert all[k] in multiset(z);
  }

  /** The bit at `offset`; bits past the end of the string read as 0. */
  function BitAt(bits: seq<bool>, offset: nat): bool
  {
    offset < |bits| && bits[offset]
  }

  /** The bitmap after `SETBIT key offset value`: the string grows with zero
      bits as needed. */
  function WithBit(bits: seq<bool>, offset: nat, value: bool): (r: seq<bool>)
    ensures |r| == if offset < |bits| then |bits| else offset + 1
    ensures forall i :: 0 <= i < |r| ==> r[i] == if i == offset then value else BitAt(bits, i)
  {
    if offset < |bits| then bits[offset := value]
    else bits + seq(offset - |bits|, _ => false) + [value]
  }

  /** `BITFIELD key GET u<width> 0`: the first `width` bits read as an
      unsigned number, bit 0 the most significant. */
  function UnsignedField(bits: seq<bool>, width: nat): (v: nat)
    ensures v < Pow2(width)
  {
    if width == 0 then 0 else 2 * UnsignedField(bits, width - 1) + (if BitAt(bits, width - 1) then 1 else 0)
  }

  class RedisStore {
    var strings: map<string, Entry>
    var hashes: map<string, HashEntry>
    var sets: map<string, set<string>>
    var zsets: map<string, seq<Scored>>
    var bitmaps: map<string, seq<bool>>

    constructor ()
      ensures strings == map[] && hashes == map[] && sets == map[] && zsets == map[] && bitmaps == map[]
    {
      strings, hashes, sets, zsets, bitmaps := map[], map[], map[], map[], map[];
    }

    /** `GET key`. */
    function Get(key: string): (r: Option<string>)
      reads this`strings
      ensures r.Some? <==> key in strings
      ensures r.Some? ==> r.value == strings[key].value
    {
      if key in strings then Some(strings[key].value) else None
    }

    /** `SET key value [EX seconds]`: overwrites unconditionally. */
    method Set(key: string, value: string, expiry: Expiry)
      modifies this`strings
      ensures strings == old(strings)[key := Entry(value, expiry)]
    {
      strings := strings[key := Entry(value, expiry)];
    }

    /** `SET key value NX [EX seconds]`: writes only when the key is absent. */
    method SetIfAbsent(key: string, value: string, expiry: Expiry) returns (ok: bool)
      modifies this`strings
      ensures ok <==> key !in old(strings)
      ensures strings == if ok then old(strings)[key := Entry(value, expiry)] else old(strings)
    {
      ok := key !in strings;
      if ok {
        strings := strings[key := Entry(value, expiry)];
      }
    }

    /** `DEL key`; true when there was something to delete. */
    method Delete(key: string) returns (removed: bool)
      modifies this`strings
      ensures removed <==> key in old(strings)
      ensures strings == old(strings) - {key}
    {
      removed := key in strings;
      strings := strings - {key};
    }

    /** `INCR key`: an absent key counts from 0; a value that is not a long,
        or a long at its maximum, is an error and nothing changes. The TTL is
        kept. */
    method Increment(key: string) returns (r: Option<int>)
      modifies this`strings
      ensures key !in old(strings) ==> r == Some(1) && strings == old(strings)[key := Entry("1", Persistent)]
      ensures key in old(strings) ==>
        var was := CounterValue(old(strings)[key].value);
        && r == (if was.Some? && was.value < LONG_MAX then Some(was.value + 1) else None)
        && strings == (if r.Some? then old(strings)[key := Entry(LongString(r.value), old(strings)[key].expiry)] else old(strings))
    {
      if key !in strings {
        r := Some(1);
        strings := strings[key := Entry("1", Persistent)];
      } else {
        var was := CounterValue(strings[key].value);
        if was.Some? && was.value < LONG_MAX {
          r := Some(was.value + 1);
          strings := strings[key := Entry(LongString(was.value + 1), strings[key].expiry)];
        } else {
          r := None;
        }
      }
    }

    /** A string key's TTL running out: the key disappears. A key without a
        TTL stays. */
    method Lapse(key: string)
      modifies this`strings
      ensures strings == if key in old(strings) && old(strings)[key].expiry.ExpiresIn? then old(strings) - {key} else old(strings)
    {
      if key in strings && strings[key].expiry.ExpiresIn? {
        strings := strings - {key};
      }
    }

    /** `HMSET key fields`: merges the fields into the hash. */
    method HPutAll(key: string, fields: map<string, string>)
      modifies this`hashes
      ensures hashes == old(hashes)[key := if key in old(hashes) then HashEntry(old(hashes)[key].fields + fields, old(hashes)[key].expiry) else HashEntry(fields, Persistent)]
    {
      if key in hashes {
        hashes := hashes[key := HashEntry(hashes[key].fields + fields, hashes[key].expiry)];
      } else {
        hashes := hashes[key := HashEntry(fields, Persistent)];
      }
    }

    /** `EXPIRE key seconds` on a hash; false when there is no such key. */
    method ExpireHash(key: string, seconds: int) returns (ok: bool)
      modifies this`hashes
      ensures ok <==> key in old(hashes)
      ensures hashes == if ok then old(hashes)[key := HashEntry(old(hashes)[key].fields, ExpiresIn(seconds))] else old(hashes)
    {
      ok := key in hashes;
      if ok {
        hashes := hashes[key := HashEntry(hashes[key].fields, ExpiresIn(seconds))];
      }
    }

    /** `SMEMBERS key`; an absent key is the empty set. */
    function Members(key: string): set<string>
      reads this`sets
    {
      if key in sets then sets[key] else {}
    }

    /** `SADD key member`. */
    method SAdd(key: string, member: string)
      modifies this`sets
      ensures sets == old(sets)[key := old(Members(key)) + {member}]
    {
      sets := sets[key := Members(key) + {member}];
    }

    /** `SREM key member`. */
    method SRem(key: string, member: string)
      modifies this`sets
      ensures sets == old(sets)[key := old(Members(key)) - {member}]
    {
      sets := sets[key := Members(key) - {member}];
    }

    /** `SINTER a b`. */
    function Intersect(a: string, b: string): (r: set<string>)
      reads this`sets
      ensures forall m :: m in r <==> m in Members(a) && m in Members(b)
    {
      Members(a) * Members(b)
    }

    /** The sorted set stored at `key`; an absent key is empty. */
    function ZSet(key: string): seq<Scored>
      reads this`zsets
    {
      if key in zsets then zsets[key] else []
    }

    /** `ZSCORE key member`. */
    function ZScore(key: string, member: string): Option<int>
      reads this`zsets
    {
      ZFind(ZSet(key), member)
    }

    /** `ZADD key score member`. */
    method ZAdd(key: string, member: string, score: int)
      modifies this`zsets
      ensures zsets == old(zsets)[key := ZUpsert(old(ZSet(key)), member, score)]
      ensures forall m :: ZScore(key, m) == if m == member then Some(score) else old(ZScore(key, m))
    {
      zsets := zsets[key := ZUpsert(ZSet(key), member, score)];
      forall m ensures ZScore(key, m) == if m == member then Some(score) else old(ZScore(key, m)) {
        ZUpsertFind(old(ZSet(key)), member, score, m);
      }
    }

    /** `ZREM key member`. */
    method ZRem(key: string, member: string)
      modifies this`zsets
      ensures zsets == old(zsets)[key := ZRemove(old(ZSet(key)), member)]
      ensures forall m :: ZScore(key, m) == if m == member then None else old(ZScore(key, m))
    {
      zsets := zsets[key := ZRemove(ZSet(key), member)];
      forall m ensures ZScore(key, m) == if m == member then None else old(ZScore(key, m)) {
        ZRemoveFind(old(ZSet(key)), member, m);
      }
    }

    /** The bitmap stored at `key`; an absent key has no bits set. */
    function Bitmap(key: string): seq<bool>
      reads this`bitmaps
    {
      if key in bitmaps then bitmaps[key] else []
    }

    /** `SETBIT key offset value`. */
    method SetBit(key: string, offset: nat, value: bool)
      modifies this`bitmaps
      ensures bitmaps == old(bitmaps)[key := WithBit(old(Bitmap(key)), offset, value)]
    {
      bitmaps := bitmaps[key := WithBit(Bitmap(key), offset, value)];
    }
  }

  /** `xs` with every occurrence of `x` taken out. */
  function Without(xs: seq<nat>, x: nat): (r: seq<nat>)
    ensures |r| <= |xs|
    ensures forall i :: 0 <= i < |r| ==> r[i] != x && r[i] in xs
    ensures forall y :: y in xs && y != x ==> y in r
  {
    if xs == [] then []
    else if xs[0] == x then Without(xs[1..], x)
    else [xs[0]] + Without(xs[1..], x)
  }

  predicate Distinct(xs: seq<nat>)
  {
    forall i, j :: 0 <= i < j < |xs| ==> xs[i] != xs[j]
  }

  lemma {:induction false} WithoutFirst(xs: seq<nat>)
    requires xs != [] && Distinct(xs)
    ensures Without(xs, xs[0]) == xs[1..]
  {
    WithoutAbsent(xs[1..], xs[0]);
  }

  lemma {:induction false} WithoutAbsent(xs: seq<nat>, x: nat)
    requires x !in xs
    ensures Without(xs, x) == xs
  {
    if xs != [] {
      WithoutAbsent(xs[1..], x);
    }
  }

  /** One stream with one consumer group, as `XADD`, `XREADGROUP` and `XACK`
      see it: the entries in order (an entry's id is its position), the
      group's last-delivered cursor, and its pending-entries list, the ids
      delivered and not yet acknowledged, oldest first. */
  class Stream<T> {
    var entries: seq<T>
    var delivered: nat
    var pending: seq<nat>

    ghost predicate Valid()
      reads this
    {
      && delivered <= |entries|
      && Distinct(pending)
      && (forall i :: 0 <= i < |pending| ==> pending[i] < delivered)
    }

    constructor ()
      ensures Valid() && entries == [] && delivered == 0 && pending == []
    {
      entries, delivered, pending := [], 0, [];
    }

    /** `XADD`: appends an entry and returns its id. */
    method Add(x: T) returns (id: nat)
      requires Valid()
      modifies this`entries
      ensures Valid() && id == old(|entries|) && entries == old(entries) + [x]
    {
      id := |entries|;
      entries := entries + [x];
    }

    /** `XREADGROUP ... COUNT 1 STREAMS key >`: the next entry never delivered
        to the group, which joins the pending list; nothing when the group is
        up to date. */
    method ReadNew() returns (r: Option<(nat, T)>)
      requires Valid()
      modifies this`delivered, this`pending
      ensures Valid()
      ensures old(delivered) < |entries| ==>
        && r == Some((old(delivered), entries[old(delivered)]))
        && delivered == old(delivered) + 1 && pending == old(pending) + [old(delivered)]
      ensures old(delivered) == |entries| ==> r.None? && delivered == old(delivered) && pending == old(pending)
    {
      if delivered < |entries| {
        r := Some((delivered, entries[delivered]));
        pending := pending + [delivered];
        delivered := delivered + 1;
      } else {
        r := None;
      }
    }

    /** `XREADGROUP ... COUNT 1 STREAMS key 0`: the oldest entry delivered but
        not acknowledged. */
    function ReadPending(): (r: Option<(nat, T)>)
      requires Valid()
      reads this
      ensures r.None? <==> pending == []
      ensures r.Some? ==> r.value.0 == pending[0] && r.value.0 < |entries| && r.value.1 == entries[r.value.0]
    {
      if pending == [] then None else Some((pending[0], entries[pending[0]]))
    }

    /** `XACK`: the entry leaves the pending list. */
    method Ack(id: nat)
      requires Valid()
      modifies this`pending
      ensures Valid() && pending == Without(old(pending), id)
    {
      pending := Without(pending, id);
      forall i, j | 0 <= i < j < |pending| ensures pending[i] != pending[j] {
        WithoutDistinct(old(pending), id, i, j);
      }
    }
  }

  lemma {:induction false} WithoutDistinct(xs: seq<nat>, x: nat, i: nat, j: nat)
    requires Distinct(xs) && i < j < |Without(xs, x)|
    ensures Without(xs, x)[i] != Without(xs, x)[j]
  {
    if xs[0] == x {
      WithoutDistinct(xs[1..], x, i, j);
    } else if i > 0 {
      WithoutDistinct(xs[1..], x, i - 1, j - 1);
    } else {
      assert Without(xs, x)[j] in Without(xs[1..], x);
      assert Without(xs, x)[j] in xs[1..];
    }
  }
}
