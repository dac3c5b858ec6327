/** `ShopTypeServiceImpl.queryList`: the list of shop types, cached whole
    under one key without a TTL. */
module ShopTypes {
  import opened Common
  import opened Ordering
  import opened Redis
  import opened RedisConstants

  /** A `tb_shop_type` row; `sort` is its position in the menu. */
  datatype ShopType = ShopType(id: int, name: string, sort: int)

  /** The reply: a hit is the cached text as it is; a database read is the
      list itself. */
  datatype TypeList = CachedText(text: string) | Listed(types: seq<ShopType>)

  /** "店铺类型不存在" (no shop types). */
  const MSG_NO_TYPES: string := "\U{5E97}\U{94FA}\U{7C7B}\U{578B}\U{4E0D}\U{5B58}\U{5728}"

  const TYPE_LIST_KEY: string := CACHE_SHOP_LIST + "list"

  /** `ORDER BY sort ASC`. */
  function BySort(a: ShopType, b: ShopType): bool
  {
    a.sort <= b.sort
  }

  /** The types as the query returns them. */
  function Ordered(types: seq<ShopType>): seq<ShopType>
  {
    Sort(types, BySort)
  }

  /** The query lists every type once, by ascending `sort`. */
  lemma OrderedIsSortedPermutation(types: seq<ShopType>)
    ensures forall i, j :: 0 <= i < j < |Ordered(types)| ==> Ordered(types)[i].sort <= Ordered(types)[j].sort
    ensures multiset(Ordered(types)) == multiset(types)
  {
    assert TotalPreorder(BySort);
    SortCorrect(types, BySort);
  }

  class ShopTypeService {
    const store: RedisStore
    /** `List.toString` of the types, the text cached. */
    const render: seq<ShopType> -> string
    /** `tb_shop_type`, in table order. */
    var table: seq<ShopType>

    constructor (store: RedisStore, render: seq<ShopType> -> string, table: seq<ShopType>)
      ensures this.store == store && this.render == render && this.table == table
    {
      this.store := store;
      this.render := render;
      this.table := table;
    }

    /** `queryList`: any cached text (even an empty one) is returned as it
        is. Otherwise an empty table fails without caching anything, and a
        non-empty one is returned sorted by `sort` and cached, without TTL, as
        its text. */
    method QueryList() returns (r: Result<TypeList>)
      modifies store`strings
      ensures TYPE_LIST_KEY in old(store.strings) ==>
        r == Ok(CachedText(old(store.strings)[TYPE_LIST_KEY].value)) && store.strings == old(store.strings)
      ensures TYPE_LIST_KEY !in old(store.strings) && table == [] ==>
        r == Fail(MSG_NO_TYPES) && store.strings == old(store.strings)
      ensures TYPE_LIST_KEY !in old(store.strings) && table != [] ==>
        && r == Ok(Listed(Ordered(table)))
        && store.strings == old(store.strings)[TYPE_LIST_KEY := Entry(render(Ordered(table)), Persistent)]
    {
      var cached := store.Get(TYPE_LIST_KEY);
      if cached.Some? {
        return Ok(CachedText(cached.value));
      }
      var types := Ordered(table);
      if types == [] {
        return Fail(MSG_NO_TYPES);
      }
      store.Set(TYPE_LIST_KEY, render(types), Persistent);
      r := Ok(Listed(types));
    }

    /** After a successful database read, the next call is served from the
        cache: the text of the list the first call returned. */
    method SecondCallIsCached() returns (first: Result<TypeList>, second: Result<TypeList>)
      requires TYPE_LIST_KEY !in store.strings && table != []
      modifies store`strings
      ensures first == Ok(Listed(Ordered(table)))
      ensures second == Ok(CachedText(render(first.data.types)))
    {
      first := QueryList();
      second := QueryList();
    }
  }
}
