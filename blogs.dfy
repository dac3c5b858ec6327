/** `BlogServiceImpl`: likes kept both as a counter column and as a sorted
    set of likers per blog, new blogs pushed to the feed (a sorted set by
    time) of every follower of the author, and the feed read by scrolling
    with a `(minTime, offset)` cursor. */
module Blogs {
  import opened Common
  import opened Decimal
  import opened Ordering
  import opened Redis
  import opened RedisConstants
  import opened Follows

  /** A `tb_blog` row; `isLike` is the transient flag filled for the viewer. */
  datatype Blog = Blog(id: int, userId: int, liked: int, isLike: bool)

  /** The feed page: the blogs, and the cursor for the next request. */
  datatype ScrollResult = ScrollResult(list: seq<Blog>, offset: int, minTime: int)

  /** "新增笔记失败" (saving the blog failed). */
  const MSG_SAVE_FAILED: string := "\U{65B0}\U{589E}\U{7B14}\U{8BB0}\U{5931}\U{8D25}"

  /** The feed page size. */
  const FEED_PAGE: nat := 2

  function LikedKey(blogId: int): string
  {
    BLOG_LIKED_KEY + LongString(blogId)
  }

  function FeedKey(userId: int): string
  {
    FEED_KEY + LongString(userId)
  }

  predicate HasBlog(blogs: seq<Blog>, id: int)
  {
    exists i :: 0 <= i < |blogs| && blogs[i].id == id
  }

  /** `update ... set liked = liked + delta where id = ?`. */
  function AddLiked(blogs: seq<Blog>, id: int, delta: int): (r: seq<Blog>)
    ensures |r| == |blogs|
    ensures forall i :: 0 <= i < |r| ==> r[i] == if blogs[i].id == id then blogs[i].(liked := blogs[i].liked + delta) else blogs[i]
  {
    if blogs == [] then [] else
    [if blogs[0].id == id then blogs[0].(liked := blogs[0].liked + delta) else blogs[0]] + AddLiked(blogs[1..], id, delta)
  }

  lemma AddLikedKeepsIds(blogs: seq<Blog>, id: int, delta: int)
    ensures HasBlog(AddLiked(blogs, id, delta), id) == HasBlog(blogs, id)
  {
    if HasBlog(blogs, id) {
      var i :| 0 <= i < |blogs| && blogs[i].id == id;
      assert AddLiked(blogs, id, delta)[i].id == id;
    }
  }

  /** A like undone leaves the counters as they were. */
  lemma AddLikedUndo(blogs: seq<Blog>, id: int, delta: int)
    ensures AddLiked(AddLiked(blogs, id, delta), id, -delta) == blogs
  {
    var r := AddLiked(AddLiked(blogs, id, delta), id, -delta);
    assert forall i :: 0 <= i < |blogs| ==> r[i] == blogs[i];
  }

  /** A member added to a set when absent, removed when present. */
  function Toggle(s: set<string>, m: string): (r: set<string>)
    ensures m in r <==> m !in s
    ensures forall x :: x != m ==> (x in r <==> x in s)
  {
    if m in s then s - {m} else s + {m}
  }

  lemma ToggleTwice(s: set<string>, m: string)
    ensures Toggle(Toggle(s, m), m) == s
  {
  }

  /** The blogs of a list of ids, in the order of the ids (`ORDER BY
      FIELD(id, ...)`); ids without a row are skipped. When every id has a
      row, the `j`-th blog is the row of the `j`-th id. */
  function BlogsInOrder(blogs: seq<Blog>, ids: seq<int>): (r: seq<Blog>)
    ensures |r| <= |ids|
    ensures forall i :: 0 <= i < |r| ==> r[i] in blogs && r[i].id in ids
    ensures (forall j :: 0 <= j < |ids| ==> HasBlog(blogs, ids[j])) ==>
      && |r| == |ids|
      && forall j :: 0 <= j < |ids| ==> r[j] == FindBlog(blogs, ids[j]).value
  {
    if ids == [] then []
    else
      var rest := BlogsInOrder(blogs, ids[1..]);
      assert forall j :: 0 <= j < |ids| - 1 ==> ids[1..][j] == ids[j + 1];
      match FindBlog(blogs, ids[0])
      case None => rest
      case Some(b) => [b] + rest
  }

  /** The order of the result is the order of the ids: the blogs of `a + b`
      are the blogs of `a` followed by those of `b`. */
  lemma {:induction false} BlogsInOrderSplit(blogs: seq<Blog>, a: seq<int>, b: seq<int>)
    ensures BlogsInOrder(blogs, a + b) == BlogsInOrder(blogs, a) + BlogsInOrder(blogs, b)
  {
    if a == [] {
      assert a + b == b;
    } else {
      assert (a + b)[0] == a[0] && (a + b)[1..] == a[1..] + b;
      BlogsInOrderSplit(blogs, a[1..], b);
    }
  }

  /** No blog that has a row is lost: every listed id with a row has its row
      in the result. */
  lemma {:induction false} BlogsInOrderComplete(blogs: seq<Blog>, ids: seq<int>, j: int)
    requires 0 <= j < |ids| && HasBlog(blogs, ids[j])
    ensures exists i :: 0 <= i < |BlogsInOrder(blogs, ids)| && BlogsInOrder(blogs, ids)[i] == FindBlog(blogs, ids[j]).value
  {
    var r := BlogsInOrder(blogs, ids);
    if j == 0 {
      assert r[0] == FindBlog(blogs, ids[0]).value;
    } else {
      BlogsInOrderComplete(blogs, ids[1..], j - 1);
      var rest := BlogsInOrder(blogs, ids[1..]);
      var i :| 0 <= i < |rest| && rest[i] == FindBlog(blogs, ids[j]).value;
      if FindBlog(blogs, ids[0]).Some? {
        assert r[i + 1] == rest[i];
      } else {
        assert r[i] == rest[i];
      }
    }
  }

  function FindBlog(blogs: seq<Blog>, id: int): (r: Option<Blog>)
    ensures r.Some? ==> r.value in blogs && r.value.id == id
    ensures r.None? ==> !HasBlog(blogs, id)
  {
    if blogs == [] then None
    else if blogs[0].id == id then Some(blogs[0])
    else FindBlog(blogs[1..], id)
  }

  /** The sorted sets of a store after `ZADD key score member` on one key. */
  function WithZAdd(zsets: map<string, seq<Scored>>, key: string, member: string, score: int): map<string, seq<Scored>>
  {
    zsets[key := ZUpsert(if key in zsets then zsets[key] else [], member, score)]
  }

  /** The sorted sets after pushing `member` with `score` to the feed of each
      follower row in turn. */
  function Pushed(zsets: map<string, seq<Scored>>, followers: seq<Follow>, member: string, score: int): map<string, seq<Scored>>
  {
    if followers == [] then zsets
    else
      var last := followers[|followers| - 1];
      WithZAdd(Pushed(zsets, followers[..|followers| - 1], member, score), FeedKey(last.userId), member, score)
  }

  function ZSetIn(zsets: map<string, seq<Scored>>, key: string): seq<Scored>
  {
    if key in zsets then zsets[key] else []
  }

  /** The feed keys of some follower rows. */
  function FeedKeys(followers: seq<Follow>): set<string>
  {
    if followers == [] then {}
    else FeedKeys(followers[..|followers| - 1]) + {FeedKey(followers[|followers| - 1].userId)}
  }

  lemma {:induction false} FeedKeysHas(followers: seq<Follow>, i: nat)
    requires i < |followers|
    ensures FeedKey(followers[i].userId) in FeedKeys(followers)
  {
    var n := |followers|;
    if i < n - 1 {
      assert followers[..n - 1][i] == followers[i];
      FeedKeysHas(followers[..n - 1], i);
    }
  }

  lemma WithZAddFind(zsets: map<string, seq<Scored>>, k: string, member: string, score: int, key: string, m: string)
    ensures ZFind(ZSetIn(WithZAdd(zsets, k, member, score), key), m) ==
      if key == k && m == member then Some(score) else ZFind(ZSetIn(zsets, key), m)
  {
    if key == k {
      ZUpsertFind(ZSetIn(zsets, key), member, score, m);
    }
  }

  /** After the fan-out, the blog is in the feed of every follower, with the
      push time as score, and no other feed entry has changed. */
  lemma {:induction false} PushedScores(zsets: map<string, seq<Scored>>, followers: seq<Follow>, member: string, score: int, key: string, m: string)
    ensures ZFind(ZSetIn(Pushed(zsets, followers, member, score), key), m) ==
      if m == member && key in FeedKeys(followers) then Some(score) else ZFind(ZSetIn(zsets, key), m)
  {
    if followers != [] {
      var init := followers[..|followers| - 1];
      var last := followers[|followers| - 1];
      PushedScores(zsets, init, member, score, key, m);
      WithZAddFind(Pushed(zsets, init, member, score), FeedKey(last.userId), member, score, key, m);
    }
  }

  /** The number of trailing entries of a page with score `t`. */
  function TailRun(page: seq<Scored>, t: int): (n: nat)
    ensures n <= |page|
  {
    if page == [] || page[|page| - 1].score != t then 0 else 1 + TailRun(page[..|page| - 1], t)
  }

  predicate AllScoresZero(page: seq<Scored>)
  {
    forall i :: 0 <= i < |page| ==> page[i].score == 0
  }

  /** The ids the members of a page spell, or `None` when one is not a
      number (`Long.valueOf` throws). */
  function PageIds(page: seq<Scored>): (r: Option<seq<int>>)
    ensures r.Some? ==> |r.value| == |page| && forall i :: 0 <= i < |page| ==> ParseLong(page[i].member) == Some(r.value[i])
    ensures r.None? <==> exists i :: 0 <= i < |page| && ParseLong(page[i].member).None?
  {
    if page == [] then Some([])
    else
      var init := PageIds(page[..|page| - 1]);
      var last := ParseLong(page[|page| - 1].member);
      if init.None? || last.None? then None else Some(init.value + [last.value])
  }

  /** The loop of `queryBlogOfFollow` over a non-empty page: collect the ids
      and track `minTime`, the score last seen, and `os`, the length of the
      run of that score. Both start as 0 and 1, so the run of a page whose
      scores are all 0 is counted one too long. A member that is not a
      number ends the loop with the exception (`None`). */
  method ScanPage(page: seq<Scored>) returns (ids: Option<seq<int>>, minTime: int, os: int)
    requires page != []
    ensures ids == PageIds(page)
    ensures ids.Some? ==> minTime == page[|page| - 1].score
    ensures ids.Some? ==> os == TailRun(page, minTime) + if AllScoresZero(page) then 1 else 0
  {
    var list: seq<int> := [];
    minTime, os := 0, 1;
    var k := 0;
    while k < |page|
      invariant 0 <= k <= |page|
      invariant PageIds(page[..k]) == Some(list)
      invariant k == 0 ==> minTime == 0 && os == 1
      invariant k > 0 ==> minTime == page[k - 1].score
      invariant k > 0 ==> os == TailRun(page[..k], minTime) + if AllScoresZero(page[..k]) then 1 else 0
    {
      assert page[..k + 1][..k] == page[..k];
      var id := ParseLong(page[k].member);
      if id.None? {
        return None, minTime, os;
      }
      list := list + [id.value];
      var time := page[k].score;
      if time == minTime {
        os := os + 1;
      } else {
        minTime := time;
        os := 1;
      }
      k := k + 1;
    }
    assert page[..k] == page;
    ids := Some(list);
  }

  /** The `offset` of the next request as the service computes it: the run
      of the last score within this page only. */
  function AsWrittenNextOffset(page: seq<Scored>): int
    requires page != []
  {
    TailRun(page, page[|page| - 1].score) + if AllScoresZero(page) then 1 else 0
  }

  /** The `offset` the next request needs: every entry already delivered
      with the new `minTime`. When the whole page has the score of the
      request's `max`, those include the `offset` entries the request itself
      skipped. */
  function NextOffset(page: seq<Scored>, max: int, offset: int): int
    requires page != []
  {
    var minTime := page[|page| - 1].score;
    AsWrittenNextOffset(page) + if minTime == max then offset else 0
  }

  /** The ids of a non-empty page and the cursor after it. */
  method PageCursor(page: seq<Scored>, max: int, offset: int, corrected: bool) returns (ids: Option<seq<int>>, minTime: int, os: int)
    requires page != []
    ensures ids == PageIds(page)
    ensures ids.Some? ==> minTime == page[|page| - 1].score
    ensures ids.Some? ==> os == if corrected then NextOffset(page, max, offset) else AsWrittenNextOffset(page)
  {
    ids, minTime, os := ScanPage(page);
    if ids.Some? && corrected && minTime == max {
      os := os + offset;
    }
  }

  /** The whole feed from `max` down, in the order the scroll reads it. */
  function FeedFrom(z: seq<Scored>, max: int): seq<Scored>
  {
    Sort(ScoreFilter(z, 0, max), RevOrder)
  }

  /** The number of entries with score `t`. */
  function CountScore(s: seq<Scored>, t: int): (n: nat)
    ensures n <= |s|
  {
    if s == [] then 0 else CountScore(s[..|s| - 1], t) + if s[|s| - 1].score == t then 1 else 0
  }

  lemma {:induction false} CountScoreAppend(a: seq<Scored>, b: seq<Scored>, t: int)
    ensures CountScore(a + b, t) == CountScore(a, t) + CountScore(b, t)
  {
    if b == [] {
      assert a + b == a;
    } else {
      assert (a + b)[..|a + b| - 1] == a + b[..|b| - 1];
      assert (a + b)[|a + b| - 1] == b[|b| - 1];
      CountScoreAppend(a, b[..|b| - 1], t);
    }
  }

  /** In a page in reverse score order, the entries with the last score are
      exactly its trailing run. */
  lemma {:induction false} CountIsTailRun(s: seq<Scored>)
    requires s != [] && Sorted(s, RevOrder)
    ensures CountScore(s, s[|s| - 1].score) == TailRun(s, s[|s| - 1].score)
  {
    var t := s[|s| - 1].score;
    var p := s[..|s| - 1];
    if p != [] {
      assert Sorted(p, RevOrder);
      if p[|p| - 1].score == t {
        CountIsTailRun(p);
      } else {
        assert RevOrder(s[|s| - 2], s[|s| - 1]);
        assert forall i :: 0 <= i < |p| ==> p[i].score > t by {
          forall i | 0 <= i < |p| ensures p[i].score > t {
            if i < |p| - 1 {
              assert RevOrder(s[i], s[|s| - 2]);
            }
          }
        }
        CountAbove(p, t);
      }
    }
  }

  lemma {:induction false} CountAbove(s: seq<Scored>, t: int)
    requires forall i :: 0 <= i < |s| ==> s[i].score > t
    ensures CountScore(s, t) == 0
  {
    if s != [] {
      CountAbove(s[..|s| - 1], t);
    }
  }

  lemma {:induction false} CountAll(s: seq<Scored>, t: int)
    requires forall i :: 0 <= i < |s| ==> s[i].score == t
    ensures CountScore(s, t) == |s|
  {
    if s != [] {
      CountAll(s[..|s| - 1], t);
    }
  }

  /** A request `(max, offset)` is a proper cursor when the `offset` entries
      it skips are the ones with score `max` already delivered. */
  predicate IsCursor(z: seq<Scored>, max: int, offset: int)
  {
    var all := FeedFrom(z, max);
    0 <= offset <= |all| && forall i :: 0 <= i < offset ==> all[i].score == max
  }

  /** A non-empty page is a slice of the feed in reverse score order. */
  lemma FeedPageIsSlice(z: seq<Scored>, max: int, offset: int)
    requires RevRangeByScore(z, 0, max, offset, FEED_PAGE) != []
    ensures var page := RevRangeByScore(z, 0, max, offset, FEED_PAGE);
      var all := FeedFrom(z, max);
      && 0 <= offset && offset + |page| <= |all|
      && page == all[offset..offset + |page|]
      && Sorted(all, RevOrder)
  {
    RevOrderIsTotalPreorder();
    SortCorrect(ScoreFilter(z, 0, max), RevOrder);
  }

  /** The intended cursor: after a proper request, `NextOffset` counts
      exactly the entries delivered so far (skipped or on this page) whose
      score is the new `minTime`. */
  lemma NextOffsetCountsDelivered(z: seq<Scored>, max: int, offset: int)
    requires IsCursor(z, max, offset)
    requires var page := RevRangeByScore(z, 0, max, offset, FEED_PAGE); page != [] && page[0].score != 0
    ensures var page := RevRangeByScore(z, 0, max, offset, FEED_PAGE);
      var all := FeedFrom(z, max);
      && offset + |page| <= |all|
      && NextOffset(page, max, offset) == CountScore(all[..offset + |page|], page[|page| - 1].score)
  {
    var page := RevRangeByScore(z, 0, max, offset, FEED_PAGE);
    var all := FeedFrom(z, max);
    var t := page[|page| - 1].score;
    FeedPageIsSlice(z, max, offset);
    assert all[..offset + |page|] == all[..offset] + page;
    CountScoreAppend(all[..offset], page, t);
    SliceSorted(all, offset, offset + |page|);
    CountIsTailRun(page);
    assert !AllScoresZero(page);
    RevRangeByScoreSound(z, 0, max, offset, FEED_PAGE);
    SkippedCount(all[..offset], page, max);
  }

  /** The entries a proper request skipped count towards the new `minTime`
      only when the whole page has the score `max`. */
  lemma SkippedCount(skipped: seq<Scored>, page: seq<Scored>, max: int)
    requires forall i :: 0 <= i < |skipped| ==> skipped[i].score == max
    requires page != [] && Sorted(page, RevOrder) && forall i :: 0 <= i < |page| ==> page[i].score <= max
    ensures var t := page[|page| - 1].score;
      CountScore(skipped, t) == if t == max then |skipped| else 0
  {
    var t := page[|page| - 1].score;
    if t == max {
      CountAll(skipped, t);
    } else {
      CountAbove(skipped, t);
    }
  }

  /** The defect of the cursor as written: when a full page has the score
      of the request's own `max` and the request skipped as many entries as
      the page holds, the cursor it returns is the request itself, so the
      next scroll delivers the same page again, and every later one too. The
      intended offset is twice as far. */
  lemma AsWrittenRepeatsPage(z: seq<Scored>, max: int, offset: int)
    requires var page := RevRangeByScore(z, 0, max, offset, FEED_PAGE);
      && page != [] && max != 0 && |page| == offset
      && forall i :: 0 <= i < |page| ==> page[i].score == max
    ensures var page := RevRangeByScore(z, 0, max, offset, FEED_PAGE);
      && page[|page| - 1].score == max && AsWrittenNextOffset(page) == offset
      && RevRangeByScore(z, 0, page[|page| - 1].score, AsWrittenNextOffset(page), FEED_PAGE) == page
      && NextOffset(page, max, offset) == 2 * offset
  {
    var page := RevRangeByScore(z, 0, max, offset, FEED_PAGE);
    assert !AllScoresZero(page);
    assert TailRun(page, max) == |page| by {
      TailRunAll(page, max);
    }
  }

  lemma {:induction false} TailRunAll(s: seq<Scored>, t: int)
    requires forall i :: 0 <= i < |s| ==> s[i].score == t
    ensures TailRun(s, t) == |s|
  {
    if s != [] {
      TailRunAll(s[..|s| - 1], t);
    }
  }

  class BlogService {
    const store: RedisStore
    const followService: FollowService
    /** `tb_blog`. */
    var blogs: seq<Blog>

    constructor (store: RedisStore, followService: FollowService, blogs: seq<Blog>)
      ensures this.store == store && this.followService == followService && this.blogs == blogs
    {
      this.store := store;
      this.followService := followService;
      this.blogs := blogs;
    }

    /** `isBlogLiked`: with no viewer the blog is left as it is; otherwise
        `isLike` says whether the viewer is among the blog's likers. */
    function WithLikeFlag(blog: Blog, viewer: Option<int>): (b: Blog)
      reads store`zsets
      ensures b.id == blog.id && b.userId == blog.userId && b.liked == blog.liked
      ensures viewer.None? ==> b == blog
      ensures viewer.Some? ==> (b.isLike <==> store.ZScore(LikedKey(blog.id), LongString(viewer.value)).Some?)
    {
      if viewer.None? then blog
      else blog.(isLike := store.ZScore(LikedKey(blog.id), LongString(viewer.value)).Some?)
    }

    /** `likeBlog(id)` by `userId` at `nowMillis`: a first like adds one to
        the counter and, when a row was updated, records the liker with the
        time as score; a second like takes one off and, when a row was
        updated, removes the liker. */
    method LikeBlog(id: int, userId: int, nowMillis: int) returns (r: Result<()>)
      modifies this`blogs, store`zsets
      ensures r == Ok(())
      ensures blogs == AddLiked(old(blogs), id, if old(store.ZScore(LikedKey(id), LongString(userId))).Some? then -1 else 1)
      ensures !HasBlog(old(blogs), id) ==> store.zsets == old(store.zsets)
      ensures HasBlog(old(blogs), id) && old(store.ZScore(LikedKey(id), LongString(userId))).Some? ==>
        store.zsets == old(store.zsets)[LikedKey(id) := ZRemove(old(store.ZSet(LikedKey(id))), LongString(userId))]
      ensures HasBlog(old(blogs), id) && old(store.ZScore(LikedKey(id), LongString(userId))).None? ==>
        store.zsets == old(store.zsets)[LikedKey(id) := ZUpsert(old(store.ZSet(LikedKey(id))), LongString(userId), nowMillis)]
      ensures forall m :: m != LongString(userId) ==> store.ZScore(LikedKey(id), m) == old(store.ZScore(LikedKey(id), m))
      ensures HasBlog(old(blogs), id) ==>
        store.ZScore(LikedKey(id), LongString(userId)) == if old(store.ZScore(LikedKey(id), LongString(userId))).Some? then None else Some(nowMillis)
    {
      var key := LikedKey(id);
      var member := LongString(userId);
      var score := store.ZScore(key, member);
      var isSuccess := HasBlog(blogs, id);
      if score.None? {
        blogs := AddLiked(blogs, id, 1);
        if isSuccess {
          store.ZAdd(key, member, nowMillis);
        }
      } else {
        blogs := AddLiked(blogs, id, -1);
        if isSuccess {
          store.ZRem(key, member);
        }
      }
      r := Ok(());
    }

    /** The users who like a blog, as the members of its sorted set. */
    function Likers(blogId: int): (r: set<string>)
      reads store`zsets
      ensures forall m :: m in r <==> store.ZScore(LikedKey(blogId), m).Some?
    {
      set e | e in store.ZSet(LikedKey(blogId)) :: e.member
    }

    /** A like of an existing blog toggles the user among its likers. */
    method LikeStep(id: int, userId: int, now: int)
      requires HasBlog(blogs, id)
      modifies this`blogs, store`zsets
      ensures blogs == AddLiked(old(blogs), id, if LongString(userId) in old(Likers(id)) then -1 else 1)
      ensures Likers(id) == Toggle(old(Likers(id)), LongString(userId))
    {
      ghost var member := LongString(userId);
      ghost var before := Likers(id);
      var _ := LikeBlog(id, userId, now);
      ghost var after := Likers(id);
      ghost var wanted := Toggle(before, member);
      forall m
        ensures m in after <==> m in wanted
      {
        if m != member {
          assert m in after <==> m in before;
        }
      }
    }

    /** Liking a blog twice undoes the first like: the counters and the
        likers are back as they were. */
    method LikeTwiceRestores(id: int, userId: int, t1: int, t2: int)
      requires HasBlog(blogs, id)
      modifies this`blogs, store`zsets
      ensures blogs == old(blogs)
      ensures Likers(id) == old(Likers(id))
    {
      ghost var member := LongString(userId);
      ghost var before, likers := blogs, Likers(id);
      ghost var delta := if member in likers then -1 else 1;
      LikeStep(id, userId, t1);
      AddLikedKeepsIds(before, id, delta);
      LikeStep(id, userId, t2);
      AddLikedUndo(before, id, delta);
      ToggleTwice(likers, member);
    }

    /** `saveBlog` by `userId`: a failed insert (`saveOk` false) fails with no
        push. Otherwise the blog is stored with `newId`, its id is pushed,
        with the time as score, to the feed of every follower of the author,
        and the id is returned. */
    method SaveBlog(blog: Blog, userId: int, saveOk: bool, newId: int, nowMillis: int) returns (r: Result<int>)
      modifies this`blogs, store`zsets
      ensures !saveOk ==> r == Fail(MSG_SAVE_FAILED) && blogs == old(blogs) && store.zsets == old(store.zsets)
      ensures saveOk ==>
        && r == Ok(newId)
        && blogs == old(blogs) + [blog.(id := newId, userId := userId)]
        && store.zsets == Pushed(old(store.zsets), FollowersOf(followService.rows, userId), LongString(newId), nowMillis)
    {
      if !saveOk {
        return Fail(MSG_SAVE_FAILED);
      }
      blogs := blogs + [blog.(id := newId, userId := userId)];
      PushToFeeds(FollowersOf(followService.rows, userId), LongString(newId), nowMillis);
      r := Ok(newId);
    }

    /** The fan-out of `saveBlog`: `ZADD` of the blog to the feed of each
        follower row in turn. */
    method PushToFeeds(follows: seq<Follow>, member: string, nowMillis: int)
      modifies store`zsets
      ensures store.zsets == Pushed(old(store.zsets), follows, member, nowMillis)
    {
      var k := 0;
      while k < |follows|
        invariant 0 <= k <= |follows|
        invariant store.zsets == Pushed(old(store.zsets), follows[..k], member, nowMillis)
      {
        ghost var prev := store.zsets;
        store.ZAdd(FeedKey(follows[k].userId), member, nowMillis);
        assert store.zsets == WithZAdd(prev, FeedKey(follows[k].userId), member, nowMillis);
        assert Pushed(old(store.zsets), follows[..k + 1], member, nowMillis)
          == WithZAdd(Pushed(old(store.zsets), follows[..k], member, nowMillis), FeedKey(follows[k].userId), member, nowMillis) by {
          assert follows[..k + 1][..k] == follows[..k];
        }
        k := k + 1;
      }
      assert follows[..k] == follows;
    }

    /** After a saved blog, every follower's feed holds the blog at the push
        time, and nothing else in any feed changed. */
    method SaveReachesFollowers(blog: Blog, userId: int, newId: int, nowMillis: int) returns (r: Result<int>)
      modifies this`blogs, store`zsets
      ensures r == Ok(newId)
      ensures forall f :: f in followService.rows && f.followUserId == userId ==>
        store.ZScore(FeedKey(f.userId), LongString(newId)) == Some(nowMillis)
      ensures forall key, m :: m != LongString(newId) ==> store.ZScore(key, m) == old(store.ZScore(key, m))
    {
      r := SaveBlog(blog, userId, true, newId, nowMillis);
      var followers := FollowersOf(followService.rows, userId);
      forall key, m
        ensures store.ZScore(key, m) ==
          if m == LongString(newId) && key in FeedKeys(followers) then Some(nowMillis) else old(store.ZScore(key, m))
      {
        PushedScores(old(store.zsets), followers, LongString(newId), nowMillis, key, m);
      }
      forall f | f in followService.rows && f.followUserId == userId
        ensures FeedKey(f.userId) in FeedKeys(followers)
      {
        var i :| 0 <= i < |followers| && followers[i] == f;
        FeedKeysHas(followers, i);
      }
    }

    /** The feed page of `viewer` below `max` from `offset`, and its
        cursor; `nextOffset` computes the cursor's offset from the page. An
        empty page is `ok()` with no data; a member that is not a number is
        the exception (`None`). */
    method Scroll(viewer: int, max: int, offset: int, corrected: bool) returns (r: Option<Result<Option<ScrollResult>>>)
      ensures var page := RevRangeByScore(store.ZSet(FeedKey(viewer)), 0, max, offset, FEED_PAGE);
        && (page == [] ==> r == Some(Ok(None)))
        && (page != [] && PageIds(page).None? ==> r.None?)
        && (page != [] && PageIds(page).Some? ==>
              r == Some(Ok(Some(ScrollResult(
                LikeFlags(BlogsInOrder(blogs, PageIds(page).value), viewer),
                if corrected then NextOffset(page, max, offset) else AsWrittenNextOffset(page),
                page[|page| - 1].score)))))
    {
      var page := RevRangeByScore(store.ZSet(FeedKey(viewer)), 0, max, offset, FEED_PAGE);
      if page == [] {
        return Some(Ok(None));
      }
      var ids, minTime, os := PageCursor(page, max, offset, corrected);
      if ids.None? {
        return None;
      }
      var list := LikeFlags(BlogsInOrder(blogs, ids.value), viewer);
      r := Some(Ok(Some(ScrollResult(list, os, minTime))));
    }

    /** Each blog flagged for the viewer. */
    function LikeFlags(list: seq<Blog>, viewer: int): (r: seq<Blog>)
      reads store`zsets
      ensures |r| == |list|
      ensures forall i :: 0 <= i < |r| ==> r[i] == WithLikeFlag(list[i], Some(viewer))
    {
      if list == [] then [] else [WithLikeFlag(list[0], Some(viewer))] + LikeFlags(list[1..], viewer)
    }
  }
}
