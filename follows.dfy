/** `FollowServiceImpl`: follow rows in the database mirrored by one set per
    user, `"follows:" + userId`, of the ids that user follows; common follows
    are the intersection of two such sets. */
module Follows {
  import opened Common
  import opened Decimal
  import opened Redis
  import opened Users

  /** A `tb_follow` row: `userId` follows `followUserId`. */
  datatype Follow = Follow(userId: int, followUserId: int)

  const FOLLOWS_KEY: string := "follows:"

  function FollowsKey(userId: int): string
  {
    FOLLOWS_KEY + LongString(userId)
  }

  /** `count(*)` of the rows of one user following another. */
  function CountFollows(rows: seq<Follow>, userId: int, followUserId: int): (n: nat)
    ensures n <= |rows|
    ensures n > 0 <==> Follow(userId, followUserId) in rows
  {
    if rows == [] then 0
    else (if rows[0] == Follow(userId, followUserId) then 1 else 0) + CountFollows(rows[1..], userId, followUserId)
  }

  /** The rows after `delete ... where user_id = ? and follow_user_id = ?`. */
  function RemoveFollows(rows: seq<Follow>, userId: int, followUserId: int): (r: seq<Follow>)
    ensures Follow(userId, followUserId) !in r
    ensures forall f :: f in r <==> f in rows && f != Follow(userId, followUserId)
    ensures |r| == |rows| - CountFollows(rows, userId, followUserId)
  {
    if rows == [] then []
    else if rows[0] == Follow(userId, followUserId) then RemoveFollows(rows[1..], userId, followUserId)
    else [rows[0]] + RemoveFollows(rows[1..], userId, followUserId)
  }

  /** The rows of the followers of an author (`follow_user_id = author`), in
      table order. */
  function FollowersOf(rows: seq<Follow>, author: int): (r: seq<Follow>)
    ensures forall f :: f in r <==> f in rows && f.followUserId == author
  {
    if rows == [] then []
    else if rows[0].followUserId == author then [rows[0]] + FollowersOf(rows[1..], author)
    else FollowersOf(rows[1..], author)
  }

  /** `listByIds`: the users whose id is in the set, in table order. */
  function UsersWithIds(users: seq<User>, ids: set<int>): (r: seq<User>)
    ensures forall u :: u in r <==> u in users && u.id in ids
  {
    if users == [] then []
    else if users[0].id in ids then [users[0]] + UsersWithIds(users[1..], ids)
    else UsersWithIds(users[1..], ids)
  }

  /** The ids the members of a set spell (members that are not numbers
      spell none). */
  function SpelledIds(members: set<string>): (ids: set<int>)
    ensures forall m :: m in members && ParseLong(m).Some? ==> ParseLong(m).value in ids
  {
    set m | m in members && ParseLong(m).Some? :: ParseLong(m).value
  }

  /** The sets `FollowUser` writes hold ids as `Long.toString` prints them;
      for such a set an id is spelled exactly when its text is a member. */
  lemma SpelledIdsOfPrintedIds(members: set<string>, id: int)
    requires forall m :: m in members ==> ParseLong(m).Some? && LongString(ParseLong(m).value) == m
    ensures id in SpelledIds(members) <==> LongString(id) in members
  {
    if LongString(id) in members {
      var v := ParseLong(LongString(id)).value;
      LongStringInjective(v, id);
    }
  }

  class FollowService {
    const store: RedisStore
    const userService: UserService
    /** `tb_follow`. */
    var rows: seq<Follow>

    constructor (store: RedisStore, userService: UserService, rows: seq<Follow>)
      ensures this.store == store && this.userService == userService && this.rows == rows
    {
      this.store := store;
      this.userService := userService;
      this.rows := rows;
    }

    /** `follow(followUserId, isFollow)` by the user `userId`. Following
        inserts a row (`saveOk` is the database's reply) and, when it was
        saved, adds the id to the user's set. Unfollowing deletes the matching
        rows and, when there were any, removes the id from the set. */
    method FollowUser(userId: int, followUserId: int, isFollow: bool, saveOk: bool) returns (r: Result<()>)
      modifies this`rows, store`sets
      ensures r == Ok(())
      ensures isFollow ==>
        && rows == (if saveOk then old(rows) + [Follow(userId, followUserId)] else old(rows))
        && store.sets == if saveOk then old(store.sets)[FollowsKey(userId) := old(store.Members(FollowsKey(userId))) + {LongString(followUserId)}] else old(store.sets)
      ensures !isFollow ==>
        var removed := CountFollows(old(rows), userId, followUserId) > 0;
        && rows == RemoveFollows(old(rows), userId, followUserId)
        && store.sets == if removed then old(store.sets)[FollowsKey(userId) := old(store.Members(FollowsKey(userId))) - {LongString(followUserId)}] else old(store.sets)
    {
      var key := FollowsKey(userId);
      if isFollow {
        if saveOk {
          rows := rows + [Follow(userId, followUserId)];
          store.SAdd(key, LongString(followUserId));
        }
      } else {
        var isSuccess := CountFollows(rows, userId, followUserId) > 0;
        rows := RemoveFollows(rows, userId, followUserId);
        if isSuccess {
          store.SRem(key, LongString(followUserId));
        }
      }
      r := Ok(());
    }

    /** `isFollow`: whether any row has the user following the other. */
    method IsFollow(userId: int, followUserId: int) returns (r: Result<bool>)
      ensures r == Ok(Follow(userId, followUserId) in rows)
    {
      var count := CountFollows(rows, userId, followUserId);
      r := Ok(count > 0);
    }

    /** A saved follow is visible both to `isFollow` and in the set; an
        unfollow clears both. */
    method FollowThenUnfollow(userId: int, followUserId: int) returns (afterFollow: Result<bool>, afterUnfollow: Result<bool>)
      modifies this`rows, store`sets
      ensures afterFollow == Ok(true) && afterUnfollow == Ok(false)
      ensures LongString(followUserId) !in store.Members(FollowsKey(userId))
    {
      var _ := FollowUser(userId, followUserId, true, true);
      afterFollow := IsFollow(userId, followUserId);
      assert LongString(followUserId) in store.Members(FollowsKey(userId));
      var _ := FollowUser(userId, followUserId, false, true);
      afterUnfollow := IsFollow(userId, followUserId);
    }

    /** `followCommon`: the users both `userId` and `id` follow. An empty
        intersection is an empty list; a member that is not a number is the
        `NumberFormatException` (`None`); otherwise the users whose ids the
        members of the intersection spell. Changes nothing. */
    method FollowCommon(userId: int, id: int) returns (r: Option<Result<seq<User>>>)
      ensures var common := store.Intersect(FollowsKey(userId), FollowsKey(id));
        && (common == {} ==> r == Some(Ok([])))
        && (common != {} && (exists m :: m in common && ParseLong(m).None?) ==> r.None?)
        && (common != {} && (forall m :: m in common ==> ParseLong(m).Some?) ==>
              && r.Some? && r.value.Ok?
              && forall u :: u in r.value.data <==> u in userService.users && u.id in SpelledIds(common))
    {
      var intersect := store.Intersect(FollowsKey(userId), FollowsKey(id));
      if intersect == {} {
        return Some(Ok([]));
      }
      if exists m :: m in intersect && ParseLong(m).None? {
        return None;
      }
      var ids := set m | m in intersect :: ParseLong(m).value;
      r := Some(Ok(UsersWithIds(userService.users, ids)));
    }
  }
}
