/** `UserServiceImpl`: log-in by SMS code with a token-keyed user hash, and
    the monthly check-in bitmap with its streak count. */
module Users {
  import opened Common
  import opened Decimal
  import opened JavaLong
  import opened Calendar
  import opened Redis
  import opened RedisConstants
  import opened SystemConstants

  /** A `tb_user` row, with the columns the log-in copies to the session. */
  datatype User = User(id: int, phone: string, nickName: string, icon: string)

  /** "手机号格式错误" (malformed phone number). */
  const MSG_BAD_PHONE: string := "\U{624B}\U{673A}\U{53F7}\U{683C}\U{5F0F}\U{9519}\U{8BEF}"
  /** "验证码错误" (wrong code). */
  const MSG_BAD_CODE: string := "\U{9A8C}\U{8BC1}\U{7801}\U{9519}\U{8BEF}"

  /** The first user with the phone. */
  function FindByPhone(users: seq<User>, phone: string): (r: Option<User>)
    ensures r.Some? ==> r.value in users && r.value.phone == phone
    ensures r.None? ==> forall i :: 0 <= i < |users| ==> users[i].phone != phone
  {
    if users == [] then None
    else if users[0].phone == phone then Some(users[0])
    else FindByPhone(users[1..], phone)
  }

  /** No two users share a phone, so the log-in's `one()` never finds two. */
  predicate PhonesUnique(users: seq<User>)
  {
    forall i, j :: 0 <= i < j < |users| ==> users[i].phone != users[j].phone
  }

  /** The user hash of a session: the `UserDTO` fields, every value as text. */
  function SessionFields(u: User): (m: map<string, string>)
    ensures m.Keys == {"id", "nickName", "icon"}
    ensures m["id"] == LongString(u.id) && m["nickName"] == u.nickName && m["icon"] == u.icon
  {
    map["id" := LongString(u.id), "nickName" := u.nickName, "icon" := u.icon]
  }

  /** The session hash gives the user's id back. */
  lemma SessionIdRoundTrip(u: User)
    requires InLong(u.id)
    ensures ParseLong(SessionFields(u)["id"]) == Some(u.id)
  {
    LongRoundTrip(u.id);
  }

  /** `USER_SIGN_KEY + userId + ":yyyyMM"`. */
  function SignKey(userId: int, now: DateTime): string
    requires Calendar.Valid(now)
  {
    USER_SIGN_KEY + LongString(userId) + MonthSuffix(now)
  }

  /** One bitmap per user and month: two sign keys coincide exactly when the
      user and the calendar month do. */
  lemma SignKeyInjective(u: int, a: DateTime, v: int, b: DateTime)
    requires Calendar.Valid(a) && Calendar.Valid(b)
    ensures SignKey(u, a) == SignKey(v, b) <==> u == v && SameMonth(a, b)
  {
    MonthSuffixExact(a, b);
    MonthSuffixExact(b, a);
    var ka, kb := SignKey(u, a), SignKey(v, b);
    var n := |USER_SIGN_KEY|;
    if ka == kb {
      assert |LongString(u)| == |LongString(v)|;
      assert ka[n..|ka| - 7] == LongString(u) && kb[n..|kb| - 7] == LongString(v);
      assert ka[|ka| - 7..] == MonthSuffix(a) && kb[|kb| - 7..] == MonthSuffix(b);
      LongStringInjective(u, v);
    }
  }

  /** The number of 1 bits at the low end of `n`, up to its first 0 bit. */
  function TrailingOnes(n: nat): nat
  {
    if n % 2 == 0 then 0 else 1 + TrailingOnes(n / 2)
  }

  /** The check-in streak ending on day `day`: the days signed in a row,
      counting back from `day`. */
  function Streak(bits: seq<bool>, day: nat): (r: nat)
    ensures r <= day
  {
    if day == 0 || !BitAt(bits, day - 1) then 0 else 1 + Streak(bits, day - 1)
  }

  /** Reading the month's first `day` bits as a number puts day `day` in the
      lowest bit, so its trailing ones are exactly the streak ending that day,
      never more than `day`. */
  lemma {:induction false} TrailingOnesIsStreak(bits: seq<bool>, day: nat)
    ensures TrailingOnes(UnsignedField(bits, day)) == Streak(bits, day)
  {
    if day > 0 {
      var v := UnsignedField(bits, day);
      var b := if BitAt(bits, day - 1) then 1 else 0;
      assert v == 2 * UnsignedField(bits, day - 1) + b;
      assert v % 2 == b && v / 2 == UnsignedField(bits, day - 1);
      TrailingOnesIsStreak(bits, day - 1);
    }
  }

  /** Signing a day makes the streak ending that day one longer than the
      streak ending the day before. */
  lemma SignExtendsStreak(bits: seq<bool>, day: nat)
    requires day >= 1
    ensures Streak(WithBit(bits, day - 1, true), day) == 1 + Streak(bits, day - 1)
  {
    StreakBefore(bits, day - 1, day - 1);
  }

  /** Bits at or after `offset` do not change a streak that ends before it. */
  lemma {:induction false} StreakBefore(bits: seq<bool>, offset: nat, day: nat)
    requires day <= offset
    ensures Streak(WithBit(bits, offset, true), day) == Streak(bits, day)
  {
    if day > 0 {
      assert BitAt(WithBit(bits, offset, true), day - 1) == BitAt(bits, day - 1);
      StreakBefore(bits, offset, day - 1);
    }
  }

  class UserService {
    const store: RedisStore
    /** `RegexUtils.isPhoneInvalid`. */
    const phoneInvalid: string -> bool
    /** `tb_user`. */
    var users: seq<User>

    constructor (store: RedisStore, phoneInvalid: string -> bool, users: seq<User>)
      ensures this.store == store && this.phoneInvalid == phoneInvalid && this.users == users
    {
      this.store := store;
      this.phoneInvalid := phoneInvalid;
      this.users := users;
    }

    /** `sendCode`: a malformed phone fails and writes nothing; otherwise the
        generated `code` is kept under `LOGIN_CODE_KEY + phone` for
        `LOGIN_CODE_TTL` minutes. */
    method SendCode(phone: string, code: string) returns (r: Result<()>)
      modifies store`strings
      ensures phoneInvalid(phone) ==> r == Fail(MSG_BAD_PHONE) && store.strings == old(store.strings)
      ensures !phoneInvalid(phone) ==>
        && r == Ok(())
        && store.strings == old(store.strings)[LOGIN_CODE_KEY + phone := Entry(code, ExpiresIn(ToSeconds(LOGIN_CODE_TTL, Minutes)))]
    {
      if phoneInvalid(phone) {
        return Fail(MSG_BAD_PHONE);
      }
      store.Set(LOGIN_CODE_KEY + phone, code, ExpiresIn(ToSeconds(LOGIN_CODE_TTL, Minutes)));
      r := Ok(());
    }

    /** `createUserWithPhone`: a new row with the phone and the nickname
        `USER_NICK_NAME_PREFIX` followed by the random digits; `newId` is the
        id the insert assigns. */
    method CreateUserWithPhone(phone: string, nickDigits: string, newId: int) returns (u: User)
      modifies this`users
      ensures u == User(newId, phone, USER_NICK_NAME_PREFIX + nickDigits, "")
      ensures users == old(users) + [u]
    {
      u := User(newId, phone, USER_NICK_NAME_PREFIX + nickDigits, "");
      users := users + [u];
    }

    /** The user hash of a session under `LOGIN_USER_KEY + token`, expiring
        after `LOGIN_USER_TTL` minutes. */
    method StoreSession(token: string, u: User)
      modifies store`hashes
      ensures var key := LOGIN_USER_KEY + token;
        store.hashes == old(store.hashes)[key := HashEntry(
          (if key in old(store.hashes) then old(store.hashes)[key].fields else map[]) + SessionFields(u),
          ExpiresIn(ToSeconds(LOGIN_USER_TTL, Minutes)))]
    {
      var tokenKey := LOGIN_USER_KEY + token;
      assert map[] + SessionFields(u) == SessionFields(u);
      store.HPutAll(tokenKey, SessionFields(u));
      var _ := store.ExpireHash(tokenKey, ToSeconds(LOGIN_USER_TTL, Minutes));
    }

    /** `login`. A malformed phone, or a submitted code (possibly null) that
        differs from the stored one (possibly absent), fails and changes
        nothing. Otherwise the phone's user, created when there is none, is
        stored as a hash under `LOGIN_USER_KEY + token` for `LOGIN_USER_TTL`
        minutes, and the token is returned. `token`, `nickDigits` and `newId`
        are the UUID, the random digits and the assigned id. */
    method Login(phone: string, code: Option<string>, token: string, nickDigits: string, newId: int) returns (r: Result<string>)
      modifies this`users, store`hashes
      ensures phoneInvalid(phone) ==> r == Fail(MSG_BAD_PHONE)
      ensures !phoneInvalid(phone) && (code.None? || old(store.Get(LOGIN_CODE_KEY + phone)) != code) ==> r == Fail(MSG_BAD_CODE)
      ensures r.Fail? ==> users == old(users) && store.hashes == old(store.hashes)
      ensures r.Ok? <==> !phoneInvalid(phone) && code.Some? && old(store.Get(LOGIN_CODE_KEY + phone)) == code
      ensures r.Ok? ==>
        var user := LoginUser(old(users), phone, nickDigits, newId);
        && r.data == token
        && users == (if FindByPhone(old(users), phone).Some? then old(users) else old(users) + [user])
        && FindByPhone(users, phone) == Some(user)
        && var key := LOGIN_USER_KEY + token;
           store.hashes == old(store.hashes)[key := HashEntry(
             (if key in old(store.hashes) then old(store.hashes)[key].fields else map[]) + SessionFields(user),
             ExpiresIn(ToSeconds(LOGIN_USER_TTL, Minutes)))]
      ensures old(PhonesUnique(users)) ==> PhonesUnique(users)
    {
      if phoneInvalid(phone) {
        return Fail(MSG_BAD_PHONE);
      }
      var cacheCode := store.Get(LOGIN_CODE_KEY + phone);
      if cacheCode.None? || code.None? || cacheCode.value != code.value {
        return Fail(MSG_BAD_CODE);
      }
      var user := FindByPhone(users, phone);
      var u: User;
      if user.None? {
        u := CreateUserWithPhone(phone, nickDigits, newId);
        FindAppended(old(users), u);
      } else {
        u := user.value;
      }
      StoreSession(token, u);
      r := Ok(token);
    }

    /** A code sent to a well-formed phone lets that phone log in: the
        token comes back and the phone has a user. */
    method SendThenLogin(phone: string, code: string, token: string, nickDigits: string, newId: int) returns (sent: Result<()>, r: Result<string>)
      requires !phoneInvalid(phone)
      modifies this`users, store`strings, store`hashes
      ensures sent == Ok(()) && r == Ok(token)
      ensures FindByPhone(users, phone).Some?
    {
      sent := SendCode(phone, code);
      r := Login(phone, Some(code), token, nickDigits, newId);
    }

    /** `sign`: sets the bit of today (`dayOfMonth - 1`) in the user's bitmap
        of this month. */
    method Sign(userId: int, now: DateTime) returns (r: Result<()>)
      requires Calendar.Valid(now)
      modifies store`bitmaps
      ensures r == Ok(())
      ensures store.bitmaps == old(store.bitmaps)[SignKey(userId, now) := WithBit(old(store.Bitmap(SignKey(userId, now))), now.day - 1, true)]
    {
      store.SetBit(SignKey(userId, now), now.day - 1, true);
      r := Ok(());
    }

    /** `signCount`: the month's bits up to today read as an unsigned number,
        then its trailing ones counted by shifting; it is the current
        check-in streak. */
    method SignCount(userId: int, now: DateTime) returns (count: int)
      requires Calendar.Valid(now)
      ensures count == Streak(store.Bitmap(SignKey(userId, now)), now.day)
      ensures 0 <= count <= now.day
    {
      var bits := store.Bitmap(SignKey(userId, now));
      var num := UnsignedField(bits, now.day);
      TrailingOnesIsStreak(bits, now.day);
      FieldFitsLong(bits, now.day);
      count := CountTrailingOnes(num);
    }

    /** Signing today and then counting gives one more than the streak that
        ended yesterday. */
    method SignThenCount(userId: int, now: DateTime) returns (count: int)
      requires Calendar.Valid(now)
      modifies store`bitmaps
      ensures count == 1 + Streak(old(store.Bitmap(SignKey(userId, now))), now.day - 1)
    {
      var _ := Sign(userId, now);
      SignExtendsStreak(old(store.Bitmap(SignKey(userId, now))), now.day);
      count := SignCount(userId, now);
    }
  }

  /** The loop of `signCount`: while the low bit is set, count it and shift
      right with zero fill. A zero `num` gives 0 at once. */
  method CountTrailingOnes(num0: int) returns (count: int)
    requires 0 <= num0 < TWO_64 / 2
    ensures count == TrailingOnes(num0)
  {
    if num0 == 0 {
      return 0;
    }
    var num := num0;
    count := 0;
    Pow2Value();
    while LowBits(num, 1) != 0
      invariant 0 <= num <= num0
      invariant count + TrailingOnes(num) == TrailingOnes(num0)
      decreases num
    {
      count := count + 1;
      num := UnsignedShiftRight(num, 1);
    }
  }

  /** The user a successful log-in of `phone` ends with: the phone's user,
      or the one created for it. */
  function LoginUser(users: seq<User>, phone: string, nickDigits: string, newId: int): (u: User)
    ensures u.phone == phone
    ensures FindByPhone(users, phone).None? ==> u.id == newId && u.nickName == USER_NICK_NAME_PREFIX + nickDigits
  {
    if FindByPhone(users, phone).Some? then FindByPhone(users, phone).value
    else User(newId, phone, USER_NICK_NAME_PREFIX + nickDigits, "")
  }

  /** A month's worth of bits, read as a number, is a non-negative long. */
  lemma FieldFitsLong(bits: seq<bool>, width: nat)
    requires width <= 63
    ensures UnsignedField(bits, width) < TWO_64 / 2
  {
    Pow2Add(width, 63 - width);
    Pow2Add(63, 1);
    Pow2Value();
    assert Pow2(1) == 2;
  }

  /** After appending a user with a phone no one had, looking that phone up
      finds the new user. */
  lemma {:induction false} FindAppended(users: seq<User>, u: User)
    requires FindByPhone(users, u.phone).None?
    ensures FindByPhone(users + [u], u.phone) == Some(u)
  {
    if users != [] {
      assert (users + [u])[1..] == users[1..] + [u];
      FindAppended(users[1..], u);
    }
  }
}
