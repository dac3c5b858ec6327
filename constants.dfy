/** Key prefixes and time-to-live values the services share. The class that
    declares them is not part of this model, so the values below are
    stand-ins with the same roles: each prefix is distinct and ends in ':',
    and each TTL is positive. */
module RedisConstants {
  const LOGIN_CODE_KEY: string := "login:code:"
  const LOGIN_CODE_TTL: int := 2
  const LOGIN_USER_KEY: string := "login:token:"
  const LOGIN_USER_TTL: int := 36000
  const CACHE_NULL_TTL: int := 2
  const CACHE_SHOP_TTL: nat := 30
  const CACHE_SHOP_KEY: string := "cache:shop:"
  const CACHE_SHOP_LIST: string := "cache:shop:type:"
  const LOCK_SHOP_KEY: string := "lock:shop:"
  const BLOG_LIKED_KEY: string := "blog:liked:"
  const FEED_KEY: string := "feed:"
  const USER_SIGN_KEY: string := "sign:"
}

/** Paging and naming constants; stand-ins as above. */
module SystemConstants {
  const DEFAULT_PAGE_SIZE: int := 5
  const USER_NICK_NAME_PREFIX: string := "user_"
}
