/** Small value types shared by every service model: an optional value, the
    `TimeUnit`s the services pass to the store, and the "blank string" test
    the cache code uses to tell a cached value from the negative-cache marker. */
module Common {

  datatype Option<+T> = None | Some(value: T)

  /** A controller reply, `Result.ok(data)` or `Result.fail(errorMsg)`. */
  datatype Result<T> = Ok(data: T) | Fail(errorMsg: string)

  /** The `java.util.concurrent.TimeUnit` constants the services use. */
  datatype TimeUnit = Seconds | Minutes

  /** `unit.toSeconds(time)`. */
  function ToSeconds(time: int, unit: TimeUnit): (s: int)
    ensures unit == Seconds ==> s == time
    ensures unit == Minutes ==> s == 60 * time
    ensures time >= 0 ==> s >= time
  {
    match unit
    case Seconds => time
    case Minutes => time * 60
  }

  /** A blank character in the sense of hutool's `CharUtil.isBlankChar`:
      Java whitespace, Unicode space separators, and a few invisible marks. */
  predicate IsBlankChar(c: char)
  {
    || c == ' ' || c == '\t' || c == '\n' || c == '\r'
    || c == '\U{000B}' || c == '\U{000C}'
    || ('\U{001C}' <= c <= '\U{001F}')
    || c == '\U{00A0}' || c == '\U{1680}' || ('\U{2000}' <= c <= '\U{200A}')
    || c == '\U{2028}' || c == '\U{2029}' || c == '\U{202F}' || c == '\U{205F}' || c == '\U{3000}'
    || c == '\U{FEFF}' || c == '\U{202A}' || c == '\U{0000}' || c == '\U{3164}' || c == '\U{2800}'
    || c == '\U{180E}'
  }

  /** `StrUtil.isBlank` on a string that is present: empty or only blank characters. */
  predicate IsBlank(s: string)
  {
    forall i :: 0 <= i < |s| ==> IsBlankChar(s[i])
  }

  /** `StrUtil.isBlank` on a possibly-null string. */
  predicate IsBlankOrNull(s: Option<string>)
  {
    s.None? || IsBlank(s.value)
  }
}
