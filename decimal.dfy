/** Decimal text of numbers, as Java prints and parses it: `Long.toString`,
    `Long.parseLong`, and the zero-padded numeric fields of a date pattern.
    Store keys, set members and counter values are built from these. */
module Decimal {
  import opened Common
  import opened JavaLong

  predicate IsDigit(c: char)
  {
    '0' <= c <= '9'
  }

  predicate AllDigits(s: string)
  {
    forall i :: 0 <= i < |s| ==> IsDigit(s[i])
  }

  function DigitChar(d: nat): (c: char)
    requires d < 10
    ensures IsDigit(c)
  {
    ('0' as int + d) as char
  }

  function DigitValue(c: char): (d: nat)
    requires IsDigit(c)
    ensures d < 10
    ensures DigitChar(d) == c
  {
    c as int - '0' as int
  }

  function Pow10(k: nat): (p: nat)
    ensures p >= 1
  {
    if k == 0 then 1 else 10 * Pow10(k - 1)
  }

  /** The number a string of decimal digits denotes (leading zeros allowed). */
  function DigitsValue(s: string): (v: nat)
    requires AllDigits(s)
    ensures v < Pow10(|s|)
  {
    if s == [] then 0 else DigitsValue(s[..|s| - 1]) * 10 + DigitValue(s[|s| - 1])
  }

  /** The shortest decimal form of `n`, as `Long.toString` prints a non-negative long. */
  function NatString(n: nat): (s: string)
    ensures 1 <= |s| && AllDigits(s)
    ensures s[0] == '0' ==> n == 0
    decreases n
  {
    if n < 10 then [DigitChar(n)] else NatString(n / 10) + [DigitChar(n % 10)]
  }

  /** `Long.toString(n)`. */
  function LongString(n: int): (s: string)
    ensures |s| >= 1
  {
    if n < 0 then "-" + NatString(-n) else NatString(n)
  }

  /** `Long.parseLong(s)` (and `Long.valueOf`): an optional sign, at least one
      digit, and a value within the long range; anything else is a
      `NumberFormatException`, here `None`. */
  function ParseLong(s: string): (r: Option<int>)
    ensures r.Some? ==> InLong(r.value)
  {
    if |s| >= 2 && (s[0] == '-' || s[0] == '+') && AllDigits(s[1..]) then
      var m: int := DigitsValue(s[1..]);
      var v := if s[0] == '-' then -m else m;
      if InLong(v) then Some(v) else None
    else if |s| >= 1 && AllDigits(s) && DigitsValue(s) <= LONG_MAX then
      Some(DigitsValue(s))
    else
      None
  }

  /** Printing and then reading the digits of `n` gives `n` back. */
  lemma {:induction false} NatStringValue(n: nat)
    ensures DigitsValue(NatString(n)) == n
  {
    if n >= 10 {
      var s := NatString(n);
      assert s[..|s| - 1] == NatString(n / 10);
      NatStringValue(n / 10);
    }
  }

  /** Round trip of `Long.toString` and `Long.parseLong` over the whole long range. */
  lemma LongRoundTrip(n: int)
    requires InLong(n)
    ensures ParseLong(LongString(n)) == Some(n)
  {
    var s := LongString(n);
    if n < 0 {
      assert s[1..] == NatString(-n);
      NatStringValue(-n);
    } else {
      NatStringValue(n);
    }
  }

  /** Different numbers print differently, so `prefix + id` keys of different ids differ. */
  lemma LongStringInjective(a: int, b: int)
    ensures LongString(a) == LongString(b) <==> a == b
  {
    if LongString(a) == LongString(b) {
      if a < 0 && b < 0 {
        assert NatString(-a) == LongString(a)[1..];
        NatStringValue(-a);
        NatStringValue(-b);
      } else if a >= 0 && b >= 0 {
        NatStringValue(a);
        NatStringValue(b);
      }
    }
  }

  function Zeros(k: nat): (s: string)
    ensures |s| == k && AllDigits(s)
  {
    if k == 0 then [] else Zeros(k - 1) + "0"
  }

  /** A numeric field of a `DateTimeFormatter` pattern with `w` letters: at
      least `w` digits, zero-padded on the left. */
  function Padded(n: nat, w: nat): (s: string)
    ensures AllDigits(s)
  {
    var d := NatString(n);
    if |d| < w then Zeros(w - |d|) + d else d
  }

  lemma {:induction false} DigitsValueConcat(a: string, b: string)
    requires AllDigits(a) && AllDigits(b)
    ensures AllDigits(a + b)
    ensures DigitsValue(a + b) == DigitsValue(a) * Pow10(|b|) + DigitsValue(b)
  {
    AllDigitsConcat(a, b);
    if b == [] {
      assert a + b == a;
    } else {
      var ab := a + b;
      var b' := b[..|b| - 1];
      var x, p, y, d := DigitsValue(a), Pow10(|b'|), DigitsValue(b'), DigitValue(b[|b| - 1]);
      var prev := DigitsValue(a + b');
      assert prev == x * p + y by {
        DigitsValueConcat(a, b');
      }
      assert DigitsValue(ab) == prev * 10 + d by {
        AllDigitsConcat(a, b');
        assert ab[..|ab| - 1] == a + b';
        assert ab[|ab| - 1] == b[|b| - 1];
      }
      assert DigitsValue(b) == y * 10 + d && Pow10(|b|) == 10 * p;
      ShiftDigit(x, p, y, d);
    }
  }

  lemma AllDigitsConcat(a: string, b: string)
    requires AllDigits(a) && AllDigits(b)
    ensures AllDigits(a + b)
  {
    forall i | 0 <= i < |a + b| ensures IsDigit((a + b)[i]) {
      if i < |a| { assert (a + b)[i] == a[i]; } else { assert (a + b)[i] == b[i - |a|]; }
    }
  }

  lemma ShiftDigit(x: int, p: int, y: int, d: int)
    ensures (x * p + y) * 10 + d == x * (10 * p) + (y * 10 + d)
  {
  }

  lemma {:induction false} ZerosValue(k: nat)
    ensures DigitsValue(Zeros(k)) == 0
  {
    if k > 0 {
      assert Zeros(k)[..k - 1] == Zeros(k - 1);
      ZerosValue(k - 1);
    }
  }

  /** Zero padding does not change the value a field denotes. */
  lemma PaddedValue(n: nat, w: nat)
    ensures DigitsValue(Padded(n, w)) == n
  {
    var d := NatString(n);
    NatStringValue(n);
    if |d| < w {
      var z := Zeros(w - |d|);
      DigitsValueConcat(z, d);
      ZerosValue(w - |d|);
      assert DigitsValue(z + d) == 0 * Pow10(|d|) + n;
    }
  }

  /** A number below `10^w` prints in at most `w` digits. */
  lemma {:induction false} NatStringLength(n: nat, w: nat)
    requires 1 <= w && n < Pow10(w)
    ensures |NatString(n)| <= w
  {
    if n >= 10 {
      NatStringLength(n / 10, w - 1);
    }
  }

  /** A number below `10^w` fills a `w`-letter field exactly. */
  lemma PaddedWidth(n: nat, w: nat)
    requires 1 <= w && n < Pow10(w)
    ensures |Padded(n, w)| == w
  {
    NatStringLength(n, w);
  }

  /** Fields of the same width are equal exactly when their numbers are. */
  lemma PaddedInjective(a: nat, b: nat, w: nat)
    ensures Padded(a, w) == Padded(b, w) <==> a == b
  {
    PaddedValue(a, w);
    PaddedValue(b, w);
  }

  /** Appending a digit string to the digits of `n` is `n * 10^|b| + b`:
      `Long.parseLong(n + "dd")` as the shop cache builds its jittered TTL. */
  lemma ParseAppended(n: nat, b: string)
    requires AllDigits(b) && |b| >= 1
    requires n * Pow10(|b|) + DigitsValue(b) <= LONG_MAX
    ensures ParseLong(NatString(n) + b) == Some(n * Pow10(|b|) + DigitsValue(b))
  {
    NatStringValue(n);
    DigitsValueConcat(NatString(n), b);
  }
}
