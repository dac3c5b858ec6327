/** `LocalDateTime` values as the services read the clock: the civil date and
    time, its UTC epoch second, and the two date patterns that go into store
    keys (`yyyy:MM:dd` for the id counter, `:yyyyMM` for the sign-in bitmap). */
module Calendar {
  import opened Decimal

  datatype DateTime = DateTime(year: int, month: int, day: int, hour: int, minute: int, second: int)

  predicate IsLeapYear(y: int)
  {
    y % 4 == 0 && (y % 100 != 0 || y % 400 == 0)
  }

  function DaysInMonth(y: int, m: int): int
  {
    if m == 2 then (if IsLeapYear(y) then 29 else 28)
    else if m == 4 || m == 6 || m == 9 || m == 11 then 30
    else 31
  }

  /** A clock reading the model handles: years 1 to 9999, whose `yyyy` field
      is exactly four digits. */
  predicate Valid(t: DateTime)
  {
    && 1 <= t.year <= 9999
    && 1 <= t.month <= 12
    && 1 <= t.day <= DaysInMonth(t.year, t.month)
    && 0 <= t.hour < 24 && 0 <= t.minute < 60 && 0 <= t.second < 60
  }

  /** Days from 1970-01-01 to the given civil date (proleptic Gregorian). */
  function DaysFromCivil(y: int, m: int, d: int): int
    requires 1 <= y && 1 <= m <= 12
  {
    var y' := if m <= 2 then y - 1 else y;
    var era := y' / 400;
    var yoe := y' - era * 400;
    var doy := (153 * (if m > 2 then m - 3 else m + 9) + 2) / 5 + d - 1;
    var doe := yoe * 365 + yoe / 4 - yoe / 100 + doy;
    era * 146097 + doe - 719468
  }

  /** `t.toEpochSecond(ZoneOffset.UTC)`. */
  function EpochSecond(t: DateTime): int
    requires Valid(t)
  {
    DaysFromCivil(t.year, t.month, t.day) * 86400 + t.hour * 3600 + t.minute * 60 + t.second
  }

  /** `t.format(DateTimeFormatter.ofPattern("yyyy:MM:dd"))`. */
  function DayStamp(t: DateTime): string
    requires Valid(t)
  {
    Padded(t.year, 4) + ":" + Padded(t.month, 2) + ":" + Padded(t.day, 2)
  }

  /** `t.format(DateTimeFormatter.ofPattern(":yyyyMM"))`. */
  function MonthSuffix(t: DateTime): string
    requires Valid(t)
  {
    ":" + Padded(t.year, 4) + Padded(t.month, 2)
  }

  predicate SameDay(a: DateTime, b: DateTime)
  {
    a.year == b.year && a.month == b.month && a.day == b.day
  }

  predicate SameMonth(a: DateTime, b: DateTime)
  {
    a.year == b.year && a.month == b.month
  }

  lemma FieldWidths(t: DateTime)
    requires Valid(t)
    ensures |Padded(t.year, 4)| == 4 && |Padded(t.month, 2)| == 2 && |Padded(t.day, 2)| == 2
  {
    assert Pow10(4) == 10000 && Pow10(2) == 100;
    PaddedWidth(t.year, 4);
    PaddedWidth(t.month, 2);
    PaddedWidth(t.day, 2);
  }

  /** The day stamp is ten characters long and names the day exactly. */
  lemma DayStampExact(a: DateTime, b: DateTime)
    requires Valid(a) && Valid(b)
    ensures |DayStamp(a)| == 10
    ensures DayStamp(a) == DayStamp(b) <==> SameDay(a, b)
  {
    FieldWidths(a);
    FieldWidths(b);
    var sa, sb := DayStamp(a), DayStamp(b);
    if sa == sb {
      assert sa[..4] == Padded(a.year, 4) && sb[..4] == Padded(b.year, 4);
      assert sa[5..7] == Padded(a.month, 2) && sb[5..7] == Padded(b.month, 2);
      assert sa[8..] == Padded(a.day, 2) && sb[8..] == Padded(b.day, 2);
      PaddedInjective(a.year, b.year, 4);
      PaddedInjective(a.month, b.month, 2);
      PaddedInjective(a.day, b.day, 2);
    }
  }

  /** The month suffix is seven characters long and names the month exactly. */
  lemma MonthSuffixExact(a: DateTime, b: DateTime)
    requires Valid(a) && Valid(b)
    ensures |MonthSuffix(a)| == 7
    ensures MonthSuffix(a) == MonthSuffix(b) <==> SameMonth(a, b)
  {
    FieldWidths(a);
    FieldWidths(b);
    var sa, sb := MonthSuffix(a), MonthSuffix(b);
    if sa == sb {
      assert sa[1..5] == Padded(a.year, 4) && sb[1..5] == Padded(b.year, 4);
      assert sa[5..] == Padded(a.month, 2) && sb[5..] == Padded(b.month, 2);
      PaddedInjective(a.year, b.year, 4);
      PaddedInjective(a.month, b.month, 2);
    }
  }

  /** The id generator's custom epoch, 1640995200, is 2022-01-01T00:00:00 UTC. */
  lemma CustomEpoch()
    ensures EpochSecond(DateTime(2022, 1, 1, 0, 0, 0)) == 1640995200
  {
  }
}
