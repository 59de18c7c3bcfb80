/** `System.DateTime` as the handlers use it: a calendar date with a time of day, compared
    chronologically, with `Year`, `DateTime.MinValue` (the value of an unset `DateTime`
    property) and the custom format "yyyy-MM-dd". */
module Calendar {
  import opened Text

  /** 100-nanosecond ticks, the resolution of a `DateTime`, in one hour and in one day. */
  const TicksPerHour: nat := 36_000_000_000
  const TicksPerDay: nat := 24 * TicksPerHour

  datatype DateTime = DateTime(year: int, month: int, day: int, ticks: int)

  predicate IsLeapYear(y: int) {
    y % 4 == 0 && (y % 100 != 0 || y % 400 == 0)
  }

  function DaysInMonth(y: int, m: int): int {
    if m == 2 then (if IsLeapYear(y) then 29 else 28)
    else if m == 4 || m == 6 || m == 9 || m == 11 then 30
    else 31
  }

  /** The range a `DateTime` can hold: years 1 to 9999 of the Gregorian calendar. */
  predicate Valid(d: DateTime) {
    && 1 <= d.year <= 9999
    && 1 <= d.month <= 12
    && 1 <= d.day <= DaysInMonth(d.year, d.month)
    && 0 <= d.ticks < TicksPerDay
  }

  /** `DateTime.MinValue`, 0001-01-01 00:00:00: what `default(DateTime)` holds. */
  const MinValue: DateTime := DateTime(1, 1, 1, 0)

  /** A date at midnight. */
  function Date(y: int, m: int, d: int): DateTime {
    DateTime(y, m, d, 0)
  }

  /** The `<` operator on `DateTime`: strictly earlier in time. */
  predicate Before(a: DateTime, b: DateTime): (r: bool)
    ensures a.year < b.year ==> r
    ensures r ==> a.year <= b.year
  {
    || a.year < b.year
    || (a.year == b.year && a.month < b.month)
    || (a.year == b.year && a.month == b.month && a.day < b.day)
    || (a.year == b.year && a.month == b.month && a.day == b.day && a.ticks < b.ticks)
  }

  /** `Before` is a strict total order: exactly one of a < b, a == b, b < a holds. */
  lemma BeforeTrichotomy(a: DateTime, b: DateTime)
    ensures Before(a, b) || a == b || Before(b, a)
    ensures !(Before(a, b) && Before(b, a))
    ensures !Before(a, a)
  {
  }

  /** No representable date is earlier than `MinValue`. */
  lemma MinValueIsLeast(d: DateTime)
    requires Valid(d)
    ensures !Before(d, MinValue)
  {
  }

  /** `d.ToString("yyyy-MM-dd")`: year padded to four digits, month and day to two. The text has
      dashes at positions 4 and 7, and its three digit fields read back as the year, month and day. */
  function FormatIsoDate(d: DateTime): (s: string)
    requires Valid(d)
    ensures |s| == 10 && s[4] == '-' && s[7] == '-'
    ensures AllDigits(s[..4]) && ParseNat(s[..4]) == d.year
    ensures AllDigits(s[5..7]) && ParseNat(s[5..7]) == d.month
    ensures AllDigits(s[8..]) && ParseNat(s[8..]) == d.day
  {
    var y := PadLeft(NatToString(d.year), 4, '0');
    var m := PadLeft(NatToString(d.month), 2, '0');
    var dd := PadLeft(NatToString(d.day), 2, '0');
    assert Pow10(4) == 10000 && Pow10(2) == 100;
    PaddedField(d.year, 4);
    PaddedField(d.month, 2);
    PaddedField(d.day, 2);
    DashedFields(y, m, dd);
    y + "-" + m + "-" + dd
  }

  /** A field padded to `width` is exactly `width` digits and reads back as the number. */
  lemma PaddedField(n: nat, width: nat)
    requires width >= 1 && n < Pow10(width)
    ensures |PadLeft(NatToString(n), width, '0')| == width
    ensures AllDigits(PadLeft(NatToString(n), width, '0'))
    ensures ParseNat(PadLeft(NatToString(n), width, '0')) == n
  {
    var s := NatToString(n);
    NatToStringLength(n, width);
    var r := PadLeft(s, width, '0');
    var z := r[..|r| - |s|];
    assert r == z + s;
    ParseNatLeadingZeros(z, s);
    ParseNatToString(n);
  }

  /** Where the three fields sit in `y + "-" + m + "-" + d` when they are 4, 2 and 2 long. */
  lemma DashedFields(y: string, m: string, d: string)
    requires |y| == 4 && |m| == 2 && |d| == 2
    ensures var s := y + "-" + m + "-" + d;
      |s| == 10 && s[4] == '-' && s[7] == '-' && s[..4] == y && s[5..7] == m && s[8..] == d
  {
  }
}
