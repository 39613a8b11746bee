/**
 * The timestamp handling of the listening-trend code: a played_at value has
 * every 'Z' replaced by "+00:00" and is then read by datetime.fromisoformat;
 * the hour is the timestamp's own (local) hour and the weekday is that of its
 * own calendar date, as strftime('%A') gives it.
 *
 * The accepted text is the date-time of section 5.6 of RFC 3339
 * (full-date, a 'T', 't' or space separator, partial-time with an optional
 * fraction, then a numeric offset), except that the offset may be left out,
 * since fromisoformat also reads naive timestamps, and a leap second (60) is
 * refused, since Python's datetime rejects it.
 */
module Timestamps {
  import opened Wrappers

  datatype Offset = Offset(negative: bool, hours: int, minutes: int)

  /** A parsed timestamp; the fraction of a second is read but not kept. */
  datatype DateTime = DateTime(
    year: int, month: int, day: int,
    hour: int, minute: int, second: int,
    offset: Option<Offset>)

  predicate IsLeapYear(y: int)
  {
    y % 4 == 0 && (y % 100 != 0 || y % 400 == 0)
  }

  function DaysInMonth(y: int, m: int): int
    requires 1 <= m <= 12
  {
    if m == 2 then (if IsLeapYear(y) then 29 else 28)
    else if m == 4 || m == 6 || m == 9 || m == 11 then 30
    else 31
  }

  /** A date of the proleptic Gregorian calendar within Python's years 1..9999. */
  predicate ValidDate(y: int, m: int, d: int)
  {
    1 <= y <= 9999 && 1 <= m <= 12 && 1 <= d <= DaysInMonth(y, m)
  }

  /**
   * An offset fromisoformat accepts: two-digit hours and minutes, with no
   * range check of their own, making less than 24 hours in all (the bound
   * of datetime.timezone). So "+00:75" is accepted and stands for 1 h 15 min.
   */
  predicate ValidOffset(o: Offset)
  {
    0 <= o.hours && 0 <= o.minutes <= 99 && o.hours * 60 + o.minutes < 24 * 60
  }

  predicate ValidDateTime(dt: DateTime)
  {
    && ValidDate(dt.year, dt.month, dt.day)
    && 0 <= dt.hour <= 23 && 0 <= dt.minute <= 59 && 0 <= dt.second <= 59
    && (dt.offset.Some? ==> ValidOffset(dt.offset.value))
  }

  predicate IsDigit(c: char)
  {
    '0' <= c <= '9'
  }

  predicate AllDigits(s: string)
  {
    forall i :: 0 <= i < |s| ==> IsDigit(s[i])
  }

  /** The decimal value of a string of digits. */
  function NumberValue(s: string): nat
    requires AllDigits(s)
  {
    if s == [] then 0 else NumberValue(s[..|s| - 1]) * 10 + (s[|s| - 1] as int - '0' as int)
  }

  function Pow10(n: nat): nat
  {
    if n == 0 then 1 else 10 * Pow10(n - 1)
  }

  function DigitChar(d: int): (c: char)
    requires 0 <= d < 10
    ensures IsDigit(c) && c as int - '0' as int == d
  {
    ('0' as int + d) as char
  }

  /** n written in exactly width decimal digits, with leading zeros. */
  function Pad(n: nat, width: nat): (s: string)
    ensures |s| == width && AllDigits(s)
  {
    if width == 0 then [] else Pad(n / 10, width - 1) + [DigitChar(n % 10)]
  }

  lemma {:induction false} PadValue(n: nat, width: nat)
    requires n < Pow10(width)
    ensures NumberValue(Pad(n, width)) == n
  {
    if width > 0 {
      PadValue(n / 10, width - 1);
      var s := Pad(n, width);
      assert s[..|s| - 1] == Pad(n / 10, width - 1);
    }
  }

  predicate IsSeparator(c: char)
  {
    c == 'T' || c == 't' || c == ' '
  }

  /** The fixed-width part YYYY-MM-DD?HH:MM:SS. */
  predicate HasDateTimeShape(s: string)
  {
    && |s| >= 19
    && AllDigits(s[0..4]) && s[4] == '-' && AllDigits(s[5..7]) && s[7] == '-' && AllDigits(s[8..10])
    && IsSeparator(s[10])
    && AllDigits(s[11..13]) && s[13] == ':' && AllDigits(s[14..16]) && s[16] == ':' && AllDigits(s[17..19])
  }

  /** The number of digits at the start of s. */
  function LeadingDigits(s: string): (n: nat)
    ensures n <= |s| && AllDigits(s[..n]) && (n < |s| ==> !IsDigit(s[n]))
  {
    if s == [] || !IsDigit(s[0]) then 0
    else
      var n := 1 + LeadingDigits(s[1..]);
      assert s[..n] == [s[0]] + s[1..][..n - 1];
      n
  }

  /** Skips an optional fraction "." 1*DIGIT; a '.' without digits is an error. */
  function SkipFraction(s: string): (r: Option<string>)
    ensures r.Some? ==> |r.value| <= |s|
  {
    if s == [] || s[0] != '.' then Some(s)
    else
      var n := LeadingDigits(s[1..]);
      if n == 0 then None else Some(s[1 + n..])
  }

  /** The rest after the seconds and fraction: nothing, or "+HH:MM" / "-HH:MM". */
  function ParseOffset(s: string): (r: Option<Option<Offset>>)
    ensures r.Some? && r.value.Some? ==> ValidOffset(r.value.value)
    ensures r == Some(None) <==> s == []
  {
    if s == [] then Some(None)
    else if |s| == 6 && (s[0] == '+' || s[0] == '-') && AllDigits(s[1..3]) && s[3] == ':' && AllDigits(s[4..6]) then
      var o := Offset(s[0] == '-', NumberValue(s[1..3]), NumberValue(s[4..6]));
      if ValidOffset(o) then Some(Some(o)) else None
    else None
  }

  /** datetime.fromisoformat on the grammar described above. */
  function ParseIsoFormat(s: string): (r: Option<DateTime>)
    ensures r.Some? ==> ValidDateTime(r.value)
    ensures r.Some? ==> HasDateTimeShape(s)
    ensures r.Some? ==> && r.value.year == NumberValue(s[0..4]) && r.value.month == NumberValue(s[5..7])
                        && r.value.day == NumberValue(s[8..10]) && r.value.hour == NumberValue(s[11..13])
                        && r.value.minute == NumberValue(s[14..16]) && r.value.second == NumberValue(s[17..19])
  {
    if !HasDateTimeShape(s) then None
    else
      var dt := DateTime(NumberValue(s[0..4]), NumberValue(s[5..7]), NumberValue(s[8..10]),
                         NumberValue(s[11..13]), NumberValue(s[14..16]), NumberValue(s[17..19]), None);
      if !ValidDateTime(dt) then None
      else
        match SkipFraction(s[19..])
        case None => None
        case Some(tail) =>
          match ParseOffset(tail)
          case None => None
          case Some(off) => Some(dt.(offset := off))
  }

  function FormatOffset(o: Option<Offset>): string
    requires o.Some? ==> ValidOffset(o.value)
  {
    match o
    case None => ""
    case Some(off) => [if off.negative then '-' else '+'] + Pad(off.hours, 2) + ":" + Pad(off.minutes, 2)
  }

  /** YYYY-MM-DD. */
  function DateText(dt: DateTime): string
    requires ValidDateTime(dt)
  {
    Pad(dt.year, 4) + "-" + Pad(dt.month, 2) + "-" + Pad(dt.day, 2)
  }

  /** HH:MM:SS. */
  function ClockText(dt: DateTime): string
    requires ValidDateTime(dt)
  {
    Pad(dt.hour, 2) + ":" + Pad(dt.minute, 2) + ":" + Pad(dt.second, 2)
  }

  /** datetime.isoformat: the date, a 'T', the time and the offset, if any. */
  function FormatIsoFormat(dt: DateTime): string
    requires ValidDateTime(dt)
  {
    DateText(dt) + "T" + ClockText(dt) + FormatOffset(dt.offset)
  }

  lemma ParseFormatOffset(o: Option<Offset>)
    requires o.Some? ==> ValidOffset(o.value)
    ensures ParseOffset(FormatOffset(o)) == Some(o)
  {
    if o.Some? {
      var s := FormatOffset(o);
      PadValue(o.value.hours, 2);
      PadValue(o.value.minutes, 2);
      assert s[1..3] == Pad(o.value.hours, 2);
      assert s[4..6] == Pad(o.value.minutes, 2);
    }
  }

  /** Where the fields sit in the extended format. */
  lemma DateTextFields(dt: DateTime)
    requires ValidDateTime(dt)
    ensures var d := DateText(dt);
      && |d| == 10 && d[0..4] == Pad(dt.year, 4) && d[4] == '-'
      && d[5..7] == Pad(dt.month, 2) && d[7] == '-' && d[8..10] == Pad(dt.day, 2)
  {
  }

  lemma ClockTextFields(dt: DateTime)
    requires ValidDateTime(dt)
    ensures var c := ClockText(dt);
      && |c| == 8 && c[0..2] == Pad(dt.hour, 2) && c[2] == ':'
      && c[3..5] == Pad(dt.minute, 2) && c[5] == ':' && c[6..8] == Pad(dt.second, 2)
  {
  }

  lemma FormattedFields(dt: DateTime)
    requires ValidDateTime(dt)
    ensures var s := FormatIsoFormat(dt);
      && s[0..4] == Pad(dt.year, 4) && s[5..7] == Pad(dt.month, 2) && s[8..10] == Pad(dt.day, 2)
      && s[11..13] == Pad(dt.hour, 2) && s[14..16] == Pad(dt.minute, 2) && s[17..19] == Pad(dt.second, 2)
      && s[19..] == FormatOffset(dt.offset)
      && HasDateTimeShape(s)
  {
    var s, d, c := FormatIsoFormat(dt), DateText(dt), ClockText(dt);
    DateTextFields(dt);
    ClockTextFields(dt);
    assert s[..10] == d && s[10] == 'T' && s[11..19] == c && s[19..] == FormatOffset(dt.offset);
    assert s[0..4] == d[0..4] && s[5..7] == d[5..7] && s[8..10] == d[8..10];
    assert s[11..13] == c[0..2] && s[14..16] == c[3..5] && s[17..19] == c[6..8];
  }

  /** The numbers read back from the fields of the extended format. */
  lemma FormattedValues(dt: DateTime)
    requires ValidDateTime(dt)
    ensures var s := FormatIsoFormat(dt);
      && HasDateTimeShape(s)
      && NumberValue(s[0..4]) == dt.year && NumberValue(s[5..7]) == dt.month
      && NumberValue(s[8..10]) == dt.day && NumberValue(s[11..13]) == dt.hour
      && NumberValue(s[14..16]) == dt.minute && NumberValue(s[17..19]) == dt.second
      && s[19..] == FormatOffset(dt.offset)
  {
    FormattedFields(dt);
    FieldValues(dt);
  }

  /** Each field of a valid timestamp fits its width, so its digits read back as it. */
  lemma FieldValues(dt: DateTime)
    requires ValidDateTime(dt)
    ensures NumberValue(Pad(dt.year, 4)) == dt.year && NumberValue(Pad(dt.month, 2)) == dt.month
    ensures NumberValue(Pad(dt.day, 2)) == dt.day && NumberValue(Pad(dt.hour, 2)) == dt.hour
    ensures NumberValue(Pad(dt.minute, 2)) == dt.minute && NumberValue(Pad(dt.second, 2)) == dt.second
  {
    assert Pow10(2) == 100 && Pow10(4) == 10000;
    PadValue(dt.year, 4);
    PadValue(dt.month, 2);
    PadValue(dt.day, 2);
    PadValue(dt.hour, 2);
    PadValue(dt.minute, 2);
    PadValue(dt.second, 2);
  }

  /** Offset minutes of 60 or more are read as written, as long as the total is under a day. */
  lemma LongMinutesOffset()
    ensures ParseOffset("+00:75") == Some(Some(Offset(false, 0, 75)))
    ensures ParseOffset("-23:59") == Some(Some(Offset(true, 23, 59)))
    ensures ParseOffset("+23:60") == None
  {
    OffsetText("+00:75");
    OffsetText("-23:59");
    OffsetText("+23:60");
  }

  /** The fields of a six-character "+HH:MM" text. */
  lemma OffsetText(s: string)
    requires |s| == 6 && AllDigits(s[1..3]) && AllDigits(s[4..6])
    ensures NumberValue(s[1..3]) == (s[1] as int - '0' as int) * 10 + (s[2] as int - '0' as int)
    ensures NumberValue(s[4..6]) == (s[4] as int - '0' as int) * 10 + (s[5] as int - '0' as int)
  {
    var h, m := s[1..3], s[4..6];
    assert h[..1] == [s[1]] && h[1] == s[2] && [s[1]][..0] == [];
    assert NumberValue(h[..1]) == s[1] as int - '0' as int;
    assert NumberValue(h) == NumberValue(h[..1]) * 10 + (h[1] as int - '0' as int);
    assert m[..1] == [s[4]] && m[1] == s[5] && [s[4]][..0] == [];
    assert NumberValue(m[..1]) == s[4] as int - '0' as int;
    assert NumberValue(m) == NumberValue(m[..1]) * 10 + (m[1] as int - '0' as int);
  }

  /** Formatting a valid timestamp and reading it back gives the same timestamp. */
  lemma ParseFormatRoundTrip(dt: DateTime)
    requires ValidDateTime(dt)
    ensures ParseIsoFormat(FormatIsoFormat(dt)) == Some(dt)
  {
    var s := FormatIsoFormat(dt);
    var tail := FormatOffset(dt.offset);
    FormattedValues(dt);
    assert SkipFraction(tail) == Some(tail);
    ParseFormatOffset(dt.offset);
  }

  /** A run of digits followed by a non-digit is read up to that non-digit. */
  lemma {:induction false} LeadingDigitsOf(f: string, rest: string)
    requires AllDigits(f) && rest != [] && !IsDigit(rest[0])
    ensures LeadingDigits(f + rest) == |f|
  {
    if f != [] {
      LeadingDigitsOf(f[1..], rest);
      assert (f + rest)[1..] == f[1..] + rest;
    }
  }

  /** Text that starts with the date and clock of dt has dt's fields. */
  lemma StartsWithFields(dt: DateTime, u: string)
    requires ValidDateTime(dt) && |u| >= 19 && u[..19] == DateText(dt) + "T" + ClockText(dt)
    ensures && HasDateTimeShape(u)
            && NumberValue(u[0..4]) == dt.year && NumberValue(u[5..7]) == dt.month
            && NumberValue(u[8..10]) == dt.day && NumberValue(u[11..13]) == dt.hour
            && NumberValue(u[14..16]) == dt.minute && NumberValue(u[17..19]) == dt.second
  {
    var naive := dt.(offset := None);
    FormattedValues(naive);
    var s := FormatIsoFormat(naive);
    assert s == u[..19];
    assert u[0..4] == s[0..4] && u[5..7] == s[5..7] && u[8..10] == s[8..10];
    assert u[11..13] == s[11..13] && u[14..16] == s[14..16] && u[17..19] == s[17..19];
  }

  /**
   * A timestamp written with a fraction of a second reads as the same
   * timestamp: the fraction is skipped and the offset after it is read.
   */
  lemma FractionRoundTrip(dt: DateTime, f: string)
    requires ValidDateTime(dt) && f != [] && AllDigits(f)
    ensures ParseIsoFormat(DateText(dt) + "T" + ClockText(dt) + "." + f + FormatOffset(dt.offset)) == Some(dt)
  {
    var head, tail := DateText(dt) + "T" + ClockText(dt), FormatOffset(dt.offset);
    assert |DateText(dt)| == 10 && |ClockText(dt)| == 8;
    assert tail != [] ==> tail[0] == '+' || tail[0] == '-';
    var u, rest := head + "." + f + tail, "." + f + tail;
    assert |head| == 19 && u == head + rest;
    assert u[..19] == head && u[19..] == rest;
    SkipsFraction(f, tail);
    ParseOfParts(dt, u);
  }

  /** A '.' and digits before a tail that does not start with a digit are skipped. */
  lemma SkipsFraction(f: string, tail: string)
    requires f != [] && AllDigits(f) && (tail != [] ==> !IsDigit(tail[0]))
    ensures SkipFraction("." + f + tail) == Some(tail)
  {
    var t := "." + f + tail;
    assert t[1..] == f + tail;
    if tail == [] {
      assert f + tail == f;
    } else {
      LeadingDigitsOf(f, tail);
    }
    assert t[1 + |f|..] == tail;
  }

  /** Text with dt's date and clock, then a part that skips to dt's offset, reads as dt. */
  lemma ParseOfParts(dt: DateTime, u: string)
    requires ValidDateTime(dt) && |u| >= 19 && u[..19] == DateText(dt) + "T" + ClockText(dt)
    requires SkipFraction(u[19..]) == Some(FormatOffset(dt.offset))
    ensures ParseIsoFormat(u) == Some(dt)
  {
    StartsWithFields(dt, u);
    ParseFormatOffset(dt.offset);
  }

  /** str.replace(c, rep) on every occurrence of c; no c is left when rep has none. */
  function ReplaceAll(s: string, c: char, rep: string): (r: string)
    ensures c !in rep ==> c !in r
  {
    if s == [] then []
    else ReplaceAll(s[..|s| - 1], c, rep) + (if s[|s| - 1] == c then rep else [s[|s| - 1]])
  }

  lemma {:induction false} ReplaceAllAbsent(s: string, c: char, rep: string)
    requires c !in s
    ensures ReplaceAll(s, c, rep) == s
  {
    if s != [] {
      ReplaceAllAbsent(s[..|s| - 1], c, rep);
    }
  }

  /**
   * The played_at rewrite: "Z" becomes "+00:00" wherever it occurs, so no "Z"
   * is left, and a value without one is kept as it is.
   */
  function NormalizeZulu(ts: string): (r: string)
    ensures 'Z' !in r
    ensures 'Z' !in ts ==> r == ts
  {
    if 'Z' in ts then ReplaceAll(ts, 'Z', "+00:00") else ts
  }

  /** How a played_at value is read. */
  function ParsePlayedAt(ts: string): (r: Option<DateTime>)
    ensures r.Some? ==> ValidDateTime(r.value)
  {
    ParseIsoFormat(NormalizeZulu(ts))
  }

  /**
   * A timestamp written with a trailing 'Z' reads as the same local time with
   * offset +00:00, so its hour is the hour written, not converted.
   */
  lemma ZuluTimestamp(dt: DateTime)
    requires ValidDateTime(dt) && dt.offset.None?
    ensures ParsePlayedAt(FormatIsoFormat(dt) + "Z") == Some(dt.(offset := Some(Offset(false, 0, 0))))
  {
    var utc := dt.(offset := Some(Offset(false, 0, 0)));
    FormatHasNoZulu(dt);
    NormalizeTrailingZulu(FormatIsoFormat(dt));
    FormatAtUtc(dt);
    ParseFormatRoundTrip(utc);
  }

  /**
   * The form the service sends, with a fraction of a second and a trailing
   * 'Z', reads as the written local time at offset +00:00.
   */
  lemma FractionalZulu(dt: DateTime, f: string)
    requires ValidDateTime(dt) && dt.offset.None? && f != [] && AllDigits(f)
    ensures ParsePlayedAt(FormatIsoFormat(dt) + "." + f + "Z") == Some(dt.(offset := Some(Offset(false, 0, 0))))
  {
    var utc := dt.(offset := Some(Offset(false, 0, 0)));
    var body := FormatIsoFormat(dt) + "." + f;
    FormatHasNoZulu(dt);
    assert 'Z' !in f;
    assert 'Z' !in body;
    NormalizeTrailingZulu(body);
    FormatAtUtc(dt);
    assert FormatOffset(utc.offset) == "+00:00";
    assert FormatIsoFormat(dt) == DateText(utc) + "T" + ClockText(utc);
    FractionRoundTrip(utc, f);
  }

  lemma FormatHasNoZulu(dt: DateTime)
    requires ValidDateTime(dt)
    ensures 'Z' !in FormatIsoFormat(dt)
  {
    assert forall p: string :: AllDigits(p) ==> 'Z' !in p;
  }

  lemma NormalizeTrailingZulu(s: string)
    requires 'Z' !in s
    ensures NormalizeZulu(s + "Z") == s + "+00:00"
  {
    ReplaceAllAbsent(s, 'Z', "+00:00");
    assert (s + "Z")[..|s + "Z"| - 1] == s;
  }

  lemma FormatAtUtc(dt: DateTime)
    requires ValidDateTime(dt) && dt.offset.None?
    ensures FormatIsoFormat(dt.(offset := Some(Offset(false, 0, 0)))) == FormatIsoFormat(dt) + "+00:00"
  {
    assert Pad(0, 2) == "00" by {
      assert Pad(0, 1) == "0";
    }
  }

  /** Days in the years before y (date.toordinal counts 0001-01-01 as day 1). */
  function DaysBeforeYear(y: int): int
    requires y >= 1
  {
    var p := y - 1;
    p * 365 + p / 4 - p / 100 + p / 400
  }

  function DaysBeforeMonth(y: int, m: int): int
    requires 1 <= m <= 12
  {
    [0, 31, 59, 90, 120, 151, 181, 212, 243, 273, 304, 334][m - 1]
    + (if m > 2 && IsLeapYear(y) then 1 else 0)
  }

  /** date.toordinal(). */
  function Ordinal(y: int, m: int, d: int): int
    requires ValidDate(y, m, d)
  {
    DaysBeforeYear(y) + DaysBeforeMonth(y, m) + d
  }

  /** date.weekday(): Monday is 0, Sunday is 6. */
  function Weekday(y: int, m: int, d: int): (w: int)
    requires ValidDate(y, m, d)
    ensures 0 <= w < 7
  {
    (Ordinal(y, m, d) + 6) % 7
  }

  const DayNames: seq<string> := ["Monday", "Tuesday", "Wednesday", "Thursday", "Friday", "Saturday", "Sunday"]

  /**
   * strftime('%A') of a timestamp: the weekday of its own date, a Thursday on
   * 1 January 1970 and a Saturday on 1 January 2000.
   */
  function DayName(dt: DateTime): (name: string)
    requires ValidDateTime(dt)
    ensures name in DayNames
    ensures dt.year == 1970 && dt.month == 1 && dt.day == 1 ==> name == "Thursday"
    ensures dt.year == 2000 && dt.month == 1 && dt.day == 1 ==> name == "Saturday"
  {
    KnownWeekdays();
    DayNames[Weekday(dt.year, dt.month, dt.day)]
  }

  /** The calendar day after (y, m, d). */
  function NextDay(y: int, m: int, d: int): (r: (int, int, int))
    requires ValidDate(y, m, d) && y < 9999
    ensures ValidDate(r.0, r.1, r.2)
  {
    if d < DaysInMonth(y, m) then (y, m, d + 1)
    else if m < 12 then (y, m + 1, 1)
    else (y + 1, 1, 1)
  }

  lemma YearLength(y: int)
    requires y >= 1
    ensures DaysBeforeYear(y + 1) == DaysBeforeYear(y) + (if IsLeapYear(y) then 366 else 365)
  {
    var p := y - 1;
    QuotientStep(y, 4);
    QuotientStep(y, 100);
    QuotientStep(y, 400);
    if y % 400 == 0 {
      MultipleOfFactor(y, 100, 4);
    }
    if y % 100 == 0 {
      MultipleOfFactor(y, 4, 25);
    }
    assert y * 365 == p * 365 + 365;
    assert DaysBeforeYear(y + 1) - DaysBeforeYear(y) == 365 + (y / 4 - p / 4) - (y / 100 - p / 100) + (y / 400 - p / 400);
  }

  /** A multiple of n * m is a multiple of n. */
  lemma MultipleOfFactor(y: int, n: int, m: int)
    requires n > 0 && m > 0 && y % (n * m) == 0
    ensures y % n == 0
  {
    var q := y / (n * m);
    assert y == (n * m) * q;
    assert y == (m * q) * n;
    QuotientUnique(y, n, m * q, 0);
  }

  /** Going from y - 1 to y, y / n grows by one exactly when n divides y. */
  lemma QuotientStep(y: int, n: int)
    requires n > 0
    ensures y / n - (y - 1) / n == (if y % n == 0 then 1 else 0)
  {
    var q, r := y / n, y % n;
    if r == 0 {
      QuotientUnique(y - 1, n, q - 1, n - 1);
    } else {
      QuotientUnique(y - 1, n, q, r - 1);
    }
  }

  lemma QuotientUnique(x: int, n: int, q: int, r: int)
    requires n > 0 && 0 <= r < n && x == q * n + r
    ensures x / n == q
  {
    var d := q - x / n;
    assert d * n == x % n - r;
    if d >= 1 {
      MultiplyAtLeast(d, n);
    } else if d <= -1 {
      MultiplyAtLeast(-d, n);
    }
  }

  lemma MultiplyAtLeast(a: int, n: int)
    requires a >= 1 && n > 0
    ensures a * n >= n
  {
    assert a * n == (a - 1) * n + n;
    NonNegativeMultiple(a - 1, n);
  }

  lemma NonNegativeMultiple(a: int, n: int)
    requires a >= 0 && n > 0
    ensures a * n >= 0
  {
  }

  /** Successive days have successive ordinals... */
  lemma NextDayOrdinal(y: int, m: int, d: int)
    requires ValidDate(y, m, d) && y < 9999
    ensures var n := NextDay(y, m, d); Ordinal(n.0, n.1, n.2) == Ordinal(y, m, d) + 1
  {
    if d == DaysInMonth(y, m) && m == 12 {
      YearLength(y);
    }
  }

  /** ...and so successive weekdays, wrapping from Sunday to Monday. */
  lemma NextDayWeekday(y: int, m: int, d: int)
    requires ValidDate(y, m, d) && y < 9999
    ensures var n := NextDay(y, m, d); Weekday(n.0, n.1, n.2) == (Weekday(y, m, d) + 1) % 7
  {
    NextDayOrdinal(y, m, d);
    var n := NextDay(y, m, d);
    ModSuccessor(Ordinal(y, m, d) + 6, Ordinal(n.0, n.1, n.2) + 6);
  }

  lemma ModSuccessor(a: int, b: int)
    requires b == a + 1
    ensures b % 7 == (a % 7 + 1) % 7
  {
  }

  /** Two fixed points of the calendar: 1970-01-01 was a Thursday, 2000-01-01 a Saturday. */
  lemma KnownWeekdays()
    ensures DayNames[Weekday(1970, 1, 1)] == "Thursday"
    ensures DayNames[Weekday(2000, 1, 1)] == "Saturday"
  {
    UnixEpochWeekday();
    MillenniumWeekday();
  }

  lemma UnixEpochWeekday()
    ensures Weekday(1970, 1, 1) == 3
  {
    assert 1969 / 4 == 492 && 1969 / 100 == 19 && 1969 / 400 == 4;
    assert DaysBeforeYear(1970) == 719162;
    assert Ordinal(1970, 1, 1) == 719163;
    assert 719169 == 7 * 102738 + 3;
  }

  lemma MillenniumWeekday()
    ensures Weekday(2000, 1, 1) == 5
  {
    assert 1999 / 4 == 499 && 1999 / 100 == 19 && 1999 / 400 == 4;
    assert DaysBeforeYear(2000) == 730119;
    assert Ordinal(2000, 1, 1) == 730120;
    assert 730126 == 7 * 104303 + 5;
  }
}
