/** Naive datetimes of the proleptic Gregorian calendar, and the two strptime
    formats the scripts use: '%d/%m/%Y %H:%M' and '%Y-%m-%d %H:%M:%S'.

    strptime matches its format as a regular expression: a numeric field is one
    or two digits in a fixed range (%Y exactly four digits, %d may also be a
    space and one digit), a space in the format matches a run of whitespace,
    the whole string must be consumed and the date must exist.  Because every
    field is followed by a non-digit (a delimiter or the end), the regular
    expression accepts exactly when the maximal run of digits at that place has
    an accepted length and value, which is how the scanner below reads it. */
module Calendar {
  import opened PyStr

  datatype DateTime = DateTime(year: int, month: int, day: int, hour: int, minute: int, second: int)

  predicate IsLeapYear(y: int) {
    y % 4 == 0 && (y % 100 != 0 || y % 400 == 0)
  }

  function DaysInMonth(y: int, m: int): (n: int)
    requires 1 <= m <= 12
    ensures 28 <= n <= 31
  {
    if m == 2 then (if IsLeapYear(y) then 29 else 28)
    else if m == 4 || m == 6 || m == 9 || m == 11 then 30
    else 31
  }

  function DaysInYear(y: int): int {
    if IsLeapYear(y) then 366 else 365
  }

  /** What the datetime constructor accepts. */
  predicate Valid(dt: DateTime) {
    && 1 <= dt.year <= 9999
    && 1 <= dt.month <= 12
    && 1 <= dt.day <= DaysInMonth(dt.year, dt.month)
    && 0 <= dt.hour <= 23
    && 0 <= dt.minute <= 59
    && 0 <= dt.second <= 59
  }

  /** Days in the years 1 .. y-1. */
  function DaysBeforeYear(y: int): int
    decreases if y < 1 then 0 else y
  {
    if y <= 1 then 0 else DaysBeforeYear(y - 1) + DaysInYear(y - 1)
  }

  /** Days in the months 1 .. m-1 of year y. */
  function DaysBeforeMonth(y: int, m: int): (n: int)
    requires 1 <= m <= 12
    ensures 0 <= n
  {
    [0, 31, 59, 90, 120, 151, 181, 212, 243, 273, 304, 334][m - 1]
      + (if m > 2 && IsLeapYear(y) then 1 else 0)
  }

  /** Day number counted from 1 January of year 1 (date.toordinal()). */
  function Ordinal(dt: DateTime): int
    requires Valid(dt)
  {
    DaysBeforeYear(dt.year) + DaysBeforeMonth(dt.year, dt.month) + dt.day
  }

  /** Seconds since the start of year 1; subtracting two of these is timedelta.total_seconds(). */
  function EpochSeconds(dt: DateTime): int
    requires Valid(dt)
  {
    Ordinal(dt) * 86400 + dt.hour * 3600 + dt.minute * 60 + dt.second
  }

  /** a < b as Python compares datetimes: field by field. */
  predicate Before(a: DateTime, b: DateTime) {
    || a.year < b.year
    || (a.year == b.year && a.month < b.month)
    || (a.year == b.year && a.month == b.month && a.day < b.day)
    || (a.year == b.year && a.month == b.month && a.day == b.day && a.hour < b.hour)
    || (a.year == b.year && a.month == b.month && a.day == b.day && a.hour == b.hour && a.minute < b.minute)
    || (a.year == b.year && a.month == b.month && a.day == b.day && a.hour == b.hour && a.minute == b.minute
        && a.second < b.second)
  }

  lemma DaysBeforeMonthStep(y: int, m: int)
    requires 1 <= m < 12
    ensures DaysBeforeMonth(y, m + 1) == DaysBeforeMonth(y, m) + DaysInMonth(y, m)
  {
  }

  /** The months of a year fill exactly the year. */
  lemma DaysBeforeMonthLast(y: int, m: int)
    requires 1 <= m <= 12
    ensures DaysBeforeMonth(y, m) + DaysInMonth(y, m) <= DaysInYear(y)
  {
    assert DaysBeforeMonth(y, 12) + 31 == DaysInYear(y);
    if m < 12 {
      DaysBeforeMonthStep(y, m);
      DaysBeforeMonthGrows(y, m + 1, 12);
    }
  }

  lemma {:induction false} DaysBeforeMonthGrows(y: int, m1: int, m2: int)
    requires 1 <= m1 <= m2 <= 12
    ensures DaysBeforeMonth(y, m1) <= DaysBeforeMonth(y, m2)
    decreases m2 - m1
  {
    if m1 < m2 {
      DaysBeforeMonthStep(y, m2 - 1);
      DaysBeforeMonthGrows(y, m1, m2 - 1);
    }
  }

  lemma {:induction false} DaysBeforeYearGrows(y1: int, y2: int)
    requires 1 <= y1 <= y2
    ensures DaysBeforeYear(y1) + (if y1 < y2 then DaysInYear(y1) else 0) <= DaysBeforeYear(y2)
    decreases y2 - y1
  {
    if y1 < y2 - 1 {
      DaysBeforeYearGrows(y1, y2 - 1);
    }
  }

  /** Within one day the time of day is below 86400 seconds. */
  lemma OrdinalBefore(a: DateTime, b: DateTime)
    requires Valid(a) && Valid(b)
    requires a.year < b.year || (a.year == b.year && a.month < b.month)
             || (a.year == b.year && a.month == b.month && a.day < b.day)
    ensures Ordinal(a) < Ordinal(b)
  {
    if a.year < b.year {
      DaysBeforeMonthLast(a.year, a.month);
      DaysBeforeYearGrows(a.year, b.year);
    } else if a.month < b.month {
      DaysBeforeMonthStep(a.year, a.month);
      DaysBeforeMonthGrows(a.year, a.month + 1, b.month);
    }
  }

  /** Comparing by EpochSeconds is comparing datetimes the way Python does. */
  lemma {:induction false} EpochSecondsOrder(a: DateTime, b: DateTime)
    requires Valid(a) && Valid(b)
    ensures EpochSeconds(a) < EpochSeconds(b) <==> Before(a, b)
    ensures EpochSeconds(a) == EpochSeconds(b) <==> a == b
  {
    if Before(a, b) {
      EpochSecondsStrict(a, b);
    } else if Before(b, a) {
      EpochSecondsStrict(b, a);
    } else {
      assert a == b;
    }
  }

  lemma EpochSecondsStrict(a: DateTime, b: DateTime)
    requires Valid(a) && Valid(b) && Before(a, b)
    ensures EpochSeconds(a) < EpochSeconds(b)
  {
    if a.year != b.year || a.month != b.month || a.day != b.day {
      OrdinalBefore(a, b);
    }
  }

  // ---------------------------------------------------------------- scanning

  /** What a field leaves: its value and the text after it. */
  datatype Scan = Scan(value: int, rest: string)

  /** The maximal run of ASCII digits at the start of s. */
  function TakeDigits(s: string): (d: string)
    ensures |d| <= |s| && d == s[..|d|] && AllDigits(d)
    ensures |d| < |s| ==> !IsDigit(s[|d|])
  {
    if |s| > 0 && IsDigit(s[0]) then [s[0]] + TakeDigits(s[1..]) else []
  }

  /** A one- or two-digit field (%m, %H, %M, %S) whose value lies in lo..hi. */
  function Field(s: string, lo: int, hi: int): (r: Option<Scan>)
    ensures r.Some? ==> lo <= r.value.value <= hi && |r.value.rest| < |s|
  {
    var d := TakeDigits(s);
    if 1 <= |d| <= 2 && lo <= DigitsValue(d) <= hi then Some(Scan(DigitsValue(d), s[|d|..])) else None
  }

  /** %d: as Field in 1..31, or a space and a single digit 1..9. */
  function DayField(s: string): (r: Option<Scan>)
    ensures r.Some? ==> 1 <= r.value.value <= 31
  {
    if |s| >= 2 && s[0] == ' ' && '1' <= s[1] <= '9' && (|s| == 2 || !IsDigit(s[2])) then
      Some(Scan(DigitValue(s[1]), s[2..]))
    else Field(s, 1, 31)
  }

  /** %Y: exactly four digits. */
  function YearField(s: string): (r: Option<Scan>)
    ensures r.Some? ==> |r.value.rest| < |s|
  {
    var d := TakeDigits(s);
    if |d| == 4 then Some(Scan(DigitsValue(d), s[4..])) else None
  }

  /** A literal character of the format. */
  function Lit(s: string, c: char): Option<string> {
    if |s| > 0 && s[0] == c then Some(s[1..]) else None
  }

  /** A space of the format: one or more whitespace characters. */
  function Spaces(s: string): Option<string> {
    if |s| > 0 && IsSpace(s[0]) then Some(LStrip(s)) else None
  }

  /** The datetime, if the constructor accepts it. */
  function Make(y: int, mo: int, d: int, h: int, mi: int, sec: int): (r: Option<DateTime>)
    ensures r.Some? <==> Valid(DateTime(y, mo, d, h, mi, sec))
    ensures r.Some? ==> r.value == DateTime(y, mo, d, h, mi, sec)
  {
    var dt := DateTime(y, mo, d, h, mi, sec);
    if Valid(dt) then Some(dt) else None
  }

  /** What " %H:%M" leaves: the hour, the minute and the text after them. */
  datatype Clock = Clock(hour: int, minute: int, rest: string)

  /** The " %H:%M" part both formats share. */
  function ClockField(s: string): (r: Option<Clock>)
    ensures r.Some? ==> 0 <= r.value.hour <= 23 && 0 <= r.value.minute <= 59
  {
    var r1 :- Spaces(s);
    var h :- Field(r1, 0, 23);
    var r2 :- Lit(h.rest, ':');
    var mi :- Field(r2, 0, 59);
    Some(Clock(h.value, mi.value, mi.rest))
  }

  /** datetime.strptime(s, '%d/%m/%Y %H:%M'); None where it raises ValueError. */
  function ParseDmyHm(s: string): (r: Option<DateTime>)
    ensures r.Some? ==> Valid(r.value) && r.value.second == 0
  {
    var d :- DayField(s);
    var r1 :- Lit(d.rest, '/');
    var mo :- Field(r1, 1, 12);
    var r2 :- Lit(mo.rest, '/');
    var y :- YearField(r2);
    var c :- ClockField(y.rest);
    if c.rest == [] then Make(y.value, mo.value, d.value, c.hour, c.minute, 0) else None
  }

  /** datetime.strptime(s, '%Y-%m-%d %H:%M:%S'); None where it raises ValueError. */
  function ParseIso(s: string): (r: Option<DateTime>)
    ensures r.Some? ==> Valid(r.value)
  {
    var y :- YearField(s);
    var r1 :- Lit(y.rest, '-');
    var mo :- Field(r1, 1, 12);
    var r2 :- Lit(mo.rest, '-');
    var d :- DayField(r2);
    var c :- ClockField(d.rest);
    var r3 :- Lit(c.rest, ':');
    var sec :- Field(r3, 0, 61);
    if sec.rest == [] then Make(y.value, mo.value, d.value, c.hour, c.minute, sec.value) else None
  }

  // ---------------------------------------------------------------- formatting

  /** n in exactly w digits, zero-padded (strftime's %Y, %m, %d, %H, %M, %S). */
  function Pad(n: nat, w: nat): (s: string)
    requires n < Pow10(w)
    ensures |s| == w && AllDigits(s) && DigitsValue(s) == n
  {
    if w == 0 then []
    else
      var s := Pad(n / 10, w - 1) + [DigitChar(n % 10)];
      assert s[..|s| - 1] == Pad(n / 10, w - 1);
      s
  }

  lemma PadTwo(n: nat)
    requires n < 100
    ensures Pow10(2) == 100 && Pad(n, 2) == [DigitChar(n / 10), DigitChar(n % 10)]
  {
    assert Pow10(2) == 100;
    assert Pad(n / 10, 1) == Pad(n / 10 / 10, 0) + [DigitChar(n / 10 % 10)];
  }

  lemma PadFour(n: nat)
    requires n < 10000
    ensures Pow10(4) == 10000
    ensures Pad(n, 4) == [DigitChar(n / 1000), DigitChar(n / 100 % 10), DigitChar(n / 10 % 10), DigitChar(n % 10)]
  {
    assert Pow10(4) == 10000 && Pow10(3) == 1000;
    var t := n / 10;
    assert t / 10 == n / 100 && t % 10 == n / 10 % 10 && n / 100 / 10 == n / 1000;
    PadTwo(n / 100);
    assert Pad(t, 3) == Pad(n / 100, 2) + [DigitChar(t % 10)];
  }

  /** dt.strftime('%Y-%m-%d %H:%M:%S') */
  function FormatIso(dt: DateTime): string
    requires Valid(dt)
  {
    assert Pow10(2) == 100 && Pow10(4) == 10000;
    Pad(dt.year, 4) + ("-" + (Pad(dt.month, 2) + ("-" + (Pad(dt.day, 2) + (" " + (Pad(dt.hour, 2)
      + (":" + (Pad(dt.minute, 2) + (":" + Pad(dt.second, 2))))))))))
  }

  /** strftime('%H:%M') of an hour and a minute. */
  function FormatHm(h: nat, mi: nat): string
    requires h < 100 && mi < 100
  {
    assert Pow10(2) == 100;
    Pad(h, 2) + (":" + Pad(mi, 2))
  }

  /** dt.strftime('%d/%m/%Y') */
  function FormatDmy(dt: DateTime): string
    requires Valid(dt)
  {
    assert Pow10(2) == 100 && Pow10(4) == 10000;
    Pad(dt.day, 2) + ("/" + (Pad(dt.month, 2) + ("/" + Pad(dt.year, 4))))
  }

  /** dt.strftime('%d/%m/%Y %H:%M') */
  function FormatDmyHm(dt: DateTime): string
    requires Valid(dt)
  {
    assert Pow10(2) == 100 && Pow10(4) == 10000;
    Pad(dt.day, 2) + ("/" + (Pad(dt.month, 2) + ("/" + (Pad(dt.year, 4) + (" " + (Pad(dt.hour, 2)
      + (":" + Pad(dt.minute, 2))))))))
  }

  /** str(n) of a w-digit number is its zero-padded form in w digits. */
  lemma {:induction false} NatToStringPad(n: nat, w: nat)
    requires w >= 1 && Pow10(w - 1) <= n < Pow10(w)
    ensures NatToString(n) == Pad(n, w)
  {
    if w == 1 {
      assert n < 10;
      assert Pad(n, 1) == Pad(n / 10, 0) + [DigitChar(n % 10)];
    } else {
      assert Pow10(w - 1) == 10 * Pow10(w - 2);
      assert n >= 10;
      NatToStringPad(n / 10, w - 1);
    }
  }

  /** The digits in front of a non-digit are exactly the run TakeDigits finds. */
  lemma {:induction false} TakeDigitsPrefix(d: string, rest: string)
    requires AllDigits(d)
    requires rest == [] || !IsDigit(rest[0])
    ensures TakeDigits(d + rest) == d
  {
    if d != [] {
      assert (d + rest)[1..] == d[1..] + rest;
      TakeDigitsPrefix(d[1..], rest);
    } else {
      assert d + rest == rest;
    }
  }

  lemma FieldOfPad(n: nat, lo: int, hi: int, rest: string)
    requires lo <= n <= hi && n < 100
    requires rest == [] || !IsDigit(rest[0])
    ensures Pow10(2) == 100
    ensures Field(Pad(n, 2) + rest, lo, hi) == Some(Scan(n, rest))
  {
    assert Pow10(2) == 100;
    var p := Pad(n, 2);
    TakeDigitsPrefix(p, rest);
    assert (p + rest)[|p|..] == rest;
  }

  lemma DayFieldOfPad(n: nat, rest: string)
    requires 1 <= n <= 31
    requires rest == [] || !IsDigit(rest[0])
    ensures Pow10(2) == 100
    ensures DayField(Pad(n, 2) + rest) == Some(Scan(n, rest))
  {
    FieldOfPad(n, 1, 31, rest);
    var p := Pad(n, 2);
    assert (p + rest)[0] == p[0] && IsDigit(p[0]);
  }

  lemma YearFieldOfPad(n: nat, rest: string)
    requires n <= 9999
    requires rest == [] || !IsDigit(rest[0])
    ensures Pow10(4) == 10000
    ensures YearField(Pad(n, 4) + rest) == Some(Scan(n, rest))
  {
    assert Pow10(4) == 10000;
    var p := Pad(n, 4);
    TakeDigitsPrefix(p, rest);
    assert (p + rest)[4..] == rest;
  }

  lemma LitOf(c: char, rest: string)
    ensures Lit([c] + rest, c) == Some(rest)
  {
    assert ([c] + rest)[1..] == rest;
  }

  lemma SpacesOfOne(rest: string)
    requires rest != [] && IsDigit(rest[0])
    ensures Spaces(" " + rest) == Some(rest)
  {
    var s := " " + rest;
    assert s[1..] == rest && IsSpace(s[0]) && !IsSpace(rest[0]);
    assert LStrip(s) == LStrip(rest);
    assert LStrip(rest) == rest;
  }

  lemma ClockOfPad(h: nat, mi: nat, rest: string)
    requires h <= 23 && mi <= 59
    requires rest == [] || !IsDigit(rest[0])
    ensures Pow10(2) == 100
    ensures ClockField(" " + (Pad(h, 2) + (":" + (Pad(mi, 2) + rest)))) == Some(Clock(h, mi, rest))
  {
    assert Pow10(2) == 100;
    var s3 := Pad(mi, 2) + rest;
    var s2 := ":" + s3;
    var s1 := Pad(h, 2) + s2;
    assert s1[0] == Pad(h, 2)[0];
    SpacesOfOne(s1);
    FieldOfPad(h, 0, 23, s2);
    LitOf(':', s3);
    FieldOfPad(mi, 0, 59, rest);
  }

  /** The " %H:%M:%S" tail of the ISO form reads back as its three fields. */
  lemma IsoClockOfPad(h: nat, mi: nat, sec: nat)
    requires h <= 23 && mi <= 59 && sec <= 61
    ensures Pow10(2) == 100
    ensures var tail := ":" + Pad(sec, 2);
            && ClockField(" " + (Pad(h, 2) + (":" + (Pad(mi, 2) + tail)))) == Some(Clock(h, mi, tail))
            && Lit(tail, ':') == Some(Pad(sec, 2))
            && Field(Pad(sec, 2), 0, 61) == Some(Scan(sec, []))
  {
    assert Pow10(2) == 100;
    var p := Pad(sec, 2);
    var tail := ":" + p;
    assert ClockField(" " + (Pad(h, 2) + (":" + (Pad(mi, 2) + tail)))) == Some(Clock(h, mi, tail)) by {
      assert tail[0] == ':';
      ClockOfPad(h, mi, tail);
    }
    assert Lit(tail, ':') == Some(p) by {
      LitOf(':', p);
    }
    assert Field(p, 0, 61) == Some(Scan(sec, [])) by {
      assert p + [] == p;
      FieldOfPad(sec, 0, 61, []);
    }
  }

  /** Reading back what strftime wrote gives the same datetime. */
  lemma IsoRoundTrip(dt: DateTime)
    requires Valid(dt)
    ensures ParseIso(FormatIso(dt)) == Some(dt)
  {
    assert Pow10(2) == 100 && Pow10(4) == 10000;
    var sec := Pad(dt.second, 2);
    var s5 := ":" + sec;
    var s1 := " " + (Pad(dt.hour, 2) + (":" + (Pad(dt.minute, 2) + s5)));
    var t2 := Pad(dt.day, 2) + s1;
    var t1 := "-" + t2;
    var u2 := Pad(dt.month, 2) + t1;
    var u1 := "-" + u2;
    assert Pad(dt.year, 4) + u1 == FormatIso(dt);
    YearFieldOfPad(dt.year, u1);
    LitOf('-', u2);
    FieldOfPad(dt.month, 1, 12, t1);
    LitOf('-', t2);
    DayFieldOfPad(dt.day, s1);
    IsoClockOfPad(dt.hour, dt.minute, dt.second);
  }

  /** Reading back '%d/%m/%Y %H:%M' as strftime wrote it gives the same datetime. */
  lemma DmyHmRoundTrip(dt: DateTime)
    requires Valid(dt) && dt.second == 0
    ensures ParseDmyHm(FormatDmyHm(dt)) == Some(dt)
  {
    assert Pow10(2) == 100 && Pow10(4) == 10000;
    var s1 := " " + (Pad(dt.hour, 2) + (":" + Pad(dt.minute, 2)));
    var y1 := Pad(dt.year, 4) + s1;
    var t2 := "/" + y1;
    var t1 := Pad(dt.month, 2) + t2;
    var u1 := "/" + t1;
    assert Pad(dt.day, 2) + u1 == FormatDmyHm(dt);
    DayFieldOfPad(dt.day, u1);
    LitOf('/', t1);
    FieldOfPad(dt.month, 1, 12, t2);
    LitOf('/', y1);
    YearFieldOfPad(dt.year, s1);
    assert Pad(dt.minute, 2) + [] == Pad(dt.minute, 2);
    ClockOfPad(dt.hour, dt.minute, []);
  }

  /** A day-first date, a space and a time read together as that day at that time. */
  lemma DmyThenHm(dt: DateTime, h: nat, mi: nat)
    requires Valid(dt) && h <= 23 && mi <= 59
    ensures Valid(dt.(hour := h, minute := mi, second := 0))
    ensures FormatDmy(dt) + (" " + FormatHm(h, mi)) == FormatDmyHm(dt.(hour := h, minute := mi, second := 0))
  {
    assert Pow10(2) == 100 && Pow10(4) == 10000;
    var a, b, c := Pad(dt.day, 2), Pad(dt.month, 2), Pad(dt.year, 4);
    var t := " " + FormatHm(h, mi);
    calc {
      FormatDmy(dt) + t;
      (a + ("/" + (b + ("/" + c)))) + t;
      a + (("/" + (b + ("/" + c))) + t);
      a + ("/" + ((b + ("/" + c)) + t));
      a + ("/" + (b + (("/" + c) + t)));
      a + ("/" + (b + ("/" + (c + t))));
    }
  }
}
