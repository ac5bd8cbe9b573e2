/** Gregorian calendar dates, in place of the browser's `Date` objects: month
    lengths, the day before and after, month arithmetic, the weekday that
    `getDay()` reports, and the two date formats the pages print. */
module Calendar {
  import opened Options
  import opened Text

  /** A calendar date; `month` runs 1..12 (JavaScript's `getMonth()` is `month - 1`). */
  datatype Date = Date(year: int, month: int, day: int)

  predicate IsLeapYear(y: int) {
    y % 4 == 0 && (y % 100 != 0 || y % 400 == 0)
  }

  /** The length of a month, what `new Date(year, month, 0).getDate()` yields. */
  function DaysInMonth(y: int, m: int): (n: int)
    requires 1 <= m <= 12
    ensures 28 <= n <= 31
  {
    if m == 2 then (if IsLeapYear(y) then 29 else 28)
    else if m == 4 || m == 6 || m == 9 || m == 11 then 30
    else 31
  }

  predicate Valid(d: Date) {
    1 <= d.month <= 12 && 1 <= d.day <= DaysInMonth(d.year, d.month)
  }

  /** Chronological order of dates. */
  predicate Before(a: Date, b: Date) {
    a.year < b.year || (a.year == b.year && (a.month < b.month || (a.month == b.month && a.day < b.day)))
  }

  function NextMonth(y: int, m: int): (r: (int, int))
    requires 1 <= m <= 12
    ensures 1 <= r.1 <= 12
  {
    if m == 12 then (y + 1, 1) else (y, m + 1)
  }

  function PrevMonth(y: int, m: int): (r: (int, int))
    requires 1 <= m <= 12
    ensures 1 <= r.1 <= 12 && NextMonth(r.0, r.1) == (y, m)
  {
    if m == 1 then (y - 1, 12) else (y, m - 1)
  }

  /** Months counted from January of year 0. */
  function MonthIndex(y: int, m: int): int {
    12 * y + m - 1
  }

  /** The month `delta` months after (or before) month `m` of year `y`. */
  function ShiftMonth(y: int, m: int, delta: int): (r: (int, int))
    requires 1 <= m <= 12
    ensures 1 <= r.1 <= 12
    ensures MonthIndex(r.0, r.1) == MonthIndex(y, m) + delta
  {
    var i := MonthIndex(y, m) + delta;
    (i / 12, i % 12 + 1)
  }

  /** Leap days in the years before `y` (counted from year 0). */
  function LeapDaysBefore(y: int): int {
    (y - 1) / 4 - (y - 1) / 100 + (y - 1) / 400 + 1
  }

  lemma LeapDaysStep(y: int)
    ensures LeapDaysBefore(y + 1) == LeapDaysBefore(y) + if IsLeapYear(y) then 1 else 0
  {
    assert y / 4 - (y - 1) / 4 == if y % 4 == 0 then 1 else 0;
    assert y / 100 - (y - 1) / 100 == if y % 100 == 0 then 1 else 0;
    assert y / 400 - (y - 1) / 400 == if y % 400 == 0 then 1 else 0;
  }

  function DaysBeforeMonth(y: int, m: int): int
    requires 1 <= m <= 12
  {
    [0, 31, 59, 90, 120, 151, 181, 212, 243, 273, 304, 334][m - 1]
      + if m > 2 && IsLeapYear(y) then 1 else 0
  }

  /** The number of the day counted from 1 January of year 0: an independent
      reference for "the next day" and for weekdays. */
  function DayNumber(d: Date): int
    requires 1 <= d.month <= 12
  {
    365 * d.year + LeapDaysBefore(d.year) + DaysBeforeMonth(d.year, d.month) + d.day - 1
  }

  /** The first of the next month is as many days after the first of this month
      as this month is long. */
  lemma DayNumberOfNextMonth(y: int, m: int)
    requires 1 <= m <= 12
    ensures DayNumber(Date(NextMonth(y, m).0, NextMonth(y, m).1, 1))
         == DayNumber(Date(y, m, 1)) + DaysInMonth(y, m)
  {
    if m == 12 {
      LeapDaysStep(y);
    }
  }

  function NextDay(d: Date): (r: Date)
    requires Valid(d)
    ensures Valid(r)
  {
    if d.day < DaysInMonth(d.year, d.month) then Date(d.year, d.month, d.day + 1)
    else
      var (y, m) := NextMonth(d.year, d.month);
      Date(y, m, 1)
  }

  function PrevDay(d: Date): (r: Date)
    requires Valid(d)
    ensures Valid(r)
  {
    if d.day > 1 then Date(d.year, d.month, d.day - 1)
    else
      var (y, m) := PrevMonth(d.year, d.month);
      Date(y, m, DaysInMonth(y, m))
  }

  lemma DayNumberOfNextDay(d: Date)
    requires Valid(d)
    ensures DayNumber(NextDay(d)) == DayNumber(d) + 1
  {
    if d.day == DaysInMonth(d.year, d.month) {
      DayNumberOfNextMonth(d.year, d.month);
    }
  }

  lemma DayNumberOfPrevDay(d: Date)
    requires Valid(d)
    ensures DayNumber(PrevDay(d)) == DayNumber(d) - 1
  {
    if d.day == 1 {
      var (y, m) := PrevMonth(d.year, d.month);
      DayNumberOfNextMonth(y, m);
    }
  }

  /** Valid dates with the same day number are the same date. */
  lemma {:induction false} DayNumberInjective(a: Date, b: Date)
    requires Valid(a) && Valid(b) && DayNumber(a) == DayNumber(b)
    ensures a == b
  {
    if a != b {
      if Before(a, b) {
        DayNumberMonotone(a, b);
      } else {
        DayNumberMonotone(b, a);
      }
    }
  }

  /** A later date has a larger day number. */
  lemma DayNumberMonotone(a: Date, b: Date)
    requires Valid(a) && Valid(b) && Before(a, b)
    ensures DayNumber(a) < DayNumber(b)
  {
    if a.year < b.year {
      YearLength(a.year, b.year);
    }
  }

  /** Every day of year `y` numbers below the first day of any later year. */
  lemma {:induction false} YearLength(y: int, z: int)
    requires y < z
    ensures 365 * y + LeapDaysBefore(y) + 365 + (if IsLeapYear(y) then 1 else 0) <= 365 * z + LeapDaysBefore(z)
    decreases z - y
  {
    LeapDaysStep(y);
    if y + 1 < z {
      YearLength(y + 1, z);
      LeapDaysStep(y + 1);
    }
  }

  /** Sakamoto's month offsets. */
  function MonthOffset(m: int): int
    requires 1 <= m <= 12
  {
    [0, 3, 2, 5, 0, 3, 5, 1, 4, 6, 2, 4][m - 1]
  }

  /** The weekday of a date, 0 for Sunday through 6 for Saturday, as `getDay()`
      reports it (Sakamoto's formula). */
  function Weekday(d: Date): (w: int)
    requires 1 <= d.month <= 12
    ensures 0 <= w < 7
  {
    var y := if d.month < 3 then d.year - 1 else d.year;
    (y + y / 4 - y / 100 + y / 400 + MonthOffset(d.month) + d.day) % 7
  }

  /** The month offsets differ from the days before each month by a multiple
      of 7, up to a fixed shift. */
  lemma MonthOffsetAgrees(m: int)
    requires 1 <= m <= 12
    ensures (DaysBeforeMonth(1, m) - MonthOffset(m) + if m < 3 then 7 else 6) % 7 == 0
  {
    if m == 1 {} else if m == 2 {} else if m == 3 {} else if m == 4 {} else if m == 5 {}
    else if m == 6 {} else if m == 7 {} else if m == 8 {} else if m == 9 {} else if m == 10 {}
    else if m == 11 {} else {}
  }

  /** Sakamoto's formula agrees with counting days: the weekday advances by
      one with each day number. */
  lemma WeekdayByDayNumber(d: Date)
    requires 1 <= d.month <= 12
    ensures Weekday(d) == (DayNumber(d) + 6) % 7
  {
    var y := d.year;
    var yy := if d.month < 3 then y - 1 else y;
    var s := yy + yy / 4 - yy / 100 + yy / 400 + MonthOffset(d.month) + d.day;
    var base := DaysBeforeMonth(1, d.month);
    var leap := if d.month > 2 && IsLeapYear(y) then 1 else 0;
    assert DaysBeforeMonth(y, d.month) == base + leap;
    MonthOffsetAgrees(d.month);
    var c := (base - MonthOffset(d.month) + if d.month < 3 then 7 else 6) / 7;
    assert 7 * c == base - MonthOffset(d.month) + if d.month < 3 then 7 else 6;
    LeapDaysStep(yy);
    assert yy / 4 - yy / 100 + yy / 400 + 1 == LeapDaysBefore(yy + 1);
    if d.month < 3 {
      assert LeapDaysBefore(yy + 1) == LeapDaysBefore(y);
    } else {
      assert LeapDaysBefore(yy + 1) == LeapDaysBefore(y) + leap;
    }
    var k := 52 * y + c;
    assert DayNumber(d) + 6 == s + 7 * k;
    ModSeven(s, k);
  }

  lemma ModSeven(a: int, k: int)
    ensures (a + 7 * k) % 7 == a % 7
  {
  }

  lemma WeekdayOfNextDay(d: Date)
    requires Valid(d)
    ensures Weekday(NextDay(d)) == (Weekday(d) + 1) % 7
  {
    WeekdayByDayNumber(d);
    WeekdayByDayNumber(NextDay(d));
    DayNumberOfNextDay(d);
    var n := DayNumber(d) + 6;
    assert Weekday(d) == n % 7 && Weekday(NextDay(d)) == (n + 1) % 7;
    ModSucc(n);
  }

  lemma ModSucc(n: int)
    ensures (n + 1) % 7 == (n % 7 + 1) % 7
  {
  }

  /** `${year}年${MM}月${DD}日`: the date as the pages display it, month and
      day padded to two digits. */
  function FormatDisplayDate(d: Date): string
    requires Valid(d)
  {
    IntString(d.year) + "年" + Pad2(d.month) + "月" + Pad2(d.day) + "日"
  }

  /** Reads a display date back. */
  function ReadDisplayDate(s: string): Option<Date> {
    var y := ReadInt(s);
    if y.None? || |y.value.1| == 0 || y.value.1[0] != '年' then None
    else
      var m := ReadNat(y.value.1[1..]);
      if m.None? || |m.value.1| == 0 || m.value.1[0] != '月' then None
      else
        var d := ReadNat(m.value.1[1..]);
        if d.None? || d.value.1 != "日" then None
        else Some(Date(y.value.0, m.value.0, d.value.0))
  }

  /** The display format loses nothing: reading it back gives the date. */
  lemma DisplayDateRoundTrip(d: Date)
    requires Valid(d)
    ensures ReadDisplayDate(FormatDisplayDate(d)) == Some(d)
  {
    DisplayDateShape(d);
    ReadDisplayDateOf(d.year, Pad2(d.month), Pad2(d.day));
  }

  lemma DisplayDateShape(d: Date)
    requires Valid(d)
    ensures FormatDisplayDate(d) == IntString(d.year) + ("年" + (Pad2(d.month) + ("月" + (Pad2(d.day) + "日"))))
  {
    var y, m, dd := IntString(d.year), Pad2(d.month), Pad2(d.day);
    ConcatAssoc(y, "年", m);
    ConcatAssoc(y + "年" + m, "月", dd);
    ConcatAssoc(y + "年" + m + "月", dd, "日");
    ConcatAssoc(y + "年" + m, "月", dd + "日");
    ConcatAssoc(y + "年", m, "月" + (dd + "日"));
    ConcatAssoc(y, "年", m + ("月" + (dd + "日")));
  }

  /** Reading `{year}年{mm}月{dd}日` for digit strings `mm` and `dd`. */
  lemma ReadDisplayDateOf(y: int, mm: string, dd: string)
    requires |mm| >= 1 && AllDigits(mm) && |dd| >= 1 && AllDigits(dd)
    ensures ReadDisplayDate(IntString(y) + ("年" + (mm + ("月" + (dd + "日")))))
         == Some(Date(y, DigitsValue(mm), DigitsValue(dd)))
  {
    var tail2 := "月" + (dd + "日");
    var tail1 := "年" + (mm + tail2);
    ReadIntOfIntString(y, tail1);
    DropFirst('年', mm + tail2);
    ReadNatOfConcat(mm, tail2);
    DropFirst('月', dd + "日");
    ReadNatOfConcat(dd, "日");
  }

  /** `YYYY-MM-DD`: the date part of `toISOString()` for years 0..9999. */
  function FormatIso(d: Date): (s: string)
    requires Valid(d) && 0 <= d.year <= 9999
    ensures |s| == 10
  {
    Pad4(d.year) + "-" + Pad2(d.month) + "-" + Pad2(d.day)
  }

  /** Reads an ISO date back. */
  function ReadIso(s: string): Option<Date> {
    var y := ReadNat(s);
    if y.None? || |y.value.1| == 0 || y.value.1[0] != '-' then None
    else
      var m := ReadNat(y.value.1[1..]);
      if m.None? || |m.value.1| == 0 || m.value.1[0] != '-' then None
      else
        var d := ReadNat(m.value.1[1..]);
        if d.None? || d.value.1 != "" then None
        else Some(Date(y.value.0, m.value.0, d.value.0))
  }

  lemma IsoRoundTrip(d: Date)
    requires Valid(d) && 0 <= d.year <= 9999
    ensures ReadIso(FormatIso(d)) == Some(d)
  {
    IsoShape(d);
    ReadIsoOf(Pad4(d.year), Pad2(d.month), Pad2(d.day));
  }

  lemma IsoShape(d: Date)
    requires Valid(d) && 0 <= d.year <= 9999
    ensures FormatIso(d) == Pad4(d.year) + ("-" + (Pad2(d.month) + ("-" + Pad2(d.day))))
  {
    var y, m, dd := Pad4(d.year), Pad2(d.month), Pad2(d.day);
    ConcatAssoc(y + "-" + m, "-", dd);
    ConcatAssoc(y + "-", m, "-" + dd);
    ConcatAssoc(y, "-", m + ("-" + dd));
  }

  /** Reading `{yyyy}-{mm}-{dd}` for digit strings. */
  lemma ReadIsoOf(yyyy: string, mm: string, dd: string)
    requires |yyyy| >= 1 && AllDigits(yyyy) && |mm| >= 1 && AllDigits(mm) && |dd| >= 1 && AllDigits(dd)
    ensures ReadIso(yyyy + ("-" + (mm + ("-" + dd)))) == Some(Date(DigitsValue(yyyy), DigitsValue(mm), DigitsValue(dd)))
  {
    var tail2 := "-" + dd;
    var tail1 := "-" + (mm + tail2);
    ReadNatOfConcat(yyyy, tail1);
    DropFirst('-', mm + tail2);
    ReadNatOfConcat(mm, tail2);
    DropFirst('-', dd);
    assert dd == dd + "";
    ReadNatOfConcat(dd, "");
  }

  /** ISO date strings compare, as strings, in chronological order: what makes
      the string comparison of two ISO dates a date comparison. */
  lemma IsoOrderIsChronological(a: Date, b: Date)
    requires Valid(a) && 0 <= a.year <= 9999
    requires Valid(b) && 0 <= b.year <= 9999
    ensures LexLess(FormatIso(a), FormatIso(b)) <==> Before(a, b)
  {
    IsoShape(a);
    IsoShape(b);
    var dayA, dayB := "-" + Pad2(a.day), "-" + Pad2(b.day);
    var monthA, monthB := "-" + (Pad2(a.month) + dayA), "-" + (Pad2(b.month) + dayB);
    DigitsOrder(Pad4(a.year), Pad4(b.year));
    LexLessOfConcat(Pad4(a.year), monthA, Pad4(b.year), monthB);
    LexLessOfConcat("-", Pad2(a.month) + dayA, "-", Pad2(b.month) + dayB);
    DigitsOrder(Pad2(a.month), Pad2(b.month));
    LexLessOfConcat(Pad2(a.month), dayA, Pad2(b.month), dayB);
    LexLessOfConcat("-", Pad2(a.day), "-", Pad2(b.day));
    DigitsOrder(Pad2(a.day), Pad2(b.day));
  }

  /** `formatDate(date)` of the statistics and settings pages as written:
      `date.toISOString().split('T')[0]` on the local-midnight date the
      picker hands over. `toISOString` prints the UTC day. In a zone
      `offsetMinutes` east of UTC (480 for UTC+8, less than a day either
      way), local midnight is `24:00 - offset` UTC of the day before when the
      offset is positive, and a time of the same day otherwise. */
  function IsoOfLocalMidnightAsWritten(d: Date, offsetMinutes: int): string
    requires Valid(d) && 1 <= d.year <= 9999 && -1440 < offsetMinutes < 1440
  {
    if offsetMinutes > 0 then FormatIso(PrevDay(d)) else FormatIso(d)
  }

  /** East of UTC the stored ISO date is the day before the picked one. */
  lemma IsoOfLocalMidnightShiftsDay(d: Date, offsetMinutes: int)
    requires Valid(d) && 1 <= d.year <= 9999 && 0 < offsetMinutes < 1440
    ensures ReadIso(IsoOfLocalMidnightAsWritten(d, offsetMinutes)) == Some(PrevDay(d))
    ensures IsoOfLocalMidnightAsWritten(d, offsetMinutes) != FormatIso(d)
  {
    IsoRoundTrip(PrevDay(d));
    IsoRoundTrip(d);
    DayNumberOfPrevDay(d);
  }

  /** Picking 15 January 2024 in UTC+8 stores "2024-01-14". */
  lemma PickedInUtcPlus8()
    ensures IsoOfLocalMidnightAsWritten(Date(2024, 1, 15), 480) == "2024-01-14"
  {
    assert PrevDay(Date(2024, 1, 15)) == Date(2024, 1, 14);
  }
}
