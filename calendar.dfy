/**
 * Calendar dates in the proleptic Gregorian calendar.
 *
 * A date is a (year, month, day) triple that names a real day. Its ordinal is
 * the Julian Day Number, the number Ruby's Date keeps (`Date#jd`), so adding a
 * day, comparing two dates and taking the weekday are all arithmetic on `Jd`.
 */
module Calendar {

  predicate IsLeapYear(y: int) {
    y % 4 == 0 && (y % 100 != 0 || y % 400 == 0)
  }

  /** `Date.new(y, m, -1).day`: the number of days of month `m` of year `y`. */
  function DaysInMonth(y: int, m: int): (n: int)
    requires 1 <= m <= 12
    ensures 28 <= n <= 31
    ensures n == 29 <==> m == 2 && IsLeapYear(y)
  {
    if m == 2 then (if IsLeapYear(y) then 29 else 28)
    else if m == 4 || m == 6 || m == 9 || m == 11 then 30
    else 31
  }

  datatype Ymd = Ymd(year: int, month: int, day: int)

  predicate IsValid(d: Ymd) {
    1 <= d.month <= 12 && 1 <= d.day <= DaysInMonth(d.year, d.month)
  }

  /** A calendar date that exists. */
  type Date = d: Ymd | IsValid(d) witness Ymd(1970, 1, 1)

  /** Days of a common year that come before the first of each month. */
  const CumulativeDays: seq<int> := [0, 31, 59, 90, 120, 151, 181, 212, 243, 273, 304, 334]

  function DaysBeforeMonth(y: int, m: int): int
    requires 1 <= m <= 12
  {
    CumulativeDays[m - 1] + (if m > 2 && IsLeapYear(y) then 1 else 0)
  }

  function YearLength(y: int): int {
    if IsLeapYear(y) then 366 else 365
  }

  /** Days from 0000-01-01 to the first of January of year `y` (negative before year 0). */
  function YearStart(y: int): int {
    365 * y + (y + 3) / 4 - (y + 99) / 100 + (y + 399) / 400
  }

  /** Julian Day Number of 0000-01-01 in the proleptic Gregorian calendar. */
  const JdOfYearZero := 1721060

  /** Julian Day Number of a date (`Date#jd`). */
  function Jd(d: Date): int {
    JdOfYearZero + YearStart(d.year) + DaysBeforeMonth(d.year, d.month) + d.day - 1
  }

  /** Day of the week with Sunday = 0 (`Date#wday`). */
  function Weekday(d: Date): (w: int)
    ensures 0 <= w < 7
  {
    (Jd(d) + 1) % 7
  }

  /** Date comparison (`Date#<=>` compares day numbers). */
  predicate Before(a: Date, b: Date) {
    Jd(a) < Jd(b)
  }

  predicate AtOrBefore(a: Date, b: Date) {
    Jd(a) <= Jd(b)
  }

  /** The calendar (lexicographic) order of two triples. */
  predicate CalendarBefore(a: Ymd, b: Ymd) {
    a.year < b.year ||
    (a.year == b.year && (a.month < b.month || (a.month == b.month && a.day < b.day)))
  }

  /** `[a, b].max` */
  function Latest(a: Date, b: Date): (r: Date)
    ensures AtOrBefore(a, r) && AtOrBefore(b, r)
    ensures r == a || r == b
  {
    if Before(a, b) then b else a
  }

  /** `[a, b].min` */
  function Earliest(a: Date, b: Date): (r: Date)
    ensures AtOrBefore(r, a) && AtOrBefore(r, b)
    ensures r == a || r == b
  {
    if Before(b, a) then b else a
  }

  /** `date + 1` */
  function NextDay(d: Date): (r: Date)
    ensures Jd(r) == Jd(d) + 1
  {
    if d.day < DaysInMonth(d.year, d.month) then
      Ymd(d.year, d.month, d.day + 1)
    else if d.month < 12 then
      MonthStep(d.year, d.month);
      Ymd(d.year, d.month + 1, 1)
    else
      YearStep(d.year);
      Ymd(d.year + 1, 1, 1)
  }

  /** `date - 1` */
  function PrevDay(d: Date): (r: Date)
    ensures Jd(r) == Jd(d) - 1
    ensures NextDay(r) == d
  {
    if d.day > 1 then
      Ymd(d.year, d.month, d.day - 1)
    else if d.month > 1 then
      MonthStep(d.year, d.month - 1);
      Ymd(d.year, d.month - 1, DaysInMonth(d.year, d.month - 1))
    else
      YearStep(d.year - 1);
      Ymd(d.year - 1, 12, 31)
  }

  /** `date + n` for a non-negative `n`. */
  function AddDays(d: Date, n: nat): (r: Date)
    ensures Jd(r) == Jd(d) + n
    decreases n
  {
    if n == 0 then d else AddDays(NextDay(d), n - 1)
  }

  /** `date >> n`: the same day `n` months later, clamped to the end of the target month. */
  function ShiftMonths(d: Date, n: int): (r: Date)
    ensures r.year * 12 + r.month == d.year * 12 + d.month + n
    ensures r.day <= d.day
    ensures r.day == d.day || r.day == DaysInMonth(r.year, r.month)
  {
    var total := d.year * 12 + (d.month - 1) + n;
    var y := total / 12;
    var m := total % 12 + 1;
    var last := DaysInMonth(y, m);
    Ymd(y, m, if d.day <= last then d.day else last)
  }

  lemma MonthStep(y: int, m: int)
    requires 1 <= m < 12
    ensures DaysBeforeMonth(y, m + 1) == DaysBeforeMonth(y, m) + DaysInMonth(y, m)
  {
  }

  lemma YearStep(y: int)
    ensures YearStart(y + 1) == YearStart(y) + YearLength(y)
  {
    LeapCount4(y);
    LeapCount100(y);
    LeapCount400(y);
    DivisorChain(y);
  }

  /** Each of the three floor terms of `YearStart` grows by one exactly at multiples of its divisor. */
  lemma LeapCount4(y: int)
    ensures (y + 4) / 4 - (y + 3) / 4 == if y % 4 == 0 then 1 else 0
  {
    FloorStep4(y + 3);
    ModShift4(y);
  }

  lemma LeapCount100(y: int)
    ensures (y + 100) / 100 - (y + 99) / 100 == if y % 100 == 0 then 1 else 0
  {
    FloorStep100(y + 99);
    ModShift100(y);
  }

  lemma LeapCount400(y: int)
    ensures (y + 400) / 400 - (y + 399) / 400 == if y % 400 == 0 then 1 else 0
  {
    FloorStep400(y + 399);
    ModShift400(y);
  }

  lemma DivisorChain(y: int)
    ensures y % 400 == 0 ==> y % 100 == 0
    ensures y % 100 == 0 ==> y % 4 == 0
  {
    if y % 400 == 0 {
      Multiple400(y);
    }
    if y % 100 == 0 {
      Multiple100(y);
    }
  }

  lemma Multiple400(y: int)
    requires y % 400 == 0
    ensures y % 100 == 0
  {
    var q := y / 400;
    assert y == 100 * (4 * q);
  }

  lemma Multiple100(y: int)
    requires y % 100 == 0
    ensures y % 4 == 0
  {
    var q := y / 100;
    assert y == 4 * (25 * q);
  }

  lemma ModShift4(y: int) ensures (y + 4) % 4 == y % 4 { }
  lemma ModShift100(y: int) ensures (y + 100) % 100 == y % 100 { }
  lemma ModShift400(y: int) ensures (y + 400) % 400 == y % 400 { }

  /** Floor division steps up by one exactly at the multiples of the divisor. */
  lemma FloorStep4(k: int)
    ensures (k + 1) / 4 == k / 4 + (if (k + 1) % 4 == 0 then 1 else 0)
  {
  }

  lemma FloorStep100(k: int)
    ensures (k + 1) / 100 == k / 100 + (if (k + 1) % 100 == 0 then 1 else 0)
  {
  }

  lemma FloorStep400(k: int)
    ensures (k + 1) / 400 == k / 400 + (if (k + 1) % 400 == 0 then 1 else 0)
  {
  }

  /** Every day of a year lies between that year's first day and the next year's. */
  lemma DayOfYearBounds(d: Date)
    ensures 0 <= DaysBeforeMonth(d.year, d.month) + d.day - 1 < YearLength(d.year)
  {
  }

  lemma {:induction false} YearStartGrows(y1: int, y2: int)
    requires y1 < y2
    ensures YearStart(y1) + YearLength(y1) <= YearStart(y2)
    decreases y2 - y1
  {
    YearStep(y1);
    if y1 + 1 < y2 {
      YearStartGrows(y1 + 1, y2);
    }
  }

  lemma {:induction false} MonthStartGrows(y: int, m1: int, m2: int)
    requires 1 <= m1 < m2 <= 12
    ensures DaysBeforeMonth(y, m1) + DaysInMonth(y, m1) <= DaysBeforeMonth(y, m2)
    decreases m2 - m1
  {
    MonthStep(y, m1);
    if m1 + 1 < m2 {
      MonthStartGrows(y, m1 + 1, m2);
    }
  }

  /** Comparing day numbers is comparing dates in calendar order. */
  lemma CalendarOrder(a: Date, b: Date)
    ensures Before(a, b) <==> CalendarBefore(a, b)
  {
    if CalendarBefore(a, b) {
      CalendarBeforeJd(a, b);
    } else if a != b {
      CalendarBeforeJd(b, a);
    }
  }

  lemma CalendarBeforeJd(a: Date, b: Date)
    requires CalendarBefore(a, b)
    ensures Jd(a) < Jd(b)
  {
    if a.year < b.year {
      DayOfYearBounds(a);
      YearStartGrows(a.year, b.year);
    } else if a.month < b.month {
      MonthStartGrows(a.year, a.month, b.month);
    }
  }

  /** Two dates with the same day number are the same date. */
  lemma JdInjective(a: Date, b: Date)
    requires Jd(a) == Jd(b)
    ensures a == b
  {
    CalendarOrder(a, b);
    CalendarOrder(b, a);
  }

  /** No date lies strictly between a date and the next day. */
  lemma NothingBetweenDays(d: Date, x: Date)
    requires Before(d, x)
    ensures AtOrBefore(NextDay(d), x)
  {
  }

  /** Within a month, the weekday advances by one each day. */
  lemma WeekdayInMonth(d: Date)
    ensures Weekday(d) == (Weekday(Ymd(d.year, d.month, 1)) + d.day - 1) % 7
  {
    var first: Date := Ymd(d.year, d.month, 1);
    assert Jd(d) == Jd(first) + d.day - 1;
    ModAddSeven(Jd(first) + 1, d.day - 1);
  }

  /** Reducing the first summand modulo 7 does not change the sum modulo 7. */
  lemma ModAddSeven(a: int, b: int)
    ensures (a % 7 + b) % 7 == (a + b) % 7
  {
    var q := a / 7;
    assert a == 7 * q + a % 7;
    assert (a + b) == (a % 7 + b) + 7 * q;
  }
}
