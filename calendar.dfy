/** Proleptic Gregorian calendar arithmetic, and the parts of JavaScript's `Date`
    the dashboard uses: `new Date(y, m, d)` (with its month overflow and its
    remapping of years 0..99 to 1900..1999), `getDate()` and `getDay()`.
    Months are 0-based as in JavaScript. Day numbers count days from 0001-01-01. */
module Calendar {
  import opened JsText

  predicate IsLeapYear(y: int) {
    y % 4 == 0 && (y % 100 != 0 || y % 400 == 0)
  }

  function DaysInYear(y: int): int {
    if IsLeapYear(y) then 366 else 365
  }

  /** Length of month `m` (0 = January) of year `y`. */
  function DaysIn(y: int, m: int): (r: int)
    requires 0 <= m < 12
    ensures 28 <= r <= 31
    ensures m == 1 ==> (r == 29 <==> IsLeapYear(y))
  {
    if m == 1 then (if IsLeapYear(y) then 29 else 28)
    else if m == 3 || m == 5 || m == 8 || m == 10 then 30
    else 31
  }

  /** Days from 0001-01-01 to January 1st of year `y` (negative before year 1). */
  function DaysBeforeYear(y: int): int {
    var p := y - 1;
    365 * p + p / 4 - p / 100 + p / 400
  }

  /** Days from January 1st to the first of month `m` (12 gives the whole year). */
  function DaysBeforeMonth(y: int, m: int): int
    requires 0 <= m <= 12
  {
    [0, 31, 59, 90, 120, 151, 181, 212, 243, 273, 304, 334, 365][m] +
    (if m >= 2 && IsLeapYear(y) then 1 else 0)
  }

  datatype Date = Date(year: int, month: int, day: int)

  predicate ValidDate(dt: Date) {
    0 <= dt.month < 12 && 1 <= dt.day <= DaysIn(dt.year, dt.month)
  }

  function DayNumber(dt: Date): int
    requires 0 <= dt.month < 12
  {
    DaysBeforeYear(dt.year) + DaysBeforeMonth(dt.year, dt.month) + dt.day - 1
  }

  /** How `/` and `%` by the calendar's constants change from `a` to `a + 1`. */
  lemma FloorStep(a: int, k: int)
    requires k == 4 || k == 12 || k == 100 || k == 400
    ensures (a + 1) / k == a / k + (if (a + 1) % k == 0 then 1 else 0)
    ensures (a + 1) % k == if a % k == k - 1 then 0 else a % k + 1
  {
    if k == 4 {
      DivStep4(a);
    } else if k == 12 {
      DivStep12(a);
    } else if k == 100 {
      DivStep100(a);
    } else {
      DivStep400(a);
    }
  }

  lemma DivStep4(a: int)
    ensures (a + 1) / 4 == a / 4 + (if (a + 1) % 4 == 0 then 1 else 0)
    ensures (a + 1) % 4 == if a % 4 == 3 then 0 else a % 4 + 1
  {
  }

  lemma DivStep12(a: int)
    ensures (a + 1) / 12 == a / 12 + (if (a + 1) % 12 == 0 then 1 else 0)
    ensures (a + 1) % 12 == if a % 12 == 11 then 0 else a % 12 + 1
  {
  }

  lemma DivStep100(a: int)
    ensures (a + 1) / 100 == a / 100 + (if (a + 1) % 100 == 0 then 1 else 0)
    ensures (a + 1) % 100 == if a % 100 == 99 then 0 else a % 100 + 1
  {
  }

  lemma DivStep400(a: int)
    ensures (a + 1) / 400 == a / 400 + (if (a + 1) % 400 == 0 then 1 else 0)
    ensures (a + 1) % 400 == if a % 400 == 399 then 0 else a % 400 + 1
  {
  }

  /** Consecutive years start 365 or 366 days apart, as the leap-year rule says. */
  lemma DaysBeforeNextYear(y: int)
    ensures DaysBeforeYear(y + 1) == DaysBeforeYear(y) + DaysInYear(y)
  {
    FloorStep(y - 1, 4);
    FloorStep(y - 1, 100);
    FloorStep(y - 1, 400);
    DivisorChain(y);
    var step := (y / 4 - (y - 1) / 4) - (y / 100 - (y - 1) / 100) + (y / 400 - (y - 1) / 400);
    assert DaysBeforeYear(y + 1) == DaysBeforeYear(y) + 365 + step;
    assert step == (if IsLeapYear(y) then 1 else 0);
  }

  /** A multiple of 400 is a multiple of 100, which is a multiple of 4. */
  lemma DivisorChain(y: int)
    ensures y % 400 == 0 ==> y % 100 == 0
    ensures y % 100 == 0 ==> y % 4 == 0
  {
    if y % 400 == 0 {
      var q := y / 400;
      assert y == 400 * q;
      MultipleOf100(4 * q);
    }
    if y % 100 == 0 {
      var q := y / 100;
      assert y == 100 * q;
      MultipleOf4(25 * q);
    }
  }

  lemma MultipleOf100(q: int)
    ensures (100 * q) % 100 == 0
  {
  }

  lemma MultipleOf4(q: int)
    ensures (4 * q) % 4 == 0
  {
  }

  lemma {:induction false} DaysBeforeYearMonotone(a: int, b: int)
    requires a <= b
    ensures DaysBeforeYear(a) + 365 * (b - a) <= DaysBeforeYear(b)
    decreases b - a
  {
    if a < b {
      DaysBeforeYearMonotone(a, b - 1);
      DaysBeforeNextYear(b - 1);
    }
  }

  lemma DaysBeforeNextMonth(y: int, m: int)
    requires 0 <= m < 12
    ensures DaysBeforeMonth(y, m + 1) == DaysBeforeMonth(y, m) + DaysIn(y, m)
  {
  }

  lemma {:induction false} DaysBeforeMonthMonotone(y: int, a: int, b: int)
    requires 0 <= a <= b <= 12
    ensures DaysBeforeMonth(y, a) + 28 * (b - a) <= DaysBeforeMonth(y, b)
    decreases b - a
  {
    if a < b {
      DaysBeforeMonthMonotone(y, a, b - 1);
      DaysBeforeNextMonth(y, b - 1);
    }
  }

  /** The year a day number falls in, searched upward from year `y`. */
  function YearUp(n: int, y: int): (r: int)
    requires DaysBeforeYear(y) <= n
    ensures DaysBeforeYear(r) <= n < DaysBeforeYear(r + 1)
    decreases n - DaysBeforeYear(y)
  {
    DaysBeforeNextYear(y);
    if n < DaysBeforeYear(y + 1) then y else YearUp(n, y + 1)
  }

  /** The year a day number falls in, searched downward from year `y`. */
  function YearDown(n: int, y: int): (r: int)
    requires n < DaysBeforeYear(y + 1)
    ensures DaysBeforeYear(r) <= n < DaysBeforeYear(r + 1)
    decreases if DaysBeforeYear(y) > n then DaysBeforeYear(y) - n else 0
  {
    DaysBeforeNextYear(y - 1);
    if DaysBeforeYear(y) <= n then y else YearDown(n, y - 1)
  }

  function YearOf(n: int): (y: int)
    ensures DaysBeforeYear(y) <= n < DaysBeforeYear(y + 1)
  {
    var guess := n / 365 + 1;
    if n < DaysBeforeYear(guess) then YearDown(n, guess - 1) else YearUp(n, guess)
  }

  /** The month of year `y` holding day `r` of that year (0-based), searched from `m`. */
  function MonthFrom(y: int, r: int, m: int): (k: int)
    requires 0 <= m < 12 && DaysBeforeMonth(y, m) <= r < DaysInYear(y)
    ensures m <= k < 12 && DaysBeforeMonth(y, k) <= r < DaysBeforeMonth(y, k + 1)
    decreases 12 - m
  {
    if r < DaysBeforeMonth(y, m + 1) then m else MonthFrom(y, r, m + 1)
  }

  /** The calendar date of a day number: the inverse of `DayNumber`. */
  function CivilFromDays(n: int): (dt: Date)
    ensures ValidDate(dt) && DayNumber(dt) == n
  {
    var y := YearOf(n);
    DaysBeforeNextYear(y);
    var r := n - DaysBeforeYear(y);
    var m := MonthFrom(y, r, 0);
    DaysBeforeNextMonth(y, m);
    Date(y, m, r - DaysBeforeMonth(y, m) + 1)
  }

  /** A valid date's day number lies inside its year and its month. */
  lemma DayNumberBounds(dt: Date)
    requires ValidDate(dt)
    ensures DaysBeforeYear(dt.year) <= DayNumber(dt) < DaysBeforeYear(dt.year + 1)
    ensures DaysBeforeMonth(dt.year, dt.month) <= DayNumber(dt) - DaysBeforeYear(dt.year) < DaysBeforeMonth(dt.year, dt.month + 1)
  {
    DaysBeforeNextYear(dt.year);
    DaysBeforeNextMonth(dt.year, dt.month);
    DaysBeforeMonthMonotone(dt.year, dt.month + 1, 12);
  }

  /** Different valid dates have different day numbers. */
  lemma DayNumberInjective(a: Date, b: Date)
    requires ValidDate(a) && ValidDate(b) && DayNumber(a) == DayNumber(b)
    ensures a == b
  {
    DayNumberSameYear(a, b);
    DayNumberBounds(a);
    DayNumberBounds(b);
    if a.month < b.month {
      DaysBeforeMonthMonotone(a.year, a.month + 1, b.month);
    } else if b.month < a.month {
      DaysBeforeMonthMonotone(a.year, b.month + 1, a.month);
    }
  }

  lemma DayNumberSameYear(a: Date, b: Date)
    requires ValidDate(a) && ValidDate(b) && DayNumber(a) == DayNumber(b)
    ensures a.year == b.year
  {
    if a.year < b.year {
      EarlierYearEarlierDay(a, b);
    } else if b.year < a.year {
      EarlierYearEarlierDay(b, a);
    }
  }

  /** A date in an earlier year has a smaller day number. */
  lemma EarlierYearEarlierDay(a: Date, b: Date)
    requires ValidDate(a) && ValidDate(b) && a.year < b.year
    ensures DayNumber(a) < DayNumber(b)
  {
    DayNumberBounds(a);
    DayNumberBounds(b);
    DaysBeforeYearMonotone(a.year + 1, b.year);
  }

  /** Every valid date is recovered from its day number. */
  lemma CivilFromDayNumber(dt: Date)
    requires ValidDate(dt)
    ensures CivilFromDays(DayNumber(dt)) == dt
  {
    DayNumberInjective(CivilFromDays(DayNumber(dt)), dt);
  }

  /** The following calendar day, by the rules of the calendar. */
  function NextDay(dt: Date): Date
    requires ValidDate(dt)
  {
    if dt.day < DaysIn(dt.year, dt.month) then Date(dt.year, dt.month, dt.day + 1)
    else if dt.month < 11 then Date(dt.year, dt.month + 1, 1)
    else Date(dt.year + 1, 0, 1)
  }

  /** Day number n + 1 is the calendar day after day number n. */
  lemma SuccessorDay(n: int)
    ensures CivilFromDays(n + 1) == NextDay(CivilFromDays(n))
  {
    var nx := NextDay(CivilFromDays(n));
    NextDayNumber(CivilFromDays(n));
    CivilFromDayNumber(nx);
  }

  /** The next day is a valid date whose day number is one more. */
  lemma NextDayNumber(dt: Date)
    requires ValidDate(dt)
    ensures ValidDate(NextDay(dt)) && DayNumber(NextDay(dt)) == DayNumber(dt) + 1
  {
    if dt.day < DaysIn(dt.year, dt.month) {
    } else if dt.month < 11 {
      DaysBeforeNextMonth(dt.year, dt.month);
    } else {
      DaysBeforeNextYear(dt.year);
    }
  }

  /** Day of the week of a day number, 0 = Sunday .. 6 = Saturday
      (0001-01-01 of the proleptic Gregorian calendar was a Monday). */
  function Weekday(n: int): (w: int)
    ensures 0 <= w < 7
  {
    (n + 1) % 7
  }

  /** The numbering agrees with known dates: 1970-01-01 was a Thursday, 2000-01-01 a
      Saturday and 2025-07-01 a Tuesday. */
  lemma WeekdayAnchors()
    ensures Weekday(DayNumber(Date(1970, 0, 1))) == 4
    ensures Weekday(DayNumber(Date(2000, 0, 1))) == 6
    ensures Weekday(DayNumber(Date(2025, 6, 1))) == 2
  {
  }

  /** Weekdays follow each other in a seven-day cycle. */
  lemma WeekdayNext(n: int)
    ensures Weekday(n + 1) == (Weekday(n) + 1) % 7
  {
  }

  /** The full year `new Date(y, ...)` uses: 0..99 stand for 1900..1999. */
  function JsFullYear(y: int): int {
    if 0 <= y <= 99 then 1900 + y else y
  }

  /** The day number of `new Date(y, m, d)`: a month outside 0..11 carries into the
      year, and a day outside the month carries into the neighbouring months. */
  function MakeDay(y: int, m: int, d: int): int {
    DayNumber(Date(JsFullYear(y) + m / 12, m % 12, 1)) + d - 1
  }

  /** `new Date(y, m + 1, 0).getDate()`: the number of days of month `m`. */
  function JsDaysInMonth(y: int, m: int): int {
    CivilFromDays(MakeDay(y, m + 1, 0)).day
  }

  /** `new Date(y, m, d).getDay()`. */
  function JsWeekday(y: int, m: int, d: int): int {
    Weekday(MakeDay(y, m, d))
  }

  /** Day zero of the following month is the last day of this one, so the
      JavaScript idiom gives the Gregorian length of the (normalised) month. */
  lemma JsDaysInMonthIsGregorian(y: int, m: int)
    ensures JsDaysInMonth(y, m) == DaysIn(JsFullYear(y) + m / 12, m % 12)
    ensures 28 <= JsDaysInMonth(y, m) <= 31
  {
    MakeDayZero(y, m);
    JsDaysInMonthOfLast(y, m, JsFullYear(y) + m / 12, m % 12);
  }

  /** Day zero of month `m + 1` is the last day of month `m`, carried into the year. */
  lemma MakeDayZero(y: int, m: int)
    ensures var yy := JsFullYear(y) + m / 12;
            MakeDay(y, m + 1, 0) == DayNumber(Date(yy, m % 12, DaysIn(yy, m % 12)))
  {
    var yy := JsFullYear(y) + m / 12;
    FloorStep(m, 12);
    DaysBeforeNextMonth(yy, m % 12);
    DaysBeforeNextYear(yy);
  }

  /** The JavaScript month length is the day of the date whose number is day zero
      of the following month. */
  lemma JsDaysInMonthOfLast(y: int, m: int, yy: int, mm: int)
    requires 0 <= mm < 12 && MakeDay(y, m + 1, 0) == DayNumber(Date(yy, mm, DaysIn(yy, mm)))
    ensures JsDaysInMonth(y, m) == DaysIn(yy, mm)
  {
    CivilFromDayNumber(Date(yy, mm, DaysIn(yy, mm)));
  }

  /** For an in-range month of a year from 100 on, `new Date(y, m, d)` is the plain
      calendar date. */
  lemma MakeDayPlain(y: int, m: int, d: int)
    requires y >= 100 && 0 <= m < 12
    ensures MakeDay(y, m, d) == DayNumber(Date(y, m, d))
  {
    assert JsFullYear(y) + m / 12 == y && m % 12 == m;
  }

  /** Text of a year as `Date.prototype.toISOString` writes it: four digits for
      0..9999, otherwise a sign and six digits. */
  function IsoYear(y: int): string {
    if 0 <= y <= 9999 then PadStart(IntToString(y), 4, '0')
    else (if y < 0 then "-" else "+") + PadStart(NatToString(if y < 0 then -y else y), 6, '0')
  }

  /** The `YYYY-MM-DD` date part of `toISOString`. */
  function IsoDate(dt: Date): string
    requires 0 <= dt.month < 12
  {
    IsoYear(dt.year) + "-" + Pad2(dt.month + 1) + "-" + Pad2(dt.day)
  }
}
