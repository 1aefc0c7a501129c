// Proleptic Gregorian dates and their day numbers, as Python's datetime.date has them,
// for the calendar arithmetic of src/eve/web/series.py.

module Calendar {
  datatype Date = Date(year: int, month: int, day: int)

  predicate Leap(y: int) {
    y % 4 == 0 && (y % 100 != 0 || y % 400 == 0)
  }

  function DaysInMonth(y: int, m: int): int {
    if m == 2 then if Leap(y) then 29 else 28
    else if m == 4 || m == 6 || m == 9 || m == 11 then 30
    else 31
  }

  function DaysBeforeYear(y: int): int {
    (y - 1) * 365 + (y - 1) / 4 - (y - 1) / 100 + (y - 1) / 400
  }

  function DaysBeforeMonth(y: int, m: int): int {
    var common := [0, 31, 59, 90, 120, 151, 181, 212, 243, 273, 304, 334];
    if 1 <= m <= 12 then common[m - 1] + (if m > 2 && Leap(y) then 1 else 0) else 0
  }

  predicate ValidDate(d: Date) {
    1 <= d.month <= 12 && 1 <= d.day <= DaysInMonth(d.year, d.month)
  }

  /** Day number; 1 is 1 January of year 1, a Monday. */
  function Ordinal(d: Date): int {
    DaysBeforeYear(d.year) + DaysBeforeMonth(d.year, d.month) + d.day
  }

  /** Monday is 0. */
  function Weekday(d: Date): int {
    (Ordinal(d) + 6) % 7
  }

  /** The order of dates: by year, then month, then day. */
  predicate NotAfter(d: Date, e: Date) {
    d.year < e.year ||
    (d.year == e.year && (d.month < e.month || (d.month == e.month && d.day <= e.day)))
  }

  // ---------------------------------------------------------------- months

  /** The first day of month `i`, counted from January of year 0. */
  function MonthAt(i: int): Date {
    Date(i / 12, i % 12 + 1, 1)
  }

  function MonthIndex(d: Date): int {
    12 * d.year + d.month - 1
  }

  lemma Quotient4(y: int)
    ensures y / 4 == (y - 1) / 4 + if y % 4 == 0 then 1 else 0
  {
  }

  lemma Quotient100(y: int)
    ensures y / 100 == (y - 1) / 100 + if y % 100 == 0 then 1 else 0
  {
  }

  lemma Quotient400(y: int)
    ensures y / 400 == (y - 1) / 400 + if y % 400 == 0 then 1 else 0
  {
  }

  lemma Multiple100(k: int)
    ensures (100 * k) % 100 == 0
  {
  }

  lemma Multiple4(k: int)
    ensures (4 * k) % 4 == 0
  {
  }

  lemma CenturiesDivide(y: int)
    ensures y % 400 == 0 ==> y % 100 == 0
    ensures y % 100 == 0 ==> y % 4 == 0
  {
    if y % 400 == 0 {
      assert y == 100 * (4 * (y / 400));
      Multiple100(4 * (y / 400));
    }
    if y % 100 == 0 {
      assert y == 4 * (25 * (y / 100));
      Multiple4(25 * (y / 100));
    }
  }

  lemma YearLength(y: int)
    ensures DaysBeforeYear(y + 1) == DaysBeforeYear(y) + if Leap(y) then 366 else 365
  {
    Quotient4(y);
    Quotient100(y);
    Quotient400(y);
    CenturiesDivide(y);
    AddUpYear(y, y / 4, y / 100, y / 400);
  }

  // The count of leap days over one year, from the three quotient steps.
  lemma AddUpYear(y: int, fours: int, hundreds: int, fourHundreds: int)
    requires y / 4 == fours && y / 100 == hundreds && y / 400 == fourHundreds
    ensures DaysBeforeYear(y + 1) == y * 365 + fours - hundreds + fourHundreds
  {
  }

  lemma MonthLength(y: int, m: int)
    requires 1 <= m < 12
    ensures DaysBeforeMonth(y, m + 1) == DaysBeforeMonth(y, m) + DaysInMonth(y, m)
  {
  }

  lemma NextMonth(i: int)
    ensures Ordinal(MonthAt(i + 1)) == Ordinal(MonthAt(i)) + DaysInMonth(i / 12, i % 12 + 1)
  {
    hide DaysBeforeYear, DaysInMonth, Leap;
    if i % 12 < 11 {
      MonthLength(i / 12, i % 12 + 1);
    } else {
      YearEnds(i / 12);
    }
  }

  lemma YearEnds(y: int)
    ensures DaysBeforeYear(y + 1) == DaysBeforeYear(y) + DaysBeforeMonth(y, 12) + DaysInMonth(y, 12)
    ensures DaysBeforeMonth(y + 1, 1) == 0
  {
    hide DaysBeforeYear;
    YearLength(y);
  }

  lemma {:induction false} MonthsGrow(i: int, j: int)
    requires i < j
    ensures Ordinal(MonthAt(i)) < Ordinal(MonthAt(j))
    decreases j - i
  {
    hide Ordinal, MonthAt;
    NextMonth(j - 1);
    if i < j - 1 {
      MonthsGrow(i, j - 1);
    }
  }

  lemma DayWithinMonth(d: Date)
    requires ValidDate(d)
    ensures MonthAt(MonthIndex(d)) == Date(d.year, d.month, 1)
    ensures Ordinal(MonthAt(MonthIndex(d))) <= Ordinal(d) < Ordinal(MonthAt(MonthIndex(d) + 1))
  {
    hide DaysBeforeYear, DaysBeforeMonth, DaysInMonth;
    NextMonth(MonthIndex(d));
  }

  /** Day numbers order dates the way dates compare, so they also tell dates apart. */
  lemma OrderIsOrdinal(d: Date, e: Date)
    requires ValidDate(d) && ValidDate(e)
    ensures NotAfter(d, e) <==> Ordinal(d) <= Ordinal(e)
    ensures Ordinal(d) == Ordinal(e) ==> d == e
  {
    hide *;
    DayWithinMonth(d);
    DayWithinMonth(e);
    SameOrder(d, e);
    var i, j := MonthIndex(d), MonthIndex(e);
    if i + 1 < j {
      MonthsGrow(i + 1, j);
    } else if j + 1 < i {
      MonthsGrow(j + 1, i);
    } else if i == j {
      SameMonth(d, e);
    }
  }

  lemma SameOrder(d: Date, e: Date)
    requires ValidDate(d) && ValidDate(e)
    ensures NotAfter(d, e) <==> MonthIndex(d) < MonthIndex(e) || (MonthIndex(d) == MonthIndex(e) && d.day <= e.day)
  {
    hide DaysInMonth;
  }

  lemma SameMonth(d: Date, e: Date)
    requires ValidDate(d) && ValidDate(e) && MonthIndex(d) == MonthIndex(e)
    ensures Ordinal(d) - Ordinal(e) == d.day - e.day
    ensures d.day == e.day ==> d == e
  {
    hide DaysInMonth, DaysBeforeYear, DaysBeforeMonth;
  }

  // ---------------------------------------------------------------- days

  function NextDay(d: Date): Date {
    if d.day < DaysInMonth(d.year, d.month) then d.(day := d.day + 1) else MonthAt(MonthIndex(d) + 1)
  }

  function PreviousDay(d: Date): Date {
    if d.day > 1 then d.(day := d.day - 1)
    else
      var m := MonthAt(MonthIndex(d) - 1);
      m.(day := DaysInMonth(m.year, m.month))
  }

  lemma NextDayFollows(d: Date)
    requires ValidDate(d)
    ensures ValidDate(NextDay(d)) && Ordinal(NextDay(d)) == Ordinal(d) + 1
  {
    hide DaysBeforeYear, DaysBeforeMonth;
    DayWithinMonth(d);
    NextMonth(MonthIndex(d));
  }

  lemma PreviousDayPrecedes(d: Date)
    requires ValidDate(d)
    ensures ValidDate(PreviousDay(d)) && Ordinal(PreviousDay(d)) == Ordinal(d) - 1
  {
    hide DaysBeforeYear, DaysBeforeMonth;
    DayWithinMonth(d);
    NextMonth(MonthIndex(d) - 1);
  }

  /** A date plus a number of days, which may be negative. */
  function AddDays(d: Date, n: int): (r: Date)
    requires ValidDate(d)
    ensures ValidDate(r) && Ordinal(r) == Ordinal(d) + n
    decreases if n < 0 then -n else n
  {
    if n == 0 then d
    else if n > 0 then
      NextDayFollows(d);
      AddDays(NextDay(d), n - 1)
    else
      PreviousDayPrecedes(d);
      AddDays(PreviousDay(d), n + 1)
  }

  lemma KnownYears()
    ensures DaysBeforeYear(1) == 0 && DaysBeforeYear(2026) == 739616
  {
  }

  lemma KnownMonths()
    ensures DaysBeforeMonth(1, 1) == 0 && DaysBeforeMonth(2026, 7) == 181
  {
  }

  /** Where the calendar stands: 1 January of year 1 is day 1 and 27 July 2026 is a Monday. */
  lemma KnownDays()
    ensures Ordinal(Date(1, 1, 1)) == 1 && Weekday(Date(1, 1, 1)) == 0
    ensures Ordinal(Date(2026, 7, 27)) == 739824 && Weekday(Date(2026, 7, 27)) == 0
  {
    hide DaysBeforeYear, DaysBeforeMonth;
    KnownYears();
    KnownMonths();
  }

  /** From one day to the next the weekday moves on by one. */
  lemma WeekdaysFollow(d: Date)
    requires ValidDate(d)
    ensures Weekday(AddDays(d, 1)) == (Weekday(d) + 1) % 7
  {
    hide Ordinal, AddDays;
    NextModSeven(Ordinal(d) + 6);
  }

  lemma NextModSeven(n: int)
    ensures (n + 1) % 7 == (n % 7 + 1) % 7
  {
  }

  /** Every fourth year is a leap year but for centuries not divisible by 400. */
  lemma LeapDay(y: int)
    ensures ValidDate(Date(y, 2, 29)) <==> y % 4 == 0 && (y % 100 == 0 ==> y % 400 == 0)
    ensures ValidDate(Date(y, 2, 28)) && !ValidDate(Date(y, 2, 30))
  {
  }
}
