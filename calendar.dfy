/** Calendar days of the proleptic Gregorian calendar, the values the
    dashboard writes as "yyyy-MM-dd". A day's ordinal counts days from
    0001-01-01, which is a Monday, so `Ordinal(x) % 7 == 0` picks out the
    Mondays that start a week in the dashboard's Monday-start convention. */
module Calendar {

  datatype Date = Date(year: int, month: int, day: int)

  predicate IsLeapYear(y: int)
  {
    y % 4 == 0 && (y % 100 != 0 || y % 400 == 0)
  }

  function DaysInMonth(y: int, m: int): (n: int)
    requires 1 <= m <= 12
    ensures 28 <= n <= 31
    ensures m == 2 ==> (n == 29 <==> IsLeapYear(y))
  {
    if m == 2 then (if IsLeapYear(y) then 29 else 28)
    else if m == 4 || m == 6 || m == 9 || m == 11 then 30
    else 31
  }

  /** A date that names a real calendar day (what a date parser accepts). */
  predicate Valid(x: Date)
  {
    1 <= x.month <= 12 && 1 <= x.day <= DaysInMonth(x.year, x.month)
  }

  function YearLength(y: int): int
  {
    if IsLeapYear(y) then 366 else 365
  }

  /** Days of year `y` before the first of month `m` (months outside 1..12
      never occur in a valid date). */
  function DaysBeforeMonth(y: int, m: int): int
    decreases m
  {
    if 1 < m <= 12 then DaysBeforeMonth(y, m - 1) + DaysInMonth(y, m - 1) else 0
  }

  lemma DecemberStart(y: int)
    ensures DaysBeforeMonth(y, 12) + 31 == YearLength(y)
  {
    assert DaysBeforeMonth(y, 3) == 31 + DaysInMonth(y, 2);
    assert DaysBeforeMonth(y, 6) == DaysBeforeMonth(y, 3) + 92;
    assert DaysBeforeMonth(y, 9) == DaysBeforeMonth(y, 6) + 92;
    assert DaysBeforeMonth(y, 12) == DaysBeforeMonth(y, 9) + 91;
  }

  /** Days from 0001-01-01 to the first of January of year `y` (negative
      before year 1). */
  function DaysBeforeYear(y: int): int
    decreases if y >= 1 then y - 1 else 1 - y
  {
    if y == 1 then 0
    else if y > 1 then DaysBeforeYear(y - 1) + YearLength(y - 1)
    else DaysBeforeYear(y + 1) - YearLength(y)
  }

  function Ordinal(x: Date): int
  {
    DaysBeforeYear(x.year) + DaysBeforeMonth(x.year, x.month) + x.day - 1
  }

  lemma MonthStep(y: int, m: int)
    requires 1 <= m < 12
    ensures DaysBeforeMonth(y, m + 1) == DaysBeforeMonth(y, m) + DaysInMonth(y, m)
  {
  }

  lemma YearStep(y: int)
    ensures DaysBeforeYear(y + 1) == DaysBeforeYear(y) + YearLength(y)
  {
  }


  /** The day after `x`. */
  function Next(x: Date): (r: Date)
    requires Valid(x)
    ensures Valid(r) && Ordinal(r) == Ordinal(x) + 1
  {
    if x.day < DaysInMonth(x.year, x.month) then Date(x.year, x.month, x.day + 1)
    else if x.month < 12 then (MonthStep(x.year, x.month); Date(x.year, x.month + 1, 1))
    else (NewYear(x.year); Date(x.year + 1, 1, 1))
  }

  lemma NewYear(y: int)
    ensures Ordinal(Date(y + 1, 1, 1)) == Ordinal(Date(y, 12, 31)) + 1
  {
    YearStep(y);
    DecemberStart(y);
  }

  /** The day before `x`. */
  function Prev(x: Date): (r: Date)
    requires Valid(x)
    ensures Valid(r) && Ordinal(r) == Ordinal(x) - 1
  {
    if x.day > 1 then Date(x.year, x.month, x.day - 1)
    else if x.month > 1 then
      (MonthStep(x.year, x.month - 1); Date(x.year, x.month - 1, DaysInMonth(x.year, x.month - 1)))
    else (NewYear(x.year - 1); Date(x.year - 1, 12, 31))
  }

  /** `n` days after `x`. */
  function Forward(x: Date, n: nat): (r: Date)
    requires Valid(x)
    ensures Valid(r) && Ordinal(r) == Ordinal(x) + n
    decreases n
  {
    if n == 0 then x else Forward(Next(x), n - 1)
  }

  /** `n` days before `x`. */
  function Back(x: Date, n: nat): (r: Date)
    requires Valid(x)
    ensures Valid(r) && Ordinal(r) == Ordinal(x) - n
    decreases n
  {
    if n == 0 then x else Back(Prev(x), n - 1)
  }

  /** The Monday on or before `x` (date-fns `startOfWeek` with
      `weekStartsOn: 1`). */
  function StartOfWeek(x: Date): (r: Date)
    requires Valid(x)
    ensures Valid(r) && Ordinal(r) % 7 == 0
    ensures Ordinal(x) - 6 <= Ordinal(r) <= Ordinal(x)
  {
    Back(x, Ordinal(x) % 7)
  }

  /** The first day of `x`'s month (date-fns `startOfMonth`). */
  function StartOfMonth(x: Date): (r: Date)
    requires Valid(x)
    ensures Valid(r) && r.day == 1 && r.year == x.year && r.month == x.month
    ensures Ordinal(r) == Ordinal(x) - (x.day - 1)
  {
    Date(x.year, x.month, 1)
  }

  /** The first day of the month after the one `x` starts. */
  function NextMonthStart(x: Date): (r: Date)
    requires Valid(x) && x.day == 1
    ensures Valid(r) && r.day == 1
    ensures MonthIndex(r) == MonthIndex(x) + 1
    ensures Ordinal(r) == Ordinal(x) + DaysInMonth(x.year, x.month)
  {
    if x.month < 12 then (MonthStep(x.year, x.month); Date(x.year, x.month + 1, 1))
    else (NewYear(x.year); Date(x.year + 1, 1, 1))
  }

  /** Months counted from January of year 0. */
  function MonthIndex(x: Date): int
  {
    12 * x.year + x.month - 1
  }

  /** The order of "yyyy-MM-dd" strings: year, then month, then day. */
  predicate Before(a: Date, b: Date)
  {
    a.year < b.year
    || (a.year == b.year && a.month < b.month)
    || (a.year == b.year && a.month == b.month && a.day < b.day)
  }

  lemma {:induction false} DaysBeforeYearMonotone(a: int, b: int)
    requires a < b
    ensures DaysBeforeYear(a) + YearLength(a) <= DaysBeforeYear(b)
    decreases b - a
  {
    YearStep(a);
    if a + 1 < b {
      DaysBeforeYearMonotone(a + 1, b);
    }
  }

  lemma {:induction false} MonthsOrdered(y: int, m: int, m': int)
    requires 1 <= m < m' <= 12
    ensures DaysBeforeMonth(y, m) + DaysInMonth(y, m) <= DaysBeforeMonth(y, m')
    decreases m'
  {
    if m + 1 < m' {
      MonthsOrdered(y, m, m' - 1);
    }
  }

  lemma {:induction false} MonthWithinYear(y: int, m: int)
    requires 1 <= m <= 12
    ensures 0 <= DaysBeforeMonth(y, m) && DaysBeforeMonth(y, m) + DaysInMonth(y, m) <= YearLength(y)
  {
    if m < 12 {
      MonthsOrdered(y, m, 12);
    }
    DecemberStart(y);
  }

  /** For real calendar days, the string order is the chronological order. */
  lemma BeforeIsChronological(a: Date, b: Date)
    requires Valid(a) && Valid(b)
    ensures Before(a, b) <==> Ordinal(a) < Ordinal(b)
    ensures Ordinal(a) == Ordinal(b) <==> a == b
  {
    YearStep(a.year);
    YearStep(b.year);
    MonthWithinYear(a.year, a.month);
    MonthWithinYear(b.year, b.month);
    if a.year < b.year {
      DaysBeforeYearMonotone(a.year, b.year);
    } else if b.year < a.year {
      DaysBeforeYearMonotone(b.year, a.year);
    } else if a.month < b.month {
      MonthsOrdered(a.year, a.month, b.month);
    } else if b.month < a.month {
      MonthsOrdered(a.year, b.month, a.month);
    }
  }

  /** Distinct real days have distinct ordinals. */
  lemma OrdinalInjective(a: Date, b: Date)
    requires Valid(a) && Valid(b) && Ordinal(a) == Ordinal(b)
    ensures a == b
  {
    BeforeIsChronological(a, b);
  }
}
