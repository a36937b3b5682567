/** Calendar arithmetic: Python's proleptic Gregorian day numbers
    (`date.toordinal()`), which turn `timedelta(days=n)` steps into integer
    additions, and the running month index the Warsaw interpolation counts
    in. */
module Calendar {
  import opened Common

  datatype Date = Date(year: int, month: int, day: int)

  /** Dates compare like their zero-padded `YYYY-MM-DD` strings. */
  function DateKey(d: Date): Key {
    Key(d.year, d.month, d.day)
  }

  predicate IsLeap(y: int) {
    y % 4 == 0 && (y % 100 != 0 || y % 400 == 0)
  }

  function DaysInMonth(y: int, m: int): int
    requires 1 <= m <= 12
  {
    if m == 2 then (if IsLeap(y) then 29 else 28)
    else if m == 4 || m == 6 || m == 9 || m == 11 then 30
    else 31
  }

  function YearLength(y: int): int {
    if IsLeap(y) then 366 else 365
  }

  /** Days of year `y` before the first of month `m`: the cumulative month
      lengths of a common year, plus the leap day from March on. */
  function DaysBeforeMonth(y: int, m: int): int
    requires 1 <= m <= 12
  {
    [0, 31, 59, 90, 120, 151, 181, 212, 243, 273, 304, 334][m - 1] + (if m > 2 && IsLeap(y) then 1 else 0)
  }

  /** Days before 1 January of year `y`, counted from 1 January of year 1. */
  function DaysBeforeYear(y: int): int {
    var z := y - 1;
    z * 365 + z / 4 - z / 100 + z / 400
  }

  /** A date `datetime` accepts: years 1 to 9999 and a day inside its month. */
  predicate ValidDate(d: Date) {
    1 <= d.year <= 9999 && 1 <= d.month <= 12 && 1 <= d.day <= DaysInMonth(d.year, d.month)
  }

  /** `date.toordinal()`: 1 January of year 1 is day 1. */
  function Ordinal(d: Date): int
    requires ValidDate(d)
  {
    DaysBeforeYear(d.year) + DaysBeforeMonth(d.year, d.month) + d.day
  }

  lemma DaysBeforeMonthBound(y: int, m: int)
    requires 1 <= m <= 12
    ensures DaysBeforeMonth(y, m) + DaysInMonth(y, m) <= YearLength(y)
    ensures m < 12 ==> DaysBeforeMonth(y, m + 1) == DaysBeforeMonth(y, m) + DaysInMonth(y, m)
  {
  }

  lemma DaysBeforeMonthIncreasing(y: int, m1: int, m2: int)
    requires 1 <= m1 < m2 <= 12
    ensures DaysBeforeMonth(y, m1) + DaysInMonth(y, m1) <= DaysBeforeMonth(y, m2)
    decreases m2 - m1
  {
    DaysBeforeMonthBound(y, m1);
    if m1 + 1 < m2 {
      DaysBeforeMonthIncreasing(y, m1 + 1, m2);
      DaysBeforeMonthBound(y, m1 + 1);
    }
  }

  lemma DivStep4(z: int)
    ensures (z + 1) / 4 == z / 4 + (if (z + 1) % 4 == 0 then 1 else 0)
  {
  }

  lemma DivStep100(z: int)
    ensures (z + 1) / 100 == z / 100 + (if (z + 1) % 100 == 0 then 1 else 0)
  {
  }

  lemma DivStep400(z: int)
    ensures (z + 1) / 400 == z / 400 + (if (z + 1) % 400 == 0 then 1 else 0)
  {
  }

  lemma MultipleOf100(y: int)
    requires y % 100 == 0
    ensures y % 4 == 0
  {
    assert y == 4 * (25 * (y / 100));
  }

  lemma MultipleOf400(y: int)
    requires y % 400 == 0
    ensures y % 100 == 0
  {
    assert y == 100 * (4 * (y / 400));
  }

  /** Each year contributes its own length to the day count. */
  lemma DaysBeforeNextYear(y: int)
    ensures DaysBeforeYear(y + 1) == DaysBeforeYear(y) + YearLength(y)
  {
    var z := y - 1;
    DivStep4(z);
    DivStep100(z);
    DivStep400(z);
    var a, b, c := y / 4 - z / 4, y / 100 - z / 100, y / 400 - z / 400;
    assert DaysBeforeYear(y + 1) - DaysBeforeYear(y) == 365 + a - b + c;
    if y % 400 == 0 {
      MultipleOf400(y);
      MultipleOf100(y);
    } else if y % 100 == 0 {
      MultipleOf100(y);
    }
  }

  lemma DaysBeforeYearIncreasing(y1: int, y2: int)
    requires y1 < y2
    ensures DaysBeforeYear(y1) + YearLength(y1) <= DaysBeforeYear(y2)
    decreases y2 - y1
  {
    DaysBeforeNextYear(y1);
    if y1 + 1 < y2 {
      DaysBeforeYearIncreasing(y1 + 1, y2);
    }
  }

  /** Day numbers follow the calendar: a date earlier in the `YYYY-MM-DD`
      order has the smaller day number, so date comparisons and day
      comparisons agree. */
  lemma OrdinalOrder(a: Date, b: Date)
    requires ValidDate(a) && ValidDate(b)
    ensures Less(DateKey(a), DateKey(b)) <==> Ordinal(a) < Ordinal(b)
    ensures a == b <==> Ordinal(a) == Ordinal(b)
  {
    if a.year < b.year {
      OrdinalBefore(a, b);
    } else if b.year < a.year {
      OrdinalBefore(b, a);
    } else if a.month < b.month {
      DaysBeforeMonthIncreasing(a.year, a.month, b.month);
    } else if b.month < a.month {
      DaysBeforeMonthIncreasing(a.year, b.month, a.month);
    }
  }

  lemma OrdinalBefore(a: Date, b: Date)
    requires ValidDate(a) && ValidDate(b) && a.year < b.year
    ensures Ordinal(a) < Ordinal(b)
  {
    DaysBeforeMonthBound(a.year, a.month);
    DaysBeforeYearIncreasing(a.year, b.year);
  }

  /** The day numbers the search for a first chunk start relies on. */
  lemma EarliestDataOrdinal()
    ensures ValidDate(Date(2013, 1, 2)) && Ordinal(Date(2013, 1, 2)) == 734870
    ensures ValidDate(Date(2013, 4, 5)) && Ordinal(Date(2013, 4, 5)) == 734870 + 93
    ensures ValidDate(Date(2013, 4, 6)) && Ordinal(Date(2013, 4, 6)) == 734870 + 94
    ensures ValidDate(Date(2013, 4, 10)) && Ordinal(Date(2013, 4, 10)) == 734870 + 98
  {
  }

  // ------------------------------------------------------ running months

  datatype YearMonth = YearMonth(year: int, month: int)

  function MonthKey(ym: YearMonth): Key {
    Key(ym.year, ym.month, 0)
  }

  /** The running month number `(year - 2006) * 12 + month`: January 2006 is 1. */
  function MonthIndex(year: int, month: int): int {
    (year - 2006) * 12 + month
  }

  /** `2006 + (idx - 1) // 12` and `(idx - 1) % 12 + 1`. Python's floor
      division and modulo by a positive number agree with Dafny's `/` and `%`,
      also below January 2006. */
  function FromMonthIndex(idx: int): (r: YearMonth)
    ensures 1 <= r.month <= 12
  {
    YearMonth(2006 + (idx - 1) / 12, (idx - 1) % 12 + 1)
  }

  /** The conversion back to a year and a month undoes the month index. */
  lemma FromMonthIndexInverse(year: int, month: int)
    requires 1 <= month <= 12
    ensures FromMonthIndex(MonthIndex(year, month)) == YearMonth(year, month)
  {
    var idx := MonthIndex(year, month);
    assert idx - 1 == (year - 2006) * 12 + (month - 1);
  }

  /** ... and the month index undoes the conversion, for every index. */
  lemma MonthIndexInverse(idx: int)
    ensures MonthIndex(FromMonthIndex(idx).year, FromMonthIndex(idx).month) == idx
  {
  }

  /** Running month numbers order months like their `(year, month)` keys. */
  lemma MonthIndexOrder(a: YearMonth, b: YearMonth)
    requires 1 <= a.month <= 12 && 1 <= b.month <= 12
    ensures Less(MonthKey(a), MonthKey(b)) <==> MonthIndex(a.year, a.month) < MonthIndex(b.year, b.month)
    ensures a == b <==> MonthIndex(a.year, a.month) == MonthIndex(b.year, b.month)
  {
  }
}
