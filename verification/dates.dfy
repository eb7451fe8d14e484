/**
 * Calendar dates as Python's `datetime.date` handles them: proleptic
 * Gregorian dates of years 1 to 9999, compared field by field, with
 * `(b - a).days` computed through the day ordinal (0001-01-01 is day 1).
 */
module Dates {

  datatype YearMonthDay = YearMonthDay(year: int, month: int, day: int)

  predicate IsLeap(y: int) {
    y % 4 == 0 && (y % 100 != 0 || y % 400 == 0)
  }

  function DaysInMonth(y: int, m: int): (n: int)
    requires 1 <= m <= 12
    ensures 28 <= n <= 31
  {
    if m == 2 then (if IsLeap(y) then 29 else 28)
    else if m == 4 || m == 6 || m == 9 || m == 11 then 30
    else 31
  }

  predicate ValidDate(d: YearMonthDay) {
    1 <= d.year <= 9999 && 1 <= d.month <= 12 && 1 <= d.day <= DaysInMonth(d.year, d.month)
  }

  /** A value of Python's `datetime.date`. */
  type Date = d: YearMonthDay | ValidDate(d) witness YearMonthDay(1, 1, 1)

  function DaysInYear(y: int): int {
    if IsLeap(y) then 366 else 365
  }

  /** Days in the years before `y`. */
  function DaysBeforeYear(y: int): int
    requires y >= 1
  {
    var p := y - 1;
    p * 365 + p / 4 - p / 100 + p / 400
  }

  /** Days in the months of year `y` before month `m` (`m == 13` gives the whole year). */
  function DaysBeforeMonth(y: int, m: int): (n: int)
    requires 1 <= m <= 13
    ensures n >= 0
  {
    if m == 1 then 0 else DaysBeforeMonth(y, m - 1) + DaysInMonth(y, m - 1)
  }

  /** `date.toordinal()`. */
  function Ordinal(d: Date): int {
    DaysBeforeYear(d.year) + DaysBeforeMonth(d.year, d.month) + d.day
  }

  /** `(b - a).days`. */
  function DaysBetween(a: Date, b: Date): int {
    Ordinal(b) - Ordinal(a)
  }

  /** Python's `a < b` on dates: the (year, month, day) tuples compared in order. */
  predicate Before(a: Date, b: Date) {
    a.year < b.year
    || (a.year == b.year && a.month < b.month)
    || (a.year == b.year && a.month == b.month && a.day < b.day)
  }

  predicate NotAfter(a: Date, b: Date) {
    Before(a, b) || a == b
  }

  /** The ordinal grows by the length of the year at each new year. */
  lemma YearStep(y: int)
    requires y >= 1
    ensures DaysBeforeYear(y + 1) == DaysBeforeYear(y) + DaysInYear(y)
  {
    DivStep(y, 4);
    DivStep(y, 100);
    DivStep(y, 400);
    LeapCount(y);
    var p := y - 1;
    assert DaysBeforeYear(y + 1) == y * 365 + y / 4 - y / 100 + y / 400;
    assert DaysBeforeYear(y) == p * 365 + p / 4 - p / 100 + p / 400;
  }

  lemma LeapCount(y: int)
    requires y >= 1
    ensures (if y % 4 == 0 then 1 else 0) - (if y % 100 == 0 then 1 else 0) + (if y % 400 == 0 then 1 else 0)
            == DaysInYear(y) - 365
  {
    if y % 400 == 0 {
      Mod400Mod100(y);
      Mod100Mod4(y);
    } else if y % 100 == 0 {
      Mod100Mod4(y);
    }
  }

  lemma Mod400Mod100(y: int)
    requires y % 400 == 0
    ensures y % 100 == 0
  {
    var k := y / 400;
    assert y == 100 * (4 * k);
  }

  lemma Mod100Mod4(y: int)
    requires y % 100 == 0
    ensures y % 4 == 0
  {
    var k := y / 100;
    assert y == 4 * (25 * k);
  }

  lemma DivStep(y: int, k: int)
    requires y >= 1 && (k == 4 || k == 100 || k == 400)
    ensures y / k == (y - 1) / k + (if y % k == 0 then 1 else 0)
  {
    if k == 4 {
      var q, r := (y - 1) / 4, (y - 1) % 4;
      if r == 3 { assert y == 4 * (q + 1); } else { assert y == 4 * q + (r + 1); }
    } else if k == 100 {
      var q, r := (y - 1) / 100, (y - 1) % 100;
      if r == 99 { assert y == 100 * (q + 1); } else { assert y == 100 * q + (r + 1); }
    } else {
      var q, r := (y - 1) / 400, (y - 1) % 400;
      if r == 399 { assert y == 400 * (q + 1); } else { assert y == 400 * q + (r + 1); }
    }
  }

  lemma {:induction false} MonthsFillYear(y: int)
    ensures DaysBeforeMonth(y, 13) == DaysInYear(y)
  {
    var feb := DaysInMonth(y, 2);
    assert DaysBeforeMonth(y, 2) == 31;
    assert DaysBeforeMonth(y, 3) == 31 + feb;
    assert DaysBeforeMonth(y, 4) == 62 + feb;
    assert DaysBeforeMonth(y, 5) == 92 + feb;
    assert DaysBeforeMonth(y, 6) == 123 + feb;
    assert DaysBeforeMonth(y, 7) == 153 + feb;
    assert DaysBeforeMonth(y, 8) == 184 + feb;
    assert DaysBeforeMonth(y, 9) == 215 + feb;
    assert DaysBeforeMonth(y, 10) == 245 + feb;
    assert DaysBeforeMonth(y, 11) == 276 + feb;
    assert DaysBeforeMonth(y, 12) == 306 + feb;
    assert DaysBeforeMonth(y, 13) == 337 + feb;
  }

  lemma {:induction false} DaysBeforeMonthGrows(y: int, m1: int, m2: int)
    requires 1 <= m1 < m2 <= 13
    ensures DaysBeforeMonth(y, m1) + DaysInMonth(y, m1) <= DaysBeforeMonth(y, m2)
    decreases m2 - m1
  {
    if m1 + 1 < m2 {
      DaysBeforeMonthGrows(y, m1 + 1, m2);
    }
  }

  lemma {:induction false} DaysBeforeYearGrows(y1: int, y2: int)
    requires 1 <= y1 < y2
    ensures DaysBeforeYear(y1) + DaysInYear(y1) <= DaysBeforeYear(y2)
    decreases y2 - y1
  {
    YearStep(y1);
    if y1 + 1 < y2 {
      DaysBeforeYearGrows(y1 + 1, y2);
    }
  }

  /** Every date of year `y` has an ordinal within that year's range. */
  lemma {:induction false} OrdinalWithinYear(d: Date)
    ensures DaysBeforeYear(d.year) < Ordinal(d) <= DaysBeforeYear(d.year) + DaysInYear(d.year)
  {
    MonthsFillYear(d.year);
    DaysBeforeMonthGrows(d.year, d.month, 13);
  }

  /** Comparing two dates field by field agrees with comparing their ordinals. */
  lemma {:induction false} BeforeIffOrdinalLess(a: Date, b: Date)
    ensures Before(a, b) <==> Ordinal(a) < Ordinal(b)
  {
    OrdinalLessWhenBefore(a, b);
    OrdinalLessWhenBefore(b, a);
    if !Before(a, b) && !Before(b, a) {
      assert a == b;
    }
  }

  lemma {:induction false} OrdinalLessWhenBefore(a: Date, b: Date)
    ensures Before(a, b) ==> Ordinal(a) < Ordinal(b)
  {
    if a.year < b.year {
      OrdinalWithinYear(a);
      OrdinalWithinYear(b);
      DaysBeforeYearGrows(a.year, b.year);
    } else if a.year == b.year && a.month < b.month {
      DaysBeforeMonthGrows(a.year, a.month, b.month);
    }
  }

  /** `(b - a).days + 1` is at least one exactly when `b` is not before `a`. */
  lemma DaysBetweenNonNegative(a: Date, b: Date)
    ensures DaysBetween(a, b) >= 0 <==> !Before(b, a)
  {
    BeforeIffOrdinalLess(b, a);
  }
}
