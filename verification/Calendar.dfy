/** The year%4 calendar that both date implementations follow, and its day count. */
module Calendar {

  predicate IsLeapYear(year: int)
  {
    year % 4 == 0
  }

  function MonthLength(leap: bool, month: int): int
  {
    if month == 2 then if leap then 29 else 28
    else if month == 4 || month == 6 || month == 9 || month == 11 then 30
    else 31
  }

  predicate ValidDate(year: int, month: int, day: int)
  {
    1 <= month <= 12 && 1 <= day <= MonthLength(IsLeapYear(year), month)
  }

  datatype Date = Date(year: int, month: int, day: int)

  /** The day after a date: the reference for both day counts. */
  function NextDay(d: Date): Date
  {
    if d.day < MonthLength(IsLeapYear(d.year), d.month) then Date(d.year, d.month, d.day + 1)
    else if d.month < 12 then Date(d.year, d.month + 1, 1)
    else Date(d.year + 1, 1, 1)
  }

  /** Days of the year before the first of a month. */
  function DaysBefore(leap: bool, month: int): int
    requires 1 <= month <= 13
    decreases month
  {
    if month == 1 then 0 else DaysBefore(leap, month - 1) + MonthLength(leap, month - 1)
  }

  /** The closed formula shared by jday and SetDate, without their constants. / rounds down. */
  function DayFormula(year: int, month: int, day: int): int
  {
    367 * year - 7 * (year + (month + 9) / 12) / 4 + 275 * month / 9 + day
  }

  /** Days before 1 January of a year, counted so that 1 January 1901 is day 1 of year 1901. */
  function YearStart(year: int): int
  {
    365 * (year - 1900) + (year - 1901) / 4
  }

  lemma DaysBeforeTable(leap: bool, month: int)
    requires 1 <= month <= 13
    ensures DaysBefore(leap, month) ==
      (if month == 1 then 0 else if month == 2 then 31 else if month == 3 then 59 else if month == 4 then 90
       else if month == 5 then 120 else if month == 6 then 151 else if month == 7 then 181 else if month == 8 then 212
       else if month == 9 then 243 else if month == 10 then 273 else if month == 11 then 304
       else if month == 12 then 334
       else 365) + (if leap && month > 2 then 1 else 0)
  {
    if month > 1 { DaysBeforeTable(leap, month - 1); }
  }

  /** The year terms of the formula, for January and February and for the other months. */
  lemma YearTerms(year: int)
    ensures 367 * year - 7 * year / 4 == 693976 + YearStart(year)
    ensures 367 * year - 7 * (year + 1) / 4 == 693974 + YearStart(year) + (if IsLeapYear(year) then 1 else 0)
  {
    var k, r := year / 4, year % 4;
    assert year == 4 * k + r && (r == 0 || r == 1 || r == 2 || r == 3);
    if r == 0 {
      assert 7 * year / 4 == 7 * k && 7 * (year + 1) / 4 == 7 * k + 1 && (year - 1901) / 4 == k - 476;
    } else if r == 1 {
      assert 7 * year / 4 == 7 * k + 1 && 7 * (year + 1) / 4 == 7 * k + 3 && (year - 1901) / 4 == k - 475;
    } else if r == 2 {
      assert 7 * year / 4 == 7 * k + 3 && 7 * (year + 1) / 4 == 7 * k + 5 && (year - 1901) / 4 == k - 475;
    } else {
      assert 7 * year / 4 == 7 * k + 5 && 7 * (year + 1) / 4 == 7 * k + 7 && (year - 1901) / 4 == k - 475;
    }
  }

  lemma MonthTerms(month: int)
    requires 1 <= month <= 12
    ensures (month + 9) / 12 == if month <= 2 then 0 else 1
    ensures 275 * month / 9 == 30 + DaysBefore(false, month) + (if month <= 2 then 0 else 2)
  {
    DaysBeforeTable(false, month);
  }

  /** The formula counts days: the start of the year, the months before, and the day. */
  lemma FormulaCountsDays(year: int, month: int, day: int)
    requires 1 <= month <= 12
    ensures DayFormula(year, month, day) == 694006 + YearStart(year) + DaysBefore(IsLeapYear(year), month) + day
  {
    YearTerms(year);
    MonthTerms(month);
    DaysBeforeTable(false, month);
    DaysBeforeTable(IsLeapYear(year), month);
  }

  lemma YearLength(year: int)
    ensures YearStart(year + 1) == YearStart(year) + (if IsLeapYear(year) then 366 else 365)
  {
    var k, r := year / 4, year % 4;
    assert year == 4 * k + r;
    assert (year - 1901) / 4 == k - 476 + (if r == 0 then 0 else 1);
    assert (year - 1900) / 4 == k - 475;
  }

  lemma FormulaAtMonthEnd(year: int, month: int)
    requires 1 <= month < 12
    ensures DayFormula(year, month + 1, 1) == DayFormula(year, month, MonthLength(IsLeapYear(year), month)) + 1
  {
    FormulaCountsDays(year, month, MonthLength(IsLeapYear(year), month));
    FormulaCountsDays(year, month + 1, 1);
  }

  lemma FormulaAtYearEnd(year: int)
    ensures DayFormula(year + 1, 1, 1) == DayFormula(year, 12, 31) + 1
  {
    FormulaCountsDays(year, 12, 31);
    FormulaCountsDays(year + 1, 1, 1);
    YearLength(year);
    DaysBeforeTable(IsLeapYear(year), 12);
  }

  /** From one day to the next the count advances by exactly one, across every month and year end. */
  lemma FormulaAdvancesByOne(d: Date)
    requires ValidDate(d.year, d.month, d.day)
    ensures var n := NextDay(d);
            && ValidDate(n.year, n.month, n.day)
            && DayFormula(n.year, n.month, n.day) == DayFormula(d.year, d.month, d.day) + 1
  {
    if d.day < MonthLength(IsLeapYear(d.year), d.month) {
    } else if d.month < 12 {
      FormulaAtMonthEnd(d.year, d.month);
    } else {
      FormulaAtYearEnd(d.year);
    }
  }

  // ---- a day of the year, as month and day ----

  /** doy is the given day of the given month. */
  predicate SplitsTo(leap: bool, doy: int, month: int, day: int)
  {
    1 <= month <= 12 && 1 <= day <= MonthLength(leap, month) && doy == DaysBefore(leap, month) + day
  }

  lemma {:induction false} DaysBeforeGrows(leap: bool, m: int, n: int)
    requires 1 <= m < n <= 13
    ensures DaysBefore(leap, m) + MonthLength(leap, m) <= DaysBefore(leap, n)
    decreases n
  {
    if m + 1 < n {
      DaysBeforeGrows(leap, m, n - 1);
    }
  }

  lemma SplitIsUnique(leap: bool, doy: int, month: int, day: int, month': int, day': int)
    requires SplitsTo(leap, doy, month, day) && SplitsTo(leap, doy, month', day')
    ensures month == month' && day == day'
  {
    if month < month' {
      DaysBeforeGrows(leap, month, month');
    } else if month' < month {
      DaysBeforeGrows(leap, month', month);
    }
  }

  lemma DayOfYearRange(leap: bool, month: int, day: int)
    requires 1 <= month <= 12 && 1 <= day <= MonthLength(leap, month)
    ensures 1 <= DaysBefore(leap, month) + day <= if leap then 366 else 365
  {
    DaysBeforeTable(leap, month);
  }

  lemma {:induction false} YearStartGrows(y: int, z: int)
    requires y <= z
    ensures YearStart(y) + 365 * (z - y) <= YearStart(z)
    decreases z - y
  {
    if y < z {
      YearStartGrows(y, z - 1);
      YearLength(z - 1);
    }
  }

  /** The count tells all dates apart. */
  lemma DayCountIsInjective(y: int, m: int, d: int, y': int, m': int, d': int)
    requires ValidDate(y, m, d) && ValidDate(y', m', d')
    requires DayFormula(y, m, d) == DayFormula(y', m', d')
    ensures y == y' && m == m' && d == d'
  {
    FormulaCountsDays(y, m, d);
    FormulaCountsDays(y', m', d');
    DayOfYearRange(IsLeapYear(y), m, d);
    DayOfYearRange(IsLeapYear(y'), m', d');
    YearLength(y);
    YearLength(y');
    if y < y' {
      YearStartGrows(y + 1, y');
    } else if y' < y {
      YearStartGrows(y' + 1, y);
    } else {
      SplitIsUnique(IsLeapYear(y), DaysBefore(IsLeapYear(y), m) + d, m, d, m', d');
    }
  }
}
