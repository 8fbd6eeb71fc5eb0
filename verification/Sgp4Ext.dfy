/** The calendar of the orbit library, in exact arithmetic: jday, days2mdhms and invjday. */
module Sgp4Ext {
  import opened Calendar

  predicate ValidTime(hr: int, minute: int, sec: real)
  {
    0 <= hr < 24 && 0 <= minute < 60 && 0.0 <= sec < 60.0
  }

  /** The time of day as a fraction of a day. */
  function DayFraction(hr: int, minute: int, sec: real): real
  {
    ((sec / 60.0 + minute as real) / 60.0 + hr as real) / 24.0
  }

  /** Julian date; each floor of the formula rounds an integer quotient down. */
  function Jday(year: int, mon: int, day: int, hr: int, minute: int, sec: real): real
  {
    DayFormula(year, mon, day) as real + 1721013.5 + DayFraction(hr, minute, sec)
  }

  lemma FractionIsBelowOne(hr: int, minute: int, sec: real)
    requires ValidTime(hr, minute, sec)
    ensures 0.0 <= DayFraction(hr, minute, sec) < 1.0
  {
  }

  /** Month, day and time of a day of the year. */
  method Days2mdhms(year: int, days: real) returns (mon: int, day: int, hr: int, minute: int, sec: real)
    ensures ValidTime(hr, minute, sec)
    ensures days == days.Floor as real + DayFraction(hr, minute, sec)
    ensures 1.0 <= days && days.Floor <= (if IsLeapYear(year) then 366 else 365) ==>
              SplitsTo(IsLeapYear(year), days.Floor, mon, day)
  {
    var lmonth := [31, 28, 31, 30, 31, 30, 31, 31, 30, 31, 30, 31];
    var dayofyr := days.Floor;
    if year % 4 == 0 {
      lmonth := lmonth[1 := 29];
    }
    ghost var leap := IsLeapYear(year);
    var i, inttemp := 1, 0;
    while dayofyr > inttemp + lmonth[i - 1] && i < 12
      invariant 1 <= i <= 12 && |lmonth| == 12
      invariant forall m :: 1 <= m <= 12 ==> lmonth[m - 1] == MonthLength(leap, m)
      invariant inttemp == DaysBefore(leap, i)
      invariant i > 1 ==> dayofyr > inttemp
      decreases 12 - i
    {
      inttemp := inttemp + lmonth[i - 1];
      i := i + 1;
    }
    mon := i;
    day := dayofyr - inttemp;
    DaysBeforeTable(leap, 12);
    var temp := (days - dayofyr as real) * 24.0;
    hr := temp.Floor;
    temp := (temp - hr as real) * 60.0;
    minute := temp.Floor;
    sec := (temp - minute as real) * 60.0;
  }

  lemma YearStartBounds(year: int)
    ensures 365.25 * (year - 1900) as real <= YearStart(year) as real + 1.0 <= 365.25 * (year - 1900) as real + 0.75
  {
    var n := year - 1900;
    var k, r := (n - 1) / 4, (n - 1) % 4;
    assert n - 1 == 4 * k + r;
    assert YearStart(year) == 365 * n + k;
  }

  /** The first guess of the year is never low and at most one high: a day t after the eve of 1900 lies
      in the guessed year or the one before. */
  lemma GuessIsClose(t: real)
    ensures
      var year := 1900 + (t / 365.25).Floor;
      YearStart(year - 1) as real + 1.0 <= t < YearStart(year + 1) as real + 1.0
  {
    var year := 1900 + (t / 365.25).Floor;
    YearStartBounds(year);
    YearStartBounds(year + 1);
    YearLength(year - 1);
    var q := (t / 365.25).Floor;
    assert q as real <= t / 365.25 < q as real + 1.0;
  }

  /** Every instant gets a valid date and time of which it is the Julian date. */
  method Invjday(jd: real) returns (year: int, mon: int, day: int, hr: int, minute: int, sec: real)
    ensures ValidDate(year, mon, day) && ValidTime(hr, minute, sec)
    ensures Jday(year, mon, day, hr, minute, sec) == jd
  {
    var temp := jd - 2415019.5;
    var tu := temp / 365.25;
    year := 1900 + tu.Floor;
    GuessIsClose(temp);
    var leapyrs := (year - 1901) / 4;
    var days := temp - (365 * (year - 1900) + leapyrs) as real;
    YearLength(year);
    if days < 1.0 {
      year := year - 1;
      leapyrs := (year - 1901) / 4;
      days := temp - (365 * (year - 1900) + leapyrs) as real;
      YearLength(year);
    }
    assert days == temp - YearStart(year) as real;
    mon, day, hr, minute, sec := Days2mdhms(year, days);
    FormulaCountsDays(year, mon, day);
  }

  /** No two dates and times share a Julian date, so Invjday also undoes Jday. */
  lemma JdayIsInjective(year: int, mon: int, day: int, hr: int, minute: int, sec: real,
                        year': int, mon': int, day': int, hr': int, minute': int, sec': real)
    requires ValidDate(year, mon, day) && ValidTime(hr, minute, sec)
    requires ValidDate(year', mon', day') && ValidTime(hr', minute', sec')
    requires Jday(year, mon, day, hr, minute, sec) == Jday(year', mon', day', hr', minute', sec')
    ensures year == year' && mon == mon' && day == day' && hr == hr' && minute == minute' && sec == sec'
  {
    FractionIsBelowOne(hr, minute, sec);
    FractionIsBelowOne(hr', minute', sec');
    DayCountIsInjective(year, mon, day, year', mon', day');
    FractionIsInjective(hr, minute, sec, hr', minute', sec');
  }

  lemma FractionIsInjective(hr: int, minute: int, sec: real, hr': int, minute': int, sec': real)
    requires ValidTime(hr, minute, sec) && ValidTime(hr', minute', sec')
    requires DayFraction(hr, minute, sec) == DayFraction(hr', minute', sec')
    ensures hr == hr' && minute == minute' && sec == sec'
  {
    var m, m' := sec / 60.0 + minute as real, sec' / 60.0 + minute' as real;
    assert 0.0 <= m / 60.0 < 1.0 && 0.0 <= m' / 60.0 < 1.0;
    assert m / 60.0 + hr as real == m' / 60.0 + hr' as real;
  }

  /** The round trip the other way, as a check of both. */
  method JdayThenInvjday(year: int, mon: int, day: int, hr: int, minute: int, sec: real)
    returns (year': int, mon': int, day': int, hr': int, minute': int, sec': real)
    requires ValidDate(year, mon, day) && ValidTime(hr, minute, sec)
    ensures year' == year && mon' == mon && day' == day && hr' == hr && minute' == minute && sec' == sec
  {
    year', mon', day', hr', minute', sec' := Invjday(Jday(year, mon, day, hr, minute, sec));
    JdayIsInjective(year, mon, day, hr, minute, sec, year', mon', day', hr', minute', sec');
  }

  lemma JdayOfEpoch()
    ensures Jday(1970, 1, 1, 0, 0, 0.0) == 2440587.5
  {
    FormulaCountsDays(1970, 1, 1);
  }

  lemma JdayStep(n: Date, d: Date, hr: int, minute: int, sec: real)
    requires DayFormula(n.year, n.month, n.day) == DayFormula(d.year, d.month, d.day) + 1
    ensures Jday(n.year, n.month, n.day, hr, minute, sec) == Jday(d.year, d.month, d.day, hr, minute, sec) + 1.0
  {
  }

  /** jday advances by exactly one from each day to the next, and is 2440587.5 on 1 January 1970. */
  lemma JdayCountsDays(d: Date, hr: int, minute: int, sec: real)
    requires ValidDate(d.year, d.month, d.day)
    ensures var n := NextDay(d);
            Jday(n.year, n.month, n.day, hr, minute, sec) == Jday(d.year, d.month, d.day, hr, minute, sec) + 1.0
    ensures Jday(1970, 1, 1, 0, 0, 0.0) == 2440587.5
  {
    FormulaAdvancesByOne(d);
    JdayStep(NextDay(d), d, hr, minute, sec);
    JdayOfEpoch();
  }
}
