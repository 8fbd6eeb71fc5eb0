/** Gregorian dates of JulianDate: SetDate's closed formula and GregorianDate's search, in the unsigned
    32-bit arithmetic of the code. */
module GregorianDates {
  import opened ModularArithmetic
  import opened Calendar
  import opened Sgp4Ext
  import opened JulianDates
  import opened LeapSeconds

  const MIN_YEAR: int := 1992
  const MAX_YEAR: int := 2099
  const POSIX_1992: int := 8035
  const POSIX_1993: int := 8401
  const POSIX_2100: int := 47482

  datatype DateTime = DateTime(year: int, month: int, day: int, hours: int, minutes: int, seconds: int, millisecs: int)

  predicate ValidClock(dt: DateTime)
  {
    0 <= dt.hours < 24 && 0 <= dt.minutes < 60 && 0 <= dt.seconds < 60 && 0 <= dt.millisecs < 1000
  }

  /** Days since 1 January 1970: 719574 is PosixEpoch - 1721013.5. */
  function PosixDays(year: int, month: int, day: int): int
  {
    DayFormula(year, month, day) - 719574
  }

  function MsOfDay(dt: DateTime): int
  {
    (dt.hours * 3600 + dt.minutes * 60 + dt.seconds) * 1000 + dt.millisecs
  }

  class JulianDate {
    var m_days: nat
    var m_ms_day: nat
    var m_time_scale: TimeSystem

    function Value(): Instant
      reads this
    {
      Instant(m_days, m_ms_day, m_time_scale)
    }

    constructor ()
      ensures Value() == Instant(8035, 0, UTC)
    {
      m_days, m_ms_day, m_time_scale := (1992 - 1970) * 1461 / 4, 0, UTC;
    }

    /** Total milliseconds grow by those of t, modulo 2^32 days; subtracting t again restores the object. */
    method AddAssign(t: int)
      requires Normal(Value())
      modifies this
      ensures Value() == Plus(old(Value()), t)
      ensures Normal(Value()) && Value().scale == old(Value()).scale
      ensures Total(Value()) == (Total(old(Value())) + GetMilliSeconds(t)) % (U32 * DAY_MS)
      ensures Minus(Value(), t) == old(Value())
    {
      ArithmeticIsModular(Value(), t);
      AddSubCancel(Value(), t);
      var v := Plus(Value(), t);
      m_days, m_ms_day, m_time_scale := v.days, v.ms, v.scale;
    }

    /** Total milliseconds shrink by those of t, modulo 2^32 days; adding t again restores the object. */
    method SubAssign(t: int)
      requires Normal(Value())
      modifies this
      ensures Value() == Minus(old(Value()), t)
      ensures Normal(Value()) && Value().scale == old(Value()).scale
      ensures Total(Value()) == (Total(old(Value())) - GetMilliSeconds(t)) % (U32 * DAY_MS)
      ensures Plus(Value(), t) == old(Value())
    {
      ArithmeticIsModular(Value(), t);
      AddSubCancel(Value(), t);
      var v := Minus(Value(), t);
      m_days, m_ms_day, m_time_scale := v.days, v.ms, v.scale;
    }

    /** SetDate of a parsed date: the day count in 32-bit arithmetic, then the shift to UTC. */
    method SetDate(table: Table, dt: DateTime, ts: TimeSystem)
      requires ts != POSIX && 1992 <= dt.year <= 2099
      requires ValidDate(dt.year, dt.month, dt.day) && ValidClock(dt)
      modifies this
      ensures PosixDays(dt.year, dt.month, dt.day) >= 1 && MsOfDay(dt) >= 0
      ensures Normal(Instant(PosixDays(dt.year, dt.month, dt.day), MsOfDay(dt), ts))
      ensures Value() == ToUtc(table, Instant(PosixDays(dt.year, dt.month, dt.day), MsOfDay(dt), ts))
    {
      SupportedDays(dt.year, dt.month, dt.day);
      ClockFits(dt);
      SmallModulus(PosixDays(dt.year, dt.month, dt.day), U32);
      m_days := PosixDays(dt.year, dt.month, dt.day) % U32;
      m_ms_day := MsOfDay(dt);
      m_time_scale := ts;
      AddAssign(MilliSeconds(OffsetToUtc(table, m_days, m_ms_day, m_time_scale)));
    }

    /** The date that ToString prints: the stored instant, shifted to its scale. */
    method Show(table: Table) returns (dt: DateTime)
      requires Normal(Value())
      ensures Normal(FromUtc(table, Value()))
      ensures ShownAs(FromUtc(table, Value()).days, FromUtc(table, Value()).ms, dt)
    {
      ArithmeticIsModular(Value(), MilliSeconds(OffsetFromUtc(table, m_days, m_time_scale)));
      var shifted := Plus(Value(), MilliSeconds(OffsetFromUtc(table, m_days, m_time_scale)));
      dt := GregorianDate(shifted.days, shifted.ms);
    }
  }

  lemma ClockFits(dt: DateTime)
    requires ValidClock(dt)
    ensures 0 <= MsOfDay(dt) < DAY_MS
  {
  }

  /** Supported years have day counts that fit: no intermediate of the formula wraps. */
  lemma SupportedDays(year: int, month: int, day: int)
    requires MIN_YEAR <= year <= MAX_YEAR && ValidDate(year, month, day)
    ensures POSIX_1992 <= PosixDays(year, month, day) < POSIX_2100
    ensures PosixDays(year, month, day) >= POSIX_1993 <==> year > MIN_YEAR
  {
    FormulaCountsDays(year, month, day);
    DayOfYearRange(IsLeapYear(year), month, day);
    YearLength(year);
    YearStartGrows(MIN_YEAR, year);
    YearStartGrows(year + 1, MAX_YEAR + 1);
    if year > MIN_YEAR {
      YearStartGrows(MIN_YEAR + 1, year);
    }
  }

  /** The time of day of GregorianDate. */
  function Clock(ms: nat): (c: (int, int, int, int))
    ensures ms == ((c.0 * 60 + c.1) * 60 + c.2) * 1000 + c.3
    ensures 0 <= c.1 < 60 && 0 <= c.2 < 60 && 0 <= c.3 < 1000
    ensures ms < DAY_MS ==> 0 <= c.0 < 24
  {
    var hours := ms / 3600000;
    var t := ms - hours * 3600000;
    var minutes := t / 60000;
    var t' := t - minutes * 60000;
    (hours, minutes, t' / 1000, t' % 1000)
  }

  /** The guess of the year and the day of that year, in the code's unsigned arithmetic. */
  function GuessedYear(days: nat): int
  {
    4 * ((days - POSIX_1992) % U32) / 1461 + MIN_YEAR
  }

  function GuessedDayOfYear(days: nat): nat
  {
    var year := GuessedYear(days);
    var leapYears := ((year - (MIN_YEAR + 1)) % U32) / 4;
    ((days - POSIX_1992) % U32 - ((year - MIN_YEAR) * 365 + leapYears)) % U32
  }

  function YearDays(year: int): int
  {
    if IsLeapYear(year) then 366 else 365
  }

  /** What the month loop makes of a day of the year. Past the end of the year it finds no month, and
      the month keeps whatever value the uninitialised field had. */
  ghost predicate FoundAs(year: int, dayOfYear: nat, month: int, day: int)
  {
    if dayOfYear == 0 then month == 1 && day == 0
    else if dayOfYear <= YearDays(year) then SplitsTo(IsLeapYear(year), dayOfYear, month, day)
    else day == dayOfYear - YearDays(year)
  }

  lemma MonthFound(year: int, dayOfYear: nat, month: int, day: int)
    requires 1 <= month <= 12 && 0 <= day <= MonthLength(IsLeapYear(year), month)
    requires dayOfYear == DaysBefore(IsLeapYear(year), month) + day && (month > 1 ==> day > 0)
    ensures FoundAs(year, dayOfYear, month, day)
  {
    if day > 0 {
      DayOfYearRange(IsLeapYear(year), month, day);
    }
  }

  method MonthAndDay(year: int, dayOfYear: nat) returns (month: int, day: int)
    ensures FoundAs(year, dayOfYear, month, day)
  {
    var month_days := [31, 28, 31, 30, 31, 30, 31, 31, 30, 31, 30, 31];
    if year % 4 == 0 {
      month_days := month_days[1 := month_days[1] + 1];
    }
    ghost var leap := IsLeapYear(year);
    var days_of_year := dayOfYear;
    month := *;
    var i := 0;
    while i < 12
      invariant 0 <= i <= 12 && |month_days| == 12
      invariant forall m :: 1 <= m <= 12 ==> month_days[m - 1] == MonthLength(leap, m)
      invariant dayOfYear == DaysBefore(leap, i + 1) + days_of_year
      invariant days_of_year >= 0 && (i > 0 ==> days_of_year > 0)
    {
      assert month_days[i] == MonthLength(leap, i + 1);
      if days_of_year <= month_days[i] {
        month := i + 1;
        break;
      }
      days_of_year := days_of_year - month_days[i];
      i := i + 1;
    }
    if i < 12 {
      MonthFound(year, dayOfYear, month, days_of_year);
    } else {
      DaysBeforeTable(leap, 13);
    }
    day := days_of_year;
  }

  /** What GregorianDate makes of a day and a time of day. */
  ghost predicate ShownAs(days: nat, ms_day: nat, dt: DateTime)
  {
    && dt.year == GuessedYear(days)
    && (dt.hours, dt.minutes, dt.seconds, dt.millisecs) == Clock(ms_day)
    && FoundAs(dt.year, GuessedDayOfYear(days), dt.month, dt.day)
  }

  method GregorianDate(days: nat, ms_day: nat) returns (dt: DateTime)
    requires days < U32 && ms_day < U32
    ensures ShownAs(days, ms_day, dt)
  {
    var year, days_of_year := GuessedYear(days), GuessedDayOfYear(days);
    var month, day := MonthAndDay(year, days_of_year);
    var c := Clock(ms_day);
    dt := DateTime(year, month, day, c.0, c.1, c.2, c.3);
  }

  // ---- when GregorianDate is right ----

  lemma LeapYearsPassed(year: int)
    requires year >= 1993
    ensures YearStart(year) == 33603 + (year - MIN_YEAR) * 365 + (year - 1993) / 4
  {
    var k, r := (year - 1993) / 4, (year - 1993) % 4;
    assert year == 1993 + 4 * k + r;
    assert (year - 1901) / 4 == k + 23;
  }

  /** From 1993 on, the guess is the year of the day and what is left is its day of the year. */
  lemma GuessIsRight(days: nat)
    requires POSIX_1993 <= days < U32
    ensures var year := GuessedYear(days);
      && year >= 1993
      && 1 <= GuessedDayOfYear(days) <= YearDays(year)
      && days == 694006 - 719574 + YearStart(year) + GuessedDayOfYear(days)
  {
    var d := days - POSIX_1992;
    SmallModulus(d, U32);
    var n := 4 * d / 1461;
    var year := n + MIN_YEAR;
    assert year == GuessedYear(days);
    assert n >= 1;
    SmallModulus(year - 1993, U32);
    LeapYearsPassed(year);
    YearLength(year);
    var k, r := (year - 1993) / 4, (year - 1993) % 4;
    assert n - 1 == 4 * k + r;
    var doy := d - (n * 365 + k);
    assert 1461 * n <= 4 * d < 1461 * (n + 1);
    assert IsLeapYear(year) <==> r == 3;
    assert 1 <= doy <= if r == 3 then 366 else 365;
    SmallModulus(doy, U32);
  }

  lemma ShownFrom1993(days: nat, ms_day: nat, dt: DateTime)
    requires POSIX_1993 <= days < U32 && ms_day < DAY_MS && ShownAs(days, ms_day, dt)
    ensures ValidDate(dt.year, dt.month, dt.day) && ValidClock(dt)
    ensures PosixDays(dt.year, dt.month, dt.day) == days && MsOfDay(dt) == ms_day
  {
    GuessIsRight(days);
    FormulaCountsDays(dt.year, dt.month, dt.day);
  }

  /** A day d after 1 January 1993 gets a valid date whose day count is d again. */
  method DaysToDateToDays(days: nat, ms_day: nat) returns (dt: DateTime)
    requires 8401 <= days < 4294967296 && ms_day < 86400000
    ensures ValidDate(dt.year, dt.month, dt.day) && ValidClock(dt)
    ensures PosixDays(dt.year, dt.month, dt.day) == days && MsOfDay(dt) == ms_day
  {
    dt := GregorianDate(days, ms_day);
    ShownFrom1993(days, ms_day, dt);
  }

  /** A date from 1993 to 2099 is what its day count is shown as. */
  method DateToDaysToDate(dt: DateTime) returns (shown: DateTime)
    requires 1992 < dt.year <= 2099 && ValidDate(dt.year, dt.month, dt.day) && ValidClock(dt)
    ensures shown == dt
  {
    SupportedDays(dt.year, dt.month, dt.day);
    shown := DaysToDateToDays(PosixDays(dt.year, dt.month, dt.day), MsOfDay(dt));
    DayCountIsInjective(shown.year, shown.month, shown.day, dt.year, dt.month, dt.day);
  }

  /** On every day of 1992 the unsigned year - 1993 wraps, and the day of the year is far past its end. */
  lemma WrapsIn1992(days: nat)
    requires POSIX_1992 <= days < POSIX_1993
    ensures GuessedYear(days) == 1992
    ensures GuessedDayOfYear(days) > YearDays(1992) + 31
  {
    var d := days - POSIX_1992;
    SmallModulus(d, U32);
    assert (1992 - 1993) % U32 == U32 - 1;
    assert d - (0 * 365 + (U32 - 1) / 4) < 0;
    assert GuessedDayOfYear(days) == U32 + d - (U32 - 1) / 4;
  }

  /** So on these days, although documented as supported, the date shown is none, whatever month the
      uninitialised field happens to hold: its day is past every month. */
  lemma NoDateIn1992(days: nat, ms_day: nat, dt: DateTime)
    requires 8035 <= days < 8401 && ShownAs(days, ms_day, dt)
    ensures dt.year == 1992 && dt.day > 31
    ensures !ValidDate(dt.year, dt.month, dt.day)
  {
    WrapsIn1992(days);
  }

  /** Before 1992 the day difference itself wraps, and the year is millions of years too late. */
  lemma WrongYearBefore1992(days: nat)
    requires days < POSIX_1992
    ensures GuessedYear(days) > 11000000
  {
    assert (days - POSIX_1992) % U32 == U32 + days - POSIX_1992;
  }

  /** A year that late starts long after the days of which it is shown. */
  lemma LateYearIsLate(dt: DateTime, days: nat)
    requires dt.year > 11000000 && ValidDate(dt.year, dt.month, dt.day) && days < POSIX_1992
    ensures PosixDays(dt.year, dt.month, dt.day) != days
  {
    FormulaCountsDays(dt.year, dt.month, dt.day);
    DayOfYearRange(IsLeapYear(dt.year), dt.month, dt.day);
    YearStartGrows(1992, dt.year);
  }

  lemma ShownBefore1993(days: nat, ms_day: nat, dt: DateTime)
    requires days < POSIX_1993 && ShownAs(days, ms_day, dt) && ValidDate(dt.year, dt.month, dt.day)
    ensures PosixDays(dt.year, dt.month, dt.day) != days
    ensures dt.year > MAX_YEAR
  {
    if days >= POSIX_1992 {
      NoDateIn1992(days, ms_day, dt);
    } else {
      WrongYearBefore1992(days);
      LateYearIsLate(dt, days);
    }
  }

  /** The exact condition: the date shown is valid and counts back to the day if and only if the day is 1
      January 1993 or later. */
  method ShownDateIsRight(days: nat, ms_day: nat) returns (dt: DateTime, right: bool)
    requires days < U32 && ms_day < DAY_MS
    ensures right <==> ValidDate(dt.year, dt.month, dt.day) && PosixDays(dt.year, dt.month, dt.day) == days
    ensures right <==> days >= 8401
  {
    dt := GregorianDate(days, ms_day);
    right := days >= POSIX_1993;
    if right {
      ShownFrom1993(days, ms_day, dt);
    } else if ValidDate(dt.year, dt.month, dt.day) {
      ShownBefore1993(days, ms_day, dt);
    }
  }

  // ---- a date set in a time scale and shown in it ----

  /** The instant that a date names in its own scale, before the shift to UTC. */
  function Named(dt: DateTime, ts: TimeSystem): Instant
    requires MIN_YEAR <= dt.year <= MAX_YEAR
    requires ValidDate(dt.year, dt.month, dt.day) && ValidClock(dt)
  {
    SupportedDays(dt.year, dt.month, dt.day);
    ClockFits(dt);
    Instant(PosixDays(dt.year, dt.month, dt.day), MsOfDay(dt), ts)
  }

  /** Another instant is never shown as the date dt. */
  lemma ShownOnlyOnce(dt: DateTime, ts: TimeSystem, b: Instant)
    requires MIN_YEAR <= dt.year <= MAX_YEAR
    requires ValidDate(dt.year, dt.month, dt.day) && ValidClock(dt)
    requires Normal(b) && b.scale == ts && ShownAs(b.days, b.ms, dt)
    ensures b == Named(dt, ts) && dt.year > MIN_YEAR
  {
    if b.days < POSIX_1993 {
      ShownBefore1993(b.days, b.ms, dt);
    }
    ShownFrom1993(b.days, b.ms, dt);
    SupportedDays(dt.year, dt.month, dt.day);
  }

  lemma SameParts(x: int, r: int, y: int, s: int, n: int)
    requires n == 60 || n == 1000
    requires 0 <= r < n && 0 <= s < n && x * n + r == y * n + s
    ensures x == y && r == s
  {
  }

  lemma ClockIsInjective(a: DateTime, b: DateTime)
    requires ValidClock(a) && ValidClock(b) && MsOfDay(a) == MsOfDay(b)
    ensures (a.hours, a.minutes, a.seconds, a.millisecs) == (b.hours, b.minutes, b.seconds, b.millisecs)
  {
    var x, y := a.hours * 60 + a.minutes, b.hours * 60 + b.minutes;
    SameParts(x * 60 + a.seconds, a.millisecs, y * 60 + b.seconds, b.millisecs, 1000);
    SameParts(x, a.seconds, y, b.seconds, 60);
    SameParts(a.hours, a.minutes, b.hours, b.minutes, 60);
  }

  /** And the instant it names is shown as dt, from 1993 on. */
  lemma ShownIsNamed(dt: DateTime, ts: TimeSystem, shown: DateTime)
    requires MIN_YEAR < dt.year <= MAX_YEAR
    requires ValidDate(dt.year, dt.month, dt.day) && ValidClock(dt)
    requires ShownAs(Named(dt, ts).days, Named(dt, ts).ms, shown)
    ensures shown == dt
  {
    SupportedDays(dt.year, dt.month, dt.day);
    ClockFits(dt);
    ShownFrom1993(Named(dt, ts).days, Named(dt, ts).ms, shown);
    DayCountIsInjective(shown.year, shown.month, shown.day, dt.year, dt.month, dt.day);
    ClockIsInjective(shown, dt);
  }

  /** SetDate followed by ToString: every date from 1993 to 2099 comes back as it was given, in UTC, TAI
      and TT, exactly unless it lies in the one-second window after a table entry; no date of 1992 does. */
  method SetThenShow(table: Table, dt: DateTime, ts: TimeSystem) returns (shown: DateTime)
    requires Usable(table) && ts != POSIX && 1992 <= dt.year <= 2099
    requires ValidDate(dt.year, dt.month, dt.day) && ValidClock(dt)
    ensures Named(dt, ts).days >= 1
    ensures shown == dt <==> dt.year > 1992 && !InLeapWindow(table, Named(dt, ts))
  {
    SupportedDays(dt.year, dt.month, dt.day);
    ghost var a := Named(dt, ts);
    ScaleRoundTrip(table, a);
    var jd := new JulianDate();
    jd.SetDate(table, dt, ts);
    shown := jd.Show(table);
    ghost var b := FromUtc(table, ToUtc(table, a));
    assert ShownAs(b.days, b.ms, shown);
    if shown == dt {
      ShownOnlyOnce(dt, ts, b);
    } else if dt.year > MIN_YEAR && !InLeapWindow(table, a) {
      ShownIsNamed(dt, ts, shown);
    }
  }

  // ---- agreement with the calendar of the orbit library ----

  /** The Julian date that jday gives a date is the POSIX day count that SetDate gives it, from 2440587.5. */
  lemma JdayAgrees(dt: DateTime)
    requires ValidClock(dt)
    ensures Jday(dt.year, dt.month, dt.day, dt.hours, dt.minutes, dt.seconds as real + dt.millisecs as real / 1000.0)
         == 2440587.5 + PosixDays(dt.year, dt.month, dt.day) as real + MsOfDay(dt) as real / 86400000.0
  {
  }

  /** Both calendars show every instant from 1993 on as the same date and time. */
  method BothCalendarsAgree(days: nat, ms_day: nat)
    returns (dt: DateTime, year: int, mon: int, day: int, hr: int, minute: int, sec: real)
    requires 8401 <= days < 4294967296 && ms_day < 86400000
    ensures PosixDays(dt.year, dt.month, dt.day) == days && MsOfDay(dt) == ms_day
    ensures Jday(year, mon, day, hr, minute, sec) == 2440587.5 + days as real + ms_day as real / 86400000.0
    ensures (year, mon, day, hr, minute) == (dt.year, dt.month, dt.day, dt.hours, dt.minutes)
    ensures sec == dt.seconds as real + dt.millisecs as real / 1000.0
  {
    dt := DaysToDateToDays(days, ms_day);
    JdayAgrees(dt);
    year, mon, day, hr, minute, sec := Invjday(2440587.5 + days as real + ms_day as real / 86400000.0);
    var s := dt.seconds as real + dt.millisecs as real / 1000.0;
    JdayIsInjective(year, mon, day, hr, minute, sec, dt.year, dt.month, dt.day, dt.hours, dt.minutes, s);
  }
}
