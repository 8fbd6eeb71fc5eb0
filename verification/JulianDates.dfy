/** JulianDate: whole days since the POSIX epoch in an unsigned 32-bit field, and milliseconds of the day. */
module JulianDates {
  import opened ModularArithmetic

  datatype TimeSystem = UTC | POSIX | TAI | TT

  const U32: int := 0x1_0000_0000
  const DAY_MS: int := 86400000
  const NS_PER_MS: int := 1000000

  datatype Instant = Instant(days: nat, ms: nat, scale: TimeSystem)

  /** The fields fit and the time of day is normalised. */
  predicate Normal(a: Instant)
  {
    a.days < U32 && a.ms < DAY_MS
  }

  function Total(a: Instant): int
  {
    a.days * DAY_MS + a.ms
  }

  // ---- ns3::Time, in nanoseconds ----

  function MilliSeconds(ms: int): int
  {
    ms * NS_PER_MS
  }

  /** Time::GetMilliSeconds truncates towards zero. */
  function GetMilliSeconds(t: int): int
  {
    if t >= 0 then t / NS_PER_MS else -((-t) / NS_PER_MS)
  }

  function GetDays(t: int): int
    requires t >= 0
  {
    t / (DAY_MS * NS_PER_MS)
  }

  // ---- operator+ and operator-, mutually recursive on the sign ----

  function Plus(a: Instant, t: int): Instant
    requires Normal(a)
    decreases if t < 0 then 1 else 0
  {
    if t < 0 then Minus(a, MilliSeconds(-GetMilliSeconds(t)))
    else
      var days := GetDays(t) % U32;
      var ms := GetMilliSeconds(t) % DAY_MS + a.ms;
      Instant((days + a.days + ms / DAY_MS) % U32, ms % DAY_MS, a.scale)
  }

  function Minus(a: Instant, t: int): Instant
    requires Normal(a)
    decreases if t < 0 then 1 else 0
  {
    if t < 0 then Plus(a, MilliSeconds(-GetMilliSeconds(t)))
    else
      var days := GetDays(t) % U32;
      var ms := GetMilliSeconds(t) % DAY_MS;
      if ms > a.ms then Instant((a.days - (days + 1) % U32) % U32, DAY_MS - (ms - a.ms), a.scale)
      else Instant((a.days - days) % U32, a.ms - ms, a.scale)
  }

  /** The difference of two instants as a Time; days beyond MAX_TIME_DAYS would not fit a Time. */
  const MAX_TIME_DAYS: int := 106750

  function Difference(a: Instant, b: Instant): int
    requires Normal(a) && Normal(b) && a.days <= MAX_TIME_DAYS && b.days <= MAX_TIME_DAYS
  {
    MilliSeconds(a.days * DAY_MS + a.ms) - MilliSeconds(b.days * DAY_MS + b.ms)
  }

  lemma TimeParts(t: int)
    requires t >= 0
    ensures GetMilliSeconds(t) == GetDays(t) * DAY_MS + GetMilliSeconds(t) % DAY_MS
  {
    var q, r := t / NS_PER_MS, t % NS_PER_MS;
    assert t == q * NS_PER_MS + r;
    var d, s := q / DAY_MS, q % DAY_MS;
    assert t == d * (DAY_MS * NS_PER_MS) + (s * NS_PER_MS + r);
    assert 0 <= s * NS_PER_MS + r < DAY_MS * NS_PER_MS;
  }

  lemma WrapDays(x: int, y: int)
    requires 0 <= y < DAY_MS
    ensures (x % U32) * DAY_MS + y == (x * DAY_MS + y) % (U32 * DAY_MS)
  {
    var q := x / U32;
    assert x == q * U32 + x % U32;
    assert x * DAY_MS + y == q * (U32 * DAY_MS) + ((x % U32) * DAY_MS + y);
    assert 0 <= (x % U32) * DAY_MS + y < U32 * DAY_MS;
  }

  /** Both operators stay normalised and are integer arithmetic on total milliseconds, modulo 2^32 days,
      for every Time of either sign. */
  lemma ArithmeticIsModular(a: Instant, t: int)
    requires Normal(a)
    ensures Normal(Plus(a, t)) && Total(Plus(a, t)) == (Total(a) + GetMilliSeconds(t)) % (U32 * DAY_MS)
    ensures Normal(Minus(a, t)) && Total(Minus(a, t)) == (Total(a) - GetMilliSeconds(t)) % (U32 * DAY_MS)
    ensures Plus(a, t).scale == a.scale && Minus(a, t).scale == a.scale
  {
    if t >= 0 {
      ForwardIsModular(a, t);
    } else {
      ForwardIsModular(a, MilliSeconds(-GetMilliSeconds(t)));
    }
  }

  lemma ForwardIsModular(a: Instant, t: int)
    requires Normal(a) && t >= 0
    ensures Normal(Plus(a, t)) && Total(Plus(a, t)) == (Total(a) + GetMilliSeconds(t)) % (U32 * DAY_MS)
    ensures Normal(Minus(a, t)) && Total(Minus(a, t)) == (Total(a) - GetMilliSeconds(t)) % (U32 * DAY_MS)
  {
    PlusIsModular(a, t);
    MinusIsModular(a, t);
  }

  lemma PlusIsModular(a: Instant, t: int)
    requires Normal(a) && t >= 0
    ensures Normal(Plus(a, t)) && Total(Plus(a, t)) == (Total(a) + GetMilliSeconds(t)) % (U32 * DAY_MS)
  {
    TimeParts(t);
    var d, sum := GetDays(t), GetMilliSeconds(t) % DAY_MS + a.ms;
    Reduce(d, a.days + sum / DAY_MS, U32);
    WrapDays(d + a.days + sum / DAY_MS, sum % DAY_MS);
  }

  lemma BorrowDays(x: int, d: int)
    ensures (x - (d % U32 + 1) % U32) % U32 == (x - d - 1) % U32
  {
    Reduce(d, 1, U32);
    ReduceSubtrahend(x, d + 1, U32);
  }

  lemma MinusIsModular(a: Instant, t: int)
    requires Normal(a) && t >= 0
    ensures Normal(Minus(a, t)) && Total(Minus(a, t)) == (Total(a) - GetMilliSeconds(t)) % (U32 * DAY_MS)
  {
    TimeParts(t);
    var d, ms := GetDays(t), GetMilliSeconds(t) % DAY_MS;
    if ms > a.ms {
      BorrowDays(a.days, d);
      WrapDays(a.days - d - 1, DAY_MS - (ms - a.ms));
    } else {
      ReduceSubtrahend(a.days, d, U32);
      WrapDays(a.days - d, a.ms - ms);
    }
  }

  lemma TotalIsInjective(a: Instant, b: Instant)
    requires Normal(a) && Normal(b) && Total(a) == Total(b) && a.scale == b.scale
    ensures a == b
  {
  }

  /** Total milliseconds, moved by m and back by m. */
  lemma ThereAndBack(x: int, y: int, z: int, m: int)
    requires 0 <= x < U32 * DAY_MS
    requires y == (x + m) % (U32 * DAY_MS) && z == (y - m) % (U32 * DAY_MS)
    ensures z == x
  {
    TakeBack(x, m, U32 * DAY_MS);
  }

  lemma AddThenSub(a: Instant, t: int)
    requires Normal(a)
    ensures Normal(Plus(a, t)) && Minus(Plus(a, t), t) == a
  {
    ArithmeticIsModular(a, t);
    ArithmeticIsModular(Plus(a, t), t);
    ThereAndBack(Total(a), Total(Plus(a, t)), Total(Minus(Plus(a, t), t)), GetMilliSeconds(t));
    TotalIsInjective(a, Minus(Plus(a, t), t));
  }

  lemma SubThenAdd(a: Instant, t: int)
    requires Normal(a)
    ensures Normal(Minus(a, t)) && Plus(Minus(a, t), t) == a
  {
    ArithmeticIsModular(a, t);
    ArithmeticIsModular(Minus(a, t), t);
    ThereAndBack(Total(a), Total(Minus(a, t)), Total(Plus(Minus(a, t), t)), -GetMilliSeconds(t));
    TotalIsInjective(a, Plus(Minus(a, t), t));
  }

  /** Adding and subtracting the same Time cancel, in either order, whatever its sign. */
  lemma AddSubCancel(a: Instant, t: int)
    requires Normal(a)
    ensures Normal(Plus(a, t)) && Minus(Plus(a, t), t) == a
    ensures Normal(Minus(a, t)) && Plus(Minus(a, t), t) == a
  {
    AddThenSub(a, t);
    SubThenAdd(a, t);
  }

  /** a + (b - a) is b, on the time scale of a. */
  lemma AddDifference(a: Instant, b: Instant)
    requires Normal(a) && Normal(b) && a.days <= 106750 && b.days <= 106750
    ensures Plus(a, Difference(b, a)) == b.(scale := a.scale)
  {
    var t := Difference(b, a);
    assert t == (Total(b) - Total(a)) * NS_PER_MS;
    assert GetMilliSeconds(t) == Total(b) - Total(a);
    ArithmeticIsModular(a, t);
    SmallModulus(Total(b), U32 * DAY_MS);
    TotalIsInjective(Plus(a, t), b.(scale := a.scale));
  }

  /** The result is plain integer arithmetic exactly when it does not leave the range of the fields. */
  lemma PlainArithmetic(a: Instant, t: int)
    requires Normal(a)
    ensures Total(Plus(a, t)) == Total(a) + GetMilliSeconds(t) <==> 0 <= Total(a) + GetMilliSeconds(t) < U32 * DAY_MS
    ensures Total(Minus(a, t)) == Total(a) - GetMilliSeconds(t) <==> 0 <= Total(a) - GetMilliSeconds(t) < U32 * DAY_MS
  {
    ArithmeticIsModular(a, t);
    InRange(Total(a) + GetMilliSeconds(t), U32 * DAY_MS);
    InRange(Total(a) - GetMilliSeconds(t), U32 * DAY_MS);
  }

  // ---- the six comparisons ----

  predicate Less(a: Instant, b: Instant) { if a.days != b.days then a.days < b.days else a.ms < b.ms }

  predicate LessEq(a: Instant, b: Instant) { if a.days != b.days then a.days < b.days else a.ms <= b.ms }

  predicate Greater(a: Instant, b: Instant) { if a.days != b.days then a.days > b.days else a.ms > b.ms }

  predicate GreaterEq(a: Instant, b: Instant) { if a.days != b.days then a.days > b.days else a.ms >= b.ms }

  predicate Equal(a: Instant, b: Instant) { if a.days != b.days then false else a.ms == b.ms }

  predicate NotEqual(a: Instant, b: Instant) { if a.days != b.days then true else a.ms != b.ms }

  /** All six agree with the sign of the difference. */
  lemma ComparisonsAgree(a: Instant, b: Instant)
    requires Normal(a) && Normal(b) && a.days <= 106750 && b.days <= 106750
    ensures Less(a, b) <==> Difference(a, b) < 0
    ensures LessEq(a, b) <==> Difference(a, b) <= 0
    ensures Greater(a, b) <==> Difference(a, b) > 0
    ensures GreaterEq(a, b) <==> Difference(a, b) >= 0
    ensures Equal(a, b) <==> Difference(a, b) == 0
    ensures NotEqual(a, b) <==> Difference(a, b) != 0
  {
    assert Difference(a, b) == (Total(a) - Total(b)) * NS_PER_MS;
  }

  // ---- units ----

  /** Time::GetMilliSeconds is the whole milliseconds of a Time, of 1000000 nanoseconds, towards zero. */
  lemma Truncates(t: int)
    ensures GetMilliSeconds(1000000) == 1
    ensures t >= 0 ==> 0 <= t - 1000000 * GetMilliSeconds(t) < 1000000
    ensures t <= 0 ==> -1000000 < t - 1000000 * GetMilliSeconds(t) <= 0
  {
  }

  /** Within the range of the fields, a Time moves the total by its milliseconds. */
  lemma MovesBy(a: Instant, t: int, b: Instant)
    requires Normal(a) && Normal(b) && a.scale == b.scale && Total(b) == Total(a) + GetMilliSeconds(t)
    ensures Plus(a, t) == b && Minus(b, t) == a
  {
    ArithmeticIsModular(a, t);
    ArithmeticIsModular(b, t);
    SmallModulus(Total(a), U32 * DAY_MS);
    SmallModulus(Total(b), U32 * DAY_MS);
    TotalIsInjective(Plus(a, t), b);
    TotalIsInjective(Minus(b, t), a);
  }

  lemma AfterTheLast(a: Instant, t: int)
    requires Normal(a) && Total(a) + GetMilliSeconds(t) == U32 * DAY_MS
    ensures Plus(a, t) == Instant(0, 0, a.scale)
  {
    ArithmeticIsModular(a, t);
    AddMultiple(0, 1, U32 * DAY_MS);
    TotalIsInjective(Plus(a, t), Instant(0, 0, a.scale));
  }

  /** A Time of 86400000000000 nanoseconds is a day and one of 1000000 a millisecond; after 23:59:59.999 comes
      the next day, and after day 4294967295 comes day 0. */
  lemma UnitsOfTime(a: Instant)
    requires a.days < 4294967296 && a.ms < 86400000
    ensures a.days < 4294967295 ==> Plus(a, 86400000000000) == a.(days := a.days + 1)
    ensures a.days > 0 ==> Minus(a, 86400000000000) == a.(days := a.days - 1)
    ensures Plus(a, 1000000) ==
            if a.ms < 86399999 then a.(ms := a.ms + 1)
            else if a.days < 4294967295 then Instant(a.days + 1, 0, a.scale)
            else Instant(0, 0, a.scale)
  {
    if a.days < 4294967295 {
      MovesBy(a, 86400000000000, a.(days := a.days + 1));
    }
    if a.days > 0 {
      MovesBy(a.(days := a.days - 1), 86400000000000, a);
    }
    if a.ms < 86399999 {
      MovesBy(a, 1000000, a.(ms := a.ms + 1));
    } else if a.days < 4294967295 {
      MovesBy(a, 1000000, Instant(a.days + 1, 0, a.scale));
    } else {
      AfterTheLast(a, 1000000);
    }
  }

  /** A day lies between two instants with the same time of day on successive days. */
  lemma DayBetween(a: Instant)
    requires a.days < 106750 && a.ms < 86400000
    ensures Difference(a.(days := a.days + 1), a) == 86400000000000
  {
  }
}
