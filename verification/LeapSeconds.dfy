/** Conversion between UTC and the time scales that count leap seconds. */
module LeapSeconds {
  import opened ModularArithmetic
  import opened JulianDates

  /** The leap-second list and the offset before its first entry, in seconds. */
  datatype Table = Table(entries: seq<nat>, base: nat)

  const TT_TO_TAI_MS: int := 32184

  ghost predicate Ascending(v: seq<nat>)
  {
    forall i, j :: 0 <= i < j < |v| ==> v[i] < v[j]
  }

  /** std::lower_bound: the index of the first entry that is not below x. */
  function LowerBound(v: seq<nat>, x: nat): (n: nat)
    ensures n <= |v|
    ensures forall i :: 0 <= i < n ==> v[i] < x
    ensures n < |v| ==> v[n] >= x
  {
    if v == [] || v[0] >= x then 0 else 1 + LowerBound(v[1..], x)
  }

  /** Seconds; the code wraps them as a Time of whole seconds. */
  function TaiMinusUtc(table: Table, day: nat): nat
  {
    LowerBound(table.entries, day) + table.base
  }

  /** The offset of a scale from UTC on a UTC day, in milliseconds. */
  function OffsetFromUtc(table: Table, day: nat, ts: TimeSystem): int
  {
    match ts
    case TAI => TaiMinusUtc(table, day) * 1000
    case TT => TT_TO_TAI_MS + TaiMinusUtc(table, day) * 1000
    case UTC => 0
    case POSIX => 0
  }

  /** The (negative) offset to UTC of a day and time given in a scale. If in UTC it is still the day
      before, the leap seconds of that day count. */
  function OffsetToUtc(table: Table, day: nat, ms: nat, ts: TimeSystem): int
    requires day >= 1
  {
    if ts == UTC || ts == POSIX then 0
    else
      var offset := if ts == TT then TT_TO_TAI_MS else 0;
      var today := TaiMinusUtc(table, day) * 1000;
      var taiUtc := if ms < offset + today then TaiMinusUtc(table, day - 1) * 1000 else today;
      -(offset + taiUtc)
  }

  /** A date given in a scale, as SetDate stores it: shifted to UTC. */
  function ToUtc(table: Table, a: Instant): Instant
    requires Normal(a) && a.days >= 1
  {
    Plus(a, MilliSeconds(OffsetToUtc(table, a.days, a.ms, a.scale)))
  }

  /** A stored date shown in its scale, as ToString does it. */
  function FromUtc(table: Table, u: Instant): Instant
    requires Normal(u)
  {
    Plus(u, MilliSeconds(OffsetFromUtc(table, u.days, u.scale)))
  }

  /** All offsets stay below a day. */
  ghost predicate Usable(table: Table)
  {
    Ascending(table.entries) && TT_TO_TAI_MS + (table.base + |table.entries|) * 1000 < DAY_MS
  }

  /** From one day to the next the search moves by at most one: by one exactly after an entry. */
  lemma {:induction false} LowerBoundNextDay(v: seq<nat>, x: nat)
    requires Ascending(v)
    ensures LowerBound(v, x + 1) == LowerBound(v, x) + (if x in v then 1 else 0)
    decreases |v|
  {
    if v != [] {
      LowerBoundNextDay(v[1..], x);
      assert x in v <==> x == v[0] || x in v[1..];
      if v[0] >= x {
        assert x !in v[1..];
        if v[1..] != [] { assert v[1..][0] >= x + 1; }
      }
    }
  }

  function EntriesBelow(v: seq<nat>, x: nat): set<nat>
  {
    set e | e in v && e < x
  }

  lemma {:induction false} LowerBoundCounts(v: seq<nat>, x: nat)
    requires Ascending(v)
    ensures LowerBound(v, x) == |EntriesBelow(v, x)|
    decreases |v|
  {
    if v == [] || v[0] >= x {
      assert EntriesBelow(v, x) == {};
    } else {
      LowerBoundCounts(v[1..], x);
      assert v == [v[0]] + v[1..];
      assert EntriesBelow(v, x) == {v[0]} + EntriesBelow(v[1..], x);
      assert v[0] !in v[1..];
    }
  }

  /** The offset counts the entries before the day. An entry names the day from which its leap second
      counts, but on that very day it does not count yet: the offset is a second less there than if it did. */
  lemma TaiMinusUtcCounts(table: Table, day: nat)
    requires Ascending(table.entries)
    ensures TaiMinusUtc(table, day) == table.base + |EntriesBelow(table.entries, day)|
    ensures TaiMinusUtc(table, day) + (if day in table.entries then 1 else 0) ==
            table.base + |EntriesBelow(table.entries, day + 1)|
  {
    LowerBoundCounts(table.entries, day);
    LowerBoundCounts(table.entries, day + 1);
    LowerBoundNextDay(table.entries, day);
  }

  /** Within the range of the fields, a conversion is plain addition of milliseconds. */
  lemma ShiftIsPlain(a: Instant, ms: int)
    requires Normal(a) && 0 <= Total(a) + ms < U32 * DAY_MS
    ensures Normal(Plus(a, MilliSeconds(ms))) && Total(Plus(a, MilliSeconds(ms))) == Total(a) + ms
    ensures Plus(a, MilliSeconds(ms)).scale == a.scale
  {
    assert GetMilliSeconds(MilliSeconds(ms)) == ms;
    ArithmeticIsModular(a, MilliSeconds(ms));
    SmallModulus(Total(a) + ms, U32 * DAY_MS);
  }

  /** The second right after an entry's day in which the offset of the day is already the new one, but
      the date still falls on the entry's own reckoning. */
  predicate InLeapWindow(table: Table, a: Instant)
    requires a.days >= 1
  {
    (a.scale == TAI || a.scale == TT) && a.days - 1 in table.entries
    && OffsetFromUtc(table, a.days - 1, a.scale) <= a.ms < OffsetFromUtc(table, a.days, a.scale)
  }

  /** The windows are not empty: after each entry d there is one, the 1000 milliseconds of day d + 1 that
      begin at the old offset; and there are no others. */
  lemma WindowAfterEveryEntry(table: Table, d: nat, ms: nat, ts: TimeSystem)
    requires Usable(table) && (ts == TAI || ts == TT)
    ensures d in table.entries ==> OffsetFromUtc(table, d, ts) + 1000 <= DAY_MS
    ensures InLeapWindow(table, Instant(d + 1, ms, ts)) <==>
              d in table.entries && OffsetFromUtc(table, d, ts) <= ms < OffsetFromUtc(table, d, ts) + 1000
    ensures OffsetFromUtc(table, d, ts) ==
            1000 * (table.base + |EntriesBelow(table.entries, d)|) + (if ts == TT then 32184 else 0)
  {
    OffsetNextDay(table, d, ts);
    OffsetRange(table, d + 1, ts);
    TaiMinusUtcCounts(table, d);
  }

  lemma DayParts(a: Instant, days: int, ms: int)
    requires Normal(a) && Total(a) == days * DAY_MS + ms && 0 <= ms < DAY_MS
    ensures a.days == days && a.ms == ms
  {
  }

  lemma OffsetRange(table: Table, day: nat, ts: TimeSystem)
    requires Usable(table)
    ensures 0 <= OffsetFromUtc(table, day, ts) < DAY_MS
  {
  }

  lemma OffsetNextDay(table: Table, day: nat, ts: TimeSystem)
    requires Usable(table) && (ts == TAI || ts == TT)
    ensures OffsetFromUtc(table, day + 1, ts) ==
            OffsetFromUtc(table, day, ts) + (if day in table.entries then 1000 else 0)
  {
    LowerBoundNextDay(table.entries, day);
  }

  /** The UTC day that the conversion arrives at, and the offset of the scale on that day. */
  lemma ArrivesAt(table: Table, a: Instant)
    requires Usable(table) && Normal(a) && 2 <= a.days < U32 - 2
    ensures Normal(ToUtc(table, a)) && ToUtc(table, a).scale == a.scale
    ensures
      var k := -OffsetToUtc(table, a.days, a.ms, a.scale);
      && 0 <= k < DAY_MS
      && Total(ToUtc(table, a)) == Total(a) - k
      && ToUtc(table, a).days == if a.ms >= k then a.days else a.days - 1
  {
    var k := -OffsetToUtc(table, a.days, a.ms, a.scale);
    OffsetRange(table, a.days, a.scale);
    OffsetRange(table, a.days - 1, a.scale);
    ShiftIsPlain(a, -k);
    if a.ms >= k {
      DayParts(ToUtc(table, a), a.days, a.ms - k);
    } else {
      DayParts(ToUtc(table, a), a.days - 1, a.ms - k + DAY_MS);
    }
  }

  /** The way back adds what the way there took away, and a second more in the window. */
  lemma OffsetBack(table: Table, a: Instant)
    requires Usable(table) && a.days >= 2
    ensures
      var k := -OffsetToUtc(table, a.days, a.ms, a.scale);
      OffsetFromUtc(table, if a.ms >= k then a.days else a.days - 1, a.scale) ==
        k + (if InLeapWindow(table, a) then 1000 else 0)
  {
    if a.scale == TAI || a.scale == TT {
      OffsetNextDay(table, a.days - 1, a.scale);
    }
  }

  /** From a scale to UTC and back: the identity, except in the one-second window after an entry, where
      the result is exactly one second ahead. */
  lemma ScaleRoundTrip(table: Table, a: Instant)
    requires Usable(table) && Normal(a) && 2 <= a.days < U32 - 2
    ensures Normal(ToUtc(table, a))
    ensures
      var b := FromUtc(table, ToUtc(table, a));
      && Normal(b) && b.scale == a.scale
      && Total(b) == Total(a) + (if InLeapWindow(table, a) then 1000 else 0)
      && (b == a <==> !InLeapWindow(table, a))
  {
    ArrivesAt(table, a);
    OffsetBack(table, a);
    var u := ToUtc(table, a);
    ShiftIsPlain(u, OffsetFromUtc(table, u.days, u.scale));
    var b := FromUtc(table, u);
    if Total(b) == Total(a) {
      TotalIsInjective(a, b);
    }
  }

  /** From UTC to a scale and back: always the identity. */
  lemma UtcRoundTrip(table: Table, u: Instant)
    requires Usable(table) && Normal(u) && 1 <= u.days < U32 - 2
    ensures Normal(FromUtc(table, u)) && FromUtc(table, u).days >= 1
    ensures ToUtc(table, FromUtc(table, u)) == u
  {
    var ts := u.scale;
    var k := OffsetFromUtc(table, u.days, ts);
    OffsetRange(table, u.days, ts);
    ShiftIsPlain(u, k);
    var a := FromUtc(table, u);
    if u.ms + k < DAY_MS {
      DayParts(a, u.days, u.ms + k);
    } else {
      DayParts(a, u.days + 1, u.ms + k - DAY_MS);
      if ts == TAI || ts == TT {
        OffsetNextDay(table, u.days, ts);
      }
    }
    assert OffsetToUtc(table, a.days, a.ms, ts) == -k;
    ShiftIsPlain(a, -k);
    TotalIsInjective(u, ToUtc(table, a));
  }

  /** Hence no two UTC instants show as the same instant of a scale. */
  lemma ShownInstantsAreDistinct(table: Table, u: Instant, v: Instant)
    requires Usable(table) && Normal(u) && Normal(v)
    requires 1 <= u.days < U32 - 2 && 1 <= v.days < U32 - 2
    requires FromUtc(table, u) == FromUtc(table, v)
    ensures u == v
  {
    UtcRoundTrip(table, u);
    UtcRoundTrip(table, v);
  }

  /** By how much the scales are ahead: a stored instant is shown in UTC as it is, in TAI ahead by the base
      and a second for every entry before its day, and in TT by 32.184 seconds more. */
  lemma ShownTotals(table: Table, u: Instant)
    requires Usable(table) && Normal(u) && u.days < U32 - 2
    ensures Normal(FromUtc(table, u)) && FromUtc(table, u).scale == u.scale
    ensures
      var taiUtc := 1000 * (table.base + |EntriesBelow(table.entries, u.days)|);
      match u.scale
      case UTC => Total(FromUtc(table, u)) == Total(u)
      case POSIX => Total(FromUtc(table, u)) == Total(u)
      case TAI => Total(FromUtc(table, u)) == Total(u) + taiUtc
      case TT => Total(FromUtc(table, u)) == Total(u) + taiUtc + 32184
  {
    OffsetRange(table, u.days, u.scale);
    ShiftIsPlain(u, OffsetFromUtc(table, u.days, u.scale));
    TaiMinusUtcCounts(table, u.days);
  }

  /** And the way back: an instant of a scale is stored earlier by the offset of the day it is stored on, and
      in a window by a second less. */
  lemma StoredTotals(table: Table, a: Instant)
    requires Usable(table) && Normal(a) && 2 <= a.days < U32 - 2
    ensures Normal(ToUtc(table, a)) && ToUtc(table, a).scale == a.scale
    ensures
      var u := ToUtc(table, a);
      var taiUtc := 1000 * (table.base + |EntriesBelow(table.entries, u.days)|);
      var late := if InLeapWindow(table, a) then 1000 else 0;
      match a.scale
      case UTC => u == a
      case POSIX => u == a
      case TAI => Total(u) == Total(a) - taiUtc + late
      case TT => Total(u) == Total(a) - taiUtc - 32184 + late
  {
    ArrivesAt(table, a);
    ScaleRoundTrip(table, a);
    ShownTotals(table, ToUtc(table, a));
    if a.scale == UTC || a.scale == POSIX {
      TotalIsInjective(a, ToUtc(table, a));
    }
  }

  ghost predicate IsShown(table: Table, a: Instant)
  {
    exists u: Instant :: Normal(u) && 1 <= u.days < U32 - 2 && FromUtc(table, u) == a
  }

  /** The instants that do not come back are exactly those that no UTC instant stands for: a UTC day of
      86400000 milliseconds has no name for the second that the offset skips. */
  lemma ShownExactly(table: Table, a: Instant)
    requires Usable(table) && Normal(a) && 2 <= a.days < U32 - 2
    ensures IsShown(table, a) <==> !InLeapWindow(table, a)
  {
    ScaleRoundTrip(table, a);
    ArrivesAt(table, a);
    if IsShown(table, a) {
      var u: Instant :| Normal(u) && 1 <= u.days < U32 - 2 && FromUtc(table, u) == a;
      UtcRoundTrip(table, u);
    }
    if !InLeapWindow(table, a) {
      var u := ToUtc(table, a);
      assert Normal(u) && 1 <= u.days < U32 - 2 && FromUtc(table, u) == a;
    }
  }
}
