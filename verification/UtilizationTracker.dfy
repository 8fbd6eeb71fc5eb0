/** The per-interval busy/idle accounting of the laser device, on values. */
module UtilizationTracker {
  import opened Common

  /** The m_utilization_tracking fields of the device. */
  datatype Tracker = Tracker(
    enabled: bool,
    interval: int,
    prev: int,
    start: int,
    end: int,
    idle: int,
    busy: int,
    on: bool,
    utilization: seq<real>)

  /** EnableUtilizationTracking; m_utilization is left as it is. */
  function Enable(utilization: seq<real>, interval: int): Tracker
  {
    Tracker(true, interval, 0, 0, interval, 0, 0, false, utilization)
  }

  /** The busy time of the current interval once it is closed. */
  function ClosingBusy(t: Tracker, next: bool): int
  {
    if next then t.busy else t.busy + (t.end - t.prev)
  }

  function ClosingIdle(t: Tracker, next: bool): int
  {
    if next then t.idle + (t.end - t.prev) else t.idle
  }

  /** The tracker after an interval has been closed, with its share appended. */
  function Closed(t: Tracker, share: real): Tracker
  {
    t.(idle := 0, busy := 0, prev := t.end, start := t.start + t.interval, end := t.end + t.interval,
       utilization := t.utilization + [share])
  }

  /** One turn of the catch-up loop: close the current interval, or abort if its time is not all
      accounted for. */
  function CloseInterval(t: Tracker, next: bool): Outcome<Tracker>
    requires t.interval > 0
  {
    if ClosingIdle(t, next) + ClosingBusy(t, next) != t.interval then Abort
    else Next(Closed(t, ClosingBusy(t, next) as real / t.interval as real))
  }

  function CatchUp(t: Tracker, next: bool, now: int): (r: Outcome<Tracker>)
    requires t.interval > 0
    ensures r.Next? ==> r.value.interval == t.interval && r.value.enabled == t.enabled && now < r.value.end
    decreases now - t.end
  {
    if now < t.end then Next(t)
    else
      match CloseInterval(t, next)
      case Abort => Abort
      case Next(t') => CatchUp(t', next, now)
  }

  /** After the loop: credit the rest and remember this call. */
  function Settle(t: Tracker, next: bool, now: int): Tracker
  {
    t.(idle := if next then t.idle + (now - t.prev) else t.idle,
       busy := if next then t.busy else t.busy + (now - t.prev),
       on := next,
       prev := now)
  }

  function Track(t: Tracker, next: bool, now: int): (r: Outcome<Tracker>)
    requires t.enabled ==> t.interval > 0
    ensures r.Next? ==> r.value.interval == t.interval && r.value.enabled == t.enabled
  {
    if !t.enabled then Next(t)
    else
      match CatchUp(t, next, now)
      case Abort => Abort
      case Next(t') => Next(Settle(t', next, now))
  }

  function Finalize(t: Tracker, now: int): (r: Outcome<Tracker>)
    requires t.enabled ==> t.interval > 0
    ensures r.Next? ==> r.value.interval == t.interval && r.value.enabled == t.enabled
  {
    Track(t, !t.on, now)
  }

  // ---- what the accounting means ----

  /** Nanoseconds of [k * interval, (k + 1) * interval) that are true in the log. */
  function BusyNs(log: seq<bool>, interval: nat, k: nat): nat
    requires (k + 1) * interval <= |log|
  {
    Ordered(k, k + 1, interval);
    CountTrue(log[k * interval..(k + 1) * interval])
  }

  /** The first n entries are the busy shares of the first n intervals of the log. */
  ghost predicate Correct(utilization: seq<real>, interval: nat, log: seq<bool>)
  {
    interval > 0 && |utilization| * interval <= |log| &&
    forall k :: 0 <= k < |utilization| ==>
      (Ordered(k + 1, |utilization|, interval);
       utilization[k] == BusyNs(log, interval, k) as real / interval as real)
  }

  /** The tracker agrees with the log of the past: since its last call the device state did not change. */
  ghost predicate Agrees(t: Tracker, log: seq<bool>)
  {
    && t.enabled && t.interval > 0
    && t.start == |t.utilization| * t.interval && t.end == t.start + t.interval
    && 0 <= t.start <= t.prev < t.end && t.prev <= |log|
    && t.busy == CountTrue(log[t.start..t.prev])
    && t.idle == t.prev - t.start - t.busy
    && Correct(t.utilization, t.interval, log)
    && (forall i :: t.prev <= i < |log| ==> log[i] == t.on)
  }

  lemma CorrectAppend(utilization: seq<real>, interval: nat, log: seq<bool>, u: real)
    requires Correct(utilization, interval, log)
    requires (|utilization| + 1) * interval <= |log|
    requires u == BusyNs(log, interval, |utilization|) as real / interval as real
    ensures Correct(utilization + [u], interval, log)
  {
  }

  lemma BusyNsLonger(log: seq<bool>, more: seq<bool>, interval: nat, k: nat, n: nat)
    requires k < n && n * interval <= |log|
    ensures (k + 1) * interval <= |log|
    ensures BusyNs(log + more, interval, k) == BusyNs(log, interval, k)
  {
    Ordered(k + 1, n, interval);
    Ordered(k, k + 1, interval);
    assert (log + more)[k * interval..(k + 1) * interval] == log[k * interval..(k + 1) * interval];
  }

  lemma CorrectLonger(utilization: seq<real>, interval: nat, log: seq<bool>, more: seq<bool>)
    requires Correct(utilization, interval, log)
    ensures Correct(utilization, interval, log + more)
  {
    forall k | 0 <= k < |utilization|
      ensures (k + 1) * interval <= |log|
      ensures utilization[k] == BusyNs(log + more, interval, k) as real / interval as real
    {
      BusyNsLonger(log, more, interval, k, |utilization|);
    }
  }

  /** The two ends of the current interval, as bounds of interval n. */
  lemma CurrentBounds(t: Tracker, log: seq<bool>)
    requires Agrees(t, log)
    ensures |t.utilization| * t.interval == t.start && (|t.utilization| + 1) * t.interval == t.end
  {
    var n := |t.utilization|;
    assert (n + 1) * t.interval == n * t.interval + t.interval;
  }

  lemma CurrentBusyNs(t: Tracker, log: seq<bool>)
    requires Agrees(t, log) && t.end <= |log|
    ensures (|t.utilization| + 1) * t.interval <= |log|
    ensures BusyNs(log, t.interval, |t.utilization|) == CountTrue(log[t.start..t.end])
  {
    CurrentBounds(t, log);
    Ordered(|t.utilization|, |t.utilization| + 1, t.interval);
  }

  /** If the calls alternate, the pending time is credited to the state the device has been in. */
  lemma ClosingCounts(t: Tracker, log: seq<bool>, next: bool)
    requires Agrees(t, log) && t.on == !next && t.end <= |log|
    ensures ClosingBusy(t, next) == CountTrue(log[t.start..t.end])
    ensures ClosingIdle(t, next) + ClosingBusy(t, next) == t.interval
  {
    CountTrueSplit(log, t.start, t.prev, t.end);
    CountTrueConstant(log[t.prev..t.end], t.on);
  }

  lemma ClosedAgrees(t: Tracker, log: seq<bool>, share: real)
    requires Agrees(t, log) && t.end <= |log|
    requires Correct(t.utilization + [share], t.interval, log)
    ensures Agrees(Closed(t, share), log)
  {
    CurrentBounds(t, log);
    assert log[t.end..t.end] == [];
  }

  lemma CloseAgrees(t: Tracker, log: seq<bool>, next: bool)
    requires Agrees(t, log) && t.on == !next && t.end <= |log|
    ensures CloseInterval(t, next).Next? && Agrees(CloseInterval(t, next).value, log)
    ensures CloseInterval(t, next).value.on == t.on
  {
    ClosingCounts(t, log, next);
    CurrentBusyNs(t, log);
    var share := ClosingBusy(t, next) as real / t.interval as real;
    CorrectAppend(t.utilization, t.interval, log, share);
    ClosedAgrees(t, log, share);
  }

  lemma {:induction false} CatchUpAgrees(t: Tracker, log: seq<bool>, next: bool)
    requires Agrees(t, log) && t.on == !next
    ensures
      var r := CatchUp(t, next, |log|);
      r.Next? && Agrees(r.value, log) && r.value.on == t.on && |log| < r.value.end
    decreases |log| - t.end
  {
    if t.end <= |log| {
      CloseAgrees(t, log, next);
      CatchUpAgrees(CloseInterval(t, next).value, log, next);
    }
  }

  /** A call that switches the recorded state never aborts, and closes every whole interval. */
  lemma TrackAgrees(t: Tracker, log: seq<bool>, next: bool)
    requires Agrees(t, log) && t.on == !next
    ensures
      var r := Track(t, next, |log|);
      && r.Next? && Agrees(r.value, log)
      && r.value.on == next && r.value.prev == |log| && r.value.interval == t.interval
      && |r.value.utilization| == |log| / t.interval
  {
    CatchUpAgrees(t, log, next);
    var c := CatchUp(t, next, |log|).value;
    CountTrueSplit(log, c.start, c.prev, |log|);
    CountTrueConstant(log[c.prev..|log|], c.on);
    Quotient(|log|, t.interval, |c.utilization|);
  }

  lemma AgreesLonger(t: Tracker, log: seq<bool>, more: seq<bool>)
    requires Agrees(t, log)
    requires forall i :: 0 <= i < |more| ==> more[i] == t.on
    ensures Agrees(t, log + more)
  {
    CorrectLonger(t.utilization, t.interval, log, more);
    assert (log + more)[t.start..t.prev] == log[t.start..t.prev];
  }

  // ---- the abort never fires ----

  /** The books of the current interval balance. */
  ghost predicate Balanced(t: Tracker)
  {
    t.enabled && t.interval > 0 && t.idle + t.busy == t.prev - t.start && t.end == t.start + t.interval
  }

  /** Whatever state is passed, "Not all time is accounted for" is never reported, and the entries
      already saved stay. */
  lemma {:induction false} CatchUpNeverAborts(t: Tracker, next: bool, now: int)
    requires Balanced(t)
    ensures
      var r := CatchUp(t, next, now);
      && r.Next? && Balanced(r.value)
      && |t.utilization| <= |r.value.utilization| && t.utilization == r.value.utilization[..|t.utilization|]
    decreases now - t.end
  {
    if t.end <= now {
      CatchUpNeverAborts(CloseInterval(t, next).value, next, now);
    }
  }

  lemma EnableIsBalanced(utilization: seq<real>, interval: int)
    requires interval > 0
    ensures Balanced(Enable(utilization, interval))
  {
  }

  lemma TrackKeepsBalanced(t: Tracker, next: bool, now: int)
    requires Balanced(t)
    ensures Track(t, next, now).Next? && Balanced(Track(t, next, now).value)
    ensures Track(t, next, now).value.interval == t.interval
  {
    CatchUpNeverAborts(t, next, now);
  }

  /** A call of TrackUtilization, or of FinalizeUtilization. */
  datatype Call = Tracking(next: bool, now: int) | Finalizing(now: int)

  function Calls(t: Tracker, calls: seq<Call>): Outcome<Tracker>
    requires t.enabled ==> t.interval > 0
    decreases |calls|
  {
    if calls == [] then Next(t)
    else
      match if calls[0].Tracking? then Track(t, calls[0].next, calls[0].now) else Finalize(t, calls[0].now)
      case Abort => Abort
      case Next(t') => Calls(t', calls[1..])
  }

  /** A device that does not track: no call aborts, and none changes anything. */
  lemma {:induction false} CallsWithoutTracking(t: Tracker, calls: seq<Call>)
    requires !t.enabled
    ensures Calls(t, calls) == Next(t)
    decreases |calls|
  {
    if calls != [] {
      CallsWithoutTracking(t, calls[1..]);
    }
  }

  lemma {:induction false} CallsNeverAbort(t: Tracker, calls: seq<Call>)
    requires Balanced(t)
    ensures Calls(t, calls).Next? && Balanced(Calls(t, calls).value)
    decreases |calls|
  {
    if calls != [] {
      var next := if calls[0].Tracking? then calls[0].next else !t.on;
      TrackKeepsBalanced(t, next, calls[0].now);
      CallsNeverAbort(Track(t, next, calls[0].now).value, calls[1..]);
    }
  }

  /** Whatever calls follow EnableUtilizationTracking, with whatever states and at whatever times, "Not all
      time is accounted for" is never reported. */
  lemma NeverReported(utilization: seq<real>, interval: int, calls: seq<Call>)
    requires interval > 0
    ensures Calls(Enable(utilization, interval), calls).Next?
  {
    EnableIsBalanced(utilization, interval);
    CallsNeverAbort(Enable(utilization, interval), calls);
  }

  // ---- which calls are right ----

  lemma DifferentShare(a: int, b: int, interval: int)
    requires interval > 0 && a != b
    ensures a as real / interval as real != b as real / interval as real
  {
    assert a as real / interval as real * interval as real == a as real;
    assert b as real / interval as real * interval as real == b as real;
  }

  lemma RepeatedWithin(t: Tracker, log: seq<bool>)
    requires Agrees(t, log) && |log| < t.end
    ensures Agrees(Settle(t, t.on, |log|), log) <==> |log| == t.prev
  {
    CountTrueSplit(log, t.start, t.prev, |log|);
    CountTrueConstant(log[t.prev..|log|], t.on);
  }

  /** A repeated call credits the pending time to the wrong side, which is never empty. */
  lemma RepeatedCounts(t: Tracker, log: seq<bool>)
    requires Agrees(t, log) && t.end <= |log|
    ensures ClosingBusy(t, t.on) != CountTrue(log[t.start..t.end])
    ensures ClosingIdle(t, t.on) + ClosingBusy(t, t.on) == t.interval
  {
    CountTrueSplit(log, t.start, t.prev, t.end);
    CountTrueConstant(log[t.prev..t.end], t.on);
  }

  /** The entry saved by a repeated call is not the busy share of its interval. */
  lemma RepeatedEntry(t: Tracker, log: seq<bool>)
    requires Agrees(t, log) && t.end <= |log|
    ensures CloseInterval(t, t.on).Next?
    ensures
      var n := |t.utilization|;
      && (n + 1) * t.interval <= |log|
      && CloseInterval(t, t.on).value.utilization[n] != BusyNs(log, t.interval, n) as real / t.interval as real
  {
    RepeatedCounts(t, log);
    CurrentBusyNs(t, log);
    DifferentShare(ClosingBusy(t, t.on), CountTrue(log[t.start..t.end]), t.interval);
  }

  /** A call that passes the state the device has been in credits the time since the last call to the
      wrong side: the tracker is right afterwards only if no time has passed. */
  lemma RepeatedCall(t: Tracker, log: seq<bool>)
    requires Agrees(t, log)
    ensures Track(t, t.on, |log|).Next?
    ensures Agrees(Track(t, t.on, |log|).value, log) <==> |log| == t.prev
  {
    if |log| < t.end {
      RepeatedWithin(t, log);
    } else {
      RepeatedEntry(t, log);
      var c := CloseInterval(t, t.on).value;
      CatchUpNeverAborts(c, t.on, |log|);
      var r := Track(t, t.on, |log|).value;
      var n := |t.utilization|;
      assert r.utilization[n] == r.utilization[..n + 1][n] == c.utilization[n];
      assert !Correct(r.utilization, t.interval, log);
    }
  }

  /** The books are right for a device that has been in this state since the last call, whatever the
      recorded flag says. */
  ghost predicate RightFor(t: Tracker, log: seq<bool>, state: bool)
  {
    Agrees(t.(on := state), log)
  }

  lemma CloseIgnoresOn(t: Tracker, on: bool, next: bool)
    requires t.interval > 0
    ensures CloseInterval(t.(on := on), next) ==
            match CloseInterval(t, next) { case Abort => Abort case Next(r) => Next(r.(on := on)) }
  {
  }

  lemma {:induction false} CatchUpIgnoresOn(t: Tracker, on: bool, next: bool, now: int)
    requires t.interval > 0
    ensures CatchUp(t.(on := on), next, now) ==
            match CatchUp(t, next, now) { case Abort => Abort case Next(r) => Next(r.(on := on)) }
    decreases now - t.end
  {
    CloseIgnoresOn(t, on, next);
    if t.end <= now && CloseInterval(t, next).Next? {
      CatchUpIgnoresOn(CloseInterval(t, next).value, on, next, now);
    }
  }

  /** The recorded flag has no influence on a call: only the state passed decides what is credited. */
  lemma TrackIgnoresOn(t: Tracker, on: bool, next: bool, now: int)
    requires t.enabled && t.interval > 0
    ensures Track(t.(on := on), next, now) == Track(t, next, now)
  {
    CatchUpIgnoresOn(t, on, next, now);
  }

  /** The exact condition for a call: the books are right after it if and only if it passes the opposite of
      the state the device has been in, or no time has passed since the last call. */
  lemma CallIsRightExactly(t: Tracker, log: seq<bool>, state: bool, next: bool)
    requires RightFor(t, log, state)
    ensures
      var r := Track(t, next, |log|);
      && r.Next? && r.value.on == next && r.value.prev == |log|
      && (Agrees(r.value, log) <==> next != state || |log| == t.prev)
  {
    TrackIgnoresOn(t, state, next, |log|);
    if next != state {
      TrackAgrees(t.(on := state), log, next);
    } else {
      RepeatedCall(t.(on := state), log);
    }
  }

  /** Right up to now is right for either state. */
  lemma RightForBoth(t: Tracker, log: seq<bool>, state: bool)
    requires Agrees(t, log) && t.prev == |log|
    ensures RightFor(t, log, state)
  {
  }

  /** FinalizeUtilization passes the opposite of the recorded flag, so it is right if and only if the flag
      is the state the device has been in, or no time has passed since the last call. */
  lemma FinalizeIsRightExactly(t: Tracker, log: seq<bool>, state: bool)
    requires RightFor(t, log, state)
    ensures
      var r := Finalize(t, |log|);
      && r.Next? && r.value.on == !t.on && r.value.prev == |log|
      && (Agrees(r.value, log) <==> t.on == state || |log| == t.prev)
  {
    CallIsRightExactly(t, log, state, !t.on);
  }

  /** After FinalizeUtilization the flag is the opposite of the state the device stays in. The device's next
      call is right all the same. */
  lemma CallAfterFinalizeIsRight(t: Tracker, log: seq<bool>, more: seq<bool>)
    requires Agrees(t, log)
    requires forall i :: 0 <= i < |more| ==> more[i] == t.on
    ensures Finalize(t, |log|).Next?
    ensures
      var f := Finalize(t, |log|).value;
      && f.on == !t.on && f.prev == |log| && RightFor(f, log + more, t.on)
      && Track(f, !t.on, |log + more|).Next? && Agrees(Track(f, !t.on, |log + more|).value, log + more)
  {
    FinalizeIsRightExactly(t, log, t.on);
    var f := Finalize(t, |log|).value;
    RightForBoth(f, log, t.on);
    AgreesLonger(f.(on := t.on), log, more);
    CallIsRightExactly(f, log + more, t.on, !t.on);
  }

  /** A second FinalizeUtilization with no call in between is right if and only if no time has passed. */
  lemma SecondFinalize(t: Tracker, log: seq<bool>, more: seq<bool>)
    requires Agrees(t, log)
    requires forall i :: 0 <= i < |more| ==> more[i] == t.on
    ensures Finalize(t, |log|).Next?
    ensures
      var r := Finalize(Finalize(t, |log|).value, |log + more|);
      r.Next? && (Agrees(r.value, log + more) <==> more == [])
  {
    CallAfterFinalizeIsRight(t, log, more);
    FinalizeIsRightExactly(Finalize(t, |log|).value, log + more, t.on);
  }
}
