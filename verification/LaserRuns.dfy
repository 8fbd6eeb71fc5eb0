/** Whole runs of a laser device that tracks its utilization: the transmit machine makes the calls,
    the tracker does the accounting. */
module LaserRuns {
  import opened Common
  import opened TransmitMachine
  import opened UtilizationTracker

  datatype LaserWorld<P> = LaserWorld(world: World<P>, tracker: Tracker)

  /** Tracking enabled at time 0, before anything is sent. */
  function InitialLaser<P>(interval: nat): LaserWorld<P>
  {
    LaserWorld(InitialWorld(), Enable([], interval))
  }

  /** The calls of TrackUtilization made inside one action: off when a transmission ends, on when one
      starts. */
  function TrackCalls(t: Tracker, now: nat, ended: bool, began: bool): (r: Outcome<Tracker>)
    requires t.enabled ==> t.interval > 0
    ensures r.Next? ==> r.value.interval == t.interval && r.value.enabled == t.enabled
  {
    match if ended then Track(t, false, now) else Next(t)
    case Abort => Abort
    case Next(t1) => if began then Track(t1, true, now) else Next(t1)
  }

  function LaserStep<P>(link: Link<P>, lw: LaserWorld<P>, a: Action<P>): (r: Outcome<LaserWorld<P>>)
    requires lw.tracker.enabled ==> lw.tracker.interval > 0
    ensures r.Next? ==> r.value.tracker.interval == lw.tracker.interval && r.value.tracker.enabled == lw.tracker.enabled
  {
    match Step(link, lw.world, a)
    case Abort => Abort
    case Next(w') =>
      match TrackCalls(lw.tracker, lw.world.now, a.FireCompletion?, |w'.started| > |lw.world.started|)
      case Abort => Abort
      case Next(t') => Next(LaserWorld(w', t'))
  }

  function LaserRun<P>(link: Link<P>, lw: LaserWorld<P>, actions: seq<Action<P>>): Outcome<LaserWorld<P>>
    requires lw.tracker.enabled ==> lw.tracker.interval > 0
    decreases |actions|
  {
    if actions == [] then Next(lw)
    else
      match LaserStep(link, lw, actions[0])
      case Abort => Abort
      case Next(lw') => LaserRun(link, lw', actions[1..])
  }

  /** The tracker's flag is the state of the device: this is why its calls strictly alternate. */
  ghost predicate LaserInv<P>(link: Link<P>, lw: LaserWorld<P>)
  {
    && Inv(link, lw.world)
    && Agrees(lw.tracker, lw.world.busy)
    && (lw.tracker.on <==> lw.world.machine.phase == BUSY)
  }

  lemma InitialLaserInv<P>(link: Link<P>, interval: nat)
    requires interval > 0
    ensures LaserInv(link, InitialLaser(interval))
  {
    InitialInv(link);
  }

  /** Which calls an action makes: a Send starts a transmission only on a READY device, a completion
      always ends one first. */
  lemma Transitions<P>(link: Link<P>, w: World<P>, a: Action<P>)
    requires Inv(link, w) && Enabled(w, a)
    ensures Step(link, w, a).Next?
    ensures
      var w' := Step(link, w, a).value;
      && Inv(link, w')
      && (a.FireCompletion? ==> w.machine.phase == BUSY)
      && (|w'.started| > |w.started| ==> w'.machine.phase == BUSY && (a.SendPacket? ==> w.machine.phase == READY))
      && (|w'.started| <= |w.started| ==>
          if a.FireCompletion? then w'.machine.phase == READY else w'.machine.phase == w.machine.phase)
      && (a.AdvanceClock? ==> |w'.started| == |w.started| && w'.busy == w.busy + Repeat(w.machine.phase == BUSY, a.dt))
      && (!a.AdvanceClock? ==> w'.now == w.now && w'.busy == w.busy)
  {
    StepInv(link, w, a);
  }

  lemma LaserStepInv<P>(link: Link<P>, lw: LaserWorld<P>, a: Action<P>)
    requires LaserInv(link, lw) && Enabled(lw.world, a)
    ensures LaserStep(link, lw, a).Next?
    ensures LaserInv(link, LaserStep(link, lw, a).value)
    ensures LaserStep(link, lw, a).value.world == Step(link, lw.world, a).value
  {
    Transitions(link, lw.world, a);
    TrackCallsAgree(lw.tracker, lw.world, a, Step(link, lw.world, a).value);
  }

  lemma TrackCallsAgree<P>(t: Tracker, w: World<P>, a: Action<P>, w': World<P>)
    requires Agrees(t, w.busy) && |w.busy| == w.now
    requires t.on <==> w.machine.phase == BUSY
    requires a.FireCompletion? ==> w.machine.phase == BUSY
    requires |w'.started| > |w.started| ==> w'.machine.phase == BUSY && (a.SendPacket? ==> w.machine.phase == READY)
    requires |w'.started| <= |w.started| ==>
            if a.FireCompletion? then w'.machine.phase == READY else w'.machine.phase == w.machine.phase
    requires a.AdvanceClock? ==>
            |w'.started| == |w.started| && w'.busy == w.busy + Repeat(w.machine.phase == BUSY, a.dt)
    requires !a.AdvanceClock? ==> w'.busy == w.busy
    ensures
      var r := TrackCalls(t, w.now, a.FireCompletion?, |w'.started| > |w.started|);
      r.Next? && Agrees(r.value, w'.busy) && (r.value.on <==> w'.machine.phase == BUSY)
  {
    match a
    case SendPacket(p) =>
      if |w'.started| > |w.started| {
        TrackAgrees(t, w.busy, true);
      }
    case FireCompletion =>
      TrackAgrees(t, w.busy, false);
      if |w'.started| > |w.started| {
        TrackAgrees(Track(t, false, w.now).value, w.busy, true);
      }
    case AdvanceClock(dt) =>
      AgreesLonger(t, w.busy, Repeat(w.machine.phase == BUSY, dt));
  }

  lemma {:induction false} LaserRunInv<P>(link: Link<P>, lw: LaserWorld<P>, actions: seq<Action<P>>)
    requires LaserInv(link, lw) && Possible(link, lw.world, actions)
    ensures LaserRun(link, lw, actions).Next?
    ensures LaserInv(link, LaserRun(link, lw, actions).value)
    ensures LaserRun(link, lw, actions).value.tracker.interval == lw.tracker.interval
    ensures Run(link, lw.world, actions) == Next(LaserRun(link, lw, actions).value.world)
    decreases |actions|
  {
    if actions != [] {
      LaserStepInv(link, lw, actions[0]);
      LaserRunInv(link, LaserStep(link, lw, actions[0]).value, actions[1..]);
    }
  }

  /** The invariant of a device that tracks or does not. */
  ghost predicate RunningInv<P>(link: Link<P>, lw: LaserWorld<P>)
  {
    Inv(link, lw.world) && (lw.tracker.enabled ==> LaserInv(link, lw))
  }

  lemma StepWithoutTracking<P>(link: Link<P>, lw: LaserWorld<P>, a: Action<P>)
    requires !lw.tracker.enabled && Step(link, lw.world, a).Next?
    ensures LaserStep(link, lw, a) == Next(LaserWorld(Step(link, lw.world, a).value, lw.tracker))
  {
  }

  lemma RunningStep<P>(link: Link<P>, lw: LaserWorld<P>, a: Action<P>)
    requires RunningInv(link, lw) && Enabled(lw.world, a)
    ensures LaserStep(link, lw, a).Next? && RunningInv(link, LaserStep(link, lw, a).value)
    ensures Step(link, lw.world, a) == Next(LaserStep(link, lw, a).value.world)
    ensures !lw.tracker.enabled ==> LaserStep(link, lw, a).value.tracker == lw.tracker
  {
    if lw.tracker.enabled {
      LaserStepInv(link, lw, a);
    } else {
      StepInv(link, lw.world, a);
      StepWithoutTracking(link, lw, a);
    }
  }

  /** Without tracking, a run is that of the device alone: nothing aborts, and the books stay as they are. */
  lemma {:induction false} RunWithoutTracking<P>(link: Link<P>, lw: LaserWorld<P>, actions: seq<Action<P>>)
    requires Inv(link, lw.world) && !lw.tracker.enabled && Possible(link, lw.world, actions)
    ensures Run(link, lw.world, actions).Next?
    ensures LaserRun(link, lw, actions) == Next(LaserWorld(Run(link, lw.world, actions).value, lw.tracker))
    decreases |actions|
  {
    if actions != [] {
      RunningStep(link, lw, actions[0]);
      RunWithoutTracking(link, LaserStep(link, lw, actions[0]).value, actions[1..]);
    }
  }

  /** A step of the run, from what it does to the machine. */
  lemma SendStepIs<P>(link: Link<P>, lw: LaserWorld<P>, p: P, mv: Moved<P>)
    requires lw.tracker.enabled ==> lw.tracker.interval > 0
    requires LaserStep(link, lw, SendPacket(p)).Next?
    requires Send(lw.world.machine, link.up, link.capacity, p) == Next(mv)
    ensures
      var lw' := LaserStep(link, lw, SendPacket(p)).value;
      && lw'.world.now == lw.world.now && lw'.world.machine == mv.machine
      && lw'.world.completions == lw.world.completions + Due(link, lw.world.now, mv.started)
      && lw'.world.started == lw.world.started + Begun(lw.world.now, mv.started)
      && Next(lw'.tracker) == TrackCalls(lw.tracker, lw.world.now, false, mv.started.Some?)
  {
    SendRecords(link, lw.world, p, mv);
    RecordIs(link, lw.world.(accepted := if mv.accepted then lw.world.accepted + [p] else lw.world.accepted), mv);
  }

  lemma CompletionStepIs<P>(link: Link<P>, lw: LaserWorld<P>, mv: Moved<P>)
    requires lw.tracker.enabled ==> lw.tracker.interval > 0
    requires LaserStep(link, lw, FireCompletion).Next?
    requires Complete(lw.world.machine) == Next(mv)
    ensures
      var lw' := LaserStep(link, lw, FireCompletion).value;
      && lw'.world.now == lw.world.now && lw'.world.machine == mv.machine
      && lw'.world.completions == lw.world.completions - multiset{lw.world.now} + Due(link, lw.world.now, mv.started)
      && lw'.world.started == lw.world.started + Begun(lw.world.now, mv.started)
      && Next(lw'.tracker) == TrackCalls(lw.tracker, lw.world.now, true, mv.started.Some?)
  {
    FireRecords(link, lw.world, mv);
    RecordIs(link, Ended(lw.world), mv);
  }

  /** Nanoseconds of [lo, hi) during which some transmission occupied the device. */
  ghost function OnAirNs<P>(link: Link<P>, started: seq<Started<P>>, lo: nat, hi: nat): nat
    requires lo <= hi
    decreases hi
  {
    if lo == hi then 0 else OnAirNs(link, started, lo, hi - 1) + (if OnAir(link, started, hi - 1) then 1 else 0)
  }

  lemma {:induction false} BusyIsOnAir<P>(link: Link<P>, w: World<P>, lo: nat, hi: nat)
    requires Inv(link, w) && lo <= hi <= w.now
    ensures CountTrue(w.busy[lo..hi]) == OnAirNs(link, w.started, lo, hi)
    decreases hi
  {
    if lo < hi {
      BusyIsOnAir(link, w, lo, hi - 1);
      assert w.busy[lo..hi][..hi - lo - 1] == w.busy[lo..hi - 1];
    }
  }

  lemma Product(u: real, busy: nat, interval: nat)
    requires interval > 0 && u == busy as real / interval as real
    ensures u * interval as real == busy as real
  {
  }

  /** Entry k times the interval length is the on-air time within interval k. */
  ghost predicate EntryIsOnAirTime<P>(link: Link<P>, w: World<P>, interval: nat, k: nat, u: real)
  {
    && k * interval <= (k + 1) * interval <= w.now
    && u * interval as real == OnAirNs(link, w.started, k * interval, (k + 1) * interval) as real
  }

  /** The entry, from the log. */
  lemma EntryOfLog(u: seq<real>, interval: nat, log: seq<bool>, k: nat)
    requires Correct(u, interval, log) && k < |u|
    ensures k * interval <= (k + 1) * interval <= |log|
    ensures u[k] * interval as real == CountTrue(log[k * interval..(k + 1) * interval]) as real
  {
    Ordered(k, k + 1, interval);
    Ordered(k + 1, |u|, interval);
    Product(u[k], BusyNs(log, interval, k), interval);
  }

  lemma EntryMeaning<P>(link: Link<P>, w: World<P>, interval: nat, u: seq<real>, k: nat)
    requires Inv(link, w) && Correct(u, interval, w.busy) && k < |u|
    ensures EntryIsOnAirTime(link, w, interval, k, u[k])
  {
    EntryOfLog(u, interval, w.busy, k);
    var lo, hi := k * interval, (k + 1) * interval;
    BusyIsOnAir(link, w, lo, hi);
  }

  lemma FinalizeEntries<P>(link: Link<P>, lw: LaserWorld<P>)
    requires LaserInv(link, lw)
    ensures Finalize(lw.tracker, lw.world.now).Next?
    ensures
      var u := Finalize(lw.tracker, lw.world.now).value.utilization;
      && |u| == lw.world.now / lw.tracker.interval
      && forall k :: 0 <= k < |u| ==> EntryIsOnAirTime(link, lw.world, lw.tracker.interval, k, u[k])
  {
    TrackAgrees(lw.tracker, lw.world.busy, !lw.tracker.on);
    var u := Finalize(lw.tracker, lw.world.now).value.utilization;
    forall k | 0 <= k < |u|
      ensures EntryIsOnAirTime(link, lw.world, lw.tracker.interval, k, u[k])
    {
      EntryMeaning(link, lw.world, lw.tracker.interval, u, k);
    }
  }

  /** For every run and every interval length: the accounting never aborts, and finalizing at any
      instant leaves exactly now / interval entries, where entry k times the interval length is the
      number of nanoseconds of interval k during which a packet kept the device BUSY. */
  lemma UtilizationOfEveryRun<P>(link: Link<P>, interval: nat, actions: seq<Action<P>>)
    requires interval > 0 && Possible(link, InitialWorld(), actions)
    ensures LaserRun(link, InitialLaser(interval), actions).Next?
    ensures
      var lw := LaserRun(link, InitialLaser(interval), actions).value;
      && Run(link, InitialWorld(), actions) == Next(lw.world)
      && lw.tracker.interval == interval
      && Finalize(lw.tracker, lw.world.now).Next?
      && var u := Finalize(lw.tracker, lw.world.now).value.utilization;
         && |u| == lw.world.now / interval
         && forall k :: 0 <= k < |u| ==> EntryIsOnAirTime(link, lw.world, interval, k, u[k])
  {
    InitialLaserInv(link, interval);
    LaserRunInv(link, InitialLaser(interval), actions);
    FinalizeEntries(link, LaserRun(link, InitialLaser(interval), actions).value);
  }

  /** The same holds without finalizing, for the intervals closed up to the last tracked call. */
  lemma UtilizationDuringRun<P>(link: Link<P>, interval: nat, actions: seq<Action<P>>)
    requires interval > 0 && Possible(link, InitialWorld(), actions)
    ensures LaserRun(link, InitialLaser(interval), actions).Next?
    ensures
      var lw := LaserRun(link, InitialLaser(interval), actions).value;
      && 0 <= lw.tracker.prev <= lw.world.now
      && |lw.tracker.utilization| == lw.tracker.prev / interval
      && Correct(lw.tracker.utilization, interval, lw.world.busy)
  {
    InitialLaserInv(link, interval);
    LaserRunInv(link, InitialLaser(interval), actions);
    var lw := LaserRun(link, InitialLaser(interval), actions).value;
    Quotient(lw.tracker.prev, interval, |lw.tracker.utilization|);
  }

  // ---- finalizing in mid-run ----

  /** The books are right for the state of the device, whatever the recorded flag says: so it is after a
      FinalizeUtilization in mid-run. */
  ghost predicate BooksInv<P>(link: Link<P>, lw: LaserWorld<P>)
  {
    Inv(link, lw.world) && RightFor(lw.tracker, lw.world.busy, lw.world.machine.phase == BUSY)
  }

  /** Transmissions begun plus transmissions ended: how many tracking calls the device has made. */
  function TrackingCalls<P>(w: World<P>): nat
  {
    |w.started| + w.finished
  }

  lemma CallsIgnoreOn(t: Tracker, on: bool, now: nat, ended: bool, began: bool)
    requires t.enabled && t.interval > 0
    ensures ended || began ==> TrackCalls(t.(on := on), now, ended, began) == TrackCalls(t, now, ended, began)
  {
    if ended {
      TrackIgnoresOn(t, on, false, now);
    } else if began {
      TrackIgnoresOn(t, on, true, now);
    }
  }

  /** How an action changes the number of calls. */
  lemma CallsOfStep<P>(link: Link<P>, w: World<P>, a: Action<P>)
    requires Inv(link, w) && Enabled(w, a)
    ensures Step(link, w, a).Next?
    ensures
      var w' := Step(link, w, a).value;
      TrackingCalls(w') - TrackingCalls(w) ==
        (if a.FireCompletion? then 1 else 0) + (if |w'.started| > |w.started| then 1 else 0)
  {
    match a
    case SendPacket(p) =>
      SendInv(link, w, p);
    case FireCompletion =>
      FireInv(link, w);
    case AdvanceClock(dt) =>
  }

  lemma BooksStep<P>(link: Link<P>, lw: LaserWorld<P>, a: Action<P>)
    requires BooksInv(link, lw) && Enabled(lw.world, a)
    ensures LaserStep(link, lw, a).Next?
    ensures
      var lw' := LaserStep(link, lw, a).value;
      && BooksInv(link, lw') && Step(link, lw.world, a) == Next(lw'.world)
      && TrackingCalls(lw'.world) >= TrackingCalls(lw.world)
      && (if TrackingCalls(lw'.world) > TrackingCalls(lw.world)
          then (lw'.tracker.on <==> lw'.world.machine.phase == BUSY)
          else lw'.tracker == lw.tracker && lw'.world.machine.phase == lw.world.machine.phase)
  {
    var state := lw.world.machine.phase == BUSY;
    var tight := lw.(tracker := lw.tracker.(on := state));
    LaserStepInv(link, tight, a);
    Transitions(link, lw.world, a);
    CallsOfStep(link, lw.world, a);
    var w' := Step(link, lw.world, a).value;
    CallsIgnoreOn(lw.tracker, state, lw.world.now, a.FireCompletion?, |w'.started| > |lw.world.started|);
  }

  lemma {:induction false} BooksRun<P>(link: Link<P>, lw: LaserWorld<P>, actions: seq<Action<P>>)
    requires BooksInv(link, lw) && Possible(link, lw.world, actions)
    ensures LaserRun(link, lw, actions).Next?
    ensures
      var lw' := LaserRun(link, lw, actions).value;
      && BooksInv(link, lw')
      && TrackingCalls(lw'.world) >= TrackingCalls(lw.world)
      && (if TrackingCalls(lw'.world) > TrackingCalls(lw.world)
          then (lw'.tracker.on <==> lw'.world.machine.phase == BUSY)
          else lw'.tracker == lw.tracker && lw'.world.machine.phase == lw.world.machine.phase)
    decreases |actions|
  {
    if actions != [] {
      BooksStep(link, lw, actions[0]);
      BooksRun(link, LaserStep(link, lw, actions[0]).value, actions[1..]);
    }
  }

  /** The run goes on after FinalizeUtilization. */
  function AfterFinalize<P>(lw: LaserWorld<P>): Outcome<LaserWorld<P>>
    requires lw.tracker.enabled ==> lw.tracker.interval > 0
  {
    match Finalize(lw.tracker, lw.world.now)
    case Abort => Abort
    case Next(t) => Next(lw.(tracker := t))
  }

  lemma FinalizedBooks<P>(link: Link<P>, lw: LaserWorld<P>)
    requires LaserInv(link, lw)
    ensures AfterFinalize(lw).Next? && BooksInv(link, AfterFinalize(lw).value)
    ensures
      var f := AfterFinalize(lw).value;
      f.world == lw.world && f.tracker.on == !lw.tracker.on && f.tracker.prev == lw.world.now
  {
    FinalizeIsRightExactly(lw.tracker, lw.world.busy, lw.tracker.on);
    RightForBoth(Finalize(lw.tracker, lw.world.now).value, lw.world.busy, lw.tracker.on);
  }

  /** FinalizeUtilization twice in one run: the run goes on undisturbed after the first, and the second is
      right if and only if the device has begun or ended a transmission in between, or no time has passed. */
  lemma FinalizeTwice<P>(link: Link<P>, interval: nat, first: seq<Action<P>>, rest: seq<Action<P>>)
    requires interval > 0 && Possible(link, InitialWorld(), first)
    requires Run(link, InitialWorld(), first).Next? ==> Possible(link, Run(link, InitialWorld(), first).value, rest)
    ensures LaserRun(link, InitialLaser(interval), first).Next?
    ensures
      var lw1 := LaserRun(link, InitialLaser(interval), first).value;
      && lw1.tracker.interval == interval
      && AfterFinalize(lw1).Next?
      && LaserRun(link, AfterFinalize(lw1).value, rest).Next?
      && var lw2 := LaserRun(link, AfterFinalize(lw1).value, rest).value;
         && RightFor(lw2.tracker, lw2.world.busy, lw2.world.machine.phase == BUSY)
         && AfterFinalize(lw2).Next?
         && (Agrees(AfterFinalize(lw2).value.tracker, lw2.world.busy) <==>
               TrackingCalls(lw2.world) > TrackingCalls(lw1.world) || lw2.world.now == lw1.world.now)
  {
    InitialLaserInv(link, interval);
    LaserRunInv(link, InitialLaser(interval), first);
    var lw1 := LaserRun(link, InitialLaser(interval), first).value;
    FinalizedBooks(link, lw1);
    BooksRun(link, AfterFinalize(lw1).value, rest);
    var lw2 := LaserRun(link, AfterFinalize(lw1).value, rest).value;
    FinalizeIsRightExactly(lw2.tracker, lw2.world.busy, lw2.world.machine.phase == BUSY);
  }
}
