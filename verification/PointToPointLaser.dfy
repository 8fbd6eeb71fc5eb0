/** The laser (ISL) device and channel, updated in place. */
module PointToPointLaser {
  import opened Common
  import opened Packets
  import opened SimulatorCore
  import opened TransmitMachine
  import opened UtilizationTracker
  import opened LaserRuns
  import opened WireOrder

  datatype LaserEvent =
    | TransmitComplete(dev: PointToPointLaserNetDevice)
    | Receive(dev: PointToPointLaserNetDevice, packet: Packet)

  const N_DEVICES: nat := 2

  /** One of the two wires of a channel. */
  datatype Wire = Wire(src: PointToPointLaserNetDevice?, dst: PointToPointLaserNetDevice?, idle: bool)

  class PointToPointLaserChannel {
    const sim: Simulator<LaserEvent>
    const delay: nat -> nat  // propagation delay between the two ends, by instant
    const m_link: array<Wire>
    var m_nDevices: nat

    ghost predicate Valid()
      reads this, m_link
    {
      && m_link.Length == N_DEVICES
      && m_nDevices <= N_DEVICES
      && (m_nDevices >= 1 ==> m_link[0].src != null)
      && (m_nDevices == N_DEVICES ==>
            && m_link[1].src != null
            && m_link[0] == Wire(m_link[0].src, m_link[1].src, true)
            && m_link[1] == Wire(m_link[1].src, m_link[0].src, true))
    }

    ghost predicate Initialized()
      reads this, m_link
    {
      Valid() && m_nDevices == N_DEVICES
    }

    /** The device at the other end of the wire that src transmits on. */
    ghost function Peer(src: PointToPointLaserNetDevice): PointToPointLaserNetDevice
      requires Initialized()
      reads this, m_link
    {
      if src == m_link[0].src then m_link[1].src else m_link[0].src
    }

    constructor (sim: Simulator<LaserEvent>, delay: nat -> nat)
      ensures Valid() && m_nDevices == 0 && fresh(m_link)
      ensures this.sim == sim && this.delay == delay
    {
      this.sim, this.delay := sim, delay;
      m_nDevices := 0;
      m_link := new Wire[N_DEVICES](_ => Wire(null, null, false));
    }

    /** Attaching the two ends a and then b makes each the peer of the other. */
    method Attach(device: PointToPointLaserNetDevice)
      requires Valid() && m_nDevices < N_DEVICES
      modifies this, m_link
      ensures Valid() && m_nDevices == old(m_nDevices) + 1
      ensures m_link[old(m_nDevices)].src == device
      ensures forall i :: 0 <= i < old(m_nDevices) ==> m_link[i].src == old(m_link[i].src)
      ensures Initialized() <==> old(m_nDevices) == 1
      ensures old(m_nDevices) == 1 && old(m_link[0].src) != device ==>
                Peer(device) == old(m_link[0].src) && Peer(old(m_link[0].src)) == device
    {
      m_link[m_nDevices] := m_link[m_nDevices].(src := device);
      m_nDevices := m_nDevices + 1;
      if m_nDevices == N_DEVICES {
        m_link[0] := m_link[0].(dst := m_link[1].src);
        m_link[1] := m_link[1].(dst := m_link[0].src);
        m_link[0] := m_link[0].(idle := true);
        m_link[1] := m_link[1].(idle := true);
      }
    }

    method TransmitStart(p: Packet, src: PointToPointLaserNetDevice, txTime: nat) returns (result: bool)
      requires Initialized()
      modifies sim`pending
      ensures result
      ensures sim.pending == old(sim.pending) + multiset{(sim.now + txTime + delay(sim.now), Receive(Peer(src), p))}
    {
      var wire := if src == m_link[0].src then 0 else 1;
      sim.Schedule(txTime + delay(sim.now), Receive(m_link[wire].dst, p));
      result := true;
    }
  }

  class PointToPointLaserNetDevice {
    const sim: Simulator<LaserEvent>
    const txTime: Packet -> nat      // m_bps.CalculateBytesTxTime of the packet's size
    const m_tInterframeGap: nat
    const capacity: nat              // of the drop-tail queue

    var m_channel: PointToPointLaserChannel?
    var m_linkUp: bool
    var m_txMachineState: Phase
    var m_currentPkt: Option<Packet>
    var m_queue: seq<Packet>

    var m_utilization_tracking_enabled: bool
    var m_interval_ns: int
    var m_prev_time_ns: int
    var m_current_interval_start: int
    var m_current_interval_end: int
    var m_idle_time_counter_ns: int
    var m_busy_time_counter_ns: int
    var m_current_state_is_on: bool
    var m_utilization: seq<real>

    /** A device that is up is on a channel with both ends attached, in the same simulator. */
    ghost predicate Valid()
      reads this, m_channel, if m_channel == null then {} else {m_channel.m_link}
    {
      && (m_utilization_tracking_enabled ==> m_interval_ns > 0)
      && (m_linkUp ==> m_channel != null && m_channel.Initialized() && m_channel.sim == sim)
    }

    function Transmitter(): Machine<Packet>
      reads this
    {
      Machine(m_txMachineState, m_currentPkt, m_queue)
    }

    function Books(): Tracker
      reads this
    {
      Tracker(m_utilization_tracking_enabled, m_interval_ns, m_prev_time_ns, m_current_interval_start,
              m_current_interval_end, m_idle_time_counter_ns, m_busy_time_counter_ns,
              m_current_state_is_on, m_utilization)
    }

    function LinkOf(): Link<Packet>
      reads this
    {
      Link(capacity, m_linkUp, txTime, m_tInterframeGap)
    }

    /** The events scheduled when p goes on the wire now: the end of the transmission here, and the
        reception of p at the other end. */
    ghost function Scheduled(started: Option<Packet>): multiset<(nat, LaserEvent)>
      requires started.Some? ==> m_channel != null && m_channel.Initialized()
      reads this, sim, m_channel, if m_channel == null then {} else {m_channel.m_link}
    {
      match started
      case None => multiset{}
      case Some(p) =>
        multiset{(sim.now + txTime(p) + m_tInterframeGap, LaserEvent.TransmitComplete(this)),
                 (sim.now + txTime(p) + m_channel.delay(sim.now), Receive(m_channel.Peer(this), p))}
    }

    /** The receptions of these transmissions at the other end. */
    ghost function Received(started: seq<Started<Packet>>): seq<(nat, LaserEvent)>
      requires m_channel != null && m_channel.Initialized()
      reads this, m_channel, if m_channel == null then {} else {m_channel.m_link}
    {
      Receptions(LinkOf(), m_channel.delay, m_channel.Peer(this), started)
    }

    /** The device is where the run lw is. */
    ghost predicate Follows(lw: LaserWorld<Packet>)
      reads this, sim
    {
      && sim.now == lw.world.now
      && Transmitter() == lw.world.machine
      && Books() == lw.tracker
      && SameCompletions(this, sim.pending, lw.world.completions)
    }

    constructor (sim: Simulator<LaserEvent>, txTime: Packet -> nat, gap: nat, capacity: nat)
      ensures Valid() && !m_linkUp && Transmitter() == InitialMachine()
      ensures !m_utilization_tracking_enabled && m_utilization == []
      ensures this.sim == sim && this.capacity == capacity && m_tInterframeGap == gap && this.txTime == txTime
    {
      this.sim, this.txTime, this.m_tInterframeGap, this.capacity := sim, txTime, gap, capacity;
      m_channel, m_linkUp := null, false;
      m_txMachineState, m_currentPkt, m_queue := READY, None, [];
      m_utilization_tracking_enabled, m_utilization := false, [];
      m_interval_ns, m_prev_time_ns, m_current_interval_start, m_current_interval_end := 0, 0, 0, 0;
      m_idle_time_counter_ns, m_busy_time_counter_ns, m_current_state_is_on := 0, 0, false;
    }

    method EnableUtilizationTracking(interval_ns: int)
      modifies `m_utilization_tracking_enabled, `m_interval_ns, `m_idle_time_counter_ns, `m_busy_time_counter_ns,
        `m_prev_time_ns, `m_current_interval_start, `m_current_interval_end, `m_current_state_is_on, `m_utilization
      ensures Books() == Enable(old(m_utilization), interval_ns)
      ensures m_utilization_tracking_enabled && m_interval_ns == interval_ns && m_utilization == old(m_utilization)
    {
      m_utilization_tracking_enabled := true;
      m_interval_ns := interval_ns;
      m_prev_time_ns := 0;
      m_current_interval_start := 0;
      m_current_interval_end := m_interval_ns;
      m_idle_time_counter_ns := 0;
      m_busy_time_counter_ns := 0;
      m_current_state_is_on := false;
    }

    /** The catch-up loop refines CatchUp, turn by turn; not ok is "Not all time is accounted for". */
    method CatchUpIntervals(next_state_is_on: bool) returns (ok: bool)
      requires m_utilization_tracking_enabled && m_interval_ns > 0
      modifies `m_idle_time_counter_ns, `m_busy_time_counter_ns, `m_prev_time_ns, `m_current_interval_start,
        `m_current_interval_end, `m_utilization
      ensures ok <==> CatchUp(old(Books()), next_state_is_on, sim.now).Next?
      ensures ok ==> CatchUp(old(Books()), next_state_is_on, sim.now) == Next(Books())
    {
      while sim.now >= m_current_interval_end
        invariant m_utilization_tracking_enabled && m_interval_ns > 0
        invariant CatchUp(Books(), next_state_is_on, sim.now) == CatchUp(old(Books()), next_state_is_on, sim.now)
        decreases sim.now - m_current_interval_end
      {
        ghost var open := Books();
        if next_state_is_on {
          m_idle_time_counter_ns := m_idle_time_counter_ns + (m_current_interval_end - m_prev_time_ns);
        } else {
          m_busy_time_counter_ns := m_busy_time_counter_ns + (m_current_interval_end - m_prev_time_ns);
        }
        m_utilization := m_utilization + [m_busy_time_counter_ns as real / m_interval_ns as real];
        if m_idle_time_counter_ns + m_busy_time_counter_ns != m_interval_ns {
          return false;
        }
        m_idle_time_counter_ns := 0;
        m_busy_time_counter_ns := 0;
        m_prev_time_ns := m_current_interval_end;
        m_current_interval_start := m_current_interval_start + m_interval_ns;
        m_current_interval_end := m_current_interval_end + m_interval_ns;
        assert CloseInterval(open, next_state_is_on) == Outcome.Next(Books());
      }
      ok := true;
    }

    method TrackUtilization(next_state_is_on: bool) returns (r: Outcome<bool>)
      requires m_utilization_tracking_enabled ==> m_interval_ns > 0
      modifies `m_idle_time_counter_ns, `m_busy_time_counter_ns, `m_prev_time_ns, `m_current_interval_start,
        `m_current_interval_end, `m_current_state_is_on, `m_utilization
      ensures r.Abort? <==> Track(old(Books()), next_state_is_on, sim.now).Abort?
      ensures r.Next? ==> Track(old(Books()), next_state_is_on, sim.now) == Next(Books())
      ensures m_txMachineState == old(m_txMachineState) && m_currentPkt == old(m_currentPkt) && m_queue == old(m_queue)
    {
      if m_utilization_tracking_enabled {
        var now_ns := sim.now;
        var ok := CatchUpIntervals(next_state_is_on);
        if !ok {
          return Abort;
        }
        if next_state_is_on {
          m_idle_time_counter_ns := m_idle_time_counter_ns + (now_ns - m_prev_time_ns);
        } else {
          m_busy_time_counter_ns := m_busy_time_counter_ns + (now_ns - m_prev_time_ns);
        }
        m_current_state_is_on := next_state_is_on;
        m_prev_time_ns := now_ns;
      }
      r := Next(true);
    }

    method FinalizeUtilization() returns (r: Outcome<seq<real>>)
      requires m_utilization_tracking_enabled ==> m_interval_ns > 0
      modifies `m_idle_time_counter_ns, `m_busy_time_counter_ns, `m_prev_time_ns, `m_current_interval_start,
        `m_current_interval_end, `m_current_state_is_on, `m_utilization
      ensures r.Abort? <==> Finalize(old(Books()), sim.now).Abort?
      ensures r.Next? ==> Finalize(old(Books()), sim.now) == Next(Books()) && r.value == m_utilization
    {
      var t := TrackUtilization(!m_current_state_is_on);
      r := if t.Abort? then Abort else Next(m_utilization);
    }

    /** The second half of TransmitStart: schedule the end of the transmission and hand p to the channel. */
    method Occupy(p: Packet) returns (r: Outcome<bool>)
      requires Valid() && m_linkUp
      modifies sim`pending
      ensures r == Next(true)
      ensures sim.pending == old(sim.pending) + Scheduled(Some(p))
    {
      var txTime := this.txTime(p);
      var txCompleteTime := txTime + m_tInterframeGap;
      ghost var before := sim.pending;
      ghost var end := (sim.now + txCompleteTime, LaserEvent.TransmitComplete(this));
      ghost var reception := (sim.now + txTime + m_channel.delay(sim.now), Receive(m_channel.Peer(this), p));
      TwoEvents(before, end, reception);
      assert Scheduled(Some(p)) == multiset{end, reception};
      sim.Schedule(txCompleteTime, LaserEvent.TransmitComplete(this));
      var result := m_channel.TransmitStart(p, this, txTime);
      assert sim.pending == before + multiset{end} + multiset{reception};
      r := Next(result);
    }

    method TransmitStart(p: Packet) returns (r: Outcome<bool>)
      requires Valid() && m_linkUp
      requires m_txMachineState == READY
      modifies this, sim`pending
      ensures m_channel == old(m_channel) && m_linkUp
      ensures r.Abort? <==> Track(old(Books()), true, sim.now).Abort?
      ensures r.Next? ==>
                && r.value && Valid()
                && Next(Transmitter()) == Start(old(Transmitter()), p)
                && Next(Books()) == Track(old(Books()), true, sim.now)
                && sim.pending == old(sim.pending) + Scheduled(Some(p))
    {
      m_txMachineState := BUSY;
      m_currentPkt := Some(p);
      assert Books() == old(Books());
      var t := TrackUtilization(true);
      if t.Abort? {
        return Abort;
      }
      r := Occupy(p);
    }

    method TransmitComplete() returns (r: Outcome<bool>)
      requires Valid() && m_linkUp
      requires m_txMachineState == BUSY && m_currentPkt.Some?
      modifies this, sim`pending
      ensures m_channel == old(m_channel) && m_linkUp
      ensures
        var mv := Complete(old(Transmitter())).value;
        var books := TrackCalls(old(Books()), sim.now, true, mv.started.Some?);
        && (r.Abort? <==> books.Abort?)
        && (r.Next? ==>
              && Valid()
              && Transmitter() == mv.machine
              && Next(Books()) == books
              && sim.pending == old(sim.pending) + Scheduled(mv.started))
    {
      m_txMachineState := READY;
      var t := TrackUtilization(false);
      if t.Abort? {
        return Abort;
      }
      m_currentPkt := None;
      if m_queue == [] {
        return Next(true);
      }
      var p := m_queue[0];
      m_queue := m_queue[1..];
      r := TransmitStart(p);
    }

    method Send(packet: Packet) returns (r: Outcome<bool>)
      requires Valid()
      modifies this, sim`pending
      ensures m_channel == old(m_channel) && m_linkUp == old(m_linkUp)
      ensures TransmitMachine.Send(old(Transmitter()), m_linkUp, capacity, AddHeader(packet)).Next?
      ensures
        var mv := TransmitMachine.Send(old(Transmitter()), m_linkUp, capacity, AddHeader(packet)).value;
        var books := TrackCalls(old(Books()), sim.now, false, mv.started.Some?);
        && (r.Abort? <==> books.Abort?)
        && (r.Next? ==>
              && Valid()
              && r.value == mv.accepted
              && Transmitter() == mv.machine
              && Next(Books()) == books
              && sim.pending == old(sim.pending) + Scheduled(mv.started))
    {
      if !m_linkUp {
        return Next(false);
      }
      var framed := AddHeader(packet);
      if |m_queue| < capacity {
        m_queue := m_queue + [framed];
        if m_txMachineState == READY {
          var p := m_queue[0];
          m_queue := m_queue[1..];
          r := TransmitStart(p);
          return;
        }
        return Next(true);
      }
      r := Next(false);
    }
  }

  lemma TwoEvents(pending: multiset<(nat, LaserEvent)>, a: (nat, LaserEvent), b: (nat, LaserEvent))
    ensures pending + multiset{a} + multiset{b} == pending + multiset{a, b}
  {
  }

  function FramedAction(a: Action<Packet>): Action<Packet>
  {
    match a
    case SendPacket(p) => SendPacket(AddHeader(p))
    case FireCompletion => FireCompletion
    case AdvanceClock(dt) => AdvanceClock(dt)
  }

  function Framed(script: seq<Action<Packet>>): seq<Action<Packet>>
  {
    if script == [] then [] else [FramedAction(script[0])] + Framed(script[1..])
  }

  ghost predicate SameAt(dev: PointToPointLaserNetDevice, pending: multiset<(nat, LaserEvent)>,
      completions: multiset<nat>, t: nat)
  {
    pending[(t, LaserEvent.TransmitComplete(dev))] == completions[t]
  }

  /** The pending TransmitComplete events of dev are those of the run. */
  ghost predicate SameCompletions(dev: PointToPointLaserNetDevice, pending: multiset<(nat, LaserEvent)>,
      completions: multiset<nat>)
  {
    forall t: nat :: SameAt(dev, pending, completions, t)
  }

  lemma SameCompletionsTake(dev: PointToPointLaserNetDevice, pending: multiset<(nat, LaserEvent)>,
      completions: multiset<nat>, now: nat)
    requires SameCompletions(dev, pending, completions)
    ensures SameCompletions(dev, pending - multiset{(now, LaserEvent.TransmitComplete(dev))},
                            completions - multiset{now})
  {
    forall t: nat
      ensures SameAt(dev, pending - multiset{(now, LaserEvent.TransmitComplete(dev))}, completions - multiset{now}, t)
    {
      assert SameAt(dev, pending, completions, t);
    }
  }

  /** Putting a packet on the wire adds one completion, and a reception that is none. */
  lemma SameCompletionsAdd(dev: PointToPointLaserNetDevice, pending: multiset<(nat, LaserEvent)>,
      completions: multiset<nat>, end: nat, arrival: nat, peer: PointToPointLaserNetDevice, p: Packet)
    requires SameCompletions(dev, pending, completions)
    ensures SameCompletions(dev,
              pending + multiset{(end, LaserEvent.TransmitComplete(dev)), (arrival, Receive(peer, p))},
              completions + multiset{end})
  {
    var pending' := pending + multiset{(end, LaserEvent.TransmitComplete(dev)), (arrival, Receive(peer, p))};
    forall t: nat
      ensures SameAt(dev, pending', completions + multiset{end}, t)
    {
      assert SameAt(dev, pending, completions, t);
      assert (t, LaserEvent.TransmitComplete(dev)) != (arrival, Receive(peer, p));
    }
  }

  /** The events a device schedules are the completion that the run records. */
  lemma PendingFollows(dev: PointToPointLaserNetDevice, pending: multiset<(nat, LaserEvent)>,
      completions: multiset<nat>, started: Option<Packet>)
    requires dev.Valid() && dev.m_linkUp
    requires SameCompletions(dev, pending, completions)
    ensures SameCompletions(dev, pending + dev.Scheduled(started),
                            completions + Due(dev.LinkOf(), dev.sim.now, started))
  {
    match started
    case None =>
      assert pending + multiset{} == pending && completions + multiset{} == completions;
    case Some(q) =>
      var end := dev.sim.now + dev.txTime(q) + dev.m_tInterframeGap;
      var arrival := dev.sim.now + dev.txTime(q) + dev.m_channel.delay(dev.sim.now);
      var peer := dev.m_channel.Peer(dev);
      assert dev.Scheduled(started) ==
        multiset{(end, LaserEvent.TransmitComplete(dev)), (arrival, Receive(peer, q))};
      assert Due(dev.LinkOf(), dev.sim.now, started) == multiset{end};
      SameCompletionsAdd(dev, pending, completions, end, arrival, peer, q);
  }

  // ---- receptions at the other end ----

  /** The receptions of the transmissions at the peer, in their order. */
  ghost function Receptions(link: Link<Packet>, delay: nat -> nat, peer: PointToPointLaserNetDevice,
      started: seq<Started<Packet>>): (rs: seq<(nat, LaserEvent)>)
    ensures |rs| == |started|
    ensures forall i :: 0 <= i < |rs| ==> rs[i] == (Arrival(link, delay, started[i]), Receive(peer, started[i].job))
  {
    seq(|started|, i requires 0 <= i < |started| =>
      (Arrival(link, delay, started[i]), Receive(peer, started[i].job)))
  }

  ghost predicate GrownBy(before: multiset<(nat, LaserEvent)>, pending: multiset<(nat, LaserEvent)>,
      receptions: seq<(nat, LaserEvent)>, e: (nat, LaserEvent))
  {
    pending[e] == before[e] + multiset(receptions)[e]
  }

  /** The pending receptions are those from before and these. */
  ghost predicate SameReceptions(before: multiset<(nat, LaserEvent)>, pending: multiset<(nat, LaserEvent)>,
      receptions: seq<(nat, LaserEvent)>)
  {
    forall e :: e in before + pending + multiset(receptions) && e.1.Receive? ==> GrownBy(before, pending, receptions, e)
  }

  lemma GrownEverywhere(before: multiset<(nat, LaserEvent)>, pending: multiset<(nat, LaserEvent)>,
      receptions: seq<(nat, LaserEvent)>, e: (nat, LaserEvent))
    requires SameReceptions(before, pending, receptions) && e.1.Receive?
    ensures GrownBy(before, pending, receptions, e)
  {
    if e !in before + pending + multiset(receptions) {
      assert (before + pending + multiset(receptions))[e] == 0;
    }
  }

  lemma SameReceptionsTake(dev: PointToPointLaserNetDevice, before: multiset<(nat, LaserEvent)>,
      pending: multiset<(nat, LaserEvent)>, receptions: seq<(nat, LaserEvent)>, now: nat)
    requires SameReceptions(before, pending, receptions)
    ensures SameReceptions(before, pending - multiset{(now, LaserEvent.TransmitComplete(dev))}, receptions)
  {
    forall e: (nat, LaserEvent) | e.1.Receive?
      ensures GrownBy(before, pending - multiset{(now, LaserEvent.TransmitComplete(dev))}, receptions, e)
    {
      GrownEverywhere(before, pending, receptions, e);
    }
  }

  lemma SameReceptionsAdd(dev: PointToPointLaserNetDevice, before: multiset<(nat, LaserEvent)>,
      pending: multiset<(nat, LaserEvent)>, receptions: seq<(nat, LaserEvent)>, end: nat, r: (nat, LaserEvent))
    requires SameReceptions(before, pending, receptions)
    ensures SameReceptions(before, pending + multiset{(end, LaserEvent.TransmitComplete(dev)), r}, receptions + [r])
  {
    forall e: (nat, LaserEvent) | e.1.Receive?
      ensures GrownBy(before, pending + multiset{(end, LaserEvent.TransmitComplete(dev)), r}, receptions + [r], e)
    {
      GrownEverywhere(before, pending, receptions, e);
      assert e != (end, LaserEvent.TransmitComplete(dev));
    }
  }

  lemma ScheduledIs(dev: PointToPointLaserNetDevice, q: Packet)
    requires dev.m_channel != null && dev.m_channel.Initialized()
    ensures dev.Scheduled(Some(q)) ==
            multiset{(dev.sim.now + dev.txTime(q) + dev.m_tInterframeGap, LaserEvent.TransmitComplete(dev)),
                     ReceptionNow(dev, q)}
  {
  }

  ghost function ReceptionNow(dev: PointToPointLaserNetDevice, q: Packet): (nat, LaserEvent)
    requires dev.m_channel != null && dev.m_channel.Initialized()
    reads dev, dev.sim, dev.m_channel, if dev.m_channel == null then {} else {dev.m_channel.m_link}
  {
    (dev.sim.now + dev.txTime(q) + dev.m_channel.delay(dev.sim.now), Receive(dev.m_channel.Peer(dev), q))
  }

  lemma ReceivedNext(dev: PointToPointLaserNetDevice, sent: seq<Started<Packet>>, q: Packet)
    requires dev.m_channel != null && dev.m_channel.Initialized()
    ensures dev.Received(sent + Begun(dev.sim.now, Some(q))) == dev.Received(sent) + [ReceptionNow(dev, q)]
  {
  }

  /** The receptions so far, with those that a call has scheduled. */
  lemma ReceptionsFollow(dev: PointToPointLaserNetDevice, before: multiset<(nat, LaserEvent)>,
      pending: multiset<(nat, LaserEvent)>, sent: seq<Started<Packet>>, begun: Option<Packet>)
    requires dev.Valid() && dev.m_linkUp
    requires SameReceptions(before, pending, dev.Received(sent))
    ensures SameReceptions(before, pending + dev.Scheduled(begun), dev.Received(sent + Begun(dev.sim.now, begun)))
  {
    match begun
    case None =>
      assert pending + multiset{} == pending && sent + [] == sent;
    case Some(q) =>
      ScheduledIs(dev, q);
      ReceivedNext(dev, sent, q);
      SameReceptionsAdd(dev, before, pending, dev.Received(sent),
                        dev.sim.now + dev.txTime(q) + dev.m_tInterframeGap, ReceptionNow(dev, q));
  }

  /** Where delivery is in order, so are the times of the receptions. */
  lemma ReceptionsInOrder(link: Link<Packet>, sends: Packet -> bool, b: real, delay: nat -> nat, exact: nat -> real,
      peer: PointToPointLaserNetDevice, actions: seq<Action<Packet>>)
    requires Safe(link, sends, b) && WireOrder.Wire(delay, exact, b) && RunOf(link, sends, actions)
    ensures
      var rs := Receptions(link, delay, peer, Run(link, InitialWorld(), actions).value.started);
      forall i, j :: 0 <= i < j < |rs| ==> rs[i].0 <= rs[j].0
  {
    SafeIsInOrder(link, sends, b, delay, exact, actions);
  }

  // ---- what is put on the wire ----

  /** Some Send of the script gave this packet, two bytes shorter. */
  ghost predicate WasSent(script: seq<Action<Packet>>, p: Packet)
  {
    exists i :: 0 <= i < |script| && script[i].SendPacket?
      && p.uid == script[i].packet.uid && p.size == script[i].packet.size + 2
  }

  lemma {:induction false} FramedIs(script: seq<Action<Packet>>)
    ensures |Framed(script)| == |script|
    ensures forall i :: 0 <= i < |script| ==> Framed(script)[i] == FramedAction(script[i])
    decreases |script|
  {
    if script != [] {
      FramedIs(script[1..]);
    }
  }

  /** Whatever a run puts on the wire was given to a Send of its script. */
  lemma StartedWasSent(link: Link<Packet>, script: seq<Action<Packet>>, n: nat)
    requires Possible(link, InitialWorld(), Framed(script)) && Run(link, InitialWorld(), Framed(script)).Next?
    requires n < |Run(link, InitialWorld(), Framed(script)).value.started|
    ensures WasSent(script, Run(link, InitialWorld(), Framed(script)).value.started[n].job)
  {
    FramedIs(script);
    StartedAreCarried(link, (p: Packet) => WasSent(script, p), Framed(script), n);
  }

  // ---- the device under an event loop ----

  /** The device is where the run is, and besides the receptions from before, exactly those of the
      transmissions of the run are pending. */
  ghost predicate Simulates(dev: PointToPointLaserNetDevice, link: Link<Packet>, lw: LaserWorld<Packet>,
      before: multiset<(nat, LaserEvent)>)
    reads dev, dev.sim, dev.m_channel, if dev.m_channel == null then {} else {dev.m_channel.m_link}
  {
    && dev.Valid() && dev.m_linkUp && dev.LinkOf() == link && dev.Follows(lw)
    && SameReceptions(before, dev.sim.pending, dev.Received(lw.world.started))
  }

  method SimulateSend(dev: PointToPointLaserNetDevice, p: Packet, ghost link: Link<Packet>,
      ghost lw: LaserWorld<Packet>, ghost before: multiset<(nat, LaserEvent)>) returns (ok: bool)
    requires RunningInv(link, lw) && Simulates(dev, link, lw, before)
    modifies dev, dev.sim`pending
    ensures ok
    ensures LaserStep(link, lw, SendPacket(AddHeader(p))).Next?
    ensures dev.m_channel == old(dev.m_channel)
    ensures Simulates(dev, link, LaserStep(link, lw, SendPacket(AddHeader(p))).value, before)
  {
    ghost var mv := TransmitMachine.Send(dev.Transmitter(), true, dev.capacity, AddHeader(p)).value;
    ghost var pending := dev.sim.pending;
    RunningStep(link, lw, SendPacket(AddHeader(p)));
    SendStepIs(link, lw, AddHeader(p), mv);
    var r := dev.Send(p);
    ok := r.Next?;
    PendingFollows(dev, pending, lw.world.completions, mv.started);
    ReceptionsFollow(dev, before, pending, lw.world.started, mv.started);
  }

  method TakeCompletion(dev: PointToPointLaserNetDevice, ghost lw: LaserWorld<Packet>,
      ghost before: multiset<(nat, LaserEvent)>)
    requires dev.Valid() && dev.m_linkUp && dev.Follows(lw) && lw.world.now in lw.world.completions
    requires SameReceptions(before, dev.sim.pending, dev.Received(lw.world.started))
    modifies dev.sim`pending
    ensures SameCompletions(dev, dev.sim.pending, lw.world.completions - multiset{dev.sim.now})
    ensures SameReceptions(before, dev.sim.pending, dev.Received(lw.world.started))
  {
    SameCompletionsTake(dev, dev.sim.pending, lw.world.completions, dev.sim.now);
    SameReceptionsTake(dev, before, dev.sim.pending, dev.Received(lw.world.started), dev.sim.now);
    assert SameAt(dev, dev.sim.pending, lw.world.completions, dev.sim.now);
    dev.sim.Take(LaserEvent.TransmitComplete(dev));
  }

  /** The TransmitComplete that has been taken from the queue, carried out. */
  method CarryOut(dev: PointToPointLaserNetDevice, ghost mv: Moved<Packet>, ghost completions: multiset<nat>,
      ghost sent: seq<Started<Packet>>, ghost before: multiset<(nat, LaserEvent)>) returns (ok: bool)
    requires dev.Valid() && dev.m_linkUp && dev.m_txMachineState == BUSY && dev.m_currentPkt.Some?
    requires Complete(dev.Transmitter()) == Next(mv)
    requires TrackCalls(dev.Books(), dev.sim.now, true, mv.started.Some?).Next?
    requires SameCompletions(dev, dev.sim.pending, completions)
    requires SameReceptions(before, dev.sim.pending, dev.Received(sent))
    modifies dev, dev.sim`pending
    ensures ok
    ensures dev.Valid() && dev.m_linkUp && dev.LinkOf() == old(dev.LinkOf()) && dev.m_channel == old(dev.m_channel)
    ensures dev.Transmitter() == mv.machine
    ensures Next(dev.Books()) == TrackCalls(old(dev.Books()), dev.sim.now, true, mv.started.Some?)
    ensures SameCompletions(dev, dev.sim.pending, completions + Due(dev.LinkOf(), dev.sim.now, mv.started))
    ensures SameReceptions(before, dev.sim.pending, dev.Received(sent + Begun(dev.sim.now, mv.started)))
  {
    ghost var pending := dev.sim.pending;
    var r := dev.TransmitComplete();
    ok := r.Next?;
    PendingFollows(dev, pending, completions, mv.started);
    ReceptionsFollow(dev, before, pending, sent, mv.started);
  }

  lemma CompletionIsPossible(link: Link<Packet>, lw: LaserWorld<Packet>)
    requires RunningInv(link, lw) && Enabled(lw.world, FireCompletion)
    ensures lw.world.machine.phase == BUSY && lw.world.machine.current.Some? && Complete(lw.world.machine).Next?
  {
  }

  method SimulateCompletion(dev: PointToPointLaserNetDevice, ghost link: Link<Packet>,
      ghost lw: LaserWorld<Packet>, ghost before: multiset<(nat, LaserEvent)>) returns (ok: bool)
    requires RunningInv(link, lw) && Simulates(dev, link, lw, before) && Enabled(lw.world, FireCompletion)
    modifies dev, dev.sim`pending
    ensures ok
    ensures LaserStep(link, lw, FireCompletion).Next?
    ensures dev.m_channel == old(dev.m_channel)
    ensures Simulates(dev, link, LaserStep(link, lw, FireCompletion).value, before)
  {
    CompletionIsPossible(link, lw);
    ghost var mv := Complete(lw.world.machine).value;
    RunningStep(link, lw, FireCompletion);
    CompletionStepIs(link, lw, mv);
    TakeCompletion(dev, lw, before);
    ok := CarryOut(dev, mv, lw.world.completions - multiset{dev.sim.now}, lw.world.started, before);
  }

  method SimulateStep(dev: PointToPointLaserNetDevice, a: Action<Packet>, ghost link: Link<Packet>,
      ghost lw: LaserWorld<Packet>, ghost before: multiset<(nat, LaserEvent)>) returns (ok: bool)
    requires RunningInv(link, lw) && Simulates(dev, link, lw, before) && Enabled(lw.world, FramedAction(a))
    modifies dev, dev.sim
    ensures ok
    ensures LaserStep(link, lw, FramedAction(a)).Next?
    ensures dev.m_channel == old(dev.m_channel)
    ensures Simulates(dev, link, LaserStep(link, lw, FramedAction(a)).value, before)
  {
    match a {
      case SendPacket(p) => ok := SimulateSend(dev, p, link, lw, before);
      case FireCompletion => ok := SimulateCompletion(dev, link, lw, before);
      case AdvanceClock(dt) =>
        SimulateWait(dev, dt, link, lw, before);
        ok := true;
    }
  }

  method SimulateWait(dev: PointToPointLaserNetDevice, dt: nat, ghost link: Link<Packet>,
      ghost lw: LaserWorld<Packet>, ghost before: multiset<(nat, LaserEvent)>)
    requires RunningInv(link, lw) && Simulates(dev, link, lw, before) && Enabled(lw.world, AdvanceClock(dt))
    modifies dev.sim`now
    ensures LaserStep(link, lw, AdvanceClock(dt)).Next?
    ensures Simulates(dev, link, LaserStep(link, lw, AdvanceClock(dt)).value, before)
  {
    RunningStep(link, lw, AdvanceClock(dt));
    dev.sim.Advance(dt);
  }

  method SimulateScript(dev: PointToPointLaserNetDevice, script: seq<Action<Packet>>, ghost link: Link<Packet>,
      ghost lw: LaserWorld<Packet>, ghost before: multiset<(nat, LaserEvent)>) returns (ok: bool)
    requires RunningInv(link, lw) && Simulates(dev, link, lw, before) && Possible(link, lw.world, Framed(script))
    modifies dev, dev.sim
    ensures ok
    ensures LaserRun(link, lw, Framed(script)).Next?
    ensures dev.m_channel == old(dev.m_channel)
    ensures Simulates(dev, link, LaserRun(link, lw, Framed(script)).value, before)
    decreases |script|
  {
    ok := true;
    if script != [] {
      RunningStep(link, lw, FramedAction(script[0]));
      var first := SimulateStep(dev, script[0], link, lw, before);
      assert Framed(script)[1..] == Framed(script[1..]);
      var rest := SimulateScript(dev, script[1..], link, LaserStep(link, lw, FramedAction(script[0])).value, before);
      ok := first && rest;
    }
  }

  /** The event loop around one attached device: any script of Sends, completions and passing time that
      the event queue allows, and then FinalizeUtilization. Nothing aborts, m_utilization ends with one
      entry per whole interval, holding the share of it during which a packet was on air, and the receptions
      added to the queue are exactly those of the transmissions, each at the peer at its arrival time. */
  method SimulateUtilization(dev: PointToPointLaserNetDevice, interval: nat, script: seq<Action<Packet>>)
    returns (u: Outcome<seq<real>>)
    requires dev.Valid() && dev.m_linkUp && interval > 0
    requires dev.Follows(InitialLaser(interval))
    requires Possible(dev.LinkOf(), InitialWorld(), Framed(script))
    modifies dev, dev.sim
    ensures Run(old(dev.LinkOf()), InitialWorld(), Framed(script)).Next?
    ensures
      var w := Run(old(dev.LinkOf()), InitialWorld(), Framed(script)).value;
      && dev.sim.now == w.now
      && u == Next(dev.m_utilization)
      && |dev.m_utilization| == w.now / interval
      && forall k :: 0 <= k < |dev.m_utilization| ==>
           EntryIsOnAirTime(old(dev.LinkOf()), w, interval, k, dev.m_utilization[k])
    ensures dev.Valid() && dev.m_linkUp && dev.m_channel == old(dev.m_channel)
    ensures
      var w := Run(old(dev.LinkOf()), InitialWorld(), Framed(script)).value;
      SameReceptions(old(dev.sim.pending), dev.sim.pending,
        Receptions(old(dev.LinkOf()), dev.m_channel.delay, old(dev.m_channel.Peer(dev)), w.started))
  {
    ghost var link, before := dev.LinkOf(), dev.sim.pending;
    InitialLaserInv(link, interval);
    UtilizationOfEveryRun(link, interval, Framed(script));
    LaserRunInv(link, InitialLaser(interval), Framed(script));
    var ok := SimulateScript(dev, script, link, InitialLaser(interval), before);
    if !ok {
      return Abort;
    }
    u := dev.FinalizeUtilization();
  }

  /** The event loop around a device that does not track: no call aborts, all fields of the accounting stay as
      they are, the transmit machine is that of the run, and the receptions added to the queue are exactly
      those of the transmissions. */
  method SimulateUntracked(dev: PointToPointLaserNetDevice, script: seq<Action<Packet>>) returns (ok: bool)
    requires dev.Valid() && dev.m_linkUp && !dev.m_utilization_tracking_enabled
    requires dev.Follows(LaserWorld(InitialWorld(), dev.Books()))
    requires Possible(dev.LinkOf(), InitialWorld(), Framed(script))
    modifies dev, dev.sim
    ensures ok
    ensures !dev.m_utilization_tracking_enabled && dev.m_utilization == old(dev.m_utilization)
    ensures dev.m_interval_ns == old(dev.m_interval_ns) && dev.m_prev_time_ns == old(dev.m_prev_time_ns)
    ensures dev.m_current_interval_start == old(dev.m_current_interval_start)
    ensures dev.m_current_interval_end == old(dev.m_current_interval_end)
    ensures dev.m_idle_time_counter_ns == old(dev.m_idle_time_counter_ns)
    ensures dev.m_busy_time_counter_ns == old(dev.m_busy_time_counter_ns)
    ensures dev.m_current_state_is_on == old(dev.m_current_state_is_on)
    ensures dev.Valid() && dev.m_linkUp && dev.m_channel == old(dev.m_channel)
    ensures Run(old(dev.LinkOf()), InitialWorld(), Framed(script)).Next?
    ensures
      var w := Run(old(dev.LinkOf()), InitialWorld(), Framed(script)).value;
      && dev.sim.now == w.now
      && Machine(dev.m_txMachineState, dev.m_currentPkt, dev.m_queue) == w.machine
      && SameReceptions(old(dev.sim.pending), dev.sim.pending,
           Receptions(old(dev.LinkOf()), dev.m_channel.delay, old(dev.m_channel.Peer(dev)), w.started))
  {
    ghost var link, before, lw := dev.LinkOf(), dev.sim.pending, LaserWorld(InitialWorld(), dev.Books());
    InitialInv(link);
    RunWithoutTracking(link, lw, Framed(script));
    ok := SimulateScript(dev, script, link, lw, before);
  }
}
