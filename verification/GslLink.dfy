/** The GSL device with its two parallel queues, and the shared GSL channel, updated in place. */
module GslLink {
  import opened Common
  import opened Packets
  import opened SimulatorCore
  import opened TransmitMachine
  import WireOrder

  type Address = int  // a MAC address

  /** What one slot of the two queues holds together. */
  datatype Job = Job(packet: Packet, dest: Address)

  datatype GslEvent =
    | TransmitComplete(dev: GSLNetDevice, dest: Address)
    | Receive(dev: GSLNetDevice, packet: Packet)

  /** One packet given to the channel: when, by whom, and where its receipt was scheduled. */
  datatype Handover = Handover(at: nat, src: GSLNetDevice, job: Job, dst: GSLNetDevice, arrival: nat)

  function PacketsOf(jobs: seq<Job>): (ps: seq<Packet>)
    ensures |ps| == |jobs| && forall i :: 0 <= i < |jobs| ==> ps[i] == jobs[i].packet
  {
    seq(|jobs|, i requires 0 <= i < |jobs| => jobs[i].packet)
  }

  function DestsOf(jobs: seq<Job>): (ds: seq<Address>)
    ensures |ds| == |jobs| && forall i :: 0 <= i < |jobs| ==> ds[i] == jobs[i].dest
  {
    seq(|jobs|, i requires 0 <= i < |jobs| => jobs[i].dest)
  }

  class GSLChannel {
    const sim: Simulator<GslEvent>
    const delay: (nat, nat, nat) -> nat  // sender node, receiver node, instant
    var m_link: map<Address, GSLNetDevice>
    var m_net_devices: seq<GSLNetDevice>
    ghost var handed: seq<Handover>

    constructor (sim: Simulator<GslEvent>, delay: (nat, nat, nat) -> nat)
      ensures m_link == map[] && m_net_devices == [] && handed == []
      ensures this.sim == sim && this.delay == delay
    {
      this.sim, this.delay := sim, delay;
      m_link, m_net_devices, handed := map[], [], [];
    }

    method Attach(device: GSLNetDevice)
      modifies this`m_link, this`m_net_devices
      ensures m_link == old(m_link)[device.m_address := device]
      ensures m_net_devices == old(m_net_devices) + [device]
    {
      m_link := m_link[device.m_address := device];
      m_net_devices := m_net_devices + [device];
    }

    /** The lookup of the destination and the one-system restriction; both failures abort. */
    ghost predicate Reaches(src: GSLNetDevice, dest: Address)
      reads this`m_link
    {
      dest in m_link && m_link[dest].systemId == src.systemId
    }

    ghost function HandoverOf(src: GSLNetDevice, job: Job, at: nat): Handover
      requires job.dest in m_link
      reads this`m_link
    {
      Handover(at, src, job, m_link[job.dest],
               at + src.txTime(job) + delay(src.nodeId, m_link[job.dest].nodeId, at))
    }

    /** Aborts if the destination is not registered, or is on another system; else the packet is received at
        the registered device after the transmission time and the propagation delay. */
    method TransmitStart(p: Packet, src: GSLNetDevice, dest: Address) returns (r: Outcome<bool>)
      modifies sim`pending, this`handed
      ensures r.Next? <==> dest in m_link && m_link[dest].systemId == src.systemId
      ensures r.Next? ==>
                var arrival := sim.now + src.txTime(Job(p, dest)) + delay(src.nodeId, m_link[dest].nodeId, sim.now);
                && r.value
                && handed == old(handed) + [Handover(sim.now, src, Job(p, dest), m_link[dest], arrival)]
                && sim.pending == old(sim.pending) + multiset{(arrival, Receive(m_link[dest], p))}
    {
      if dest !in m_link {
        return Abort;
      }
      var dst := m_link[dest];
      if src.systemId != dst.systemId {
        return Abort;
      }
      var d := delay(src.nodeId, dst.nodeId, sim.now);
      var txTime := src.txTime(Job(p, dest));
      sim.Schedule(txTime + d, Receive(dst, p));
      handed := handed + [Handover(sim.now, src, Job(p, dest), dst, sim.now + txTime + d)];
      r := Next(true);
    }
  }

  ghost function MacAddress(): GSLNetDevice -> int
  {
    (d: GSLNetDevice) => d.m_address
  }

  /** Attaching devices one by one; with distinct addresses every one is registered under its own. */
  method AttachAll(channel: GSLChannel, devices: seq<GSLNetDevice>)
    modifies channel`m_link, channel`m_net_devices
    ensures channel.m_link == Registry(old(channel.m_link), devices, MacAddress())
    ensures channel.m_net_devices == old(channel.m_net_devices) + devices
    ensures (forall i, j :: 0 <= i < j < |devices| ==> devices[i].m_address != devices[j].m_address) ==>
              forall d :: d in devices ==> d.m_address in channel.m_link && channel.m_link[d.m_address] == d
  {
    for k := 0 to |devices|
      invariant channel.m_link == Registry(old(channel.m_link), devices[..k], MacAddress())
      invariant channel.m_net_devices == old(channel.m_net_devices) + devices[..k]
    {
      channel.Attach(devices[k]);
      assert devices[..k + 1][..k] == devices[..k];
    }
    assert devices[..|devices|] == devices;
    if forall i, j :: 0 <= i < j < |devices| ==> devices[i].m_address != devices[j].m_address {
      forall d | d in devices
        ensures d.m_address in channel.m_link && channel.m_link[d.m_address] == d
      {
        RegistryFinds(old(channel.m_link), devices, MacAddress(), d);
      }
    }
  }

  class GSLNetDevice {
    const sim: Simulator<GslEvent>
    const channel: GSLChannel
    const m_address: Address
    const nodeId: nat
    const systemId: nat
    const txTime: Job -> nat     // m_bps.CalculateBytesTxTime of the packet's size
    const m_tInterframeGap: nat
    const capacity: nat

    var m_linkUp: bool
    var m_txMachineState: Phase
    var m_currentPkt: Option<Packet>
    var m_queue: seq<Packet>
    var m_queueDests: seq<Address>
    ghost var jobs: Machine<Job>  // the one queue of pairs that the two queues stand for

    ghost predicate Valid()
      reads this
    {
      && channel.sim == sim
      && m_txMachineState == jobs.phase
      && m_currentPkt == (match jobs.current case None => None case Some(j) => Some(j.packet))
      && m_queue == PacketsOf(jobs.queue)
      && m_queueDests == DestsOf(jobs.queue)
    }

    function LinkOf(): Link<Job>
      reads this
    {
      Link(capacity, m_linkUp, txTime, m_tInterframeGap)
    }

    /** The device and the channel after putting a job on the wire: both events are scheduled, the
        receipt at the device registered under the job's own destination. */
    twostate predicate HandedOver(started: Option<Job>, pending: multiset<(nat, GslEvent)>)
      reads this, sim, channel
    {
      match started
      case None =>
        sim.pending == pending && channel.handed == old(channel.handed)
      case Some(j) =>
        && channel.Reaches(this, j.dest)
        && var h := channel.HandoverOf(this, j, sim.now);
           && channel.handed == old(channel.handed) + [h]
           && sim.pending == pending
                + multiset{(sim.now + txTime(j) + m_tInterframeGap, GslEvent.TransmitComplete(this, j.dest))}
                + multiset{(h.arrival, Receive(h.dst, j.packet))}
    }

    constructor (sim: Simulator<GslEvent>, channel: GSLChannel, address: Address, nodeId: nat, systemId: nat,
        txTime: Job -> nat, gap: nat, capacity: nat)
      requires channel.sim == sim
      ensures Valid() && jobs == InitialMachine()
      ensures this.sim == sim && this.channel == channel && m_address == address
    {
      this.sim, this.channel, this.m_address, this.nodeId, this.systemId := sim, channel, address, nodeId, systemId;
      this.txTime, this.m_tInterframeGap, this.capacity := txTime, gap, capacity;
      m_linkUp, m_txMachineState, m_currentPkt, m_queue, m_queueDests := true, READY, None, [], [];
      jobs := InitialMachine();
    }

    method TransmitStart(p: Packet, dest: Address) returns (r: Outcome<bool>)
      requires Valid()
      requires m_txMachineState == READY
      modifies this`m_txMachineState, this`m_currentPkt, this`jobs, sim`pending, channel`handed
      ensures r.Next? <==> channel.Reaches(this, dest)
      ensures r.Next? ==>
                && r.value && Valid()
                && Next(jobs) == Start(old(jobs), Job(p, dest))
                && HandedOver(Some(Job(p, dest)), old(sim.pending))
    {
      m_txMachineState := BUSY;
      m_currentPkt := Some(p);
      jobs := Machine(BUSY, Some(Job(p, dest)), jobs.queue);
      var txTime := this.txTime(Job(p, dest));
      var txCompleteTime := txTime + m_tInterframeGap;
      sim.Schedule(txCompleteTime, GslEvent.TransmitComplete(this, dest));
      r := channel.TransmitStart(p, this, dest);
    }

    method TransmitComplete(dest: Address) returns (r: Outcome<bool>)
      requires Valid()
      requires m_txMachineState == BUSY && m_currentPkt.Some?
      modifies this, sim`pending, channel`handed
      ensures m_linkUp == old(m_linkUp)
      ensures
        var mv := Complete(old(jobs)).value;
        && (r.Next? <==> (mv.started.Some? ==> channel.Reaches(this, mv.started.value.dest)))
        && (r.Next? ==> Valid() && jobs == mv.machine && HandedOver(mv.started, old(sim.pending)))
    {
      m_txMachineState := READY;
      m_currentPkt := None;
      jobs := Machine(READY, None, jobs.queue);
      if m_queue == [] {
        return Next(true);
      }
      var p := m_queue[0];
      m_queue := m_queue[1..];
      var next_dest := m_queueDests[0];
      m_queueDests := m_queueDests[1..];
      assert jobs.queue[0] == Job(p, next_dest);
      jobs := jobs.(queue := jobs.queue[1..]);
      r := TransmitStart(p, next_dest);
    }

    method Send(packet: Packet, dest: Address) returns (r: Outcome<bool>)
      requires Valid()
      modifies this, sim`pending, channel`handed
      ensures m_linkUp == old(m_linkUp)
      ensures TransmitMachine.Send(old(jobs), m_linkUp, capacity, Job(AddHeader(packet), dest)).Next?
      ensures
        var mv := TransmitMachine.Send(old(jobs), m_linkUp, capacity, Job(AddHeader(packet), dest)).value;
        && (r.Next? <==> (mv.started.Some? ==> channel.Reaches(this, mv.started.value.dest)))
        && (r.Next? ==>
            Valid() && r.value == mv.accepted && jobs == mv.machine && HandedOver(mv.started, old(sim.pending)))
    {
      if !m_linkUp {
        return Next(false);
      }
      var framed := AddHeader(packet);
      if |m_queue| < capacity {
        m_queue := m_queue + [framed];
        m_queueDests := m_queueDests + [dest];
        jobs := jobs.(queue := jobs.queue + [Job(framed, dest)]);
        if m_txMachineState == READY {
          var p := m_queue[0];
          m_queue := m_queue[1..];
          var next_dest := m_queueDests[0];
          m_queueDests := m_queueDests[1..];
          assert jobs.queue[0] == Job(p, next_dest);
          jobs := jobs.(queue := jobs.queue[1..]);
          r := TransmitStart(p, next_dest);
          return;
        }
        return Next(true);
      }
      r := Next(false);
    }
  }

  // ---- whole runs of one device on the channel ----

  function FramedJob(j: Job): Job
  {
    j.(packet := AddHeader(j.packet))
  }

  function FramedAction(a: Action<Job>): Action<Job>
  {
    match a
    case SendPacket(j) => SendPacket(FramedJob(j))
    case FireCompletion => FireCompletion
    case AdvanceClock(dt) => AdvanceClock(dt)
  }

  function Framed(script: seq<Action<Job>>): seq<Action<Job>>
  {
    if script == [] then [] else [FramedAction(script[0])] + Framed(script[1..])
  }

  ghost function Count(dev: GSLNetDevice, pending: multiset<(nat, GslEvent)>, t: nat, d: Address): nat
  {
    pending[(t, GslEvent.TransmitComplete(dev, d))]
  }

  /** The pending TransmitComplete events of dev: those of the run, carrying the current destination. */
  ghost predicate SameCompletions(dev: GSLNetDevice, pending: multiset<(nat, GslEvent)>, w: World<Job>)
  {
    forall t: nat, d: Address :: Count(dev, pending, t, d) ==
      if w.machine.current.Some? && w.machine.current.value.dest == d then w.completions[t] else 0
  }

  /** The device is where the run w is. */
  ghost predicate Follows(dev: GSLNetDevice, w: World<Job>)
    reads dev, dev.sim
  {
    dev.sim.now == w.now && dev.jobs == w.machine && SameCompletions(dev, dev.sim.pending, w)
  }

  /** What the channel was given by dev. */
  ghost function Own(dev: GSLNetDevice, handed: seq<Handover>): seq<Handover>
  {
    Select(handed, (h: Handover) => h.src == dev)
  }

  lemma OwnNext(dev: GSLNetDevice, handed: seq<Handover>, h: Handover)
    ensures Own(dev, handed + [h]) == if h.src == dev then Own(dev, handed) + [h] else Own(dev, handed)
  {
    assert (handed + [h])[..|handed + [h]| - 1] == handed;
  }

  /** Whatever happened to the queue of events and to the channel, d did not take part. */
  ghost predicate Undisturbed(d: GSLNetDevice, pending: multiset<(nat, GslEvent)>, pending': multiset<(nat, GslEvent)>,
      handed: seq<Handover>, handed': seq<Handover>)
  {
    && (forall t: nat, a: Address :: Count(d, pending', t, a) == Count(d, pending, t, a))
    && Own(d, handed') == Own(d, handed)
  }

  // ---- receptions ----

  ghost function ReceptionOf(h: Handover): (nat, GslEvent)
  {
    (h.arrival, Receive(h.dst, h.job.packet))
  }

  ghost function ReceptionsOf(handed: seq<Handover>): (rs: seq<(nat, GslEvent)>)
    ensures |rs| == |handed|
    ensures forall i :: 0 <= i < |rs| ==> rs[i] == ReceptionOf(handed[i])
  {
    seq(|handed|, i requires 0 <= i < |handed| => ReceptionOf(handed[i]))
  }

  ghost predicate GrownBy(pending: multiset<(nat, GslEvent)>, pending': multiset<(nat, GslEvent)>,
      added: seq<(nat, GslEvent)>, e: (nat, GslEvent))
  {
    pending'[e] == pending[e] + multiset(added)[e]
  }

  ghost predicate ReceptionsAdded(pending: multiset<(nat, GslEvent)>, pending': multiset<(nat, GslEvent)>,
      added: seq<(nat, GslEvent)>)
  {
    forall e :: e in pending + pending' + multiset(added) && e.1.Receive? ==> GrownBy(pending, pending', added, e)
  }

  /** The channel was given more, and the pending receptions grew by exactly those of what it was given. */
  ghost predicate ReceptionsGrow(pending: multiset<(nat, GslEvent)>, pending': multiset<(nat, GslEvent)>,
      handed: seq<Handover>, handed': seq<Handover>)
  {
    && |handed| <= |handed'| && handed'[..|handed|] == handed
    && ReceptionsAdded(pending, pending', ReceptionsOf(handed'[|handed|..]))
  }

  lemma GrownEverywhere(pending: multiset<(nat, GslEvent)>, pending': multiset<(nat, GslEvent)>,
      added: seq<(nat, GslEvent)>, e: (nat, GslEvent))
    requires ReceptionsAdded(pending, pending', added) && e.1.Receive?
    ensures GrownBy(pending, pending', added, e)
  {
    if e !in pending + pending' + multiset(added) {
      assert (pending + pending' + multiset(added))[e] == 0;
    }
  }

  lemma NothingGrows(pending: multiset<(nat, GslEvent)>, handed: seq<Handover>)
    ensures ReceptionsGrow(pending, pending, handed, handed)
  {
    assert handed[|handed|..] == [];
  }

  lemma TakeKeepsReceptions(dev: GSLNetDevice, pending: multiset<(nat, GslEvent)>, handed: seq<Handover>,
      now: nat, dest: Address)
    ensures ReceptionsGrow(pending, pending - multiset{(now, GslEvent.TransmitComplete(dev, dest))}, handed, handed)
  {
    assert handed[|handed|..] == [];
  }

  lemma StartAddsReception(dev: GSLNetDevice, pending: multiset<(nat, GslEvent)>, handed: seq<Handover>,
      end: nat, dest: Address, h: Handover)
    ensures ReceptionsGrow(pending,
              pending + multiset{(end, GslEvent.TransmitComplete(dev, dest))}
                + multiset{(h.arrival, Receive(h.dst, h.job.packet))},
              handed, handed + [h])
  {
    assert (handed + [h])[|handed|..] == [h];
    assert ReceptionsOf([h]) == [ReceptionOf(h)];
  }

  lemma AddedTwice(p0: multiset<(nat, GslEvent)>, p1: multiset<(nat, GslEvent)>, p2: multiset<(nat, GslEvent)>,
      a: seq<(nat, GslEvent)>, b: seq<(nat, GslEvent)>)
    requires ReceptionsAdded(p0, p1, a) && ReceptionsAdded(p1, p2, b)
    ensures ReceptionsAdded(p0, p2, a + b)
  {
    forall e: (nat, GslEvent) | e.1.Receive?
      ensures GrownBy(p0, p2, a + b, e)
    {
      GrownEverywhere(p0, p1, a, e);
      GrownEverywhere(p1, p2, b, e);
    }
  }

  lemma ReceptionsConcat(a: seq<Handover>, b: seq<Handover>)
    ensures ReceptionsOf(a + b) == ReceptionsOf(a) + ReceptionsOf(b)
  {
  }

  lemma TailOfTail(h0: seq<Handover>, h1: seq<Handover>, h2: seq<Handover>)
    requires |h0| <= |h1| <= |h2| && h1[..|h0|] == h0 && h2[..|h1|] == h1
    ensures h2[..|h0|] == h0 && h2[|h0|..] == h1[|h0|..] + h2[|h1|..]
  {
    assert h2 == h1 + h2[|h1|..];
  }

  lemma GrowsTwice(p0: multiset<(nat, GslEvent)>, p1: multiset<(nat, GslEvent)>, p2: multiset<(nat, GslEvent)>,
      h0: seq<Handover>, h1: seq<Handover>, h2: seq<Handover>)
    requires ReceptionsGrow(p0, p1, h0, h1) && ReceptionsGrow(p1, p2, h1, h2)
    ensures ReceptionsGrow(p0, p2, h0, h2)
  {
    TailOfTail(h0, h1, h2);
    AddedTwice(p0, p1, p2, ReceptionsOf(h1[|h0|..]), ReceptionsOf(h2[|h1|..]));
    ReceptionsConcat(h1[|h0|..], h2[|h1|..]);
  }

  /** The channel was given by dev exactly the transmissions of the run, in their order. */
  ghost predicate Handed(dev: GSLNetDevice, before: seq<Handover>, started: seq<Started<Job>>)
    reads dev.channel`handed, dev.channel`m_link
  {
    HandedBy(dev, Own(dev, dev.channel.handed), before, started)
  }

  ghost predicate HandedBy(dev: GSLNetDevice, handed: seq<Handover>, before: seq<Handover>, started: seq<Started<Job>>)
    reads dev.channel`m_link
  {
    && |handed| == |before| + |started|
    && handed[..|before|] == before
    && forall i :: 0 <= i < |started| ==>
         && started[i].job.dest in dev.channel.m_link
         && handed[|before| + i] == dev.channel.HandoverOf(dev, started[i].job, started[i].at)
  }

  ghost predicate NoCompletions(dev: GSLNetDevice, pending: multiset<(nat, GslEvent)>)
  {
    forall t: nat, d: Address :: Count(dev, pending, t, d) == 0
  }

  lemma IdleHasNone(dev: GSLNetDevice, pending: multiset<(nat, GslEvent)>, w: World<Job>)
    requires SameCompletions(dev, pending, w) && w.machine.current.None?
    ensures NoCompletions(dev, pending)
  {
  }

  /** The one pending completion, and none once it is taken. */
  lemma OnlyCompletion(dev: GSLNetDevice, pending: multiset<(nat, GslEvent)>, w: World<Job>, dest: Address)
    requires SameCompletions(dev, pending, w)
    requires w.machine.current.Some? && w.completions == multiset{w.now}
    ensures pending[(w.now, GslEvent.TransmitComplete(dev, dest))] > 0 <==> dest == w.machine.current.value.dest
    ensures dest == w.machine.current.value.dest ==>
              NoCompletions(dev, pending - multiset{(w.now, GslEvent.TransmitComplete(dev, dest))})
  {
    assert pending[(w.now, GslEvent.TransmitComplete(dev, dest))] == Count(dev, pending, w.now, dest);
    if dest == w.machine.current.value.dest {
      var rest := pending - multiset{(w.now, GslEvent.TransmitComplete(dev, dest))};
      forall t: nat, d: Address
        ensures Count(dev, rest, t, d) == 0
      {
        assert Count(dev, pending, t, d) == if dest == d then w.completions[t] else 0;
      }
    }
  }

  lemma PendingStarts(dev: GSLNetDevice, pending: multiset<(nat, GslEvent)>, now: nat, j: Job,
      end: nat, arrival: nat, dst: GSLNetDevice, p: Packet, w: World<Job>)
    requires NoCompletions(dev, pending)
    requires w.machine.current == Some(j) && w.completions == multiset{end}
    ensures SameCompletions(dev, pending + multiset{(end, GslEvent.TransmitComplete(dev, j.dest))} +
            multiset{(arrival, Receive(dst, p))}, w)
  {
    forall t: nat, d: Address
      ensures Count(dev, pending + multiset{(end, GslEvent.TransmitComplete(dev, j.dest))} +
              multiset{(arrival, Receive(dst, p))}, t, d)
           == if j.dest == d then w.completions[t] else 0
    {
      assert Count(dev, pending, t, d) == 0;
      assert (t, GslEvent.TransmitComplete(dev, d)) != (arrival, Receive(dst, p));
    }
  }

  ghost predicate AllReach(dev: GSLNetDevice, queue: seq<Job>)
    reads dev.channel`m_link
  {
    forall i :: 0 <= i < |queue| ==> dev.channel.Reaches(dev, queue[i].dest)
  }

  /** The device is where the run is, with these pending events and with this given to the channel. */
  ghost predicate SimulatesWith(dev: GSLNetDevice, link: Link<Job>, w: World<Job>, before: seq<Handover>,
      pending: multiset<(nat, GslEvent)>, handed: seq<Handover>)
    reads dev, dev.sim`now, dev.channel`m_link
  {
    && dev.Valid() && dev.LinkOf() == link
    && dev.sim.now == w.now && dev.jobs == w.machine && SameCompletions(dev, pending, w)
    && AllReach(dev, w.machine.queue)
    && HandedBy(dev, Own(dev, handed), before, w.started)
  }

  ghost predicate Simulates(dev: GSLNetDevice, link: Link<Job>, w: World<Job>, before: seq<Handover>)
    reads dev, dev.sim, dev.channel
  {
    SimulatesWith(dev, link, w, before, dev.sim.pending, dev.channel.handed)
  }

  lemma HandedNext(dev: GSLNetDevice, before: seq<Handover>, started: seq<Started<Job>>, s: Started<Job>,
      handed: seq<Handover>)
    requires HandedBy(dev, Own(dev, handed), before, started)
    requires s.job.dest in dev.channel.m_link
    requires dev.channel.handed == handed + [dev.channel.HandoverOf(dev, s.job, s.at)]
    ensures Handed(dev, before, started + [s])
  {
    OwnNext(dev, handed, dev.channel.HandoverOf(dev, s.job, s.at));
  }

  /** A start on dev, or a completion taken from it, leaves every other device undisturbed. */
  lemma StartDisturbsNoOther(d: GSLNetDevice, dev: GSLNetDevice, pending: multiset<(nat, GslEvent)>,
      handed: seq<Handover>,
      end: nat, dest: Address, h: Handover, p: Packet)
    requires d != dev && h.src == dev
    ensures Undisturbed(d, pending,
              pending + multiset{(end, GslEvent.TransmitComplete(dev, dest))} +
                  multiset{(h.arrival, Receive(h.dst, p))},
              handed, handed + [h])
  {
    OwnNext(d, handed, h);
    var pending' := pending + multiset{(end, GslEvent.TransmitComplete(dev, dest))} +
        multiset{(h.arrival, Receive(h.dst, p))};
    forall t: nat, a: Address
      ensures Count(d, pending', t, a) == Count(d, pending, t, a)
    {
      assert (t, GslEvent.TransmitComplete(d, a)) != (h.arrival, Receive(h.dst, p));
    }
  }

  lemma TakeDisturbsNoOther(d: GSLNetDevice, dev: GSLNetDevice, pending: multiset<(nat, GslEvent)>, now: nat,
      dest: Address)
    requires d != dev
    ensures forall t: nat, a: Address ::
              Count(d, pending - multiset{(now, GslEvent.TransmitComplete(dev, dest))}, t, a) == Count(d, pending, t, a)
  {
    assert forall t: nat, a: Address ::
        (t, GslEvent.TransmitComplete(d, a)) != (now, GslEvent.TransmitComplete(dev, dest));
  }

  /** After a call that put j on the wire. */
  lemma JobStarted(dev: GSLNetDevice, link: Link<Job>, w: World<Job>, w': World<Job>, j: Job, before: seq<Handover>,
      pending: multiset<(nat, GslEvent)>, handed: seq<Handover>)
    requires dev.Valid() && dev.LinkOf() == link && dev.jobs == w'.machine
    requires dev.sim.now == w'.now == w.now
    requires AllReach(dev, w'.machine.queue) && dev.channel.Reaches(dev, j.dest)
    requires HandedBy(dev, Own(dev, handed), before, w.started)
    requires NoCompletions(dev, pending)
    requires OnWire(link, w', j) && w'.started == w.started + [Started(w.now, j)]
    requires dev.channel.handed == handed + [dev.channel.HandoverOf(dev, j, w.now)]
    requires
      var h := dev.channel.HandoverOf(dev, j, w.now);
      dev.sim.pending == pending
        + multiset{(w.now + dev.txTime(j) + dev.m_tInterframeGap, GslEvent.TransmitComplete(dev, j.dest))}
        + multiset{(h.arrival, Receive(h.dst, j.packet))}
    ensures Simulates(dev, link, w', before)
  {
    var h := dev.channel.HandoverOf(dev, j, w.now);
    PendingStarts(dev, pending, w.now, j, w.now + dev.txTime(j) + dev.m_tInterframeGap, h.arrival, h.dst, j.packet, w');
    HandedNext(dev, before, w.started, Started(w.now, j), handed);
  }

  /** A Send that puts its packet on the wire. */
  method SendAtOnce(dev: GSLNetDevice, j: Job, ghost mv: Moved<Job>, ghost link: Link<Job>,
      ghost w: World<Job>, ghost w': World<Job>, ghost before: seq<Handover>)
    requires Simulates(dev, link, w, before) && dev.channel.Reaches(dev, j.dest)
    requires TransmitMachine.Send(w.machine, link.up, link.capacity, FramedJob(j)) == Next(mv)
    requires w'.now == w.now && w'.machine == mv.machine && w'.started == w.started + Begun(w.now, mv.started)
    requires mv.started.Some? && w.machine.current.None? && OnWire(link, w', mv.started.value)
    modifies dev, dev.sim`pending, dev.channel`handed
    ensures Simulates(dev, link, w', before)
    ensures forall d: GSLNetDevice :: d != dev ==>
              Undisturbed(d, old(dev.sim.pending), dev.sim.pending, old(dev.channel.handed), dev.channel.handed)
    ensures ReceptionsGrow(old(dev.sim.pending), dev.sim.pending, old(dev.channel.handed), dev.channel.handed)
  {
    ghost var pending, handed := dev.sim.pending, dev.channel.handed;
    IdleHasNone(dev, pending, w);
    var r := dev.Send(j.packet, j.dest);
    JobStarted(dev, link, w, w', mv.started.value, before, pending, handed);
    StartLeavesOthers(dev, mv.started.value, pending, handed);
  }

  /** A Send whose packet waits or is refused. */
  method SendOnly(dev: GSLNetDevice, j: Job, ghost mv: Moved<Job>, ghost link: Link<Job>,
      ghost w: World<Job>, ghost w': World<Job>, ghost before: seq<Handover>)
    requires Simulates(dev, link, w, before) && dev.channel.Reaches(dev, j.dest)
    requires TransmitMachine.Send(w.machine, link.up, link.capacity, FramedJob(j)) == Next(mv)
    requires w'.now == w.now && w'.machine == mv.machine && w'.started == w.started + Begun(w.now, mv.started)
    requires mv.started.None? && w'.completions == w.completions && w'.machine.current == w.machine.current
    modifies dev, dev.sim`pending, dev.channel`handed
    ensures Simulates(dev, link, w', before)
    ensures forall d: GSLNetDevice :: d != dev ==>
              Undisturbed(d, old(dev.sim.pending), dev.sim.pending, old(dev.channel.handed), dev.channel.handed)
    ensures ReceptionsGrow(old(dev.sim.pending), dev.sim.pending, old(dev.channel.handed), dev.channel.handed)
  {
    ghost var pending, handed := dev.sim.pending, dev.channel.handed;
    var r := dev.Send(j.packet, j.dest);
    assert w.started + [] == w.started;
    NothingGrows(pending, handed);
  }

  method SimulateSend(dev: GSLNetDevice, j: Job, ghost mv: Moved<Job>, ghost link: Link<Job>,
      ghost w: World<Job>, ghost w': World<Job>, ghost before: seq<Handover>)
    requires Simulates(dev, link, w, before) && dev.channel.Reaches(dev, j.dest)
    requires TransmitMachine.Send(w.machine, link.up, link.capacity, FramedJob(j)) == Next(mv)
    requires w'.now == w.now && w'.machine == mv.machine && w'.started == w.started + Begun(w.now, mv.started)
    requires if mv.started.Some? then w.machine.current.None? && OnWire(link, w', mv.started.value)
             else w'.completions == w.completions && w'.machine.current == w.machine.current
    modifies dev, dev.sim`pending, dev.channel`handed
    ensures Simulates(dev, link, w', before)
    ensures forall d: GSLNetDevice :: d != dev ==>
              Undisturbed(d, old(dev.sim.pending), dev.sim.pending, old(dev.channel.handed), dev.channel.handed)
    ensures ReceptionsGrow(old(dev.sim.pending), dev.sim.pending, old(dev.channel.handed), dev.channel.handed)
  {
    if dev.m_linkUp && |dev.m_queue| < dev.capacity && dev.m_txMachineState == READY {
      SendAtOnce(dev, j, mv, link, w, w', before);
    } else {
      SendOnly(dev, j, mv, link, w, w', before);
    }
  }

  /** After a call that put j on the wire, seen from the other devices. */
  lemma StartLeavesOthers(dev: GSLNetDevice, j: Job, pending: multiset<(nat, GslEvent)>, handed: seq<Handover>)
    requires j.dest in dev.channel.m_link
    requires
      var h := dev.channel.HandoverOf(dev, j, dev.sim.now);
      && dev.channel.handed == handed + [h]
      && dev.sim.pending == pending
           + multiset{(dev.sim.now + dev.txTime(j) + dev.m_tInterframeGap, GslEvent.TransmitComplete(dev, j.dest))}
           + multiset{(h.arrival, Receive(h.dst, j.packet))}
    ensures forall d: GSLNetDevice :: d != dev ==> Undisturbed(d, pending, dev.sim.pending, handed, dev.channel.handed)
    ensures ReceptionsGrow(pending, dev.sim.pending, handed, dev.channel.handed)
  {
    StartAddsReception(dev, pending, handed, dev.sim.now + dev.txTime(j) + dev.m_tInterframeGap, j.dest,
                       dev.channel.HandoverOf(dev, j, dev.sim.now));
    forall d: GSLNetDevice | d != dev
      ensures Undisturbed(d, pending, dev.sim.pending, handed, dev.channel.handed)
    {
      StartDisturbsNoOther(d, dev, pending, handed, dev.sim.now + dev.txTime(j) + dev.m_tInterframeGap, j.dest,
                           dev.channel.HandoverOf(dev, j, dev.sim.now), j.packet);
    }
  }

  method TakeCompletion(dev: GSLNetDevice, ghost w: World<Job>) returns (dest: Address)
    requires Follows(dev, w) && w.machine.current.Some? && w.completions == multiset{w.now}
    modifies dev.sim`pending
    ensures NoCompletions(dev, dev.sim.pending)
    ensures forall d: GSLNetDevice :: d != dev ==>
              Undisturbed(d, old(dev.sim.pending), dev.sim.pending, dev.channel.handed, dev.channel.handed)
    ensures ReceptionsGrow(old(dev.sim.pending), dev.sim.pending, dev.channel.handed, dev.channel.handed)
  {
    OnlyCompletion(dev, dev.sim.pending, w, w.machine.current.value.dest);
    dest :| dev.sim.pending[(dev.sim.now, GslEvent.TransmitComplete(dev, dest))] > 0;
    OnlyCompletion(dev, dev.sim.pending, w, dest);
    forall d: GSLNetDevice | d != dev
      ensures Undisturbed(d, dev.sim.pending,
                dev.sim.pending - multiset{(dev.sim.now, GslEvent.TransmitComplete(dev, dest))},
                dev.channel.handed, dev.channel.handed)
    {
      TakeDisturbsNoOther(d, dev, dev.sim.pending, dev.sim.now, dest);
    }
    TakeKeepsReceptions(dev, dev.sim.pending, dev.channel.handed, dev.sim.now, dest);
    dev.sim.Take(GslEvent.TransmitComplete(dev, dest));
  }

  /** The TransmitComplete that has been taken from the queue, carried out. */
  method CarryOut(dev: GSLNetDevice, dest: Address, ghost mv: Moved<Job>, ghost link: Link<Job>,
      ghost w: World<Job>, ghost w': World<Job>, ghost before: seq<Handover>)
    requires dev.Valid() && dev.LinkOf() == link && dev.sim.now == w.now && dev.jobs == w.machine
    requires NoCompletions(dev, dev.sim.pending) && AllReach(dev, w.machine.queue) && Handed(dev, before, w.started)
    requires w.machine.phase == BUSY && w.machine.current.Some? && Complete(w.machine) == Next(mv)
    requires w'.now == w.now && w'.machine == mv.machine && w'.started == w.started + Begun(w.now, mv.started)
    requires if mv.started.Some? then OnWire(link, w', mv.started.value)
             else w'.completions == multiset{} && w'.machine.current.None?
    modifies dev, dev.sim`pending, dev.channel`handed
    ensures Simulates(dev, link, w', before)
    ensures forall d: GSLNetDevice :: d != dev ==>
              Undisturbed(d, old(dev.sim.pending), dev.sim.pending, old(dev.channel.handed), dev.channel.handed)
    ensures ReceptionsGrow(old(dev.sim.pending), dev.sim.pending, old(dev.channel.handed), dev.channel.handed)
  {
    ghost var pending, handed := dev.sim.pending, dev.channel.handed;
    var r := dev.TransmitComplete(dest);
    if mv.started.Some? {
      JobStarted(dev, link, w, w', mv.started.value, before, pending, handed);
      StartLeavesOthers(dev, mv.started.value, pending, handed);
    } else {
      NothingGrows(pending, handed);
    }
  }

  method SimulateCompletion(dev: GSLNetDevice, ghost mv: Moved<Job>, ghost link: Link<Job>,
      ghost w: World<Job>, ghost w': World<Job>, ghost before: seq<Handover>)
    requires Simulates(dev, link, w, before)
    requires w.machine.phase == BUSY && w.machine.current.Some? && w.completions == multiset{w.now}
    requires Complete(w.machine) == Next(mv)
    requires w'.now == w.now && w'.machine == mv.machine && w'.started == w.started + Begun(w.now, mv.started)
    requires if mv.started.Some? then OnWire(link, w', mv.started.value)
             else w'.completions == multiset{} && w'.machine.current.None?
    modifies dev, dev.sim`pending, dev.channel`handed
    ensures Simulates(dev, link, w', before)
    ensures forall d: GSLNetDevice :: d != dev ==>
              Undisturbed(d, old(dev.sim.pending), dev.sim.pending, old(dev.channel.handed), dev.channel.handed)
    ensures ReceptionsGrow(old(dev.sim.pending), dev.sim.pending, old(dev.channel.handed), dev.channel.handed)
  {
    ghost var pending, handed := dev.sim.pending, dev.channel.handed;
    var dest := TakeCompletion(dev, w);
    ghost var rest := dev.sim.pending;
    CarryOut(dev, dest, mv, link, w, w', before);
    forall d: GSLNetDevice | d != dev
      ensures Undisturbed(d, pending, dev.sim.pending, handed, dev.channel.handed)
    {
      assert Undisturbed(d, pending, rest, handed, handed);
      assert Undisturbed(d, rest, dev.sim.pending, handed, dev.channel.handed);
    }
    GrowsTwice(pending, rest, dev.sim.pending, handed, handed, dev.channel.handed);
  }

  method StepSend(dev: GSLNetDevice, j: Job, ghost link: Link<Job>, ghost w: World<Job>, ghost before: seq<Handover>)
    requires Simulates(dev, link, w, before) && Inv(link, w) && dev.channel.Reaches(dev, j.dest)
    modifies dev, dev.sim`pending, dev.channel`handed
    ensures Step(link, w, SendPacket(FramedJob(j))).Next?
    ensures Simulates(dev, link, Step(link, w, SendPacket(FramedJob(j))).value, before)
    ensures forall d: GSLNetDevice :: d != dev ==>
              Undisturbed(d, old(dev.sim.pending), dev.sim.pending, old(dev.channel.handed), dev.channel.handed)
    ensures ReceptionsGrow(old(dev.sim.pending), dev.sim.pending, old(dev.channel.handed), dev.channel.handed)
  {
    ghost var mv := TransmitMachine.Send(w.machine, link.up, link.capacity, FramedJob(j)).value;
    SendIs(link, w, FramedJob(j), mv);
    SimulateSend(dev, j, mv, link, w, Step(link, w, SendPacket(FramedJob(j))).value, before);
  }

  method StepCompletion(dev: GSLNetDevice, ghost link: Link<Job>, ghost w: World<Job>, ghost before: seq<Handover>)
    requires Simulates(dev, link, w, before) && Inv(link, w) && w.now in w.completions
    modifies dev, dev.sim`pending, dev.channel`handed
    ensures Step(link, w, FireCompletion).Next?
    ensures Simulates(dev, link, Step(link, w, FireCompletion).value, before)
    ensures forall d: GSLNetDevice :: d != dev ==>
              Undisturbed(d, old(dev.sim.pending), dev.sim.pending, old(dev.channel.handed), dev.channel.handed)
    ensures ReceptionsGrow(old(dev.sim.pending), dev.sim.pending, old(dev.channel.handed), dev.channel.handed)
  {
    ghost var mv := Complete(w.machine).value;
    CompletionIs(link, w, mv);
    SimulateCompletion(dev, mv, link, w, Step(link, w, FireCompletion).value, before);
  }

  // ---- whole runs of all devices on one channel ----

  /** What happens next: to device k, or to the clock of all. */
  datatype NetworkAction = OnDevice(k: nat, action: Action<Job>) | WaitAll(dt: nat)

  /** The script as device k sees it. */
  function Seen(script: seq<NetworkAction>, k: nat): seq<Action<Job>>
  {
    if script == [] then []
    else
      match script[0]
      case OnDevice(i, a) => (if i == k then [a] else []) + Seen(script[1..], k)
      case WaitAll(dt) => [AdvanceClock(dt)] + Seen(script[1..], k)
  }

  /** An action concerns one of the devices, and a Send has a registered destination. */
  ghost predicate Directed(devs: seq<GSLNetDevice>, channel: GSLChannel, a: NetworkAction)
    reads channel`m_link
  {
    a.OnDevice? ==>
      && a.k < |devs| && !a.action.AdvanceClock?
      && (a.action.SendPacket? ==> channel.Reaches(devs[a.k], a.action.packet.dest))
  }

  ghost predicate WellDirected(devs: seq<GSLNetDevice>, channel: GSLChannel, script: seq<NetworkAction>)
    reads channel`m_link
  {
    forall i :: 0 <= i < |script| ==> Directed(devs, channel, script[i])
  }

  /** The devices share a channel, and hence its simulator. */
  ghost predicate OnChannel(devs: seq<GSLNetDevice>, channel: GSLChannel)
  {
    && (forall i :: 0 <= i < |devs| ==> devs[i].channel == channel && devs[i].sim == channel.sim)
    && (forall i, j :: 0 <= i < j < |devs| ==> devs[i] != devs[j])
  }

  /** Where one device is in its own run. */
  datatype Track = Track(link: Link<Job>, world: World<Job>, before: seq<Handover>)

  ghost function Ahead(t: Track, a: Action<Job>): Track
    requires Step(t.link, t.world, FramedAction(a)).Next?
  {
    t.(world := Step(t.link, t.world, FramedAction(a)).value)
  }

  ghost predicate AllSimulate(devs: seq<GSLNetDevice>, tracks: seq<Track>)
    reads devs, set d | d in devs :: d.sim, set d | d in devs :: d.channel
  {
    && |tracks| == |devs|
    && forall i :: 0 <= i < |devs| ==> Simulates(devs[i], tracks[i].link, tracks[i].world, tracks[i].before)
  }

  lemma FramedCons(a: Action<Job>, rest: seq<Action<Job>>)
    ensures Framed([a] + rest) == [FramedAction(a)] + Framed(rest)
  {
    assert ([a] + rest)[1..] == rest;
  }

  /** Taking the first of the actions. */
  lemma FirstOf(t: Track, a: Action<Job>, rest: seq<Action<Job>>)
    requires Inv(t.link, t.world) && Possible(t.link, t.world, Framed([a] + rest))
    ensures Enabled(t.world, FramedAction(a)) && Step(t.link, t.world, FramedAction(a)).Next?
    ensures Inv(t.link, Ahead(t, a).world) && Possible(t.link, Ahead(t, a).world, Framed(rest))
    ensures Run(t.link, t.world, Framed([a] + rest)) == Run(t.link, Ahead(t, a).world, Framed(rest))
  {
    FramedCons(a, rest);
    assert ([FramedAction(a)] + Framed(rest))[1..] == Framed(rest);
    StepInv(t.link, t.world, FramedAction(a));
  }

  /** A device that is not concerned stays where it is. */
  lemma StaysOnTrack(d: GSLNetDevice, t: Track, pending: multiset<(nat, GslEvent)>, pending': multiset<(nat, GslEvent)>,
      handed: seq<Handover>, handed': seq<Handover>)
    requires SimulatesWith(d, t.link, t.world, t.before, pending, handed)
    requires Undisturbed(d, pending, pending', handed, handed')
    ensures SimulatesWith(d, t.link, t.world, t.before, pending', handed')
  {
    var w := t.world;
    forall t: nat, a: Address
      ensures Count(d, pending', t, a) ==
        if w.machine.current.Some? && w.machine.current.value.dest == a then w.completions[t] else 0
    {
      assert Count(d, pending, t, a) == Count(d, pending', t, a);
    }
  }

  /** One action of one device. */
  method Act(dev: GSLNetDevice, a: Action<Job>, ghost t: Track)
    requires Simulates(dev, t.link, t.world, t.before) && Inv(t.link, t.world)
    requires !a.AdvanceClock? && Enabled(t.world, FramedAction(a))
    requires a.SendPacket? ==> dev.channel.Reaches(dev, a.packet.dest)
    modifies dev, dev.sim`pending, dev.channel`handed
    ensures Step(t.link, t.world, FramedAction(a)).Next?
    ensures Simulates(dev, t.link, Ahead(t, a).world, t.before)
    ensures forall d: GSLNetDevice :: d != dev ==>
              Undisturbed(d, old(dev.sim.pending), dev.sim.pending, old(dev.channel.handed), dev.channel.handed)
    ensures ReceptionsGrow(old(dev.sim.pending), dev.sim.pending, old(dev.channel.handed), dev.channel.handed)
  {
    match a {
      case SendPacket(j) => StepSend(dev, j, t.link, t.world, t.before);
      case FireCompletion => StepCompletion(dev, t.link, t.world, t.before);
    }
  }

  /** Seen from all devices: the others stay where they are. */
  method ActOn(devs: seq<GSLNetDevice>, channel: GSLChannel, k: nat, a: Action<Job>, ghost tracks: seq<Track>)
    requires OnChannel(devs, channel) && |tracks| == |devs| && k < |devs| && !a.AdvanceClock?
    requires forall i :: 0 <= i < |devs| ==> Simulates(devs[i], tracks[i].link, tracks[i].world, tracks[i].before)
    requires Inv(tracks[k].link, tracks[k].world) && Enabled(tracks[k].world, FramedAction(a))
    requires a.SendPacket? ==> channel.Reaches(devs[k], a.packet.dest)
    modifies devs[k], channel.sim`pending, channel`handed
    ensures Step(tracks[k].link, tracks[k].world, FramedAction(a)).Next?
    ensures Simulates(devs[k], tracks[k].link, Ahead(tracks[k], a).world, tracks[k].before)
    ensures forall i :: 0 <= i < |devs| && i != k ==>
              Simulates(devs[i], tracks[i].link, tracks[i].world, tracks[i].before)
    ensures ReceptionsGrow(old(channel.sim.pending), channel.sim.pending, old(channel.handed), channel.handed)
  {
    ghost var pending, handed := channel.sim.pending, channel.handed;
    Act(devs[k], a, tracks[k]);
    forall i | 0 <= i < |devs| && i != k
      ensures Simulates(devs[i], tracks[i].link, tracks[i].world, tracks[i].before)
    {
      assert devs[i] != devs[k];
      StaysOnTrack(devs[i], tracks[i], pending, channel.sim.pending, handed, channel.handed);
    }
  }

  /** Time passes for all devices at once. */
  method WaitOn(devs: seq<GSLNetDevice>, channel: GSLChannel, dt: nat, ghost tracks: seq<Track>)
    requires OnChannel(devs, channel) && |tracks| == |devs|
    requires forall i :: 0 <= i < |devs| ==> Simulates(devs[i], tracks[i].link, tracks[i].world, tracks[i].before)
    modifies channel.sim`now
    ensures forall i :: 0 <= i < |devs| ==>
              Simulates(devs[i], tracks[i].link, Ahead(tracks[i], AdvanceClock(dt)).world, tracks[i].before)
  {
    channel.sim.Advance(dt);
  }

  /** The track of device i after the first action of the script. */
  ghost function After(t: Track, first: NetworkAction, i: nat): Track
    requires first.OnDevice? && first.k == i ==> Step(t.link, t.world, FramedAction(first.action)).Next?
  {
    match first
    case OnDevice(k, a) => if i == k then Ahead(t, a) else t
    case WaitAll(dt) => Ahead(t, AdvanceClock(dt))
  }

  /** The first action of the script, for device i. */
  lemma FirstSeen(t: Track, script: seq<NetworkAction>, i: nat)
    requires script != [] && Inv(t.link, t.world) && Possible(t.link, t.world, Framed(Seen(script, i)))
    requires script[0].OnDevice? ==> !script[0].action.AdvanceClock?
    ensures script[0].OnDevice? && script[0].k == i ==>
              && Enabled(t.world, FramedAction(script[0].action))
              && Step(t.link, t.world, FramedAction(script[0].action)).Next?
    ensures
      var t' := After(t, script[0], i);
      && Inv(t'.link, t'.world) && Possible(t'.link, t'.world, Framed(Seen(script[1..], i)))
      && Run(t.link, t.world, Framed(Seen(script, i))) == Run(t'.link, t'.world, Framed(Seen(script[1..], i)))
  {
    match script[0]
    case OnDevice(k, a) =>
      if i == k {
        FirstOf(t, a, Seen(script[1..], i));
      } else {
        assert [] + Seen(script[1..], i) == Seen(script[1..], i);
      }
    case WaitAll(dt) => FirstOf(t, AdvanceClock(dt), Seen(script[1..], i));
  }

  /** Each device has gone through its own run. */
  ghost predicate HaveRun(devs: seq<GSLNetDevice>, tracks: seq<Track>, script: seq<NetworkAction>)
    reads devs, set d | d in devs :: d.sim, set d | d in devs :: d.channel
  {
    && |tracks| == |devs|
    && forall i :: 0 <= i < |devs| ==>
         var r := Run(tracks[i].link, tracks[i].world, Framed(Seen(script, i)));
         r.Next? && Inv(tracks[i].link, r.value) && Simulates(devs[i], tracks[i].link, r.value, tracks[i].before)
  }

  ghost predicate AllPossible(tracks: seq<Track>, script: seq<NetworkAction>)
  {
    forall i :: 0 <= i < |tracks| ==>
      Inv(tracks[i].link, tracks[i].world) && Possible(tracks[i].link, tracks[i].world, Framed(Seen(script, i)))
  }

  ghost predicate CanGoOn(tracks: seq<Track>, first: NetworkAction)
  {
    first.OnDevice? ==>
      && first.k < |tracks| && !first.action.AdvanceClock?
      && Inv(tracks[first.k].link, tracks[first.k].world)
      && Enabled(tracks[first.k].world, FramedAction(first.action))
      && Step(tracks[first.k].link, tracks[first.k].world, FramedAction(first.action)).Next?
  }

  ghost function AllAfter(tracks: seq<Track>, first: NetworkAction): (after: seq<Track>)
    requires CanGoOn(tracks, first)
    ensures |after| == |tracks| && forall i :: 0 <= i < |tracks| ==> after[i] == After(tracks[i], first, i)
  {
    seq(|tracks|, i requires 0 <= i < |tracks| => After(tracks[i], first, i))
  }

  /** The first action of the script, on the objects. */
  method NetworkStep(devs: seq<GSLNetDevice>, channel: GSLChannel, first: NetworkAction, ghost tracks: seq<Track>)
    requires OnChannel(devs, channel) && AllSimulate(devs, tracks) && CanGoOn(tracks, first)
    requires Directed(devs, channel, first)
    modifies devs, channel.sim, channel`handed
    ensures AllSimulate(devs, AllAfter(tracks, first))
    ensures ReceptionsGrow(old(channel.sim.pending), channel.sim.pending, old(channel.handed), channel.handed)
  {
    NothingGrows(channel.sim.pending, channel.handed);
    match first {
      case OnDevice(k, a) => ActOn(devs, channel, k, a, tracks);
      case WaitAll(dt) => WaitOn(devs, channel, dt, tracks);
    }
  }

  lemma AllFirstSeen(tracks: seq<Track>, script: seq<NetworkAction>)
    requires script != [] && AllPossible(tracks, script)
    requires script[0].OnDevice? ==> script[0].k < |tracks| && !script[0].action.AdvanceClock?
    ensures CanGoOn(tracks, script[0]) && AllPossible(AllAfter(tracks, script[0]), script[1..])
    ensures forall i :: 0 <= i < |tracks| ==>
              var t, t' := tracks[i], After(tracks[i], script[0], i);
              && t'.link == t.link && t'.before == t.before
              && Run(t.link, t.world, Framed(Seen(script, i))) == Run(t'.link, t'.world, Framed(Seen(script[1..], i)))
  {
    forall i | 0 <= i < |tracks|
      ensures script[0].OnDevice? && script[0].k == i ==>
                Enabled(tracks[i].world, FramedAction(script[0].action)) &&
                Step(tracks[i].link, tracks[i].world, FramedAction(script[0].action)).Next?
      ensures
        var t, t' := tracks[i], After(tracks[i], script[0], i);
        && t'.link == t.link && t'.before == t.before
        && Inv(t'.link, t'.world) && Possible(t'.link, t'.world, Framed(Seen(script[1..], i)))
        && Run(t.link, t.world, Framed(Seen(script, i))) == Run(t'.link, t'.world, Framed(Seen(script[1..], i)))
    {
      FirstSeen(tracks[i], script, i);
    }
  }

  lemma NothingToRun(devs: seq<GSLNetDevice>, tracks: seq<Track>)
    requires AllSimulate(devs, tracks) && AllPossible(tracks, [])
    ensures HaveRun(devs, tracks, [])
  {
  }

  lemma HaveRunFromFirst(devs: seq<GSLNetDevice>, tracks: seq<Track>, script: seq<NetworkAction>)
    requires script != [] && |tracks| == |devs| && AllPossible(tracks, script)
    requires script[0].OnDevice? ==> script[0].k < |tracks| && !script[0].action.AdvanceClock?
    requires CanGoOn(tracks, script[0]) && HaveRun(devs, AllAfter(tracks, script[0]), script[1..])
    ensures HaveRun(devs, tracks, script)
  {
    AllFirstSeen(tracks, script);
  }

  method SimulateNetwork(devs: seq<GSLNetDevice>, channel: GSLChannel, script: seq<NetworkAction>,
      ghost tracks: seq<Track>)
    requires OnChannel(devs, channel) && WellDirected(devs, channel, script)
    requires AllSimulate(devs, tracks) && AllPossible(tracks, script)
    modifies devs, channel.sim, channel`handed
    ensures HaveRun(devs, tracks, script)
    ensures ReceptionsGrow(old(channel.sim.pending), channel.sim.pending, old(channel.handed), channel.handed)
    decreases |script|
  {
    ghost var pending, handed := channel.sim.pending, channel.handed;
    if script == [] {
      NothingToRun(devs, tracks);
      NothingGrows(pending, handed);
    } else {
      AllFirstSeen(tracks, script);
      assert WellDirected(devs, channel, script[1..]);
      NetworkStep(devs, channel, script[0], tracks);
      ghost var pending1, handed1 := channel.sim.pending, channel.handed;
      SimulateNetwork(devs, channel, script[1..], AllAfter(tracks, script[0]));
      GrowsTwice(pending, pending1, channel.sim.pending, handed, handed1, channel.handed);
      HaveRunFromFirst(devs, tracks, script);
    }
  }

  /** The event loop around all devices of a channel, each idle at the start: for any script of Sends to
      registered destinations, completions and passing time that the event queue allows, however the
      devices interleave, nothing aborts, the two queues of each device have equal length, and the channel
      was given each of its transmissions once, in the order in which it accepted the packets, with the
      destination of its own Send, for receipt at the device registered there after the transmission time
      and the propagation delay; and the pending receptions grow by exactly those of what it was given. */
  method SimulateHandovers(devs: seq<GSLNetDevice>, channel: GSLChannel, script: seq<NetworkAction>)
    requires OnChannel(devs, channel) && WellDirected(devs, channel, script)
    requires forall i :: 0 <= i < |devs| ==>
               && devs[i].Valid() && Follows(devs[i], InitialWorld())
               && Possible(devs[i].LinkOf(), InitialWorld(), Framed(Seen(script, i)))
    modifies devs, channel.sim, channel`handed
    ensures forall i :: 0 <= i < |devs| ==>
              var r := Run(old(devs[i].LinkOf()), InitialWorld(), Framed(Seen(script, i)));
              && r.Next?
              && |devs[i].m_queue| == |devs[i].m_queueDests|
              && r.value.accepted == Jobs(r.value.started) + r.value.machine.queue
              && devs[i].m_queue == PacketsOf(r.value.machine.queue)
              && devs[i].m_queueDests == DestsOf(r.value.machine.queue)
              && Handed(devs[i], Own(devs[i], old(channel.handed)), r.value.started)
    ensures ReceptionsGrow(old(channel.sim.pending), channel.sim.pending, old(channel.handed), channel.handed)
  {
    ghost var tracks := seq(|devs|, i requires 0 <= i < |devs| reads devs, channel =>
      Track(devs[i].LinkOf(), InitialWorld(), Own(devs[i], channel.handed)));
    forall i | 0 <= i < |devs|
      ensures Inv(tracks[i].link, tracks[i].world)
    {
      InitialInv(tracks[i].link);
    }
    SimulateNetwork(devs, channel, script, tracks);
  }

  // ---- from the Send at one device to the reception at another ----

  /** Some Send of the script gave dev this job, two bytes shorter. */
  ghost predicate WasSent(actions: seq<Action<Job>>, job: Job)
  {
    exists i :: 0 <= i < |actions| && actions[i].SendPacket?
      && job.packet.uid == actions[i].packet.packet.uid && job.packet.size == actions[i].packet.packet.size + 2
      && job.dest == actions[i].packet.dest
  }

  lemma {:induction false} FramedIs(actions: seq<Action<Job>>)
    ensures |Framed(actions)| == |actions|
    ensures forall i :: 0 <= i < |actions| ==> Framed(actions)[i] == FramedAction(actions[i])
    decreases |actions|
  {
    if actions != [] {
      FramedIs(actions[1..]);
    }
  }

  /** Whatever a run puts on the wire was given to a Send of its script. */
  lemma StartedWasSent(link: Link<Job>, actions: seq<Action<Job>>, n: nat)
    requires Possible(link, InitialWorld(), Framed(actions)) && Run(link, InitialWorld(), Framed(actions)).Next?
    requires n < |Run(link, InitialWorld(), Framed(actions)).value.started|
    ensures WasSent(actions, Run(link, InitialWorld(), Framed(actions)).value.started[n].job)
  {
    FramedIs(actions);
    WireOrder.StartedAreCarried(link, (job: Job) => WasSent(actions, job), Framed(actions), n);
  }

  /** Where and when the n-th transmission of dev is received: at one of the devices, which has the address it
      was sent to. */
  ghost predicate ReceivedByAddress(dev: GSLNetDevice, devs: seq<GSLNetDevice>, channel: GSLChannel,
      s: Started<Job>, h: Handover)
  {
    && h.dst in devs && h.dst.m_address == s.job.dest && h.job == s.job
    && h.arrival == s.at + dev.txTime(s.job) + channel.delay(dev.nodeId, h.dst.nodeId, s.at)
  }

  ghost predicate IsAddress(devs: seq<GSLNetDevice>, a: Address)
  {
    exists d :: d in devs && d.m_address == a
  }

  /** The Sends of the script name addresses of the devices. */
  ghost predicate Addressed(devs: seq<GSLNetDevice>, script: seq<NetworkAction>)
  {
    forall i :: 0 <= i < |script| && script[i].OnDevice? ==>
      && script[i].k < |devs| && !script[i].action.AdvanceClock?
      && (script[i].action.SendPacket? ==> IsAddress(devs, script[i].action.packet.dest))
  }

  ghost predicate AllRegistered(devs: seq<GSLNetDevice>, channel: GSLChannel)
    reads channel`m_link
  {
    forall d :: d in devs ==> d.m_address in channel.m_link && channel.m_link[d.m_address] == d
  }

  lemma AddressIsReached(devs: seq<GSLNetDevice>, channel: GSLChannel, script: seq<NetworkAction>)
    requires AllRegistered(devs, channel) && Addressed(devs, script)
    requires forall i, j :: 0 <= i < j < |devs| ==> devs[i].systemId == devs[j].systemId
    ensures WellDirected(devs, channel, script)
  {
    forall i | 0 <= i < |script|
      ensures Directed(devs, channel, script[i])
    {
      if script[i].OnDevice? && script[i].action.SendPacket? {
        var d :| d in devs && d.m_address == script[i].action.packet.dest;
        var k :| 0 <= k < |devs| && devs[k] == d;
        assert devs[script[i].k].systemId == devs[k].systemId;
      }
    }
  }

  /** What a device sees of the script is in the script. */
  lemma {:induction false} SeenIsAddressed(devs: seq<GSLNetDevice>, script: seq<NetworkAction>, k: nat)
    requires Addressed(devs, script)
    ensures forall n :: 0 <= n < |Seen(script, k)| && Seen(script, k)[n].SendPacket? ==>
              IsAddress(devs, Seen(script, k)[n].packet.dest)
    decreases |script|
  {
    if script != [] {
      assert Addressed(devs, script[1..]);
      SeenIsAddressed(devs, script[1..], k);
      var head: seq<Action<Job>> :=
        match script[0] case OnDevice(i, a) => (if i == k then [a] else []) case WaitAll(dt) => [AdvanceClock(dt)];
      assert Seen(script, k) == head + Seen(script[1..], k);
    }
  }

  lemma ReceivedThere(dev: GSLNetDevice, devs: seq<GSLNetDevice>, channel: GSLChannel, actions: seq<Action<Job>>,
      s: Started<Job>, h: Handover)
    requires AllRegistered(devs, channel) && WasSent(actions, s.job)
    requires forall n :: 0 <= n < |actions| && actions[n].SendPacket? ==> IsAddress(devs, actions[n].packet.dest)
    requires s.job.dest in channel.m_link && h == channel.HandoverOf(dev, s.job, s.at)
    ensures ReceivedByAddress(dev, devs, channel, s, h)
  {
    var d :| d in devs && d.m_address == s.job.dest;
  }

  /** Each transmission of dev so far was given to a Send of its script, and is received at the device whose
      address that Send named. */
  ghost predicate AllDelivered(dev: GSLNetDevice, devs: seq<GSLNetDevice>, channel: GSLChannel,
      actions: seq<Action<Job>>, before: seq<Handover>, started: seq<Started<Job>>)
    reads channel`handed
  {
    var own := Own(dev, channel.handed);
    && |own| == |before| + |started|
    && forall n :: 0 <= n < |started| ==>
         WasSent(actions, started[n].job) && ReceivedByAddress(dev, devs, channel, started[n], own[|before| + n])
  }

  method SimulateRegistered(devs: seq<GSLNetDevice>, channel: GSLChannel, script: seq<NetworkAction>)
    requires OnChannel(devs, channel) && AllRegistered(devs, channel) && Addressed(devs, script)
    requires forall i, j :: 0 <= i < j < |devs| ==> devs[i].systemId == devs[j].systemId
    requires forall i :: 0 <= i < |devs| ==>
               && devs[i].Valid() && Follows(devs[i], InitialWorld())
               && Possible(devs[i].LinkOf(), InitialWorld(), Framed(Seen(script, i)))
    modifies devs, channel.sim, channel`handed
    ensures ReceptionsGrow(old(channel.sim.pending), channel.sim.pending, old(channel.handed), channel.handed)
    ensures forall i :: 0 <= i < |devs| ==>
              var r := Run(old(devs[i].LinkOf()), InitialWorld(), Framed(Seen(script, i)));
              && r.Next?
              && AllDelivered(devs[i], devs, channel, Seen(script, i), Own(devs[i], old(channel.handed)),
                   r.value.started)
  {
    ghost var links := seq(|devs|, i requires 0 <= i < |devs| reads devs => devs[i].LinkOf());
    ghost var handed := channel.handed;
    AddressIsReached(devs, channel, script);
    SimulateHandovers(devs, channel, script);
    forall i | 0 <= i < |devs|
      ensures AllDelivered(devs[i], devs, channel, Seen(script, i), Own(devs[i], handed),
                Run(links[i], InitialWorld(), Framed(Seen(script, i))).value.started)
    {
      AllReceivedThere(devs[i], devs, channel, links[i], Own(devs[i], handed), script, i);
    }
  }

  /** All devices of a channel, attached under distinct addresses and idle, and any possible script of Sends
      to addresses among them: nothing aborts, and every packet put on the channel was given to a Send of its
      device, and is received at the device whose address that Send named, after the transmission time and
      the propagation delay; nothing else is received. */
  method SimulateAttached(devs: seq<GSLNetDevice>, channel: GSLChannel, script: seq<NetworkAction>)
    requires OnChannel(devs, channel) && Addressed(devs, script)
    requires forall i, j :: 0 <= i < j < |devs| ==> devs[i].m_address != devs[j].m_address
    requires forall i, j :: 0 <= i < j < |devs| ==> devs[i].systemId == devs[j].systemId
    requires forall i :: 0 <= i < |devs| ==>
               && devs[i].Valid() && Follows(devs[i], InitialWorld())
               && Possible(devs[i].LinkOf(), InitialWorld(), Framed(Seen(script, i)))
    modifies devs, channel, channel.sim
    ensures ReceptionsGrow(old(channel.sim.pending), channel.sim.pending, old(channel.handed), channel.handed)
    ensures forall i :: 0 <= i < |devs| ==>
              var r := Run(old(devs[i].LinkOf()), InitialWorld(), Framed(Seen(script, i)));
              && r.Next?
              && AllDelivered(devs[i], devs, channel, Seen(script, i), Own(devs[i], old(channel.handed)),
                   r.value.started)
  {
    AttachAll(channel, devs);
    SimulateRegistered(devs, channel, script);
  }

  lemma AllReceivedThere(dev: GSLNetDevice, devs: seq<GSLNetDevice>, channel: GSLChannel, link: Link<Job>,
      before: seq<Handover>, script: seq<NetworkAction>, k: nat)
    requires AllRegistered(devs, channel) && dev.channel == channel && Addressed(devs, script)
    requires Possible(link, InitialWorld(), Framed(Seen(script, k)))
    requires Run(link, InitialWorld(), Framed(Seen(script, k))).Next?
    requires Handed(dev, before, Run(link, InitialWorld(), Framed(Seen(script, k))).value.started)
    ensures AllDelivered(dev, devs, channel, Seen(script, k), before,
              Run(link, InitialWorld(), Framed(Seen(script, k))).value.started)
  {
    SeenIsAddressed(devs, script, k);
    var started := Run(link, InitialWorld(), Framed(Seen(script, k))).value.started;
    var own := Own(dev, channel.handed);
    forall n | 0 <= n < |started|
      ensures WasSent(Seen(script, k), started[n].job)
      ensures ReceivedByAddress(dev, devs, channel, started[n], own[|before| + n])
    {
      StartedWasSent(link, Seen(script, k), n);
      ReceivedThere(dev, devs, channel, Seen(script, k), started[n], own[|before| + n]);
    }
  }
}
