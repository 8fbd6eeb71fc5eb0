/** The READY/BUSY transmit machine that both link devices run over a drop-tail queue, placed in a
    simulator with a clock and pending TransmitComplete events. P is what one queue slot holds: a
    packet for the laser device, a (packet, destination) pair for the GSL device. */
module TransmitMachine {
  import opened Common

  datatype Phase = READY | BUSY

  /** m_txMachineState, m_currentPkt and the queue. */
  datatype Machine<P> = Machine(phase: Phase, current: Option<P>, queue: seq<P>)

  /** What one call did: the new machine, whether the packet was accepted, and the packet (if any)
      that was put on the wire. */
  datatype Moved<P> = Moved(machine: Machine<P>, accepted: bool, started: Option<P>)

  function InitialMachine<P>(): Machine<P>
  {
    Machine(READY, None, [])
  }

  /** TransmitStart, including its assertion "Must be READY to transmit". */
  function Start<P>(m: Machine<P>, p: P): Outcome<Machine<P>>
  {
    if m.phase == READY then Next(Machine(BUSY, Some(p), m.queue)) else Abort
  }

  /** Dequeue the head of a non-empty queue and put it on the wire. */
  function StartHead<P>(m: Machine<P>, accepted: bool): Outcome<Moved<P>>
    requires m.queue != []
  {
    match Start(m.(queue := m.queue[1..]), m.queue[0])
    case Next(m') => Next(Moved(m', accepted, Some(m.queue[0])))
    case Abort => Abort
  }

  function Send<P>(m: Machine<P>, linkUp: bool, capacity: nat, p: P): Outcome<Moved<P>>
  {
    if !linkUp || |m.queue| >= capacity then Next(Moved(m, false, None))
    else
      var m' := m.(queue := m.queue + [p]);
      if m.phase == READY then StartHead(m', true) else Next(Moved(m', true, None))
  }

  /** TransmitComplete, including its two assertions. */
  function Complete<P>(m: Machine<P>): Outcome<Moved<P>>
  {
    if m.phase != BUSY || m.current.None? then Abort
    else
      var m' := Machine(READY, None, m.queue);
      if m'.queue == [] then Next(Moved(m', false, None)) else StartHead(m', false)
  }

  // ---- whole runs ----

  /** The link: queue capacity, whether it is attached, transmission time of a packet, and the
      interframe gap. A packet keeps the device BUSY for its transmission time plus the gap. */
  datatype Link<!P> = Link(capacity: nat, up: bool, txTime: P -> nat, gap: nat)

  datatype Started<P> = Started(at: nat, job: P)

  /** One device inside the simulator. completions holds the due times of the pending
      TransmitComplete events. accepted, started, finished and busy record the run so far; busy[t]
      says whether the device was BUSY during nanosecond t. */
  datatype World<P> = World(
    now: nat,
    machine: Machine<P>,
    completions: multiset<nat>,
    accepted: seq<P>,
    started: seq<Started<P>>,
    finished: nat,
    busy: seq<bool>)

  datatype Action<P> =
    | SendPacket(packet: P)
    | FireCompletion
    | AdvanceClock(dt: nat)

  function InitialWorld<P>(): World<P>
  {
    World(0, InitialMachine(), multiset{}, [], [], 0, [])
  }

  /** An event fires at its due time, and the clock never runs past a pending event. */
  ghost predicate Enabled<P>(w: World<P>, a: Action<P>)
  {
    match a
    case SendPacket(_) => true
    case FireCompletion => w.now in w.completions
    case AdvanceClock(dt) => forall t :: t in w.completions ==> w.now + dt <= t
  }

  /** The new machine, and the TransmitComplete scheduled if a packet was put on the wire. */
  function Record<P>(link: Link<P>, w: World<P>, mv: Moved<P>): World<P>
  {
    match mv.started
    case None => w.(machine := mv.machine)
    case Some(p) =>
      w.(machine := mv.machine,
         completions := w.completions + multiset{w.now + link.txTime(p) + link.gap},
         started := w.started + [Started(w.now, p)])
  }

  function Step<P>(link: Link<P>, w: World<P>, a: Action<P>): Outcome<World<P>>
  {
    match a
    case SendPacket(p) =>
      (match Send(w.machine, link.up, link.capacity, p)
       case Abort => Abort
       case Next(mv) =>
         Next(Record(link, w.(accepted := if mv.accepted then w.accepted + [p] else w.accepted), mv)))
    case FireCompletion =>
      (match Complete(w.machine)
       case Abort => Abort
       case Next(mv) =>
         Next(Record(link, w.(completions := w.completions - multiset{w.now}, finished := w.finished + 1), mv)))
    case AdvanceClock(dt) =>
      Next(w.(now := w.now + dt, busy := w.busy + Repeat(w.machine.phase == BUSY, dt)))
  }

  function Run<P>(link: Link<P>, w: World<P>, actions: seq<Action<P>>): Outcome<World<P>>
    decreases |actions|
  {
    if actions == [] then Next(w)
    else
      match Step(link, w, actions[0])
      case Abort => Abort
      case Next(w') => Run(link, w', actions[1..])
  }

  /** Every action happens when the simulator allows it. */
  ghost predicate Possible<P>(link: Link<P>, w: World<P>, actions: seq<Action<P>>)
    decreases |actions|
  {
    actions == [] ||
    (Enabled(w, actions[0]) &&
     (Step(link, w, actions[0]).Next? ==> Possible(link, Step(link, w, actions[0]).value, actions[1..])))
  }

  /** A run of one more action in front. */
  lemma RunCons<P>(link: Link<P>, w: World<P>, a: Action<P>, rest: seq<Action<P>>)
    requires Enabled(w, a) && Step(link, w, a).Next?
    requires Possible(link, Step(link, w, a).value, rest)
    ensures Possible(link, w, [a] + rest)
    ensures Run(link, w, [a] + rest) == Run(link, Step(link, w, a).value, rest)
  {
    assert ([a] + rest)[1..] == rest;
  }

  /** The actions are possible and lead from w to w'. */
  ghost predicate Leads<P>(link: Link<P>, w: World<P>, actions: seq<Action<P>>, w': World<P>)
  {
    Possible(link, w, actions) && Run(link, w, actions) == Next(w')
  }

  lemma LeadsOne<P>(link: Link<P>, w: World<P>, a: Action<P>, w': World<P>)
    requires Enabled(w, a) && Step(link, w, a) == Next(w')
    ensures Leads(link, w, [a], w')
  {
    assert [a][1..] == [];
    assert Possible(link, w', []) && Run(link, w', []) == Next(w');
  }

  lemma LeadsOn<P>(link: Link<P>, w: World<P>, a: Action<P>, w1: World<P>, rest: seq<Action<P>>, w': World<P>)
    requires Enabled(w, a) && Step(link, w, a) == Next(w1) && Leads(link, w1, rest, w')
    ensures Leads(link, w, [a] + rest, w')
  {
    RunCons(link, w, a, rest);
  }

  // ---- the invariant of every run ----

  function Jobs<P>(started: seq<Started<P>>): (js: seq<P>)
    ensures |js| == |started|
    ensures forall i :: 0 <= i < |started| ==> js[i] == started[i].job
  {
    seq(|started|, i requires 0 <= i < |started| => started[i].job)
  }

  /** When the i-th transmission releases the device. */
  function Release<P>(link: Link<P>, s: Started<P>): nat
  {
    s.at + link.txTime(s.job) + link.gap
  }

  /** Transmissions never overlap: each starts only after every earlier one released the device. */
  ghost predicate Spaced<P>(link: Link<P>, started: seq<Started<P>>)
  {
    forall i, j :: 0 <= i < j < |started| ==> Release(link, started[i]) <= started[j].at
  }

  /** Some transmission occupies nanosecond t. */
  ghost predicate OnAir<P>(link: Link<P>, started: seq<Started<P>>, t: nat)
  {
    exists i :: 0 <= i < |started| && started[i].at <= t < Release(link, started[i])
  }

  function Last<P>(w: World<P>): Started<P>
    requires w.started != []
  {
    w.started[|w.started| - 1]
  }

  ghost predicate MachineInv<P>(link: Link<P>, w: World<P>)
  {
    && |w.machine.queue| <= link.capacity
    && (w.machine.phase == BUSY <==> w.machine.current.Some?)
    && (w.machine.phase == READY ==> w.machine.queue == [] && w.completions == multiset{})
    && (w.machine.phase == BUSY ==>
          && w.started != []
          && w.machine.current == Some(Last(w).job)
          && w.completions == multiset{Release(link, Last(w))})
    && w.accepted == Jobs(w.started) + w.machine.queue
    && |w.started| == w.finished + (if w.machine.phase == BUSY then 1 else 0)
  }

  ghost predicate TimeInv<P>(link: Link<P>, w: World<P>)
  {
    && Spaced(link, w.started)
    && (w.started != [] ==>
          if w.machine.phase == BUSY then Last(w).at <= w.now <= Release(link, Last(w))
          else Release(link, Last(w)) <= w.now)
    && |w.busy| == w.now
    && (forall t :: 0 <= t < w.now ==> (w.busy[t] <==> OnAir(link, w.started, t)))
  }

  ghost predicate Inv<P>(link: Link<P>, w: World<P>)
  {
    MachineInv(link, w) && TimeInv(link, w)
  }

  lemma InitialInv<P>(link: Link<P>)
    ensures Inv(link, InitialWorld())
  {
  }

  /** Appending a transmission that starts now leaves the past as it was. */
  lemma OnAirAppend<P>(link: Link<P>, started: seq<Started<P>>, s: Started<P>, t: nat)
    requires t < s.at
    ensures OnAir(link, started + [s], t) <==> OnAir(link, started, t)
  {
    var both := started + [s];
    if OnAir(link, started, t) {
      var i :| 0 <= i < |started| && started[i].at <= t < Release(link, started[i]);
      assert both[i] == started[i];
    }
    if OnAir(link, both, t) {
      var i :| 0 <= i < |both| && both[i].at <= t < Release(link, both[i]);
      assert i < |started| && both[i] == started[i];
    }
  }

  /** Putting a packet on the wire at an instant when nothing is in service keeps the timing. */
  lemma BeginTimeInv<P>(link: Link<P>, w: World<P>, p: P, w': World<P>)
    requires TimeInv(link, w)
    requires w.started != [] ==> Release(link, Last(w)) <= w.now
    requires w'.now == w.now && w'.busy == w.busy && w'.machine.phase == BUSY
    requires w'.started == w.started + [Started(w.now, p)]
    ensures TimeInv(link, w')
  {
    var s := Started(w.now, p);
    forall i, j | 0 <= i < j < |w'.started|
      ensures Release(link, w'.started[i]) <= w'.started[j].at
    {
      if j == |w.started| && i < |w.started| - 1 {
        assert Release(link, w.started[i]) <= w.started[|w.started| - 1].at;
      }
    }
    forall t | 0 <= t < w.now
      ensures w'.busy[t] <==> OnAir(link, w'.started, t)
    {
      OnAirAppend(link, w.started, s, t);
    }
  }

  /** The state inside Send and TransmitComplete just before the head of the queue goes on the wire. */
  ghost predicate ReadyToStart<P>(link: Link<P>, w: World<P>)
  {
    && w.machine.phase == READY && w.machine.current.None?
    && 0 < |w.machine.queue| <= link.capacity
    && w.completions == multiset{}
    && w.accepted == Jobs(w.started) + w.machine.queue
    && |w.started| == w.finished
    && TimeInv(link, w)
  }

  lemma StartHeadInv<P>(link: Link<P>, w: World<P>, accepted: bool)
    requires ReadyToStart(link, w)
    ensures StartHead(w.machine, accepted).Next?
    ensures Inv(link, Record(link, w, StartHead(w.machine, accepted).value))
  {
    var q := w.machine.queue;
    var w' := Record(link, w, StartHead(w.machine, accepted).value);
    BeginTimeInv(link, w, q[0], w');
    assert Jobs(w'.started) == Jobs(w.started) + [q[0]];
    assert q == [q[0]] + q[1..];
  }

  /** The world after p has been put into the queue. */
  function Queued<P>(w: World<P>, p: P): World<P>
  {
    w.(accepted := w.accepted + [p], machine := w.machine.(queue := w.machine.queue + [p]))
  }

  /** The world after the transmission in service has ended. */
  function Ended<P>(w: World<P>): World<P>
  {
    w.(completions := w.completions - multiset{w.now}, finished := w.finished + 1,
       machine := Machine(READY, None, w.machine.queue))
  }

  lemma SendRefused<P>(link: Link<P>, w: World<P>, p: P)
    requires !link.up || |w.machine.queue| >= link.capacity
    ensures Step(link, w, SendPacket(p)) == Next(w)
  {
  }

  lemma SendQueued<P>(link: Link<P>, w: World<P>, p: P)
    requires link.up && |w.machine.queue| < link.capacity && w.machine.phase == BUSY
    ensures Step(link, w, SendPacket(p)) == Next(Queued(w, p))
  {
  }

  lemma SendStarted<P>(link: Link<P>, w: World<P>, p: P)
    requires link.up && |w.machine.queue| < link.capacity && w.machine.phase == READY
    ensures StartHead(Queued(w, p).machine, true).Next?
    ensures Step(link, w, SendPacket(p)) ==
            Next(Record(link, Queued(w, p), StartHead(Queued(w, p).machine, true).value))
  {
  }

  lemma QueueTimeInv<P>(link: Link<P>, w: World<P>, p: P)
    requires TimeInv(link, w)
    ensures TimeInv(link, Queued(w, p))
  {
    assert forall t :: 0 <= t < w.now ==> Queued(w, p).busy[t] == w.busy[t];
  }

  /** A Send that only queues, on a BUSY device. */
  lemma QueueInv<P>(link: Link<P>, w: World<P>, p: P)
    requires Inv(link, w) && w.machine.phase == BUSY && |w.machine.queue| < link.capacity
    ensures Inv(link, Queued(w, p))
  {
    QueueTimeInv(link, w, p);
  }

  lemma QueueReady<P>(link: Link<P>, w: World<P>, p: P)
    requires Inv(link, w) && w.machine.phase == READY && |w.machine.queue| < link.capacity
    ensures ReadyToStart(link, Queued(w, p))
  {
    QueueTimeInv(link, w, p);
  }

  lemma SendInv<P>(link: Link<P>, w: World<P>, p: P)
    requires Inv(link, w)
    ensures Step(link, w, SendPacket(p)).Next? && Inv(link, Step(link, w, SendPacket(p)).value)
  {
    if !link.up || |w.machine.queue| >= link.capacity {
      SendRefused(link, w, p);
    } else if w.machine.phase == BUSY {
      SendQueued(link, w, p);
      QueueInv(link, w, p);
    } else {
      SendStarted(link, w, p);
      QueueReady(link, w, p);
      StartHeadInv(link, Queued(w, p), true);
    }
  }

  /** TransmitComplete with an empty queue, and with a packet to go on with. */
  lemma FireLast<P>(link: Link<P>, w: World<P>)
    requires w.machine.phase == BUSY && w.machine.current.Some? && w.machine.queue == []
    ensures Step(link, w, FireCompletion) == Next(Ended(w))
  {
  }

  lemma FireNext<P>(link: Link<P>, w: World<P>)
    requires w.machine.phase == BUSY && w.machine.current.Some? && w.machine.queue != []
    ensures StartHead(Ended(w).machine, false).Next?
    ensures Step(link, w, FireCompletion) == Next(Record(link, Ended(w), StartHead(Ended(w).machine, false).value))
  {
  }

  lemma EndTimeInv<P>(link: Link<P>, w: World<P>)
    requires TimeInv(link, w) && w.started != [] && w.now == Release(link, Last(w))
    ensures TimeInv(link, Ended(w))
  {
    assert forall t :: 0 <= t < w.now ==> Ended(w).busy[t] == w.busy[t];
  }

  lemma FireInv<P>(link: Link<P>, w: World<P>)
    requires Inv(link, w) && w.now in w.completions
    ensures Step(link, w, FireCompletion).Next? && Inv(link, Step(link, w, FireCompletion).value)
  {
    assert w.now == Release(link, Last(w)) && w.completions == multiset{w.now};
    EndTimeInv(link, w);
    if w.machine.queue == [] {
      FireLast(link, w);
    } else {
      FireNext(link, w);
      StartHeadInv(link, Ended(w), false);
    }
  }

  /** Until the next completion, a packet is on air exactly if the device is BUSY now. */
  lemma OnAirUntilCompletion<P>(link: Link<P>, w: World<P>, dt: nat, t: nat)
    requires Inv(link, w) && Enabled(w, AdvanceClock(dt)) && w.now <= t < w.now + dt
    ensures OnAir(link, w.started, t) <==> w.machine.phase == BUSY
  {
    if w.machine.phase == BUSY {
      assert Release(link, Last(w)) in w.completions;
      assert Last(w).at <= t < Release(link, Last(w));
    } else {
      forall i | 0 <= i < |w.started|
        ensures Release(link, w.started[i]) <= w.now
      {
        if i < |w.started| - 1 {
          assert Release(link, w.started[i]) <= Last(w).at;
        }
      }
    }
  }

  lemma AdvanceTimeInv<P>(link: Link<P>, w: World<P>, dt: nat)
    requires Inv(link, w) && Enabled(w, AdvanceClock(dt))
    ensures TimeInv(link, Step(link, w, AdvanceClock(dt)).value)
  {
    var w' := Step(link, w, AdvanceClock(dt)).value;
    if w.machine.phase == BUSY {
      assert Release(link, Last(w)) in w.completions;
    }
    forall t | 0 <= t < w'.now
      ensures w'.busy[t] <==> OnAir(link, w'.started, t)
    {
      if t < w.now {
        assert w'.busy[t] == w.busy[t];
      } else {
        OnAirUntilCompletion(link, w, dt, t);
      }
    }
  }

  lemma AdvanceInv<P>(link: Link<P>, w: World<P>, dt: nat)
    requires Inv(link, w) && Enabled(w, AdvanceClock(dt))
    ensures Step(link, w, AdvanceClock(dt)).Next? && Inv(link, Step(link, w, AdvanceClock(dt)).value)
  {
    AdvanceTimeInv(link, w, dt);
  }

  lemma StepInv<P>(link: Link<P>, w: World<P>, a: Action<P>)
    requires Inv(link, w) && Enabled(w, a)
    ensures Step(link, w, a).Next? && Inv(link, Step(link, w, a).value)
  {
    match a
    case SendPacket(p) => SendInv(link, w, p);
    case FireCompletion => FireInv(link, w);
    case AdvanceClock(dt) => AdvanceInv(link, w, dt);
  }

  /** Over every possible run: no assertion of the device fails, and the invariant holds at its end. */
  lemma {:induction false} RunInv<P>(link: Link<P>, w: World<P>, actions: seq<Action<P>>)
    requires Inv(link, w) && Possible(link, w, actions)
    ensures Run(link, w, actions).Next? && Inv(link, Run(link, w, actions).value)
    decreases |actions|
  {
    if actions != [] {
      StepInv(link, w, actions[0]);
      RunInv(link, Step(link, w, actions[0]).value, actions[1..]);
    }
  }

  // ---- steps, seen from the calls they make ----

  /** The completion scheduled when a packet goes on the wire at instant now. */
  function Due<P>(link: Link<P>, now: nat, started: Option<P>): multiset<nat>
  {
    match started
    case None => multiset{}
    case Some(p) => multiset{now + link.txTime(p) + link.gap}
  }

  function Begun<P>(now: nat, started: Option<P>): seq<Started<P>>
  {
    match started
    case None => []
    case Some(p) => [Started(now, p)]
  }

  /** p has just been put on the wire. */
  ghost predicate OnWire<P>(link: Link<P>, w: World<P>, p: P)
  {
    w.machine.current == Some(p) && w.completions == multiset{w.now + link.txTime(p) + link.gap}
  }

  lemma RecordIs<P>(link: Link<P>, w: World<P>, mv: Moved<P>)
    ensures
      var w' := Record(link, w, mv);
      && w'.now == w.now && w'.machine == mv.machine
      && w'.completions == w.completions + Due(link, w.now, mv.started)
      && w'.started == w.started + Begun(w.now, mv.started)
  {
    assert w.started + [] == w.started;
  }

  /** A packet is accepted if and only if the link is up and fewer packets wait than the queue holds. */
  lemma AcceptedExactly<P>(link: Link<P>, w: World<P>, p: P)
    requires Inv(link, w)
    ensures Step(link, w, SendPacket(p)).Next?
    ensures
      var w' := Step(link, w, SendPacket(p)).value;
      w'.accepted == w.accepted + (if link.up && |w.machine.queue| < link.capacity then [p] else [])
  {
    SendInv(link, w, p);
    if !link.up || |w.machine.queue| >= link.capacity {
      SendRefused(link, w, p);
      assert w.accepted + [] == w.accepted;
    } else if w.machine.phase == BUSY {
      SendQueued(link, w, p);
    } else {
      SendStarted(link, w, p);
    }
  }

  lemma SendRecords<P>(link: Link<P>, w: World<P>, p: P, mv: Moved<P>)
    requires Send(w.machine, link.up, link.capacity, p) == Next(mv)
    ensures Step(link, w, SendPacket(p)) ==
            Next(Record(link, w.(accepted := if mv.accepted then w.accepted + [p] else w.accepted), mv))
  {
  }

  lemma FireRecords<P>(link: Link<P>, w: World<P>, mv: Moved<P>)
    requires Complete(w.machine) == Next(mv)
    ensures Step(link, w, FireCompletion) == Next(Record(link, Ended(w), mv))
  {
  }

  lemma SendIs<P>(link: Link<P>, w: World<P>, p: P, mv: Moved<P>)
    requires Inv(link, w) && Send(w.machine, link.up, link.capacity, p) == Next(mv)
    ensures Step(link, w, SendPacket(p)).Next?
    ensures
      var w' := Step(link, w, SendPacket(p)).value;
      && Inv(link, w')
      && w'.now == w.now && w'.machine == mv.machine
      && w'.started == w.started + Begun(w.now, mv.started)
      && (mv.started.Some? ==> w.machine.current.None? && OnWire(link, w', mv.started.value))
      && (mv.started.None? ==> w'.completions == w.completions && w'.machine.current == w.machine.current)
  {
    SendInv(link, w, p);
    if !link.up || |w.machine.queue| >= link.capacity {
      SendRefused(link, w, p);
    } else if w.machine.phase == BUSY {
      SendQueued(link, w, p);
    } else {
      SendStarted(link, w, p);
      RecordIs(link, Queued(w, p), mv);
    }
  }

  lemma CompletionIs<P>(link: Link<P>, w: World<P>, mv: Moved<P>)
    requires Inv(link, w) && w.now in w.completions && Complete(w.machine) == Next(mv)
    ensures Step(link, w, FireCompletion).Next?
    ensures
      var w' := Step(link, w, FireCompletion).value;
      && Inv(link, w')
      && w'.now == w.now && w'.machine == mv.machine
      && w'.started == w.started + Begun(w.now, mv.started)
      && w.completions == multiset{w.now}
      && w.machine.phase == BUSY && w.machine.current.Some?
      && (if mv.started.Some? then OnWire(link, w', mv.started.value)
          else w'.completions == multiset{} && w'.machine.current.None?)
  {
    FireInv(link, w);
    if w.machine.queue == [] {
      FireLast(link, w);
    } else {
      FireNext(link, w);
      RecordIs(link, Ended(w), mv);
    }
  }

  // ---- what every run guarantees ----

  /** From the initial state, whatever is sent and however time passes: no assertion fails; BUSY, a
      current packet and exactly one pending TransmitComplete go together; READY means nothing waits;
      every accepted packet is waiting, in service or completed; packets go on the wire once each, in
      the order of acceptance, one at a time; and the device was BUSY exactly while one was on air. */
  lemma EveryRun<P>(link: Link<P>, actions: seq<Action<P>>)
    requires Possible(link, InitialWorld(), actions)
    ensures Run(link, InitialWorld(), actions).Next?
    ensures
      var w := Run(link, InitialWorld(), actions).value;
      && (w.machine.phase == BUSY <==> w.machine.current.Some?)
      && |w.completions| == (if w.machine.phase == BUSY then 1 else 0)
      && (w.machine.phase == READY ==> w.machine.queue == [])
      && |w.accepted| == |w.machine.queue| + (if w.machine.phase == BUSY then 1 else 0) + w.finished
      && |w.started| <= |w.accepted| && w.accepted[|w.started|..] == w.machine.queue
      && (forall i :: 0 <= i < |w.started| ==> w.accepted[i] == w.started[i].job)
      && (forall i, j :: 0 <= i < j < |w.started| ==>
            w.started[i].at + link.txTime(w.started[i].job) + link.gap <= w.started[j].at)
      && |w.busy| == w.now
      && (forall t :: 0 <= t < w.now ==>
            (w.busy[t] <==>
               exists s :: s in w.started && s.at <= t < s.at + link.txTime(s.job) + link.gap))
    ensures
      var w := Run(link, InitialWorld(), actions).value;
      w.machine.phase == BUSY ==>
        && w.started != [] && w.machine.current == Some(Last(w).job)
        && w.completions == multiset{Last(w).at + link.txTime(Last(w).job) + link.gap}
  {
    InitialInv(link);
    RunInv(link, InitialWorld(), actions);
    var w := Run(link, InitialWorld(), actions).value;
    forall i, j | 0 <= i < j < |w.started|
      ensures w.started[i].at + link.txTime(w.started[i].job) + link.gap <= w.started[j].at
    {
      assert Release(link, w.started[i]) <= w.started[j].at;
    }
    forall t | 0 <= t < w.now
      ensures w.busy[t] <==> exists s :: s in w.started && s.at <= t < s.at + link.txTime(s.job) + link.gap
    {
      assert w.busy[t] <==> OnAir(link, w.started, t);
    }
  }

  function Fired<P>(actions: seq<Action<P>>): nat
  {
    if actions == [] then 0 else (if actions[0].FireCompletion? then 1 else 0) + Fired(actions[1..])
  }

  ghost predicate NoSends<P>(actions: seq<Action<P>>)
  {
    forall i :: 0 <= i < |actions| ==> !actions[i].SendPacket?
  }

  /** Completions still to come. */
  function Backlog<P>(w: World<P>): nat
  {
    if w.machine.phase == BUSY then |w.machine.queue| + 1 else 0
  }

  lemma {:induction false} BacklogShrinks<P>(link: Link<P>, w: World<P>, actions: seq<Action<P>>)
    requires Inv(link, w) && Possible(link, w, actions) && NoSends(actions)
    ensures Run(link, w, actions).Next?
    ensures Backlog(Run(link, w, actions).value) + Fired(actions) == Backlog(w)
    decreases |actions|
  {
    if actions != [] {
      StepInv(link, w, actions[0]);
      var w1 := Step(link, w, actions[0]).value;
      assert !actions[0].SendPacket?;
      BacklogShrinks(link, w1, actions[1..]);
    }
  }

  /** With no further Send, a BUSY device is READY again after exactly queue length + 1 completions:
      no run fires more, and a run is READY at its end precisely when it fired that many. */
  lemma DrainExactly<P>(link: Link<P>, w: World<P>, actions: seq<Action<P>>)
    requires Inv(link, w) && w.machine.phase == BUSY
    requires Possible(link, w, actions) && NoSends(actions)
    ensures Run(link, w, actions).Next?
    ensures Fired(actions) <= |w.machine.queue| + 1
    ensures Run(link, w, actions).value.machine.phase == READY <==> Fired(actions) == |w.machine.queue| + 1
  {
    BacklogShrinks(link, w, actions);
  }

  /** Waiting until the transmission in service ends, and ending it. */
  lemma CompleteOne<P>(link: Link<P>, w: World<P>) returns (wait: Action<P>, w1: World<P>, w2: World<P>)
    requires Inv(link, w) && w.machine.phase == BUSY
    ensures !wait.SendPacket? && Enabled(w, wait) && Step(link, w, wait) == Next(w1)
    ensures Enabled(w1, FireCompletion) && Step(link, w1, FireCompletion) == Next(w2)
    ensures Inv(link, w2) && Backlog(w2) < Backlog(w)
  {
    wait := AdvanceClock(Release(link, Last(w)) - w.now);
    StepInv(link, w, wait);
    w1 := Step(link, w, wait).value;
    assert w1.now in w1.completions;
    StepInv(link, w1, FireCompletion);
    w2 := Step(link, w1, FireCompletion).value;
  }

  lemma NoSendsCons<P>(a: Action<P>, rest: seq<Action<P>>)
    requires !a.SendPacket? && NoSends(rest)
    ensures NoSends([a] + rest)
  {
  }

  /** And such a run always exists: the device is never stuck. */
  lemma {:induction false} DrainPossible<P>(link: Link<P>, w: World<P>) returns (actions: seq<Action<P>>, w': World<P>)
    requires Inv(link, w)
    ensures NoSends(actions) && Leads(link, w, actions, w') && w'.machine.phase == READY
    decreases Backlog(w)
  {
    if w.machine.phase == READY {
      actions, w' := [], w;
    } else {
      var wait, w1, w2 := CompleteOne(link, w);
      var rest: seq<Action<P>>;
      rest, w' := DrainPossible(link, w2);
      NoSendsCons(FireCompletion, rest);
      LeadsOn(link, w1, FireCompletion, w2, rest, w');
      NoSendsCons(wait, [FireCompletion] + rest);
      LeadsOn(link, w, wait, w1, [FireCompletion] + rest, w');
      actions := [wait] + ([FireCompletion] + rest);
    }
  }
}
