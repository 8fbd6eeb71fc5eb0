/** Delivery order on one laser wire. A packet put on the wire at s arrives at
    s + transmission time + delay(s), where delay(s) is the propagation delay at instant s. */
module WireOrder {
  import opened Common
  import opened TransmitMachine

  function Arrival<P>(link: Link<P>, delay: nat -> nat, s: Started<P>): nat
  {
    s.at + link.txTime(s.job) + delay(s.at)
  }

  ghost predicate InOrder<P>(link: Link<P>, delay: nat -> nat, started: seq<Started<P>>)
  {
    forall i, j :: 0 <= i < j < |started| ==> Arrival(link, delay, started[i]) <= Arrival(link, delay, started[j])
  }

  /** The channel's delay is the exact one, rounded down to whole nanoseconds. Rounding to the nearest is
      rounding down half a nanosecond more, which shrinks alike. */
  ghost predicate Rounds(delay: nat -> nat, exact: nat -> real)
  {
    forall t: nat :: exact(t) >= 0.0 && delay(t) == exact(t).Floor
  }

  predicate ShrinksBetween(exact: nat -> real, b: real, s: nat, t: nat)
  {
    exact(s) - exact(t) <= b * (t - s) as real
  }

  /** Between any two instants the exact delay shrinks by at most b per nanosecond. */
  ghost predicate ShrinksAtMost(exact: nat -> real, b: real)
  {
    forall s: nat, t: nat :: s <= t ==> ShrinksBetween(exact, b, s, t)
  }

  ghost predicate Wire(delay: nat -> nat, exact: nat -> real, b: real)
  {
    Rounds(delay, exact) && ShrinksAtMost(exact, b)
  }

  /** How long p keeps the device BUSY. */
  function Occupancy<P>(link: Link<P>, p: P): nat
  {
    link.txTime(p) + link.gap
  }

  /** While p keeps the device BUSY, the delay shrinks by no more than q takes. */
  predicate KeepsBehind<P>(link: Link<P>, b: real, p: P, q: P)
  {
    b * Occupancy(link, p) as real <= Occupancy(link, q) as real
  }

  // ---- the condition suffices ----

  /** x is sent at s and takes tx, y at t and takes ty; the exact delays then are dx and dy. */
  lemma NoOvertaking(b: real, gap: nat, s: nat, tx: nat, dx: real, t: nat, ty: nat, dy: real)
    requires b <= 1.0 && s + tx + gap <= t
    requires b * (tx + gap) as real <= (ty + gap) as real
    requires dx - dy <= b * (t - s) as real
    ensures s + tx + dx.Floor <= t + ty + dy.Floor
  {
    var wait := (t - s) as real;
    var busy := (tx + gap) as real;
    assert (1.0 - b) * (wait - busy) >= 0.0;
    assert (1.0 - b) * (wait - busy) == wait - busy - b * wait + b * busy;
    assert (s + tx) as real + dx <= (t + ty) as real + dy;
  }

  lemma ReleasedBefore<P>(link: Link<P>, actions: seq<Action<P>>, i: nat, j: nat)
    requires Possible(link, InitialWorld(), actions) && Run(link, InitialWorld(), actions).Next?
    requires i < j < |Run(link, InitialWorld(), actions).value.started|
    ensures
      var started := Run(link, InitialWorld(), actions).value.started;
      started[i].at + link.txTime(started[i].job) + link.gap <= started[j].at
  {
    InitialInv(link);
    RunInv(link, InitialWorld(), actions);
    var started := Run(link, InitialWorld(), actions).value.started;
    assert Release(link, started[i]) <= started[j].at;
  }

  /** In every run of a device on the wire: of two packets, the earlier one does not arrive after the
      later one if it keeps the device BUSY for no longer than, b times, the later one does. */
  lemma FifoDelivery<P>(link: Link<P>, delay: nat -> nat, exact: nat -> real, b: real, actions: seq<Action<P>>,
      i: nat, j: nat)
    requires b <= 1.0 && Wire(delay, exact, b)
    requires Possible(link, InitialWorld(), actions) && Run(link, InitialWorld(), actions).Next?
    requires i < j < |Run(link, InitialWorld(), actions).value.started|
    requires
      var started := Run(link, InitialWorld(), actions).value.started;
      KeepsBehind(link, b, started[i].job, started[j].job)
    ensures
      var started := Run(link, InitialWorld(), actions).value.started;
      Arrival(link, delay, started[i]) <= Arrival(link, delay, started[j])
  {
    ReleasedBefore(link, actions, i, j);
    var started := Run(link, InitialWorld(), actions).value.started;
    var x, y := started[i], started[j];
    assert ShrinksBetween(exact, b, x.at, y.at);
    NoOvertaking(b, link.gap, x.at, link.txTime(x.job), exact(x.at), y.at, link.txTime(y.job), exact(y.at));
  }

  // ---- which packets a run can put on the wire ----

  ghost predicate OnlySends<P>(actions: seq<Action<P>>, sends: P -> bool)
  {
    forall i :: 0 <= i < |actions| && actions[i].SendPacket? ==> sends(actions[i].packet)
  }

  /** A run in which only packets of the kind `sends` are sent. */
  ghost predicate RunOf<P>(link: Link<P>, sends: P -> bool, actions: seq<Action<P>>)
  {
    && OnlySends(actions, sends)
    && Possible(link, InitialWorld(), actions)
    && Run(link, InitialWorld(), actions).Next?
  }

  predicate Carries<P>(link: Link<P>, sends: P -> bool, p: P)
  {
    link.up && link.capacity > 0 && sends(p)
  }

  ghost predicate AllCarried<P>(link: Link<P>, sends: P -> bool, ps: seq<P>)
  {
    forall p :: p in ps ==> Carries(link, sends, p)
  }

  lemma StepAccepts<P>(link: Link<P>, sends: P -> bool, w: World<P>, a: Action<P>)
    requires AllCarried(link, sends, w.accepted) && Step(link, w, a).Next?
    requires a.SendPacket? ==> sends(a.packet)
    ensures AllCarried(link, sends, Step(link, w, a).value.accepted)
  {
    if a.SendPacket? && (!link.up || |w.machine.queue| >= link.capacity) {
      SendRefused(link, w, a.packet);
    }
  }

  lemma {:induction false} RunAccepts<P>(link: Link<P>, sends: P -> bool, w: World<P>, actions: seq<Action<P>>)
    requires AllCarried(link, sends, w.accepted) && OnlySends(actions, sends) && Run(link, w, actions).Next?
    ensures AllCarried(link, sends, Run(link, w, actions).value.accepted)
    decreases |actions|
  {
    if actions != [] {
      StepAccepts(link, sends, w, actions[0]);
      RunAccepts(link, sends, Step(link, w, actions[0]).value, actions[1..]);
    }
  }

  lemma StartedAreCarried<P>(link: Link<P>, sends: P -> bool, actions: seq<Action<P>>, i: nat)
    requires RunOf(link, sends, actions) && i < |Run(link, InitialWorld(), actions).value.started|
    ensures Carries(link, sends, Run(link, InitialWorld(), actions).value.started[i].job)
  {
    EveryRun(link, actions);
    RunAccepts(link, sends, InitialWorld(), actions);
    var w := Run(link, InitialWorld(), actions).value;
    assert w.accepted[i] == w.started[i].job;
  }

  // ---- the condition is needed ----

  /** What is missing from x to the next whole number. */
  function Slack(x: real): (r: real)
    ensures 0.0 <= r < 1.0 && x + r == (-(-x).Floor) as real
  {
    (-(-x).Floor) as real - x
  }

  /** The ends close in at rate b until instant u; from then on the delay is c. */
  function ClosingInAt(b: real, u: nat, c: real, t: nat): real
  {
    if t < u then b * (u - t) as real + c else c
  }

  function ClosingIn(b: real, u: nat, c: real): nat -> real
  {
    (t: nat) => ClosingInAt(b, u, c, t)
  }

  function Rounded(exact: nat -> real): nat -> nat
  {
    (t: nat) => if exact(t) >= 0.0 then exact(t).Floor else 0
  }

  lemma Scale(b: real, x: real, y: real)
    requires b >= 0.0 && x <= y
    ensures b * x <= b * y
  {
  }

  lemma Falls(b: real, x: real, y: real, z: real)
    requires b >= 0.0 && x - y <= z
    ensures b * x - b * y <= b * z
  {
    Scale(b, x - y, z);
  }

  lemma IsPositive(b: real, x: real)
    requires b >= 0.0 && x >= 0.0
    ensures b * x >= 0.0
  {
  }

  lemma ClosingInIsPositive(b: real, u: nat, c: real, t: nat)
    requires b >= 0.0 && c >= 0.0
    ensures ClosingInAt(b, u, c, t) >= 0.0
  {
    if t < u {
      IsPositive(b, (u - t) as real);
    }
  }

  lemma ClosingInShrinks(b: real, u: nat, c: real, s: nat, t: nat)
    requires b >= 0.0 && s <= t
    ensures ShrinksBetween(ClosingIn(b, u, c), b, s, t)
  {
    if t < u {
      Falls(b, (u - s) as real, (u - t) as real, (t - s) as real);
    } else if s < u {
      Scale(b, (u - s) as real, (t - s) as real);
    } else {
      IsPositive(b, (t - s) as real);
    }
  }

  lemma ClosingInIsWire(b: real, u: nat, c: real)
    requires b >= 0.0 && c >= 0.0
    ensures Wire(Rounded(ClosingIn(b, u, c)), ClosingIn(b, u, c), b)
  {
    var exact := ClosingIn(b, u, c);
    forall t: nat
      ensures exact(t) >= 0.0
    {
      ClosingInIsPositive(b, u, c, t);
    }
    forall s: nat, t: nat | s <= t
      ensures ShrinksBetween(exact, b, s, t)
    {
      ClosingInShrinks(b, u, c, s, t);
    }
  }

  /** With the right c, rounding costs nothing at 0 and everything at u. */
  lemma ClosingInDelays(b: real, u: nat, c: real)
    requires b >= 0.0 && u > 0 && c == Slack(b * u as real)
    ensures Rounded(ClosingIn(b, u, c))(0) as real >= b * u as real
    ensures Rounded(ClosingIn(b, u, c))(u) == 0
  {
    IsPositive(b, u as real);
    WholeDelay(b * u as real, c);
    assert ClosingIn(b, u, c)(0) == ClosingInAt(b, u, c, 0);
    assert ClosingIn(b, u, c)(u) == c;
  }

  lemma WholeDelay(x: real, c: real)
    requires x >= 0.0 && c == Slack(x)
    ensures (x + c).Floor as real >= x && c.Floor == 0
  {
    var n := -(-x).Floor;
    assert x + c == n as real;
    assert (n as real).Floor == n;
  }

  lemma RateIsPositive(b: real, x: real)
    requires x >= 0.0 && b * x > 0.0
    ensures b > 0.0
  {
    if b <= 0.0 {
      Scale(-b, 0.0, x);
    }
  }

  lemma MakesUp(b: real, lead: real, v: real)
    requires b > 1.0 && v > lead / (b - 1.0)
    ensures b * v > v + lead
  {
    var d := b - 1.0;
    var more := lead / d;
    assert more * d == lead;
    assert d * (v - more) > 0.0;
    assert d * (v - more) == d * v - more * d;
  }

  /** For b > 1 every lead is made up for in time. */
  lemma LongEnough(b: real, lead: int, done: nat) returns (u: nat)
    requires b > 1.0
    ensures u >= done && b * u as real > u as real + lead as real
  {
    var more := lead as real / (b - 1.0);
    u := done + (if more >= 0.0 then more.Floor + 1 else 1);
    MakesUp(b, lead as real, u as real);
  }

  /** If the condition fails for a packet that is done at an instant and one that takes lead longer, then
      the second, put on the wire at a suitable instant u from then on, overtakes the first, sent at 0. */
  lemma OvertakingInstant(b: real, done: nat, lead: int) returns (u: nat)
    requires done + lead >= 0
    requires b > 1.0 || b * done as real > (done + lead) as real
    ensures b > 0.0 && u >= done && u > 0
    ensures b * u as real > u as real + lead as real
  {
    if b * done as real > (done + lead) as real {
      u := done;
      RateIsPositive(b, done as real);
    } else {
      u := LongEnough(b, lead, done);
    }
  }

  /** Sending on a READY device puts the packet on the wire. */
  lemma SendOnReady<P>(link: Link<P>, w: World<P>, p: P) returns (w': World<P>)
    requires Inv(link, w) && w.machine.phase == READY && link.up && link.capacity > 0
    ensures Step(link, w, SendPacket(p)) == Next(w') && Inv(link, w')
    ensures w'.now == w.now && w'.started == w.started + [Started(w.now, p)]
    ensures w'.machine.phase == BUSY && w'.machine.queue == []
  {
    SendInv(link, w, p);
    SendStarted(link, w, p);
    w' := Step(link, w, SendPacket(p)).value;
    assert (w.machine.queue + [p])[1..] == [];
  }

  lemma FireOnEmpty<P>(link: Link<P>, w: World<P>) returns (w': World<P>)
    requires Inv(link, w) && w.machine.phase == BUSY && w.machine.queue == [] && w.now == Release(link, Last(w))
    ensures Enabled(w, FireCompletion) && Step(link, w, FireCompletion) == Next(w') && Inv(link, w')
    ensures w'.now == w.now && w'.started == w.started && w'.machine.phase == READY
  {
    assert w.now in w.completions;
    FireInv(link, w);
    FireLast(link, w);
    w' := Step(link, w, FireCompletion).value;
  }

  /** Waiting. */
  lemma Wait<P>(link: Link<P>, w: World<P>, dt: nat) returns (w': World<P>)
    requires Inv(link, w)
    requires w.machine.phase == BUSY ==> w.now + dt <= Release(link, Last(w))
    ensures Enabled(w, AdvanceClock(dt)) && Step(link, w, AdvanceClock(dt)) == Next(w') && Inv(link, w')
    ensures w'.now == w.now + dt && w'.started == w.started && w'.machine == w.machine
  {
    AdvanceInv(link, w, dt);
    w' := Step(link, w, AdvanceClock(dt)).value;
  }

  lemma LeadsTwice<P>(link: Link<P>, w: World<P>, a: Action<P>, w1: World<P>, b: Action<P>, w2: World<P>)
    requires Enabled(w, a) && Step(link, w, a) == Next(w1)
    requires Enabled(w1, b) && Step(link, w1, b) == Next(w2)
    ensures Leads(link, w, [a] + [b], w2)
  {
    LeadsOne(link, w1, b, w2);
    LeadsOn(link, w, a, w1, [b], w2);
  }

  /** Waiting on a READY device, and then sending q. */
  lemma WaitAndSend<P>(link: Link<P>, w: World<P>, q: P, dt: nat) returns (actions: seq<Action<P>>, w': World<P>)
    requires Inv(link, w) && w.machine.phase == READY && link.up && link.capacity > 0
    ensures actions == [AdvanceClock(dt)] + [SendPacket(q)]
    ensures Leads(link, w, [AdvanceClock(dt)] + [SendPacket(q)], w')
    ensures w'.started == w.started + [Started(w.now + dt, q)]
  {
    var w1 := Wait(link, w, dt);
    w' := SendOnReady(link, w1, q);
    LeadsTwice(link, w, AdvanceClock(dt), w1, SendPacket(q), w');
    actions := [AdvanceClock(dt)] + [SendPacket(q)];
  }

  /** Sending p on a READY device, waiting until it is done, and going on. */
  lemma SendAndFinish<P>(link: Link<P>, w: World<P>, p: P) returns (w1: World<P>, w2: World<P>, w3: World<P>)
    requires Inv(link, w) && w.machine.phase == READY && link.up && link.capacity > 0
    ensures Enabled(w, SendPacket(p)) && Step(link, w, SendPacket(p)) == Next(w1)
    ensures Enabled(w1, AdvanceClock(Occupancy(link, p)))
    ensures Step(link, w1, AdvanceClock(Occupancy(link, p))) == Next(w2)
    ensures Enabled(w2, FireCompletion) && Step(link, w2, FireCompletion) == Next(w3)
    ensures Inv(link, w3) && w3.machine.phase == READY
    ensures w3.now == w.now + Occupancy(link, p) && w3.started == w.started + [Started(w.now, p)]
  {
    w1 := SendOnReady(link, w, p);
    w2 := Wait(link, w1, Occupancy(link, p));
    w3 := FireOnEmpty(link, w2);
  }

  /** p is sent at 0, and q at u. */
  lemma SendApart<P>(link: Link<P>, p: P, q: P, u: nat) returns (actions: seq<Action<P>>, w': World<P>)
    requires link.up && link.capacity > 0 && u >= Occupancy(link, p)
    ensures actions == [SendPacket(p), AdvanceClock(Occupancy(link, p)), FireCompletion,
                        AdvanceClock(u - Occupancy(link, p)), SendPacket(q)]
    ensures Leads(link, InitialWorld(), actions, w')
    ensures w'.started == [Started(0, p), Started(u, q)]
  {
    InitialInv(link);
    var w0 := InitialWorld<P>();
    var w1, w2, w3 := SendAndFinish(link, w0, p);
    var rest: seq<Action<P>>;
    rest, w' := WaitAndSend(link, w3, q, u - Occupancy(link, p));
    LeadsOn(link, w2, FireCompletion, w3, rest, w');
    LeadsOn(link, w1, AdvanceClock(Occupancy(link, p)), w2, [FireCompletion] + rest, w');
    actions := [SendPacket(p)] + ([AdvanceClock(Occupancy(link, p))] + ([FireCompletion] + rest));
    LeadsOn(link, w0, SendPacket(p), w1, [AdvanceClock(Occupancy(link, p))] + ([FireCompletion] + rest), w');
  }

  /** Wherever the condition fails for two packets, there is a wire within the bound and a run in which
      the second overtakes the first. */
  lemma Overtaking<P>(link: Link<P>, b: real, p: P, q: P)
    returns (delay: nat -> nat, exact: nat -> real, actions: seq<Action<P>>)
    requires link.up && link.capacity > 0
    requires b > 1.0 || !KeepsBehind(link, b, p, q)
    ensures Wire(delay, exact, b)
    ensures RunOf(link, x => x == p || x == q, actions)
    ensures
      var started := Run(link, InitialWorld(), actions).value.started;
      && Jobs(started) == [p, q]
      && Arrival(link, delay, started[1]) < Arrival(link, delay, started[0])
  {
    var u := OvertakingInstant(b, Occupancy(link, p), link.txTime(q) - link.txTime(p));
    var c := Slack(b * u as real);
    exact := ClosingIn(b, u, c);
    delay := Rounded(exact);
    ClosingInIsWire(b, u, c);
    ClosingInDelays(b, u, c);
    var w: World<P>;
    actions, w := SendApart(link, p, q, u);
  }

  // ---- the exact condition ----

  /** On every wire on which the delay shrinks by at most b, every run delivers in order. */
  ghost predicate AlwaysInOrder<P(!new)>(link: Link<P>, sends: P -> bool, b: real)
  {
    forall delay: nat -> nat, exact: nat -> real, actions: seq<Action<P>> ::
      Wire(delay, exact, b) && RunOf(link, sends, actions) ==>
        InOrder(link, delay, Run(link, InitialWorld(), actions).value.started)
  }

  /** The delay shrinks no faster than time passes, and every packet keeps behind every other. */
  ghost predicate Safe<P(!new)>(link: Link<P>, sends: P -> bool, b: real)
  {
    b <= 1.0 && forall p: P, q: P :: sends(p) && sends(q) ==> KeepsBehind(link, b, p, q)
  }

  /** For every link, every kind of packets and every rate b: delivery is in order on all wires and in all
      runs if and only if the condition holds, or no packet gets on the wire at all. */
  lemma FifoExactly<P(!new)>(link: Link<P>, sends: P -> bool, b: real)
    ensures AlwaysInOrder(link, sends, b) <==> Safe(link, sends, b) || forall p: P :: !Carries(link, sends, p)
  {
    if Safe(link, sends, b) || forall p: P :: !Carries(link, sends, p) {
      forall delay: nat -> nat, exact: nat -> real, actions: seq<Action<P>> |
        Wire(delay, exact, b) && RunOf(link, sends, actions)
        ensures InOrder(link, delay, Run(link, InitialWorld(), actions).value.started)
      {
        SafeIsInOrder(link, sends, b, delay, exact, actions);
      }
    } else {
      var p: P :| Carries(link, sends, p);
      if b > 1.0 {
        UnsafeIsNot(link, sends, b, p, p);
      } else {
        var x: P, y: P :| sends(x) && sends(y) && !KeepsBehind(link, b, x, y);
        UnsafeIsNot(link, sends, b, x, y);
      }
    }
  }

  lemma SafeIsInOrder<P(!new)>(link: Link<P>, sends: P -> bool, b: real, delay: nat -> nat, exact: nat -> real,
      actions: seq<Action<P>>)
    requires Safe(link, sends, b) || forall p: P :: !Carries(link, sends, p)
    requires Wire(delay, exact, b) && RunOf(link, sends, actions)
    ensures InOrder(link, delay, Run(link, InitialWorld(), actions).value.started)
  {
    var started := Run(link, InitialWorld(), actions).value.started;
    forall i, j | 0 <= i < j < |started|
      ensures Arrival(link, delay, started[i]) <= Arrival(link, delay, started[j])
    {
      StartedAreCarried(link, sends, actions, i);
      StartedAreCarried(link, sends, actions, j);
      FifoDelivery(link, delay, exact, b, actions, i, j);
    }
  }

  lemma UnsafeIsNot<P(!new)>(link: Link<P>, sends: P -> bool, b: real, p: P, q: P)
    requires Carries(link, sends, p) && Carries(link, sends, q)
    requires b > 1.0 || !KeepsBehind(link, b, p, q)
    ensures !AlwaysInOrder(link, sends, b)
  {
    var delay, exact, actions := Overtaking(link, b, p, q);
    assert Wire(delay, exact, b) && RunOf(link, sends, actions);
  }
}
