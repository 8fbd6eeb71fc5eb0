/** Whole runs of a burst application: which packets it sends, and when. */
module UdpBurstRuns {
  import opened Common
  import opened SimulatorCore
  import opened UdpBursts

  /** Outgoing bursts as they are registered from an accepted schedule. */
  ghost predicate Startable(bursts: seq<Burst>)
  {
    && StartsAscend(bursts)
    && forall b :: b in bursts ==> b.rate > 0.0 && b.start >= 0 && b.duration >= 0
  }

  lemma {:induction false} SelectIsStartable(bursts: seq<Burst>, p: Burst -> bool)
    requires Startable(bursts)
    ensures Startable(Select(bursts, p))
    decreases |bursts|
  {
    if bursts != [] {
      var rest, last := bursts[..|bursts| - 1], bursts[|bursts| - 1];
      assert bursts == rest + [last];
      SelectIsStartable(rest, p);
      SelectIsSubset(rest, p);
      forall b | b in Select(rest, p)
        ensures b.start <= last.start
      {
        assert b in rest;
      }
    }
  }

  /** What any application gets from an accepted schedule can be started. */
  lemma RegisteredIsStartable(schedule: seq<Burst>, endpoints: set<int>, endTime: int, p: Burst -> bool)
    requires ValidSchedule(schedule, endpoints, endTime)
    ensures Startable(Select(schedule, p))
  {
    SelectIsStartable(schedule, p);
  }

  // ---- the packets of one burst ----

  /** When packet k of a burst is due. */
  function SendTime(b: Burst, k: nat): int
    requires b.rate > 0.0
  {
    b.start + k * Gap(b)
  }

  /** How many packets a burst has: one for every gap begun, and at least one. */
  function Packets(b: Burst): nat
    requires b.rate > 0.0 && b.duration >= 0
  {
    if b.duration == 0 then 1 else (b.duration - 1) / Gap(b) + 1
  }

  lemma PacketsAre(b: Burst, k: nat)
    requires b.rate > 0.0 && b.duration >= 0
    ensures k < Packets(b) <==> k == 0 || k * Gap(b) < b.duration
  {
    if b.duration > 0 {
      QuotientBound(b.duration - 1, Gap(b), k);
    }
  }

  lemma QuotientBound(x: nat, d: nat, k: nat)
    requires d > 0
    ensures k <= x / d <==> k * d <= x
  {
    var q := x / d;
    assert x == q * d + x % d;
    if k <= q {
      Ordered(k, q, d);
    } else {
      Ordered(q + 1, k, d);
      assert (q + 1) * d == q * d + d;
    }
  }

  lemma NextSendTime(b: Burst, k: nat)
    requires b.rate > 0.0
    ensures SendTime(b, k + 1) == SendTime(b, k) + Gap(b) && SendTime(b, 0) == b.start
  {
    assert (k + 1) * Gap(b) == k * Gap(b) + Gap(b);
  }

  lemma SendTimesGrow(b: Burst, j: nat, k: nat)
    requires b.rate > 0.0 && j <= k
    ensures b.start <= SendTime(b, j) <= SendTime(b, k)
  {
    Ordered(j, k, Gap(b));
  }

  /** The packets sent are the first c ones, each when it was due. */
  ghost predicate FirstSent(b: Burst, sent: seq<nat>)
    requires b.rate > 0.0
  {
    forall k: nat :: k < |sent| ==> sent[k] == SendTime(b, k)
  }

  // ---- whole runs ----

  datatype World = World(now: nat, next: nat, sent: seq<seq<nat>>, pending: multiset<(nat, BurstEvent)>)

  datatype Action = Fire(event: BurstEvent) | AdvanceClock(dt: nat)

  /** The application has been started at time 0. */
  function InitialWorld(bursts: seq<Burst>): World
    requires bursts != [] ==> bursts[0].start >= 0
  {
    World(0, 0, Repeat([], |bursts|),
          if bursts == [] then multiset{} else multiset{(bursts[0].start as nat, StartNext)})
  }

  ghost predicate Enabled(w: World, a: Action)
  {
    match a
    case Fire(e) => (w.now, e) in w.pending
    case AdvanceClock(dt) => forall e :: e in w.pending ==> w.now + dt <= e.0
  }

  function SendNow(bursts: seq<Burst>, w: World, i: nat): World
    requires i < |bursts| == |w.sent| && bursts[i].rate > 0.0
  {
    w.(sent := w.sent[i := w.sent[i] + [w.now]], pending := w.pending + NextPacket(bursts[i], i, w.now))
  }

  /** One more packet of burst i has been sent. */
  function Fired(bursts: seq<Burst>, w: World, i: nat): World
    requires i < |bursts| == |w.sent| && bursts[i].rate > 0.0
  {
    SendNow(bursts, w.(pending := w.pending - multiset{(w.now, SendOut(i))}), i)
  }

  /** The next burst has been started. */
  function StartedNext(bursts: seq<Burst>, w: World): World
    requires w.next < |bursts| == |w.sent| && bursts[w.next].rate > 0.0
  {
    var w1 := SendNow(bursts, w.(pending := w.pending - multiset{(w.now, StartNext)}), w.next);
    w1.(next := w.next + 1, pending := w1.pending + NextStart(bursts, w.next))
  }

  /** StartNextBurst throws if no burst is due; so does a start scheduled into the past. */
  function Step(bursts: seq<Burst>, w: World, a: Action): (r: Outcome<World>)
    requires |w.sent| == |bursts| && forall b :: b in bursts ==> b.rate > 0.0
    ensures r.Next? ==> |r.value.sent| == |bursts|
  {
    match a
    case AdvanceClock(dt) => Next(w.(now := w.now + dt))
    case Fire(SendOut(i)) =>
      if i >= |bursts| then Abort else Next(Fired(bursts, w, i))
    case Fire(StartNext) =>
      if w.next >= |bursts| || bursts[w.next].start != w.now then Abort
      else if w.next + 1 < |bursts| && bursts[w.next + 1].start < w.now then Abort
      else Next(StartedNext(bursts, w))
  }

  function Run(bursts: seq<Burst>, w: World, actions: seq<Action>): (r: Outcome<World>)
    requires |w.sent| == |bursts| && forall b :: b in bursts ==> b.rate > 0.0
    ensures r.Next? ==> |r.value.sent| == |bursts|
    decreases |actions|
  {
    if actions == [] then Next(w)
    else
      match Step(bursts, w, actions[0])
      case Abort => Abort
      case Next(w') => Run(bursts, w', actions[1..])
  }

  ghost predicate Possible(bursts: seq<Burst>, w: World, actions: seq<Action>)
    requires |w.sent| == |bursts| && forall b :: b in bursts ==> b.rate > 0.0
    decreases |actions|
  {
    actions == [] ||
    (Enabled(w, actions[0]) &&
     (Step(bursts, w, actions[0]).Next? ==> Possible(bursts, Step(bursts, w, actions[0]).value, actions[1..])))
  }

  // ---- the invariant ----

  /** Packet c of a burst that has sent c packets is still to come. */
  predicate More(b: Burst, c: nat)
    requires b.rate > 0.0
  {
    c * Gap(b) < b.duration
  }

  /** A burst that has been started. */
  ghost predicate Underway(b: Burst, sent: seq<nat>, now: nat)
    requires b.rate > 0.0
  {
    var c := |sent|;
    && c > 0 && FirstSent(b, sent)
    && (c > 1 ==> More(b, c - 1))
    && SendTime(b, c - 1) <= now
    && (More(b, c) ==> now <= SendTime(b, c))
  }

  /** The events pending for the bursts: the next start, and the next packet of every started burst that has
      more. */
  function Expected(bursts: seq<Burst>, w: World, e: (nat, BurstEvent)): nat
    requires |w.sent| == |bursts| && forall b :: b in bursts ==> b.rate > 0.0
  {
    match e.1
    case StartNext => if w.next < |bursts| && e.0 == bursts[w.next].start then 1 else 0
    case SendOut(i) =>
      if i < |bursts| && i < w.next && More(bursts[i], |w.sent[i]|) && e.0 == SendTime(bursts[i], |w.sent[i]|) then 1
      else 0
  }

  ghost predicate PendingAsExpected(bursts: seq<Burst>, w: World)
    requires |w.sent| == |bursts| && forall b :: b in bursts ==> b.rate > 0.0
  {
    forall e: (nat, BurstEvent) :: w.pending[e] == Expected(bursts, w, e)
  }

  ghost predicate BurstInv(bursts: seq<Burst>, w: World, i: nat)
    requires i < |bursts| == |w.sent| && bursts[i].rate > 0.0
  {
    if i < w.next then Underway(bursts[i], w.sent[i], w.now) else w.sent[i] == []
  }

  ghost predicate Inv(bursts: seq<Burst>, w: World)
    requires |w.sent| == |bursts| && Startable(bursts)
  {
    && w.next <= |bursts|
    && (w.next < |bursts| ==> w.now <= bursts[w.next].start)
    && (forall i: nat :: i < |bursts| ==> BurstInv(bursts, w, i))
    && PendingAsExpected(bursts, w)
  }

  lemma InitialInv(bursts: seq<Burst>)
    requires Startable(bursts)
    ensures bursts != [] ==> bursts[0].start >= 0
    ensures Inv(bursts, InitialWorld(bursts))
  {
    assert bursts != [] ==> bursts[0] in bursts;
  }

  /** One more packet, sent when it is due. */
  lemma SendOne(b: Burst, sent: seq<nat>, now: nat)
    requires b.rate > 0.0 && FirstSent(b, sent) && now == SendTime(b, |sent|)
    requires |sent| > 0 ==> More(b, |sent|)
    ensures Underway(b, sent + [now], now)
    ensures now + Gap(b) < b.start + b.duration <==> More(b, |sent| + 1)
    ensures now + Gap(b) == SendTime(b, |sent| + 1)
  {
    NextSendTime(b, |sent|);
  }

  lemma NextPacketIs(b: Burst, i: nat, sent: seq<nat>, now: nat)
    requires b.rate > 0.0 && b.start >= 0 && now == SendTime(b, |sent|)
    ensures SendTime(b, |sent| + 1) >= 0
    ensures NextPacket(b, i, now) ==
            if More(b, |sent| + 1) then multiset{(SendTime(b, |sent| + 1) as nat, SendOut(i))} else multiset{}
  {
    NextSendTime(b, |sent|);
  }

  lemma FiredPending(bursts: seq<Burst>, w: World, i: nat, e: (nat, BurstEvent))
    requires |w.sent| == |bursts| && Startable(bursts) && i < |bursts| && i < w.next && bursts[i] in bursts
    requires w.now == SendTime(bursts[i], |w.sent[i]|) && More(bursts[i], |w.sent[i]|)
    requires w.pending[e] == Expected(bursts, w, e)
    ensures Fired(bursts, w, i).pending[e] == Expected(bursts, Fired(bursts, w, i), e)
  {
    NextPacketIs(bursts[i], i, w.sent[i], w.now);
    var w' := Fired(bursts, w, i);
    if e.1 == SendOut(i) {
      assert |w'.sent[i]| == |w.sent[i]| + 1;
      assert w.pending[e] == if e.0 == w.now then 1 else 0;
    } else {
      assert w'.pending[e] == w.pending[e];
      assert forall j :: 0 <= j < |bursts| && j != i ==> w'.sent[j] == w.sent[j];
    }
  }

  lemma FiredBursts(bursts: seq<Burst>, w: World, i: nat, j: nat)
    requires |w.sent| == |bursts| && Startable(bursts) && i < |bursts| && i < w.next && j < |bursts|
    requires bursts[i] in bursts && bursts[j] in bursts && BurstInv(bursts, w, j)
    requires FirstSent(bursts[i], w.sent[i]) && w.now == SendTime(bursts[i], |w.sent[i]|)
    requires More(bursts[i], |w.sent[i]|)
    ensures BurstInv(bursts, Fired(bursts, w, i), j)
  {
    if i == j {
      SendOne(bursts[i], w.sent[i], w.now);
      NextSendTime(bursts[i], |w.sent[i]|);
    }
  }

  lemma FireSendOut(bursts: seq<Burst>, w: World, i: nat)
    requires |w.sent| == |bursts| && Startable(bursts) && Inv(bursts, w) && (w.now, SendOut(i)) in w.pending
    ensures i < |bursts| && bursts[i] in bursts
    ensures Step(bursts, w, Fire(SendOut(i))) == Next(Fired(bursts, w, i))
    ensures Inv(bursts, Fired(bursts, w, i))
  {
    assert w.pending[(w.now, SendOut(i))] == Expected(bursts, w, (w.now, SendOut(i)));
    assert BurstInv(bursts, w, i);
    forall j: nat | j < |bursts|
      ensures BurstInv(bursts, Fired(bursts, w, i), j)
    {
      FiredBursts(bursts, w, i, j);
    }
    forall e: (nat, BurstEvent)
      ensures Fired(bursts, w, i).pending[e] == Expected(bursts, Fired(bursts, w, i), e)
    {
      FiredPending(bursts, w, i, e);
    }
  }

  /** The events after a start, for the burst started, for the next start, and for all others. */
  lemma StartedPendingParts(bursts: seq<Burst>, w: World, e: (nat, BurstEvent))
    requires |w.sent| == |bursts| && w.next < |bursts| && bursts[w.next].rate > 0.0
    ensures
      var p := StartedNext(bursts, w).pending[e];
      && (e.1 == SendOut(w.next) ==> p == w.pending[e] + NextPacket(bursts[w.next], w.next, w.now)[e])
      && (e.1 == StartNext ==> p == (w.pending - multiset{(w.now, StartNext)})[e] + NextStart(bursts, w.next)[e])
      && (e.1 != StartNext && e.1 != SendOut(w.next) ==> p == w.pending[e])
  {
  }

  lemma StartedPacket(bursts: seq<Burst>, w: World, t: nat)
    requires |w.sent| == |bursts| && Startable(bursts) && w.next < |bursts| && bursts[w.next] in bursts
    requires w.now == bursts[w.next].start && w.sent[w.next] == []
    requires w.pending[(t, SendOut(w.next))] == 0
    ensures StartedNext(bursts, w).pending[(t, SendOut(w.next))] ==
            Expected(bursts, StartedNext(bursts, w), (t, SendOut(w.next)))
  {
    NextSendTime(bursts[w.next], 0);
    NextPacketIs(bursts[w.next], w.next, [], w.now);
    StartedPendingParts(bursts, w, (t, SendOut(w.next)));
    assert |StartedNext(bursts, w).sent[w.next]| == 1;
  }

  lemma StartedStart(bursts: seq<Burst>, w: World, t: nat)
    requires |w.sent| == |bursts| && Startable(bursts) && w.next < |bursts| && bursts[w.next] in bursts
    requires w.next + 1 < |bursts| ==> bursts[w.next + 1] in bursts
    requires w.pending[(t, StartNext)] == if t == w.now then 1 else 0
    ensures StartedNext(bursts, w).pending[(t, StartNext)] ==
            if w.next + 1 < |bursts| && t == bursts[w.next + 1].start then 1 else 0
  {
    StartedPendingParts(bursts, w, (t, StartNext));
    assert (w.pending - multiset{(w.now, StartNext)})[(t, StartNext)] == 0;
  }

  lemma StartedPending(bursts: seq<Burst>, w: World, e: (nat, BurstEvent))
    requires |w.sent| == |bursts| && Startable(bursts) && w.next < |bursts| && bursts[w.next] in bursts
    requires w.next + 1 < |bursts| ==> bursts[w.next + 1] in bursts
    requires w.now == bursts[w.next].start && w.sent[w.next] == [] && w.pending[e] == Expected(bursts, w, e)
    ensures StartedNext(bursts, w).pending[e] == Expected(bursts, StartedNext(bursts, w), e)
  {
    match e.1
    case StartNext =>
      StartedStart(bursts, w, e.0);
    case SendOut(i) =>
      if i == w.next {
        StartedPacket(bursts, w, e.0);
      } else {
        StartedPendingParts(bursts, w, e);
        assert i < |bursts| ==> StartedNext(bursts, w).sent[i] == w.sent[i];
      }
  }

  lemma StartedBursts(bursts: seq<Burst>, w: World, j: nat)
    requires |w.sent| == |bursts| && Startable(bursts) && w.next < |bursts| && j < |bursts|
    requires bursts[w.next] in bursts && bursts[j] in bursts
    requires w.next + 1 < |bursts| ==> bursts[w.next + 1] in bursts
    requires w.now == bursts[w.next].start && w.sent[w.next] == [] && BurstInv(bursts, w, j)
    ensures BurstInv(bursts, StartedNext(bursts, w), j)
  {
    if j == w.next {
      NextSendTime(bursts[j], 0);
      SendOne(bursts[j], [], w.now);
    }
  }

  lemma FireStartNext(bursts: seq<Burst>, w: World)
    requires |w.sent| == |bursts| && Startable(bursts) && Inv(bursts, w) && (w.now, StartNext) in w.pending
    ensures w.next < |bursts| && bursts[w.next] in bursts
    ensures w.next + 1 < |bursts| ==> bursts[w.next + 1] in bursts
    ensures Step(bursts, w, Fire(StartNext)) == Next(StartedNext(bursts, w))
    ensures Inv(bursts, StartedNext(bursts, w))
  {
    assert w.pending[(w.now, StartNext)] == Expected(bursts, w, (w.now, StartNext));
    assert BurstInv(bursts, w, w.next);
    StartNextIs(bursts, w);
    forall j: nat | j < |bursts|
      ensures BurstInv(bursts, StartedNext(bursts, w), j)
    {
      StartedBursts(bursts, w, j);
    }
    forall e: (nat, BurstEvent)
      ensures StartedNext(bursts, w).pending[e] == Expected(bursts, StartedNext(bursts, w), e)
    {
      StartedPending(bursts, w, e);
    }
  }

  lemma StartNextIs(bursts: seq<Burst>, w: World)
    requires |w.sent| == |bursts| && Startable(bursts) && w.next < |bursts| && w.now == bursts[w.next].start
    ensures bursts[w.next] in bursts && (w.next + 1 < |bursts| ==> bursts[w.next + 1] in bursts)
    ensures Step(bursts, w, Fire(StartNext)) == Next(StartedNext(bursts, w))
  {
  }

  lemma Wait(bursts: seq<Burst>, w: World, dt: nat)
    requires |w.sent| == |bursts| && Startable(bursts) && Inv(bursts, w) && Enabled(w, AdvanceClock(dt))
    ensures Inv(bursts, Step(bursts, w, AdvanceClock(dt)).value)
  {
    var w' := Step(bursts, w, AdvanceClock(dt)).value;
    forall j: nat | j < |bursts|
      ensures BurstInv(bursts, w', j)
    {
      assert BurstInv(bursts, w, j) && bursts[j] in bursts;
      var c := |w.sent[j]|;
      if j < w.next && More(bursts[j], c) {
        SendTimesGrow(bursts[j], 0, c);
        var e := (SendTime(bursts[j], c) as nat, SendOut(j));
        assert w.pending[e] == Expected(bursts, w, e);
      }
    }
    if w.next < |bursts| {
      var e := (bursts[w.next].start as nat, StartNext);
      assert w.pending[e] == Expected(bursts, w, e);
    }
    forall e: (nat, BurstEvent)
      ensures w'.pending[e] == Expected(bursts, w', e)
    {
      assert w.pending[e] == Expected(bursts, w, e);
    }
  }

  lemma StepInv(bursts: seq<Burst>, w: World, a: Action)
    requires |w.sent| == |bursts| && Startable(bursts) && Inv(bursts, w) && Enabled(w, a)
    ensures Step(bursts, w, a).Next? && Inv(bursts, Step(bursts, w, a).value)
  {
    match a
    case Fire(StartNext) => FireStartNext(bursts, w);
    case Fire(SendOut(i)) => FireSendOut(bursts, w, i);
    case AdvanceClock(dt) => Wait(bursts, w, dt);
  }

  lemma {:induction false} RunInv(bursts: seq<Burst>, w: World, actions: seq<Action>)
    requires |w.sent| == |bursts| && Startable(bursts) && Inv(bursts, w) && Possible(bursts, w, actions)
    ensures Run(bursts, w, actions).Next? && Inv(bursts, Run(bursts, w, actions).value)
    decreases |actions|
  {
    if actions != [] {
      StepInv(bursts, w, actions[0]);
      RunInv(bursts, Step(bursts, w, actions[0]).value, actions[1..]);
    }
  }

  /** What a burst has sent at an instant: only its own packets, each when it was due, and all that were due
      before. */
  ghost predicate SentByThen(b: Burst, sent: seq<nat>, now: nat)
    requires b.rate > 0.0 && b.duration >= 0
  {
    && FirstSent(b, sent) && |sent| <= Packets(b)
    && (forall k: nat :: k < |sent| ==> sent[k] == b.start + k * Gap(b) <= now)
    && (forall k: nat :: k < Packets(b) && SendTime(b, k) < now ==> k < |sent|)
  }

  lemma InvIsSentByThen(bursts: seq<Burst>, w: World, i: nat)
    requires |w.sent| == |bursts| && Startable(bursts) && Inv(bursts, w) && i < |bursts|
    ensures bursts[i] in bursts && SentByThen(bursts[i], w.sent[i], w.now)
  {
    var b, c := bursts[i], |w.sent[i]|;
    assert b in bursts && BurstInv(bursts, w, i);
    if c > 0 {
      PacketsAre(b, c - 1);
    }
    forall k: nat
      ensures k < c ==> SendTime(b, k) <= w.now
      ensures k < Packets(b) && SendTime(b, k) < w.now ==> k < c
    {
      if k < c {
        SendTimesGrow(b, k, c - 1);
      } else if k < Packets(b) {
        SendTimesGrow(b, c, k);
        PacketsAre(b, k);
        Ordered(c, k, Gap(b));
        if i >= w.next {
          assert bursts[w.next].start <= b.start;
        }
      }
    }
  }

  /** In every run over bursts that were registered: StartNextBurst never throws, and at every instant each
      burst has sent exactly its packets that were due by then, packet k at start + k * gap, of max(1,
      duration / gap rounded up) in all. */
  lemma EveryBurstIsSent(bursts: seq<Burst>, actions: seq<Action>)
    requires Startable(bursts)
    requires (bursts != [] ==> bursts[0].start >= 0) && Possible(bursts, InitialWorld(bursts), actions)
    ensures Run(bursts, InitialWorld(bursts), actions).Next?
    ensures
      var w := Run(bursts, InitialWorld(bursts), actions).value;
      forall i :: 0 <= i < |bursts| ==>
        && bursts[i] in bursts && SentByThen(bursts[i], w.sent[i], w.now)
        && WithinRate(bursts[i], w.sent[i], w.now)
  {
    InitialInv(bursts);
    RunInv(bursts, InitialWorld(bursts), actions);
    var w := Run(bursts, InitialWorld(bursts), actions).value;
    forall i | 0 <= i < |bursts|
      ensures bursts[i] in bursts && SentByThen(bursts[i], w.sent[i], w.now)
      ensures WithinRate(bursts[i], w.sent[i], w.now)
    {
      InvIsSentByThen(bursts, w, i);
      RateIsKept(bursts[i], w.sent[i], w.now);
    }
  }

  lemma RateOfSends(c: nat, gap: nat, rate: real, elapsed: int)
    requires c > 0 && rate > 0.0 && (c - 1) * gap <= elapsed && gap as real * rate >= 12000000.0
    ensures (c - 1) as real * 12000000.0 <= rate * elapsed as real
  {
    var n := (c - 1) as real;
    assert ((c - 1) * gap) as real == n * gap as real;
    assert n * (gap as real * rate - 12000000.0) >= 0.0;
    Scales(n * gap as real, elapsed as real, rate);
    assert n * gap as real * rate == n * (gap as real * rate);
  }

  /** The packets after the first are paid for, at 12000 bits each, by the time since the start. */
  ghost predicate WithinRate(b: Burst, sent: seq<nat>, now: nat)
  {
    sent != [] ==> (|sent| - 1) as real * 12000000.0 <= b.rate * (now - b.start) as real
  }

  /** At no instant has a burst sent packets faster than its target rate. */
  lemma RateIsKept(b: Burst, sent: seq<nat>, now: nat)
    requires b.rate > 0.0 && b.duration >= 0 && SentByThen(b, sent, now)
    ensures WithinRate(b, sent, now)
  {
    if sent != [] {
      GapKeepsRate(b);
      assert sent[|sent| - 1] == b.start + (|sent| - 1) * Gap(b) <= now;
      RateOfSends(|sent|, Gap(b), b.rate, now - b.start);
    }
  }

  // ---- the application object under an event loop ----

  /** The application is where the run is. */
  ghost predicate Follows(app: UdpBurstApplication, sim: Simulator<BurstEvent>, w: World)
    reads app, sim
  {
    && app.Ready() && Startable(app.m_outgoing_bursts)
    && sim.now == w.now && sim.pending == w.pending
    && app.m_next_internal_burst_idx == w.next && app.sent == w.sent
  }

  method SimulateSendOut(app: UdpBurstApplication, sim: Simulator<BurstEvent>, i: nat, ghost w: World)
    requires Follows(app, sim, w) && Inv(app.m_outgoing_bursts, w) && (w.now, SendOut(i)) in w.pending
    modifies app`m_outgoing_bursts_packets_sent_counter, app`sent, sim`pending
    ensures Step(app.m_outgoing_bursts, w, Fire(SendOut(i))).Next?
    ensures Follows(app, sim, Step(app.m_outgoing_bursts, w, Fire(SendOut(i))).value)
  {
    FireSendOut(app.m_outgoing_bursts, w, i);
    sim.Take(SendOut(i));
    app.BurstSendOut(sim, i);
  }

  method SimulateStartNext(app: UdpBurstApplication, sim: Simulator<BurstEvent>, ghost w: World)
    requires Follows(app, sim, w) && Inv(app.m_outgoing_bursts, w) && (w.now, StartNext) in w.pending
    modifies app`m_outgoing_bursts_packets_sent_counter, app`m_next_internal_burst_idx, app`sent, sim`pending
    ensures Step(app.m_outgoing_bursts, w, Fire(StartNext)).Next?
    ensures Follows(app, sim, Step(app.m_outgoing_bursts, w, Fire(StartNext)).value)
  {
    assert w.pending[(w.now, StartNext)] == Expected(app.m_outgoing_bursts, w, (w.now, StartNext));
    StartNextIs(app.m_outgoing_bursts, w);
    sim.Take(StartNext);
    var ok := app.StartNextBurst(sim);
  }

  method SimulateStep(app: UdpBurstApplication, sim: Simulator<BurstEvent>, a: Action, ghost w: World)
    requires Follows(app, sim, w) && Inv(app.m_outgoing_bursts, w) && Enabled(w, a)
    modifies app`m_outgoing_bursts_packets_sent_counter, app`m_next_internal_burst_idx, app`sent, sim
    ensures Step(app.m_outgoing_bursts, w, a).Next?
    ensures Follows(app, sim, Step(app.m_outgoing_bursts, w, a).value)
  {
    match a {
      case AdvanceClock(dt) => sim.Advance(dt);
      case Fire(SendOut(i)) => SimulateSendOut(app, sim, i, w);
      case Fire(StartNext) => SimulateStartNext(app, sim, w);
    }
  }

  method SimulateScript(app: UdpBurstApplication, sim: Simulator<BurstEvent>, script: seq<Action>, ghost w: World)
    requires Follows(app, sim, w) && Inv(app.m_outgoing_bursts, w) && Possible(app.m_outgoing_bursts, w, script)
    modifies app`m_outgoing_bursts_packets_sent_counter, app`m_next_internal_burst_idx, app`sent, sim
    ensures Run(app.m_outgoing_bursts, w, script).Next?
    ensures Follows(app, sim, Run(app.m_outgoing_bursts, w, script).value)
    decreases |script|
  {
    if script != [] {
      StepInv(app.m_outgoing_bursts, w, script[0]);
      SimulateStep(app, sim, script[0], w);
      SimulateScript(app, sim, script[1..], Step(app.m_outgoing_bursts, w, script[0]).value);
    }
  }

  /** The event loop around one application that has been set up and not started: at its end every burst has
      sent exactly its packets that were due by then, and its counter says how many. */
  method SimulateBursts(app: UdpBurstApplication, script: seq<Action>) returns (sim: Simulator<BurstEvent>)
    requires app.Unstarted() && Startable(app.m_outgoing_bursts)
    requires app.m_outgoing_bursts != [] ==> app.m_outgoing_bursts[0].start >= 0
    requires Possible(app.m_outgoing_bursts, InitialWorld(app.m_outgoing_bursts), script)
    modifies app`m_outgoing_bursts_packets_sent_counter, app`m_next_internal_burst_idx, app`sent
    ensures app.Ready()
    ensures forall i :: 0 <= i < |app.m_outgoing_bursts| ==>
              && app.m_outgoing_bursts[i] in app.m_outgoing_bursts
              && app.m_outgoing_bursts_packets_sent_counter[i] == |app.sent[i]|
              && SentByThen(app.m_outgoing_bursts[i], app.sent[i], sim.now)
              && WithinRate(app.m_outgoing_bursts[i], app.sent[i], sim.now)
  {
    sim := new Simulator<BurstEvent>();
    InitialInv(app.m_outgoing_bursts);
    app.StartApplication(sim);
    EveryBurstIsSent(app.m_outgoing_bursts, script);
    SimulateScript(app, sim, script, InitialWorld(app.m_outgoing_bursts));
  }
}
