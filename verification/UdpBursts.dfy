/** The UDP burst schedule, its reader, the registration of bursts per endpoint, and the result order. */
module UdpBursts {
  import opened Common
  import opened SimulatorCore

  datatype Burst = Burst(id: int, source: int, target: int, rate: real, start: int, duration: int)

  // ---- the reader ----

  ghost predicate ValidBurst(b: Burst, line: nat, endpoints: set<int>, endTime: int)
  {
    && b.id == line
    && b.source >= 0 && b.target >= 0 && b.rate > 0.0 && b.start >= 0 && b.duration >= 0
    && b.source != b.target && b.source in endpoints && b.target in endpoints
    && b.start < endTime
  }

  /** What the reader accepts: ids count the lines, starts are weakly ascending and before the end. */
  ghost predicate ValidSchedule(bursts: seq<Burst>, endpoints: set<int>, endTime: int)
  {
    && (forall i :: 0 <= i < |bursts| ==> ValidBurst(bursts[i], i, endpoints, endTime))
    && StartsAscend(bursts)
  }

  ghost predicate StartsAscend(bursts: seq<Burst>)
  {
    forall i, j :: 0 <= i < j < |bursts| ==> bursts[i].start <= bursts[j].start
  }

  method ReadSchedule(lines: seq<Burst>, endpoints: set<int>, endTime: int) returns (r: Outcome<seq<Burst>>)
    ensures r.Next? <==> ValidSchedule(lines, endpoints, endTime)
    ensures r.Next? <==>
              && (forall i :: 0 <= i < |lines| ==>
                    && lines[i].id == i && lines[i].rate > 0.0 && lines[i].duration >= 0
                    && lines[i].source >= 0 && lines[i].target >= 0 && lines[i].source != lines[i].target
                    && lines[i].source in endpoints && lines[i].target in endpoints
                    && 0 <= lines[i].start < endTime)
              && (forall i, j :: 0 <= i < j < |lines| ==> lines[i].start <= lines[j].start)
    ensures r.Next? ==> r.value == lines
  {
    var schedule := [];
    var line_counter := 0;
    var prev_start_time_ns := 0;
    while line_counter < |lines|
      invariant 0 <= line_counter <= |lines| && schedule == lines[..line_counter]
      invariant forall i :: 0 <= i < line_counter ==>
              ValidBurst(lines[i], i, endpoints, endTime) && lines[i].start <= prev_start_time_ns
      invariant StartsAscend(lines[..line_counter])
      invariant prev_start_time_ns == if line_counter == 0 then 0 else lines[line_counter - 1].start
    {
      var b := lines[line_counter];
      if b.id < 0 || b.id != line_counter { return Abort; }
      if b.source < 0 || b.target < 0 || b.rate < 0.0 || b.start < 0 || b.duration < 0 { return Abort; }
      if b.rate == 0.0 { return Abort; }
      if prev_start_time_ns > b.start { return Abort; }
      prev_start_time_ns := b.start;
      if b.source == b.target { return Abort; }
      if b.source !in endpoints { return Abort; }
      if b.target !in endpoints { return Abort; }
      if b.start >= endTime { return Abort; }
      schedule := schedule + [b];
      line_counter := line_counter + 1;
    }
    assert lines[..|lines|] == lines;
    r := Next(schedule);
  }

  // ---- who is responsible for which burst ----

  datatype Role = Outgoing | Incoming

  function NodeOf(b: Burst, role: Role): int
  {
    if role.Outgoing? then b.source else b.target
  }

  /** The bursts whose source (or target) is one of the nodes. */
  ghost function At(role: Role, nodes: set<int>): Burst -> bool
  {
    b => NodeOf(b, role) in nodes
  }

  /** A distributed run gives every node to one system; otherwise this system has all of them. */
  datatype Distribution = Distribution(enabled: bool, systemId: int, assignment: int -> int) {
    predicate Owns(node: int) {
      !enabled || assignment(node) == systemId
    }
  }

  ghost function Owned(endpoints: seq<int>, d: Distribution): set<int>
  {
    set e | e in endpoints && d.Owns(e)
  }

  function EndpointSet(endpoints: seq<int>): set<int>
  {
    set e | e in endpoints
  }

  ghost predicate Distinct(s: seq<int>)
  {
    forall i, j :: 0 <= i < j < |s| ==> s[i] != s[j]
  }

  /** The registration order: endpoint by endpoint, and for one endpoint in schedule order. */
  ghost function Registered(schedule: seq<Burst>, role: Role, endpoints: seq<int>, d: Distribution): seq<Burst>
    decreases |endpoints|
  {
    if endpoints == [] then []
    else
      var e := endpoints[|endpoints| - 1];
      Registered(schedule, role, endpoints[..|endpoints| - 1], d) +
      (if d.Owns(e) then Select(schedule, At(role, {e})) else [])
  }

  /** Over disjoint sets of nodes the responsibilities add up. */
  lemma {:induction false} SelectAdds(schedule: seq<Burst>, role: Role, a: set<int>, b: set<int>)
    requires a !! b
    ensures multiset(Select(schedule, At(role, a + b))) ==
            multiset(Select(schedule, At(role, a))) + multiset(Select(schedule, At(role, b)))
    decreases |schedule|
  {
    if schedule != [] {
      SelectAdds(schedule[..|schedule| - 1], role, a, b);
    }
  }

  lemma {:induction false} SelectNone(schedule: seq<Burst>, role: Role)
    ensures Select(schedule, At(role, {})) == []
    decreases |schedule|
  {
    if schedule != [] {
      SelectNone(schedule[..|schedule| - 1], role);
    }
  }

  lemma OwnedGrows(rest: seq<int>, e: int, d: Distribution)
    requires e !in rest
    ensures Owned(rest + [e], d) == Owned(rest, d) + (if d.Owns(e) then {e} else {})
    ensures e !in Owned(rest, d)
  {
  }

  /** What one more endpoint adds to the responsibilities. */
  lemma ResponsibilityGrows(schedule: seq<Burst>, role: Role, rest: seq<int>, e: int, d: Distribution)
    requires e !in rest
    ensures multiset(Select(schedule, At(role, Owned(rest + [e], d)))) ==
            multiset(Select(schedule, At(role, Owned(rest, d)))) +
            multiset(if d.Owns(e) then Select(schedule, At(role, {e})) else [])
  {
    OwnedGrows(rest, e, d);
    if d.Owns(e) {
      SelectAdds(schedule, role, Owned(rest, d), {e});
    }
  }

  /** Registration visits each responsibility of this system exactly once, whatever the endpoints' order. */
  lemma {:induction false} RegisteredIsOwned(schedule: seq<Burst>, role: Role, endpoints: seq<int>, d: Distribution)
    requires Distinct(endpoints)
    ensures multiset(Registered(schedule, role, endpoints, d)) ==
            multiset(Select(schedule, At(role, Owned(endpoints, d))))
    decreases |endpoints|
  {
    if endpoints == [] {
      SelectNone(schedule, role);
      assert Owned(endpoints, d) == {};
    } else {
      var rest, e := endpoints[..|endpoints| - 1], endpoints[|endpoints| - 1];
      assert endpoints == rest + [e];
      RegisteredIsOwned(schedule, role, rest, d);
      ResponsibilityGrows(schedule, role, rest, e, d);
    }
  }

  // ---- sorting by id ----

  ghost predicate IdsAscend(bursts: seq<Burst>)
  {
    forall i, j :: 0 <= i < j < |bursts| ==> bursts[i].id < bursts[j].id
  }

  ghost predicate IdsWeaklyAscend(bursts: seq<Burst>)
  {
    forall i, j :: 0 <= i < j < |bursts| ==> bursts[i].id <= bursts[j].id
  }

  lemma {:induction false} SelectIsSubset(schedule: seq<Burst>, p: Burst -> bool)
    ensures forall b :: b in Select(schedule, p) <==> b in schedule && p(b)
    decreases |schedule|
  {
    if schedule != [] {
      var rest, last := schedule[..|schedule| - 1], schedule[|schedule| - 1];
      SelectIsSubset(rest, p);
      assert schedule == rest + [last];
    }
  }

  lemma AppendAscends(bursts: seq<Burst>, last: Burst)
    requires IdsAscend(bursts) && forall b :: b in bursts ==> b.id < last.id
    ensures IdsAscend(bursts + [last])
  {
  }

  /** Selecting keeps the order of the ids. */
  lemma {:induction false} SelectKeepsOrder(schedule: seq<Burst>, p: Burst -> bool)
    requires IdsAscend(schedule)
    ensures IdsAscend(Select(schedule, p))
    decreases |schedule|
  {
    if schedule != [] {
      var rest, last := schedule[..|schedule| - 1], schedule[|schedule| - 1];
      SelectKeepsOrder(rest, p);
      SelectIsSubset(rest, p);
      AppendAscends(Select(rest, p), last);
    }
  }

  lemma SameHead(a: seq<Burst>, b: seq<Burst>)
    requires a != [] && b != [] && IdsAscend(a) && IdsWeaklyAscend(b) && multiset(a) == multiset(b)
    ensures a[0] == b[0]
  {
    assert a[0] in multiset(b) && b[0] in multiset(a);
    var i :| 0 <= i < |b| && b[i] == a[0];
    var j :| 0 <= j < |a| && a[j] == b[0];
  }

  lemma MultisetTail(a: seq<Burst>)
    requires a != []
    ensures multiset(a[1..]) == multiset(a) - multiset{a[0]}
  {
    assert a == [a[0]] + a[1..];
  }

  /** There is only one way to sort bursts with distinct ids, so any sort gives this order. */
  lemma {:induction false} SortedIsUnique(a: seq<Burst>, b: seq<Burst>)
    requires IdsAscend(a) && IdsWeaklyAscend(b) && multiset(a) == multiset(b)
    ensures a == b
    decreases |a|
  {
    assert |multiset(a)| == |a| && |multiset(b)| == |b|;
    if a != [] {
      SameHead(a, b);
      MultisetTail(a);
      MultisetTail(b);
      SortedIsUnique(a[1..], b[1..]);
      assert a == [a[0]] + a[1..] && b == [b[0]] + b[1..];
    }
  }

  ghost function Bursts<A>(pairs: seq<(Burst, A)>): (s: seq<Burst>)
    ensures |s| == |pairs|
  {
    seq(|pairs|, i requires 0 <= i < |pairs| => pairs[i].0)
  }

  lemma BurstsConcat<A>(a: seq<(Burst, A)>, b: seq<(Burst, A)>)
    ensures Bursts(a + b) == Bursts(a) + Bursts(b)
  {
  }

  lemma PrefixGrows<A>(pairs: seq<(Burst, A)>, i: nat)
    requires i < |pairs|
    ensures multiset(pairs[..i + 1]) == multiset(pairs[..i]) + multiset{pairs[i]}
    ensures multiset(Bursts(pairs[..i + 1])) == multiset(Bursts(pairs[..i])) + multiset{pairs[i].0}
  {
    assert pairs[..i + 1] == pairs[..i] + [pairs[i]];
    BurstsConcat(pairs[..i], [pairs[i]]);
    assert Bursts([pairs[i]]) == [pairs[i].0];
  }

  /** The sort of WriteResults: by id, keeping every pair together. */
  method SortById<A>(pairs: seq<(Burst, A)>) returns (sorted: seq<(Burst, A)>)
    ensures IdsWeaklyAscend(Bursts(sorted))
    ensures multiset(sorted) == multiset(pairs)
    ensures multiset(Bursts(sorted)) == multiset(Bursts(pairs))
  {
    sorted := [];
    for i := 0 to |pairs|
      invariant IdsWeaklyAscend(Bursts(sorted))
      invariant multiset(sorted) == multiset(pairs[..i])
      invariant multiset(Bursts(sorted)) == multiset(Bursts(pairs[..i]))
    {
      sorted := Insert(sorted, pairs[i]);
      PrefixGrows(pairs, i);
    }
    assert pairs[..|pairs|] == pairs;
  }

  function InsertAt<T>(s: seq<T>, j: nat, x: T): (r: seq<T>)
    requires j <= |s|
  {
    s[..j] + [x] + s[j..]
  }

  lemma InsertAtAdds<T>(s: seq<T>, j: nat, x: T)
    requires j <= |s|
    ensures multiset(InsertAt(s, j, x)) == multiset(s) + multiset{x}
  {
    assert s == s[..j] + s[j..];
  }

  lemma InsertKeepsOrder(s: seq<Burst>, j: nat, b: Burst)
    requires IdsWeaklyAscend(s) && j <= |s|
    requires j > 0 ==> s[j - 1].id <= b.id
    requires j < |s| ==> b.id <= s[j].id
    ensures IdsWeaklyAscend(InsertAt(s, j, b))
  {
    var r := InsertAt(s, j, b);
    assert forall i :: 0 <= i < j ==> r[i] == s[i] && r[i].id <= b.id;
    assert forall i :: j < i < |r| ==> r[i] == s[i - 1] && b.id <= r[i].id;
  }

  method Insert<A>(s: seq<(Burst, A)>, x: (Burst, A)) returns (r: seq<(Burst, A)>)
    requires IdsWeaklyAscend(Bursts(s))
    ensures IdsWeaklyAscend(Bursts(r))
    ensures multiset(r) == multiset(s) + multiset{x}
    ensures multiset(Bursts(r)) == multiset(Bursts(s)) + multiset{x.0}
  {
    var j := |s|;
    while j > 0 && x.0.id < s[j - 1].0.id
      invariant 0 <= j <= |s|
      invariant j < |s| ==> x.0.id <= Bursts(s)[j].id
    {
      j := j - 1;
    }
    r := InsertAt(s, j, x);
    InsertAtAdds(s, j, x);
    InsertAtAdds(Bursts(s), j, x.0);
    InsertKeepsOrder(Bursts(s), j, x.0);
    BurstsOfInsert(s, j, x);
  }

  lemma BurstsOfInsert<A>(s: seq<(Burst, A)>, j: nat, x: (Burst, A))
    requires j <= |s|
    ensures Bursts(InsertAt(s, j, x)) == InsertAt(Bursts(s), j, x.0)
  {
    assert Bursts(s)[..j] == Bursts(s[..j]);
  }

  // ---- the scheduler ----

  function Last(bursts: seq<Burst>): Burst
    requires bursts != []
  {
    bursts[|bursts| - 1]
  }

  function RoundUp(x: real): int
  {
    -(-x).Floor
  }

  function ExactGap(b: Burst): (x: real)
    requires b.rate > 0.0
    ensures x > 0.0
  {
    1500.0 / (b.rate / 8000.0)
  }

  /** Nanoseconds from one packet of 1500 bytes to the next, at the target rate in megabits per second. */
  function Gap(b: Burst): (gap: nat)
    requires b.rate > 0.0
    ensures gap > 0
  {
    RoundUp(ExactGap(b))
  }

  lemma QuotientIs(x: real, rate: real)
    requires rate > 0.0 && x == 1500.0 / (rate / 8000.0)
    ensures x * rate == 12000000.0
  {
    var y := rate / 8000.0;
    assert y > 0.0 && x * y == 1500.0;
    assert rate == y * 8000.0;
    assert x * rate == x * y * 8000.0;
  }

  lemma Positive(x: real, rate: real)
    requires rate > 0.0
    ensures x >= 0.0 ==> x * rate >= 0.0
    ensures x > 0.0 ==> x * rate > 0.0
  {
  }

  lemma Scales(x: real, y: real, rate: real)
    requires rate > 0.0
    ensures x <= y ==> x * rate <= y * rate
    ensures x < y ==> x * rate < y * rate
  {
    Positive(y - x, rate);
    assert (y - x) * rate == y * rate - x * rate;
  }

  lemma RoundUpIs(x: real)
    ensures x <= RoundUp(x) as real < x + 1.0
  {
  }

  lemma Difference(g: real, x: real, d: real, rate: real)
    requires d == g - x
    ensures d * rate == g * rate - x * rate
  {
  }

  lemma PartOf(d: real, e: real, rate: real)
    requires rate > 0.0 && 0.0 <= d < 1.0 && e == 1.0 - d
    ensures d * rate >= 0.0 && e * rate > 0.0 && e * rate == rate - d * rate
  {
    Positive(d, rate);
    Positive(e, rate);
  }

  lemma Bounds(high: real, product: real, rest: real, missing: real, rate: real)
    requires rest == high - product && rest >= 0.0 && missing > 0.0 && missing == rate - rest
    ensures product <= high < product + rate
  {
  }

  lemma LeastProduct(g: real, x: real, d: real, rate: real, product: real)
    requires rate > 0.0 && x * rate == product && d == g - x && 0.0 <= d < 1.0
    ensures product <= g * rate < product + rate
  {
    var e := 1.0 - d;
    Difference(g, x, d, rate);
    PartOf(d, e, rate);
    Bounds(g * rate, product, d * rate, e * rate, rate);
  }

  /** The gap is the least whole number of nanoseconds that keeps packets of 12000 bits within the rate: a
      nanosecond less is not enough. */
  lemma GapKeepsRate(b: Burst)
    requires b.rate > 0.0
    ensures 12000000.0 <= Gap(b) as real * b.rate < 12000000.0 + b.rate
  {
    QuotientIs(ExactGap(b), b.rate);
    RoundUpIs(ExactGap(b));
    LeastProduct(Gap(b) as real, ExactGap(b), Gap(b) as real - ExactGap(b), b.rate, 12000000.0);
  }

  /** What BurstSendOut at instant now schedules: the next packet, if it would still be within the burst. */
  function NextPacket(b: Burst, i: nat, now: nat): multiset<(nat, BurstEvent)>
    requires b.rate > 0.0
  {
    if now + Gap(b) < b.start + b.duration then multiset{(now + Gap(b), SendOut(i))} else multiset{}
  }

  /** What StartNextBurst schedules after burst n: the start of the one after it. */
  function NextStart(bursts: seq<Burst>, n: nat): multiset<(nat, BurstEvent)>
  {
    if n + 1 < |bursts| && bursts[n + 1].start >= 0 then multiset{(bursts[n + 1].start as nat, StartNext)}
    else multiset{}
  }

  datatype BurstEvent = StartNext | SendOut(i: nat)

  /** The application installed on an endpoint, with the bursts it sends and receives. */
  class UdpBurstApplication {
    const node: int
    var m_outgoing_bursts: seq<Burst>
    var m_incoming_bursts: seq<Burst>
    var m_outgoing_bursts_packets_sent_counter: seq<nat>
    var m_next_internal_burst_idx: nat
    ghost var sent: seq<seq<nat>>  // for each outgoing burst, the instants at which its packets were sent

    constructor (node: int)
      ensures this.node == node && m_outgoing_bursts == [] && m_incoming_bursts == [] && Unstarted()
    {
      this.node, m_outgoing_bursts, m_incoming_bursts := node, [], [];
      m_outgoing_bursts_packets_sent_counter, m_next_internal_burst_idx, sent := [], 0, [];
    }

    /** Nothing has been sent yet. */
    ghost predicate Unstarted()
      reads this
    {
      && m_next_internal_burst_idx == 0
      && m_outgoing_bursts_packets_sent_counter == Repeat(0, |m_outgoing_bursts|)
      && sent == Repeat([], |m_outgoing_bursts|)
    }

    /** One counter and one record of sends for each outgoing burst, and every burst has a rate. */
    ghost predicate Ready()
      reads this
    {
      && |m_outgoing_bursts_packets_sent_counter| == |sent| == |m_outgoing_bursts|
      && (forall i :: 0 <= i < |m_outgoing_bursts| ==> m_outgoing_bursts_packets_sent_counter[i] == |sent[i]|)
      && (forall b :: b in m_outgoing_bursts ==> b.rate > 0.0 && b.start >= 0)
    }

    /** Refuses a burst of another node, and one that starts before the last one registered. */
    method RegisterOutgoingBurst(b: Burst) returns (ok: bool)
      modifies this`m_outgoing_bursts, this`m_outgoing_bursts_packets_sent_counter, this`sent
      ensures
        var before := old(m_outgoing_bursts);
        ok <==> b.source == node && (before == [] || Last(before).start <= b.start)
      ensures m_outgoing_bursts == if ok then old(m_outgoing_bursts) + [b] else old(m_outgoing_bursts)
      ensures old(Unstarted()) ==> Unstarted()
    {
      if b.source != node { return false; }
      if |m_outgoing_bursts| >= 1 && b.start < m_outgoing_bursts[|m_outgoing_bursts| - 1].start { return false; }
      m_outgoing_bursts := m_outgoing_bursts + [b];
      m_outgoing_bursts_packets_sent_counter := m_outgoing_bursts_packets_sent_counter + [0];
      sent := sent + [[]];
      ok := true;
    }

    method RegisterIncomingBurst(b: Burst) returns (ok: bool)
      modifies this`m_incoming_bursts
      ensures ok <==> b.target == node
      ensures m_incoming_bursts == if ok then old(m_incoming_bursts) + [b] else old(m_incoming_bursts)
    {
      if b.target != node { return false; }
      m_incoming_bursts := m_incoming_bursts + [b];
      ok := true;
    }

    /** The first start is scheduled. */
    method StartApplication(sim: Simulator<BurstEvent>)
      requires forall b :: b in m_outgoing_bursts ==> b.start >= 0
      modifies sim`pending
      ensures sim.pending == old(sim.pending) +
              (if m_outgoing_bursts == [] then multiset{}
               else multiset{(sim.now + m_outgoing_bursts[0].start, StartNext)})
    {
      if |m_outgoing_bursts| > 0 {
        assert m_outgoing_bursts[0] in m_outgoing_bursts;
        sim.Schedule(m_outgoing_bursts[0].start, StartNext);
      }
    }

    /** One packet of burst i now, and the next one if it is still within the burst. */
    method BurstSendOut(sim: Simulator<BurstEvent>, i: nat)
      requires Ready() && i < |m_outgoing_bursts|
      modifies this`m_outgoing_bursts_packets_sent_counter, this`sent, sim`pending
      ensures Ready()
      ensures sent == old(sent)[i := old(sent)[i] + [sim.now]]
      ensures sim.pending == old(sim.pending) + NextPacket(m_outgoing_bursts[i], i, sim.now)
    {
      var info := m_outgoing_bursts[i];
      m_outgoing_bursts_packets_sent_counter :=
        m_outgoing_bursts_packets_sent_counter[i := m_outgoing_bursts_packets_sent_counter[i] + 1];
      sent := sent[i := sent[i] + [sim.now]];
      var packet_gap_nanoseconds := Gap(info);
      if sim.now + packet_gap_nanoseconds < info.start + info.duration {
        sim.Schedule(packet_gap_nanoseconds, SendOut(i));
      }
    }

    /** Starts the next burst, which must be due now, and schedules the start of the one after it; throws if
        there is none, or if it is not due. */
    method StartNextBurst(sim: Simulator<BurstEvent>) returns (ok: bool)
      requires Ready() && StartsAscend(m_outgoing_bursts)
      modifies this`m_outgoing_bursts_packets_sent_counter, this`m_next_internal_burst_idx, this`sent, sim`pending
      ensures Ready()
      ensures
        var n := old(m_next_internal_burst_idx);
        && (ok <==> n < |m_outgoing_bursts| && m_outgoing_bursts[n].start == sim.now)
        && (ok ==>
              && m_next_internal_burst_idx == n + 1
              && sent == old(sent)[n := old(sent)[n] + [sim.now]]
              && sim.pending ==
                   old(sim.pending) + NextPacket(m_outgoing_bursts[n], n, sim.now) + NextStart(m_outgoing_bursts, n))
    {
      if m_next_internal_burst_idx >= |m_outgoing_bursts|
         || m_outgoing_bursts[m_next_internal_burst_idx].start != sim.now {
        return false;
      }
      BurstSendOut(sim, m_next_internal_burst_idx);
      m_next_internal_burst_idx := m_next_internal_burst_idx + 1;
      if m_next_internal_burst_idx < |m_outgoing_bursts| {
        assert m_outgoing_bursts[m_next_internal_burst_idx] in m_outgoing_bursts;
        sim.Schedule(m_outgoing_bursts[m_next_internal_burst_idx].start - sim.now, StartNext);
      }
      ok := true;
    }
  }

  class UdpBurstScheduler {
    const m_schedule: seq<Burst>
    const m_distribution: Distribution
    var m_apps: seq<UdpBurstApplication>
    var m_responsible_for_outgoing_bursts: seq<(Burst, UdpBurstApplication)>
    var m_responsible_for_incoming_bursts: seq<(Burst, UdpBurstApplication)>

    /** Every application has exactly the bursts of its node, in schedule order. */
    ghost predicate AppsAreRegistered()
      reads this`m_apps, m_apps
    {
      forall a :: a in m_apps ==>
        a.Unstarted() && a.m_outgoing_bursts == Select(m_schedule, At(Outgoing, {a.node})) &&
        a.m_incoming_bursts == Select(m_schedule, At(Incoming, {a.node}))
    }

    /** Every burst is paired with the application of its own source (or target). */
    ghost predicate PairsMatch(pairs: seq<(Burst, UdpBurstApplication)>, role: Role)
      reads this`m_apps
    {
      forall p :: p in pairs ==> p.1 in m_apps && p.1.node == NodeOf(p.0, role)
    }

    ghost predicate Paired()
      reads this
    {
      && PairsMatch(m_responsible_for_outgoing_bursts, Outgoing)
      && PairsMatch(m_responsible_for_incoming_bursts, Incoming)
    }

    /** Installs the application of every endpoint of this system and registers its bursts; no
        registration is refused. */
    constructor (schedule: seq<Burst>, endpoints: seq<int>, d: Distribution)
      requires StartsAscend(schedule)
      ensures m_schedule == schedule && m_distribution == d
      ensures fresh(m_apps) && AppsAreRegistered() && Paired()
      ensures Nodes(m_apps) == OwnedInOrder(endpoints, d)
      ensures Bursts(m_responsible_for_outgoing_bursts) == Registered(schedule, Outgoing, endpoints, d)
      ensures Bursts(m_responsible_for_incoming_bursts) == Registered(schedule, Incoming, endpoints, d)
    {
      m_schedule, m_distribution, m_apps := schedule, d, [];
      m_responsible_for_outgoing_bursts, m_responsible_for_incoming_bursts := [], [];
      new;
      for i := 0 to |endpoints|
        invariant fresh(m_apps) && AppsAreRegistered() && Paired()
        invariant Nodes(m_apps) == OwnedInOrder(endpoints[..i], d)
        invariant Bursts(m_responsible_for_outgoing_bursts) == Registered(schedule, Outgoing, endpoints[..i], d)
        invariant Bursts(m_responsible_for_incoming_bursts) == Registered(schedule, Incoming, endpoints[..i], d)
      {
        NextEndpoint(schedule, endpoints, d, i);
        if !d.enabled || d.assignment(endpoints[i]) == d.systemId {
          var app := Setup(endpoints[i]);
        }
      }
      assert endpoints[..|endpoints|] == endpoints;
    }

    /** One endpoint: its application, with all its bursts registered. */
    method Setup(endpoint: int) returns (app: UdpBurstApplication)
      requires StartsAscend(m_schedule) && AppsAreRegistered() && Paired()
      modifies this
      ensures fresh(app) && m_apps == old(m_apps) + [app] && app.node == endpoint
      ensures Nodes(m_apps) == old(Nodes(m_apps)) + [endpoint]
      ensures AppsAreRegistered() && Paired()
      ensures Bursts(m_responsible_for_outgoing_bursts) ==
              old(Bursts(m_responsible_for_outgoing_bursts)) + Select(m_schedule, At(Outgoing, {endpoint}))
      ensures Bursts(m_responsible_for_incoming_bursts) ==
              old(Bursts(m_responsible_for_incoming_bursts)) + Select(m_schedule, At(Incoming, {endpoint}))
    {
      app := new UdpBurstApplication(endpoint);
      m_apps := m_apps + [app];
      RegisterSchedule(app);
      MatchingGrows(old(m_responsible_for_outgoing_bursts), m_schedule, Outgoing, app);
      MatchingGrows(old(m_responsible_for_incoming_bursts), m_schedule, Incoming, app);
    }

    method RegisterSchedule(app: UdpBurstApplication)
      requires StartsAscend(m_schedule) && app.m_outgoing_bursts == [] && app.m_incoming_bursts == []
      requires app.Unstarted()
      modifies this`m_responsible_for_outgoing_bursts, this`m_responsible_for_incoming_bursts
      modifies app`m_outgoing_bursts, app`m_incoming_bursts, app`m_outgoing_bursts_packets_sent_counter, app`sent
      ensures app.Unstarted() && app.m_outgoing_bursts == Select(m_schedule, At(Outgoing, {app.node}))
      ensures app.m_incoming_bursts == Select(m_schedule, At(Incoming, {app.node}))
      ensures m_responsible_for_outgoing_bursts ==
              old(m_responsible_for_outgoing_bursts) + WithApp(app.m_outgoing_bursts, app)
      ensures m_responsible_for_incoming_bursts ==
              old(m_responsible_for_incoming_bursts) + WithApp(app.m_incoming_bursts, app)
    {
      for i := 0 to |m_schedule|
        invariant app.Unstarted() && app.m_outgoing_bursts == Select(m_schedule[..i], At(Outgoing, {app.node}))
        invariant app.m_incoming_bursts == Select(m_schedule[..i], At(Incoming, {app.node}))
        invariant m_responsible_for_outgoing_bursts ==
                old(m_responsible_for_outgoing_bursts) + WithApp(app.m_outgoing_bursts, app)
        invariant m_responsible_for_incoming_bursts ==
                old(m_responsible_for_incoming_bursts) + WithApp(app.m_incoming_bursts, app)
      {
        NextEntry(m_schedule, Outgoing, app.node, i);
        NextEntry(m_schedule, Incoming, app.node, i);
        PairsGrow(old(m_responsible_for_outgoing_bursts), app.m_outgoing_bursts, m_schedule[i],
            m_schedule[i].source == app.node, app);
        PairsGrow(old(m_responsible_for_incoming_bursts), app.m_incoming_bursts, m_schedule[i],
            m_schedule[i].target == app.node, app);
        RegisterBurst(m_schedule[i], app);
      }
      assert m_schedule[..|m_schedule|] == m_schedule;
    }

    /** One schedule entry at one application. The registrations are not refused. */
    method RegisterBurst(entry: Burst, app: UdpBurstApplication)
      requires app.m_outgoing_bursts != [] ==> Last(app.m_outgoing_bursts).start <= entry.start
      modifies this`m_responsible_for_outgoing_bursts, this`m_responsible_for_incoming_bursts
      modifies app`m_outgoing_bursts, app`m_incoming_bursts, app`m_outgoing_bursts_packets_sent_counter, app`sent
      ensures old(app.Unstarted()) ==> app.Unstarted()
      ensures app.m_outgoing_bursts == old(app.m_outgoing_bursts) + (if entry.source == app.node then [entry] else [])
      ensures app.m_incoming_bursts == old(app.m_incoming_bursts) + (if entry.target == app.node then [entry] else [])
      ensures m_responsible_for_outgoing_bursts ==
              old(m_responsible_for_outgoing_bursts) + (if entry.source == app.node then [(entry, app)] else [])
      ensures m_responsible_for_incoming_bursts ==
              old(m_responsible_for_incoming_bursts) + (if entry.target == app.node then [(entry, app)] else [])
    {
      if entry.source == app.node {
        var registered := app.RegisterOutgoingBurst(entry);
        assert registered;
        m_responsible_for_outgoing_bursts := m_responsible_for_outgoing_bursts + [(entry, app)];
      }
      if entry.target == app.node {
        var registered := app.RegisterIncomingBurst(entry);
        assert registered;
        m_responsible_for_incoming_bursts := m_responsible_for_incoming_bursts + [(entry, app)];
      }
    }

    /** The start of WriteResults: afterwards both lists are the schedule-order subsequences of the bursts
        whose source (or target) this system owns. */
    method SortResponsibilities(ghost endpoints: seq<int>)
      requires Distinct(endpoints) && IdsAscend(m_schedule) && Paired()
      requires Bursts(m_responsible_for_outgoing_bursts) == Registered(m_schedule, Outgoing, endpoints, m_distribution)
      requires Bursts(m_responsible_for_incoming_bursts) == Registered(m_schedule, Incoming, endpoints, m_distribution)
      modifies this`m_responsible_for_outgoing_bursts, this`m_responsible_for_incoming_bursts
      ensures Paired()
      ensures Bursts(m_responsible_for_outgoing_bursts) ==
              Select(m_schedule, At(Outgoing, Owned(endpoints, m_distribution)))
      ensures Bursts(m_responsible_for_incoming_bursts) ==
              Select(m_schedule, At(Incoming, Owned(endpoints, m_distribution)))
    {
      var outgoing := SortOwned(m_responsible_for_outgoing_bursts, Outgoing, endpoints, m_schedule, m_distribution);
      var incoming := SortOwned(m_responsible_for_incoming_bursts, Incoming, endpoints, m_schedule, m_distribution);
      m_responsible_for_outgoing_bursts, m_responsible_for_incoming_bursts := outgoing, incoming;
    }
  }

  /** Sorting a list of registered bursts gives them in schedule order. */
  method SortOwned<A>(pairs: seq<(Burst, A)>, ghost role: Role, ghost endpoints: seq<int>, ghost schedule: seq<Burst>,
      ghost d: Distribution) returns (sorted: seq<(Burst, A)>)
    requires Distinct(endpoints) && IdsAscend(schedule) && Bursts(pairs) == Registered(schedule, role, endpoints, d)
    ensures Bursts(sorted) == Select(schedule, At(role, Owned(endpoints, d)))
    ensures forall p :: p in sorted ==> p in pairs
  {
    sorted := SortById(pairs);
    SortedIsOwned(schedule, role, endpoints, d, Bursts(sorted));
    assert forall p :: p in sorted ==> p in multiset(pairs);
  }

  /** What endpoint i adds to the registration. */
  lemma NextEndpoint(schedule: seq<Burst>, endpoints: seq<int>, d: Distribution, i: nat)
    requires i < |endpoints|
    ensures forall role :: Registered(schedule, role, endpoints[..i + 1], d) ==
              Registered(schedule, role, endpoints[..i], d) +
              (if d.Owns(endpoints[i]) then Select(schedule, At(role, {endpoints[i]})) else [])
    ensures OwnedInOrder(endpoints[..i + 1], d) ==
            OwnedInOrder(endpoints[..i], d) + (if d.Owns(endpoints[i]) then [endpoints[i]] else [])
  {
    assert endpoints[..i + 1][..i] == endpoints[..i];
  }

  /** What entry i adds to the bursts of a node; it does not start before them. */
  lemma NextEntry(schedule: seq<Burst>, role: Role, node: int, i: nat)
    requires i < |schedule| && StartsAscend(schedule)
    ensures Select(schedule[..i + 1], At(role, {node})) ==
            Select(schedule[..i], At(role, {node})) + (if NodeOf(schedule[i], role) == node then [schedule[i]] else [])
    ensures var before := Select(schedule[..i], At(role, {node}));
            before != [] ==> Last(before).start <= schedule[i].start
  {
    assert schedule[..i + 1][..i] == schedule[..i];
    SelectIsSubset(schedule[..i], At(role, {node}));
    var before := Select(schedule[..i], At(role, {node}));
    if before != [] {
      assert Last(before) in schedule[..i];
    }
  }

  ghost function WithApp(bursts: seq<Burst>, app: UdpBurstApplication): seq<(Burst, UdpBurstApplication)>
  {
    seq(|bursts|, i requires 0 <= i < |bursts| => (bursts[i], app))
  }

  lemma PairsGrow(before: seq<(Burst, UdpBurstApplication)>, bursts: seq<Burst>, b: Burst, mine: bool,
      app: UdpBurstApplication)
    ensures before + WithApp(bursts + (if mine then [b] else []), app) ==
            before + WithApp(bursts, app) + (if mine then [(b, app)] else [])
  {
    assert WithApp(bursts + [b], app) == WithApp(bursts, app) + [(b, app)];
  }

  lemma MatchingGrows(pairs: seq<(Burst, UdpBurstApplication)>, schedule: seq<Burst>, role: Role,
      app: UdpBurstApplication)
    ensures var mine := Select(schedule, At(role, {app.node}));
            Bursts(pairs + WithApp(mine, app)) == Bursts(pairs) + mine
    ensures forall p :: p in WithApp(Select(schedule, At(role, {app.node})), app) ==>
            p.1 == app && NodeOf(p.0, role) == app.node
  {
    SelectIsSubset(schedule, At(role, {app.node}));
    forall p | p in WithApp(Select(schedule, At(role, {app.node})), app)
      ensures p.1 == app && NodeOf(p.0, role) == app.node
    {
      assert p.0 in Select(schedule, At(role, {app.node}));
    }
  }

  ghost function Nodes(apps: seq<UdpBurstApplication>): seq<int>
  {
    seq(|apps|, i requires 0 <= i < |apps| => apps[i].node)
  }

  ghost function OwnedInOrder(endpoints: seq<int>, d: Distribution): seq<int>
  {
    Select(endpoints, e => d.Owns(e))
  }

  lemma SortedIsOwned(schedule: seq<Burst>, role: Role, endpoints: seq<int>, d: Distribution, sorted: seq<Burst>)
    requires Distinct(endpoints) && IdsAscend(schedule)
    requires IdsWeaklyAscend(sorted) && multiset(sorted) == multiset(Registered(schedule, role, endpoints, d))
    ensures sorted == Select(schedule, At(role, Owned(endpoints, d)))
  {
    RegisteredIsOwned(schedule, role, endpoints, d);
    SelectKeepsOrder(schedule, At(role, Owned(endpoints, d)));
    SortedIsUnique(Select(schedule, At(role, Owned(endpoints, d))), sorted);
  }

  /** The scheduler over a whole run of the program, from an accepted schedule to the written lists. */
  method RunScheduler(lines: seq<Burst>, endpoints: seq<int>, endTime: int, d: Distribution)
    returns (r: Outcome<UdpBurstScheduler>)
    requires Distinct(endpoints)
    ensures r.Next? <==> ValidSchedule(lines, EndpointSet(endpoints), endTime)
    ensures r.Next? ==> fresh(r.value) && r.value.Paired() && r.value.AppsAreRegistered()
    ensures r.Next? ==>
            Bursts(r.value.m_responsible_for_outgoing_bursts) == Select(lines, At(Outgoing, Owned(endpoints, d)))
    ensures r.Next? ==>
            Bursts(r.value.m_responsible_for_incoming_bursts) == Select(lines, At(Incoming, Owned(endpoints, d)))
  {
    var schedule := ReadSchedule(lines, EndpointSet(endpoints), endTime);
    if schedule.Abort? {
      return Abort;
    }
    var scheduler := new UdpBurstScheduler(schedule.value, endpoints, d);
    scheduler.SortResponsibilities(endpoints);
    r := Next(scheduler);
  }

  // ---- all systems of a distributed run together ----

  /** The bursts systems 0 to n - 1 are responsible for. */
  ghost function AcrossSystems(schedule: seq<Burst>, role: Role, endpoints: seq<int>, assignment: int -> int,
      n: nat): multiset<Burst>
  {
    if n == 0 then multiset{}
    else AcrossSystems(schedule, role, endpoints, assignment, n - 1) +
         multiset(Select(schedule, At(role, Owned(endpoints, Distribution(true, n - 1, assignment)))))
  }

  ghost function OwnedBelow(endpoints: seq<int>, assignment: int -> int, n: nat): set<int>
  {
    set e | e in endpoints && 0 <= assignment(e) < n
  }

  lemma OwnedBelowNext(endpoints: seq<int>, assignment: int -> int, n: nat)
    requires n > 0
    ensures
      var below := OwnedBelow(endpoints, assignment, n - 1);
      var last := Owned(endpoints, Distribution(true, n - 1, assignment));
      OwnedBelow(endpoints, assignment, n) == below + last && below !! last
  {
  }

  lemma {:induction false} AcrossSystemsIs(schedule: seq<Burst>, role: Role, endpoints: seq<int>,
      assignment: int -> int, n: nat)
    ensures AcrossSystems(schedule, role, endpoints, assignment, n) ==
            multiset(Select(schedule, At(role, OwnedBelow(endpoints, assignment, n))))
  {
    if n == 0 {
      SelectNone(schedule, role);
      assert OwnedBelow(endpoints, assignment, 0) == {};
    } else {
      AcrossSystemsIs(schedule, role, endpoints, assignment, n - 1);
      OwnedBelowNext(endpoints, assignment, n);
      SelectAdds(schedule, role, OwnedBelow(endpoints, assignment, n - 1),
        Owned(endpoints, Distribution(true, n - 1, assignment)));
    }
  }

  lemma {:induction false} SelectAll(schedule: seq<Burst>, p: Burst -> bool)
    requires forall b :: b in schedule ==> p(b)
    ensures Select(schedule, p) == schedule
    decreases |schedule|
  {
    if schedule != [] {
      var rest, last := schedule[..|schedule| - 1], schedule[|schedule| - 1];
      assert schedule == rest + [last] && last in schedule;
      assert forall b :: b in rest ==> b in schedule;
      SelectAll(rest, p);
    }
  }

  /** Over all systems every burst of an accepted schedule is outgoing exactly once and incoming exactly
      once, whichever way the endpoints are assigned to the n systems. */
  lemma EveryBurstOnce(schedule: seq<Burst>, role: Role, endpoints: seq<int>, endTime: int, assignment: int -> int,
      n: nat)
    requires ValidSchedule(schedule, EndpointSet(endpoints), endTime)
    requires forall e :: e in endpoints ==> 0 <= assignment(e) < n
    ensures AcrossSystems(schedule, role, endpoints, assignment, n) == multiset(schedule)
    ensures forall b :: b in schedule ==> AcrossSystems(schedule, role, endpoints, assignment, n)[b] == 1
  {
    AcrossSystemsIs(schedule, role, endpoints, assignment, n);
    SelectAll(schedule, At(role, OwnedBelow(endpoints, assignment, n)));
    forall b | b in schedule
      ensures multiset(schedule)[b] == 1
    {
      CountedOnce(schedule, b);
    }
  }

  lemma {:induction false} CountedOnce(schedule: seq<Burst>, b: Burst)
    requires IdsAscend(schedule) && b in schedule
    ensures multiset(schedule)[b] == 1
    decreases |schedule|
  {
    var rest, last := schedule[..|schedule| - 1], schedule[|schedule| - 1];
    assert schedule == rest + [last];
    if b in rest {
      CountedOnce(rest, b);
    }
  }

  /** Without distribution the lists are the whole schedule. */
  lemma UndistributedHasAll(schedule: seq<Burst>, role: Role, endpoints: seq<int>, endTime: int, d: Distribution)
    requires ValidSchedule(schedule, EndpointSet(endpoints), endTime) && !d.enabled
    ensures Select(schedule, At(role, Owned(endpoints, d))) == schedule
  {
    SelectAll(schedule, At(role, Owned(endpoints, d)));
  }
}
