/** The forwarding state of every node: validated from the incremental files, written into the
    arbiters, and reloaded at every update interval. */
module ForwardingState {
  import opened Common
  import opened SimulatorCore
  import opened SatelliteTopology

  /** One line of a forwarding-state file. */
  datatype Line = Line(current: int, target: int, nextHop: int, myIf: int, nextIf: int)

  /** One stored entry: next node, own interface, interface at the next node. */
  datatype Entry = Entry(nextNode: int, ownIf: int, nextIf: int)

  type Tables = seq<seq<Entry>>

  const UNSET := Entry(-2, -2, -2)
  const DROP := Entry(-1, 0, 0)

  // ---- validation and writing, on values ----

  predicate InterfaceExists(top: Topology, node: int, iface: int)
    requires 0 <= node < |top.nodes|
  {
    0 <= iface && iface + 1 < |top.nodes[node]|
  }

  /** The checks on the two devices of a hop. */
  predicate DevicesMatch(top: Topology, l: Line)
    requires Wired(top)
    requires 0 <= l.current < |top.nodes| && 0 <= l.nextHop < |top.nodes|
    requires InterfaceExists(top, l.current, l.myIf) && InterfaceExists(top, l.nextHop, l.nextIf)
  {
    var e := End(l.current, 1 + l.myIf);
    var mine := At(top, e).device;
    var theirs := top.nodes[l.nextHop][1 + l.nextIf].device;
    && (mine.Gsl? || mine.Isl?)
    && (mine.Gsl? ==> theirs.Gsl?)
    && (mine.Isl? ==>
          && theirs.Isl?
          && OtherDevice(top, e).node == l.nextHop
          && At(top, OtherDevice(top, e)).ifIndex == 1 + l.nextIf)
  }

  /** Whether UpdateForwardingState takes the line; otherwise it throws or aborts. */
  predicate Accepts(top: Topology, l: Line)
    requires Wired(top)
  {
    && 0 <= l.current < |top.nodes|
    && 0 <= l.target < |top.nodes|
    && -1 <= l.nextHop < |top.nodes|
    && ((l.nextHop == -1 && l.myIf == -1 && l.nextIf == -1) || (l.nextHop != -1 && l.myIf != -1 && l.nextIf != -1))
    && (l.myIf == -1 || InterfaceExists(top, l.current, l.myIf))
    && (l.nextIf == -1 || InterfaceExists(top, l.nextHop, l.nextIf))
    && (l.nextHop != -1 ==> DevicesMatch(top, l))
  }

  function EntryOf(l: Line): Entry
  {
    Entry(l.nextHop, 1 + l.myIf, 1 + l.nextIf)
  }

  predicate Square(tables: Tables, n: nat)
  {
    |tables| == n && forall i :: 0 <= i < n ==> |tables[i]| == n
  }

  function Write(top: Topology, tables: Tables, l: Line): (r: Outcome<Tables>)
    requires Wired(top) && Square(tables, |top.nodes|)
    ensures r.Next? ==> Square(r.value, |top.nodes|)
  {
    if Accepts(top, l) then Next(tables[l.current := tables[l.current][l.target := EntryOf(l)]]) else Abort
  }

  function WriteAll(top: Topology, tables: Tables, lines: seq<Line>): (r: Outcome<Tables>)
    requires Wired(top) && Square(tables, |top.nodes|)
    ensures r.Next? ==> Square(r.value, |top.nodes|)
  {
    if lines == [] then Next(tables)
    else
      match WriteAll(top, tables, lines[..|lines| - 1])
      case Abort => Abort
      case Next(t) => Write(top, t, lines[|lines| - 1])
  }

  function Initial(n: nat): (t: Tables)
    ensures Square(t, n)
    ensures forall i, j :: 0 <= i < n && 0 <= j < n ==> t[i][j] == UNSET
  {
    seq(n, i => seq(n, j => UNSET))
  }

  // ---- the invariant of the tables ----

  /** An entry a node may hold: unset, a drop, or a hop between two existing interfaces of one kind,
      where a laser hop names exactly the device that receives what is sent on the own interface. */
  ghost predicate GoodEntry(top: Topology, node: nat, e: Entry)
    requires Wired(top) && node < |top.nodes|
  {
    || e == UNSET
    || e == DROP
    || (&& 0 <= e.nextNode < |top.nodes|
        && 1 <= e.ownIf < |top.nodes[node]|
        && 1 <= e.nextIf < |top.nodes[e.nextNode]|
        && var mine := top.nodes[node][e.ownIf].device;
           var theirs := top.nodes[e.nextNode][e.nextIf].device;
           || (mine.Gsl? && theirs.Gsl?)
           || (mine.Isl? && theirs.Isl? && WirePeer(top, End(node, e.ownIf)) == End(e.nextNode, e.nextIf)))
  }

  ghost predicate GoodTables(top: Topology, tables: Tables)
    requires Wired(top) && Square(tables, |top.nodes|)
  {
    forall i, j :: 0 <= i < |top.nodes| && 0 <= j < |top.nodes| ==> GoodEntry(top, i, tables[i][j])
  }

  lemma AcceptedEntryIsGood(top: Topology, l: Line)
    requires Wired(top) && Aligned(top) && Accepts(top, l)
    ensures GoodEntry(top, l.current, EntryOf(l))
  {
    if l.nextHop != -1 {
      var e := End(l.current, 1 + l.myIf);
      if At(top, e).device.Isl? {
        var o := OtherDevice(top, e);
        assert Exists(top, o);
        assert o == End(l.nextHop, 1 + l.nextIf);
        assert WirePeer(top, e) == o;
      }
    }
  }

  /** A line that ought to be accepted: two nodes that exist, and a drop or a hop that the node may hold. */
  ghost predicate GoodLine(top: Topology, l: Line)
    requires Wired(top)
  {
    && 0 <= l.current < |top.nodes| && 0 <= l.target < |top.nodes|
    && ((l.nextHop, l.myIf, l.nextIf) == (-1, -1, -1)
        || (l.nextHop >= 0 && GoodEntry(top, l.current, Entry(l.nextHop, l.myIf + 1, l.nextIf + 1))))
  }

  /** The checks accept exactly the good lines. */
  lemma AcceptsExactly(top: Topology, l: Line)
    requires Wired(top) && Aligned(top)
    ensures Accepts(top, l) <==> GoodLine(top, l)
    ensures Accepts(top, l) <==>
              && 0 <= l.current < |top.nodes| && 0 <= l.target < |top.nodes|
              && EntryOf(l) != UNSET && GoodEntry(top, l.current, EntryOf(l))
  {
    if Accepts(top, l) {
      AcceptedEntryIsGood(top, l);
    }
    if GoodLine(top, l) && l.nextHop >= 0 {
      GoodHopIsAccepted(top, l);
    }
  }

  lemma GoodHopIsAccepted(top: Topology, l: Line)
    requires Wired(top) && Aligned(top) && GoodLine(top, l) && l.nextHop >= 0
    ensures Accepts(top, l)
  {
    var e := End(l.current, 1 + l.myIf);
    if At(top, e).device.Isl? {
      assert Exists(top, OtherDevice(top, e));
      assert OtherDevice(top, e) == WirePeer(top, e) == End(l.nextHop, 1 + l.nextIf);
    }
  }

  /** A file is written if and only if all its lines are good. */
  lemma {:induction false} FileAcceptedExactly(top: Topology, tables: Tables, lines: seq<Line>)
    requires Wired(top) && Aligned(top) && Square(tables, |top.nodes|)
    ensures WriteAll(top, tables, lines).Next? <==> forall l :: l in lines ==> GoodLine(top, l)
    decreases |lines|
  {
    if lines != [] {
      var rest, last := lines[..|lines| - 1], lines[|lines| - 1];
      assert lines == rest + [last];
      FileAcceptedExactly(top, tables, rest);
      AcceptsExactly(top, last);
    }
  }

  /** Every accepted update keeps the invariant. */
  lemma {:induction false} UpdateKeepsTablesGood(top: Topology, tables: Tables, lines: seq<Line>)
    requires Wired(top) && Aligned(top) && Square(tables, |top.nodes|)
    requires GoodTables(top, tables)
    ensures WriteAll(top, tables, lines).Next? ==> GoodTables(top, WriteAll(top, tables, lines).value)
    decreases |lines|
  {
    if lines != [] && WriteAll(top, tables, lines).Next? {
      UpdateKeepsTablesGood(top, tables, lines[..|lines| - 1]);
      AcceptedEntryIsGood(top, lines[|lines| - 1]);
    }
  }

  /** Line k is the last one for node i and target j. */
  ghost predicate LastWriteAt(lines: seq<Line>, i: nat, j: nat, k: nat)
    requires k < |lines|
  {
    && (lines[k].current, lines[k].target) == (i, j)
    && forall m :: k < m < |lines| ==> (lines[m].current, lines[m].target) != (i, j)
  }

  /** Last write wins: after an accepted file, an entry is that of its last line, or as before. */
  lemma {:induction false} LastWriteWins(top: Topology, tables: Tables, lines: seq<Line>, i: nat, j: nat)
    requires Wired(top) && Square(tables, |top.nodes|)
    requires WriteAll(top, tables, lines).Next? && i < |top.nodes| && j < |top.nodes|
    ensures
      var t := WriteAll(top, tables, lines).value;
      || (t[i][j] == tables[i][j] && forall k :: 0 <= k < |lines| ==> (lines[k].current, lines[k].target) != (i, j))
      || (exists k :: 0 <= k < |lines| && LastWriteAt(lines, i, j, k) && t[i][j] == EntryOf(lines[k]))
    decreases |lines|
  {
    if lines != [] {
      var n := |lines| - 1;
      LastWriteWins(top, tables, lines[..n], i, j);
      if (lines[n].current, lines[n].target) == (i, j) {
        assert LastWriteAt(lines, i, j, n);
      } else {
        var t := WriteAll(top, tables, lines[..n]).value;
        assert WriteAll(top, tables, lines).value[i][j] == t[i][j];
        if k :| 0 <= k < n && LastWriteAt(lines[..n], i, j, k) && t[i][j] == EntryOf(lines[..n][k]) {
          forall m | k < m < |lines|
            ensures (lines[m].current, lines[m].target) != (i, j)
          {
            if m < n { assert lines[..n][m] == lines[m]; }
          }
          assert LastWriteAt(lines, i, j, k);
        } else {
          forall k | 0 <= k < |lines|
            ensures (lines[k].current, lines[k].target) != (i, j)
          {
            if k < n { assert lines[..n][k] == lines[k]; }
          }
        }
      }
    }
  }

  /** The load planned by the load of time t: none in a static run, or when the run would be over. */
  function PlannedLoad(t: nat, now: nat, interval: nat, endTime: nat, forceStatic: bool): multiset<(nat, nat)>
  {
    if !forceStatic && t + interval < endTime then multiset{(now + interval, t + interval)} else multiset{}
  }

  // ---- the arbiters and their helper, updated in place ----

  class ArbiterSingleForward {
    var m_next_hop_list: seq<Entry>

    constructor (next_hop_list: seq<Entry>)
      ensures m_next_hop_list == next_hop_list
    {
      m_next_hop_list := next_hop_list;
    }

    /** Setting an invalid (-2) entry is not permitted. */
    method SetSingleForwardState(target: int, next: int, ownIf: int, nextIf: int) returns (r: Outcome<bool>)
      requires 0 <= target < |m_next_hop_list|
      modifies this
      ensures r.Abort? <==> next == -2 || ownIf == -2 || nextIf == -2
      ensures m_next_hop_list ==
        if r.Next? then old(m_next_hop_list)[target := Entry(next, ownIf, nextIf)] else old(m_next_hop_list)
    {
      if next == -2 || ownIf == -2 || nextIf == -2 {
        return Abort;
      }
      m_next_hop_list := m_next_hop_list[target := Entry(next, ownIf, nextIf)];
      r := Next(true);
    }
  }

  /** A fresh row or table, every entry invalid. */
  method InitialEmptyForwardingState(n: nat) returns (state: Tables)
    ensures state == Initial(n)
  {
    state := [];
    for i := 0 to n
      invariant |state| == i && forall k :: 0 <= k < i ==> state[k] == seq(n, j => UNSET)
    {
      var next_hop_list := [];
      for j := 0 to n
        invariant |next_hop_list| == j && forall k :: 0 <= k < j ==> next_hop_list[k] == UNSET
      {
        next_hop_list := next_hop_list + [Entry(-2, -2, -2)];
      }
      assert next_hop_list == seq(n, j => UNSET);
      state := state + [next_hop_list];
    }
  }

  class ArbiterSingleForwardHelper {
    const top: Topology
    const sim: Simulator<nat>            // an event is the time named in its file
    const files: nat -> Option<seq<Line>>  // None: the file does not exist
    const interval: nat
    const endTime: nat
    const forceStatic: bool
    const m_arbiters: seq<ArbiterSingleForward>

    ghost predicate Valid()
      reads m_arbiters
    {
      && Wired(top)
      && |m_arbiters| == |top.nodes|
      && (forall i, j :: 0 <= i < j < |m_arbiters| ==> m_arbiters[i] != m_arbiters[j])
      && (forall i :: 0 <= i < |m_arbiters| ==> |m_arbiters[i].m_next_hop_list| == |top.nodes|)
    }

    ghost function TablesOf(): (t: Tables)
      requires Valid()
      reads m_arbiters
      ensures Square(t, |top.nodes|)
    {
      seq(|m_arbiters|, i requires 0 <= i < |m_arbiters| reads m_arbiters => m_arbiters[i].m_next_hop_list)
    }

    /** Up to the first load. */
    constructor (top: Topology, sim: Simulator<nat>, files: nat -> Option<seq<Line>>, interval: nat, endTime: nat,
        forceStatic: bool)
      requires Wired(top)
      ensures fresh(m_arbiters)
      ensures Valid() && TablesOf() == Initial(|top.nodes|)
      ensures this.top == top && this.sim == sim && this.files == files
      ensures this.interval == interval && this.endTime == endTime && this.forceStatic == forceStatic
    {
      var n := |top.nodes|;
      var initial := InitialEmptyForwardingState(n);
      var arbiters: seq<ArbiterSingleForward> := [];
      for i := 0 to n
        invariant |arbiters| == i
        invariant forall k :: 0 <= k < i ==> fresh(arbiters[k]) && arbiters[k].m_next_hop_list == initial[k]
        invariant forall k, m :: 0 <= k < m < i ==> arbiters[k] != arbiters[m]
      {
        var arbiter := new ArbiterSingleForward(initial[i]);
        arbiters := arbiters + [arbiter];
      }
      this.top, this.sim, this.files := top, sim, files;
      this.interval, this.endTime, this.forceStatic := interval, endTime, forceStatic;
      this.m_arbiters := arbiters;
    }

    /** One accepted line. */
    method WriteLine(l: Line)
      requires Valid() && Accepts(top, l)
      modifies m_arbiters
      ensures Valid() && Next(TablesOf()) == Write(top, old(TablesOf()), l)
    {
      var r := m_arbiters[l.current].SetSingleForwardState(l.target, l.nextHop, 1 + l.myIf, 1 + l.nextIf);
      assert TablesOf() == old(TablesOf())[l.current := old(TablesOf())[l.current][l.target := EntryOf(l)]];
    }

    /** The lines of one file, up to the first that is refused. */
    method WriteLines(lines: seq<Line>) returns (ok: bool)
      requires Valid()
      modifies m_arbiters
      ensures Valid()
      ensures ok <==> WriteAll(top, old(TablesOf()), lines).Next?
      ensures ok ==> WriteAll(top, old(TablesOf()), lines) == Next(TablesOf())
    {
      var k := 0;
      while k < |lines|
        invariant 0 <= k <= |lines| && Valid()
        invariant WriteAll(top, old(TablesOf()), lines[..k]) == Next(TablesOf())
      {
        assert lines[..k + 1][..k] == lines[..k];
        if !Accepts(top, lines[k]) {
          WriteAllAborts(top, old(TablesOf()), lines, k + 1);
          return false;
        }
        WriteLine(lines[k]);
        k := k + 1;
      }
      assert lines[..k] == lines;
      ok := true;
    }

    /** Load the file of time t, then plan the next load, unless the run is static or would be over. */
    method UpdateForwardingState(t: nat) returns (r: Outcome<bool>)
      requires Valid()
      modifies m_arbiters, sim`pending
      ensures Valid()
      ensures r.Next? <==> files(t).Some? && WriteAll(top, old(TablesOf()), files(t).value).Next?
      ensures r.Next? ==> Next(TablesOf()) == WriteAll(top, old(TablesOf()), files(t).value)
      ensures r.Next? ==> sim.pending == old(sim.pending) + PlannedLoad(t, sim.now, interval, endTime, forceStatic)
    {
      if files(t).None? {
        return Abort;
      }
      var ok := WriteLines(files(t).value);
      if !ok {
        return Abort;
      }
      if !forceStatic {
        var next_update_ns := t + interval;
        if next_update_ns < endTime {
          sim.Schedule(interval, next_update_ns);
        }
      }
      r := Next(true);
    }
  }

  lemma {:induction false} WriteAllAborts(top: Topology, tables: Tables, lines: seq<Line>, k: nat)
    requires Wired(top) && Square(tables, |top.nodes|) && k <= |lines|
    requires WriteAll(top, tables, lines[..k]).Abort?
    ensures WriteAll(top, tables, lines).Abort?
    decreases |lines|
  {
    if k == |lines| {
      assert lines[..k] == lines;
    } else {
      assert lines[..|lines| - 1][..k] == lines[..k];
      WriteAllAborts(top, tables, lines[..|lines| - 1], k);
    }
  }
}
