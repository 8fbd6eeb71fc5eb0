/** The TCP flow schedule, its reader, and the chain of flow starts. */
module TcpFlows {
  import opened Common
  import opened SimulatorCore

  datatype Flow = Flow(id: int, source: int, target: int, size: int, start: int)

  // ---- the reader ----

  ghost predicate ValidFlow(f: Flow, line: nat, endpoints: set<int>, endTime: int)
  {
    && f.id == line
    && f.source >= 0 && f.target >= 0 && f.size >= 0 && f.start >= 0
    && f.source != f.target && f.source in endpoints && f.target in endpoints
    && f.start < endTime
  }

  /** What the reader accepts: ids count the lines, starts are weakly ascending and before the end. */
  ghost predicate ValidSchedule(flows: seq<Flow>, endpoints: set<int>, endTime: int)
  {
    && (forall i :: 0 <= i < |flows| ==> ValidFlow(flows[i], i, endpoints, endTime))
    && (forall i, j :: 0 <= i < j < |flows| ==> flows[i].start <= flows[j].start)
  }

  method ReadSchedule(lines: seq<Flow>, endpoints: set<int>, endTime: int) returns (r: Outcome<seq<Flow>>)
    ensures r.Next? <==> ValidSchedule(lines, endpoints, endTime)
    ensures r.Next? <==>
              && (forall i :: 0 <= i < |lines| ==>
                    && lines[i].id == i && lines[i].size >= 0
                    && lines[i].source >= 0 && lines[i].target >= 0 && lines[i].source != lines[i].target
                    && lines[i].source in endpoints && lines[i].target in endpoints
                    && 0 <= lines[i].start < endTime)
              && (forall i, j :: 0 <= i < j < |lines| ==> lines[i].start <= lines[j].start)
    ensures r.Next? ==> r.value == lines
  {
    var schedule := [];
    var line_counter := 0;
    var prev_start_time_ns := 0;
    while line_counter < |lines|
      invariant 0 <= line_counter <= |lines| && schedule == lines[..line_counter]
      invariant forall i :: 0 <= i < line_counter ==>
              ValidFlow(lines[i], i, endpoints, endTime) && lines[i].start <= prev_start_time_ns
      invariant forall i, j :: 0 <= i < j < line_counter ==> lines[i].start <= lines[j].start
      invariant prev_start_time_ns == if line_counter == 0 then 0 else lines[line_counter - 1].start
    {
      var f := lines[line_counter];
      if f.id < 0 || f.id != line_counter { return Abort; }
      if f.source < 0 || f.target < 0 || f.size < 0 || f.start < 0 { return Abort; }
      if prev_start_time_ns > f.start { return Abort; }
      prev_start_time_ns := f.start;
      if f.source == f.target { return Abort; }
      if f.source !in endpoints { return Abort; }
      if f.target !in endpoints { return Abort; }
      if f.start >= endTime { return Abort; }
      schedule := schedule + [f];
      line_counter := line_counter + 1;
    }
    r := Next(schedule);
  }

  // ---- the distributed filter ----

  /** The flows that start at nodes of this system. */
  function Mine(assignment: int -> int, systemId: int): Flow -> bool
  {
    (f: Flow) => assignment(f.source) == systemId
  }

  /** The entries that start at nodes of this system, in schedule order. */
  method FilterSchedule(schedule: seq<Flow>, assignment: int -> int, systemId: int) returns (filtered: seq<Flow>)
    ensures filtered == Select(schedule, Mine(assignment, systemId))
    ensures forall f :: f in filtered <==> f in schedule && assignment(f.source) == systemId
  {
    filtered := [];
    for i := 0 to |schedule|
      invariant filtered == Select(schedule[..i], Mine(assignment, systemId))
    {
      if assignment(schedule[i].source) == systemId {
        filtered := filtered + [schedule[i]];
      }
      assert schedule[..i + 1][..i] == schedule[..i];
    }
    assert schedule[..|schedule|] == schedule;
    SelectsExactly(schedule, Mine(assignment, systemId));
  }

  lemma {:induction false} SelectsExactly(flows: seq<Flow>, p: Flow -> bool)
    ensures forall f :: f in Select(flows, p) <==> f in flows && p(f)
    decreases |flows|
  {
    if flows != [] {
      SelectsExactly(flows[..|flows| - 1], p);
      assert flows == flows[..|flows| - 1] + [flows[|flows| - 1]];
    }
  }

  /** The flows that systems 0 to n - 1 start. */
  ghost function AcrossSystems(schedule: seq<Flow>, assignment: int -> int, n: nat): multiset<Flow>
  {
    if n == 0 then multiset{}
    else AcrossSystems(schedule, assignment, n - 1) + multiset(Select(schedule, Mine(assignment, n - 1)))
  }

  lemma {:induction false} SelectCounts(flows: seq<Flow>, p: Flow -> bool, f: Flow)
    ensures multiset(Select(flows, p))[f] == if p(f) then multiset(flows)[f] else 0
    decreases |flows|
  {
    if flows != [] {
      var rest, last := flows[..|flows| - 1], flows[|flows| - 1];
      assert flows == rest + [last];
      SelectCounts(rest, p, f);
    }
  }

  lemma {:induction false} AcrossSystemsCounts(schedule: seq<Flow>, assignment: int -> int, n: nat, f: Flow)
    ensures AcrossSystems(schedule, assignment, n)[f] ==
            if 0 <= assignment(f.source) < n then multiset(schedule)[f] else 0
  {
    if n > 0 {
      AcrossSystemsCounts(schedule, assignment, n - 1, f);
      SelectCounts(schedule, Mine(assignment, n - 1), f);
    }
  }

  /** Over all systems every flow is started exactly once, by the system of its source. */
  lemma EveryFlowOnce(schedule: seq<Flow>, assignment: int -> int, n: nat)
    requires forall f :: f in schedule ==> 0 <= assignment(f.source) < n
    ensures AcrossSystems(schedule, assignment, n) == multiset(schedule)
  {
    forall f: Flow
      ensures AcrossSystems(schedule, assignment, n)[f] == multiset(schedule)[f]
    {
      AcrossSystemsCounts(schedule, assignment, n, f);
      assert f !in schedule ==> multiset(schedule)[f] == 0;
    }
  }

  /** What the chain needs of a schedule: weakly ascending starts, before the end. */
  ghost predicate Startable(flows: seq<Flow>, endTime: int)
  {
    && (forall i :: 0 <= i < |flows| ==> 0 <= flows[i].start < endTime)
    && (forall i, j :: 0 <= i < j < |flows| ==> flows[i].start <= flows[j].start)
  }

  /** Any order-preserving filter of a startable schedule is startable. */
  lemma {:induction false} FilterKeepsStartable(flows: seq<Flow>, p: Flow -> bool, endTime: int)
    requires Startable(flows, endTime)
    ensures Startable(Select(flows, p), endTime)
    ensures forall f :: f in Select(flows, p) <==> f in flows && p(f)
    decreases |flows|
  {
    if flows != [] {
      var last := flows[|flows| - 1];
      FilterKeepsStartable(flows[..|flows| - 1], p, endTime);
      assert flows == flows[..|flows| - 1] + [last];
      forall f | f in Select(flows[..|flows| - 1], p)
        ensures f.start <= last.start
      {
        assert f in flows[..|flows| - 1];
      }
    }
  }

  // ---- the chain of starts, updated in place ----

  /** A started application: its entry and when it was started. */
  datatype App = App(flow: Flow, at: nat)

  class TcpFlowScheduler {
    const sim: Simulator<nat>  // an event is the index of the flow to start
    const m_schedule: seq<Flow>
    var m_apps: seq<App>

    /** The end of the constructor: the first start is scheduled. */
    constructor (sim: Simulator<nat>, schedule: seq<Flow>)
      requires schedule != [] ==> schedule[0].start >= 0
      modifies sim`pending
      ensures this.sim == sim && m_schedule == schedule && m_apps == []
      ensures sim.pending == old(sim.pending) +
              (if schedule == [] then multiset{} else multiset{(sim.now + schedule[0].start, 0)})
    {
      this.sim, m_schedule, m_apps := sim, schedule, [];
      new;
      if |m_schedule| > 0 {
        sim.Schedule(m_schedule[0].start, 0);
      }
    }

    /** Starts flow i, which is due now, and schedules the next. */
    method StartNextFlow(i: nat)
      requires i < |m_schedule| && sim.now == m_schedule[i].start
      requires i + 1 < |m_schedule| ==> m_schedule[i].start <= m_schedule[i + 1].start
      modifies this`m_apps, sim`pending
      ensures m_apps == old(m_apps) + [App(m_schedule[i], sim.now)]
      ensures sim.pending == old(sim.pending) +
              (if i + 1 < |m_schedule| then multiset{(m_schedule[i + 1].start as nat, i + 1)} else multiset{})
    {
      var entry := m_schedule[i];
      var now_ns := sim.now;
      m_apps := m_apps + [App(entry, now_ns)];
      if i + 1 != |m_schedule| {
        var next_flow_ns := m_schedule[i + 1].start;
        sim.Schedule(next_flow_ns - now_ns, i + 1);
      }
    }

    /** The rows of WriteResults: the i-th entry with the i-th application; a missing one throws. */
    method WriteResults() returns (r: Outcome<seq<(Flow, App)>>)
      ensures r.Next? <==> |m_schedule| <= |m_apps|
      ensures r.Next? ==> |r.value| == |m_schedule|
      ensures r.Next? ==> forall i :: 0 <= i < |m_schedule| ==> r.value[i] == (m_schedule[i], m_apps[i])
    {
      var rows := [];
      var app_idx := 0;
      while app_idx < |m_schedule|
        invariant 0 <= app_idx <= |m_schedule| && |rows| == app_idx <= |m_apps|
        invariant forall i :: 0 <= i < app_idx ==> rows[i] == (m_schedule[i], m_apps[i])
      {
        if app_idx >= |m_apps| {
          return Abort;
        }
        rows := rows + [(m_schedule[app_idx], m_apps[app_idx])];
        app_idx := app_idx + 1;
      }
      r := Next(rows);
    }
  }

  // ---- whole runs of the chain ----

  /** The scheduler in the simulator; pending holds (due time, index). */
  datatype World = World(now: nat, apps: seq<App>, pending: multiset<(nat, nat)>)

  datatype Action = FireStart(i: nat) | AdvanceClock(dt: nat)

  function InitialWorld(schedule: seq<Flow>): World
    requires schedule != [] ==> schedule[0].start >= 0
  {
    World(0, [], if schedule == [] then multiset{} else multiset{(schedule[0].start as nat, 0)})
  }

  ghost predicate Enabled(w: World, a: Action)
  {
    match a
    case FireStart(i) => (w.now, i) in w.pending
    case AdvanceClock(dt) => forall e :: e in w.pending ==> w.now + dt <= e.0
  }

  /** StartNextFlow aborts if its assertion on the time fails, or if it would schedule into the past. */
  function Step(schedule: seq<Flow>, w: World, a: Action): Outcome<World>
  {
    match a
    case FireStart(i) =>
      if i >= |schedule| || w.now != schedule[i].start then Abort
      else
        var rest := w.pending - multiset{(w.now, i)};
        var apps := w.apps + [App(schedule[i], w.now)];
        if i + 1 == |schedule| then Next(World(w.now, apps, rest))
        else if schedule[i + 1].start < w.now then Abort
        else Next(World(w.now, apps, rest + multiset{(schedule[i + 1].start as nat, i + 1)}))
    case AdvanceClock(dt) => Next(w.(now := w.now + dt))
  }

  function Run(schedule: seq<Flow>, w: World, actions: seq<Action>): Outcome<World>
    decreases |actions|
  {
    if actions == [] then Next(w)
    else
      match Step(schedule, w, actions[0])
      case Abort => Abort
      case Next(w') => Run(schedule, w', actions[1..])
  }

  ghost predicate Possible(schedule: seq<Flow>, w: World, actions: seq<Action>)
    decreases |actions|
  {
    actions == [] ||
    (Enabled(w, actions[0]) &&
     (Step(schedule, w, actions[0]).Next? ==> Possible(schedule, Step(schedule, w, actions[0]).value, actions[1..])))
  }

  /** The first n flows have been started, each at its own start time, and the next one is pending. */
  ghost predicate ChainInv(schedule: seq<Flow>, w: World)
  {
    var n := |w.apps|;
    && n <= |schedule|
    && (forall i :: 0 <= i < n ==> w.apps[i].flow == schedule[i] && w.apps[i].at == schedule[i].start <= w.now)
    && (if n == |schedule| then w.pending == multiset{}
        else schedule[n].start >= w.now && w.pending == multiset{(schedule[n].start as nat, n)})
  }

  lemma ChainStep(schedule: seq<Flow>, endTime: int, w: World, a: Action)
    requires Startable(schedule, endTime) && ChainInv(schedule, w) && Enabled(w, a)
    ensures Step(schedule, w, a).Next? && ChainInv(schedule, Step(schedule, w, a).value)
  {
    var n := |w.apps|;
    match a
    case FireStart(i) =>
      assert i == n;
    case AdvanceClock(dt) =>
      if n < |schedule| {
        assert (schedule[n].start as nat, n) in w.pending;
      }
  }

  lemma {:induction false} ChainRun(schedule: seq<Flow>, endTime: int, w: World, actions: seq<Action>)
    requires Startable(schedule, endTime) && ChainInv(schedule, w) && Possible(schedule, w, actions)
    ensures Run(schedule, w, actions).Next? && ChainInv(schedule, Run(schedule, w, actions).value)
    decreases |actions|
  {
    if actions != [] {
      ChainStep(schedule, endTime, w, actions[0]);
      ChainRun(schedule, endTime, Step(schedule, w, actions[0]).value, actions[1..]);
    }
  }

  /** In every run over a schedule the reader accepts, restricted by any filter: the assertion on the
      time never fails, the flows started so far are a prefix of the schedule, each started once at its
      start time and before the end; and once the clock has reached the end all have been started, so
      application i belongs to entry i. */
  lemma EveryRunStartsFlowsInOrder(read: seq<Flow>, p: Flow -> bool, endpoints: set<int>, endTime: int,
      actions: seq<Action>)
    requires ValidSchedule(read, endpoints, endTime)
    requires var schedule := Select(read, p);
             (schedule != [] ==> schedule[0].start >= 0) && Possible(schedule, InitialWorld(schedule), actions)
    ensures Run(Select(read, p), InitialWorld(Select(read, p)), actions).Next?
    ensures
      var schedule := Select(read, p);
      var w := Run(schedule, InitialWorld(schedule), actions).value;
      && |w.apps| <= |schedule|
      && (forall i :: 0 <= i < |w.apps| ==>
          w.apps[i] == App(schedule[i], w.apps[i].at) && w.apps[i].at == schedule[i].start < endTime)
      && (forall i :: |w.apps| <= i < |schedule| ==> schedule[i].start >= w.now)
      && (w.now >= endTime ==> |w.apps| == |schedule|)
  {
    assert Startable(read, endTime);
    FilterKeepsStartable(read, p, endTime);
    var schedule := Select(read, p);
    ChainRun(schedule, endTime, InitialWorld(schedule), actions);
  }

  // ---- the scheduler object under an event loop ----

  /** The scheduler is where the run is. */
  ghost predicate Follows(scheduler: TcpFlowScheduler, w: World)
    reads scheduler, scheduler.sim
  {
    scheduler.sim.now == w.now && scheduler.m_apps == w.apps && scheduler.sim.pending == w.pending
  }

  /** The one start that can be due is that of the next flow. */
  lemma DueFlow(schedule: seq<Flow>, w: World, i: nat)
    requires ChainInv(schedule, w) && (w.now, i) in w.pending
    ensures i == |w.apps| < |schedule| && w.now == schedule[i].start
    ensures w.pending - multiset{(w.now, i)} == multiset{}
  {
  }

  method SimulateStart(scheduler: TcpFlowScheduler, endTime: int, i: nat, ghost w: World)
    requires Startable(scheduler.m_schedule, endTime) && ChainInv(scheduler.m_schedule, w)
    requires (w.now, i) in w.pending && Follows(scheduler, w)
    modifies scheduler`m_apps, scheduler.sim`pending
    ensures Step(scheduler.m_schedule, w, FireStart(i)).Next?
    ensures Follows(scheduler, Step(scheduler.m_schedule, w, FireStart(i)).value)
  {
    DueFlow(scheduler.m_schedule, w, i);
    scheduler.sim.Take(i);
    scheduler.StartNextFlow(i);
  }

  method SimulateStep(scheduler: TcpFlowScheduler, endTime: int, a: Action, ghost w: World)
    requires Startable(scheduler.m_schedule, endTime) && ChainInv(scheduler.m_schedule, w)
    requires Enabled(w, a) && Follows(scheduler, w)
    modifies scheduler, scheduler.sim
    ensures Step(scheduler.m_schedule, w, a).Next?
    ensures ChainInv(scheduler.m_schedule, Step(scheduler.m_schedule, w, a).value)
    ensures Follows(scheduler, Step(scheduler.m_schedule, w, a).value)
  {
    ChainStep(scheduler.m_schedule, endTime, w, a);
    match a {
      case FireStart(i) => SimulateStart(scheduler, endTime, i, w);
      case AdvanceClock(dt) => scheduler.sim.Advance(dt);
    }
  }

  method SimulateScript(scheduler: TcpFlowScheduler, endTime: int, script: seq<Action>, ghost w: World)
    requires Startable(scheduler.m_schedule, endTime) && ChainInv(scheduler.m_schedule, w)
    requires Possible(scheduler.m_schedule, w, script) && Follows(scheduler, w)
    modifies scheduler, scheduler.sim
    ensures Run(scheduler.m_schedule, w, script).Next?
    ensures ChainInv(scheduler.m_schedule, Run(scheduler.m_schedule, w, script).value)
    ensures Follows(scheduler, Run(scheduler.m_schedule, w, script).value)
    decreases |script|
  {
    if script != [] {
      SimulateStep(scheduler, endTime, script[0], w);
      SimulateScript(scheduler, endTime, script[1..], Step(scheduler.m_schedule, w, script[0]).value);
    }
  }

  /** A whole distributed run on one system, from the schedule as read to the written rows: in any order of
      events until the end is reached, every flow is started when it is due, and row i is entry i with
      the application started for it. */
  method SimulateFlows(read: seq<Flow>, endpoints: set<int>, endTime: int, assignment: int -> int, systemId: int,
      script: seq<Action>) returns (rows: Outcome<seq<(Flow, App)>>)
    requires ValidSchedule(read, endpoints, endTime)
    requires
      var schedule := Select(read, Mine(assignment, systemId));
      && (schedule != [] ==> schedule[0].start >= 0)
      && Possible(schedule, InitialWorld(schedule), script)
      && (Run(schedule, InitialWorld(schedule), script).Next? ==>
            Run(schedule, InitialWorld(schedule), script).value.now >= endTime)
    ensures rows.Next?
    ensures
      var schedule := Select(read, Mine(assignment, systemId));
      && |rows.value| == |schedule|
      && forall i :: 0 <= i < |schedule| ==>
           rows.value[i].0 == schedule[i] == rows.value[i].1.flow && rows.value[i].1.at == schedule[i].start
  {
    FilterKeepsStartable(read, Mine(assignment, systemId), endTime);
    var schedule := FilterSchedule(read, assignment, systemId);
    var scheduler := RunFlows(schedule, endTime, script);
    rows := scheduler.WriteResults();
  }

  /** The scheduler from its construction to the end of the script. */
  method RunFlows(schedule: seq<Flow>, endTime: int, script: seq<Action>) returns (scheduler: TcpFlowScheduler)
    requires Startable(schedule, endTime)
    requires (schedule != [] ==> schedule[0].start >= 0) && Possible(schedule, InitialWorld(schedule), script)
    ensures fresh(scheduler) && scheduler.m_schedule == schedule
    ensures Run(schedule, InitialWorld(schedule), script).Next?
    ensures
      var w := Run(schedule, InitialWorld(schedule), script).value;
      scheduler.m_apps == w.apps && ChainInv(schedule, w)
  {
    var sim := new Simulator<nat>();
    scheduler := new TcpFlowScheduler(sim, schedule);
    SimulateScript(scheduler, endTime, script, InitialWorld(schedule));
  }
}
