/** Whole runs of the reloading of forwarding state, and the Python replay of the same files. */
module ForwardingSchedule {
  import opened Common
  import opened SimulatorCore
  import opened SatelliteTopology
  import opened ForwardingState
  import opened PathTruth

  /** What never changes during a run. */
  datatype Config = Config(top: Topology, files: nat -> Option<seq<Line>>, interval: nat, endTime: nat,
      forceStatic: bool)

  /** The helper inside the simulator. pending holds (due time, time named by the file). */
  datatype World = World(now: nat, tables: Tables, pending: multiset<(nat, nat)>, loaded: seq<nat>)

  datatype Action = FireLoad(t: nat) | AdvanceClock(dt: nat)

  ghost predicate Fits(c: Config, w: World)
  {
    Wired(c.top) && Square(w.tables, |c.top.nodes|)
  }

  /** UpdateForwardingState(t): as ArbiterSingleForwardHelper does it. */
  function Load(c: Config, w: World, t: nat): (r: Outcome<World>)
    requires Wired(c.top) && Square(w.tables, |c.top.nodes|)
    ensures r.Next? ==> Fits(c, r.value)
  {
    match c.files(t)
    case None => Abort
    case Some(lines) =>
      match WriteAll(c.top, w.tables, lines)
      case Abort => Abort
      case Next(tables) =>
        var planned := PlannedLoad(t, w.now, c.interval, c.endTime, c.forceStatic);
        Next(World(w.now, tables, w.pending + planned, w.loaded + [t]))
  }

  /** The constructor loads the file of time 0. */
  function Start(c: Config): (r: Outcome<World>)
    requires Wired(c.top)
    ensures r.Next? ==> Fits(c, r.value)
  {
    Load(c, World(0, Initial(|c.top.nodes|), multiset{}, []), 0)
  }

  /** The file of time t exists, and all its lines are good. */
  ghost predicate GoodFile(c: Config, t: nat)
    requires Wired(c.top)
  {
    c.files(t).Some? && forall l :: l in c.files(t).value ==> GoodLine(c.top, l)
  }

  /** A load goes through if and only if the file is good. */
  lemma LoadSucceedsExactly(c: Config, w: World, t: nat)
    requires Fits(c, w) && Aligned(c.top)
    ensures Load(c, w, t).Next? <==> GoodFile(c, t)
  {
    if c.files(t).Some? {
      FileAcceptedExactly(c.top, w.tables, c.files(t).value);
    }
  }

  ghost predicate Enabled(w: World, a: Action)
  {
    match a
    case FireLoad(t) => (w.now, t) in w.pending
    case AdvanceClock(dt) => forall e :: e in w.pending ==> w.now + dt <= e.0
  }

  function Step(c: Config, w: World, a: Action): (r: Outcome<World>)
    requires Wired(c.top) && Square(w.tables, |c.top.nodes|)
    ensures r.Next? ==> Fits(c, r.value)
  {
    match a
    case FireLoad(t) => Load(c, w.(pending := w.pending - multiset{(w.now, t)}), t)
    case AdvanceClock(dt) => Next(w.(now := w.now + dt))
  }

  /** w is reached from the start by some possible run on which no load aborts. */
  ghost predicate ReachedBy(c: Config, w: World, actions: seq<Action>)
    requires Wired(c.top)
    decreases |actions|
  {
    if actions == [] then Start(c) == Next(w)
    else
      exists v: World ::
        Fits(c, v) && ReachedBy(c, v, actions[..|actions| - 1])
        && Enabled(v, actions[|actions| - 1]) && Step(c, v, actions[|actions| - 1]) == Next(w)
  }

  // ---- the files loaded so far ----

  /** 0, interval, 2 * interval, ... */
  function Multiples(interval: nat, n: nat): (s: seq<nat>)
    ensures |s| == n && forall i :: 0 <= i < n ==> s[i] == i * interval
  {
    seq(n, i requires 0 <= i < n => i * interval)
  }

  /** The files of the times in ts, applied one after the other to empty tables. */
  function Replay(c: Config, ts: seq<nat>): (r: Outcome<Tables>)
    requires Wired(c.top)
    ensures r.Next? ==> Square(r.value, |c.top.nodes|)
  {
    if ts == [] then Next(Initial(|c.top.nodes|))
    else
      match Replay(c, ts[..|ts| - 1])
      case Abort => Abort
      case Next(t) =>
        match c.files(ts[|ts| - 1])
        case None => Abort
        case Some(lines) => WriteAll(c.top, t, lines)
  }

  /** How many of the instants 0, interval, 2 * interval, ... are not after now. */
  function DueBy(interval: nat, now: nat): nat
    requires interval > 0
  {
    now / interval + 1
  }

  lemma DueByAtLeast(interval: nat, n: nat, now: nat)
    requires interval > 0 && n * interval <= now
    ensures n + 1 <= DueBy(interval, now)
  {
    if now / interval < n {
      Ordered(now / interval + 1, n, interval);
      assert (now / interval + 1) * interval == now / interval * interval + interval;
    }
  }

  ghost predicate ScheduleInv(c: Config, w: World)
    requires Wired(c.top)
  {
    var n := |w.loaded|;
    && 1 <= n
    && w.loaded == Multiples(c.interval, n)
    && Replay(c, w.loaded) == Next(w.tables)
    && (n - 1) * c.interval <= w.now
    && (if n * c.interval < c.endTime
        then w.pending == multiset{(n * c.interval, n * c.interval)} && w.now <= n * c.interval
        else w.pending == multiset{})
  }

  lemma {:induction false} LoadInv(c: Config, w: World, w': World)
    requires Wired(c.top) && Square(w.tables, |c.top.nodes|) && !c.forceStatic
    requires var n := |w.loaded|;
             && w.loaded == Multiples(c.interval, n)
             && Replay(c, w.loaded) == Next(w.tables)
             && w.now == n * c.interval && w.pending == multiset{}
             && Load(c, w, n * c.interval) == Next(w')
    ensures ScheduleInv(c, w')
  {
    var n := |w.loaded|;
    assert (n + 1) * c.interval == n * c.interval + c.interval;
    assert w'.loaded == Multiples(c.interval, n + 1);
    assert w'.loaded[..n] == w.loaded;
  }

  lemma {:induction false} ReachedInv(c: Config, w: World, actions: seq<Action>)
    requires Wired(c.top) && !c.forceStatic && ReachedBy(c, w, actions)
    ensures Fits(c, w) && ScheduleInv(c, w)
    decreases |actions|
  {
    if actions == [] {
      var empty := World(0, Initial(|c.top.nodes|), multiset{}, []);
      assert Multiples(c.interval, 0) == [];
      assert 0 * c.interval == 0;
      LoadInv(c, empty, w);
    } else {
      var a := actions[|actions| - 1];
      var v: World :|
        Fits(c, v) && ReachedBy(c, v, actions[..|actions| - 1]) && Enabled(v, a) && Step(c, v, a) == Next(w);
      ReachedInv(c, v, actions[..|actions| - 1]);
      var n := |v.loaded|;
      match a {
        case FireLoad(t) =>
          assert (v.now, t) == (n * c.interval, n * c.interval);
          LoadInv(c, v.(pending := v.pending - multiset{(v.now, t)}), w);
        case AdvanceClock(dt) =>
          if n * c.interval < c.endTime {
            assert (n * c.interval, n * c.interval) in v.pending;
          }
      }
    }
  }

  /** In a run that is not static: at every instant t before the end, once the load due at t has run,
      the files 0, interval, ..., (t / interval) * interval have each been loaded exactly once, in that
      order, and the tables are their replay. */
  lemma {:induction false} TablesAtEveryInstant(c: Config, w: World, actions: seq<Action>)
    requires Wired(c.top) && !c.forceStatic && c.interval > 0 && ReachedBy(c, w, actions)
    requires w.now < c.endTime
    requires forall e :: e in w.pending ==> e.0 != w.now
    ensures w.loaded == Multiples(c.interval, DueBy(c.interval, w.now))
    ensures Replay(c, w.loaded) == Next(w.tables)
  {
    ReachedInv(c, w, actions);
    var n := |w.loaded|;
    if n * c.interval < c.endTime {
      assert (n * c.interval, n * c.interval) in w.pending;
    }
    assert n * c.interval == (n - 1) * c.interval + c.interval;
    Quotient(w.now, c.interval, n - 1);
  }

  ghost predicate StaticInv(c: Config, w: World)
    requires Wired(c.top)
  {
    w.pending == multiset{} && w.loaded == [0] && Replay(c, [0]) == Next(w.tables)
  }

  lemma StaticStart(c: Config, w: World)
    requires Wired(c.top) && c.forceStatic && Start(c) == Next(w)
    ensures StaticInv(c, w)
  {
    ReplayOne(c);
    assert [] + [0] == [0];
  }

  lemma ReplayOne(c: Config)
    requires Wired(c.top) && c.files(0).Some?
    ensures Replay(c, [0]) == WriteAll(c.top, Initial(|c.top.nodes|), c.files(0).value)
  {
    assert [0][..0] == [];
  }

  lemma StaticStep(c: Config, v: World, a: Action, w: World)
    requires Wired(c.top) && StaticInv(c, v) && Enabled(v, a)
    requires Square(v.tables, |c.top.nodes|) && Step(c, v, a) == Next(w)
    ensures StaticInv(c, w)
  {
    assert a.AdvanceClock?;
  }

  /** A static run keeps the tables of time 0. */
  lemma {:induction false} StaticTables(c: Config, w: World, actions: seq<Action>)
    requires Wired(c.top) && c.forceStatic && ReachedBy(c, w, actions)
    ensures StaticInv(c, w)
    decreases |actions|
  {
    if actions == [] {
      StaticStart(c, w);
    } else {
      var a := actions[|actions| - 1];
      var v: World :|
        Fits(c, v) && ReachedBy(c, v, actions[..|actions| - 1]) && Enabled(v, a) && Step(c, v, a) == Next(w);
      StaticTables(c, v, actions[..|actions| - 1]);
      StaticStep(c, v, a, w);
    }
  }

  // ---- the helper object under an event loop ----

  /** The helper is where the run is. */
  ghost predicate Follows(helper: ArbiterSingleForwardHelper, c: Config, w: World)
    reads helper.sim, helper.m_arbiters
  {
    && helper.Valid()
    && Config(helper.top, helper.files, helper.interval, helper.endTime, helper.forceStatic) == c
    && helper.sim.now == w.now && helper.sim.pending == w.pending
    && helper.TablesOf() == w.tables
  }

  /** UpdateForwardingState on the object is the load of the run. */
  method LoadFile(helper: ArbiterSingleForwardHelper, t: nat, ghost c: Config, ghost w: World) returns (ok: bool)
    requires Wired(c.top) && Square(w.tables, |c.top.nodes|) && Follows(helper, c, w)
    modifies helper.m_arbiters, helper.sim`pending
    ensures ok <==> Load(c, w, t).Next?
    ensures ok ==> Follows(helper, c, Load(c, w, t).value)
  {
    var r := helper.UpdateForwardingState(t);
    ok := r.Next?;
  }

  /** The whole constructor: empty tables in every arbiter, and the load of time 0, which may abort. */
  method CreateHelper(c: Config, sim: Simulator<nat>) returns (r: Outcome<ArbiterSingleForwardHelper>)
    requires Wired(c.top) && sim.now == 0 && sim.pending == multiset{}
    modifies sim`pending
    ensures r.Next? <==> Start(c).Next?
    ensures r.Next? ==>
              fresh(r.value) && fresh(r.value.m_arbiters) && r.value.sim == sim && Follows(r.value, c, Start(c).value)
  {
    var helper := new ArbiterSingleForwardHelper(c.top, sim, c.files, c.interval, c.endTime, c.forceStatic);
    var ok := LoadFile(helper, 0, c, World(0, Initial(|c.top.nodes|), multiset{}, []));
    r := if ok then Next(helper) else Abort;
  }

  /** A run of n loads cannot get past one whose file is refused. */
  lemma {:induction false} ReplayAborts(c: Config, k: nat, n: nat)
    requires Wired(c.top) && k <= n && Replay(c, Multiples(c.interval, k)).Abort?
    ensures Replay(c, Multiples(c.interval, n)).Abort?
    decreases n
  {
    if k < n {
      ReplayAborts(c, k, n - 1);
      assert Multiples(c.interval, n)[..n - 1] == Multiples(c.interval, n - 1);
    }
  }

  ghost predicate Reached(c: Config, w: World, actions: seq<Action>)
    requires Wired(c.top)
  {
    ReachedBy(c, w, actions)
  }

  /** The state of the event loop between two events. */
  ghost predicate Resting(c: Config, w: World, actions: seq<Action>)
  {
    && Fits(c, w) && Reached(c, w, actions) && ScheduleInv(c, w)
    && w.now < |w.loaded| * c.interval
  }

  lemma {:induction false} ReachedNext(c: Config, w: World, actions: seq<Action>, a: Action, w': World)
    requires Wired(c.top) && Fits(c, w) && Reached(c, w, actions) && Enabled(w, a) && Step(c, w, a) == Next(w')
    ensures Reached(c, w', actions + [a])
  {
    assert (actions + [a])[..|actions + [a]| - 1] == actions;
  }

  function Taken(w: World, e: (nat, nat)): World
  {
    w.(now := e.0, pending := multiset{})
  }

  /** The pending load is the next one. */
  lemma NextLoadIs(c: Config, w: World, e: (nat, nat))
    requires Wired(c.top) && ScheduleInv(c, w) && e in w.pending
    ensures e == (|w.loaded| * c.interval, |w.loaded| * c.interval) && w.pending == multiset{e} && w.now <= e.0
  {
  }

  lemma {:induction false} WaitIsReached(c: Config, w: World, actions: seq<Action>, t: nat)
    requires Wired(c.top) && Fits(c, w) && Reached(c, w, actions) && w.now <= t
    requires forall e :: e in w.pending ==> t <= e.0
    ensures Reached(c, w.(now := t), actions + [AdvanceClock(t - w.now)])
  {
    ReachedNext(c, w, actions, AdvanceClock(t - w.now), w.(now := t));
  }

  lemma {:induction false} FireIsReached(c: Config, due: World, actions: seq<Action>, e: (nat, nat), w': World)
    requires Wired(c.top) && Fits(c, due) && Reached(c, due, actions)
    requires due.now == e.0 && due.pending == multiset{e}
    requires Load(c, due.(pending := multiset{}), e.1) == Next(w')
    ensures Reached(c, w', actions + [FireLoad(e.1)])
  {
    assert due.pending - multiset{e} == multiset{};
    ReachedNext(c, due, actions, FireLoad(e.1), w');
  }

  lemma {:induction false} TakenIsReached(c: Config, w: World, actions: seq<Action>, e: (nat, nat), w': World)
    requires Wired(c.top) && Fits(c, w) && Reached(c, w, actions) && w.pending == multiset{e} && w.now <= e.0
    requires Load(c, Taken(w, e), e.1) == Next(w')
    ensures Reached(c, w', actions + [AdvanceClock(e.0 - w.now)] + [FireLoad(e.1)])
  {
    WaitIsReached(c, w, actions, e.0);
    FireIsReached(c, w.(now := e.0), actions + [AdvanceClock(e.0 - w.now)], e, w');
  }

  lemma {:induction false} TakenIsScheduled(c: Config, w: World, e: (nat, nat), w': World)
    requires Wired(c.top) && !c.forceStatic && c.interval > 0 && Fits(c, w) && ScheduleInv(c, w) && e in w.pending
    requires Load(c, Taken(w, e), e.1) == Next(w')
    ensures Fits(c, w') && ScheduleInv(c, w') && w'.now == e.0 < |w'.loaded| * c.interval
  {
    NextLoadIs(c, w, e);
    LoadInv(c, Taken(w, e), w');
    assert (|w.loaded| + 1) * c.interval == |w.loaded| * c.interval + c.interval;
  }

  /** The pending load goes through exactly if the replay up to it does, and leaves the loop at rest. */
  lemma {:induction false} LoadStep(c: Config, w: World, actions: seq<Action>, e: (nat, nat))
    requires Wired(c.top) && !c.forceStatic && c.interval > 0 && Resting(c, w, actions) && e in w.pending
    ensures w.now <= e.0
    ensures
      var r := Load(c, Taken(w, e), e.1);
      && (r.Next? <==> Replay(c, Multiples(c.interval, |w.loaded| + 1)).Next?)
      && (r.Next? ==>
          Resting(c, r.value, actions + [AdvanceClock(e.0 - w.now)] + [FireLoad(e.1)]) && r.value.now == e.0)
  {
    NextLoadIs(c, w, e);
    LoadDecides(c, Taken(w, e), |w.loaded|);
    var r := Load(c, Taken(w, e), e.1);
    if r.Next? {
      TakenIsScheduled(c, w, e, r.value);
      TakenIsReached(c, w, actions, e, r.value);
    }
  }

  /** One turn of the event loop: the pending load, at its due time. */
  method FireLoadAt(helper: ArbiterSingleForwardHelper, e: (nat, nat), ghost c: Config,
      ghost w: World) returns (ok: bool)
    requires Wired(c.top) && Fits(c, w) && Follows(helper, c, w) && w.pending == multiset{e} && w.now <= e.0
    modifies helper.m_arbiters, helper.sim
    ensures ok <==> Load(c, Taken(w, e), e.1).Next?
    ensures ok ==> Follows(helper, c, Load(c, Taken(w, e), e.1).value)
  {
    helper.sim.Advance(e.0 - helper.sim.now);
    helper.sim.Take(e.1);
    assert multiset{e} - multiset{e} == multiset{};
    ok := LoadFile(helper, e.1, c, Taken(w, e));
  }

  /** The next load goes through exactly if the replay up to it does. */
  lemma {:induction false} LoadDecides(c: Config, w: World, n: nat)
    requires Fits(c, w) && n == |w.loaded| && w.loaded == Multiples(c.interval, n)
    requires Replay(c, w.loaded) == Next(w.tables)
    ensures Load(c, w, n * c.interval).Next? <==> Replay(c, Multiples(c.interval, n + 1)).Next?
  {
    assert Multiples(c.interval, n + 1)[..n] == w.loaded;
  }

  /** The event loop: the pending loads up to t, one after the other. */
  method RunLoads(helper: ArbiterSingleForwardHelper, t: nat, ghost c: Config, ghost start: World)
    returns (ok: bool, ghost w: World, ghost actions: seq<Action>)
    requires Wired(c.top) && !c.forceStatic && c.interval > 0 && start.now <= t
    requires Follows(helper, c, start) && Resting(c, start, [])
    modifies helper.m_arbiters, helper.sim
    ensures !ok ==> Replay(c, Multiples(c.interval, DueBy(c.interval, t))).Abort?
    ensures ok ==> Follows(helper, c, w) && Resting(c, w, actions) && w.now <= t
    ensures ok ==> forall e :: e in w.pending ==> e.0 > t
  {
    w, actions := start, [];
    while helper.sim.pending != multiset{}
      invariant Follows(helper, c, w) && Resting(c, w, actions) && w.now <= t
      decreases t - w.now, |helper.sim.pending|
    {
      var e :| e in helper.sim.pending;
      NextLoadIs(c, w, e);
      if e.0 > t {
        break;
      }
      LoadStep(c, w, actions, e);
      var loaded := FireLoadAt(helper, e, c, w);
      if !loaded {
        DueByAtLeast(c.interval, |w.loaded|, t);
        ReplayAborts(c, |w.loaded| + 1, DueBy(c.interval, t));
        return false, w, actions;
      }
      actions := actions + [AdvanceClock(e.0 - w.now)] + [FireLoad(e.1)];
      w := Load(c, Taken(w, e), e.1).value;
    }
    ok := true;
  }

  /** A replay goes through if and only if every file of it is good. */
  lemma {:induction false} ReplaySucceedsExactly(c: Config, ts: seq<nat>)
    requires Wired(c.top) && Aligned(c.top)
    ensures Replay(c, ts).Next? <==> forall t :: t in ts ==> GoodFile(c, t)
    decreases |ts|
  {
    if ts != [] {
      var rest, last := ts[..|ts| - 1], ts[|ts| - 1];
      assert ts == rest + [last];
      ReplaySucceedsExactly(c, rest);
      assert forall t :: t in ts <==> t in rest || t == last;
      if Replay(c, rest).Next? {
        LoadSucceedsExactly(c, World(0, Replay(c, rest).value, multiset{}, []), last);
        ReplayNext(c, rest, last);
      }
    }
  }

  /** A replay of one more file, as a load. */
  lemma ReplayNext(c: Config, rest: seq<nat>, last: nat)
    requires Wired(c.top) && Replay(c, rest).Next?
    ensures Replay(c, rest + [last]).Next? <==> Load(c, World(0, Replay(c, rest).value, multiset{}, []), last).Next?
  {
    var ts := rest + [last];
    assert ts != [] && ts[|ts| - 1] == last;
    assert ts[..|ts| - 1] == rest;
  }

  /** The simulator from the start to an instant t before the end: the run aborts exactly if one of the
      files for 0, I, ..., floor(t / I) * I is missing or refused; else the arbiters hold their replay. */
  method SimulateUntil(c: Config, t: nat)
    returns (r: Outcome<ArbiterSingleForwardHelper>, ghost w: World, ghost actions: seq<Action>)
    requires Wired(c.top) && !c.forceStatic && c.interval > 0 && t < c.endTime
    ensures r.Next? <==> Replay(c, Multiples(c.interval, DueBy(c.interval, t))).Next?
    ensures Aligned(c.top) ==>
              (r.Next? <==> forall u :: u in Multiples(c.interval, DueBy(c.interval, t)) ==> GoodFile(c, u))
    ensures r.Next? ==> r.value.Valid() && r.value.top == c.top
    ensures r.Next? ==> Replay(c, Multiples(c.interval, DueBy(c.interval, t))) == Next(r.value.TablesOf())
    ensures r.Next? ==> ReachedBy(c, w, actions) && Follows(r.value, c, w) && w.now == t
  {
    if Aligned(c.top) {
      ReplaySucceedsExactly(c, Multiples(c.interval, DueBy(c.interval, t)));
    }
    var sim := new Simulator<nat>();
    r := CreateHelper(c, sim);
    StartLoads(c);
    w, actions := World(0, Initial(|c.top.nodes|), multiset{}, []), [];
    if r.Abort? {
      ReplayAborts(c, 1, DueBy(c.interval, t));
      return;
    }
    var helper := r.value;
    ReachedInv(c, Start(c).value, []);
    var ok;
    ok, w, actions := RunLoads(helper, t, c, Start(c).value);
    if !ok {
      return Abort, w, actions;
    }
    WaitUntil(c, w, actions, t);
    actions := actions + [AdvanceClock(t - w.now)];
    w := w.(now := t);
    sim.Advance(t - sim.now);
  }

  lemma {:induction false} StartLoads(c: Config)
    requires Wired(c.top)
    ensures Start(c).Next? <==> Replay(c, Multiples(c.interval, 1)).Next?
    ensures Start(c).Next? ==> Start(c).value.now == 0 && |Start(c).value.loaded| == 1
  {
    var empty := World(0, Initial(|c.top.nodes|), multiset{}, []);
    assert Multiples(c.interval, 0) == [];
    assert 0 * c.interval == 0;
    LoadDecides(c, empty, 0);
  }

  /** When the next load is due after t, or never, the tables are those of t. */
  lemma {:induction false} WaitUntil(c: Config, w: World, actions: seq<Action>, t: nat)
    requires Wired(c.top) && !c.forceStatic && c.interval > 0
    requires Fits(c, w) && Reached(c, w, actions) && w.now <= t < c.endTime
    requires forall e :: e in w.pending ==> e.0 > t
    ensures Reached(c, w.(now := t), actions + [AdvanceClock(t - w.now)])
    ensures Replay(c, Multiples(c.interval, DueBy(c.interval, t))) == Next(w.tables)
  {
    WaitIsReached(c, w, actions, t);
    TablesAtEveryInstant(c, w.(now := t), actions + [AdvanceClock(t - w.now)]);
  }

  // ---- the replay of path_truth.py ----

  function DictWrite(fstate: Dict, l: Line): Dict
  {
    fstate[(l.current, l.target) := l.nextHop]
  }

  function DictAll(fstate: Dict, lines: seq<Line>): Dict
  {
    if lines == [] then fstate else DictWrite(DictAll(fstate, lines[..|lines| - 1]), lines[|lines| - 1])
  }

  /** The loop over the lines of one file. */
  method ReplayFile(fstate: Dict, lines: seq<Line>) returns (fstate': Dict)
    ensures fstate' == DictAll(fstate, lines)
  {
    fstate' := fstate;
    for k := 0 to |lines|
      invariant fstate' == DictAll(fstate, lines[..k])
    {
      var l := lines[k];
      fstate' := fstate'[(l.current, l.target) := l.nextHop];
      assert lines[..k + 1][..k] == lines[..k];
    }
    assert lines[..|lines|] == lines;
  }

  /** The dictionary holds exactly the next hops of the entries that are set. */
  ghost predicate SameNextHops(tables: Tables, fstate: Dict, n: nat)
    requires Square(tables, n)
  {
    && (forall i, j :: 0 <= i < n && 0 <= j < n ==>
          if (i, j) in fstate then
              tables[i][j].nextNode == fstate[(i, j)] && tables[i][j] != UNSET && -1 <= fstate[(i, j)] < n
          else tables[i][j] == UNSET)
    && (forall k :: k in fstate ==> 0 <= k.0 < n && 0 <= k.1 < n)
  }

  lemma {:induction false} FileKeepsSame(top: Topology, tables: Tables, fstate: Dict, lines: seq<Line>)
    requires Wired(top) && Square(tables, |top.nodes|) && SameNextHops(tables, fstate, |top.nodes|)
    requires WriteAll(top, tables, lines).Next?
    ensures SameNextHops(WriteAll(top, tables, lines).value, DictAll(fstate, lines), |top.nodes|)
    decreases |lines|
  {
    if lines != [] {
      FileKeepsSame(top, tables, fstate, lines[..|lines| - 1]);
    }
  }

  function DictReplay(files: nat -> Option<seq<Line>>, ts: seq<nat>): Dict
  {
    if ts == [] then map[]
    else
      var before := DictReplay(files, ts[..|ts| - 1]);
      match files(ts[|ts| - 1])
      case None => before
      case Some(lines) => DictAll(before, lines)
  }

  /** The dictionary after the files of all update instants up to now. */
  function DictAt(c: Config, now: nat): Dict
    requires c.interval > 0
  {
    DictReplay(c.files, Multiples(c.interval, DueBy(c.interval, now)))
  }

  /** From the same files, the arbiters' tables and the Python dictionary agree on every next hop. */
  lemma {:induction false} ReplaysAgree(c: Config, ts: seq<nat>)
    requires Wired(c.top) && Replay(c, ts).Next?
    ensures SameNextHops(Replay(c, ts).value, DictReplay(c.files, ts), |c.top.nodes|)
    decreases |ts|
  {
    if ts != [] {
      ReplaysAgree(c, ts[..|ts| - 1]);
      FileKeepsSame(c.top, Replay(c, ts[..|ts| - 1]).value, DictReplay(c.files, ts[..|ts| - 1]),
          c.files(ts[|ts| - 1]).value);
    }
  }

  /** The table invariant also holds along the replay. */
  lemma {:induction false} ReplayIsGood(c: Config, ts: seq<nat>)
    requires Wired(c.top) && Aligned(c.top) && Replay(c, ts).Next?
    ensures GoodTables(c.top, Replay(c, ts).value)
    decreases |ts|
  {
    if ts != [] {
      ReplayIsGood(c, ts[..|ts| - 1]);
      UpdateKeepsTablesGood(c.top, Replay(c, ts[..|ts| - 1]).value, c.files(ts[|ts| - 1]).value);
    }
  }
}
