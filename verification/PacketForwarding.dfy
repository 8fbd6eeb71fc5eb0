/** A packet forwarded hop by hop by the arbiters, compared with the ground-truth walk. */
module PacketForwarding {
  import opened Common
  import opened SatelliteTopology
  import opened ForwardingState
  import opened ForwardingSchedule
  import opened PathTruth

  // ---- addresses ----

  /** Interface 0 of a node is the loopback, and only that one. */
  ghost predicate LoopbackFirst(top: Topology)
  {
    forall e: End :: Exists(top, e) ==> (At(top, e).device.Loopback? <==> e.iface == 0)
  }

  ghost predicate UniqueIps(top: Topology)
  {
    forall e: End, f: End :: Exists(top, e) && Exists(top, f) && e.iface > 0 && f.iface > 0 && e != f ==>
        At(top, e).ip != At(top, f).ip
  }

  /** The shared ARP cache knows the interface e. */
  ghost predicate Cached(top: Topology, arp: map<int, int>, e: End)
    requires Exists(top, e) && !At(top, e).device.Loopback?
  {
    At(top, e).ip in arp && arp[At(top, e).ip] == At(top, e).device.mac
  }

  ghost predicate AllCached(top: Topology, arp: map<int, int>)
    requires LoopbackFirst(top)
  {
    forall e: End :: Exists(top, e) && e.iface > 0 ==> Cached(top, arp, e)
  }

  /** All interfaces of the nodes before i, and those of node i before j, are cached. */
  ghost predicate CachedBefore(top: Topology, arp: map<int, int>, i: nat, j: nat)
    requires LoopbackFirst(top)
  {
    forall e: End :: Exists(top, e) && e.iface > 0 && (e.node < i || (e.node == i && e.iface < j)) ==>
        Cached(top, arp, e)
  }

  /** Nothing but addresses of interfaces is cached. */
  ghost predicate OnlyInterfaces(top: Topology, arp: map<int, int>)
  {
    forall ip :: ip in arp ==> exists e: End :: Exists(top, e) && e.iface > 0 && At(top, e).ip == ip
  }

  lemma CacheOne(top: Topology, arp: map<int, int>, i: nat, j: nat)
    requires LoopbackFirst(top) && UniqueIps(top) && Exists(top, End(i, j)) && j > 0
    requires CachedBefore(top, arp, i, j) && OnlyInterfaces(top, arp)
    ensures
      var added := arp[At(top, End(i, j)).ip := At(top, End(i, j)).device.mac];
      CachedBefore(top, added, i, j + 1) && OnlyInterfaces(top, added)
  {
    var here := End(i, j);
    var added := arp[At(top, here).ip := At(top, here).device.mac];
    forall e: End | Exists(top, e) && e.iface > 0 && (e.node < i || (e.node == i && e.iface < j + 1))
      ensures Cached(top, added, e)
    {
      if e != here {
        assert Cached(top, arp, e) && At(top, e).ip != At(top, here).ip;
      }
    }
  }

  /** One cache for all nodes, filled with every interface but the loopbacks. */
  method PopulateArpCaches(top: Topology) returns (arp: map<int, int>)
    requires LoopbackFirst(top) && UniqueIps(top)
    ensures AllCached(top, arp)
    ensures OnlyInterfaces(top, arp)
  {
    arp := map[];
    for i := 0 to |top.nodes|
      invariant CachedBefore(top, arp, i, 0) && OnlyInterfaces(top, arp)
    {
      var j := 1;
      while j < |top.nodes[i]|
        invariant 1 <= j
        invariant CachedBefore(top, arp, i, j) && OnlyInterfaces(top, arp)
      {
        CacheOne(top, arp, i, j);
        arp := arp[top.nodes[i][j].ip := top.nodes[i][j].device.mac];
        j := j + 1;
      }
    }
  }

  /** The GSL channel finds every GSL device under its own MAC address. */
  ghost predicate Registered(top: Topology, link: map<int, End>)
  {
    forall e: End :: IsGsl(top, e) ==>
      At(top, e).device.mac in link && link[At(top, e).device.mac] == e
  }

  predicate IsGsl(top: Topology, e: End)
  {
    Exists(top, e) && At(top, e).device.Gsl?
  }

  ghost predicate UniqueMacs(top: Topology)
  {
    forall e: End, f: End :: IsGsl(top, e) && IsGsl(top, f) && At(top, e).device.mac == At(top, f).device.mac ==> e == f
  }

  ghost predicate AreGsl(top: Topology, devices: seq<End>)
  {
    forall i :: 0 <= i < |devices| ==> IsGsl(top, devices[i])
  }

  ghost function MacAddress(top: Topology): End -> int
  {
    (e: End) => if IsGsl(top, e) then At(top, e).device.mac else 0
  }

  /** The channel's map after attaching the devices one by one, as GslLink.AttachAll does it. */
  ghost function Attached(top: Topology, devices: seq<End>): map<int, End>
    requires AreGsl(top, devices)
  {
    Registry(map[], devices, MacAddress(top))
  }

  /** With unique MAC addresses, attaching every GSL device registers every one, in any order. */
  lemma AttachedAreRegistered(top: Topology, devices: seq<End>)
    requires AreGsl(top, devices) && UniqueMacs(top)
    requires forall e: End :: IsGsl(top, e) ==> e in devices
    ensures Registered(top, Attached(top, devices))
  {
    forall e: End | IsGsl(top, e)
      ensures At(top, e).device.mac in Attached(top, devices) && Attached(top, devices)[At(top, e).device.mac] == e
    {
      RegistryFinds(map[], devices, MacAddress(top), e);
    }
  }

  /** The network while no table changes. */
  datatype Network = Network(top: Topology, arp: map<int, int>, link: map<int, End>, tables: Tables)

  ghost predicate Ready(net: Network)
  {
    && Wired(net.top) && LoopbackFirst(net.top)
    && AllCached(net.top, net.arp) && Registered(net.top, net.link)
    && Square(net.tables, |net.top.nodes|) && GoodTables(net.top, net.tables)
  }

  // ---- one hop ----

  datatype ArbiterResult = NoRoute | Route(outIf: int, gateway: int)

  /** ArbiterSatnet::Decide on top of the single-forward table of the node. */
  function Decide(net: Network, node: nat, target: nat): Outcome<ArbiterResult>
    requires node < |net.top.nodes| && target < |net.top.nodes|
    requires Square(net.tables, |net.top.nodes|)
  {
    var e := net.tables[node][target];
    if e.nextNode == -2 || e.ownIf == -2 || e.nextIf == -2 then Abort
    else if e.nextNode != -1 then
      if 0 <= e.nextNode < |net.top.nodes| && 0 <= e.nextIf < |net.top.nodes[e.nextNode]|
      then Next(Route(e.ownIf, net.top.nodes[e.nextNode][e.nextIf].ip))
      else Abort
    else Next(NoRoute)
  }

  /** Where a packet handed to the device of an own interface arrives: at the far end of the wire, or at
      the GSL device that the ARP cache and the channel name for the gateway. */
  function Transmit(net: Network, node: nat, outIf: int, gateway: int): Option<End>
    requires Wired(net.top)
  {
    if !(0 <= outIf && Exists(net.top, End(node, outIf))) then None
    else
      match At(net.top, End(node, outIf)).device
      case Isl(_, _) => Some(WirePeer(net.top, End(node, outIf)))
      case Gsl(_) =>
        if gateway in net.arp && net.arp[gateway] in net.link then Some(net.link[net.arp[gateway]]) else None
      case _ => None
  }

  /** A hop: dropped by the arbiter, aborted, or arrived at a device of some node. */
  datatype HopResult = Drop | Stop | Arrive(at: End)

  function HopFrom(net: Network, node: nat, target: nat): HopResult
    requires Wired(net.top) && Square(net.tables, |net.top.nodes|)
    requires node < |net.top.nodes| && target < |net.top.nodes|
  {
    match Decide(net, node, target)
    case Abort => Stop
    case Next(NoRoute) => Drop
    case Next(Route(outIf, gateway)) =>
      match Transmit(net, node, outIf, gateway)
      case None => Stop
      case Some(e) => Arrive(e)
  }

  /** Whatever the links in between, a packet arrives on exactly the stored interface of the stored next
      node; it is dropped exactly on a stored drop, and aborts exactly on an unset entry. */
  lemma HopFollowsTable(net: Network, node: nat, target: nat)
    requires Ready(net) && node < |net.top.nodes| && target < |net.top.nodes|
    ensures
      var e := net.tables[node][target];
      match HopFrom(net, node, target)
      case Drop => e == DROP
      case Stop => e == UNSET
      case Arrive(at) => e.nextNode >= 0 && at.node == e.nextNode && at.iface == e.nextIf && Exists(net.top, at)
  {
    var e := net.tables[node][target];
    assert GoodEntry(net.top, node, e);
    if e != UNSET && e != DROP {
      var own, there := End(node, e.ownIf), End(e.nextNode, e.nextIf);
      assert Exists(net.top, own) && Exists(net.top, there);
      assert Cached(net.top, net.arp, there);
    }
  }

  /** The gateway that the arbiter names is the address of the interface where the packet arrives, and the own
      interface is one of the node, on the same kind of link. */
  lemma GatewayIsNextInterface(net: Network, node: nat, target: nat)
    requires Ready(net) && node < |net.top.nodes| && target < |net.top.nodes|
    requires Decide(net, node, target).Next? && Decide(net, node, target).value.Route?
    ensures
      var route := Decide(net, node, target).value;
      var h := HopFrom(net, node, target);
      && h.Arrive? && Exists(net.top, h.at) && At(net.top, h.at).ip == route.gateway
      && 0 < route.outIf && Exists(net.top, End(node, route.outIf))
      && (At(net.top, End(node, route.outIf)).device.Gsl? <==> At(net.top, h.at).device.Gsl?)
  {
    HopFollowsTable(net, node, target);
    assert GoodEntry(net.top, node, net.tables[node][target]);
  }

  // ---- the whole way ----

  /** What becomes of a packet within a number of hops, with the nodes it visited. */
  datatype Fate =
    | Delivered(path: seq<int>)
    | Dropped(path: seq<int>)
    | Aborted(path: seq<int>)
    | Underway(path: seq<int>)

  /** The packet is at the last node of path, where its next hop is asked for. */
  function Follow(hop: int -> HopResult, target: int, path: seq<int>, hops: nat): Fate
    requires path != []
    decreases hops
  {
    if hops == 0 then Underway(path)
    else
      match hop(path[|path| - 1])
      case Drop => Dropped(path)
      case Stop => Aborted(path)
      case Arrive(at) =>
        if at.node == target then Delivered(path + [at.node])
        else Follow(hop, target, path + [at.node], hops - 1)
  }

  function Hops(net: Network, target: nat): int -> HopResult
    requires Wired(net.top) && Square(net.tables, |net.top.nodes|) && target < |net.top.nodes|
  {
    (node: int) => if 0 <= node < |net.top.nodes| then HopFrom(net, node, target) else Stop
  }

  /** The source always consults its arbiter; every later node delivers locally if it is the target. */
  function Journey(net: Network, target: nat, path: seq<int>, hops: nat): Fate
    requires Wired(net.top) && Square(net.tables, |net.top.nodes|) && target < |net.top.nodes|
    requires path != []
  {
    Follow(Hops(net, target), target, path, hops)
  }

  /** The trajectory ends, short of the target, at a stored -1. */
  ghost predicate DropsAt(fstate: Dict, source: int, target: int, path: seq<int>)
  {
    && IsTrajectory(fstate, source, target, path) && path[|path| - 1] != target
    && (path[|path| - 1], target) in fstate && fstate[(path[|path| - 1], target)] == -1
  }

  /** The trajectory ends, short of the target, at a missing entry. */
  ghost predicate MissesAt(fstate: Dict, source: int, target: int, path: seq<int>)
  {
    && IsTrajectory(fstate, source, target, path) && path[|path| - 1] != target
    && (path[|path| - 1], target) !in fstate
  }

  /** The fate of a packet in terms of the dictionary of the ground truth. */
  ghost predicate Matches(fstate: Dict, source: int, target: int, hops: nat, fate: Fate)
  {
    match fate
    case Delivered(path) => Reaches(fstate, source, target, path) && |path| <= hops + 1
    case Dropped(path) => DropsAt(fstate, source, target, path) && |path| <= hops
    case Aborted(path) => MissesAt(fstate, source, target, path) && |path| <= hops
    case Underway(path) =>
      && IsTrajectory(fstate, source, target, path) && path[|path| - 1] != target && |path| == hops + 1
  }

  /** The fate is that of the trajectory t exactly if t ends in that way within the hops. */
  ghost predicate SameFate(fstate: Dict, source: int, target: int, hops: nat, fate: Fate, t: seq<int>)
  {
    && (fate == Delivered(t) <==> Reaches(fstate, source, target, t) && |t| <= hops + 1)
    && (fate == Dropped(t) <==> DropsAt(fstate, source, target, t) && |t| <= hops)
    && (fate == Aborted(t) <==> MissesAt(fstate, source, target, t) && |t| <= hops)
  }

  /** One hop, in terms of the dictionary. */
  ghost predicate HopAgrees(fstate: Dict, n: nat, target: int, node: int, h: HopResult)
  {
    match h
    case Drop => (node, target) in fstate && fstate[(node, target)] == -1
    case Stop => (node, target) !in fstate
    case Arrive(at) => (node, target) in fstate && fstate[(node, target)] == at.node < n
  }

  lemma HopsAgree(net: Network, fstate: Dict, target: nat, node: int)
    requires Ready(net) && SameNextHops(net.tables, fstate, |net.top.nodes|)
    requires target < |net.top.nodes| && 0 <= node < |net.top.nodes|
    ensures HopAgrees(fstate, |net.top.nodes|, target, node, Hops(net, target)(node))
  {
    HopFollowsTable(net, node, target);
  }

  lemma {:induction false} FollowMatches(hop: int -> HopResult, fstate: Dict, n: nat, source: int, target: int,
      path: seq<int>, hops: nat)
    requires forall node :: 0 <= node < n ==> HopAgrees(fstate, n, target, node, hop(node))
    requires IsTrajectory(fstate, source, target, path)
    requires 0 <= path[|path| - 1] < n && path[|path| - 1] != target
    ensures Matches(fstate, source, target, |path| - 1 + hops, Follow(hop, target, path, hops))
    decreases hops
  {
    if hops > 0 {
      var node := path[|path| - 1];
      assert HopAgrees(fstate, n, target, node, hop(node));
      match hop(node)
      case Drop =>
      case Stop =>
      case Arrive(at) =>
        TrajectoryExtends(fstate, source, target, path, at.node);
        if at.node != target {
          FollowMatches(hop, fstate, n, source, target, path + [at.node], hops - 1);
        }
    }
  }

  lemma JourneyMatches(net: Network, fstate: Dict, source: nat, target: nat, path: seq<int>, hops: nat)
    requires Ready(net) && SameNextHops(net.tables, fstate, |net.top.nodes|)
    requires target < |net.top.nodes|
    requires IsTrajectory(fstate, source, target, path)
    requires 0 <= path[|path| - 1] < |net.top.nodes| && path[|path| - 1] != target
    ensures Matches(fstate, source, target, |path| - 1 + hops, Journey(net, target, path, hops))
  {
    forall node | 0 <= node < |net.top.nodes|
      ensures HopAgrees(fstate, |net.top.nodes|, target, node, Hops(net, target)(node))
    {
      HopsAgree(net, fstate, target, node);
    }
    FollowMatches(Hops(net, target), fstate, |net.top.nodes|, source, target, path, hops);
  }

  /** Only one fate fits the dictionary. */
  lemma FateIsExact(fstate: Dict, source: int, target: int, hops: nat, fate: Fate, t: seq<int>)
    requires Matches(fstate, source, target, hops, fate)
    ensures SameFate(fstate, source, target, hops, fate, t)
  {
    if IsTrajectory(fstate, source, target, t) {
      if |t| < |fate.path| {
        ShorterGoesOn(fstate, source, target, t, fate.path);
      } else if |fate.path| < |t| {
        ShorterGoesOn(fstate, source, target, fate.path, t);
      } else {
        TrajectoriesAgree(fstate, source, target, t, fate.path);
        assert t == fate.path;
      }
    }
  }

  /** From the same files: the packet visits exactly the nodes that walk returns, in that order; it is
      dropped by an arbiter exactly where its trajectory meets a stored -1, and aborts the program exactly
      where it meets a missing entry, within 200 hops; else it is still under way. */
  lemma {:induction false} ForwardingFollowsWalk(c: Config, net: Network, ts: seq<nat>, source: nat, target: nat,
      r: Option<seq<int>>)
    requires Wired(c.top) && Aligned(c.top) && net.top == c.top
    requires LoopbackFirst(c.top) && AllCached(c.top, net.arp) && Registered(c.top, net.link)
    requires Replay(c, ts) == Next(net.tables)
    requires source < |c.top.nodes| && target < |c.top.nodes| && source != target
    requires WalkResult(DictReplay(c.files, ts), source, target, PATH_TRUTH_BOUND, r)
    ensures
      var fate := Journey(net, target, [source], PATH_TRUTH_BOUND);
      && Matches(DictReplay(c.files, ts), source, target, PATH_TRUTH_BOUND, fate)
      && (forall t :: SameFate(DictReplay(c.files, ts), source, target, PATH_TRUTH_BOUND, fate, t))
      && (r.Some? ==> fate == Delivered(r.value))
      && (r.None? ==> !fate.Delivered?)
  {
    ReplaysAgree(c, ts);
    ReplayIsGood(c, ts);
    var fstate := DictReplay(c.files, ts);
    JourneyMatches(net, fstate, source, target, [source], PATH_TRUTH_BOUND);
    var fate := Journey(net, target, [source], PATH_TRUTH_BOUND);
    forall t
      ensures SameFate(fstate, source, target, PATH_TRUTH_BOUND, fate, t)
    {
      FateIsExact(fstate, source, target, PATH_TRUTH_BOUND, fate, t);
    }
    if r.Some? {
      assert SameFate(fstate, source, target, PATH_TRUTH_BOUND, fate, r.value);
    }
  }

  // ---- a packet for the node that sends it ----

  /** A delivered packet has made at least one hop. */
  lemma {:induction false} DeliveryTakesAHop(hop: int -> HopResult, target: int, path: seq<int>, hops: nat)
    requires path != []
    ensures Follow(hop, target, path, hops).Delivered? ==> |Follow(hop, target, path, hops).path| > |path|
    decreases hops
  {
    if hops > 0 {
      match hop(path[|path| - 1])
      case Drop =>
      case Stop =>
      case Arrive(at) =>
        if at.node != target {
          DeliveryTakesAHop(hop, target, path + [at.node], hops - 1);
        }
    }
  }

  /** To walk a node has reached itself, but its arbiter is asked nevertheless: the packet is dropped or
      aborts by the node's own entry for itself, or leaves the node. */
  lemma SelfPacketDiffers(net: Network, fstate: Dict, a: nat, bound: nat, r: Option<seq<int>>)
    requires Ready(net) && SameNextHops(net.tables, fstate, |net.top.nodes|) && a < |net.top.nodes|
    requires WalkResult(fstate, a, a, bound, r)
    ensures r == Some([a])
    ensures
      var fate := Journey(net, a, [a], bound);
      && fate != Delivered([a])
      && (bound > 0 && (a, a) !in fstate ==> fate == Aborted([a]))
      && (bound > 0 && (a, a) in fstate && fstate[(a, a)] == -1 ==> fate == Dropped([a]))
  {
    assert Reaches(fstate, a, a, [a]);
    if r.Some? {
      PathIsUnique(fstate, a, a, r.value, [a]);
    }
    DeliveryTakesAHop(Hops(net, a), a, [a], bound);
    HopsAgree(net, fstate, a, a);
  }

  /** The exact condition: wherever walk returns a path, the packet takes it if and only if it is not for
      the node that sends it. */
  lemma {:induction false} ForwardingAgreesExactly(c: Config, net: Network, ts: seq<nat>, source: nat, target: nat,
      r: Option<seq<int>>)
    requires Wired(c.top) && Aligned(c.top) && net.top == c.top
    requires LoopbackFirst(c.top) && AllCached(c.top, net.arp) && Registered(c.top, net.link)
    requires Replay(c, ts) == Next(net.tables)
    requires source < |c.top.nodes| && target < |c.top.nodes|
    requires WalkResult(DictReplay(c.files, ts), source, target, PATH_TRUTH_BOUND, r)
    ensures r.Some? ==> (Journey(net, target, [source], PATH_TRUTH_BOUND) == Delivered(r.value) <==> source != target)
  {
    if source != target {
      ForwardingFollowsWalk(c, net, ts, source, target, r);
    } else {
      ReplaysAgree(c, ts);
      ReplayIsGood(c, ts);
      SelfPacketDiffers(net, DictReplay(c.files, ts), source, PATH_TRUTH_BOUND, r);
    }
  }

  /** At every instant of every run that is not static: a packet sent then, while the tables do not
      change, follows the walk over the dictionary that path_truth.py builds from the files for 0, I, ...,
      floor(now / I) * I. Addresses are unique, and all GSL devices were attached to the channel. */
  lemma {:induction false} PacketsFollowWalkAtEveryInstant(c: Config, w: World, actions: seq<Action>,
      arp: map<int, int>, devices: seq<End>, source: nat, target: nat, r: Option<seq<int>>)
    requires Wired(c.top) && Aligned(c.top) && LoopbackFirst(c.top) && AllCached(c.top, arp)
    requires UniqueMacs(c.top) && AreGsl(c.top, devices)
    requires forall e: End :: IsGsl(c.top, e) ==> e in devices
    requires !c.forceStatic && c.interval > 0 && ReachedBy(c, w, actions)
    requires w.now < c.endTime && forall e :: e in w.pending ==> e.0 != w.now
    requires source < |c.top.nodes| && target < |c.top.nodes| && source != target
    requires WalkResult(DictAt(c, w.now), source, target, PATH_TRUTH_BOUND, r)
    ensures Square(w.tables, |c.top.nodes|)
    ensures
      var fate := Journey(Network(c.top, arp, Attached(c.top, devices), w.tables), target, [source], PATH_TRUTH_BOUND);
      && Matches(DictAt(c, w.now), source, target, PATH_TRUTH_BOUND, fate)
      && (forall t :: SameFate(DictAt(c, w.now), source, target, PATH_TRUTH_BOUND, fate, t))
      && (r.Some? ==> fate == Delivered(r.value))
      && (r.None? ==> !fate.Delivered?)
  {
    TablesAtEveryInstant(c, w, actions);
    AttachedAreRegistered(c.top, devices);
    ForwardingFollowsWalk(c, Network(c.top, arp, Attached(c.top, devices), w.tables), w.loaded, source, target, r);
  }
}
