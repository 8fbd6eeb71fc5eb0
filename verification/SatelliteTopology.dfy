/** Nodes, their IPv4 interfaces, and the laser channels between them. */
module SatelliteTopology {

  datatype Device =
    | Loopback
    | Gsl(mac: int)
    | Isl(mac: int, channel: nat)
    | Unsupported(mac: int)

  /** An IPv4 interface: its network device, that device's own index, and its one address. */
  datatype Interface = Interface(device: Device, ifIndex: nat, ip: int)

  /** A device, named by its node and by its IPv4 interface there. */
  datatype End = End(node: nat, iface: nat)

  /** nodes[i] lists the interfaces of node i, the loopback first; channels[c] are the two devices
      attached to laser channel c, in the order of attachment. */
  datatype Topology = Topology(nodes: seq<seq<Interface>>, channels: seq<(End, End)>)

  predicate Exists(top: Topology, e: End)
  {
    e.node < |top.nodes| && e.iface < |top.nodes[e.node]|
  }

  function At(top: Topology, e: End): Interface
    requires Exists(top, e)
  {
    top.nodes[e.node][e.iface]
  }

  /** Every laser device sits on a channel of which it is one of the two ends. */
  ghost predicate Wired(top: Topology)
  {
    && (forall e: End :: Exists(top, e) && At(top, e).device.Isl? ==>
          var c := At(top, e).device.channel;
          c < |top.channels| && (top.channels[c].0 == e || top.channels[c].1 == e))
    && (forall c :: 0 <= c < |top.channels| ==>
          Exists(top, top.channels[c].0) && Exists(top, top.channels[c].1))
  }

  /** What the ISL checks rely on: no link from a node to itself, and device indices that coincide with
      interface indices. */
  ghost predicate Aligned(top: Topology)
  {
    && (forall c :: 0 <= c < |top.channels| ==> top.channels[c].0.node != top.channels[c].1.node)
    && (forall e: End :: Exists(top, e) ==> At(top, e).ifIndex == e.iface)
  }

  /** The far end of the wire a laser device transmits on: the channel compares devices. */
  function WirePeer(top: Topology, e: End): End
    requires Wired(top) && Exists(top, e) && At(top, e).device.Isl?
  {
    var c := top.channels[At(top, e).device.channel];
    if e == c.0 then c.1 else c.0
  }

  /** The device the update checks take to be at the far end: they compare node identifiers. */
  function OtherDevice(top: Topology, e: End): End
    requires Wired(top) && Exists(top, e) && At(top, e).device.Isl?
  {
    var c := top.channels[At(top, e).device.channel];
    if c.0.node == e.node then c.1 else c.0
  }

  /** The wire of a channel leads from either end to the other. */
  lemma WireConnects(top: Topology, c: nat)
    requires Wired(top) && Aligned(top) && c < |top.channels|
    requires At(top, top.channels[c].0).device.Isl? && At(top, top.channels[c].0).device.channel == c
    requires At(top, top.channels[c].1).device.Isl? && At(top, top.channels[c].1).device.channel == c
    ensures WirePeer(top, top.channels[c].0) == top.channels[c].1
    ensures WirePeer(top, top.channels[c].1) == top.channels[c].0
    ensures OtherDevice(top, top.channels[c].0) == top.channels[c].1
    ensures OtherDevice(top, top.channels[c].1) == top.channels[c].0
  {
  }
}
