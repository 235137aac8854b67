// Building track: Track.java, with the platform hubs of stations and the depot.
module Track {
  import opened Common
  import opened Graph

  /** The platform length every station uses for now, that of LRT-1 (m). */
  const LRT_1_PLATFORM_LENGTH: int := 106
  /** The length of the depot's platform; arbitrary, as the depot only spawns and removes trains (m). */
  const DEPOT_PLATFORM_LENGTH: int := 100

  /** The two platforms of a station, one per direction, each given by its hub. */
  datatype Platforms = Platforms(northbound: PlatformHub, southbound: PlatformHub)

  function Platform(p: Platforms, d: Direction): PlatformHub
  {
    match d
    case Northbound => p.northbound
    case Southbound => p.southbound
  }

  /** The direction opposite to `d`. */
  function Opposite(d: Direction): (r: Direction)
    ensures r != d
  {
    match d
    case Northbound => Southbound
    case Southbound => Northbound
  }

  /** Whether a hub's junctions and segment exist in `t`. */
  predicate HubIn(t: Topology, h: PlatformHub)
  {
    h.inConnector < |t.junctions| && h.outConnector < |t.junctions| && h.platformSegment < |t.segments|
  }

  predicate PlatformsIn(t: Topology, p: Platforms)
  {
    HubIn(t, p.northbound) && HubIn(t, p.southbound)
  }

  /**
   * One segment of `length` appended, and no junction: the existing junction `from` gets it
   * as its last out-segment, and it leads into junction `to`.
   */
  function Link(t: Topology, from: nat, length: int, to: nat): (r: Topology)
    requires from < |t.junctions|
    ensures |r.segments| == |t.segments| + 1 && |r.junctions| == |t.junctions|
    ensures r.segments[|t.segments|] == FreshSegment(length).(to := Some(to))
    ensures r.junctions[from].outSegments == t.junctions[from].outSegments + [|t.segments|]
  {
    ConnectTopology(AddSegment(t, length), from, |t.segments|, to)
  }

  /**
   * A new platform hub: an in-connector, a platform segment of `length` and an out-connector,
   * created in that order, the segment leading from the first junction into the second.
   */
  function Hub(t: Topology, length: int): (r: (Topology, PlatformHub))
    ensures r.1 == PlatformHub(|t.junctions|, |t.segments|, |t.junctions| + 1)
    ensures HubIn(r.0, r.1) && |r.0.junctions| == |t.junctions| + 2 && |r.0.segments| == |t.segments| + 1
  {
    var hub := PlatformHub(|t.junctions|, |t.segments|, |t.junctions| + 1);
    (Topology(t.segments + [FreshSegment(length).(to := Some(hub.outConnector))],
              t.junctions + [Junction(false, [hub.platformSegment]), Junction(false, [])]),
     hub)
  }

  /** Creating the junction, the segment and the junction one by one and connecting them builds the hub. */
  lemma HubConnected(t: Topology, length: int)
    ensures var inConnector := |t.junctions|;
            var created := AddJunction(AddSegment(AddJunction(t, []), length), []);
            ConnectTopology(created, inConnector, |t.segments|, inConnector + 1) == Hub(t, length).0
  {
    var inConnector := |t.junctions|;
    var created := AddJunction(AddSegment(AddJunction(t, []), length), []);
    var r := ConnectTopology(created, inConnector, |t.segments|, inConnector + 1);
    var junctions := t.junctions + [Junction(false, [|t.segments|]), Junction(false, [])];
    assert r.junctions == junctions by {
      forall i | 0 <= i < |junctions|
        ensures r.junctions[i] == junctions[i]
      {
        if i < inConnector {
          assert created.junctions[i] == t.junctions[i];
        }
      }
    }
  }

  /**
   * Two stations joined: a segment of `distance` from the northbound out-connector of the
   * earlier station to the northbound in-connector of the later one, then one of the same
   * length from the later station's southbound out-connector to the earlier one's southbound
   * in-connector.
   */
  function Stations(t: Topology, previous: Platforms, next: Platforms, distance: int): (r: Topology)
    requires PlatformsIn(t, previous) && PlatformsIn(t, next)
    ensures |r.junctions| == |t.junctions| && |r.segments| == |t.segments| + 2
  {
    var northbound := Link(t, previous.northbound.outConnector, distance, next.northbound.inConnector);
    Link(northbound, next.southbound.outConnector, distance, previous.southbound.inConnector)
  }

  /**
   * The depot joined to the line: two spurs of `length`, one from `outJunction` into the depot
   * hub and one from the depot hub back to `inJunction`; both are created before either is
   * connected.
   */
  function Depot(t: Topology, depot: PlatformHub, inJunction: nat, outJunction: nat, length: int): (r: Topology)
    requires HubIn(t, depot) && inJunction < |t.junctions| && outJunction < |t.junctions|
    ensures |r.junctions| == |t.junctions| && |r.segments| == |t.segments| + 2
  {
    var n := |t.segments|;
    var created := AddSegment(AddSegment(t, length), length);
    ConnectTopology(ConnectTopology(created, outJunction, n, depot.inConnector), depot.outConnector, n + 1, inJunction)
  }

  /**
   * A loop at the end of the line: a new end junction and two segments of `length`, from the
   * `out` junction into the end junction and from the end junction to the `into` junction.
   */
  function Loop(t: Topology, out: nat, into: nat, length: int): (r: Topology)
    requires out < |t.junctions| && into < |t.junctions|
    ensures |r.junctions| == |t.junctions| + 1 && |r.segments| == |t.segments| + 2
  {
    var end := |t.junctions|;
    var n := |t.segments|;
    var created := AddSegment(AddSegment(t.(junctions := t.junctions + [Junction(true, [])]), length), length);
    ConnectTopology(ConnectTopology(created, out, n, end), end, n + 1, into)
  }

  /** The northern loop of a station: from its northbound out-connector to its southbound in-connector. */
  function NorthLoop(t: Topology, station: Platforms, length: int): (r: Topology)
    requires PlatformsIn(t, station)
  {
    Loop(t, station.northbound.outConnector, station.southbound.inConnector, length)
  }

  /** The southern loop of a station: from its southbound out-connector to its northbound in-connector. */
  function SouthLoop(t: Topology, station: Platforms, length: int): (r: Topology)
    requires PlatformsIn(t, station)
  {
    Loop(t, station.southbound.outConnector, station.northbound.inConnector, length)
  }

  /**
   * What a loop does to `t`: the `out` junction gets one more out-segment, a new end junction
   * and two segments of `length` are appended (into the end junction, then out of it into
   * `into`), and nothing else changes.
   */
  predicate LoopFrame(t: Topology, r: Topology, out: nat, into: nat, length: int)
  {
    var n := |t.segments|;
    out < |t.junctions| && |r.junctions| == |t.junctions| + 1 && |r.segments| == n + 2 &&
    r.junctions[out] == t.junctions[out].(outSegments := t.junctions[out].outSegments + [n]) &&
    r.junctions[|t.junctions|] == Junction(true, [n + 1]) &&
    r.segments[n] == FreshSegment(length).(to := Some(|t.junctions|)) &&
    r.segments[n + 1] == FreshSegment(length).(to := Some(into)) &&
    (forall j :: 0 <= j < |t.junctions| && j != out ==> r.junctions[j] == t.junctions[j]) &&
    (forall s :: 0 <= s < n ==> r.segments[s] == t.segments[s])
  }

  lemma LoopShape(t: Topology, out: nat, into: nat, length: int)
    requires out < |t.junctions| && into < |t.junctions|
    ensures LoopFrame(t, Loop(t, out, into, length), out, into, length)
  {
  }

  /**
   * What joining two stations does to `t`: two segments of `distance` are appended, the
   * first leaving `previousOut` for `nextIn`, the second leaving `nextOut` for `previousIn`,
   * and nothing else changes.
   */
  predicate StationsFrame(t: Topology, r: Topology, previousOut: nat, nextIn: nat, nextOut: nat, previousIn: nat,
                          distance: int)
  {
    var n := |t.segments|;
    previousOut < |t.junctions| && nextOut < |t.junctions| && previousOut != nextOut &&
    |r.junctions| == |t.junctions| && |r.segments| == n + 2 &&
    r.junctions[previousOut] == t.junctions[previousOut].(outSegments := t.junctions[previousOut].outSegments + [n]) &&
    r.junctions[nextOut] == t.junctions[nextOut].(outSegments := t.junctions[nextOut].outSegments + [n + 1]) &&
    r.segments[n] == FreshSegment(distance).(to := Some(nextIn)) &&
    r.segments[n + 1] == FreshSegment(distance).(to := Some(previousIn)) &&
    (forall j :: 0 <= j < |t.junctions| && j != previousOut && j != nextOut ==> r.junctions[j] == t.junctions[j]) &&
    (forall s :: 0 <= s < n ==> r.segments[s] == t.segments[s])
  }

  lemma StationsShape(t: Topology, previous: Platforms, next: Platforms, distance: int)
    requires PlatformsIn(t, previous) && PlatformsIn(t, next)
    requires previous.northbound.outConnector != next.southbound.outConnector
    ensures StationsFrame(t, Stations(t, previous, next, distance), previous.northbound.outConnector,
                          next.northbound.inConnector, next.southbound.outConnector, previous.southbound.inConnector,
                          distance)
  {
  }

  /**
   * What joining the depot does to `t`: two spurs of `length` are appended, the first
   * leaving `outJunction` for the depot's in-connector, the second leaving the depot's
   * out-connector for `inJunction`, and nothing else changes.
   */
  predicate DepotFrame(t: Topology, r: Topology, depot: PlatformHub, inJunction: nat, outJunction: nat, length: int)
  {
    var n := |t.segments|;
    var depotOut := depot.outConnector;
    outJunction < |t.junctions| && depotOut < |t.junctions| && outJunction != depotOut &&
    |r.junctions| == |t.junctions| && |r.segments| == n + 2 &&
    r.junctions[outJunction] == t.junctions[outJunction].(outSegments := t.junctions[outJunction].outSegments + [n]) &&
    r.junctions[depotOut] == t.junctions[depotOut].(outSegments := t.junctions[depotOut].outSegments + [n + 1]) &&
    r.segments[n] == FreshSegment(length).(to := Some(depot.inConnector)) &&
    r.segments[n + 1] == FreshSegment(length).(to := Some(inJunction)) &&
    (forall j :: 0 <= j < |t.junctions| && j != outJunction && j != depotOut ==> r.junctions[j] == t.junctions[j]) &&
    (forall s :: 0 <= s < n ==> r.segments[s] == t.segments[s])
  }

  lemma DepotShape(t: Topology, depot: PlatformHub, inJunction: nat, outJunction: nat, length: int)
    requires HubIn(t, depot) && inJunction < |t.junctions| && outJunction < |t.junctions|
    requires outJunction != depot.outConnector
    ensures DepotFrame(t, Depot(t, depot, inJunction, outJunction, length), depot, inJunction, outJunction, length)
  {
  }

  /** Creates a platform hub of the given length in the network; every new signal holds one permit. */
  method NewPlatformHub(net: Network, length: int) returns (hub: PlatformHub)
    requires net.Valid()
    modifies net`segments, net`junctions, net`signals, net`queues
    ensures net.Valid()
    ensures (net.Topo(), hub) == Hub(old(net.Topo()), length)
    ensures net.signals == old(net.signals) + [1, 1] && net.queues == old(net.queues) + [[]]
  {
    var inConnector := net.NewJunction();
    var platformSegment := net.NewSegment(length);
    var outConnector := net.NewJunction();
    net.Connect(inConnector, platformSegment, outConnector);
    hub := PlatformHub(inConnector, platformSegment, outConnector);
    HubConnected(old(net.Topo()), length);
  }

  /** Joins two stations with one segment of `distance` per direction. */
  method ConnectStations(net: Network, previous: Platforms, next: Platforms, distance: int)
    requires net.Valid() && PlatformsIn(net.Topo(), previous) && PlatformsIn(net.Topo(), next)
    modifies net`segments, net`junctions, net`queues
    ensures net.Valid()
    ensures net.Topo() == Stations(old(net.Topo()), previous, next, distance)
    ensures net.queues == old(net.queues) + [[], []] && net.signals == old(net.signals)
  {
    var segmentNB := net.NewSegment(distance);
    net.Connect(previous.northbound.outConnector, segmentNB, next.northbound.inConnector);
    var segmentSB := net.NewSegment(distance);
    net.Connect(next.southbound.outConnector, segmentSB, previous.southbound.inConnector);
  }

  /** Joins the depot hub to the line between `inJunction` and `outJunction`. */
  method ConnectDepot(net: Network, depot: PlatformHub, inJunction: nat, outJunction: nat, length: int)
    requires net.Valid() && HubIn(net.Topo(), depot)
    requires inJunction < |net.junctions| && outJunction < |net.junctions|
    modifies net`segments, net`junctions, net`queues
    ensures net.Valid()
    ensures net.Topo() == Depot(old(net.Topo()), depot, inJunction, outJunction, length)
    ensures net.queues == old(net.queues) + [[], []] && net.signals == old(net.signals)
  {
    var segmentIn := net.NewSegment(length);
    var segmentOut := net.NewSegment(length);
    net.Connect(outJunction, segmentIn, depot.inConnector);
    net.Connect(depot.outConnector, segmentOut, inJunction);
  }

  /** Closes the line with an end junction and two segments from `out` to `into`. */
  method FormLoop(net: Network, out: nat, into: nat, length: int)
    requires net.Valid() && out < |net.junctions| && into < |net.junctions|
    modifies net`segments, net`junctions, net`signals, net`queues
    ensures net.Valid()
    ensures net.Topo() == Loop(old(net.Topo()), out, into, length)
    ensures net.signals == old(net.signals) + [1] && net.queues == old(net.queues) + [[], []]
  {
    var endJunction := net.NewJunction();
    net.SetEnd(endJunction, true);
    var loopSegmentOut := net.NewSegment(length);
    var loopSegmentIn := net.NewSegment(length);
    net.Connect(out, loopSegmentOut, endJunction);
    net.Connect(endJunction, loopSegmentIn, into);
  }

  /** The northern loop at a station. */
  method FormNorthLoop(net: Network, station: Platforms, length: int)
    requires net.Valid() && PlatformsIn(net.Topo(), station)
    modifies net`segments, net`junctions, net`signals, net`queues
    ensures net.Valid()
    ensures net.Topo() == NorthLoop(old(net.Topo()), station, length)
    ensures net.signals == old(net.signals) + [1] && net.queues == old(net.queues) + [[], []]
  {
    FormLoop(net, station.northbound.outConnector, station.southbound.inConnector, length);
  }

  /** The southern loop at a station. */
  method FormSouthLoop(net: Network, station: Platforms, length: int)
    requires net.Valid() && PlatformsIn(net.Topo(), station)
    modifies net`segments, net`junctions, net`signals, net`queues
    ensures net.Valid()
    ensures net.Topo() == SouthLoop(old(net.Topo()), station, length)
    ensures net.signals == old(net.signals) + [1] && net.queues == old(net.queues) + [[], []]
  {
    FormLoop(net, station.southbound.outConnector, station.northbound.inConnector, length);
  }
}
