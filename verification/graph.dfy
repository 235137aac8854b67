// The track graph: Segment.java, Junction.java and the occupancy state they carry.
module Graph {
  import opened Common
  import opened Carriages

  /** The two directions of travel of a line. */
  datatype Direction = Northbound | Southbound

  /** The parts of a platform hub: a junction, the platform segment and a junction (arena indices). */
  datatype PlatformHub = PlatformHub(inConnector: nat, platformSegment: nat, outConnector: nat)

  /** A junction: whether it is the end of the line, and the segments leaving it, in order. */
  datatype Junction = Junction(end: bool, outSegments: seq<nat>)

  /**
   * A segment of track. `to` is the junction it leads into, `station` the index of the station
   * owning it within its train system, `depot` whether it is the platform of the depot.
   */
  datatype Segment = Segment(
    length: int,
    name: Option<string>,
    curved: bool,
    to: Option<nat>,
    station: Option<nat>,
    platformHub: Option<PlatformHub>,
    direction: Option<Direction>,
    depot: bool)

  /** Where a carriage is: the segment and the distance it has cleared on it. */
  datatype Location = Location(segment: nat, clearance: real)

  /** The static part of the graph: segments and junctions, indexed by arena position. */
  datatype Topology = Topology(segments: seq<Segment>, junctions: seq<Junction>)

  /**
   * The part of the graph that changes while trains run: the carriage queue of every segment
   * (front = the carriage that leaves first), the free permits of every junction's signal,
   * and the location of every placed carriage (an absent key is a location never set).
   */
  datatype Occupancy = Occupancy(
    queues: seq<seq<TrainCarriage>>,
    signals: seq<int>,
    locations: map<TrainCarriage, Location>)

  /** A segment as a fresh `Segment` object holds it: only its length, not curved, nothing else set. */
  function FreshSegment(length: int): (r: Segment)
    ensures r.length == length && !r.curved && !r.depot
    ensures r.to.None? && r.station.None? && r.platformHub.None? && r.name.None?
  {
    Segment(length, None, false, None, None, None, None, false)
  }

  /** The topology with one more junction, not an end, with the given out-segments. */
  function AddJunction(t: Topology, outs: seq<nat>): (r: Topology)
    ensures |r.junctions| == |t.junctions| + 1
    ensures r.segments == t.segments && r.junctions[..|t.junctions|] == t.junctions
    ensures r.junctions[|t.junctions|] == Junction(false, outs)
  {
    t.(junctions := t.junctions + [Junction(false, outs)])
  }

  /** The topology with one more fresh segment of the given length. */
  function AddSegment(t: Topology, length: int): (r: Topology)
    ensures |r.segments| == |t.segments| + 1
    ensures r.junctions == t.junctions && r.segments[|t.segments|] == FreshSegment(length)
  {
    t.(segments := t.segments + [FreshSegment(length)])
  }

  /**
   * Connecting junction `j` to junction `k` through segment `s`: `s` is appended to the
   * out-segments of `j` and `s` leads into `k`. Nothing else changes.
   */
  function ConnectTopology(t: Topology, j: nat, s: nat, k: nat): (r: Topology)
    requires j < |t.junctions| && s < |t.segments|
    ensures |r.junctions| == |t.junctions| && |r.segments| == |t.segments|
    ensures r.junctions[j].outSegments == t.junctions[j].outSegments + [s]
    ensures r.junctions[j].end == t.junctions[j].end
    ensures r.segments[s].to == Some(k)
    ensures r.segments[s] == t.segments[s].(to := Some(k))
  {
    var jn := t.junctions[j];
    Topology(t.segments[s := t.segments[s].(to := Some(k))],
             t.junctions[j := jn.(outSegments := jn.outSegments + [s])])
  }

  /** The first junction, from index `j` on, whose out-segments contain `s`. */
  function FromSearch(t: Topology, s: nat, j: nat): (r: Option<nat>)
    requires j <= |t.junctions|
    ensures r.Some? ==> j <= r.value < |t.junctions| && s in t.junctions[r.value].outSegments
    ensures r.Some? ==> forall i :: j <= i < r.value ==> s !in t.junctions[i].outSegments
    ensures r.None? ==> forall i :: j <= i < |t.junctions| ==> s !in t.junctions[i].outSegments
    decreases |t.junctions| - j
  {
    if j == |t.junctions| then None
    else if s in t.junctions[j].outSegments then Some(j)
    else FromSearch(t, s, j + 1)
  }

  /**
   * The junction a segment starts from: the first junction listing it as an out-segment,
   * or `None` when no junction does.
   */
  function From(t: Topology, s: nat): (r: Option<nat>)
    ensures r.Some? <==> exists i :: 0 <= i < |t.junctions| && s in t.junctions[i].outSegments
    ensures r.Some? ==> r.value < |t.junctions| && s in t.junctions[r.value].outSegments
    ensures r.Some? ==> forall i :: 0 <= i < r.value ==> s !in t.junctions[i].outSegments
  {
    FromSearch(t, s, 0)
  }

  /** Every segment has a positive length and leads into a junction; every out-segment exists. */
  predicate Wired(t: Topology)
  {
    (forall s :: 0 <= s < |t.segments| ==> SegmentWired(t, s)) &&
    (forall j :: 0 <= j < |t.junctions| ==> JunctionWired(t, j))
  }

  predicate SegmentWired(t: Topology, s: nat)
    requires s < |t.segments|
  {
    t.segments[s].length >= 1 && t.segments[s].to.Some? && t.segments[s].to.value < |t.junctions|
  }

  predicate JunctionWired(t: Topology, j: nat)
    requires j < |t.junctions|
  {
    forall k :: 0 <= k < |t.junctions[j].outSegments| ==> t.junctions[j].outSegments[k] < |t.segments|
  }

  /** A wired topology where no track ends: every segment leads somewhere and starts from a junction. */
  predicate Closed(t: Topology)
  {
    Wired(t) && forall s :: 0 <= s < |t.segments| ==> SegmentClosed(t, s)
  }

  predicate SegmentClosed(t: Topology, s: nat)
    requires s < |t.segments|
  {
    SegmentWired(t, s) && |t.junctions[t.segments[s].to.value].outSegments| >= 1 && From(t, s).Some?
  }

  /**
   * The occupancy has one queue per segment and one signal per junction, every location
   * names an existing segment, and every queued carriage has a location.
   */
  predicate Fits(t: Topology, o: Occupancy)
  {
    |o.queues| == |t.segments| && |o.signals| == |t.junctions| &&
    (forall c :: c in o.locations ==> o.locations[c].segment < |t.segments|) &&
    (forall s, i :: 0 <= s < |o.queues| && 0 <= i < |o.queues[s]| ==> o.queues[s][i] in o.locations)
  }

  /**
   * All segments and junctions of all train systems, held in one arena. A junction's semaphore
   * is `signals` at the junction's index; a segment's carriage queue is `queues` at its index.
   */
  class Network {
    var segments: seq<Segment>
    var junctions: seq<Junction>
    var queues: seq<seq<TrainCarriage>>
    var signals: seq<int>
    var locations: map<TrainCarriage, Location>

    function Topo(): Topology
      reads this`segments, this`junctions
    {
      Topology(segments, junctions)
    }

    function Occ(): Occupancy
      reads this`queues, this`signals, this`locations
    {
      Occupancy(queues, signals, locations)
    }

    /** One queue per segment and one signal per junction. */
    predicate Valid()
      reads this`queues, this`signals, this`segments, this`junctions
    {
      |queues| == |segments| && |signals| == |junctions|
    }

    constructor ()
      ensures Valid()
      ensures segments == [] && junctions == [] && locations == map[]
    {
      segments, junctions, queues, signals, locations := [], [], [], [], map[];
    }

    /** A new junction with no out-segments, not an end, whose signal holds one permit. */
    method NewJunction() returns (j: nat)
      requires Valid()
      modifies this`junctions, this`signals
      ensures Valid()
      ensures j == old(|junctions|)
      ensures Topo() == AddJunction(old(Topo()), [])
      ensures signals == old(signals) + [1]
    {
      j := |junctions|;
      junctions := junctions + [Junction(false, [])];
      signals := signals + [1];
    }

    /**
     * A new junction whose out-segments are the given list, not an end, whose signal holds
     * one permit.
     */
    method NewJunctionWith(outs: seq<nat>) returns (j: nat)
      requires Valid()
      modifies this`junctions, this`signals
      ensures Valid()
      ensures j == old(|junctions|)
      ensures Topo() == AddJunction(old(Topo()), outs)
      ensures signals == old(signals) + [1]
    {
      j := |junctions|;
      junctions := junctions + [Junction(false, outs)];
      signals := signals + [1];
    }

    /** A new segment of the given length with an empty queue, not curved. */
    method NewSegment(length: int) returns (s: nat)
      requires Valid()
      modifies this`segments, this`queues
      ensures Valid()
      ensures s == old(|segments|)
      ensures Topo() == AddSegment(old(Topo()), length)
      ensures queues == old(queues) + [[]]
    {
      s := |segments|;
      segments := segments + [FreshSegment(length)];
      queues := queues + [[]];
    }

    /** Appends `s` to the out-segments of `j` and makes `s` lead into `k`. */
    method Connect(j: nat, s: nat, k: nat)
      requires j < |junctions| && s < |segments|
      modifies this`segments, this`junctions
      ensures Topo() == ConnectTopology(old(Topo()), j, s, k)
    {
      var jn := junctions[j];
      junctions := junctions[j := jn.(outSegments := jn.outSegments + [s])];
      segments := segments[s := segments[s].(to := Some(k))];
    }

    method SetEnd(j: nat, end: bool)
      requires j < |junctions|
      modifies this`junctions
      ensures junctions == old(junctions)[j := old(junctions)[j].(end := end)]
    {
      junctions := junctions[j := junctions[j].(end := end)];
    }

    method SetName(s: nat, name: Option<string>)
      requires s < |segments|
      modifies this`segments
      ensures segments == old(segments)[s := old(segments)[s].(name := name)]
    {
      segments := segments[s := segments[s].(name := name)];
    }

    method SetTo(s: nat, to: Option<nat>)
      requires s < |segments|
      modifies this`segments
      ensures segments == old(segments)[s := old(segments)[s].(to := to)]
    {
      segments := segments[s := segments[s].(to := to)];
    }

    method SetStation(s: nat, station: Option<nat>)
      requires s < |segments|
      modifies this`segments
      ensures segments == old(segments)[s := old(segments)[s].(station := station)]
    {
      segments := segments[s := segments[s].(station := station)];
    }

    method SetPlatformHub(s: nat, hub: Option<PlatformHub>)
      requires s < |segments|
      modifies this`segments
      ensures segments == old(segments)[s := old(segments)[s].(platformHub := hub)]
    {
      segments := segments[s := segments[s].(platformHub := hub)];
    }

    method SetCurved(s: nat, curved: bool)
      requires s < |segments|
      modifies this`segments
      ensures segments == old(segments)[s := old(segments)[s].(curved := curved)]
    {
      segments := segments[s := segments[s].(curved := curved)];
    }

    method SetDirection(s: nat, direction: Option<Direction>)
      requires s < |segments|
      modifies this`segments
      ensures segments == old(segments)[s := old(segments)[s].(direction := direction)]
    {
      segments := segments[s := segments[s].(direction := direction)];
    }
  }

  /** Connecting never changes which junction an unrelated segment starts from. */
  lemma {:induction false} ConnectKeepsFrom(t: Topology, j: nat, s: nat, k: nat, x: nat)
    requires j < |t.junctions| && s < |t.segments| && x != s
    ensures From(ConnectTopology(t, j, s, k), x) == From(t, x)
  {
    FromSearchOutsOnly(t, ConnectTopology(t, j, s, k), x, 0);
  }

  /** The search for a segment's start depends only on whether each junction lists it. */
  lemma {:induction false} FromSearchOutsOnly(t: Topology, u: Topology, x: nat, j: nat)
    requires |t.junctions| == |u.junctions| && j <= |t.junctions|
    requires forall i :: j <= i < |t.junctions| ==>
      (x in t.junctions[i].outSegments <==> x in u.junctions[i].outSegments)
    ensures FromSearch(t, x, j) == FromSearch(u, x, j)
    decreases |t.junctions| - j
  {
    if j < |t.junctions| && x !in t.junctions[j].outSegments {
      FromSearchOutsOnly(t, u, x, j + 1);
    }
  }
}
