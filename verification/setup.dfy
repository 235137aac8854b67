// Laying out the train lines: EnvironmentSetup.java. The database rows a line is built from
// are parameters.
module LineLayout {
  import opened Common
  import opened Graph
  import opened Track
  import opened Stations
  import opened Systems

  /** Where a line's depot is joined: past its last station or before its first. */
  datatype Layout = DepotAtLast | DepotAtFirst

  /** The lines the simulation knows how to lay out, by name; any other name is skipped. */
  function LayoutOf(name: string): (r: Option<Layout>)
    ensures r == Some(DepotAtLast) <==> name == "LRT-1" || name == "LRT-2"
    ensures r == Some(DepotAtFirst) <==> name == "MRT-3"
  {
    if name == "LRT-1" || name == "LRT-2" then Some(DepotAtLast)
    else if name == "MRT-3" then Some(DepotAtFirst)
    else None
  }

  /**
   * What the database gives about a line: the folder of its files, its stations in line order,
   * the lengths of its end segments (south end first, north end second) and the length of the
   * spurs to its depot.
   */
  datatype LineData = LineData(trainSystemPath: string, rows: seq<StationRow>, endLengths: seq<int>, spurLength: int)

  // ---------------------------------------------------------------------------------------
  // Where everything goes. The stations' hubs are created first, four junctions and two
  // segments per station; then the links between stations, two segments per pair; then the
  // two end loops, one junction and two segments each; then the depot's hub and its spurs.

  /** The hubs of the station at index `k`, when the stations' hubs start at junction `j0` and segment `s0`. */
  function StationPlatforms(j0: nat, s0: nat, k: nat): Platforms
  {
    Platforms(PlatformHub(j0 + 4 * k, s0 + 2 * k, j0 + 4 * k + 1),
              PlatformHub(j0 + 4 * k + 2, s0 + 2 * k + 1, j0 + 4 * k + 3))
  }

  /**
   * A platform segment of station `k`: the LRT-1 platform length, leading into its hub's
   * out-connector, and, once tagged, naming the station, the hub and the direction.
   */
  function PlatformSegment(p: Platforms, k: nat, d: Direction, tagged: bool): Segment
  {
    var hub := Platform(p, d);
    var plain := FreshSegment(LRT_1_PLATFORM_LENGTH).(to := Some(hub.outConnector));
    if tagged then plain.(station := Some(k), platformHub := Some(hub), direction := Some(d)) else plain
  }

  /**
   * The four junctions and two platform segments of station `k`, with the given out-segments
   * appended to its two out-connectors.
   */
  predicate Block(t: Topology, j0: nat, s0: nat, k: nat, northOuts: seq<nat>, southOuts: seq<nat>, tagged: bool)
  {
    var p := StationPlatforms(j0, s0, k);
    PlatformsIn(t, p) &&
    t.junctions[p.northbound.inConnector] == Junction(false, [p.northbound.platformSegment]) &&
    t.junctions[p.northbound.outConnector] == Junction(false, northOuts) &&
    t.junctions[p.southbound.inConnector] == Junction(false, [p.southbound.platformSegment]) &&
    t.junctions[p.southbound.outConnector] == Junction(false, southOuts) &&
    t.segments[p.northbound.platformSegment] == PlatformSegment(p, k, Northbound, tagged) &&
    t.segments[p.southbound.platformSegment] == PlatformSegment(p, k, Southbound, tagged)
  }

  /** What leaves station `k` northbound once the first `i` stations are linked (links start at segment `s1`). */
  function LinkedNorth(s1: nat, i: nat, k: nat): seq<nat>
  {
    if k + 1 < i then [s1 + 2 * k] else []
  }

  /** What leaves station `k` southbound once the first `i` stations are linked. */
  function LinkedSouth(s1: nat, i: nat, k: nat): seq<nat>
  {
    if 1 <= k < i then [s1 + 2 * (k - 1) + 1] else []
  }

  /**
   * The two segments between stations `k - 1` and `k`: each as long as station `k`'s distance
   * to the previous station, the first leading northbound into station `k`, the second
   * southbound into station `k - 1`. The links follow the stations' hubs, from segment
   * `s0 + 2 * |rows|` on, two per pair of stations.
   */
  predicate Linked(t: Topology, j0: nat, s0: nat, rows: seq<StationRow>, k: nat)
    requires 1 <= k < |rows|
  {
    var s1 := s0 + 2 * |rows|;
    var later, earlier := StationPlatforms(j0, s0, k), StationPlatforms(j0, s0, k - 1);
    var distance := rows[k].distanceToPrevious;
    s1 + 2 * (k - 1) + 1 < |t.segments| &&
    t.segments[s1 + 2 * (k - 1)] == FreshSegment(distance).(to := Some(later.northbound.inConnector)) &&
    t.segments[s1 + 2 * (k - 1) + 1] == FreshSegment(distance).(to := Some(earlier.southbound.inConnector))
  }

  // ---------------------------------------------------------------------------------------
  // The building steps, as functions of the topology.

  /** The topology after the hubs of `n` stations are created, the northbound hub of each first. */
  function Hubs(t: Topology, n: nat): (r: Topology)
    ensures |r.junctions| == |t.junctions| + 4 * n && |r.segments| == |t.segments| + 2 * n
  {
    if n == 0 then t
    else Hub(Hub(Hubs(t, n - 1), LRT_1_PLATFORM_LENGTH).0, LRT_1_PLATFORM_LENGTH).0
  }

  /** Station `k`'s platform segments tagged with the station, the hub and the direction. */
  function TagStation(t: Topology, p: Platforms, k: nat): (r: Topology)
    requires PlatformsIn(t, p)
    ensures r.junctions == t.junctions && |r.segments| == |t.segments|
  {
    var nb, sb := p.northbound, p.southbound;
    var tagged := t.segments[nb.platformSegment := t.segments[nb.platformSegment].(station := Some(k),
                                                    platformHub := Some(nb), direction := Some(Northbound))];
    t.(segments := tagged[sb.platformSegment := tagged[sb.platformSegment].(station := Some(k),
                                                    platformHub := Some(sb), direction := Some(Southbound))])
  }

  /** The topology after the platform segments of stations `0` to `i - 1` are tagged. */
  function Tagged(t: Topology, j0: nat, s0: nat, i: nat): (r: Topology)
    requires |t.junctions| >= j0 + 4 * i && |t.segments| >= s0 + 2 * i
    ensures r.junctions == t.junctions && |r.segments| == |t.segments|
  {
    if i == 0 then t else TagStation(Tagged(t, j0, s0, i - 1), StationPlatforms(j0, s0, i - 1), i - 1)
  }

  // ---------------------------------------------------------------------------------------
  // What each step leaves.

  /** Whether `u` holds every junction and segment of `t` at the same index. */
  predicate Extends(t: Topology, u: Topology)
  {
    |t.junctions| <= |u.junctions| && |t.segments| <= |u.segments| &&
    (forall j :: 0 <= j < |t.junctions| ==> u.junctions[j] == t.junctions[j]) &&
    (forall s :: 0 <= s < |t.segments| ==> u.segments[s] == t.segments[s])
  }

  /** A block stays as it is when junctions and segments are only appended. */
  lemma BlockKept(t: Topology, u: Topology, j0: nat, s0: nat, k: nat, northOuts: seq<nat>, southOuts: seq<nat>,
                  tagged: bool)
    requires Block(t, j0, s0, k, northOuts, southOuts, tagged) && Extends(t, u)
    ensures Block(u, j0, s0, k, northOuts, southOuts, tagged)
  {
  }

  /** One more station's hubs: four junctions and two segments appended, forming its block. */
  lemma HubsStep(t: Topology, n: nat)
    requires n > 0
    ensures Extends(Hubs(t, n - 1), Hubs(t, n))
    ensures Block(Hubs(t, n), |t.junctions|, |t.segments|, n - 1, [], [], false)
  {
    var before := Hubs(t, n - 1);
    var first := Hub(before, LRT_1_PLATFORM_LENGTH);
    var second := Hub(first.0, LRT_1_PLATFORM_LENGTH);
    assert Hubs(t, n) == second.0;
    assert Extends(before, first.0);
    assert Extends(first.0, second.0);
  }

  /** Creating the stations' hubs leaves what was there and adds one untouched block per station. */
  lemma {:induction false} HubsShape(t: Topology, n: nat)
    ensures Extends(t, Hubs(t, n))
    ensures forall k :: 0 <= k < n ==> Block(Hubs(t, n), |t.junctions|, |t.segments|, k, [], [], false)
  {
    if n > 0 {
      HubsShape(t, n - 1);
      HubsStep(t, n);
      var before := Hubs(t, n - 1);
      var r := Hubs(t, n);
      forall k | 0 <= k < n - 1
        ensures Block(r, |t.junctions|, |t.segments|, k, [], [], false)
      {
        BlockKept(before, r, |t.junctions|, |t.segments|, k, [], [], false);
      }
    }
  }

  /** Whether junction `j` is none of the four junctions of station `k`'s block. */
  predicate OutsideBlock(j: nat, j0: nat, k: nat)
  {
    j < j0 + 4 * k || j0 + 4 * k + 3 < j
  }

  /** Joining two stations leaves a block that neither of the two connected junctions belongs to as it was. */
  lemma BlockUntouched(before: Topology, r: Topology, j0: nat, s0: nat, k: nat, north: seq<nat>, south: seq<nat>,
                       previousOut: nat, nextIn: nat, nextOut: nat, previousIn: nat, distance: int)
    requires Block(before, j0, s0, k, north, south, false)
    requires StationsFrame(before, r, previousOut, nextIn, nextOut, previousIn, distance)
    requires OutsideBlock(previousOut, j0, k) && OutsideBlock(nextOut, j0, k)
    ensures Block(r, j0, s0, k, north, south, false)
  {
  }

  /** Joining two stations from station `k`'s northbound out-connector adds the new segment to its out-segments. */
  lemma BlockNorthLinked(before: Topology, r: Topology, j0: nat, s0: nat, k: nat, north: seq<nat>, south: seq<nat>,
                         nextIn: nat, nextOut: nat, previousIn: nat, distance: int)
    requires Block(before, j0, s0, k, north, south, false)
    requires StationsFrame(before, r, StationPlatforms(j0, s0, k).northbound.outConnector, nextIn, nextOut, previousIn,
                           distance)
    requires OutsideBlock(nextOut, j0, k)
    ensures Block(r, j0, s0, k, north + [|before.segments|], south, false)
  {
  }

  /** Joining two stations towards station `k`'s southbound out-connector adds the second new segment to its out-segments. */
  lemma BlockSouthLinked(before: Topology, r: Topology, j0: nat, s0: nat, k: nat, north: seq<nat>, south: seq<nat>,
                         previousOut: nat, nextIn: nat, previousIn: nat, distance: int)
    requires Block(before, j0, s0, k, north, south, false)
    requires StationsFrame(before, r, previousOut, nextIn, StationPlatforms(j0, s0, k).southbound.outConnector,
                           previousIn, distance)
    requires OutsideBlock(previousOut, j0, k)
    ensures Block(r, j0, s0, k, north, south + [|before.segments| + 1], false)
  {
  }

  /** Linking station `i - 1` to station `i - 2` moves every block from `i - 1` linked stations to `i`. */
  lemma LinkBlock(before: Topology, r: Topology, j0: nat, s0: nat, n: nat, distance: int, i: nat, k: nat)
    requires 2 <= i <= n && k < n
    requires |before.junctions| == j0 + 4 * n && |before.segments| == s0 + 2 * n + 2 * (i - 2)
    requires Block(before, j0, s0, k, LinkedNorth(s0 + 2 * n, i - 1, k), LinkedSouth(s0 + 2 * n, i - 1, k), false)
    requires var previous, next := StationPlatforms(j0, s0, i - 2), StationPlatforms(j0, s0, i - 1);
             StationsFrame(before, r, previous.northbound.outConnector, next.northbound.inConnector,
                           next.southbound.outConnector, previous.southbound.inConnector, distance)
    ensures Block(r, j0, s0, k, LinkedNorth(s0 + 2 * n, i, k), LinkedSouth(s0 + 2 * n, i, k), false)
  {
    var previous, next := StationPlatforms(j0, s0, i - 2), StationPlatforms(j0, s0, i - 1);
    var s1 := s0 + 2 * n;
    var north, south := LinkedNorth(s1, i - 1, k), LinkedSouth(s1, i - 1, k);
    if k == i - 2 {
      BlockNorthLinked(before, r, j0, s0, k, north, south, next.northbound.inConnector, next.southbound.outConnector,
                       previous.southbound.inConnector, distance);
      assert LinkedNorth(s1, i, k) == north + [|before.segments|];
    } else if k == i - 1 {
      BlockSouthLinked(before, r, j0, s0, k, north, south, previous.northbound.outConnector,
                       next.northbound.inConnector, previous.southbound.inConnector, distance);
      assert LinkedSouth(s1, i, k) == south + [|before.segments| + 1];
    } else {
      BlockUntouched(before, r, j0, s0, k, north, south, previous.northbound.outConnector, next.northbound.inConnector,
                     next.southbound.outConnector, previous.southbound.inConnector, distance);
    }
  }

  /** The links between stations `k - 1` and `k` survive anything that keeps the existing segments. */
  lemma LinkedKept(before: Topology, r: Topology, j0: nat, s0: nat, rows: seq<StationRow>, k: nat)
    requires 1 <= k < |rows| && Linked(before, j0, s0, rows, k) && |before.segments| <= |r.segments|
    requires forall s :: 0 <= s < |before.segments| ==> r.segments[s] == before.segments[s]
    ensures Linked(r, j0, s0, rows, k)
  {
    var s1 := s0 + 2 * |rows|;
    assert r.segments[s1 + 2 * (k - 1)] == before.segments[s1 + 2 * (k - 1)];
    assert r.segments[s1 + 2 * (k - 1) + 1] == before.segments[s1 + 2 * (k - 1) + 1];
  }

  /** Joining station `i - 1` to station `i - 2`, once the earlier links are in place, lays the links between them. */
  lemma LinkedNew(before: Topology, r: Topology, j0: nat, s0: nat, rows: seq<StationRow>, i: nat)
    requires 2 <= i <= |rows| && |before.segments| == s0 + 2 * |rows| + 2 * (i - 2)
    requires var previous, next := StationPlatforms(j0, s0, i - 2), StationPlatforms(j0, s0, i - 1);
             StationsFrame(before, r, previous.northbound.outConnector, next.northbound.inConnector,
                           next.southbound.outConnector, previous.southbound.inConnector, rows[i - 1].distanceToPrevious)
    ensures Linked(r, j0, s0, rows, i - 1)
  {
  }

  /**
   * The line from `t` (the hubs of all `|rows|` stations, from junction `j0` and segment `s0`
   * on) with its first `i` stations linked, each to the one before it: no junction moves, the
   * junctions below `j0` and every segment of `t` are kept, every block holds the links of its
   * position, and the links between the first `i` stations are in place.
   */
  predicate LinkedUpTo(r: Topology, t: Topology, j0: nat, s0: nat, rows: seq<StationRow>, i: nat)
    requires 1 <= i <= |rows|
  {
    var s1 := s0 + 2 * |rows|;
    |r.junctions| == |t.junctions| && |r.segments| == |t.segments| + 2 * (i - 1) && j0 <= |t.junctions| &&
    (forall j :: 0 <= j < j0 ==> r.junctions[j] == t.junctions[j]) &&
    (forall s :: 0 <= s < |t.segments| ==> r.segments[s] == t.segments[s]) &&
    (forall k :: 0 <= k < |rows| ==> Block(r, j0, s0, k, LinkedNorth(s1, i, k), LinkedSouth(s1, i, k), false)) &&
    (forall k :: 1 <= k < i ==> Linked(r, j0, s0, rows, k))
  }

  /** Before any link, the hubs of the stations are the line with its first station "linked". */
  lemma LinkedStart(t: Topology, j0: nat, s0: nat, rows: seq<StationRow>)
    requires 1 <= |rows| && j0 <= |t.junctions| && forall k :: 0 <= k < |rows| ==> Block(t, j0, s0, k, [], [], false)
    ensures LinkedUpTo(t, t, j0, s0, rows, 1)
  {
    var s1 := s0 + 2 * |rows|;
    forall k | 0 <= k < |rows|
      ensures Block(t, j0, s0, k, LinkedNorth(s1, 1, k), LinkedSouth(s1, 1, k), false)
    {
      assert LinkedNorth(s1, 1, k) == [] && LinkedSouth(s1, 1, k) == [];
    }
  }

  /** Linking station `i - 1` to station `i - 2` moves every block from `i - 1` linked stations to `i`. */
  lemma LinkBlocks(before: Topology, r: Topology, t: Topology, j0: nat, s0: nat, rows: seq<StationRow>, i: nat)
    requires 2 <= i <= |rows|
    requires |t.junctions| == j0 + 4 * |rows| && |t.segments| == s0 + 2 * |rows|
    requires |before.junctions| == |t.junctions| && |before.segments| == |t.segments| + 2 * (i - 2)
    requires var s1, linked := s0 + 2 * |rows|, i - 1;
             forall k :: 0 <= k < |rows| ==> Block(before, j0, s0, k, LinkedNorth(s1, linked, k), LinkedSouth(s1, linked, k), false)
    requires var previous, next := StationPlatforms(j0, s0, i - 2), StationPlatforms(j0, s0, i - 1);
             StationsFrame(before, r, previous.northbound.outConnector, next.northbound.inConnector,
                           next.southbound.outConnector, previous.southbound.inConnector, rows[i - 1].distanceToPrevious)
    ensures var s1 := s0 + 2 * |rows|;
            forall k :: 0 <= k < |rows| ==> Block(r, j0, s0, k, LinkedNorth(s1, i, k), LinkedSouth(s1, i, k), false)
  {
    var s1 := s0 + 2 * |rows|;
    forall k | 0 <= k < |rows|
      ensures Block(r, j0, s0, k, LinkedNorth(s1, i, k), LinkedSouth(s1, i, k), false)
    {
      LinkBlock(before, r, j0, s0, |rows|, rows[i - 1].distanceToPrevious, i, k);
    }
  }

  /** Linking station `i - 1` to station `i - 2` keeps the earlier links and lays the one between them. */
  lemma LinkJoins(before: Topology, r: Topology, j0: nat, s0: nat, rows: seq<StationRow>, i: nat)
    requires 2 <= i <= |rows| && |before.segments| == s0 + 2 * |rows| + 2 * (i - 2)
    requires forall k :: 1 <= k < i - 1 ==> Linked(before, j0, s0, rows, k)
    requires var previous, next := StationPlatforms(j0, s0, i - 2), StationPlatforms(j0, s0, i - 1);
             StationsFrame(before, r, previous.northbound.outConnector, next.northbound.inConnector,
                           next.southbound.outConnector, previous.southbound.inConnector, rows[i - 1].distanceToPrevious)
    ensures forall k :: 1 <= k < i ==> Linked(r, j0, s0, rows, k)
  {
    forall k | 1 <= k < i
      ensures Linked(r, j0, s0, rows, k)
    {
      if k < i - 1 {
        LinkedKept(before, r, j0, s0, rows, k);
      } else {
        LinkedNew(before, r, j0, s0, rows, i);
      }
    }
  }

  /** Connecting station `i` to station `i - 1` on a line linked up to station `i - 1` links it up to station `i`. */
  lemma LinkStep(before: Topology, t: Topology, j0: nat, s0: nat, rows: seq<StationRow>, i: nat)
    requires 1 <= i < |rows|
    requires |t.junctions| == j0 + 4 * |rows| && |t.segments| == s0 + 2 * |rows|
    requires LinkedUpTo(before, t, j0, s0, rows, i)
    ensures var previous, next := StationPlatforms(j0, s0, i - 1), StationPlatforms(j0, s0, i);
            PlatformsIn(before, previous) && PlatformsIn(before, next) &&
            LinkedUpTo(Track.Stations(before, previous, next, rows[i].distanceToPrevious), t, j0, s0, rows, i + 1)
  {
    var previous, next := StationPlatforms(j0, s0, i - 1), StationPlatforms(j0, s0, i);
    assert PlatformsIn(before, previous) && PlatformsIn(before, next);
    var r := Track.Stations(before, previous, next, rows[i].distanceToPrevious);
    StationsShape(before, previous, next, rows[i].distanceToPrevious);
    LinkBlocks(before, r, t, j0, s0, rows, i + 1);
    LinkJoins(before, r, j0, s0, rows, i + 1);
  }

  // ---------------------------------------------------------------------------------------
  // The end loops, the tags and the depot.

  /**
   * The segments leaving station `k` northbound once the line is closed: the link to the
   * next station or, at the last station, the north loop, followed by `extra`.
   */
  function NorthOuts(s1: nat, s2: nat, n: nat, k: nat, extra: seq<nat>): seq<nat>
  {
    if k + 1 < n then [s1 + 2 * k] else [s2] + extra
  }

  /** The segments leaving station `k` southbound: the link to the station before it or, at the first station, the south loop. */
  function SouthOuts(s1: nat, s2: nat, k: nat, extra: seq<nat>): seq<nat>
  {
    if k >= 1 then [s1 + 2 * (k - 1) + 1] else [s2 + 2] + extra
  }

  /**
   * The two end loops, starting at junction `e` and segment `s2`: the north loop from the
   * last station's northbound out-connector through end junction `e` into its southbound
   * in-connector, with `ends[1]` as length; the south loop from the first station's
   * southbound out-connector through end junction `e + 1` into its northbound in-connector,
   * with `ends[0]` as length.
   */
  predicate EndsLaid(t: Topology, j0: nat, s0: nat, n: nat, ends: seq<int>)
    requires n >= 1 && |ends| >= 2
  {
    var e, s2 := j0 + 4 * n, s0 + 4 * n - 2;
    var last, first := StationPlatforms(j0, s0, n - 1), StationPlatforms(j0, s0, 0);
    e + 1 < |t.junctions| && s2 + 3 < |t.segments| &&
    t.junctions[e] == Junction(true, [s2 + 1]) &&
    t.junctions[e + 1] == Junction(true, [s2 + 3]) &&
    t.segments[s2] == FreshSegment(ends[1]).(to := Some(e)) &&
    t.segments[s2 + 1] == FreshSegment(ends[1]).(to := Some(last.southbound.inConnector)) &&
    t.segments[s2 + 2] == FreshSegment(ends[0]).(to := Some(e + 1)) &&
    t.segments[s2 + 3] == FreshSegment(ends[0]).(to := Some(first.northbound.inConnector))
  }

  /**
   * Where the depot's spurs join the line: the junction the spur from the depot leads into
   * and the junction the spur to the depot leaves from. The depot of the LRT lines hangs off
   * the last station (its southbound in-connector and northbound out-connector), that of
   * MRT-3 off the first (its northbound in-connector and southbound out-connector).
   */
  function DepotEnds(j0: nat, s0: nat, n: nat, layout: Layout): (r: (nat, nat))
    requires n >= 1
  {
    match layout
    case DepotAtLast =>
      var p := StationPlatforms(j0, s0, n - 1);
      (p.southbound.inConnector, p.northbound.outConnector)
    case DepotAtFirst =>
      var p := StationPlatforms(j0, s0, 0);
      (p.northbound.inConnector, p.southbound.outConnector)
  }

  /** The spur to the depot as an extra northbound out-segment of the last station, for the LRT lines. */
  function NorthExtra(s2: nat, layout: Layout): seq<nat>
  {
    if layout == DepotAtLast then [s2 + 5] else []
  }

  /** The spur to the depot as an extra southbound out-segment of the first station, for MRT-3. */
  function SouthExtra(s2: nat, layout: Layout): seq<nat>
  {
    if layout == DepotAtFirst then [s2 + 5] else []
  }

  /**
   * The depot: its hub at junctions `e + 2`, `e + 3` and segment `s2 + 4` (the depot's
   * platform length), the spur `s2 + 5` into its in-connector, and the spur `s2 + 6` from its
   * out-connector back into the line.
   */
  predicate DepotLaid(t: Topology, j0: nat, s0: nat, n: nat, spur: int, layout: Layout)
    requires n >= 1
  {
    var e, s2 := j0 + 4 * n, s0 + 4 * n - 2;
    e + 3 < |t.junctions| && s2 + 6 < |t.segments| &&
    t.junctions[e + 2] == Junction(false, [s2 + 4]) &&
    t.junctions[e + 3] == Junction(false, [s2 + 6]) &&
    t.segments[s2 + 4] == FreshSegment(DEPOT_PLATFORM_LENGTH).(to := Some(e + 3)) &&
    t.segments[s2 + 5] == FreshSegment(spur).(to := Some(e + 2)) &&
    t.segments[s2 + 6] == FreshSegment(spur).(to := Some(DepotEnds(j0, s0, n, layout).0))
  }

  /** What laying a line out reads without failing: at least one station and both end lengths. */
  predicate Readable(d: LineData)
  {
    |d.rows| >= 1 && |d.endLengths| >= 2
  }

  /** Station `k`'s block in the finished line: tagged, with its final out-segments. */
  predicate StationLaid(t: Topology, t0: Topology, d: LineData, layout: Layout, k: nat)
    requires k < |d.rows|
  {
    var n, j0, s0 := |d.rows|, |t0.junctions|, |t0.segments|;
    var s1, s2 := s0 + 2 * n, s0 + 4 * n - 2;
    Block(t, j0, s0, k, NorthOuts(s1, s2, n, k, NorthExtra(s2, layout)), SouthOuts(s1, s2, k, SouthExtra(s2, layout)), true)
  }

  /**
   * The whole line laid out on `t0`: what was there is kept; every station's block has its
   * tagged platform segments and, on its out-connectors, the link onwards, the end loop or
   * the depot spur; the links between stations, the end loops and the depot are in place.
   * This accounts for every junction and segment the line adds.
   */
  predicate Laid(t: Topology, t0: Topology, d: LineData, layout: Layout)
    requires Readable(d)
  {
    var n, j0, s0 := |d.rows|, |t0.junctions|, |t0.segments|;
    var s1, s2 := s0 + 2 * n, s0 + 4 * n - 2;
    |t.junctions| == j0 + 4 * n + 4 && |t.segments| == s2 + 7 &&
    (forall j :: 0 <= j < j0 ==> t.junctions[j] == t0.junctions[j]) &&
    (forall s :: 0 <= s < s0 ==> t.segments[s] == t0.segments[s]) &&
    (forall k :: 0 <= k < n ==> StationLaid(t, t0, d, layout, k)) &&
    (forall k :: 1 <= k < n ==> Linked(t, j0, s0, d.rows, k)) &&
    EndsLaid(t, j0, s0, n, d.endLengths) &&
    DepotLaid(t, j0, s0, n, d.spurLength, layout)
  }

  /**
   * Closing both ends: the north loop at the last station, from its northbound out-connector
   * into its southbound in-connector, then the south loop at the first station, from its
   * southbound out-connector into its northbound in-connector.
   */
  predicate Closing(t: Topology, north: Topology, r: Topology, j0: nat, s0: nat, n: nat, ends: seq<int>)
    requires n >= 1 && |ends| >= 2
  {
    var last, first := StationPlatforms(j0, s0, n - 1), StationPlatforms(j0, s0, 0);
    LoopFrame(t, north, last.northbound.outConnector, last.southbound.inConnector, ends[1]) &&
    LoopFrame(north, r, first.southbound.outConnector, first.northbound.inConnector, ends[0])
  }

  /** Closing both ends moves station `k`'s block from its links to its out-segments before the depot. */
  lemma LoopsBlock(t: Topology, north: Topology, r: Topology, j0: nat, s0: nat, n: nat, ends: seq<int>, k: nat)
    requires 1 <= n && k < n && |ends| >= 2
    requires |t.junctions| == j0 + 4 * n && |t.segments| == s0 + 4 * n - 2
    requires Closing(t, north, r, j0, s0, n, ends)
    requires Block(t, j0, s0, k, LinkedNorth(s0 + 2 * n, n, k), LinkedSouth(s0 + 2 * n, n, k), false)
    ensures var s1, s2 := s0 + 2 * n, s0 + 4 * n - 2;
            Block(r, j0, s0, k, NorthOuts(s1, s2, n, k, []), SouthOuts(s1, s2, k, []), false)
  {
    var s2 := s0 + 4 * n - 2;
    assert [s2] + [] == [] + [s2] && [s2 + 2] + [] == [] + [s2 + 2];
  }

  /** Tagging the first `i` stations tags exactly their two platform segments each. */
  lemma {:induction false} TaggedPlatform(t: Topology, j0: nat, s0: nat, n: nat, i: nat, k: nat)
    requires i <= n && k < n && |t.junctions| >= j0 + 4 * n && |t.segments| >= s0 + 2 * n
    ensures var r := Tagged(t, j0, s0, i);
            var p := StationPlatforms(j0, s0, k);
            var nb, sb := s0 + 2 * k, s0 + 2 * k + 1;
            r.segments[nb] == (if k < i then t.segments[nb].(station := Some(k), platformHub := Some(p.northbound),
                                                             direction := Some(Northbound))
                               else t.segments[nb]) &&
            r.segments[sb] == (if k < i then t.segments[sb].(station := Some(k), platformHub := Some(p.southbound),
                                                             direction := Some(Southbound))
                               else t.segments[sb])
  {
    if i > 0 {
      TaggedPlatform(t, j0, s0, n, i - 1, k);
    }
  }

  /** Tagging touches no segment outside the stations' platform segments. */
  lemma {:induction false} TaggedOther(t: Topology, j0: nat, s0: nat, n: nat, i: nat, s: nat)
    requires i <= n && |t.junctions| >= j0 + 4 * n && |t.segments| >= s0 + 2 * n
    requires s < |t.segments| && (s < s0 || s0 + 2 * n <= s)
    ensures Tagged(t, j0, s0, i).segments[s] == t.segments[s]
  {
    if i > 0 {
      TaggedOther(t, j0, s0, n, i - 1, s);
    }
  }

  /** Station `k`'s two platform segments in `r` are those of `t` with the station, the hub and the direction set. */
  predicate PlatformsTagged(t: Topology, r: Topology, j0: nat, s0: nat, k: nat)
  {
    var p := StationPlatforms(j0, s0, k);
    s0 + 2 * k + 1 < |t.segments| && s0 + 2 * k + 1 < |r.segments| &&
    r.segments[s0 + 2 * k] == t.segments[s0 + 2 * k].(station := Some(k), platformHub := Some(p.northbound),
                                                       direction := Some(Northbound)) &&
    r.segments[s0 + 2 * k + 1] == t.segments[s0 + 2 * k + 1].(station := Some(k), platformHub := Some(p.southbound),
                                                               direction := Some(Southbound))
  }

  /**
   * What tagging every station does to `t`: each station's platform segments get the
   * station, the hub and the direction, and nothing else changes.
   */
  predicate TagFrame(t: Topology, r: Topology, j0: nat, s0: nat, n: nat)
  {
    r.junctions == t.junctions && |r.segments| == |t.segments| && s0 + 2 * n <= |t.segments| &&
    (forall s :: 0 <= s < |t.segments| && (s < s0 || s0 + 2 * n <= s) ==> r.segments[s] == t.segments[s]) &&
    (forall k :: 0 <= k < n ==> PlatformsTagged(t, r, j0, s0, k))
  }

  lemma TaggedFrame(t: Topology, j0: nat, s0: nat, n: nat)
    requires |t.junctions| >= j0 + 4 * n && |t.segments| >= s0 + 2 * n
    ensures TagFrame(t, Tagged(t, j0, s0, n), j0, s0, n)
  {
    forall s | 0 <= s < |t.segments| && (s < s0 || s0 + 2 * n <= s)
      ensures Tagged(t, j0, s0, n).segments[s] == t.segments[s]
    {
      TaggedOther(t, j0, s0, n, n, s);
    }
    forall k | 0 <= k < n
      ensures PlatformsTagged(t, Tagged(t, j0, s0, n), j0, s0, k)
    {
      TaggedPlatform(t, j0, s0, n, n, k);
    }
  }

  /** The depot's hub created after the line's last junction and segment, then joined by its spurs. */
  predicate Joining(t: Topology, hubbed: Topology, r: Topology, j0: nat, s0: nat, n: nat, spur: int, layout: Layout)
    requires n >= 1
  {
    var ends := DepotEnds(j0, s0, n, layout);
    hubbed == Hub(t, DEPOT_PLATFORM_LENGTH).0 &&
    DepotFrame(hubbed, r, Hub(t, DEPOT_PLATFORM_LENGTH).1, ends.0, ends.1, spur)
  }

  /** The depot adds its spur to the out-connector it hangs off and touches no other block. */
  lemma DepotBlock(t: Topology, hubbed: Topology, r: Topology, t0: Topology, d: LineData, layout: Layout, k: nat)
    requires k < |d.rows|
    requires |t.junctions| == |t0.junctions| + 4 * |d.rows| + 2 && |t.segments| == |t0.segments| + 4 * |d.rows| + 2
    requires StationClosed(t, t0, d, k, true)
    requires Joining(t, hubbed, r, |t0.junctions|, |t0.segments|, |d.rows|, d.spurLength, layout)
    ensures StationLaid(r, t0, d, layout, k)
  {
    var n, j0, s0 := |d.rows|, |t0.junctions|, |t0.segments|;
    var s1, s2 := s0 + 2 * n, s0 + 4 * n - 2;
    var p := StationPlatforms(j0, s0, k);
    var north, south := NorthOuts(s1, s2, n, k, []), SouthOuts(s1, s2, k, []);
    var ends := DepotEnds(j0, s0, n, layout);
    assert Extends(t, hubbed);
    BlockKept(t, hubbed, j0, s0, k, north, south, true);
    if layout == DepotAtLast && k == n - 1 {
      assert ends.1 == p.northbound.outConnector;
      assert north + [s2 + 5] == NorthOuts(s1, s2, n, k, NorthExtra(s2, layout));
    } else if layout == DepotAtFirst && k == 0 {
      assert ends.1 == p.southbound.outConnector;
      assert south + [s2 + 5] == SouthOuts(s1, s2, k, SouthExtra(s2, layout));
    } else {
      assert ends.1 != p.northbound.outConnector && ends.1 != p.southbound.outConnector;
    }
  }

  /** Station `k`'s block once the stations are linked. */
  predicate StationLinked(t: Topology, t0: Topology, d: LineData, k: nat)
  {
    var s1 := |t0.segments| + 2 * |d.rows|;
    Block(t, |t0.junctions|, |t0.segments|, k, LinkedNorth(s1, |d.rows|, k), LinkedSouth(s1, |d.rows|, k), false)
  }

  /** Station `k`'s block once both ends are closed. */
  predicate StationClosed(t: Topology, t0: Topology, d: LineData, k: nat, tagged: bool)
    requires k < |d.rows|
  {
    var n, j0, s0 := |d.rows|, |t0.junctions|, |t0.segments|;
    var s1, s2 := s0 + 2 * n, s0 + 4 * n - 2;
    Block(t, j0, s0, k, NorthOuts(s1, s2, n, k, []), SouthOuts(s1, s2, k, []), tagged)
  }

  /**
   * The line once its stations are linked: what was there is kept, every block has its links,
   * and the links between stations are in place.
   */
  predicate LinkedStage(t: Topology, t0: Topology, d: LineData)
    requires |d.rows| >= 1
  {
    var n, j0, s0 := |d.rows|, |t0.junctions|, |t0.segments|;
    var s1 := s0 + 2 * n;
    |t.junctions| == j0 + 4 * n && |t.segments| == s0 + 4 * n - 2 &&
    (forall j :: 0 <= j < j0 ==> t.junctions[j] == t0.junctions[j]) &&
    (forall s :: 0 <= s < s0 ==> t.segments[s] == t0.segments[s]) &&
    (forall k :: 0 <= k < n ==> StationLinked(t, t0, d, k)) &&
    (forall k :: 1 <= k < n ==> Linked(t, j0, s0, d.rows, k))
  }

  /** The line once both ends are closed, its platform segments still untagged (`tagged` false) or tagged. */
  predicate ClosedStage(t: Topology, t0: Topology, d: LineData, tagged: bool)
    requires Readable(d)
  {
    var n, j0, s0 := |d.rows|, |t0.junctions|, |t0.segments|;
    var s1, s2 := s0 + 2 * n, s0 + 4 * n - 2;
    |t.junctions| == j0 + 4 * n + 2 && |t.segments| == s2 + 4 &&
    (forall j :: 0 <= j < j0 ==> t.junctions[j] == t0.junctions[j]) &&
    (forall s :: 0 <= s < s0 ==> t.segments[s] == t0.segments[s]) &&
    (forall k :: 0 <= k < n ==> StationClosed(t, t0, d, k, tagged)) &&
    (forall k :: 1 <= k < n ==> Linked(t, j0, s0, d.rows, k)) &&
    EndsLaid(t, j0, s0, n, d.endLengths)
  }

  /** The hubs of the stations, all linked, are the line at its linked stage. */
  lemma LinkedReached(r: Topology, hubs: Topology, t0: Topology, d: LineData)
    requires |d.rows| >= 1 && Extends(t0, hubs)
    requires |hubs.junctions| == |t0.junctions| + 4 * |d.rows| && |hubs.segments| == |t0.segments| + 2 * |d.rows|
    requires LinkedUpTo(r, hubs, |t0.junctions|, |t0.segments|, d.rows, |d.rows|)
    ensures LinkedStage(r, t0, d)
  {
    forall k | 0 <= k < |d.rows|
      ensures StationLinked(r, t0, d, k)
    {
    }
  }

  /** Closing both ends of a linked line reaches the closed stage. */
  lemma LoopsStep(t: Topology, north: Topology, r: Topology, t0: Topology, d: LineData)
    requires Readable(d) && LinkedStage(t, t0, d)
    requires Closing(t, north, r, |t0.junctions|, |t0.segments|, |d.rows|, d.endLengths)
    ensures ClosedStage(r, t0, d, false)
  {
    var n, j0, s0 := |d.rows|, |t0.junctions|, |t0.segments|;
    var s1, s2 := s0 + 2 * n, s0 + 4 * n - 2;
    forall k | 0 <= k < n
      ensures StationClosed(r, t0, d, k, false)
    {
      assert StationLinked(t, t0, d, k);
      LoopsBlock(t, north, r, j0, s0, n, d.endLengths, k);
    }
    forall k | 1 <= k < n
      ensures Linked(r, j0, s0, d.rows, k)
    {
      assert Linked(t, j0, s0, d.rows, k);
    }
  }

  /** Tagging every station of a closed line tags each station's block. */
  lemma TagBlocks(t: Topology, r: Topology, t0: Topology, d: LineData)
    requires Readable(d) && TagFrame(t, r, |t0.junctions|, |t0.segments|, |d.rows|)
    requires forall k :: 0 <= k < |d.rows| ==> StationClosed(t, t0, d, k, false)
    ensures forall k :: 0 <= k < |d.rows| ==> StationClosed(r, t0, d, k, true)
  {
    forall k | 0 <= k < |d.rows|
      ensures StationClosed(r, t0, d, k, true)
    {
      assert StationClosed(t, t0, d, k, false) && PlatformsTagged(t, r, |t0.junctions|, |t0.segments|, k);
    }
  }

  /** Tagging every station of a closed line keeps the links between its stations. */
  lemma TagJoins(t: Topology, r: Topology, t0: Topology, d: LineData)
    requires Readable(d) && TagFrame(t, r, |t0.junctions|, |t0.segments|, |d.rows|)
    requires |t.segments| == |t0.segments| + 4 * |d.rows| + 2
    requires forall k :: 1 <= k < |d.rows| ==> Linked(t, |t0.junctions|, |t0.segments|, d.rows, k)
    ensures forall k :: 1 <= k < |d.rows| ==> Linked(r, |t0.junctions|, |t0.segments|, d.rows, k)
  {
    forall k | 1 <= k < |d.rows|
      ensures Linked(r, |t0.junctions|, |t0.segments|, d.rows, k)
    {
      assert Linked(t, |t0.junctions|, |t0.segments|, d.rows, k);
    }
  }

  /** Tagging every station of a closed line tags its blocks and changes nothing else. */
  lemma TagStep(t: Topology, r: Topology, t0: Topology, d: LineData)
    requires Readable(d) && ClosedStage(t, t0, d, false) && TagFrame(t, r, |t0.junctions|, |t0.segments|, |d.rows|)
    ensures ClosedStage(r, t0, d, true)
  {
    var s2 := |t0.segments| + 4 * |d.rows| - 2;
    TagBlocks(t, r, t0, d);
    TagJoins(t, r, t0, d);
    assert r.segments[s2 + 1] == t.segments[s2 + 1] && r.segments[s2 + 3] == t.segments[s2 + 3];
  }

  /** Joining the depot to a closed, tagged line gives every station its final block. */
  lemma DepotStations(t: Topology, hubbed: Topology, r: Topology, t0: Topology, d: LineData, layout: Layout)
    requires Readable(d)
    requires |t.junctions| == |t0.junctions| + 4 * |d.rows| + 2 && |t.segments| == |t0.segments| + 4 * |d.rows| + 2
    requires forall k :: 0 <= k < |d.rows| ==> StationClosed(t, t0, d, k, true)
    requires Joining(t, hubbed, r, |t0.junctions|, |t0.segments|, |d.rows|, d.spurLength, layout)
    ensures forall k :: 0 <= k < |d.rows| ==> StationLaid(r, t0, d, layout, k)
  {
    forall k | 0 <= k < |d.rows|
      ensures StationLaid(r, t0, d, layout, k)
    {
      DepotBlock(t, hubbed, r, t0, d, layout, k);
    }
  }

  /** Joining the depot to a closed, tagged line keeps the links between its stations. */
  lemma DepotJoins(t: Topology, hubbed: Topology, r: Topology, t0: Topology, d: LineData, layout: Layout)
    requires Readable(d) && |t.segments| == |t0.segments| + 4 * |d.rows| + 2
    requires forall k :: 1 <= k < |d.rows| ==> Linked(t, |t0.junctions|, |t0.segments|, d.rows, k)
    requires Joining(t, hubbed, r, |t0.junctions|, |t0.segments|, |d.rows|, d.spurLength, layout)
    ensures forall k :: 1 <= k < |d.rows| ==> Linked(r, |t0.junctions|, |t0.segments|, d.rows, k)
  {
    var n, j0, s0 := |d.rows|, |t0.junctions|, |t0.segments|;
    assert Extends(t, hubbed);
    forall k | 1 <= k < n
      ensures Linked(r, j0, s0, d.rows, k)
    {
      assert Linked(t, j0, s0, d.rows, k);
    }
  }

  /** Joining the depot to a closed, tagged line finishes it. */
  lemma DepotStep(t: Topology, hubbed: Topology, r: Topology, t0: Topology, d: LineData, layout: Layout)
    requires Readable(d) && ClosedStage(t, t0, d, true)
    requires Joining(t, hubbed, r, |t0.junctions|, |t0.segments|, |d.rows|, d.spurLength, layout)
    ensures Laid(r, t0, d, layout)
  {
    var s2 := |t0.segments| + 4 * |d.rows| - 2;
    assert Extends(t, hubbed);
    DepotStations(t, hubbed, r, t0, d, layout);
    DepotJoins(t, hubbed, r, t0, d, layout);
    assert r.segments[s2 + 1] == t.segments[s2 + 1] && r.segments[s2 + 3] == t.segments[s2 + 3];
  }
}
