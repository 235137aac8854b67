// Setting the environment up: EnvironmentSetup.java. The database is a parameter: a line's
// station rows, end-segment lengths and spur length are given as `LineData`.
module Environment {
  import opened Common
  import opened Carriages
  import opened Graph
  import opened Track
  import opened Stations
  import opened Systems
  import opened LineLayout

  /** `n` new signals, each holding one permit. */
  function Permits(n: nat): (r: seq<int>)
    ensures |r| == n && forall i :: 0 <= i < n ==> r[i] == 1
  {
    seq(n, _ => 1)
  }

  /** `n` new carriage queues, all empty. */
  function EmptyQueues<T>(n: nat): (r: seq<seq<T>>)
    ensures |r| == n && forall i :: 0 <= i < n ==> r[i] == []
  {
    seq(n, _ => [])
  }

  /** Appending `m` new signals and then more new ones appends them all at once. */
  lemma MoreSignals(signals: seq<int>, m: nat, more: seq<int>)
    requires forall i :: 0 <= i < |more| ==> more[i] == 1
    ensures signals + Permits(m) + more == signals + Permits(m + |more|)
  {
  }

  /** Appending `m` new queues and then more new ones appends them all at once. */
  lemma MoreQueues<T>(queues: seq<seq<T>>, m: nat, more: seq<seq<T>>)
    requires forall i :: 0 <= i < |more| ==> more[i] == []
    ensures queues + EmptyQueues(m) + more == queues + EmptyQueues(m + |more|)
  {
  }

  /** The signals a whole line adds: its stations', its two end junctions' and its depot's. */
  lemma LineSignals(signals: seq<int>, n: nat)
    ensures signals + Permits(4 * n) + [1] + [1] + [1, 1] == signals + Permits(4 * n + 4)
  {
    MoreSignals(signals, 4 * n, [1]);
    MoreSignals(signals, 4 * n + 1, [1]);
    MoreSignals(signals, 4 * n + 2, [1, 1]);
  }

  /** The queues a whole line adds: its stations' and links', its end loops' and its depot's. */
  lemma LineQueues<T>(queues: seq<seq<T>>, n: nat)
    requires n >= 1
    ensures queues + EmptyQueues(4 * n - 2) + [[], []] + [[], []] + [[]] + [[], []] == queues + EmptyQueues(4 * n + 5)
  {
    MoreQueues(queues, 4 * n - 2, [[], []]);
    MoreQueues(queues, 4 * n, [[], []]);
    MoreQueues(queues, 4 * n + 2, [[]]);
    MoreQueues(queues, 4 * n + 3, [[], []]);
  }

  /** A station made from its row of the station table, its files under the line's folder. */
  predicate Made(station: Station, trainSystemPath: string, row: StationRow)
  {
    station.name == row.name && station.sequence == row.sequence &&
    station.distanceToPrevious == row.distanceToPrevious && station.depotSequence == row.depotSequence &&
    station.stationPath == trainSystemPath + "\\stations\\" + row.name
  }

  /** The first stations of a line, each made from its row and holding the hubs of its block. */
  predicate Built(stations: seq<Station>, trainSystemPath: string, rows: seq<StationRow>, j0: nat, s0: nat)
  {
    |stations| <= |rows| &&
    forall k :: 0 <= k < |stations| ==>
      Made(stations[k], trainSystemPath, rows[k]) && stations[k].platforms == StationPlatforms(j0, s0, k)
  }

  /**
   * The stations of a line, one per row and in the rows' order, each creating its northbound
   * and then its southbound hub: station `k`'s hubs are the `k`-th block after what was there.
   */
  method CreateStations(net: Network, trainSystemPath: string, rows: seq<StationRow>) returns (stations: seq<Station>)
    requires net.Valid()
    modifies net`segments, net`junctions, net`signals, net`queues
    ensures net.Valid() && net.Topo() == Hubs(old(net.Topo()), |rows|)
    ensures net.signals == old(net.signals) + Permits(4 * |rows|)
    ensures net.queues == old(net.queues) + EmptyQueues(2 * |rows|)
    ensures |stations| == |rows| && Built(stations, trainSystemPath, rows, old(|net.junctions|), old(|net.segments|))
    ensures forall s :: s in stations ==> fresh(s)
  {
    ghost var t0 := net.Topo();
    stations := [];
    var i := 0;
    while i < |rows|
      invariant i <= |rows| && |stations| == i
      invariant net.Valid() && net.Topo() == Hubs(t0, i)
      invariant net.signals == old(net.signals) + Permits(4 * i)
      invariant net.queues == old(net.queues) + EmptyQueues(2 * i)
      invariant Built(stations, trainSystemPath, rows, |t0.junctions|, |t0.segments|)
      invariant forall s :: s in stations ==> fresh(s)
    {
      var station := new Station(net, trainSystemPath, rows[i]);
      MoreSignals(old(net.signals), 4 * i, [1, 1, 1, 1]);
      MoreQueues(old(net.queues), 2 * i, [[], []]);
      stations := stations + [station];
      i := i + 1;
    }
  }

  /** The stations of a line, station `k` with the hubs of the `k`-th block and the distance of row `k`. */
  predicate Placed(stations: seq<Station>, j0: nat, s0: nat, rows: seq<StationRow>)
  {
    |stations| == |rows| &&
    forall k :: 0 <= k < |rows| ==>
      stations[k].platforms == StationPlatforms(j0, s0, k) && stations[k].distanceToPrevious == rows[k].distanceToPrevious
  }

  /**
   * Connects station `i` to station `i - 1`, taking the line from `i` linked stations to
   * `i + 1`, with the two new segments' queues after those of the earlier links.
   */
  method ConnectNext(net: Network, stations: seq<Station>, i: nat, ghost t: Topology, ghost j0: nat, ghost s0: nat,
                     ghost rows: seq<StationRow>, ghost queues: seq<seq<TrainCarriage>>)
    requires 1 <= i < |rows| && Placed(stations, j0, s0, rows)
    requires |t.junctions| == j0 + 4 * |rows| && |t.segments| == s0 + 2 * |rows|
    requires net.Valid() && LinkedUpTo(net.Topo(), t, j0, s0, rows, i)
    requires net.queues == queues + EmptyQueues(2 * i - 2)
    modifies net`segments, net`junctions, net`queues
    ensures net.Valid() && LinkedUpTo(net.Topo(), t, j0, s0, rows, i + 1)
    ensures net.queues == queues + EmptyQueues(2 * i) && net.signals == old(net.signals)
  {
    var preceding, current := stations[i - 1], stations[i];
    assert preceding.platforms == StationPlatforms(j0, s0, i - 1) && current.platforms == StationPlatforms(j0, s0, i);
    LinkStep(net.Topo(), t, j0, s0, rows, i);
    ConnectStations(net, preceding.platforms, current.platforms, current.distanceToPrevious);
    MoreQueues(queues, 2 * i - 2, [[], []]);
  }

  /**
   * Connects every station to the one before it, in line order, each pair by one segment per
   * direction as long as the later station's distance to the previous one.
   */
  method ConnectAll(net: Network, stations: seq<Station>, ghost j0: nat, ghost s0: nat, ghost rows: seq<StationRow>)
    requires net.Valid() && 1 <= |rows| && Placed(stations, j0, s0, rows)
    requires |net.junctions| == j0 + 4 * |rows| && |net.segments| == s0 + 2 * |rows|
    requires forall k :: 0 <= k < |rows| ==> Block(net.Topo(), j0, s0, k, [], [], false)
    modifies net`segments, net`junctions, net`queues
    ensures net.Valid() && LinkedUpTo(net.Topo(), old(net.Topo()), j0, s0, rows, |rows|)
    ensures net.queues == old(net.queues) + EmptyQueues(2 * |rows| - 2) && net.signals == old(net.signals)
  {
    ghost var t, queues := net.Topo(), net.queues;
    LinkedStart(t, j0, s0, rows);
    assert net.queues == queues + EmptyQueues(0);
    var i := 1;
    while i < |stations|
      invariant 1 <= i <= |stations|
      invariant net.Valid() && LinkedUpTo(net.Topo(), t, j0, s0, rows, i)
      invariant net.queues == queues + EmptyQueues(2 * i - 2) && net.signals == old(net.signals)
    {
      ConnectNext(net, stations, i, t, j0, s0, rows, queues);
      i := i + 1;
    }
  }

  /** Marks both platform segments of station `k` with the station, the hub and the direction. */
  method TagPlatforms(net: Network, p: Platforms, k: nat)
    requires PlatformsIn(net.Topo(), p)
    modifies net`segments
    ensures net.Topo() == TagStation(old(net.Topo()), p, k)
  {
    var hub := p.northbound;
    net.SetStation(hub.platformSegment, Some(k));
    net.SetPlatformHub(hub.platformSegment, Some(hub));
    net.SetDirection(hub.platformSegment, Some(Northbound));
    hub := p.southbound;
    net.SetStation(hub.platformSegment, Some(k));
    net.SetPlatformHub(hub.platformSegment, Some(hub));
    net.SetDirection(hub.platformSegment, Some(Southbound));
  }

  /** Marks both platform segments of every station, in line order. */
  method TagAll(net: Network, stations: seq<Station>, ghost j0: nat, ghost s0: nat)
    requires |net.junctions| >= j0 + 4 * |stations| && |net.segments| >= s0 + 2 * |stations|
    requires forall k :: 0 <= k < |stations| ==> stations[k].platforms == StationPlatforms(j0, s0, k)
    modifies net`segments
    ensures net.Topo() == Tagged(old(net.Topo()), j0, s0, |stations|)
  {
    ghost var t := net.Topo();
    var i := 0;
    while i < |stations|
      invariant i <= |stations| && net.Topo() == Tagged(t, j0, s0, i)
    {
      TagPlatforms(net, stations[i].platforms, i);
      i := i + 1;
    }
  }

  /** Creates the stations of a line and links each to the one before it. */
  method LayStations(net: Network, d: LineData) returns (stations: seq<Station>)
    requires net.Valid() && |d.rows| >= 1
    modifies net`segments, net`junctions, net`signals, net`queues
    ensures net.Valid() && LinkedStage(net.Topo(), old(net.Topo()), d)
    ensures net.signals == old(net.signals) + Permits(4 * |d.rows|)
    ensures net.queues == old(net.queues) + EmptyQueues(4 * |d.rows| - 2)
    ensures |stations| == |d.rows| && Built(stations, d.trainSystemPath, d.rows, old(|net.junctions|), old(|net.segments|))
    ensures forall s :: s in stations ==> fresh(s)
  {
    ghost var t0 := net.Topo();
    stations := CreateStations(net, d.trainSystemPath, d.rows);
    ghost var hubs := net.Topo();
    HubsShape(t0, |d.rows|);
    ConnectAll(net, stations, |t0.junctions|, |t0.segments|, d.rows);
    MoreQueues(old(net.queues), 2 * |d.rows|, EmptyQueues(2 * |d.rows| - 2));
    LinkedReached(net.Topo(), hubs, t0, d);
  }

  /** Closes both ends of a linked line: the north loop at the last station, then the south loop at the first. */
  method CloseEnds(net: Network, stations: seq<Station>, ghost t0: Topology, d: LineData)
    requires Readable(d) && |stations| == |d.rows| && Built(stations, d.trainSystemPath, d.rows, |t0.junctions|, |t0.segments|)
    requires net.Valid() && LinkedStage(net.Topo(), t0, d)
    modifies net`segments, net`junctions, net`signals, net`queues
    ensures net.Valid() && ClosedStage(net.Topo(), t0, d, false)
    ensures net.signals == old(net.signals) + [1] + [1] && net.queues == old(net.queues) + [[], []] + [[], []]
  {
    ghost var linked := net.Topo();
    var north, south := stations[|stations| - 1].platforms, stations[0].platforms;
    FormNorthLoop(net, north, d.endLengths[1]);
    ghost var closedNorth := net.Topo();
    FormSouthLoop(net, south, d.endLengths[0]);
    LoopShape(linked, north.northbound.outConnector, north.southbound.inConnector, d.endLengths[1]);
    LoopShape(closedNorth, south.southbound.outConnector, south.northbound.inConnector, d.endLengths[0]);
    LoopsStep(linked, closedNorth, net.Topo(), t0, d);
  }

  /** Tags every platform segment of a closed line. */
  method TagStations(net: Network, stations: seq<Station>, ghost t0: Topology, d: LineData)
    requires Readable(d) && |stations| == |d.rows| && Built(stations, d.trainSystemPath, d.rows, |t0.junctions|, |t0.segments|)
    requires ClosedStage(net.Topo(), t0, d, false)
    modifies net`segments
    ensures ClosedStage(net.Topo(), t0, d, true)
  {
    ghost var closed := net.Topo();
    TagAll(net, stations, |t0.junctions|, |t0.segments|);
    TaggedFrame(closed, |t0.junctions|, |t0.segments|, |d.rows|);
    TagStep(closed, net.Topo(), t0, d);
  }

  /**
   * Creates the depot's hub and joins it to the line: past the last station for the LRT
   * lines, before the first for MRT-3.
   */
  method JoinDepot(net: Network, stations: seq<Station>, ghost t0: Topology, d: LineData, layout: Layout)
    returns (depot: PlatformHub)
    requires Readable(d) && |stations| == |d.rows| && Built(stations, d.trainSystemPath, d.rows, |t0.junctions|, |t0.segments|)
    requires net.Valid() && ClosedStage(net.Topo(), t0, d, true)
    modifies net`segments, net`junctions, net`signals, net`queues
    ensures net.Valid() && Laid(net.Topo(), t0, d, layout)
    ensures net.signals == old(net.signals) + [1, 1] && net.queues == old(net.queues) + [[]] + [[], []]
    ensures var e, s2 := |t0.junctions| + 4 * |d.rows|, |t0.segments| + 4 * |d.rows| - 2;
            depot == PlatformHub(e + 2, s2 + 4, e + 3)
  {
    ghost var tagged := net.Topo();
    var inJunction, outJunction;
    if layout == DepotAtLast {
      var station := stations[|stations| - 1].platforms;
      inJunction, outJunction := station.southbound.inConnector, station.northbound.outConnector;
    } else {
      var station := stations[0].platforms;
      inJunction, outJunction := station.northbound.inConnector, station.southbound.outConnector;
    }
    depot := NewPlatformHub(net, DEPOT_PLATFORM_LENGTH);
    ghost var hubbed := net.Topo();
    ConnectDepot(net, depot, inJunction, outJunction, d.spurLength);
    DepotShape(hubbed, depot, inJunction, outJunction, d.spurLength);
    DepotStep(tagged, hubbed, net.Topo(), t0, d, layout);
  }

  /** Creates and links the stations of a line and closes both its ends. */
  method LayAndClose(net: Network, d: LineData) returns (stations: seq<Station>)
    requires net.Valid() && Readable(d)
    modifies net`segments, net`junctions, net`signals, net`queues
    ensures net.Valid() && ClosedStage(net.Topo(), old(net.Topo()), d, false)
    ensures net.signals == old(net.signals) + Permits(4 * |d.rows|) + [1] + [1]
    ensures net.queues == old(net.queues) + EmptyQueues(4 * |d.rows| - 2) + [[], []] + [[], []]
    ensures |stations| == |d.rows| && Built(stations, d.trainSystemPath, d.rows, old(|net.junctions|), old(|net.segments|))
    ensures forall s :: s in stations ==> fresh(s)
  {
    ghost var t0 := net.Topo();
    stations := LayStations(net, d);
    CloseEnds(net, stations, t0, d);
  }

  /**
   * Lays a whole line out: its stations created, linked and closed at both ends, their
   * platform segments tagged, and the depot's hub joined where `layout` says.
   */
  method LayLine(net: Network, d: LineData, layout: Layout) returns (stations: seq<Station>, depot: PlatformHub)
    requires net.Valid() && Readable(d)
    modifies net`segments, net`junctions, net`signals, net`queues
    ensures net.Valid() && Laid(net.Topo(), old(net.Topo()), d, layout)
    ensures net.signals == old(net.signals) + Permits(4 * |d.rows|) + [1] + [1] + [1, 1]
    ensures net.queues == old(net.queues) + EmptyQueues(4 * |d.rows| - 2) + [[], []] + [[], []] + [[]] + [[], []]
    ensures |stations| == |d.rows| && Built(stations, d.trainSystemPath, d.rows, old(|net.junctions|), old(|net.segments|))
    ensures forall s :: s in stations ==> fresh(s)
    ensures var e, s2 := old(|net.junctions|) + 4 * |d.rows|, old(|net.segments|) + 4 * |d.rows| - 2;
            depot == PlatformHub(e + 2, s2 + 4, e + 3)
  {
    ghost var t0 := net.Topo();
    stations := LayAndClose(net, d);
    TagStations(net, stations, t0, d);
    depot := JoinDepot(net, stations, t0, d, layout);
  }

  /**
   * Lays a line out on the network and returns its train system: the stations created and
   * added, linked in order, both ends closed, every platform segment tagged, and the depot's
   * hub joined to the line where `layout` says. The finished topology is what `Laid` says.
   */
  method SetupLine(net: Network, info: TrainSystemInfo, d: LineData, layout: Layout) returns (system: TrainSystem)
    requires net.Valid() && Readable(d)
    modifies net`segments, net`junctions, net`signals, net`queues
    ensures net.Valid() && Laid(net.Topo(), old(net.Topo()), d, layout)
    ensures net.signals == old(net.signals) + Permits(4 * |d.rows| + 4)
    ensures net.queues == old(net.queues) + EmptyQueues(4 * |d.rows| + 5)
    ensures fresh(system) && system.info == info
    ensures system.inactiveTrains == [] && system.activeTrains == [] && system.passengerList == []
    ensures |system.stations| == |d.rows|
    ensures Built(system.stations, d.trainSystemPath, d.rows, old(|net.junctions|), old(|net.segments|))
    ensures forall s :: s in system.stations ==> fresh(s)
    ensures var e, s2 := old(|net.junctions|) + 4 * |d.rows|, old(|net.segments|) + 4 * |d.rows| - 2;
            system.depot == Some(PlatformHub(e + 2, s2 + 4, e + 3))
  {
    var stations, depot := LayLine(net, d, layout);
    system := new TrainSystem(info);
    system.AddStations(stations);
    system.SetDepot(depot);
    assert system.stations == stations;
    LineSignals(old(net.signals), |d.rows|);
    LineQueues(old(net.queues), |d.rows|);
  }

  /** The information of the lines the simulation knows how to lay out, in the order given. */
  function Recognised(infos: seq<TrainSystemInfo>): (r: seq<TrainSystemInfo>)
    ensures |r| <= |infos|
  {
    if infos == [] then []
    else
      var last := infos[|infos| - 1];
      Recognised(infos[..|infos| - 1]) + (if LayoutOf(last.name).Some? then [last] else [])
  }

  /** A line is set up exactly when it is in the list and its name is one the simulation knows. */
  lemma {:induction false} RecognisedKeeps(infos: seq<TrainSystemInfo>, x: TrainSystemInfo)
    ensures x in Recognised(infos) <==> x in infos && LayoutOf(x.name).Some?
  {
    if infos != [] {
      var init := infos[..|infos| - 1];
      RecognisedKeeps(init, x);
      assert infos == init + [infos[|infos| - 1]];
    }
  }

  /** The information of each train system, in order. */
  function Infos(systems: seq<TrainSystem>): (r: seq<TrainSystemInfo>)
    ensures |r| == |systems| && forall k :: 0 <= k < |systems| ==> r[k] == systems[k].info
  {
    seq(|systems|, k requires 0 <= k < |systems| => systems[k].info)
  }

  /** Whether `after` is `before` followed by any number of copies of `x`. */
  predicate Appended<T(==)>(before: seq<T>, after: seq<T>, x: T)
  {
    |before| <= |after| && after[..|before|] == before && forall i :: |before| <= i < |after| ==> after[i] == x
  }

  /** Appending more copies keeps a sequence appended. */
  lemma AppendedMore<T>(before: seq<T>, after: seq<T>, more: seq<T>, x: T)
    requires Appended(before, after, x) && forall i :: 0 <= i < |more| ==> more[i] == x
    ensures Appended(before, after + more, x)
  {
    assert (after + more)[..|before|] == after[..|before|];
  }

  /** Appending twice appends. */
  lemma AppendedTwice<T>(a: seq<T>, b: seq<T>, c: seq<T>, x: T)
    requires Appended(a, b, x) && Appended(b, c, x)
    ensures Appended(a, c, x)
  {
    assert c[..|a|] == c[..|b|][..|a|];
  }

  /**
   * Whether `r` is `t` with the line `info` laid out from `d`, or `t` unchanged when the
   * simulation does not know the line.
   */
  predicate LineStep(t: Topology, r: Topology, info: TrainSystemInfo, d: LineData)
  {
    match LayoutOf(info.name)
    case None => r == t
    case Some(layout) => Readable(d) && Laid(r, t, d, layout)
  }

  /** Whether stage `j + 1` is stage `j` with line `j` laid out, or skipped. */
  predicate StageLaid(stages: seq<Topology>, infos: seq<TrainSystemInfo>, lines: seq<LineData>, j: nat)
  {
    j + 1 < |stages| && j < |infos| && j < |lines| && LineStep(stages[j], stages[j + 1], infos[j], lines[j])
  }

  /** Whether each topology of `stages` after the first is the one before it with the next line laid out, or skipped. */
  predicate Staged(stages: seq<Topology>, infos: seq<TrainSystemInfo>, lines: seq<LineData>)
  {
    forall j :: 0 <= j < |stages| - 1 ==> StageLaid(stages, infos, lines, j)
  }

  /**
   * One turn of the switch on the line's name: line `i` laid out and its train system
   * returned when the simulation knows the name, nothing otherwise.
   */
  method SetupNext(net: Network, infos: seq<TrainSystemInfo>, lines: seq<LineData>, i: nat, ghost stages: seq<Topology>)
    returns (system: Option<TrainSystem>)
    requires i < |infos| == |lines| && (LayoutOf(infos[i].name).Some? ==> Readable(lines[i]))
    requires net.Valid() && |stages| == i + 1 && stages[i] == net.Topo() && Staged(stages, infos, lines)
    modifies net`segments, net`junctions, net`signals, net`queues
    ensures net.Valid() && Staged(stages + [net.Topo()], infos, lines)
    ensures system.Some? <==> LayoutOf(infos[i].name).Some?
    ensures system.Some? ==> fresh(system.value) && system.value.info == infos[i]
    ensures Appended(old(net.signals), net.signals, 1) && Appended(old(net.queues), net.queues, [])
  {
    var layout := LayoutOf(infos[i].name);
    if layout.Some? {
      var line := SetupLine(net, infos[i], lines[i], layout.value);
      system := Some(line);
      AppendedMore(old(net.signals), old(net.signals), Permits(4 * |lines[i].rows| + 4), 1);
      AppendedMore(old(net.queues), old(net.queues), EmptyQueues(4 * |lines[i].rows| + 5), []);
    } else {
      system := None;
    }
    ghost var next := stages + [net.Topo()];
    forall j | 0 <= j < |next| - 1
      ensures StageLaid(next, infos, lines, j)
    {
      if j < i {
        assert StageLaid(stages, infos, lines, j) && next[j] == stages[j] && next[j + 1] == stages[j + 1];
      }
    }
  }

  /**
   * Sets the environment up: every line whose name the simulation knows is laid out, in the
   * order given, and its train system returned; any other line is skipped. `stages` holds the
   * topology before the first line and after each line.
   */
  method Setup(net: Network, infos: seq<TrainSystemInfo>, lines: seq<LineData>)
    returns (systems: seq<TrainSystem>, ghost stages: seq<Topology>)
    requires net.Valid() && |lines| == |infos|
    requires forall i :: 0 <= i < |infos| && LayoutOf(infos[i].name).Some? ==> Readable(lines[i])
    modifies net`segments, net`junctions, net`signals, net`queues
    ensures net.Valid() && Infos(systems) == Recognised(infos)
    ensures forall s :: s in systems ==> fresh(s)
    ensures |stages| == |infos| + 1 && stages[0] == old(net.Topo()) && stages[|infos|] == net.Topo()
    ensures Staged(stages, infos, lines)
    ensures Appended(old(net.signals), net.signals, 1) && Appended(old(net.queues), net.queues, [])
  {
    systems := [];
    stages := [net.Topo()];
    var i := 0;
    while i < |infos|
      invariant i <= |infos| && net.Valid() && Infos(systems) == Recognised(infos[..i])
      invariant forall s :: s in systems ==> fresh(s)
      invariant |stages| == i + 1 && stages[0] == old(net.Topo()) && stages[i] == net.Topo()
      invariant Staged(stages, infos, lines)
      invariant Appended(old(net.signals), net.signals, 1) && Appended(old(net.queues), net.queues, [])
    {
      assert infos[..i + 1][..i] == infos[..i];
      ghost var signals, queues := net.signals, net.queues;
      var system := SetupNext(net, infos, lines, i, stages);
      AppendedTwice(old(net.signals), signals, net.signals, 1);
      AppendedTwice(old(net.queues), queues, net.queues, []);
      if system.Some? {
        systems := systems + [system.value];
      }
      stages := stages + [net.Topo()];
      i := i + 1;
    }
    assert infos[..i] == infos;
  }
}
