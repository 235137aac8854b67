// Putting a train into service and taking it out: `deploy` and `pullOut` of Train.java.
module Lifecycle {
  import opened Common
  import opened Carriages
  import opened Graph
  import opened Property
  import opened Movement
  import opened Trains
  import opened Systems

  /** Moving `x` from one list to another loses no object and adds none. */
  lemma TransferKeepsAll<T>(from: seq<T>, to: seq<T>, x: T)
    requires x in from
    ensures multiset(RemoveFirst(from, x)) + multiset(to + [x]) == multiset(from) + multiset(to)
    ensures x in to + [x]
  {
  }

  /**
   * `deploy`: the train leaves the inactive list (its first occurrence, if any), joins the end
   * of the active list and becomes active.
   */
  method Deploy(train: Train, system: TrainSystem)
    modifies system`inactiveTrains, system`activeTrains, train.movement`isActive
    ensures system.inactiveTrains == RemoveFirst(old(system.inactiveTrains), train)
    ensures system.activeTrains == old(system.activeTrains) + [train]
    ensures train.movement.isActive
  {
    system.inactiveTrains := RemoveFirst(system.inactiveTrains, train);
    system.activeTrains := system.activeTrains + [train];
    train.movement.isActive := true;
  }

  /** Whether every carriage has a location. */
  predicate Placed(locs: map<TrainCarriage, Location>, cs: seq<TrainCarriage>)
  {
    forall k :: 0 <= k < |cs| ==> cs[k] in locs
  }

  /** The segment each carriage is on, in carriage order. */
  function SegmentsOf(locs: map<TrainCarriage, Location>, cs: seq<TrainCarriage>): (segs: seq<nat>)
    requires Placed(locs, cs)
    ensures |segs| == |cs| && forall k :: 0 <= k < |cs| ==> segs[k] == locs[cs[k]].segment
  {
    seq(|cs|, k requires 0 <= k < |cs| => locs[cs[k]].segment)
  }

  /**
   * The junction each segment leads out of (`Segment.getFrom`), by segment index; -1 for a
   * segment no junction leads into.
   */
  function FromTable(t: Topology): (table: seq<int>)
    ensures |table| == |t.segments|
    ensures forall s :: 0 <= s < |table| ==>
              (table[s] >= 0 <==> From(t, s).Some?) && (table[s] >= 0 ==> table[s] == From(t, s).value)
  {
    seq(|t.segments|, s requires 0 <= s < |t.segments| => if From(t, s).Some? then From(t, s).value as int else -1)
  }

  /**
   * What the release loop of `pullOut` dereferences without failing: every segment exists
   * and leads out of one of the junctions.
   */
  predicate Releasable(table: seq<int>, segs: seq<nat>, junctions: nat)
  {
    forall k :: 0 <= k < |segs| ==> segs[k] < |table| && 0 <= table[segs[k]] < junctions
  }

  /** The segments the first `n` carriages are on, as a set. */
  function Occupied(segs: seq<nat>, n: nat): set<nat>
    requires n <= |segs|
  {
    if n == 0 then {} else Occupied(segs, n - 1) + {segs[n - 1]}
  }

  /** A segment is occupied exactly when one of the first `n` carriages is on it. */
  lemma {:induction false} OccupiedMembers(segs: seq<nat>, n: nat, s: nat)
    requires n <= |segs|
    ensures s in Occupied(segs, n) <==> exists k :: 0 <= k < n && segs[k] == s
  {
    if n > 0 {
      OccupiedMembers(segs, n - 1, s);
    }
  }

  /**
   * The signals after the release loop of `pullOut` AS WRITTEN has run over the first `n`
   * carriages: the signal of the junction each carriage's segment starts from gets one more
   * permit per carriage, so a segment holding several carriages is released several times.
   */
  function ReleasePerCarriage(table: seq<int>, segs: seq<nat>, n: nat, signals: seq<int>): (r: seq<int>)
    requires Releasable(table, segs, |signals|) && n <= |segs|
    ensures |r| == |signals|
    ensures forall j :: 0 <= j < |r| ==> r[j] >= signals[j]
  {
    if n == 0 then signals
    else
      var before := ReleasePerCarriage(table, segs, n - 1, signals);
      var j := table[segs[n - 1]];
      before[j := before[j] + 1]
  }

  /**
   * The signals after the release loop as intended has run over the first `n` carriages: the
   * signal a train holds on a segment is released once, when the first carriage on that
   * segment is reached, whatever number of carriages are on it.
   */
  function ReleasePerSegment(table: seq<int>, segs: seq<nat>, n: nat, signals: seq<int>): (r: seq<int>)
    requires Releasable(table, segs, |signals|) && n <= |segs|
    ensures |r| == |signals|
  {
    if n == 0 then signals
    else
      var before := ReleasePerSegment(table, segs, n - 1, signals);
      var s := segs[n - 1];
      if s in Occupied(segs, n - 1) then before
      else
        var j := table[s];
        before[j := before[j] + 1]
  }

  /** The number of segments of `occupied` that start from junction `j`. */
  function FromCount(table: seq<int>, occupied: set<nat>, j: int): nat
  {
    |set s | s in occupied && LeadsOutOf(table, s, j)|
  }

  /** Whether segment `s` leads out of junction `j`. */
  predicate LeadsOutOf(table: seq<int>, s: nat, j: int)
  {
    s < |table| && table[s] == j
  }

  /** One more segment adds one to the count of the junction it starts from and to no other. */
  lemma FromCountAdd(table: seq<int>, occupied: set<nat>, s: nat, j: int)
    requires s !in occupied && s < |table|
    ensures FromCount(table, occupied + {s}, j) == FromCount(table, occupied, j) + (if table[s] == j then 1 else 0)
  {
    var before := set x | x in occupied && LeadsOutOf(table, x, j);
    if table[s] == j {
      assert (set x | x in occupied + {s} && LeadsOutOf(table, x, j)) == before + {s};
    } else {
      assert (set x | x in occupied + {s} && LeadsOutOf(table, x, j)) == before;
    }
  }

  /**
   * The intended release gives every junction's signal one permit per occupied segment that
   * starts from it.
   */
  lemma {:induction false} ReleasePerSegmentCounts(table: seq<int>, segs: seq<nat>, n: nat, signals: seq<int>)
    requires Releasable(table, segs, |signals|) && n <= |segs|
    ensures forall j :: 0 <= j < |signals| ==>
              ReleasePerSegment(table, segs, n, signals)[j] == signals[j] + FromCount(table, Occupied(segs, n), j)
  {
    if n == 0 {
      forall j | 0 <= j < |signals|
        ensures FromCount(table, Occupied(segs, 0), j) == 0
      {
        assert (set x | x in Occupied(segs, 0) && LeadsOutOf(table, x, j)) == {};
      }
    } else {
      ReleasePerSegmentCounts(table, segs, n - 1, signals);
      var s := segs[n - 1];
      if s in Occupied(segs, n - 1) {
        assert Occupied(segs, n) == Occupied(segs, n - 1);
      } else {
        forall j | 0 <= j < |signals|
          ensures ReleasePerSegment(table, segs, n, signals)[j] == signals[j] + FromCount(table, Occupied(segs, n), j)
        {
          FromCountAdd(table, Occupied(segs, n - 1), s, j);
        }
      }
    }
  }

  /**
   * When the train holds the signal of every segment it occupies (no permit left) and no two
   * of those segments start from the same junction, the intended release gives each of those
   * signals back its single permit and leaves every other signal as it was.
   */
  lemma ReleasePerSegmentRestores(table: seq<int>, segs: seq<nat>, signals: seq<int>, j: nat)
    requires Releasable(table, segs, |signals|) && j < |signals|
    requires forall k :: 0 <= k < |segs| ==> signals[table[segs[k]]] == 0
    requires forall k, l :: 0 <= k < |segs| && 0 <= l < |segs| && table[segs[k]] == table[segs[l]] ==> segs[k] == segs[l]
    ensures (exists k :: 0 <= k < |segs| && table[segs[k]] == j) ==>
              ReleasePerSegment(table, segs, |segs|, signals)[j] == 1
    ensures (forall k :: 0 <= k < |segs| ==> table[segs[k]] != j) ==>
              ReleasePerSegment(table, segs, |segs|, signals)[j] == signals[j]
  {
    var occupied := Occupied(segs, |segs|);
    ReleasePerSegmentCounts(table, segs, |segs|, signals);
    var from := set x | x in occupied && LeadsOutOf(table, x, j);
    assert ReleasePerSegment(table, segs, |segs|, signals)[j] == signals[j] + |from|;
    if k :| 0 <= k < |segs| && table[segs[k]] == j {
      OccupiedMembers(segs, |segs|, segs[k]);
      assert from == {segs[k]} by {
        forall x | x in from
          ensures x == segs[k]
        {
          OccupiedMembers(segs, |segs|, x);
        }
      }
    } else {
      forall x: nat
        ensures x !in from
      {
        OccupiedMembers(segs, |segs|, x);
      }
      assert from == {};
    }
  }

  /**
   * The release as written over-fills a signal: a train of two carriages on one segment,
   * whose signal it holds, leaves that signal with two permits, where a junction's signal is
   * made with one; the intended release leaves it with one.
   */
  lemma PerCarriageReleaseOverfills()
    ensures var t := Topology([Segment(100, None, false, Some(0), None, None, None, false)], [Junction(false, [0])]);
            FromTable(t) == [0] &&
            Releasable(FromTable(t), [0, 0], 1) &&
            ReleasePerCarriage(FromTable(t), [0, 0], 2, [0]) == [2] &&
            ReleasePerSegment(FromTable(t), [0, 0], 2, [0]) == [1]
  {
    var t := Topology([Segment(100, None, false, Some(0), None, None, None, false)], [Junction(false, [0])]);
    assert From(t, 0) == Some(0);
    var table := FromTable(t);
    assert table == [0];
    var segs := [0, 0];
    assert [0][0 := 0 + 1] == [1] && [1][0 := 1 + 1] == [2] && {} + {0} == {0};
    assert ReleasePerCarriage(table, segs, 1, [0]) == [1];
    assert ReleasePerSegment(table, segs, 1, [0]) == [1];
    assert Occupied(segs, 1) == {0};
  }

  /** The queues, with those of the segments in `seen` emptied. */
  function Cleared<T>(queues: seq<seq<T>>, seen: set<nat>): (r: seq<seq<T>>)
    ensures |r| == |queues|
    ensures forall s :: 0 <= s < |queues| ==> r[s] == if s in seen then [] else queues[s]
  {
    seq(|queues|, s requires 0 <= s < |queues| => if s in seen then [] else queues[s])
  }

  /** Emptying one more queue extends the set of emptied segments by one. */
  lemma ClearOneMore<T>(queues: seq<seq<T>>, seen: set<nat>, s: nat)
    requires s < |queues|
    ensures Cleared(queues, seen)[s := []] == Cleared(queues, seen + {s})
  {
  }

  /**
   * The clearing and release loop of `pullOut`, with the signal of each occupied segment
   * released once: the queue of every segment a carriage is on is emptied, and the signals
   * are released per segment.
   */
  method ClearAndRelease<T>(table: seq<int>, segs: seq<nat>, queues: seq<seq<T>>, signals: seq<int>)
    returns (queues': seq<seq<T>>, signals': seq<int>)
    requires Releasable(table, segs, |signals|) && |queues| == |table|
    ensures |queues'| == |queues|
    ensures forall s :: 0 <= s < |queues| ==> queues'[s] == if s in Occupied(segs, |segs|) then [] else queues[s]
    ensures signals' == ReleasePerSegment(table, segs, |segs|, signals)
  {
    queues', signals' := queues, signals;
    var seen: set<nat> := {};
    assert queues == Cleared(queues, seen);
    for i := 0 to |segs|
      invariant seen == Occupied(segs, i)
      invariant queues' == Cleared(queues, seen)
      invariant signals' == ReleasePerSegment(table, segs, i, signals)
    {
      var s := segs[i];
      if s !in seen {
        ClearOneMore(queues, seen, s);
        queues' := queues'[s := []];
        var j := table[s];
        signals' := signals'[j := signals'[j] + 1];
        seen := seen + {s};
      }
    }
  }

  /**
   * `pullOut`, with the signal of each occupied segment released once: the train moves from
   * the active to the inactive list, the queues of its segments are emptied, their signals
   * released, and the train is built afresh.
   */
  method PullOut(train: Train, system: TrainSystem, net: Network, entities: seq<CarriageEntity>, lengthen: bool,
                 spread: int, ids: SegmentIdentifiers)
    requires net.Valid() && Placed(net.locations, train.carriages)
    requires Releasable(FromTable(net.Topo()), SegmentsOf(net.locations, train.carriages), |net.signals|)
    requires |Composition(entities)| > 0 && 0 <= spread < BASE_WAITING_TIME / 2
    modifies system`activeTrains, system`inactiveTrains, net`queues, net`signals
    modifies train`carriages, train`movement, train`property
    ensures system.activeTrains == RemoveFirst(old(system.activeTrains), train)
    ensures system.inactiveTrains == old(system.inactiveTrains) + [train]
    ensures net.Valid() && |net.queues| == old(|net.queues|)
    ensures var segs := SegmentsOf(net.locations, old(train.carriages));
            forall s :: 0 <= s < |net.queues| ==>
              net.queues[s] == if s in Occupied(segs, |segs|) then [] else old(net.queues[s])
    ensures var segs := SegmentsOf(net.locations, old(train.carriages));
            net.signals == ReleasePerSegment(FromTable(net.Topo()), segs, |segs|, old(net.signals))
    ensures Composed(train.carriages, Composition(entities), train.identifier) && Distinct(train.carriages)
    ensures fresh(train.movement) && train.movement.Valid() && !train.movement.isActive
    ensures fresh(train.property) &&
            train.property.Summarises(train.identifier, None, ids, train.carriages[0], |train.carriages|)
  {
    system.activeTrains := RemoveFirst(system.activeTrains, train);
    system.inactiveTrains := system.inactiveTrains + [train];
    var t, segs := net.Topo(), SegmentsOf(net.locations, train.carriages);
    var queues, signals := ClearAndRelease(FromTable(t), segs, net.queues, net.signals);
    net.queues, net.signals := queues, signals;
    train.ResetTrain(entities, lengthen, spread, ids);
    assert net.queues == queues && net.signals == signals && net.Topo() == t;
  }
}
