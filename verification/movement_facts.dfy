// Properties of the movement rules: what one `move` can and cannot do.
module MovementFacts {
  import opened Common
  import opened Carriages
  import opened Graph
  import opened MovementRules

  // ---------------------------------------------------------------------------------------
  // decideAction

  /**
   * The priority of `decideAction`, one condition per action: a depot segment always gives a
   * depot stop; a station stop and an end stop need the train to overshoot its segment within
   * one second at maximum speed; on a plain segment a train ahead within the limit comes
   * before the signal, and a signal without permits stops only a train about to overshoot;
   * the train proceeds exactly when none of these applies.
   */
  lemma DecisionPriority(t: Topology, o: Occupancy, head: TrainCarriage, maxVelocity: real, limit: int)
    requires Wired(t) && Fits(t, o) && HeadQueued(t, o, head)
    ensures var loc := o.locations[head];
            var seg := t.segments[loc.segment];
            assert SegmentWired(t, loc.segment);
            var overshoot := loc.clearance + ToMetersPerSecond(maxVelocity) > seg.length as real;
            var end := t.junctions[seg.to.value].end;
            var separation := Separation(t, o, head, limit);
            var near := separation != TRACK_ENDS && separation <= limit as real;
            var closed := o.signals[seg.to.value] == 0;
            var r := Decision(t, o, head, maxVelocity, limit);
            (r == DepotStop <==> seg.depot) &&
            (r == StationStop <==> !seg.depot && seg.station.Some? && overshoot) &&
            (r == EndStop <==> !seg.depot && seg.station.None? && end && overshoot) &&
            (r == SignalStop <==> !seg.depot && seg.station.None? && !end && !near && closed && overshoot) &&
            (r == Proceed <==>
               !seg.depot &&
               (seg.station.Some? || end ==> !overshoot) &&
               (seg.station.None? && !end ==> !near && !(closed && overshoot)))
  {
    assert SegmentWired(t, o.locations[head].segment);
  }

  /**
   * A headway stop is decided exactly when the head is on a plain segment before a junction
   * that is not an end, and the separation to the train ahead is known and within the limit.
   */
  lemma HeadwayStopIff(t: Topology, o: Occupancy, head: TrainCarriage, maxVelocity: real, limit: int)
    requires Wired(t) && Fits(t, o) && HeadQueued(t, o, head)
    ensures var seg := t.segments[o.locations[head].segment];
            assert SegmentWired(t, o.locations[head].segment);
            var separation := Separation(t, o, head, limit);
            Decision(t, o, head, maxVelocity, limit) == HeadwayStop <==>
              !seg.depot && seg.station.None? && !t.junctions[seg.to.value].end &&
              separation != TRACK_ENDS && separation <= limit as real
  {
    assert SegmentWired(t, o.locations[head].segment);
  }

  // ---------------------------------------------------------------------------------------
  // computeDistance

  /** Every placed carriage has a clearance of at least zero. */
  predicate ClearancesNonNegative(o: Occupancy)
  {
    forall c :: c in o.locations ==> o.locations[c].clearance >= 0.0
  }

  /**
   * The walk never reports less than what it has measured so far: unless the track ends, the
   * distance is at least the distance to the end of the head's segment plus the empty
   * segments passed.
   */
  lemma {:induction false} WalkAtLeast(t: Topology, o: Occupancy, s: nat, toEnd: real, empty: int, limit: int)
    requires Wired(t) && Fits(t, o) && s < |t.segments| && ClearancesNonNegative(o)
    ensures var r := Walk(t, o, s, toEnd, empty, limit);
            r == TRACK_ENDS || r >= toEnd + empty as real
    decreases limit - empty - toEnd.Floor
  {
    assert SegmentWired(t, s);
    assert JunctionWired(t, t.segments[s].to.value);
    var outs := Outs(t, s);
    if |outs| > 0 && toEnd + empty as real <= limit as real && |o.queues[outs[0]]| == 0 {
      assert SegmentWired(t, outs[0]);
      WalkAtLeast(t, o, outs[0], toEnd, empty + t.segments[outs[0]].length, limit);
    } else if |outs| > 0 && toEnd + empty as real <= limit as real {
      var q := o.queues[outs[0]];
      assert q[|q| - 1] in o.locations;
    }
  }

  /** The clearance of the last carriage queued on segment `seg`. */
  function LastClearance(o: Occupancy, seg: nat): real
    requires seg < |o.queues| && |o.queues[seg]| > 0 && o.queues[seg][|o.queues[seg]| - 1] in o.locations
  {
    o.locations[o.queues[seg][|o.queues[seg]| - 1]].clearance
  }

  /**
   * The segment `k` steps ahead of `s` along the first out-segments, or `None` when a
   * junction with no out-segment comes first.
   */
  function Ahead(t: Topology, s: nat, k: nat): (r: Option<nat>)
    requires Wired(t) && s < |t.segments|
    ensures r.Some? ==> r.value < |t.segments|
    decreases k
  {
    assert SegmentWired(t, s);
    assert JunctionWired(t, t.segments[s].to.value);
    if k == 0 then Some(s)
    else if |Outs(t, s)| == 0 then None
    else Ahead(t, Outs(t, s)[0], k - 1)
  }

  /** The total length of the first `k` segments ahead of `s` (as far as the track goes). */
  function Passed(t: Topology, s: nat, k: nat): (r: int)
    requires Wired(t) && s < |t.segments|
    ensures r >= 0
    decreases k
  {
    assert SegmentWired(t, s);
    assert JunctionWired(t, t.segments[s].to.value);
    if k == 0 || |Outs(t, s)| == 0 then 0
    else
      var next := Outs(t, s)[0];
      assert SegmentWired(t, next);
      t.segments[next].length + Passed(t, next, k - 1)
  }

  /** The segment `k` steps ahead of `s` is the first one ahead with carriages queued. */
  predicate FirstTrain(t: Topology, o: Occupancy, s: nat, k: nat)
    requires Wired(t) && Fits(t, o) && s < |t.segments|
  {
    k >= 1 && Ahead(t, s, k).Some? && |o.queues[Ahead(t, s, k).value]| > 0 &&
    forall j :: 1 <= j < k ==> Ahead(t, s, j).Some? && |o.queues[Ahead(t, s, j).value]| == 0
  }

  /**
   * The walk finds the first train ahead: when the segment `k` steps ahead is the first one
   * with carriages queued and the walk reaches it within the limit, the distance is what is
   * left of the head's segment, plus the empty metres so far, plus the segments passed on the
   * way, plus the clearance of the last carriage queued there.
   */
  lemma {:induction false} WalkReachesFirstTrain(t: Topology, o: Occupancy, s: nat, toEnd: real, empty: int,
                                                 limit: int, k: nat)
    requires Wired(t) && Fits(t, o) && s < |t.segments| && FirstTrain(t, o, s, k)
    requires toEnd + (empty + Passed(t, s, k - 1)) as real <= limit as real
    ensures Walk(t, o, s, toEnd, empty, limit) ==
              toEnd + (empty + Passed(t, s, k - 1)) as real + LastClearance(o, Ahead(t, s, k).value)
    decreases k
  {
    assert SegmentWired(t, s);
    assert JunctionWired(t, t.segments[s].to.value);
    var next := Outs(t, s)[0];
    assert Ahead(t, s, 1) == Some(next);
    if k > 1 {
      assert SegmentWired(t, next);
      forall j | 1 <= j < k - 1
        ensures Ahead(t, next, j).Some? && |o.queues[Ahead(t, next, j).value]| == 0
      {
        assert Ahead(t, s, j + 1) == Ahead(t, next, j);
      }
      assert Ahead(t, s, k) == Ahead(t, next, k - 1);
      assert FirstTrain(t, o, next, k - 1);
      WalkReachesFirstTrain(t, o, next, toEnd, empty + t.segments[next].length, limit, k - 1);
    }
  }

  /**
   * Without a train queued on any segment the walk reaches within the limit, the track ends
   * or the distance exceeds the limit.
   */
  lemma {:induction false} WalkWithoutTrainAhead(t: Topology, o: Occupancy, s: nat, toEnd: real, empty: int,
                                                 limit: int)
    requires Wired(t) && Fits(t, o) && s < |t.segments|
    requires forall k ::
               (k >= 1 && Ahead(t, s, k).Some? && toEnd + (empty + Passed(t, s, k - 1)) as real <= limit as real) ==>
               |o.queues[Ahead(t, s, k).value]| == 0
    ensures var r := Walk(t, o, s, toEnd, empty, limit);
            r == TRACK_ENDS || r > limit as real
    decreases limit - empty - toEnd.Floor
  {
    assert SegmentWired(t, s);
    assert JunctionWired(t, t.segments[s].to.value);
    if |Outs(t, s)| > 0 && toEnd + empty as real <= limit as real {
      var next := Outs(t, s)[0];
      assert Ahead(t, s, 1) == Some(next);
      assert SegmentWired(t, next);
      var empty' := empty + t.segments[next].length;
      forall k | k >= 1 && Ahead(t, next, k).Some? &&
                 toEnd + (empty' + Passed(t, next, k - 1)) as real <= limit as real
        ensures |o.queues[Ahead(t, next, k).value]| == 0
      {
        assert Ahead(t, s, k + 1) == Ahead(t, next, k);
        assert Passed(t, s, k) == t.segments[next].length + Passed(t, next, k - 1);
      }
      WalkWithoutTrainAhead(t, o, next, toEnd, empty', limit);
    }
  }

  /**
   * A distance within the limit is the distance to the first train ahead: some segment `k`
   * steps ahead has carriages queued, every segment before it is empty, and the distance is
   * the metres up to it plus the clearance of the last carriage queued there.
   */
  lemma {:induction false} WalkWithinLimitFindsTrain(t: Topology, o: Occupancy, s: nat, toEnd: real, empty: int,
                                                     limit: int)
    requires Wired(t) && Fits(t, o) && s < |t.segments|
    requires Walk(t, o, s, toEnd, empty, limit) != TRACK_ENDS
    requires Walk(t, o, s, toEnd, empty, limit) <= limit as real
    ensures exists k: nat :: FirstTrain(t, o, s, k) &&
              Walk(t, o, s, toEnd, empty, limit) ==
                toEnd + (empty + Passed(t, s, k - 1)) as real + LastClearance(o, Ahead(t, s, k).value)
    decreases limit - empty - toEnd.Floor
  {
    assert SegmentWired(t, s);
    assert JunctionWired(t, t.segments[s].to.value);
    var next := Outs(t, s)[0];
    assert Ahead(t, s, 1) == Some(next);
    if |o.queues[next]| > 0 {
      assert FirstTrain(t, o, s, 1);
    } else {
      assert SegmentWired(t, next);
      var empty' := empty + t.segments[next].length;
      WalkWithinLimitFindsTrain(t, o, next, toEnd, empty', limit);
      var k: nat :| FirstTrain(t, o, next, k) &&
              Walk(t, o, next, toEnd, empty', limit) ==
                toEnd + (empty' + Passed(t, next, k - 1)) as real + LastClearance(o, Ahead(t, next, k).value);
      assert Ahead(t, s, k + 1) == Ahead(t, next, k);
      assert Passed(t, s, k) == t.segments[next].length + Passed(t, next, k - 1);
      forall j | 1 <= j < k + 1
        ensures Ahead(t, s, j).Some? && |o.queues[Ahead(t, s, j).value]| == 0
      {
        if j > 1 {
          assert Ahead(t, s, j) == Ahead(t, next, j - 1);
        }
      }
      assert FirstTrain(t, o, s, k + 1);
    }
  }

  /**
   * The distance the head measures to a train on a later segment is never negative: it is
   * at least what is left of the head's own segment.
   */
  lemma DistanceAheadNonNegative(t: Topology, o: Occupancy, head: TrainCarriage, limit: int)
    requires Wired(t) && Fits(t, o) && head in o.locations && ClearancesNonNegative(o)
    requires o.locations[head].clearance <= t.segments[o.locations[head].segment].length as real
    ensures var r := Distance(t, o, head, None, limit);
            r == TRACK_ENDS || r >= 0.0
  {
    var loc := o.locations[head];
    WalkAtLeast(t, o, loc.segment, t.segments[loc.segment].length as real - loc.clearance, 0, limit);
  }

  /** Along every queue the clearances do not increase: the front carriage is the furthest along. */
  predicate QueuesOrdered(o: Occupancy)
  {
    forall s, i, j ::
      0 <= s < |o.queues| && 0 <= i < j < |o.queues[s]| &&
      o.queues[s][i] in o.locations && o.queues[s][j] in o.locations ==>
      o.locations[o.queues[s][i]].clearance >= o.locations[o.queues[s][j]].clearance
  }

  /**
   * The separation `decideAction` measures is never negative when every queue is ordered by
   * clearance: to the carriage queued just before the head it is a difference of clearances,
   * and past the head's segment it is at least what is left of that segment.
   */
  lemma SeparationNonNegative(t: Topology, o: Occupancy, head: TrainCarriage, limit: int)
    requires Wired(t) && Fits(t, o) && HeadQueued(t, o, head)
    requires ClearancesNonNegative(o) && QueuesOrdered(o)
    requires o.locations[head].clearance <= t.segments[o.locations[head].segment].length as real
    ensures var r := Separation(t, o, head, limit);
            r == TRACK_ENDS || r >= 0.0
  {
    var q := o.queues[o.locations[head].segment];
    if q[0] != head {
      var i := IndexOf(q, head);
      assert q[i - 1] in o.locations && q[i] in o.locations;
    } else {
      DistanceAheadNonNegative(t, o, head, limit);
    }
  }

  // ---------------------------------------------------------------------------------------
  // move

  /** Every stop leaves the occupancy as it was and reports the decided action. */
  lemma StopsKeepOccupancy(t: Topology, o: Occupancy, cs: seq<TrainCarriage>, f: Flags, active: bool,
                           stops: seq<nat>, maxVelocity: real, limit: int)
    requires TickOk(t, o, cs, f, active, stops, maxVelocity, limit)
    ensures var r := Tick(t, o, cs, f, active, stops, maxVelocity, limit);
            r.action != Proceed ==>
              r.occupancy == o && r.action == Decision(t, o, cs[0], maxVelocity, limit)
  {
  }

  /** A train that proceeds runs at its maximum velocity and every carriage advances. */
  lemma ProceedAdvances(t: Topology, o: Occupancy, cs: seq<TrainCarriage>, f: Flags, active: bool,
                        stops: seq<nat>, maxVelocity: real, limit: int)
    requires TickOk(t, o, cs, f, active, stops, maxVelocity, limit)
    ensures var r := Tick(t, o, cs, f, active, stops, maxVelocity, limit);
            r.action == Proceed ==>
              r.flags.velocity == maxVelocity &&
              Moves(t, o, cs, f, active, stops, maxVelocity, limit) &&
              r.occupancy == Advance(t, o, cs, 0, ToMetersPerSecond(maxVelocity), active)
  {
  }

  /** An end stop happens only once per arrival: it needs `waitedAtEnd` clear and then sets it. */
  lemma EndStopLatches(t: Topology, o: Occupancy, cs: seq<TrainCarriage>, f: Flags, active: bool,
                       stops: seq<nat>, maxVelocity: real, limit: int)
    requires TickOk(t, o, cs, f, active, stops, maxVelocity, limit)
    ensures var r := Tick(t, o, cs, f, active, stops, maxVelocity, limit);
            r.action == EndStop ==> !f.waitedAtEnd && r.flags.waitedAtEnd && r.flags.velocity == 0.0
    ensures var r := Tick(t, o, cs, f, active, stops, maxVelocity, limit);
            f.waitedAtEnd ==> r.action != EndStop
  {
  }

  /** A depot stop is reported only by an inactive train; an active train in the depot moves on. */
  lemma DepotStopOnlyInactive(t: Topology, o: Occupancy, cs: seq<TrainCarriage>, f: Flags, active: bool,
                              stops: seq<nat>, maxVelocity: real, limit: int)
    requires TickOk(t, o, cs, f, active, stops, maxVelocity, limit)
    ensures var r := Tick(t, o, cs, f, active, stops, maxVelocity, limit);
            r.action == DepotStop ==> !active
    ensures var r := Tick(t, o, cs, f, active, stops, maxVelocity, limit);
            active && Decision(t, o, cs[0], maxVelocity, limit) == DepotStop ==> r.action == Proceed
  {
  }

  /**
   * A station stop happens only when the train may stop at the station, the station is one
   * of its stops (or the train is retiring), and it has not just stopped there; afterwards
   * both station markers name the station, the end latch is clear and the train stands still.
   */
  lemma StationStopConditions(t: Topology, o: Occupancy, cs: seq<TrainCarriage>, f: Flags, active: bool,
                              stops: seq<nat>, maxVelocity: real, limit: int)
    requires TickOk(t, o, cs, f, active, stops, maxVelocity, limit)
    ensures var r := Tick(t, o, cs, f, active, stops, maxVelocity, limit);
            r.action == StationStop ==>
              HeadStation(t, o, cs).Some? &&
              var st := HeadStation(t, o, cs).value;
              (active || (f.previousPassedStation != Some(st) && !f.disembarkedWhenRemoved)) &&
              (st in stops || !active) &&
              (f.waitedAtEnd || f.previousStoppedStation != Some(st)) &&
              r.flags.previousPassedStation == Some(st) && r.flags.previousStoppedStation == Some(st) &&
              !r.flags.waitedAtEnd && r.flags.velocity == 0.0
  {
  }

  // ---------------------------------------------------------------------------------------
  // Queues and signals under movement

  /** The number of carriages queued over all segments. */
  function QueuedTotal(queues: seq<seq<TrainCarriage>>): nat
  {
    if |queues| == 0 then 0 else QueuedTotal(queues[..|queues| - 1]) + |queues[|queues| - 1]|
  }

  /** The free permits over all signals. */
  function PermitTotal(signals: seq<int>): int
  {
    if |signals| == 0 then 0 else PermitTotal(signals[..|signals| - 1]) + signals[|signals| - 1]
  }

  /** Replacing one queue changes the total by the difference of the two lengths. */
  lemma {:induction false} QueuedTotalUpdate(queues: seq<seq<TrainCarriage>>, i: nat, q: seq<TrainCarriage>)
    requires i < |queues|
    ensures QueuedTotal(queues[i := q]) == QueuedTotal(queues) - |queues[i]| + |q|
    decreases |queues|
  {
    var n := |queues| - 1;
    if i == n {
      assert queues[i := q][..n] == queues[..n];
    } else {
      assert queues[i := q][..n] == queues[..n][i := q];
      QueuedTotalUpdate(queues[..n], i, q);
    }
  }

  /** Replacing one signal changes the total by the difference of the two permit counts. */
  lemma {:induction false} PermitTotalUpdate(signals: seq<int>, i: nat, v: int)
    requires i < |signals|
    ensures PermitTotal(signals[i := v]) == PermitTotal(signals) - signals[i] + v
    decreases |signals|
  {
    var n := |signals| - 1;
    if i == n {
      assert signals[i := v][..n] == signals[..n];
    } else {
      assert signals[i := v][..n] == signals[..n][i := v];
      PermitTotalUpdate(signals[..n], i, v);
    }
  }

  /** A carriage moving from one queue to another keeps the number of queued carriages. */
  lemma {:induction false} TransferKeepsTotal(queues: seq<seq<TrainCarriage>>, from: nat, to: nat, c: TrainCarriage)
    requires from < |queues| && to < |queues| && |queues[from]| > 0
    ensures QueuedTotal(Transfer(queues, from, to, c)) == QueuedTotal(queues)
  {
    var left := queues[from := queues[from][1..]];
    QueuedTotalUpdate(queues, from, queues[from][1..]);
    QueuedTotalUpdate(left, to, left[to] + [c]);
  }

  /**
   * A crossing changes the free permits by one taken for the head and one returned for the
   * tail; a train of one carriage takes one and returns one.
   */
  lemma {:induction false} ResignalTotal(signals: seq<int>, entry: nat, exit: nat, head: bool, tail: bool)
    requires entry < |signals| && exit < |signals|
    ensures PermitTotal(Resignal(signals, entry, exit, head, tail)) ==
            PermitTotal(signals) - (if head then 1 else 0) + (if tail then 1 else 0)
  {
    var taken := if head then signals[entry := signals[entry] - 1] else signals;
    assert PermitTotal(taken) == PermitTotal(signals) - (if head then 1 else 0) by {
      if head {
        PermitTotalUpdate(signals, entry, signals[entry] - 1);
      }
    }
    if tail {
      PermitTotalUpdate(taken, exit, taken[exit] + 1);
    }
  }

  /** One carriage's step keeps the number of queued carriages. */
  lemma StepKeepsQueuedTotal(t: Topology, o: Occupancy, cs: seq<TrainCarriage>, i: nat, d: real, active: bool)
    requires Closed(t) && Sized(t, o) && Placed(t, o, cs) && i < |cs| && CanStep(t, o, cs, i, d, active)
    ensures QueuedTotal(Step(t, o, cs, i, d, active).queues) == QueuedTotal(o.queues)
  {
    if Crosses(t, o, cs, i, d) {
      var loc := o.locations[cs[i]];
      var dest := Landing(t, o, cs, i, d, active);
      TransferKeepsTotal(o.queues, loc.segment, dest.segment, cs[i]);
    }
  }

  /** Moving a whole train keeps the number of queued carriages. */
  lemma {:induction false} AdvanceKeepsQueuedTotal(t: Topology, o: Occupancy, cs: seq<TrainCarriage>, i: nat,
                                                   d: real, active: bool)
    requires Closed(t) && Sized(t, o) && Placed(t, o, cs) && i <= |cs| && AdvanceOk(t, o, cs, i, d, active)
    ensures QueuedTotal(Advance(t, o, cs, i, d, active).queues) == QueuedTotal(o.queues)
    decreases |cs| - i
  {
    if i < |cs| {
      StepKeepsQueuedTotal(t, o, cs, i, d, active);
      AdvanceKeepsQueuedTotal(t, Step(t, o, cs, i, d, active), cs, i + 1, d, active);
    }
  }

  /** One carriage's step keeps every queued carriage placed on an existing segment. */
  lemma StepKeepsFits(t: Topology, o: Occupancy, cs: seq<TrainCarriage>, i: nat, d: real, active: bool)
    requires Closed(t) && Fits(t, o) && Placed(t, o, cs) && i < |cs| && CanStep(t, o, cs, i, d, active)
    ensures Fits(t, Step(t, o, cs, i, d, active))
  {
    var r := Step(t, o, cs, i, d, active);
    var dest := Landing(t, o, cs, i, d, active);
    assert r.locations == o.locations[cs[i] := dest];
    if Crosses(t, o, cs, i, d) {
      var from := o.locations[cs[i]].segment;
      assert r.queues == Transfer(o.queues, from, dest.segment, cs[i]);
      forall s, k | 0 <= s < |r.queues| && 0 <= k < |r.queues[s]|
        ensures r.queues[s][k] in r.locations
      {
        var left := o.queues[from := o.queues[from][1..]];
        if s == dest.segment && k == |left[s]| {
          assert r.queues[s][k] == cs[i];
        } else if s == dest.segment {
          assert r.queues[s][k] == left[s][k];
          if s == from {
            assert left[s][k] == o.queues[s][k + 1];
          }
        } else if s == from {
          assert r.queues[s][k] == o.queues[s][k + 1];
        } else {
          assert r.queues[s][k] == o.queues[s][k];
        }
      }
    }
  }

  /** Moving a whole train keeps every queued carriage placed on an existing segment. */
  lemma {:induction false} AdvanceKeepsFits(t: Topology, o: Occupancy, cs: seq<TrainCarriage>, i: nat, d: real,
                                            active: bool)
    requires Closed(t) && Fits(t, o) && Placed(t, o, cs) && i <= |cs| && AdvanceOk(t, o, cs, i, d, active)
    ensures Fits(t, Advance(t, o, cs, i, d, active))
    decreases |cs| - i
  {
    if i < |cs| {
      StepKeepsFits(t, o, cs, i, d, active);
      AdvanceKeepsFits(t, Step(t, o, cs, i, d, active), cs, i + 1, d, active);
    }
  }

  /**
   * A carriage that starts at a clearance of at least zero and moves forward ends on a
   * segment with a clearance of at least zero and below that segment's length.
   */
  lemma StepLandsInside(t: Topology, o: Occupancy, cs: seq<TrainCarriage>, i: nat, d: real, active: bool)
    requires Closed(t) && Sized(t, o) && Placed(t, o, cs) && i < |cs| && CanStep(t, o, cs, i, d, active)
    requires o.locations[cs[i]].clearance >= 0.0 && d >= 0.0
    ensures var loc := Step(t, o, cs, i, d, active).locations[cs[i]];
            0.0 <= loc.clearance < t.segments[loc.segment].length as real
    ensures Crosses(t, o, cs, i, d) ==>
              Step(t, o, cs, i, d, active).queues[Landing(t, o, cs, i, d, active).segment] ==
              o.queues[o.locations[cs[i]].segment := o.queues[o.locations[cs[i]].segment][1..]]
                [Landing(t, o, cs, i, d, active).segment] + [cs[i]]
  {
    var loc := o.locations[cs[i]];
    if !Crosses(t, o, cs, i, d) {
      StepStaying(t, o, cs, i, d, active);
    }
  }

  // ---------------------------------------------------------------------------------------
  // waitAtStation and waitAtEnd

  /** From counter `c` below the wait `w`, a wait reports "still waiting" `w - c - 1` times, then ends. */
  lemma {:induction false} PollsUntilDoneCount(c: int, w: int)
    requires 0 <= c < w
    ensures PollsUntilDone(c, w) == w - c
    decreases w - c
  {
    if c + 1 < w {
      PollsUntilDoneCount(c + 1, w);
    }
  }

  // ---------------------------------------------------------------------------------------
  // setTrainAtSegment

  /** Laying out the first `n` carriages puts carriage `k` on the segment, `Offset` behind the head. */
  lemma {:induction false} SpawnedPlace(locs: map<TrainCarriage, Location>, cs: seq<TrainCarriage>, s: nat,
                                        head: real, gap: real, n: nat, k: nat)
    requires k < n <= |cs| && Distinct(cs)
    ensures cs[k] in Spawned(locs, cs, s, head, gap, n)
    ensures Spawned(locs, cs, s, head, gap, n)[cs[k]] == Location(s, head - Offset(cs, k, gap))
  {
    if k < n - 1 {
      SpawnedPlace(locs, cs, s, head, gap, n - 1, k);
      assert cs[k] != cs[n - 1];
    }
  }

  /**
   * Laying out carriages adds exactly the laid-out carriages to the placed ones and leaves
   * every other carriage where it was.
   */
  lemma {:induction false} SpawnedKeepsOthers(locs: map<TrainCarriage, Location>, cs: seq<TrainCarriage>,
                                              s: nat, head: real, gap: real, n: nat)
    requires n <= |cs|
    ensures forall c :: c in Spawned(locs, cs, s, head, gap, n) <==> c in locs || c in cs[..n]
    ensures forall c :: c in locs && c !in cs[..n] ==> Spawned(locs, cs, s, head, gap, n)[c] == locs[c]
  {
    if n > 0 {
      SpawnedKeepsOthers(locs, cs, s, head, gap, n - 1);
      assert cs[..n] == cs[..n - 1] + [cs[n - 1]];
    }
  }

  /**
   * After `setTrainAtSegment`, the head has cleared the whole segment and every carriage
   * stands `Offset` behind it: the lengths of the carriages before it, each plus the gap.
   */
  lemma SpawnedLayout(locs: map<TrainCarriage, Location>, cs: seq<TrainCarriage>, s: nat, head: real,
                      gap: real)
    requires |cs| > 0 && Distinct(cs)
    ensures var r := Spawned(locs, cs, s, head, gap, |cs|);
            cs[0] in r && r[cs[0]] == Location(s, head) &&
            forall k :: 0 <= k < |cs| ==> cs[k] in r && r[cs[k]] == Location(s, head - Offset(cs, k, gap))
  {
    forall k | 0 <= k < |cs|
      ensures cs[k] in Spawned(locs, cs, s, head, gap, |cs|)
      ensures Spawned(locs, cs, s, head, gap, |cs|)[cs[k]] == Location(s, head - Offset(cs, k, gap))
    {
      SpawnedPlace(locs, cs, s, head, gap, |cs|, k);
    }
  }
}
