// The movement of one train: the TrainMovement class of TrainMovement.java.
module Movement {
  import opened Common
  import opened Carriages
  import opened Graph
  import opened MovementRules

  /** The base dwell time at a station (s). */
  const BASE_WAITING_TIME: int := 30
  /** The dwell time at the end of the line (s). */
  const END_WAITING_TIME: int := 300

  class TrainMovement {
    const endWaitingTime: int
    /** Maximum velocity (km/h). */
    const maxVelocity: real
    /** The carriages of the train that owns this movement, head first. */
    const carriages: seq<TrainCarriage>
    const waitingTime: int
    const deceleration: real
    /** The stations this train stops at (indices within its train system). */
    var stationStops: seq<nat>
    var waitedTime: int
    var endWaitedTime: int
    /** Current velocity (km/h). */
    var velocity: real
    var previousStoppedStation: Option<nat>
    var previousPassedStation: Option<nat>
    var waitedAtEnd: bool
    var disembarkedWhenRemoved: bool
    /** Whether the train is in service; an inactive train heads back to the depot. */
    var isActive: bool

    /** The dwell counters stay below their limits, so every wait ends. */
    predicate Valid()
      reads this
    {
      0 <= waitedTime < waitingTime && 0 <= endWaitedTime < endWaitingTime
    }

    function State(): Flags
      reads this
    {
      Flags(velocity, waitedAtEnd, previousStoppedStation, previousPassedStation, disembarkedWhenRemoved)
    }

    /**
     * A new movement. The dwell time at stations is the base time lengthened or shortened by a
     * random `spread` below half the base time; both random draws are parameters here.
     */
    constructor (maxVelocity: real, deceleration: real, carriages: seq<TrainCarriage>, lengthen: bool, spread: int)
      requires 0 <= spread < BASE_WAITING_TIME / 2
      ensures Valid()
      ensures waitingTime == BASE_WAITING_TIME + (if lengthen then spread else -spread)
      ensures 16 <= waitingTime <= 44
      ensures endWaitingTime == END_WAITING_TIME
      ensures this.maxVelocity == maxVelocity && this.deceleration == deceleration
      ensures this.carriages == carriages
      ensures State() == Flags(0.0, false, None, None, false)
      ensures stationStops == [] && waitedTime == 0 && endWaitedTime == 0 && !isActive
    {
      this.deceleration := deceleration;
      waitingTime := BASE_WAITING_TIME + ((if lengthen then 1 else 0) * 2 - 1) * spread;
      endWaitingTime := END_WAITING_TIME;
      this.maxVelocity := maxVelocity;
      previousStoppedStation := None;
      previousPassedStation := None;
      waitedAtEnd := false;
      disembarkedWhenRemoved := false;
      stationStops := [];
      this.carriages := carriages;
      waitedTime := 0;
      endWaitedTime := 0;
      velocity := 0.0;
      isActive := false;
    }

    /** One second of dwelling at a station; true while the train must keep waiting. */
    method WaitAtStation() returns (waiting: bool)
      modifies this`waitedTime
      ensures (waitedTime, waiting) == WaitStep(old(waitedTime), waitingTime)
    {
      waitedTime := waitedTime + 1;
      if waitedTime == waitingTime {
        waitedTime := 0;
        waiting := false;
      } else {
        waiting := true;
      }
    }

    /** One second of dwelling at the end of the line; true while the train must keep waiting. */
    method WaitAtEnd() returns (waiting: bool)
      modifies this`endWaitedTime
      ensures (endWaitedTime, waiting) == WaitStep(old(endWaitedTime), endWaitingTime)
    {
      endWaitedTime := endWaitedTime + 1;
      if endWaitedTime == endWaitingTime {
        endWaitedTime := 0;
        waiting := false;
      } else {
        waiting := true;
      }
    }

    /** The velocity becomes the maximum velocity. */
    method UpdateVelocity()
      modifies this`velocity
      ensures velocity == maxVelocity
    {
      velocity := maxVelocity;
    }

    /** The distance from `head` to the train ahead, as `Distance` defines it. */
    method ComputeDistance(net: Network, head: TrainCarriage, next: Option<TrainCarriage>, limit: int)
      returns (distance: real)
      requires Wired(net.Topo()) && Fits(net.Topo(), net.Occ()) && head in net.locations
      requires next.Some? ==> next.value in net.locations
      ensures distance == Distance(net.Topo(), net.Occ(), head, next, limit)
    {
      if next.Some? {
        distance := net.locations[next.value].clearance - net.locations[head].clearance;
        return;
      }
      ghost var t, o := net.Topo(), net.Occ();
      var segment := net.locations[head].segment;
      var toEnd := net.segments[segment].length as real - net.locations[head].clearance;
      var empty := 0;
      var exceeds := false;
      var nextTail: Option<TrainCarriage> := None;
      ghost var goal := Walk(t, o, segment, toEnd, empty, limit);
      while true
        invariant net.Topo() == t && net.Occ() == o
        invariant segment < |net.segments|
        invariant Walk(t, o, segment, toEnd, empty, limit) == goal
        decreases limit - empty - toEnd.Floor
      {
        assert SegmentWired(t, segment);
        assert JunctionWired(t, t.segments[segment].to.value);
        var outs := net.junctions[net.segments[segment].to.value].outSegments;
        if |outs| == 0 {
          return TRACK_ENDS;
        }
        segment := outs[0];
        if toEnd + empty as real > limit as real {
          exceeds := true;
          break;
        }
        var queue := net.queues[segment];
        if |queue| > 0 {
          nextTail := Some(queue[|queue| - 1]);
          break;
        }
        assert SegmentWired(t, segment);
        empty := empty + net.segments[segment].length;
      }
      if !exceeds {
        distance := toEnd + empty as real + net.locations[nextTail.value].clearance;
      } else {
        distance := toEnd + empty as real;
      }
    }

    /** The action `Decision` gives for this train's head. */
    method DecideAction(net: Network, limit: int) returns (action: TrainAction)
      requires Ready(net.Topo(), net.Occ(), carriages)
      ensures action == Decision(net.Topo(), net.Occ(), carriages[0], maxVelocity, limit)
    {
      var front := carriages[0];
      var segment := net.locations[front].segment;
      var clearance := net.locations[front].clearance;
      var nextClearance := clearance + ToMetersPerSecond(maxVelocity);
      assert SegmentWired(net.Topo(), segment);
      var current := net.segments[segment];
      var nextJunction := current.to.value;
      if current.depot {
        return DepotStop;
      } else if current.station.Some? {
        return if nextClearance > current.length as real then StationStop else Proceed;
      } else if net.junctions[nextJunction].end {
        return if nextClearance > current.length as real then EndStop else Proceed;
      }
      var queue := net.queues[segment];
      var separation;
      if queue[0] != front {
        var nextIndex := IndexOf(queue, front) - 1;
        separation := ComputeDistance(net, front, Some(queue[nextIndex]), limit);
      } else {
        separation := ComputeDistance(net, front, None, limit);
      }
      if separation != TRACK_ENDS && separation <= limit as real {
        return HeadwayStop;
      }
      if net.signals[nextJunction] == 0 && nextClearance > current.length as real {
        return SignalStop;
      }
      return Proceed;
    }

    /**
     * Moves carriage `i` by `d` metres, carrying it over as many segments as it clears, and
     * updates queues and signals as `Step` says.
     */
    method MoveCarriage(net: Network, i: nat, d: real)
      requires net.Valid() && Closed(net.Topo()) && Placed(net.Topo(), net.Occ(), carriages)
      requires i < |carriages|
      requires CanStep(net.Topo(), net.Occ(), carriages, i, d, isActive)
      modifies net`queues, net`signals, net`locations
      ensures net.Valid()
      ensures net.Occ() == Step(net.Topo(), old(net.Occ()), carriages, i, d, isActive)
    {
      var carriage := carriages[i];
      var clearance := net.locations[carriage].clearance;
      var segment := net.locations[carriage].segment;
      clearance := clearance + d;
      assert SegmentWired(net.Topo(), segment);
      ClearedRatio(clearance, net.segments[segment].length);
      if clearance / net.segments[segment].length as real >= 1.0 {
        var signals, queues, landing := Cross(net, i, d);
        net.signals, net.queues, net.locations := signals, queues, net.locations[carriage := landing];
      } else {
        StepStaying(net.Topo(), net.Occ(), carriages, i, d, isActive);
        net.locations := net.locations[carriage := Location(segment, clearance)];
      }
    }

    /**
     * The part of `move` for a carriage that leaves its segment: where it lands, the signals
     * after the head takes a permit at the new segment and the tail returns one at the old
     * segment, and the queues after the carriage moves from the front of the old segment's
     * queue to the back of the new one's.
     */
    method Cross(net: Network, i: nat, d: real) returns (signals: seq<int>, queues: seq<seq<TrainCarriage>>, landing: Location)
      requires net.Valid() && Closed(net.Topo()) && Placed(net.Topo(), net.Occ(), carriages)
      requires i < |carriages| && Crosses(net.Topo(), net.Occ(), carriages, i, d)
      requires CanStep(net.Topo(), net.Occ(), carriages, i, d, isActive)
      ensures Step(net.Topo(), net.Occ(), carriages, i, d, isActive) ==
              Occupancy(queues, signals, net.locations[carriages[i] := landing])
    {
      ghost var t, o := net.Topo(), net.Occ();
      var carriage := carriages[i];
      var previous := net.locations[carriage].segment;
      landing := CrossSegments(net, previous, net.locations[carriage].clearance + d);
      var entry, exit := From(net.Topo(), landing.segment).value, From(net.Topo(), previous).value;
      CrossingBounds(t, o, carriages, i, d, isActive, landing, entry, exit);
      signals, queues := net.signals, net.queues;
      if carriage == carriages[0] {
        signals := signals[entry := signals[entry] - 1];
      }
      queues := queues[previous := queues[previous][1..]];
      queues := queues[landing.segment := queues[landing.segment] + [carriage]];
      if carriage == carriages[|carriages| - 1] {
        signals := signals[exit := signals[exit] + 1];
      }
      StepCrossing(t, o, carriages, i, d, isActive, landing, entry, exit);
    }

    /**
     * Carries a clearance of at least the length of `segment` over the following segments:
     * the length is taken off and the next segment chosen until the clearance fits.
     */
    method CrossSegments(net: Network, segment: nat, clearance: real) returns (landing: Location)
      requires Closed(net.Topo()) && segment < |net.segments|
      requires clearance >= net.segments[segment].length as real
      ensures landing == Land(net.Topo(), segment, clearance, isActive)
      ensures From(net.Topo(), landing.segment).Some? && From(net.Topo(), segment).Some?
    {
      var t := net.Topo();
      assert SegmentClosed(t, segment);
      var current, cleared := segment, clearance;
      cleared := cleared - net.segments[current].length as real;
      current := NextSegment(t, current, isActive);
      assert SegmentWired(t, current);
      ClearedRatio(cleared, net.segments[current].length);
      while cleared / net.segments[current].length as real >= 1.0
        invariant current < |net.segments| && SegmentWired(t, current)
        invariant cleared / net.segments[current].length as real >= 1.0 <==>
                  cleared >= net.segments[current].length as real
        invariant Land(t, current, cleared, isActive) == Land(t, segment, clearance, isActive)
        decreases cleared.Floor
      {
        cleared := cleared - net.segments[current].length as real;
        current := NextSegment(t, current, isActive);
        assert SegmentWired(t, current);
        ClearedRatio(cleared, net.segments[current].length);
      }
      assert SegmentClosed(t, current);
      landing := Location(current, cleared);
    }

    /**
     * One second of this train: decide, then stop (reporting why) or move every carriage at
     * full speed. The outcome is `Tick` of the state before the call.
     */
    method Move(net: Network, limit: int) returns (action: TrainAction)
      requires net.Valid()
      requires TickOk(net.Topo(), net.Occ(), carriages, State(), isActive, stationStops, maxVelocity, limit)
      modifies this`velocity, this`waitedAtEnd, this`previousStoppedStation
      modifies this`previousPassedStation, this`disembarkedWhenRemoved
      modifies net`queues, net`signals, net`locations
      ensures net.Valid()
      ensures Outcome(State(), net.Occ(), action) ==
              Tick(net.Topo(), old(net.Occ()), carriages, old(State()), isActive, stationStops, maxVelocity, limit)
    {
      action := DecideAction(net, limit);
      var station := net.segments[net.locations[carriages[0]].segment].station;
      var stop := React(action, station);
      if stop {
        return;
      }
      UpdateVelocity();
      MoveCarriages(net, ToMetersPerSecond(velocity));
      action := Proceed;
    }

    /**
     * The reaction of `move` to the decided action: a headway or signal stop halts the train;
     * an end stop halts it once; a depot stop ends an inactive train; at a station the train
     * stops as `AtStation` says and otherwise notes the station as passed. Returns whether
     * `move` returns without moving.
     */
    method React(action: TrainAction, station: Option<nat>) returns (stop: bool)
      requires action == StationStop ==> station.Some?
      modifies this`velocity, this`waitedAtEnd, this`previousStoppedStation
      modifies this`previousPassedStation, this`disembarkedWhenRemoved
      ensures (State(), stop) == Halts(old(State()), action, station, isActive, stationStops)
    {
      stop := false;
      if action == HeadwayStop {
        velocity := 0.0;
        stop := true;
      } else if action == EndStop {
        if !waitedAtEnd {
          velocity := 0.0;
          waitedAtEnd := true;
          stop := true;
        }
      } else if action == StationStop {
        var currentStation := station.value;
        if isActive || (!isActive && previousPassedStation != Some(currentStation) && !disembarkedWhenRemoved) {
          if !isActive {
            disembarkedWhenRemoved := true;
          }
          if currentStation in stationStops || !isActive {
            if waitedAtEnd || previousStoppedStation != Some(currentStation) {
              velocity := 0.0;
              previousPassedStation := Some(currentStation);
              previousStoppedStation := Some(currentStation);
              waitedAtEnd := false;
              return true;
            }
          }
        } else {
          if !isActive {
            disembarkedWhenRemoved := true;
          }
        }
        previousPassedStation := Some(currentStation);
      } else if action == SignalStop {
        velocity := 0.0;
        stop := true;
      } else if action == DepotStop {
        if !isActive {
          stop := true;
        }
      }
    }

    /** Moves every carriage of the train by `d` metres, head first. */
    method MoveCarriages(net: Network, d: real)
      requires net.Valid() && Closed(net.Topo()) && Placed(net.Topo(), net.Occ(), carriages)
      requires AdvanceOk(net.Topo(), net.Occ(), carriages, 0, d, isActive)
      modifies net`queues, net`signals, net`locations
      ensures net.Valid()
      ensures net.Occ() == Advance(net.Topo(), old(net.Occ()), carriages, 0, d, isActive)
    {
      ghost var t := net.Topo();
      ghost var goal := Advance(t, net.Occ(), carriages, 0, d, isActive);
      var i := 0;
      while i < |carriages|
        invariant 0 <= i <= |carriages|
        invariant net.Valid() && net.Topo() == t && Placed(t, net.Occ(), carriages)
        invariant AdvanceOk(t, net.Occ(), carriages, i, d, isActive)
        invariant Advance(t, net.Occ(), carriages, i, d, isActive) == goal
      {
        MoveCarriage(net, i, d);
        i := i + 1;
      }
    }

    /**
     * Puts the train on segment `s`: the head just about to clear it, each carriage behind the
     * one before by its length plus `gap`. The signal at the start of the segment is taken first.
     */
    method SetTrainAtSegment(net: Network, s: nat, gap: real)
      requires net.Valid() && s < |net.segments| && From(net.Topo(), s).Some?
      requires net.signals[From(net.Topo(), s).value] > 0
      modifies net`queues, net`signals, net`locations
      ensures net.Valid()
      ensures net.signals == old(net.signals)[From(net.Topo(), s).value := old(net.signals)[From(net.Topo(), s).value] - 1]
      ensures net.queues == old(net.queues)[s := old(net.queues)[s] + carriages]
      ensures net.locations == Spawned(old(net.locations), carriages, s, net.segments[s].length as real, gap, |carriages|)
    {
      var headClearance := net.segments[s].length as real;
      var offset := 0.0;
      var entry := From(net.Topo(), s).value;
      net.signals := net.signals[entry := net.signals[entry] - 1];
      ghost var queue0 := net.queues[s];
      var i := 0;
      assert queue0 + carriages[..0] == queue0;
      assert net.queues == old(net.queues)[s := queue0];
      while i < |carriages|
        invariant 0 <= i <= |carriages| && net.Valid()
        invariant offset == Offset(carriages, i, gap)
        invariant net.signals == old(net.signals)[entry := old(net.signals)[entry] - 1]
        invariant net.queues == old(net.queues)[s := queue0 + carriages[..i]]
        invariant net.locations == Spawned(old(net.locations), carriages, s, headClearance, gap, i)
      {
        var carriage := carriages[i];
        net.queues := net.queues[s := net.queues[s] + [carriage]];
        net.locations := net.locations[carriage := Location(s, headClearance - offset)];
        offset := offset + carriage.length + gap;
        assert carriages[..i + 1] == carriages[..i] + [carriage];
        assert queue0 + carriages[..i + 1] == queue0 + carriages[..i] + [carriage];
        i := i + 1;
      }
      assert carriages[..i] == carriages;
    }
  }

  /** For a positive length, the cleared share of a segment reaches one exactly when the clearance reaches the length. */
  lemma ClearedRatio(clearance: real, length: int)
    requires length >= 1
    ensures clearance / length as real >= 1.0 <==> clearance >= length as real
  {
    var l := length as real;
    assert clearance == (clearance / l) * l;
  }
}
