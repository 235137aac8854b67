// The rules of train movement (TrainMovement.java) as functions of the graph and occupancy.
module MovementRules {
  import opened Common
  import opened Carriages
  import opened Graph

  /** What a train does in one second. */
  datatype TrainAction = Proceed | HeadwayStop | EndStop | StationStop | SignalStop | DepotStop

  /** The headway distance trains keep between them unless reconfigured (m). */
  const DEFAULT_HEADWAY_DISTANCE: int := 300
  /** The distance reported when the track ahead is a dead end. */
  const TRACK_ENDS: real := -1.0

  /** The movement state that `move` reads and writes besides the occupancy. */
  datatype Flags = Flags(
    velocity: real,
    waitedAtEnd: bool,
    previousStoppedStation: Option<nat>,
    previousPassedStation: Option<nat>,
    disembarkedWhenRemoved: bool)

  /** The result of one `move`: the new flags, the new occupancy and the action reported. */
  datatype Outcome = Outcome(flags: Flags, occupancy: Occupancy, action: TrainAction)

  /** A speed in km/h as metres per second. */
  function ToMetersPerSecond(velocity: real): (r: real)
    ensures r * 3.6 == velocity
  {
    velocity / 3600.0 * 1000.0
  }

  /** The out-segments of the junction segment `s` leads into. */
  function Outs(t: Topology, s: nat): seq<nat>
    requires Wired(t) && s < |t.segments|
  {
    assert SegmentWired(t, s);
    t.junctions[t.segments[s].to.value].outSegments
  }

  /**
   * The segment a carriage enters after `s`: the first out-segment, or for an inactive train
   * the second one when there is more than one (the way into the depot).
   */
  function NextSegment(t: Topology, s: nat, active: bool): (r: nat)
    requires Closed(t) && s < |t.segments|
    ensures r < |t.segments| && r in Outs(t, s)
  {
    assert SegmentClosed(t, s);
    assert JunctionWired(t, t.segments[s].to.value);
    var outs := Outs(t, s);
    if active then outs[0] else if |outs| > 1 then outs[1] else outs[0]
  }

  /**
   * Where a carriage with clearance `cl` on segment `s` ends up: while the clearance is at
   * least the length of its segment, the length is taken off and the carriage moves on.
   */
  function Land(t: Topology, s: nat, cl: real, active: bool): (r: Location)
    requires Closed(t) && s < |t.segments|
    ensures r.segment < |t.segments| && r.clearance < t.segments[r.segment].length as real
    ensures cl >= 0.0 ==> r.clearance >= 0.0
    decreases cl.Floor
  {
    assert SegmentClosed(t, s);
    if cl < t.segments[s].length as real then Location(s, cl)
    else Land(t, NextSegment(t, s, active), cl - t.segments[s].length as real, active)
  }

  /**
   * The first index of `c` in `q`, or -1. Carriages are compared by reference; the train
   * queue's own search is not part of this model, so whether it compares carriages by
   * identifier instead (as `TrainCarriage.equals` does) is left open.
   */
  function IndexOf(q: seq<TrainCarriage>, c: TrainCarriage): (r: int)
    ensures -1 <= r < |q|
    ensures r == -1 <==> c !in q
    ensures r >= 0 ==> q[r] == c && c !in q[..r]
  {
    if |q| == 0 then -1
    else if q[0] == c then 0
    else
      var i := IndexOf(q[1..], c);
      assert i >= 0 ==> q[..i + 1] == [q[0]] + q[1..][..i];
      if i == -1 then -1 else i + 1
  }

  /**
   * The walk of `computeDistance` from the end of segment `s`, having `toEnd` metres to the
   * end of the head's segment and `empty` metres of empty segments behind: follow the first
   * out-segment; a junction with none ends the track; once the distance so far passes the
   * limit the walk gives up; otherwise it stops at the first occupied segment and adds the
   * clearance of the last carriage queued there.
   */
  function Walk(t: Topology, o: Occupancy, s: nat, toEnd: real, empty: int, limit: int): real
    requires Wired(t) && Fits(t, o) && s < |t.segments|
    decreases limit - empty - toEnd.Floor
  {
    assert SegmentWired(t, s);
    assert JunctionWired(t, t.segments[s].to.value);
    var outs := Outs(t, s);
    if |outs| == 0 then TRACK_ENDS
    else
      var next := outs[0];
      if toEnd + empty as real > limit as real then toEnd + empty as real
      else if |o.queues[next]| > 0 then
        toEnd + empty as real + o.locations[o.queues[next][|o.queues[next]| - 1]].clearance
      else
        assert SegmentWired(t, next);
        Walk(t, o, next, toEnd, empty + t.segments[next].length, limit)
  }

  /**
   * The distance from a train's head to the train ahead: to the given carriage in the same
   * segment, or else along the walk from the end of the head's segment.
   */
  function Distance(t: Topology, o: Occupancy, head: TrainCarriage, next: Option<TrainCarriage>,
                    limit: int): real
    requires Wired(t) && Fits(t, o) && head in o.locations
    requires next.Some? ==> next.value in o.locations
  {
    if next.Some? then o.locations[next.value].clearance - o.locations[head].clearance
    else
      var loc := o.locations[head];
      Walk(t, o, loc.segment, t.segments[loc.segment].length as real - loc.clearance, 0, limit)
  }

  /** The head is placed and queued on the segment it is located on. */
  predicate HeadQueued(t: Topology, o: Occupancy, head: TrainCarriage)
    requires Fits(t, o)
  {
    head in o.locations && head in o.queues[o.locations[head].segment]
  }

  /** The separation `decideAction` measures on a plain segment. */
  function Separation(t: Topology, o: Occupancy, head: TrainCarriage, limit: int): real
    requires Wired(t) && Fits(t, o) && HeadQueued(t, o, head)
  {
    var q := o.queues[o.locations[head].segment];
    if q[0] != head then Distance(t, o, head, Some(q[IndexOf(q, head) - 1]), limit)
    else Distance(t, o, head, None, limit)
  }

  /**
   * The action decided before moving: a depot segment means a depot stop; on a station or
   * before the end of the line the train stops once one more second at full speed would
   * carry it past the segment; elsewhere a train ahead within the limit stops it, and so does
   * a signal without permits that it would otherwise run past.
   */
  function Decision(t: Topology, o: Occupancy, head: TrainCarriage, maxVelocity: real, limit: int): TrainAction
    requires Wired(t) && Fits(t, o) && HeadQueued(t, o, head)
  {
    var loc := o.locations[head];
    assert SegmentWired(t, loc.segment);
    var seg := t.segments[loc.segment];
    var overshoot := loc.clearance + ToMetersPerSecond(maxVelocity) > seg.length as real;
    if seg.depot then DepotStop
    else if seg.station.Some? then (if overshoot then StationStop else Proceed)
    else if t.junctions[seg.to.value].end then (if overshoot then EndStop else Proceed)
    else
      var separation := Separation(t, o, head, limit);
      if separation != TRACK_ENDS && separation <= limit as real then HeadwayStop
      else if o.signals[seg.to.value] == 0 && overshoot then SignalStop
      else Proceed
  }

  /**
   * The decision at a station the train is about to run past: the new flags, and whether
   * the train stops there.
   */
  function AtStation(f: Flags, station: nat, active: bool, stops: seq<nat>): (Flags, bool)
  {
    if active || (f.previousPassedStation != Some(station) && !f.disembarkedWhenRemoved) then
      var disembarked := if !active then true else f.disembarkedWhenRemoved;
      if (station in stops || !active) && (f.waitedAtEnd || f.previousStoppedStation != Some(station)) then
        (Flags(0.0, false, Some(station), Some(station), disembarked), true)
      else
        (f.(disembarkedWhenRemoved := disembarked, previousPassedStation := Some(station)), false)
    else
      (f.(disembarkedWhenRemoved := true, previousPassedStation := Some(station)), false)
  }

  /** One queue per segment and one signal per junction. */
  predicate Sized(t: Topology, o: Occupancy)
  {
    |o.queues| == |t.segments| && |o.signals| == |t.junctions|
  }

  /** Every carriage of the train has a location on an existing segment. */
  predicate Placed(t: Topology, o: Occupancy, cs: seq<TrainCarriage>)
  {
    forall k :: 0 <= k < |cs| ==> cs[k] in o.locations && o.locations[cs[k]].segment < |t.segments|
  }

  /** The state `move` starts from: a closed graph, a placed train whose head is queued. */
  predicate Ready(t: Topology, o: Occupancy, cs: seq<TrainCarriage>)
  {
    Closed(t) && Fits(t, o) && |cs| > 0 && Placed(t, o, cs) && HeadQueued(t, o, cs[0])
  }

  /** Whether carriage `cs[i]`, moved by `d`, leaves its segment. */
  predicate Crosses(t: Topology, o: Occupancy, cs: seq<TrainCarriage>, i: nat, d: real)
    requires Placed(t, o, cs) && i < |cs|
  {
    var loc := o.locations[cs[i]];
    loc.clearance + d >= t.segments[loc.segment].length as real
  }

  /** Where carriage `cs[i]` is after moving by `d`. */
  function Landing(t: Topology, o: Occupancy, cs: seq<TrainCarriage>, i: nat, d: real, active: bool): (r: Location)
    requires Closed(t) && Placed(t, o, cs) && i < |cs|
    ensures r.segment < |t.segments|
  {
    var loc := o.locations[cs[i]];
    Land(t, loc.segment, loc.clearance + d, active)
  }

  /**
   * What moving carriage `cs[i]` by `d` demands: if it crosses, its old segment's queue is
   * not empty, the segment it lands on starts at a junction, and for the head that junction's
   * signal has a permit (the head waits for it otherwise).
   */
  predicate CanStep(t: Topology, o: Occupancy, cs: seq<TrainCarriage>, i: nat, d: real, active: bool)
    requires Closed(t) && Sized(t, o) && Placed(t, o, cs) && i < |cs|
  {
    var loc := o.locations[cs[i]];
    Crosses(t, o, cs, i, d) ==>
      var dest := Landing(t, o, cs, i, d, active);
      assert SegmentClosed(t, dest.segment);
      |o.queues[loc.segment]| > 0 &&
      (cs[i] == cs[0] ==> o.signals[From(t, dest.segment).value] > 0)
  }

  /** The queues after carriage `c` leaves the front of segment `from` and joins the back of `to`. */
  function Transfer(queues: seq<seq<TrainCarriage>>, from: nat, to: nat, c: TrainCarriage): seq<seq<TrainCarriage>>
    requires from < |queues| && to < |queues| && |queues[from]| > 0
  {
    var left := queues[from := queues[from][1..]];
    left[to := left[to] + [c]]
  }

  /** The signals after the head of a crossing train takes a permit at `entry` and its tail returns one at `exit`. */
  function Resignal(signals: seq<int>, entry: nat, exit: nat, head: bool, tail: bool): seq<int>
    requires entry < |signals| && exit < |signals|
  {
    var taken := if head then signals[entry := signals[entry] - 1] else signals;
    if tail then taken[exit := taken[exit] + 1] else taken
  }

  /**
   * Moving carriage `cs[i]` by `d`. If it crosses, it lands where `Land` says, the head takes a
   * permit from the signal at the start of its new segment, the front of the old segment's queue
   * is removed, the carriage joins the back of the new segment's queue, and the tail gives a
   * permit back to the signal at the start of the old segment.
   */
  function Step(t: Topology, o: Occupancy, cs: seq<TrainCarriage>, i: nat, d: real, active: bool): (r: Occupancy)
    requires Closed(t) && Sized(t, o) && Placed(t, o, cs) && i < |cs| && CanStep(t, o, cs, i, d, active)
    ensures Sized(t, r) && Placed(t, r, cs)
  {
    var c := cs[i];
    var loc := o.locations[c];
    var dest := Landing(t, o, cs, i, d, active);
    if !Crosses(t, o, cs, i, d) then
      o.(locations := o.locations[c := dest])
    else
      assert SegmentClosed(t, dest.segment) && SegmentClosed(t, loc.segment);
      Occupancy(Transfer(o.queues, loc.segment, dest.segment, c),
                Resignal(o.signals, From(t, dest.segment).value, From(t, loc.segment).value,
                         c == cs[0], c == cs[|cs| - 1]),
                o.locations[c := dest])
  }

  /** A carriage that stays on its segment only has its clearance changed. */
  lemma StepStaying(t: Topology, o: Occupancy, cs: seq<TrainCarriage>, i: nat, d: real, active: bool)
    requires Closed(t) && Sized(t, o) && Placed(t, o, cs) && i < |cs| && !Crosses(t, o, cs, i, d)
    ensures CanStep(t, o, cs, i, d, active)
    ensures Step(t, o, cs, i, d, active) ==
            o.(locations := o.locations[cs[i] := Location(o.locations[cs[i]].segment, o.locations[cs[i]].clearance + d)])
  {
  }

  /** The permits and the queue a crossing carriage touches exist. */
  lemma CrossingBounds(t: Topology, o: Occupancy, cs: seq<TrainCarriage>, i: nat, d: real, active: bool,
                       dest: Location, entry: nat, exit: nat)
    requires Closed(t) && Sized(t, o) && Placed(t, o, cs) && i < |cs| && Crosses(t, o, cs, i, d)
    requires CanStep(t, o, cs, i, d, active)
    requires dest == Landing(t, o, cs, i, d, active)
    requires From(t, dest.segment) == Some(entry) && From(t, o.locations[cs[i]].segment) == Some(exit)
    ensures entry < |o.signals| && exit < |o.signals| && |o.queues[o.locations[cs[i]].segment]| > 0
  {
  }

  /** A crossing carriage moves between queues, takes and returns permits, and lands on `dest`. */
  lemma StepCrossing(t: Topology, o: Occupancy, cs: seq<TrainCarriage>, i: nat, d: real, active: bool,
                     dest: Location, entry: nat, exit: nat)
    requires Closed(t) && Sized(t, o) && Placed(t, o, cs) && i < |cs| && Crosses(t, o, cs, i, d)
    requires CanStep(t, o, cs, i, d, active)
    requires dest == Landing(t, o, cs, i, d, active)
    requires From(t, dest.segment) == Some(entry) && From(t, o.locations[cs[i]].segment) == Some(exit)
    ensures entry < |o.signals| && exit < |o.signals| && |o.queues[o.locations[cs[i]].segment]| > 0
    ensures Step(t, o, cs, i, d, active) ==
            Occupancy(Transfer(o.queues, o.locations[cs[i]].segment, dest.segment, cs[i]),
                      Resignal(o.signals, entry, exit, cs[i] == cs[0], cs[i] == cs[|cs| - 1]),
                      o.locations[cs[i] := dest])
  {
  }

  /** Moving carriages `cs[i..]` of the train, in order, by `d`. */
  function Advance(t: Topology, o: Occupancy, cs: seq<TrainCarriage>, i: nat, d: real, active: bool): (r: Occupancy)
    requires Closed(t) && Sized(t, o) && Placed(t, o, cs) && i <= |cs| && AdvanceOk(t, o, cs, i, d, active)
    ensures Sized(t, r) && Placed(t, r, cs)
    decreases |cs| - i
  {
    if i == |cs| then o else Advance(t, Step(t, o, cs, i, d, active), cs, i + 1, d, active)
  }

  /** Each of the carriages `cs[i..]` can make its step after the ones before it. */
  predicate AdvanceOk(t: Topology, o: Occupancy, cs: seq<TrainCarriage>, i: nat, d: real, active: bool)
    requires Closed(t) && Sized(t, o) && Placed(t, o, cs) && i <= |cs|
    decreases |cs| - i
  {
    i == |cs| ||
    (CanStep(t, o, cs, i, d, active) && AdvanceOk(t, Step(t, o, cs, i, d, active), cs, i + 1, d, active))
  }

  /** The moving part of `move`: full speed, and every carriage advanced. */
  function Run(t: Topology, o: Occupancy, cs: seq<TrainCarriage>, f: Flags, active: bool,
               maxVelocity: real): Outcome
    requires Closed(t) && Sized(t, o) && Placed(t, o, cs)
    requires AdvanceOk(t, o, cs, 0, ToMetersPerSecond(maxVelocity), active)
  {
    Outcome(f.(velocity := maxVelocity), Advance(t, o, cs, 0, ToMetersPerSecond(maxVelocity), active), Proceed)
  }

  /**
   * How `move` reacts to the decided action: the new flags, and whether it returns there
   * instead of moving. `station` is the station of the head's segment.
   */
  function Halts(f: Flags, action: TrainAction, station: Option<nat>, active: bool, stops: seq<nat>): (Flags, bool)
    requires action == StationStop ==> station.Some?
  {
    match action
    case HeadwayStop => (f.(velocity := 0.0), true)
    case SignalStop => (f.(velocity := 0.0), true)
    case EndStop =>
      if !f.waitedAtEnd then (f.(velocity := 0.0, waitedAtEnd := true), true) else (f, false)
    case DepotStop => (f, !active)
    case StationStop => AtStation(f, station.value, active, stops)
    case Proceed => (f, false)
  }

  /** The station of the segment the head of the train is on. */
  function HeadStation(t: Topology, o: Occupancy, cs: seq<TrainCarriage>): Option<nat>
    requires Fits(t, o) && |cs| > 0 && HeadQueued(t, o, cs[0])
  {
    t.segments[o.locations[cs[0]].segment].station
  }

  /** Whether `move` reaches the moving part. */
  predicate Moves(t: Topology, o: Occupancy, cs: seq<TrainCarriage>, f: Flags, active: bool,
                  stops: seq<nat>, maxVelocity: real, limit: int)
    requires Ready(t, o, cs)
  {
    !Halts(f, Decision(t, o, cs[0], maxVelocity, limit), HeadStation(t, o, cs), active, stops).1
  }

  /** The state from which one `move` runs to completion without waiting forever. */
  predicate TickOk(t: Topology, o: Occupancy, cs: seq<TrainCarriage>, f: Flags, active: bool,
                   stops: seq<nat>, maxVelocity: real, limit: int)
  {
    Ready(t, o, cs) &&
    (Moves(t, o, cs, f, active, stops, maxVelocity, limit) ==>
       AdvanceOk(t, o, cs, 0, ToMetersPerSecond(maxVelocity), active))
  }

  /** One call of `move`: the decision, then either a stop or a run at full speed. */
  function Tick(t: Topology, o: Occupancy, cs: seq<TrainCarriage>, f: Flags, active: bool,
                stops: seq<nat>, maxVelocity: real, limit: int): Outcome
    requires TickOk(t, o, cs, f, active, stops, maxVelocity, limit)
  {
    var action := Decision(t, o, cs[0], maxVelocity, limit);
    var (f', stop) := Halts(f, action, HeadStation(t, o, cs), active, stops);
    if stop then Outcome(f', o, action) else Run(t, o, cs, f', active, maxVelocity)
  }

  /** The distance from the head back to the front of carriage `k` when a train is laid out. */
  function Offset(cs: seq<TrainCarriage>, k: nat, gap: real): real
    requires k <= |cs|
  {
    if k == 0 then 0.0 else Offset(cs, k - 1, gap) + cs[k - 1].length + gap
  }

  /** The locations after laying the first `k` carriages out on `s` behind a head at `head`. */
  function Spawned(locs: map<TrainCarriage, Location>, cs: seq<TrainCarriage>, s: nat, head: real,
                   gap: real, k: nat): map<TrainCarriage, Location>
    requires k <= |cs|
  {
    if k == 0 then locs
    else Spawned(locs, cs, s, head, gap, k - 1)[cs[k - 1] := Location(s, head - Offset(cs, k - 1, gap))]
  }

  /** One second of waiting: the counter goes up, and when it reaches the limit it resets and the wait is over. */
  function WaitStep(counter: int, limit: int): (int, bool)
  {
    if counter + 1 == limit then (0, false) else (counter + 1, true)
  }

  /** How many calls a wait takes from `counter` until it reports that it is over. */
  function PollsUntilDone(counter: int, limit: int): nat
    requires 0 <= counter < limit
    decreases limit - counter
  {
    var (next, waiting) := WaitStep(counter, limit);
    if waiting then 1 + PollsUntilDone(next, limit) else 1
  }
}
