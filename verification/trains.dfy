// Trains: Train.java, except `deploy` and `pullOut`, which act on the train lists of a train system.
module Trains {
  import opened Common
  import opened Carriages
  import opened Graph
  import opened Track
  import opened MovementRules
  import opened Movement
  import opened Property

  /** The gap between consecutive carriages (m). */
  const CARRIAGE_GAP: real := 1.0

  /** `n` copies of the entity `e`, none when `n` is not positive. */
  function Repeat(e: CarriageEntity, n: int): (r: seq<CarriageEntity>)
    ensures |r| == if n <= 0 then 0 else n
    ensures forall k :: 0 <= k < |r| ==> r[k] == e
    decreases n
  {
    if n <= 0 then [] else Repeat(e, n - 1) + [e]
  }

  /**
   * The entities of the carriages of a train, in the order its carriages are built: each
   * entity in turn, repeated as many times as its quantity says.
   */
  function Composition(entities: seq<CarriageEntity>): seq<CarriageEntity>
  {
    if entities == [] then []
    else
      var last := entities[|entities| - 1];
      Composition(entities[..|entities| - 1]) + Repeat(last, last.quantity)
  }

  /** The number of carriages the entities ask for; a non-positive quantity asks for none. */
  function TotalQuantity(entities: seq<CarriageEntity>): nat
  {
    if entities == [] then 0
    else
      var last := entities[|entities| - 1];
      TotalQuantity(entities[..|entities| - 1]) + (if last.quantity <= 0 then 0 else last.quantity)
  }

  /** The index of the first entity that gives the train at least one carriage. */
  function FirstUsed(entities: seq<CarriageEntity>): (r: nat)
    requires exists k :: 0 <= k < |entities| && entities[k].quantity >= 1
    ensures r < |entities| && entities[r].quantity >= 1
    ensures forall k :: 0 <= k < r ==> entities[k].quantity < 1
  {
    if entities[0].quantity >= 1 then 0
    else
      assert exists k :: 0 <= k < |entities[1..]| && entities[1..][k].quantity >= 1 by {
        var k :| 0 <= k < |entities| && entities[k].quantity >= 1;
        assert entities[1..][k - 1] == entities[k];
      }
      FirstUsed(entities[1..]) + 1
  }

  /** The composition of entities put one after another is the compositions put one after another. */
  lemma {:induction false} CompositionAppend(a: seq<CarriageEntity>, b: seq<CarriageEntity>)
    ensures Composition(a + b) == Composition(a) + Composition(b)
    decreases |b|
  {
    if b != [] {
      var ab := a + b;
      assert ab[..|ab| - 1] == a + b[..|b| - 1];
      CompositionAppend(a, b[..|b| - 1]);
    } else {
      assert a + b == a;
    }
  }

  /** A train has as many carriages as the quantities of its entities add up to. */
  lemma {:induction false} CompositionSize(entities: seq<CarriageEntity>)
    ensures |Composition(entities)| == TotalQuantity(entities)
  {
    if entities != [] {
      CompositionSize(entities[..|entities| - 1]);
    }
  }

  /**
   * The head of a train is made from the first entity whose quantity is at least one, and
   * every carriage is made from an entity with a positive quantity.
   */
  lemma {:induction false} CompositionHead(entities: seq<CarriageEntity>)
    requires exists k :: 0 <= k < |entities| && entities[k].quantity >= 1
    ensures |Composition(entities)| > 0 && Composition(entities)[0] == entities[FirstUsed(entities)]
    ensures forall k :: 0 <= k < |Composition(entities)| ==> Composition(entities)[k].quantity >= 1
  {
    CompositionUsesPositive(entities);
    var f := FirstUsed(entities);
    assert entities == entities[..f] + [entities[f]] + entities[f + 1..];
    CompositionAppend(entities[..f] + [entities[f]], entities[f + 1..]);
    CompositionAppend(entities[..f], [entities[f]]);
    NoCarriages(entities[..f]);
    assert [entities[f]][..0] == [];
  }

  /** Every carriage of a train is made from one of its entities, and that entity has a positive quantity. */
  lemma {:induction false} CompositionUsesPositive(entities: seq<CarriageEntity>)
    ensures forall k :: 0 <= k < |Composition(entities)| ==>
              Composition(entities)[k] in entities && Composition(entities)[k].quantity >= 1
  {
    if entities != [] {
      var init := entities[..|entities| - 1];
      var last := entities[|entities| - 1];
      CompositionUsesPositive(init);
      var c := Composition(entities);
      forall k | 0 <= k < |c|
        ensures c[k] in entities && c[k].quantity >= 1
      {
        if k < |Composition(init)| {
          assert c[k] == Composition(init)[k];
          assert forall e :: e in init ==> e in entities;
        } else {
          assert c[k] == Repeat(last, last.quantity)[k - |Composition(init)|];
        }
      }
    }
  }

  /** Entities with no positive quantity give no carriages. */
  lemma {:induction false} NoCarriages(entities: seq<CarriageEntity>)
    requires forall k :: 0 <= k < |entities| ==> entities[k].quantity < 1
    ensures Composition(entities) == []
  {
    if entities != [] {
      NoCarriages(entities[..|entities| - 1]);
    }
  }

  /** Whether carriage `c` of train `train` was made from entity `e`. */
  predicate MadeFrom(c: TrainCarriage, e: CarriageEntity, train: int)
  {
    c.identifier == e.id && c.capacity == e.capacity && c.className == e.className &&
    c.length == e.length && c.parentTrain == train
  }

  /** Whether the carriages are made, one for one and in order, from the entities. */
  predicate Composed(cs: seq<TrainCarriage>, es: seq<CarriageEntity>, train: int)
  {
    |cs| == |es| && forall k :: 0 <= k < |cs| ==> MadeFrom(cs[k], es[k], train)
  }

  /** The `(int)` cast of the source: the value rounded toward zero. */
  function Truncate(x: real): (r: int)
    ensures -1.0 < x - r as real < 1.0
    ensures x >= 0.0 ==> 0 <= r && r as real <= x
    ensures x < 0.0 ==> r <= 0 && x <= r as real
  {
    if x >= 0.0 then x.Floor else -((-x).Floor)
  }

  /** Directions a train follows; their generators are not part of this model. */
  datatype Directions = NoDirections | TowardsNextStation(direction: Direction) | TowardsDepot

  /**
   * The route state of a train: the station queue (the stations still to stop at, next first),
   * the desired and the actual direction, the directions followed, and whether the station
   * list was edited.
   */
  datatype Route = Route(queue: seq<nat>, desired: Direction, actual: Direction, directions: Directions,
                         edited: bool)

  /**
   * After an end stop: an inactive train empties its station queue and heads for the depot; an active
   * one whose station list was edited regenerates its directions; then the direction switches.
   */
  function AfterEndStop(r: Route, active: bool): Route
  {
    var settled :=
      if !active then r.(queue := [], directions := TowardsDepot)
      else if r.edited then r.(edited := false, directions := TowardsNextStation(r.desired))
      else r;
    settled.(actual := Opposite(settled.actual))
  }

  /**
   * After a station stop: the station is popped from the queue; if none is left, the queue is
   * refilled with `refill` (the reversed stations) and the desired direction turns round;
   * then the directions to the next station are regenerated.
   */
  function AfterStationStop(r: Route, refill: seq<nat>): Route
    requires r.queue != []
  {
    var popped := r.queue[1..];
    var settled := if popped == [] then r.(queue := refill, desired := Opposite(r.desired)) else r.(queue := popped);
    settled.(directions := TowardsNextStation(settled.desired))
  }

  /** A station stop pops exactly one station and turns round only when that was the last one. */
  lemma StationStopPopsOne(r: Route, refill: seq<nat>)
    requires r.queue != []
    ensures var a := AfterStationStop(r, refill);
            (|r.queue| > 1 ==> a.queue == r.queue[1..] && a.desired == r.desired) &&
            (|r.queue| == 1 ==> a.queue == refill && a.desired == Opposite(r.desired)) &&
            a.directions == TowardsNextStation(a.desired) && a.actual == r.actual && a.edited == r.edited
  {
  }

  /**
   * An end stop always switches the actual direction; it empties the station queue only of an
   * inactive train, and clears the edited flag only of an active one.
   */
  lemma EndStopSwitches(r: Route, active: bool)
    ensures var a := AfterEndStop(r, active);
            a.actual == Opposite(r.actual) && a.desired == r.desired &&
            (!active ==> a.queue == [] && a.directions == TowardsDepot && a.edited == r.edited) &&
            (active ==> a.queue == r.queue && !a.edited) &&
            (active && !r.edited ==> a.directions == r.directions)
  {
  }

  /** A train of carriages with its movement, its summary and its route. */
  class Train {
    const identifier: int
    var carriages: seq<TrainCarriage>
    var movement: TrainMovement
    var property: TrainProperty
    var route: Route
    /** Whether the train may be edited; only while it waits at an end. */
    var editable: bool

    /** A train built from its carriage entities. */
    constructor (identifier: int, entities: seq<CarriageEntity>, lengthen: bool, spread: int,
                 ids: SegmentIdentifiers, route: Route)
      requires |Composition(entities)| > 0
      requires 0 <= spread < BASE_WAITING_TIME / 2
      ensures Composed(carriages, Composition(entities), identifier) && Distinct(carriages)
      ensures movement.carriages == carriages && movement.Valid()
      ensures this.route == route && !editable
    {
      this.identifier := identifier;
      this.route := route;
      editable := false;
      var built, maxVelocity, deceleration := BuildCarriages(identifier, entities);
      carriages := built;
      movement := new TrainMovement(maxVelocity, deceleration, built, lengthen, spread);
      property := new TrainProperty(identifier, None, ids, built[0], |built|);
    }

    function Head(): (c: TrainCarriage)
      requires |carriages| > 0
      reads this
      ensures c in carriages && c == carriages[0]
    {
      carriages[0]
    }

    function Tail(): (c: TrainCarriage)
      requires |carriages| > 0
      reads this
      ensures c in carriages && c == carriages[|carriages| - 1]
    {
      carriages[|carriages| - 1]
    }

    /**
     * `resetTrain`: new carriages, one per entity copy in entity order, a new movement with
     * the maximum velocity (truncated to whole km/h) and deceleration of the first carriage
     * made, and a new summary of a train still preparing.
     */
    method ResetTrain(entities: seq<CarriageEntity>, lengthen: bool, spread: int, ids: SegmentIdentifiers)
      requires |Composition(entities)| > 0
      requires 0 <= spread < BASE_WAITING_TIME / 2
      modifies this`carriages, this`movement, this`property
      ensures Composed(carriages, Composition(entities), identifier) && Distinct(carriages)
      ensures forall k :: 0 <= k < |carriages| ==> fresh(carriages[k])
      ensures fresh(movement) && movement.Valid() && movement.carriages == carriages
      ensures movement.maxVelocity == Truncate(Composition(entities)[0].maxVelocity) as real
      ensures movement.deceleration == Composition(entities)[0].deceleration
      ensures !movement.isActive && movement.State() == Flags(0.0, false, None, None, false)
      ensures fresh(property) && property.Summarises(identifier, None, ids, carriages[0], |carriages|)
    {
      var built, maxVelocity, deceleration := BuildCarriages(identifier, entities);
      carriages := built;
      movement := new TrainMovement(maxVelocity, deceleration, built, lengthen, spread);
      property := new TrainProperty(identifier, None, ids, built[0], |built|);
    }

    /**
     * What `run` does once the train has come to an end stop: it may be edited while it
     * waits out the end dwell, and then settles its route.
     */
    method FinishEndStop()
      requires movement.Valid()
      modifies this`editable, this`route, movement`endWaitedTime
      ensures movement.Valid() && movement.endWaitedTime == 0 && !editable
      ensures route == AfterEndStop(old(route), movement.isActive)
    {
      editable := true;
      var waiting := movement.WaitAtEnd();
      while waiting
        invariant movement.Valid() && (!waiting ==> movement.endWaitedTime == 0) && route == old(route)
        decreases if waiting then movement.endWaitingTime - movement.endWaitedTime else 0
      {
        waiting := movement.WaitAtEnd();
      }
      editable := false;
      route := AfterEndStop(route, movement.isActive);
    }

    /**
     * What `run` does once the train has come to a station stop: it waits out the dwell,
     * marking an inactive train as having let its passengers off, then settles its route.
     */
    method FinishStationStop(refill: seq<nat>)
      requires movement.Valid() && route.queue != []
      modifies this`route, movement`waitedTime, movement`disembarkedWhenRemoved
      ensures movement.Valid() && movement.waitedTime == 0
      ensures movement.disembarkedWhenRemoved ==
                (old(movement.disembarkedWhenRemoved) ||
                 (!movement.isActive && old(movement.waitedTime) + 1 < movement.waitingTime))
      ensures route == AfterStationStop(old(route), refill)
    {
      var waiting := movement.WaitAtStation();
      // Whether the wait lasted past its first second, and how often the loop body ran.
      ghost var lingered := waiting;
      ghost var polls := 0;
      while waiting
        invariant movement.Valid() && (!waiting ==> movement.waitedTime == 0) && route == old(route)
        invariant lingered == (old(movement.waitedTime) + 1 < movement.waitingTime)
        invariant movement.disembarkedWhenRemoved ==
                    (old(movement.disembarkedWhenRemoved) || (!movement.isActive && polls > 0))
        invariant (lingered ==> polls > 0 || waiting) && (!lingered ==> polls == 0)
        decreases if waiting then movement.waitingTime - movement.waitedTime else 0
      {
        if !movement.isActive {
          movement.disembarkedWhenRemoved := true;
        }
        waiting := movement.WaitAtStation();
        polls := polls + 1;
      }
      route := AfterStationStop(route, refill);
    }

    /**
     * The handling in `run` after the moves stop: the end and station stops are settled, and
     * the answer is whether the train must now be pulled out, which is exactly when it is
     * inactive and has stopped at the depot.
     */
    method AfterStop(action: TrainAction, refill: seq<nat>) returns (pullOut: bool)
      requires movement.Valid()
      requires action == StationStop ==> route.queue != []
      modifies this`editable, this`route, movement`endWaitedTime, movement`waitedTime
      modifies movement`disembarkedWhenRemoved
      ensures movement.Valid()
      ensures pullOut <==> !movement.isActive && action == DepotStop
      ensures action == EndStop ==> route == AfterEndStop(old(route), movement.isActive)
      ensures action == StationStop ==> route == AfterStationStop(old(route), refill)
      ensures action != EndStop && action != StationStop ==> route == old(route)
    {
      match action {
        case EndStop => FinishEndStop();
        case StationStop => FinishStationStop(refill);
        case _ =>
      }
      pullOut := !movement.isActive && action == DepotStop;
    }
  }

  /**
   * The carriage-building loop of `resetTrain`: one new carriage per copy of each entity, and
   * the maximum velocity and deceleration taken when the first carriage is made.
   */
  method BuildCarriages(train: int, entities: seq<CarriageEntity>)
    returns (carriages: seq<TrainCarriage>, maxVelocity: real, deceleration: real)
    requires |Composition(entities)| > 0
    ensures Composed(carriages, Composition(entities), train) && Distinct(carriages)
    ensures forall k :: 0 <= k < |carriages| ==> fresh(carriages[k])
    ensures maxVelocity == Truncate(Composition(entities)[0].maxVelocity) as real
    ensures deceleration == Composition(entities)[0].deceleration
  {
    carriages := [];
    var firstVelocity: Option<int> := None;
    var firstDeceleration: Option<real> := None;
    ghost var made: seq<CarriageEntity> := [];
    for e := 0 to |entities|
      invariant made == Composition(entities[..e])
      invariant Composed(carriages, made, train) && Distinct(carriages)
      invariant forall k :: 0 <= k < |carriages| ==> fresh(carriages[k])
      invariant made == [] <==> firstVelocity.None? && firstDeceleration.None?
      invariant made != [] ==> firstVelocity == Some(Truncate(made[0].maxVelocity))
      invariant made != [] ==> firstDeceleration == Some(made[0].deceleration)
    {
      var entity := entities[e];
      ghost var before := made;
      var count := 1;
      while count <= entity.quantity
        invariant 1 <= count <= (if entity.quantity <= 0 then 0 else entity.quantity) + 1
        invariant made == before + Repeat(entity, count - 1)
        invariant Composed(carriages, made, train) && Distinct(carriages)
        invariant forall k :: 0 <= k < |carriages| ==> fresh(carriages[k])
        invariant made == [] <==> firstVelocity.None? && firstDeceleration.None?
        invariant made != [] ==> firstVelocity == Some(Truncate(made[0].maxVelocity))
        invariant made != [] ==> firstDeceleration == Some(made[0].deceleration)
      {
        var carriage := new TrainCarriage(entity, train);
        if firstVelocity.None? && firstDeceleration.None? {
          firstVelocity := Some(Truncate(entity.maxVelocity));
          firstDeceleration := Some(entity.deceleration);
        }
        carriages := carriages + [carriage];
        made := made + [entity];
        count := count + 1;
      }
      assert entities[..e + 1][..e] == entities[..e];
    }
    assert entities[..|entities|] == entities;
    maxVelocity := firstVelocity.value as real;
    deceleration := firstDeceleration.value;
  }
}
