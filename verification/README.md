# Train simulation: a Dafny model of the movement engine and the track it runs on

This project models the core of a rail-transit simulator for the Manila lines LRT-1, LRT-2 and MRT-3. The core has five parts.

- **The track graph.** Segments are joined by junctions. Each junction holds a block signal, a semaphore with one permit, and each segment holds a queue of the carriages on it. The graph is built once per line: station platform hubs are created, consecutive stations are joined, both ends are closed with loops, platform segments are tagged, and the depot is joined by two spurs.
- **The movement engine.** Once a second, a train's head decides what the train does: a depot, station, end, headway or signal stop, or proceed. On proceed, every carriage advances, crosses into later segments, moves between occupancy queues, and takes or returns block-signal permits. Trains are laid out at spawn, and the dwell counters at stations and at the line's ends are bounded.
- **The train lifecycle.** `deploy` and `pullOut` move a train between the active and inactive lists and free the track it held. The run loop settles end stops and station stops.
- **The clock.** The simulation clock counts the seconds of one day and wraps at midnight.
- **The helpers around them.** These cover:
  - how a train system normalises station names and filters its trip list;
  - the station comparators;
  - the station navigation of a simulation window;
  - the status line of a train summary.

How the model is organised:

- **The track arena.** All segments and junctions live in one arena, the class `Graph.Network`. Segments and junctions are indexed by `nat`. The signals are a sequence of permit counts, one per junction. The carriage queues are a sequence of sequences, one per segment, with the front carriage first. Carriage locations are a map from carriage to segment and clearance.
- **Movement rules as functions.** Every movement rule is a pure function in `MovementRules`, and the lemmas in `MovementFacts` are about those functions.
- **Mutating classes.** The source's mutating classes are Dafny classes whose methods are proved against those functions: `Movement.TrainMovement`, `Trains.Train`, `Systems.TrainSystem`, `Clock.SimulationTime`, `Property.TrainProperty` and `Context.SimulationContext`.
- **Track construction.** The construction operations of `Track` are methods on the network, each specified by a function on the topology. `Environment` lays out whole lines with them, and `LineLayout` states and proves the shape of a finished line.

Where the design description and the code differ, the model follows the code:

- **Out-segments.** A junction's out-segments form an ordered list, not a map keyed by direction. An active train takes out-segment 0 and a retiring train takes out-segment 1 when there is one.
- **The depot decision.** `decideAction` returns a depot stop for any train on a depot segment. Only `move` lets an active train go on from there.
- **Velocity.** On proceed, the velocity is set straight to the maximum velocity; the deceleration is never used.
- **Releasing signals in `pullOut`.** The code releases one permit per carriage, not one per segment the train held. This release as written is `Lifecycle.ReleasePerCarriage`, and the finding below shows how it overfills a signal. `Lifecycle.PullOut` uses the corrected release, once per occupied segment.

Some code is not part of this model:

- **Versions that do not match.** The files come from versions that do not fully agree. `TrainMovement.java` calls `Segment.getFrom()`, `getDepot()` and a train-queue API that `Segment.java` does not have. The model reads `getFrom()` as the first junction that lists the segment among its out-segments, and a train queue as a sequence with the front carriage first. The StationQueue and TrainQueue classes are not part of this model. `Train.java` also calls route methods of the movement (`getStationQueue`, `isStationListEdited`, `getDesiredDirection`, `setDesiredDirection`, `switchDirection`, `isTowardsNearEnd`) that this `TrainMovement.java` does not have; the model keeps the route on the train (`Trains.Route`). It also calls `snapToSegment` on the movement, which this `TrainMovement.java` does not have.
- **Missing classes.** `PlatformHub.java` is not part of this model. A platform hub is modelled from its uses in `Track.java`, `Platform.java` and `Depot.java`.

## Model

| member | source | states |
|---|---|---|
| Carriages.TrainCarriage.constructor | com/trainsimulation/model/core/environment/trainservice/passengerservice/trainset/TrainCarriage.java:31-42 | a carriage takes its identifier, capacity, class name and length from its entity and belongs to the train it is built for |
| Carriages.SameEntityCarriagesEqual | com/trainsimulation/model/core/environment/trainservice/passengerservice/trainset/TrainCarriage.java:68-75 | two carriages built from the same entity are equal although they are distinct objects |
| Carriages.EqualsIsEquivalence | com/trainsimulation/model/core/environment/trainservice/passengerservice/trainset/TrainCarriage.java:68-75 | carriage equality is reflexive and symmetric and never holds against null |
| Clock.SecondOfDay | com/trainsimulation/model/simulator/SimulationTime.java:18-20 | a valid hour, minute and second name a second below 86400 |
| Clock.PlusSeconds | com/trainsimulation/model/simulator/SimulationTime.java:27-32 | adding seconds always gives a reading within the day |
| Clock.ClockRoundTrip | com/trainsimulation/model/simulator/SimulationTime.java:13-16 | splitting a reading into hour, minute and second and joining them again gives it back |
| Clock.FieldsRoundTrip | com/trainsimulation/model/simulator/SimulationTime.java:18-20 | the fields read back from a clock built from valid fields are those fields |
| Clock.PlusSecondsStep | com/trainsimulation/model/simulator/SimulationTime.java:27-32 | `n` ticks followed by one tick equal `n + 1` ticks |
| Clock.TickWraps | com/trainsimulation/model/simulator/SimulationTime.java:27-32 | a tick adds one second, except that 23:59:59 wraps to 00:00:00 |
| Clock.EndOfDayNeverPassed | com/trainsimulation/model/simulator/SimulationTime.java:22-32 | no number of ticks takes the clock past 23:59:59 |
| Clock.SimulationTime.Copy | com/trainsimulation/model/simulator/SimulationTime.java:13-16 | a copy shows the same time as the original |
| Clock.SimulationTime.constructor | com/trainsimulation/model/simulator/SimulationTime.java:18-20 | a clock built from valid fields shows that second of the day |
| Clock.SimulationTime.Tick | com/trainsimulation/model/simulator/SimulationTime.java:27-32 | a tick moves the reading one second on, modulo a day |
| Clock.SimulationTime.SetTime | com/trainsimulation/model/simulator/SimulationTime.java:38-40 | the clock shows the time it is given |
| Clock.BeforeOrDuringReflexive | com/trainsimulation/model/simulator/SimulationTime.java:22-25 | a clock is never past itself |
| Clock.TickedClockWithinEndOfDay | com/trainsimulation/model/simulator/SimulationTime.java:22-32 | with an end time of 23:59:59, a clock that has ticked any number of times is never past the end |
| Graph.FreshSegment | com/trainsimulation/model/core/environment/infrastructure/track/Segment.java:44-51 | a new segment has only its length set and is not curved |
| Graph.AddJunction | com/trainsimulation/model/core/environment/infrastructure/track/Junction.java:22-36 | one junction is appended with the given out-segments and nothing else changes |
| Graph.AddSegment | com/trainsimulation/model/core/environment/infrastructure/track/Segment.java:44-51 | one fresh segment is appended and nothing else changes |
| Graph.ConnectTopology | com/trainsimulation/model/core/environment/infrastructure/track/Track.java:83-86 | connecting appends the segment to the first junction's out-segments and points it at the second junction; the junction's end flag and the segment's other fields are kept |
| Graph.FromSearch | com/trainsimulation/model/utility/TrainMovement.java:372 | the junction found lists the segment, and no earlier junction does |
| Graph.From | com/trainsimulation/model/utility/TrainMovement.java:372 | a segment's start is the first junction listing it, or none when no junction does |
| Graph.ConnectKeepsFrom | com/trainsimulation/model/core/environment/infrastructure/track/Track.java:83-86 | connecting never changes which junction an unrelated segment starts from |
| Graph.Network.NewJunction | com/trainsimulation/model/core/environment/infrastructure/track/Junction.java:30-36 | a new junction has no out-segments, is not an end and its signal holds one permit |
| Graph.Network.NewJunctionWith | com/trainsimulation/model/core/environment/infrastructure/track/Junction.java:22-28 | a new junction has the given out-segments, is not an end and its signal holds one permit |
| Graph.Network.NewSegment | com/trainsimulation/model/core/environment/infrastructure/track/Segment.java:44-51 | a new segment of the given length with an empty queue is appended |
| Graph.Network.Connect | com/trainsimulation/model/core/environment/infrastructure/track/Track.java:83-86 | the network's topology becomes `ConnectTopology` of the old one |
| Graph.Network.SetEnd | com/trainsimulation/model/core/environment/infrastructure/track/Junction.java:42-44 | only the junction's end flag changes |
| Graph.Network.SetName | com/trainsimulation/model/core/environment/infrastructure/track/Segment.java:61-63 | only the segment's name changes |
| Graph.Network.SetTo | com/trainsimulation/model/core/environment/infrastructure/track/Segment.java:69-71 | only the junction the segment leads into changes |
| Graph.Network.SetStation | com/trainsimulation/model/core/environment/infrastructure/track/Segment.java:77-79 | only the segment's station changes |
| Graph.Network.SetPlatformHub | com/trainsimulation/model/core/environment/infrastructure/track/Segment.java:89-91 | only the segment's platform hub changes |
| Graph.Network.SetCurved | com/trainsimulation/model/core/environment/infrastructure/track/Segment.java:97-99 | only the segment's curved flag changes |
| Graph.Network.SetDirection | com/trainsimulation/model/simulator/setup/EnvironmentSetup.java:96-102 | only the segment's direction changes |
| Stations.Station.constructor | com/trainsimulation/model/core/environment/trainservice/passengerservice/stationset/Station.java:79-109 | a station takes its name, sequence, distance and depot sequence from its row, and a northbound and then a southbound platform hub of the LRT-1 platform length are created |
| Stations.Compare | com/trainsimulation/model/core/environment/trainservice/passengerservice/stationset/Station.java:24-37 | the comparison is negative, zero or positive exactly as the first value is below, equal to or above the second |
| Stations.DescendingNegatesAscending | com/trainsimulation/model/core/environment/trainservice/passengerservice/stationset/Station.java:24-37 | the descending comparator is the ascending one reversed |
| Stations.AscendingIsTotalPreorder | com/trainsimulation/model/core/environment/trainservice/passengerservice/stationset/Station.java:24-29 | the ascending comparator depends only on the depot sequence and is a total preorder |
| Track.Opposite | com/trainsimulation/model/core/environment/trainservice/passengerservice/trainset/Train.java:242 | the opposite of a direction is the other of the two directions |
| Track.Link | com/trainsimulation/model/core/environment/infrastructure/track/Track.java:83-86 | one segment of the given length is appended and no junction; the existing junction `from` gets it as its last out-segment, and it leads into junction `to` |
| Track.Hub | com/trainsimulation/model/core/environment/infrastructure/track/Track.java:15-18 | a hub is an in-connector, a platform segment and an out-connector at the next free indices, all three in the topology |
| Track.HubConnected | com/trainsimulation/model/core/environment/infrastructure/track/Track.java:15-18 | creating the in-connector, the segment and the out-connector one by one and connecting the segment from the first to the second builds the hub |
| Track.Stations | com/trainsimulation/model/core/environment/infrastructure/track/Track.java:21-41 | joining two stations adds exactly two segments and no junction |
| Track.StationsShape | com/trainsimulation/model/core/environment/infrastructure/track/Track.java:21-41 | the first new segment leaves the earlier station northbound for the later one and the second leaves the later station southbound for the earlier one; nothing else changes |
| Track.Depot | com/trainsimulation/model/core/environment/infrastructure/track/Track.java:44-50 | joining the depot adds exactly two segments and no junction |
| Track.DepotShape | com/trainsimulation/model/core/environment/infrastructure/track/Track.java:44-50 | one spur leaves the out-junction for the depot's in-connector and the other leaves the depot's out-connector for the in-junction; nothing else changes |
| Track.Loop | com/trainsimulation/model/core/environment/infrastructure/track/Track.java:53-80 | closing an end adds exactly one junction and two segments |
| Track.LoopShape | com/trainsimulation/model/core/environment/infrastructure/track/Track.java:53-80 | the new junction is an end, fed from the out junction and leading into the in junction; the out junction gains one out-segment and nothing else changes |
| Track.NewPlatformHub | com/trainsimulation/model/core/environment/infrastructure/track/Track.java:15-18 | the network gains the hub's parts, whose signals each hold one permit and whose queue is empty |
| Track.ConnectStations | com/trainsimulation/model/core/environment/infrastructure/track/Track.java:21-41 | the network's topology becomes `Stations` of the old one, with two new empty queues |
| Track.ConnectDepot | com/trainsimulation/model/core/environment/infrastructure/track/Track.java:44-50 | the network's topology becomes `Depot` of the old one, with two new empty queues |
| Track.FormLoop | com/trainsimulation/model/core/environment/infrastructure/track/Track.java:53-80 | the network's topology becomes `Loop` of the old one, and the new end junction holds one permit |
| Track.FormNorthLoop | com/trainsimulation/model/core/environment/infrastructure/track/Track.java:53-65 | the loop runs from the station's northbound out-connector to its southbound in-connector |
| Track.FormSouthLoop | com/trainsimulation/model/core/environment/infrastructure/track/Track.java:68-80 | the loop runs from the station's southbound out-connector to its northbound in-connector |
| MovementRules.ToMetersPerSecond | com/trainsimulation/model/utility/TrainMovement.java:420-422 | a speed in km/h, divided by 3.6 |
| MovementRules.NextSegment | com/trainsimulation/model/utility/TrainMovement.java:352-366 | the segment taken past a junction exists and is one of that junction's out-segments |
| MovementRules.Land | com/trainsimulation/model/utility/TrainMovement.java:348-368 | carrying a clearance over the following segments lands on an existing segment with a clearance below its length, and never below zero when it started at zero or more |
| MovementRules.IndexOf | com/trainsimulation/model/utility/TrainMovement.java:524-530 | the index of the first occurrence of the carriage in the queue, or -1 exactly when it is absent |
| MovementRules.Landing | com/trainsimulation/model/utility/TrainMovement.java:340-368 | where a carriage lands after moving lies on an existing segment |
| MovementRules.Step | com/trainsimulation/model/utility/TrainMovement.java:323-405 | one carriage's move keeps one queue per segment and one signal per junction, and keeps every carriage of the train placed |
| MovementRules.StepStaying | com/trainsimulation/model/utility/TrainMovement.java:340-347 | a carriage that stays on its segment only has its clearance increased |
| MovementRules.CrossingBounds | com/trainsimulation/model/utility/TrainMovement.java:370-399 | the signals and the queue a crossing carriage touches exist, and its old queue is not empty |
| MovementRules.StepCrossing | com/trainsimulation/model/utility/TrainMovement.java:348-404 | a crossing carriage moves from the front of its old queue to the back of the new one; as the head it takes a permit at the new segment, and as the tail it returns one at the old segment |
| MovementRules.Advance | com/trainsimulation/model/utility/TrainMovement.java:323-405 | moving the carriages one after another keeps the occupancy well-formed and every carriage placed |
| Movement.TrainMovement.constructor | com/trainsimulation/model/utility/TrainMovement.java:72-95 | the station dwell is 30 s lengthened or shortened by the spread, so it lies within 16 to 44 s; the end dwell is 300 s; a new movement is inactive, at rest, with no stations and no waits counted |
| Movement.TrainMovement.WaitAtStation | com/trainsimulation/model/utility/TrainMovement.java:427-437 | one second of station dwell, as `WaitStep` says: the counter goes up and resets when the dwell is over |
| Movement.TrainMovement.WaitAtEnd | com/trainsimulation/model/utility/TrainMovement.java:442-452 | one second of end dwell, as `WaitStep` says |
| Movement.TrainMovement.UpdateVelocity | com/trainsimulation/model/utility/TrainMovement.java:699-701 | the velocity becomes the maximum velocity |
| Movement.TrainMovement.ComputeDistance | com/trainsimulation/model/utility/TrainMovement.java:587-671 | the loop over the segments ahead computes `Distance` |
| Movement.TrainMovement.DecideAction | com/trainsimulation/model/utility/TrainMovement.java:455-578 | the action is `Decision` for the train's head |
| Movement.TrainMovement.MoveCarriage | com/trainsimulation/model/utility/TrainMovement.java:323-405 | the occupancy becomes `Step` of the old occupancy |
| Movement.TrainMovement.Cross | com/trainsimulation/model/utility/TrainMovement.java:348-399 | the landing, signals and queues computed are those `Step` gives a crossing carriage |
| Movement.TrainMovement.CrossSegments | com/trainsimulation/model/utility/TrainMovement.java:348-368 | the do-while crossing loop lands where `Land` says, on a segment that starts from a junction |
| Movement.TrainMovement.Move | com/trainsimulation/model/utility/TrainMovement.java:182-417 | one call of `move` gives the flags, occupancy and action of `Tick` of the state before it |
| Movement.TrainMovement.React | com/trainsimulation/model/utility/TrainMovement.java:191-317 | the reaction to the decided action gives the flags and the early return that `Halts` gives |
| Movement.TrainMovement.MoveCarriages | com/trainsimulation/model/utility/TrainMovement.java:323-405 | the occupancy becomes `Advance` of the old one over all carriages |
| Movement.TrainMovement.SetTrainAtSegment | com/trainsimulation/model/utility/TrainMovement.java:674-696 | the signal at the segment's start loses one permit, the train's carriages join the back of the queue, and the carriages are laid out as `Spawned` says |
| Movement.ClearedRatio | com/trainsimulation/model/utility/TrainMovement.java:347 | for a positive length, the cleared share reaches one exactly when the clearance reaches the length |
| MovementFacts.DecisionPriority | com/trainsimulation/model/utility/TrainMovement.java:455-578 | one exact condition per action: a depot stop exactly on a depot segment; a station stop exactly on a station segment the head would overshoot within a second; an end stop exactly off a station before an end junction with such an overshoot; a signal stop exactly off a station before a junction that is not an end, with no train ahead within the limit, no permit at the signal and such an overshoot; proceed exactly when none of these and no headway stop applies |
| MovementFacts.HeadwayStopIff | com/trainsimulation/model/utility/TrainMovement.java:520-561 | a headway stop happens exactly when the head is on a plain segment before a junction that is not an end and the separation to the train ahead is known and within the limit |
| MovementFacts.WalkAtLeast | com/trainsimulation/model/utility/TrainMovement.java:601-665 | unless the track ends, the walk never reports less than what it has measured so far |
| MovementFacts.WalkWithinLimitFindsTrain | com/trainsimulation/model/utility/TrainMovement.java:601-665 | a distance within the limit is the distance to the first occupied segment along the first out-segments: the metres left of the head's segment, plus the empty segments passed, plus the clearance of the last carriage queued there |
| MovementFacts.WalkReachesFirstTrain | com/trainsimulation/model/utility/TrainMovement.java:620-661 | when the first occupied segment along the first out-segments is reached within the limit, the distance is the metres left of the head's segment, plus the empty segments passed, plus the clearance of the last carriage queued there |
| MovementFacts.WalkWithoutTrainAhead | com/trainsimulation/model/utility/TrainMovement.java:620-665 | with no carriage queued on any segment reached within the limit, the track ends or the distance exceeds the limit |
| MovementFacts.SeparationNonNegative | com/trainsimulation/model/utility/TrainMovement.java:587-668 | when every queue is ordered front-furthest, the separation measured is never negative, as the assertion at the end of `computeDistance` demands |
| MovementFacts.DistanceAheadNonNegative | com/trainsimulation/model/utility/TrainMovement.java:587-671 | the distance to a train on a later segment is at least what is left of the head's own segment |
| MovementFacts.StopsKeepOccupancy | com/trainsimulation/model/utility/TrainMovement.java:191-317 | every stop leaves the occupancy as it was and reports the decided action |
| MovementFacts.ProceedAdvances | com/trainsimulation/model/utility/TrainMovement.java:318-405 | a train that proceeds runs at its maximum velocity, and every carriage advances by one second at that speed |
| MovementFacts.EndStopLatches | com/trainsimulation/model/utility/TrainMovement.java:204-222 | an end stop needs the end latch clear and then sets it, so it happens once per arrival |
| MovementFacts.DepotStopOnlyInactive | com/trainsimulation/model/utility/TrainMovement.java:309-317 | only an inactive train reports a depot stop; an active train on a depot segment proceeds |
| MovementFacts.StationStopConditions | com/trainsimulation/model/utility/TrainMovement.java:223-295 | a station stop needs the station to be one of the train's stops (or the train to be retiring) and the train not to have just stopped there; afterwards both station markers name the station, the end latch is clear and the train stands still |
| MovementFacts.QueuedTotalUpdate | com/trainsimulation/model/utility/TrainMovement.java:388-391 | replacing one queue changes the number of queued carriages by the difference in length |
| MovementFacts.PermitTotalUpdate | com/trainsimulation/model/utility/TrainMovement.java:370-399 | replacing one signal changes the free permits by the difference |
| MovementFacts.TransferKeepsTotal | com/trainsimulation/model/utility/TrainMovement.java:388-391 | a carriage moving between queues keeps the number of queued carriages |
| MovementFacts.ResignalTotal | com/trainsimulation/model/utility/TrainMovement.java:370-399 | a crossing takes one permit for the head and returns one for the tail; a train of one carriage does both |
| MovementFacts.StepKeepsQueuedTotal | com/trainsimulation/model/utility/TrainMovement.java:323-405 | one carriage's move keeps the number of queued carriages |
| MovementFacts.AdvanceKeepsQueuedTotal | com/trainsimulation/model/utility/TrainMovement.java:323-405 | moving a whole train keeps the number of queued carriages |
| MovementFacts.StepKeepsFits | com/trainsimulation/model/utility/TrainMovement.java:323-405 | one carriage's move keeps every queued carriage placed on an existing segment |
| MovementFacts.AdvanceKeepsFits | com/trainsimulation/model/utility/TrainMovement.java:323-405 | moving a whole train keeps every queued carriage placed on an existing segment |
| MovementFacts.StepLandsInside | com/trainsimulation/model/utility/TrainMovement.java:340-404 | a carriage moving forward from a clearance of zero or more lands with a clearance of zero or more and below its segment's length |
| MovementFacts.PollsUntilDoneCount | com/trainsimulation/model/utility/TrainMovement.java:427-452 | from counter `c` below the dwell `w`, a wait reports "still waiting" `w - c - 1` times and then ends |
| MovementFacts.SpawnedPlace | com/trainsimulation/model/utility/TrainMovement.java:674-696 | laying out the carriages puts each on the segment, behind the head by the lengths of the carriages before it, each plus the gap |
| MovementFacts.SpawnedKeepsOthers | com/trainsimulation/model/utility/TrainMovement.java:674-696 | laying out adds exactly the train's carriages to the placed ones and moves no other carriage |
| MovementFacts.SpawnedLayout | com/trainsimulation/model/utility/TrainMovement.java:674-696 | at spawn the head stands at the given clearance and every carriage stands behind it by the lengths of the carriages before it, each plus the gap |
| Trains.Repeat | com/trainsimulation/model/core/environment/trainservice/passengerservice/trainset/Train.java:63-74 | the entity repeated as many times as its quantity, none when the quantity is not positive |
| Trains.FirstUsed | com/trainsimulation/model/core/environment/trainservice/passengerservice/trainset/Train.java:68-71 | the first entity with a positive quantity, and every earlier entity has none |
| Trains.CompositionAppend | com/trainsimulation/model/core/environment/trainservice/passengerservice/trainset/Train.java:60-75 | the composition of two entity lists in a row is the two compositions in a row |
| Trains.CompositionSize | com/trainsimulation/model/core/environment/trainservice/passengerservice/trainset/Train.java:60-75 | a train has as many carriages as the positive quantities add up to |
| Trains.CompositionHead | com/trainsimulation/model/core/environment/trainservice/passengerservice/trainset/Train.java:60-75 | the head is made from the first entity with a positive quantity, and every carriage is made from an entity with a positive quantity |
| Trains.CompositionUsesPositive | com/trainsimulation/model/core/environment/trainservice/passengerservice/trainset/Train.java:60-75 | every carriage built is made from one of the train's entities, and that entity has a positive quantity |
| Trains.NoCarriages | com/trainsimulation/model/core/environment/trainservice/passengerservice/trainset/Train.java:60-75 | entities with no positive quantity give no carriages |
| Trains.Truncate | com/trainsimulation/model/core/environment/trainservice/passengerservice/trainset/Train.java:69 | the `(int)` cast rounds toward zero: it is within one of the value and on zero's side of it |
| Trains.StationStopPopsOne | com/trainsimulation/model/core/environment/trainservice/passengerservice/trainset/Train.java:207-251 | a station stop pops exactly one station, and turns round and refills the stations only when that was the last one |
| Trains.EndStopSwitches | com/trainsimulation/model/core/environment/trainservice/passengerservice/trainset/Train.java:167-206 | an end stop always switches the direction; it empties the stations only of an inactive train and clears the edited flag only of an active one |
| Trains.Train.constructor | com/trainsimulation/model/core/environment/trainservice/passengerservice/trainset/Train.java:37-43 | a new train's carriages are made one for one from its entities, no carriage twice, and its movement drives those carriages |
| Trains.Train.Head | com/trainsimulation/model/core/environment/trainservice/passengerservice/trainset/Train.java:85-87 | the head is the first carriage |
| Trains.Train.Tail | com/trainsimulation/model/core/environment/trainservice/passengerservice/trainset/Train.java:89-91 | the tail is the last carriage |
| Trains.Train.ResetTrain | com/trainsimulation/model/core/environment/trainservice/passengerservice/trainset/Train.java:45-79 | new carriages, one per copy of each entity in order; a new movement with the truncated maximum velocity and the deceleration of the first carriage made; a new summary of a train still preparing |
| Trains.Train.FinishEndStop | com/trainsimulation/model/core/environment/trainservice/passengerservice/trainset/Train.java:168-206 | after the end dwell, the route is settled as `AfterEndStop` says |
| Trains.Train.FinishStationStop | com/trainsimulation/model/core/environment/trainservice/passengerservice/trainset/Train.java:207-251 | after the station dwell, an inactive train is marked as having let its passengers off and the route is settled as `AfterStationStop` says |
| Trains.Train.AfterStop | com/trainsimulation/model/core/environment/trainservice/passengerservice/trainset/Train.java:166-260 | the stops are settled, and the train must be pulled out exactly when it is inactive and stopped at the depot |
| Trains.BuildCarriages | com/trainsimulation/model/core/environment/trainservice/passengerservice/trainset/Train.java:54-75 | the loop builds one carriage per copy of each entity in order, and takes the maximum velocity and deceleration from the first carriage it builds |
| Lifecycle.TransferKeepsAll | com/trainsimulation/model/core/environment/trainservice/passengerservice/trainset/Train.java:273-293 | moving a train from one list to the other loses no train and adds none |
| Lifecycle.Deploy | com/trainsimulation/model/core/environment/trainservice/passengerservice/trainset/Train.java:273-285 | the train leaves the inactive list (its first occurrence), joins the end of the active list and becomes active |
| Lifecycle.SegmentsOf | com/trainsimulation/model/core/environment/trainservice/passengerservice/trainset/Train.java:299-300 | the segment of each carriage, in carriage order |
| Lifecycle.FromTable | com/trainsimulation/model/core/environment/trainservice/passengerservice/trainset/Train.java:303 | each segment's entry is the junction it starts from, or -1 when it starts from none |
| Lifecycle.OccupiedMembers | com/trainsimulation/model/core/environment/trainservice/passengerservice/trainset/Train.java:299-304 | a segment is occupied exactly when one of the carriages is on it |
| Lifecycle.ReleasePerCarriage | com/trainsimulation/model/core/environment/trainservice/passengerservice/trainset/Train.java:299-304 | the release loop as written never leaves a signal with fewer permits than before |
| Lifecycle.ReleasePerSegmentCounts | com/trainsimulation/model/core/environment/trainservice/passengerservice/trainset/Train.java:299-304 | the intended release adds to each junction's signal the number of occupied segments that start from it |
| Lifecycle.ReleasePerSegmentRestores | com/trainsimulation/model/core/environment/trainservice/passengerservice/trainset/Train.java:295-304 | when the train holds every signal of its segments and no two of them start from the same junction, the intended release returns each of those signals to one permit and leaves every other signal alone |
| Lifecycle.PerCarriageReleaseOverfills | com/trainsimulation/model/core/environment/trainservice/passengerservice/trainset/Train.java:298-305 | two carriages on one held segment leave its signal with two permits under the release as written and with one under the release as intended |
| Lifecycle.Cleared | com/trainsimulation/model/core/environment/trainservice/passengerservice/trainset/Train.java:302 | the queues of the given segments are emptied and every other queue is kept |
| Lifecycle.ClearAndRelease | com/trainsimulation/model/core/environment/trainservice/passengerservice/trainset/Train.java:295-304 | the loop empties the queue of every segment a carriage is on and releases the signals once per segment |
| Lifecycle.PullOut | com/trainsimulation/model/core/environment/trainservice/passengerservice/trainset/Train.java:288-307 | the train moves from the active to the inactive list; its segments' queues are emptied, their signals are released once each, and the train is built afresh |
| Systems.FixDiscrepancyIsAliasLookup | com/trainsimulation/model/core/environment/TrainSystem.java:121-147 | the fix rewrites exactly the eleven aliases, each to its station name, and leaves every other name alone |
| Systems.FixDiscrepancyNotIdempotent | com/trainsimulation/model/core/environment/TrainSystem.java:138-141 | fixing a name twice can differ from fixing it once |
| Systems.FindStation | com/trainsimulation/model/core/environment/TrainSystem.java:111-117 | the index found names a station with that name and no earlier station has it; none means no station has it |
| Systems.RemoveAll | com/trainsimulation/model/core/environment/TrainSystem.java:166 | `removeAll` never makes the list longer |
| Systems.TimeFiltersKeep | com/trainsimulation/model/core/environment/TrainSystem.java:176-191 | the filters by entry time keep exactly the trips that pass them |
| Systems.StationFilterKeeps | com/trainsimulation/model/core/environment/TrainSystem.java:176-191 | the filter by entry station keeps exactly the trips that enter there |
| Systems.RemoveAllKeeps | com/trainsimulation/model/core/environment/TrainSystem.java:166 | `removeAll` keeps exactly the elements that are not to go |
| Systems.RemoveFirst | com/trainsimulation/model/core/environment/trainservice/passengerservice/trainset/Train.java:273-293 | `List.remove` drops only the first occurrence, and the list is kept when the element is absent |
| Systems.LeadingBefore | com/trainsimulation/model/core/environment/TrainSystem.java:158-164 | the leading trips counted all enter before the start, and the next one does not |
| Systems.ScanEnd | com/trainsimulation/model/core/environment/TrainSystem.java:176-191 | the scan reads up to the first trip that enters after the current time |
| Systems.GroupByStation | com/trainsimulation/model/core/environment/TrainSystem.java:176-191 | the groups are keyed by exactly the stations some trip enters at, and each group is that station's trips in list order |
| Systems.DropLeading | com/trainsimulation/model/core/environment/TrainSystem.java:155-167 | dropping the leading early trips leaves exactly the list from the first trip that is not early |
| Systems.SpawnLeaves | com/trainsimulation/model/core/environment/TrainSystem.java:170-196 | spawning removes exactly the scanned trips that enter now; the other scanned trips keep their order and everything after the scan stays |
| Systems.TrainSystem.constructor | com/trainsimulation/model/core/environment/TrainSystem.java:39-47 | a new train system has its information and no stations, trains, trips or depot |
| Systems.TrainSystem.SetDepot | com/trainsimulation/model/core/environment/TrainSystem.java:71-73 | only the depot changes |
| Systems.TrainSystem.AddStations | com/trainsimulation/model/simulator/setup/EnvironmentSetup.java:54-57 | the given stations are appended in order |
| Systems.TrainSystem.RetrieveStation | com/trainsimulation/model/core/environment/TrainSystem.java:107-118 | the first station whose name is the fixed name, or none when there is no such station |
| Systems.TrainSystem.LoadPassengerList | com/trainsimulation/model/core/environment/TrainSystem.java:149-152 | the trips to spawn become the given list |
| Systems.TrainSystem.RemoveTripsBeforeStartTime | com/trainsimulation/model/core/environment/TrainSystem.java:155-167 | the leading run of trips that enter before the start time is removed |
| Systems.TrainSystem.GetPassengersToSpawn | com/trainsimulation/model/core/environment/TrainSystem.java:170-196 | the trips that enter now, grouped by entry station, are returned and removed from the list |
| Systems.TrainSystem.HashCode | com/trainsimulation/model/core/environment/TrainSystem.java:209-211 | the hash is always a 32-bit `int` |
| Systems.EqualsConsistent | com/trainsimulation/model/core/environment/TrainSystem.java:198-211 | equality of train systems is an equivalence, and equal systems hash alike |
| Systems.Wrap32 | com/trainsimulation/model/core/environment/TrainSystem.java:209-211 | the value wrapped into a 32-bit two's-complement `int`, equal to it modulo 2^32 |
| Systems.StringHash | com/trainsimulation/model/utility/TrainSystemInformation.java:56-58 | `String.hashCode` always gives a 32-bit `int` |
| Systems.ObjectsHash | com/trainsimulation/model/core/environment/TrainSystem.java:209-211 | `Objects.hash` of one value is 31 plus its hash, in 32-bit arithmetic |
| Systems.HashOfOneLetter | com/trainsimulation/model/core/environment/TrainSystem.java:209-211 | a one-letter name hashes to its code, and the train system to 62 more than that |
| Property.Fields | com/trainsimulation/model/core/environment/trainservice/passengerservice/property/TrainProperty.java:127 | splitting at a delimiter always gives at least one field |
| Property.SplitName | com/trainsimulation/model/core/environment/trainservice/passengerservice/property/TrainProperty.java:127 | a name made of a prefix, the delimiter and a field splits into those two parts |
| Property.Status | com/trainsimulation/model/core/environment/trainservice/passengerservice/property/TrainProperty.java:123-151 | a train whose head is on no segment yet is "Preparing" |
| Property.StatusOfName | com/trainsimulation/model/core/environment/trainservice/passengerservice/property/TrainProperty.java:123-151 | each kind of segment gives its phrase followed by the name's field, and the depot's in-spur gives "Exiting system" |
| Property.DigitsRoundTrip | com/trainsimulation/model/core/environment/trainservice/passengerservice/property/TrainProperty.java:110 | the digits of a number read back as that number |
| Property.DecimalRoundTrip | com/trainsimulation/model/core/environment/trainservice/passengerservice/property/TrainProperty.java:110-119 | the decimal string of a number, with its sign, reads back as that number |
| Property.TrainProperty.constructor | com/trainsimulation/model/core/environment/trainservice/passengerservice/property/TrainProperty.java:24-29 | a new summary describes the train |
| Property.TrainProperty.Update | com/trainsimulation/model/core/environment/trainservice/passengerservice/property/TrainProperty.java:108-120 | after an update the summary describes the train: its number, its head's status, its carriage count, its class and its capacity as the count times the head's capacity |
| Context.Step | com/trainsimulation/controller/context/SimulationContext.java:90-118 | a step moves one station towards the chosen end and stays in range, and goes nowhere exactly at that end |
| Context.StepBack | com/trainsimulation/controller/context/SimulationContext.java:90-118 | a step forwards and a step backwards undo each other |
| Context.Buttons | com/trainsimulation/controller/context/SimulationContext.java:74-88 | the previous button is disabled exactly at the first station, and the next button exactly at a last station that is not also the first |
| Context.ButtonsMatchSteps | com/trainsimulation/controller/context/SimulationContext.java:74-88 | a disabled button is one whose step goes nowhere, and on a line of two stations or more the converse holds too; on a line of one station the next button stays enabled |
| Context.SimulationContext.constructor | com/trainsimulation/controller/context/SimulationContext.java:23-30 | a window opens on the first station of its system |
| Context.SimulationContext.ShowStationText | com/trainsimulation/controller/context/SimulationContext.java:64-68 | the label shows the current station's name |
| Context.SimulationContext.ConfigureButtons | com/trainsimulation/controller/context/SimulationContext.java:74-88 | the buttons are disabled as `Buttons` says |
| Context.SimulationContext.MoveToPreviousStation | com/trainsimulation/controller/context/SimulationContext.java:90-103 | the window moves exactly when a backwards step exists, to that station, showing its name with the buttons reconfigured; otherwise nothing changes |
| Context.SimulationContext.MoveToNextStation | com/trainsimulation/controller/context/SimulationContext.java:105-118 | the window moves exactly when a forwards step exists, to that station, showing its name with the buttons reconfigured; otherwise nothing changes |
| LineLayout.LayoutOf | com/trainsimulation/model/simulator/setup/EnvironmentSetup.java:28-45 | LRT-1 and LRT-2 get their depot past the last station, MRT-3 before the first, and any other line is skipped |
| LineLayout.Hubs | com/trainsimulation/model/simulator/setup/EnvironmentSetup.java:54 | creating the hubs of `n` stations adds four junctions and two segments per station |
| LineLayout.HubsShape | com/trainsimulation/model/simulator/setup/EnvironmentSetup.java:54 | creating the hubs keeps what was there and adds one untouched block per station |
| LineLayout.TaggedPlatform | com/trainsimulation/model/simulator/setup/EnvironmentSetup.java:91-103 | tagging the first stations sets the station, the hub and the direction on exactly their two platform segments |
| LineLayout.TaggedOther | com/trainsimulation/model/simulator/setup/EnvironmentSetup.java:91-103 | tagging touches no segment outside the platform segments |
| LineLayout.LinkStep | com/trainsimulation/model/simulator/setup/EnvironmentSetup.java:60-72 | connecting station `i` to station `i - 1` takes a line linked up to station `i` to one linked up to station `i + 1` |
| LineLayout.LinkedReached | com/trainsimulation/model/simulator/setup/EnvironmentSetup.java:60-72 | once every station is linked, the line is at its linked stage |
| LineLayout.LoopsStep | com/trainsimulation/model/simulator/setup/EnvironmentSetup.java:78-86 | closing both ends of a linked line reaches the closed stage |
| LineLayout.TagStep | com/trainsimulation/model/simulator/setup/EnvironmentSetup.java:88-103 | tagging every station of a closed line reaches the tagged stage |
| LineLayout.DepotBlock | com/trainsimulation/model/simulator/setup/EnvironmentSetup.java:105-123 | the depot adds its spur to the out-connector it hangs off and touches no other station's block |
| LineLayout.DepotStep | com/trainsimulation/model/simulator/setup/EnvironmentSetup.java:105-123 | joining the depot to a tagged line gives the finished line that `Laid` describes |
| Environment.Permits | com/trainsimulation/model/core/environment/infrastructure/track/Junction.java:22-36 | `n` new signals, each holding one permit |
| Environment.EmptyQueues | com/trainsimulation/model/core/environment/infrastructure/track/Segment.java:44-51 | `n` new carriage queues, all empty |
| Environment.LineSignals | com/trainsimulation/model/simulator/setup/EnvironmentSetup.java:48-127 | a line adds four signals per station and four more for its end loops and depot, each holding one permit |
| Environment.LineQueues | com/trainsimulation/model/simulator/setup/EnvironmentSetup.java:48-127 | a line of `n` stations adds `4n + 5` empty queues |
| Environment.CreateStations | com/trainsimulation/model/simulator/setup/EnvironmentSetup.java:54-57 | one station per row, in order, each creating its northbound and then its southbound hub |
| Environment.ConnectNext | com/trainsimulation/model/simulator/setup/EnvironmentSetup.java:60-72 | connecting station `i` to station `i - 1` takes the line from `i` linked stations to `i + 1` |
| Environment.ConnectAll | com/trainsimulation/model/simulator/setup/EnvironmentSetup.java:60-72 | every station is connected to the one before it, in line order, and the line reaches its linked stage |
| Environment.TagPlatforms | com/trainsimulation/model/simulator/setup/EnvironmentSetup.java:91-103 | the two platform segments of a station get the station, the hub and the direction, and nothing else changes |
| Environment.TagAll | com/trainsimulation/model/simulator/setup/EnvironmentSetup.java:91-103 | the topology becomes `Tagged` of the old one |
| Environment.LayStations | com/trainsimulation/model/simulator/setup/EnvironmentSetup.java:54-72 | the stations are created and linked, and the line is at its linked stage |
| Environment.CloseEnds | com/trainsimulation/model/simulator/setup/EnvironmentSetup.java:78-86 | the north loop is formed at the last station and then the south loop at the first, and the line is at its closed stage |
| Environment.TagStations | com/trainsimulation/model/simulator/setup/EnvironmentSetup.java:88-103 | every platform segment is tagged, and the line is at its tagged stage |
| Environment.JoinDepot | com/trainsimulation/model/simulator/setup/EnvironmentSetup.java:105-123 | the depot's hub is created and joined past the last station for the LRT lines and before the first for MRT-3, which gives the finished line |
| Environment.LayAndClose | com/trainsimulation/model/simulator/setup/EnvironmentSetup.java:54-86 | the stations are created and linked and both ends are closed |
| Environment.LayLine | com/trainsimulation/model/simulator/setup/EnvironmentSetup.java:48-127 | the whole line is laid out as `Laid` says |
| Environment.SetupLine | com/trainsimulation/model/simulator/setup/EnvironmentSetup.java:48-127 | the line is laid out and its train system returned, holding its stations in order and its depot |
| Environment.RecognisedKeeps | com/trainsimulation/model/simulator/setup/EnvironmentSetup.java:28-43 | a line is set up exactly when it is in the list and its name is a known one |
| Environment.Infos | com/trainsimulation/model/simulator/setup/EnvironmentSetup.java:28-45 | the information of each train system, in order |
| Environment.SetupNext | com/trainsimulation/model/simulator/setup/EnvironmentSetup.java:28-43 | one turn of the switch: a line with a known name is laid out and its system added, and any other line is skipped |
| Environment.Setup | com/trainsimulation/model/simulator/setup/EnvironmentSetup.java:20-46 | every line with a known name is laid out and returned in the order given, and the topology passes through one stage per line |

## Left out

- Concurrency is left out. This covers the per-train threads, the global movement lock, its release and reacquisition around a blocking signal, the clock's tick permits and the "done" flag. Each operation is modelled as one sequential step. A blocking `acquire` is a precondition that the signal holds a permit, followed by a decrement.
- The run loop of `Train.run` is left out: the repeated call of `move` until a stop and the sleeps between ticks. Whether a call can proceed depends on other trains. The handling after each stop is modelled (`Trains.Train.AfterStop`).
- The user interface is left out: the JavaFX widgets, the canvases and the redraw requests. The simulation window keeps only the label text and the two buttons' disabled flags. `Context.SimulationContext.constructor` requires at least one station, where the code would throw an exception.
- Reading the database is left out. Station rows, carriage entities, end-segment lengths and the spur length are parameters. `LineLayout.Readable` states what setup reads from them without failing. DatabaseQueries.java is not part of this model.
- Randomness is left out. The random lengthening or shortening of the station dwell is a parameter of `Movement.TrainMovement.constructor`.
- The passenger and crowd simulation is left out: floors, gates, backlogs and station layouts.
- Passenger trips are reduced to their entry time and entry station. RoutePlan.java is not part of this model.
- Speeds and distances are reals with no floating-point rounding. The velocity text of a train summary, which prints a Java `double`, is left out.
- Times are seconds of the day as `nat`. A `LocalTime` outside 00:00:00 to 23:59:59 cannot be built, which the preconditions state.
- The Java `assert` that stations arrive in sequence order is left out, because it is disabled at run time by default. Stations are connected in the order given.
- Java `int` overflow is not modelled, except in the hash codes, where it is written out (`Systems.Wrap32`).
- A segment's `depot` flag is a field the movement rules read. Setup never sets it, and no setter exists in Segment.java.
- Track.Stations: its own contract states only how many segments are appended. `Track.StationsShape` states the wiring, and `Track.ConnectStations` is proved against both.
- Track.Depot: its own contract states only how many junctions and segments are added. `Track.DepotShape` states the wiring.
- Track.Loop: its own contract states only how many junctions and segments are added. `Track.LoopShape` states the wiring.
- LineLayout.Hubs: its own contract states only how many junctions and segments are added. `LineLayout.HubsShape` states the blocks.
- MovementRules.NextSegment: its contract states that the choice is one of the junction's out-segments, not which one. The body takes the first for an active train and the second for a retiring train when there is one.
- Systems.RemoveAll: its own contract states only that the list does not grow. `Systems.RemoveAllKeeps` states what stays.
- Systems.StringHash: its contract states only the 32-bit range. `Systems.HashOfOneLetter` states the value for a one-letter name.
- Systems.TrainSystem.HashCode: its contract states only the 32-bit range. `Systems.EqualsConsistent` and `Systems.HashOfOneLetter` state the rest.
- Property.Fields: its own contract states only that there is at least one field. `Property.SplitName` states the split of a well-formed name. The code splits on `Segment.SegmentIdentifier.DELIMITER`, a regular expression whose value is not part of this model; `Property.Split` takes it to be one character with no special meaning in a regular expression.
- Lifecycle.ReleasePerCarriage: its contract states only that no signal loses permits. `Lifecycle.PerCarriageReleaseOverfills` states the over-release.
- Property.Status: its own contract covers only the missing segment, which gives "Preparing". `Property.StatusOfName` states the status of every well-formed name, including the null of an unknown prefix.
- Lifecycle.PullOut: it releases the signals once per occupied segment, which is the corrected behaviour. The release as written is `Lifecycle.ReleasePerCarriage` (see Findings).
- MovementFacts.DistanceAheadNonNegative: it covers only the walk to a later segment. The same-segment distance is covered by `MovementFacts.SeparationNonNegative`, which assumes that every queue is ordered with the furthest carriage at the front (`MovementFacts.QueuesOrdered`). The model does not prove that `move` keeps the queues in that order, so the assertion `distance >= 0.0` is not proved for every reachable state.
- Movement.TrainMovement.ComputeDistance: its result is `Distance`, whose value along the track ahead is stated by `MovementFacts.WalkReachesFirstTrain` and `MovementFacts.WalkWithoutTrainAhead`. Its non-negativity on the same segment rests on the queue order that `MovementFacts.SeparationNonNegative` assumes.
- Trains.Train.constructor: it requires at least one carriage entity. The code reads the first carriage made without checking, so an empty composition fails there.
- Trains.Train.ResetTrain: it requires at least one carriage entity, for the same reason. It also keeps the train's route. In the code the station queue, the directions and the edited flag live in the train's movement, which `resetTrain` replaces; the `TrainMovement.java` of these files has none of them, so what a new movement starts with is not known and the route is carried over unchanged.
- Trains.BuildCarriages: it requires at least one carriage entity. The code takes the maximum velocity and deceleration from the first carriage, which does not exist for an empty composition.
- Lifecycle.PullOut: it requires at least one carriage entity, because it rebuilds the train as `resetTrain` does.
- Trains.AfterEndStop: the methods it relies on (`switchDirection`, `isStationListEdited`, `getDesiredDirection`, `generateDirectionsToDepot`) are not in the `TrainMovement.java` of these files. The model takes `switchDirection` to turn round only the actual direction, leaving the desired direction as it is.
- Trains.AfterStationStop: the station-queue methods it relies on (`pop`, `isEmpty`, `reverseStations`) and `setDesiredDirection` are not part of this model. The reversed station list is the parameter `refill`, not computed from the stations. A station stop is taken to pop a non-empty station queue (`requires r.queue != []`, also on `Trains.Train.FinishStationStop`).
- Trains.Train.FinishStationStop: the train is not snapped flush to its platform segment before the dwell (`snapToSegment` at Train.java:209, a movement method that is not in these files). Every carriage stays where `move` left it.
- Property.TrainProperty.constructor: it requires the head's segment name, when there is one, to be well formed (`Property.Readable`). For a name with a known prefix but no second field, or a name made only of delimiters, the code indexes past the end of the split and fails.
- Property.TrainProperty.Update: it requires a well-formed segment name, for the same reason as the constructor.

## Findings

| source | as written | input that shows it | evidently intended | confidence | as-written member | corrected member |
|---|---|---|---|---|---|---|
| com/trainsimulation/model/core/environment/trainservice/passengerservice/trainset/Train.java:298-305 | `pullOut` releases the signal of each carriage's segment once per carriage | a train of two carriages standing on one segment whose signal it holds: the signal ends with two permits, although a junction's signal is made with one | one release per occupied segment, restoring each held signal to one permit | not executed | Lifecycle.PerCarriageReleaseOverfills | Lifecycle.ReleasePerSegmentRestores |
