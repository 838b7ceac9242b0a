# Drone swarm simulator and collision-avoiding planner, in Dafny

This project models the two algorithmic parts of the crazyflie swarm demo backend:

- **`DroneSimulator`** (`backend/simulators/mock_simulator.py`) is the mock swarm.
  - It keeps a dictionary of drone records.
  - It accepts the commands `create_swarm`, `takeoff`, `goto`, `land`, `set_formation`, `emergency_stop` and `reset`.
  - Each tick of `_update_drones` drains the battery, runs the takeoff, flight or landing controller, adds sensor noise and flags faults.
  - `_calculate_formation_positions` yields the target points of the line, circle, grid and V formations.
- **`SimpleCollisionAvoidance`** (`backend/algorithms/trajectory_planner.py`) is the planner.
  - It plans the straight segment from start to goal when no obstacle comes within the safety radius.
  - Otherwise it inserts a detour waypoint beside the closest obstacle, recursing on the halves that are still blocked.
  - `validate_path` reports the path length and the smallest obstacle separation.

Modules, one per concept:

| file | module | contents |
|---|---|---|
| `wrappers.dfy` | `Wrappers` | `Option` (Python's `None`, and `float('inf')` where it means "no value yet") |
| `real_math.dfy` | `RealMath` | `Max`, `Min`, `Abs`, `Clamp`; the laws assumed of `math.sqrt`, `math.cos` and `math.sin` |
| `geometry.dfy` | `Geometry` | 3-D points, vector sums and dot products, squared length |
| `drone.dfy` | `Drone` | status, drone record, constants, the per-drone update steps and one tick of one drone |
| `drone_ids.dfy` | `DroneIds` | the names `d1`, `d2`, … and their injectivity |
| `formation.dfy` | `Formation` | the formation shapes, their loops and their geometric properties |
| `simulator.dfy` | `MockSimulator` | the `DroneSimulator` class and the table functions that specify its methods |
| `trajectory_planner.dfy` | `TrajectoryPlanner` | the segment distance, the clearance test, the detour, path planning and path validation |

How the source's state is modelled:

- **Drone table.** The simulator is a class with two fields.
  - `drones: map<string, DroneState>` is the dictionary.
  - `order: seq<string>` is its insertion order, which every loop over `self.drones.values()` follows. Re-inserting an existing key keeps its place.
- **Drone records.** A drone record is a datatype. A field assignment on the dataclass becomes the record with those fields replaced, stored back under the same key.
- **Loop methods.** Each loop over the table is a method proved against a function of the old table:
  - `UpdateDrones` against `Drone.Tick`;
  - `EmergencyStop` against `Drone.Stopped`;
  - `CreateSwarm` against `AddDrones` and `NewIds`;
  - `SetFormation` against `FlyingIds`, `Formation.FormationPositions` and `Retargeted`.
- **Library functions as parameters.** Dafny has no square root or trigonometric functions.
  - `math.sqrt`, `math.cos` and `math.sin` are parameters of type `real -> real`.
  - Only the laws in `RealMath.IsSqrt` (a non-negative square root) and `RealMath.IsTrig` (cos² + sin² = 1) are required of them.
- **Real arithmetic.** Floating-point numbers are reals.
- **Clock and noise.** `time.time()` is the argument `now`. The six `random.gauss` draws of one drone in one tick are the argument `noise(id)`.

Behaviour of the source worth noting (the model follows the code):

- An unknown formation name yields no positions and raises no error, so `set_formation` still returns true when some drone is flying.
- `emergency_stop` makes every drone idle, not faulted.
- The detour point is placed beside the projection of the closest obstacle, not beside the segment midpoint.
- `_find_detour_path` recurses without a depth limit.
- `goto` checks neither the target against the workspace nor the speed argument.

The planner (`FindDetourPath`, `PlanPath`) uses the source's detour midpoint, `DetourMidpointAsWritten`. The corrected midpoint of the finding below, `DetourMidpoint`, is a separate definition, and its properties are proved beside the as-written ones.

## Model

| member | source | states |
|---|---|---|
| Drone.NewDrone | backend/simulators/mock_simulator.py:19-37 | a new drone carries its id and run id, is idle at the origin with zero velocity and zero target, has a full (100 %) battery, and has zero takeoff height, start and duration, landing start and last update |
| Drone.ClimbRate | backend/simulators/mock_simulator.py:138 | the vertical controller's speed stays within ±max_speed and has the sign of the height error (zero for zero error) |
| Drone.ClimbStepApproaches | backend/simulators/mock_simulator.py:136-139 | one step `z += vz * dt` at the controller's speed shrinks any nonzero height error strictly and never overshoots the target height |
| Drone.UpdateTakeoff | backend/simulators/mock_simulator.py:122-139 | only z, vz and the status change; once the duration has elapsed the drone is FLYING at the takeoff height with vz = 0; before that the status is unchanged, \|vz\| ≤ max_speed and z advances by vz·dt |
| Drone.TakeoffTracksRamp | backend/simulators/mock_simulator.py:131-139 | during takeoff each step moves z strictly towards the ramp height `takeoff_height * elapsed / duration` without passing it (and keeps it there once reached) |
| Drone.UpdateLanding | backend/simulators/mock_simulator.py:169-182 | only z, vz and the status change; within 5 cm of the ground the drone is put down (z = vz = 0, IDLE); otherwise the status is kept, \|vz\| ≤ max_speed and z advances by vz·dt |
| Drone.LandingApproachesGround | backend/simulators/mock_simulator.py:175-177 | a landing step above (below) the tolerance brings z strictly closer to 0 and never across it |
| Drone.UpdateFlying | backend/simulators/mock_simulator.py:141-167 | only position and velocity change; within 5 cm of the target the drone stays where it is with zero velocity |
| Drone.FlyingVelocity | backend/simulators/mock_simulator.py:148-162 | farther than 5 cm from the target the new velocity is exactly the offset to the target scaled by `speed / distance`, with `speed = max_speed * min(1, distance / 0.1)` in (0, max_speed]; its length is `speed` and the position advances by velocity·dt |
| Drone.FlyingApproachesTarget | backend/simulators/mock_simulator.py:148-162 | farther than 5 cm from the target the new velocity is at most max_speed, points towards the target, and the step ends strictly closer to the target without overshooting it |
| Drone.ScaledStepApproaches | backend/simulators/mock_simulator.py:159-162 | proof helper: a step along a positive fraction (below one) of the offset to the target ends strictly closer to it, on the same side |
| Drone.Advance | backend/simulators/mock_simulator.py:96-102 | the controller dispatch of a tick keeps id, run id, battery and target, enters or leaves ERROR never, and leaves an IDLE or ERROR drone unchanged |
| Drone.Faulty | backend/simulators/mock_simulator.py:113-118 | a drone is not faulty exactly when its battery is positive, it is within ±2 m horizontally and not above 1 m |
| Drone.Tick | backend/simulators/mock_simulator.py:92-120 | a tick stamps `last_update` with the current time and leaves every drone that ends faulty in ERROR |
| Drone.TickDrainsBattery | backend/simulators/mock_simulator.py:94 | a tick sets the battery to `max(0, battery - 0.1 * dt)`: a battery in [0, 100] stays in [0, 100], never rises, and strictly falls while not empty |
| Drone.TickStatus | backend/simulators/mock_simulator.py:96-118 | a tick ends in ERROR exactly when the drone was in ERROR or its new state is faulty (battery empty, outside ±2 m horizontally, above 1 m); every other status change is takeoff→flying or landing→idle |
| Drone.TickFrame | backend/simulators/mock_simulator.py:88-120 | a tick stamps `last_update` with the current time and keeps id, run id, target, takeoff and landing records; an idle or faulted drone moves only by the noise |
| Drone.Stopped | backend/simulators/mock_simulator.py:488-492 | the stopped drone has zero velocity and is IDLE, with every other field (position included) unchanged |
| DroneIds.NatToString | backend/simulators/mock_simulator.py:220 | `str(n)` is a non-empty string of decimal digits without a leading zero |
| DroneIds.NatToStringInjective | backend/simulators/mock_simulator.py:220 | different numbers have different decimal strings |
| DroneIds.DroneId | backend/simulators/mock_simulator.py:220 | `f"d{i}"` is `d` followed by one or more decimal digits |
| DroneIds.DroneIdInjective | backend/simulators/mock_simulator.py:220 | different numbers give different drone ids |
| DroneIds.SwarmIds | backend/simulators/mock_simulator.py:217-224 | `create_swarm(count)` names `max(count, 0)` drones, the k-th being `d{k+1}` |
| DroneIds.SwarmIdsDistinct | backend/simulators/mock_simulator.py:219-224 | no two drones of one swarm share an id |
| MockSimulator.NewIds | backend/simulators/mock_simulator.py:223 | the keys a run of dictionary assignments appends to the insertion order are no more than the ids assigned |
| MockSimulator.NewIdsMembers | backend/simulators/mock_simulator.py:223 | an id is appended to the order exactly when it is assigned and was not yet a key |
| MockSimulator.NewIdsDistinct | backend/simulators/mock_simulator.py:223 | assigning repetition-free ids appends each new key once |
| MockSimulator.NewIdsInOrder | backend/simulators/mock_simulator.py:219-223 | the keys appended to the order are the assigned ids that were not yet keys, in assignment order: they sit at strictly increasing positions of the id list, and no unknown id is skipped |
| MockSimulator.FilterIndexExtend | backend/simulators/mock_simulator.py:223 | proof helper: one more assignment extends the in-place filtering of the ids by its position exactly when the id is not yet a key |
| MockSimulator.SwarmIdFresh | backend/simulators/mock_simulator.py:219-220 | proof helper: the next swarm id `d{i+1}` extends the ids so far and is not among them |
| MockSimulator.EmptyTableNewIds | backend/simulators/mock_simulator.py:219-223 | proof helper: on an empty table the insertion order after the assignments is the id list itself |
| MockSimulator.NewIdsFresh | backend/simulators/mock_simulator.py:219-223 | when none of the assigned ids is a key yet, all of them are appended, in assignment order |
| MockSimulator.NewIdsStep | backend/simulators/mock_simulator.py:223 | proof helper: one more assignment appends its id to the order exactly when the id was not yet a key |
| MockSimulator.SwarmIdsAreDistinct | backend/simulators/mock_simulator.py:219-224 | the swarm's id list has no repetitions |
| MockSimulator.EmptyTableOrder | backend/simulators/mock_simulator.py:40-41 | proof helper: a well-formed table is empty exactly when its insertion order is |
| MockSimulator.AddDronesValid | backend/simulators/mock_simulator.py:219-224 | creating a swarm keeps the table well formed: the order lists every key once, each drone is stored under its own id, every battery is in [0, 100] |
| MockSimulator.AddDronesKeys | backend/simulators/mock_simulator.py:219-224 | after `create_swarm` the extended order lists exactly the keys of the new table |
| MockSimulator.AddDronesRecords | backend/simulators/mock_simulator.py:221-223 | after `create_swarm` each drone is stored under its own id and has a battery in [0, 100] |
| MockSimulator.AddDrones | backend/simulators/mock_simulator.py:219-223 | the keys after the `create_swarm` loop are exactly the old keys and the swarm's ids |
| MockSimulator.AddDronesStep | backend/simulators/mock_simulator.py:221-223 | proof helper: one loop iteration of `create_swarm` stores a new drone under its id, overriding any old entry |
| MockSimulator.AddDronesKeysOf | backend/simulators/mock_simulator.py:223 | proof helper: the keys after `create_swarm` are the old keys and the swarm's ids |
| MockSimulator.FlyingIds | backend/simulators/mock_simulator.py:320 | there are no more flying drones of `set_formation` than entries in the table order (that they form a subsequence of it is `FlyingIdsInOrder`) |
| MockSimulator.FlyingIdsInOrder | backend/simulators/mock_simulator.py:320 | the flying list is the subsequence of the table order at strictly increasing positions, and every position holding a FLYING drone is one of them: the list keeps the order's order |
| MockSimulator.FlyingIdsMembers | backend/simulators/mock_simulator.py:320 | an id is among the flying drones exactly when it is in the table order and its drone is FLYING |
| MockSimulator.FlyingIdsKnown | backend/simulators/mock_simulator.py:320 | every flying id is a key of the table |
| MockSimulator.FlyingIdsEmpty | backend/simulators/mock_simulator.py:320-323 | on a well-formed table the flying list is empty exactly when no drone is FLYING (the `return False` case) |
| MockSimulator.FlyingIdsDistinct | backend/simulators/mock_simulator.py:320 | the flying list of a repetition-free order has no repetitions |
| MockSimulator.Retargeted | backend/simulators/mock_simulator.py:327-331 | running the `set_formation` loop leaves the set of keys unchanged |
| MockSimulator.RetargetedAssigns | backend/simulators/mock_simulator.py:327-331 | after n iterations the m-th flying drone (m < n) has exactly the m-th formation point as target and is otherwise unchanged |
| MockSimulator.RetargetedFrame | backend/simulators/mock_simulator.py:327-331 | a drone among none of the first n flying drones is left exactly as it was |
| MockSimulator.RetargetedKeepsRecords | backend/simulators/mock_simulator.py:329-331 | the `set_formation` loop changes no id and no battery |
| MockSimulator.RetargetedValid | backend/simulators/mock_simulator.py:327-331 | the `set_formation` loop keeps the table well formed |
| MockSimulator.DroneSimulator.constructor | backend/simulators/mock_simulator.py:40-41 | a new simulator has an empty, well-formed table |
| MockSimulator.DroneSimulator.CreateSwarm | backend/simulators/mock_simulator.py:215-236 | returns `d1`..`d<count>`; the new table is the old one with a fresh idle drone of the run under each id (overriding old entries); new ids are appended to the order and old ones keep their place, so on an empty table the order is exactly `d1`..`d<count>`; the table stays well formed |
| MockSimulator.DroneSimulator.Takeoff | backend/simulators/mock_simulator.py:273-287 | succeeds exactly for a known IDLE drone, which becomes TAKING_OFF with the given height, duration and start time `now`; on failure nothing changes |
| MockSimulator.DroneSimulator.Goto | backend/simulators/mock_simulator.py:289-302 | succeeds exactly for a known drone that is FLYING or TAKING_OFF, whose target becomes (x, y, z) and nothing else; on failure nothing changes |
| MockSimulator.DroneSimulator.Land | backend/simulators/mock_simulator.py:304-316 | succeeds exactly for a known drone that is FLYING or TAKING_OFF, which becomes LANDING with landing start `now`; on failure nothing changes |
| MockSimulator.DroneSimulator.EmergencyStop | backend/simulators/mock_simulator.py:486-492 | every drone of the table, and no other, is replaced by its stopped form (zero velocity, IDLE); the order is kept |
| MockSimulator.DroneSimulator.Reset | backend/simulators/mock_simulator.py:494-496 | the table and its order are emptied |
| MockSimulator.DroneSimulator.UpdateDrones | backend/simulators/mock_simulator.py:88-120 | every drone of the table, and no other, takes exactly one tick with its own noise; the table stays well formed (batteries stay in [0, 100]) |
| MockSimulator.DroneSimulator.SetFormation | backend/simulators/mock_simulator.py:318-333 | false exactly when no drone is flying; the i-th flying drone in table order receives the i-th point of the formation for that many drones as target, as long as there are points, and nothing else changes |
| MockSimulator.DroneSimulator.AssignTargets | backend/simulators/mock_simulator.py:327-331 | the loop sets the target of the i-th listed drone to the i-th point for i below the shorter length, and nothing else |
| Formation.Param | backend/simulators/mock_simulator.py:340 | `parameters.get(key, default)` is the stored value for a present key and the default otherwise |
| Formation.CeilSqrt | backend/simulators/mock_simulator.py:355 | `ceil(sqrt(n))` is the least c with c² ≥ n, and is positive exactly for positive n |
| Formation.LinePositions | backend/simulators/mock_simulator.py:339-343 | the line has one point per drone |
| Formation.CirclePositions | backend/simulators/mock_simulator.py:345-352 | the circle has one point per drone |
| Formation.GridPositions | backend/simulators/mock_simulator.py:354-363 | the grid has one point per drone |
| Formation.VShapePositions | backend/simulators/mock_simulator.py:365-376 | the V has one point per drone |
| Formation.FormationPositions | backend/simulators/mock_simulator.py:335-378 | a known shape gives one point per drone; any other name gives none |
| Formation.CalculateFormationPositions | backend/simulators/mock_simulator.py:335-378 | the shape dispatch returns exactly the formation's points, with `spacing` 0.5, `radius` 1.0 and `height` 0.6 as defaults |
| Formation.LineLoop | backend/simulators/mock_simulator.py:339-343 | the line loop appends exactly the line's points in order |
| Formation.CircleLoop | backend/simulators/mock_simulator.py:345-352 | the circle loop appends exactly the circle's points in order |
| Formation.GridLoop | backend/simulators/mock_simulator.py:354-363 | the grid loop appends exactly the grid's points in order |
| Formation.VShapeLoop | backend/simulators/mock_simulator.py:365-376 | the V loop appends exactly the V's points in order |
| Formation.LineSymmetric | backend/simulators/mock_simulator.py:339-343 | the line is centred: points i and count-1-i mirror each other in x, all on y = 0 at z = 0.6 |
| Formation.LineEvenlySpaced | backend/simulators/mock_simulator.py:342 | neighbouring line points are `spacing` apart |
| Formation.CircleOnRadius | backend/simulators/mock_simulator.py:348-352 | every circle point lies at distance `radius` from the vertical axis, at height `height` |
| Formation.GridShape | backend/simulators/mock_simulator.py:355-360 | the grid has ceil(sqrt(count)) > 0 columns and every drone's column and row index lies below that |
| Formation.GridDistinct | backend/simulators/mock_simulator.py:358-363 | with nonzero spacing no two drones get the same grid point |
| Formation.VShapeMirror | backend/simulators/mock_simulator.py:368-376 | the V starts at (0, 0, height); drones 2k-1 and 2k sit at x = k·spacing, mirrored in y at ±k·spacing/2 |
| Formation.VShapeAt | backend/simulators/mock_simulator.py:368-376 | every drone i of the V (the last of an even count included) sits at x = ((i+1) div 2)·spacing, y = +x/2 for odd i and −x/2 for even i, z = height |
| TrajectoryPlanner.Cross | backend/algorithms/trajectory_planner.py:189-194 | the cross product is perpendicular to both factors |
| TrajectoryPlanner.ProjectionParam | backend/algorithms/trajectory_planner.py:73-76 | the clamped projection parameter lies in [0, 1] and is the raw projection when that is in [0, 1] |
| TrajectoryPlanner.SegmentDistIsMinimal | backend/algorithms/trajectory_planner.py:51-88 | the squared distance from the point the source measures from is at most the squared distance to any point of the segment, so it is the true minimum |
| TrajectoryPlanner.SegmentDistDegenerate | backend/algorithms/trajectory_planner.py:69-71 | for a segment of zero length the distance is taken to its start |
| TrajectoryPlanner.PointToLineDistance | backend/algorithms/trajectory_planner.py:51-88 | the distance from a point to a segment is non-negative |
| TrajectoryPlanner.PointToLineDistanceBounds | backend/algorithms/trajectory_planner.py:51-88 | the distance to the segment is at most the distance to either endpoint, and equals the distance to the start for a degenerate segment |
| TrajectoryPlanner.ClearIffSquared | backend/algorithms/trajectory_planner.py:40-47 | an obstacle intrudes exactly when the radius is positive and its squared distance is below the squared radius |
| TrajectoryPlanner.IsPathClear | backend/algorithms/trajectory_planner.py:35-49 | true exactly when no obstacle is strictly closer than the safety radius to the segment; true for no obstacles |
| TrajectoryPlanner.ClosestObstacle | backend/algorithms/trajectory_planner.py:95-108 | None exactly for no obstacles; otherwise the index of an obstacle at minimal distance from the segment, the first such one |
| TrajectoryPlanner.DetourDirectionAsWritten | backend/algorithms/trajectory_planner.py:165-177 | the detour direction of the source has unit length |
| TrajectoryPlanner.UnitOf | backend/algorithms/trajectory_planner.py:174-177 | normalising a nonzero vector gives unit length |
| TrajectoryPlanner.UnitOfPerpendicular | backend/algorithms/trajectory_planner.py:174-177 | normalising keeps perpendicularity |
| TrajectoryPlanner.DetourDirection | backend/algorithms/trajectory_planner.py:165-177 | the corrected detour direction has unit length and is perpendicular to every nonzero goal vector |
| TrajectoryPlanner.DetourPoint | backend/algorithms/trajectory_planner.py:179-187 | the detour point is `start` for a degenerate segment; otherwise it lies 1.5·safety_radius from the projection of the obstacle along a unit direction, perpendicular to the segment when the direction is |
| TrajectoryPlanner.DetourMidpointAsWritten | backend/algorithms/trajectory_planner.py:134-187 | the midpoint of the source, used by the planner, is `start` when start equals goal |
| TrajectoryPlanner.DetourMidpoint | backend/algorithms/trajectory_planner.py:134-187 | the corrected midpoint is `start` when start equals goal |
| TrajectoryPlanner.DetourMidpointAsWrittenOffset | backend/algorithms/trajectory_planner.py:152-187 | the midpoint of the source lies 1.5·safety_radius from the projection of the obstacle |
| TrajectoryPlanner.DetourMidpointOffset | backend/algorithms/trajectory_planner.py:152-187 | the corrected midpoint lies 1.5·safety_radius from the projection of the obstacle, perpendicular to the start-goal line |
| TrajectoryPlanner.DetourDirectionAgrees | backend/algorithms/trajectory_planner.py:166-172 | the corrected direction equals the source's except when the cross product vanishes and the goal vector has nonzero x and z |
| TrajectoryPlanner.CrossLengthPositive | backend/algorithms/trajectory_planner.py:167-169 | the zero-length test fires only for a zero cross product |
| TrajectoryPlanner.DetourMidpointAgrees | backend/algorithms/trajectory_planner.py:134-187 | the corrected midpoint equals the source's outside that one case |
| TrajectoryPlanner.DetourMidpointAsWrittenNotPerpendicular | backend/algorithms/trajectory_planner.py:169-172 | in that case the source's offset has dot product 1.5·safety_radius·gx with the goal vector: not perpendicular |
| TrajectoryPlanner.NotPerpendicularWitness | backend/algorithms/trajectory_planner.py:169-172 | start (0,0,0), goal (1,0,1) and obstacle (0.5,0,0.5) fall into that case, with dot product 0.45 for radius 0.3 |
| TrajectoryPlanner.SpliceSafe | backend/algorithms/trajectory_planner.py:131-132 | `detour1[:-1] + detour2` of two clear paths meeting at the midpoint is a clear path of at least 3 points from detour1's start to detour2's end |
| TrajectoryPlanner.FindDetourPath | backend/algorithms/trajectory_planner.py:90-132 | with no obstacles the direct segment; any path returned runs from start to goal, has at least two points, and every segment of it is clear |
| TrajectoryPlanner.PlanPath | backend/algorithms/trajectory_planner.py:13-33 | the direct segment whenever it is clear; any path returned runs from start to goal and every segment of it is clear |
| TrajectoryPlanner.PathLength | backend/algorithms/trajectory_planner.py:213-219 | the path length is non-negative and is the segment length for a two-point path |
| TrajectoryPlanner.SumSegmentLengths | backend/algorithms/trajectory_planner.py:213-219 | the first loop of `validate_path` computes exactly the path length |
| TrajectoryPlanner.SegmentSeparation | backend/algorithms/trajectory_planner.py:224-227 | a segment's separation is infinite exactly when there are no obstacles |
| TrajectoryPlanner.SegmentSeparationLower | backend/algorithms/trajectory_planner.py:224-227 | a segment's separation is at most its distance to each obstacle |
| TrajectoryPlanner.SegmentSeparationWitness | backend/algorithms/trajectory_planner.py:224-227 | a finite separation of a segment is attained by one of the obstacles |
| TrajectoryPlanner.SegmentSeparationStep | backend/algorithms/trajectory_planner.py:227 | proof helper: taking one more obstacle into account folds its distance into the minimum |
| TrajectoryPlanner.MinWithAssociates | backend/algorithms/trajectory_planner.py:227 | proof helper: folding a distance into a running minimum commutes with combining minima |
| TrajectoryPlanner.SeparationPrefixNone | backend/algorithms/trajectory_planner.py:221-227 | the minimum separation stays `float('inf')` exactly when there is no segment or no obstacle |
| TrajectoryPlanner.SeparationPrefixLower | backend/algorithms/trajectory_planner.py:221-227 | the minimum separation is at most every segment-obstacle distance |
| TrajectoryPlanner.SeparationPrefixWitness | backend/algorithms/trajectory_planner.py:221-227 | a finite minimum separation is the distance of some segment to some obstacle |
| TrajectoryPlanner.SeparationPrefixStep | backend/algorithms/trajectory_planner.py:222-227 | proof helper: one more segment folds its separation into the running minimum |
| TrajectoryPlanner.MinSeparation | backend/algorithms/trajectory_planner.py:221-227 | the minimum separation of a path of at least two points stays `float('inf')` exactly when there are no obstacles |
| TrajectoryPlanner.FoldSegmentSeparation | backend/algorithms/trajectory_planner.py:224-227 | the inner loop folds the segment's separation into the running minimum |
| TrajectoryPlanner.SmallestSeparation | backend/algorithms/trajectory_planner.py:221-227 | the nested loops compute exactly the minimum separation over all segments and obstacles |
| TrajectoryPlanner.ValidIffSafe | backend/algorithms/trajectory_planner.py:229-230 | `min_separation >= safety_radius` (infinity counting as safe) holds exactly when every segment of the path is clear |
| TrajectoryPlanner.ValidatePath | backend/algorithms/trajectory_planner.py:196-238 | fewer than two points give the "Path too short" report; otherwise the report carries the path length, the minimum separation and the waypoint count, and `valid` = `success` holds exactly when every segment of the path is clear |

## Left out

- The asyncio machinery is not modelled: `start`, `stop`, `_simulation_loop` and its 20 Hz sleep. Commands and ticks are separate method calls, so interleavings of the coroutines are not modelled.
- The SQLite logging is not modelled. This covers `_log_states`, the `runs` insert of `create_swarm` and the table wipe of `reset`. They are external I/O.
- `get_all_states` and `get_drone_state` are read-only projections of the table into dictionaries, so they are not modelled.
- `run_experiment` and the `_run_*` scenarios are not modelled. They are scripts of the commands above with `asyncio.sleep` in between.
- `backend/main.py`, the ROS 2 stub, the firmware headers and `setup.py` are not part of this model.
- `random.gauss` is not modelled. Its noise is an input function: `noise(id)` gives the six draws for drone `id` in one tick. Their distribution is not modelled.
- `time.time()` is not modelled. The clock is the argument `now` of `Takeoff`, `Land` and `UpdateDrones`.
- `math.sqrt`, `math.cos` and `math.sin` are parameters. Only the laws `RealMath.IsSqrt` and `RealMath.IsTrig` are assumed of them. `math.pi` is the real `3.141592653589793`.
- Floating-point arithmetic is not modelled. All quantities are reals, so rounding, overflow, NaN and infinity are not modelled. The one infinity the source uses, the initial `float('inf')` of the separation and closest-distance scans, is `None`.
- The drone record is an immutable datatype stored in the table. Aliasing of `DroneState` objects is not modelled. Such aliasing happens, for example, through the `flying_drones` list of `set_formation`, and through the drone object that stays in a caller's hands after `reset` or an overwrite by `create_swarm`.
- The formation parameters are `map<string, real>`. Non-numeric values of the `Dict[str, Any]` are not modelled.
- Formation.CeilSqrt: the cell count is computed exactly. It therefore does not model a possible rounding error of `math.ceil(math.sqrt(count))` for very large counts.
- MockSimulator.DroneSimulator.UpdateDrones: requires every TAKING_OFF drone to satisfy `Drone.TakeoffDefined`. That condition excludes the `ZeroDivisionError` the source raises for a zero takeoff duration while `now` is still before the takeoff start.
- Drone.UpdateTakeoff: same precondition, for the same reason.
- Drone.Tick: same precondition, for the same reason.
- MockSimulator.DroneSimulator.Goto: the `speed` argument is accepted and ignored, as in the source.
- TrajectoryPlanner.FindDetourPath: the recursion carries a `fuel` depth bound. `None` stands for running out of it.
  - The source recurses without a bound, which ends in Python's `RecursionError` when no detour helps.
  - The contract therefore promises correctness of every path returned, not that one is returned.
- TrajectoryPlanner.PlanPath: inherits the `fuel` bound and the `None` result from `FindDetourPath`.
- TrajectoryPlanner.PointToLineDistance: returns the distance to the clamped closest point. The contract states non-negativity only. Minimality over the segment is the separate lemma `SegmentDistIsMinimal`.

## Findings

| source | as written | input that shows it | evidently intended | confidence | as-written member | corrected member |
|---|---|---|---|---|---|---|
| backend/algorithms/trajectory_planner.py:169-172 | when the cross product vanishes (the obstacle lies on the start-goal line) the "arbitrary perpendicular" is `(0, 0, 1)` if the goal vector has no z part and `(1, 0, 0)` otherwise; `(1, 0, 0)` is not perpendicular to a goal vector with both an x and a z part | start (0,0,0), goal (1,0,1), obstacle (0.5,0,0.5), safety radius 0.3: the detour offset from (0.5,0,0.5) is (0.45,0,0), whose dot product with the goal vector is 0.45, not 0 | a unit vector perpendicular to the goal vector, e.g. along `(gz, 0, -gx)` | not executed | TrajectoryPlanner.DetourMidpointAsWrittenNotPerpendicular | TrajectoryPlanner.DetourMidpointOffset |
