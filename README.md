# three-sim warehouse robot engine, modelled in Dafny

three-sim shows a warehouse floor of shelf rows ("aisles"), thousands of
products on the shelves and a few dozen robots. Each robot wanders between
destinations, stays on the walkways between the shelf pairs, bounces off
products it runs into, and can be sent to fetch one product to a drop point.
The motion engine is written in Rust and compiled to WebAssembly
(`wasm/src`). A React hook drives it every 50 ms. It plans grid routes for the
commanded robot and moves that robot along its waypoints. An older,
pure-TypeScript hook (`store-map/useRobotSimulation.ts`) runs the same kind
of wander-and-bounce step on its own. The `/robots` route loads or
generates the layout, suggests product ids and sends commands. Two small
views are also modelled: a draggable-piece board (`GridScene.tsx`) and the
collision test of the walk-through (`collision.ts`).

The modules, one per source file:

| module | source |
|---|---|
| `Numeric`, `Wrappers`, `Search`, `Text` | shared arithmetic, Option, first-index search, decimal text |
| `Constants` | `wasm/src/constants.rs`: the store layout record and its buffer decoding |
| `Geometry` | `wasm/src/geometry.rs`: clamp, the shortest turn, the random draw |
| `Grid` | `wasm/src/grid.rs`: world/cell conversion, the navigation grid, the walkway test |
| `RobotMotion` | `wasm/src/robot.rs`: the wander step, product collisions, the waypoint moves |
| `Pathfinding` | `wasm/src/pathfinding.rs`: the walkable cell search, A*, the outer-walkway route |
| `WasmApi` | `wasm/src/lib.rs`: the exported buffer functions |
| `StoreTypes`, `MockData` | `store-map/types.ts`, `store-map/mockData.ts`: the entities, and the product and robot generators |
| `TaskSimulation` | `src/hooks/useRobotSimulation.ts`: one tick of the engine-driven simulation |
| `LegacySimulation` | `src/components/store-map/useRobotSimulation.ts`: one tick of the TypeScript simulation |
| `RobotsRoute` | `src/routes/robots.tsx`: the loader, suggestions, drop target, command and unsaved-changes helpers |
| `GridBoard` | `src/components/grid/GridScene.tsx`: the board as a class with press, hover and release handlers |
| `Collision` | `src/components/architecture-walkthrough/collision.ts`: the circle-against-boxes test |

Outside calls are passed in as parameters:

- Square root, `atan2`, `cos` and `sin` come from a `MathOracle` value.
  Lemmas state what they need of it: an exact root at a point, or a heading
  whose cosine and sine give the unit direction.
- `Math.random` and `random_f32` are an `Rng` stream, and each call takes
  one draw from it.
- The millisecond clock comes in as `now` or `idTime`.
- The engine's `f32` values are exact reals. The one saturating cast to
  `i32` that changes results, the row count, is written out.

Loops in the source are loops here, each proved against a specification
function:

- The nav grid build.
- The walkable-cell search and A*. The A* queue is a sequence with a
  minimum-pop.
- The route distance sum.
- The buffer flatten/inflate steps.
- The robot and product generators.
- The per-robot tick loops of both hooks.

The board in `GridScene.tsx` keeps its state in a class whose methods
update its fields.

## Model

| member | source | states |
|---|---|---|
| Constants.StoreConfig.TransformCoords | wasm/src/constants.rs:54-59 | a vertical layout leaves the point alone; a horizontal one swaps x and y |
| Constants.StoreConfig.TransformOrientation | wasm/src/constants.rs:61-66 | a vertical layout keeps the angle; a horizontal one gives the angle whose sum with the input is a quarter turn |
| Constants.BufferAt | wasm/src/constants.rs:33-41 | the slot when it is inside the buffer, otherwise the default |
| Constants.FromBuffer | wasm/src/constants.rs:31-48 | every field is its buffer slot or its default; the row count goes through the saturating f32-to-i32 cast; the layout is horizontal exactly when slot 9 exists and exceeds 0.5 |
| Constants.EmptyBufferIsDefault | wasm/src/constants.rs:31-48 | an empty buffer decodes to the default layout (250 by 150, 6 rows 40 apart) |
| Constants.BoundsOnlyBuffer | wasm/src/constants.rs:31-48 | a two-value buffer, as the hook sends, changes only the store width and height |
| Constants.ArrivalConstants | wasm/src/constants.rs:1-8 | the squared arrival distance is 6.25 and the collision radius 2 + 0.5 + 0.5 is 3 |
| Constants.RowCentersEvenlySpaced | wasm/src/constants.rs:50-52 | row 0 sits `startOffset` in from the left wall and consecutive rows are `rowSpacing` apart |
| Constants.TransformCoordsInvolutive | wasm/src/constants.rs:54-59 | transforming twice gives back the point |
| Constants.TransformOrientationInvolutive | wasm/src/constants.rs:61-66 | transforming an angle twice gives it back |
| Geometry.Clamp | wasm/src/geometry.rs:7-9 | the result is never above the upper bound, inside the range when it is non-empty, and the value itself when already inside |
| Geometry.ClampIdempotent | wasm/src/geometry.rs:7-9 | clamping twice is clamping once |
| Geometry.FMod | wasm/src/geometry.rs:12 | Rust's `%` on floats: the remainder after truncated division, with the sign of the dividend and smaller than the divisor |
| Geometry.ShortestAngleDiff | wasm/src/geometry.rs:11-18 | the difference lies in [-pi, pi) and differs from target minus current by a whole number of turns |
| Geometry.QuarterTurnBound | wasm/src/geometry.rs:11-18 | a quarter of the shortest difference turns the robot by an angle in [-pi/4, pi/4), as the steering at `wasm/src/robot.rs:207-209` uses it; -pi/4 is reached when the difference is exactly half a turn |
| Numeric.Random | wasm/src/geometry.rs:3-5 | a draw returns the stream's next value and advances the stream by one |
| Numeric.SaturateI32 | wasm/src/constants.rs:35 | the cast result is a 32-bit integer, equal to the input when it fits and the nearer bound otherwise |
| Grid.CellCenterRoundTrip | wasm/src/grid.rs:4-20 | the centre of a cell maps back to that cell, for columns and rows |
| Grid.CellCenterNear | wasm/src/grid.rs:4-20 | a point is within half a cell of the centre of its cell |
| Grid.BlockedRangeInBounds | wasm/src/grid.rs:32-41 | the clamped first and last blocked columns of a shelf are grid columns |
| Grid.ClearColumn | wasm/src/grid.rs:43-45 | the grid keeps its shape and only the one column becomes unwalkable |
| Grid.ClearColumns | wasm/src/grid.rs:42-46 | exactly the columns in the range become unwalkable, every other cell is kept |
| Grid.BlockedByStep | wasm/src/grid.rs:28-47 | one more shelf blocks a column exactly when the column was already blocked or lies in that shelf's range |
| Grid.BuildNavGrid | wasm/src/grid.rs:22-50 | the grid has ceil(width/5) columns and ceil(height/5) rows, and a cell is walkable exactly when no shelf's column range covers it |
| Grid.ScanGapsIff | wasm/src/grid.rs:56-68 | the gap loop succeeds exactly when some remaining gap midpoint is within half the cross-row width and the point is within 5 of the top and bottom walls |
| Grid.InRowWalkwayIff | wasm/src/grid.rs:52-78 | the walkway test holds exactly when the point is in a gap between shelf pairs, or in the top or bottom band away from the side walls |
| RobotMotion.DistSq | wasm/src/robot.rs:49-51 | the squared distance is never negative |
| RobotMotion.SqrtCompare | wasm/src/robot.rs:51-52 | with an exact root, comparing the distance with a positive constant is comparing the squared distance with its square, for this test and the one at lines 116-118 |
| RobotMotion.NearestIndex | wasm/src/robot.rs:6-16 | the chosen row index is in range |
| RobotMotion.NearestIndexIsNearest | wasm/src/robot.rs:6-16 | the chosen row is at least as close as every row, and strictly closer than every earlier row, so ties keep the first |
| RobotMotion.RunningNearest | wasm/src/robot.rs:6-16 | the running-minimum loop returns the nearest index and its centre |
| RobotMotion.NearestValidPositionIsNearestRow | wasm/src/robot.rs:5-24 | the snap moves x to the nearest row centre and clamps y 10 inside the store |
| RobotMotion.FindNearestValidPosition | wasm/src/robot.rs:5-24 | the loop computes the snap as written |
| RobotMotion.NearestValidPositionCanStayOffWalkway | wasm/src/robot.rs:5-24 | the default layout's point (-105, 0) is off the walkway and the as-written snap leaves it there |
| RobotMotion.FirstRowCentreOffWalkway | wasm/src/grid.rs:52-78 | the first row centre of the default layout is not on the walkway |
| RobotMotion.FirstRowCentreSnapsToItself | wasm/src/robot.rs:5-24 | the as-written snap maps the first row centre to itself |
| RobotMotion.DefaultHasCrossGaps | wasm/src/constants.rs:33-41 | the default layout has at least two rows and a positive gap width |
| RobotMotion.NearestGapPositionOnWalkway | wasm/src/grid.rs:56-68 | the corrected snap, to the nearest gap midpoint with y clamped, always lands on the walkway when the layout has gaps |
| RobotMotion.NearestGapPositionIsNearestGap | wasm/src/robot.rs:5-24 | the corrected snap picks the nearest gap midpoint |
| RobotMotion.FindNearestGapPosition | wasm/src/robot.rs:5-24 | the running-minimum loop over gaps computes the corrected snap |
| RobotMotion.RowDrawInRange | wasm/src/robot.rs:29 | a unit draw times the row count, floored, is a valid row index |
| RobotMotion.ScaledDrawBounds | wasm/src/robot.rs:31 | a centred aisle depth lies within half the span of the middle |
| RobotMotion.UnitDrawAt | wasm/src/geometry.rs:3-5 | every draw of a unit stream is in [0, 1) |
| RobotMotion.GetValidDestination | wasm/src/robot.rs:26-45 | the loop returns exactly `ValidDestination`, the destination its draws select attempt by attempt, with the stream advanced past the draws used, more than none and at most 151 |
| RobotMotion.RowPickSound | wasm/src/robot.rs:29-31 | with unit draws on a layout of at least one row and 30 units tall, the drawn row exists and the drawn y lies within half the shelf span of the middle |
| RobotMotion.AttemptSound | wasm/src/robot.rs:28-39 | one attempt uses three draws; a row pick is the drawn row's centre and a free point is on the walkway; with unit draws either is a legal destination |
| RobotMotion.TryDestination | wasm/src/robot.rs:28-39 | one pass of the loop takes three draws and returns a destination exactly when the attempt gives one, and then that one |
| RobotMotion.DestinationFromKinds | wasm/src/robot.rs:26-45 | a destination uses one to 3·attempts + 1 draws; a free point is on the walkway; a row pick is the drawn row's centre; with unit draws the row exists and y lies within the shelf span |
| RobotMotion.ValidDestinationFirstAttempt | wasm/src/robot.rs:27-40 | a first draw over 0.2 gives the row floor(r1·rowCount) at r2 of the span, using three draws; otherwise a first drawn point on the walkway is returned as it is |
| RobotMotion.CheckProductCollision | wasm/src/robot.rs:47-57 | none exactly when no product is closer than 3; otherwise the first such product |
| RobotMotion.PointHitIsDistanceTest | wasm/src/robot.rs:47-57 | the squared test is the source's root-distance test under an exact root |
| RobotMotion.SegmentParam | wasm/src/robot.rs:73-78 | the clamped projection parameter is in [0, 1] |
| RobotMotion.CheckProductCollisionAlongSegment | wasm/src/robot.rs:59-88 | none exactly when no product is within 3 of the segment; otherwise the first one |
| RobotMotion.DegenerateSegmentIsPointTest | wasm/src/robot.rs:73-77 | a segment shorter than the 0.0001 threshold is treated as its start point |
| RobotMotion.UnitIsUnit | wasm/src/robot.rs:154-167 | the normalised direction has length 1 when the root is exact and not clipped at 0.0001 |
| RobotMotion.ReflectProperties | wasm/src/robot.rs:169-171 | the reflection negates the component along the normal and keeps the length |
| RobotMotion.PushOutDistance | wasm/src/robot.rs:194-196 | the pushed-out robot is exactly 3.2 from the product |
| RobotMotion.AdvanceLength | wasm/src/robot.rs:127-140 | one step moves the robot exactly the move amount |
| RobotMotion.Retarget | wasm/src/robot.rs:107-125 | the destination is kept unless the stuck timer is over 3000 ms or the destination is closer than 2; otherwise it is the first or, when that one is also closer than 2, the second destination the draws select, with the stream just past the draws used (`RetargetAim`); the timer resets when stuck |
| RobotMotion.ResolveCollision | wasm/src/robot.rs:153-205 | no hit keeps the candidate and the stream; a hit pushes the robot out and takes the reflected, clamped bounce target when it is on the walkway, else the destination the next draws select; a push off the walkway keeps the robot in place with the destination the draws after that select; the stream ends just past the draws used; the result is on the walkway |
| RobotMotion.Steer | wasm/src/robot.rs:207-212 | the heading turns by an angle in [-pi/4, pi/4); the timer resets on a move over 0.01 and otherwise grows by delta |
| RobotMotion.UpdateSingleRobot | wasm/src/robot.rs:90-223 | each branch (recover, blocked, moved, bounced, reverted) holds exactly when the source takes it and gives its new state; the aim is the re-targeted destination; an off-walkway robot goes to `find_nearest_valid_position`; every redrawn destination is the one the draws select at that point of the stream, and the stream ends just past the draws used; the speed is kept; a robot on the walkway stays on it |
| RobotMotion.StrandedRobotStays | wasm/src/robot.rs:142-146 | on the default layout a robot at (-105, 0) is recovered in place by every step and stays off the walkway |
| RobotMotion.UpdateSingleRobotCorrected | wasm/src/robot.rs:142-146 | the step with the recovery moved to the nearest gap midpoint: every other field, the destination and the stream are the step's, and on a layout with gaps every result is on the walkway |
| RobotMotion.MoveToWaypointAtRest | wasm/src/robot.rs:237-241 | within 0.01 of the waypoint nothing changes |
| RobotMotion.MoveToWaypointStep | wasm/src/robot.rs:243-250 | otherwise the robot moves along the heading by the smaller of the step and the distance, and takes the heading |
| RobotMotion.MoveToWaypointOnSegment | wasm/src/robot.rs:225-251 | the move covers exactly the step and leaves exactly the rest of the distance to the waypoint |
| RobotMotion.MoveToWaypointArrives | wasm/src/robot.rs:245-250 | a step at least as long as the distance lands on the waypoint, where the arrival check of lines 318-323 holds |
| RobotMotion.CheckArrivalIsDistanceTest | wasm/src/robot.rs:318-323 | arrival is the distance being at most 2.5 |
| RobotMotion.Slide | wasm/src/robot.rs:285-293 | the full move if it is on the walkway, else the x-only move, else the y-only move, else none; a result is always on the walkway |
| RobotMotion.MoveToWaypointWithCollision | wasm/src/robot.rs:253-316 | at the waypoint nothing moves; off the walkway the robot goes to `find_nearest_valid_position`; a blocked slide stops it; a hit along the segment pushes it out or reverts; a robot on the walkway stays on it |
| Pathfinding.NodeCompareReversed | wasm/src/pathfinding.rs:14-24 | a node ranks higher exactly when its f-score is lower, so the max-heap pops the lowest score |
| Pathfinding.HeuristicIsMetric | wasm/src/pathfinding.rs:26-28 | the Manhattan heuristic is non-negative, zero only at the goal, symmetric and obeys the triangle inequality |
| Pathfinding.HeuristicConsistent | wasm/src/pathfinding.rs:26-28 | one step changes the heuristic by at most 1 |
| Pathfinding.KeepWalkable | wasm/src/pathfinding.rs:46-53 | the filter keeps exactly the walkable candidates |
| Pathfinding.NeighborsAreAdjacent | wasm/src/pathfinding.rs:30-54 | neighbors are walkable cells one step away, and on a rectangular grid every walkable adjacent cell is listed |
| Pathfinding.FindNearestWalkable | wasm/src/pathfinding.rs:56-93 | a walkable start is returned as is; otherwise the result is walkable or the start; on a rectangular grid with any walkable cell the search finds one |
| Pathfinding.PopMin | wasm/src/pathfinding.rs:132 | the popped node has the least f-score and the rest is the queue without it |
| Pathfinding.Reverse | wasm/src/pathfinding.rs:141 | the reversed path lists the cells back to front |
| Pathfinding.ReverseInvolutive | wasm/src/pathfinding.rs:141 | reversing twice gives back the path |
| Pathfinding.ReversedChainIsRoute | wasm/src/pathfinding.rs:133-142 | following the came-from links back to the start and reversing gives a route from start to goal |
| Pathfinding.Reconstruct | wasm/src/pathfinding.rs:133-142 | the reconstructed cells are a walkable route of adjacent steps, and the path is their centres |
| Pathfinding.Relax | wasm/src/pathfinding.rs:145-162 | relaxing neighbours keeps the search invariant, only appends to the queue, lowers scores only by a step from the current cell, queues every newly scored cell, and below the score sentinel leaves every walkable neighbour scored |
| Pathfinding.Search | wasm/src/pathfinding.rs:116-165 | A* terminates; a found path is the centres of a walkable route from the start cell to the end cell; on a grid with fewer cells than the `i32::MAX / 2` score sentinel, no path is found only when no such route exists |
| Pathfinding.KeysBound | wasm/src/pathfinding.rs:117-121 | every scored cell is the start or a walkable cell, so at most rows times cols plus one cells are scored |
| Pathfinding.NoRoute | wasm/src/pathfinding.rs:132-165 | once the open list is empty, every scored cell has all its walkable neighbours scored, so no route reaches an unscored goal |
| Pathfinding.ClampIndex | wasm/src/pathfinding.rs:105-111 | the clamped index is in range and unchanged when already in range |
| Pathfinding.ClampedCellInGrid | wasm/src/pathfinding.rs:103-111 | a clamped start or end cell lies in the grid |
| Pathfinding.NavGridWalkable | wasm/src/grid.rs:22-50 | a cell of the built grid is walkable exactly when the layout leaves it free |
| Pathfinding.Snap | wasm/src/pathfinding.rs:103-114 | the start and end points are clamped into the grid and moved to the nearest walkable cell |
| Pathfinding.FindPathNonEmpty | wasm/src/pathfinding.rs:95-166 | every path has at least one point |
| Pathfinding.FindPath | wasm/src/pathfinding.rs:95-166 | an empty grid gives the straight pair; a found route is the centres of a walkable route between the snapped cells; otherwise the straight pair, and on a grid below the score sentinel no route joins the snapped cells |
| Pathfinding.FoundRoute | wasm/src/pathfinding.rs:133-142 | a search route is a route of the layout's own nav grid |
| Pathfinding.LastOr | wasm/src/pathfinding.rs:179-181 | the last point of a leg, or the anchor for an empty leg |
| Pathfinding.StitchShape | wasm/src/pathfinding.rs:183-191 | the stitched route starts with the first leg and drops the duplicate first point of each later leg |
| Pathfinding.PathDistance | wasm/src/pathfinding.rs:197-205 | the length of a path is never negative |
| Pathfinding.Distance | wasm/src/pathfinding.rs:197-205 | the summing loop computes the path length |
| Pathfinding.PathDistanceJoin | wasm/src/pathfinding.rs:183-191 | joining two paths at a shared point adds their lengths |
| Pathfinding.StitchDistance | wasm/src/pathfinding.rs:177-205 | the stitched route is as long as its three legs together |
| Pathfinding.BuildRoute | wasm/src/pathfinding.rs:177-192 | the route runs through the three legs: to the anchor row, along it, and to the end |
| Pathfinding.ComputePathWithOuterWalkway | wasm/src/pathfinding.rs:168-212 | the route is the top or the bottom route, no longer than either, and the top one on a tie |
| WasmApi.Norms | wasm/src/lib.rs:20-26 | one magnitude per whole triple |
| WasmApi.Magnitudes | wasm/src/lib.rs:15-27 | empty for an empty or ragged buffer; otherwise the root of each triple's squared length |
| WasmApi.MagnitudesSquare | wasm/src/lib.rs:15-27 | each magnitude is non-negative and squares to the triple's squared length |
| WasmApi.Dots | wasm/src/lib.rs:36-39 | one dot product per triple |
| WasmApi.DotProducts | wasm/src/lib.rs:31-40 | empty for mismatched, empty or ragged buffers; otherwise the per-triple dot products |
| WasmApi.DotProductsSymmetric | wasm/src/lib.rs:31-40 | swapping the buffers gives the same result |
| WasmApi.Blend | wasm/src/lib.rs:50-53 | every value is blended between its two inputs |
| WasmApi.LerpVectors | wasm/src/lib.rs:44-54 | empty for bad buffers; otherwise the blend with t clamped to [0, 1] |
| WasmApi.BlendBetween | wasm/src/lib.rs:52 | a blend with a weight in [0, 1] lies between the two values |
| WasmApi.LerpVectorsEnds | wasm/src/lib.rs:44-54 | t at or below 0 gives the first buffer, at or above 1 the second, and every value lies between its inputs |
| WasmApi.EncodeRobot | wasm/src/lib.rs:57 | a robot record is seven values |
| WasmApi.RobotAtAppend | wasm/src/lib.rs:78 | appending a record adds it at the next index and keeps earlier ones |
| WasmApi.EffectiveDelta | wasm/src/lib.rs:66-70 | the step length is the given delta when positive, otherwise 50 ms |
| WasmApi.UpdateRobots | wasm/src/lib.rs:60-82 | a ragged buffer gives no output; otherwise each output record is the as-written one-robot step of the matching input record on the decoded layout, the random stream threaded from one record to the next |
| WasmApi.Flatten | wasm/src/lib.rs:107 | the points interleaved as x, y |
| WasmApi.ComputePath | wasm/src/lib.rs:87-108 | short inputs give nothing; otherwise the flattened outer-walkway route or the plain path |
| WasmApi.MoveRobotToWaypoint | wasm/src/lib.rs:114-130 | short input gives nothing, otherwise three values |
| WasmApi.MoveRobotToWaypointReads | wasm/src/lib.rs:119-127 | the destination and stuck-timer slots are never read |
| WasmApi.MoveRobotToWaypointIsStep | wasm/src/lib.rs:114-130 | the result is the waypoint move of the slots it reads |
| WasmApi.HasArrivedAtWaypoint | wasm/src/lib.rs:136-146 | 0 for short input; otherwise 1 exactly when the robot has arrived |
| MockData.AisleConfigToBuffer | src/components/store-map/mockData.ts:7-20 | the layout becomes ten values |
| MockData.AisleConfigBufferRoundTrip | src/components/store-map/mockData.ts:7-20 | the engine decodes the buffer back to the same layout, by the decoder at `wasm/src/constants.rs:31-48` |
| MockData.TransformPositionInvolutive | src/components/store-map/mockData.ts:22-28 | transforming twice gives the point back |
| MockData.AisleCenterAgreesWithEngine | src/components/store-map/mockData.ts:30-37 | the generator's aisle centre is the engine's row centre from `wasm/src/constants.rs:50-52` |
| MockData.ShelvesFit | src/components/store-map/mockData.ts:46-92 | the shelf loops never place more than the requested count |
| MockData.ShelfSide | src/components/store-map/mockData.ts:54-71 | one shelf side adds products up to its share or the count, each as the stream gives it |
| MockData.FillRest | src/components/store-map/mockData.ts:94-107 | the fill loop completes the count, two draws per product |
| MockData.GenerateProducts | src/components/store-map/mockData.ts:39-110 | exactly max(count, 0) products, each as the stream gives it, two draws each |
| MockData.GeneratedProductIdsDistinct | src/components/store-map/mockData.ts:67 | product k is `product-k` and no two ids coincide |
| MockData.ShelfProductOnShelf | src/components/store-map/mockData.ts:54-91 | a shelf product lies within 0.75 of its aisle's left or right shelf face and 14 inside the store ends |
| MockData.FillPositionInStore | src/components/store-map/mockData.ts:94-100 | a fill product lies inside the store |
| MockData.NewRobot | src/components/store-map/mockData.ts:158-168 | the record is the generated robot for its draws |
| MockData.GenerateRobots | src/components/store-map/mockData.ts:112-172 | exactly max(count, 0) robots, each as the stream gives it, five draws each |
| MockData.GeneratedRobotPlacement | src/components/store-map/mockData.ts:134-168 | a robot starts 10 inside one end at a gap midpoint and heads for a gap midpoint at the other end; heading in [0, 2pi), speed in [2, 5), no task |
| MockData.CrossAisleIsGap | src/components/store-map/mockData.ts:137-140 | the drawn midpoint is a gap midpoint of the engine's walkway |
| MockData.GeneratedRobotNaming | src/components/store-map/mockData.ts:159-161 | ids are `robot-i` and distinct; the name cycles the ten names with a round number; the variant cycles the three kinds |
| Text.TaggedInjective | src/components/store-map/mockData.ts:67 | `prefix` + decimal is injective in the number |
| Text.DecimalRoundTrip | src/routes/robots.tsx:175-177 | reading back the decimal text of a number gives the number |
| TaskSimulation.WithState | src/hooks/useRobotSimulation.ts:45-54 | the seven engine fields come from the record and everything else is kept |
| TaskSimulation.WithStateOfState | src/hooks/useRobotSimulation.ts:13-58 | inflating a robot's own flattened record changes at most an absent move time to 0 |
| TaskSimulation.FlattenRobots | src/hooks/useRobotSimulation.ts:13-26 | the array holds seven values per robot: its engine state, a missing move time as 0 |
| TaskSimulation.Pairs | src/hooks/useRobotSimulation.ts:28-36 | one position per product |
| TaskSimulation.FlattenProducts | src/hooks/useRobotSimulation.ts:28-36 | the array is the interleaved product positions |
| TaskSimulation.InflateRobots | src/hooks/useRobotSimulation.ts:38-58 | robot i takes its engine state from record i |
| TaskSimulation.RoundTripRobots | src/hooks/useRobotSimulation.ts:13-58 | inflating the flattened robots gives every robot back, with an absent move time as 0, and the same list when every move time is present |
| TaskSimulation.Unflatten | src/hooks/useRobotSimulation.ts:75-78 | consecutive pairs become points |
| TaskSimulation.UnflattenFlatten | src/hooks/useRobotSimulation.ts:75-78 | decoding an engine path gives back its points, as `wasm/src/lib.rs:107` flattens them |
| TaskSimulation.FlattenUnflatten | src/hooks/useRobotSimulation.ts:75-78 | an even buffer is recovered from its points |
| TaskSimulation.DecodeWaypoints | src/hooks/useRobotSimulation.ts:70-79 | an empty or odd result falls back to the straight pair; otherwise its points |
| TaskSimulation.StoreBoundsLayout | src/hooks/useRobotSimulation.ts:68 | the bounds buffer decodes to the default layout, with the `STORE_BOUNDS` of `src/components/store-map/mockData.ts:174-177` |
| TaskSimulation.ComputePathTo | src/hooks/useRobotSimulation.ts:60-80 | the waypoints are the decoded engine route from the robot to the target |
| TaskSimulation.ProductLookup | src/hooks/useRobotSimulation.ts:129-137 | the lookup has exactly the product ids as keys |
| TaskSimulation.LookupFindsLast | src/hooks/useRobotSimulation.ts:129-137 | a key maps to the last product with that id |
| TaskSimulation.TargetOf | src/hooks/useRobotSimulation.ts:162-166 | going to a product targets the product's position if it is known; going to drop targets the drop point |
| TaskSimulation.TargetKeyInjective | src/hooks/useRobotSimulation.ts:170-173 | equal target keys mean the same phase and product |
| TaskSimulation.ExistingTask | src/hooks/useRobotSimulation.ts:157-160 | the robot's task for the same command is kept; otherwise the command starts going to the product |
| TaskSimulation.ShouldPlanIffStale | src/hooks/useRobotSimulation.ts:175-180 | a route is planned exactly when the current one is missing, used up or for another target |
| TaskSimulation.WaypointOr | src/hooks/useRobotSimulation.ts:192 | the indexed waypoint when it exists, otherwise the fallback |
| TaskSimulation.PrepareRobot | src/hooks/useRobotSimulation.ts:155-205 | the commanded robot gets its task, a route when stale, and the current waypoint as destination, unless the target is unknown |
| TaskSimulation.PrepareCommands | src/hooks/useRobotSimulation.ts:153-206 | only the commanded robot is prepared; the others are unchanged |
| TaskSimulation.PrepKeepsState | src/hooks/useRobotSimulation.ts:194-204 | preparing keeps identity, position and cargo, and a consistent task stays consistent |
| TaskSimulation.CommandId | src/hooks/useRobotSimulation.ts:153 | the commanded robot id exactly when there is a command |
| TaskSimulation.Autopilot | src/hooks/useRobotSimulation.ts:208-210 | the uncommanded robots are a sub-list |
| TaskSimulation.AutopilotSplit | src/hooks/useRobotSimulation.ts:208-210 | the filter distributes over a split of the robot list |
| TaskSimulation.Rank | src/hooks/useRobotSimulation.ts:229-232 | a kept robot's rank is its index among the kept robots |
| TaskSimulation.RankStep | src/hooks/useRobotSimulation.ts:231 | the counter grows by one exactly at each kept robot |
| TaskSimulation.MergeBack | src/hooks/useRobotSimulation.ts:227-233 | the merged list keeps order and length; the commanded robot is kept; each other robot is replaced by its updated copy |
| TaskSimulation.MergeIdentity | src/hooks/useRobotSimulation.ts:227-233 | merging the unmodified sub-list back gives the original list |
| TaskSimulation.StepAutopilot | src/hooks/useRobotSimulation.ts:212-234 | each uncommanded robot takes the as-written engine step, the random stream threaded from one robot to the next, when the result has the right length; otherwise nothing changes |
| TaskSimulation.StepKeepsState | src/hooks/useRobotSimulation.ts:212-234 | the engine step keeps identity, task and cargo, and leaves the commanded robot alone |
| TaskSimulation.CommandWaypoint | src/hooks/useRobotSimulation.ts:239-244 | the current waypoint, else the drop point, else the destination |
| TaskSimulation.MoveAlong | src/hooks/useRobotSimulation.ts:82-107 | the robot takes the engine's waypoint move for position and heading and keeps the rest |
| TaskSimulation.MoveCommanded | src/hooks/useRobotSimulation.ts:236-247 | with a command only that robot moves, towards its waypoint; all others are unchanged |
| TaskSimulation.AdvanceRobot | src/hooks/useRobotSimulation.ts:249-320 | an unknown target drops the task; arrival advances the waypoint, or picks up and plans the drop route, or completes; otherwise the robot steers at the target; the completed id is reported |
| TaskSimulation.CompletedIds | src/hooks/useRobotSimulation.ts:305-306 | at most one completion per robot |
| TaskSimulation.CompletedIdsAreDropoffs | src/hooks/useRobotSimulation.ts:305-311 | every reported id belongs to a robot that arrived at its drop point |
| TaskSimulation.AdvanceTasks | src/hooks/useRobotSimulation.ts:249-320 | each robot advances its task, and the completed ids are reported in order |
| TaskSimulation.AdvanceKeepsState | src/hooks/useRobotSimulation.ts:249-320 | advancing keeps identity and position, keeps tasks consistent, and changes cargo only on pickup or completion |
| TaskSimulation.PickupRouteIsKept | src/hooks/useRobotSimulation.ts:282-302 | after pickup the drop route is current, so the staleness test at lines 157-180 does not replan it on the next tick |
| TaskSimulation.Tick | src/hooks/useRobotSimulation.ts:148-325 | one tick prepares the command, steps the autopilot robots as `StepAutopilot` states, moves the commanded robot and advances tasks; identities and count are kept, and consistent tasks stay consistent |
| RobotsRoute.StoredLayout | src/routes/robots.tsx:57-74 | each stored layout field wins over the default |
| RobotsRoute.StoredLayoutComplete | src/routes/robots.tsx:57-74 | a fully specified stored layout is used as is |
| RobotsRoute.Load | src/routes/robots.tsx:45-106 | a saved config with a matching non-empty product list is used as saved; otherwise 20000 generated products, 30 robots and the default layout; persistence is reported exactly in the first case |
| RobotsRoute.LeadingSpaces | src/routes/robots.tsx:174 | the count of whitespace before the first other character |
| RobotsRoute.TrailingSpaces | src/routes/robots.tsx:174 | the count of whitespace after the last other character |
| RobotsRoute.Trim | src/routes/robots.tsx:174 | the trimmed text is the middle of the input with whitespace at neither end |
| RobotsRoute.TrimOfTrimmed | src/routes/robots.tsx:174 | trimming text with no whitespace at either end changes nothing |
| RobotsRoute.LeadingDigits | src/routes/robots.tsx:175 | the longest digit prefix |
| RobotsRoute.RequestedIndex | src/routes/robots.tsx:174-178 | a number is read only when the trimmed text starts with `product-` in any letter case |
| RobotsRoute.ProductIdShape | src/routes/robots.tsx:175 | `product-` then digits matches the prefix test and has no whitespace at either end |
| RobotsRoute.RequestedIndexOfId | src/routes/robots.tsx:174-178 | the id `product-n` asks for index n |
| RobotsRoute.JsSlice | src/routes/robots.tsx:181-184 | the slice has the clamped length and the elements from the start index on |
| RobotsRoute.PickupSuggestions | src/routes/robots.tsx:171-185 | at most 200 consecutive products starting 100 before the requested index, or from the first product |
| RobotsRoute.RequestedProductSuggested | src/routes/robots.tsx:171-185 | a requested index inside the list is among the suggestions, at its own position |
| RobotsRoute.GeneratedIdSuggested | src/routes/robots.tsx:171-185 | typing a generated product's id suggests that product, for the ids `src/components/store-map/mockData.ts:67` generates |
| RobotsRoute.ClampedAisle | src/routes/robots.tsx:307 | the aisle number is clamped to 1..count |
| RobotsRoute.DropRatio | src/routes/robots.tsx:308 | the percentage becomes a ratio in [0, 1] |
| RobotsRoute.DropPoint | src/routes/robots.tsx:309-311 | the drop point is on the chosen aisle's centre line, 15 inside each end |
| RobotsRoute.DropPointEnds | src/routes/robots.tsx:310-311 | 0 % and 100 % are the two ends of the aisle |
| RobotsRoute.DropPointMonotone | src/routes/robots.tsx:310-311 | a larger percentage is never nearer the bottom end |
| RobotsRoute.ComputeDropTarget | src/routes/robots.tsx:306-313 | the drop point is swapped for a horizontal layout and kept for a vertical one |
| RobotsRoute.CommandRobot | src/routes/robots.tsx:316 | the tracked robot, else the first robot, else none |
| RobotsRoute.FindProduct | src/routes/robots.tsx:317 | the first product with the id when there is one, none exactly when no product has it |
| RobotsRoute.SendCommand | src/routes/robots.tsx:315-340 | with no robot no command; an unknown product is reported; otherwise a task to fetch it to the drop target, going to the product |
| RobotsRoute.SendCommandIssues | src/routes/robots.tsx:315-340 | a command is sent exactly when there is a robot and the product exists |
| RobotsRoute.SentCommandIsPlanned | src/routes/robots.tsx:331-338 | a fresh command is taken as the robot's task and gets a route planned on the next tick by `src/hooks/useRobotSimulation.ts:157-180` |
| RobotsRoute.HasUnsavedChanges | src/routes/robots.tsx:378-411 | there are unsaved changes exactly when some setting differs from the snapshot |
| RobotsRoute.SnapshotAfterSave | src/routes/robots.tsx:271-285 | a successful save leaves no unsaved changes; a failed one keeps the old snapshot |
| RobotsRoute.UnsavedChangesSymmetric | src/routes/robots.tsx:389-411 | the comparison is symmetric |
| LegacySimulation.ScanCrossAislesIff | src/components/store-map/useRobotSimulation.ts:20-31 | the cross-aisle loop succeeds exactly when a remaining midpoint is within 10 and the point is within 70 of the centre line |
| LegacySimulation.IsInAisleWalkwayIff | src/components/store-map/useRobotSimulation.ts:13-44 | the walkway is the five cross aisles at x = -90, -60, -30, 0, 30 (half width 10, |y| < 70) and the bands at y = ±65 (half width 5, |x| < 115) |
| LegacySimulation.WalkwayInsideStore | src/components/store-map/useRobotSimulation.ts:13-44 | every walkway point is inside the 250 by 150 store |
| LegacySimulation.JsClamp | src/components/store-map/useRobotSimulation.ts:64-67 | the value clamped into a non-empty range, unchanged when inside |
| LegacySimulation.NearestValidPositionIsNearestAisle | src/components/store-map/useRobotSimulation.ts:46-70 | the snap moves x to the nearest aisle centre and clamps y to ±65 |
| LegacySimulation.FindNearestValidPosition | src/components/store-map/useRobotSimulation.ts:46-70 | the loop computes the snap as written |
| LegacySimulation.FirstAisleCentreOffWalkway | src/components/store-map/useRobotSimulation.ts:13-44 | the first aisle centre (-105, 0) is off the walkway |
| LegacySimulation.FirstAisleCentreSnapsToItself | src/components/store-map/useRobotSimulation.ts:46-70 | the as-written snap maps (-105, 0) to itself |
| LegacySimulation.NearestValidPositionCanStayOffWalkway | src/components/store-map/useRobotSimulation.ts:46-70 | a robot recovered at (-105, 0) stays off the walkway |
| LegacySimulation.NearestCrossAislePositionOnWalkway | src/components/store-map/useRobotSimulation.ts:20-31 | the corrected snap, to the nearest cross-aisle middle with y clamped, is always on the walkway |
| LegacySimulation.NearestCrossAislePositionIsNearest | src/components/store-map/useRobotSimulation.ts:46-70 | the corrected snap picks the nearest cross-aisle middle |
| LegacySimulation.FindNearestCrossAislePosition | src/components/store-map/useRobotSimulation.ts:46-70 | the running-minimum loop over cross aisles computes the corrected snap |
| LegacySimulation.AisleDrawInRange | src/components/store-map/useRobotSimulation.ts:78 | a unit draw picks one of the six aisles |
| LegacySimulation.GetValidDestination | src/components/store-map/useRobotSimulation.ts:72-99 | the loop returns exactly `ValidDestination`, the destination its draws select attempt by attempt, with the stream advanced past the draws used, more than none and at most 151 |
| LegacySimulation.AislePickSound | src/components/store-map/useRobotSimulation.ts:78-82 | with unit draws the drawn aisle is one of the six and the drawn y lies within 60 of the middle |
| LegacySimulation.AttemptSound | src/components/store-map/useRobotSimulation.ts:75-92 | one attempt uses three draws; an aisle pick is the drawn aisle's centre and a free point is on the walkway; with unit draws either is a legal destination |
| LegacySimulation.TryDestination | src/components/store-map/useRobotSimulation.ts:75-92 | one pass of the loop takes three draws and returns a destination exactly when the attempt gives one, and then that one |
| LegacySimulation.DestinationFromKinds | src/components/store-map/useRobotSimulation.ts:72-99 | a destination uses one to 3·attempts + 1 draws; a free point is on the walkway; an aisle pick is the drawn aisle's centre; with unit draws the aisle exists and y is within 60 of the middle |
| LegacySimulation.ValidDestinationFirstAttempt | src/components/store-map/useRobotSimulation.ts:74-93 | a first draw over 0.2 gives aisle floor(6·r1) at r2 of the 120-unit span, using three draws; otherwise a first drawn point on the walkway is returned as it is |
| LegacySimulation.ProductHitIsDistanceTest | src/components/store-map/useRobotSimulation.ts:127-130 | the squared test is the root-distance test under an exact root |
| LegacySimulation.FirstProductHit | src/components/store-map/useRobotSimulation.ts:126-134 | none exactly when no remaining product is hit; otherwise the first hit |
| LegacySimulation.CheckProductCollision | src/components/store-map/useRobotSimulation.ts:121-135 | none exactly when no product is closer than 3; otherwise the first such product |
| LegacySimulation.DirectionIsUnit | src/components/store-map/useRobotSimulation.ts:264-265 | a non-zero offset with an exact root normalises to length 1 |
| LegacySimulation.BounceVelocityDamped | src/components/store-map/useRobotSimulation.ts:137-167 | the bounce reverses the normal component and keeps 0.8 of the speed, so the squared speed scales by 0.64 |
| LegacySimulation.PushPointClearsProduct | src/components/store-map/useRobotSimulation.ts:302-306 | the pushed-out point is exactly 3.2 from the product and no longer hits it |
| LegacySimulation.BounceTarget | src/components/store-map/useRobotSimulation.ts:268-293 | the bounced destination lies within 115 and 65 of the centre |
| LegacySimulation.CandidateLength | src/components/store-map/useRobotSimulation.ts:212-217 | the candidate move is exactly speed times 0.1 long |
| LegacySimulation.Slide | src/components/store-map/useRobotSimulation.ts:233-249 | the full move if on the walkway, else x only, else y only, else none; a result is on the walkway |
| LegacySimulation.Collide | src/components/store-map/useRobotSimulation.ts:251-333 | no hit keeps the move and the stream; a hit takes the clamped bounce target when it is on the walkway, else the destination the next draws select, and pushes out, or reverts with the destination the draws after that select; the stream ends just past the draws used; heading and move time follow the final move |
| LegacySimulation.TickRobot | src/components/store-map/useRobotSimulation.ts:183-333 | each branch (stuck, arrived, recovered, blocked, moved, bounced) holds exactly when the source takes it and gives its new state; a stranded robot goes to `findNearestValidPosition`; every redrawn destination is the one `getValidDestination` returns at that point of the stream, and the stream ends just past the draws used; a robot on the walkway stays on it, and the blocked, moved and bounced branches end on the walkway |
| LegacySimulation.StrandedRobotStays | src/components/store-map/useRobotSimulation.ts:220-231 | a robot at (-105, 0) stays there after every tick, off the walkway, whichever branch is taken |
| LegacySimulation.TickRobotCorrected | src/components/store-map/useRobotSimulation.ts:220-231 | the tick with the rescue moved to the nearest cross-aisle middle: every other field, the destination and the stream are the tick's, and every branch but the stuck and arrival re-targeting ends on the walkway |
| LegacySimulation.Tick | src/components/store-map/useRobotSimulation.ts:181-336 | every robot takes the as-written tick in order, the random stream threaded from one robot to the next |
| LegacySimulation.TickKeepsWalkway | src/components/store-map/useRobotSimulation.ts:183-333 | a robot on the walkway is still on it after the tick, keeping id, speed and task |
| Collision.BoxesWellFormed | src/components/architecture-walkthrough/collision.ts:8-24 | the ten boxes have their minimum corner below their maximum one |
| Collision.ClosestOnAxis | src/components/architecture-walkthrough/collision.ts:28-29 | the nearest coordinate of the box on one axis |
| Collision.BoxDistSq | src/components/architecture-walkthrough/collision.ts:31-33 | the squared floor distance is non-negative |
| Collision.CollidesWithAny | src/components/architecture-walkthrough/collision.ts:26-40 | a hit exactly when some box is hit |
| Collision.CheckCollision | src/components/architecture-walkthrough/collision.ts:26-40 | a hit exactly when one of the ten boxes is within the radius |
| Collision.IgnoresHeight | src/components/architecture-walkthrough/collision.ts:28-33 | the height of the point never matters |
| Collision.CheckCollisionIgnoresHeight | src/components/architecture-walkthrough/collision.ts:26-40 | the check never reads the height |
| Collision.InsideFootprintCollides | src/components/architecture-walkthrough/collision.ts:26-40 | a point in a box's footprint collides for any non-zero radius |
| Collision.MonotoneInRadius | src/components/architecture-walkthrough/collision.ts:35 | a hit at a radius is a hit at any larger radius |
| Collision.CheckCollisionMonotone | src/components/architecture-walkthrough/collision.ts:26-40 | the check is monotone in the radius |
| Collision.ZeroRadiusNeverCollides | src/components/architecture-walkthrough/collision.ts:35 | with radius 0 nothing collides |
| GridBoard.SquareKeyInjective | src/components/grid/GridScene.tsx:17 | distinct squares have distinct `x,z` keys |
| GridBoard.SquareKeyTruthy | src/components/grid/GridScene.tsx:40 | a square key is never empty, so a drag is always noticed |
| GridBoard.Toggled | src/components/grid/GridScene.tsx:16-27 | the clicked square flips and no other changes |
| GridBoard.ToggleTwice | src/components/grid/GridScene.tsx:16-27 | two clicks restore the board |
| GridBoard.ToggleCount | src/components/grid/GridScene.tsx:16-27 | a click removes or adds exactly one piece |
| GridBoard.Drop | src/components/grid/GridScene.tsx:49-55 | a drop onto another empty square moves the piece; any other drop changes nothing |
| GridBoard.DropCount | src/components/grid/GridScene.tsx:49-55 | moving a piece keeps the number of pieces |
| GridBoard.DropOnSourceIsNoOp | src/components/grid/GridScene.tsx:49 | dropping onto the source square changes nothing |
| GridBoard.DropAndBack | src/components/grid/GridScene.tsx:49-55 | a move can be dragged back, and that restores the board |
| GridBoard.BoardKeys | src/components/grid/GridScene.tsx:10 | every square of the 8 by 8 board has its key |
| GridBoard.ToggleStaysOnBoard | src/components/grid/GridScene.tsx:16-27 | clicks keep pieces on the board |
| GridBoard.DropStaysOnBoard | src/components/grid/GridScene.tsx:46-57 | drops keep pieces on the board |
| GridBoard.ValidDropHighlight | src/components/grid/GridScene.tsx:87-90 | a square shows as a valid drop exactly when a drop there would move the piece |
| GridBoard.Board.constructor | src/components/grid/GridScene.tsx:11-14 | the board starts empty, with no drag and controls enabled |
| GridBoard.Board.TogglePiece | src/components/grid/GridScene.tsx:16-27 | the pieces are toggled at the square and the rest of the state is kept |
| GridBoard.Board.PointerDown | src/components/grid/GridScene.tsx:29-37 | pressing a piece starts dragging it and disables the controls; elsewhere nothing changes |
| GridBoard.Board.PointerEnter | src/components/grid/GridScene.tsx:39-44 | while dragging the hovered square is recorded |
| GridBoard.Board.PointerUp | src/components/grid/GridScene.tsx:46-63 | releasing drops the piece, clears the drag and hover and enables the controls |
| GridBoard.GridSquares | src/components/grid/GridScene.tsx:65-70 | the 64 squares, row by row |
| GridBoard.SquaresDistinct | src/components/grid/GridScene.tsx:65-70 | the listed squares are on the board and have distinct keys |
| GridBoard.EverySquareListed | src/components/grid/GridScene.tsx:65-70 | every square of the board is listed, at index 8x + z |

## Left out

- React state, effects, intervals, the WASM loader, rendering and the
  orbit controls are not modelled. Their null-reference guards have no
  state to change here.
- Each hook is modelled as one tick. A tick is a function of the robots, the
  products, the command, the random stream, the math oracle and one clock
  value.
- `onCommandComplete` is modelled as the list of completed task ids that the
  tick returns.
- Status and error message strings are left out, in the route and in both
  hooks.
- f32 and JavaScript number rounding are modelled as exact reals. The one
  f32-to-i32 cast that changes results, the row count, is written out.
- Long digit strings lose precision when JavaScript converts them to a
  number. The model reads them exactly.
- Square root, `atan2`, `cos` and `sin` are fields of a `MathOracle`
  parameter. Lemmas that need an exact root, or a heading whose cosine and
  sine point at the target, say so in their requirements.
- Randomness is an `Rng` stream: one draw per `Math.random` or
  `random_f32` call, in source order.
- Pathfinding.PopMin: `BinaryHeap` breaks ties among equal f-scores in its
  own order. The model pops the first minimal node. This can change which
  of several shortest routes is returned.
- Pathfinding.Search: A* optimality is not proved. The contract states
  termination, that a route is a walkable chain of adjacent cells from
  start to end, and that no route exists when none is found.
- Pathfinding.Search, Pathfinding.FindPath: the no-route statement needs
  a grid with fewer cells than `i32::MAX / 2`. On a larger grid a score
  could reach the sentinel, and the search could stop without a route that
  does exist.
- Pathfinding.Search: the `i32` arithmetic of the scores is not modelled
  as wrapping. Every score stays below the number of scored cells, and
  the f-score adds at most the grid's Manhattan span to it.
- `wasm/src/grid.rs` and `wasm/src/pathfinding.rs` name fields and functions
  that `wasm/src/constants.rs` does not define:
  - `aisle_*` fields, where the layout record has `row_*` fields;
  - `build_nav_grid(width, height)`, where the function takes the layout;
  - `OUTER_WALKWAY_OFFSET`;
  - `is_in_row_walkway`, where the function is `is_in_aisle_walkway`.

  The model reads them as the layout's corresponding fields and functions.
- TaskSimulation.Tick: the hook sends only `[width, height]` as the layout
  buffer, so the engine uses the default layout with those bounds. The
  model decodes the buffer the same way.
- TaskSimulation.InflateRobots requires an updated buffer of exactly seven
  values per robot. The hook checks this length first.
- The store-map `types.ts` does not define `AisleConfig` or
  `DEFAULT_AISLE_CONFIG`, so the model takes the default layout as a
  parameter. `AisleConfig.count` is an integer.
- RobotsRoute.Load: a failed fetch behaves like a missing saved config.
  Both return the generated defaults.
- The saved config's field names differ between the GraphQL client and the
  route. The model uses the route's names.
- `_checkRobotCollision` in `store-map/useRobotSimulation.ts` is not called
  anywhere. It is left out.
- LegacySimulation.Direction: dividing by a zero distance gives NaN in
  JavaScript. The model returns None instead. `isInAisleWalkway` is false
  for NaN, so OnWalkway(None) is false and the model reverts or redraws
  exactly where the code does.
- LegacySimulation.Tick: `Date.now()` is read once per robot, and again
  when the move time is refreshed. The model uses one time value per tick.
- LegacySimulation.Candidate: the model keeps a separate value for a zero
  distance. The arrival check before it already sends every distance below
  2 on another path, so that value is never reached.
- RobotMotion.MoveToWaypointWithCollision: a corrected variant, with the
  recovery moved to the nearest gap midpoint, is not written. The step
  variant `UpdateSingleRobotCorrected` shows the correction.
- Grid.BuildNavGrid, Pathfinding.FindPath, Pathfinding.BuildRoute,
  Pathfinding.ComputePathWithOuterWalkway and WasmApi.ComputePath require
  `NavGridBuildable`. It leaves out the layouts on which `build_nav_grid`
  panics: a negative grid dimension, and rows of shelving on a grid with
  no columns. The panic is not modelled. TaskSimulation.StoreBoundsLayout
  proves that the hook's layout is buildable.
- RobotMotion.UnitIsUnit and the other normalisation lemmas assume the
  distance is not clipped by the engine's `max(0.0001)`. Below that
  distance the "unit" vector is shorter than 1.

## Findings

| source | as written | input that shows it | evidently intended | confidence | as-written member | corrected member |
|---|---|---|---|---|---|---|
| wasm/src/robot.rs:5-24 | a robot found off the walkway is moved to the nearest shelf-row centre with y clamped | default layout, robot at (-105, 0): the first row centre, off the walkway, snaps to itself, so every step leaves the robot there | move the robot onto the walkway, at the nearest gap midpoint between rows | not executed | RobotMotion.StrandedRobotStays | RobotMotion.UpdateSingleRobotCorrected |
| src/components/store-map/useRobotSimulation.ts:46-70 | the same recovery snaps to the nearest aisle centre -105 + 30a | robot at (-105, 0): it is not in any cross aisle or end band, the snap returns the same point, and every tick leaves the robot there | snap to the nearest cross-aisle middle, which is always on the walkway | not executed | LegacySimulation.StrandedRobotStays | LegacySimulation.TickRobotCorrected |
