/** The page-side simulation loop (src/hooks/useRobotSimulation.ts): every
    50 ms the commanded robot is given its route, the other robots are
    stepped by the engine's `update_robots`, the commanded robot walks its
    route with `move_robot_to_waypoint`, and every robot with a task is
    moved on to its next waypoint, picks up, or drops off. */
module TaskSimulation {
  import opened Wrappers
  import opened Numeric
  import opened Constants
  import opened Grid
  import opened RobotMotion
  import opened WasmApi
  import opened StoreTypes
  import MockData

  /** The tick period in milliseconds, also the step the engine is given. */
  const UPDATE_INTERVAL: real := 50.0

  const PRODUCT_KEY_PREFIX: string := "product-"
  const DROP_KEY_PREFIX: string := "drop-"

  // ---------------------------------------------------------------------
  // Buffers

  /** The seven values the engine keeps per robot; an absent last-move
      time is sent as 0. */
  function StateOf(r: Robot): RobotState {
    RobotState(r.x, r.y, r.destX, r.destY, r.orientation, r.speed, r.lastMoveTime.GetOr(0.0))
  }

  /** The robot with its seven engine values replaced by `s`; everything
      else (identity, cargo, task) is kept. */
  function WithState(r: Robot, s: RobotState): (r': Robot)
    ensures StateOf(r') == s
    ensures r'.id == r.id && r'.name == r.name && r'.variant == r.variant
    ensures r'.task == r.task && r'.carryingProductId == r.carryingProductId
  {
    r.(x := s.x, y := s.y, destX := s.destX, destY := s.destY,
       orientation := s.orientation, speed := s.speed, lastMoveTime := Some(s.lastMove))
  }

  /** Writing a robot's own values back changes nothing but an absent
      last-move time, which becomes 0. */
  lemma WithStateOfState(r: Robot)
    ensures WithState(r, StateOf(r)) == r.(lastMoveTime := Some(r.lastMoveTime.GetOr(0.0)))
    ensures r.lastMoveTime.Some? ==> WithState(r, StateOf(r)) == r
  {
  }

  /** The first `n` records of `buf` hold the first `n` robots. */
  ghost predicate RecordsUpTo(buf: seq<real>, robots: seq<Robot>, n: nat) {
    n <= |robots| && 7 * n <= |buf| &&
    forall i :: 0 <= i < n ==> RobotAt(buf, i) == StateOf(robots[i])
  }

  /** Writing record `n` without touching the ones before extends
      `RecordsUpTo` by one record. */
  lemma RecordsExtend(buf: seq<real>, buf': seq<real>, robots: seq<Robot>, n: nat)
    requires RecordsUpTo(buf, robots, n) && n < |robots| && 7 * n + 7 <= |buf| == |buf'|
    requires forall j :: 0 <= j < 7 * n ==> buf'[j] == buf[j]
    requires RobotAt(buf', n) == StateOf(robots[n])
    ensures RecordsUpTo(buf', robots, n + 1)
  {
    forall i | 0 <= i < n + 1
      ensures RobotAt(buf', i) == StateOf(robots[i])
    {
      if i < n {
        assert RobotAt(buf', i) == RobotAt(buf, i);
      }
    }
  }

  /** `flattenRobots`: a zero-filled buffer of seven values per robot,
      record `i` being robot `i`'s engine values. */
  method FlattenRobots(robots: seq<Robot>) returns (data: array<real>)
    ensures fresh(data)
    ensures data.Length == 7 * |robots|
    ensures forall i :: 0 <= i < |robots| ==> RobotAt(data[..], i) == StateOf(robots[i])
  {
    data := new real[7 * |robots|](_ => 0.0);
    var idx := 0;
    while idx < |robots|
      invariant 0 <= idx <= |robots| && data.Length == 7 * |robots|
      invariant RecordsUpTo(data[..], robots, idx)
    {
      ghost var before := data[..];
      var offset := idx * 7;
      var robot := robots[idx];
      data[offset] := robot.x;
      data[offset + 1] := robot.y;
      data[offset + 2] := robot.destX;
      data[offset + 3] := robot.destY;
      data[offset + 4] := robot.orientation;
      data[offset + 5] := robot.speed;
      data[offset + 6] := robot.lastMoveTime.GetOr(0.0);
      assert RobotAt(data[..], idx) == StateOf(robot);
      RecordsExtend(before, data[..], robots, idx);
      idx := idx + 1;
    }
  }

  /** The products' positions as pairs, in order. */
  function Pairs(products: seq<Product>): (r: seq<(real, real)>)
    ensures |r| == |products|
    ensures forall j :: 0 <= j < |products| ==> r[j] == (products[j].x, products[j].y)
  {
    seq(|products|, j requires 0 <= j < |products| => (products[j].x, products[j].y))
  }

  /** `flattenProducts`: `[x0, y0, x1, y1, ...]`, the same layout the
      engine's path buffers use. */
  method FlattenProducts(products: seq<Product>) returns (data: array<real>)
    ensures fresh(data)
    ensures data[..] == Flatten(Pairs(products))
  {
    data := new real[2 * |products|](_ => 0.0);
    var idx := 0;
    while idx < |products|
      invariant 0 <= idx <= |products|
      invariant forall k :: 0 <= k < idx ==> data[2 * k] == products[k].x && data[2 * k + 1] == products[k].y
    {
      var offset := idx * 2;
      data[offset] := products[idx].x;
      data[offset + 1] := products[idx].y;
      idx := idx + 1;
    }
    var f := Flatten(Pairs(products));
    forall j | 0 <= j < data.Length
      ensures data[j] == f[j]
    {
      var k := j / 2;
      if j % 2 == 0 {
        assert j == 2 * k;
        assert data[2 * k] == products[k].x;
      } else {
        assert j == 2 * k + 1;
        assert data[2 * k + 1] == products[k].y;
      }
    }
  }

  /** The flat product buffer of a product list. */
  function ProductBuffer(products: seq<Product>): seq<real> {
    Flatten(Pairs(products))
  }

  /** `inflateRobots`: each robot takes the seven values of its record; the
      only caller passes a buffer of exactly seven values per robot. */
  method InflateRobots(robots: seq<Robot>, updated: seq<real>) returns (next: seq<Robot>)
    requires |updated| == 7 * |robots|
    ensures |next| == |robots|
    ensures forall i :: 0 <= i < |robots| ==> next[i] == WithState(robots[i], RobotAt(updated, i))
  {
    next := [];
    var i := 0;
    while i < |robots|
      invariant 0 <= i <= |robots| && |next| == i
      invariant forall k :: 0 <= k < i ==> next[k] == WithState(robots[k], RobotAt(updated, k))
    {
      next := next + [WithState(robots[i], RobotAt(updated, i))];
      i := i + 1;
    }
  }

  /** `inflateRobots(robots, flattenRobots(robots))`: sending the robots
      through the buffer and back gives the same robots, except that an
      absent last-move time comes back as 0. */
  method RoundTripRobots(robots: seq<Robot>) returns (next: seq<Robot>)
    ensures |next| == |robots|
    ensures forall i :: 0 <= i < |robots| ==>
      next[i] == robots[i].(lastMoveTime := Some(robots[i].lastMoveTime.GetOr(0.0)))
    ensures (forall i :: 0 <= i < |robots| ==> robots[i].lastMoveTime.Some?) ==> next == robots
  {
    var data := FlattenRobots(robots);
    next := InflateRobots(robots, data[..]);
    forall i | 0 <= i < |robots|
      ensures next[i] == robots[i].(lastMoveTime := Some(robots[i].lastMoveTime.GetOr(0.0)))
    {
      WithStateOfState(robots[i]);
    }
  }

  // ---------------------------------------------------------------------
  // Paths

  /** Route points as page points. */
  function PointsOf(path: seq<(real, real)>): (r: seq<Point>)
    ensures |r| == |path|
    ensures forall i :: 0 <= i < |path| ==> r[i] == Point(path[i].0, path[i].1)
  {
    seq(|path|, i requires 0 <= i < |path| => Point(path[i].0, path[i].1))
  }

  /** Page points as route points. */
  function PairsOf(points: seq<Point>): (r: seq<(real, real)>)
    ensures |r| == |points|
    ensures forall i :: 0 <= i < |points| ==> r[i] == (points[i].x, points[i].y)
  {
    seq(|points|, i requires 0 <= i < |points| => (points[i].x, points[i].y))
  }

  /** The points of an even-length flat buffer, pair by pair. */
  function Unflatten(arr: seq<real>): (r: seq<Point>)
    requires |arr| % 2 == 0
    ensures |r| == |arr| / 2
    ensures forall i :: 0 <= i < |r| ==> r[i] == Point(arr[2 * i], arr[2 * i + 1])
  {
    seq(|arr| / 2, i requires 0 <= i < |arr| / 2 => Point(arr[2 * i], arr[2 * i + 1]))
  }

  /** Decoding a flattened route gives the route's points. */
  lemma UnflattenFlatten(path: seq<(real, real)>)
    ensures |Flatten(path)| % 2 == 0
    ensures Unflatten(Flatten(path)) == PointsOf(path)
  {
    var f := Flatten(path);
    DoubleIsEven(|path|);
    var u, p := Unflatten(f), PointsOf(path);
    assert |u| == |p|;
    forall i | 0 <= i < |p|
      ensures u[i] == p[i]
    {
      assert u[i] == Point(f[2 * i], f[2 * i + 1]);
    }
  }

  /** Flattening the decoded points gives the buffer back. */
  lemma FlattenUnflatten(arr: seq<real>)
    requires |arr| % 2 == 0
    ensures Flatten(PairsOf(Unflatten(arr))) == arr
  {
    var q := PairsOf(Unflatten(arr));
    var f := Flatten(q);
    assert |f| == |arr|;
    forall j | 0 <= j < |arr|
      ensures f[j] == arr[j]
    {
      var k := j / 2;
      assert q[k] == (arr[2 * k], arr[2 * k + 1]);
      if j % 2 == 0 {
        assert j == 2 * k;
      } else {
        assert j == 2 * k + 1;
      }
    }
  }

  /** The decoding half of `computePath`: an odd or empty result falls
      back to the straight segment from the robot to the target, anything
      else is read as `(x, y)` pairs. */
  method DecodeWaypoints(robot: Robot, target: Point, arr: seq<real>) returns (waypoints: seq<Point>)
    ensures |arr| % 2 != 0 || |arr| == 0 ==> waypoints == [Point(robot.x, robot.y), target]
    ensures |arr| % 2 == 0 && |arr| > 0 ==> waypoints == Unflatten(arr)
  {
    if |arr| % 2 != 0 || |arr| == 0 {
      return [Point(robot.x, robot.y), target];
    }
    waypoints := [];
    var i := 0;
    while i < |arr|
      invariant i <= |arr| && i == 2 * |waypoints|
      invariant forall k :: 0 <= k < |waypoints| ==> waypoints[k] == Point(arr[2 * k], arr[2 * k + 1])
    {
      waypoints := waypoints + [Point(arr[i], arr[i + 1])];
      i := i + 2;
    }
  }

  /** The hook always sends only the store bounds: the engine then uses the
      default layout, on which the navigation grid can be built. */
  lemma StoreBoundsLayout()
    ensures FromBuffer(MockData.STORE_BOUNDS) == DEFAULT_CONFIG
    ensures NavGridBuildable(DEFAULT_CONFIG)
  {
    BoundsOnlyBuffer(MockData.STORE_WIDTH, MockData.STORE_HEIGHT);
    assert GridCols(DEFAULT_CONFIG) == 50;
    assert GridRows(DEFAULT_CONFIG) == 30;
  }

  /** `ws` is a route the engine may return from `from` to `target` on the
      default layout: a non-empty sequence of points. */
  ghost predicate Planned(m: MathOracle, preferOuter: bool, from: Point, target: Point, ws: seq<Point>) {
    |ws| > 0 &&
    exists path :: ws == PointsOf(path) &&
      PathOutcome(m, (from.x, from.y), (target.x, target.y), DEFAULT_CONFIG, preferOuter, path)
  }

  /** `computePath`: the engine's route from the robot to the target,
      decoded into points. The straight-segment fallback is never taken,
      as the engine always returns at least one whole point. */
  method ComputePathTo(m: MathOracle, robot: Robot, target: Point, preferOuter: bool)
    returns (waypoints: seq<Point>)
    ensures Planned(m, preferOuter, Point(robot.x, robot.y), target, waypoints)
  {
    var start := [robot.x, robot.y];
    var end := [target.x, target.y];
    StoreBoundsLayout();
    var result;
    ghost var path;
    result, path := ComputePath(start, end, MockData.STORE_BOUNDS, preferOuter, m);
    waypoints := DecodeWaypoints(robot, target, result);
    UnflattenFlatten(path);
    assert waypoints == PointsOf(path);
  }

  // ---------------------------------------------------------------------
  // Tasks

  /** `new Map(products.map(p => [p.id, p]))`: later entries overwrite
      earlier ones with the same id. */
  function ProductLookup(products: seq<Product>): (lookup: map<string, Product>)
    ensures lookup.Keys == set k | 0 <= k < |products| :: products[k].id
  {
    if |products| == 0 then map[]
    else
      var init := products[..|products| - 1];
      var last := products[|products| - 1];
      var rest := ProductLookup(init);
      assert (set k | 0 <= k < |products| :: products[k].id) ==
             (set k | 0 <= k < |init| :: init[k].id) + {last.id} by {
        forall k | 0 <= k < |products|
          ensures products[k].id in (set k | 0 <= k < |init| :: init[k].id) + {last.id}
        {
          if k < |init| {
            assert init[k] == products[k];
          }
        }
        forall k | 0 <= k < |init|
          ensures init[k].id in (set k | 0 <= k < |products| :: products[k].id)
        {
          assert products[k] == init[k];
        }
      }
      rest[last.id := last]
  }

  /** The product found under an id is the last one carrying that id. */
  lemma {:induction false} LookupFindsLast(products: seq<Product>, k: nat)
    requires k < |products|
    requires forall j :: k < j < |products| ==> products[j].id != products[k].id
    ensures ProductLookup(products)[products[k].id] == products[k]
  {
    var n := |products|;
    if k < n - 1 {
      var init := products[..n - 1];
      assert init[k] == products[k];
      assert products[n - 1].id != products[k].id;
      LookupFindsLast(init, k);
    }
  }

  /** Where a task is heading: the product while picking up (absent when
      the product is unknown), else the drop-off point. */
  function TargetOf(lookup: map<string, Product>, t: Task): (target: Option<Point>)
    ensures t.phase == ToDropoff ==> target == Some(t.dropTarget)
    ensures t.phase == ToProduct ==>
      (target.Some? <==> t.productId in lookup) &&
      (target.Some? ==> target.value == Point(lookup[t.productId].x, lookup[t.productId].y))
  {
    match t.phase
    case ToProduct =>
      if t.productId in lookup then Some(Point(lookup[t.productId].x, lookup[t.productId].y)) else None
    case ToDropoff => Some(t.dropTarget)
  }

  /** The key a planned route is filed under. */
  function TargetKey(t: Task): string {
    match t.phase
    case ToProduct => PRODUCT_KEY_PREFIX + t.productId
    case ToDropoff => DROP_KEY_PREFIX + t.productId
  }

  /** Keys of different targets differ: the key determines both the
      phase and the product. */
  lemma TargetKeyInjective(a: Task, b: Task)
    requires TargetKey(a) == TargetKey(b)
    ensures a.phase == b.phase && a.productId == b.productId
  {
    var ka, kb := TargetKey(a), TargetKey(b);
    assert ka[0] == if a.phase == ToProduct then 'p' else 'd';
    assert kb[0] == if b.phase == ToProduct then 'p' else 'd';
    if a.phase == ToProduct {
      assert a.productId == ka[8..];
      assert b.productId == kb[8..];
    } else {
      assert a.productId == ka[5..];
      assert b.productId == kb[5..];
    }
  }

  /** The robot's own task when it is the command, else the command
      starting over at the pick-up phase. */
  function ExistingTask(robot: Robot, cmd: Task): (t: Task)
    ensures robot.task.Some? && robot.task.value.id == cmd.id ==> t == robot.task.value
    ensures !(robot.task.Some? && robot.task.value.id == cmd.id) ==> t == cmd.(phase := ToProduct)
  {
    if robot.task.Some? && robot.task.value.id == cmd.id then robot.task.value
    else cmd.(phase := ToProduct)
  }

  /** `shouldPlanPath`: no route, no index, an empty route, an index past
      its end, or a route filed under another key. */
  predicate ShouldPlan(t: Task, key: string) {
    t.waypoints.None? || t.waypointIndex.None? || |t.waypoints.value| == 0 ||
    t.waypointIndex.value >= |t.waypoints.value| || t.waypointsTarget != Some(key)
  }

  /** A task whose route is filed under `key` with an index inside it. */
  predicate PlanCurrent(t: Task, key: string) {
    t.waypoints.Some? && t.waypointIndex.Some? &&
    t.waypointIndex.value < |t.waypoints.value| && t.waypointsTarget == Some(key)
  }

  /** A route is planned exactly when the current one is not usable. */
  lemma ShouldPlanIffStale(t: Task, key: string)
    ensures ShouldPlan(t, key) <==> !PlanCurrent(t, key)
  {
  }

  /** `list?.[i] ?? fallback`. */
  function WaypointOr(ws: Option<seq<Point>>, idx: nat, fallback: Point): (p: Point)
    ensures ws.Some? && idx < |ws.value| ==> p == ws.value[idx]
    ensures !(ws.Some? && idx < |ws.value|) ==> p == fallback
  {
    if ws.Some? && idx < |ws.value| then ws.value[idx] else fallback
  }

  /** The fields that say who a robot is never change. */
  predicate SameIdentity(a: Robot, b: Robot) {
    a.id == b.id && a.name == b.name && a.variant == b.variant
  }

  /** The task bookkeeping the loop keeps: a waypoint index always points
      into a route, and a product is only carried under a task. */
  predicate TaskStateValid(r: Robot) {
    (r.task.Some? && r.task.value.waypointIndex.Some? ==>
       r.task.value.waypoints.Some? && r.task.value.waypointIndex.value < |r.task.value.waypoints.value|) &&
    (r.carryingProductId.Some? ==> r.task.Some?)
  }

  // ---------------------------------------------------------------------
  // Stage 1: the commanded robot gets its task and route

  /** A possible result of preparing `r` for command `cmd`: other robots,
      and the commanded robot without a reachable target, are unchanged;
      otherwise the robot carries the task with a current route filed under
      the target's key and heads for the waypoint at the index. A route is
      planned afresh (from the robot, starting at index 0) exactly when the
      old one is not usable; a usable one is kept as it is. */
  ghost predicate PrepOutcome(m: MathOracle, lookup: map<string, Product>, cmd: Task, r: Robot, r': Robot) {
    if r.id != cmd.robotId then r' == r
    else
      var t := ExistingTask(r, cmd);
      match TargetOf(lookup, t)
      case None => r' == r
      case Some(target) =>
        var key := TargetKey(t);
        r'.task.Some? && PlanCurrent(r'.task.value, key) &&
        var ws := r'.task.value.waypoints.value;
        var idx := r'.task.value.waypointIndex.value;
        r' == r.(task := Some(t.(waypoints := Some(ws), waypointIndex := Some(idx), waypointsTarget := Some(key))),
                 destX := ws[idx].x, destY := ws[idx].y) &&
        (ShouldPlan(t, key) ==> idx == 0 && Planned(m, true, Point(r.x, r.y), target, ws)) &&
        (!ShouldPlan(t, key) ==> r'.task == Some(t))
  }

  /** The per-robot step of the command preparation. */
  method PrepareRobot(m: MathOracle, lookup: map<string, Product>, cmd: Task, robot: Robot) returns (r: Robot)
    ensures PrepOutcome(m, lookup, cmd, robot, r)
  {
    if robot.id != cmd.robotId {
      return robot;
    }
    var t := ExistingTask(robot, cmd);
    var target := TargetOf(lookup, t);
    if target.None? {
      return robot;
    }
    var key := TargetKey(t);
    var ws: seq<Point>;
    var idx: nat;
    if ShouldPlan(t, key) {
      ws := ComputePathTo(m, robot, target.value, true);
      idx := 0;
    } else {
      ws := t.waypoints.value;
      idx := t.waypointIndex.value;
    }
    var waypoint := WaypointOr(Some(ws), idx, target.value);
    var t' := t.(waypoints := Some(ws), waypointIndex := Some(idx), waypointsTarget := Some(key));
    r := robot.(task := Some(t'), destX := waypoint.x, destY := waypoint.y);
    assert PlanCurrent(t', key);
  }

  /** Stage 1 of the tick: without a command nothing changes, with one
      every robot is prepared for it. */
  ghost predicate PrepStage(m: MathOracle, lookup: map<string, Product>, command: Option<Task>,
                            robots: seq<Robot>, prepared: seq<Robot>) {
    |prepared| == |robots| &&
    (command.None? ==> prepared == robots) &&
    (command.Some? ==> forall i :: 0 <= i < |robots| ==> PrepOutcome(m, lookup, command.value, robots[i], prepared[i]))
  }

  /** The first `i` robots are prepared. */
  ghost predicate PreparedUpTo(m: MathOracle, lookup: map<string, Product>, cmd: Task,
                               robots: seq<Robot>, prepared: seq<Robot>, i: nat) {
    i <= |robots| && |prepared| == i &&
    forall k :: 0 <= k < i ==> PrepOutcome(m, lookup, cmd, robots[k], prepared[k])
  }

  lemma PreparedExtend(m: MathOracle, lookup: map<string, Product>, cmd: Task,
                       robots: seq<Robot>, prepared: seq<Robot>, i: nat, r: Robot)
    requires PreparedUpTo(m, lookup, cmd, robots, prepared, i) && i < |robots|
    requires PrepOutcome(m, lookup, cmd, robots[i], r)
    ensures PreparedUpTo(m, lookup, cmd, robots, prepared + [r], i + 1)
  {
    var p' := prepared + [r];
    assert p'[..i] == prepared && p'[i] == r;
    assert forall k :: 0 <= k < i ==> PrepOutcome(m, lookup, cmd, robots[k], p'[..i][k]);
  }

  /** `activeCommand ? currentRobots.map(...) : currentRobots`. */
  method PrepareCommands(m: MathOracle, lookup: map<string, Product>, command: Option<Task>, robots: seq<Robot>)
    returns (prepared: seq<Robot>)
    ensures PrepStage(m, lookup, command, robots, prepared)
  {
    if command.None? {
      return robots;
    }
    prepared := [];
    var i := 0;
    while i < |robots|
      invariant 0 <= i <= |robots|
      invariant PreparedUpTo(m, lookup, command.value, robots, prepared, i)
    {
      var r := PrepareRobot(m, lookup, command.value, robots[i]);
      PreparedExtend(m, lookup, command.value, robots, prepared, i, r);
      prepared := prepared + [r];
      i := i + 1;
    }
  }

  /** Preparing keeps who the robot is and what it carries, and keeps the
      task bookkeeping valid. */
  lemma PrepKeepsState(m: MathOracle, lookup: map<string, Product>, cmd: Task, r: Robot, r': Robot)
    requires PrepOutcome(m, lookup, cmd, r, r')
    ensures SameIdentity(r, r') && r'.carryingProductId == r.carryingProductId
    ensures r'.x == r.x && r'.y == r.y
    ensures TaskStateValid(r) ==> TaskStateValid(r')
  {
  }

  // ---------------------------------------------------------------------
  // Stage 2: the engine steps every other robot

  /** The id of the commanded robot, if there is a command. */
  function CommandId(command: Option<Task>): (c: Option<string>)
    ensures c.Some? <==> command.Some?
    ensures command.Some? ==> c.value == command.value.robotId
  {
    if command.Some? then Some(command.value.robotId) else None
  }

  /** `robot.id !== commandRobotId`. */
  predicate Keeps(c: Option<string>, r: Robot) {
    c != Some(r.id)
  }

  /** The robots the engine steps: all but the commanded one, in order. */
  function Autopilot(rs: seq<Robot>, c: Option<string>): (auto: seq<Robot>)
    ensures |auto| <= |rs|
  {
    if |rs| == 0 then []
    else (if Keeps(c, rs[0]) then [rs[0]] else []) + Autopilot(rs[1..], c)
  }

  lemma ConcatAssoc<T>(a: seq<T>, b: seq<T>, c: seq<T>)
    ensures a + (b + c) == (a + b) + c
  {
  }

  /** Filtering distributes over a split of the list. */
  lemma {:induction false} AutopilotSplit(rs: seq<Robot>, c: Option<string>, i: nat)
    requires i <= |rs|
    ensures Autopilot(rs, c) == Autopilot(rs[..i], c) + Autopilot(rs[i..], c)
  {
    if i > 0 {
      var t := rs[1..];
      var h := if Keeps(c, rs[0]) then [rs[0]] else [];
      AutopilotSplit(t, c, i - 1);
      assert rs[..i][0] == rs[0] && rs[..i][1..] == t[..i - 1];
      assert t[i - 1..] == rs[i..];
      assert Autopilot(rs[..i], c) == h + Autopilot(t[..i - 1], c);
      assert Autopilot(rs, c) == h + Autopilot(t, c);
      ConcatAssoc(h, Autopilot(t[..i - 1], c), Autopilot(t[i - 1..], c));
    } else {
      assert rs[..0] == [];
      assert rs[0..] == rs;
    }
  }

  /** The position of robot `i` among the stepped robots: the number of
      stepped robots before it. */
  function Rank(rs: seq<Robot>, c: Option<string>, i: nat): (k: nat)
    requires i <= |rs|
    ensures k <= |Autopilot(rs, c)|
    ensures i < |rs| && Keeps(c, rs[i]) ==> k < |Autopilot(rs, c)| && Autopilot(rs, c)[k] == rs[i]
  {
    AutopilotSplit(rs, c, i);
    assert i < |rs| ==> rs[i..] == [rs[i]] + rs[i + 1..];
    |Autopilot(rs[..i], c)|
  }

  /** Each robot the engine steps moves the rank on by one. */
  lemma RankStep(rs: seq<Robot>, c: Option<string>, i: nat)
    requires i < |rs|
    ensures Rank(rs, c, i + 1) == Rank(rs, c, i) + (if Keeps(c, rs[i]) then 1 else 0)
  {
    AutopilotSplit(rs[..i + 1], c, i);
    assert rs[..i + 1][..i] == rs[..i];
    assert rs[..i + 1][i..] == [rs[i]];
  }

  /** Robot `i` after the merge. */
  function MergedAt(rs: seq<Robot>, c: Option<string>, inflated: seq<Robot>, i: nat): Robot
    requires i < |rs| && |inflated| == |Autopilot(rs, c)|
  {
    if Keeps(c, rs[i]) then inflated[Rank(rs, c, i)] else rs[i]
  }

  /** The first `i` robots of `next` are those of the merge. */
  ghost predicate MergedUpTo(rs: seq<Robot>, c: Option<string>, inflated: seq<Robot>, next: seq<Robot>, i: nat)
    requires i <= |rs| && |inflated| == |Autopilot(rs, c)|
  {
    |next| == i && forall k :: 0 <= k < i ==> next[k] == MergedAt(rs, c, inflated, k)
  }

  lemma MergedExtend(rs: seq<Robot>, c: Option<string>, inflated: seq<Robot>, next: seq<Robot>, i: nat, r: Robot)
    requires i < |rs| && |inflated| == |Autopilot(rs, c)|
    requires MergedUpTo(rs, c, inflated, next, i) && r == MergedAt(rs, c, inflated, i)
    ensures MergedUpTo(rs, c, inflated, next + [r], i + 1)
  {
    var next' := next + [r];
    forall k | 0 <= k < i + 1
      ensures next'[k] == MergedAt(rs, c, inflated, k)
    {
      if k < i {
        assert next'[k] == next[k];
      }
    }
  }

  /** The merge after the step: `robot.id === commandRobotId ? robot :
      inflated[inflateIndex++]`, where `inflated` has one robot per stepped
      robot. */
  method MergeBack(rs: seq<Robot>, c: Option<string>, inflated: seq<Robot>) returns (next: seq<Robot>)
    requires |inflated| == |Autopilot(rs, c)|
    ensures |next| == |rs|
    ensures forall i :: 0 <= i < |rs| ==>
      next[i] == if Keeps(c, rs[i]) then inflated[Rank(rs, c, i)] else rs[i]
  {
    next := [];
    var inflateIndex := 0;
    var i := 0;
    while i < |rs|
      invariant 0 <= i <= |rs|
      invariant inflateIndex == Rank(rs, c, i)
      invariant MergedUpTo(rs, c, inflated, next, i)
    {
      RankStep(rs, c, i);
      var r;
      if !Keeps(c, rs[i]) {
        r := rs[i];
      } else {
        r := inflated[inflateIndex];
        inflateIndex := inflateIndex + 1;
      }
      MergedExtend(rs, c, inflated, next, i, r);
      next := next + [r];
      i := i + 1;
    }
    forall i | 0 <= i < |rs|
      ensures next[i] == if Keeps(c, rs[i]) then inflated[Rank(rs, c, i)] else rs[i]
    {
      assert next[i] == MergedAt(rs, c, inflated, i);
    }
  }

  /** Merging the stepped robots back unchanged gives the list back. */
  lemma MergeIdentity(rs: seq<Robot>, c: Option<string>, i: nat)
    requires i < |rs|
    ensures (if Keeps(c, rs[i]) then Autopilot(rs, c)[Rank(rs, c, i)] else rs[i]) == rs[i]
  {
  }

  /** The engine's results: one step of `update_single_robot` for each
      stepped robot, threading the random streams `gs`, and each stepped
      robot in the list replaced by its result. */
  ghost predicate AutopilotStep(m: MathOracle, products: seq<Product>, c: Option<string>,
                                prepared: seq<Robot>, stepped: seq<Robot>, g0: Rng, g: Rng,
                                out: seq<real>, gs: seq<Rng>) {
    var auto := Autopilot(prepared, c);
    |stepped| == |prepared| &&
    (|auto| == 0 ==> stepped == prepared && g == g0) &&
    (|auto| > 0 ==>
       |out| == 7 * |auto| && |gs| == |auto| + 1 && gs[0] == g0 && g == gs[|auto|] &&
       (forall k :: 0 <= k < |auto| ==>
          StepOutcome(StateOf(auto[k]), ProductBuffer(products), DEFAULT_CONFIG, UPDATE_INTERVAL, m,
                      gs[k], RobotAt(out, k), gs[k + 1])) &&
       (forall i :: 0 <= i < |prepared| ==>
          stepped[i] == if Keeps(c, prepared[i]) then WithState(prepared[i], RobotAt(out, Rank(prepared, c, i)))
                        else prepared[i]))
  }

  /** Stage 2 of the tick: flatten the other robots and the products, step
      them in the engine and merge the results back by position. */
  method StepAutopilot(m: MathOracle, products: seq<Product>, c: Option<string>, prepared: seq<Robot>, g0: Rng)
    returns (stepped: seq<Robot>, g: Rng, ghost out: seq<real>, ghost gs: seq<Rng>)
    ensures AutopilotStep(m, products, c, prepared, stepped, g0, g, out, gs)
  {
    var auto := Autopilot(prepared, c);
    stepped, g, out, gs := prepared, g0, [], [g0];
    if |auto| > 0 {
      var robotBuffer := FlattenRobots(auto);
      var productBuffer := FlattenProducts(products);
      StoreBoundsLayout();
      var result, g';
      ghost var gs';
      result, g', gs' := UpdateRobots(robotBuffer[..], productBuffer[..], MockData.STORE_BOUNDS,
                                      UPDATE_INTERVAL, m, g0);
      g := g';
      if |result| == robotBuffer.Length {
        var inflated := InflateRobots(auto, result);
        stepped := MergeBack(prepared, c, inflated);
        out, gs := result, gs';
        forall k | 0 <= k < |auto|
          ensures StepOutcome(StateOf(auto[k]), ProductBuffer(products), DEFAULT_CONFIG, UPDATE_INTERVAL, m,
                              gs[k], RobotAt(out, k), gs[k + 1])
        {
          assert RobotAt(robotBuffer[..], k) == StateOf(auto[k]);
        }
      }
    }
  }

  /** Stepping keeps who each robot is, what it carries and its task. */
  lemma StepKeepsState(m: MathOracle, products: seq<Product>, c: Option<string>,
                       prepared: seq<Robot>, stepped: seq<Robot>, g0: Rng, g: Rng,
                       out: seq<real>, gs: seq<Rng>, i: nat)
    requires AutopilotStep(m, products, c, prepared, stepped, g0, g, out, gs) && i < |prepared|
    ensures SameIdentity(prepared[i], stepped[i])
    ensures stepped[i].task == prepared[i].task
    ensures stepped[i].carryingProductId == prepared[i].carryingProductId
    ensures !Keeps(c, prepared[i]) ==> stepped[i] == prepared[i]
  {
    if |Autopilot(prepared, c)| == 0 {
      assert stepped == prepared;
    }
  }

  // ---------------------------------------------------------------------
  // Stage 3: the commanded robot walks its route

  /** The waypoint the commanded robot walks to: the route point at the
      index (0 if unset), else the drop-off point, else its destination. */
  function CommandWaypoint(r: Robot): (p: Point)
    ensures r.task.None? ==> p == Point(r.destX, r.destY)
    ensures r.task.Some? ==>
      p == WaypointOr(r.task.value.waypoints, r.task.value.waypointIndex.GetOr(0), r.task.value.dropTarget)
  {
    match r.task
    case None => Point(r.destX, r.destY)
    case Some(t) => WaypointOr(t.waypoints, t.waypointIndex.GetOr(0), t.dropTarget)
  }

  /** `moveRobotToWaypoint`: the ten-value buffer the engine is given; the
      position and heading become those of `move_to_waypoint` over one
      tick, and nothing else changes. */
  function MoveAlong(m: MathOracle, r: Robot, wp: Point): (r': Robot)
    ensures var res := MoveToWaypoint(m, r.x, r.y, r.orientation, r.speed, wp.x, wp.y, UPDATE_INTERVAL);
      r' == r.(x := res.0, y := res.1, orientation := res.2)
  {
    var data := [r.x, r.y, r.destX, r.destY, r.orientation, r.speed,
                 r.lastMoveTime.GetOr(0.0), wp.x, wp.y, UPDATE_INTERVAL];
    var result := MoveRobotToWaypoint(m, data);
    MoveRobotToWaypointIsStep(m, data);
    if |result| < 3 then r else r.(x := result[0], y := result[1], orientation := result[2])
  }

  /** The robot the command moves: there is a command with a non-empty
      robot id and it is this robot's. */
  predicate Commanded(command: Option<Task>, r: Robot) {
    command.Some? && command.value.robotId != "" && r.id == command.value.robotId
  }

  /** Stage 3 of the tick: the commanded robot walks towards its waypoint;
      only its position and heading change, and no other robot moves. */
  function MoveCommanded(m: MathOracle, command: Option<Task>, rs: seq<Robot>): (moved: seq<Robot>)
    ensures |moved| == |rs|
    ensures forall i :: 0 <= i < |rs| && !Commanded(command, rs[i]) ==> moved[i] == rs[i]
    ensures forall i :: 0 <= i < |rs| ==>
      moved[i] == rs[i].(x := moved[i].x, y := moved[i].y, orientation := moved[i].orientation)
    ensures forall i :: 0 <= i < |rs| && Commanded(command, rs[i]) ==>
      var res := MoveToWaypoint(m, rs[i].x, rs[i].y, rs[i].orientation, rs[i].speed,
                                CommandWaypoint(rs[i]).x, CommandWaypoint(rs[i]).y, UPDATE_INTERVAL);
      moved[i].x == res.0 && moved[i].y == res.1 && moved[i].orientation == res.2
  {
    if command.Some? && command.value.robotId != "" then
      seq(|rs|, i requires 0 <= i < |rs| =>
        if rs[i].id != command.value.robotId then rs[i] else MoveAlong(m, rs[i], CommandWaypoint(rs[i])))
    else rs
  }

  // ---------------------------------------------------------------------
  // Stage 4: waypoints, pick-up and drop-off

  /** `hasArrivedAtWaypoint`: the engine's arrival test. */
  predicate Arrived(r: Robot, wp: Point) {
    CheckArrival(r.x, r.y, wp.x, wp.y)
  }

  /** The robot has arrived at the last waypoint of its drop-off route:
      this tick completes its task. */
  predicate CompletesTask(lookup: map<string, Product>, r: Robot) {
    r.task.Some? && r.task.value.phase == ToDropoff &&
    var t := r.task.value;
    var idx := t.waypointIndex.GetOr(0);
    Arrived(r, WaypointOr(t.waypoints, idx, t.dropTarget)) &&
    !(t.waypoints.Some? && idx + 1 < |t.waypoints.value|)
  }

  /** A possible result of the task pass on `r`: no task, no change; an
      unknown product drops the task and the cargo; on arriving, the robot
      takes the next waypoint of its route, or at the end of the route
      either picks up (carrying the product, with a fresh route to the
      drop-off point filed under the drop key) or drops off (task and cargo
      cleared); when not arrived it heads for the target itself. */
  ghost predicate AdvanceOutcome(m: MathOracle, lookup: map<string, Product>, r: Robot, r': Robot) {
    match r.task
    case None => r' == r
    case Some(t) =>
      match TargetOf(lookup, t)
      case None => r' == r.(task := None, carryingProductId := None)
      case Some(target) =>
        var idx := t.waypointIndex.GetOr(0);
        var wp := WaypointOr(t.waypoints, idx, target);
        if !Arrived(r, wp) then r' == r.(destX := target.x, destY := target.y)
        else if t.waypoints.Some? && idx + 1 < |t.waypoints.value| then
          var next := t.waypoints.value[idx + 1];
          r' == r.(task := Some(t.(waypointIndex := Some(idx + 1))), destX := next.x, destY := next.y)
        else if t.phase == ToProduct then
          r'.task.Some? && r'.task.value.waypoints.Some? &&
          var ws := r'.task.value.waypoints.value;
          Planned(m, true, Point(r.x, r.y), t.dropTarget, ws) &&
          r' == r.(carryingProductId := Some(t.productId),
                   task := Some(t.(phase := ToDropoff, waypoints := Some(ws), waypointIndex := Some(0),
                                   waypointsTarget := Some(DROP_KEY_PREFIX + t.productId))),
                   destX := ws[0].x, destY := ws[0].y)
        else r' == r.(carryingProductId := None, task := None)
  }

  /** The per-robot step of the task pass; `done` is the id reported to
      `onCommandComplete`, if any. */
  method AdvanceRobot(m: MathOracle, lookup: map<string, Product>, robot: Robot)
    returns (r: Robot, done: Option<string>)
    ensures AdvanceOutcome(m, lookup, robot, r)
    ensures done == if CompletesTask(lookup, robot) then Some(robot.task.value.id) else None
  {
    if robot.task.None? {
      return robot, None;
    }
    var t := robot.task.value;
    var target := TargetOf(lookup, t);
    if target.None? {
      return robot.(task := None, carryingProductId := None), None;
    }
    var idx := t.waypointIndex.GetOr(0);
    var waypoint := WaypointOr(t.waypoints, idx, target.value);
    if HasArrivedAtWaypoint([robot.x, robot.y, waypoint.x, waypoint.y]) == 1.0 {
      if t.waypoints.Some? && idx < |t.waypoints.value| - 1 {
        var nextIndex := idx + 1;
        var nextWaypoint := t.waypoints.value[nextIndex];
        return robot.(task := Some(t.(waypointIndex := Some(nextIndex))),
                      destX := nextWaypoint.x, destY := nextWaypoint.y), None;
      }
      if t.phase == ToProduct {
        var dropPath := ComputePathTo(m, robot, t.dropTarget, true);
        var first := WaypointOr(Some(dropPath), 0, t.dropTarget);
        var t' := t.(phase := ToDropoff, waypoints := Some(dropPath), waypointIndex := Some(0),
                     waypointsTarget := Some(DROP_KEY_PREFIX + t.productId));
        return robot.(carryingProductId := Some(t.productId), task := Some(t'),
                      destX := first.x, destY := first.y), None;
      }
      return robot.(carryingProductId := None, task := None), Some(t.id);
    }
    r, done := robot.(destX := target.value.x, destY := target.value.y), None;
  }

  /** The ids of the tasks completed by the task pass, in robot order. */
  function CompletedIds(lookup: map<string, Product>, rs: seq<Robot>): (ids: seq<string>)
    ensures |ids| <= |rs|
  {
    if |rs| == 0 then []
    else
      var last := rs[|rs| - 1];
      CompletedIds(lookup, rs[..|rs| - 1]) + (if CompletesTask(lookup, last) then [last.task.value.id] else [])
  }

  /** Every reported id is that of a drop-off task its robot has just
      finished. */
  lemma {:induction false} CompletedIdsAreDropoffs(lookup: map<string, Product>, rs: seq<Robot>, id: string)
    requires id in CompletedIds(lookup, rs)
    ensures exists i :: 0 <= i < |rs| && CompletesTask(lookup, rs[i]) && rs[i].task.value.id == id
  {
    var n := |rs|;
    var init := rs[..n - 1];
    if id in CompletedIds(lookup, init) {
      CompletedIdsAreDropoffs(lookup, init, id);
      var i :| 0 <= i < |init| && CompletesTask(lookup, init[i]) && init[i].task.value.id == id;
      assert rs[i] == init[i];
    } else {
      assert CompletesTask(lookup, rs[n - 1]) && rs[n - 1].task.value.id == id;
    }
  }

  /** Stage 4 of the tick: every robot takes one task step. */
  ghost predicate AdvanceStage(m: MathOracle, lookup: map<string, Product>, rs: seq<Robot>, next: seq<Robot>) {
    |next| == |rs| && forall i :: 0 <= i < |rs| ==> AdvanceOutcome(m, lookup, rs[i], next[i])
  }

  /** The first `i` robots have taken their task step. */
  ghost predicate AdvancedUpTo(m: MathOracle, lookup: map<string, Product>, rs: seq<Robot>, next: seq<Robot>, i: nat) {
    i <= |rs| && |next| == i && forall k :: 0 <= k < i ==> AdvanceOutcome(m, lookup, rs[k], next[k])
  }

  lemma AdvancedExtend(m: MathOracle, lookup: map<string, Product>, rs: seq<Robot>, next: seq<Robot>, i: nat, r: Robot)
    requires AdvancedUpTo(m, lookup, rs, next, i) && i < |rs|
    requires AdvanceOutcome(m, lookup, rs[i], r)
    ensures AdvancedUpTo(m, lookup, rs, next + [r], i + 1)
  {
    var n' := next + [r];
    assert n'[..i] == next && n'[i] == r;
    assert forall k :: 0 <= k < i ==> AdvanceOutcome(m, lookup, rs[k], n'[..i][k]);
  }

  /** `nextRobots.map(...)`, collecting the `onCommandComplete` calls. */
  method AdvanceTasks(m: MathOracle, lookup: map<string, Product>, rs: seq<Robot>)
    returns (next: seq<Robot>, completed: seq<string>)
    ensures AdvanceStage(m, lookup, rs, next)
    ensures completed == CompletedIds(lookup, rs)
  {
    next, completed := [], [];
    var i := 0;
    while i < |rs|
      invariant 0 <= i <= |rs|
      invariant AdvancedUpTo(m, lookup, rs, next, i)
      invariant completed == CompletedIds(lookup, rs[..i])
    {
      var r, done := AdvanceRobot(m, lookup, rs[i]);
      AdvancedExtend(m, lookup, rs, next, i, r);
      next := next + [r];
      assert rs[..i + 1][..i] == rs[..i];
      if done.Some? {
        completed := completed + [done.value];
      }
      i := i + 1;
    }
    assert rs[..|rs|] == rs;
  }

  /** The task step keeps who the robot is and keeps the task bookkeeping
      valid; a product is picked up only at the end of a pick-up route and
      let go only when the task ends. */
  lemma AdvanceKeepsState(m: MathOracle, lookup: map<string, Product>, r: Robot, r': Robot)
    requires AdvanceOutcome(m, lookup, r, r')
    ensures SameIdentity(r, r') && r'.x == r.x && r'.y == r.y
    ensures TaskStateValid(r) ==> TaskStateValid(r')
    ensures r'.carryingProductId != r.carryingProductId ==>
      r.task.Some? && ((r'.carryingProductId == Some(r.task.value.productId) && r.task.value.phase == ToProduct) ||
                       (r'.carryingProductId.None? && r'.task.None?))
  {
  }

  /** The route computed at pick-up is filed under the drop-off key of the
      new task, so the next preparation for the same command keeps it
      instead of planning again. */
  lemma PickupRouteIsKept(m: MathOracle, lookup: map<string, Product>, cmd: Task, r: Robot, r': Robot)
    requires AdvanceOutcome(m, lookup, r, r')
    requires r.task.Some? && r.task.value.phase == ToProduct
    requires r'.task.Some? && r'.task.value.phase == ToDropoff
    requires r.task.value.id == cmd.id
    ensures ExistingTask(r', cmd) == r'.task.value
    ensures !ShouldPlan(r'.task.value, TargetKey(r'.task.value))
  {
    var t' := r'.task.value;
    assert t'.waypointIndex == Some(0);
    assert TargetKey(t') == DROP_KEY_PREFIX + r.task.value.productId;
  }

  // ---------------------------------------------------------------------
  // The tick

  /** One tick of the loop: the four stages in order; `completed` are the
      `onCommandComplete` calls of the tick. Every robot keeps who it is,
      and the task bookkeeping stays valid. */
  method Tick(m: MathOracle, robots: seq<Robot>, products: seq<Product>, command: Option<Task>, g0: Rng)
    returns (next: seq<Robot>, completed: seq<string>, g: Rng,
             ghost prepared: seq<Robot>, ghost stepped: seq<Robot>, ghost moved: seq<Robot>)
    ensures PrepStage(m, ProductLookup(products), command, robots, prepared)
    ensures exists out, gs :: AutopilotStep(m, products, CommandId(command), prepared, stepped, g0, g, out, gs)
    ensures moved == MoveCommanded(m, command, stepped)
    ensures AdvanceStage(m, ProductLookup(products), moved, next)
    ensures completed == CompletedIds(ProductLookup(products), moved)
    ensures |next| == |robots|
    ensures forall i :: 0 <= i < |robots| ==> SameIdentity(robots[i], next[i])
    ensures (forall i :: 0 <= i < |robots| ==> TaskStateValid(robots[i])) ==>
      forall i :: 0 <= i < |next| ==> TaskStateValid(next[i])
  {
    var lookup := ProductLookup(products);
    var c := CommandId(command);
    var prep := PrepareCommands(m, lookup, command, robots);
    var step;
    ghost var out, gs;
    step, g, out, gs := StepAutopilot(m, products, c, prep, g0);
    var move := MoveCommanded(m, command, step);
    next, completed := AdvanceTasks(m, lookup, move);
    prepared, stepped, moved := prep, step, move;
    forall i | 0 <= i < |robots|
      ensures SameIdentity(robots[i], next[i])
      ensures TaskStateValid(robots[i]) ==> TaskStateValid(next[i])
    {
      if command.Some? {
        PrepKeepsState(m, lookup, command.value, robots[i], prepared[i]);
      }
      StepKeepsState(m, products, c, prepared, stepped, g0, g, out, gs, i);
      AdvanceKeepsState(m, lookup, moved[i], next[i]);
    }
  }
}
