/** The buffer-level entry points the browser calls (wasm/src/lib.rs): flat
    `f32` buffers in, flat buffers out, with fixed strides of 3 for vectors,
    7 for robots, 2 for path points and 10 for the layout. */
module WasmApi {
  import opened Wrappers
  import opened Numeric
  import opened Constants
  import opened Geometry
  import opened Grid
  import opened RobotMotion
  import opened Pathfinding

  // ---------------------------------------------------------------------
  // Vector helpers

  /** The squared length of the `i`-th packed 3-vector of `p`. */
  function SqNorm3(p: seq<real>, i: nat): real
    requires 3 * i + 2 < |p|
  {
    p[3 * i] * p[3 * i] + p[3 * i + 1] * p[3 * i + 1] + p[3 * i + 2] * p[3 * i + 2]
  }

  /** The lengths of the packed vectors, chunk by chunk; a trailing partial
      chunk contributes nothing. */
  function Norms(m: MathOracle, p: seq<real>): (r: seq<real>)
    ensures |r| == |p| / 3
    ensures forall i :: 0 <= i < |r| ==> r[i] == m.sqrt(SqNorm3(p, i))
  {
    if |p| < 3 then []
    else
      var rest := Norms(m, p[3..]);
      assert forall i :: 0 <= i < |rest| ==> SqNorm3(p[3..], i) == SqNorm3(p, i + 1);
      [m.sqrt(SqNorm3(p, 0))] + rest
  }

  /** `magnitudes`: empty for an empty buffer or one whose length is not a
      multiple of 3, else one length per packed vector. */
  function Magnitudes(m: MathOracle, points: seq<real>): (r: seq<real>)
    ensures |points| == 0 || |points| % 3 != 0 ==> r == []
    ensures |points| > 0 && |points| % 3 == 0 ==>
      |r| == |points| / 3 && forall i :: 0 <= i < |r| ==> r[i] == m.sqrt(SqNorm3(points, i))
  {
    if |points| == 0 || |points| % 3 != 0 then [] else Norms(m, points)
  }

  /** With an exact square root, every magnitude squares to its vector's
      squared length and is never negative. */
  lemma MagnitudesSquare(m: MathOracle, points: seq<real>, i: nat)
    requires |points| > 0 && |points| % 3 == 0 && i < |points| / 3
    requires ExactSqrtAt(m, SqNorm3(points, i))
    ensures Magnitudes(m, points)[i] >= 0.0
    ensures Magnitudes(m, points)[i] * Magnitudes(m, points)[i] == SqNorm3(points, i)
  {
  }

  /** The dot product of the `i`-th packed vectors of `a` and `b`. */
  function Dot3(a: seq<real>, b: seq<real>, i: nat): real
    requires 3 * i + 2 < |a| && 3 * i + 2 < |b|
  {
    a[3 * i] * b[3 * i] + a[3 * i + 1] * b[3 * i + 1] + a[3 * i + 2] * b[3 * i + 2]
  }

  /** The chunk-wise dot products of two equally long buffers. */
  function Dots(a: seq<real>, b: seq<real>): (r: seq<real>)
    requires |a| == |b|
    ensures |r| == |a| / 3
    ensures forall i :: 0 <= i < |r| ==> r[i] == Dot3(a, b, i)
  {
    if |a| < 3 then []
    else
      var rest := Dots(a[3..], b[3..]);
      assert forall i :: 0 <= i < |rest| ==> Dot3(a[3..], b[3..], i) == Dot3(a, b, i + 1);
      [Dot3(a, b, 0)] + rest
  }

  /** `dot_products`: empty unless both buffers have the same non-zero
      length that is a multiple of 3, else one dot product per chunk. */
  function DotProducts(a: seq<real>, b: seq<real>): (r: seq<real>)
    ensures |a| != |b| || |a| == 0 || |a| % 3 != 0 ==> r == []
    ensures |a| == |b| && |a| > 0 && |a| % 3 == 0 ==>
      |r| == |a| / 3 && forall i :: 0 <= i < |r| ==> r[i] == Dot3(a, b, i)
  {
    if |a| != |b| || |a| == 0 || |a| % 3 != 0 then [] else Dots(a, b)
  }

  /** Swapping the buffers gives the same dot products. */
  lemma DotProductsSymmetric(a: seq<real>, b: seq<real>)
    ensures DotProducts(a, b) == DotProducts(b, a)
  {
    if |a| == |b| && |a| > 0 && |a| % 3 == 0 {
      var r, q := DotProducts(a, b), DotProducts(b, a);
      assert forall i :: 0 <= i < |r| ==> r[i] == q[i];
    }
  }

  /** Element-wise `av * (1 - t) + bv * t` for a clamped `t`. */
  function Blend(a: seq<real>, b: seq<real>, t: real): (r: seq<real>)
    requires |a| == |b|
    ensures |r| == |a|
    ensures forall i :: 0 <= i < |r| ==> r[i] == a[i] * (1.0 - t) + b[i] * t
  {
    if |a| == 0 then [] else [a[0] * (1.0 - t) + b[0] * t] + Blend(a[1..], b[1..], t)
  }

  /** `lerp_vectors`: empty unless both buffers have the same non-zero length
      that is a multiple of 3, else the blend at `t` clamped to [0, 1]. */
  function LerpVectors(a: seq<real>, b: seq<real>, t: real): (r: seq<real>)
    ensures |a| != |b| || |a| == 0 || |a| % 3 != 0 ==> r == []
    ensures |a| == |b| && |a| > 0 && |a| % 3 == 0 ==>
      |r| == |a| && forall i :: 0 <= i < |r| ==> r[i] == a[i] * (1.0 - Clamp(t, 0.0, 1.0)) + b[i] * Clamp(t, 0.0, 1.0)
  {
    if |a| != |b| || |a| == 0 || |a| % 3 != 0 then [] else Blend(a, b, Clamp(t, 0.0, 1.0))
  }

  /** A blend weight in [0, 1] keeps the value between the two ends. */
  lemma BlendBetween(av: real, bv: real, c: real)
    requires 0.0 <= c <= 1.0
    ensures Min(av, bv) <= av * (1.0 - c) + bv * c <= Max(av, bv)
  {
    var r := av * (1.0 - c) + bv * c;
    assert r == av + (bv - av) * c;
    assert r == bv - (bv - av) * (1.0 - c);
    if av <= bv {
      MulNonneg(bv - av, c);
      MulNonneg(bv - av, 1.0 - c);
    } else {
      MulNonneg(av - bv, c);
      MulNonneg(av - bv, 1.0 - c);
    }
  }

  /** At or below 0 the blend is `a`, at or above 1 it is `b`, and every
      value lies between the two inputs. */
  lemma LerpVectorsEnds(a: seq<real>, b: seq<real>, t: real)
    requires |a| == |b| && |a| > 0 && |a| % 3 == 0
    ensures t <= 0.0 ==> LerpVectors(a, b, t) == a
    ensures t >= 1.0 ==> LerpVectors(a, b, t) == b
    ensures forall i :: 0 <= i < |a| ==>
      Min(a[i], b[i]) <= LerpVectors(a, b, t)[i] <= Max(a[i], b[i])
  {
    var r := LerpVectors(a, b, t);
    var c := Clamp(t, 0.0, 1.0);
    if t <= 0.0 {
      assert c == 0.0;
      assert forall i :: 0 <= i < |a| ==> r[i] == a[i];
    }
    if t >= 1.0 {
      assert c == 1.0;
      assert forall i :: 0 <= i < |a| ==> r[i] == b[i];
    }
    forall i | 0 <= i < |a|
      ensures Min(a[i], b[i]) <= r[i] <= Max(a[i], b[i])
    {
      BlendBetween(a[i], b[i], c);
    }
  }

  // ---------------------------------------------------------------------
  // Robot records

  /** Robot record `i` of a stride-7 buffer. */
  function RobotAt(buf: seq<real>, i: nat): RobotState
    requires 7 * i + 6 < |buf|
  {
    RobotState(buf[7 * i], buf[7 * i + 1], buf[7 * i + 2], buf[7 * i + 3],
               buf[7 * i + 4], buf[7 * i + 5], buf[7 * i + 6])
  }

  /** The seven values of a robot record in buffer order. */
  function EncodeRobot(r: RobotState): (v: seq<real>)
    ensures |v| == 7
  {
    [r.x, r.y, r.destX, r.destY, r.orientation, r.speed, r.lastMove]
  }

  /** Appending a record to `i` records keeps them and adds it as record `i`. */
  lemma RobotAtAppend(buf: seq<real>, i: nat, r: RobotState)
    requires |buf| == 7 * i
    ensures RobotAt(buf + EncodeRobot(r), i) == r
    ensures forall j :: 0 <= j < i ==> RobotAt(buf + EncodeRobot(r), j) == RobotAt(buf, j)
  {
  }

  /** Record `i` of `n == len / 7` records lies inside the buffer. */
  lemma RecordInBounds(i: nat, len: nat)
    requires i < len / 7
    ensures 7 * i + 6 < len
  {
  }

  /** Records `0 .. i - 1` of `output` are results of `update_single_robot`
      on the same records of `robots`, threading the random streams `gs`. */
  ghost predicate StepsUpTo(robots: seq<real>, products: seq<real>, cfg: StoreConfig, delta: real,
                            m: MathOracle, gs: seq<Rng>, output: seq<real>, i: nat)
  {
    7 * i <= |robots| && |output| == 7 * i && |gs| == i + 1 &&
    forall j :: 0 <= j < i ==>
      StepOutcome(RobotAt(robots, j), products, cfg, delta, m, gs[j], RobotAt(output, j), gs[j + 1])
  }

  /** Appending the result for record `i` extends `StepsUpTo` by one record. */
  lemma StepsExtend(robots: seq<real>, products: seq<real>, cfg: StoreConfig, delta: real,
                    m: MathOracle, gs: seq<Rng>, output: seq<real>, i: nat, r: RobotState, g: Rng)
    requires StepsUpTo(robots, products, cfg, delta, m, gs, output, i) && 7 * i + 6 < |robots|
    requires StepOutcome(RobotAt(robots, i), products, cfg, delta, m, gs[i], r, g)
    ensures StepsUpTo(robots, products, cfg, delta, m, gs + [g], output + EncodeRobot(r), i + 1)
  {
    var out' := output + EncodeRobot(r);
    var gs' := gs + [g];
    RobotAtAppend(output, i, r);
    forall j | 0 <= j < i + 1
      ensures StepOutcome(RobotAt(robots, j), products, cfg, delta, m, gs'[j], RobotAt(out', j), gs'[j + 1])
    {
      assert gs'[j] == gs[j];
      if j < i {
        assert RobotAt(out', j) == RobotAt(output, j) && gs'[j + 1] == gs[j + 1];
      } else {
        assert RobotAt(out', j) == r && gs'[j + 1] == g;
      }
    }
  }

  /** `if delta_ms > 0.0 { delta_ms } else { UPDATE_INTERVAL_DEFAULT }`. */
  function EffectiveDelta(deltaMs: real): (d: real)
    ensures d > 0.0
    ensures deltaMs > 0.0 ==> d == deltaMs
    ensures deltaMs <= 0.0 ==> d == UPDATE_INTERVAL_DEFAULT
  {
    if deltaMs > 0.0 then deltaMs else UPDATE_INTERVAL_DEFAULT
  }

  /** `update_robots`: empty when the robot buffer is not a whole number of
      7-value records; otherwise record `i` of the output is a result of
      `update_single_robot` on record `i` of the input, with the layout
      decoded from `config`, the effective delta and the random stream as
      left by the records before it. */
  method UpdateRobots(robots: seq<real>, products: seq<real>, config: seq<real>, deltaMs: real,
                      m: MathOracle, g0: Rng)
    returns (output: seq<real>, g: Rng, ghost gs: seq<Rng>)
    ensures |robots| % 7 != 0 ==> output == [] && g == g0
    ensures |robots| % 7 == 0 ==>
      |output| == |robots| && |gs| == |robots| / 7 + 1 && gs[0] == g0 && g == gs[|robots| / 7] &&
      forall i :: 0 <= i < |robots| / 7 ==>
        StepOutcome(RobotAt(robots, i), products, FromBuffer(config), EffectiveDelta(deltaMs), m,
                    gs[i], RobotAt(output, i), gs[i + 1])
  {
    g, gs := g0, [g0];
    if |robots| % 7 != 0 {
      return [], g, gs;
    }
    var cfg := FromBuffer(config);
    var delta := EffectiveDelta(deltaMs);
    output := [];
    var n := |robots| / 7;
    var i := 0;
    while i < n
      invariant 0 <= i <= n
      invariant StepsUpTo(robots, products, cfg, delta, m, gs, output, i) && gs[0] == g0 && g == gs[i]
    {
      RecordInBounds(i, |robots|);
      var chunk := RobotAt(robots, i);
      var result, g';
      ghost var aim, cand, outcome;
      result, g', aim, cand, outcome := UpdateSingleRobot(chunk, products, cfg, delta, m, g);
      assert StepOutcome(chunk, products, cfg, delta, m, g, result, g');
      StepsExtend(robots, products, cfg, delta, m, gs, output, i, result, g');
      output := output + EncodeRobot(result);
      gs := gs + [g'];
      g := g';
      i := i + 1;
    }
  }

  // ---------------------------------------------------------------------
  // Paths

  /** `flat_map(|(x, y)| vec![x, y])`. */
  function Flatten(path: seq<(real, real)>): (r: seq<real>)
    ensures |r| == 2 * |path|
    ensures forall i :: 0 <= i < |path| ==> r[2 * i] == path[i].0 && r[2 * i + 1] == path[i].1
  {
    if |path| == 0 then []
    else
      var rest := Flatten(path[1..]);
      [path[0].0, path[0].1] + rest
  }

  /** Twice a length is even. */
  lemma DoubleIsEven(n: nat)
    ensures (2 * n) % 2 == 0
  {
  }

  /** What a path request may return: the outer-walkway route when asked
      for, else the plain `find_path` result. */
  ghost predicate PathOutcome(m: MathOracle, start: (real, real), end: (real, real), cfg: StoreConfig,
                              preferOuter: bool, path: seq<(real, real)>)
  {
    if preferOuter then
      exists top, bottom ::
        RouteOutcome(start, end, cfg.storeHeight / 2.0 - cfg.outerWalkwayOffset, cfg, top) &&
        RouteOutcome(start, end, -cfg.storeHeight / 2.0 + cfg.outerWalkwayOffset, cfg, bottom) &&
        (path == top || path == bottom) &&
        (PathDistance(m, top) <= PathDistance(m, bottom) ==> path == top) &&
        (PathDistance(m, bottom) < PathDistance(m, top) ==> path == bottom)
    else FindPathOutcome(start, end, cfg, path)
  }

  /** `compute_path`: empty when either point has fewer than two values;
      otherwise the route as flattened `(x, y)` pairs, so of even length. */
  method ComputePath(start: seq<real>, end: seq<real>, config: seq<real>, preferOuter: bool, m: MathOracle)
    returns (out: seq<real>, ghost path: seq<(real, real)>)
    requires NavGridBuildable(FromBuffer(config))
    ensures |start| < 2 || |end| < 2 ==> out == []
    ensures |start| >= 2 && |end| >= 2 ==>
      |out| % 2 == 0 && |out| >= 2 && out == Flatten(path) &&
      PathOutcome(m, (start[0], start[1]), (end[0], end[1]), FromBuffer(config), preferOuter, path)
  {
    path := [];
    if |start| < 2 || |end| < 2 {
      return [], path;
    }
    var cfg := FromBuffer(config);
    var startPt := (start[0], start[1]);
    var endPt := (end[0], end[1]);
    var route;
    if preferOuter {
      ghost var top, bottom;
      route, top, bottom := ComputePathWithOuterWalkway(m, startPt, endPt, cfg);
      assert PathDistance(m, bottom) < PathDistance(m, top) ==> route == bottom;
      assert PathOutcome(m, startPt, endPt, cfg, true, route);
    } else {
      ghost var found, cells;
      route, found, cells := FindPath(startPt, endPt, cfg);
      assert FindPathPost(startPt, endPt, cfg, route, found, cells);
      FindPathNonEmpty(startPt, endPt, cfg, route);
    }
    path := route;
    out := Flatten(route);
    DoubleIsEven(|route|);
  }

  // ---------------------------------------------------------------------
  // Waypoints

  /** `move_robot_to_waypoint`: empty for fewer than 10 values, else
      `move_to_waypoint` on x, y, orientation, speed, the waypoint and the
      delta (indices 0, 1, 4, 5, 7, 8, 9) as three values. */
  function MoveRobotToWaypoint(m: MathOracle, data: seq<real>): (r: seq<real>)
    ensures |data| < 10 ==> r == []
    ensures |data| >= 10 ==> |r| == 3
  {
    if |data| < 10 then []
    else
      var res := MoveToWaypoint(m, data[0], data[1], data[4], data[5], data[7], data[8], data[9]);
      [res.0, res.1, res.2]
  }

  /** Only indices 0, 1, 4, 5, 7, 8 and 9 are read: two buffers that agree
      there give the same result. */
  lemma MoveRobotToWaypointReads(m: MathOracle, a: seq<real>, b: seq<real>)
    requires |a| >= 10 && |b| >= 10
    requires a[0] == b[0] && a[1] == b[1] && a[4] == b[4] && a[5] == b[5]
    requires a[7] == b[7] && a[8] == b[8] && a[9] == b[9]
    ensures MoveRobotToWaypoint(m, a) == MoveRobotToWaypoint(m, b)
  {
  }

  /** The three values are the `move_to_waypoint` step: at the waypoint the
      robot stays put, otherwise it moves along its heading. */
  lemma MoveRobotToWaypointIsStep(m: MathOracle, data: seq<real>)
    requires |data| >= 10
    ensures var r := MoveRobotToWaypoint(m, data);
      var res := MoveToWaypoint(m, data[0], data[1], data[4], data[5], data[7], data[8], data[9]);
      r[0] == res.0 && r[1] == res.1 && r[2] == res.2
  {
  }

  /** `has_arrived_at_waypoint`: 0 for fewer than four values, else 1 when
      `check_arrival` holds and 0 when not. */
  function HasArrivedAtWaypoint(positions: seq<real>): (r: real)
    ensures |positions| < 4 ==> r == 0.0
    ensures |positions| >= 4 ==>
      (r == 1.0 <==> CheckArrival(positions[0], positions[1], positions[2], positions[3]))
    ensures r == 0.0 || r == 1.0
  {
    if |positions| < 4 then 0.0
    else if CheckArrival(positions[0], positions[1], positions[2], positions[3]) then 1.0
    else 0.0
  }
}
