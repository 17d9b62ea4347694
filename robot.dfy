/** One robot's motion (wasm/src/robot.rs): snapping a robot back onto the
    walkway, drawing a random destination, testing the products for a
    collision, the per-tick autopilot step, and the waypoint moves used by
    commanded robots. */
module RobotMotion {
  import opened Wrappers
  import opened Numeric
  import opened Constants
  import opened Geometry
  import opened Grid
  import opened Search

  // ---------------------------------------------------------------------
  // Planar helpers

  lemma SameFactor(a: real, b: real, k: real)
    requires a == b
    ensures a * k == b * k
  {
  }

  /** Squared distance between two points. */
  function DistSq(px: real, py: real, qx: real, qy: real): (d: real)
    ensures d >= 0.0
  {
    (px - qx) * (px - qx) + (py - qy) * (py - qy)
  }

  function Dot(ux: real, uy: real, vx: real, vy: real): real {
    ux * vx + uy * vy
  }

  /** With an exact square root, comparing the root with `c` is comparing
      the square with `c * c`. */
  lemma SqrtCompare(m: MathOracle, v: real, c: real)
    requires ExactSqrtAt(m, v) && c >= 0.0
    ensures m.sqrt(v) < c <==> v < c * c
    ensures m.sqrt(v) <= c <==> v <= c * c
  {
    var s := m.sqrt(v);
    SquareMonotone(s, c);
    SquareMonotone(c, s);
  }

  // ---------------------------------------------------------------------
  // Snapping back onto the walkway

  /** The index in `[0, n)` (0 when `n <= 1`) kept by a running minimum of
      `|x - centre(i)|` over `i = 0, 1, ...` that only moves on a strict `<`. */
  function NearestIndex(x: real, centre: int -> real, n: int): (r: int)
    ensures 0 <= r < MaxInt(n, 1)
    decreases n
  {
    if n <= 1 then 0
    else
      var b := NearestIndex(x, centre, n - 1);
      if Abs(x - centre(n - 1)) < Abs(x - centre(b)) then n - 1 else b
  }

  /** Centre `k` of the first `n` (index 0 when `n <= 1`) is closest to
      `x`, and strictly closer than every centre before it. */
  ghost predicate NearestAt(x: real, centre: int -> real, n: int, k: int) {
    0 <= k < MaxInt(n, 1) &&
    (forall j :: 0 <= j < n ==> Abs(x - centre(k)) <= Abs(x - centre(j))) &&
    (forall j :: 0 <= j < k ==> Abs(x - centre(k)) < Abs(x - centre(j)))
  }

  /** The running minimum finds the centre closest to `x`, and the lowest
      such index when several are equally close. */
  lemma {:induction false} NearestIndexIsNearest(x: real, centre: int -> real, n: int)
    ensures NearestAt(x, centre, n, NearestIndex(x, centre, n))
    decreases n
  {
    if n > 1 {
      NearestIndexIsNearest(x, centre, n - 1);
    }
  }

  /** The loop of `find_nearest_valid_position`: start from centre 0 and
      keep a centre only when it is strictly closer than the best so far. */
  method RunningNearest(x: real, centre: int -> real, n: int) returns (best: int, nearest: real)
    ensures best == NearestIndex(x, centre, n) && nearest == centre(best)
  {
    nearest := centre(0);
    var minDist := Abs(x - nearest);
    best := 0;
    var k := 1;
    while k < n
      invariant 1 <= k <= MaxInt(n, 1)
      invariant best == NearestIndex(x, centre, k)
      invariant nearest == centre(best) && minDist == Abs(x - nearest)
    {
      var candidate := centre(k);
      var dist := Abs(x - candidate);
      if dist < minDist {
        minDist := dist;
        nearest := candidate;
        best := k;
      }
      k := k + 1;
    }
  }

  /** The row centres, `get_row_center(k)`. */
  function RowCenters(cfg: StoreConfig): int -> real {
    k => cfg.RowCenter(k)
  }

  /** The midpoints of the cross-row gaps. */
  function GapCenters(cfg: StoreConfig): int -> real {
    k => GapMid(cfg, k)
  }

  /** y clamped to 10 units inside the store's long edges. */
  function SnapY(y: real, cfg: StoreConfig): real {
    Clamp(y, -cfg.storeHeight / 2.0 + 10.0, cfg.storeHeight / 2.0 - 10.0)
  }

  /** Where `find_nearest_valid_position` puts a robot, as written: x moves
      to the nearest shelving-ROW centre. */
  function NearestValidPosition(x: real, y: real, cfg: StoreConfig): (real, real) {
    (cfg.RowCenter(NearestIndex(x, RowCenters(cfg), cfg.rowCount)), SnapY(y, cfg))
  }

  /** The as-written snap: x becomes the centre of the row closest to x
      (lowest row on a tie) and y is clamped into the store. */
  lemma NearestValidPositionIsNearestRow(x: real, y: real, cfg: StoreConfig)
    ensures var p := NearestValidPosition(x, y, cfg);
      (exists k :: NearestAt(x, RowCenters(cfg), cfg.rowCount, k) && p.0 == cfg.RowCenter(k)) &&
      (cfg.storeHeight >= 20.0 ==> -cfg.storeHeight / 2.0 + 10.0 <= p.1 <= cfg.storeHeight / 2.0 - 10.0)
  {
    var k := NearestIndex(x, RowCenters(cfg), cfg.rowCount);
    NearestIndexIsNearest(x, RowCenters(cfg), cfg.rowCount);
    assert NearestAt(x, RowCenters(cfg), cfg.rowCount, k) && NearestValidPosition(x, y, cfg).0 == cfg.RowCenter(k);
  }

  /** `find_nearest_valid_position` as written: a running minimum over the
      row centres. */
  method FindNearestValidPosition(x: real, y: real, cfg: StoreConfig) returns (nx: real, ny: real)
    ensures (nx, ny) == NearestValidPosition(x, y, cfg)
  {
    var best;
    best, nx := RunningNearest(x, RowCenters(cfg), cfg.rowCount);
    ny := SnapY(y, cfg);
  }

  /** A row centre is the middle of a shelving unit, so the as-written snap
      can leave a robot off the walkway: in the default layout the point
      (-105, 0) is on row 0, off the walkway, and snaps to itself, so the
      recovery step keeps the robot there on every tick. */
  lemma NearestValidPositionCanStayOffWalkway()
    ensures !InRowWalkway(-105.0, 0.0, DEFAULT_CONFIG)
    ensures NearestValidPosition(-105.0, 0.0, DEFAULT_CONFIG) == (-105.0, 0.0)
  {
    FirstRowCentreOffWalkway();
    FirstRowCentreSnapsToItself();
  }

  lemma FirstRowCentreOffWalkway()
    ensures !InRowWalkway(-105.0, 0.0, DEFAULT_CONFIG)
  {
    var cfg := DEFAULT_CONFIG;
    InRowWalkwayIff(-105.0, 0.0, cfg);
    forall g | 0 <= g < cfg.rowCount - 1
      ensures !InCrossRowGap(-105.0, 0.0, cfg, g)
    {
      assert GapMid(cfg, g) == -85.0 + 40.0 * (g as real);
    }
  }

  lemma FirstRowCentreSnapsToItself()
    ensures NearestValidPosition(-105.0, 0.0, DEFAULT_CONFIG) == (-105.0, 0.0)
  {
    var f := RowCenters(DEFAULT_CONFIG);
    var k := NearestIndex(-105.0, f, 6);
    NearestIndexIsNearest(-105.0, f, 6);
    assert f(0) == -105.0;
    if k > 0 {
      assert false;
    }
  }

  /** Layouts with at least one cross-row gap of positive width, tall
      enough for the y clamp to be a proper interval. */
  predicate HasCrossGaps(cfg: StoreConfig) {
    cfg.rowCount >= 2 && CrossRowWidth(cfg) > 0.0 && cfg.storeHeight >= 20.0
  }

  lemma DefaultHasCrossGaps()
    ensures HasCrossGaps(DEFAULT_CONFIG)
  {
  }

  /** The intended snap: x moves to the nearest cross-row GAP centre. */
  function NearestGapPosition(x: real, y: real, cfg: StoreConfig): (real, real) {
    (GapMid(cfg, NearestIndex(x, GapCenters(cfg), cfg.rowCount - 1)), SnapY(y, cfg))
  }

  /** The corrected snap always lands on the walkway of a layout with gaps. */
  lemma NearestGapPositionOnWalkway(x: real, y: real, cfg: StoreConfig)
    requires HasCrossGaps(cfg)
    ensures var p := NearestGapPosition(x, y, cfg); InRowWalkway(p.0, p.1, cfg)
  {
    var k := NearestIndex(x, GapCenters(cfg), cfg.rowCount - 1);
    var p := NearestGapPosition(x, y, cfg);
    assert p.0 == GapMid(cfg, k);
    assert InCrossRowGap(p.0, p.1, cfg, k);
    InRowWalkwayIff(p.0, p.1, cfg);
  }

  /** The corrected snap picks the gap closest to x, lowest gap on a tie. */
  lemma NearestGapPositionIsNearestGap(x: real, y: real, cfg: StoreConfig)
    ensures var p := NearestGapPosition(x, y, cfg);
      exists k :: NearestAt(x, GapCenters(cfg), cfg.rowCount - 1, k) && p.0 == GapMid(cfg, k)
  {
    var k := NearestIndex(x, GapCenters(cfg), cfg.rowCount - 1);
    NearestIndexIsNearest(x, GapCenters(cfg), cfg.rowCount - 1);
    assert NearestAt(x, GapCenters(cfg), cfg.rowCount - 1, k) && NearestGapPosition(x, y, cfg).0 == GapMid(cfg, k);
  }

  /** The corrected `find_nearest_valid_position`: the same running
      minimum, over the gap centres. */
  method FindNearestGapPosition(x: real, y: real, cfg: StoreConfig) returns (nx: real, ny: real)
    ensures (nx, ny) == NearestGapPosition(x, y, cfg)
  {
    var best;
    best, nx := RunningNearest(x, GapCenters(cfg), cfg.rowCount - 1);
    ny := SnapY(y, cfg);
  }

  // ---------------------------------------------------------------------
  // Random destinations

  /** `(r * row_count as f32).floor() as i32`. */
  function RowDraw(r: real, cfg: StoreConfig): int {
    SaturateI32(Floor(r * (cfg.rowCount as real)))
  }

  lemma RowDrawInRange(r: real, cfg: StoreConfig)
    requires 0.0 <= r < 1.0 && cfg.rowCount >= 1
    ensures 0 <= RowDraw(r, cfg) < cfg.rowCount
  {
    var n := cfg.rowCount as real;
    MulNonneg(r, n);
    MulPos(1.0 - r, n);
    assert n - r * n == (1.0 - r) * n;
    var f := Floor(r * n);
    assert 0 <= f < cfg.rowCount;
  }

  lemma ScaledDrawBounds(r: real, span: real)
    requires 0.0 <= r < 1.0 && span >= 0.0
    ensures 0.0 <= r * span <= span
    ensures Abs(r * span - span / 2.0) <= span / 2.0
  {
    MulNonneg(r, span);
    MulNonneg(1.0 - r, span);
    assert span - r * span == (1.0 - r) * span;
  }

  lemma UnitDrawAt(g: Rng, i: nat)
    requires UnitDraws(g) && i >= g.next
    ensures 0.0 <= g.draw(i) < 1.0
  {
  }

  /** How many attempts `get_valid_destination` makes before its fallback. */
  const DESTINATION_ATTEMPTS: nat := 50

  /** The layouts for which every drawn row is a row and every drawn y lies
      inside the store: at least one row, and at least 30 units tall. */
  predicate Drawable(cfg: StoreConfig) {
    cfg.rowCount >= 1 && cfg.storeHeight >= 30.0
  }

  /** A destination `get_valid_destination` can return: a walkway point, or
      the centre of a row at most `(storeHeight - 30) / 2` from the middle. */
  ghost predicate RowDestination(x: real, y: real, cfg: StoreConfig) {
    InRowWalkway(x, y, cfg) ||
    exists k :: 0 <= k < cfg.rowCount && x == cfg.RowCenter(k) &&
      Abs(y) <= (cfg.storeHeight - 30.0) / 2.0
  }

  /** A destination as the draws determine it: the point, the index of the
      first draw not used, and the row whose centre was taken (`None` for a
      walkway point). */
  datatype Destination = Destination(x: real, y: real, next: nat, row: Option<int>)

  /** The row attempt for the draws `r1` and `r2`: the centre of row
      `floor(r1 * rowCount)`, at `r2` of the way down a span 30 shorter
      than the store. */
  function RowPick(r1: real, r2: real, cfg: StoreConfig): (real, real) {
    var span := cfg.storeHeight - 30.0;
    (cfg.RowCenter(RowDraw(r1, cfg)), r2 * span - span / 2.0)
  }

  /** The point of the store at `r1` of its width and `r2` of its height. */
  function StorePoint(r1: real, r2: real, cfg: StoreConfig): (real, real) {
    (r1 * cfg.storeWidth - cfg.storeWidth / 2.0, r2 * cfg.storeHeight - cfg.storeHeight / 2.0)
  }

  /** One attempt of `get_valid_destination` on the three draws from index
      `i`: when the first is over 0.2, the drawn row at the drawn y;
      otherwise the drawn point of the store when it is on the walkway, and
      nothing when it is not. */
  function Attempt(cfg: StoreConfig, draw: nat -> real, i: nat): Option<Destination> {
    if draw(i) > 0.2 then
      var p := RowPick(draw(i + 1), draw(i + 2), cfg);
      Some(Destination(p.0, p.1, i + 3, Some(RowDraw(draw(i + 1), cfg))))
    else
      var p := StorePoint(draw(i + 1), draw(i + 2), cfg);
      if InRowWalkway(p.0, p.1, cfg) then Some(Destination(p.0, p.1, i + 3, None)) else None
  }

  /** What `get_valid_destination` returns when its draws start at index
      `i` of `draw` and `left` of its 50 attempts remain: the first attempt
      that gives a destination, or with no attempt left the drawn row at
      y = 0. */
  function DestinationFrom(cfg: StoreConfig, draw: nat -> real, i: nat, left: nat): Destination
    decreases left
  {
    if left == 0 then
      var rowNum := RowDraw(draw(i), cfg);
      Destination(cfg.RowCenter(rowNum), 0.0, i + 1, Some(rowNum))
    else
      var a := Attempt(cfg, draw, i);
      if a.Some? then a.value else DestinationFrom(cfg, draw, i + 3, left - 1)
  }

  /** The destination of a call to `get_valid_destination` on stream `g`. */
  function ValidDestination(cfg: StoreConfig, g: Rng): Destination {
    DestinationFrom(cfg, g.draw, g.next, DESTINATION_ATTEMPTS)
  }

  /** A destination drawn from index `i` of `draw` is of a kind the source
      can return: a walkway pick is on the walkway, a row pick is that row's
      centre, and with unit draws on a drawable layout the row exists and
      the point is a `RowDestination`. */
  ghost predicate DestinationSound(d: Destination, cfg: StoreConfig, draw: nat -> real, i: nat) {
    (d.row.None? ==> InRowWalkway(d.x, d.y, cfg)) &&
    (d.row.Some? ==> d.x == cfg.RowCenter(d.row.value)) &&
    (UnitDraws(Rng(draw, i)) && Drawable(cfg) ==>
      RowDestination(d.x, d.y, cfg) && (d.row.Some? ==> 0 <= d.row.value < cfg.rowCount))
  }

  /** A row pick of `draw(i)` and `draw(i + 1)` lies in the layout. */
  lemma RowPickSound(cfg: StoreConfig, draw: nat -> real, i: nat)
    requires UnitDraws(Rng(draw, i)) && Drawable(cfg)
    ensures 0 <= RowDraw(draw(i), cfg) < cfg.rowCount
    ensures var span := cfg.storeHeight - 30.0; Abs(draw(i + 1) * span - span / 2.0) <= span / 2.0
  {
    UnitDrawAt(Rng(draw, i), i);
    UnitDrawAt(Rng(draw, i), i + 1);
    RowDrawInRange(draw(i), cfg);
    ScaledDrawBounds(draw(i + 1), cfg.storeHeight - 30.0);
  }

  lemma UnitDrawsLater(draw: nat -> real, i: nat, j: nat)
    requires UnitDraws(Rng(draw, i)) && i <= j
    ensures UnitDraws(Rng(draw, j))
  {
  }

  /** A destination one attempt gives is sound and uses three draws. */
  lemma AttemptSound(cfg: StoreConfig, draw: nat -> real, i: nat)
    ensures var a := Attempt(cfg, draw, i);
      a.Some? ==> a.value.next == i + 3 && DestinationSound(a.value, cfg, draw, i)
  {
    var a := Attempt(cfg, draw, i);
    if draw(i) > 0.2 {
      var k := RowDraw(draw(i + 1), cfg);
      var span := cfg.storeHeight - 30.0;
      assert a.value.x == cfg.RowCenter(k) && a.value.y == draw(i + 2) * span - span / 2.0;
      if UnitDraws(Rng(draw, i)) && Drawable(cfg) {
        UnitDrawsLater(draw, i, i + 1);
        RowPickSound(cfg, draw, i + 1);
        assert 0 <= k < cfg.rowCount && Abs(a.value.y) <= span / 2.0;
        assert RowDestination(a.value.x, a.value.y, cfg);
      }
    } else if a.Some? {
      assert a.value.row.None? && InRowWalkway(a.value.x, a.value.y, cfg);
    }
  }

  /** The destination uses between one and `3 * left + 1` draws and is sound. */
  lemma {:induction false} DestinationFromKinds(cfg: StoreConfig, draw: nat -> real, i: nat, left: nat)
    ensures var d := DestinationFrom(cfg, draw, i, left);
      i < d.next <= i + 3 * left + 1 && DestinationSound(d, cfg, draw, i)
    decreases left
  {
    if left == 0 {
      if UnitDraws(Rng(draw, i)) && Drawable(cfg) {
        RowPickSound(cfg, draw, i);
      }
    } else if Attempt(cfg, draw, i).Some? {
      AttemptSound(cfg, draw, i);
    } else {
      DestinationFromKinds(cfg, draw, i + 3, left - 1);
      if UnitDraws(Rng(draw, i)) {
        UnitDrawsLater(draw, i, i + 3);
      }
    }
  }


  /** The first attempt decides the destination unless it draws a point
      off the walkway. */
  lemma ValidDestinationFirstAttempt(cfg: StoreConfig, g: Rng)
    ensures var d := ValidDestination(cfg, g);
      g.draw(g.next) > 0.2 ==>
        (d.x, d.y) == RowPick(g.draw(g.next + 1), g.draw(g.next + 2), cfg) && d.next == g.next + 3
    ensures var d := ValidDestination(cfg, g);
      var p := StorePoint(g.draw(g.next + 1), g.draw(g.next + 2), cfg);
      g.draw(g.next) <= 0.2 && InRowWalkway(p.0, p.1, cfg) ==> (d.x, d.y) == p && d.next == g.next + 3
  {
    assert DESTINATION_ATTEMPTS > 0;
  }

  /** One pass of the loop of `get_valid_destination`: three draws, and
      the destination `Attempt` gives for them, if any. */
  method TryDestination(cfg: StoreConfig, g0: Rng) returns (found: bool, x: real, y: real, g: Rng)
    ensures g.draw == g0.draw && g.next == g0.next + 3
    ensures var a := Attempt(cfg, g0.draw, g0.next);
      (found <==> a.Some?) && (found ==> x == a.value.x && y == a.value.y)
  {
    var pick := Random(g0);
    var r1 := Random(pick.1);
    var r2 := Random(r1.1);
    g := r2.1;
    if pick.0 > 0.2 {
      var p := RowPick(r1.0, r2.0, cfg);
      return true, p.0, p.1, g;
    }
    var p := StorePoint(r1.0, r2.0, cfg);
    found, x, y := InRowWalkway(p.0, p.1, cfg), p.0, p.1;
  }

  /** `get_valid_destination`, taking its draws from the stream `g0`: the
      result is `ValidDestination(cfg, g0)` (see `ValidDestinationFirstAttempt`),
      and at most 151 draws are used. */
  method GetValidDestination(cfg: StoreConfig, g0: Rng) returns (x: real, y: real, g: Rng)
    ensures g.draw == g0.draw
    ensures var d := ValidDestination(cfg, g0); x == d.x && y == d.y && g.next == d.next
    ensures g0.next < g.next <= g0.next + 151
    ensures UnitDraws(g0) && Drawable(cfg) ==> RowDestination(x, y, cfg)
  {
    DestinationFromKinds(cfg, g0.draw, g0.next, DESTINATION_ATTEMPTS);
    g := g0;
    var attempt := 0;
    while attempt < DESTINATION_ATTEMPTS
      invariant 0 <= attempt <= DESTINATION_ATTEMPTS
      invariant g.draw == g0.draw && g.next == g0.next + 3 * attempt
      invariant DestinationFrom(cfg, g.draw, g.next, DESTINATION_ATTEMPTS - attempt) == ValidDestination(cfg, g0)
    {
      var found, px, py, g' := TryDestination(cfg, g);
      if found {
        return px, py, g';
      }
      g := g';
      attempt := attempt + 1;
    }
    var last := Random(g);
    g := last.1;
    x, y := cfg.RowCenter(RowDraw(last.0, cfg)), 0.0;
  }


  // ---------------------------------------------------------------------
  // Collision with products

  lemma PairInBounds(j: nat, n: nat)
    requires j < n / 2
    ensures 2 * j + 1 < n
  {
  }

  /** Product `j` of the flat `[x0, y0, x1, y1, ...]` buffer. Only whole
      pairs count: `chunks_exact(2)` drops a trailing odd value. */
  function PairAt(products: seq<real>, j: nat): (real, real)
    requires j < |products| / 2
  {
    PairInBounds(j, |products|);
    (products[2 * j], products[2 * j + 1])
  }

  /** Product `j` is strictly closer than the collision radius to the point. */
  predicate PointHit(x: real, y: real, products: seq<real>, j: nat) {
    j < |products| / 2 &&
    var p := PairAt(products, j);
    DistSq(x, y, p.0, p.1) < COLLISION_RADIUS * COLLISION_RADIUS
  }

  /** `check_product_collision`: the first product, in buffer order, whose
      distance to the point is below the collision radius. */
  function CheckProductCollision(x: real, y: real, products: seq<real>): (r: Option<(real, real)>)
    ensures r.None? <==> forall j :: 0 <= j < |products| / 2 ==> !PointHit(x, y, products, j)
    ensures r.Some? ==>
      exists j :: 0 <= j < |products| / 2 && PointHit(x, y, products, j) && r.value == PairAt(products, j) &&
        forall k :: 0 <= k < j ==> !PointHit(x, y, products, k)
  {
    var hit := (j: nat) => PointHit(x, y, products, j);
    assert forall j: nat :: hit(j) == PointHit(x, y, products, j);
    match FirstIndex(hit, 0, |products| / 2)
    case None => None
    case Some(j) => Some(PairAt(products, j))
  }

  /** The squared test is the source's `sqrt(d2) < 3.0` when the root is exact. */
  lemma PointHitIsDistanceTest(m: MathOracle, x: real, y: real, products: seq<real>, j: nat)
    requires j < |products| / 2
    requires ExactSqrtAt(m, DistSq(x, y, PairAt(products, j).0, PairAt(products, j).1))
    ensures PointHit(x, y, products, j) <==>
      m.sqrt(DistSq(x, y, PairAt(products, j).0, PairAt(products, j).1)) < COLLISION_RADIUS
  {
    SqrtCompare(m, DistSq(x, y, PairAt(products, j).0, PairAt(products, j).1), COLLISION_RADIUS);
  }

  /** The projection parameter of `(px, py)` on the segment, clamped into
      [0, 1]; a segment whose squared length is at most 0.0001 uses 0. */
  function SegmentParam(x1: real, y1: real, x2: real, y2: real, px: real, py: real): (t: real)
    ensures 0.0 <= t <= 1.0
  {
    var len := DistSq(x2, y2, x1, y1);
    var t := if len > 0.0001 then ((px - x1) * (x2 - x1) + (py - y1) * (y2 - y1)) / len else 0.0;
    Clamp(t, 0.0, 1.0)
  }

  function SegmentPoint(x1: real, y1: real, x2: real, y2: real, t: real): (real, real) {
    (x1 + (x2 - x1) * t, y1 + (y2 - y1) * t)
  }

  /** The point `(px, py)` is within the collision radius of the closest
      point of the segment. */
  predicate SegmentNear(x1: real, y1: real, x2: real, y2: real, px: real, py: real) {
    var c := SegmentPoint(x1, y1, x2, y2, SegmentParam(x1, y1, x2, y2, px, py));
    DistSq(c.0, c.1, px, py) < COLLISION_RADIUS * COLLISION_RADIUS
  }

  /** Product `j` is within the collision radius of the swept segment. */
  predicate SegmentHit(x1: real, y1: real, x2: real, y2: real, products: seq<real>, j: nat) {
    j < |products| / 2 &&
    var p := PairAt(products, j);
    SegmentNear(x1, y1, x2, y2, p.0, p.1)
  }

  /** `check_product_collision_along_segment`: the first product, in buffer
      order, that the swept segment comes within the collision radius of. */
  function CheckProductCollisionAlongSegment(x1: real, y1: real, x2: real, y2: real, products: seq<real>)
    : (r: Option<(real, real)>)
    ensures r.None? <==> forall j :: 0 <= j < |products| / 2 ==> !SegmentHit(x1, y1, x2, y2, products, j)
    ensures r.Some? ==>
      exists j :: 0 <= j < |products| / 2 && SegmentHit(x1, y1, x2, y2, products, j) &&
        r.value == PairAt(products, j) &&
        forall k :: 0 <= k < j ==> !SegmentHit(x1, y1, x2, y2, products, k)
  {
    var hit := (j: nat) => SegmentHit(x1, y1, x2, y2, products, j);
    assert forall j: nat :: hit(j) == SegmentHit(x1, y1, x2, y2, products, j);
    match FirstIndex(hit, 0, |products| / 2)
    case None => None
    case Some(j) => Some(PairAt(products, j))
  }

  /** A degenerate segment tests only its start point, so the sweep gives
      exactly the point test at the start. */
  lemma DegenerateSegmentIsPointTest(x1: real, y1: real, x2: real, y2: real, products: seq<real>)
    requires DistSq(x2, y2, x1, y1) <= 0.0001
    ensures CheckProductCollisionAlongSegment(x1, y1, x2, y2, products) == CheckProductCollision(x1, y1, products)
  {
    forall j: nat | j < |products| / 2
      ensures SegmentHit(x1, y1, x2, y2, products, j) <==> PointHit(x1, y1, products, j)
    {
      var p := PairAt(products, j);
      assert SegmentParam(x1, y1, x2, y2, p.0, p.1) == 0.0;
    }
    var a := CheckProductCollisionAlongSegment(x1, y1, x2, y2, products);
    var b := CheckProductCollision(x1, y1, products);
    if a.Some? && b.Some? {
      var ja :| 0 <= ja < |products| / 2 && SegmentHit(x1, y1, x2, y2, products, ja) &&
        a.value == PairAt(products, ja) &&
        forall k :: 0 <= k < ja ==> !SegmentHit(x1, y1, x2, y2, products, k);
      var jb :| 0 <= jb < |products| / 2 && PointHit(x1, y1, products, jb) &&
        b.value == PairAt(products, jb) &&
        forall k :: 0 <= k < jb ==> !PointHit(x1, y1, products, k);
      if ja < jb {
        assert false;
      } else if jb < ja {
        assert false;
      }
    }
  }

  // ---------------------------------------------------------------------
  // Vectors used by the step

  /** `(v / max(|v|, 0.0001))`: the direction of `v`, guarded against a
      zero length. */
  function Unit(m: MathOracle, vx: real, vy: real): (real, real) {
    var len := Max(m.sqrt(vx * vx + vy * vy), 0.0001);
    (vx / len, vy / len)
  }

  /** The collision normal, from the product `(px, py)` to the point `(ax, ay)`. */
  function Normal(m: MathOracle, ax: real, ay: real, px: real, py: real): (real, real) {
    Unit(m, ax - px, ay - py)
  }

  /** With an exact root and a length of at least 0.0001, `Unit` has length 1. */
  lemma UnitIsUnit(m: MathOracle, vx: real, vy: real)
    requires ExactSqrtAt(m, vx * vx + vy * vy) && m.sqrt(vx * vx + vy * vy) >= 0.0001
    ensures var u := Unit(m, vx, vy); u.0 * u.0 + u.1 * u.1 == 1.0
  {
    var len := m.sqrt(vx * vx + vy * vy);
    var u := Unit(m, vx, vy);
    assert u.0 == vx / len && u.1 == vy / len;
    UnitLength(vx, vy, len);
    calc {
      u.0 * u.0 + u.1 * u.1;
      (vx / len) * (vx / len) + u.1 * u.1;
      (vx / len) * (vx / len) + (vy / len) * (vy / len);
      1.0;
    }
  }

  /** `v - 2 (v . n) n`. */
  function Reflect(vx: real, vy: real, nx: real, ny: real): (real, real) {
    var d := Dot(vx, vy, nx, ny);
    (vx - 2.0 * d * nx, vy - 2.0 * d * ny)
  }

  /** Reflection across a unit normal flips the normal component and keeps
      the length. */
  lemma ReflectProperties(vx: real, vy: real, nx: real, ny: real)
    requires nx * nx + ny * ny == 1.0
    ensures var r := Reflect(vx, vy, nx, ny);
      Dot(r.0, r.1, nx, ny) == -Dot(vx, vy, nx, ny) &&
      r.0 * r.0 + r.1 * r.1 == vx * vx + vy * vy
  {
    var d := Dot(vx, vy, nx, ny);
    var r := Reflect(vx, vy, nx, ny);
    assert Dot(r.0, r.1, nx, ny) == d - 2.0 * d * (nx * nx + ny * ny);
    assert r.0 * r.0 + r.1 * r.1 == vx * vx + vy * vy - 4.0 * d * d + 4.0 * d * d * (nx * nx + ny * ny);
  }

  /** The push-out distance: the collision radius plus 0.2. */
  const PUSH_DISTANCE: real := COLLISION_RADIUS + 0.2

  /** `p + n * PUSH_DISTANCE`, with `n` the normal from `p` towards `a`. */
  function PushOut(m: MathOracle, ax: real, ay: real, px: real, py: real): (real, real) {
    var n := Normal(m, ax, ay, px, py);
    (px + n.0 * PUSH_DISTANCE, py + n.1 * PUSH_DISTANCE)
  }

  lemma DistSqOffset(qx: real, qy: real, px: real, py: real, dx: real, dy: real)
    requires qx == px + dx && qy == py + dy
    ensures DistSq(qx, qy, px, py) == dx * dx + dy * dy
  {
    assert qx - px == dx && qy - py == dy;
  }

  /** The pushed-out point is exactly PUSH_DISTANCE from the product. */
  lemma PushOutDistance(m: MathOracle, ax: real, ay: real, px: real, py: real)
    requires ExactSqrtAt(m, DistSq(ax, ay, px, py)) && m.sqrt(DistSq(ax, ay, px, py)) >= 0.0001
    ensures var q := PushOut(m, ax, ay, px, py);
      DistSq(q.0, q.1, px, py) == PUSH_DISTANCE * PUSH_DISTANCE
  {
    var n := Normal(m, ax, ay, px, py);
    var vx, vy := ax - px, ay - py;
    assert DistSq(ax, ay, px, py) == vx * vx + vy * vy;
    UnitIsUnit(m, vx, vy);
    var q := PushOut(m, ax, ay, px, py);
    DistSqOffset(q.0, q.1, px, py, n.0 * PUSH_DISTANCE, n.1 * PUSH_DISTANCE);
    ScaledUnitLength(n.0, n.1, PUSH_DISTANCE);
  }

  /** One autopilot displacement: `speed * delta` along the unit direction
      to the target, or no move when the target is closer than 0.0001. */
  function Advance(m: MathOracle, x: real, y: real, tx: real, ty: real, amount: real): (real, real) {
    var d := m.sqrt(DistSq(tx, ty, x, y));
    if d > 0.0001 then (x + (tx - x) / d * amount, y + (ty - y) / d * amount) else (x, y)
  }

  /** With an exact root, the displacement has length `amount`. */
  lemma AdvanceLength(m: MathOracle, x: real, y: real, tx: real, ty: real, amount: real)
    requires ExactSqrtAt(m, DistSq(tx, ty, x, y)) && m.sqrt(DistSq(tx, ty, x, y)) > 0.0001
    ensures var c := Advance(m, x, y, tx, ty, amount); DistSq(c.0, c.1, x, y) == amount * amount
  {
    var d := m.sqrt(DistSq(tx, ty, x, y));
    var c := Advance(m, x, y, tx, ty, amount);
    var ux, uy := (tx - x) / d, (ty - y) / d;
    UnitLength(tx - x, ty - y, d);
    assert c.0 - x == ux * amount && c.1 - y == uy * amount;
    ScaledUnitLength(ux, uy, amount);
  }

  // ---------------------------------------------------------------------
  // The per-tick autopilot step

  /** The seven values of one robot record, in buffer order. */
  datatype RobotState = RobotState(
    x: real, y: real, destX: real, destY: real,
    orientation: real, speed: real, lastMove: real)

  /** Which branch of the step produced the result. */
  datatype StepCase =
    | Recovered                          // the robot was off the walkway
    | Blocked                            // the candidate position was off the walkway
    | Moved                              // the candidate was taken
    | Bounced(px: real, py: real)        // a product was hit and the robot pushed out
    | BounceReverted(px: real, py: real) // a product was hit; the push-out was off the walkway

  /** The stuck timer after the stuck check: reset when over the timeout. */
  function StuckReset(lastMove: real): real {
    if lastMove > STUCK_TIMEOUT then 0.0 else lastMove
  }

  /** `has_moved`: either coordinate changed by more than 0.01. */
  predicate HasMoved(x: real, y: real, nx: real, ny: real) {
    Abs(nx - x) > 0.01 || Abs(ny - y) > 0.01
  }

  /** The bounced destination: the unit direction to the destination,
      reflected across the collision normal, 50 units out from the robot and
      clamped 10 units inside the store. */
  function BounceTarget(m: MathOracle, x: real, y: real, destX: real, destY: real,
                        px: real, py: real, cfg: StoreConfig): (real, real)
  {
    var u := Unit(m, destX - x, destY - y);
    var n := Normal(m, x, y, px, py);
    var r := Reflect(u.0, u.1, n.0, n.1);
    (Clamp(x + r.0 * 50.0, -cfg.storeWidth / 2.0 + 10.0, cfg.storeWidth / 2.0 - 10.0),
     Clamp(y + r.1 * 50.0, -cfg.storeHeight / 2.0 + 10.0, cfg.storeHeight / 2.0 - 10.0))
  }

  /** The destination `update_single_robot` steers at after its
      re-targeting, with the stream position after the draws it took: a
      fresh destination when the stuck timer is over the timeout, and
      another fresh one when the destination then held is closer than 2. */
  function RetargetAim(s: RobotState, cfg: StoreConfig, m: MathOracle, g0: Rng): (real, real, nat) {
    var first := if s.lastMove > STUCK_TIMEOUT then
      var d := ValidDestination(cfg, g0); (d.x, d.y, d.next)
    else (s.destX, s.destY, g0.next);
    if m.sqrt(DistSq(first.0, first.1, s.x, s.y)) < 2.0 then
      var d := ValidDestination(cfg, g0.(next := first.2)); (d.x, d.y, d.next)
    else first
  }

  /** The re-targeting at the start of `update_single_robot`: a fresh
      destination when the stuck timer is over the timeout (which also
      resets the timer), and again when the destination is closer than 2. */
  method Retarget(s: RobotState, cfg: StoreConfig, m: MathOracle, g0: Rng)
    returns (destX: real, destY: real, lastMove: real, g: Rng)
    ensures g.draw == g0.draw && g.next >= g0.next
    ensures lastMove == StuckReset(s.lastMove)
    ensures s.lastMove <= STUCK_TIMEOUT && m.sqrt(DistSq(s.destX, s.destY, s.x, s.y)) >= 2.0 ==>
      destX == s.destX && destY == s.destY && g == g0
    ensures s.lastMove > STUCK_TIMEOUT || m.sqrt(DistSq(s.destX, s.destY, s.x, s.y)) < 2.0 ==>
      g.next > g0.next
    ensures s.lastMove <= STUCK_TIMEOUT && m.sqrt(DistSq(s.destX, s.destY, s.x, s.y)) < 2.0 ==>
      var d := ValidDestination(cfg, g0);
      destX == d.x && destY == d.y && g.next == d.next
    ensures s.lastMove > STUCK_TIMEOUT ==>
      var d1 := ValidDestination(cfg, g0);
      var d2 := ValidDestination(cfg, g0.(next := d1.next));
      if m.sqrt(DistSq(d1.x, d1.y, s.x, s.y)) >= 2.0 then
        destX == d1.x && destY == d1.y && g.next == d1.next
      else
        destX == d2.x && destY == d2.y && g.next == d2.next
    ensures (destX, destY, g.next) == RetargetAim(s, cfg, m, g0)
    ensures var redrawn := s.lastMove > STUCK_TIMEOUT || m.sqrt(DistSq(s.destX, s.destY, s.x, s.y)) < 2.0;
      UnitDraws(g0) && Drawable(cfg) && redrawn ==> RowDestination(destX, destY, cfg)
  {
    g := g0;
    destX, destY, lastMove := s.destX, s.destY, s.lastMove;
    if lastMove > STUCK_TIMEOUT {
      destX, destY, g := GetValidDestination(cfg, g);
      lastMove := 0.0;
    }
    var distance := m.sqrt(DistSq(destX, destY, s.x, s.y));
    if distance < 2.0 {
      destX, destY, g := GetValidDestination(cfg, g);
    }
  }

  /** The destination after a bounce off the product at `(px, py)`, with
      the stream position after it: the clamped bounce target when it is on
      the walkway, and otherwise a fresh destination. */
  function BounceDestination(m: MathOracle, x: real, y: real, destX: real, destY: real,
                             px: real, py: real, cfg: StoreConfig, g0: Rng): (real, real, nat)
  {
    var b := BounceTarget(m, x, y, destX, destY, px, py, cfg);
    if InRowWalkway(b.0, b.1, cfg) then (b.0, b.1, g0.next)
    else var d := ValidDestination(cfg, g0); (d.x, d.y, d.next)
  }

  /** The product check of `update_single_robot` for a robot at `(x, y)`
      heading for `(destX, destY)` whose candidate position `(newX, newY)` is
      on the walkway: no hit keeps the candidate; a hit bounces the
      destination and pushes the robot out from the product, or, when the
      pushed-out point is off the walkway, keeps the robot in place. */
  method ResolveCollision(x: real, y: real, destX: real, destY: real, newX: real, newY: real,
                          products: seq<real>, cfg: StoreConfig, m: MathOracle, g0: Rng)
    returns (outX: real, outY: real, outDestX: real, outDestY: real, g: Rng,
             ghost outcome: StepCase)
    requires InRowWalkway(x, y, cfg) && InRowWalkway(newX, newY, cfg)
    ensures g.draw == g0.draw && g.next >= g0.next
    ensures outcome == Moved || outcome.Bounced? || outcome.BounceReverted?
    ensures outcome == Moved <==> CheckProductCollision(newX, newY, products) == None
    ensures outcome == Moved ==>
      outX == newX && outY == newY && outDestX == destX && outDestY == destY && g == g0
    ensures outcome.Bounced? ==>
      CheckProductCollision(newX, newY, products) == Some((outcome.px, outcome.py)) &&
      (outX, outY) == PushOut(m, x, y, outcome.px, outcome.py) &&
      (outDestX, outDestY, g.next) == BounceDestination(m, x, y, destX, destY, outcome.px, outcome.py, cfg, g0)
    ensures outcome.BounceReverted? ==>
      CheckProductCollision(newX, newY, products) == Some((outcome.px, outcome.py)) &&
      var q := PushOut(m, x, y, outcome.px, outcome.py);
      !InRowWalkway(q.0, q.1, cfg) && outX == x && outY == y &&
      var b := BounceDestination(m, x, y, destX, destY, outcome.px, outcome.py, cfg, g0);
      var d := ValidDestination(cfg, g0.(next := b.2));
      outDestX == d.x && outDestY == d.y && g.next == d.next
    ensures UnitDraws(g0) && Drawable(cfg) && outcome != Moved ==>
      RowDestination(outDestX, outDestY, cfg)
    ensures InRowWalkway(outX, outY, cfg)
  {
    g := g0;
    outX, outY, outDestX, outDestY := newX, newY, destX, destY;
    outcome := Moved;
    var hit := CheckProductCollision(newX, newY, products);
    if hit.Some? {
      var px, py := hit.value.0, hit.value.1;
      var bounce := BounceTarget(m, x, y, destX, destY, px, py, cfg);
      outDestX, outDestY := bounce.0, bounce.1;
      if !InRowWalkway(outDestX, outDestY, cfg) {
        outDestX, outDestY, g := GetValidDestination(cfg, g);
      }
      var pushed := PushOut(m, x, y, px, py);
      outX, outY := pushed.0, pushed.1;
      outcome := Bounced(px, py);
      if !InRowWalkway(outX, outY, cfg) {
        outX, outY := x, y;
        outDestX, outDestY, g := GetValidDestination(cfg, g);
        outcome := BounceReverted(px, py);
      }
    }
  }

  /** The new heading and stuck timer once the new position is known: a
      quarter of the shortest turn towards the direction moved, and a timer
      reset by a move of more than 0.01 and otherwise advanced by `delta`. */
  function Steer(m: MathOracle, x: real, y: real, newX: real, newY: real,
                 orientation: real, lastMove: real, delta: real): (r: (real, real))
    ensures -PI / 4.0 <= r.0 - orientation < PI / 4.0
    ensures r.1 == (if HasMoved(x, y, newX, newY) then 0.0 else lastMove + delta)
  {
    var target := m.atan2(newX - x, newY - y);
    QuarterTurnBound(target, orientation);
    (orientation + ShortestAngleDiff(target, orientation) * 0.25,
     if HasMoved(x, y, newX, newY) then 0.0 else lastMove + delta)
  }

  /** The postcondition of `update_single_robot` for input `s`, random
      stream `g0`, output `out` and stream `g`: the speed is kept, random
      values are only consumed, `aim` is the destination kept unless the
      robot was stuck or had arrived, `cand` is one displacement towards
      `aim`, and the branch `outcome` decides the new position, destination,
      heading and stuck timer as described at `StepCase`. The heading turns
      by less than a quarter turn, every new destination is one
      `get_valid_destination` or the bounce can give, and a robot on the
      walkway stays on it. */
  ghost predicate StepPost(s: RobotState, products: seq<real>, cfg: StoreConfig, delta: real,
                           m: MathOracle, g0: Rng, out: RobotState, g: Rng,
                           aim: (real, real), cand: (real, real), outcome: StepCase)
  {
    var retarget := RetargetAim(s, cfg, m, g0);
    var g1 := g0.(next := retarget.2);
    (out.speed == s.speed) &&
    (g.draw == g0.draw && g.next >= g0.next) &&
    (aim == (retarget.0, retarget.1)) &&
    (s.lastMove <= STUCK_TIMEOUT && m.sqrt(DistSq(s.destX, s.destY, s.x, s.y)) >= 2.0 ==>
      aim == (s.destX, s.destY)) &&
    (cand == Advance(m, s.x, s.y, aim.0, aim.1, s.speed * (delta / 1000.0))) &&
    (outcome == Recovered <==> !InRowWalkway(s.x, s.y, cfg)) &&
    (outcome == Blocked <==> InRowWalkway(s.x, s.y, cfg) && !InRowWalkway(cand.0, cand.1, cfg)) &&
    (outcome == Recovered || outcome == Blocked ==>
      var d := ValidDestination(cfg, g1);
      out.destX == d.x && out.destY == d.y && g.next == d.next) &&
    (outcome == Recovered ==>
      (out.x, out.y) == NearestValidPosition(s.x, s.y, cfg) &&
      out.orientation == s.orientation && out.lastMove == 0.0) &&
    (outcome == Blocked ==>
      out.x == s.x && out.y == s.y &&
      out.orientation == s.orientation && out.lastMove == 0.0) &&
    (outcome == Moved ==>
      (out.x, out.y) == cand && (out.destX, out.destY) == aim && g.next == g1.next &&
      CheckProductCollision(cand.0, cand.1, products) == None) &&
    (outcome.Bounced? ==>
      CheckProductCollision(cand.0, cand.1, products) == Some((outcome.px, outcome.py)) &&
      (out.x, out.y) == PushOut(m, s.x, s.y, outcome.px, outcome.py) &&
      (out.destX, out.destY, g.next) ==
        BounceDestination(m, s.x, s.y, aim.0, aim.1, outcome.px, outcome.py, cfg, g1)) &&
    (outcome.BounceReverted? ==>
      CheckProductCollision(cand.0, cand.1, products) == Some((outcome.px, outcome.py)) &&
      var q := PushOut(m, s.x, s.y, outcome.px, outcome.py);
      !InRowWalkway(q.0, q.1, cfg) && out.x == s.x && out.y == s.y &&
      var b := BounceDestination(m, s.x, s.y, aim.0, aim.1, outcome.px, outcome.py, cfg, g1);
      var d := ValidDestination(cfg, g1.(next := b.2));
      out.destX == d.x && out.destY == d.y && g.next == d.next) &&
    (outcome == Moved || outcome.Bounced? || outcome.BounceReverted? ==>
      (out.orientation, out.lastMove) ==
        Steer(m, s.x, s.y, out.x, out.y, s.orientation, StuckReset(s.lastMove), delta)) &&
    (-PI / 4.0 <= out.orientation - s.orientation < PI / 4.0) &&
    (UnitDraws(g0) && Drawable(cfg) ==>
      (aim == (s.destX, s.destY) || RowDestination(aim.0, aim.1, cfg)) &&
      (outcome != Moved ==> RowDestination(out.destX, out.destY, cfg))) &&
    (InRowWalkway(s.x, s.y, cfg) ==> InRowWalkway(out.x, out.y, cfg))
  }

  /** `out` and `g` are a possible result of `update_single_robot`. */
  ghost predicate StepOutcome(s: RobotState, products: seq<real>, cfg: StoreConfig, delta: real,
                              m: MathOracle, g0: Rng, out: RobotState, g: Rng)
  {
    exists aim: (real, real), cand: (real, real), outcome: StepCase ::
      StepPost(s, products, cfg, delta, m, g0, out, g, aim, cand, outcome)
  }

  /** `update_single_robot`. `aim` is the destination the robot steers at
      after the stuck and arrival re-targeting, `cand` the position one
      displacement towards it, and `outcome` the branch taken. */
  method UpdateSingleRobot(s: RobotState, products: seq<real>, cfg: StoreConfig, delta: real,
                           m: MathOracle, g0: Rng)
    returns (out: RobotState, g: Rng, ghost aim: (real, real), ghost cand: (real, real),
             ghost outcome: StepCase)
    ensures StepPost(s, products, cfg, delta, m, g0, out, g, aim, cand, outcome)
  {
    var destX, destY, lastMove;
    destX, destY, lastMove, g := Retarget(s, cfg, m, g0);
    aim := (destX, destY);
    var moved := Advance(m, s.x, s.y, destX, destY, s.speed * (delta / 1000.0));
    cand := moved;

    if !InRowWalkway(s.x, s.y, cfg) {
      var validX, validY := FindNearestValidPosition(s.x, s.y, cfg);
      var nx, ny;
      nx, ny, g := GetValidDestination(cfg, g);
      assert PI > 0.0;
      outcome := Recovered;
      out := RobotState(validX, validY, nx, ny, s.orientation, s.speed, 0.0);
      return;
    }

    if !InRowWalkway(moved.0, moved.1, cfg) {
      var nx, ny;
      nx, ny, g := GetValidDestination(cfg, g);
      assert PI > 0.0;
      outcome := Blocked;
      out := RobotState(s.x, s.y, nx, ny, s.orientation, s.speed, 0.0);
      return;
    }

    var newX, newY;
    newX, newY, destX, destY, g, outcome :=
      ResolveCollision(s.x, s.y, destX, destY, moved.0, moved.1, products, cfg, m, g);
    var steer := Steer(m, s.x, s.y, newX, newY, s.orientation, lastMove, delta);
    out := RobotState(newX, newY, destX, destY, steer.0, s.speed, steer.1);
  }

  /** As written, a robot at (-105, 0) in the default layout is recovered
      in place: the step leaves it where it is, off the walkway, and so
      does every later step. */
  lemma StrandedRobotStays(s: RobotState, products: seq<real>, delta: real, m: MathOracle,
                           g0: Rng, out: RobotState, g: Rng)
    requires s.x == -105.0 && s.y == 0.0
    requires StepOutcome(s, products, DEFAULT_CONFIG, delta, m, g0, out, g)
    ensures out.x == -105.0 && out.y == 0.0 && !InRowWalkway(out.x, out.y, DEFAULT_CONFIG)
  {
    NearestValidPositionCanStayOffWalkway();
    var aim, cand, outcome :| StepPost(s, products, DEFAULT_CONFIG, delta, m, g0, out, g, aim, cand, outcome);
  }

  /** The step with the corrected recovery: `update_single_robot` with an
      off-walkway robot put on the nearest gap centre instead of the nearest
      row centre, everything else as the step gives it. On a layout with
      gaps every result is then on the walkway. */
  method UpdateSingleRobotCorrected(s: RobotState, products: seq<real>, cfg: StoreConfig, delta: real,
                                    m: MathOracle, g0: Rng)
    returns (out: RobotState, g: Rng)
    ensures InRowWalkway(s.x, s.y, cfg) ==> StepOutcome(s, products, cfg, delta, m, g0, out, g)
    ensures !InRowWalkway(s.x, s.y, cfg) ==>
      (out.x, out.y) == NearestGapPosition(s.x, s.y, cfg) &&
      var p := NearestValidPosition(s.x, s.y, cfg);
      StepOutcome(s, products, cfg, delta, m, g0, out.(x := p.0, y := p.1), g)
    ensures HasCrossGaps(cfg) ==> InRowWalkway(out.x, out.y, cfg)
  {
    ghost var aim, cand, outcome;
    out, g, aim, cand, outcome := UpdateSingleRobot(s, products, cfg, delta, m, g0);
    assert StepPost(s, products, cfg, delta, m, g0, out, g, aim, cand, outcome);
    if !InRowWalkway(s.x, s.y, cfg) {
      ghost var asWritten := out;
      var validX, validY := FindNearestGapPosition(s.x, s.y, cfg);
      out := out.(x := validX, y := validY);
      assert out.(x := asWritten.x, y := asWritten.y) == asWritten;
      if HasCrossGaps(cfg) {
        NearestGapPositionOnWalkway(s.x, s.y, cfg);
      }
    }
  }

  // ---------------------------------------------------------------------
  // Waypoint moves (commanded robots)

  /** The oracle's heading from `(x, y)` towards `(wx, wy)` has the unit
      direction to the waypoint as its cosine and sine. */
  predicate PolarExact(m: MathOracle, x: real, y: real, wx: real, wy: real) {
    var d := m.sqrt(DistSq(wx, wy, x, y));
    var heading := m.atan2(wy - y, wx - x);
    m.cos(heading) * d == wx - x && m.sin(heading) * d == wy - y
  }

  /** `move_to_waypoint`: the position and heading after one step of at
      most `speed * deltaMs / 1000` straight at the waypoint; no move at all
      within 0.01 of it. */
  function MoveToWaypoint(m: MathOracle, x: real, y: real, orientation: real, speed: real,
                          wx: real, wy: real, deltaMs: real): (real, real, real)
  {
    var distance := m.sqrt(DistSq(wx, wy, x, y));
    if distance < 0.01 then (x, y, orientation)
    else
      var direction := m.atan2(wy - y, wx - x);
      var step := Min(speed * (deltaMs / 1000.0), distance);
      (x + m.cos(direction) * step, y + m.sin(direction) * step, direction)
  }

  /** Within 0.01 of the waypoint nothing changes. */
  lemma MoveToWaypointAtRest(m: MathOracle, x: real, y: real, orientation: real, speed: real,
                             wx: real, wy: real, deltaMs: real)
    requires ExactSqrtAt(m, DistSq(wx, wy, x, y)) && DistSq(wx, wy, x, y) < 0.0001
    ensures MoveToWaypoint(m, x, y, orientation, speed, wx, wy, deltaMs) == (x, y, orientation)
  {
    SqrtCompare(m, DistSq(wx, wy, x, y), 0.01);
  }

  /** Away from the waypoint the step is `min(speed * delta, distance)`
      along the oracle's heading to the waypoint. */
  lemma MoveToWaypointStep(m: MathOracle, x: real, y: real, orientation: real, speed: real,
                           wx: real, wy: real, deltaMs: real)
    requires m.sqrt(DistSq(wx, wy, x, y)) >= 0.01
    ensures var r := MoveToWaypoint(m, x, y, orientation, speed, wx, wy, deltaMs);
      var heading := m.atan2(wy - y, wx - x);
      var step := Min(speed * (deltaMs / 1000.0), m.sqrt(DistSq(wx, wy, x, y)));
      r.0 == x + m.cos(heading) * step && r.1 == y + m.sin(heading) * step && r.2 == heading
  {
  }

  /** With exact oracles, a step moves along the segment to the waypoint:
      it covers exactly `step = min(speed * delta, distance)` and leaves
      `distance - step` to go, so it never overshoots; the heading is the
      direction of the waypoint. */
  lemma MoveToWaypointOnSegment(m: MathOracle, x: real, y: real, orientation: real, speed: real,
                                wx: real, wy: real, deltaMs: real)
    requires ExactSqrtAt(m, DistSq(wx, wy, x, y)) && PolarExact(m, x, y, wx, wy)
    requires m.sqrt(DistSq(wx, wy, x, y)) >= 0.01
    ensures var r := MoveToWaypoint(m, x, y, orientation, speed, wx, wy, deltaMs);
      var d := m.sqrt(DistSq(wx, wy, x, y));
      var step := Min(speed * (deltaMs / 1000.0), d);
      step <= d && r.2 == m.atan2(wy - y, wx - x) &&
      DistSq(r.0, r.1, x, y) == step * step &&
      DistSq(wx, wy, r.0, r.1) == (d - step) * (d - step)
  {
    var d := m.sqrt(DistSq(wx, wy, x, y));
    var step := Min(speed * (deltaMs / 1000.0), d);
    MoveToWaypointStep(m, x, y, orientation, speed, wx, wy, deltaMs);
    HeadingStepCovered(m, x, y, wx, wy, step);
    HeadingStepRemaining(m, x, y, wx, wy, step);
  }

  /** With exact oracles, a move of any length `step` along the heading to
      the waypoint covers `step`. */
  lemma HeadingStepCovered(m: MathOracle, x: real, y: real, wx: real, wy: real, step: real)
    requires ExactSqrtAt(m, DistSq(wx, wy, x, y)) && PolarExact(m, x, y, wx, wy)
    requires m.sqrt(DistSq(wx, wy, x, y)) >= 0.01
    ensures var heading := m.atan2(wy - y, wx - x);
      DistSq(x + m.cos(heading) * step, y + m.sin(heading) * step, x, y) == step * step
  {
    var heading := m.atan2(wy - y, wx - x);
    AlongDirectionCovered(x, y, wx, wy, m.cos(heading), m.sin(heading), m.sqrt(DistSq(wx, wy, x, y)), step);
  }

  /** With exact oracles, a move of any length `step` along the heading to
      the waypoint leaves `distance - step` to go. */
  lemma HeadingStepRemaining(m: MathOracle, x: real, y: real, wx: real, wy: real, step: real)
    requires ExactSqrtAt(m, DistSq(wx, wy, x, y)) && PolarExact(m, x, y, wx, wy)
    requires m.sqrt(DistSq(wx, wy, x, y)) >= 0.01
    ensures var d := m.sqrt(DistSq(wx, wy, x, y));
      var heading := m.atan2(wy - y, wx - x);
      DistSq(wx, wy, x + m.cos(heading) * step, y + m.sin(heading) * step) == (d - step) * (d - step)
  {
    var heading := m.atan2(wy - y, wx - x);
    AlongDirectionRemaining(x, y, wx, wy, m.cos(heading), m.sin(heading), m.sqrt(DistSq(wx, wy, x, y)), step);
  }

  /** A move of `step` along the unit direction `(c, s)` to `(wx, wy)`
      covers `step`. */
  lemma AlongDirectionCovered(x: real, y: real, wx: real, wy: real, c: real, s: real,
                              d: real, step: real)
    requires d > 0.0 && d * d == DistSq(wx, wy, x, y) && c * d == wx - x && s * d == wy - y
    ensures DistSq(x + c * step, y + s * step, x, y) == step * step
  {
    UnitFromScaled(c, s, d, wx - x, wy - y);
    DistSqOffset(x + c * step, y + s * step, x, y, c * step, s * step);
    ScaledUnitLength(c, s, step);
  }

  /** A move of `step` along the unit direction `(c, s)` to `(wx, wy)`
      leaves `d - step` to go. */
  lemma AlongDirectionRemaining(x: real, y: real, wx: real, wy: real, c: real, s: real,
                                d: real, step: real)
    requires d > 0.0 && d * d == DistSq(wx, wy, x, y) && c * d == wx - x && s * d == wy - y
    ensures DistSq(wx, wy, x + c * step, y + s * step) == (d - step) * (d - step)
  {
    UnitFromScaled(c, s, d, wx - x, wy - y);
    assert c * d - c * step == c * (d - step);
    assert s * d - s * step == s * (d - step);
    DistSqOffset(wx, wy, x + c * step, y + s * step, c * (d - step), s * (d - step));
    ScaledUnitLength(c, s, d - step);
  }

  /** With an exact heading, a step at least as long as the distance lands
      exactly on the waypoint. */
  lemma MoveToWaypointArrives(m: MathOracle, x: real, y: real, orientation: real, speed: real,
                              wx: real, wy: real, deltaMs: real)
    requires PolarExact(m, x, y, wx, wy)
    requires m.sqrt(DistSq(wx, wy, x, y)) >= 0.01
    requires speed * (deltaMs / 1000.0) >= m.sqrt(DistSq(wx, wy, x, y))
    ensures var r := MoveToWaypoint(m, x, y, orientation, speed, wx, wy, deltaMs);
      r.0 == wx && r.1 == wy && CheckArrival(r.0, r.1, wx, wy)
  {
    MoveToWaypointStep(m, x, y, orientation, speed, wx, wy, deltaMs);
  }

  /** `check_arrival`: within squared distance 6.25 of the waypoint. */
  predicate CheckArrival(rx: real, ry: real, wx: real, wy: real) {
    DistSq(rx, ry, wx, wy) <= ARRIVAL_DISTANCE_SQUARED
  }

  /** The squared test is the distance test against ARRIVAL_DISTANCE = 2.5. */
  lemma CheckArrivalIsDistanceTest(m: MathOracle, rx: real, ry: real, wx: real, wy: real)
    requires ExactSqrtAt(m, DistSq(rx, ry, wx, wy))
    ensures CheckArrival(rx, ry, wx, wy) <==> m.sqrt(DistSq(rx, ry, wx, wy)) <= ARRIVAL_DISTANCE
  {
    SqrtCompare(m, DistSq(rx, ry, wx, wy), ARRIVAL_DISTANCE);
  }

  /** The slide of `move_to_waypoint_with_collision` when the candidate is
      off the walkway: keep the candidate if it is on the walkway, else keep
      only its x, else only its y, else give up. */
  function Slide(x: real, y: real, nx: real, ny: real, cfg: StoreConfig): (r: Option<(real, real)>)
    ensures r.Some? ==> InRowWalkway(r.value.0, r.value.1, cfg)
    ensures r.Some? ==> (r.value.0 == nx || r.value.0 == x) && (r.value.1 == ny || r.value.1 == y)
    ensures r.None? <==>
      !InRowWalkway(nx, ny, cfg) && !InRowWalkway(nx, y, cfg) && !InRowWalkway(x, ny, cfg)
    ensures InRowWalkway(nx, ny, cfg) ==> r == Some((nx, ny))
    ensures !InRowWalkway(nx, ny, cfg) && InRowWalkway(nx, y, cfg) ==> r == Some((nx, y))
  {
    if InRowWalkway(nx, ny, cfg) then Some((nx, ny))
    else if InRowWalkway(nx, y, cfg) then Some((nx, y))
    else if InRowWalkway(x, ny, cfg) then Some((x, ny))
    else None
  }

  /** Which branch of the collision-aware waypoint move was taken. */
  datatype WaypointCase =
    | AtWaypoint                        // within 0.01: nothing moves
    | Resnapped                         // the robot was off the walkway
    | Stopped                           // no slide keeps the robot on the walkway
    | Clear                             // the (slid) step hit no product
    | Pushed(px: real, py: real)        // a product was hit and the robot pushed out
    | PushReverted(px: real, py: real)  // a product was hit; the push-out was off the walkway

  /** `move_to_waypoint_with_collision`. `cand` is the plain waypoint step
      and `slid` the candidate after sliding along the walkway. */
  method MoveToWaypointWithCollision(m: MathOracle, x: real, y: real, orientation: real, speed: real,
                                     wx: real, wy: real, deltaMs: real, products: seq<real>,
                                     cfg: StoreConfig)
    returns (r: (real, real, real), ghost cand: (real, real, real), ghost slid: (real, real),
             ghost outcome: WaypointCase)
    ensures cand == MoveToWaypoint(m, x, y, orientation, speed, wx, wy, deltaMs)
    ensures outcome == AtWaypoint <==> m.sqrt(DistSq(wx, wy, x, y)) < 0.01
    ensures outcome == AtWaypoint ==> r == (x, y, orientation)
    ensures outcome == Resnapped <==>
      m.sqrt(DistSq(wx, wy, x, y)) >= 0.01 && !InRowWalkway(x, y, cfg)
    ensures outcome == Resnapped ==> (r.0, r.1) == NearestValidPosition(x, y, cfg) && r.2 == orientation
    ensures outcome == Stopped ==>
      Slide(x, y, cand.0, cand.1, cfg) == None && r == (x, y, orientation)
    ensures outcome == Clear || outcome.Pushed? || outcome.PushReverted? ==>
      Some(slid) == Slide(x, y, cand.0, cand.1, cfg) && r.2 == cand.2
    ensures outcome == Clear ==>
      CheckProductCollisionAlongSegment(x, y, slid.0, slid.1, products) == None && (r.0, r.1) == slid
    ensures outcome.Pushed? ==>
      CheckProductCollisionAlongSegment(x, y, slid.0, slid.1, products) == Some((outcome.px, outcome.py)) &&
      (r.0, r.1) == PushOut(m, slid.0, slid.1, outcome.px, outcome.py)
    ensures outcome.PushReverted? ==>
      CheckProductCollisionAlongSegment(x, y, slid.0, slid.1, products) == Some((outcome.px, outcome.py)) &&
      var q := PushOut(m, slid.0, slid.1, outcome.px, outcome.py);
      !InRowWalkway(q.0, q.1, cfg) && r.0 == x && r.1 == y
    ensures InRowWalkway(x, y, cfg) ==> InRowWalkway(r.0, r.1, cfg)
  {
    var step := MoveToWaypoint(m, x, y, orientation, speed, wx, wy, deltaMs);
    cand := step;
    slid := (x, y);
    var distance := m.sqrt(DistSq(wx, wy, x, y));
    if distance < 0.01 {
      outcome := AtWaypoint;
      r := (x, y, orientation);
      return;
    }
    if !InRowWalkway(x, y, cfg) {
      var validX, validY := FindNearestValidPosition(x, y, cfg);
      outcome := Resnapped;
      r := (validX, validY, orientation);
      return;
    }
    var target := Slide(x, y, step.0, step.1, cfg);
    if target.None? {
      outcome := Stopped;
      r := (x, y, orientation);
      return;
    }
    var newX, newY := target.value.0, target.value.1;
    slid := (newX, newY);
    outcome := Clear;
    var hit := CheckProductCollisionAlongSegment(x, y, newX, newY, products);
    if hit.Some? {
      var px, py := hit.value.0, hit.value.1;
      var pushed := PushOut(m, newX, newY, px, py);
      newX, newY := pushed.0, pushed.1;
      outcome := Pushed(px, py);
      if !InRowWalkway(newX, newY, cfg) {
        newX, newY := x, y;
        outcome := PushReverted(px, py);
      }
    }
    r := (newX, newY, step.2);
  }
}
