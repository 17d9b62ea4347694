/** The browser-only robot simulation of the store map
    (src/components/store-map/useRobotSimulation.ts): a fixed six-aisle
    layout, a walkway test, snapping a stranded robot back onto the
    walkway, random destinations, the product collision test with its
    bounce, and the 100 ms tick that moves every robot. */
module LegacySimulation {
  import opened Wrappers
  import opened Numeric
  import opened StoreTypes
  import MockData
  import RobotMotion

  // ---------------------------------------------------------------------
  // Constants

  /** Milliseconds between two ticks. */
  const UPDATE_INTERVAL: real := 100.0
  /** A robot that has not moved for this many milliseconds is re-targeted. */
  const STUCK_TIMEOUT: real := 3000.0

  const NUM_AISLES: int := 6
  const AISLE_SPACING: real := 30.0
  const AISLE_WIDTH: real := 6.0

  const ROBOT_RADIUS: real := 2.0
  const PRODUCT_RADIUS: real := 0.5
  const COLLISION_BUFFER: real := 0.5
  const BOUNCE_DAMPING: real := 0.8

  /** A product within this distance of a robot is a collision. */
  const HIT_DISTANCE: real := ROBOT_RADIUS + PRODUCT_RADIUS + COLLISION_BUFFER
  /** How far from the product a colliding robot is put back. */
  const PUSH_DISTANCE: real := HIT_DISTANCE + 0.2
  /** How far out the bounced destination is placed. */
  const BOUNCE_DISTANCE: real := 50.0

  // ---------------------------------------------------------------------
  // The walkway

  /** The x of aisle `a`: 20 units in from the left wall, 30 apart. */
  function AisleX(a: int): real {
    -MockData.STORE_WIDTH / 2.0 + 20.0 + (a as real) * AISLE_SPACING
  }

  /** The middle of the cross-aisle between aisles `a` and `a + 1`. */
  function CrossAisleMid(a: int): real {
    (AisleX(a) + AisleX(a + 1)) / 2.0
  }

  /** The width between two shelf pairs. */
  const CROSS_AISLE_WIDTH: real := AISLE_SPACING - AISLE_WIDTH - 4.0

  const WALKWAY_WIDTH: real := 10.0

  /** The point is in the cross-aisle after aisle `a`, away from the end walls. */
  predicate InCrossAisle(x: real, y: real, a: int) {
    Abs(x - CrossAisleMid(a)) < CROSS_AISLE_WIDTH / 2.0 &&
    Abs(y) < MockData.STORE_HEIGHT / 2.0 - 5.0
  }

  /** The point is in the top or the bottom walkway connecting the aisles. */
  predicate InOuterWalkway(x: real, y: real) {
    var top := MockData.STORE_HEIGHT / 2.0 - 10.0;
    var bottom := -MockData.STORE_HEIGHT / 2.0 + 10.0;
    (Abs(y - top) < WALKWAY_WIDTH / 2.0 || Abs(y - bottom) < WALKWAY_WIDTH / 2.0) &&
    Abs(x) < MockData.STORE_WIDTH / 2.0 - 10.0
  }

  /** The loop over the cross-aisles `a, a + 1, ..., 4`, returning at the
      first one that holds the point. */
  predicate ScanCrossAisles(x: real, y: real, a: int)
    decreases NUM_AISLES - 1 - a
  {
    if a >= NUM_AISLES - 1 then false
    else if InCrossAisle(x, y, a) then true
    else ScanCrossAisles(x, y, a + 1)
  }

  /** `isInAisleWalkway`. */
  predicate IsInAisleWalkway(x: real, y: real) {
    ScanCrossAisles(x, y, 0) || InOuterWalkway(x, y)
  }

  lemma {:induction false} ScanCrossAislesIff(x: real, y: real, a: int)
    requires a >= 0
    ensures ScanCrossAisles(x, y, a) <==>
      exists k :: a <= k < NUM_AISLES - 1 && InCrossAisle(x, y, k)
    decreases NUM_AISLES - 1 - a
  {
    if a < NUM_AISLES - 1 && !InCrossAisle(x, y, a) {
      ScanCrossAislesIff(x, y, a + 1);
      if exists k :: a <= k < NUM_AISLES - 1 && InCrossAisle(x, y, k) {
        var k :| a <= k < NUM_AISLES - 1 && InCrossAisle(x, y, k);
        assert k != a;
      }
    }
  }

  /** The walkway, written out: five vertical strips of half-width 10 round
      x = -90, -60, -30, 0, 30 that stop 5 short of the long walls, and two
      horizontal bands of half-width 5 round y = 65 and y = -65 that stop 10
      short of the end walls. Everything else, the shelf aisles included, is
      blocked. */
  lemma IsInAisleWalkwayIff(x: real, y: real)
    ensures IsInAisleWalkway(x, y) <==>
      ((Abs(x + 90.0) < 10.0 || Abs(x + 60.0) < 10.0 || Abs(x + 30.0) < 10.0 ||
        Abs(x) < 10.0 || Abs(x - 30.0) < 10.0) && Abs(y) < 70.0) ||
      ((Abs(y - 65.0) < 5.0 || Abs(y + 65.0) < 5.0) && Abs(x) < 115.0)
  {
    ScanCrossAislesIff(x, y, 0);
    assert CrossAisleMid(0) == -90.0 && CrossAisleMid(1) == -60.0 && CrossAisleMid(2) == -30.0;
    assert CrossAisleMid(3) == 0.0 && CrossAisleMid(4) == 30.0;
    if exists k :: 0 <= k < NUM_AISLES - 1 && InCrossAisle(x, y, k) {
      var k :| 0 <= k < NUM_AISLES - 1 && InCrossAisle(x, y, k);
      assert k == 0 || k == 1 || k == 2 || k == 3 || k == 4;
    }
  }

  /** Every walkway point is more than 10 units inside the end walls and 5
      units inside the long walls. */
  lemma WalkwayInsideStore(x: real, y: real)
    requires IsInAisleWalkway(x, y)
    ensures Abs(x) < 115.0 && Abs(y) < 70.0
  {
    IsInAisleWalkwayIff(x, y);
  }

  // ---------------------------------------------------------------------
  // Snapping back onto the walkway

  /** `Math.max(lo, Math.min(hi, v))`. */
  function JsClamp(v: real, lo: real, hi: real): (r: real)
    ensures lo <= hi ==> lo <= r <= hi
    ensures lo <= v <= hi ==> r == v
  {
    Max(lo, Min(hi, v))
  }

  /** y clamped to 10 units inside the long walls. */
  function ClampY(y: real): real {
    JsClamp(y, -MockData.STORE_HEIGHT / 2.0 + 10.0, MockData.STORE_HEIGHT / 2.0 - 10.0)
  }

  function AisleCenters(): int -> real {
    a => AisleX(a)
  }

  function CrossAisleCenters(): int -> real {
    a => CrossAisleMid(a)
  }

  /** Where `findNearestValidPosition` puts a robot, as written: x moves to
      the nearest AISLE centre (lowest aisle on a tie), y is clamped. */
  function NearestValidPosition(x: real, y: real): (real, real) {
    (AisleX(RobotMotion.NearestIndex(x, AisleCenters(), NUM_AISLES)), ClampY(y))
  }

  /** The as-written snap picks the aisle centre closest to x and clamps y
      into [-65, 65], leaving a y already there unchanged. */
  lemma NearestValidPositionIsNearestAisle(x: real, y: real)
    ensures var p := NearestValidPosition(x, y);
      (exists k :: RobotMotion.NearestAt(x, AisleCenters(), NUM_AISLES, k) && p.0 == AisleX(k)) &&
      -65.0 <= p.1 <= 65.0 && (-65.0 <= y <= 65.0 ==> p.1 == y)
  {
    var k := RobotMotion.NearestIndex(x, AisleCenters(), NUM_AISLES);
    RobotMotion.NearestIndexIsNearest(x, AisleCenters(), NUM_AISLES);
    assert RobotMotion.NearestAt(x, AisleCenters(), NUM_AISLES, k) && NearestValidPosition(x, y).0 == AisleX(k);
  }

  /** `findNearestValidPosition` as written: a running minimum over the
      aisle centres that only moves on a strict `<`. */
  method FindNearestValidPosition(x: real, y: real) returns (nx: real, ny: real)
    ensures (nx, ny) == NearestValidPosition(x, y)
  {
    var best;
    best, nx := RobotMotion.RunningNearest(x, AisleCenters(), NUM_AISLES);
    ny := ClampY(y);
  }

  lemma FirstAisleCentreOffWalkway()
    ensures !IsInAisleWalkway(-105.0, 0.0)
  {
    IsInAisleWalkwayIff(-105.0, 0.0);
  }

  lemma FirstAisleCentreSnapsToItself()
    ensures NearestValidPosition(-105.0, 0.0) == (-105.0, 0.0)
  {
    var f := AisleCenters();
    var k := RobotMotion.NearestIndex(-105.0, f, NUM_AISLES);
    RobotMotion.NearestIndexIsNearest(-105.0, f, NUM_AISLES);
    assert f(0) == -105.0;
    if k > 0 {
      assert false;
    }
  }

  /** An aisle centre is 15 units from the nearest cross-aisle middle, so
      the as-written snap can leave a robot off the walkway: (-105, 0) is
      off the walkway and snaps to itself, so a robot there is "rescued" in
      place on every tick. */
  lemma NearestValidPositionCanStayOffWalkway()
    ensures !IsInAisleWalkway(-105.0, 0.0)
    ensures NearestValidPosition(-105.0, 0.0) == (-105.0, 0.0)
  {
    FirstAisleCentreOffWalkway();
    FirstAisleCentreSnapsToItself();
  }

  /** The intended snap: x moves to the middle of the nearest cross-aisle. */
  function NearestCrossAislePosition(x: real, y: real): (real, real) {
    (CrossAisleMid(RobotMotion.NearestIndex(x, CrossAisleCenters(), NUM_AISLES - 1)), ClampY(y))
  }

  /** The corrected snap always lands on the walkway. */
  lemma NearestCrossAislePositionOnWalkway(x: real, y: real)
    ensures var p := NearestCrossAislePosition(x, y); IsInAisleWalkway(p.0, p.1)
  {
    var k := RobotMotion.NearestIndex(x, CrossAisleCenters(), NUM_AISLES - 1);
    var p := NearestCrossAislePosition(x, y);
    assert p.0 == CrossAisleMid(k) && -65.0 <= p.1 <= 65.0;
    assert InCrossAisle(p.0, p.1, k);
    ScanCrossAislesIff(p.0, p.1, 0);
  }

  /** The corrected snap picks the cross-aisle closest to x, lowest on a tie. */
  lemma NearestCrossAislePositionIsNearest(x: real, y: real)
    ensures var p := NearestCrossAislePosition(x, y);
      exists k :: RobotMotion.NearestAt(x, CrossAisleCenters(), NUM_AISLES - 1, k) && p.0 == CrossAisleMid(k)
  {
    var k := RobotMotion.NearestIndex(x, CrossAisleCenters(), NUM_AISLES - 1);
    RobotMotion.NearestIndexIsNearest(x, CrossAisleCenters(), NUM_AISLES - 1);
    assert RobotMotion.NearestAt(x, CrossAisleCenters(), NUM_AISLES - 1, k) &&
      NearestCrossAislePosition(x, y).0 == CrossAisleMid(k);
  }

  /** The corrected `findNearestValidPosition`: the same running minimum,
      over the cross-aisle middles. */
  method FindNearestCrossAislePosition(x: real, y: real) returns (nx: real, ny: real)
    ensures (nx, ny) == NearestCrossAislePosition(x, y)
  {
    var best;
    best, nx := RobotMotion.RunningNearest(x, CrossAisleCenters(), NUM_AISLES - 1);
    ny := ClampY(y);
  }

  // ---------------------------------------------------------------------
  // Random destinations

  /** `Math.floor(r * NUM_AISLES)`. */
  function AisleDraw(r: real): int {
    Floor(r * (NUM_AISLES as real))
  }

  lemma AisleDrawInRange(r: real)
    requires 0.0 <= r < 1.0
    ensures 0 <= AisleDraw(r) < NUM_AISLES
  {
    MulNonneg(r, 6.0);
  }

  /** A destination `getValidDestination` can return: a walkway point, or
      the centre of one of the six aisles no more than 60 from the middle. */
  ghost predicate LegacyDestination(x: real, y: real) {
    IsInAisleWalkway(x, y) ||
    ((exists k :: 0 <= k < NUM_AISLES && x == AisleX(k)) && Abs(y) <= 60.0)
  }

  /** How many attempts `getValidDestination` makes before its fallback. */
  const DESTINATION_ATTEMPTS: nat := 50

  /** The aisle attempt for the draws `r1` and `r2`: the centre of aisle
      `floor(r1 * 6)`, at `r2` of the way down a span 30 shorter than the
      store. */
  function AislePick(r1: real, r2: real): (real, real) {
    var span := MockData.STORE_HEIGHT - 30.0;
    (AisleX(AisleDraw(r1)), r2 * span - span / 2.0)
  }

  /** The point of the store at `r1` of its width and `r2` of its height. */
  function StorePoint(r1: real, r2: real): (real, real) {
    (r1 * MockData.STORE_WIDTH - MockData.STORE_WIDTH / 2.0,
     r2 * MockData.STORE_HEIGHT - MockData.STORE_HEIGHT / 2.0)
  }

  /** One attempt of `getValidDestination` on the three draws from index
      `i`: when the first is over 0.2, the drawn aisle at the drawn y;
      otherwise the drawn point of the store when it is on the walkway, and
      nothing when it is not. */
  function Attempt(draw: nat -> real, i: nat): Option<RobotMotion.Destination> {
    if draw(i) > 0.2 then
      var p := AislePick(draw(i + 1), draw(i + 2));
      Some(RobotMotion.Destination(p.0, p.1, i + 3, Some(AisleDraw(draw(i + 1)))))
    else
      var p := StorePoint(draw(i + 1), draw(i + 2));
      if IsInAisleWalkway(p.0, p.1) then Some(RobotMotion.Destination(p.0, p.1, i + 3, None)) else None
  }

  /** What `getValidDestination` returns when its draws start at index `i`
      of `draw` and `left` of its 50 attempts remain: the first attempt that
      gives a destination, or with no attempt left the drawn aisle at y = 0.
      `row` records the aisle taken, `None` for a walkway point. */
  function DestinationFrom(draw: nat -> real, i: nat, left: nat): RobotMotion.Destination
    decreases left
  {
    if left == 0 then
      RobotMotion.Destination(AisleX(AisleDraw(draw(i))), 0.0, i + 1, Some(AisleDraw(draw(i))))
    else
      var a := Attempt(draw, i);
      if a.Some? then a.value else DestinationFrom(draw, i + 3, left - 1)
  }

  /** The destination of a call to `getValidDestination` on stream `g`. */
  function ValidDestination(g: Rng): RobotMotion.Destination {
    DestinationFrom(g.draw, g.next, DESTINATION_ATTEMPTS)
  }

  /** What every destination drawn from index `i` of `draw` satisfies: a
      walkway pick is on the walkway, an aisle pick is that aisle's centre,
      and with unit draws the aisle exists and the point is a
      `LegacyDestination`. */
  ghost predicate DestinationSound(d: RobotMotion.Destination, draw: nat -> real, i: nat) {
    (d.row.None? ==> IsInAisleWalkway(d.x, d.y)) &&
    (d.row.Some? ==> d.x == AisleX(d.row.value)) &&
    (UnitDraws(Rng(draw, i)) ==>
      LegacyDestination(d.x, d.y) && (d.row.Some? ==> 0 <= d.row.value < NUM_AISLES))
  }

  /** An aisle pick of `draw(i)` and `draw(i + 1)` lies in the store. */
  lemma AislePickSound(draw: nat -> real, i: nat)
    requires UnitDraws(Rng(draw, i))
    ensures 0 <= AisleDraw(draw(i)) < NUM_AISLES
    ensures var span := MockData.STORE_HEIGHT - 30.0; Abs(draw(i + 1) * span - span / 2.0) <= span / 2.0
  {
    RobotMotion.UnitDrawAt(Rng(draw, i), i);
    RobotMotion.UnitDrawAt(Rng(draw, i), i + 1);
    AisleDrawInRange(draw(i));
    RobotMotion.ScaledDrawBounds(draw(i + 1), MockData.STORE_HEIGHT - 30.0);
  }

  /** A destination one attempt gives is sound and uses three draws. */
  lemma AttemptSound(draw: nat -> real, i: nat)
    ensures var a := Attempt(draw, i);
      a.Some? ==> a.value.next == i + 3 && DestinationSound(a.value, draw, i)
  {
    var a := Attempt(draw, i);
    if draw(i) > 0.2 {
      var k := AisleDraw(draw(i + 1));
      var span := MockData.STORE_HEIGHT - 30.0;
      assert a.value.x == AisleX(k) && a.value.y == draw(i + 2) * span - span / 2.0;
      if UnitDraws(Rng(draw, i)) {
        RobotMotion.UnitDrawsLater(draw, i, i + 1);
        AislePickSound(draw, i + 1);
        assert 0 <= k < NUM_AISLES && Abs(a.value.y) <= 60.0;
        assert LegacyDestination(a.value.x, a.value.y);
      }
    } else if a.Some? {
      assert a.value.row.None? && IsInAisleWalkway(a.value.x, a.value.y);
    }
  }

  /** The destination uses between one and `3 * left + 1` draws; a walkway
      pick is on the walkway and an aisle pick is that aisle's centre; with
      unit draws the aisle exists and y is at most 60 from the middle. */
  lemma {:induction false} DestinationFromKinds(draw: nat -> real, i: nat, left: nat)
    ensures var d := DestinationFrom(draw, i, left);
      i < d.next <= i + 3 * left + 1 && DestinationSound(d, draw, i)
    decreases left
  {
    if left == 0 {
      if UnitDraws(Rng(draw, i)) {
        AislePickSound(draw, i);
      }
    } else if Attempt(draw, i).Some? {
      AttemptSound(draw, i);
    } else {
      DestinationFromKinds(draw, i + 3, left - 1);
      if UnitDraws(Rng(draw, i)) {
        RobotMotion.UnitDrawsLater(draw, i, i + 3);
      }
    }
  }

  /** The first attempt decides the destination unless it draws a point
      off the walkway. */
  lemma ValidDestinationFirstAttempt(g: Rng)
    ensures var d := ValidDestination(g);
      g.draw(g.next) > 0.2 ==>
        (d.x, d.y) == AislePick(g.draw(g.next + 1), g.draw(g.next + 2)) && d.next == g.next + 3
    ensures var d := ValidDestination(g);
      var p := StorePoint(g.draw(g.next + 1), g.draw(g.next + 2));
      g.draw(g.next) <= 0.2 && IsInAisleWalkway(p.0, p.1) ==> (d.x, d.y) == p && d.next == g.next + 3
  {
    assert DESTINATION_ATTEMPTS > 0;
  }

  /** One pass of the loop of `getValidDestination`: three draws, and the
      destination of `Attempt` when there is one. */
  method TryDestination(g0: Rng) returns (found: bool, x: real, y: real, g: Rng)
    ensures g.draw == g0.draw && g.next == g0.next + 3
    ensures var a := Attempt(g0.draw, g0.next);
      (found <==> a.Some?) && (found ==> x == a.value.x && y == a.value.y)
  {
    var pick := Random(g0);
    var r1 := Random(pick.1);
    var r2 := Random(r1.1);
    g := r2.1;
    if pick.0 > 0.2 {
      var p := AislePick(r1.0, r2.0);
      return true, p.0, p.1, g;
    }
    var p := StorePoint(r1.0, r2.0);
    found, x, y := IsInAisleWalkway(p.0, p.1), p.0, p.1;
  }

  /** `getValidDestination`, taking its draws from the stream `g0`: the
      result is `ValidDestination(g0)` (see `ValidDestinationFirstAttempt`),
      and at most 151 draws are used. */
  method GetValidDestination(g0: Rng) returns (x: real, y: real, g: Rng)
    ensures g.draw == g0.draw
    ensures var d := ValidDestination(g0); x == d.x && y == d.y && g.next == d.next
    ensures g0.next < g.next <= g0.next + 151
    ensures UnitDraws(g0) ==> LegacyDestination(x, y)
  {
    DestinationFromKinds(g0.draw, g0.next, DESTINATION_ATTEMPTS);
    g := g0;
    var attempt := 0;
    while attempt < DESTINATION_ATTEMPTS
      invariant 0 <= attempt <= DESTINATION_ATTEMPTS
      invariant g.draw == g0.draw && g.next == g0.next + 3 * attempt
      invariant DestinationFrom(g.draw, g.next, DESTINATION_ATTEMPTS - attempt) == ValidDestination(g0)
    {
      var found, px, py, g' := TryDestination(g);
      if found {
        return px, py, g';
      }
      g := g';
      attempt := attempt + 1;
    }
    var last := Random(g);
    g := last.1;
    x, y := AisleX(AisleDraw(last.0)), 0.0;
  }

  // ---------------------------------------------------------------------
  // Products

  /** The robot at `(x, y)` is closer than 3 to the product. The source
      compares the square root of the squared distance with 3; the model
      compares the squares (see `ProductHitIsDistanceTest`). */
  predicate ProductHit(x: real, y: real, p: Product) {
    RobotMotion.DistSq(x, y, p.x, p.y) < HIT_DISTANCE * HIT_DISTANCE
  }

  /** With an exact root the squared test is the source's distance test. */
  lemma ProductHitIsDistanceTest(m: MathOracle, x: real, y: real, p: Product)
    requires ExactSqrtAt(m, RobotMotion.DistSq(x, y, p.x, p.y))
    ensures ProductHit(x, y, p) <==> m.sqrt(RobotMotion.DistSq(x, y, p.x, p.y)) < HIT_DISTANCE
  {
    RobotMotion.SqrtCompare(m, RobotMotion.DistSq(x, y, p.x, p.y), HIT_DISTANCE);
  }

  /** `checkProductCollision` over `products[from..]`: the first product
      hit, or `None` when no product is hit. */
  function FirstProductHit(x: real, y: real, products: seq<Product>, from: nat): (r: Option<Product>)
    requires from <= |products|
    ensures r.None? <==> forall k :: from <= k < |products| ==> !ProductHit(x, y, products[k])
    ensures r.Some? ==>
      exists i :: from <= i < |products| && products[i] == r.value &&
        ProductHit(x, y, products[i]) &&
        forall k :: from <= k < i ==> !ProductHit(x, y, products[k])
    decreases |products| - from
  {
    if from == |products| then None
    else if ProductHit(x, y, products[from]) then Some(products[from])
    else FirstProductHit(x, y, products, from + 1)
  }

  /** `checkProductCollision`: the first product closer than 3 to the
      point, in list order. */
  function CheckProductCollision(x: real, y: real, products: seq<Product>): (r: Option<Product>)
    ensures r.None? <==> forall k :: 0 <= k < |products| ==> !ProductHit(x, y, products[k])
    ensures r.Some? ==>
      exists i :: 0 <= i < |products| && products[i] == r.value &&
        ProductHit(x, y, products[i]) &&
        forall k :: 0 <= k < i ==> !ProductHit(x, y, products[k])
  {
    FirstProductHit(x, y, products, 0)
  }

  // ---------------------------------------------------------------------
  // Directions, bounce and push-out

  /** `v / |v|`. A zero length stands for the source's division by zero,
      whose NaN makes every later walkway test fail: `None`. */
  function Direction(m: MathOracle, vx: real, vy: real): Option<(real, real)> {
    var len := m.sqrt(vx * vx + vy * vy);
    if len == 0.0 then None else Some((vx / len, vy / len))
  }

  /** The oracle's root of `|v|^2` is exact and not zero. */
  predicate ExactNonZero(m: MathOracle, vx: real, vy: real) {
    ExactSqrtAt(m, vx * vx + vy * vy) && m.sqrt(vx * vx + vy * vy) > 0.0
  }

  /** With an exact, non-zero root the direction has length 1. */
  lemma DirectionIsUnit(m: MathOracle, vx: real, vy: real)
    requires ExactNonZero(m, vx, vy)
    ensures Direction(m, vx, vy).Some?
    ensures var u := Direction(m, vx, vy).value; u.0 * u.0 + u.1 * u.1 == 1.0
  {
    var len := m.sqrt(vx * vx + vy * vy);
    var u := Direction(m, vx, vy).value;
    assert u.0 == vx / len && u.1 == vy / len;
    UnitLength(vx, vy, len);
  }

  /** `_calculateBounceVelocity`: the velocity reflected across the normal
      from the product to the robot, scaled by 0.8; `None` for a robot
      exactly on the product. */
  function BounceVelocity(m: MathOracle, robotX: real, robotY: real, vx: real, vy: real,
                          productX: real, productY: real): Option<(real, real)>
  {
    match Direction(m, robotX - productX, robotY - productY)
    case None => None
    case Some(n) =>
      var r := RobotMotion.Reflect(vx, vy, n.0, n.1);
      Some((r.0 * BOUNCE_DAMPING, r.1 * BOUNCE_DAMPING))
  }

  lemma ScaledSquares(a: real, b: real, k: real, s: real)
    requires a * a + b * b == s
    ensures (a * k) * (a * k) + (b * k) * (b * k) == s * (k * k)
  {
    RobotMotion.SameFactor(a * a + b * b, s, k * k);
  }

  /** The bounce keeps 0.8 of the speed (0.64 of its square) and turns the
      component along the normal round, scaled by 0.8. */
  lemma BounceVelocityDamped(m: MathOracle, robotX: real, robotY: real, vx: real, vy: real,
                             productX: real, productY: real)
    requires ExactNonZero(m, robotX - productX, robotY - productY)
    ensures var b := BounceVelocity(m, robotX, robotY, vx, vy, productX, productY);
      var n := Direction(m, robotX - productX, robotY - productY);
      b.Some? && n.Some? &&
      b.value.0 * b.value.0 + b.value.1 * b.value.1 == 0.64 * (vx * vx + vy * vy) &&
      RobotMotion.Dot(b.value.0, b.value.1, n.value.0, n.value.1) ==
        -0.8 * RobotMotion.Dot(vx, vy, n.value.0, n.value.1)
  {
    var dx, dy := robotX - productX, robotY - productY;
    DirectionIsUnit(m, dx, dy);
    var n := Direction(m, dx, dy).value;
    var r := RobotMotion.Reflect(vx, vy, n.0, n.1);
    RobotMotion.ReflectProperties(vx, vy, n.0, n.1);
    ScaledSquares(r.0, r.1, BOUNCE_DAMPING, vx * vx + vy * vy);
    assert RobotMotion.Dot(r.0 * 0.8, r.1 * 0.8, n.0, n.1) == 0.8 * RobotMotion.Dot(r.0, r.1, n.0, n.1);
  }

  /** The point `PUSH_DISTANCE` from the product along the normal towards
      the robot's position before the move; `None` (the source's NaN) when
      the robot stands exactly on the product. */
  function PushPoint(m: MathOracle, robot: Robot, p: Product): Option<(real, real)> {
    match Direction(m, robot.x - p.x, robot.y - p.y)
    case None => None
    case Some(n) => Some((p.x + n.0 * PUSH_DISTANCE, p.y + n.1 * PUSH_DISTANCE))
  }

  /** The pushed-out point is 3.2 from the product, so out of its reach. */
  lemma PushPointClearsProduct(m: MathOracle, robot: Robot, p: Product)
    requires ExactNonZero(m, robot.x - p.x, robot.y - p.y)
    ensures PushPoint(m, robot, p).Some?
    ensures var q := PushPoint(m, robot, p).value;
      RobotMotion.DistSq(q.0, q.1, p.x, p.y) == PUSH_DISTANCE * PUSH_DISTANCE &&
      !ProductHit(q.0, q.1, p)
  {
    DirectionIsUnit(m, robot.x - p.x, robot.y - p.y);
    var n := Direction(m, robot.x - p.x, robot.y - p.y).value;
    OffsetLength(p.x, p.y, n.0, n.1, PUSH_DISTANCE);
  }

  /** The bounced destination: the unit direction to the destination,
      reflected across the normal from the product to the robot, 50 units
      out from the robot and clamped 10 units inside the walls; `None` (the
      source's NaN) when either direction has zero length. */
  function BounceTarget(m: MathOracle, robot: Robot, p: Product): (r: Option<(real, real)>)
    ensures r.Some? ==> Abs(r.value.0) <= 115.0 && Abs(r.value.1) <= 65.0
  {
    match (Direction(m, robot.x - p.x, robot.y - p.y),
           Direction(m, robot.destX - robot.x, robot.destY - robot.y))
    case (Some(n), Some(u)) =>
      var r := RobotMotion.Reflect(u.0, u.1, n.0, n.1);
      Some((JsClamp(robot.x + r.0 * BOUNCE_DISTANCE,
                    -MockData.STORE_WIDTH / 2.0 + 10.0, MockData.STORE_WIDTH / 2.0 - 10.0),
            JsClamp(robot.y + r.1 * BOUNCE_DISTANCE,
                    -MockData.STORE_HEIGHT / 2.0 + 10.0, MockData.STORE_HEIGHT / 2.0 - 10.0)))
    case _ => None
  }

  /** A position the walkway test accepts; a NaN position never is. */
  predicate OnWalkway(p: Option<(real, real)>) {
    p.Some? && IsInAisleWalkway(p.value.0, p.value.1)
  }

  // ---------------------------------------------------------------------
  // One robot's tick

  /** Milliseconds since the robot last moved; 0 when it never has. */
  function Elapsed(robot: Robot, now: real): real {
    now - robot.lastMoveTime.GetOr(now)
  }

  /** The distance to the destination, as the oracle computes it. */
  function Distance(m: MathOracle, robot: Robot): real {
    m.sqrt(RobotMotion.DistSq(robot.destX, robot.destY, robot.x, robot.y))
  }

  /** The move of one tick: `speed * 0.1` along the direction to the
      destination (no move for a zero distance, which the tick never
      reaches since it re-targets below distance 2). */
  function Candidate(m: MathOracle, robot: Robot): (real, real) {
    var amount := robot.speed * (UPDATE_INTERVAL / 1000.0);
    match Direction(m, robot.destX - robot.x, robot.destY - robot.y)
    case None => (robot.x, robot.y)
    case Some(u) => (robot.x + u.0 * amount, robot.y + u.1 * amount)
  }

  /** An offset of `k` along a unit vector has squared length `k * k`. */
  lemma OffsetLength(x: real, y: real, ux: real, uy: real, k: real)
    requires ux * ux + uy * uy == 1.0
    ensures RobotMotion.DistSq(x + ux * k, y + uy * k, x, y) == k * k
  {
    RobotMotion.DistSqOffset(x + ux * k, y + uy * k, x, y, ux * k, uy * k);
    ScaledUnitLength(ux, uy, k);
  }

  /** With an exact root the move has length `speed * 0.1`. */
  lemma CandidateLength(m: MathOracle, robot: Robot)
    requires ExactNonZero(m, robot.destX - robot.x, robot.destY - robot.y)
    ensures var c := Candidate(m, robot); var k := robot.speed * (UPDATE_INTERVAL / 1000.0);
      RobotMotion.DistSq(c.0, c.1, robot.x, robot.y) == k * k
  {
    DirectionIsUnit(m, robot.destX - robot.x, robot.destY - robot.y);
    var u := Direction(m, robot.destX - robot.x, robot.destY - robot.y).value;
    OffsetLength(robot.x, robot.y, u.0, u.1, robot.speed * (UPDATE_INTERVAL / 1000.0));
  }

  /** The position a move from `(x, y)` towards `(nx, ny)` settles on: the
      full move when it stays on the walkway, else the x part alone, else
      the y part alone, else none. */
  function Slide(x: real, y: real, nx: real, ny: real): (r: Option<(real, real)>)
    ensures r.Some? ==> IsInAisleWalkway(r.value.0, r.value.1)
    ensures r.None? <==> !IsInAisleWalkway(nx, ny) && !IsInAisleWalkway(nx, y) && !IsInAisleWalkway(x, ny)
    ensures IsInAisleWalkway(nx, ny) ==> r == Some((nx, ny))
    ensures !IsInAisleWalkway(nx, ny) && IsInAisleWalkway(nx, y) ==> r == Some((nx, y))
    ensures !IsInAisleWalkway(nx, ny) && !IsInAisleWalkway(nx, y) && IsInAisleWalkway(x, ny) ==>
      r == Some((x, ny))
  {
    if IsInAisleWalkway(nx, ny) then Some((nx, ny))
    else if IsInAisleWalkway(nx, y) then Some((nx, y))
    else if IsInAisleWalkway(x, ny) then Some((x, ny))
    else None
  }

  /** The move timer after a tick that reached `(nx, ny)`: the current time
      when either coordinate changed by more than 0.01, else the old value,
      or the current time when the robot never moved. */
  function RefreshedMoveTime(robot: Robot, nx: real, ny: real, now: real): real {
    if RobotMotion.HasMoved(robot.x, robot.y, nx, ny) then now else robot.lastMoveTime.GetOr(now)
  }

  /** Which branch of the tick produced the result. */
  datatype TickCase =
    | Stuck                      // no move for over 3 s: new destination, timer restarted
    | Arrived                    // closer than 2 to the destination: new destination
    | Recovered                  // off the walkway: snapped back, new destination
    | Blocked                    // no slide stays on the walkway: new destination
    | Moved                      // the slide position was taken
    | Bounced(p: Product)        // a product was hit and the robot pushed out
    | BounceReverted(p: Product) // a product was hit; the push-out was not on the walkway

  /** The new robot after a tick that changed nothing but the destination
      (and possibly the move timer). */
  predicate OnlyRetargeted(robot: Robot, r: Robot) {
    r == robot.(destX := r.destX, destY := r.destY, lastMoveTime := r.lastMoveTime)
  }

  /** The destination after a bounce off product `p`, with the stream
      position after it: the clamped bounce target when it is on the
      walkway, and otherwise a fresh destination. */
  function BounceDestination(m: MathOracle, robot: Robot, p: Product, g0: Rng): (real, real, nat) {
    var b := BounceTarget(m, robot, p);
    if OnWalkway(b) then (b.value.0, b.value.1, g0.next)
    else var d := ValidDestination(g0); (d.x, d.y, d.next)
  }

  /** The postcondition of the product check for a robot whose slide
      position `(nx, ny)` is on the walkway. */
  ghost predicate CollidePost(robot: Robot, nx: real, ny: real, products: seq<Product>, now: real,
                              m: MathOracle, g0: Rng, r: Robot, g: Rng, outcome: TickCase)
  {
    (g.draw == g0.draw && g.next >= g0.next) &&
    (outcome == Moved || outcome.Bounced? || outcome.BounceReverted?) &&
    (outcome == Moved <==> CheckProductCollision(nx, ny, products) == None) &&
    (outcome == Moved ==>
      r.x == nx && r.y == ny && r.destX == robot.destX && r.destY == robot.destY && g == g0) &&
    (outcome.Bounced? ==>
      CheckProductCollision(nx, ny, products) == Some(outcome.p) &&
      PushPoint(m, robot, outcome.p) == Some((r.x, r.y)) &&
      (r.destX, r.destY, g.next) == BounceDestination(m, robot, outcome.p, g0)) &&
    (outcome.BounceReverted? ==>
      CheckProductCollision(nx, ny, products) == Some(outcome.p) &&
      !OnWalkway(PushPoint(m, robot, outcome.p)) && r.x == robot.x && r.y == robot.y &&
      var b := BounceDestination(m, robot, outcome.p, g0);
      var d := ValidDestination(g0.(next := b.2));
      r.destX == d.x && r.destY == d.y && g.next == d.next) &&
    (UnitDraws(g0) && outcome != Moved ==> LegacyDestination(r.destX, r.destY)) &&
    r == robot.(x := r.x, y := r.y, destX := r.destX, destY := r.destY,
                orientation := m.atan2(r.x - robot.x, r.y - robot.y),
                lastMoveTime := Some(RefreshedMoveTime(robot, r.x, r.y, now))) &&
    IsInAisleWalkway(r.x, r.y)
  }

  /** The product check and the heading update of the tick: no hit keeps
      the slide position; a hit bounces the destination (re-drawn when off
      the walkway) and pushes the robot out from the product, or, when the
      pushed-out point is off the walkway, keeps the robot in place with a
      fresh destination. */
  method Collide(robot: Robot, nx: real, ny: real, products: seq<Product>, now: real,
                 m: MathOracle, g0: Rng)
    returns (r: Robot, g: Rng, ghost outcome: TickCase)
    requires IsInAisleWalkway(robot.x, robot.y) && IsInAisleWalkway(nx, ny)
    ensures CollidePost(robot, nx, ny, products, now, m, g0, r, g, outcome)
  {
    g := g0;
    var newX, newY, newDestX, newDestY := nx, ny, robot.destX, robot.destY;
    outcome := Moved;
    var hit := CheckProductCollision(nx, ny, products);
    if hit.Some? {
      var p := hit.value;
      var bounce := BounceTarget(m, robot, p);
      if OnWalkway(bounce) {
        newDestX, newDestY := bounce.value.0, bounce.value.1;
      } else {
        newDestX, newDestY, g := GetValidDestination(g);
      }
      var pushed := PushPoint(m, robot, p);
      outcome := Bounced(p);
      if OnWalkway(pushed) {
        newX, newY := pushed.value.0, pushed.value.1;
      } else {
        newX, newY := robot.x, robot.y;
        newDestX, newDestY, g := GetValidDestination(g);
        outcome := BounceReverted(p);
      }
      if UnitDraws(g0) && outcome.Bounced? && OnWalkway(bounce) {
        assert IsInAisleWalkway(newDestX, newDestY);
      }
    }
    r := robot.(x := newX, y := newY, destX := newDestX, destY := newDestY,
                orientation := m.atan2(newX - robot.x, newY - robot.y),
                lastMoveTime := Some(RefreshedMoveTime(robot, newX, newY, now)));
  }

  /** The postcondition of one robot's tick for the robot `robot`, current
      time `now`, random stream `g0`, result `r` and stream `g`: branch
      `outcome` was taken, as the conditions on each branch say, and the
      result is as described at `TickCase`. The identity, name, variant,
      speed, load and task never change; a robot on the walkway stays on
      it; the blocked, moved and bounced branches, which stranded robots
      never reach, end on the walkway; every new destination is the one
      `getValidDestination` or the bounce gives at that point of the
      stream. */
  ghost predicate TickPost(robot: Robot, products: seq<Product>, now: real, m: MathOracle,
                           g0: Rng, r: Robot, g: Rng, outcome: TickCase)
  {
    var stuck := Elapsed(robot, now) > STUCK_TIMEOUT;
    var arrived := !stuck && Distance(m, robot) < 2.0;
    var cand := Candidate(m, robot);
    var slide := Slide(robot.x, robot.y, cand.0, cand.1);
    (g.draw == g0.draw && g.next >= g0.next) &&
    (outcome == Stuck <==> stuck) &&
    (outcome == Stuck ==> OnlyRetargeted(robot, r) && r.lastMoveTime == Some(now)) &&
    (outcome == Arrived <==> arrived) &&
    (outcome == Arrived ==> OnlyRetargeted(robot, r) && r.lastMoveTime == robot.lastMoveTime) &&
    (outcome == Recovered <==> !stuck && !arrived && !IsInAisleWalkway(robot.x, robot.y)) &&
    (outcome == Recovered ==>
      r == robot.(x := r.x, y := r.y, destX := r.destX, destY := r.destY) &&
      (r.x, r.y) == NearestValidPosition(robot.x, robot.y)) &&
    (outcome == Blocked <==>
      !stuck && !arrived && IsInAisleWalkway(robot.x, robot.y) && slide.None?) &&
    (outcome == Blocked ==> OnlyRetargeted(robot, r) && r.lastMoveTime == robot.lastMoveTime) &&
    (outcome == Stuck || outcome == Arrived || outcome == Recovered || outcome == Blocked ==>
      var d := ValidDestination(g0);
      r.destX == d.x && r.destY == d.y && g.next == d.next) &&
    (outcome == Moved || outcome.Bounced? || outcome.BounceReverted? ==>
      slide.Some? && CollidePost(robot, slide.value.0, slide.value.1, products, now, m, g0, r, g, outcome)) &&
    (UnitDraws(g0) && outcome != Moved ==> LegacyDestination(r.destX, r.destY)) &&
    (IsInAisleWalkway(robot.x, robot.y) ==> IsInAisleWalkway(r.x, r.y)) &&
    (outcome != Stuck && outcome != Arrived && outcome != Recovered ==> IsInAisleWalkway(r.x, r.y))
  }

  /** `r` and `g` are a possible result of one robot's tick. */
  ghost predicate TickOutcome(robot: Robot, products: seq<Product>, now: real, m: MathOracle,
                              g0: Rng, r: Robot, g: Rng)
  {
    exists outcome: TickCase :: TickPost(robot, products, now, m, g0, r, g, outcome)
  }

  /** The body of the `map` in the interval callback, for one robot at time
      `now`. */
  method TickRobot(robot: Robot, products: seq<Product>, now: real, m: MathOracle, g0: Rng)
    returns (r: Robot, g: Rng, ghost outcome: TickCase)
    ensures TickPost(robot, products, now, m, g0, r, g, outcome)
  {
    g := g0;
    var destX, destY;
    if Elapsed(robot, now) > STUCK_TIMEOUT {
      destX, destY, g := GetValidDestination(g);
      r, outcome := robot.(destX := destX, destY := destY, lastMoveTime := Some(now)), Stuck;
      return;
    }
    if Distance(m, robot) < 2.0 {
      destX, destY, g := GetValidDestination(g);
      r, outcome := robot.(destX := destX, destY := destY), Arrived;
      return;
    }
    var cand := Candidate(m, robot);
    if !IsInAisleWalkway(robot.x, robot.y) {
      var validX, validY := FindNearestValidPosition(robot.x, robot.y);
      destX, destY, g := GetValidDestination(g);
      r, outcome := robot.(x := validX, y := validY, destX := destX, destY := destY), Recovered;
      return;
    }
    var slide := Slide(robot.x, robot.y, cand.0, cand.1);
    if slide.None? {
      destX, destY, g := GetValidDestination(g);
      r, outcome := robot.(destX := destX, destY := destY), Blocked;
      return;
    }
    r, g, outcome := Collide(robot, slide.value.0, slide.value.1, products, now, m, g);
  }

  /** As written, a robot at (-105, 0) never leaves it: whichever branch
      the tick takes, the robot is re-targeted, or rescued in place, off
      the walkway. */
  lemma StrandedRobotStays(robot: Robot, products: seq<Product>, now: real, m: MathOracle,
                           g0: Rng, r: Robot, g: Rng)
    requires robot.x == -105.0 && robot.y == 0.0
    requires TickOutcome(robot, products, now, m, g0, r, g)
    ensures r.x == -105.0 && r.y == 0.0 && !IsInAisleWalkway(r.x, r.y)
  {
    NearestValidPositionCanStayOffWalkway();
    var outcome :| TickPost(robot, products, now, m, g0, r, g, outcome);
  }

  /** The tick with the corrected rescue: `TickRobot` with an off-walkway
      robot put on the nearest cross-aisle middle instead of the nearest
      aisle centre, everything else as the tick gives it. Every branch but
      the stuck and arrival re-targeting then ends on the walkway. */
  method TickRobotCorrected(robot: Robot, products: seq<Product>, now: real, m: MathOracle, g0: Rng)
    returns (r: Robot, g: Rng)
    ensures var stuck := Elapsed(robot, now) > STUCK_TIMEOUT;
      var arrived := !stuck && Distance(m, robot) < 2.0;
      var rescued := !stuck && !arrived && !IsInAisleWalkway(robot.x, robot.y);
      (!rescued ==> TickOutcome(robot, products, now, m, g0, r, g)) &&
      (rescued ==>
        (r.x, r.y) == NearestCrossAislePosition(robot.x, robot.y) &&
        var p := NearestValidPosition(robot.x, robot.y);
        TickOutcome(robot, products, now, m, g0, r.(x := p.0, y := p.1), g)) &&
      (!stuck && !arrived ==> IsInAisleWalkway(r.x, r.y))
  {
    ghost var outcome;
    r, g, outcome := TickRobot(robot, products, now, m, g0);
    assert TickPost(robot, products, now, m, g0, r, g, outcome);
    if Elapsed(robot, now) <= STUCK_TIMEOUT && Distance(m, robot) >= 2.0 && !IsInAisleWalkway(robot.x, robot.y) {
      ghost var asWritten := r;
      var validX, validY := FindNearestCrossAislePosition(robot.x, robot.y);
      r := r.(x := validX, y := validY);
      assert r.(x := asWritten.x, y := asWritten.y) == asWritten;
      NearestCrossAislePositionOnWalkway(robot.x, robot.y);
    }
  }

  // ---------------------------------------------------------------------
  // The tick over all robots

  /** Robots `0 .. i - 1` of `out` are tick results for the same robots of
      `robots`, threading the random streams `gs`. */
  ghost predicate TicksUpTo(robots: seq<Robot>, products: seq<Product>, now: real, m: MathOracle,
                            gs: seq<Rng>, out: seq<Robot>, i: nat)
  {
    i <= |robots| && |out| == i && |gs| == i + 1 &&
    forall j :: 0 <= j < i ==> TickOutcome(robots[j], products, now, m, gs[j], out[j], gs[j + 1])
  }

  lemma TicksExtend(robots: seq<Robot>, products: seq<Product>, now: real, m: MathOracle,
                    gs: seq<Rng>, out: seq<Robot>, i: nat, r: Robot, g: Rng)
    requires TicksUpTo(robots, products, now, m, gs, out, i) && i < |robots|
    requires TickOutcome(robots[i], products, now, m, gs[i], r, g)
    ensures TicksUpTo(robots, products, now, m, gs + [g], out + [r], i + 1)
  {
    var out', gs' := out + [r], gs + [g];
    forall j | 0 <= j < i + 1
      ensures TickOutcome(robots[j], products, now, m, gs'[j], out'[j], gs'[j + 1])
    {
      assert gs'[j] == gs[j];
      if j < i {
        assert out'[j] == out[j] && gs'[j + 1] == gs[j + 1];
      } else {
        assert out'[j] == r && gs'[j + 1] == g;
      }
    }
  }

  /** The interval callback: every robot, in order, gets one tick at time
      `now`, with the random stream as the robots before it left it. */
  method Tick(robots: seq<Robot>, products: seq<Product>, now: real, m: MathOracle, g0: Rng)
    returns (out: seq<Robot>, g: Rng, ghost gs: seq<Rng>)
    ensures |out| == |robots| && |gs| == |robots| + 1 && gs[0] == g0 && g == gs[|robots|]
    ensures forall i :: 0 <= i < |robots| ==>
      TickOutcome(robots[i], products, now, m, gs[i], out[i], gs[i + 1])
  {
    out, g, gs := [], g0, [g0];
    var i := 0;
    while i < |robots|
      invariant 0 <= i <= |robots|
      invariant TicksUpTo(robots, products, now, m, gs, out, i) && gs[0] == g0 && g == gs[i]
    {
      var r, g';
      ghost var outcome;
      r, g', outcome := TickRobot(robots[i], products, now, m, g);
      assert TickOutcome(robots[i], products, now, m, g, r, g');
      TicksExtend(robots, products, now, m, gs, out, i, r, g');
      out, gs, g := out + [r], gs + [g'], g';
      i := i + 1;
    }
  }

  /** A robot that starts on the walkway is on it after every tick. */
  lemma TickKeepsWalkway(robot: Robot, products: seq<Product>, now: real, m: MathOracle,
                         g0: Rng, r: Robot, g: Rng)
    requires TickOutcome(robot, products, now, m, g0, r, g)
    requires IsInAisleWalkway(robot.x, robot.y)
    ensures IsInAisleWalkway(r.x, r.y)
    ensures r.id == robot.id && r.speed == robot.speed && r.task == robot.task
  {
    var outcome :| TickPost(robot, products, now, m, g0, r, g, outcome);
  }
}
