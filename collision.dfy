/** The walk-through's wall and furniture collision test
    (src/components/architecture-walkthrough/collision.ts): a circle of the
    given radius on the floor plane against a fixed list of axis-aligned
    boxes. */
module Collision {
  import opened Numeric

  datatype Vec3 = Vec3(x: real, y: real, z: real)

  /** An axis-aligned box by its two corners. */
  datatype CollisionBox = CollisionBox(min: Vec3, max: Vec3)

  /** The back wall, the side walls, four columns and three pieces of
      furniture. */
  const COLLISION_BOXES: seq<CollisionBox> := [
    CollisionBox(Vec3(-15.0, 0.0, -10.15), Vec3(15.0, 5.0, -9.85)),
    CollisionBox(Vec3(-15.15, 0.0, -5.0), Vec3(-14.85, 5.0, 15.0)),
    CollisionBox(Vec3(14.85, 0.0, -5.0), Vec3(15.15, 5.0, 15.0)),
    CollisionBox(Vec3(-8.4, 0.0, -5.4), Vec3(-7.6, 5.0, -4.6)),
    CollisionBox(Vec3(7.6, 0.0, -5.4), Vec3(8.4, 5.0, -4.6)),
    CollisionBox(Vec3(-8.4, 0.0, 4.6), Vec3(-7.6, 5.0, 5.4)),
    CollisionBox(Vec3(7.6, 0.0, 4.6), Vec3(8.4, 5.0, 5.4)),
    CollisionBox(Vec3(-5.8, 0.0, -5.8), Vec3(-4.2, 1.5, -4.2)),
    CollisionBox(Vec3(4.2, 0.0, -5.8), Vec3(5.8, 1.5, -4.2)),
    CollisionBox(Vec3(-0.8, 0.0, -0.8), Vec3(0.8, 1.5, 0.8))
  ]

  /** Every listed box has its minimum corner below its maximum corner. */
  predicate WellFormed(b: CollisionBox) {
    b.min.x <= b.max.x && b.min.y <= b.max.y && b.min.z <= b.max.z
  }

  lemma BoxesWellFormed()
    ensures |COLLISION_BOXES| == 10
    ensures forall i :: 0 <= i < |COLLISION_BOXES| ==> WellFormed(COLLISION_BOXES[i])
  {
  }

  /** The point's coordinate clamped into `[lo, hi]`: the nearest point of
      the box along one axis. */
  function ClosestOnAxis(v: real, lo: real, hi: real): (c: real)
    requires lo <= hi
    ensures lo <= c <= hi
    ensures lo <= v <= hi ==> c == v
    ensures v < lo ==> c == lo
    ensures v > hi ==> c == hi
  {
    Max(lo, Min(v, hi))
  }

  /** The squared distance on the floor plane (x and z) from the point to
      the box's closest point. */
  function BoxDistSq(p: Vec3, b: CollisionBox): (d: real)
    requires WellFormed(b)
    ensures d >= 0.0
  {
    var dx := p.x - ClosestOnAxis(p.x, b.min.x, b.max.x);
    var dz := p.z - ClosestOnAxis(p.z, b.min.z, b.max.z);
    MulNonneg(Abs(dx), Abs(dx));
    MulNonneg(Abs(dz), Abs(dz));
    assert dx * dx == Abs(dx) * Abs(dx) && dz * dz == Abs(dz) * Abs(dz);
    dx * dx + dz * dz
  }

  /** The circle reaches into the box. */
  predicate Hits(p: Vec3, radius: real, b: CollisionBox)
    requires WellFormed(b)
  {
    BoxDistSq(p, b) < radius * radius
  }

  /** The loop over the boxes with its early `return true`: true exactly
      when some box is hit. */
  function CollidesWithAny(boxes: seq<CollisionBox>, p: Vec3, radius: real): (hit: bool)
    requires forall i :: 0 <= i < |boxes| ==> WellFormed(boxes[i])
    ensures hit <==> exists i :: 0 <= i < |boxes| && Hits(p, radius, boxes[i])
  {
    if |boxes| == 0 then false
    else if Hits(p, radius, boxes[0]) then true
    else
      var rest := CollidesWithAny(boxes[1..], p, radius);
      assert forall i :: 1 <= i < |boxes| ==> boxes[1..][i - 1] == boxes[i];
      rest
  }

  /** `checkCollision`. */
  function CheckCollision(p: Vec3, radius: real): (hit: bool)
    ensures hit <==> exists i :: 0 <= i < |COLLISION_BOXES| && Hits(p, radius, COLLISION_BOXES[i])
  {
    BoxesWellFormed();
    CollidesWithAny(COLLISION_BOXES, p, radius)
  }

  /** The box distance does not depend on the height of the point. */
  lemma BoxDistIgnoresHeight(p: Vec3, y: real, b: CollisionBox)
    requires WellFormed(b)
    ensures BoxDistSq(p, b) == BoxDistSq(p.(y := y), b)
  {
  }

  /** The height of the point is never consulted. */
  lemma IgnoresHeight(boxes: seq<CollisionBox>, p: Vec3, y: real, radius: real)
    requires forall i :: 0 <= i < |boxes| ==> WellFormed(boxes[i])
    ensures CollidesWithAny(boxes, p, radius) == CollidesWithAny(boxes, p.(y := y), radius)
  {
    forall i | 0 <= i < |boxes|
      ensures Hits(p, radius, boxes[i]) == Hits(p.(y := y), radius, boxes[i])
    {
      BoxDistIgnoresHeight(p, y, boxes[i]);
    }
  }

  /** `checkCollision` never reads the height of the point. */
  lemma CheckCollisionIgnoresHeight(p: Vec3, y: real, radius: real)
    ensures CheckCollision(p, radius) == CheckCollision(p.(y := y), radius)
  {
    BoxesWellFormed();
    IgnoresHeight(COLLISION_BOXES, p, y, radius);
  }

  /** A point inside a box's floor footprint is at distance 0 from it. */
  lemma InsideFootprintDistance(p: Vec3, b: CollisionBox)
    requires WellFormed(b)
    requires b.min.x <= p.x <= b.max.x && b.min.z <= p.z <= b.max.z
    ensures BoxDistSq(p, b) == 0.0
  {
    assert ClosestOnAxis(p.x, b.min.x, b.max.x) == p.x;
    assert ClosestOnAxis(p.z, b.min.z, b.max.z) == p.z;
  }

  /** A non-positive value is below any product of two positive values. */
  lemma ProductAbove(x: real, y: real, e: real)
    requires x > 0.0 && y > 0.0 && e <= 0.0
    ensures e < x * y
  {
    MulPos(x, y);
  }

  /** A non-positive value is below the square of any non-zero radius. */
  lemma SquareAbove(r: real, e: real)
    requires r != 0.0 && e <= 0.0
    ensures e < r * r
  {
    if r > 0.0 {
      ProductAbove(r, r, e);
    } else {
      ProductAbove(-r, -r, e);
    }
  }

  /** A point inside the floor footprint of one of the boxes collides for
      every non-zero radius. */
  lemma InsideFootprintCollides(boxes: seq<CollisionBox>, p: Vec3, radius: real, i: nat)
    requires forall k :: 0 <= k < |boxes| ==> WellFormed(boxes[k])
    requires i < |boxes| && radius != 0.0
    requires boxes[i].min.x <= p.x <= boxes[i].max.x && boxes[i].min.z <= p.z <= boxes[i].max.z
    ensures CollidesWithAny(boxes, p, radius)
  {
    InsideFootprintDistance(p, boxes[i]);
    SquareAbove(radius, BoxDistSq(p, boxes[i]));
    assert Hits(p, radius, boxes[i]);
  }

  /** A collision at a radius is a collision at every larger radius. */
  lemma MonotoneInRadius(boxes: seq<CollisionBox>, p: Vec3, r: real, r': real)
    requires forall k :: 0 <= k < |boxes| ==> WellFormed(boxes[k])
    requires 0.0 <= r <= r'
    requires CollidesWithAny(boxes, p, r)
    ensures CollidesWithAny(boxes, p, r')
  {
    var i :| 0 <= i < |boxes| && Hits(p, r, boxes[i]);
    SquareMonotone(r, r');
    assert Hits(p, r', boxes[i]);
  }

  /** `checkCollision` is monotone in the radius. */
  lemma CheckCollisionMonotone(p: Vec3, r: real, r': real)
    requires 0.0 <= r <= r'
    requires CheckCollision(p, r)
    ensures CheckCollision(p, r')
  {
    BoxesWellFormed();
    MonotoneInRadius(COLLISION_BOXES, p, r, r');
  }

  /** With no radius nothing collides. */
  lemma ZeroRadiusNeverCollides(boxes: seq<CollisionBox>, p: Vec3)
    requires forall k :: 0 <= k < |boxes| ==> WellFormed(boxes[k])
    ensures !CollidesWithAny(boxes, p, 0.0)
  {
  }
}
