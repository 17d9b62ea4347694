/** The page's layout helpers and the generators of the demo store
    (src/components/store-map/mockData.ts): the layout buffer handed to the
    engine, the orientation swap, aisle centres, product placement along
    the shelves and robot placement in the cross-aisles. */
module MockData {
  import opened Wrappers
  import opened Numeric
  import opened Constants
  import opened Grid
  import opened Text
  import opened StoreTypes

  const STORE_WIDTH: real := 250.0
  const STORE_HEIGHT: real := 150.0

  /** `STORE_BOUNDS` as the `[width, height]` buffer the simulation sends. */
  const STORE_BOUNDS: seq<real> := [STORE_WIDTH, STORE_HEIGHT]

  // ---------------------------------------------------------------------
  // Layout

  /** `aisleConfigToBuffer`: the ten settings in the engine's buffer order,
      the orientation as 1 (horizontal) or 0 (vertical). */
  function AisleConfigToBuffer(c: AisleConfig): (buf: seq<real>)
    ensures |buf| == 10
  {
    [c.storeWidth, c.storeHeight, c.count as real, c.spacing, c.width, c.startOffset,
     c.walkwayWidth, c.crossAisleBuffer, c.outerWalkwayOffset,
     if c.orientation == Horizontal then 1.0 else 0.0]
  }

  /** The engine's layout record holding the page's settings. */
  function ToStoreConfig(c: AisleConfig): StoreConfig {
    StoreConfig(c.storeWidth, c.storeHeight, c.count, c.spacing, c.width, c.startOffset,
                c.walkwayWidth, c.crossAisleBuffer, c.outerWalkwayOffset, c.orientation)
  }

  /** The engine decodes the page's buffer back to the same settings (the
      aisle count survives the `as i32` cast when it fits in an `i32`). */
  lemma AisleConfigBufferRoundTrip(c: AisleConfig)
    requires IsI32(c.count)
    ensures FromBuffer(AisleConfigToBuffer(c)) == ToStoreConfig(c)
  {
    var buf := AisleConfigToBuffer(c);
    assert Trunc(c.count as real) == c.count;
    assert FromBuffer(buf).rowCount == c.count;
  }

  /** `transformPosition`: swap the coordinates for horizontal aisles. */
  function TransformPosition(x: real, y: real, o: Orientation): Point {
    if o == Horizontal then Point(y, x) else Point(x, y)
  }

  /** The swap undoes itself, and it is the engine's `transform_coords`. */
  lemma TransformPositionInvolutive(x: real, y: real, c: AisleConfig)
    ensures var p := TransformPosition(x, y, c.orientation);
      TransformPosition(p.x, p.y, c.orientation) == Point(x, y) &&
      ToStoreConfig(c).TransformCoords(x, y) == (p.x, p.y)
  {
  }

  /** `getAisleCenterCoord`. */
  function GetAisleCenterCoord(aisleIndex: int, c: AisleConfig): real {
    -c.storeWidth / 2.0 + c.startOffset + (aisleIndex as real) * c.spacing
  }

  /** The page and the engine place aisle `i` at the same coordinate. */
  lemma AisleCenterAgreesWithEngine(aisleIndex: int, c: AisleConfig)
    ensures GetAisleCenterCoord(aisleIndex, c) == ToStoreConfig(c).RowCenter(aisleIndex)
  {
  }

  // ---------------------------------------------------------------------
  // Integer division facts

  /** A quotient and remainder that fit are the quotient and remainder. */
  lemma DivModUnique(n: int, d: int, q: int, r: int)
    requires d > 0 && 0 <= r < d && n == q * d + r
    ensures n / d == q && n % d == r
  {
    var q', r' := n / d, n % d;
    assert n == q' * d + r';
    MulOutside(q' - q, d);
    assert (q' - q) * d == r - r';
  }

  /** A non-zero multiple of `d > 0` is at least `d` away from 0. */
  lemma MulOutside(k: int, d: int)
    requires d > 0
    ensures k >= 1 ==> k * d >= d
    ensures k <= -1 ==> k * d <= -d
  {
    if k >= 1 {
      assert k * d - d == (k - 1) * d;
    } else if k <= -1 {
      assert k * d + d == (k + 1) * d;
    }
  }

  /** Slot `i` on side `side` (0 left, 1 right) of aisle `a`, with `ppa`
      slots per side, is product number `(2a + side) ppa + i`, and that
      number decodes back to the same aisle, side and slot. */
  lemma SlotDecodes(a: nat, side: nat, i: nat, ppa: int, base: int, k: int)
    requires ppa > 0 && side < 2 && i < ppa && base == 2 * a * ppa && k == base + side * ppa + i
    ensures k / (2 * ppa) == a && (k % (2 * ppa) >= ppa <==> side == 1) && k % ppa == i
  {
    var r := side * ppa + i;
    assert k == a * (2 * ppa) + r;
    DivModUnique(k, 2 * ppa, a, r);
    assert k == (2 * a + side) * ppa + i;
    DivModUnique(k, ppa, 2 * a + side, i);
  }

  lemma NextAisleBase(a: int, pp: int)
    ensures 2 * (a + 1) * pp == 2 * a * pp + 2 * pp
  {
  }

  // ---------------------------------------------------------------------
  // Products

  /** `Math.floor(count / (config.count * 2))`. With no aisles the aisle
      loop never runs and the value is unused; it is 0 here. */
  function ProductsPerAisle(count: int, aisles: int): int {
    if aisles > 0 then count / (2 * aisles) else 0
  }

  /** How many products the shelf loops place before the fill loop. */
  function ShelfCount(count: int, aisles: int): nat {
    var ppa := ProductsPerAisle(count, aisles);
    if aisles > 0 && ppa > 0 then MinInt(count, 2 * aisles * ppa) else 0
  }

  /** The `productId >= count` guard never stops the shelf loops early:
      every aisle gets its full `2 ppa` products, and they never exceed
      the requested count. */
  lemma ShelvesFit(count: int, aisles: int)
    ensures ShelfCount(count, aisles) <= MaxInt(count, 0)
    ensures aisles > 0 && ProductsPerAisle(count, aisles) > 0 ==>
      ShelfCount(count, aisles) == 2 * aisles * ProductsPerAisle(count, aisles)
  {
    if aisles > 0 {
      var ppa := ProductsPerAisle(count, aisles);
      var r := count % (2 * aisles);
      assert count == ppa * (2 * aisles) + r;
      assert 2 * aisles * ppa == ppa * (2 * aisles);
    }
  }

  /** Random value `j` after `g`'s current position. */
  function Nth(g: Rng, j: nat): real {
    g.draw(g.next + j)
  }

  /** Where shelf product `k` goes: aisle `k / (2 ppa)`, the left face for
      the first `ppa` products of the aisle and the right face for the
      next `ppa`, slot `k % ppa` along the aisle, jittered by its two
      random values `d1` and `d2`. */
  function ShelfPosition(c: AisleConfig, ppa: int, k: nat, d1: real, d2: real): Point
    requires ppa > 0
  {
    var face := if k % (2 * ppa) >= ppa then c.width / 2.0 else -c.width / 2.0;
    var i := k % ppa;
    TransformPosition(
      GetAisleCenterCoord(k / (2 * ppa), c) + face + (d1 - 0.5) * 1.5,
      -c.storeHeight / 2.0 + 15.0 + ((i as real) / (ppa as real)) * (c.storeHeight - 30.0) + (d2 - 0.5) * 2.0,
      c.orientation)
  }

  /** Where a fill product goes: anywhere in the store, from its two
      random values. */
  function FillPosition(c: AisleConfig, d1: real, d2: real): Point {
    TransformPosition(d1 * c.storeWidth - c.storeWidth / 2.0,
                      d2 * c.storeHeight - c.storeHeight / 2.0, c.orientation)
  }

  /** Product `k` of `generateProducts(count, c)`, named `product-k`, at a
      shelf slot for the first `ShelfCount` products and anywhere after. */
  function GeneratedProduct(c: AisleConfig, count: int, k: nat, d1: real, d2: real): Product {
    var ppa := ProductsPerAisle(count, c.count);
    var pos := if k < ShelfCount(count, c.count) && ppa > 0 then ShelfPosition(c, ppa, k, d1, d2)
               else FillPosition(c, d1, d2);
    Product(Tagged("product-", k), pos.x, pos.y)
  }

  /** Product `k` built from the random values `2k` and `2k + 1` of `g0`. */
  function ProductFromStream(c: AisleConfig, count: int, k: nat, g0: Rng): Product {
    GeneratedProduct(c, count, k, Nth(g0, 2 * k), Nth(g0, 2 * k + 1))
  }

  /** Shelf product `k` of the shelf loops, from the stream. */
  function ShelfFromStream(c: AisleConfig, ppa: int, k: nat, g0: Rng): Product
    requires ppa > 0
  {
    var pos := ShelfPosition(c, ppa, k, Nth(g0, 2 * k), Nth(g0, 2 * k + 1));
    Product(Tagged("product-", k), pos.x, pos.y)
  }

  /** The shelf products so far: `|products|` of them, product `k` at its
      shelf slot from the random values `2k`, `2k + 1`, and the stream
      advanced past them. */
  ghost predicate ShelvedSoFar(c: AisleConfig, ppa: int, products: seq<Product>, g: Rng, g0: Rng) {
    (|products| > 0 ==> ppa > 0) &&
    g.draw == g0.draw && g.next == g0.next + 2 * |products| &&
    forall k :: 0 <= k < |products| ==> ppa > 0 && products[k] == ShelfFromStream(c, ppa, k, g0)
  }

  /** One shelf face of one aisle (the inner loops of `generateProducts`):
      up to `ppa` products along the face at `aisleX + face`, stopping once
      `count` products exist. `start` (= `base + side * ppa`) products came
      before. */
  method ShelfSide(c: AisleConfig, count: int, ppa: int, aisleX: real, face: real,
                   products0: seq<Product>, g1: Rng,
                   ghost aisle: nat, ghost side: nat, ghost base: int, ghost start: int, ghost g0: Rng)
    returns (products: seq<Product>, g: Rng)
    requires side < 2 && aisleX == GetAisleCenterCoord(aisle, c)
    requires face == (if side == 1 then c.width / 2.0 else -c.width / 2.0)
    requires base == 2 * aisle * MaxInt(ppa, 0) && start == base + side * MaxInt(ppa, 0)
    requires |products0| == MinInt(MaxInt(count, 0), start)
    requires ShelvedSoFar(c, ppa, products0, g1, g0)
    ensures |products| == MinInt(MaxInt(count, 0), start + MaxInt(ppa, 0))
    ensures ShelvedSoFar(c, ppa, products, g, g0)
  {
    products, g := products0, g1;
    var i := 0;
    while i < ppa
      invariant 0 <= i <= MaxInt(ppa, 0)
      invariant |products| == MinInt(MaxInt(count, 0), start + i)
      invariant ShelvedSoFar(c, ppa, products, g, g0)
    {
      if |products| >= count {
        break;
      }
      var k := |products|;
      var d1, g2 := Random(g).0, Random(g).1;
      var d2, g3 := Random(g2).0, Random(g2).1;
      var pos := TransformPosition(
        aisleX + face + (d1 - 0.5) * 1.5,
        -c.storeHeight / 2.0 + 15.0 + ((i as real) / (ppa as real)) * (c.storeHeight - 30.0) + (d2 - 0.5) * 2.0,
        c.orientation);
      ShelfStep(c, ppa, aisle, side, base, i, products, g, g0, d1, d2, pos);
      products := products + [Product(Tagged("product-", k), pos.x, pos.y)];
      g := g3;
      i := i + 1;
    }
  }

  /** The product the inner loop builds at slot `i` of face `side` of
      aisle `aisle` is shelf product `k`, so appending it keeps the loop's
      invariant. */
  lemma ShelfStep(c: AisleConfig, ppa: int, aisle: nat, side: nat, base: int, i: nat,
                  products: seq<Product>, g: Rng, g0: Rng, d1: real, d2: real, pos: Point)
    requires ppa > 0 && side < 2 && i < ppa && base == 2 * aisle * ppa
    requires |products| == base + side * ppa + i
    requires ShelvedSoFar(c, ppa, products, g, g0)
    requires d1 == g.draw(g.next) && d2 == g.draw(g.next + 1)
    requires pos == TransformPosition(
        GetAisleCenterCoord(aisle, c) + (if side == 1 then c.width / 2.0 else -c.width / 2.0) + (d1 - 0.5) * 1.5,
        -c.storeHeight / 2.0 + 15.0 + ((i as real) / (ppa as real)) * (c.storeHeight - 30.0) + (d2 - 0.5) * 2.0,
        c.orientation)
    ensures ShelvedSoFar(c, ppa, products + [Product(Tagged("product-", |products|), pos.x, pos.y)],
                         g.(next := g.next + 2), g0)
  {
    var k := |products|;
    SlotDecodes(aisle, side, i, ppa, base, k);
    assert pos == ShelfPosition(c, ppa, k, d1, d2);
    ShelvedOneMore(c, ppa, products, g, g0, Product(Tagged("product-", k), pos.x, pos.y));
  }

  /** Appending the next shelf product, two values further on, keeps the
      shelf loop's invariant. */
  lemma ShelvedOneMore(c: AisleConfig, ppa: int, products: seq<Product>, g: Rng, g0: Rng, p: Product)
    requires ppa > 0 && ShelvedSoFar(c, ppa, products, g, g0)
    requires p == ShelfFromStream(c, ppa, |products|, g0)
    ensures ShelvedSoFar(c, ppa, products + [p], g.(next := g.next + 2), g0)
  {
    var ps := products + [p];
    forall k | 0 <= k < |ps|
      ensures ps[k] == ShelfFromStream(c, ppa, k, g0)
    {
      if k < |products| {
        assert ps[k] == products[k];
      }
    }
  }

  /** The fill loop of `generateProducts`: products anywhere in the store
      until there are `count`. */
  method FillRest(c: AisleConfig, count: int, products0: seq<Product>, g1: Rng, ghost g0: Rng)
    returns (products: seq<Product>, g: Rng)
    requires ShelfCount(count, c.count) <= |products0| <= MaxInt(count, 0)
    requires g1.draw == g0.draw && g1.next == g0.next + 2 * |products0|
    requires forall k :: 0 <= k < |products0| ==> products0[k] == ProductFromStream(c, count, k, g0)
    ensures |products| == MaxInt(count, 0)
    ensures g.draw == g0.draw && g.next == g0.next + 2 * |products|
    ensures forall k :: 0 <= k < |products| ==> products[k] == ProductFromStream(c, count, k, g0)
  {
    products, g := products0, g1;
    while |products| < count
      invariant ShelfCount(count, c.count) <= |products| <= MaxInt(count, 0)
      invariant g.draw == g0.draw && g.next == g0.next + 2 * |products|
      invariant forall k :: 0 <= k < |products| ==> products[k] == ProductFromStream(c, count, k, g0)
      decreases count - |products|
    {
      var k := |products|;
      var d1, g2 := Random(g).0, Random(g).1;
      var d2, g3 := Random(g2).0, Random(g2).1;
      var pos := TransformPosition(d1 * c.storeWidth - c.storeWidth / 2.0,
                                   d2 * c.storeHeight - c.storeHeight / 2.0, c.orientation);
      FillProductAt(c, count, k, g0, d1, d2);
      ProductsOneMore(c, count, products, g0, Product(Tagged("product-", k), pos.x, pos.y));
      products := products + [Product(Tagged("product-", k), pos.x, pos.y)];
      g := g3;
    }
  }

  /** Past the shelf products, product `k` is a fill product. */
  lemma FillProductAt(c: AisleConfig, count: int, k: nat, g0: Rng, d1: real, d2: real)
    requires k >= ShelfCount(count, c.count)
    requires d1 == Nth(g0, 2 * k) && d2 == Nth(g0, 2 * k + 1)
    ensures ProductFromStream(c, count, k, g0) == Product(Tagged("product-", k), FillPosition(c, d1, d2).x, FillPosition(c, d1, d2).y)
  {
  }

  /** Appending product `|products|` keeps the product loops' invariant. */
  lemma ProductsOneMore(c: AisleConfig, count: int, products: seq<Product>, g0: Rng, p: Product)
    requires forall k :: 0 <= k < |products| ==> products[k] == ProductFromStream(c, count, k, g0)
    requires p == ProductFromStream(c, count, |products|, g0)
    ensures forall k :: 0 <= k < |products| + 1 ==> (products + [p])[k] == ProductFromStream(c, count, k, g0)
  {
  }

  /** `generateProducts`: `max(count, 0)` products, product `k` built from
      the random values `2k` and `2k + 1` of the stream. */
  method GenerateProducts(count: int, c: AisleConfig, g0: Rng) returns (products: seq<Product>, g: Rng)
    ensures |products| == MaxInt(count, 0)
    ensures g.draw == g0.draw && g.next == g0.next + 2 * |products|
    ensures forall k :: 0 <= k < |products| ==> products[k] == ProductFromStream(c, count, k, g0)
  {
    var ppa := ProductsPerAisle(count, c.count);
    ghost var pp := MaxInt(ppa, 0);
    products, g := [], g0;
    var aisle := 0;
    ghost var base := 0;  // the slots of the aisles before this one
    while aisle < c.count
      invariant 0 <= aisle && (c.count > 0 ==> aisle <= c.count)
      invariant base == 2 * aisle * pp
      invariant |products| == MinInt(MaxInt(count, 0), base)
      invariant ShelvedSoFar(c, ppa, products, g, g0)
    {
      var aisleX := GetAisleCenterCoord(aisle, c);
      products, g := ShelfSide(c, count, ppa, aisleX, -c.width / 2.0, products, g, aisle, 0, base, base, g0);
      products, g := ShelfSide(c, count, ppa, aisleX, c.width / 2.0, products, g, aisle, 1, base, base + pp, g0);
      NextAisleBase(aisle, pp);
      base := base + 2 * pp;
      aisle := aisle + 1;
    }
    ShelvesFit(count, c.count);
    assert |products| == ShelfCount(count, c.count);
    assert forall k :: 0 <= k < |products| ==> products[k] == ProductFromStream(c, count, k, g0);
    products, g := FillRest(c, count, products, g, g0);
  }

  /** Product `k` is named `product-k`, so the generated ids are distinct. */
  lemma {:induction false} GeneratedProductIdsDistinct(c: AisleConfig, count: int, products: seq<Product>, g0: Rng)
    requires forall k :: 0 <= k < |products| ==> products[k] == ProductFromStream(c, count, k, g0)
    ensures forall k :: 0 <= k < |products| ==> products[k].id == Tagged("product-", k)
    ensures forall j, k :: 0 <= j < k < |products| ==> products[j].id != products[k].id
  {
    forall j, k | 0 <= j < k < |products|
      ensures products[j].id != products[k].id
    {
      if products[j].id == products[k].id {
        assert products[j].id == Tagged("product-", j);
        assert products[k].id == Tagged("product-", k);
        TaggedInjective("product-", j, k);
      }
    }
  }

  lemma MulBelowOne(t: real, v: real)
    requires 0.0 <= t < 1.0 && v >= 0.0
    ensures 0.0 <= t * v <= v
  {
    MulNonneg(t, v);
    MulNonneg(1.0 - t, v);
  }

  /** Shelf product `k` belongs to an existing aisle `k / (2 ppa)`; it lies
      within 0.75 of that aisle's left or right shelf face, and along the
      aisle at least 14 in from either end of the store, when its random
      values lie in [0, 1) and the store is at least 30 deep. */
  lemma ShelfProductOnShelf(c: AisleConfig, count: int, k: nat, d1: real, d2: real)
    requires k < ShelfCount(count, c.count)
    requires 0.0 <= d1 < 1.0 && 0.0 <= d2 < 1.0 && c.storeHeight >= 30.0
    ensures var ppa := ProductsPerAisle(count, c.count);
      var a := k / (2 * ppa);
      var p := GeneratedProduct(c, count, k, d1, d2);
      var q := TransformPosition(p.x, p.y, c.orientation);
      0 <= a < c.count &&
      (Abs(q.x - (GetAisleCenterCoord(a, c) - c.width / 2.0)) <= 0.75 ||
       Abs(q.x - (GetAisleCenterCoord(a, c) + c.width / 2.0)) <= 0.75) &&
      -c.storeHeight / 2.0 + 14.0 <= q.y < c.storeHeight / 2.0 - 14.0
  {
    var ppa := ProductsPerAisle(count, c.count);
    ShelvesFit(count, c.count);
    var a := k / (2 * ppa);
    assert k < c.count * (2 * ppa);
    AisleBelow(k, 2 * ppa, c.count);
    var i := k % ppa;
    var along := ((i as real) / (ppa as real)) * (c.storeHeight - 30.0);
    var face := if k % (2 * ppa) >= ppa then c.width / 2.0 else -c.width / 2.0;
    var cx := GetAisleCenterCoord(a, c) + face + (d1 - 0.5) * 1.5;
    var cy := -c.storeHeight / 2.0 + 15.0 + along + (d2 - 0.5) * 2.0;
    SlotDepth(i, ppa, c.storeHeight, d2);
    var p := GeneratedProduct(c, count, k, d1, d2);
    assert ShelfPosition(c, ppa, k, d1, d2) == TransformPosition(cx, cy, c.orientation);
    assert Point(p.x, p.y) == TransformPosition(cx, cy, c.orientation);
    TransformPositionInvolutive(cx, cy, c);
    assert TransformPosition(p.x, p.y, c.orientation) == Point(cx, cy);
  }

  /** Slot `i` of `ppa` along an aisle, with its jitter, stays 14 in from
      both ends of a store at least 30 deep. */
  lemma SlotDepth(i: int, ppa: int, h: real, d: real)
    requires 0 <= i < ppa && h >= 30.0 && 0.0 <= d < 1.0
    ensures var y := -h / 2.0 + 15.0 + ((i as real) / (ppa as real)) * (h - 30.0) + (d - 0.5) * 2.0;
      -h / 2.0 + 14.0 <= y < h / 2.0 - 14.0
  {
    var t := (i as real) / (ppa as real);
    assert 0.0 <= t < 1.0 by {
      DivMul(i as real, ppa as real);
    }
    ShelfDepth(t, h, d);
  }

  lemma ShelfDepth(t: real, h: real, d: real)
    requires 0.0 <= t < 1.0 && h >= 30.0 && 0.0 <= d < 1.0
    ensures -h / 2.0 + 14.0 <= -h / 2.0 + 15.0 + t * (h - 30.0) + (d - 0.5) * 2.0 < h / 2.0 - 14.0
  {
    var v := h - 30.0;
    MulBelowOne(t, v);
    var along := t * v;
    assert -h / 2.0 + 15.0 + along + (d - 0.5) * 2.0 < h / 2.0 - 14.0;
  }

  lemma AisleBelow(k: nat, d: int, n: int)
    requires d > 0 && k < n * d
    ensures 0 <= k / d < n
  {
    var q, r := k / d, k % d;
    assert k == q * d + r;
    MulOutside(q - n + 1, d);
    assert q * d - n * d == (q - n) * d;
  }

  /** A fill product lies inside the store when its random values lie in
      [0, 1). */
  lemma FillPositionInStore(c: AisleConfig, d1: real, d2: real)
    requires 0.0 <= d1 < 1.0 && 0.0 <= d2 < 1.0 && c.storeWidth > 0.0 && c.storeHeight > 0.0
    ensures var p := FillPosition(c, d1, d2);
      var q := TransformPosition(p.x, p.y, c.orientation);
      -c.storeWidth / 2.0 <= q.x < c.storeWidth / 2.0 &&
      -c.storeHeight / 2.0 <= q.y < c.storeHeight / 2.0
  {
    var x, y := d1 * c.storeWidth - c.storeWidth / 2.0, d2 * c.storeHeight - c.storeHeight / 2.0;
    CenteredDraw(d1, c.storeWidth);
    CenteredDraw(d2, c.storeHeight);
    var p := FillPosition(c, d1, d2);
    assert p == TransformPosition(x, y, c.orientation);
    TransformPositionInvolutive(x, y, c);
    assert TransformPosition(p.x, p.y, c.orientation) == Point(x, y);
  }

  /** `t * v - v / 2` for `t` in [0, 1) lies in [-v/2, v/2). */
  lemma CenteredDraw(t: real, v: real)
    requires 0.0 <= t < 1.0 && v > 0.0
    ensures -v / 2.0 <= t * v - v / 2.0 < v / 2.0
  {
    MulBelowStrict(t, v);
  }

  lemma MulBelowStrict(t: real, v: real)
    requires 0.0 <= t < 1.0 && v > 0.0
    ensures 0.0 <= t * v < v
  {
    MulNonneg(t, v);
    MulPos(1.0 - t, v);
  }

  // ---------------------------------------------------------------------
  // Robots

  const ROBOT_NAMES: seq<string> :=
    ["WALL-E", "EVE", "BB-8", "R2-D2", "C-3PO", "Rosie", "Bender", "T-800", "Data", "GERTY"]

  const VARIANTS: seq<Variant> := [Walking, Tracked, Dome]

  /** `Math.max(1, config.count - 1)` cross-aisles to start in. */
  function Walkways(c: AisleConfig): int {
    MaxInt(1, c.count - 1)
  }

  /** The middle of the cross-aisle picked by the random value `d`. */
  function CrossAisleMid(c: AisleConfig, d: real): real {
    AisleGapMid(c, CrossAisleIndex(c, d))
  }

  /** `Math.floor(random * walkways)`: the gap a draw picks. */
  function CrossAisleIndex(c: AisleConfig, d: real): int {
    Floor(d * (Walkways(c) as real))
  }

  /** The middle between aisle `b` and aisle `b + 1`. */
  function AisleGapMid(c: AisleConfig, b: int): real {
    (GetAisleCenterCoord(b, c) + GetAisleCenterCoord(b + 1, c)) / 2.0
  }

  /** The name of robot `i`: entry `i mod 10` of the name list, then the
      round `i / 10 + 1`. */
  function RobotName(i: nat): string {
    ROBOT_NAMES[i % 10] + "-" + NatToDecimal(i / 10 + 1)
  }

  /** The canonical position of a robot in the middle of the cross-aisle
      picked by `d`, 10 in from the top (`atTop`) or bottom wall. */
  function EdgePoint(c: AisleConfig, d: real, atTop: bool): Point {
    TransformPosition(CrossAisleMid(c, d),
                      if atTop then c.storeHeight / 2.0 - 10.0 else -c.storeHeight / 2.0 + 10.0,
                      c.orientation)
  }

  /** Robot `i` of `generateRobots`, from its five random values: top or
      bottom start, start cross-aisle, destination cross-aisle, heading
      and speed, in the order the code draws them. */
  function GeneratedRobot(c: AisleConfig, i: nat, dTop: real, dStart: real, dDest: real,
                          dHeading: real, dSpeed: real): Robot
  {
    var pos := EdgePoint(c, dStart, dTop > 0.5);
    var dest := EdgePoint(c, dDest, !(dTop > 0.5));
    Robot(Tagged("robot-", i), RobotName(i), VARIANTS[i % 3],
          pos.x, pos.y, dHeading * PI * 2.0, 2.0 + dSpeed * 3.0, dest.x, dest.y, None, None, None)
  }

  /** Robot `i` built from the random values `5i` to `5i + 4` of `g0`. */
  function RobotFromStream(c: AisleConfig, i: nat, g0: Rng): Robot {
    GeneratedRobot(c, i, Nth(g0, 5 * i), Nth(g0, 5 * i + 1), Nth(g0, 5 * i + 2),
                   Nth(g0, 5 * i + 3), Nth(g0, 5 * i + 4))
  }

  /** The record `generateRobots` pushes for robot `i`: its labels, the
      start and destination points, and heading and speed from their
      random values, the values `5i` to `5i + 4` of `g0`. */
  method NewRobot(ghost c: AisleConfig, i: nat, ghost g0: Rng, pos: Point, dest: Point,
                  dHeading: real, dSpeed: real) returns (robot: Robot)
    requires pos == EdgePoint(c, Nth(g0, 5 * i + 1), Nth(g0, 5 * i) > 0.5)
    requires dest == EdgePoint(c, Nth(g0, 5 * i + 2), !(Nth(g0, 5 * i) > 0.5))
    requires dHeading == Nth(g0, 5 * i + 3) && dSpeed == Nth(g0, 5 * i + 4)
    ensures robot == RobotFromStream(c, i, g0)
  {
    robot := Robot(Tagged("robot-", i), RobotName(i), VARIANTS[i % 3], pos.x, pos.y,
                   dHeading * PI * 2.0, 2.0 + dSpeed * 3.0, dest.x, dest.y, None, None, None);
  }

  /** `generateRobots`: `max(count, 0)` robots, robot `i` built from the
      random values `5i` to `5i + 4` of the stream. */
  method GenerateRobots(count: int, c: AisleConfig, g0: Rng) returns (robots: seq<Robot>, g: Rng)
    ensures |robots| == MaxInt(count, 0)
    ensures g.draw == g0.draw && g.next == g0.next + 5 * |robots|
    ensures forall i :: 0 <= i < |robots| ==> robots[i] == RobotFromStream(c, i, g0)
  {
    robots, g := [], g0;
    var i := 0;
    while i < count
      invariant 0 <= i == |robots| <= MaxInt(count, 0)
      invariant g.draw == g0.draw && g.next == g0.next + 5 * i
      invariant forall j :: 0 <= j < i ==> robots[j] == RobotFromStream(c, j, g0)
    {
      var r0, g1 := Random(g).0, Random(g).1;
      var startAtTop := r0 > 0.5;
      var r1, g2 := Random(g1).0, Random(g1).1;
      var pos := EdgePoint(c, r1, startAtTop);
      // the destination is at the opposite end, in another cross-aisle
      var r2, g3 := Random(g2).0, Random(g2).1;
      var destPos := EdgePoint(c, r2, !startAtTop);
      var r3, g4 := Random(g3).0, Random(g3).1;
      var r4, g5 := Random(g4).0, Random(g4).1;
      var robot := NewRobot(c, i, g0, pos, destPos, r3, r4);
      RobotsOneMore(c, robots, g0, robot);
      robots := robots + [robot];
      g := g5;
      i := i + 1;
    }
  }

  /** Appending robot `|robots|` keeps the robot loop's invariant. */
  lemma RobotsOneMore(c: AisleConfig, robots: seq<Robot>, g0: Rng, r: Robot)
    requires forall j :: 0 <= j < |robots| ==> robots[j] == RobotFromStream(c, j, g0)
    requires r == RobotFromStream(c, |robots|, g0)
    ensures forall j :: 0 <= j < |robots| + 1 ==> (robots + [r])[j] == RobotFromStream(c, j, g0)
  {
  }

  /** A generated robot starts on one end of the store (10 in from the top
      or bottom wall) in the middle of a cross-aisle, heads for the middle
      of a cross-aisle at the other end, and has a heading in [0, 2 pi)
      and a speed in [2, 5), when its random values lie in [0, 1). It
      carries nothing and has no task. */
  lemma GeneratedRobotPlacement(c: AisleConfig, i: nat, dTop: real, dStart: real, dDest: real,
                                dHeading: real, dSpeed: real)
    requires 0.0 <= dStart < 1.0 && 0.0 <= dDest < 1.0 && 0.0 <= dHeading < 1.0 && 0.0 <= dSpeed < 1.0
    ensures var r := GeneratedRobot(c, i, dTop, dStart, dDest, dHeading, dSpeed);
      var p := TransformPosition(r.x, r.y, c.orientation);
      var q := TransformPosition(r.destX, r.destY, c.orientation);
      Abs(p.y) == Abs(c.storeHeight / 2.0 - 10.0) && q.y == -p.y &&
      (exists b :: 0 <= b < Walkways(c) && p.x == GapMid(ToStoreConfig(c), b)) &&
      (exists b :: 0 <= b < Walkways(c) && q.x == GapMid(ToStoreConfig(c), b)) &&
      0.0 <= r.orientation < TWO_PI && 2.0 <= r.speed < 5.0 &&
      r.task.None? && r.carryingProductId.None? && r.lastMoveTime.None?
  {
    var w := Walkways(c);
    CrossAisleIsGap(c, dStart);
    CrossAisleIsGap(c, dDest);
    MulBelowStrict(dHeading, TWO_PI);
    assert dHeading * PI * 2.0 == dHeading * TWO_PI;
  }

  /** The cross-aisle a random value in [0, 1) picks is gap `b` between
      aisle `b` and aisle `b + 1`, for one of the `Walkways(c)` gaps. */
  lemma CrossAisleIsGap(c: AisleConfig, d: real)
    requires 0.0 <= d < 1.0
    ensures exists b :: 0 <= b < Walkways(c) && CrossAisleMid(c, d) == GapMid(ToStoreConfig(c), b)
  {
    var b := CrossAisleIndex(c, d);
    assert CrossAisleMid(c, d) == AisleGapMid(c, b);
    CrossAisleIndexInRange(c, d);
    AisleGapMidIsGapMid(c, b);
  }

  /** A draw in [0, 1) picks one of the `Walkways(c)` gaps. */
  lemma CrossAisleIndexInRange(c: AisleConfig, d: real)
    requires 0.0 <= d < 1.0
    ensures 0 <= CrossAisleIndex(c, d) < Walkways(c)
  {
    var n := Walkways(c);
    MulBelowStrict(d, n as real);
    FloorBelow(d * (n as real), n);
  }

  /** The floor of a value in `[0, n)` is an index below `n`. */
  lemma FloorBelow(x: real, n: int)
    requires 0.0 <= x < n as real
    ensures 0 <= Floor(x) < n
  {
  }

  /** The page's middle between two aisles is the engine's gap midpoint. */
  lemma AisleGapMidIsGapMid(c: AisleConfig, b: int)
    ensures AisleGapMid(c, b) == GapMid(ToStoreConfig(c), b)
  {
    AisleCenterAgreesWithEngine(b, c);
    AisleCenterAgreesWithEngine(b + 1, c);
  }

  /** Robot `i` is `robot-i`, named after entry `i mod 10` of the name
      list with the round `i / 10 + 1` appended, and of variant `i mod 3`;
      so generated robot ids are distinct. */
  lemma GeneratedRobotNaming(c: AisleConfig, i: nat, j: nat, d: seq<real>)
    requires |d| == 10
    ensures var r := GeneratedRobot(c, i, d[0], d[1], d[2], d[3], d[4]);
      var s := GeneratedRobot(c, j, d[5], d[6], d[7], d[8], d[9]);
      r.id == Tagged("robot-", i) && r.name == ROBOT_NAMES[i % 10] + "-" + NatToDecimal(i / 10 + 1) &&
      r.variant == VARIANTS[i % 3] && (i != j ==> r.id != s.id)
  {
    if i != j && Tagged("robot-", i) == Tagged("robot-", j) {
      TaggedInjective("robot-", i, j);
    }
  }
}
