/** The records the browser side of the store simulation passes around
    (src/components/store-map/types.ts): products, robots and the pick-up
    tasks they carry out, plus the layout record the settings page edits. */
module StoreTypes {
  import opened Wrappers
  import opened Constants

  /** A plain `{ x, y }` position. */
  datatype Point = Point(x: real, y: real)

  /** A product sitting on a shelf (or on the floor). */
  datatype Product = Product(id: string, x: real, y: real)

  datatype Variant = Walking | Tracked | Dome

  /** A task first heads for the product, then for the drop-off point. */
  datatype Phase = ToProduct | ToDropoff

  /** A pick-up command with its planned route. `waypoints`,
      `waypointIndex` and `waypointsTarget` are absent until a route is
      planned; the index is only ever set to 0 or incremented, so it is a
      natural number here. */
  datatype Task = Task(
    id: string,
    robotId: string,
    productId: string,
    dropTarget: Point,
    phase: Phase,
    issuedAt: real,
    waypoints: Option<seq<Point>>,
    waypointIndex: Option<nat>,
    waypointsTarget: Option<string>)

  /** A robot as the page holds it; the optional fields may be absent. */
  datatype Robot = Robot(
    id: string,
    name: string,
    variant: Variant,
    x: real,
    y: real,
    orientation: real,
    speed: real,
    destX: real,
    destY: real,
    lastMoveTime: Option<real>,
    carryingProductId: Option<string>,
    task: Option<Task>)

  /** The layout record of the page (`AisleConfig`): the same ten settings
      as the engine's `StoreConfig`, under the page's names. The record's
      declaration is not part of this model; its fields are the ones the
      code reads. */
  datatype AisleConfig = AisleConfig(
    count: int,
    spacing: real,
    width: real,
    startOffset: real,
    walkwayWidth: real,
    crossAisleBuffer: real,
    outerWalkwayOffset: real,
    storeWidth: real,
    storeHeight: real,
    orientation: Orientation)
}
