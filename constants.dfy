/** The store layout: tuning constants, the layout record decoded from the
    10-number config buffer, row placement and the orientation transform
    (wasm/src/constants.rs). The Rust sources are half-way through renaming
    "aisle" to "row": `aisle_count`, `aisle_spacing`, `aisle_width`,
    `cross_aisle_buffer` and `get_aisle_center` are the same fields and
    function as `row_count`, `row_spacing`, `row_thickness`,
    `cross_row_buffer` and `get_row_center` here. */
module Constants {
  import opened Numeric

  const UPDATE_INTERVAL_DEFAULT: real := 50.0
  const STUCK_TIMEOUT: real := 3000.0
  const ROBOT_RADIUS: real := 2.0
  const PRODUCT_RADIUS: real := 0.5
  const COLLISION_BUFFER: real := 0.5
  const NAV_CELL_SIZE: real := 5.0
  const ARRIVAL_DISTANCE: real := 2.5
  const ARRIVAL_DISTANCE_SQUARED: real := ARRIVAL_DISTANCE * ARRIVAL_DISTANCE

  /** Robot radius plus product radius plus buffer: the collision distance. */
  const COLLISION_RADIUS: real := ROBOT_RADIUS + PRODUCT_RADIUS + COLLISION_BUFFER

  /** A positive approximation of pi; only its sign and the relations
      between PI, 2*PI and PI/2 matter to the model. */
  const PI: real := 3.14159265358979
  const TWO_PI: real := PI * 2.0
  const HALF_PI: real := PI / 2.0

  datatype Orientation = Vertical | Horizontal

  datatype StoreConfig = StoreConfig(
    storeWidth: real,
    storeHeight: real,
    rowCount: int,
    rowSpacing: real,
    rowThickness: real,
    startOffset: real,
    walkwayWidth: real,
    crossRowBuffer: real,
    outerWalkwayOffset: real,
    orientation: Orientation)
  {
    /** Centre of row `rowIndex` along the canonical (vertical) axis. */
    function RowCenter(rowIndex: int): real {
      -storeWidth / 2.0 + startOffset + (rowIndex as real) * rowSpacing
    }

    /** Swap x and y when the rows run horizontally. */
    function TransformCoords(x: real, y: real): (p: (real, real))
      ensures orientation == Vertical ==> p == (x, y)
      ensures orientation == Horizontal ==> p == (y, x)
    {
      match orientation
      case Horizontal => (y, x)
      case Vertical => (x, y)
    }

    /** Mirror a heading across the diagonal when the rows run horizontally. */
    function TransformOrientation(angle: real): (a: real)
      ensures orientation == Vertical ==> a == angle
      ensures orientation == Horizontal ==> a + angle == HALF_PI
    {
      match orientation
      case Horizontal => HALF_PI - angle
      case Vertical => angle
    }
  }

  /** `config.get(i).copied().unwrap_or(default)`. */
  function BufferAt(buf: seq<real>, i: nat, default: real): (v: real)
    ensures i < |buf| ==> v == buf[i]
    ensures i >= |buf| ==> v == default
  {
    if i < |buf| then buf[i] else default
  }

  /** `StoreConfig::from_buffer`: field k is read from index k, and every
      missing index falls back to its default. */
  function FromBuffer(buf: seq<real>): (c: StoreConfig)
    ensures c.storeWidth == BufferAt(buf, 0, 250.0)
    ensures c.storeHeight == BufferAt(buf, 1, 150.0)
    ensures c.rowCount == F32ToI32(BufferAt(buf, 2, 6.0))
    ensures c.rowSpacing == BufferAt(buf, 3, 40.0)
    ensures c.rowThickness == BufferAt(buf, 4, 6.0)
    ensures c.startOffset == BufferAt(buf, 5, 20.0)
    ensures c.walkwayWidth == BufferAt(buf, 6, 10.0)
    ensures c.crossRowBuffer == BufferAt(buf, 7, 4.0)
    ensures c.outerWalkwayOffset == BufferAt(buf, 8, 12.0)
    ensures c.orientation == Horizontal <==> 9 < |buf| && buf[9] > 0.5
  {
    StoreConfig(
      BufferAt(buf, 0, 250.0),
      BufferAt(buf, 1, 150.0),
      F32ToI32(BufferAt(buf, 2, 6.0)),
      BufferAt(buf, 3, 40.0),
      BufferAt(buf, 4, 6.0),
      BufferAt(buf, 5, 20.0),
      BufferAt(buf, 6, 10.0),
      BufferAt(buf, 7, 4.0),
      BufferAt(buf, 8, 12.0),
      if BufferAt(buf, 9, 0.0) > 0.5 then Horizontal else Vertical)
  }

  /** The configuration every short buffer decodes to. */
  const DEFAULT_CONFIG: StoreConfig :=
    StoreConfig(250.0, 150.0, 6, 40.0, 6.0, 20.0, 10.0, 4.0, 12.0, Vertical)

  /** A buffer shorter than the 10 fields falls back field by field; the
      empty buffer gives exactly the defaults. */
  lemma EmptyBufferIsDefault()
    ensures FromBuffer([]) == DEFAULT_CONFIG
  {
  }

  /** A buffer holding only the store bounds, as the browser sends it,
      decodes to the default layout with those bounds. */
  lemma BoundsOnlyBuffer(w: real, h: real)
    ensures FromBuffer([w, h]) == DEFAULT_CONFIG.(storeWidth := w, storeHeight := h)
  {
  }

  lemma ArrivalConstants()
    ensures ARRIVAL_DISTANCE_SQUARED == 6.25
    ensures COLLISION_RADIUS == 3.0
    ensures COLLISION_RADIUS * COLLISION_RADIUS == 9.0
  {
  }

  /** Row 0 sits at `-w/2 + start_offset`; consecutive rows are exactly
      `row_spacing` apart. */
  lemma RowCentersEvenlySpaced(c: StoreConfig, i: int)
    ensures c.RowCenter(0) == -c.storeWidth / 2.0 + c.startOffset
    ensures c.RowCenter(i + 1) - c.RowCenter(i) == c.rowSpacing
  {
  }

  /** The horizontal swap is its own inverse; the vertical one is the identity. */
  lemma TransformCoordsInvolutive(c: StoreConfig, x: real, y: real)
    ensures var p := c.TransformCoords(x, y); c.TransformCoords(p.0, p.1) == (x, y)
  {
  }

  lemma TransformOrientationInvolutive(c: StoreConfig, a: real)
    ensures c.TransformOrientation(c.TransformOrientation(a)) == a
  {
  }
}
