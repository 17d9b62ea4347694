/** The navigation grid and the walkway test (wasm/src/grid.rs): world
    coordinates to 5-unit cells and back, the boolean grid that blocks every
    cell column a shelving row covers, and the test for "is this point in a
    cross-row gap or in the top/bottom outer walkway". */
module Grid {
  import opened Numeric
  import opened Constants
  import opened Geometry

  /** `((x + width / 2) / NAV_CELL_SIZE).floor() as i32`. */
  function WorldToCol(x: real, width: real): int {
    SaturateI32(Floor((x + width / 2.0) / NAV_CELL_SIZE))
  }

  function WorldToRow(y: real, height: real): int {
    SaturateI32(Floor((y + height / 2.0) / NAV_CELL_SIZE))
  }

  function CellCenterX(col: int, width: real): real {
    (col as real) * NAV_CELL_SIZE - width / 2.0 + NAV_CELL_SIZE / 2.0
  }

  function CellCenterY(row: int, height: real): real {
    (row as real) * NAV_CELL_SIZE - height / 2.0 + NAV_CELL_SIZE / 2.0
  }

  /** The centre of a cell lies in that cell. */
  lemma CellCenterRoundTrip(c: int, extent: real)
    requires IsI32(c)
    ensures WorldToCol(CellCenterX(c, extent), extent) == c
    ensures WorldToRow(CellCenterY(c, extent), extent) == c
  {
    assert (CellCenterX(c, extent) + extent / 2.0) / NAV_CELL_SIZE == (c as real) + 0.5;
    assert (CellCenterY(c, extent) + extent / 2.0) / NAV_CELL_SIZE == (c as real) + 0.5;
  }

  /** A point is within half a cell of the centre of the cell it falls in,
      unless the cell index saturated at the bounds of i32. */
  lemma CellCenterNear(x: real, extent: real)
    requires IsI32(Floor((x + extent / 2.0) / NAV_CELL_SIZE))
    ensures Abs(CellCenterX(WorldToCol(x, extent), extent) - x) <= NAV_CELL_SIZE / 2.0
    ensures Abs(CellCenterY(WorldToRow(x, extent), extent) - x) <= NAV_CELL_SIZE / 2.0
  {
  }

  /** `(store_width / NAV_CELL_SIZE).ceil() as i32` columns ... */
  function GridCols(cfg: StoreConfig): int {
    SaturateI32(Ceil(cfg.storeWidth / NAV_CELL_SIZE))
  }

  /** ... and `(store_height / NAV_CELL_SIZE).ceil() as i32` rows. */
  function GridRows(cfg: StoreConfig): int {
    SaturateI32(Ceil(cfg.storeHeight / NAV_CELL_SIZE))
  }

  /** Half the width a shelving row blocks: half its thickness plus 1.5. */
  function HalfShelf(cfg: StoreConfig): real {
    cfg.rowThickness / 2.0 + 1.5
  }

  /** First column blocked by row `row`, clamped into [0, cols - 1]. */
  function MinCol(cfg: StoreConfig, row: int): int {
    F32ToI32(Clamp(WorldToCol(cfg.RowCenter(row) - HalfShelf(cfg), cfg.storeWidth) as real,
                   0.0, (GridCols(cfg) - 1) as real))
  }

  /** Last column blocked by row `row`, clamped into [0, cols - 1]. */
  function MaxCol(cfg: StoreConfig, row: int): int {
    F32ToI32(Clamp(WorldToCol(cfg.RowCenter(row) + HalfShelf(cfg), cfg.storeWidth) as real,
                   0.0, (GridCols(cfg) - 1) as real))
  }

  /** With at least one column, the clamped range lies inside the grid. */
  lemma BlockedRangeInBounds(cfg: StoreConfig, row: int)
    requires GridCols(cfg) >= 1
    ensures 0 <= MinCol(cfg, row) < GridCols(cfg)
    ensures 0 <= MaxCol(cfg, row) < GridCols(cfg)
  {
  }

  /** Column `col` is covered by one of the rows `0 .. rows - 1`. */
  ghost predicate BlockedBy(cfg: StoreConfig, rows: int, col: int) {
    exists row :: 0 <= row < rows && MinCol(cfg, row) <= col <= MaxCol(cfg, row)
  }

  /** Column `col` is covered by some shelving row of the layout. */
  ghost predicate ColumnBlocked(cfg: StoreConfig, col: int) {
    BlockedBy(cfg, cfg.rowCount, col)
  }

  /** The layouts for which `build_nav_grid` runs to completion. A negative
      dimension makes `vec!` ask for `usize::MAX` elements, and a grid with
      rows but no columns clamps the blocked range to column -1 and indexes
      out of bounds; both panic in the source. */
  predicate NavGridBuildable(cfg: StoreConfig) {
    GridCols(cfg) >= 0 && GridRows(cfg) >= 0 &&
    (GridCols(cfg) == 0 && GridRows(cfg) > 0 ==> cfg.rowCount <= 0)
  }

  /** The grid has the layout's shape and a cell is walkable iff no shelving
      row covers its column. */
  ghost predicate IsNavGrid(cfg: StoreConfig, grid: seq<seq<bool>>) {
    |grid| == GridRows(cfg) &&
    (forall r :: 0 <= r < |grid| ==> |grid[r]| == GridCols(cfg)) &&
    (forall r, c :: 0 <= r < |grid| && 0 <= c < |grid[r]| ==>
      (grid[r][c] <==> !ColumnBlocked(cfg, c)))
  }

  /** Every one of the `rows` rows of `grid` has `cols` cells. */
  predicate Rectangular(grid: seq<seq<bool>>, rows: int, cols: int) {
    |grid| == rows && forall r :: 0 <= r < |grid| ==> |grid[r]| == cols
  }

  /** The inner loop of `build_nav_grid`: clear column `col` in every row. */
  method ClearColumn(grid0: seq<seq<bool>>, rows: nat, cols: nat, col: int) returns (grid: seq<seq<bool>>)
    requires Rectangular(grid0, rows, cols) && 0 <= col < cols
    ensures Rectangular(grid, rows, cols)
    ensures forall r, c :: 0 <= r < rows && 0 <= c < cols ==> grid[r][c] == (grid0[r][c] && c != col)
  {
    grid := grid0;
    var row := 0;
    while row < rows
      invariant 0 <= row <= rows
      invariant Rectangular(grid, rows, cols)
      invariant forall r, c :: 0 <= r < rows && 0 <= c < cols ==>
        grid[r][c] == (grid0[r][c] && !(c == col && r < row))
    {
      grid := grid[row := grid[row][col := false]];
      row := row + 1;
    }
  }

  /** The middle loop of `build_nav_grid`: clear columns `lo ..= hi`. */
  method ClearColumns(grid0: seq<seq<bool>>, rows: nat, cols: nat, lo: int, hi: int) returns (grid: seq<seq<bool>>)
    requires Rectangular(grid0, rows, cols)
    requires lo <= hi ==> 0 <= lo && hi < cols
    ensures Rectangular(grid, rows, cols)
    ensures forall r, c :: 0 <= r < rows && 0 <= c < cols ==> grid[r][c] == (grid0[r][c] && !(lo <= c <= hi))
  {
    grid := grid0;
    var col := lo;
    while col <= hi
      invariant lo <= col <= MaxInt(lo, hi + 1)
      invariant Rectangular(grid, rows, cols)
      invariant forall r, c :: 0 <= r < rows && 0 <= c < cols ==> grid[r][c] == (grid0[r][c] && !(lo <= c < col))
    {
      grid := ClearColumn(grid, rows, cols, col);
      col := col + 1;
    }
  }

  /** Adding row `rows` to the covering rows adds exactly its column range. */
  lemma BlockedByStep(cfg: StoreConfig, rows: int, col: int)
    requires rows >= 0
    ensures BlockedBy(cfg, rows + 1, col) <==>
      (BlockedBy(cfg, rows, col) || MinCol(cfg, rows) <= col <= MaxCol(cfg, rows))
  {
    if BlockedBy(cfg, rows + 1, col) && !BlockedBy(cfg, rows, col) {
      var w :| 0 <= w < rows + 1 && MinCol(cfg, w) <= col <= MaxCol(cfg, w);
      assert w == rows;
    }
  }

  /** `build_nav_grid`: start all-true, then clear every column in each
      row's `[min_col, max_col]`. */
  method BuildNavGrid(cfg: StoreConfig) returns (grid: seq<seq<bool>>)
    requires NavGridBuildable(cfg)
    ensures IsNavGrid(cfg, grid)
  {
    var cols := GridCols(cfg);
    var rows := GridRows(cfg);
    grid := seq(rows, _ => seq(cols, _ => true));
    var aisle := 0;
    while aisle < cfg.rowCount
      invariant aisle <= MaxInt(0, cfg.rowCount)
      invariant Rectangular(grid, rows, cols)
      invariant forall r, c :: 0 <= r < rows && 0 <= c < cols ==>
        (grid[r][c] <==> !BlockedBy(cfg, aisle, c))
    {
      var minCol := MinCol(cfg, aisle);
      var maxCol := MaxCol(cfg, aisle);
      ghost var prev := grid;
      if rows > 0 {
        BlockedRangeInBounds(cfg, aisle);
        grid := ClearColumns(grid, rows, cols, minCol, maxCol);
      }
      forall r, c | 0 <= r < rows && 0 <= c < cols
        ensures grid[r][c] <==> !BlockedBy(cfg, aisle + 1, c)
      {
        BlockedByStep(cfg, aisle, c);
        assert prev[r][c] <==> !BlockedBy(cfg, aisle, c);
      }
      aisle := aisle + 1;
    }
    forall c | 0 <= c < cols
      ensures BlockedBy(cfg, aisle, c) <==> ColumnBlocked(cfg, c)
    {
      if BlockedBy(cfg, aisle, c) {
        var w :| 0 <= w < aisle && MinCol(cfg, w) <= c <= MaxCol(cfg, w);
      }
    }
  }

  /** Midpoint between row `row` and row `row + 1`: the centre of a gap. */
  function GapMid(cfg: StoreConfig, row: int): real {
    (cfg.RowCenter(row) + cfg.RowCenter(row + 1)) / 2.0
  }

  /** Width of the cross-row gap: spacing minus row thickness minus buffer. */
  function CrossRowWidth(cfg: StoreConfig): real {
    cfg.rowSpacing - cfg.rowThickness - cfg.crossRowBuffer
  }

  /** The point is inside the gap after row `row`, away from the end walls. */
  predicate InCrossRowGap(x: real, y: real, cfg: StoreConfig, row: int) {
    Abs(x - GapMid(cfg, row)) < CrossRowWidth(cfg) / 2.0 &&
    Abs(y) < cfg.storeHeight / 2.0 - 5.0
  }

  /** The point is in the top or the bottom outer walkway band. */
  predicate InOuterBand(x: real, y: real, cfg: StoreConfig) {
    var top := cfg.storeHeight / 2.0 - cfg.walkwayWidth;
    var bottom := -cfg.storeHeight / 2.0 + cfg.walkwayWidth;
    (Abs(y - top) < cfg.walkwayWidth / 2.0 || Abs(y - bottom) < cfg.walkwayWidth / 2.0) &&
    Abs(x) < cfg.storeWidth / 2.0 - 10.0
  }

  /** The loop of `is_in_aisle_walkway` over the gaps `row, row + 1, ...`,
      returning at the first gap that holds the point. */
  predicate ScanGaps(x: real, y: real, cfg: StoreConfig, row: int)
    decreases cfg.rowCount - row
  {
    if row >= cfg.rowCount - 1 then false
    else if InCrossRowGap(x, y, cfg, row) then true
    else ScanGaps(x, y, cfg, row + 1)
  }

  /** `is_in_aisle_walkway` (called `is_in_row_walkway` by robot.rs). */
  predicate InRowWalkway(x: real, y: real, cfg: StoreConfig) {
    ScanGaps(x, y, cfg, 0) || InOuterBand(x, y, cfg)
  }

  lemma {:induction false} ScanGapsIff(x: real, y: real, cfg: StoreConfig, row: int)
    requires row >= 0
    ensures ScanGaps(x, y, cfg, row) <==>
      exists g :: row <= g < cfg.rowCount - 1 && InCrossRowGap(x, y, cfg, g)
    decreases cfg.rowCount - row
  {
    if row < cfg.rowCount - 1 && !InCrossRowGap(x, y, cfg, row) {
      ScanGapsIff(x, y, cfg, row + 1);
      if exists g :: row <= g < cfg.rowCount - 1 && InCrossRowGap(x, y, cfg, g) {
        var g :| row <= g < cfg.rowCount - 1 && InCrossRowGap(x, y, cfg, g);
        assert g != row;
      }
    }
  }

  /** The walkway is exactly the union of the cross-row gaps between
      consecutive rows and the two outer bands. */
  lemma InRowWalkwayIff(x: real, y: real, cfg: StoreConfig)
    ensures InRowWalkway(x, y, cfg) <==>
      (exists g :: 0 <= g < cfg.rowCount - 1 && InCrossRowGap(x, y, cfg, g)) ||
      InOuterBand(x, y, cfg)
  {
    ScanGapsIff(x, y, cfg, 0);
  }
}
