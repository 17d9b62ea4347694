/** The grid path planner (wasm/src/pathfinding.rs): a 4-neighbour A*
    search over the navigation grid with a Manhattan heuristic, the search
    for the nearest walkable cell, and the three-leg route through the
    outer walkway. A cell is `(col, row)`. */
module Pathfinding {
  import opened Wrappers
  import opened Numeric
  import opened Constants
  import opened Geometry
  import opened Grid

  type Cell = (int, int)

  // ---------------------------------------------------------------------
  // Nodes, ordering and the heuristic

  /** An entry of the open set. */
  datatype Node = Node(col: int, row: int, fScore: int)

  datatype Ordering = Less | Equal | Greater

  function CompareInt(a: int, b: int): Ordering {
    if a < b then Less else if a == b then Equal else Greater
  }

  /** `Ord for Node`: `other.f_score.cmp(&self.f_score)`, the reverse of
      the f-score order, so that the max-heap yields the lowest f first. */
  function NodeCompare(a: Node, b: Node): Ordering {
    CompareInt(b.fScore, a.fScore)
  }

  /** A node is "greater" exactly when its f-score is lower. */
  lemma NodeCompareReversed(a: Node, b: Node)
    ensures NodeCompare(a, b) == Greater <==> a.fScore < b.fScore
    ensures NodeCompare(a, b) == Less <==> a.fScore > b.fScore
    ensures NodeCompare(a, b) == Equal <==> a.fScore == b.fScore
  {
  }

  /** `heuristic`: the Manhattan distance between two cells. */
  function Heuristic(a: Cell, b: Cell): int {
    AbsInt(a.0 - b.0) + AbsInt(a.1 - b.1)
  }

  /** The heuristic is a metric: non-negative, zero only on equal cells,
      symmetric, and it obeys the triangle inequality. */
  lemma HeuristicIsMetric(a: Cell, b: Cell, c: Cell)
    ensures Heuristic(a, b) >= 0
    ensures Heuristic(a, b) == 0 <==> a == b
    ensures Heuristic(a, b) == Heuristic(b, a)
    ensures Heuristic(a, c) <= Heuristic(a, b) + Heuristic(b, c)
  {
  }

  /** The heuristic is consistent: one step changes it by at most one. */
  lemma HeuristicConsistent(a: Cell, b: Cell, goal: Cell)
    requires Heuristic(a, b) == 1
    ensures Heuristic(a, goal) <= Heuristic(b, goal) + 1
  {
  }

  // ---------------------------------------------------------------------
  // Grid access and neighbours

  /** `grid.get(row).and_then(|r| r.get(col)).unwrap_or(false)`: a negative
      index converts to a huge `usize` and misses, like any index past the
      end. */
  predicate Walkable(grid: seq<seq<bool>>, c: Cell) {
    0 <= c.1 < |grid| && 0 <= c.0 < |grid[c.1]| && grid[c.1][c.0]
  }

  /** The column count read from the first row, 0 for an empty grid. */
  function GridWidth(grid: seq<seq<bool>>): int {
    if |grid| == 0 then 0 else |grid[0]|
  }

  /** The cells of `s` that are walkable, in order. */
  function KeepWalkable(s: seq<Cell>, grid: seq<seq<bool>>): (r: seq<Cell>)
    ensures |r| <= |s|
    ensures forall k :: 0 <= k < |r| ==> r[k] in s && Walkable(grid, r[k])
    ensures forall k :: 0 <= k < |s| && Walkable(grid, s[k]) ==> s[k] in r
  {
    if |s| == 0 then []
    else (if Walkable(grid, s[0]) then [s[0]] else []) + KeepWalkable(s[1..], grid)
  }

  /** The four candidate moves, in the order left, right, up, down, each
      only when it stays inside `[0, max]` on its axis. */
  function Candidates(col: int, row: int, grid: seq<seq<bool>>): seq<Cell> {
    var maxCol := GridWidth(grid) - 1;
    var maxRow := |grid| - 1;
    (if col > 0 then [(col - 1, row)] else []) +
    (if col < maxCol then [(col + 1, row)] else []) +
    (if row > 0 then [(col, row - 1)] else []) +
    (if row < maxRow then [(col, row + 1)] else [])
  }

  /** `neighbors`: the walkable candidates. */
  function Neighbors(col: int, row: int, grid: seq<seq<bool>>): seq<Cell> {
    KeepWalkable(Candidates(col, row, grid), grid)
  }

  /** At most four neighbours, each walkable and one step away; on a
      rectangular grid every walkable cell one step away is one of them. */
  lemma NeighborsAreAdjacent(col: int, row: int, grid: seq<seq<bool>>)
    ensures var ns := Neighbors(col, row, grid);
      |ns| <= 4 &&
      (forall k :: 0 <= k < |ns| ==> Walkable(grid, ns[k]) && Heuristic(ns[k], (col, row)) == 1)
    ensures Rectangular(grid, |grid|, GridWidth(grid)) ==>
      forall c: Cell :: Walkable(grid, c) && Heuristic(c, (col, row)) == 1 ==>
        c in Neighbors(col, row, grid)
  {
    var cs := Candidates(col, row, grid);
    assert forall k :: 0 <= k < |cs| ==> Heuristic(cs[k], (col, row)) == 1;
    if Rectangular(grid, |grid|, GridWidth(grid)) {
      forall c: Cell | Walkable(grid, c) && Heuristic(c, (col, row)) == 1
        ensures c in Neighbors(col, row, grid)
      {
        assert |grid[c.1]| == GridWidth(grid);
        assert c in cs;
      }
    }
  }

  // ---------------------------------------------------------------------
  // The nearest walkable cell

  /** `u` is one of the moves the search pushes from `v`: one step left,
      right, up or down that stays inside `[0, width) x [0, height)` on the
      moved axis. */
  predicate IsMove(v: Cell, u: Cell, width: int, height: int) {
    (v.0 > 0 && u == (v.0 - 1, v.1)) ||
    (v.0 + 1 < width && u == (v.0 + 1, v.1)) ||
    (v.1 > 0 && u == (v.0, v.1 - 1)) ||
    (v.1 + 1 < height && u == (v.0, v.1 + 1))
  }

  /** Every move out of a cell of `visited` stays in `visited`. */
  ghost predicate Closed(visited: set<Cell>, width: int, height: int) {
    forall v, u :: v in visited && IsMove(v, u, width, height) ==> u in visited
  }

  /** The cells the search pushes after visiting `v`, in push order. */
  function Pushes(v: Cell, width: int, height: int): (ps: seq<Cell>)
    ensures forall u :: u in ps <==> IsMove(v, u, width, height)
  {
    (if v.0 > 0 then [(v.0 - 1, v.1)] else []) +
    (if v.0 + 1 < width then [(v.0 + 1, v.1)] else []) +
    (if v.1 > 0 then [(v.0, v.1 - 1)] else []) +
    (if v.1 + 1 < height then [(v.0, v.1 + 1)] else [])
  }

  /** Cells inside the rectangle `[c0, c1] x [r0, r1]`. */
  ghost function Rect(c0: int, c1: int, r0: int, r1: int): set<Cell> {
    set c: int, r: int | c0 <= c <= c1 && r0 <= r <= r1 :: (c, r)
  }

  /** A rectangle that covers the grid's index range is closed under moves. */
  lemma PushesInRect(v: Cell, width: int, height: int, c0: int, c1: int, r0: int, r1: int)
    requires c0 <= 0 && width - 1 <= c1 && r0 <= 0 && height - 1 <= r1
    requires v in Rect(c0, c1, r0, r1)
    ensures forall u :: u in Pushes(v, width, height) ==> u in Rect(c0, c1, r0, r1)
  {
    forall u | u in Pushes(v, width, height)
      ensures u in Rect(c0, c1, r0, r1)
    {
      assert IsMove(v, u, width, height);
      assert c0 <= u.0 <= c1 && r0 <= u.1 <= r1;
    }
  }

  /** Every move out of a visited cell is visited or still on the stack. */
  ghost predicate Frontier(visited: set<Cell>, stack: seq<Cell>, width: int, height: int) {
    forall v, u :: v in visited && IsMove(v, u, width, height) ==> u in visited || u in stack
  }

  /** Popping a visited cell keeps the frontier property. */
  lemma PopVisited(visited: set<Cell>, stack: seq<Cell>, width: int, height: int)
    requires |stack| > 0 && stack[|stack| - 1] in visited
    requires Frontier(visited, stack, width, height)
    ensures Frontier(visited, stack[..|stack| - 1], width, height)
  {
    var rest := stack[..|stack| - 1];
    forall v, u | v in visited && IsMove(v, u, width, height) && u !in visited
      ensures u in rest
    {
      assert u in stack;
      var k :| 0 <= k < |stack| && stack[k] == u;
      assert k < |stack| - 1;
      assert rest[k] == u;
    }
  }

  /** Visiting the popped cell and pushing its moves keeps the frontier
      property. */
  lemma PopAndPush(visited: set<Cell>, stack: seq<Cell>, width: int, height: int)
    requires |stack| > 0
    requires Frontier(visited, stack, width, height)
    ensures var cur := stack[|stack| - 1];
      Frontier(visited + {cur}, stack[..|stack| - 1] + Pushes(cur, width, height), width, height)
  {
    var cur := stack[|stack| - 1];
    var rest := stack[..|stack| - 1];
    var next := rest + Pushes(cur, width, height);
    forall v, u | v in visited + {cur} && IsMove(v, u, width, height) && u !in visited + {cur}
      ensures u in next
    {
      if v == cur {
        assert u in Pushes(cur, width, height);
        var k :| 0 <= k < |Pushes(cur, width, height)| && Pushes(cur, width, height)[k] == u;
        assert next[|rest| + k] == u;
      } else {
        assert u in stack;
        var k :| 0 <= k < |stack| && stack[k] == u;
        assert k < |stack| - 1;
        assert next[k] == u;
      }
    }
  }

  /** Visiting a new cell of a finite box shrinks the unvisited part. */
  lemma VisitShrinks(box: set<Cell>, visited: set<Cell>, v: Cell)
    requires v in box && v !in visited
    ensures |box - (visited + {v})| < |box - visited|
  {
    assert box - (visited + {v}) == (box - visited) - {v};
  }

  lemma {:induction false} ReachColumn(visited: set<Cell>, width: int, height: int,
                                       c: int, r: int, tc: int)
    requires Closed(visited, width, height) && (c, r) in visited && 0 <= tc < width
    ensures (tc, r) in visited
    decreases AbsInt(c - tc)
  {
    if c < tc {
      assert IsMove((c, r), (c + 1, r), width, height);
      ReachColumn(visited, width, height, c + 1, r, tc);
    } else if c > tc {
      assert IsMove((c, r), (c - 1, r), width, height);
      ReachColumn(visited, width, height, c - 1, r, tc);
    }
  }

  lemma {:induction false} ReachRow(visited: set<Cell>, width: int, height: int,
                                    c: int, r: int, tr: int)
    requires Closed(visited, width, height) && (c, r) in visited && 0 <= tr < height
    ensures (c, tr) in visited
    decreases AbsInt(r - tr)
  {
    if r < tr {
      assert IsMove((c, r), (c, r + 1), width, height);
      ReachRow(visited, width, height, c, r + 1, tr);
    } else if r > tr {
      assert IsMove((c, r), (c, r - 1), width, height);
      ReachRow(visited, width, height, c, r - 1, tr);
    }
  }

  /** A closed set of cells with one member holds every cell of the
      `width x height` grid. */
  lemma ClosedHoldsAll(visited: set<Cell>, width: int, height: int, s: Cell, t: Cell)
    requires Closed(visited, width, height) && s in visited
    requires 0 <= t.0 < width && 0 <= t.1 < height
    ensures t in visited
  {
    ReachColumn(visited, width, height, s.0, s.1, t.0);
    ReachRow(visited, width, height, t.0, s.1, t.1);
  }

  /** The invariant of the search loop of `find_nearest_walkable` started at
      `start`: stacked and visited cells lie in `box`, no visited cell is
      walkable, the start has been stacked, and every move out of a visited
      cell leads to a visited or stacked cell. */
  ghost predicate Dfs(grid: seq<seq<bool>>, start: Cell, box: set<Cell>,
                      visited: set<Cell>, stack: seq<Cell>, width: int, height: int)
  {
    (forall u :: u in stack ==> u in box) && visited <= box &&
    (forall v :: v in visited ==> !Walkable(grid, v)) &&
    (start in visited || start in stack) &&
    Frontier(visited, stack, width, height)
  }

  /** Dropping an already visited cell from the top of the stack keeps the
      invariant. */
  lemma DfsSkip(grid: seq<seq<bool>>, start: Cell, box: set<Cell>,
                visited: set<Cell>, stack: seq<Cell>, width: int, height: int)
    requires |stack| > 0 && stack[|stack| - 1] in visited
    requires Dfs(grid, start, box, visited, stack, width, height)
    ensures Dfs(grid, start, box, visited, stack[..|stack| - 1], width, height)
  {
    var rest := stack[..|stack| - 1];
    assert stack == rest + [stack[|stack| - 1]];
    PopVisited(visited, stack, width, height);
  }

  /** Visiting the unwalkable cell on top of the stack and pushing its moves
      keeps the invariant and strictly shrinks the unvisited part of the box. */
  lemma DfsVisit(grid: seq<seq<bool>>, start: Cell, c0: int, c1: int, r0: int, r1: int,
                 visited: set<Cell>, stack: seq<Cell>, width: int, height: int)
    requires c0 <= 0 && width - 1 <= c1 && r0 <= 0 && height - 1 <= r1
    requires |stack| > 0 && stack[|stack| - 1] !in visited && !Walkable(grid, stack[|stack| - 1])
    requires Dfs(grid, start, Rect(c0, c1, r0, r1), visited, stack, width, height)
    ensures var cur := stack[|stack| - 1];
      var box := Rect(c0, c1, r0, r1);
      Dfs(grid, start, box, visited + {cur}, stack[..|stack| - 1] + Pushes(cur, width, height), width, height) &&
      |box - (visited + {cur})| < |box - visited|
  {
    var cur := stack[|stack| - 1];
    var box := Rect(c0, c1, r0, r1);
    var rest := stack[..|stack| - 1];
    assert stack == rest + [cur];
    PopAndPush(visited, stack, width, height);
    PushesInRect(cur, width, height, c0, c1, r0, r1);
    VisitShrinks(box, visited, cur);
  }

  /** Some cell of the grid is walkable. */
  ghost predicate AnyWalkable(grid: seq<seq<bool>>) {
    exists c: Cell :: Walkable(grid, c)
  }

  /** `find_nearest_walkable`: the cell itself when walkable, else the
      first walkable cell a depth-first search (a stack and a visited set)
      meets, else the cell itself. On a rectangular grid with any walkable
      cell the result is walkable. */
  method FindNearestWalkable(col: int, row: int, grid: seq<seq<bool>>) returns (r: Cell)
    ensures Walkable(grid, (col, row)) ==> r == (col, row)
    ensures Walkable(grid, r) || r == (col, row)
    ensures Rectangular(grid, |grid|, GridWidth(grid)) && AnyWalkable(grid) ==>
      Walkable(grid, r)
  {
    if Walkable(grid, (col, row)) {
      return (col, row);
    }
    var width, height := GridWidth(grid), |grid|;
    ghost var c0, c1, r0, r1 := MinInt(col, 0), MaxInt(col, width - 1), MinInt(row, 0), MaxInt(row, height - 1);
    ghost var box := Rect(c0, c1, r0, r1);
    var visited: set<Cell> := {};
    var stack := [(col, row)];
    while |stack| > 0
      invariant Dfs(grid, (col, row), box, visited, stack, width, height)
      decreases |box - visited|, |stack|
    {
      var cur := stack[|stack| - 1];
      if cur in visited {
        DfsSkip(grid, (col, row), box, visited, stack, width, height);
        stack := stack[..|stack| - 1];
        continue;
      }
      if Walkable(grid, cur) {
        return cur;
      }
      DfsVisit(grid, (col, row), c0, c1, r0, r1, visited, stack, width, height);
      visited := visited + {cur};
      stack := stack[..|stack| - 1] + Pushes(cur, width, height);
    }
    r := (col, row);
    if Rectangular(grid, |grid|, GridWidth(grid)) && AnyWalkable(grid) {
      ghost var t: Cell :| Walkable(grid, t);
      assert |grid[t.1]| == width;
      ClosedHoldsAll(visited, width, height, (col, row), t);
      assert false;
    }
  }

  // ---------------------------------------------------------------------
  // A* bookkeeping

  /** The g-score of a cell not yet reached: `unwrap_or(i32::MAX / 2)`. */
  const UNREACHED: int := I32_MAX / 2

  /** `g_score.get(k).copied().unwrap_or(i32::MAX / 2)`. */
  function GScore(g: map<Cell, int>, k: Cell): int {
    if k in g then g[k] else UNREACHED
  }

  /** Every cell of a `rows x cols` grid, row by row. */
  function AllCells(rows: nat, cols: nat): (cs: seq<Cell>)
    ensures forall c: Cell :: 0 <= c.1 < rows && 0 <= c.0 < cols ==> c in cs
  {
    if rows == 0 then []
    else
      var row := seq(cols, k => (k, rows - 1));
      assert forall c: Cell :: c.1 == rows - 1 && 0 <= c.0 < cols ==> row[c.0] == c;
      AllCells(rows - 1, cols) + row
  }

  /** The termination measure of the search: the sum of the g-scores of
      `cells`, counting `UNREACHED` for a cell without one. */
  function Potential(cells: seq<Cell>, g: map<Cell, int>): (p: int)
    ensures (forall k :: k in g ==> g[k] >= 0) ==> p >= 0
  {
    if |cells| == 0 then 0 else GScore(g, cells[0]) + Potential(cells[1..], g)
  }

  /** Lowering the score of one cell never raises the potential, and lowers
      it by at least the drop when the cell is counted. */
  lemma {:induction false} LowerPotential(cells: seq<Cell>, g: map<Cell, int>, k: Cell, v: int)
    requires v < GScore(g, k)
    ensures Potential(cells, g[k := v]) <= Potential(cells, g)
    ensures k in cells ==> Potential(cells, g[k := v]) <= Potential(cells, g) - (GScore(g, k) - v)
  {
    if |cells| > 0 {
      LowerPotential(cells[1..], g, k, v);
      if k != cells[0] {
        assert k in cells ==> k in cells[1..];
      }
    }
  }

  /** Every score lies in `[0, UNREACHED)`. */
  ghost predicate ScoresInRange(g: map<Cell, int>) {
    forall k :: k in g ==> 0 <= g[k] < UNREACHED
  }

  /** Every predecessor link goes one step back to a scored cell with a
      strictly lower score, from a walkable cell. */
  ghost predicate LinksDescend(grid: seq<seq<bool>>, g: map<Cell, int>, cameFrom: map<Cell, Cell>) {
    forall k :: k in cameFrom ==>
      k in g && cameFrom[k] in g && g[cameFrom[k]] < g[k] &&
      Heuristic(k, cameFrom[k]) == 1 && Walkable(grid, k)
  }

  /** Every scored cell other than the start has a predecessor. */
  ghost predicate Rooted(s: Cell, g: map<Cell, int>, cameFrom: map<Cell, Cell>) {
    forall k :: k in g ==> k == s || k in cameFrom
  }

  /** Every queued node has a score. */
  ghost predicate Queued(g: map<Cell, int>, open: seq<Node>) {
    forall i :: 0 <= i < |open| ==> (open[i].col, open[i].row) in g
  }

  /** The invariant of the search: scores lie in `[0, UNREACHED)`, the
      start has score 0, every other scored cell has a predecessor one step
      away with a strictly lower score, every queued node has a score, and
      every score is below the number of scored cells. */
  ghost predicate SearchInv(grid: seq<seq<bool>>, s: Cell, g: map<Cell, int>,
                            cameFrom: map<Cell, Cell>, open: seq<Node>)
  {
    ScoresInRange(g) && s in g && g[s] == 0 && Rooted(s, g, cameFrom) &&
    LinksDescend(grid, g, cameFrom) && Queued(g, open) && ScoresCounted(g)
  }

  /** Every score is below the number of scored cells: a new cell gets
      one more than a scored cell, and scores only go down. */
  ghost predicate ScoresCounted(g: map<Cell, int>) {
    forall k :: k in g ==> g[k] < |g.Keys|
  }

  /** A subset is no larger than its superset. */
  lemma {:induction false} CardSubset<T>(a: set<T>, b: set<T>)
    requires a <= b
    ensures |a| <= |b|
    decreases |b|
  {
    if a != {} {
      var x :| x in a;
      CardSubset(a - {x}, b - {x});
    }
  }

  /** A sequence has at most as many distinct elements as entries. */
  lemma {:induction false} CardOfSeq<T>(xs: seq<T>)
    ensures |set x | x in xs| <= |xs|
  {
    if |xs| > 0 {
      CardOfSeq(xs[1..]);
      assert (set x | x in xs) == (set x | x in xs[1..]) + {xs[0]};
    }
  }

  /** `AllCells` lists `rows * cols` cells. */
  lemma {:induction false} AllCellsCount(rows: nat, cols: nat)
    ensures |AllCells(rows, cols)| == rows * cols
  {
    if rows > 0 {
      AllCellsCount(rows - 1, cols);
    }
  }

  /** Under the invariant every scored cell is the start or walkable, so
      at most one more cell than the grid holds is scored. */
  lemma KeysBound(grid: seq<seq<bool>>, s: Cell, g: map<Cell, int>, cameFrom: map<Cell, Cell>)
    requires Rectangular(grid, |grid|, GridWidth(grid))
    requires Rooted(s, g, cameFrom) && LinksDescend(grid, g, cameFrom)
    ensures |g.Keys| <= |grid| * GridWidth(grid) + 1
  {
    var all := AllCells(|grid|, GridWidth(grid));
    var cellSet := set x | x in all;
    forall k | k in g && k != s
      ensures k in cellSet
    {
      WalkableInAllCells(grid, k);
    }
    assert g.Keys <= cellSet + {s};
    CardSubset(g.Keys, cellSet + {s});
    CardOfSeq(all);
    AllCellsCount(|grid|, GridWidth(grid));
  }

  /** One successful relaxation of neighbour `n` of the expanded cell `cur`
      keeps the invariant. */
  lemma RelaxKeeps(grid: seq<seq<bool>>, s: Cell, g: map<Cell, int>, cameFrom: map<Cell, Cell>,
                   open: seq<Node>, cur: Cell, n: Cell, t: int, f: int)
    requires SearchInv(grid, s, g, cameFrom, open)
    requires cur in g && Walkable(grid, n) && Heuristic(n, cur) == 1
    requires t == g[cur] + 1 && t < GScore(g, n)
    ensures SearchInv(grid, s, g[n := t], cameFrom[n := cur], open + [Node(n.0, n.1, f)])
  {
    var g', cf', open' := g[n := t], cameFrom[n := cur], open + [Node(n.0, n.1, f)];
    assert n != cur;
    assert n != s;
    forall k | k in cf'
      ensures k in g' && cf'[k] in g' && g'[cf'[k]] < g'[k]
    {
      if k != n && cameFrom[k] == n {
        assert g'[n] < g[n];
      }
    }
    forall i | 0 <= i < |open'|
      ensures (open'[i].col, open'[i].row) in g'
    {
      if i < |open| {
        assert open'[i] == open[i];
      }
    }
    assert |g.Keys| <= |g'.Keys| by {
      assert g'.Keys == g.Keys + {n};
    }
    if n !in g {
      assert g'.Keys == g.Keys + {n};
      assert |g'.Keys| == |g.Keys| + 1;
    }
  }

  /** `open.pop()`: a node of lowest f-score, removed from the open list.
      The binary heap's choice among equal f-scores is not modelled; this
      takes the first. */
  method PopMin(open: seq<Node>) returns (node: Node, rest: seq<Node>, i: nat)
    requires |open| > 0
    ensures i < |open| && node == open[i] && rest == open[..i] + open[i + 1..]
    ensures forall k :: 0 <= k < |open| ==> node.fScore <= open[k].fScore
    ensures multiset(rest) + multiset{node} == multiset(open)
  {
    i := 0;
    var j := 1;
    while j < |open|
      invariant i < j <= |open|
      invariant forall k :: 0 <= k < j ==> open[i].fScore <= open[k].fScore
    {
      if open[j].fScore < open[i].fScore {
        i := j;
      }
      j := j + 1;
    }
    node := open[i];
    rest := open[..i] + open[i + 1..];
    assert open == open[..i] + [open[i]] + open[i + 1..];
  }

  /** The reconstructed route: from `s` to `e`, each later cell walkable and
      exactly one step (Manhattan distance 1) from the one before it. */
  ghost predicate IsRoute(grid: seq<seq<bool>>, cells: seq<Cell>, s: Cell, e: Cell) {
    |cells| >= 1 && cells[0] == s && cells[|cells| - 1] == e &&
    forall i :: 1 <= i < |cells| ==> Walkable(grid, cells[i]) && Heuristic(cells[i - 1], cells[i]) == 1
  }

  /** `path.reverse()`. */
  function Reverse<T>(s: seq<T>): (r: seq<T>)
    ensures |r| == |s|
    ensures forall i :: 0 <= i < |s| ==> r[i] == s[|s| - 1 - i]
  {
    if |s| == 0 then [] else Reverse(s[1..]) + [s[0]]
  }

  /** Reversing twice gives the sequence back. */
  lemma ReverseInvolutive<T>(s: seq<T>)
    ensures Reverse(Reverse(s)) == s
  {
  }

  /** The world position of the centre of a cell. */
  function CellCenter(c: Cell, cfg: StoreConfig): (real, real) {
    (CellCenterX(c.0, cfg.storeWidth), CellCenterY(c.1, cfg.storeHeight))
  }

  /** The centres of a sequence of cells, in order. */
  ghost predicate CentresOf(path: seq<(real, real)>, cells: seq<Cell>, cfg: StoreConfig) {
    |path| == |cells| && forall i :: 0 <= i < |cells| ==> path[i] == CellCenter(cells[i], cfg)
  }

  /** The centres of two 4-adjacent cells are exactly one cell size apart
      along one axis. */
  lemma AdjacentCentres(a: Cell, b: Cell, cfg: StoreConfig)
    requires Heuristic(a, b) == 1
    ensures var p, q := CellCenter(a, cfg), CellCenter(b, cfg);
      (p.0 == q.0 && Abs(p.1 - q.1) == NAV_CELL_SIZE) ||
      (p.1 == q.1 && Abs(p.0 - q.0) == NAV_CELL_SIZE)
  {
  }

  /** Each cell of `back` but the last has the next one as predecessor. */
  ghost predicate Chain(cameFrom: map<Cell, Cell>, back: seq<Cell>) {
    forall i :: 0 <= i < |back| - 1 ==> back[i] in cameFrom && cameFrom[back[i]] == back[i + 1]
  }

  /** Following one more link extends a chain. */
  lemma ChainExtend(cameFrom: map<Cell, Cell>, back: seq<Cell>)
    requires |back| >= 1 && Chain(cameFrom, back) && back[|back| - 1] in cameFrom
    ensures Chain(cameFrom, back + [cameFrom[back[|back| - 1]]])
  {
    var back' := back + [cameFrom[back[|back| - 1]]];
    forall i | 0 <= i < |back'| - 1
      ensures back'[i] in cameFrom && cameFrom[back'[i]] == back'[i + 1]
    {
      assert back'[i] == back[i];
    }
  }

  /** Read backwards, a chain of predecessor links from `e` to `s` is a
      route from `s` to `e`. */
  lemma ReversedChainIsRoute(grid: seq<seq<bool>>, g: map<Cell, int>, cameFrom: map<Cell, Cell>,
                             back: seq<Cell>, s: Cell, e: Cell)
    requires LinksDescend(grid, g, cameFrom)
    requires |back| >= 1 && back[0] == e && back[|back| - 1] == s
    requires Chain(cameFrom, back)
    ensures IsRoute(grid, Reverse(back), s, e)
  {
    var cells := Reverse(back);
    forall i | 1 <= i < |cells|
      ensures Walkable(grid, cells[i]) && Heuristic(cells[i - 1], cells[i]) == 1
    {
      var j := |back| - 1 - i;
      assert cells[i] == back[j] && cells[i - 1] == back[j + 1];
      assert back[j] in cameFrom;
      HeuristicIsMetric(back[j], back[j + 1], back[j]);
    }
  }

  /** The walk back along `came_from` from the goal, then `path.reverse()`. */
  method Reconstruct(grid: seq<seq<bool>>, s: Cell, e: Cell, g: map<Cell, int>,
                     cameFrom: map<Cell, Cell>, cfg: StoreConfig)
    returns (path: seq<(real, real)>, ghost cells: seq<Cell>)
    requires ScoresInRange(g) && s in g && g[s] == 0 && Rooted(s, g, cameFrom)
    requires LinksDescend(grid, g, cameFrom) && e in g
    ensures IsRoute(grid, cells, s, e)
    ensures CentresOf(path, cells, cfg)
  {
    var curr := e;
    var back := [CellCenter(curr, cfg)];
    ghost var backCells := [curr];
    while curr in cameFrom
      invariant curr in g
      invariant |backCells| >= 1 && backCells[0] == e && backCells[|backCells| - 1] == curr
      invariant Chain(cameFrom, backCells)
      invariant CentresOf(back, backCells, cfg)
      decreases g[curr]
    {
      ChainExtend(cameFrom, backCells);
      curr := cameFrom[curr];
      back := back + [CellCenter(curr, cfg)];
      backCells := backCells + [curr];
    }
    path := Reverse(back);
    cells := Reverse(backCells);
    ReversedChainIsRoute(grid, g, cameFrom, backCells, s, e);
  }

  /** Removing one node keeps every queued node scored. */
  lemma QueuedRemove(g: map<Cell, int>, open: seq<Node>, i: nat)
    requires Queued(g, open) && i < |open|
    ensures Queued(g, open[..i] + open[i + 1..])
  {
    var rest := open[..i] + open[i + 1..];
    forall k | 0 <= k < |rest|
      ensures (rest[k].col, rest[k].row) in g
    {
      if k < i { assert rest[k] == open[k]; } else { assert rest[k] == open[k + 1]; }
    }
  }

  /** A walkable cell of a rectangular grid is one of its cells. */
  lemma WalkableInAllCells(grid: seq<seq<bool>>, c: Cell)
    requires Rectangular(grid, |grid|, GridWidth(grid)) && Walkable(grid, c)
    ensures c in AllCells(|grid|, GridWidth(grid))
  {
    assert |grid[c.1]| == GridWidth(grid);
  }

  /** The potential over the whole grid drops from `g0` to `g` by at least
      `pushed`. */
  ghost predicate PotentialDrop(grid: seq<seq<bool>>, g0: map<Cell, int>, g: map<Cell, int>, pushed: int) {
    var all := AllCells(|grid|, GridWidth(grid));
    Potential(all, g) + pushed <= Potential(all, g0)
  }

  /** Scores only go down from `g0` to `g`, and each changed score is
      `g0[cur] + 1` at a cell of `ns`, with `cur` as predecessor and the
      f-score `g + h`. */
  ghost predicate LoweredVia(g0: map<Cell, int>, g: map<Cell, int>, cameFrom: map<Cell, Cell>,
                             fScore: map<Cell, int>, cur: Cell, ns: seq<Cell>, e: Cell)
    requires cur in g0
  {
    (forall k :: GScore(g, k) <= GScore(g0, k)) &&
    (forall k :: GScore(g, k) != GScore(g0, k) ==>
      GScore(g, k) == g0[cur] + 1 && k in ns &&
      k in cameFrom && cameFrom[k] == cur && k in fScore && fScore[k] == GScore(g, k) + Heuristic(k, e))
  }

  /** One accepted relaxation keeps `LoweredVia`. */
  lemma LoweredViaStep(g0: map<Cell, int>, g: map<Cell, int>, cameFrom: map<Cell, Cell>,
                       fScore: map<Cell, int>, cur: Cell, ns: seq<Cell>, e: Cell, n: Cell, t: int, f: int)
    requires cur in g0 && cur in g && g[cur] == g0[cur] && n in ns
    requires LoweredVia(g0, g, cameFrom, fScore, cur, ns, e)
    requires t == g[cur] + 1 && t < GScore(g, n) && f == t + Heuristic(n, e)
    ensures LoweredVia(g0, g[n := t], cameFrom[n := cur], fScore[n := f], cur, ns, e)
  {
    var g' := g[n := t];
    forall k ensures GScore(g', k) <= GScore(g0, k) {
      if k != n { assert GScore(g', k) == GScore(g, k); }
    }
  }

  /** The invariant of the neighbour loop of `Relax`, relating the state
      `(g, cameFrom, fScore, open)` to the state `(g0, open0)` before it. */
  ghost predicate RelaxInv(grid: seq<seq<bool>>, s: Cell, e: Cell, cur: Cell, ns: seq<Cell>,
                           g0: map<Cell, int>, open0: seq<Node>,
                           g: map<Cell, int>, cameFrom: map<Cell, Cell>, fScore: map<Cell, int>, open: seq<Node>)
  {
    cur in g0 && SearchInv(grid, s, g, cameFrom, open) &&
    |open| >= |open0| && open[..|open0|] == open0 &&
    PotentialDrop(grid, g0, g, |open| - |open0|) &&
    cur in g && g[cur] == g0[cur] &&
    LoweredVia(g0, g, cameFrom, fScore, cur, ns, e)
  }

  /** One accepted relaxation keeps the invariant of the neighbour loop. */
  lemma RelaxStep(grid: seq<seq<bool>>, s: Cell, e: Cell, cur: Cell, ns: seq<Cell>, n: Cell,
                  g0: map<Cell, int>, open0: seq<Node>,
                  g: map<Cell, int>, cameFrom: map<Cell, Cell>, fScore: map<Cell, int>, open: seq<Node>,
                  t: int, f: int)
    requires Rectangular(grid, |grid|, GridWidth(grid))
    requires n in ns && Walkable(grid, n) && Heuristic(n, cur) == 1
    requires RelaxInv(grid, s, e, cur, ns, g0, open0, g, cameFrom, fScore, open)
    requires t == g[cur] + 1 && t < GScore(g, n) && f == t + Heuristic(n, e)
    ensures RelaxInv(grid, s, e, cur, ns, g0, open0,
                     g[n := t], cameFrom[n := cur], fScore[n := f], open + [Node(n.0, n.1, f)])
  {
    var g', cameFrom', fScore', open' := g[n := t], cameFrom[n := cur], fScore[n := f], open + [Node(n.0, n.1, f)];
    assert SearchInv(grid, s, g', cameFrom', open') by {
      RelaxKeeps(grid, s, g, cameFrom, open, cur, n, t, f);
    }
    assert PotentialDrop(grid, g0, g', |open'| - |open0|) by {
      WalkableInAllCells(grid, n);
      LowerPotential(AllCells(|grid|, GridWidth(grid)), g, n, t);
    }
    assert LoweredVia(g0, g', cameFrom', fScore', cur, ns, e) by {
      LoweredViaStep(g0, g, cameFrom, fScore, cur, ns, e, n, t, f);
    }
    assert open'[..|open0|] == open[..|open0|];
  }

  /** Some queued node is at cell `k`. */
  ghost predicate InOpen(k: Cell, open: seq<Node>) {
    exists j :: 0 <= j < |open| && (open[j].col, open[j].row) == k
  }

  /** A grid small enough that no score reaches the `i32::MAX / 2`
      sentinel: with at most `rows * cols + 1` scored cells, every
      tentative score stays below it. */
  predicate SmallGrid(grid: seq<seq<bool>>) {
    |grid| * GridWidth(grid) + 1 < UNREACHED
  }

  /** Every walkable neighbour of `k` has a score. */
  ghost predicate Expanded(grid: seq<seq<bool>>, g: map<Cell, int>, k: Cell) {
    forall n :: n in Neighbors(k.0, k.1, grid) ==> n in g
  }

  /** From `g0` to `g` no scored cell is dropped and every newly scored
      cell is queued in `open`. */
  ghost predicate Grown(g0: map<Cell, int>, g: map<Cell, int>, open: seq<Node>) {
    (forall k :: k in g0 ==> k in g) &&
    (forall k :: k in g && k !in g0 ==> InOpen(k, open))
  }

  /** Scoring `n` and queueing it keeps `Grown`. */
  lemma GrownStep(g0: map<Cell, int>, g: map<Cell, int>, open: seq<Node>, n: Cell, t: int, f: int)
    requires Grown(g0, g, open)
    ensures Grown(g0, g[n := t], open + [Node(n.0, n.1, f)])
  {
    var open' := open + [Node(n.0, n.1, f)];
    forall k | k in g[n := t] && k !in g0
      ensures InOpen(k, open')
    {
      if k == n {
        assert (open'[|open|].col, open'[|open|].row) == k;
      } else {
        var j :| 0 <= j < |open| && (open[j].col, open[j].row) == k;
        assert open'[j] == open[j];
      }
    }
  }

  /** A neighbour whose tentative score does not beat its stored one is
      already scored, on a grid below the sentinel. */
  lemma KeptNeighbourScored(grid: seq<seq<bool>>, s: Cell, g: map<Cell, int>, cameFrom: map<Cell, Cell>,
                            open: seq<Node>, cur: Cell, n: Cell)
    requires Rectangular(grid, |grid|, GridWidth(grid)) && SmallGrid(grid)
    requires SearchInv(grid, s, g, cameFrom, open) && cur in g
    requires GScore(g, cur) + 1 >= GScore(g, n)
    ensures n in g
  {
    KeysBound(grid, s, g, cameFrom);
  }

  /** The `for (nc, nr) in neighbors(...)` loop of `find_path`: each
      neighbour whose tentative score `g(cur) + 1` beats its stored score
      gets `cur` as predecessor, the new score, the f-score `g + h`, and a
      new open node. Scores only ever go down, each lowered score is
      `g(cur) + 1` at a neighbour of `cur`, and the potential drops by at
      least the number of nodes pushed. */
  method Relax(grid: seq<seq<bool>>, s: Cell, e: Cell, cur: Cell,
               g0: map<Cell, int>, cameFrom0: map<Cell, Cell>, fScore0: map<Cell, int>, open0: seq<Node>)
    returns (g: map<Cell, int>, cameFrom: map<Cell, Cell>, fScore: map<Cell, int>, open: seq<Node>)
    requires Rectangular(grid, |grid|, GridWidth(grid))
    requires SearchInv(grid, s, g0, cameFrom0, open0) && cur in g0
    ensures SearchInv(grid, s, g, cameFrom, open)
    ensures |open| >= |open0| && open[..|open0|] == open0
    ensures PotentialDrop(grid, g0, g, |open| - |open0|)
    ensures LoweredVia(g0, g, cameFrom, fScore, cur, Neighbors(cur.0, cur.1, grid), e)
    ensures cur in g && g[cur] == g0[cur]
    ensures Grown(g0, g, open)
    ensures SmallGrid(grid) ==> Expanded(grid, g, cur)
  {
    g, cameFrom, fScore, open := g0, cameFrom0, fScore0, open0;
    var ns := Neighbors(cur.0, cur.1, grid);
    NeighborsAreAdjacent(cur.0, cur.1, grid);
    var i := 0;
    while i < |ns|
      invariant 0 <= i <= |ns|
      invariant RelaxInv(grid, s, e, cur, ns, g0, open0, g, cameFrom, fScore, open)
      invariant Grown(g0, g, open)
      invariant SmallGrid(grid) ==> forall j :: 0 <= j < i ==> ns[j] in g
    {
      var n := ns[i];
      ghost var gPrev := g;
      var tentative := GScore(g, cur) + 1;
      if tentative < GScore(g, n) {
        var f := tentative + Heuristic(n, e);
        RelaxStep(grid, s, e, cur, ns, n, g0, open0, g, cameFrom, fScore, open, tentative, f);
        GrownStep(g0, g, open, n, tentative, f);
        cameFrom := cameFrom[n := cur];
        g := g[n := tentative];
        fScore := fScore[n := f];
        open := open + [Node(n.0, n.1, f)];
      } else if SmallGrid(grid) {
        KeptNeighbourScored(grid, s, g, cameFrom, open, cur, n);
      }
      if SmallGrid(grid) {
        PrefixScored(ns, gPrev, g, i);
      }
      i := i + 1;
    }
  }

  /** The first `i + 1` neighbours are scored once the first `i` were and
      neighbour `i` now is, when no score was dropped. */
  lemma PrefixScored(ns: seq<Cell>, g0: map<Cell, int>, g: map<Cell, int>, i: nat)
    requires i < |ns| && ns[i] in g
    requires forall j :: 0 <= j < i ==> ns[j] in g0
    requires forall k :: k in g0 ==> k in g
    ensures forall j :: 0 <= j < i + 1 ==> ns[j] in g
  {
  }

  /** The frontier of the search: every scored cell is still queued or
      has all its walkable neighbours scored, and the goal, once scored,
      stays queued until it is popped. */
  ghost predicate OpenFrontier(grid: seq<seq<bool>>, e: Cell, g: map<Cell, int>, open: seq<Node>) {
    (forall k :: k in g ==> InOpen(k, open) || Expanded(grid, g, k)) &&
    (e in g ==> InOpen(e, open))
  }

  /** Popping node `i` (not the goal) and relaxing its cell keeps the
      frontier. */
  lemma FrontierStep(grid: seq<seq<bool>>, e: Cell, g0: map<Cell, int>, open0: seq<Node>, i: nat,
                     g: map<Cell, int>, open: seq<Node>)
    requires OpenFrontier(grid, e, g0, open0)
    requires i < |open0| && (open0[i].col, open0[i].row) != e
    requires Grown(g0, g, open)
    requires var rest := open0[..i] + open0[i + 1..]; |open| >= |rest| && open[..|rest|] == rest
    requires Expanded(grid, g, (open0[i].col, open0[i].row))
    ensures OpenFrontier(grid, e, g, open)
  {
    var rest := open0[..i] + open0[i + 1..];
    forall k | k in g0 && InOpen(k, open0) && k != (open0[i].col, open0[i].row)
      ensures InOpen(k, open)
    {
      var j :| 0 <= j < |open0| && (open0[j].col, open0[j].row) == k;
      var j' := if j < i then j else j - 1;
      assert rest[j'] == open0[j];
      assert open[j'] == rest[j'];
    }
    forall k | k in g0 && Expanded(grid, g0, k)
      ensures Expanded(grid, g, k)
    {
    }
  }

  /** When every scored cell has all its walkable neighbours scored, a
      route from the scored start stays on scored cells. */
  lemma {:induction false} RouteInside(grid: seq<seq<bool>>, g: map<Cell, int>, cells: seq<Cell>,
                                       s: Cell, e: Cell, i: nat)
    requires Rectangular(grid, |grid|, GridWidth(grid))
    requires IsRoute(grid, cells, s, e) && s in g && i < |cells|
    requires forall k :: k in g ==> Expanded(grid, g, k)
    ensures cells[i] in g
  {
    if i > 0 {
      RouteInside(grid, g, cells, s, e, i - 1);
      var a, b := cells[i - 1], cells[i];
      HeuristicIsMetric(a, b, b);
      NeighborsAreAdjacent(a.0, a.1, grid);
      assert b in Neighbors(a.0, a.1, grid);
      assert Expanded(grid, g, a);
    }
  }

  /** With the open list empty, no route reaches the unscored goal. */
  lemma NoRoute(grid: seq<seq<bool>>, g: map<Cell, int>, s: Cell, e: Cell)
    requires Rectangular(grid, |grid|, GridWidth(grid))
    requires s in g && e !in g
    requires forall k :: k in g ==> Expanded(grid, g, k)
    ensures forall cells :: !IsRoute(grid, cells, s, e)
  {
    forall cells | IsRoute(grid, cells, s, e)
      ensures false
    {
      RouteInside(grid, g, cells, s, e, |cells| - 1);
    }
  }

  /** The search loop of `find_path` from `s` towards `e`: pop a node of
      lowest f-score; at the goal, rebuild the route; otherwise relax its
      neighbours. `None` when the open list runs dry, which on a grid
      below the score sentinel happens only when no route from `s` to `e`
      exists. */
  method Search(grid: seq<seq<bool>>, s: Cell, e: Cell, cfg: StoreConfig)
    returns (path: Option<seq<(real, real)>>, ghost cells: seq<Cell>)
    requires Rectangular(grid, |grid|, GridWidth(grid))
    ensures path.Some? ==> IsRoute(grid, cells, s, e) && CentresOf(path.value, cells, cfg)
    ensures path.None? && SmallGrid(grid) ==> forall route :: !IsRoute(grid, route, s, e)
  {
    ghost var all := AllCells(|grid|, GridWidth(grid));
    var g: map<Cell, int> := map[s := 0];
    var cameFrom: map<Cell, Cell> := map[];
    var fScore: map<Cell, int> := map[s := Heuristic(s, e)];
    var open := [Node(s.0, s.1, fScore[s])];
    cells := [];
    assert (open[0].col, open[0].row) == s;
    while |open| > 0
      invariant SearchInv(grid, s, g, cameFrom, open)
      invariant SmallGrid(grid) ==> OpenFrontier(grid, e, g, open)
      decreases Potential(all, g), |open|
    {
      var current, rest, i := PopMin(open);
      var c := (current.col, current.row);
      if c == e {
        var p;
        p, cells := Reconstruct(grid, s, e, g, cameFrom, cfg);
        return Some(p), cells;
      }
      QueuedRemove(g, open, i);
      ghost var g0, open0 := g, open;
      g, cameFrom, fScore, open := Relax(grid, s, e, c, g, cameFrom, fScore, rest);
      if SmallGrid(grid) {
        FrontierStep(grid, e, g0, open0, i, g, open);
      }
    }
    if SmallGrid(grid) {
      NoRoute(grid, g, s, e);
    }
    return None, cells;
  }

  // ---------------------------------------------------------------------
  // find_path

  /** `clamp(v as f32, 0.0, hi as f32) as i32`. */
  function ClampIndex(v: int, hi: int): (r: int)
    ensures 0 <= hi && IsI32(hi) ==> 0 <= r <= hi
    ensures 0 <= v <= hi && IsI32(v) ==> r == v
    ensures v < 0 <= hi ==> r == 0
    ensures IsI32(hi) && hi < v ==> r == hi
  {
    F32ToI32(Clamp(v as real, 0.0, hi as real))
  }

  /** The cell a world point falls in, clamped into the grid. */
  function ClampedCell(p: (real, real), cfg: StoreConfig): Cell {
    (ClampIndex(WorldToCol(p.0, cfg.storeWidth), GridCols(cfg) - 1),
     ClampIndex(WorldToRow(p.1, cfg.storeHeight), GridRows(cfg) - 1))
  }

  /** On a non-empty grid the clamped cell is a cell of the grid. */
  lemma ClampedCellInGrid(p: (real, real), cfg: StoreConfig)
    requires GridCols(cfg) >= 1 && GridRows(cfg) >= 1
    ensures 0 <= ClampedCell(p, cfg).0 < GridCols(cfg)
    ensures 0 <= ClampedCell(p, cfg).1 < GridRows(cfg)
  {
  }

  /** A cell of the layout's navigation grid that no shelving row covers. */
  ghost predicate NavWalkable(cfg: StoreConfig, c: Cell) {
    0 <= c.1 < GridRows(cfg) && 0 <= c.0 < GridCols(cfg) && !ColumnBlocked(cfg, c.0)
  }

  /** On the built grid, walkability is `NavWalkable`. */
  lemma NavGridWalkable(cfg: StoreConfig, grid: seq<seq<bool>>, c: Cell)
    requires IsNavGrid(cfg, grid)
    ensures Walkable(grid, c) <==> NavWalkable(cfg, c)
  {
  }

  /** A route over the layout's grid from `s` to `e`. */
  ghost predicate IsNavRoute(cfg: StoreConfig, cells: seq<Cell>, s: Cell, e: Cell) {
    |cells| >= 1 && cells[0] == s && cells[|cells| - 1] == e &&
    forall i :: 1 <= i < |cells| ==> NavWalkable(cfg, cells[i]) && Heuristic(cells[i - 1], cells[i]) == 1
  }

  /** `s` is what `find_nearest_walkable` may return for `c0`: `c0` itself
      when walkable, else a walkable cell when there is one, else `c0`. */
  ghost predicate SnappedFrom(cfg: StoreConfig, s: Cell, c0: Cell) {
    (NavWalkable(cfg, c0) ==> s == c0) &&
    (NavWalkable(cfg, s) || s == c0) &&
    ((exists w: Cell :: NavWalkable(cfg, w)) ==> NavWalkable(cfg, s))
  }

  /** Snap a clamped cell with `find_nearest_walkable` on the built grid. */
  method Snap(cfg: StoreConfig, grid: seq<seq<bool>>, c0: Cell) returns (c: Cell)
    requires IsNavGrid(cfg, grid)
    ensures SnappedFrom(cfg, c, c0)
  {
    c := FindNearestWalkable(c0.0, c0.1, grid);
    NavGridWalkable(cfg, grid, c0);
    NavGridWalkable(cfg, grid, c);
    assert Rectangular(grid, |grid|, GridWidth(grid));
    if exists w: Cell :: NavWalkable(cfg, w) {
      var w: Cell :| NavWalkable(cfg, w);
      NavGridWalkable(cfg, grid, w);
    }
  }

  /** What `find_path(start, end)` returns: `[start, end]` when not
      `found` (always so on an empty grid), else the centres of a route
      over 4-adjacent walkable cells between the snapped start and end
      cells. On a non-empty grid below the score sentinel, not `found`
      means that no route joins the snapped cells `cells[0]` and
      `cells[1]`. */
  ghost predicate FindPathPost(start: (real, real), end: (real, real), cfg: StoreConfig,
                               path: seq<(real, real)>, found: bool, cells: seq<Cell>)
  {
    (!found ==> path == [start, end]) &&
    (GridCols(cfg) <= 0 || GridRows(cfg) <= 0 ==> !found) &&
    (!found && GridCols(cfg) >= 1 && GridRows(cfg) >= 1 ==>
      |cells| == 2 &&
      SnappedFrom(cfg, cells[0], ClampedCell(start, cfg)) &&
      SnappedFrom(cfg, cells[1], ClampedCell(end, cfg)) &&
      (GridRows(cfg) * GridCols(cfg) + 1 < UNREACHED ==>
        forall route :: !IsNavRoute(cfg, route, cells[0], cells[1]))) &&
    (found ==>
      GridCols(cfg) >= 1 && GridRows(cfg) >= 1 && |cells| >= 1 &&
      IsNavRoute(cfg, cells, cells[0], cells[|cells| - 1]) && CentresOf(path, cells, cfg) &&
      SnappedFrom(cfg, cells[0], ClampedCell(start, cfg)) &&
      SnappedFrom(cfg, cells[|cells| - 1], ClampedCell(end, cfg)))
  }

  /** `path` is one of the results `find_path(start, end)` may return. */
  ghost predicate FindPathOutcome(start: (real, real), end: (real, real), cfg: StoreConfig,
                                  path: seq<(real, real)>)
  {
    exists found: bool, cells: seq<Cell> :: FindPathPost(start, end, cfg, path, found, cells)
  }

  /** Every result of `find_path` has at least one point. */
  lemma FindPathNonEmpty(start: (real, real), end: (real, real), cfg: StoreConfig, path: seq<(real, real)>)
    requires FindPathOutcome(start, end, cfg, path)
    ensures |path| >= 1
  {
    var found: bool, cells: seq<Cell> :| FindPathPost(start, end, cfg, path, found, cells);
  }

  /** `find_path`: build the grid; on an empty grid return `[start, end]`;
      otherwise clamp both points' cells into the grid, snap them to
      walkable cells and search. A found route runs over 4-adjacent
      walkable cells from the snapped start cell to the snapped end cell
      and is returned as cell centres; when the goal is never popped the
      result is `[start, end]`. */
  method FindPath(start: (real, real), end: (real, real), cfg: StoreConfig)
    returns (path: seq<(real, real)>, ghost found: bool, ghost cells: seq<Cell>)
    requires NavGridBuildable(cfg)
    ensures FindPathPost(start, end, cfg, path, found, cells)
  {
    var grid := BuildNavGrid(cfg);
    var maxCol := GridWidth(grid) - 1;
    var maxRow := |grid| - 1;
    found, cells := false, [];
    if maxCol < 0 || maxRow < 0 {
      return [start, end], found, cells;
    }
    var startCell := (ClampIndex(WorldToCol(start.0, cfg.storeWidth), maxCol),
                      ClampIndex(WorldToRow(start.1, cfg.storeHeight), maxRow));
    var endCell := (ClampIndex(WorldToCol(end.0, cfg.storeWidth), maxCol),
                    ClampIndex(WorldToRow(end.1, cfg.storeHeight), maxRow));
    var s := Snap(cfg, grid, startCell);
    var e := Snap(cfg, grid, endCell);
    var r;
    r, cells := Search(grid, s, e, cfg);
    assert GridWidth(grid) == GridCols(cfg);
    assert startCell == ClampedCell(start, cfg) && endCell == ClampedCell(end, cfg);
    if r.None? {
      forall route | SmallGrid(grid) && IsNavRoute(cfg, route, s, e)
        ensures false
      {
        NavRouteIsRoute(cfg, grid, route, s, e);
      }
      return [start, end], found, [s, e];
    }
    found := true;
    path := r.value;
    FoundRoute(cfg, grid, cells, s, e);
  }

  /** A route over the built grid is a route over the layout. */
  lemma FoundRoute(cfg: StoreConfig, grid: seq<seq<bool>>, cells: seq<Cell>, s: Cell, e: Cell)
    requires IsNavGrid(cfg, grid) && IsRoute(grid, cells, s, e)
    ensures IsNavRoute(cfg, cells, s, e)
  {
    forall i | 1 <= i < |cells|
      ensures NavWalkable(cfg, cells[i]) && Heuristic(cells[i - 1], cells[i]) == 1
    {
      NavGridWalkable(cfg, grid, cells[i]);
    }
  }

  /** A route over the layout is a route over the built grid. */
  lemma NavRouteIsRoute(cfg: StoreConfig, grid: seq<seq<bool>>, cells: seq<Cell>, s: Cell, e: Cell)
    requires IsNavGrid(cfg, grid) && IsNavRoute(cfg, cells, s, e)
    ensures IsRoute(grid, cells, s, e)
  {
    forall i | 1 <= i < |cells|
      ensures Walkable(grid, cells[i])
    {
      NavGridWalkable(cfg, grid, cells[i]);
    }
  }

  // ---------------------------------------------------------------------
  // compute_path_with_outer_walkway

  /** `v.last().unwrap_or(default)`. */
  function LastOr<T>(v: seq<T>, default: T): (r: T)
    ensures |v| > 0 ==> r == v[|v| - 1]
    ensures |v| == 0 ==> r == default
  {
    if |v| == 0 then default else v[|v| - 1]
  }

  /** `stitched`: leg 1, then each further non-empty leg without its first
      point. */
  function Stitch(leg1: seq<(real, real)>, leg2: seq<(real, real)>, leg3: seq<(real, real)>): seq<(real, real)> {
    leg1 + (if |leg2| > 0 then leg2[1..] else []) + (if |leg3| > 0 then leg3[1..] else [])
  }

  /** The stitched route starts with leg 1, has each later leg's points but
      its first, and ends where leg 3 ends. */
  lemma StitchShape(leg1: seq<(real, real)>, leg2: seq<(real, real)>, leg3: seq<(real, real)>)
    requires |leg1| >= 1 && |leg2| >= 1 && |leg3| >= 1
    ensures var r := Stitch(leg1, leg2, leg3);
      |r| == |leg1| + |leg2| + |leg3| - 2 && r[..|leg1|] == leg1 &&
      (|leg3| > 1 ==> r[|r| - 1] == leg3[|leg3| - 1])
  {
    var r := Stitch(leg1, leg2, leg3);
    assert r[..|leg1|] == leg1;
  }

  /** The length of one segment: `(dx * dx + dy * dy).sqrt()`. */
  function SegmentLength(m: MathOracle, a: (real, real), b: (real, real)): real {
    var dx := b.0 - a.0;
    var dy := b.1 - a.1;
    m.sqrt(dx * dx + dy * dy)
  }

  /** The oracle's square root is never negative. */
  ghost predicate SqrtNonneg(m: MathOracle) {
    forall v :: m.sqrt(v) >= 0.0
  }

  /** The total length of a polyline, summed segment by segment from the
      first point. */
  function PathDistance(m: MathOracle, p: seq<(real, real)>): (d: real)
    ensures SqrtNonneg(m) ==> d >= 0.0
  {
    if |p| < 2 then 0.0 else PathDistance(m, p[..|p| - 1]) + SegmentLength(m, p[|p| - 2], p[|p| - 1])
  }

  /** The `distance` closure: a loop adding up the segment lengths. */
  method Distance(m: MathOracle, path: seq<(real, real)>) returns (total: real)
    ensures total == PathDistance(m, path)
  {
    total := 0.0;
    if |path| < 2 {
      return;
    }
    var i := 1;
    while i < |path|
      invariant 1 <= i <= |path|
      invariant total == PathDistance(m, path[..i])
    {
      assert path[..i + 1][..i] == path[..i];
      total := total + SegmentLength(m, path[i - 1], path[i]);
      i := i + 1;
    }
    assert path[..i] == path;
  }

  /** Joining two polylines that share an end point adds their lengths. */
  lemma {:induction false} PathDistanceJoin(m: MathOracle, p: seq<(real, real)>, q: seq<(real, real)>)
    requires |p| >= 1 && |q| >= 1 && p[|p| - 1] == q[0]
    ensures PathDistance(m, p + q[1..]) == PathDistance(m, p) + PathDistance(m, q)
    decreases |q|
  {
    if |q| == 1 {
      assert p + q[1..] == p;
    } else {
      var q' := q[..|q| - 1];
      PathDistanceJoin(m, p, q');
      var r := p + q[1..];
      assert r[..|r| - 1] == p + q'[1..];
      assert r[|r| - 2] == q[|q| - 2];
      assert q[..|q| - 1] == q';
    }
  }

  /** When the legs meet end to start, the stitched route is as long as
      its three legs together. */
  lemma StitchDistance(m: MathOracle, leg1: seq<(real, real)>, leg2: seq<(real, real)>, leg3: seq<(real, real)>)
    requires |leg1| >= 1 && |leg2| >= 1 && |leg3| >= 1
    requires leg2[0] == leg1[|leg1| - 1] && leg3[0] == leg2[|leg2| - 1]
    ensures PathDistance(m, Stitch(leg1, leg2, leg3)) ==
      PathDistance(m, leg1) + PathDistance(m, leg2) + PathDistance(m, leg3)
  {
    var a := leg1 + leg2[1..];
    PathDistanceJoin(m, leg1, leg2);
    assert a[|a| - 1] == leg2[|leg2| - 1];
    PathDistanceJoin(m, a, leg3);
  }

  /** `route` is what `build_route(anchor_y)` may return: three `find_path`
      legs, start to above/below it, across to above/below the end, and
      down/up to the end, stitched. */
  ghost predicate RouteOutcome(start: (real, real), end: (real, real), anchorY: real,
                               cfg: StoreConfig, route: seq<(real, real)>)
  {
    exists leg1, leg2, leg3 ::
      FindPathOutcome(start, (start.0, anchorY), cfg, leg1) &&
      FindPathOutcome(LastOr(leg1, (start.0, anchorY)), (end.0, anchorY), cfg, leg2) &&
      FindPathOutcome(LastOr(leg2, (end.0, anchorY)), end, cfg, leg3) &&
      route == Stitch(leg1, leg2, leg3)
  }

  /** The `build_route` closure. */
  method BuildRoute(start: (real, real), end: (real, real), anchorY: real, cfg: StoreConfig)
    returns (route: seq<(real, real)>)
    requires NavGridBuildable(cfg)
    ensures RouteOutcome(start, end, anchorY, cfg, route)
    ensures |route| >= 1
  {
    ghost var f1, f2, f3, c1, c2, c3;
    var leg1;
    leg1, f1, c1 := FindPath(start, (start.0, anchorY), cfg);
    var anchorPt := LastOr(leg1, (start.0, anchorY));
    var leg2;
    leg2, f2, c2 := FindPath(anchorPt, (end.0, anchorY), cfg);
    var leg2Anchor := LastOr(leg2, (end.0, anchorY));
    var leg3;
    leg3, f3, c3 := FindPath(leg2Anchor, end, cfg);
    var stitched := leg1;
    if |leg2| > 0 {
      stitched := stitched + leg2[1..];
    }
    if |leg3| > 0 {
      stitched := stitched + leg3[1..];
    }
    route := stitched;
    assert FindPathPost(start, (start.0, anchorY), cfg, leg1, f1, c1);
    assert FindPathPost(anchorPt, (end.0, anchorY), cfg, leg2, f2, c2);
    assert FindPathPost(leg2Anchor, end, cfg, leg3, f3, c3);
    assert FindPathOutcome(start, (start.0, anchorY), cfg, leg1);
    assert FindPathOutcome(anchorPt, (end.0, anchorY), cfg, leg2);
    assert FindPathOutcome(leg2Anchor, end, cfg, leg3);
    assert route == Stitch(leg1, leg2, leg3);
    FindPathNonEmpty(start, (start.0, anchorY), cfg, leg1);
  }

  /** `compute_path_with_outer_walkway`: build the route through the top
      walkway (`height / 2 - offset`) and the one through the bottom
      walkway (`-height / 2 + offset`), and return the shorter, the top one
      on a tie. */
  method ComputePathWithOuterWalkway(m: MathOracle, start: (real, real), end: (real, real), cfg: StoreConfig)
    returns (route: seq<(real, real)>, ghost top: seq<(real, real)>, ghost bottom: seq<(real, real)>)
    requires NavGridBuildable(cfg)
    ensures RouteOutcome(start, end, cfg.storeHeight / 2.0 - cfg.outerWalkwayOffset, cfg, top)
    ensures RouteOutcome(start, end, -cfg.storeHeight / 2.0 + cfg.outerWalkwayOffset, cfg, bottom)
    ensures route == top || route == bottom
    ensures PathDistance(m, route) <= PathDistance(m, top) && PathDistance(m, route) <= PathDistance(m, bottom)
    ensures PathDistance(m, top) <= PathDistance(m, bottom) ==> route == top
    ensures |route| >= 1
  {
    var topY := cfg.storeHeight / 2.0 - cfg.outerWalkwayOffset;
    var bottomY := -cfg.storeHeight / 2.0 + cfg.outerWalkwayOffset;
    var topRoute := BuildRoute(start, end, topY, cfg);
    var bottomRoute := BuildRoute(start, end, bottomY, cfg);
    top, bottom := topRoute, bottomRoute;
    var dTop := Distance(m, topRoute);
    var dBottom := Distance(m, bottomRoute);
    if dTop <= dBottom {
      route := topRoute;
    } else {
      route := bottomRoute;
    }
  }
}
