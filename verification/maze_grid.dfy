/**
 * The maze's grid: one 4-bit wall-opening mask per cell (bit set = that
 * side is open), the compass geometry, neighbour enumeration, and the
 * facts about carving one passage that both generators rely on.
 * Masks are indexed `grid[y][x]`, as in the source.
 */
module MazeGrid {
  import opened Grids

  datatype Dir = N | E | S | W

  /** The direction bits N=1, E=2, S=4, W=8. */
  function Bit(d: Dir): bv4
  {
    match d
    case N => 1
    case E => 2
    case S => 4
    case W => 8
  }

  function DX(d: Dir): int
  {
    match d
    case E => 1
    case W => -1
    case _ => 0
  }

  function DY(d: Dir): int
  {
    match d
    case N => -1
    case S => 1
    case _ => 0
  }

  function Opp(d: Dir): Dir
  {
    match d
    case N => S
    case S => N
    case E => W
    case W => E
  }

  /** Position of a direction in the canonical order N, E, S, W. */
  function Rank(d: Dir): nat
  {
    match d
    case N => 0
    case E => 1
    case S => 2
    case W => 3
  }

  datatype Cell = Cell(x: int, y: int)

  function Step(c: Cell, d: Dir): Cell
  {
    Cell(c.x + DX(d), c.y + DY(d))
  }

  predicate InBounds(cols: int, rows: int, c: Cell)
  {
    0 <= c.x < cols && 0 <= c.y < rows
  }

  type Board = seq<seq<bv4>>
  type Marks = seq<seq<bool>>

  /** The mask of cell `c` (closed on every side outside the board). */
  function MaskAt(g: Board, c: Cell): bv4
  {
    if 0 <= c.y < |g| && 0 <= c.x < |g[c.y]| then g[c.y][c.x] else 0
  }

  function Seen(v: Marks, c: Cell): bool
  {
    0 <= c.y < |v| && 0 <= c.x < |v[c.y]| && v[c.y][c.x]
  }

  predicate IsOpen(m: bv4, d: Dir)
  {
    m & Bit(d) != 0
  }

  /** Number of open sides of a mask. */
  function Degree(m: bv4): nat
  {
    (if IsOpen(m, N) then 1 else 0) + (if IsOpen(m, E) then 1 else 0) +
    (if IsOpen(m, S) then 1 else 0) + (if IsOpen(m, W) then 1 else 0)
  }

  function Mark(b: bool): nat
  {
    if b then 1 else 0
  }

  /** Open sides over the whole board: each passage contributes one on each of its two cells. */
  function OpenBits(g: Board): nat
  {
    GridSum(g, Degree)
  }

  function VisitedCount(v: Marks): nat
  {
    GridSum(v, Mark)
  }

  datatype Neighbor = Neighbor(cell: Cell, dir: Dir)

  function Toward(cols: int, rows: int, c: Cell, d: Dir): seq<Neighbor>
  {
    if InBounds(cols, rows, Step(c, d)) then [Neighbor(Step(c, d), d)] else []
  }

  /** The in-bounds cells next to `c`, each with the direction bit leading to it, in the order N, E, S, W. */
  function Neighbors(cols: int, rows: int, c: Cell): (ns: seq<Neighbor>)
    ensures |ns| <= 4
    ensures forall k :: 0 <= k < |ns| ==> InBounds(cols, rows, ns[k].cell) && ns[k].cell == Step(c, ns[k].dir)
  {
    Toward(cols, rows, c, N) + Toward(cols, rows, c, E) + Toward(cols, rows, c, S) + Toward(cols, rows, c, W)
  }

  /** Every in-bounds cell next to `c` is listed, with the direction leading to it, and the list is in N, E, S, W order. */
  lemma NeighborsComplete(cols: int, rows: int, c: Cell)
    ensures forall d :: InBounds(cols, rows, Step(c, d)) <==> Neighbor(Step(c, d), d) in Neighbors(cols, rows, c)
    ensures forall k, l :: 0 <= k < l < |Neighbors(cols, rows, c)| ==>
              Rank(Neighbors(cols, rows, c)[k].dir) < Rank(Neighbors(cols, rows, c)[l].dir)
  {
  }

  predicate Shaped<T>(g: seq<seq<T>>, cols: int, rows: int)
  {
    IsRect(g, rows, cols)
  }

  /** Openings come in pairs: a's side toward an adjacent b is open iff b's side toward a is. */
  ghost predicate Symmetric(g: Board, cols: int, rows: int)
  {
    forall c, d {:trigger Step(c, d)} :: InBounds(cols, rows, c) && InBounds(cols, rows, Step(c, d)) ==>
      (IsOpen(MaskAt(g, c), d) <==> IsOpen(MaskAt(g, Step(c, d)), Opp(d)))
  }

  /** No opening leads off the board. */
  ghost predicate OpensInside(g: Board, cols: int, rows: int)
  {
    forall c, d {:trigger Step(c, d)} :: InBounds(cols, rows, c) && IsOpen(MaskAt(g, c), d) ==> InBounds(cols, rows, Step(c, d))
  }

  /** Cells not yet reached by generation are still closed on all sides. */
  ghost predicate OnlyVisitedOpen(g: Board, v: Marks, cols: int, rows: int)
  {
    forall c {:trigger MaskAt(g, c)} :: InBounds(cols, rows, c) && !Seen(v, c) ==> MaskAt(g, c) == 0
  }

  /** `b` is the neighbour of `a` in direction `d` and `a`'s side `d` is open. */
  predicate LinkedBy(g: Board, a: Cell, b: Cell, d: Dir)
  {
    b == Step(a, d) && IsOpen(MaskAt(g, a), d)
  }

  predicate Linked(g: Board, a: Cell, b: Cell)
  {
    LinkedBy(g, a, b, N) || LinkedBy(g, a, b, E) || LinkedBy(g, a, b, S) || LinkedBy(g, a, b, W)
  }

  /** `p` walks from `a` to `b` through in-bounds cells, each step through an open side. */
  predicate IsRoute(g: Board, cols: int, rows: int, p: seq<Cell>, a: Cell, b: Cell)
  {
    && |p| >= 1 && p[0] == a && p[|p| - 1] == b
    && (forall k :: 0 <= k < |p| ==> InBounds(cols, rows, p[k]))
    && (forall k :: 0 <= k < |p| - 1 ==> Linked(g, p[k], p[k + 1]))
  }

  /** Every visited cell is reached from `root` by the recorded route. */
  ghost predicate Reached(g: Board, v: Marks, cols: int, rows: int, root: Cell, routes: map<Cell, seq<Cell>>)
  {
    forall c {:trigger Seen(v, c)} :: InBounds(cols, rows, c) && Seen(v, c) ==> c in routes && IsRoute(g, cols, rows, routes[c], root, c)
  }

  /**
   * The state both generators keep: the open passages form a tree over the
   * visited cells (connected from `root`, and one passage fewer than cells).
   */
  ghost predicate Tree(g: Board, v: Marks, cols: int, rows: int, root: Cell, routes: map<Cell, seq<Cell>>)
  {
    && Shaped(g, cols, rows) && Shaped(v, cols, rows)
    && InBounds(cols, rows, root) && Seen(v, root)
    && Symmetric(g, cols, rows) && OpensInside(g, cols, rows) && OnlyVisitedOpen(g, v, cols, rows)
    && OpenBits(g) == 2 * (VisitedCount(v) - 1)
    && Reached(g, v, cols, rows, root, routes)
  }

  /** No cell has an unvisited neighbour: generation has nothing left to reach. */
  ghost predicate Closed(v: Marks, cols: int, rows: int)
  {
    forall c, d :: InBounds(cols, rows, c) && Seen(v, c) && InBounds(cols, rows, Step(c, d)) ==> Seen(v, Step(c, d))
  }

  ghost predicate AllVisited(v: Marks, cols: int, rows: int)
  {
    forall c {:trigger Seen(v, c)} :: InBounds(cols, rows, c) ==> Seen(v, c)
  }

  /**
   * A finished maze: every cell is reached from `root` through open passages
   * and there are exactly cols*rows - 1 passages, so the passage graph is a
   * spanning tree.
   */
  ghost predicate SpanningTree(g: Board, cols: int, rows: int, root: Cell, routes: map<Cell, seq<Cell>>)
  {
    && Symmetric(g, cols, rows)
    && (forall c :: InBounds(cols, rows, c) ==> c in routes && IsRoute(g, cols, rows, routes[c], root, c))
    && OpenBits(g) == 2 * (cols * rows - 1)
  }

  /** Opening the passage from `a` in direction `d`: `d` on `a` and `OPP[d]` on its neighbour. */
  function Carve(g: Board, cols: int, rows: int, a: Cell, d: Dir): (r: Board)
    requires Shaped(g, cols, rows) && InBounds(cols, rows, a) && InBounds(cols, rows, Step(a, d))
    ensures Shaped(r, cols, rows)
  {
    var b := Step(a, d);
    var g1 := Set2(g, a.y, a.x, g[a.y][a.x] | Bit(d));
    Set2(g1, b.y, b.x, g1[b.y][b.x] | Bit(Opp(d)))
  }

  lemma OrBit(m: bv4, d: Dir, e: Dir)
    ensures IsOpen(m | Bit(d), e) <==> IsOpen(m, e) || d == e
  {
  }

  lemma DegreeOr(m: bv4, d: Dir)
    requires !IsOpen(m, d)
    ensures Degree(m | Bit(d)) == Degree(m) + 1
  {
    OrBit(m, d, N); OrBit(m, d, E); OrBit(m, d, S); OrBit(m, d, W);
  }

  lemma {:induction false} CarveOpens(g: Board, cols: int, rows: int, a: Cell, d: Dir)
    requires Shaped(g, cols, rows) && InBounds(cols, rows, a) && InBounds(cols, rows, Step(a, d))
    ensures forall c, e :: IsOpen(MaskAt(Carve(g, cols, rows, a, d), c), e) <==>
      IsOpen(MaskAt(g, c), e) || (c == a && e == d) || (c == Step(a, d) && e == Opp(d))
  {
    var b := Step(a, d);
    var r := Carve(g, cols, rows, a, d);
    forall c, e
      ensures IsOpen(MaskAt(r, c), e) <==> IsOpen(MaskAt(g, c), e) || (c == a && e == d) || (c == b && e == Opp(d))
    {
      CarveOpen(g, cols, rows, a, d, c, e);
    }
  }

  /** `CarveOpens` for one side `e` of one cell `c`. */
  lemma CarveOpen(g: Board, cols: int, rows: int, a: Cell, d: Dir, c: Cell, e: Dir)
    requires Shaped(g, cols, rows) && InBounds(cols, rows, a) && InBounds(cols, rows, Step(a, d))
    ensures IsOpen(MaskAt(Carve(g, cols, rows, a, d), c), e) <==>
      IsOpen(MaskAt(g, c), e) || (c == a && e == d) || (c == Step(a, d) && e == Opp(d))
  {
    CarveMask(g, cols, rows, a, d, c);
    if c == a {
      OrBit(MaskAt(g, a), d, e);
    } else if c == Step(a, d) {
      OrBit(MaskAt(g, c), Opp(d), e);
    }
  }

  /** Carving changes the masks of the two cells it joins, each by the bit toward the other. */
  lemma CarveMask(g: Board, cols: int, rows: int, a: Cell, d: Dir, c: Cell)
    requires Shaped(g, cols, rows) && InBounds(cols, rows, a) && InBounds(cols, rows, Step(a, d))
    ensures MaskAt(Carve(g, cols, rows, a, d), c) ==
      if c == a then MaskAt(g, a) | Bit(d)
      else if c == Step(a, d) then MaskAt(g, c) | Bit(Opp(d))
      else MaskAt(g, c)
  {
    assert a != Step(a, d);
  }

  /** Carving from a visited cell into an unvisited neighbour keeps the tree, with one more cell and one more passage. */
  lemma {:induction false} CarveTree(g: Board, v: Marks, cols: int, rows: int, root: Cell, routes: map<Cell, seq<Cell>>, a: Cell, d: Dir)
    requires Tree(g, v, cols, rows, root, routes)
    requires InBounds(cols, rows, a) && Seen(v, a)
    requires InBounds(cols, rows, Step(a, d)) && !Seen(v, Step(a, d))
    ensures Tree(Carve(g, cols, rows, a, d), Set2(v, Step(a, d).y, Step(a, d).x, true), cols, rows, root,
                 routes[Step(a, d) := routes[a] + [Step(a, d)]])
    ensures VisitedCount(Set2(v, Step(a, d).y, Step(a, d).x, true)) == VisitedCount(v) + 1
  {
    var b := Step(a, d);
    var r := Carve(g, cols, rows, a, d);
    var v' := Set2(v, b.y, b.x, true);
    CarveSymmetric(g, cols, rows, a, d);
    CarveCount(g, v, cols, rows, a, d);
    CarveReached(g, v, cols, rows, root, routes, a, d);
    CarveInside(g, v, cols, rows, a, d);
  }

  /** Carving from a visited cell leaves every opening on the board and every unvisited cell closed. */
  lemma CarveInside(g: Board, v: Marks, cols: int, rows: int, a: Cell, d: Dir)
    requires Shaped(g, cols, rows) && Shaped(v, cols, rows)
    requires OpensInside(g, cols, rows) && OnlyVisitedOpen(g, v, cols, rows)
    requires InBounds(cols, rows, a) && Seen(v, a) && InBounds(cols, rows, Step(a, d))
    ensures OpensInside(Carve(g, cols, rows, a, d), cols, rows)
    ensures OnlyVisitedOpen(Carve(g, cols, rows, a, d), Set2(v, Step(a, d).y, Step(a, d).x, true), cols, rows)
  {
    var b := Step(a, d);
    var r := Carve(g, cols, rows, a, d);
    var v' := Set2(v, b.y, b.x, true);
    CarveOpens(g, cols, rows, a, d);
    forall c | InBounds(cols, rows, c) && !Seen(v', c)
      ensures MaskAt(r, c) == 0
    {
      assert c != a && c != b && !Seen(v, c);
      CarveMask(g, cols, rows, a, d, c);
    }
  }

  lemma {:induction false} CarveSymmetric(g: Board, cols: int, rows: int, a: Cell, d: Dir)
    requires Shaped(g, cols, rows) && Symmetric(g, cols, rows)
    requires InBounds(cols, rows, a) && InBounds(cols, rows, Step(a, d))
    ensures Symmetric(Carve(g, cols, rows, a, d), cols, rows)
  {
    var b := Step(a, d);
    var r := Carve(g, cols, rows, a, d);
    forall c, e | InBounds(cols, rows, c) && InBounds(cols, rows, Step(c, e))
      ensures IsOpen(MaskAt(r, c), e) <==> IsOpen(MaskAt(r, Step(c, e)), Opp(e))
    {
      var c' := Step(c, e);
      CarveOpen(g, cols, rows, a, d, c, e);
      CarveOpen(g, cols, rows, a, d, c', Opp(e));
      assert IsOpen(MaskAt(g, c), e) <==> IsOpen(MaskAt(g, c'), Opp(e));
      assert (c == a && e == d) <==> (c' == b && Opp(e) == Opp(d));
      assert (c == b && e == Opp(d)) <==> (c' == a && Opp(e) == d);
    }
  }

  lemma {:induction false} CarveCount(g: Board, v: Marks, cols: int, rows: int, a: Cell, d: Dir)
    requires Shaped(g, cols, rows) && Shaped(v, cols, rows)
    requires Symmetric(g, cols, rows) && OnlyVisitedOpen(g, v, cols, rows)
    requires InBounds(cols, rows, a) && InBounds(cols, rows, Step(a, d)) && !Seen(v, Step(a, d))
    ensures OpenBits(Carve(g, cols, rows, a, d)) == OpenBits(g) + 2
    ensures VisitedCount(Set2(v, Step(a, d).y, Step(a, d).x, true)) == VisitedCount(v) + 1
  {
    var b := Step(a, d);
    assert MaskAt(g, b) == 0;
    assert !IsOpen(MaskAt(g, a), d);
    var g1 := Set2(g, a.y, a.x, g[a.y][a.x] | Bit(d));
    GridSumUpdate(g, a.y, a.x, g[a.y][a.x] | Bit(d), Degree);
    DegreeOr(g[a.y][a.x], d);
    assert g1[b.y][b.x] == 0;
    GridSumUpdate(g1, b.y, b.x, g1[b.y][b.x] | Bit(Opp(d)), Degree);
    DegreeOr(g1[b.y][b.x], Opp(d));
    GridSumUpdate(v, b.y, b.x, true, Mark);
  }

  lemma {:induction false} CarveReached(g: Board, v: Marks, cols: int, rows: int, root: Cell, routes: map<Cell, seq<Cell>>, a: Cell, d: Dir)
    requires Shaped(g, cols, rows) && Shaped(v, cols, rows) && Reached(g, v, cols, rows, root, routes)
    requires InBounds(cols, rows, a) && Seen(v, a) && InBounds(cols, rows, Step(a, d))
    ensures Reached(Carve(g, cols, rows, a, d), Set2(v, Step(a, d).y, Step(a, d).x, true), cols, rows, root,
                    routes[Step(a, d) := routes[a] + [Step(a, d)]])
  {
    var b := Step(a, d);
    var r := Carve(g, cols, rows, a, d);
    var v' := Set2(v, b.y, b.x, true);
    var routes' := routes[b := routes[a] + [b]];
    CarveOpens(g, cols, rows, a, d);
    forall c | InBounds(cols, rows, c) && Seen(v', c)
      ensures c in routes' && IsRoute(r, cols, rows, routes'[c], root, c)
    {
      if c == b {
        RouteGrows(g, r, cols, rows, routes[a], root, a);
        assert LinkedBy(r, a, b, d);
        RouteExtend(r, cols, rows, routes[a], root, a, b);
      } else {
        assert Seen(v, c);
        RouteGrows(g, r, cols, rows, routes[c], root, c);
      }
    }
  }

  /** Every opening is paired with the one facing it, and none leads off the board. */
  ghost predicate Wired(g: Board, cols: int, rows: int)
  {
    Symmetric(g, cols, rows) && OpensInside(g, cols, rows)
  }

  /** Carving keeps the openings paired and inside the board, and every route stays a route. */
  lemma CarveKeeps(g: Board, cols: int, rows: int, a: Cell, d: Dir)
    requires Shaped(g, cols, rows) && Wired(g, cols, rows)
    requires InBounds(cols, rows, a) && InBounds(cols, rows, Step(a, d))
    ensures Wired(Carve(g, cols, rows, a, d), cols, rows)
    ensures forall p, x, y :: IsRoute(g, cols, rows, p, x, y) ==> IsRoute(Carve(g, cols, rows, a, d), cols, rows, p, x, y)
  {
    var r := Carve(g, cols, rows, a, d);
    CarveSymmetric(g, cols, rows, a, d);
    CarveOpens(g, cols, rows, a, d);
    assert OpensInside(r, cols, rows);
    forall p, x, y | IsRoute(g, cols, rows, p, x, y)
      ensures IsRoute(r, cols, rows, p, x, y)
    {
      RouteGrows(g, r, cols, rows, p, x, y);
    }
  }

  /** Marking one unvisited cell raises the visited count by one. */
  lemma MarkOne(v: Marks, cols: int, rows: int, b: Cell)
    requires Shaped(v, cols, rows) && InBounds(cols, rows, b) && !Seen(v, b)
    ensures VisitedCount(Set2(v, b.y, b.x, true)) == VisitedCount(v) + 1
  {
    GridSumUpdate(v, b.y, b.x, true, Mark);
  }

  /** A board with no visited cell counts zero. */
  lemma NoneCount(v: Marks, cols: int, rows: int)
    requires Shaped(v, cols, rows)
    requires forall c :: InBounds(cols, rows, c) ==> !Seen(v, c)
    ensures VisitedCount(v) == 0
  {
    forall a, b | 0 <= a < |v| && 0 <= b < |v[a]|
      ensures Mark(v[a][b]) == 0
    {
      assert !Seen(v, Cell(b, a));
    }
    GridSumZero(v, Mark);
  }

  lemma RouteGrows(g: Board, r: Board, cols: int, rows: int, p: seq<Cell>, a: Cell, b: Cell)
    requires IsRoute(g, cols, rows, p, a, b)
    requires forall c, e :: IsOpen(MaskAt(g, c), e) ==> IsOpen(MaskAt(r, c), e)
    ensures IsRoute(r, cols, rows, p, a, b)
  {
    forall k | 0 <= k < |p| - 1
      ensures Linked(r, p[k], p[k + 1])
    {
      assert Linked(g, p[k], p[k + 1]);
    }
  }

  lemma RouteExtend(g: Board, cols: int, rows: int, p: seq<Cell>, a: Cell, b: Cell, c: Cell)
    requires IsRoute(g, cols, rows, p, a, b)
    requires InBounds(cols, rows, c) && Linked(g, b, c)
    ensures IsRoute(g, cols, rows, p + [c], a, c)
  {
  }

  /** The first cell visited on an empty board: a one-cell tree. */
  lemma {:induction false} TreeStart(g: Board, v0: Marks, cols: int, rows: int, root: Cell)
    requires Shaped(g, cols, rows) && Shaped(v0, cols, rows) && InBounds(cols, rows, root)
    requires forall c :: InBounds(cols, rows, c) ==> MaskAt(g, c) == 0 && !Seen(v0, c)
    ensures Tree(g, Set2(v0, root.y, root.x, true), cols, rows, root, map[root := [root]])
  {
    var v := Set2(v0, root.y, root.x, true);
    forall a, b | 0 <= a < |g| && 0 <= b < |g[a]|
      ensures Degree(g[a][b]) == 0
    {
      assert MaskAt(g, Cell(b, a)) == 0;
    }
    GridSumZero(g, Degree);
    forall a, b | 0 <= a < |v0| && 0 <= b < |v0[a]|
      ensures Mark(v0[a][b]) == 0
    {
      assert !Seen(v0, Cell(b, a));
    }
    GridSumZero(v0, Mark);
    GridSumUpdate(v0, root.y, root.x, true, Mark);
    assert VisitedCount(v) == 1;
    assert IsRoute(g, cols, rows, [root], root, root);
  }

  lemma {:induction false} ReachRow(v: Marks, cols: int, rows: int, c: Cell, x: int)
    requires Closed(v, cols, rows) && InBounds(cols, rows, c) && Seen(v, c) && 0 <= x < cols
    ensures Seen(v, Cell(x, c.y))
    decreases if x < c.x then c.x - x else x - c.x
  {
    if x < c.x {
      ReachRow(v, cols, rows, c, x + 1);
      assert Step(Cell(x + 1, c.y), W) == Cell(x, c.y);
    } else if x > c.x {
      ReachRow(v, cols, rows, c, x - 1);
      assert Step(Cell(x - 1, c.y), E) == Cell(x, c.y);
    }
  }

  lemma {:induction false} ReachColumn(v: Marks, cols: int, rows: int, c: Cell, y: int)
    requires Closed(v, cols, rows) && InBounds(cols, rows, c) && Seen(v, c) && 0 <= y < rows
    ensures Seen(v, Cell(c.x, y))
    decreases if y < c.y then c.y - y else y - c.y
  {
    if y < c.y {
      ReachColumn(v, cols, rows, c, y + 1);
      assert Step(Cell(c.x, y + 1), N) == Cell(c.x, y);
    } else if y > c.y {
      ReachColumn(v, cols, rows, c, y - 1);
      assert Step(Cell(c.x, y - 1), S) == Cell(c.x, y);
    }
  }

  /** On a rectangular board, a visited set with no unvisited neighbours covers every cell. */
  lemma {:induction false} ClosedCoversBoard(v: Marks, cols: int, rows: int, root: Cell)
    requires Closed(v, cols, rows) && InBounds(cols, rows, root) && Seen(v, root)
    ensures AllVisited(v, cols, rows)
  {
    forall c | InBounds(cols, rows, c)
      ensures Seen(v, c)
    {
      ReachRow(v, cols, rows, root, c.x);
      ReachColumn(v, cols, rows, Cell(c.x, root.y), c.y);
    }
  }

  /** A tree over every cell of the board is a spanning tree with cols*rows - 1 passages. */
  lemma {:induction false} TreeComplete(g: Board, v: Marks, cols: int, rows: int, root: Cell, routes: map<Cell, seq<Cell>>)
    requires Tree(g, v, cols, rows, root, routes) && Closed(v, cols, rows)
    ensures AllVisited(v, cols, rows)
    ensures SpanningTree(g, cols, rows, root, routes)
  {
    ClosedCoversBoard(v, cols, rows, root);
    forall a, b | 0 <= a < |v| && 0 <= b < |v[a]|
      ensures Mark(v[a][b]) == 1
    {
      assert Seen(v, Cell(b, a));
    }
    GridSumFull(v, Mark, rows, cols);
    forall c | InBounds(cols, rows, c)
      ensures c in routes && IsRoute(g, cols, rows, routes[c], root, c)
    {
      assert Seen(v, c);
    }
  }

  lemma StepBack(c: Cell, d: Dir)
    ensures Step(Step(c, d), Opp(d)) == c
  {
  }

  lemma LinkedBack(g: Board, cols: int, rows: int, a: Cell, b: Cell)
    requires Symmetric(g, cols, rows) && InBounds(cols, rows, a) && InBounds(cols, rows, b) && Linked(g, a, b)
    ensures Linked(g, b, a)
  {
    if LinkedBy(g, a, b, N) {
      LinkedByBack(g, cols, rows, a, b, N);
    } else if LinkedBy(g, a, b, E) {
      LinkedByBack(g, cols, rows, a, b, E);
    } else if LinkedBy(g, a, b, S) {
      LinkedByBack(g, cols, rows, a, b, S);
    } else {
      LinkedByBack(g, cols, rows, a, b, W);
    }
  }

  lemma LinkedByBack(g: Board, cols: int, rows: int, a: Cell, b: Cell, d: Dir)
    requires Symmetric(g, cols, rows) && InBounds(cols, rows, a) && InBounds(cols, rows, b) && LinkedBy(g, a, b, d)
    ensures LinkedBy(g, b, a, Opp(d))
  {
    StepBack(a, d);
  }

  function Reversed<T>(s: seq<T>): (r: seq<T>)
    ensures |r| == |s|
    ensures forall k :: 0 <= k < |s| ==> r[k] == s[|s| - 1 - k]
  {
    if s == [] then [] else Reversed(s[1..]) + [s[0]]
  }

  /** With paired openings every route can be walked backwards. */
  lemma {:induction false} RouteReversed(g: Board, cols: int, rows: int, p: seq<Cell>, a: Cell, b: Cell)
    requires Symmetric(g, cols, rows) && IsRoute(g, cols, rows, p, a, b)
    ensures IsRoute(g, cols, rows, Reversed(p), b, a)
  {
    var r := Reversed(p);
    var n := |p|;
    forall k | 0 <= k < n - 1
      ensures Linked(g, r[k], r[k + 1])
    {
      var i := n - 2 - k;
      assert r[k] == p[i + 1] && r[k + 1] == p[i];
      assert Linked(g, p[i], p[i + 1]);
      LinkedBack(g, cols, rows, p[i], p[i + 1]);
    }
  }

  lemma {:induction false} RouteJoin(g: Board, cols: int, rows: int, p: seq<Cell>, q: seq<Cell>, a: Cell, b: Cell, c: Cell)
    requires IsRoute(g, cols, rows, p, a, b) && IsRoute(g, cols, rows, q, b, c)
    ensures IsRoute(g, cols, rows, p + q[1..], a, c)
  {
    var r := p + q[1..];
    forall k | 0 <= k < |r| - 1
      ensures Linked(g, r[k], r[k + 1])
    {
      if k < |p| - 1 {
        assert r[k] == p[k] && r[k + 1] == p[k + 1];
      } else {
        var i := k - |p| + 1;
        assert r[k] == q[i] && r[k + 1] == q[i + 1];
      }
    }
  }

  /** A set that holds `a` and is closed under open passages holds every cell a route from `a` reaches. */
  lemma {:induction false} RouteStaysInside(g: Board, s: set<Cell>, cols: int, rows: int, p: seq<Cell>, a: Cell, b: Cell)
    requires IsRoute(g, cols, rows, p, a, b) && a in s
    requires forall c, d :: c in s && IsOpen(MaskAt(g, c), d) && InBounds(cols, rows, Step(c, d)) ==> Step(c, d) in s
    ensures b in s
  {
    var k := 0;
    while k < |p| - 1
      invariant 0 <= k < |p| && p[k] in s
    {
      var d :| LinkedBy(g, p[k], p[k + 1], d);
      k := k + 1;
    }
  }
}
