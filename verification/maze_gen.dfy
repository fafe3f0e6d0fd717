/**
 * The two maze generators on values: the part of the page state they work
 * on, their start and their single step as functions, and the invariant the
 * steps keep. The carved passages form a tree over the visited cells, and
 * the work list names every visited cell that still has an unvisited
 * neighbour. So a run that reports done has carved a spanning tree.
 */
module MazeGen {
  import opened Grids
  import opened Draws
  import opened MazeGrid
  import opened Maze

  /** The board, the visited marks, the backtracker's stack and Prim's frontier. */
  datatype Gen = Gen(grid: Board, visited: Marks, stack: seq<Cell>, frontier: seq<Edge>)

  /** Both arrays are `rows` by `cols`, and every opening is paired and leads inside the board. */
  ghost predicate Fits(s: Gen, cols: int, rows: int)
  {
    1 <= cols && 1 <= rows && Shaped(s.grid, cols, rows) && Shaped(s.visited, cols, rows) && Wired(s.grid, cols, rows)
  }

  predicate StackInside(st: seq<Cell>, cols: int, rows: int)
  {
    forall k :: 0 <= k < |st| ==> InBounds(cols, rows, st[k])
  }

  predicate FrontierInside(f: seq<Edge>, cols: int, rows: int)
  {
    forall k :: 0 <= k < |f| ==> EdgeInside(cols, rows, f[k])
  }

  /** Nothing carved and nothing visited, as `resetGrid` followed by `resetVisited` leaves the board. */
  ghost predicate Fresh(s: Gen, cols: int, rows: int)
  {
    && (forall c {:trigger MaskAt(s.grid, c)} :: InBounds(cols, rows, c) ==> MaskAt(s.grid, c) == 0)
    && (forall c {:trigger Seen(s.visited, c)} :: InBounds(cols, rows, c) ==> !Seen(s.visited, c))
  }

  /** The route map after visiting `b` from `a`: the route to `a` extended by `b`. */
  ghost function Grow(routes: map<Cell, seq<Cell>>, a: Cell, b: Cell): map<Cell, seq<Cell>>
  {
    routes[b := if a in routes then routes[a] + [b] else [b]]
  }

  /** The backtracker's invariant: a tree over the visited cells, and a complete stack. */
  ghost predicate BackOk(s: Gen, cols: int, rows: int, root: Cell, routes: map<Cell, seq<Cell>>)
  {
    Tree(s.grid, s.visited, cols, rows, root, routes) && StackOk(s.visited, s.stack, cols, rows)
  }

  /** Prim's invariant: a tree over the visited cells, and a complete frontier. */
  ghost predicate PrimOk(s: Gen, cols: int, rows: int, root: Cell, routes: map<Cell, seq<Cell>>)
  {
    Tree(s.grid, s.visited, cols, rows, root, routes) && FrontierOk(s.visited, s.frontier, cols, rows)
  }

  /** Work left to the backtracker: a step visits a cell and pushes it, or pops one. */
  function BackLeft(s: Gen, cols: int, rows: int): int
  {
    2 * (cols * rows - VisitedCount(s.visited)) + |s.stack|
  }

  /** Work left to Prim: a step removes an entry, and visiting a cell pushes at most four. */
  function PrimLeft(s: Gen, cols: int, rows: int): int
  {
    4 * (cols * rows - VisitedCount(s.visited)) + |s.frontier|
  }

  /** The neighbour a step picks out of `Unvisited` is on the board, next to `c` and unvisited. */
  lemma Chosen(v: Marks, cols: int, rows: int, c: Cell, n: Neighbor)
    requires n in Unvisited(v, Neighbors(cols, rows, c))
    ensures InBounds(cols, rows, n.cell) && n.cell == Step(c, n.dir) && !Seen(v, n.cell)
  {
    UnvisitedMembers(v, Neighbors(cols, rows, c));
  }

  /** `initBacktracker()`: (0, 0) is visited and alone on the stack. */
  function BacktrackStart(s: Gen, cols: int, rows: int): Gen
    requires 1 <= cols && 1 <= rows && Shaped(s.visited, cols, rows)
  {
    s.(visited := Set2(s.visited, 0, 0, true), stack := [Cell(0, 0)])
  }

  /** The cell `initPrim()` starts from: column `floor(rx * cols)`, row `floor(ry * rows)`. */
  function PrimRoot(cols: int, rows: int, rx: real, ry: real): (c: Cell)
    requires 1 <= cols && 1 <= rows && IsUnit(rx) && IsUnit(ry)
    ensures InBounds(cols, rows, c)
  {
    Cell(Pick(rx, cols), Pick(ry, rows))
  }

  /** `initPrim()`: the start cell is visited, and the frontier holds its passages to unvisited neighbours. */
  function PrimStart(s: Gen, cols: int, rows: int, rx: real, ry: real): Gen
    requires 1 <= cols && 1 <= rows && Shaped(s.visited, cols, rows) && IsUnit(rx) && IsUnit(ry)
  {
    var c := PrimRoot(cols, rows, rx, ry);
    var v := Set2(s.visited, c.y, c.x, true);
    s.(visited := v, frontier := Pending(v, c, Neighbors(cols, rows, c)))
  }

  /**
   * `stepBacktracker()` on a non-empty stack. If the top cell has no
   * unvisited neighbour, it is popped. Otherwise the draw `r` picks one;
   * the passage to it is carved, and it is marked and pushed.
   */
  function BacktrackStep(s: Gen, cols: int, rows: int, r: real): Gen
    requires Shaped(s.grid, cols, rows) && Shaped(s.visited, cols, rows)
    requires StackInside(s.stack, cols, rows) && s.stack != [] && IsUnit(r)
  {
    var top := s.stack[|s.stack| - 1];
    var opts := Unvisited(s.visited, Neighbors(cols, rows, top));
    if opts == [] then s.(stack := s.stack[..|s.stack| - 1])
    else
      var n := opts[Pick(r, |opts|)];
      Chosen(s.visited, cols, rows, top, n);
      s.(grid := Carve(s.grid, cols, rows, top, n.dir),
         visited := Set2(s.visited, n.cell.y, n.cell.x, true),
         stack := s.stack + [n.cell])
  }

  /** The routes after a backtracker step: a newly visited cell is reached through the top of the stack. */
  ghost function BacktrackRoutes(s: Gen, cols: int, rows: int, r: real, routes: map<Cell, seq<Cell>>): map<Cell, seq<Cell>>
    requires Shaped(s.grid, cols, rows) && Shaped(s.visited, cols, rows)
    requires StackInside(s.stack, cols, rows) && s.stack != [] && IsUnit(r)
  {
    var t := BacktrackStep(s, cols, rows, r);
    if |t.stack| < |s.stack| then routes else Grow(routes, s.stack[|s.stack| - 1], t.stack[|t.stack| - 1])
  }

  /**
   * `stepPrim()` on a non-empty frontier. The draw `r` picks an entry, which
   * is removed. If its target is unvisited, the passage is carved, the
   * target is marked and its own passages are pushed.
   */
  function PrimStep(s: Gen, cols: int, rows: int, r: real): Gen
    requires Shaped(s.grid, cols, rows) && Shaped(s.visited, cols, rows)
    requires FrontierInside(s.frontier, cols, rows) && s.frontier != [] && IsUnit(r)
  {
    var i := Pick(r, |s.frontier|);
    var e := s.frontier[i];
    var rest := Remove(s.frontier, i);
    if Seen(s.visited, e.to) then s.(frontier := rest)
    else
      var v := Set2(s.visited, e.to.y, e.to.x, true);
      s.(grid := Carve(s.grid, cols, rows, e.from, e.dir),
         visited := v,
         frontier := rest + Pending(v, e.to, Neighbors(cols, rows, e.to)))
  }

  /** The routes after a Prim step: a newly visited target is reached through the entry's source. */
  ghost function PrimRoutes(s: Gen, cols: int, rows: int, r: real, routes: map<Cell, seq<Cell>>): map<Cell, seq<Cell>>
    requires FrontierInside(s.frontier, cols, rows) && s.frontier != [] && IsUnit(r)
  {
    var e := s.frontier[Pick(r, |s.frontier|)];
    if Seen(s.visited, e.to) then routes else Grow(routes, e.from, e.to)
  }

  /** On a fresh board the backtracker starts with a one-cell tree, a complete stack and at most 4·cols·rows work. */
  lemma BacktrackStartOk(s: Gen, cols: int, rows: int)
    requires Fits(s, cols, rows) && Fresh(s, cols, rows)
    ensures BackOk(BacktrackStart(s, cols, rows), cols, rows, Cell(0, 0), map[Cell(0, 0) := [Cell(0, 0)]])
    ensures BackLeft(BacktrackStart(s, cols, rows), cols, rows) <= 4 * (cols * rows)
  {
    var root := Cell(0, 0);
    TreeStart(s.grid, s.visited, cols, rows, root);
    StackStart(s.visited, cols, rows, root);
    NoneCount(s.visited, cols, rows);
    MarkOne(s.visited, cols, rows, root);
  }

  /** On a fresh board Prim starts with a one-cell tree, a complete frontier and at most 4·cols·rows work. */
  lemma PrimStartOk(s: Gen, cols: int, rows: int, rx: real, ry: real)
    requires Fits(s, cols, rows) && Fresh(s, cols, rows) && IsUnit(rx) && IsUnit(ry)
    ensures var root := PrimRoot(cols, rows, rx, ry);
            PrimOk(PrimStart(s, cols, rows, rx, ry), cols, rows, root, map[root := [root]])
    ensures PrimLeft(PrimStart(s, cols, rows, rx, ry), cols, rows) <= 4 * (cols * rows)
  {
    var root := PrimRoot(cols, rows, rx, ry);
    var v := Set2(s.visited, root.y, root.x, true);
    TreeStart(s.grid, s.visited, cols, rows, root);
    FrontierStart(v, cols, rows, root);
    NoneCount(s.visited, cols, rows);
    MarkOne(s.visited, cols, rows, root);
  }

  /** The backtracker's first stack: just the root, the only visited cell. */
  lemma StackStart(v0: Marks, cols: int, rows: int, root: Cell)
    requires Shaped(v0, cols, rows) && InBounds(cols, rows, root)
    requires forall c :: InBounds(cols, rows, c) ==> !Seen(v0, c)
    ensures StackOk(Set2(v0, root.y, root.x, true), [root], cols, rows)
  {
    var v := Set2(v0, root.y, root.x, true);
    forall c, d | InBounds(cols, rows, c) && Seen(v, c) && InBounds(cols, rows, Step(c, d)) && !Seen(v, Step(c, d))
      ensures c in [root]
    {
      assert c == root;
    }
  }

  /** A backtracker step keeps the board well formed, the stack on it, and every route open. */
  lemma BacktrackFits(s: Gen, cols: int, rows: int, r: real)
    requires Fits(s, cols, rows) && StackInside(s.stack, cols, rows) && s.stack != [] && IsUnit(r)
    ensures Fits(BacktrackStep(s, cols, rows, r), cols, rows)
    ensures StackInside(BacktrackStep(s, cols, rows, r).stack, cols, rows)
    ensures BacktrackStep(s, cols, rows, r).frontier == s.frontier
    ensures forall p, x, y :: IsRoute(s.grid, cols, rows, p, x, y) ==> IsRoute(BacktrackStep(s, cols, rows, r).grid, cols, rows, p, x, y)
  {
    var top := s.stack[|s.stack| - 1];
    var opts := Unvisited(s.visited, Neighbors(cols, rows, top));
    if opts != [] {
      var n := opts[Pick(r, |opts|)];
      Chosen(s.visited, cols, rows, top, n);
      CarveKeeps(s.grid, cols, rows, top, n.dir);
    }
  }

  /** A backtracker step keeps the tree and the stack complete, and lowers the work left. */
  lemma BacktrackKeeps(s: Gen, cols: int, rows: int, r: real, root: Cell, routes: map<Cell, seq<Cell>>)
    requires Fits(s, cols, rows) && StackInside(s.stack, cols, rows) && s.stack != [] && IsUnit(r)
    requires BackOk(s, cols, rows, root, routes)
    ensures BackOk(BacktrackStep(s, cols, rows, r), cols, rows, root, BacktrackRoutes(s, cols, rows, r, routes))
    ensures BackLeft(BacktrackStep(s, cols, rows, r), cols, rows) < BackLeft(s, cols, rows)
  {
    var st := s.stack;
    var top := st[|st| - 1];
    var opts := Unvisited(s.visited, Neighbors(cols, rows, top));
    if opts == [] {
      NoneUnvisited(s.visited, cols, rows, top);
      StackPop(s.visited, st, cols, rows);
    } else {
      var n := opts[Pick(r, |opts|)];
      Chosen(s.visited, cols, rows, top, n);
      CarveTree(s.grid, s.visited, cols, rows, root, routes, top, n.dir);
      StackPush(s.visited, st, cols, rows, n.cell);
    }
  }

  /** A Prim step keeps the board well formed, the frontier on it, and every route open. */
  lemma PrimFits(s: Gen, cols: int, rows: int, r: real)
    requires Fits(s, cols, rows) && FrontierInside(s.frontier, cols, rows) && s.frontier != [] && IsUnit(r)
    ensures Fits(PrimStep(s, cols, rows, r), cols, rows)
    ensures FrontierInside(PrimStep(s, cols, rows, r).frontier, cols, rows)
    ensures PrimStep(s, cols, rows, r).stack == s.stack
    ensures forall p, x, y :: IsRoute(s.grid, cols, rows, p, x, y) ==> IsRoute(PrimStep(s, cols, rows, r).grid, cols, rows, p, x, y)
  {
    var f := s.frontier;
    var i := Pick(r, |f|);
    var e := f[i];
    var rest := Remove(f, i);
    assert FrontierInside(rest, cols, rows) by {
      forall k | 0 <= k < |rest|
        ensures EdgeInside(cols, rows, rest[k])
      {
        assert rest[k] in f;
      }
    }
    if !Seen(s.visited, e.to) {
      assert EdgeInside(cols, rows, e);
      CarveKeeps(s.grid, cols, rows, e.from, e.dir);
      var v := Set2(s.visited, e.to.y, e.to.x, true);
      var p := Pending(v, e.to, Neighbors(cols, rows, e.to));
      PendingInside(v, cols, rows, e.to);
      assert FrontierInside(rest + p, cols, rows) by {
        forall k | 0 <= k < |rest + p|
          ensures EdgeInside(cols, rows, (rest + p)[k])
        {
          if k >= |rest| {
            assert (rest + p)[k] == p[k - |rest|];
          }
        }
      }
    }
  }

  /** A Prim step keeps the tree and the frontier complete, and lowers the work left. */
  lemma PrimKeeps(s: Gen, cols: int, rows: int, r: real, root: Cell, routes: map<Cell, seq<Cell>>)
    requires Fits(s, cols, rows) && FrontierInside(s.frontier, cols, rows) && s.frontier != [] && IsUnit(r)
    requires PrimOk(s, cols, rows, root, routes)
    ensures PrimOk(PrimStep(s, cols, rows, r), cols, rows, root, PrimRoutes(s, cols, rows, r, routes))
    ensures PrimLeft(PrimStep(s, cols, rows, r), cols, rows) < PrimLeft(s, cols, rows)
  {
    var f := s.frontier;
    var i := Pick(r, |f|);
    var e := f[i];
    if Seen(s.visited, e.to) {
      FrontierDrop(s.visited, f, cols, rows, i);
    } else {
      assert EdgeInside(cols, rows, e);
      CarveTree(s.grid, s.visited, cols, rows, root, routes, e.from, e.dir);
      FrontierGrow(s.visited, f, cols, rows, i);
    }
  }

  /**
   * The two outcomes of a backtracker step. A top whose neighbours are all
   * visited is popped and nothing else changes. Otherwise exactly one
   * passage is opened, from the top to an unvisited neighbour, which becomes
   * the one newly visited cell and is pushed.
   */
  lemma BacktrackCases(s: Gen, cols: int, rows: int, r: real)
    requires Fits(s, cols, rows) && StackInside(s.stack, cols, rows) && s.stack != [] && IsUnit(r)
    requires OnlyVisitedOpen(s.grid, s.visited, cols, rows)
    ensures var t := BacktrackStep(s, cols, rows, r);
      Stuck(s.visited, cols, rows, s.stack[|s.stack| - 1]) ==> t == s.(stack := s.stack[..|s.stack| - 1])
    ensures var t := BacktrackStep(s, cols, rows, r);
      var top := s.stack[|s.stack| - 1];
      !Stuck(s.visited, cols, rows, top) ==>
        && |t.stack| == |s.stack| + 1 && t.stack[..|s.stack|] == s.stack
        && (exists d :: t.stack[|s.stack|] == Step(top, d) && InBounds(cols, rows, Step(top, d))
                        && t.grid == Carve(s.grid, cols, rows, top, d))
        && !Seen(s.visited, t.stack[|s.stack|])
        && t.visited == Set2(s.visited, t.stack[|s.stack|].y, t.stack[|s.stack|].x, true)
        && OpenBits(t.grid) == OpenBits(s.grid) + 2 && VisitedCount(t.visited) == VisitedCount(s.visited) + 1
  {
    var top := s.stack[|s.stack| - 1];
    var opts := Unvisited(s.visited, Neighbors(cols, rows, top));
    if opts == [] {
      NoneUnvisited(s.visited, cols, rows, top);
    } else {
      var n := opts[Pick(r, |opts|)];
      Chosen(s.visited, cols, rows, top, n);
      CarveCount(s.grid, s.visited, cols, rows, top, n.dir);
      var t := BacktrackStep(s, cols, rows, r);
      assert t.stack[|s.stack|] == Step(top, n.dir);
    }
  }

  /**
   * The two outcomes of a Prim step. The drawn entry leaves the frontier.
   * If its target is visited already, nothing else changes. Otherwise
   * exactly one passage is opened, along the entry, its target is the one
   * newly visited cell, and the target's own entries join the frontier.
   */
  lemma PrimCases(s: Gen, cols: int, rows: int, r: real)
    requires Fits(s, cols, rows) && FrontierInside(s.frontier, cols, rows) && s.frontier != [] && IsUnit(r)
    requires OnlyVisitedOpen(s.grid, s.visited, cols, rows)
    ensures var t := PrimStep(s, cols, rows, r);
      var i := Pick(r, |s.frontier|);
      Seen(s.visited, s.frontier[i].to) ==> t == s.(frontier := Remove(s.frontier, i))
    ensures var t := PrimStep(s, cols, rows, r);
      var i := Pick(r, |s.frontier|);
      var e := s.frontier[i];
      !Seen(s.visited, e.to) ==>
        && EdgeInside(cols, rows, e)
        && t.grid == Carve(s.grid, cols, rows, e.from, e.dir)
        && t.visited == Set2(s.visited, e.to.y, e.to.x, true)
        && t.frontier == Remove(s.frontier, i) + Pending(t.visited, e.to, Neighbors(cols, rows, e.to))
        && OpenBits(t.grid) == OpenBits(s.grid) + 2 && VisitedCount(t.visited) == VisitedCount(s.visited) + 1
  {
    var i := Pick(r, |s.frontier|);
    var e := s.frontier[i];
    assert EdgeInside(cols, rows, e);
    if !Seen(s.visited, e.to) {
      CarveCount(s.grid, s.visited, cols, rows, e.from, e.dir);
    }
  }

  /** A backtracker whose stack ran empty has carved a spanning tree over the whole board. */
  lemma BacktrackDone(s: Gen, cols: int, rows: int, root: Cell, routes: map<Cell, seq<Cell>>)
    requires BackOk(s, cols, rows, root, routes) && s.stack == []
    ensures SpanningTree(s.grid, cols, rows, root, routes) && AllVisited(s.visited, cols, rows)
  {
    StackDone(s.visited, cols, rows);
    TreeComplete(s.grid, s.visited, cols, rows, root, routes);
  }

  /** Prim with an empty frontier has carved a spanning tree over the whole board. */
  lemma PrimDone(s: Gen, cols: int, rows: int, root: Cell, routes: map<Cell, seq<Cell>>)
    requires PrimOk(s, cols, rows, root, routes) && s.frontier == []
    ensures SpanningTree(s.grid, cols, rows, root, routes) && AllVisited(s.visited, cols, rows)
  {
    FrontierDone(s.visited, cols, rows);
    TreeComplete(s.grid, s.visited, cols, rows, root, routes);
  }

  /** The loops of `resetVisited()`: row by row, column by column, every mark is cleared. */
  method ClearMarks(v: Marks, cols: int, rows: int) returns (w: Marks)
    requires 1 <= cols && 1 <= rows && Shaped(v, cols, rows)
    ensures w == Filled(rows, cols, false)
    ensures forall c :: !Seen(w, c)
  {
    w := v;
    var y := 0;
    while y < rows
      invariant 0 <= y <= rows && Shaped(w, cols, rows)
      invariant forall a, b :: 0 <= a < y && 0 <= b < cols ==> !w[a][b]
    {
      var x := 0;
      while x < cols
        invariant 0 <= x <= cols && Shaped(w, cols, rows)
        invariant forall a, b :: 0 <= a < y && 0 <= b < cols ==> !w[a][b]
        invariant forall b :: 0 <= b < x ==> !w[y][b]
      {
        w := Set2(w, y, x, false);
        x := x + 1;
      }
      y := y + 1;
    }
    FilledUnique(w, rows, cols, false);
  }

  /** The work left is never negative on a well-formed board. */
  lemma LeftNonNegative(s: Gen, cols: int, rows: int)
    requires Fits(s, cols, rows)
    ensures BackLeft(s, cols, rows) >= 0 && PrimLeft(s, cols, rows) >= 0
  {
    VisitedBound(s.visited, cols, rows);
  }
}
