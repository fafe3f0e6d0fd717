/**
 * The maze generator and player: the two stepwise generators (randomized
 * depth-first backtracker and randomized Prim), the run-to-completion driver
 * with its iteration guard, the dead-end count, the breadth-first solver and
 * the keyboard "run" from the top-left to the bottom-right cell.
 */
module Maze {
  import opened Wrappers
  import opened Grids
  import opened Draws
  import opened MazeGrid

  datatype Algo = Backtracker | Prim

  /** A frontier entry `[x, y, nx, ny, dir]`: the passage from `from` through side `dir` into `to`. */
  datatype Edge = Edge(from: Cell, to: Cell, dir: Dir)

  const MIN_SIDE := 5
  const MAX_SIDE := 200
  /** The iteration cap of the run-to-completion driver (`1e7`). */
  const GUARD := 10000000

  /** `Math.max(5, Math.min(200, n))`, the side lengths accepted by the generate action. */
  function Clamp(n: int): (r: int)
    ensures MIN_SIDE <= r <= MAX_SIDE
    ensures MIN_SIDE <= n <= MAX_SIDE ==> r == n
    ensures n < MIN_SIDE ==> r == MIN_SIDE
    ensures n > MAX_SIDE ==> r == MAX_SIDE
  {
    var upper := if n < MAX_SIDE then n else MAX_SIDE;
    if MIN_SIDE < upper then upper else MIN_SIDE
  }

  /** On any board the generate action accepts, the run-to-completion cap exceeds four steps per cell. */
  lemma AreaBound(c: int, r: int)
    requires MIN_SIDE <= c <= MAX_SIDE && MIN_SIDE <= r <= MAX_SIDE
    ensures 4 * (c * r) < GUARD
  {
    assert c * r <= MAX_SIDE * r <= MAX_SIDE * MAX_SIDE;
  }

  function Exit(cols: int, rows: int): Cell
  {
    Cell(cols - 1, rows - 1)
  }

  /** `neighbors(x, y).filter(...)`: the neighbours not visited yet, in the same order. */
  function Unvisited(v: Marks, ns: seq<Neighbor>): (r: seq<Neighbor>)
    ensures |r| <= |ns|
  {
    if ns == [] then []
    else
      var last := ns[|ns| - 1];
      Unvisited(v, ns[..|ns| - 1]) + (if Seen(v, last.cell) then [] else [last])
  }

  /** The filter keeps exactly the unvisited neighbours. */
  lemma {:induction false} UnvisitedMembers(v: Marks, ns: seq<Neighbor>)
    ensures forall n :: n in Unvisited(v, ns) <==> n in ns && !Seen(v, n.cell)
  {
    if ns != [] {
      var last := ns[|ns| - 1];
      assert ns == ns[..|ns| - 1] + [last];
      UnvisitedMembers(v, ns[..|ns| - 1]);
    }
  }

  /** The entries `pushFrontier` appends for cell `c`: one per unvisited neighbour, in neighbour order. */
  function Pending(v: Marks, c: Cell, ns: seq<Neighbor>): (r: seq<Edge>)
    ensures |r| <= |ns|
  {
    if ns == [] then []
    else
      var last := ns[|ns| - 1];
      Pending(v, c, ns[..|ns| - 1]) + (if Seen(v, last.cell) then [] else [Edge(c, last.cell, last.dir)])
  }

  /** Each pushed entry leaves `c` toward an unvisited neighbour, and every unvisited neighbour gets one. */
  lemma {:induction false} PendingMembers(v: Marks, c: Cell, ns: seq<Neighbor>)
    ensures forall e :: e in Pending(v, c, ns) ==> e.from == c && Neighbor(e.to, e.dir) in ns && !Seen(v, e.to)
    ensures forall n :: n in ns && !Seen(v, n.cell) ==> Edge(c, n.cell, n.dir) in Pending(v, c, ns)
  {
    if ns != [] {
      var last := ns[|ns| - 1];
      assert ns == ns[..|ns| - 1] + [last];
      PendingMembers(v, c, ns[..|ns| - 1]);
    }
  }

  /** `F.splice(i, 1)`: the sequence without its entry at `i`. */
  function Remove<T>(s: seq<T>, i: int): (r: seq<T>)
    requires 0 <= i < |s|
    ensures |r| == |s| - 1
    ensures forall x :: x in r ==> x in s
    ensures forall x :: x in s && x != s[i] ==> x in r
  {
    assert s == s[..i] + [s[i]] + s[i + 1..];
    s[..i] + s[i + 1..]
  }

  predicate EdgeInside(cols: int, rows: int, e: Edge)
  {
    InBounds(cols, rows, e.from) && InBounds(cols, rows, e.to) && e.to == Step(e.from, e.dir)
  }

  /**
   * The backtracker's stack: visited in-bounds cells, and every visited cell
   * that still has an unvisited neighbour is on it.
   */
  ghost predicate StackOk(v: Marks, st: seq<Cell>, cols: int, rows: int)
  {
    && (forall k :: 0 <= k < |st| ==> InBounds(cols, rows, st[k]) && Seen(v, st[k]))
    && (forall c, d :: InBounds(cols, rows, c) && Seen(v, c) && InBounds(cols, rows, Step(c, d)) && !Seen(v, Step(c, d))
          ==> c in st)
  }

  /**
   * Prim's frontier: entries leave a visited cell, and every passage from a
   * visited cell to an unvisited neighbour is still on offer.
   */
  ghost predicate FrontierOk(v: Marks, f: seq<Edge>, cols: int, rows: int)
  {
    FrontierSound(v, f, cols, rows) && FrontierCovers(v, f, cols, rows)
  }

  /** Every frontier entry is a passage on the board leaving a visited cell. */
  ghost predicate FrontierSound(v: Marks, f: seq<Edge>, cols: int, rows: int)
  {
    forall k :: 0 <= k < |f| ==> EdgeInside(cols, rows, f[k]) && Seen(v, f[k].from)
  }

  /** Every passage from a visited cell to an unvisited one is on the frontier. */
  ghost predicate FrontierCovers(v: Marks, f: seq<Edge>, cols: int, rows: int)
  {
    forall c, d :: InBounds(cols, rows, c) && Seen(v, c) && InBounds(cols, rows, Step(c, d)) && !Seen(v, Step(c, d))
      ==> Edge(c, Step(c, d), d) in f
  }

  /** Popping a cell with no unvisited neighbour keeps the stack complete. */
  lemma {:induction false} StackPop(v: Marks, st: seq<Cell>, cols: int, rows: int)
    requires StackOk(v, st, cols, rows) && st != []
    requires Stuck(v, cols, rows, st[|st| - 1])
    ensures StackOk(v, st[..|st| - 1], cols, rows)
  {
    var top := st[|st| - 1];
    var rest := st[..|st| - 1];
    forall k | 0 <= k < |rest|
      ensures InBounds(cols, rows, rest[k]) && Seen(v, rest[k])
    {
      assert rest[k] == st[k];
    }
    forall c, d | InBounds(cols, rows, c) && Seen(v, c) && InBounds(cols, rows, Step(c, d)) && !Seen(v, Step(c, d))
      ensures c in rest
    {
      if c == top {
        assert false;
      }
      var j :| 0 <= j < |st| && st[j] == c;
      assert rest[j] == c;
    }
  }

  /** Every in-bounds neighbour of `c` is visited. */
  ghost predicate Stuck(v: Marks, cols: int, rows: int, c: Cell)
  {
    forall d :: InBounds(cols, rows, Step(c, d)) ==> Seen(v, Step(c, d))
  }

  /** A cell whose unvisited-neighbour list is empty has every in-bounds neighbour visited. */
  lemma NoneUnvisited(v: Marks, cols: int, rows: int, c: Cell)
    requires Unvisited(v, Neighbors(cols, rows, c)) == []
    ensures Stuck(v, cols, rows, c)
  {
    UnvisitedMembers(v, Neighbors(cols, rows, c));
    NeighborsComplete(cols, rows, c);
    forall d | InBounds(cols, rows, Step(c, d))
      ensures Seen(v, Step(c, d))
    {
      assert Neighbor(Step(c, d), d) in Neighbors(cols, rows, c);
    }
  }

  /** Pushing a freshly visited cell keeps the stack complete. */
  lemma {:induction false} StackPush(v: Marks, st: seq<Cell>, cols: int, rows: int, b: Cell)
    requires Shaped(v, cols, rows) && StackOk(v, st, cols, rows) && InBounds(cols, rows, b)
    ensures StackOk(Set2(v, b.y, b.x, true), st + [b], cols, rows)
  {
    var v' := Set2(v, b.y, b.x, true);
    var st' := st + [b];
    forall c, d | InBounds(cols, rows, c) && Seen(v', c) && InBounds(cols, rows, Step(c, d)) && !Seen(v', Step(c, d))
      ensures c in st'
    {
      if c != b {
        assert Seen(v, c) && !Seen(v, Step(c, d));
        assert c in st;
      }
    }
  }

  /** An empty complete stack leaves no visited cell with an unvisited neighbour. */
  lemma StackDone(v: Marks, cols: int, rows: int)
    requires StackOk(v, [], cols, rows)
    ensures Closed(v, cols, rows)
  {
  }

  /** The frontier `initPrim` builds around its first cell. */
  lemma {:induction false} FrontierStart(v: Marks, cols: int, rows: int, root: Cell)
    requires InBounds(cols, rows, root)
    requires forall c :: InBounds(cols, rows, c) ==> (Seen(v, c) <==> c == root)
    ensures FrontierOk(v, Pending(v, root, Neighbors(cols, rows, root)), cols, rows)
  {
    var ns := Neighbors(cols, rows, root);
    var f := Pending(v, root, ns);
    PendingMembers(v, root, ns);
    NeighborsComplete(cols, rows, root);
    forall k | 0 <= k < |f|
      ensures EdgeInside(cols, rows, f[k]) && Seen(v, f[k].from)
    {
      assert f[k] in f;
      assert Neighbor(f[k].to, f[k].dir) in ns;
    }
    forall c, d | InBounds(cols, rows, c) && Seen(v, c) && InBounds(cols, rows, Step(c, d)) && !Seen(v, Step(c, d))
      ensures Edge(c, Step(c, d), d) in f
    {
      assert Neighbor(Step(c, d), d) in ns;
    }
  }

  /** Dropping an entry whose target is already visited keeps the frontier complete. */
  lemma {:induction false} FrontierDrop(v: Marks, f: seq<Edge>, cols: int, rows: int, i: int)
    requires FrontierOk(v, f, cols, rows) && 0 <= i < |f| && Seen(v, f[i].to)
    ensures FrontierOk(v, Remove(f, i), cols, rows)
  {
    var f' := Remove(f, i);
    forall k | 0 <= k < |f'|
      ensures EdgeInside(cols, rows, f'[k]) && Seen(v, f'[k].from)
    {
      assert f'[k] in f;
    }
  }

  /** Visiting the target of entry `i` and pushing its own unvisited neighbours keeps the frontier complete. */
  lemma {:induction false} FrontierGrow(v: Marks, f: seq<Edge>, cols: int, rows: int, i: int)
    requires Shaped(v, cols, rows) && FrontierOk(v, f, cols, rows) && 0 <= i < |f| && !Seen(v, f[i].to)
    ensures var b := f[i].to;
            var v' := Set2(v, b.y, b.x, true);
            FrontierOk(v', Remove(f, i) + Pending(v', b, Neighbors(cols, rows, b)), cols, rows)
  {
    GrowSound(v, f, cols, rows, i);
    GrowCovers(v, f, cols, rows, i);
  }

  /** The sound half of `FrontierGrow`: kept entries and new entries all leave visited cells. */
  lemma {:induction false} GrowSound(v: Marks, f: seq<Edge>, cols: int, rows: int, i: int)
    requires Shaped(v, cols, rows) && FrontierSound(v, f, cols, rows) && 0 <= i < |f|
    ensures var b := f[i].to;
            var v' := Set2(v, b.y, b.x, true);
            FrontierSound(v', Remove(f, i) + Pending(v', b, Neighbors(cols, rows, b)), cols, rows)
  {
    var b := f[i].to;
    var v' := Set2(v, b.y, b.x, true);
    var ns := Neighbors(cols, rows, b);
    var p := Pending(v', b, ns);
    PendingMembers(v', b, ns);
    NeighborsComplete(cols, rows, b);
    var f' := Remove(f, i) + p;
    forall k | 0 <= k < |f'|
      ensures EdgeInside(cols, rows, f'[k]) && Seen(v', f'[k].from)
    {
      if k < |f| - 1 {
        assert f'[k] in Remove(f, i);
        assert f'[k] in f;
      } else {
        assert f'[k] in p;
        assert Neighbor(f'[k].to, f'[k].dir) in ns;
      }
    }
  }

  /** The covering half of `FrontierGrow`: the new cell's passages are pushed, the others stay. */
  lemma {:induction false} GrowCovers(v: Marks, f: seq<Edge>, cols: int, rows: int, i: int)
    requires Shaped(v, cols, rows) && FrontierCovers(v, f, cols, rows) && 0 <= i < |f| && !Seen(v, f[i].to)
    requires InBounds(cols, rows, f[i].to)
    ensures var b := f[i].to;
            var v' := Set2(v, b.y, b.x, true);
            FrontierCovers(v', Remove(f, i) + Pending(v', b, Neighbors(cols, rows, b)), cols, rows)
  {
    var b := f[i].to;
    var v' := Set2(v, b.y, b.x, true);
    var ns := Neighbors(cols, rows, b);
    var p := Pending(v', b, ns);
    PendingMembers(v', b, ns);
    NeighborsComplete(cols, rows, b);
    var f' := Remove(f, i) + p;
    forall c, d | InBounds(cols, rows, c) && Seen(v', c) && InBounds(cols, rows, Step(c, d)) && !Seen(v', Step(c, d))
      ensures Edge(c, Step(c, d), d) in f'
    {
      if c == b {
        assert Neighbor(Step(c, d), d) in ns;
        assert Edge(c, Step(c, d), d) in p;
      } else {
        assert Seen(v, c) && !Seen(v, Step(c, d));
        assert Edge(c, Step(c, d), d) in f;
        assert Edge(c, Step(c, d), d) in Remove(f, i);
      }
    }
  }

  /** An empty complete frontier leaves no visited cell with an unvisited neighbour. */
  lemma FrontierDone(v: Marks, cols: int, rows: int)
    requires FrontierOk(v, [], cols, rows)
    ensures Closed(v, cols, rows)
  {
  }

  lemma VisitedBound(v: Marks, cols: int, rows: int)
    requires Shaped(v, cols, rows)
    ensures VisitedCount(v) <= cols * rows
  {
    GridSumBound(v, Mark, rows, cols);
  }

  /** In a spanning-tree maze the exit is reachable from the entrance. */
  lemma {:induction false} SpanningSolvable(g: Board, cols: int, rows: int, root: Cell, routes: map<Cell, seq<Cell>>)
      returns (w: seq<Cell>)
    requires 1 <= cols && 1 <= rows && SpanningTree(g, cols, rows, root, routes)
    ensures IsRoute(g, cols, rows, w, Cell(0, 0), Exit(cols, rows))
  {
    var start := Cell(0, 0);
    var exit := Exit(cols, rows);
    assert InBounds(cols, rows, start) && InBounds(cols, rows, exit);
    RouteReversed(g, cols, rows, routes[start], root, start);
    RouteJoin(g, cols, rows, Reversed(routes[start]), routes[exit], start, root, exit);
    w := Reversed(routes[start]) + routes[exit][1..];
  }

  /** A walk recorded backwards (each cell reached from the next) read forwards is a route. */
  lemma {:induction false} BackwardRoute(g: Board, cols: int, rows: int, p: seq<Cell>, a: Cell, b: Cell)
    requires |p| >= 1 && p[0] == b && p[|p| - 1] == a
    requires forall k :: 0 <= k < |p| ==> InBounds(cols, rows, p[k])
    requires forall k :: 0 <= k < |p| - 1 ==> Linked(g, p[k + 1], p[k])
    ensures IsRoute(g, cols, rows, Reversed(p), a, b)
  {
    var r := Reversed(p);
    var n := |p|;
    forall k | 0 <= k < n - 1
      ensures Linked(g, r[k], r[k + 1])
    {
      var i := n - 2 - k;
      assert r[k] == p[i + 1] && r[k + 1] == p[i];
    }
  }

  /** The entries pushed for an in-bounds cell each lead from it through one side to an in-bounds neighbour. */
  lemma PendingInside(v: Marks, cols: int, rows: int, c: Cell)
    requires InBounds(cols, rows, c)
    ensures forall k :: 0 <= k < |Pending(v, c, Neighbors(cols, rows, c))| ==>
              EdgeInside(cols, rows, Pending(v, c, Neighbors(cols, rows, c))[k])
  {
    var ns := Neighbors(cols, rows, c);
    var p := Pending(v, c, ns);
    PendingMembers(v, c, ns);
    forall k | 0 <= k < |p|
      ensures EdgeInside(cols, rows, p[k])
    {
      assert p[k] in p;
      var j :| 0 <= j < |ns| && ns[j] == Neighbor(p[k].to, p[k].dir);
    }
  }

  /** The loop of `pushFrontier(x, y)`: over the neighbours of `c`, in order, an entry for each one not visited. */
  method UnvisitedEdges(v: Marks, cols: int, rows: int, c: Cell) returns (pushed: seq<Edge>)
    requires Shaped(v, cols, rows)
    ensures pushed == Pending(v, c, Neighbors(cols, rows, c))
  {
    var ns := Neighbors(cols, rows, c);
    pushed := [];
    var i := 0;
    while i < |ns|
      invariant 0 <= i <= |ns|
      invariant pushed == Pending(v, c, ns[..i])
    {
      ghost var p := Pending(v, c, ns[..i]);
      var n := ns[i];
      assert ns[..i + 1][..i] == ns[..i] && ns[..i + 1][i] == n;
      assert InBounds(cols, rows, n.cell);
      if !v[n.cell.y][n.cell.x] {
        assert Pending(v, c, ns[..i + 1]) == p + [Edge(c, n.cell, n.dir)];
        pushed := pushed + [Edge(c, n.cell, n.dir)];
      } else {
        assert Pending(v, c, ns[..i + 1]) == p;
      }
      i := i + 1;
    }
    assert ns[..i] == ns;
  }

  /** Every cell of a `cols` by `rows` board. */
  ghost function AllCells(cols: int, rows: int): (s: set<Cell>)
    ensures forall c :: c in s <==> InBounds(cols, rows, c)
  {
    set x, y | 0 <= x < cols && 0 <= y < rows :: Cell(x, y)
  }

  /**
   * The `prev` map of the search: each recorded cell was reached through an
   * open side of its predecessor, and `dist` counts the steps back to the
   * start along `prev`.
   */
  ghost predicate PrevOk(g: Board, prev: map<Cell, Cell>, dist: map<Cell, nat>, seen: set<Cell>, start: Cell)
  {
    && start in seen && start in dist && dist[start] == 0
    && (forall c :: c in seen ==> c in dist && (c in prev <==> c != start))
    && (forall c {:trigger prev[c]} :: c in prev ==>
          c in seen && c in dist && prev[c] in seen && prev[c] in dist && Linked(g, prev[c], c) && dist[prev[c]] + 1 == dist[c])
  }

  lemma PrevAdd(g: Board, prev: map<Cell, Cell>, dist: map<Cell, nat>, seen: set<Cell>, start: Cell, cur: Cell, nb: Cell)
    requires PrevOk(g, prev, dist, seen, start) && cur in seen && nb !in seen && Linked(g, cur, nb)
    ensures PrevOk(g, prev[nb := cur], dist[nb := dist[cur] + 1], seen + {nb}, start)
  {
  }

  /** The order in which the solver tries the four sides: N, E, S, W. */
  function DirAt(i: int): (d: Dir)
    requires 0 <= i < 4
    ensures Rank(d) == i
  {
    if i == 0 then N else if i == 1 then E else if i == 2 then S else W
  }

  /** The walk back from `exit` so far: it ends at `at`, stays on seen cells, and each cell is linked to the one before it. */
  ghost predicate Trail(g: Board, seen: set<Cell>, back: seq<Cell>, exit: Cell, at: Cell)
  {
    && |back| >= 1 && back[0] == exit && back[|back| - 1] == at
    && (forall k :: 0 <= k < |back| ==> back[k] in seen)
    && (forall k :: 0 <= k < |back| - 1 ==> Linked(g, back[k + 1], back[k]))
  }

  /** Following `prev` one more step extends the walk, to a cell nearer the start. */
  lemma TrailStep(g: Board, prev: map<Cell, Cell>, dist: map<Cell, nat>, seen: set<Cell>, start: Cell,
                  back: seq<Cell>, exit: Cell, at: Cell)
    requires PrevOk(g, prev, dist, seen, start) && Trail(g, seen, back, exit, at) && at in prev
    ensures at in dist && prev[at] in dist && dist[prev[at]] + 1 == dist[at]
    ensures Trail(g, seen, back + [prev[at]], exit, prev[at])
  {
    var nb := back + [prev[at]];
    assert forall k :: 0 <= k < |back| ==> nb[k] == back[k];
  }

  /**
   * Following `prev` back from `exit` to `start`, then reversing: a route from
   * `start` to `exit` with one cell more than the exit's distance.
   */
  method Rebuild(g: Board, cols: int, rows: int, prev: map<Cell, Cell>, ghost dist: map<Cell, nat>,
                 ghost seen: set<Cell>, start: Cell, exit: Cell) returns (path: Option<seq<Cell>>)
    requires PrevOk(g, prev, dist, seen, start) && exit in seen
    requires forall c :: c in seen ==> InBounds(cols, rows, c)
    ensures path.Some? && IsRoute(g, cols, rows, path.value, start, exit)
    ensures exit in dist && |path.value| == dist[exit] + 1
  {
    var back := [exit];
    var at := exit;
    while at in prev
      invariant at in seen && Trail(g, seen, back, exit, at)
      invariant at in dist && dist[at] + |back| == dist[exit] + 1
      decreases dist[at]
    {
      TrailStep(g, prev, dist, seen, start, back, exit, at);
      at := prev[at];
      back := back + [at];
    }
    BackwardRoute(g, cols, rows, back, start, exit);
    path := Some(Reversed(back));
  }

  /**
   * Part way through expanding `cur`, with the sides of rank below `i`
   * tried: the cells seen so far are the ones seen before plus `added`, the
   * newly seen cells queued in order one step farther than `cur`, the
   * distances of the cells seen before kept, and every open side already
   * tried leads off the board or to a seen cell at most one step farther.
   */
  ghost predicate Expanding(g: Board, cols: int, rows: int, cur: Cell, i: int, seen: set<Cell>, q: seq<Cell>,
                            dist: map<Cell, nat>, seen': set<Cell>, prev': map<Cell, Cell>, q': seq<Cell>,
                            dist': map<Cell, nat>, added: seq<Cell>, start: Cell)
    requires cur in dist
  {
    && PrevOk(g, prev', dist', seen', start)
    && seen <= seen' && q' == q + added
    && (forall c :: c in seen' <==> c in seen || c in added)
    && (forall c :: c in seen ==> c in dist && c in dist' && dist'[c] == dist[c])
    && (forall c :: c in added ==> c !in seen && InBounds(cols, rows, c) && c in dist' && dist'[c] == dist[cur] + 1)
    && (forall d :: Rank(d) < i && IsOpen(MaskAt(g, cur), d) && InBounds(cols, rows, Step(cur, d)) ==>
          Step(cur, d) in seen' && Step(cur, d) in dist' && dist'[Step(cur, d)] <= dist[cur] + 1)
  }

  /** Trying one side `d` of `cur`: an open side to an in-bounds cell not seen yet marks, links and queues that cell. */
  method VisitSide(g: Board, cols: int, rows: int, cur: Cell, m: bv4, d: Dir, ghost seen: set<Cell>, ghost q: seq<Cell>,
                   ghost dist: map<Cell, nat>, seen': set<Cell>, prev': map<Cell, Cell>, q': seq<Cell>,
                   ghost dist': map<Cell, nat>, ghost added: seq<Cell>, ghost start: Cell)
      returns (seen'': set<Cell>, prev'': map<Cell, Cell>, q'': seq<Cell>, ghost dist'': map<Cell, nat>, ghost added': seq<Cell>)
    requires m == MaskAt(g, cur) && cur in seen && cur in dist
    requires forall c :: c in seen ==> c in dist && dist[c] <= dist[cur] + 1
    requires Expanding(g, cols, rows, cur, Rank(d), seen, q, dist, seen', prev', q', dist', added, start)
    ensures Expanding(g, cols, rows, cur, Rank(d) + 1, seen, q, dist, seen'', prev'', q'', dist'', added', start)
  {
    seen'', prev'', q'', dist'', added' := seen', prev', q', dist', added;
    if IsOpen(m, d) {
      var nb := Step(cur, d);
      if InBounds(cols, rows, nb) && nb !in seen' {
        assert LinkedBy(g, cur, nb, d);
        PrevAdd(g, prev', dist', seen', start, cur, nb);
        seen'' := seen' + {nb};
        prev'' := prev'[nb := cur];
        dist'' := dist'[nb := dist'[cur] + 1];
        q'' := q' + [nb];
        added' := added + [nb];
      }
    }
    forall e | Rank(e) < Rank(d) + 1 && IsOpen(m, e) && InBounds(cols, rows, Step(cur, e))
      ensures Step(cur, e) in seen'' && Step(cur, e) in dist'' && dist''[Step(cur, e)] <= dist[cur] + 1
    {
      var nb := Step(cur, e);
      if Rank(e) == Rank(d) {
        assert e == d;
        assert nb in seen'';
      } else {
        assert nb in seen';
      }
      assert nb in seen || nb in added';
    }
  }

  /**
   * One dequeued cell of the search: each open side, in the order N, E, S, W,
   * leading to an in-bounds cell not seen yet marks that cell, records `cur`
   * as its predecessor and queues it.
   */
  method ExpandCell(g: Board, cols: int, rows: int, cur: Cell, seen: set<Cell>, prev: map<Cell, Cell>, q: seq<Cell>,
                    ghost dist: map<Cell, nat>, ghost start: Cell, ghost expanded: set<Cell>)
      returns (seen': set<Cell>, prev': map<Cell, Cell>, q': seq<Cell>, ghost dist': map<Cell, nat>, ghost added: seq<Cell>)
    requires Shaped(g, cols, rows) && InBounds(cols, rows, cur) && cur in seen && expanded <= seen
    requires PrevOk(g, prev, dist, seen, start)
    requires forall c :: c in seen ==> dist[c] <= dist[cur] + 1
    ensures PrevOk(g, prev', dist', seen', start)
    ensures seen <= seen' && q' == q + added
    ensures forall c :: c in seen' <==> c in seen || c in added
    ensures forall c :: c in seen ==> dist'[c] == dist[c]
    ensures forall c :: c in added ==> c !in seen && InBounds(cols, rows, c) && dist'[c] == dist[cur] + 1
    ensures ClosedUnder(g, cols, rows, expanded, seen, dist) ==> ClosedUnder(g, cols, rows, expanded + {cur}, seen', dist')
  {
    seen', prev', q', dist', added := seen, prev, q, dist, [];
    var m := g[cur.y][cur.x];
    assert m == MaskAt(g, cur);
    var i := 0;
    while i < 4
      invariant 0 <= i <= 4
      invariant Expanding(g, cols, rows, cur, i, seen, q, dist, seen', prev', q', dist', added, start)
    {
      seen', prev', q', dist', added := VisitSide(g, cols, rows, cur, m, DirAt(i), seen, q, dist, seen', prev', q', dist', added, start);
      i := i + 1;
    }
    assert forall d :: Rank(d) < 4;
    if ClosedUnder(g, cols, rows, expanded, seen, dist) {
      ClosedGrows(g, cols, rows, cur, expanded, seen, dist, seen', dist');
    }
  }

  /** Expanding `cur` adds it to the closed cells: the cells closed before keep their seen neighbours and distances. */
  lemma ClosedGrows(g: Board, cols: int, rows: int, cur: Cell, expanded: set<Cell>, seen: set<Cell>, dist: map<Cell, nat>,
                    seen': set<Cell>, dist': map<Cell, nat>)
    requires ClosedUnder(g, cols, rows, expanded, seen, dist) && expanded <= seen && seen <= seen' && cur in seen
    requires forall c :: c in seen ==> c in dist && c in dist' && dist'[c] == dist[c]
    requires forall d :: IsOpen(MaskAt(g, cur), d) && InBounds(cols, rows, Step(cur, d)) ==>
               Step(cur, d) in seen' && Step(cur, d) in dist' && dist'[Step(cur, d)] <= dist[cur] + 1
    ensures ClosedUnder(g, cols, rows, expanded + {cur}, seen', dist')
  {
    forall c, d | c in expanded + {cur} && IsOpen(MaskAt(g, c), d) && InBounds(cols, rows, Step(c, d))
      ensures c in dist' && Step(c, d) in seen' && Step(c, d) in dist' && dist'[Step(c, d)] <= dist'[c] + 1
    {
      if c != cur {
        assert c in seen && Step(c, d) in seen;
      }
    }
  }

  /**
   * Every open side of an expanded cell leads off the board or to a seen
   * cell at most one step farther from the start.
   */
  ghost predicate ClosedUnder(g: Board, cols: int, rows: int, expanded: set<Cell>, seen: set<Cell>, dist: map<Cell, nat>)
  {
    forall c, d :: c in expanded && IsOpen(MaskAt(g, c), d) && InBounds(cols, rows, Step(c, d)) ==>
      c in dist && Step(c, d) in seen && Step(c, d) in dist && dist[Step(c, d)] <= dist[c] + 1
  }

  /** When every seen cell has been expanded, every cell a route from `start` reaches has been seen. */
  lemma ReachableSeen(g: Board, cols: int, rows: int, seen: set<Cell>, expanded: set<Cell>, dist: map<Cell, nat>, start: Cell)
    requires start in seen && seen <= expanded
    requires ClosedUnder(g, cols, rows, expanded, seen, dist)
    ensures forall p, b :: IsRoute(g, cols, rows, p, start, b) ==> b in seen
  {
    forall p, b | IsRoute(g, cols, rows, p, start, b)
      ensures b in seen
    {
      RouteStaysInside(g, seen, cols, rows, p, start, b);
    }
  }

  /**
   * The queue bookkeeping of one search step: the head `q0[0]` is taken off
   * and expanded, and the newly seen cells are queued behind the rest.
   */
  lemma {:induction false} QueueAfterExpand<T>(q0: seq<T>, q: seq<T>, added: seq<T>, seen0: set<T>, seen: set<T>, expanded: set<T>)
    requires q0 != [] && q == q0[1..] + added
    requires forall k :: 0 <= k < |q0| ==> q0[k] in seen0
    requires forall c :: c in seen0 ==> c in expanded || c in q0
    requires forall c :: c in seen <==> c in seen0 || c in added
    ensures forall k :: 0 <= k < |q| ==> q[k] in seen
    ensures forall c :: c in seen ==> c in expanded + {q0[0]} || c in q
  {
    var q1 := q0[1..];
    forall k | 0 <= k < |q|
      ensures q[k] in seen
    {
      if k < |q1| {
        assert q[k] == q0[k + 1];
      } else {
        assert q[k] == added[k - |q1|];
      }
    }
    forall c | c in seen
      ensures c in expanded + {q0[0]} || c in q
    {
      if c in added {
        var k :| 0 <= k < |added| && added[k] == c;
        assert q[|q1| + k] == c;
      } else if c !in expanded && c != q0[0] {
        var k :| 0 <= k < |q0| && q0[k] == c;
        assert k != 0 && q[k - 1] == c;
      }
    }
  }

  /**
   * The breadth-first order of a non-empty queue: distances never decrease
   * along it, no seen cell is more than one step farther than the head, and
   * no expanded cell is farther than the head.
   */
  ghost predicate Layered(q: seq<Cell>, seen: set<Cell>, expanded: set<Cell>, dist: map<Cell, nat>)
  {
    && q != [] && q[0] in dist
    && (forall i, j :: 0 <= i <= j < |q| ==> q[i] in dist && q[j] in dist && dist[q[i]] <= dist[q[j]])
    && (forall c :: c in seen ==> c in dist && dist[c] <= dist[q[0]] + 1)
    && (forall c :: c in expanded ==> c in dist && dist[c] <= dist[q[0]])
  }

  /**
   * The state of the search between two dequeues: every queued cell is seen,
   * every seen cell is queued or expanded, every open side of an expanded
   * cell leads to a seen cell at most one step farther, the exit has not
   * been expanded, `prev` records for each seen cell but the start the cell
   * it was reached from, and a non-empty queue is in breadth-first order.
   */
  ghost predicate Searching(g: Board, cols: int, rows: int, q: seq<Cell>, seen: set<Cell>, expanded: set<Cell>,
                            prev: map<Cell, Cell>, dist: map<Cell, nat>, start: Cell, exit: Cell)
  {
    && seen <= AllCells(cols, rows)
    && (forall k :: 0 <= k < |q| ==> q[k] in seen)
    && (forall c :: c in seen ==> c in expanded || c in q)
    && expanded <= seen && exit !in expanded
    && ClosedUnder(g, cols, rows, expanded, seen, dist)
    && PrevOk(g, prev, dist, seen, start)
    && (q != [] ==> Layered(q, seen, expanded, dist))
  }

  /**
   * Taking the head off a layered queue and queueing its new neighbours one
   * step farther keeps the queue layered.
   */
  lemma {:induction false} LayeredAfterExpand(q: seq<Cell>, q': seq<Cell>, added: seq<Cell>, seen: set<Cell>, seen': set<Cell>,
                                              expanded: set<Cell>, dist: map<Cell, nat>, dist': map<Cell, nat>)
    requires Layered(q, seen, expanded, dist) && q' == q[1..] + added && q' != []
    requires (forall k :: 0 <= k < |q| ==> q[k] in seen) && expanded <= seen
    requires forall c :: c in seen ==> c in dist' && dist'[c] == dist[c]
    requires forall c :: c in added ==> c in dist' && dist'[c] == dist[q[0]] + 1
    requires forall c :: c in seen' <==> c in seen || c in added
    ensures Layered(q', seen', expanded + {q[0]}, dist')
  {
    var top := dist[q[0]];
    var n := |q| - 1;
    assert forall k :: 0 <= k < |q'| ==> q'[k] in dist' && top <= dist'[q'[k]] <= top + 1 by {
      forall k | 0 <= k < |q'|
        ensures q'[k] in dist' && top <= dist'[q'[k]] <= top + 1
      {
        if k < n {
          assert q'[k] == q[k + 1];
        } else {
          assert q'[k] == added[k - n];
        }
      }
    }
    forall i, j | 0 <= i <= j < |q'|
      ensures dist'[q'[i]] <= dist'[q'[j]]
    {
      if j < n {
        assert q'[i] == q[i + 1] && q'[j] == q[j + 1];
      } else {
        assert q'[j] == added[j - n];
      }
    }
  }

  /**
   * With the exit at the head of a layered queue, no route reaches it in
   * fewer steps than its distance: walk the route to its first cell that
   * is not expanded; that cell is queued, so it is no nearer than the head.
   */
  lemma {:induction false} HeadNearest(g: Board, cols: int, rows: int, q: seq<Cell>, seen: set<Cell>, expanded: set<Cell>,
                                       prev: map<Cell, Cell>, dist: map<Cell, nat>, start: Cell, exit: Cell, p: seq<Cell>)
    requires Searching(g, cols, rows, q, seen, expanded, prev, dist, start, exit)
    requires q != [] && q[0] == exit && IsRoute(g, cols, rows, p, start, exit)
    ensures exit in dist && dist[exit] + 1 <= |p|
  {
    var j := 0;
    while p[j] in expanded
      invariant 0 <= j < |p| && p[j] in seen && p[j] in dist && dist[p[j]] <= j
      decreases |p| - j
    {
      assert j < |p| - 1 && Linked(g, p[j], p[j + 1]) && InBounds(cols, rows, p[j + 1]);
      ClosedStep(g, cols, rows, expanded, seen, dist, p[j], p[j + 1]);
      j := j + 1;
    }
    assert p[j] in q;
    var k :| 0 <= k < |q| && q[k] == p[j];
    assert dist[q[0]] <= dist[q[k]];
  }

  /** A route step out of an expanded cell lands on a seen cell at most one step farther. */
  lemma ClosedStep(g: Board, cols: int, rows: int, expanded: set<Cell>, seen: set<Cell>, dist: map<Cell, nat>, a: Cell, b: Cell)
    requires ClosedUnder(g, cols, rows, expanded, seen, dist)
    requires a in expanded && Linked(g, a, b) && InBounds(cols, rows, b)
    ensures a in dist && b in seen && b in dist && dist[b] <= dist[a] + 1
  {
    var d := if LinkedBy(g, a, b, N) then N else if LinkedBy(g, a, b, E) then E else if LinkedBy(g, a, b, S) then S else W;
    assert IsOpen(MaskAt(g, a), d) && Step(a, d) == b;
  }

  /** One round of the search loop when the dequeued cell is not the exit: dequeue it and expand it. */
  method Advance(g: Board, cols: int, rows: int, q: seq<Cell>, seen: set<Cell>, prev: map<Cell, Cell>,
                 ghost dist: map<Cell, nat>, ghost start: Cell, ghost exit: Cell, ghost expanded: set<Cell>)
      returns (q': seq<Cell>, seen': set<Cell>, prev': map<Cell, Cell>, ghost dist': map<Cell, nat>, ghost expanded': set<Cell>)
    requires Shaped(g, cols, rows) && Searching(g, cols, rows, q, seen, expanded, prev, dist, start, exit)
    requires q != [] && q[0] != exit
    ensures Searching(g, cols, rows, q', seen', expanded', prev', dist', start, exit)
    ensures seen <= seen' && (seen' == seen ==> |q'| < |q|)
  {
    var cur := q[0];
    ghost var added;
    seen', prev', q', dist', added := ExpandCell(g, cols, rows, cur, seen, prev, q[1..], dist, start, expanded);
    QueueAfterExpand(q, q', added, seen, seen', expanded);
    expanded' := expanded + {cur};
    if q' != [] {
      LayeredAfterExpand(q, q', added, seen, seen', expanded, dist, dist');
    }
    if added != [] {
      assert added[0] in seen' - seen;
    }
  }

  /**
   * Breadth-first search from (0, 0) to (cols-1, rows-1) through open sides,
   * then the path rebuilt from the exit through `prev` and reversed. The
   * search's `seen` board is kept as the set of cells it marks.
   */
  method SolvePath(g: Board, cols: int, rows: int) returns (path: Option<seq<Cell>>)
    requires 1 <= cols && 1 <= rows && Shaped(g, cols, rows)
    ensures path.Some? ==> IsRoute(g, cols, rows, path.value, Cell(0, 0), Exit(cols, rows))
    ensures path.Some? ==> forall p :: IsRoute(g, cols, rows, p, Cell(0, 0), Exit(cols, rows)) ==> |path.value| <= |p|
    ensures path.None? ==> forall p :: !IsRoute(g, cols, rows, p, Cell(0, 0), Exit(cols, rows))
  {
    var start := Cell(0, 0);
    var exit := Exit(cols, rows);
    var q := [start];
    var prev: map<Cell, Cell> := map[];
    var seen := {start};
    ghost var dist: map<Cell, nat> := map[start := 0];
    ghost var expanded: set<Cell> := {};
    ghost var all := AllCells(cols, rows);
    while q != []
      invariant Searching(g, cols, rows, q, seen, expanded, prev, dist, start, exit)
      decreases all - seen, |q|
    {
      if q[0] == exit {
        path := Rebuild(g, cols, rows, prev, dist, seen, start, exit);
        forall p | IsRoute(g, cols, rows, p, start, exit)
          ensures |path.value| <= |p|
        {
          HeadNearest(g, cols, rows, q, seen, expanded, prev, dist, start, exit, p);
        }
        return;
      }
      ghost var seen0 := seen;
      q, seen, prev, dist, expanded := Advance(g, cols, rows, q, seen, prev, dist, start, exit, expanded);
      assert seen != seen0 ==> all - seen < all - seen0;
    }
    ReachableSeen(g, cols, rows, seen, expanded, dist, start);
    path := None;
  }

  /** 1 for a cell with exactly one open side. */
  function DeadWeight(m: bv4): nat
  {
    if Degree(m) == 1 then 1 else 0
  }

  /** The number of cells with exactly one open side. */
  function DeadEndCount(g: Board): nat
  {
    GridSum(g, DeadWeight)
  }

  /** `deadEnds()`: counts, cell by cell, the masks with exactly one of the four bits set. */
  method DeadEnds(g: Board, cols: int, rows: int) returns (c: nat)
    requires Shaped(g, cols, rows)
    ensures c == DeadEndCount(g)
    ensures c <= cols * rows
  {
    c := 0;
    var y := 0;
    while y < rows
      invariant 0 <= y <= rows
      invariant c == GridSum(g[..y], DeadWeight)
    {
      var x := 0;
      assert g[..y + 1][..y] == g[..y];
      while x < cols
        invariant 0 <= x <= cols
        invariant c == GridSum(g[..y], DeadWeight) + RowSum(g[y][..x], DeadWeight)
      {
        var m := g[y][x];
        var deg := (if IsOpen(m, N) then 1 else 0) + (if IsOpen(m, E) then 1 else 0) +
                   (if IsOpen(m, S) then 1 else 0) + (if IsOpen(m, W) then 1 else 0);
        if deg == 1 {
          c := c + 1;
        }
        assert g[y][..x + 1][..x] == g[y][..x];
        x := x + 1;
      }
      assert g[y][..cols] == g[y];
      y := y + 1;
    }
    assert g[..rows] == g;
    GridSumBound(g, DeadWeight, rows, cols);
  }
}
