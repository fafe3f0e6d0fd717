/**
 * The maze page's state object `S`: the board, the generation animation
 * (`S.anim`) and the keyboard run (`S.run`), with the operations the
 * buttons, the animation frame and the arrow keys perform on it.
 */
module MazeEngine {
  import opened Wrappers
  import opened Grids
  import opened Draws
  import opened MazeGrid
  import opened Maze
  import opened MazeGen

  /** `S.anim`: whether generation is animating, the backtracker's stack, Prim's frontier and the algorithm. */
  datatype Anim = Anim(running: bool, stack: seq<Cell>, frontier: seq<Edge>, algo: Algo)

  /** `S.run`: whether the run is on, whether it reached the exit, and the player's cell. */
  datatype Run = Run(active: bool, finished: bool, pos: Cell)

  /** A key press: one of the movement keys (arrows or WASD) in its direction, or any other key. */
  datatype Key = Arrow(d: Dir) | OtherKey

  class Engine {
    var cols: int
    var rows: int
    var grid: Board
    var visited: Marks
    var path: Option<seq<Cell>>
    var anim: Anim
    var run: Run
    /** The dead-end count shown after generation. */
    var deadEndStat: nat
    /** The cell generation started from, and a route from it to each visited cell. */
    ghost var root: Cell
    ghost var routes: map<Cell, seq<Cell>>
    /** The cells the player has walked through since the run was reset. */
    ghost var trail: seq<Cell>

    /** The generators' view of the state. */
    function Snapshot(): Gen
      reads this
    {
      Gen(grid, visited, anim.stack, anim.frontier)
    }

    /** The board: both arrays `rows` by `cols`, openings paired and inside, and a shown path is a real route. */
    ghost predicate Sound()
      reads this
    {
      && Fits(Snapshot(), cols, rows)
      && (path.Some? ==> IsRoute(grid, cols, rows, path.value, Cell(0, 0), Exit(cols, rows)))
    }

    /** The player stands at the end of a route from the entrance, and a finished run ended on the exit. */
    ghost predicate Valid()
      reads this
    {
      && Sound()
      && IsRoute(grid, cols, rows, trail, Cell(0, 0), run.pos)
      && (run.finished ==> !run.active && run.pos == Exit(cols, rows))
    }

    /** The current algorithm's work list lies on the board. */
    predicate Ready()
      reads this
    {
      && (anim.algo == Backtracker ==> StackInside(anim.stack, cols, rows))
      && (anim.algo == Prim ==> FrontierInside(anim.frontier, cols, rows))
    }

    /** Generation so far: a tree over the visited cells, and a complete work list for the current algorithm. */
    ghost predicate Progress()
      reads this
    {
      if anim.algo == Backtracker then BackOk(Snapshot(), cols, rows, root, routes)
      else PrimOk(Snapshot(), cols, rows, root, routes)
    }

    /** A finished maze: a spanning tree of the board. */
    ghost predicate Complete()
      reads this
    {
      SpanningTree(grid, cols, rows, root, routes)
    }

    /** Every wall is closed. */
    ghost predicate Blank()
      reads this
    {
      forall c {:trigger MaskAt(grid, c)} :: InBounds(cols, rows, c) ==> MaskAt(grid, c) == 0
    }

    /** Work left to generation: every step of the current algorithm lowers it by at least one. */
    ghost function Measure(): int
      reads this
    {
      if anim.algo == Backtracker then BackLeft(Snapshot(), cols, rows) else PrimLeft(Snapshot(), cols, rows)
    }

    /** The initial state, then `resetGrid(20, 20)` and an instant backtracker maze. */
    constructor (rng: nat -> real)
      requires forall i :: IsUnit(rng(i))
      ensures Valid() && Ready() && cols == 20 && rows == 20
      ensures anim.algo == Backtracker && !anim.running && Complete() && path == None
    {
      cols, rows := 20, 20;
      grid, visited := [], [];
      path := None;
      anim := Anim(false, [], [], Backtracker);
      run := Run(false, false, Cell(0, 0));
      deadEndStat := 0;
      root, routes, trail := Cell(0, 0), map[], [Cell(0, 0)];
      new;
      ResetGrid(20, 20);
      GenerateInstant(Backtracker, rng);
    }

    /** `resetGrid(c, r)`: fresh `r` by `c` arrays, every wall closed, nothing visited, no path, the run reset. */
    method ResetGrid(c: int, r: int)
      requires 1 <= c && 1 <= r
      modifies this
      ensures Valid() && cols == c && rows == r
      ensures grid == Filled(r, c, 0) && visited == Filled(r, c, false) && path == None
      ensures Blank() && Fresh(Snapshot(), cols, rows)
      ensures run == Run(false, false, Cell(0, 0)) && anim == old(anim) && deadEndStat == old(deadEndStat)
    {
      cols, rows := c, r;
      grid := Filled(r, c, 0);
      visited := Filled(r, c, false);
      path := None;
      assert Wired(grid, cols, rows);
      ResetRun(false);
    }

    /** `resetVisited()`: every visited mark cleared. */
    method ResetVisited()
      requires Valid()
      modifies this
      ensures Valid() && visited == Filled(rows, cols, false)
      ensures forall c :: !Seen(visited, c)
      ensures cols == old(cols) && rows == old(rows) && grid == old(grid) && path == old(path)
      ensures anim == old(anim) && run == old(run) && deadEndStat == old(deadEndStat)
      ensures root == old(root) && routes == old(routes) && trail == old(trail)
    {
      visited := ClearMarks(visited, cols, rows);
    }

    /** `initBacktracker()`: the stack holds (0, 0), now visited. */
    method InitBacktracker()
      requires Valid()
      modifies this
      ensures cols == old(cols) && rows == old(rows)
      ensures Valid() && Ready() && anim.algo == Backtracker && anim.running == old(anim.running)
      ensures Snapshot() == BacktrackStart(old(Snapshot()), cols, rows)
      ensures path == old(path)
      ensures run == old(run) && deadEndStat == old(deadEndStat) && trail == old(trail)
      ensures old(Fresh(Snapshot(), cols, rows)) ==> Progress() && Measure() <= 4 * (cols * rows)
    {
      ghost var s := Snapshot();
      var t := BacktrackStart(Snapshot(), cols, rows);
      Load(t, Backtracker, Cell(0, 0), map[Cell(0, 0) := [Cell(0, 0)]]);
      if Fresh(s, cols, rows) {
        BacktrackStartOk(s, cols, rows);
      }
    }

    /**
     * `stepBacktracker()`: with an empty stack, done. Otherwise, if the top
     * cell has no unvisited neighbour it is popped; else the neighbour picked
     * by the draw `r` is carved into, marked and pushed.
     */
    method StepBacktracker(r: real) returns (done: bool)
      requires Valid() && Ready() && anim.algo == Backtracker && IsUnit(r)
      modifies this
      ensures cols == old(cols) && rows == old(rows)
      ensures Valid() && Ready() && anim.algo == Backtracker && anim.running == old(anim.running)
      ensures done <==> old(anim.stack) == []
      ensures done ==> unchanged(this)
      ensures !done ==> Snapshot() == BacktrackStep(old(Snapshot()), cols, rows, r)
      ensures path == old(path) && run == old(run)
      ensures deadEndStat == old(deadEndStat) && trail == old(trail)
      ensures old(Progress()) ==> Progress() && (!done ==> Measure() < old(Measure()))
    {
      var st := anim.stack;
      if st == [] {
        return true;
      }
      done := false;
      ghost var s := Snapshot();
      BacktrackFits(s, cols, rows, r);
      if Progress() {
        BacktrackKeeps(s, cols, rows, r, root, routes);
      }
      var t := BacktrackStep(Snapshot(), cols, rows, r);
      Load(t, Backtracker, root, BacktrackRoutes(s, cols, rows, r, routes));
    }

    /** Stores a generation state: the board, the marks and the two work lists. */
    method Load(t: Gen, a: Algo, ghost rt: Cell, ghost rts: map<Cell, seq<Cell>>)
      modifies this
      ensures Snapshot() == t && anim.algo == a && root == rt && routes == rts
      ensures cols == old(cols) && rows == old(rows) && path == old(path) && run == old(run)
      ensures anim.running == old(anim.running) && deadEndStat == old(deadEndStat) && trail == old(trail)
    {
      grid, visited := t.grid, t.visited;
      anim := anim.(stack := t.stack, frontier := t.frontier, algo := a);
      root, routes := rt, rts;
    }

    /** `initPrim()`: the cell picked by the draws `rx`, `ry` is visited and its passages to unvisited neighbours form the frontier. */
    method InitPrim(rx: real, ry: real)
      requires Valid() && IsUnit(rx) && IsUnit(ry)
      modifies this
      ensures cols == old(cols) && rows == old(rows)
      ensures Valid() && Ready() && anim.algo == Prim && anim.running == old(anim.running)
      ensures Snapshot() == PrimStart(old(Snapshot()), cols, rows, rx, ry)
      ensures path == old(path)
      ensures run == old(run) && deadEndStat == old(deadEndStat) && trail == old(trail)
      ensures old(Fresh(Snapshot(), cols, rows)) ==> Progress() && Measure() <= 4 * (cols * rows)
    {
      ghost var s := Snapshot();
      var start := PrimRoot(cols, rows, rx, ry);
      var t := PrimStart(Snapshot(), cols, rows, rx, ry);
      PendingInside(t.visited, cols, rows, start);
      Load(t, Prim, start, map[start := [start]]);
      if Fresh(s, cols, rows) {
        PrimStartOk(s, cols, rows, rx, ry);
      }
    }

    /** `pushFrontier(x, y)`: appends, in neighbour order, the passage to each unvisited neighbour of `c`. */
    method PushFrontier(c: Cell)
      requires Shaped(visited, cols, rows)
      modifies this
      ensures anim == old(anim).(frontier := old(anim.frontier) + Pending(visited, c, Neighbors(cols, rows, c)))
      ensures cols == old(cols) && rows == old(rows) && grid == old(grid) && visited == old(visited)
      ensures path == old(path) && run == old(run) && deadEndStat == old(deadEndStat)
      ensures root == old(root) && routes == old(routes) && trail == old(trail)
    {
      var pushed := UnvisitedEdges(visited, cols, rows, c);
      anim := anim.(frontier := anim.frontier + pushed);
    }

    /**
     * `stepPrim()`: with an empty frontier, done. Otherwise the entry picked
     * by the draw `r` is removed; if its target is unvisited, the passage is
     * carved, the target marked and its own passages pushed.
     */
    method StepPrim(r: real) returns (done: bool)
      requires Valid() && Ready() && anim.algo == Prim && IsUnit(r)
      modifies this
      ensures cols == old(cols) && rows == old(rows)
      ensures Valid() && Ready() && anim.algo == Prim && anim.running == old(anim.running)
      ensures done <==> old(anim.frontier) == []
      ensures done ==> unchanged(this)
      ensures !done ==> Snapshot() == PrimStep(old(Snapshot()), cols, rows, r)
      ensures path == old(path) && run == old(run)
      ensures deadEndStat == old(deadEndStat) && trail == old(trail)
      ensures old(Progress()) ==> Progress() && (!done ==> Measure() < old(Measure()))
    {
      var f := anim.frontier;
      if f == [] {
        return true;
      }
      done := false;
      ghost var s := Snapshot();
      PrimFits(s, cols, rows, r);
      if Progress() {
        PrimKeeps(s, cols, rows, r, root, routes);
      }
      var t := PrimStep(Snapshot(), cols, rows, r);
      Load(t, Prim, root, PrimRoutes(s, cols, rows, r, routes));
    }

    /** One step of the current algorithm (`stepPrim` or `stepBacktracker`); a step that reports done finishes a spanning tree. */
    method StepCurrent(r: real) returns (done: bool)
      requires Valid() && Ready() && IsUnit(r)
      modifies this
      ensures Valid() && Ready() && anim.algo == old(anim.algo) && anim.running == old(anim.running)
      ensures cols == old(cols) && rows == old(rows) && path == old(path) && run == old(run)
      ensures deadEndStat == old(deadEndStat)
      ensures done ==> unchanged(this)
      ensures old(Progress()) ==> Progress() && (!done ==> Measure() < old(Measure()))
      ensures old(Progress()) && done ==> Complete() && AllVisited(visited, cols, rows)
    {
      ghost var was := Progress();
      if anim.algo == Prim {
        done := StepPrim(r);
        if done && was {
          PrimDone(Snapshot(), cols, rows, root, routes);
        }
      } else {
        done := StepBacktracker(r);
        if done && was {
          BacktrackDone(Snapshot(), cols, rows, root, routes);
        }
      }
    }

    /**
     * `generateInstant(algo)`: clears the visited marks, starts the chosen
     * algorithm and steps it until it reports done or the guard reaches
     * `1e7`, then records the dead-end count and resets the run. Draws:
     * `rng(0)`, `rng(1)` start Prim, and step `i` uses `rng(2 + i)`.
     */
    method GenerateInstant(a: Algo, rng: nat -> real)
      requires Valid() && forall i :: IsUnit(rng(i))
      modifies this
      ensures Valid() && Ready() && anim.algo == a && anim.running == old(anim.running)
      ensures cols == old(cols) && rows == old(rows)
      ensures path == None && deadEndStat == DeadEndCount(grid) && run == Run(false, false, Cell(0, 0))
      ensures old(Blank()) && 4 * (cols * rows) < GUARD ==> Complete() && AllVisited(visited, cols, rows)
    {
      ghost var blank := Blank();
      ResetVisited();
      if a == Prim {
        InitPrim(rng(0), rng(1));
      } else {
        InitBacktracker();
      }
      RunGenerator(a, rng);
      FinalizeStats();
      ResetRun(false);
    }

    /** The loop of `generateInstant()`: step the generator until it reports done, at most `GUARD` times; step `i` uses draw `2 + i`. */
    method RunGenerator(a: Algo, rng: nat -> real)
      requires Valid() && Ready() && anim.algo == a && forall i :: IsUnit(rng(i))
      modifies this
      ensures Valid() && Ready() && anim.algo == a && anim.running == old(anim.running)
      ensures cols == old(cols) && rows == old(rows)
      ensures old(Progress() && Measure() <= 4 * (cols * rows)) && 4 * (cols * rows) < GUARD ==>
                Complete() && AllVisited(visited, cols, rows)
    {
      ghost var ok := Progress() && Measure() <= 4 * (cols * rows);
      ghost var m0 := Measure();
      var done := false;
      var guard := 0;
      while !done && guard < GUARD
        invariant Valid() && Ready() && anim.algo == a && anim.running == old(anim.running)
        invariant cols == old(cols) && rows == old(rows) && 0 <= guard <= GUARD
        invariant ok ==> Progress() && m0 <= 4 * (cols * rows)
        invariant ok && !done ==> guard + Measure() <= m0
        invariant ok && done ==> Complete() && AllVisited(visited, cols, rows)
        decreases GUARD - guard
      {
        done := StepCurrent(rng(2 + guard));
        guard := guard + 1;
      }
      if ok {
        LeftNonNegative(Snapshot(), cols, rows);
      }
    }

    /**
     * One animation frame while generating: up to `max(1, speed)` steps;
     * the step that reports done stops the animation and records the stats.
     * Step `i` of the frame uses the draw `rng(i)`.
     */
    method Tick(speed: int, rng: nat -> real)
      requires Valid() && (anim.running ==> Ready()) && forall i :: IsUnit(rng(i))
      modifies this
      ensures Valid() && (anim.running ==> Ready()) && anim.algo == old(anim.algo)
      ensures !old(anim.running) ==> unchanged(this)
      ensures cols == old(cols) && rows == old(rows) && run == old(run)
      ensures old(anim.running && Progress()) && anim.running ==> Progress()
      ensures old(anim.running && Progress()) && !anim.running ==>
                Complete() && path == None && deadEndStat == DeadEndCount(grid)
    {
      if !anim.running {
        return;
      }
      var steps := if speed > 1 then speed else 1;
      RunSteps(steps, rng);
    }

    /** The loop of `tick()` on a running animation: up to `steps` generator steps, step `i` using draw `i`; on done the animation stops and the statistics are taken. */
    method RunSteps(steps: int, rng: nat -> real)
      requires Valid() && Ready() && anim.running && forall i :: IsUnit(rng(i))
      modifies this
      ensures Valid() && (anim.running ==> Ready()) && anim.algo == old(anim.algo)
      ensures cols == old(cols) && rows == old(rows) && run == old(run)
      ensures old(Progress()) && anim.running ==> Progress()
      ensures old(Progress()) && !anim.running ==> Complete() && path == None && deadEndStat == DeadEndCount(grid)
    {
      ghost var was := Progress();
      var i := 0;
      while i < steps
        invariant Valid() && Ready() && anim.running && anim.algo == old(anim.algo)
        invariant cols == old(cols) && rows == old(rows) && run == old(run)
        invariant was ==> Progress()
      {
        var done := StepCurrent(rng(i));
        if done {
          anim := anim.(running := false);
          FinalizeStats();
          return;
        }
        i := i + 1;
      }
    }

    /** `finalizeStats()`: the dead-end count is recorded and the path cleared. */
    method FinalizeStats()
      requires Valid()
      modifies this
      ensures Valid() && deadEndStat == DeadEndCount(grid) && deadEndStat <= cols * rows && path == None
      ensures cols == old(cols) && rows == old(rows) && grid == old(grid) && visited == old(visited)
      ensures anim == old(anim) && run == old(run) && root == old(root) && routes == old(routes)
    {
      deadEndStat := DeadEnds(grid, cols, rows);
      path := None;
    }

    /**
     * `doGenerate()`: both sides clamped to [5, 200], a fresh board, then
     * either the chosen algorithm started for animation or a whole maze
     * generated at once.
     */
    method DoGenerate(width: int, height: int, animate: bool, a: Algo, rng: nat -> real)
      requires forall i :: IsUnit(rng(i))
      modifies this
      ensures Valid() && Ready() && cols == Clamp(width) && rows == Clamp(height) && anim.algo == a
      ensures animate ==> anim.running && Progress()
      ensures !animate ==> anim.running == old(anim.running) && Complete() && path == None
    {
      var c := Clamp(width);
      var r := Clamp(height);
      ResetGrid(c, r);
      if animate {
        StartAnimated(a, rng(0), rng(1));
      } else {
        AreaBound(c, r);
        GenerateInstant(a, rng);
      }
    }

    /** The animated branch of `doGenerate()`: the chosen algorithm is started on a fresh board and the animation runs. */
    method StartAnimated(a: Algo, rx: real, ry: real)
      requires Valid() && Fresh(Snapshot(), cols, rows) && IsUnit(rx) && IsUnit(ry)
      modifies this
      ensures Valid() && Ready() && cols == old(cols) && rows == old(rows) && anim.algo == a
      ensures anim.running && Progress()
    {
      if a == Prim {
        InitPrim(rx, ry);
      } else {
        InitBacktracker();
      }
      anim := anim.(running := true);
    }

    /** `doSolve()`: the solver's path, or none; a finished maze always has one. */
    method DoSolve()
      requires Valid()
      modifies this
      ensures Valid()
      ensures path.Some? ==> IsRoute(grid, cols, rows, path.value, Cell(0, 0), Exit(cols, rows))
      ensures path.Some? ==> forall p :: IsRoute(grid, cols, rows, p, Cell(0, 0), Exit(cols, rows)) ==> |path.value| <= |p|
      ensures path.None? ==> forall p :: !IsRoute(grid, cols, rows, p, Cell(0, 0), Exit(cols, rows))
      ensures old(Complete()) ==> path.Some?
      ensures cols == old(cols) && rows == old(rows) && grid == old(grid) && visited == old(visited)
      ensures anim == old(anim) && run == old(run) && deadEndStat == old(deadEndStat)
      ensures root == old(root) && routes == old(routes)
    {
      if Complete() {
        ghost var w := SpanningSolvable(grid, cols, rows, root, routes);
      }
      path := SolvePath(grid, cols, rows);
    }

    /** `doClear()`: the path is cleared. */
    method DoClear()
      requires Valid()
      modifies this
      ensures Valid() && path == None
      ensures cols == old(cols) && rows == old(rows) && grid == old(grid) && visited == old(visited)
      ensures anim == old(anim) && run == old(run) && deadEndStat == old(deadEndStat)
    {
      path := None;
    }

    /** `resetRun(start)`: the player back on (0, 0), not running; with `start`, then `startRun()`. */
    method ResetRun(start: bool)
      requires Sound()
      modifies this
      ensures Valid()
      ensures run == if start && !anim.running then Run(true, false, Cell(0, 0)) else Run(false, false, Cell(0, 0))
      ensures cols == old(cols) && rows == old(rows) && grid == old(grid) && visited == old(visited)
      ensures path == old(path) && anim == old(anim) && deadEndStat == old(deadEndStat)
      ensures root == old(root) && routes == old(routes)
    {
      run := Run(false, false, Cell(0, 0));
      trail := [Cell(0, 0)];
      if start {
        StartRun();
      }
    }

    /** `startRun()`: refused while generating; otherwise the run starts from (0, 0). */
    method StartRun()
      requires Valid()
      modifies this
      ensures Valid()
      ensures run == if old(anim.running) then old(run) else Run(true, false, Cell(0, 0))
      ensures cols == old(cols) && rows == old(rows) && grid == old(grid) && visited == old(visited)
      ensures path == old(path) && anim == old(anim) && deadEndStat == old(deadEndStat)
      ensures root == old(root) && routes == old(routes)
    {
      if anim.running {
        return;
      }
      run := Run(true, false, Cell(0, 0));
      trail := [Cell(0, 0)];
    }

    /** `finishRun()`: reached on the exit; the run is over and stays there. */
    method FinishRun()
      requires Valid() && run.pos == Exit(cols, rows)
      modifies this
      ensures Valid() && run == old(run).(finished := true, active := false)
      ensures cols == old(cols) && rows == old(rows) && grid == old(grid) && visited == old(visited)
      ensures path == old(path) && anim == old(anim) && deadEndStat == old(deadEndStat)
      ensures root == old(root) && routes == old(routes) && trail == old(trail)
    {
      run := run.(finished := true, active := false);
    }

    /** Whether `tryMove(d)` moves: an active, unfinished run, no generation, side `d` open and its cell on the board. */
    predicate CanMove(d: Dir)
      reads this
    {
      && run.active && !run.finished && !anim.running
      && IsOpen(MaskAt(grid, run.pos), d) && InBounds(cols, rows, Step(run.pos, d))
    }

    /** `tryMove(dir)`: one step through an open side; stepping onto the exit finishes the run. */
    method TryMove(d: Dir)
      requires Valid()
      modifies this
      ensures Valid()
      ensures run.pos == if old(CanMove(d)) then Step(old(run.pos), d) else old(run.pos)
      ensures run.finished == (old(run.finished) || (old(CanMove(d)) && run.pos == Exit(cols, rows)))
      ensures run.active == (old(run.active) && !run.finished)
      ensures cols == old(cols) && rows == old(rows) && grid == old(grid) && visited == old(visited)
      ensures path == old(path) && anim == old(anim) && deadEndStat == old(deadEndStat)
      ensures root == old(root) && routes == old(routes)
    {
      if !run.active || run.finished || anim.running {
        return;
      }
      var x, y := run.pos.x, run.pos.y;
      assert InBounds(cols, rows, trail[|trail| - 1]);
      var m := grid[y][x];
      if !IsOpen(m, d) {
        return;
      }
      var nx, ny := x + DX(d), y + DY(d);
      if nx < 0 || ny < 0 || nx >= cols || ny >= rows {
        return;
      }
      assert LinkedBy(grid, run.pos, Cell(nx, ny), d);
      RouteExtend(grid, cols, rows, trail, Cell(0, 0), run.pos, Cell(nx, ny));
      run := run.(pos := Cell(nx, ny));
      trail := trail + [Cell(nx, ny)];
      if nx == cols - 1 && ny == rows - 1 {
        FinishRun();
      }
    }

    /**
     * The keydown handler: ignored while generating; a movement key starts
     * a run that is neither active nor finished, then moves.
     */
    method OnKey(k: Key)
      requires Valid()
      modifies this
      ensures Valid()
      ensures old(anim.running) || k.OtherKey? ==> unchanged(this)
      ensures !old(anim.running) && k.Arrow? && old(run.active) ==>
                run.pos == if old(CanMove(k.d)) then Step(old(run.pos), k.d) else old(run.pos)
      ensures !old(anim.running) && k.Arrow? && !old(run.active) && !old(run.finished) ==>
                run.pos == if IsOpen(MaskAt(grid, Cell(0, 0)), k.d) && InBounds(cols, rows, Step(Cell(0, 0), k.d))
                           then Step(Cell(0, 0), k.d) else Cell(0, 0)
      ensures !old(anim.running) && k.Arrow? && !old(run.finished) ==> run.active || run.finished
      ensures old(run.finished) ==> run == old(run)
      ensures cols == old(cols) && rows == old(rows) && grid == old(grid) && visited == old(visited)
      ensures path == old(path) && anim == old(anim) && deadEndStat == old(deadEndStat)
    {
      if anim.running {
        return;
      }
      if !run.active && !run.finished && k.Arrow? {
        StartRun();
      }
      if k.Arrow? {
        TryMove(k.d);
      }
    }
  }
}
