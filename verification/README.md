# Browser games: the rules of five grid games, verified

The repository is a set of small browser games. This project models the parts
of five of them that are discrete rules rather than drawing or physics:

- **Maze.** A board of 4-bit wall-opening masks (N=1, E=2, S=4, W=8). It has:
  - two stepwise generators: a randomized depth-first backtracker with a stack, and a randomized Prim with a frontier;
  - a run-to-completion driver with an iteration guard, and an animated driver that takes a few steps per frame;
  - a dead-end counter;
  - a breadth-first solver from (0,0) to (cols-1, rows-1);
  - the keyboard "run", in which the player walks the maze from the entrance to the exit.
- **Tetris.** Placement legality, translation and rotation with wall kicks, and hard and soft drops. Also locking a piece into the well, line clearing with score, lines and level, and the seven-piece bag.
- **Minesweeper.** Mine placement with a safe zone around the first click, neighbour numbers and flags. Also flood-fill reveal, chording, and win detection with its counters.
- **Snake.** The direction queue with reversal rejection, the wrap-around board, and self-collision. Also growth and score on food, and where new food goes.
- **Tic-tac-toe.** Winner and draw detection over the eight lines, and move legality and turn alternation. Also the score board, the rule-based computer player, and the new-game starter rule.

## How the model is built

- **Files and modules.**
  - `common.dfy`: shared modules.
    - `Wrappers`: `Option`.
    - `Grids`: rectangular `seq<seq<T>>` boards, a point update `Set2`, and weighted sums over a board.
    - `Draws`: `Pick(r, n) = floor(r * n)`, the index a `Math.random()` draw `r` selects.
  - Maze: `maze_grid.dfy` (masks, neighbours, passages, routes and spanning trees), `maze.dfy` (work lists, solver and dead ends), `maze_gen.dfy` (the generators as functions on a value `Gen`) and `maze_engine.dfy` (the page state as a class).
  - `tetris.dfy`.
  - Minesweeper: `minesweeper.dfy` (neighbours, placement and numbers), `minesweeper_reveal.dfy` (flood and chord), `minesweeper_win.dfy` (win detection and auto-flagging) and `minesweeper_board.dfy` (the page state).
  - `snake.dfy` and `tictactoe.dfy`.
- **Page state.** Each game's state object (`S` or `state`, or the module-level variables in snake) is a `class` whose methods update its fields.
- **Specification functions.** Each class method is proved against a function of the old state. Examples: `Snake.Moved`, `TicTacToe.Reset` and `MazeGen.BacktrackStep`. The properties of those functions are proved as lemmas.
- **Tic-tac-toe board.** It is an `array`, because the computer player writes into it and restores it in place.
- **Randomness.** Each `Math.random()` value is a parameter: a real in [0, 1).
  - The maze drivers take a function from step number to draw.
  - The tetris bag takes its six shuffle draws.
  - The retry loops (mine placement, snake food) take the sequence of draws they would consume.
- **Minesweeper difficulty.** The selector value is a `Difficulty`. An unknown value is `Unlisted` and gets the beginner preset, as `|| PRESETS.beginner` gives it.
- **Unbounded integers.** Every quantity in the source stays far below 2^53, so Dafny's unbounded integers model it exactly.

`doSolve` (maze/main.js:257-261) does not check for a running generation, so `MazeEngine.Engine.DoSolve` solves whatever is on the board.

## Model

| member | source | states |
|---|---|---|
| MazeGrid.Neighbors | maze/main.js:74-81 | at most four neighbours; each is on the board and one step from the cell in the direction it is paired with |
| MazeGrid.NeighborsComplete | maze/main.js:72-81 | a direction's neighbour is listed iff it is in bounds, and the list is in N, E, S, W order |
| MazeGrid.CarveOpens | maze/main.js:94 | opening a passage sets `dir` on the source and `OPP[dir]` on the neighbour, and leaves every other bit of the board as it was |
| MazeGrid.CarveSymmetric | maze/main.js:94 | carving keeps walls symmetric: for adjacent a and b, a's bit toward b is set iff b's bit toward a is |
| MazeGrid.CarveOpen | maze/main.js:94 | after a carve, a side is open iff it was open before or is one of the two sides of the new passage |
| MazeGrid.CarveMask | maze/main.js:94 | the mask of the source gains `dir`, the neighbour's mask gains `OPP[dir]`, and every other mask is unchanged |
| MazeGrid.CarveInside | maze/main.js:94-95 | carving from a visited cell keeps every open side pointing inside the board, and opens only visited cells once the target is marked |
| MazeGrid.CarveKeeps | maze/main.js:94 | carving keeps walls paired and keeps every existing route a route |
| MazeGrid.CarveReached | maze/main.js:94-95 | the new cell is reached by its parent's route extended by one step, and every other visited cell keeps its route |
| MazeGrid.TreeStart | maze/main.js:84-87 | a closed board with only the root marked is a one-cell tree |
| MazeGrid.ClosedCoversBoard | maze/main.js:119-129 | once no visited cell has an unvisited neighbour, every cell of the board is visited |
| MazeGrid.CarveCount | maze/main.js:94-95 | one carve into an unvisited cell adds exactly two open bits (one passage) and marks exactly one new cell |
| MazeGrid.CarveTree | maze/main.js:94-95 | the tree invariant survives a carve into an unvisited neighbour. The invariant: a route from the root to every visited cell, no opening on an unvisited cell, and open bits = 2·(visited − 1) |
| MazeGrid.TreeComplete | maze/main.js:119-129 | a tree whose visited cells have no unvisited neighbour covers the board: every cell is visited and the passages form a spanning tree |
| MazeGrid.RouteReversed | maze/main.js:150-151 | a route from a to b read backwards is a route from b to a, as the solver's reversed predecessor chain is |
| MazeGrid.RouteJoin | maze/main.js:148-151 | a route from a to b followed by a route from b to c is a route from a to c |
| MazeGrid.RouteStaysInside | maze/main.js:153-158 | a route from inside a set closed under open passages ends inside it; the solver uses this to show no route exists when it runs out of cells |
| Maze.Clamp | maze/main.js:245-246 | the side length lies in [5, 200]: unchanged inside, 5 below, 200 above |
| Maze.UnvisitedMembers | maze/main.js:91 | the filter keeps exactly the neighbours not yet visited |
| Maze.PendingMembers | maze/main.js:104-108 | every pushed frontier entry leaves the given cell toward a listed, unvisited neighbour, and every unvisited neighbour gets an entry |
| Maze.UnvisitedEdges | maze/main.js:104-108 | the loop computes exactly the entries `Pending` describes |
| Maze.Remove | maze/main.js:112 | `splice(i, 1)` shortens the frontier by one and drops nothing but entry i |
| Maze.NoneUnvisited | maze/main.js:91-92 | an empty filter means the top has no unvisited neighbour, so popping it is right |
| Maze.StackDone | maze/main.js:89 | an empty complete stack means no visited cell has an unvisited neighbour |
| Maze.FrontierStart | maze/main.js:101-102 | the root's entries alone form a complete frontier when only the root is visited |
| Maze.FrontierDrop | maze/main.js:112-113 | dropping an entry whose target is visited keeps the frontier sound (entries leave visited cells) and covering (every visited-to-unvisited passage is on offer) |
| Maze.FrontierGrow | maze/main.js:112-115 | visiting the entry's target and pushing its entries keeps the frontier sound and covering |
| Maze.GrowSound | maze/main.js:112-115 | after visiting an entry's target and pushing its entries, every entry still leaves a visited cell toward a neighbour |
| Maze.GrowCovers | maze/main.js:112-115 | after that step, every passage from a visited cell to an unvisited neighbour is still on offer |
| Maze.FrontierDone | maze/main.js:110 | an empty complete frontier means no visited cell has an unvisited neighbour |
| Maze.SpanningSolvable | maze/main.js:142-161 | a spanning tree has a route from (0,0) to the exit |
| Maze.Rebuild | maze/main.js:148-151 | following the predecessor map back from the exit and reversing gives a route from the start to the exit, one cell longer than the exit's breadth-first distance |
| Maze.ExpandCell | maze/main.js:153-158 | expanding a cell marks and queues exactly the unseen in-bounds cells behind its open sides |
| Maze.ClosedGrows | maze/main.js:153-158 | once a cell is expanded, each of its open sides leads off the board or to a seen cell at most one step farther from the start |
| Maze.Advance | maze/main.js:152-159 | one dequeue-and-expand keeps the breadth-first invariant and makes progress. The invariant covers the queue, the seen set, predecessor links one step apart, and distances non-decreasing along the queue within one of its head |
| Maze.LayeredAfterExpand | maze/main.js:147-158 | `shift` of the head and `push` of its new neighbours keep the queue in breadth-first order |
| Maze.HeadNearest | maze/main.js:147-148 | when the exit reaches the head of the queue, no route from the start reaches it in fewer steps than its distance |
| Maze.SolvePath | maze/main.js:142-161 | a path returned is a route from (0,0) to (cols-1, rows-1) through open sides, and no such route has fewer cells. No path means no such route exists |
| Maze.DeadEnds | maze/main.js:133-140 | the count equals the number of cells with exactly one open side, and is at most cols·rows |
| MazeGen.PrimRoot | maze/main.js:101 | Prim's start cell is on the board |
| MazeGen.BacktrackStartOk | maze/main.js:84-87 | on a fresh board the backtracker starts with a one-cell tree and a complete stack, with at most 4·cols·rows work left |
| MazeGen.PrimStartOk | maze/main.js:99-103 | on a fresh board Prim starts with a one-cell tree and a complete frontier, with at most 4·cols·rows work left |
| MazeGen.BacktrackCases | maze/main.js:88-97 | a step pops the top and changes nothing else exactly when the top is stuck. Otherwise it opens one passage to an unvisited neighbour (two open bits), marks that one cell and pushes it |
| MazeGen.BacktrackFits | maze/main.js:88-97 | a step keeps the board well formed, leaves the frontier alone and keeps every existing route open |
| MazeGen.BacktrackKeeps | maze/main.js:88-97 | a step keeps the tree and the stack complete, and lowers the work left |
| MazeGen.PrimCases | maze/main.js:109-117 | a step removes the drawn entry. If its target is visited nothing else changes. Otherwise it opens that one passage, marks the target and pushes the target's entries |
| MazeGen.PrimFits | maze/main.js:109-117 | a step keeps the board well formed, leaves the stack alone and keeps every existing route open |
| MazeGen.PrimKeeps | maze/main.js:109-117 | a step keeps the tree and the frontier complete, and lowers the work left |
| MazeGen.BacktrackDone | maze/main.js:89 | an empty stack means every cell is visited and the passages form a spanning tree |
| MazeGen.PrimDone | maze/main.js:110 | an empty frontier means every cell is visited and the passages form a spanning tree |
| MazeGen.ClearMarks | maze/main.js:131 | every visited mark is cleared |
| MazeEngine.Engine.constructor | maze/main.js:280-282 | the page starts with a complete 20×20 backtracker maze and no path shown |
| MazeEngine.Engine.ResetGrid | maze/main.js:60-70 | the board is c×r with every wall closed and nothing visited, and the run is reset |
| MazeEngine.Engine.ResetVisited | maze/main.js:131 | clears the visited marks and nothing else |
| MazeEngine.Engine.InitBacktracker | maze/main.js:84-87 | the state becomes the backtracker's start; on a fresh board the generation invariant holds |
| MazeEngine.Engine.StepBacktracker | maze/main.js:88-97 | reports done iff the stack was empty, and then changes nothing. Otherwise the state becomes `BacktrackStep` of the old state, the invariant is kept and the work left drops |
| MazeEngine.Engine.InitPrim | maze/main.js:99-103 | the state becomes Prim's start; on a fresh board the generation invariant holds |
| MazeEngine.Engine.PushFrontier | maze/main.js:104-108 | appends exactly the cell's entries to unvisited neighbours and changes nothing else |
| MazeEngine.Engine.StepPrim | maze/main.js:109-117 | reports done iff the frontier was empty, and then changes nothing. Otherwise the state becomes `PrimStep` of the old state, the invariant is kept and the work left drops |
| MazeEngine.Engine.StepCurrent | maze/main.js:227 | a step of the current algorithm; when it reports done the maze is a spanning tree with every cell visited |
| MazeEngine.Engine.GenerateInstant | maze/main.js:119-129 | from a closed board within the guard, generation runs to a complete spanning tree. The dead-end count is recorded, the path is cleared and the run reset |
| MazeEngine.Engine.RunGenerator | maze/main.js:122-126 | the guarded loop ends with a complete maze whenever the guard exceeds the work left |
| MazeEngine.Engine.Tick | maze/main.js:224-231 | an animation frame changes nothing unless generation is running. A frame that ends generation leaves a complete maze with its dead-end count recorded |
| MazeEngine.Engine.RunSteps | maze/main.js:226-229 | up to `steps` steps keep the invariant, and stopping means the maze is complete |
| MazeEngine.Engine.FinalizeStats | maze/main.js:163-166 | records the dead-end count and clears the path |
| MazeEngine.Engine.DoGenerate | maze/main.js:244-255 | the board takes the clamped size. An animated start leaves generation running with its invariant; otherwise the maze is complete |
| MazeEngine.Engine.StartAnimated | maze/main.js:247-249 | the chosen generator is started and set running with its invariant |
| MazeEngine.Engine.DoSolve | maze/main.js:257-261 | stores the solver's answer: a shortest route from (0,0) to the exit, or none exactly when no route exists. On a complete maze there is always one; nothing else changes |
| MazeEngine.Engine.DoClear | maze/main.js:263 | clears the shown path and nothing else |
| MazeEngine.Engine.ResetRun | maze/main.js:286-291 | the run goes back to (0,0), not finished. It is active only when asked to start and no generation is running |
| MazeEngine.Engine.StartRun | maze/main.js:292-297 | refused while generating; otherwise an active run from (0,0) |
| MazeEngine.Engine.FinishRun | maze/main.js:298-301 | marks the run finished and inactive |
| MazeEngine.Engine.TryMove | maze/main.js:304-313 | the player moves one step exactly when the run is active, unfinished and not generating, and the side is open with the target on the board. The run finishes exactly when the new position is the exit |
| MazeEngine.Engine.OnKey | maze/main.js:315-324 | keys do nothing during generation. A movement key starts a run that is neither active nor finished, then tries the move |
| Tetris.FitsAtIff | tetris/main.js:144-160 | a matrix fits iff every covered cell is free: column in [0, COLS), row < ROWS, and row < 0 or empty |
| Tetris.Scan | tetris/main.js:153-160 | the loop over the 16 matrix entries answers exactly `FitsAt` |
| Tetris.PlaceableIff | tetris/main.js:153-160 | `canPlace` is true iff every cell the piece covers is free. Cells above the top are free |
| Tetris.CanPlace | tetris/main.js:153-160 | the method answers exactly `Placeable` |
| Tetris.NextRot | tetris/main.js:173 | the new rotation `(rot + delta + 4) % 4` lies in 0..3 |
| Tetris.FirstFitIsFirst | tetris/main.js:176-182 | the search returns the first true entry, or the length when there is none |
| Tetris.FirstKickNone | tetris/main.js:170-183 | the rotation fails iff no kick in the list gives a placeable piece |
| Tetris.FirstKickSome | tetris/main.js:170-183 | a successful rotation uses the first placeable kick in the list order |
| Tetris.FindKick | tetris/main.js:176-182 | the loop finds exactly the kick `FirstKick` names |
| Tetris.LandedRests | tetris/main.js:185-189 | after dropping while it can, the piece is placeable and one more row down is not |
| Tetris.StampCells | tetris/main.js:198-203 | the loop writes exactly what `StampUpTo` describes |
| Tetris.StampedCells | tetris/main.js:198-203 | locking writes the piece's kind into the in-bounds cells it covers and leaves every other cell unchanged |
| Tetris.Kept | tetris/main.js:208-216 | the kept rows are rows of the well, none of them full |
| Tetris.KeptCount | tetris/main.js:208-216 | kept rows plus full rows make up the whole well |
| Tetris.ClearedShape | tetris/main.js:208-216 | after clearing, the well still has ROWS rows of COLS cells, none full |
| Tetris.EmptyRows | tetris/main.js:213 | new rows unshifted at the top are COLS wide and not full |
| Tetris.SweepRows | tetris/main.js:208-216 | the splice-and-unshift loop yields `Cleared(g)` and counts the full rows |
| Tetris.ShuffleBag | tetris/main.js:121-128 | the shuffled bag is a permutation of the seven kinds, each exactly once |
| Tetris.ShuffledPerm | tetris/main.js:123-126 | every prefix of swaps keeps the bag a permutation of the seven kinds |
| Tetris.NewBag | tetris/main.js:121-127 | the in-place Fisher-Yates loop yields `Shuffle(draws)` |
| Tetris.Refilled | tetris/main.js:131 | the queue after the refill check holds at least four kinds and extends the old queue |
| Tetris.ClearWell | tetris/main.js:115 | every row is emptied |
| Tetris.EmptyWell | tetris/main.js:115 | an empty well is ROWS×COLS with no full row |
| Tetris.FreshStart | tetris/main.js:112-119 | a new game does not refill again, and its first piece fits |
| Tetris.SpawnFits | tetris/main.js:130-142 | every kind fits at the spawn placement (3, 0, rotation 0) in an empty well |
| Tetris.Game.constructor | tetris/main.js:89-99 | idle: not running, empty well and queue, no piece, score 0, level 1 |
| Tetris.Game.NewGame | tetris/main.js:112-119 | running and unpaused, counters reset, empty well, the first shuffled kind spawned and the rest queued |
| Tetris.Game.Reset | tetris/main.js:113-116 | the state part of `newGame` before the spawn |
| Tetris.Game.RefillBag | tetris/main.js:121-128 | appends one shuffled bag to the queue and changes nothing else |
| Tetris.Game.SpawnNext | tetris/main.js:130-142 | the head of the refilled queue becomes the piece at (3, 0, rot 0); the game stops iff that placement is illegal |
| Tetris.Game.Move | tetris/main.js:162-168 | moves iff the game is live and the shifted piece is placeable, and reports it. Nothing else changes |
| Tetris.Game.Rotate | tetris/main.js:170-183 | in a live game, takes the first placeable kick of the new rotation, or leaves the piece unchanged if none fits |
| Tetris.Game.LockPiece | tetris/main.js:198-206 | stamps the piece, clears the full rows, adds the rows and `Points` to lines and score, and spawns the next piece |
| Tetris.Game.ClearLines | tetris/main.js:208-224 | removes every full row keeping the well ROWS×COLS. It adds `[0,100,300,500,800][n]·level` (or `n·200·level` past the table) to score and n to lines, with level = ⌊lines/10⌋+1 |
| Tetris.Game.SoftDrop | tetris/main.js:193-196 | in a live game: if the piece can move down, it moves one row, the score gains 1 and nothing else changes. Otherwise the piece is stamped and full rows are cleared. Lines and score gain the clearing, the next queued kind spawns from the refilled queue, the game runs on iff it fits, and paused is kept. Outside a live game nothing changes |
| Tetris.Game.Fall | tetris/main.js:187 | the `while (move(0,1))` loop moves the piece down by exactly the drop distance |
| Tetris.Game.HardDrop | tetris/main.js:185-191 | in a live game: the piece drops by its drop distance d and is stamped, and full rows are cleared. The score gains 2·d plus the clearing points and lines gain the cleared rows. The next queued kind spawns from the refilled queue, the game runs on iff it fits, and paused is kept. Outside a live game nothing changes |
| Tetris.Game.TogglePause | tetris/main.js:247-251 | a running game flips paused; otherwise nothing changes |
| Minesweeper.PresetOf | minesweeper/main.js:11-15 | each preset has room for its mines outside a 3×3 safe zone |
| Minesweeper.Around | minesweeper/main.js:83-89 | at most eight neighbours, each on the board and at Chebyshev distance 1 |
| Minesweeper.AroundIff | minesweeper/main.js:83-89 | a cell is visited iff it is on the board and adjacent, the cell itself excluded |
| Minesweeper.AroundSymmetric | minesweeper/main.js:83-89 | adjacency is symmetric |
| Minesweeper.CountAround | minesweeper/main.js:107 | the counting loop gives the number of neighbours with the property |
| Minesweeper.CountIn | minesweeper/main.js:107 | the count is at most the number of cells, and is 0 iff none of them has the property |
| Minesweeper.Drawn | minesweeper/main.js:97-98 | a drawn cell is on the board |
| Minesweeper.ScatterTry | minesweeper/main.js:96-102 | one draw places a mine iff it is outside the safe zone and holds none, so the placed count rises by at most one |
| Minesweeper.Scatter | minesweeper/main.js:91-102 | exactly `mines` mines are added, each on a cell outside the clicked cell's zone that held no mine |
| Minesweeper.Number | minesweeper/main.js:104-110 | every non-mine cell's number is its count of neighbouring mines; mines and other fields are untouched |
| Minesweeper.NumberCell | minesweeper/main.js:105-109 | numbering one cell advances the pass by exactly that cell |
| Minesweeper.NumberRowAt | minesweeper/main.js:104-110 | numbering one row advances the pass by exactly that row |
| Minesweeper.NumberMineSum | minesweeper/main.js:104-110 | numbering keeps the number of mines |
| Minesweeper.PlaceMines | minesweeper/main.js:91-111 | the mines are added and numbered; no mine lies on or next to the first click |
| Minesweeper.NoMineNextToZero | minesweeper/main.js:147-157 | a neighbour of a cell numbered 0 is never a mine, so the flood never uncovers one |
| MineReveal.UncoverCount | minesweeper/main.js:144 | uncovering a covered cell raises the revealed count by exactly one |
| MineReveal.RevealAt | minesweeper/main.js:140-161 | flagged, uncovered or off-board cells are left alone. Otherwise the count rises by exactly the cells uncovered, a mine is reported iff the cell was one, and the cell is uncovered (`Flooded`). Every other newly uncovered cell has a ranked link back to it through newly uncovered zeros. Around every newly uncovered zero nothing is left covered but flags, so the flood goes on only from zeros and stops only at numbers, flags and the edge |
| MineReveal.SpreadChain | minesweeper/main.js:147-157 | from every newly uncovered cell, a chain of newly uncovered zeros, each next to the next, leads back to a starting cell. So nothing is uncovered that the flood from the start cannot reach |
| MineReveal.FloodFrom | minesweeper/main.js:150-159 | one dequeue of the flood keeps its invariant: every queued cell is a newly uncovered zero, every unqueued one has its neighbours settled, the links stay ranked, and the count follows |
| MineReveal.FloodCell | minesweeper/main.js:154-157 | uncovering one covered, unflagged neighbour of the current zero links it to that zero one rank above and queues it iff it is a zero |
| MineReveal.FloodSafe | minesweeper/main.js:147-160 | on a numbered field the flood uncovers no mine other than the clicked cell |
| MineReveal.FloodSingle | minesweeper/main.js:144-146 | a covered, unflagged cell with a non-zero number is uncovered alone, with no flood |
| MineReveal.ChordTest | minesweeper/main.js:164-168 | a chord goes through iff the cell is uncovered with n > 0 and exactly n flagged neighbours |
| MineReveal.RevealAround | minesweeper/main.js:169 | reveals every covered, unflagged neighbour; it blows up iff one of them is a mine. Every newly uncovered cell is a neighbour or was reached from one through newly uncovered zeros, and around each of those zeros nothing is left covered but flags |
| MineReveal.RevealEach | minesweeper/main.js:169 | revealing each listed neighbour keeps the field numbered and counted, settles every listed cell, and blows up iff a mine was uncovered. Every newly uncovered cell is listed or was reached from a listed one through newly uncovered zeros, each with its neighbours settled |
| MineReveal.RootedJoin | minesweeper/main.js:169 | the links of the earlier reveals and those of the flood from the next neighbour join into links back to the neighbours so far |
| MineReveal.ChordAt | minesweeper/main.js:164-169 | nothing changes unless the chord goes through. One that goes through uncovers only neighbours and cells their floods reach through newly uncovered zeros, and leaves every neighbour and every such zero settled. A mine comes up iff an unflagged covered neighbour is one |
| MineWin.WinIff | minesweeper/main.js:180-181 | `revealed ≥ rows·cols − mines` iff every safe cell is uncovered (given no uncovered mine) |
| MineWin.AutoFlagTile | minesweeper/main.js:185-186 | only covered mines gain a flag; nothing else changes |
| MineWin.AutoFlagKeeps | minesweeper/main.js:184-187 | auto-flagging changes flags only, and never flags an uncovered cell |
| MineWin.Overcount | minesweeper/main.js:184-187 | the written counter exceeds the real flag count by exactly the covered mines already flagged |
| MineWin.WinFlags | minesweeper/main.js:184-187 | after auto-flagging, flags sit exactly on the mines |
| MineWin.AutoFlag | minesweeper/main.js:184-187 | auto-flags every covered mine and keeps the flag counter equal to the number of flags (the corrected count) |
| MineWin.AutoFlagAsWritten | minesweeper/main.js:184-187 | the loop as written adds one to the counter for every covered mine, flagged or not |
| MineWin.OvercountIff | minesweeper/main.js:184-187 | the written count is right iff no covered mine already carried a flag |
| MineWin.OvercountExample | minesweeper/main.js:179-187 | a 1×2 field with its only mine flagged and the other cell uncovered wins with the counter at 2 and one flag on the board |
| MineBoard.BlankField | minesweeper/main.js:58 | the new field has no mines, flags or uncovered cells, and every number is right |
| MineBoard.StartGame | minesweeper/main.js:52-58 | the preset's size and mine count, a blank field, zero counters, first click pending |
| MineBoard.MinesLeft | minesweeper/main.js:39 | `max(0, mines − flags)` |
| MineBoard.FlagToggled | minesweeper/main.js:130-138 | on a covered cell of a game still on, flips the flag and moves the counter by ±1; otherwise nothing changes |
| MineBoard.ToggleKeeps | minesweeper/main.js:134-136 | flipping a covered cell's flag changes flags only and moves the flag sum by ±1 |
| MineBoard.StableKeeps | minesweeper/main.js:140-161 | revealing keeps flags and mines, and keeps the field free of uncovered mines unless one blew up |
| MineBoard.PlacedKeeps | minesweeper/main.js:118 | mines placed on a fresh field give exactly `mines` mines, none uncovered, with flags and uncovered cells unchanged |
| MineBoard.CheckWinOn | minesweeper/main.js:179-191 | the state changes as `WinChecked`: enough uncovered cells in a live game end it and flag every covered mine, keeping everything else; otherwise nothing changes. A win leaves every cell uncovered or a mine, the flags exactly on the mines and mines-left at 0. `flags` becomes the number of flagged cells. That is the corrected count of the Findings row; the source's count is `MineWin.AutoFlagAsWritten` |
| MineBoard.RevealOn | minesweeper/main.js:140-161 | the state changes as `RevealStep`: cells are only uncovered (mines, flags and numbers kept), with `p` uncovered and every other newly uncovered cell reached from `p` through newly uncovered zeros (`Flooded`). The revealed count follows, a cell that does not open changes nothing, and the game stays on iff no mine was uncovered |
| MineBoard.FirstClickOn | minesweeper/main.js:118 | the state changes as `MinesPlaced`: all the mines go down, none on or next to the clicked cell, and nothing uncovered or flagged changes |
| MineBoard.PlayOn | minesweeper/main.js:117-120 | the state changes as `Played`. There are intermediate states: mines placed (first click only, `MinesPlaced`), then `p` revealed with its flood (`RevealStep`, so only cells reached from `p` through newly uncovered zeros come up), then the win check (`WinChecked`). The clicked cell ends up uncovered. A first click never loses; a later click loses iff the cell is a mine |
| MineBoard.PlayedFrom | minesweeper/main.js:117-120 | the three stages of a click that goes through give the click's outcome `Played` |
| MineBoard.ClickedCell | minesweeper/main.js:117-120 | after the stages, `p` is uncovered. A first click leaves no uncovered mine; after a later click an uncovered mine exists iff `p` is a mine |
| MineBoard.ClickOn | minesweeper/main.js:113-121 | a lost or won game restarts, a flagged cell ignores the click, and otherwise the state changes as `Played` (placement, the flood from `p` and nothing else, win check) |
| MineBoard.ChordOn | minesweeper/main.js:163-171 | a finished game, or a chord that does not go through, changes nothing. One that does is the chord's reveals (`ChordStep`) followed by the win check (`WinChecked`). Cells are only uncovered: the neighbours and the cells their floods reach through newly uncovered zeros. The count follows, every neighbour ends flagged or uncovered, and the game is lost iff an unflagged covered neighbour is a mine |
| MineBoard.ChordReveal | minesweeper/main.js:164-169 | the chord goes through iff `p` is uncovered with n > 0 and exactly n flagged neighbours. When it does, the reveals give the state `ChordStep` describes: only neighbours and their floods come up |
| MineBoard.ChordedFrom | minesweeper/main.js:163-171 | a chord's reveals followed by the win check give the chord's outcome `Chorded` |
| MineBoard.Board.constructor | minesweeper/main.js:52-58 | the page's state for the chosen difficulty |
| MineBoard.Board.NewGame | minesweeper/main.js:52-58 | the state becomes `StartGame(d)` |
| MineBoard.Board.ToggleFlag | minesweeper/main.js:130-138 | the state becomes `FlagToggled` of the old one |
| MineBoard.Board.Click | minesweeper/main.js:113-121 | the state changes as `Clicked` describes: restart, ignore, or placement, the flood from the clicked cell and the win check |
| MineBoard.Board.Chord | minesweeper/main.js:163-171 | the state changes as `Chorded` describes: nothing, or the chord's reveals (neighbours and their floods only) followed by the win check |
| Snake.Center | snake/main.js:73-76 | the centre cell (10, 10) is on the board, on the diagonal, in the middle |
| Snake.WrapCoord | snake/main.js:104-108 | a coordinate one step off the board wraps to the far edge; one on the board is kept |
| Snake.NextHead | snake/main.js:101-108 | the next head is always on the board |
| Snake.NextHeadTorus | snake/main.js:101-108 | for unit directions the wrap is addition modulo GRID |
| Snake.Target | snake/main.js:100-108 | the next head cell is on the board |
| Snake.Enqueued | snake/main.js:209-214 | `d` is queued iff it differs from, and is not the reverse of, the last queued direction (or the current one when the queue is empty) |
| Snake.EnqueueChained | snake/main.js:209-214 | the queue stays a chain of proper turns starting from the current direction |
| Snake.Turn | snake/main.js:95-99 | consumes at most one queued direction and never adopts the reverse of the current direction |
| Snake.TurnChained | snake/main.js:95-99 | on a chained queue the head direction is always taken, and the rest stays chained |
| Snake.FirstEmpty | snake/main.js:80-89 | the chosen cell is on the board, and off the snake unless it is the (0,0) fallback |
| Snake.Cell | snake/main.js:78-85 | a pair of draws picks a cell on the board |
| Snake.FirstEmptyIsFirst | snake/main.js:80-89 | the answer is the first draw that misses the snake, or (0,0) after 1000 hits |
| Snake.RandomEmptyCell | snake/main.js:80-89 | the retry loop returns `FirstEmpty` |
| Snake.Collides | snake/main.js:110-113 | the loop reports a hit iff the new head is a segment |
| Snake.StartedOk | snake/main.js:56-71 | a reset gives a length-2 snake at the centre heading +x. The queue is empty, the food is off the snake (or the fallback), and the game is running |
| Snake.Turned | snake/main.js:95-99 | taking the turn changes the direction and the queue only |
| Snake.StepCollides | snake/main.js:110-113 | a step into a segment ends the game and moves nothing |
| Snake.StepMoves | snake/main.js:115-131 | otherwise the head is prepended. The length grows by one iff growth was pending, and the body shifts by one |
| Snake.StepFeeds | snake/main.js:117-125 | eating adds 1 to the score, raises best if beaten, adds GROWTH to growth and moves the food off the snake, or to the (0,0) fallback |
| Snake.PrependDistinct | snake/main.js:115-130 | a new head off the snake keeps its segments distinct, with or without dropping the tail |
| Snake.AdvancedOk | snake/main.js:115-131 | a move to a free cell keeps the game well formed |
| Snake.StepOk | snake/main.js:93-132 | a step keeps the game well formed: on the board, no repeated segment, a chained queue, 0 ≤ score ≤ best |
| Snake.Game.constructor | snake/main.js:31-43 | the initial state with the stored best score |
| Snake.Game.ResetGame | snake/main.js:56-71 | the state becomes `Started` |
| Snake.Game.Enqueue | snake/main.js:209-214 | only the queue changes, as `Enqueued` says |
| Snake.Game.TogglePause | snake/main.js:235-241 | a running game flips paused; otherwise nothing changes |
| Snake.Game.EndGame | snake/main.js:134-139 | stops the game and marks it over |
| Snake.Game.Step | snake/main.js:93-132 | the state becomes `Moved` of the old one, and stays well formed |
| Snake.Game.TakeTurn | snake/main.js:95-99 | the state becomes `Turned` of the old one |
| Snake.Game.MoveTo | snake/main.js:115-131 | the state becomes `Advanced` of the old one |
| TicTacToe.LineWinner | tictactoe/main.js:73-76 | a mark is returned iff the three cells hold the same mark |
| TicTacToe.Other | tictactoe/main.js:92 | the turn passes to the other mark |
| TicTacToe.Blank | tictactoe/main.js:118 | n empty cells |
| TicTacToe.FirstLine | tictactoe/main.js:79-82 | the first winning line in WINS order |
| TicTacToe.GetWinner | tictactoe/main.js:78-85 | a win iff some line holds three equal marks, naming the first such line and its mark. A draw iff no line wins and all nine cells are filled; nothing otherwise |
| TicTacToe.Tally | tictactoe/main.js:100-104 | exactly one counter, the one for the outcome, rises by one |
| TicTacToe.CountUpdate | tictactoe/main.js:89 | writing a cell moves one count from its old content to the new one |
| TicTacToe.CountEmpty | tictactoe/main.js:118 | an empty board holds no marks |
| TicTacToe.Reset | tictactoe/main.js:117-124 | nine empty cells, `next` to move, not over, with scores and the CPU switch kept |
| TicTacToe.BlankOk | tictactoe/main.js:118 | the empty board is balanced for either side and undecided |
| TicTacToe.BlankUndecided | tictactoe/main.js:118 | the empty board has no winner and is no draw |
| TicTacToe.PlacedOk | tictactoe/main.js:88-92 | a legal move writes the mover's mark into cell i only. The game ends iff there is an outcome, scoring it; otherwise the turn passes |
| TicTacToe.EmptiesBelow | tictactoe/main.js:146 | the list holds exactly the empty cells |
| TicTacToe.EmptiesSorted | tictactoe/main.js:146 | in increasing order |
| TicTacToe.NoEmpties | tictactoe/main.js:146 | a full board has no empty cell |
| TicTacToe.Completions | tictactoe/main.js:148-154 | one answer per cell |
| TicTacToe.FirstMarked | tictactoe/main.js:148-154 | a cell returned is one of the empty cells |
| TicTacToe.LowestMarked | tictactoe/main.js:148-154 | when some empty cell completes a line, the search returns the lowest such cell |
| TicTacToe.NoneMarked | tictactoe/main.js:148-154 | when no empty cell completes a line, the search returns none |
| TicTacToe.FirstMarkedIsFirst | tictactoe/main.js:148-154 | the search over the empty cells returns the first that completes a line, or none |
| TicTacToe.FreeOf4 | tictactoe/main.js:158-160 | an empty cell from the four given, or none iff all four are taken |
| TicTacToe.CpuChoiceEmpty | tictactoe/main.js:143-162 | the CPU picks an empty cell, and picks nothing iff the board is full |
| TicTacToe.CpuWins | tictactoe/main.js:148-150 | if O can win, the CPU takes the lowest empty cell that wins |
| TicTacToe.CpuBlocks | tictactoe/main.js:151-154 | if O cannot win but X could, the CPU takes the lowest empty cell that blocks |
| TicTacToe.CpuPositional | tictactoe/main.js:155-160 | with no win or block, the CPU takes the centre, then the first free corner 0,2,6,8, then the first free side 1,3,5,7 |
| TicTacToe.CpuMovedOk | tictactoe/main.js:131-140 | in a game still going with O to move, the CPU's move is a legal move for O and keeps the game well formed |
| TicTacToe.Empties | tictactoe/main.js:145-146 | the loop lists the empty cells |
| TicTacToe.TryCell | tictactoe/main.js:149 | trying a mark in a cell restores the board and reports whether it wins for that mark |
| TicTacToe.TryEach | tictactoe/main.js:148-154 | the trial loop restores the board and returns the first completing empty cell |
| TicTacToe.FreeAmong | tictactoe/main.js:158 | the loop returns `FreeOf4` |
| TicTacToe.BestCpuMove | tictactoe/main.js:143-162 | leaves the board as it found it and returns `CpuChoice` |
| TicTacToe.Clear | tictactoe/main.js:118 | every cell is emptied |
| TicTacToe.Game.constructor | tictactoe/main.js:17-31 | empty board, X to move, CPU off, the saved scores |
| TicTacToe.Game.PlayerMove | tictactoe/main.js:87-95 | no effect if the game is over or the cell is taken; otherwise `Placed`. Reports when the CPU's turn is scheduled |
| TicTacToe.Game.CpuMove | tictactoe/main.js:131-140 | the state becomes `CpuMoved` and stays well formed |
| TicTacToe.Game.EndGame | tictactoe/main.js:97-115 | sets `over` and tallies the outcome |
| TicTacToe.Game.ResetBoard | tictactoe/main.js:117-124 | the state becomes `Reset(next)` |
| TicTacToe.Game.NewGame | tictactoe/main.js:170-173 | resets with X after a finished game, otherwise with the side not to move |
| TicTacToe.Game.ResetScores | tictactoe/main.js:174-178 | zeroes the three counters and changes nothing else |
| TicTacToe.Game.SetVsCpu | tictactoe/main.js:179-182 | sets the CPU switch; the CPU is scheduled iff it is on, O is to move and the game is going |

## Left out

- **Drawing and page updates.** Drawing, DOM updates, overlays, status and stat texts, and button labels are not modelled. They produce output only.
- **Timing.** Animation frames, timers and elapsed time are not modelled: the maze run timer, the minesweeper clock, the tetris gravity accumulator with `gravityIntervalMs` (floating-point `Math.pow`), and the snake frame accumulator (snake/main.js:193-207). The snake frame loop can call `step` again in the same frame after a game over, so `Snake.Game.Step` does not require a running game.
- **Storage.** `localStorage` is I/O and is not modelled. The stored snake best score and the saved tic-tac-toe scores are constructor parameters, and saving is left out. The tic-tac-toe scores loader merges arbitrary saved fields; the model takes three counters.
- **Randomness.** The `Math.random()` draws themselves are parameters. `(r * n) | 0` in snake equals `floor(r * n)` for these small ranges.
- **Snake.RandomEmptyCell requires 1000 draws:**
  - the same holds for Snake.Game.ResetGame, Snake.Game.Step and Snake.Game.MoveTo;
  - the source draws up to 1000 times, so the callers pass that many.
- **Minesweeper.Scatter requires enough hits:**
  - the same holds for Minesweeper.PlaceMines, MineBoard.ClickOn and MineBoard.Board.Click;
  - the draws must contain enough hits outside the safe zone to place every mine;
  - the source's retry loop runs until it has placed them all, so a draw sequence that never finishes is not modelled.
- **Tetris.Game.Rotate requires `-4 <= delta`.** JavaScript's `%` keeps the sign of `(rot + delta + 4)`, which is negative below that bound. The key handlers only pass ±1.
- **TicTacToe.Game.CpuMove requires a game still going with O to move.** The 120 ms timer of `maybeCpuMove` fires without checking again, so interleavings where the player moves or starts a new game during the delay are not modelled.
- **Maze input.** Parsing the width and height inputs (`Number(value | 0)`) is not modelled; `Maze.Clamp` starts from the integer.
- **Keys used as data.** These are modelled as plain collections:
  - the solver's `seen` grid and the string-keyed `prev` map are a set and a map of cells;
  - the snake's string-keyed `occupied` set is membership in the snake's sequence.
- **The flood fill's `seen` set.** A cell is queued only at the moment it is uncovered, so the uncovered flag already keeps it from being queued twice.
- MineBoard.CheckWinOn: sets `flags` to the number of flagged cells, the corrected count of the Findings row. The source's counter, which also counts mines flagged before the win, is `MineWin.AutoFlagAsWritten`. MineBoard.ClickOn, MineBoard.ChordOn and the Board class inherit this.
- **Other wiring.** Keyboard, mouse and touch wiring is out, except the maze keydown handler (`MazeEngine.Engine.OnKey`), which is state logic. The maze download button and the tetris canvas click handler are out too.

## Findings

| source | as written | input that shows it | evidently intended | confidence | as-written member | corrected member |
|---|---|---|---|---|---|---|
| minesweeper/main.js:184-187 | on a win, `S.flags++` runs for every covered mine, including mines the player had already flagged | a 1×2 field: one mine, flagged, and the other cell uncovered. The win check raises `S.flags` from 1 to 2, with one flag on the board | `S.flags` counts the flagged cells, as `toggleFlag` keeps it; only newly flagged mines should add to it. MineBoard.CheckWinOn, and through it ClickOn, ChordOn and the Board class, runs the corrected count | medium (the mines-left display clamps at 0, which hides it); not executed | MineWin.AutoFlagAsWritten, MineWin.OvercountExample | MineWin.AutoFlag |
