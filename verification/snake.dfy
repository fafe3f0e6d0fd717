/**
 * Snake on a 21 by 21 torus (snake/main.js). The head is `snake[0]`. A step
 * applies at most one queued turn, wraps the next head around the walls, ends
 * the game when the head would land on the body, and otherwise prepends the
 * head and drops the tail unless growth is pending.
 */
module Snake {
  import opened Draws

  const GRID := 21
  const GROWTH := 1
  /** `randomEmptyCell()` gives up after this many draws. */
  const TRIES := 1000

  /** A cell or a direction, `{x, y}`; `same(a, b)` is equality of these values. */
  datatype Vec = Vec(x: int, y: int)

  predicate InGrid(p: Vec)
  {
    0 <= p.x < GRID && 0 <= p.y < GRID
  }

  /** `center()`: the middle cell. */
  function Center(): (c: Vec)
    ensures InGrid(c) && c.x == c.y && 2 * c.x + 1 == GRID
  {
    Vec(GRID / 2, GRID / 2)
  }

  /** `d` is the exact reverse of `e` (a 180-degree turn). */
  predicate Opposite(d: Vec, e: Vec)
  {
    d.x == -e.x && d.y == -e.y
  }

  /** One of the four directions the keys produce. */
  predicate Unit(d: Vec)
  {
    (d.x == 0 && (d.y == 1 || d.y == -1)) || (d.y == 0 && (d.x == 1 || d.x == -1))
  }

  /** The two `if`s that wrap one coordinate of the next head. */
  function WrapCoord(v: int): (w: int)
    ensures 0 <= w < GRID
    ensures 0 <= v < GRID ==> w == v
    ensures v < 0 ==> w == GRID - 1
    ensures GRID <= v ==> w == 0
  {
    if v < 0 then GRID - 1 else if v >= GRID then 0 else v
  }

  /** The next head: one cell from `head` along `d`, wrapped around the walls. */
  function NextHead(head: Vec, d: Vec): (h: Vec)
    ensures InGrid(h)
  {
    Vec(WrapCoord(head.x + d.x), WrapCoord(head.y + d.y))
  }

  /** From a cell of the grid, a unit move wraps exactly as arithmetic modulo `GRID`: the board is a torus. */
  lemma NextHeadTorus(head: Vec, d: Vec)
    requires InGrid(head) && Unit(d)
    ensures NextHead(head, d) == Vec((head.x + d.x) % GRID, (head.y + d.y) % GRID)
  {
  }

  /** A turn the queue may hold after `prev`: a different direction that does not reverse it. */
  predicate Turns(prev: Vec, d: Vec)
  {
    d != prev && !Opposite(d, prev)
  }

  /** The direction a new key press is compared against: the last queued one, or `dir`. */
  function Last(dir: Vec, queue: seq<Vec>): Vec
  {
    if queue == [] then dir else queue[|queue| - 1]
  }

  /** `enqueueDirection(d)`: the queue after a key press. */
  function Enqueued(dir: Vec, queue: seq<Vec>, d: Vec): (q: seq<Vec>)
    ensures q == queue + [d] <==> Turns(Last(dir, queue), d)
    ensures q == queue || q == queue + [d]
  {
    var last := Last(dir, queue);
    if d == last then queue
    else if Opposite(d, last) then queue
    else queue + [d]
  }

  /** Each queued direction is a turn after the one before it (`dir` for the first). */
  ghost predicate Chained(dir: Vec, queue: seq<Vec>)
  {
    && (queue != [] ==> Turns(dir, queue[0]))
    && (forall i :: 0 < i < |queue| ==> Turns(queue[i - 1], queue[i]))
  }

  /** Key presses keep the queue chained. */
  lemma EnqueueChained(dir: Vec, queue: seq<Vec>, d: Vec)
    requires Chained(dir, queue)
    ensures Chained(dir, Enqueued(dir, queue, d))
  {
    var q := Enqueued(dir, queue, d);
    if q != queue {
      forall i | 0 < i < |q|
        ensures Turns(q[i - 1], q[i])
      {
        if i < |queue| {
          assert q[i] == queue[i] && q[i - 1] == queue[i - 1];
        }
      }
    }
  }

  /** The start of `step()`: the direction and queue after taking at most one queued turn. */
  function Turn(dir: Vec, queue: seq<Vec>): (r: (Vec, seq<Vec>))
    ensures queue == [] ==> r == (dir, queue)
    ensures queue != [] ==> r.1 == queue[1..]
    ensures r.0 == dir || (queue != [] && r.0 == queue[0])
    ensures r.0 != dir ==> !Opposite(r.0, dir)
    ensures queue != [] && !Opposite(queue[0], dir) ==> r.0 == queue[0]
  {
    if queue == [] then (dir, queue)
    else if Opposite(queue[0], dir) then (dir, queue[1..])
    else (queue[0], queue[1..])
  }

  /** On a chained queue the reversal check never fires: the first queued turn is always taken, and the rest stays chained. */
  lemma TurnChained(dir: Vec, queue: seq<Vec>)
    requires Chained(dir, queue)
    ensures queue != [] ==> Turn(dir, queue).0 == queue[0]
    ensures Chained(Turn(dir, queue).0, Turn(dir, queue).1)
  {
    if queue != [] {
      var q := queue[1..];
      forall i | 0 < i < |q|
        ensures Turns(q[i - 1], q[i])
      {
        assert q[i] == queue[i + 1] && q[i - 1] == queue[i];
      }
      if q != [] {
        assert q[0] == queue[1];
      }
    }
  }

  predicate Units(ts: seq<(real, real)>)
  {
    forall i :: 0 <= i < |ts| ==> IsUnit(ts[i].0) && IsUnit(ts[i].1)
  }

  /** `{ x: randomInt(GRID), y: randomInt(GRID) }` for one pair of draws. */
  function Cell(t: (real, real)): (p: Vec)
    requires IsUnit(t.0) && IsUnit(t.1)
    ensures InGrid(p)
  {
    Vec(Pick(t.0, GRID), Pick(t.1, GRID))
  }

  /** `randomEmptyCell()` from try `k` on: the first drawn cell off `body`, or (0, 0) once all `TRIES` draws hit it. */
  function FirstEmpty(body: seq<Vec>, ts: seq<(real, real)>, k: nat): (p: Vec)
    requires k <= TRIES <= |ts| && Units(ts)
    ensures InGrid(p)
    ensures p == Vec(0, 0) || p !in body
    decreases TRIES - k
  {
    if k == TRIES then Vec(0, 0)
    else if Cell(ts[k]) !in body then Cell(ts[k])
    else FirstEmpty(body, ts, k + 1)
  }

  /** The cell chosen is the first draw `j` off the body; every earlier draw hit the body; with no such draw it is (0, 0). */
  lemma {:induction false} FirstEmptyIsFirst(body: seq<Vec>, ts: seq<(real, real)>, k: nat) returns (j: nat)
    requires k <= TRIES <= |ts| && Units(ts)
    ensures k <= j <= TRIES
    ensures forall m :: k <= m < j ==> Cell(ts[m]) in body
    ensures j < TRIES ==> FirstEmpty(body, ts, k) == Cell(ts[j]) && Cell(ts[j]) !in body
    ensures j == TRIES ==> FirstEmpty(body, ts, k) == Vec(0, 0)
    decreases TRIES - k
  {
    if k == TRIES {
      j := k;
    } else if Cell(ts[k]) !in body {
      j := k;
    } else {
      j := FirstEmptyIsFirst(body, ts, k + 1);
    }
  }

  /** `randomEmptyCell()`: the retry loop over the draws `ts`. */
  method RandomEmptyCell(body: seq<Vec>, ts: seq<(real, real)>) returns (p: Vec)
    requires TRIES <= |ts| && Units(ts)
    ensures p == FirstEmpty(body, ts, 0)
  {
    var tries := 0;
    while tries < TRIES
      invariant 0 <= tries <= TRIES
      invariant FirstEmpty(body, ts, tries) == FirstEmpty(body, ts, 0)
    {
      var c := Cell(ts[tries]);
      if c !in body {
        return c;
      }
      tries := tries + 1;
    }
    return Vec(0, 0);
  }

  /** The self-collision loop of `step()`. */
  method Collides(snake: seq<Vec>, h: Vec) returns (hit: bool)
    ensures hit <==> h in snake
  {
    for i := 0 to |snake|
      invariant h !in snake[..i]
    {
      if snake[i] == h {
        return true;
      }
    }
    assert snake[..|snake|] == snake;
    return false;
  }

  predicate Distinct(s: seq<Vec>)
  {
    forall i, j :: 0 <= i < j < |s| ==> s[i] != s[j]
  }

  /** The game state, one field per module-level variable of snake/main.js. */
  datatype Snap = Snap(snake: seq<Vec>, growth: int, dir: Vec, queue: seq<Vec>, food: Vec,
                       score: int, best: int, running: bool, paused: bool, gameOver: bool)

  /** A game in play: a body of at least two distinct cells on the grid, food on the grid, a chained queue. */
  ghost predicate Ok(s: Snap)
  {
    && |s.snake| >= 2
    && (forall i :: 0 <= i < |s.snake| ==> InGrid(s.snake[i]))
    && Distinct(s.snake)
    && InGrid(s.food)
    && 0 <= s.growth
    && 0 <= s.score <= s.best
    && Chained(s.dir, s.queue)
  }

  /** `resetGame()`, with `best` as it stands and `ts` the draws for the food. */
  function Started(best: int, ts: seq<(real, real)>): (s: Snap)
    requires TRIES <= |ts| && Units(ts)
  {
    var body := [Center(), Vec(Center().x - 1, Center().y)];
    Snap(body, 0, Vec(1, 0), [], FirstEmpty(body, ts, 0), 0, best, true, false, false)
  }

  /** A new game: two cells from the centre leftwards, heading +x, nothing queued, food off the snake (or at (0, 0)), score 0. */
  lemma StartedOk(best: int, ts: seq<(real, real)>)
    requires TRIES <= |ts| && Units(ts) && 0 <= best
    ensures var s := Started(best, ts);
      && Ok(s) && |s.snake| == 2 && s.snake[0] == Center()
      && s.snake[1] == Vec(Center().x - 1, Center().y)
      && s.dir == Vec(1, 0) && s.queue == [] && s.growth == 0 && s.score == 0
      && (s.food == Vec(0, 0) || s.food !in s.snake)
      && s.running && !s.paused && !s.gameOver
  {
  }

  /** The first part of `step()`: at most one queued turn taken. */
  function Turned(s: Snap): (t: Snap)
    ensures t == s.(dir := t.dir, queue := t.queue)
  {
    var (d, q) := Turn(s.dir, s.queue);
    s.(dir := d, queue := q)
  }

  /** The cell the head moves to in state `s`. */
  function Target(s: Snap): (h: Vec)
    requires s.snake != []
    ensures InGrid(h)
  {
    NextHead(s.snake[0], Turned(s).dir)
  }

  /** The growth pending once the move of `s` has eaten, or not, before the tail is considered. */
  function Pending(s: Snap): int
    requires s.snake != []
  {
    if Target(s) == s.food then s.growth + GROWTH else s.growth
  }

  /** The rest of `step()` once `h` is known to be off the body: prepend, eat, drop the tail. */
  function Advanced(s: Snap, h: Vec, ts: seq<(real, real)>): Snap
    requires TRIES <= |ts| && Units(ts)
  {
    var body := [h] + s.snake;
    var fed := if h == s.food then
        s.(score := s.score + 1, best := if s.best < s.score + 1 then s.score + 1 else s.best,
           growth := s.growth + GROWTH, food := FirstEmpty(body, ts, 0))
      else s;
    if fed.growth > 0 then fed.(snake := body, growth := fed.growth - 1)
    else fed.(snake := body[..|s.snake|])
  }

  /** `step()` on state `s`, with `ts` the draws for new food. */
  function Moved(s: Snap, ts: seq<(real, real)>): Snap
    requires s.snake != [] && TRIES <= |ts| && Units(ts)
  {
    var t := Turned(s);
    var h := Target(s);
    if h in s.snake then t.(running := false, gameOver := true)
    else Advanced(t, h, ts)
  }

  /** A collision ends the game and leaves the snake, score, growth and food as they were. */
  lemma StepCollides(s: Snap, ts: seq<(real, real)>)
    requires s.snake != [] && TRIES <= |ts| && Units(ts) && Target(s) in s.snake
    ensures var t := Moved(s, ts);
      && t.snake == s.snake && !t.running && t.gameOver
      && t.score == s.score && t.growth == s.growth && t.food == s.food && t.best == s.best
  {
  }

  /**
   * Without a collision the head is prepended and the rest is the old body, whole
   * when growth was pending and less its tail otherwise; the pending growth drops by one.
   */
  lemma StepMoves(s: Snap, ts: seq<(real, real)>)
    requires s.snake != [] && TRIES <= |ts| && Units(ts) && Target(s) !in s.snake
    ensures var t := Moved(s, ts);
      && t.snake[0] == Target(s)
      && |t.snake| == |s.snake| + (if Pending(s) > 0 then 1 else 0)
      && t.snake[1..] == s.snake[..|t.snake| - 1]
      && t.growth == (if Pending(s) > 0 then Pending(s) - 1 else Pending(s))
      && t.running == s.running && t.gameOver == s.gameOver
  {
    var t := Moved(s, ts);
    var body := [Target(s)] + s.snake;
    assert t.snake == body || t.snake == body[..|s.snake|];
    assert body[1..] == s.snake;
  }

  /** Without a collision, eating adds one to the score and `GROWTH` to the growth, lifts `best`, and puts new food off the snake or at (0, 0); otherwise score and food stay. */
  lemma StepFeeds(s: Snap, ts: seq<(real, real)>)
    requires s.snake != [] && TRIES <= |ts| && Units(ts) && Target(s) !in s.snake
    ensures var t := Moved(s, ts);
      && t.score == s.score + (if Target(s) == s.food then 1 else 0)
      && t.best == (if Target(s) == s.food && s.best < t.score then t.score else s.best)
      && Pending(s) == s.growth + (if Target(s) == s.food then GROWTH else 0)
      && (Target(s) == s.food ==> t.food == Vec(0, 0) || t.food !in t.snake)
      && (Target(s) != s.food ==> t.food == s.food)
  {
    var t := Moved(s, ts);
    var body := [Target(s)] + s.snake;
    if Target(s) == s.food && t.food != Vec(0, 0) {
      assert t.food !in body;
      assert t.snake == body || t.snake == body[..|s.snake|];
      assert forall c :: c in body[..|s.snake|] ==> c in body;
    }
  }

  lemma PrependDistinct(h: Vec, s: seq<Vec>)
    requires Distinct(s) && h !in s
    ensures Distinct([h] + s) && Distinct(([h] + s)[..|s|])
  {
    var b := [h] + s;
    forall i, j | 0 <= i < j < |b|
      ensures b[i] != b[j]
    {
      if i == 0 {
        assert b[j] == s[j - 1];
      } else {
        assert b[i] == s[i - 1] && b[j] == s[j - 1];
      }
    }
  }

  /** Moving to a cell of the grid off the body keeps the game well formed. */
  lemma {:induction false} AdvancedOk(s: Snap, h: Vec, ts: seq<(real, real)>)
    requires Ok(s) && InGrid(h) && h !in s.snake && TRIES <= |ts| && Units(ts)
    ensures Ok(Advanced(s, h, ts))
  {
    var t := Advanced(s, h, ts);
    var body := [h] + s.snake;
    PrependDistinct(h, s.snake);
    assert t.snake == body || t.snake == body[..|s.snake|];
    forall i | 0 <= i < |t.snake|
      ensures InGrid(t.snake[i])
    {
      assert t.snake[i] == body[i];
      assert i > 0 ==> body[i] == s.snake[i - 1];
    }
  }

  /** `step()` keeps a game in play well formed: in particular the body never overlaps itself. */
  lemma {:induction false} StepOk(s: Snap, ts: seq<(real, real)>)
    requires Ok(s) && TRIES <= |ts| && Units(ts)
    ensures Ok(Moved(s, ts))
  {
    TurnChained(s.dir, s.queue);
    assert Ok(Turned(s));
    if Target(s) !in s.snake {
      AdvancedOk(Turned(s), Target(s), ts);
    }
  }

  /** The page's game. */
  class Game {
    var snake: seq<Vec>
    var growth: int
    var dir: Vec
    var queue: seq<Vec>
    var food: Vec
    var score: int
    var best: int
    var running: bool
    var paused: bool
    var gameOver: bool

    /** All the fields, as one value. */
    function State(): Snap
      reads this
    {
      Snap(snake, growth, dir, queue, food, score, best, running, paused, gameOver)
    }

    ghost predicate Valid()
      reads this
    {
      Ok(State())
    }

    /** The page before the first game: no body yet, heading +x, food at (10, 10), `best` as stored. */
    constructor (stored: nat)
      ensures State() == Snap([], 0, Vec(1, 0), [], Vec(10, 10), 0, stored, false, false, false)
    {
      snake, growth, dir, queue, food := [], 0, Vec(1, 0), [], Vec(10, 10);
      score, best, running, paused, gameOver := 0, stored, false, false, false;
    }

    /** `resetGame()`, with `ts` the draws `randomEmptyCell()` uses for the food. */
    method ResetGame(ts: seq<(real, real)>)
      requires 0 <= best && TRIES <= |ts| && Units(ts)
      modifies this
      ensures State() == Started(old(best), ts) && Valid()
    {
      score := 0;
      snake := [Center(), Vec(Center().x - 1, Center().y)];
      growth := 0;
      dir := Vec(1, 0);
      queue := [];
      food := RandomEmptyCell(snake, ts);
      running, paused, gameOver := true, false, false;
      StartedOk(best, ts);
    }

    /** `enqueueDirection(d)`. */
    method Enqueue(d: Vec)
      modifies this
      ensures State() == old(State()).(queue := Enqueued(old(dir), old(queue), d))
      ensures old(Valid()) ==> Valid()
    {
      var last := if |queue| > 0 then queue[|queue| - 1] else dir;
      if d == last {
        return;
      }
      if Opposite(d, last) {
        return;
      }
      if Chained(dir, queue) {
        EnqueueChained(dir, queue, d);
      }
      queue := queue + [d];
    }

    /** `togglePause()`: only a running game pauses or resumes. */
    method TogglePause()
      modifies this
      ensures State() == old(State()).(paused := if old(running) then !old(paused) else old(paused))
      ensures old(Valid()) ==> Valid()
    {
      if !running {
        return;
      }
      paused := !paused;
    }

    /** `endGame()`. */
    method EndGame()
      modifies this
      ensures State() == old(State()).(running := false, gameOver := true)
    {
      running := false;
      gameOver := true;
    }

    /** `step()`, with `ts` the draws for the food it may place. */
    method Step(ts: seq<(real, real)>)
      requires Valid() && TRIES <= |ts| && Units(ts)
      modifies this
      ensures State() == Moved(old(State()), ts) && Valid()
    {
      TakeTurn();
      var h := NextHead(snake[0], dir);
      var hit := Collides(snake, h);
      if hit {
        EndGame();
      } else {
        MoveTo(h, ts);
      }
      StepOk(old(State()), ts);
    }

    /** The queue handling at the start of `step()`. */
    method TakeTurn()
      modifies this
      ensures State() == Turned(old(State()))
    {
      if |queue| > 0 {
        var next := queue[0];
        queue := queue[1..];
        if !Opposite(next, dir) {
          dir := next;
        }
      }
    }

    /** The move of `step()` once the head `h` is known to be off the body. */
    method MoveTo(h: Vec, ts: seq<(real, real)>)
      requires TRIES <= |ts| && Units(ts)
      modifies this
      ensures State() == Advanced(old(State()), h, ts)
    {
      var n := |snake|;
      snake := [h] + snake;
      if h == food {
        score := score + 1;
        best := if best < score then score else best;
        growth := growth + GROWTH;
        food := RandomEmptyCell(snake, ts);
      }
      if growth > 0 {
        growth := growth - 1;
      } else {
        snake := snake[..n];
      }
    }
  }
}
