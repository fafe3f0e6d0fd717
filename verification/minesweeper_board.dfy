/**
 * The minesweeper page's state object `S` (minesweeper/main.js) and the
 * handlers that change it: a new game, a click, a flag toggle, a chord and
 * the win check. Timers and drawing are left to the page.
 */
module MineBoard {
  import opened Grids
  import opened Minesweeper
  import opened MineReveal
  import opened MineWin

  /** A new game's field: every cell blank, numbered (no mine anywhere), with no flag and nothing uncovered. */
  lemma BlankField(rows: nat, cols: nat)
    ensures var g: Field := Filled(rows, cols, BLANK);
      Numbered(g, rows, cols) && Exclusive(g, rows, cols) &&
      Intact(g, rows, cols) && FlagSum(g) == 0 && RevSum(g) == 0 && MineSum(g) == 0
  {
    var g: Field := Filled(rows, cols, BLANK);
    BlankNumbered(rows, cols);
    GridSumZero(g, FlagW);
    GridSumZero(g, RevW);
    GridSumZero(g, MineW);
  }

  /** With no mine anywhere, every cell's zero is its count. */
  lemma BlankNumbered(rows: nat, cols: nat)
    ensures Numbered(Filled(rows, cols, BLANK), rows, cols)
  {
    var g: Field := Filled(rows, cols, BLANK);
    forall q | InBounds(rows, cols, q)
      ensures At(g, q).n == MinesAround(g, rows, cols, q)
    {
      var ns := Around(rows, cols, q);
      forall i | 0 <= i < |ns|
        ensures !IsMine(At(g, ns[i]))
      {
        assert InBounds(rows, cols, ns[i]);
      }
    }
  }

  /** Flipping the flag of a covered cell: only that flag changes, and the flag count moves by one. */
  lemma ToggleKeeps(g: Field, rows: int, cols: int, p: Pos)
    requires IsRect(g, rows, cols) && InBounds(rows, cols, p) && Exclusive(g, rows, cols) && !At(g, p).rev
    ensures var h: Field := Set2(g, p.r, p.c, At(g, p).(flag := !At(g, p).flag));
      FlagOnly(g, h, rows, cols) && Exclusive(h, rows, cols) &&
      FlagSum(h) == FlagSum(g) + (if At(h, p).flag then 1 else -1)
  {
    GridSumUpdate(g, p.r, p.c, At(g, p).(flag := !At(g, p).flag), FlagW);
  }

  /** A field that only grew keeps its flags, its mines and the exclusion of flags from uncovered cells. */
  lemma StableKeeps(g: Field, h: Field, rows: int, cols: int)
    requires Stable(g, h, rows, cols) && Exclusive(g, rows, cols)
    ensures Exclusive(h, rows, cols)
    ensures FlagSum(h) == FlagSum(g) && MineSum(h) == MineSum(g)
    ensures Intact(g, rows, cols) && !Blown(g, h, rows, cols) ==> Intact(h, rows, cols)
  {
    GridSumAcross(h, g, FlagW, FlagW);
    GridSumAcross(h, g, MineW, MineW);
    if Intact(g, rows, cols) && !Blown(g, h, rows, cols) {
      forall a, b | 0 <= a < rows && 0 <= b < cols
        ensures !(h[a][b].rev && h[a][b].mine)
      {
        assert !(InBounds(rows, cols, Pos(a, b)) && Fresh(g, h, Pos(a, b)) && At(g, Pos(a, b)).mine);
      }
    }
  }

  /** The first click's mine placement, on a field with no mine and nothing uncovered. */
  lemma PlacedKeeps(g: Field, h: Field, rows: int, cols: int, mines: int)
    requires IsRect(g, rows, cols) && MineSum(g) == 0 && RevSum(g) == 0 && Exclusive(g, rows, cols)
    requires IsRect(h, rows, cols) && MineSum(h) == MineSum(g) + mines
    requires forall a, b :: 0 <= a < rows && 0 <= b < cols ==> h[a][b].rev == g[a][b].rev && h[a][b].flag == g[a][b].flag
    ensures Exclusive(h, rows, cols) && Intact(h, rows, cols) && MineSum(h) == mines
    ensures FlagSum(h) == FlagSum(g) && RevSum(h) == RevSum(g)
  {
    GridSumAcross(h, g, FlagW, FlagW);
    GridSumAcross(h, g, RevW, RevW);
    forall a, b | 0 <= a < rows && 0 <= b < cols
      ensures !h[a][b].rev
    {
      GridSumAt(g, RevW, a, b);
    }
  }

  /** The fields of `S` the rules use (the timer fields are left to the page). */
  datatype Game = Game(cols: nat, rows: nat, mines: int, firstClick: bool, grid: Field, alive: bool, flags: int, revealed: int)

  /**
   * The counters count the field, the numbers are right, no cell is both
   * flagged and uncovered, no mine is down and nothing is uncovered before
   * the first click and all the mines are down after it, and a game still on
   * has no uncovered mine.
   */
  ghost predicate Ok(s: Game)
  {
    && 1 <= s.rows && 1 <= s.cols && 0 <= s.mines && s.mines + 9 <= s.rows * s.cols
    && IsRect(s.grid, s.rows, s.cols)
    && Numbered(s.grid, s.rows, s.cols) && Exclusive(s.grid, s.rows, s.cols)
    && s.flags == FlagSum(s.grid) && s.revealed == RevSum(s.grid)
    && MineSum(s.grid) == (if s.firstClick then 0 else s.mines)
    && (s.firstClick ==> s.revealed == 0)
    && (s.alive ==> Intact(s.grid, s.rows, s.cols))
  }

  /** `newGame()`: the preset's size and mine count, a blank field, the counters at zero. */
  function StartGame(d: Difficulty): (s: Game)
    ensures Ok(s) && s.firstClick && s.alive && PresetOf(d) == Preset(s.cols, s.rows, s.mines)
    ensures s.grid == Filled(s.rows, s.cols, BLANK) && s.flags == 0 && s.revealed == 0
  {
    var p := PresetOf(d);
    BlankField(p.rows, p.cols);
    Game(p.cols, p.rows, p.mines, true, Filled(p.rows, p.cols, BLANK), true, 0, 0)
  }

  /** The mines-left counter: `Math.max(0, S.mines - S.flags)`. */
  function MinesLeft(s: Game): (r: int)
    ensures r >= 0 && r >= s.mines - s.flags
    ensures r == 0 || r == s.mines - s.flags
  {
    if s.mines - s.flags > 0 then s.mines - s.flags else 0
  }

  /** `toggleFlag(r, c)`: on a covered cell of a game still on, the flag flips and the count follows. */
  function FlagToggled(s: Game, p: Pos): (t: Game)
    requires Ok(s) && InBounds(s.rows, s.cols, p)
    ensures Ok(t) && t.(grid := s.grid, flags := s.flags) == s
    ensures s.alive && !At(s.grid, p).rev ==>
      t.grid == Set2(s.grid, p.r, p.c, At(s.grid, p).(flag := !At(s.grid, p).flag)) &&
      t.flags == s.flags + (if At(t.grid, p).flag then 1 else -1)
    ensures !s.alive || At(s.grid, p).rev ==> t == s
  {
    if !s.alive || s.grid[p.r][p.c].rev then s
    else
      var cell := s.grid[p.r][p.c];
      var h := Set2(s.grid, p.r, p.c, cell.(flag := !cell.flag));
      ToggleKeeps(s.grid, s.rows, s.cols, p);
      FlagOnlyKeeps(s.grid, h, s.rows, s.cols);
      s.(grid := h, flags := s.flags + if !cell.flag then 1 else -1)
  }

  /**
   * What `checkWin()` does to `s` to give `t`: when enough cells are
   * uncovered in a game still on, the game ends won and every covered mine
   * gets a flag (the flag count is kept right here; `AutoFlagAsWritten` has
   * the source's); otherwise nothing changes.
   */
  ghost predicate WinChecked(s: Game, t: Game)
  {
    && t.(grid := s.grid, flags := s.flags, alive := s.alive) == s
    && FlagOnly(s.grid, t.grid, s.rows, s.cols)
    && (WinTest(s.rows, s.cols, s.mines, s.revealed, s.alive) ==>
         !t.alive && t.grid == MapAll(s.grid, AutoFlagTile) && t.flags == FlagSum(t.grid))
    && (!WinTest(s.rows, s.cols, s.mines, s.revealed, s.alive) ==> t == s)
  }

  /** `checkWin()`: a win leaves every cell uncovered or flagged, the flags on the mines and no mine left to find. */
  method CheckWinOn(s: Game) returns (t: Game)
    requires Ok(s)
    ensures Ok(t) && WinChecked(s, t)
    ensures WinTest(s.rows, s.cols, s.mines, s.revealed, s.alive) ==>
      Cleared(t.grid, t.rows, t.cols) && FlagsOnMines(t.grid, t.rows, t.cols) && MinesLeft(t) == 0
  {
    t := s;
    if s.revealed >= s.rows * s.cols - s.mines && s.alive {
      WinIff(s.grid, s.rows, s.cols, s.mines);
      var h, fl := AutoFlag(s.grid, s.rows, s.cols, s.flags);
      AutoFlagKeeps(s.grid, s.rows, s.cols);
      FlagOnlyKeeps(s.grid, h, s.rows, s.cols);
      WinFlags(s.grid, s.rows, s.cols);
      t := s.(alive := false, grid := h, flags := fl);
    }
  }

  /**
   * What `reveal(r, c)` with `onMine` does to `s` to give `t`: the flood from
   * `p` uncovers cells and nothing else, the count follows, and an uncovered
   * mine ends the game; a cell that does not open changes nothing.
   */
  ghost predicate RevealStep(s: Game, t: Game, p: Pos)
  {
    && t.(grid := s.grid, revealed := s.revealed, alive := s.alive) == s
    && Stable(s.grid, t.grid, s.rows, s.cols)
    && t.revealed == s.revealed + RevSum(t.grid) - RevSum(s.grid)
    && (Opens(s.grid, s.rows, s.cols, p) ==> Flooded(s.grid, t.grid, s.rows, s.cols, p))
    && (!Opens(s.grid, s.rows, s.cols, p) ==> t == s)
    && (t.alive <==> s.alive && !(Opens(s.grid, s.rows, s.cols, p) && At(s.grid, p).mine))
  }

  /** `reveal(r, c)` with `onMine`: uncover from `p`; an uncovered mine ends the game. */
  method RevealOn(s: Game, p: Pos) returns (t: Game)
    requires Ok(s) && !s.firstClick
    ensures Ok(t) && RevealStep(s, t, p)
    ensures s.alive ==> (Intact(t.grid, s.rows, s.cols) <==> t.alive)
  {
    var h, count, boom := RevealAt(s.grid, s.rows, s.cols, p);
    RevealBlown(s.grid, h, s.rows, s.cols, p, boom);
    StableKeeps(s.grid, h, s.rows, s.cols);
    NumberedStable(s.grid, h, s.rows, s.cols);
    if boom {
      assert h[p.r][p.c].rev && h[p.r][p.c].mine;
    }
    t := s.(grid := h, revealed := s.revealed + count, alive := s.alive && !boom);
  }

  /** The draws suffice to place the mines when the click is a first click that goes through. */
  ghost predicate DrawsSuffice(s: Game, p: Pos, tries: seq<(real, real)>)
    requires Ok(s) && InBounds(s.rows, s.cols, p) && Units(tries)
  {
    s.alive && s.firstClick && !At(s.grid, p).flag ==> s.mines <= |Hits(s.grid, s.rows, s.cols, p, tries, |tries|)|
  }

  /**
   * The first click's `placeMines(r, c)` and the end of `S.firstClick`: all
   * the mines are down, none on or around the clicked cell.
   */
  method FirstClickOn(s: Game, p: Pos, tries: seq<(real, real)>) returns (u: Game)
    requires Ok(s) && InBounds(s.rows, s.cols, p) && Units(tries) && s.firstClick
    requires s.mines <= |Hits(s.grid, s.rows, s.cols, p, tries, |tries|)|
    ensures Ok(u) && MinesPlaced(s, u, p)
  {
    var h := PlaceMines(s.grid, s.rows, s.cols, s.mines, p, tries);
    PlacedKeeps(s.grid, h, s.rows, s.cols, s.mines);
    forall q | InSafeZone(p, q) && InBounds(s.rows, s.cols, q)
      ensures !At(h, q).mine
    {
      GridSumAt(s.grid, MineW, q.r, q.c);
    }
    u := s.(grid := h, firstClick := false);
  }

  /**
   * What the first click's `placeMines(r, c)` and the end of `S.firstClick`
   * do to `s` to give `u`: all the mines go down, none on or around `p`, and
   * nothing uncovered or flagged changes.
   */
  ghost predicate MinesPlaced(s: Game, u: Game, p: Pos)
  {
    && u.(grid := s.grid, firstClick := true) == s && !u.firstClick
    && IsRect(u.grid, s.rows, s.cols) && IsRect(s.grid, s.rows, s.cols)
    && (forall a, b :: 0 <= a < s.rows && 0 <= b < s.cols ==>
         u.grid[a][b].rev == s.grid[a][b].rev && u.grid[a][b].flag == s.grid[a][b].flag)
    && (forall q :: InSafeZone(p, q) && InBounds(s.rows, s.cols, q) ==> !At(u.grid, q).mine)
  }

  /**
   * The stages of a click that goes through: `u` after the mines are placed
   * (the first click only), `v` after `reveal`, `t` after `checkWin`.
   */
  ghost predicate Staged(s: Game, u: Game, v: Game, t: Game, p: Pos)
  {
    && (if s.firstClick then MinesPlaced(s, u, p) else u == s)
    && RevealStep(u, v, p)
    && WinChecked(v, t)
  }

  /**
   * What a click that goes through at `p` (game on, cell not flagged) does to
   * `s` to give `t`: the stages of `onRevealClick`, after which `p` is
   * uncovered, and the game is lost exactly when a later click hits a mine.
   */
  ghost predicate Played(s: Game, t: Game, p: Pos)
    requires Ok(s) && Ok(t) && InBounds(s.rows, s.cols, p)
  {
    && t.rows == s.rows && t.cols == s.cols && !t.firstClick && At(t.grid, p).rev
    && (s.firstClick ==> Intact(t.grid, t.rows, t.cols))
    && (!s.firstClick ==> (Intact(t.grid, t.rows, t.cols) <==> !At(s.grid, p).mine))
    && exists u, v :: Ok(u) && Ok(v) && Staged(s, u, v, t, p)
  }

  /** What a click at `p` does to a game `s` (with `d` selected) to give `t`. */
  ghost predicate Clicked(s: Game, t: Game, p: Pos, d: Difficulty)
    requires Ok(s) && Ok(t) && InBounds(s.rows, s.cols, p)
  {
    && (!s.alive ==> t == StartGame(d))
    && (s.alive && At(s.grid, p).flag ==> t == s)
    && (s.alive && !At(s.grid, p).flag ==> Played(s, t, p))
  }

  /**
   * The part of `onRevealClick` after its early returns: the first click
   * places the mines away from `p`, then `p` is revealed and the win check
   * runs.
   */
  method PlayOn(s: Game, p: Pos, tries: seq<(real, real)>) returns (t: Game)
    requires Ok(s) && InBounds(s.rows, s.cols, p) && Units(tries) && DrawsSuffice(s, p, tries)
    requires s.alive && !At(s.grid, p).flag
    ensures Ok(t) && Played(s, t, p)
  {
    var u := s;
    if s.firstClick {
      u := FirstClickOn(s, p, tries);
    }
    var v := RevealOn(u, p);
    t := CheckWinOn(v);
    PlayedFrom(s, u, v, t, p);
  }

  /** The stages of a click that goes through give the click's outcome. */
  lemma PlayedFrom(s: Game, u: Game, v: Game, t: Game, p: Pos)
    requires Ok(s) && Ok(u) && Ok(v) && Ok(t) && InBounds(s.rows, s.cols, p)
    requires s.alive && !At(s.grid, p).flag && Staged(s, u, v, t, p)
    ensures Played(s, t, p)
  {
    ClickedCell(s, u, v, t, p);
    assert Staged(s, u, v, t, p);
  }

  /** After the stages of a click, `p` is uncovered, and a mine is uncovered only when a later click hit one. */
  lemma ClickedCell(s: Game, u: Game, v: Game, t: Game, p: Pos)
    requires Ok(s) && Ok(u) && Ok(v) && Ok(t) && InBounds(s.rows, s.cols, p)
    requires s.alive && !At(s.grid, p).flag && Staged(s, u, v, t, p)
    ensures t.rows == s.rows && t.cols == s.cols && !t.firstClick && At(t.grid, p).rev
    ensures s.firstClick ==> Intact(t.grid, t.rows, t.cols)
    ensures !s.firstClick ==> (Intact(t.grid, t.rows, t.cols) <==> !At(s.grid, p).mine)
  {
    FlagOnlyKeeps(v.grid, t.grid, s.rows, s.cols);
    if s.firstClick {
      assert InSafeZone(p, p);
    }
    assert !u.grid[p.r][p.c].flag && u.grid[p.r][p.c].mine == (!s.firstClick && s.grid[p.r][p.c].mine);
    assert v.grid[p.r][p.c].rev;
    assert t.grid[p.r][p.c] == v.grid[p.r][p.c].(flag := t.grid[p.r][p.c].flag);
  }

  /**
   * `onRevealClick`: a lost or won game starts over; a flagged cell ignores
   * the click; the first click places the mines (`tries` are the draws, as
   * pairs of `Math.random()` values) away from the clicked cell; then the
   * cell is revealed, a mine ends the game, and the win check runs. The
   * first click of a game never uncovers a mine.
   */
  method ClickOn(s: Game, p: Pos, d: Difficulty, tries: seq<(real, real)>) returns (t: Game)
    requires Ok(s) && InBounds(s.rows, s.cols, p) && Units(tries) && DrawsSuffice(s, p, tries)
    ensures Ok(t) && Clicked(s, t, p, d)
  {
    if !s.alive {
      return StartGame(d);
    }
    if s.grid[p.r][p.c].flag {
      return s;
    }
    t := PlayOn(s, p, tries);
  }

  /**
   * What the reveals of a chord that goes through at `p` do to `s` to give
   * `u`: cells are only uncovered, the count follows, every neighbour ends up
   * uncovered or flagged, every newly uncovered cell is a neighbour of `p` or
   * was reached from one through newly uncovered zeros, around which nothing
   * is left covered but flags, and the game is lost exactly when a covered
   * neighbour without a flag is a mine.
   */
  ghost predicate ChordStep(s: Game, u: Game, p: Pos)
  {
    && u.(grid := s.grid, revealed := s.revealed, alive := s.alive) == s
    && Stable(s.grid, u.grid, s.rows, s.cols)
    && u.revealed == s.revealed + RevSum(u.grid) - RevSum(s.grid)
    && Settled(u.grid, s.rows, s.cols, p)
    && ZerosSettled(s.grid, u.grid, s.rows, s.cols) && Spread(s.grid, u.grid, s.rows, s.cols, Around(s.rows, s.cols, p))
    && (u.alive <==> !ArmedAround(s.grid, s.rows, s.cols, p))
  }

  /** What a chord at `p` does to a game `s` to give `t`: the chord's reveals, then `checkWin()`. */
  ghost predicate Chorded(s: Game, t: Game, p: Pos)
    requires Ok(s) && Ok(t)
  {
    && t.rows == s.rows && t.cols == s.cols && t.mines == s.mines && t.firstClick == s.firstClick
    && (!s.alive ==> t == s)
    && (s.alive && !Chords(s.grid, s.rows, s.cols, p) ==> t == s)
    && (s.alive && Chords(s.grid, s.rows, s.cols, p) ==>
         && (t.alive ==> Settled(t.grid, t.rows, t.cols, p)) && (ArmedAround(s.grid, s.rows, s.cols, p) ==> !t.alive)
         && exists u :: Ok(u) && ChordStep(s, u, p) && WinChecked(u, t))
  }

  /**
   * `onChord(r, c)`: in a game still on, chord at `p`, end the game if a mine
   * came up, and check for a win. A chord that goes through leaves every
   * neighbour uncovered or flagged unless it lost the game, and it loses
   * whenever a covered neighbour without a flag is a mine.
   */
  method ChordOn(s: Game, p: Pos) returns (t: Game)
    requires Ok(s)
    ensures Ok(t) && Chorded(s, t, p)
  {
    if !s.alive || !InBounds(s.rows, s.cols, p) {
      return s;
    }
    var chord, u := ChordReveal(s, p);
    if !chord {
      return s;
    }
    t := CheckWinOn(u);
    ChordedFrom(s, u, t, p);
  }

  /** The reveals of `onChord` in a game still on: none unless the chord goes through. */
  method ChordReveal(s: Game, p: Pos) returns (chord: bool, u: Game)
    requires Ok(s) && s.alive && InBounds(s.rows, s.cols, p)
    ensures chord <==> Chords(s.grid, s.rows, s.cols, p)
    ensures chord ==> Ok(u) && ChordStep(s, u, p)
  {
    if s.firstClick {
      GridSumAt(s.grid, RevW, p.r, p.c);
    }
    var h, count, boom;
    chord, h, count, boom := ChordAt(s.grid, s.rows, s.cols, p);
    if !chord {
      return chord, s;
    }
    StableKeeps(s.grid, h, s.rows, s.cols);
    u := s.(grid := h, revealed := s.revealed + count, alive := !boom);
  }

  /** The stages of a chord that goes through give the chord's outcome. */
  lemma ChordedFrom(s: Game, u: Game, t: Game, p: Pos)
    requires Ok(s) && Ok(u) && Ok(t) && s.alive && Chords(s.grid, s.rows, s.cols, p)
    requires ChordStep(s, u, p) && WinChecked(u, t)
    ensures Chorded(s, t, p)
  {
  }

  /** The page's state object `S`, with the handlers the buttons and the board call. */
  class Board {
    var cols: nat
    var rows: nat
    var mines: int
    var firstClick: bool
    var grid: Field
    var alive: bool
    var flags: int
    var revealed: int

    function State(): Game
      reads this
    {
      Game(cols, rows, mines, firstClick, grid, alive, flags, revealed)
    }

    ghost predicate Valid()
      reads this
    {
      Ok(State())
    }

    /** Stores a whole new state. */
    method Load(s: Game)
      modifies this
      ensures State() == s
    {
      cols, rows, mines, firstClick := s.cols, s.rows, s.mines, s.firstClick;
      grid, alive, flags, revealed := s.grid, s.alive, s.flags, s.revealed;
    }

    /** The boot call `newGame()`. */
    constructor (d: Difficulty)
      ensures Valid() && State() == StartGame(d)
    {
      new;
      Load(StartGame(d));
    }

    /** The New Game button and the difficulty selector. */
    method NewGame(d: Difficulty)
      modifies this
      ensures Valid() && State() == StartGame(d)
    {
      Load(StartGame(d));
    }

    method ToggleFlag(p: Pos)
      requires Valid() && InBounds(rows, cols, p)
      modifies this
      ensures Valid() && State() == FlagToggled(old(State()), p)
    {
      Load(FlagToggled(State(), p));
    }

    method Click(p: Pos, d: Difficulty, tries: seq<(real, real)>)
      requires Valid() && InBounds(rows, cols, p) && Units(tries) && DrawsSuffice(State(), p, tries)
      modifies this
      ensures Valid() && Clicked(old(State()), State(), p, d)
    {
      var t := ClickOn(State(), p, d, tries);
      Load(t);
    }

    method Chord(p: Pos)
      requires Valid()
      modifies this
      ensures Valid() && Chorded(old(State()), State(), p)
    {
      var t := ChordOn(State(), p);
      Load(t);
    }
  }
}
