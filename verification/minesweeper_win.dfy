/**
 * The end of a minesweeper game: `checkWin` (minesweeper/main.js), its test
 * on the revealed counter, and the pass that flags the mines left covered
 * together with the `S.flags` counter it keeps.
 */
module MineWin {
  import opened Grids
  import opened Minesweeper
  import opened MineReveal

  /** No uncovered mine: the game has not been lost on this field. */
  ghost predicate Intact(g: Field, rows: int, cols: int)
  {
    forall a, b :: 0 <= a < rows && 0 <= b < cols && a < |g| && b < |g[a]| ==> !(g[a][b].rev && g[a][b].mine)
  }

  /** No cell is both uncovered and flagged (`toggleFlag` skips uncovered cells, `reveal` skips flagged ones). */
  ghost predicate Exclusive(g: Field, rows: int, cols: int)
  {
    forall a, b :: 0 <= a < rows && 0 <= b < cols && a < |g| && b < |g[a]| ==> !(g[a][b].rev && g[a][b].flag)
  }

  /** Every safe cell is uncovered. */
  ghost predicate Cleared(g: Field, rows: int, cols: int)
  {
    forall a, b :: 0 <= a < rows && 0 <= b < cols && a < |g| && b < |g[a]| ==> g[a][b].mine || g[a][b].rev
  }

  /** The flags sit exactly on the mines. */
  ghost predicate FlagsOnMines(g: Field, rows: int, cols: int)
  {
    forall a, b :: 0 <= a < rows && 0 <= b < cols && a < |g| && b < |g[a]| ==> g[a][b].flag == g[a][b].mine
  }

  /** `checkWin`'s test: `S.revealed >= S.rows * S.cols - S.mines && S.alive`. */
  predicate WinTest(rows: int, cols: int, mines: int, revealed: int, alive: bool)
  {
    revealed >= rows * cols - mines && alive
  }

  /** One step of the auto-flag pass: a covered mine gets a flag. */
  function AutoFlagTile(t: Tile): (u: Tile)
    ensures u.mine == t.mine && u.rev == t.rev && u.n == t.n
    ensures u.flag <==> t.flag || (!t.rev && t.mine)
  {
    if !t.rev && t.mine then t.(flag := true) else t
  }

  /** A covered mine. */
  function HiddenMineW(t: Tile): nat { if !t.rev && t.mine then 1 else 0 }

  /** A covered safe cell. */
  function HiddenSafeW(t: Tile): nat { if !t.rev && !t.mine then 1 else 0 }

  /** A covered mine that carries a flag already. */
  function StaleW(t: Tile): nat { if !t.rev && t.mine && t.flag then 1 else 0 }

  /** The flag weight of a cell once the auto-flag pass has been over it. */
  function AutoFlagW(t: Tile): nat { FlagW(AutoFlagTile(t)) }

  function AutoFlagStaleW(t: Tile): nat { AutoFlagW(t) + StaleW(t) }

  lemma SumAt(g: Field, w: Tile -> nat, rows: int, cols: int, a: int, b: int)
    requires IsRect(g, rows, cols) && 0 <= a < rows && 0 <= b < cols && w(g[a][b]) == 1
    ensures GridSum(g, w) >= 1
  {
    GridSumAt(g, w, a, b);
  }

  /**
   * `checkWin`'s test says what it is meant to: while no mine is uncovered and
   * the mines are the ones placed, enough uncovered cells means every safe cell
   * is uncovered, and the other way round.
   */
  lemma WinIff(g: Field, rows: int, cols: int, mines: int)
    requires IsRect(g, rows, cols) && Intact(g, rows, cols) && MineSum(g) == mines
    ensures RevSum(g) >= rows * cols - mines <==> Cleared(g, rows, cols)
  {
    GridSumSplit(g, RevW, HiddenW, rows, cols);
    GridSumPlus(g, HiddenW, MineW, HiddenSafeW);
    if Cleared(g, rows, cols) {
      GridSumZero(g, HiddenSafeW);
    } else {
      var a, b :| 0 <= a < rows && 0 <= b < cols && !g[a][b].mine && !g[a][b].rev;
      SumAt(g, HiddenSafeW, rows, cols, a, b);
    }
  }

  /**
   * After a win the auto-flag pass leaves a flag on every mine and on nothing
   * else, so the flag count is the mine count.
   */
  lemma WinFlags(g: Field, rows: int, cols: int)
    requires IsRect(g, rows, cols) && Intact(g, rows, cols) && Exclusive(g, rows, cols) && Cleared(g, rows, cols)
    ensures FlagsOnMines(MapAll(g, AutoFlagTile), rows, cols)
    ensures FlagSum(MapAll(g, AutoFlagTile)) == MineSum(g)
  {
    var h := MapAll(g, AutoFlagTile);
    GridSumAcross(h, g, FlagW, MineW);
  }

  /** The auto-flag pass changes flags only and puts them on covered cells. */
  lemma AutoFlagKeeps(g: Field, rows: int, cols: int)
    requires IsRect(g, rows, cols) && Exclusive(g, rows, cols)
    ensures var h: Field := MapAll(g, AutoFlagTile);
      IsRect(h, rows, cols) && Exclusive(h, rows, cols) && FlagOnly(g, h, rows, cols)
  {
  }

  /** `h` is `g` with some flags set or cleared and nothing else changed. */
  ghost predicate FlagOnly(g: Field, h: Field, rows: int, cols: int)
  {
    IsRect(g, rows, cols) && IsRect(h, rows, cols) &&
    forall a, b :: 0 <= a < rows && 0 <= b < cols ==> h[a][b] == g[a][b].(flag := h[a][b].flag)
  }

  /** Moving flags changes neither the numbers, nor the mines, nor what is uncovered. */
  lemma FlagOnlyKeeps(g: Field, h: Field, rows: int, cols: int)
    requires FlagOnly(g, h, rows, cols)
    ensures Numbered(g, rows, cols) ==> Numbered(h, rows, cols)
    ensures Intact(h, rows, cols) <==> Intact(g, rows, cols)
    ensures MineSum(h) == MineSum(g) && RevSum(h) == RevSum(g)
  {
    GridSumAcross(h, g, MineW, MineW);
    GridSumAcross(h, g, RevW, RevW);
    if Numbered(g, rows, cols) {
      forall q | InBounds(rows, cols, q) && !At(h, q).mine
        ensures At(h, q).n == MinesAround(h, rows, cols, q)
      {
        MinesAroundFlags(g, h, rows, cols, q);
      }
    }
  }

  lemma MinesAroundFlags(g: Field, h: Field, rows: int, cols: int, p: Pos)
    requires FlagOnly(g, h, rows, cols)
    ensures MinesAround(h, rows, cols, p) == MinesAround(g, rows, cols, p)
  {
    var ps := Around(rows, cols, p);
    forall i | 0 <= i < |ps|
      ensures Holds(g, ps[i]) && Holds(h, ps[i]) && At(g, ps[i]).mine == At(h, ps[i]).mine
    {
      assert InBounds(rows, cols, ps[i]);
    }
    CountSame(g, h, ps);
  }

  /** One cell of the auto-flag pass: a covered mine gets its flag, any other cell stays. */
  lemma AutoFlagStep(g: Field, rows: nat, cols: nat, a: int, b: int)
    requires IsRect(g, rows, cols) && 0 <= a < rows && 0 <= b < cols
    ensures var h: Field := MapUpTo(g, rows, cols, AutoFlagTile, a, b);
      h[a][b] == g[a][b] &&
      MapUpTo(g, rows, cols, AutoFlagTile, a, b + 1) ==
        if !g[a][b].rev && g[a][b].mine then Set2(h, a, b, h[a][b].(flag := true)) else h
  {
    MapUpToStep(g, rows, cols, AutoFlagTile, a, b);
    if !(!g[a][b].rev && g[a][b].mine) {
      MapUpToKeep(g, rows, cols, AutoFlagTile, a, b);
    }
  }

  /**
   * The auto-flag loop of `checkWin` with its counter as written: `S.flags`
   * goes up once for every covered mine, whether or not it was flagged before.
   */
  method AutoFlagAsWritten(g: Field, rows: nat, cols: nat, flags: int) returns (h: Field, fl: int)
    requires IsRect(g, rows, cols)
    ensures h == MapAll(g, AutoFlagTile)
    ensures fl == flags + GridSum(g, HiddenMineW)
  {
    h, fl := g, flags;
    MapUpToNone(g, rows, cols, AutoFlagTile);
    SumUpToEnds(g, HiddenMineW, rows, cols);
    for a := 0 to rows
      invariant h == MapUpTo(g, rows, cols, AutoFlagTile, a, 0)
      invariant fl == flags + SumUpTo(g, HiddenMineW, rows, cols, a, 0)
    {
      h, fl := AutoFlagRowAsWritten(g, rows, cols, a, h, fl - flags);
      fl := flags + fl;
    }
    MapUpToAll(g, rows, cols, AutoFlagTile);
  }

  /** One row of the as-written pass; `fl` counts from the start of the pass. */
  method AutoFlagRowAsWritten(g: Field, rows: nat, cols: nat, a: nat, h0: Field, fl0: int) returns (h: Field, fl: int)
    requires IsRect(g, rows, cols) && a < rows
    requires h0 == MapUpTo(g, rows, cols, AutoFlagTile, a, 0) && fl0 == SumUpTo(g, HiddenMineW, rows, cols, a, 0)
    ensures h == MapUpTo(g, rows, cols, AutoFlagTile, a + 1, 0) && fl == SumUpTo(g, HiddenMineW, rows, cols, a + 1, 0)
  {
    h, fl := h0, fl0;
    for b := 0 to cols
      invariant h == MapUpTo(g, rows, cols, AutoFlagTile, a, b)
      invariant fl == SumUpTo(g, HiddenMineW, rows, cols, a, b)
    {
      AutoFlagStep(g, rows, cols, a, b);
      SumUpToStep(g, HiddenMineW, rows, cols, a, b);
      var cell := h[a][b];
      if !cell.rev && cell.mine {
        h := Set2(h, a, b, cell.(flag := true));
        fl := fl + 1;
      }
    }
    MapUpToRow(g, rows, cols, AutoFlagTile, a);
    SumUpToRow(g, HiddenMineW, rows, cols, a);
  }

  /**
   * The auto-flag loop of `checkWin` with the counter kept right: it goes up
   * only when a flag is added, so it moves exactly as the number of flags does.
   */
  method AutoFlag(g: Field, rows: nat, cols: nat, flags: int) returns (h: Field, fl: int)
    requires IsRect(g, rows, cols)
    ensures h == MapAll(g, AutoFlagTile)
    ensures fl == flags + FlagSum(h) - FlagSum(g)
  {
    h, fl := g, flags;
    MapUpToNone(g, rows, cols, AutoFlagTile);
    for a := 0 to rows
      invariant h == MapUpTo(g, rows, cols, AutoFlagTile, a, 0)
      invariant fl == flags + FlagSum(h) - FlagSum(g)
    {
      for b := 0 to cols
        invariant h == MapUpTo(g, rows, cols, AutoFlagTile, a, b)
        invariant fl == flags + FlagSum(h) - FlagSum(g)
      {
        AutoFlagStep(g, rows, cols, a, b);
        if !h[a][b].rev && h[a][b].mine {
          if !h[a][b].flag {
            fl := fl + 1;
          }
          GridSumUpdate(h, a, b, h[a][b].(flag := true), FlagW);
          h := Set2(h, a, b, h[a][b].(flag := true));
        }
      }
      MapUpToRow(g, rows, cols, AutoFlagTile, a);
    }
    MapUpToAll(g, rows, cols, AutoFlagTile);
  }

  /**
   * The counter as written ends above the number of flags by the covered mines
   * that were flagged before the pass.
   */
  lemma Overcount(g: Field)
    ensures FlagSum(g) + GridSum(g, HiddenMineW) == FlagSum(MapAll(g, AutoFlagTile)) + GridSum(g, StaleW)
  {
    GridSumAcross(MapAll(g, AutoFlagTile), g, FlagW, AutoFlagW);
    GridSumPlus(g, AutoFlagStaleW, AutoFlagW, StaleW);
    GridSumPlus(g, AutoFlagStaleW, FlagW, HiddenMineW);
  }

  /** The counter as written is right exactly when no covered mine was flagged before the pass. */
  lemma OvercountIff(g: Field, rows: int, cols: int)
    requires IsRect(g, rows, cols)
    ensures FlagSum(g) + GridSum(g, HiddenMineW) == FlagSum(MapAll(g, AutoFlagTile)) <==>
      forall a, b :: 0 <= a < rows && 0 <= b < cols ==> !(!g[a][b].rev && g[a][b].mine && g[a][b].flag)
  {
    Overcount(g);
    if forall a, b :: 0 <= a < rows && 0 <= b < cols ==> !(!g[a][b].rev && g[a][b].mine && g[a][b].flag) {
      GridSumZero(g, StaleW);
    } else {
      var a, b :| 0 <= a < rows && 0 <= b < cols && !g[a][b].rev && g[a][b].mine && g[a][b].flag;
      SumAt(g, StaleW, rows, cols, a, b);
    }
  }

  /** A won one-by-two game: a flagged mine and an uncovered 1. */
  function WonPair(): Field
  {
    [[Tile(true, false, true, 0), Tile(false, true, false, 1)]]
  }

  /**
   * On `WonPair` with one mine, `checkWin` fires and the counter as written
   * ends at 2 flags where the board shows 1.
   */
  lemma OvercountExample()
    ensures IsRect(WonPair(), 1, 2) && Intact(WonPair(), 1, 2) && Exclusive(WonPair(), 1, 2)
    ensures MineSum(WonPair()) == 1 && FlagSum(WonPair()) == 1
    ensures WinTest(1, 2, 1, RevSum(WonPair()), true)
    ensures FlagSum(WonPair()) + GridSum(WonPair(), HiddenMineW) == 2
    ensures FlagSum(MapAll(WonPair(), AutoFlagTile)) == 1
  {
    var g := WonPair();
    var t, u := g[0][0], g[0][1];
    SumPair(t, u, MineW);
    SumPair(t, u, FlagW);
    SumPair(t, u, RevW);
    SumPair(t, u, HiddenMineW);
    var f := MapAll(g, AutoFlagTile);
    assert f[0] == [AutoFlagTile(t), AutoFlagTile(u)];
    assert f == [[AutoFlagTile(t), AutoFlagTile(u)]];
    SumPair(AutoFlagTile(t), AutoFlagTile(u), FlagW);
  }

  lemma SumPair(t: Tile, u: Tile, w: Tile -> nat)
    ensures GridSum([[t, u]], w) == w(t) + w(u)
  {
    var row := [t, u];
    var one: seq<Tile> := [t];
    assert row[..1] == one && |one[..0]| == 0;
    assert RowSum(one, w) == w(t);
    assert RowSum(row, w) == w(t) + w(u);
    var rows: Field := [row];
    assert |rows[..0]| == 0;
    assert GridSum(rows, w) == RowSum(row, w);
  }
}
