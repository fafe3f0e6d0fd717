/**
 * Minesweeper rules (minesweeper/main.js): the field of cells, mine placement
 * with a safe zone around the first click, the neighbour counts, flagging,
 * the flood-fill reveal, chording and the win check with its counters.
 */
module Minesweeper {
  import opened Grids
  import opened Draws

  /** A cell address: row `r`, column `c`. */
  datatype Pos = Pos(r: int, c: int)

  /** One cell record `{mine, rev, flag, n}`. */
  datatype Tile = Tile(mine: bool, rev: bool, flag: bool, n: int)

  type Field = seq<seq<Tile>>

  /** The value of the difficulty selector; anything unlisted falls back to beginner. */
  datatype Difficulty = Beginner | Intermediate | Expert | Unlisted

  datatype Preset = Preset(cols: int, rows: int, mines: int)

  /** `PRESETS[difficultySel.value] || PRESETS.beginner`. */
  function PresetOf(d: Difficulty): (p: Preset)
    ensures 1 <= p.rows && 1 <= p.cols && 0 <= p.mines
    ensures p.mines + 9 <= p.rows * p.cols  // room for the mines outside any safe zone
  {
    match d
    case Intermediate => Preset(16, 16, 40)
    case Expert => Preset(30, 16, 99)
    case _ => Preset(9, 9, 10)
  }

  /** A freshly set-up cell. */
  const BLANK := Tile(false, false, false, 0)

  predicate InBounds(rows: int, cols: int, p: Pos)
  {
    0 <= p.r < rows && 0 <= p.c < cols
  }

  /** `q` is one of the eight cells around `p`. */
  predicate Adjacent(p: Pos, q: Pos)
  {
    p != q && -1 <= q.r - p.r <= 1 && -1 <= q.c - p.c <= 1
  }

  function Keep(rows: int, cols: int, q: Pos): seq<Pos>
  {
    if InBounds(rows, cols, q) then [q] else []
  }

  /** The row offset of the `k`-th neighbour, in the order of the two nested loops of `forNeighbors`. */
  function DR(k: nat): int
  {
    if k < 3 then -1 else if k < 5 then 0 else 1
  }

  /** The column offset of the `k`-th neighbour (the offset `(0, 0)` is skipped). */
  function DC(k: nat): int
  {
    if k < 3 then k - 1 else if k == 3 then -1 else if k == 4 then 1 else k - 6
  }

  /** The neighbours produced by the offsets from the `k`-th on. */
  function AroundFrom(rows: int, cols: int, p: Pos, k: nat): (ns: seq<Pos>)
    requires k <= 8
    ensures |ns| <= 8 - k
    ensures forall i :: 0 <= i < |ns| ==> InBounds(rows, cols, ns[i]) && Adjacent(p, ns[i])
    decreases 8 - k
  {
    if k == 8 then []
    else Keep(rows, cols, Pos(p.r + DR(k), p.c + DC(k))) + AroundFrom(rows, cols, p, k + 1)
  }

  /**
   * `forNeighbors(r, c, cb)`: the cells the callback is given, in the order of
   * the two nested offset loops (row offset outer, column offset inner). They
   * are in bounds and around `p`; `AroundIff` shows they are all of them.
   */
  function Around(rows: int, cols: int, p: Pos): (ns: seq<Pos>)
    ensures |ns| <= 8
    ensures forall i :: 0 <= i < |ns| ==> InBounds(rows, cols, ns[i]) && Adjacent(p, ns[i])
  {
    AroundFrom(rows, cols, p, 0)
  }

  lemma {:induction false} AroundFromHas(rows: int, cols: int, p: Pos, k0: nat, k: nat)
    requires k0 <= k < 8
    requires InBounds(rows, cols, Pos(p.r + DR(k), p.c + DC(k)))
    ensures Pos(p.r + DR(k), p.c + DC(k)) in AroundFrom(rows, cols, p, k0)
    decreases k - k0
  {
    if k0 < k {
      AroundFromHas(rows, cols, p, k0 + 1, k);
    }
  }

  /** Every in-bounds cell around `p` is visited: the list is exactly the neighbourhood. */
  lemma AroundIff(rows: int, cols: int, p: Pos, q: Pos)
    ensures q in Around(rows, cols, p) <==> InBounds(rows, cols, q) && Adjacent(p, q)
  {
    if InBounds(rows, cols, q) && Adjacent(p, q) {
      var k := OffsetIndex(p, q);
      AroundFromHas(rows, cols, p, 0, k);
    }
  }

  /** Each cell around `p` is reached by one of the eight offsets. */
  lemma OffsetIndex(p: Pos, q: Pos) returns (k: nat)
    requires Adjacent(p, q)
    ensures k < 8 && q == Pos(p.r + DR(k), p.c + DC(k))
  {
    if q.r < p.r {
      k := q.c - p.c + 1;
    } else if q.r == p.r {
      k := if q.c < p.c then 3 else 4;
    } else {
      k := q.c - p.c + 6;
    }
  }

  /** Adjacency is symmetric. */
  lemma AroundSymmetric(rows: int, cols: int, p: Pos, q: Pos)
    requires InBounds(rows, cols, p) && q in Around(rows, cols, p)
    ensures p in Around(rows, cols, q)
  {
    AroundIff(rows, cols, q, p);
  }

  predicate Holds(g: Field, p: Pos)
  {
    0 <= p.r < |g| && 0 <= p.c < |g[p.r]|
  }

  function At(g: Field, p: Pos): Tile
    requires Holds(g, p)
  {
    g[p.r][p.c]
  }

  /** Cells inside the board are cells of a field of that shape. */
  lemma AroundHolds(g: Field, rows: int, cols: int, ns: seq<Pos>)
    requires IsRect(g, rows, cols) && forall i :: 0 <= i < |ns| ==> InBounds(rows, cols, ns[i])
    ensures forall i :: 0 <= i < |ns| ==> Holds(g, ns[i])
  {
  }

  predicate IsMine(t: Tile) { t.mine }

  predicate IsFlag(t: Tile) { t.flag }

  /** The number of cells of `ps` whose tile satisfies `w`. */
  function CountIn(g: Field, ps: seq<Pos>, w: Tile -> bool): (k: nat)
    requires forall i :: 0 <= i < |ps| ==> Holds(g, ps[i])
    ensures k <= |ps|
    ensures k == 0 <==> forall i :: 0 <= i < |ps| ==> !w(At(g, ps[i]))
  {
    if ps == [] then 0
    else CountIn(g, ps[..|ps| - 1], w) + (if w(At(g, ps[|ps| - 1])) then 1 else 0)
  }

  /** A callback counting loop: `let k = 0; forNeighbors(..., () => { if (...) k++; })`. */
  method CountAround(g: Field, ps: seq<Pos>, w: Tile -> bool) returns (k: nat)
    requires forall i :: 0 <= i < |ps| ==> Holds(g, ps[i])
    ensures k == CountIn(g, ps, w)
  {
    k := 0;
    for i := 0 to |ps|
      invariant k == CountIn(g, ps[..i], w)
    {
      assert ps[..i + 1][..i] == ps[..i];
      if w(g[ps[i].r][ps[i].c]) {
        k := k + 1;
      }
    }
    assert ps[..|ps|] == ps;
  }

  /** The number of mines around `p`. */
  function MinesAround(g: Field, rows: int, cols: int, p: Pos): nat
    requires IsRect(g, rows, cols)
  {
    CountIn(g, Around(rows, cols, p), IsMine)
  }

  /** The number of flags around `p`. */
  function FlagsAround(g: Field, rows: int, cols: int, p: Pos): nat
    requires IsRect(g, rows, cols)
  {
    CountIn(g, Around(rows, cols, p), IsFlag)
  }

  /** Every cell that is not a mine carries the number of mines around it. */
  ghost predicate Numbered(g: Field, rows: int, cols: int)
    requires IsRect(g, rows, cols)
  {
    forall q {:trigger MinesAround(g, rows, cols, q)} ::
      InBounds(rows, cols, q) && !At(g, q).mine ==> At(g, q).n == MinesAround(g, rows, cols, q)
  }

  /** `g` and `h` have the same mines on the cells of `ps`. */
  lemma {:induction false} CountSame(g: Field, h: Field, ps: seq<Pos>)
    requires forall i :: 0 <= i < |ps| ==> Holds(g, ps[i]) && Holds(h, ps[i]) && At(g, ps[i]).mine == At(h, ps[i]).mine
    ensures CountIn(g, ps, IsMine) == CountIn(h, ps, IsMine)
  {
    if ps != [] {
      CountSame(g, h, ps[..|ps| - 1]);
    }
  }

  /** A numbered cell with no mine around it has no mine next to it. */
  lemma NoMineNextToZero(g: Field, rows: int, cols: int, z: Pos, q: Pos)
    requires IsRect(g, rows, cols) && Numbered(g, rows, cols) && InBounds(rows, cols, z)
    requires !At(g, z).mine && At(g, z).n == 0 && q in Around(rows, cols, z)
    ensures !At(g, q).mine
  {
    var ns := Around(rows, cols, z);
    assert MinesAround(g, rows, cols, z) == 0;
    var i :| 0 <= i < |ns| && ns[i] == q;
    assert !IsMine(At(g, ns[i]));
  }

  function MineW(t: Tile): nat { if t.mine then 1 else 0 }

  function RevW(t: Tile): nat { if t.rev then 1 else 0 }

  function HiddenW(t: Tile): nat { if t.rev then 0 else 1 }

  function FlagW(t: Tile): nat { if t.flag then 1 else 0 }

  /** The number of mines on the field. */
  function MineSum(g: Field): nat { GridSum(g, MineW) }

  /** The number of revealed cells. */
  function RevSum(g: Field): nat { GridSum(g, RevW) }

  /** The number of flagged cells. */
  function FlagSum(g: Field): nat { GridSum(g, FlagW) }

  // ---------------------------------------------------------------- placement

  /** `p` is the first-click cell `avoid` or one of its neighbours, where no mine may go. */
  predicate InSafeZone(avoid: Pos, p: Pos)
  {
    p == avoid || Adjacent(avoid, p)
  }

  /** The cell named by one pair of draws `(Math.random(), Math.random())`. */
  function Drawn(rows: nat, cols: nat, t: (real, real)): (p: Pos)
    requires 1 <= rows && 1 <= cols && IsUnit(t.0) && IsUnit(t.1)
    ensures InBounds(rows, cols, p)
  {
    Pos(Pick(t.0, rows), Pick(t.1, cols))
  }

  predicate Units(ts: seq<(real, real)>)
  {
    forall i :: 0 <= i < |ts| ==> IsUnit(ts[i].0) && IsUnit(ts[i].1)
  }

  /** A drawn cell may take a mine: outside the safe zone and not a mine already in `g`. */
  predicate Open(g: Field, rows: nat, cols: nat, avoid: Pos, p: Pos)
    requires IsRect(g, rows, cols) && InBounds(rows, cols, p)
  {
    !InSafeZone(avoid, p) && !At(g, p).mine
  }

  /** The distinct cells among the first `k` draws of `ts` that may take a mine. */
  function Hits(g: Field, rows: nat, cols: nat, avoid: Pos, ts: seq<(real, real)>, k: nat): set<Pos>
    requires IsRect(g, rows, cols) && 1 <= rows && 1 <= cols && Units(ts) && k <= |ts|
  {
    if k == 0 then {}
    else
      var p := Drawn(rows, cols, ts[k - 1]);
      Hits(g, rows, cols, avoid, ts, k - 1) + (if Open(g, rows, cols, avoid, p) then {p} else {})
  }

  /** Every hit lies on the field, outside the safe zone, on a cell without a mine. */
  lemma {:induction false} HitsOpen(g: Field, rows: nat, cols: nat, avoid: Pos, ts: seq<(real, real)>, k: nat, p: Pos)
    requires IsRect(g, rows, cols) && 1 <= rows && 1 <= cols && Units(ts) && k <= |ts|
    requires p in Hits(g, rows, cols, avoid, ts, k)
    ensures InBounds(rows, cols, p) && Open(g, rows, cols, avoid, p)
  {
    var last := Drawn(rows, cols, ts[k - 1]);
    if p != last || !Open(g, rows, cols, avoid, last) {
      HitsOpen(g, rows, cols, avoid, ts, k - 1, p);
    }
  }

  /** `g` with a mine laid on every cell of `hs`. */
  function Lay(g: Field, hs: set<Pos>): (h: Field)
    ensures |h| == |g| && forall a :: 0 <= a < |g| ==> |h[a]| == |g[a]|
  {
    seq(|g|, a requires 0 <= a < |g| =>
      seq(|g[a]|, b requires 0 <= b < |g[a]| => if Pos(a, b) in hs then g[a][b].(mine := true) else g[a][b]))
  }

  /** The cells of `Lay(g, hs)`: a mine on the cells of `hs`, everything else as in `g`. */
  lemma LayAt(g: Field, hs: set<Pos>, p: Pos)
    requires Holds(g, p)
    ensures At(Lay(g, hs), p) == if p in hs then At(g, p).(mine := true) else At(g, p)
  {
  }

  /** Laying no mine changes nothing. */
  lemma LayNone(g: Field)
    ensures Lay(g, {}) == g
  {
    var l := Lay(g, {});
    forall a | 0 <= a < |g|
      ensures l[a] == g[a]
    {
      assert |l[a]| == |g[a]|;
    }
  }

  /** Laying a mine on one more cell, which has none yet. */
  lemma LayOne(g: Field, hs: set<Pos>, p: Pos)
    requires Holds(g, p) && p !in hs
    ensures Lay(g, hs + {p}) == Set2(Lay(g, hs), p.r, p.c, At(g, p).(mine := true))
  {
    var l, m := Lay(g, hs + {p}), Set2(Lay(g, hs), p.r, p.c, At(g, p).(mine := true));
    assert |l| == |m|;
    forall a | 0 <= a < |l|
      ensures l[a] == m[a]
    {
      assert |l[a]| == |m[a]|;
    }
  }

  /** After `i` tries: `placed` mines laid, one on each hit so far. */
  ghost predicate Scattered(g: Field, h: Field, rows: nat, cols: nat, avoid: Pos, tries: seq<(real, real)>, i: nat, placed: nat)
    requires IsRect(g, rows, cols) && 1 <= rows && 1 <= cols && Units(tries) && i <= |tries|
  {
    var hs := Hits(g, rows, cols, avoid, tries, i);
    placed == |hs| && h == Lay(g, hs) && MineSum(h) == MineSum(g) + placed
  }

  /** A dropped try keeps `Scattered`. */
  lemma ScatterSkip(g: Field, h: Field, rows: nat, cols: nat, avoid: Pos, tries: seq<(real, real)>, i: nat, placed: nat)
    requires IsRect(g, rows, cols) && 1 <= rows && 1 <= cols && Units(tries) && i < |tries|
    requires Scattered(g, h, rows, cols, avoid, tries, i, placed)
    requires InSafeZone(avoid, Drawn(rows, cols, tries[i])) || At(h, Drawn(rows, cols, tries[i])).mine
    ensures Scattered(g, h, rows, cols, avoid, tries, i + 1, placed)
  {
    var p := Drawn(rows, cols, tries[i]);
    var hs := Hits(g, rows, cols, avoid, tries, i);
    if Open(g, rows, cols, avoid, p) {
      LayAt(g, hs, p);
      assert hs + {p} == hs;
    }
  }

  /** A try on an open cell lays a mine there and keeps `Scattered` with one more mine. */
  lemma ScatterLay(g: Field, h: Field, rows: nat, cols: nat, avoid: Pos, tries: seq<(real, real)>, i: nat, placed: nat)
    requires IsRect(g, rows, cols) && 1 <= rows && 1 <= cols && Units(tries) && i < |tries|
    requires Scattered(g, h, rows, cols, avoid, tries, i, placed)
    requires !InSafeZone(avoid, Drawn(rows, cols, tries[i])) && !At(h, Drawn(rows, cols, tries[i])).mine
    ensures var p := Drawn(rows, cols, tries[i]);
      Scattered(g, Set2(h, p.r, p.c, At(h, p).(mine := true)), rows, cols, avoid, tries, i + 1, placed + 1)
  {
    var p := Drawn(rows, cols, tries[i]);
    var hs := Hits(g, rows, cols, avoid, tries, i);
    assert Hits(g, rows, cols, avoid, tries, i + 1) == hs + {p};
    assert p !in hs;
    LayOne(g, hs, p);
    GridSumUpdate(h, p.r, p.c, At(h, p).(mine := true), MineW);
  }

  /** While mines remain to be laid, the draws are not used up. */
  lemma ScatterMore(g: Field, h: Field, rows: nat, cols: nat, avoid: Pos, tries: seq<(real, real)>, mines: nat, i: nat, placed: nat)
    requires IsRect(g, rows, cols) && 1 <= rows && 1 <= cols && Units(tries) && i <= |tries|
    requires mines <= |Hits(g, rows, cols, avoid, tries, |tries|)|
    requires Scattered(g, h, rows, cols, avoid, tries, i, placed) && placed < mines
    ensures i < |tries|
  {
  }

  /** What the laid mines look like cell by cell. */
  lemma ScatterDone(g: Field, h: Field, rows: nat, cols: nat, avoid: Pos, tries: seq<(real, real)>, i: nat, placed: nat)
    requires IsRect(g, rows, cols) && 1 <= rows && 1 <= cols && Units(tries) && i <= |tries|
    requires Scattered(g, h, rows, cols, avoid, tries, i, placed)
    ensures IsRect(h, rows, cols)
    ensures forall a, b :: 0 <= a < rows && 0 <= b < cols ==>
      h[a][b] == g[a][b] || (h[a][b] == g[a][b].(mine := true) && Open(g, rows, cols, avoid, Pos(a, b)))
  {
    forall a, b | 0 <= a < rows && 0 <= b < cols
      ensures h[a][b] == g[a][b] || (h[a][b] == g[a][b].(mine := true) && Open(g, rows, cols, avoid, Pos(a, b)))
    {
      var hs := Hits(g, rows, cols, avoid, tries, i);
      LayAt(g, hs, Pos(a, b));
      if Pos(a, b) in hs {
        HitsOpen(g, rows, cols, avoid, tries, i, Pos(a, b));
      }
    }
  }

  /**
   * The retry loop of `placeMines`: each try draws a row and a column and
   * drops the cell when it is in the safe zone or already a mine. The source
   * loops until every mine is down; it stops exactly when the draws have named
   * `mines` distinct acceptable cells, which the precondition provides.
   */
  method Scatter(g: Field, rows: nat, cols: nat, mines: nat, avoid: Pos, tries: seq<(real, real)>) returns (h: Field)
    requires IsRect(g, rows, cols) && 1 <= rows && 1 <= cols && Units(tries)
    requires mines <= |Hits(g, rows, cols, avoid, tries, |tries|)|
    ensures IsRect(h, rows, cols)
    ensures MineSum(h) == MineSum(g) + mines
    ensures forall a, b :: 0 <= a < rows && 0 <= b < cols ==>
      h[a][b] == g[a][b] || (h[a][b] == g[a][b].(mine := true) && Open(g, rows, cols, avoid, Pos(a, b)))
  {
    h := g;
    var placed: nat := 0;
    var i := 0;
    LayNone(g);
    while placed < mines
      invariant 0 <= i <= |tries| && placed <= mines
      invariant Scattered(g, h, rows, cols, avoid, tries, i, placed)
      decreases |tries| - i
    {
      ScatterMore(g, h, rows, cols, avoid, tries, mines, i, placed);
      h, placed := ScatterTry(g, h, rows, cols, avoid, tries, i, placed);
      i := i + 1;
    }
    ScatterDone(g, h, rows, cols, avoid, tries, i, placed);
  }

  /** One try of the retry loop: the drawn cell gets a mine unless it is in the safe zone or already holds one. */
  method ScatterTry(g: Field, h0: Field, rows: nat, cols: nat, avoid: Pos, tries: seq<(real, real)>, i: nat, placed0: nat)
      returns (h: Field, placed: nat)
    requires IsRect(g, rows, cols) && 1 <= rows && 1 <= cols && Units(tries) && i < |tries|
    requires Scattered(g, h0, rows, cols, avoid, tries, i, placed0)
    ensures Scattered(g, h, rows, cols, avoid, tries, i + 1, placed) && placed0 <= placed <= placed0 + 1
  {
    var p := Drawn(rows, cols, tries[i]);
    if InSafeZone(avoid, p) || At(h0, p).mine {
      ScatterSkip(g, h0, rows, cols, avoid, tries, i, placed0);
      return h0, placed0;
    }
    ScatterLay(g, h0, rows, cols, avoid, tries, i, placed0);
    h := Set2(h0, p.r, p.c, At(h0, p).(mine := true));
    placed := placed0 + 1;
  }

  /** The cell `(a, b)` after the numbering pass. */
  function NumberedTile(g: Field, rows: int, cols: int, a: int, b: int): Tile
    requires IsRect(g, rows, cols) && 0 <= a < rows && 0 <= b < cols
  {
    if g[a][b].mine then g[a][b] else g[a][b].(n := MinesAround(g, rows, cols, Pos(a, b)))
  }

  /** The field after the numbering pass has gone through the cells before `(a, b)` in row-major order. */
  function NumberedUpTo(g: Field, rows: nat, cols: nat, a: int, b: int): (h: Field)
    requires IsRect(g, rows, cols)
    ensures IsRect(h, rows, cols)
  {
    seq(rows, x requires 0 <= x < rows =>
      seq(cols, y requires 0 <= y < cols =>
        if x < a || (x == a && y < b) then NumberedTile(g, rows, cols, x, y) else g[x][y]))
  }

  /** A mine is skipped: the pass moves on with the field unchanged. */
  lemma NumberSkip(g: Field, rows: nat, cols: nat, a: int, b: int)
    requires IsRect(g, rows, cols) && 0 <= a < rows && 0 <= b < cols && g[a][b].mine
    ensures NumberedUpTo(g, rows, cols, a, b + 1) == NumberedUpTo(g, rows, cols, a, b)
  {
    var h0, h1 := NumberedUpTo(g, rows, cols, a, b), NumberedUpTo(g, rows, cols, a, b + 1);
    forall x | 0 <= x < rows
      ensures h1[x] == h0[x]
    {
      forall y | 0 <= y < cols
        ensures h1[x][y] == h0[x][y]
      {
        if x == a && y == b {
          assert h1[x][y] == NumberedTile(g, rows, cols, a, b) == g[a][b];
        }
      }
    }
  }

  /** A cell that is not a mine gets its number. */
  lemma NumberLay(g: Field, rows: nat, cols: nat, a: int, b: int)
    requires IsRect(g, rows, cols) && 0 <= a < rows && 0 <= b < cols
    ensures NumberedUpTo(g, rows, cols, a, b + 1) ==
      Set2(NumberedUpTo(g, rows, cols, a, b), a, b, NumberedTile(g, rows, cols, a, b))
  {
    var h0, h1 := NumberedUpTo(g, rows, cols, a, b), NumberedUpTo(g, rows, cols, a, b + 1);
    var s := Set2(h0, a, b, NumberedTile(g, rows, cols, a, b));
    forall x | 0 <= x < rows
      ensures h1[x] == s[x]
    {
      forall y | 0 <= y < cols
        ensures h1[x][y] == s[x][y]
      {
        if x != a || y != b {
          assert h1[x][y] == h0[x][y];
        }
      }
    }
  }

  /** Counting on the field as the pass has left it gives the count on the field it started from. */
  lemma NumberCount(g: Field, rows: nat, cols: nat, a: int, b: int, p: Pos)
    requires IsRect(g, rows, cols)
    ensures CountIn(NumberedUpTo(g, rows, cols, a, b), Around(rows, cols, p), IsMine) == MinesAround(g, rows, cols, p)
  {
    var h := NumberedUpTo(g, rows, cols, a, b);
    var ps := Around(rows, cols, p);
    forall i | 0 <= i < |ps|
      ensures Holds(h, ps[i]) && Holds(g, ps[i]) && At(h, ps[i]).mine == At(g, ps[i]).mine
    {
      NumberedMine(g, rows, cols, a, b, ps[i]);
    }
    CountSame(h, g, ps);
  }

  /** The cell the pass is at has not been touched yet. */
  lemma NumberPending(g: Field, rows: nat, cols: nat, a: int, b: int)
    requires IsRect(g, rows, cols) && 0 <= a < rows && 0 <= b < cols
    ensures At(NumberedUpTo(g, rows, cols, a, b), Pos(a, b)) == At(g, Pos(a, b))
  {
  }

  /** The pass changes no mine. */
  lemma NumberedMine(g: Field, rows: nat, cols: nat, a: int, b: int, q: Pos)
    requires IsRect(g, rows, cols) && InBounds(rows, cols, q)
    ensures Holds(NumberedUpTo(g, rows, cols, a, b), q) && Holds(g, q)
    ensures At(NumberedUpTo(g, rows, cols, a, b), q).mine == At(g, q).mine
  {
  }

  /** The end of a row is the start of the next. */
  lemma NumberRow(g: Field, rows: nat, cols: nat, a: int)
    requires IsRect(g, rows, cols)
    ensures NumberedUpTo(g, rows, cols, a, cols) == NumberedUpTo(g, rows, cols, a + 1, 0)
  {
    var h0, h1 := NumberedUpTo(g, rows, cols, a, cols), NumberedUpTo(g, rows, cols, a + 1, 0);
    forall x | 0 <= x < rows
      ensures h0[x] == h1[x]
    {
      forall y | 0 <= y < cols
        ensures h0[x][y] == h1[x][y]
      {
      }
    }
  }

  /** Before the pass nothing has changed. */
  lemma NumberNone(g: Field, rows: nat, cols: nat)
    requires IsRect(g, rows, cols)
    ensures NumberedUpTo(g, rows, cols, 0, 0) == g
  {
    var h := NumberedUpTo(g, rows, cols, 0, 0);
    forall x | 0 <= x < rows
      ensures h[x] == g[x]
    {
      forall y | 0 <= y < cols
        ensures h[x][y] == g[x][y]
      {
      }
    }
  }

  /** The finished pass: every safe cell holds its count, and nothing else has changed. */
  lemma NumberDone(g: Field, rows: nat, cols: nat)
    requires IsRect(g, rows, cols)
    ensures var h: Field := NumberedUpTo(g, rows, cols, rows, 0);
      Numbered(h, rows, cols) &&
      forall a, b :: 0 <= a < rows && 0 <= b < cols ==>
        h[a][b] == g[a][b].(n := h[a][b].n) && (g[a][b].mine ==> h[a][b] == g[a][b])
  {
    var h: Field := NumberedUpTo(g, rows, cols, rows, 0);
    NumberedAll(g, rows, cols);
    forall q | InBounds(rows, cols, q) && !At(h, q).mine
      ensures At(h, q).n == MinesAround(h, rows, cols, q)
    {
      assert h[q.r][q.c] == NumberedTile(g, rows, cols, q.r, q.c);
      var ns := Around(rows, cols, q);
      forall i | 0 <= i < |ns|
        ensures Holds(g, ns[i]) && Holds(h, ns[i]) && At(g, ns[i]).mine == At(h, ns[i]).mine
      {
        NumberedMine(g, rows, cols, rows, 0, ns[i]);
      }
      CountSame(g, h, ns);
    }
  }

  /** After the whole pass every cell is its numbered tile. */
  lemma NumberedAll(g: Field, rows: nat, cols: nat)
    requires IsRect(g, rows, cols)
    ensures forall a, b :: 0 <= a < rows && 0 <= b < cols ==>
      NumberedUpTo(g, rows, cols, rows, 0)[a][b] == NumberedTile(g, rows, cols, a, b)
  {
  }

  /** The pass keeps the number of mines. */
  lemma NumberMineSum(g: Field, rows: nat, cols: nat)
    requires IsRect(g, rows, cols)
    ensures MineSum(NumberedUpTo(g, rows, cols, rows, 0)) == MineSum(g)
  {
    var h := NumberedUpTo(g, rows, cols, rows, 0);
    forall a, b | 0 <= a < |g| && 0 <= b < |g[a]|
      ensures MineW(g[a][b]) == MineW(h[a][b])
    {
      NumberedMine(g, rows, cols, rows, 0, Pos(a, b));
    }
    GridSumMatch(g, h, MineW);
  }

  /** The "compute numbers" pass of `placeMines`: mines keep their record. */
  method Number(g: Field, rows: nat, cols: nat) returns (h: Field)
    requires IsRect(g, rows, cols)
    ensures IsRect(h, rows, cols) && Numbered(h, rows, cols)
    ensures forall a, b :: 0 <= a < rows && 0 <= b < cols ==>
      h[a][b] == g[a][b].(n := h[a][b].n) && (g[a][b].mine ==> h[a][b] == g[a][b])
    ensures MineSum(h) == MineSum(g)
  {
    h := g;
    NumberNone(g, rows, cols);
    for a := 0 to rows
      invariant h == NumberedUpTo(g, rows, cols, a, 0)
    {
      h := NumberRowAt(g, rows, cols, a, h);
    }
    NumberDone(g, rows, cols);
    NumberMineSum(g, rows, cols);
  }

  /** One pass of `placeMines`' outer numbering loop: row `a` numbered, left to right. */
  method NumberRowAt(g: Field, rows: nat, cols: nat, a: nat, h0: Field) returns (h: Field)
    requires IsRect(g, rows, cols) && a < rows && h0 == NumberedUpTo(g, rows, cols, a, 0)
    ensures h == NumberedUpTo(g, rows, cols, a + 1, 0)
  {
    h := h0;
    for b := 0 to cols
      invariant h == NumberedUpTo(g, rows, cols, a, b)
    {
      h := NumberCell(g, rows, cols, a, b, h);
    }
    NumberRow(g, rows, cols, a);
  }

  /** The body of the numbering loops at cell (`a`, `b`): a mine is skipped, any other cell gets the count of mines around it. */
  method NumberCell(g: Field, rows: nat, cols: nat, a: nat, b: nat, h0: Field) returns (h: Field)
    requires IsRect(g, rows, cols) && a < rows && b < cols && h0 == NumberedUpTo(g, rows, cols, a, b)
    ensures h == NumberedUpTo(g, rows, cols, a, b + 1)
  {
    var q := Pos(a, b);
    NumberPending(g, rows, cols, a, b);
    var t := At(h0, q);
    if t.mine {
      NumberSkip(g, rows, cols, a, b);
      return h0;
    }
    var ns := Around(rows, cols, q);
    AroundHolds(h0, rows, cols, ns);
    var k := CountAround(h0, ns, IsMine);
    NumberCount(g, rows, cols, a, b, q);
    NumberLay(g, rows, cols, a, b);
    h := Set2(h0, a, b, t.(n := k));
  }

  /** `placeMines(r, c)`: scatter the mines outside the safe zone, then number the field. */
  method PlaceMines(g: Field, rows: nat, cols: nat, mines: nat, avoid: Pos, tries: seq<(real, real)>) returns (h: Field)
    requires IsRect(g, rows, cols) && 1 <= rows && 1 <= cols && Units(tries)
    requires mines <= |Hits(g, rows, cols, avoid, tries, |tries|)|
    ensures IsRect(h, rows, cols) && Numbered(h, rows, cols)
    ensures MineSum(h) == MineSum(g) + mines
    ensures forall a, b :: 0 <= a < rows && 0 <= b < cols ==>
      h[a][b].rev == g[a][b].rev && h[a][b].flag == g[a][b].flag &&
      (h[a][b].mine == g[a][b].mine || Open(g, rows, cols, avoid, Pos(a, b)))
    ensures forall p :: InSafeZone(avoid, p) && InBounds(rows, cols, p) ==> At(h, p).mine == At(g, p).mine
  {
    var s := Scatter(g, rows, cols, mines, avoid, tries);
    h := Number(s, rows, cols);
  }
}
