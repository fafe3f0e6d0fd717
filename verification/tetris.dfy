/**
 * Tetris rules: a well of 22 rows by 10 columns (the top two rows hidden),
 * the seven tetrominoes in four rotations each, placement, moves, rotation
 * with wall kicks, locking, line clearing with its score, and the 7-bag
 * piece queue.
 */
module Tetris {
  import opened Wrappers
  import opened Grids
  import opened Draws

  const COLS := 10
  const ROWS := 22

  datatype Kind = I | O | T | L | J | S | Z

  /** The bag `refillBag()` starts from, in its declared order. */
  const BAG: seq<Kind> := [I, O, T, L, J, S, Z]

  /** The wall-kick offsets `rotate()` tries, in order. */
  const KICKS: seq<(int, int)> := [(0, 0), (-1, 0), (1, 0), (0, -1), (-2, 0), (2, 0)]

  /** A well cell: empty (`null`) or holding the colour of the kind that locked there. */
  type Cell = Option<Kind>
  type Well = seq<seq<Cell>>

  /** `S.cur`: a piece of some kind, in rotation `rot`, with its 4x4 matrix's top-left corner at column `x`, row `y`. */
  datatype Piece = Piece(kind: Kind, rot: int, x: int, y: int)

  /** A position in the well: column `x`, row `y` (row 0 at the top). */
  datatype Pos = Pos(x: int, y: int)

  /** `SHAPES`: for each kind in `BAG` order, the 4x4 matrix of each rotation, row-major, 1 where the piece has a block. */
  const SHAPES: seq<seq<seq<int>>> := [
    // I
    [[0,0,0,0, 1,1,1,1, 0,0,0,0, 0,0,0,0],
     [0,0,1,0, 0,0,1,0, 0,0,1,0, 0,0,1,0],
     [0,0,0,0, 1,1,1,1, 0,0,0,0, 0,0,0,0],
     [0,0,1,0, 0,0,1,0, 0,0,1,0, 0,0,1,0]],
    // O
    [[0,1,1,0, 0,1,1,0, 0,0,0,0, 0,0,0,0],
     [0,1,1,0, 0,1,1,0, 0,0,0,0, 0,0,0,0],
     [0,1,1,0, 0,1,1,0, 0,0,0,0, 0,0,0,0],
     [0,1,1,0, 0,1,1,0, 0,0,0,0, 0,0,0,0]],
    // T
    [[0,1,0,0, 1,1,1,0, 0,0,0,0, 0,0,0,0],
     [0,1,0,0, 0,1,1,0, 0,1,0,0, 0,0,0,0],
     [0,0,0,0, 1,1,1,0, 0,1,0,0, 0,0,0,0],
     [0,1,0,0, 1,1,0,0, 0,1,0,0, 0,0,0,0]],
    // L
    [[0,0,1,0, 1,1,1,0, 0,0,0,0, 0,0,0,0],
     [0,1,0,0, 0,1,0,0, 0,1,1,0, 0,0,0,0],
     [0,0,0,0, 1,1,1,0, 1,0,0,0, 0,0,0,0],
     [1,1,0,0, 0,1,0,0, 0,1,0,0, 0,0,0,0]],
    // J
    [[1,0,0,0, 1,1,1,0, 0,0,0,0, 0,0,0,0],
     [0,1,1,0, 0,1,0,0, 0,1,0,0, 0,0,0,0],
     [0,0,0,0, 1,1,1,0, 0,0,1,0, 0,0,0,0],
     [0,1,0,0, 0,1,0,0, 1,1,0,0, 0,0,0,0]],
    // S
    [[0,1,1,0, 1,1,0,0, 0,0,0,0, 0,0,0,0],
     [0,1,0,0, 0,1,1,0, 0,0,1,0, 0,0,0,0],
     [0,1,1,0, 1,1,0,0, 0,0,0,0, 0,0,0,0],
     [0,1,0,0, 0,1,1,0, 0,0,1,0, 0,0,0,0]],
    // Z
    [[1,1,0,0, 0,1,1,0, 0,0,0,0, 0,0,0,0],
     [0,0,1,0, 0,1,1,0, 0,1,0,0, 0,0,0,0],
     [1,1,0,0, 0,1,1,0, 0,0,0,0, 0,0,0,0],
     [0,0,1,0, 0,1,1,0, 0,1,0,0, 0,0,0,0]]
  ]

  /** The index of `k` in `BAG`. */
  function Ord(k: Kind): (n: nat)
    ensures n < 7 && BAG[n] == k
  {
    match k
    case I => 0 case O => 1 case T => 2 case L => 3 case J => 4 case S => 5 case Z => 6
  }

  /** `SHAPES[k][rot]`. */
  function Shape(k: Kind, rot: int): (m: seq<int>)
    requires 0 <= rot < 4
    ensures |m| == 16
  {
    SHAPES[Ord(k)][rot]
  }

  /** The piece's rotation indexes its kind's four matrices. */
  predicate Turned(p: Piece)
  {
    0 <= p.rot < 4
  }

  /** The piece's matrix, `SHAPES[type][rot]`. */
  function Matrix(p: Piece): (m: seq<int>)
    requires Turned(p)
    ensures |m| == 16
  {
    Shape(p.kind, p.rot)
  }

  /** The well position of entry `i` of a matrix whose top-left corner is at (`x`, `y`): column `x + i % 4`, row `y + i / 4` (`eachCell`). */
  function CellAt(x: int, y: int, i: int): Pos
  {
    Pos(x + i % 4, y + i / 4)
  }

  /** The matrix entry that lands on position `c`. */
  function IndexOf(x: int, y: int, c: Pos): int
  {
    (c.y - y) * 4 + (c.x - x)
  }

  /** Position `c` lies under a block of matrix `m` placed at (`x`, `y`). */
  predicate CoversAt(m: seq<int>, x: int, y: int, c: Pos)
    requires |m| == 16
  {
    0 <= c.x - x < 4 && 0 <= c.y - y < 4 && m[IndexOf(x, y, c)] != 0
  }

  /** A block may sit at `c`: inside the side walls, above the floor, and on an empty cell when inside the well (rows above the top are allowed). */
  predicate Free(g: Well, c: Pos)
    requires IsRect(g, ROWS, COLS)
  {
    && 0 <= c.x < COLS && c.y < ROWS
    && (0 <= c.y ==> g[c.y][c.x] == None)
  }

  /** Every block of matrix `m` placed at (`x`, `y`) may sit where it lands. */
  predicate FitsAt(g: Well, m: seq<int>, x: int, y: int)
    requires IsRect(g, ROWS, COLS) && |m| == 16
  {
    forall i :: 0 <= i < 16 && m[i] != 0 ==> Free(g, CellAt(x, y, i))
  }

  /** Entry `i` lands on a covered position exactly when it is a block, and it is that position's own entry. */
  lemma {:induction false} CellAtCovers(m: seq<int>, x: int, y: int, i: int)
    requires |m| == 16 && 0 <= i < 16
    ensures IndexOf(x, y, CellAt(x, y, i)) == i
    ensures CoversAt(m, x, y, CellAt(x, y, i)) <==> m[i] != 0
  {
  }

  /** A covered position is where its own entry lands. */
  lemma {:induction false} CoveredCell(m: seq<int>, x: int, y: int, c: Pos)
    requires |m| == 16 && CoversAt(m, x, y, c)
    ensures 0 <= IndexOf(x, y, c) < 16 && CellAt(x, y, IndexOf(x, y, c)) == c
  {
  }

  /** The scan fails exactly when some covered position is outside the side walls, below the floor, or on a filled cell. */
  lemma {:induction false} FitsAtIff(g: Well, m: seq<int>, x: int, y: int)
    requires IsRect(g, ROWS, COLS) && |m| == 16
    ensures FitsAt(g, m, x, y) <==> forall c :: CoversAt(m, x, y, c) ==> Free(g, c)
  {
    if FitsAt(g, m, x, y) {
      forall c | CoversAt(m, x, y, c)
        ensures Free(g, c)
      {
        CoveredCell(m, x, y, c);
      }
    }
    if forall c :: CoversAt(m, x, y, c) ==> Free(g, c) {
      forall i | 0 <= i < 16 && m[i] != 0
        ensures Free(g, CellAt(x, y, i))
      {
        CellAtCovers(m, x, y, i);
      }
    }
  }

  /** The loop of `canPlace`: `eachCell` visits the matrix entry by entry, and any block that may not sit clears `ok`. */
  method Scan(g: Well, m: seq<int>, x: int, y: int) returns (ok: bool)
    requires IsRect(g, ROWS, COLS) && |m| == 16
    ensures ok <==> FitsAt(g, m, x, y)
  {
    ok := true;
    for i := 0 to 16
      invariant ok <==> forall j :: 0 <= j < i && m[j] != 0 ==> Free(g, CellAt(x, y, j))
    {
      if m[i] != 0 {
        var cx, cy := x + i % 4, y + i / 4;
        if cx < 0 || cx >= COLS || cy >= ROWS {
          ok := false;
        } else if cy >= 0 && g[cy][cx] != None {
          ok := false;
        }
      }
    }
  }

  /** Position `c` is one of the piece's blocks. */
  predicate Covers(p: Piece, c: Pos)
    requires Turned(p)
  {
    CoversAt(Matrix(p), p.x, p.y, c)
  }

  /** `canPlace(x, y, rot, type)` as a predicate. */
  predicate Placeable(g: Well, p: Piece)
    requires IsRect(g, ROWS, COLS) && Turned(p)
  {
    FitsAt(g, Matrix(p), p.x, p.y)
  }

  /** `canPlace` is false exactly when some block of the piece is outside the side walls, below the floor, or on a filled cell. */
  lemma PlaceableIff(g: Well, p: Piece)
    requires IsRect(g, ROWS, COLS) && Turned(p)
    ensures Placeable(g, p) <==> forall c :: Covers(p, c) ==> Free(g, c)
  {
    FitsAtIff(g, Matrix(p), p.x, p.y);
  }

  /** `canPlace(x, y, rot, type)`: the scan of the piece's matrix. */
  method CanPlace(g: Well, p: Piece) returns (ok: bool)
    requires IsRect(g, ROWS, COLS) && Turned(p)
    ensures ok <==> Placeable(g, p)
  {
    ok := Scan(g, Shape(p.kind, p.rot), p.x, p.y);
  }

  /** Each matrix has a block at entry 5 or, for the upright I, at entry 6. */
  function Anchor(p: Piece): (i: int)
    requires Turned(p)
    ensures 0 <= i < 16 && 0 <= i / 4 && Matrix(p)[i] != 0
  {
    if p.kind == I && p.rot % 2 == 1 then 6 else 5
  }

  /** A placeable piece's matrix starts above the floor. */
  lemma PlaceableAbove(g: Well, p: Piece)
    requires IsRect(g, ROWS, COLS) && Turned(p) && Placeable(g, p)
    ensures p.y < ROWS
  {
    var i := Anchor(p);
    assert Free(g, CellAt(p.x, p.y, i));
  }

  /** The piece moved by `dx` columns and `dy` rows. */
  function Shifted(p: Piece, dx: int, dy: int): Piece
  {
    p.(x := p.x + dx, y := p.y + dy)
  }

  /** The piece in rotation `rot` tried with kick `k`. */
  function Kicked(p: Piece, rot: int, k: int): Piece
    requires 0 <= k < |KICKS|
  {
    Shifted(p.(rot := rot), KICKS[k].0, KICKS[k].1)
  }

  /** Whether each kick, in order, places the piece turned to rotation `rot`. */
  function KickFits(g: Well, p: Piece, rot: int): (oks: seq<bool>)
    requires IsRect(g, ROWS, COLS) && 0 <= rot < 4
    ensures |oks| == |KICKS|
  {
    seq(|KICKS|, j requires 0 <= j < |KICKS| => Placeable(g, Kicked(p, rot, j)))
  }

  /** The first index from `k` on whose entry holds, or `|oks|` when none does. */
  function FirstFit(oks: seq<bool>, k: nat): (j: nat)
    requires k <= |oks|
    ensures k <= j <= |oks|
    decreases |oks| - k
  {
    if k == |oks| || oks[k] then k else FirstFit(oks, k + 1)
  }

  /** The search stops at the first entry from `k` on that holds, and runs off the end exactly when none does. */
  lemma {:induction false} FirstFitIsFirst(oks: seq<bool>, k: nat)
    requires k <= |oks|
    ensures FirstFit(oks, k) < |oks| ==> oks[FirstFit(oks, k)]
    ensures forall m :: k <= m < FirstFit(oks, k) ==> !oks[m]
    decreases |oks| - k
  {
    if k < |oks| && !oks[k] {
      FirstFitIsFirst(oks, k + 1);
    }
  }

  /** The rotated piece at the first placeable kick, if any. */
  function FirstKick(g: Well, p: Piece, rot: int): Option<Piece>
    requires IsRect(g, ROWS, COLS) && 0 <= rot < 4
  {
    var j := FirstFit(KickFits(g, p, rot), 0);
    if j < |KICKS| then Some(Kicked(p, rot, j)) else None
  }

  /** The kick search finds no placement exactly when no kick places the rotated piece. */
  lemma FirstKickNone(g: Well, p: Piece, rot: int)
    requires IsRect(g, ROWS, COLS) && 0 <= rot < 4
    ensures FirstKick(g, p, rot).None? <==> forall j :: 0 <= j < |KICKS| ==> !Placeable(g, Kicked(p, rot, j))
  {
    var oks := KickFits(g, p, rot);
    FirstFitIsFirst(oks, 0);
    var j := FirstFit(oks, 0);
    if j < |KICKS| {
      assert oks[j];
    } else {
      forall m | 0 <= m < |KICKS|
        ensures !Placeable(g, Kicked(p, rot, m))
      {
        assert !oks[m];
      }
    }
  }

  /** When the kick search finds a placement, it is kick `j`: the first that places the rotated piece. */
  lemma FirstKickSome(g: Well, p: Piece, rot: int) returns (j: int)
    requires IsRect(g, ROWS, COLS) && 0 <= rot < 4 && FirstKick(g, p, rot).Some?
    ensures 0 <= j < |KICKS| && FirstKick(g, p, rot).value == Kicked(p, rot, j) && Placeable(g, Kicked(p, rot, j))
    ensures forall m :: 0 <= m < j ==> !Placeable(g, Kicked(p, rot, m))
  {
    var oks := KickFits(g, p, rot);
    FirstFitIsFirst(oks, 0);
    j := FirstFit(oks, 0);
    assert oks[j];
    forall m | 0 <= m < j
      ensures !Placeable(g, Kicked(p, rot, m))
    {
      assert !oks[m];
    }
  }

  /** `(rot + delta + 4) % 4`; the operand is never negative, so the remainder is also JavaScript's. */
  function NextRot(rot: int, delta: int): (r: int)
    requires 0 <= rot && -4 <= delta
    ensures 0 <= r < 4
  {
    (rot + delta + 4) % 4
  }

  /** `rotate(delta)`'s outcome: the next rotation at the first placeable kick, if any. */
  function Rotation(g: Well, p: Piece, delta: int): Option<Piece>
    requires IsRect(g, ROWS, COLS) && Turned(p) && -4 <= delta
  {
    FirstKick(g, p, NextRot(p.rot, delta))
  }

  /** The kick loop of `rotate`: the index of the first placeable kick, or `|KICKS|` when there is none. */
  method FindKick(g: Well, p: Piece, rot: int) returns (k: nat)
    requires IsRect(g, ROWS, COLS) && 0 <= rot < 4
    ensures k <= |KICKS|
    ensures FirstKick(g, p, rot) == if k < |KICKS| then Some(Kicked(p, rot, k)) else None
  {
    k := 0;
    ghost var oks := KickFits(g, p, rot);
    while k < |KICKS|
      invariant k <= |KICKS| && FirstFit(oks, 0) == FirstFit(oks, k)
    {
      var ok := CanPlace(g, Kicked(p, rot, k));
      if ok {
        return;
      }
      k := k + 1;
    }
  }

  /** How many rows the piece can fall: it keeps moving down while the next row down is placeable. */
  function DropDist(g: Well, p: Piece): nat
    requires IsRect(g, ROWS, COLS) && Turned(p)
    decreases ROWS - p.y
  {
    if Placeable(g, Shifted(p, 0, 1)) then
      PlaceableAbove(g, Shifted(p, 0, 1));
      1 + DropDist(g, Shifted(p, 0, 1))
    else 0
  }

  /** One step of the fall: the distance is one more than from the next row down when that row is placeable, else zero. */
  lemma DropUnfold(g: Well, p: Piece)
    requires IsRect(g, ROWS, COLS) && Turned(p)
    ensures DropDist(g, p) == if Placeable(g, Shifted(p, 0, 1)) then 1 + DropDist(g, Shifted(p, 0, 1)) else 0
  {
  }

  /** Where `hardDrop()` locks the piece. */
  function Landed(g: Well, p: Piece): Piece
    requires IsRect(g, ROWS, COLS) && Turned(p)
  {
    Shifted(p, 0, DropDist(g, p))
  }

  /** A placeable piece lands on a placeable spot from which it cannot move further down. */
  lemma {:induction false} LandedRests(g: Well, p: Piece)
    requires IsRect(g, ROWS, COLS) && Turned(p) && Placeable(g, p)
    ensures Placeable(g, Landed(g, p)) && !Placeable(g, Shifted(Landed(g, p), 0, 1))
    decreases ROWS - p.y
  {
    if Placeable(g, Shifted(p, 0, 1)) {
      PlaceableAbove(g, Shifted(p, 0, 1));
      LandedRests(g, Shifted(p, 0, 1));
      assert Landed(g, p) == Landed(g, Shifted(p, 0, 1));
    }
  }

  /** The blocks of entries before `k` of matrix `m` at (`x`, `y`) written into the well as `v`, skipping those outside it. */
  function StampUpTo(g: Well, m: seq<int>, x: int, y: int, v: Kind, k: int): (h: Well)
    requires IsRect(g, ROWS, COLS) && |m| == 16 && 0 <= k <= 16
    ensures IsRect(h, ROWS, COLS)
    decreases k
  {
    if k == 0 then g
    else
      var h := StampUpTo(g, m, x, y, v, k - 1);
      var c := CellAt(x, y, k - 1);
      if m[k - 1] != 0 && 0 <= c.y < ROWS && 0 <= c.x < COLS then Set2(h, c.y, c.x, Some(v))
      else h
  }

  /** After the first `k` entries, a well cell holds `v` if an entry before `k` covers it, and is unchanged otherwise. */
  lemma {:induction false} StampUpToCells(g: Well, m: seq<int>, x: int, y: int, v: Kind, k: int, r: int, c: int)
    requires IsRect(g, ROWS, COLS) && |m| == 16 && 0 <= k <= 16
    requires 0 <= r < ROWS && 0 <= c < COLS
    ensures StampUpTo(g, m, x, y, v, k)[r][c] ==
      if CoversAt(m, x, y, Pos(c, r)) && IndexOf(x, y, Pos(c, r)) < k then Some(v) else g[r][c]
    decreases k
  {
    if k > 0 {
      StampUpToCells(g, m, x, y, v, k - 1, r, c);
      StampStep(g, m, x, y, v, k, r, c);
      EntryLands(m, x, y, k - 1, Pos(c, r));
    }
  }

  /** Entry `k - 1` changes only the cell it lands on, and only when it is a block. */
  lemma {:induction false} StampStep(g: Well, m: seq<int>, x: int, y: int, v: Kind, k: int, r: int, c: int)
    requires IsRect(g, ROWS, COLS) && |m| == 16 && 0 < k <= 16
    requires 0 <= r < ROWS && 0 <= c < COLS
    ensures StampUpTo(g, m, x, y, v, k)[r][c] ==
      if m[k - 1] != 0 && CellAt(x, y, k - 1) == Pos(c, r) then Some(v) else StampUpTo(g, m, x, y, v, k - 1)[r][c]
  {
    var h := StampUpTo(g, m, x, y, v, k - 1);
    var q := CellAt(x, y, k - 1);
    if m[k - 1] != 0 && 0 <= q.y < ROWS && 0 <= q.x < COLS {
      assert StampUpTo(g, m, x, y, v, k) == Set2(h, q.y, q.x, Some(v));
    }
  }

  /** Entry `i` of the matrix lands on `q` exactly when `q` is covered through entry `i`. */
  lemma {:induction false} EntryLands(m: seq<int>, x: int, y: int, i: int, q: Pos)
    requires |m| == 16 && 0 <= i < 16
    ensures (CoversAt(m, x, y, q) && IndexOf(x, y, q) == i) <==> (m[i] != 0 && CellAt(x, y, i) == q)
  {
    CellAtCovers(m, x, y, i);
    if CoversAt(m, x, y, q) {
      CoveredCell(m, x, y, q);
    }
  }

  /** One more entry of the scan: its block is written when it lands inside the well. */
  lemma StampNext(g: Well, m: seq<int>, x: int, y: int, v: Kind, i: int)
    requires IsRect(g, ROWS, COLS) && |m| == 16 && 0 <= i < 16
    ensures var h := StampUpTo(g, m, x, y, v, i);
            var c := CellAt(x, y, i);
            StampUpTo(g, m, x, y, v, i + 1) ==
              if m[i] != 0 && 0 <= c.y < ROWS && 0 <= c.x < COLS then Set2(h, c.y, c.x, Some(v)) else h
  {
  }

  /** The write loop of `lockPiece`: `eachCell` visits the matrix in row-major order and writes each block that lies in the well. */
  method StampCells(g: Well, m: seq<int>, x: int, y: int, v: Kind) returns (h: Well)
    requires IsRect(g, ROWS, COLS) && |m| == 16
    ensures h == StampUpTo(g, m, x, y, v, 16)
  {
    h := g;
    for i := 0 to 16
      invariant h == StampUpTo(g, m, x, y, v, i)
    {
      var c := CellAt(x, y, i);
      StampNext(g, m, x, y, v, i);
      if m[i] != 0 && c.y >= 0 && c.y < ROWS && c.x >= 0 && c.x < COLS {
        h := Set2(h, c.y, c.x, Some(v));
      }
    }
  }

  /** The well with the whole piece written into it. */
  function Stamped(g: Well, p: Piece): Well
    requires IsRect(g, ROWS, COLS) && Turned(p)
  {
    StampUpTo(g, Matrix(p), p.x, p.y, p.kind, 16)
  }

  /** `lockPiece`'s writes: a well cell holds the piece's kind if the piece covers it, and is unchanged otherwise. */
  lemma StampedCells(g: Well, p: Piece)
    requires IsRect(g, ROWS, COLS) && Turned(p)
    ensures IsRect(Stamped(g, p), ROWS, COLS)
    ensures forall r, c :: 0 <= r < ROWS && 0 <= c < COLS ==>
      Stamped(g, p)[r][c] == if Covers(p, Pos(c, r)) then Some(p.kind) else g[r][c]
  {
    forall r, c | 0 <= r < ROWS && 0 <= c < COLS
      ensures Stamped(g, p)[r][c] == if Covers(p, Pos(c, r)) then Some(p.kind) else g[r][c]
    {
      StampUpToCells(g, Matrix(p), p.x, p.y, p.kind, 16, r, c);
      if Covers(p, Pos(c, r)) {
        CoveredCell(Matrix(p), p.x, p.y, Pos(c, r));
      }
    }
  }

  /** `row.every(Boolean)`: no empty cell in the row. */
  predicate Full(row: seq<Cell>)
  {
    forall c :: 0 <= c < |row| ==> row[c].Some?
  }

  /** The rows of `g` that are not full, in their order. */
  function Kept(g: Well): (k: Well)
    ensures forall r :: 0 <= r < |k| ==> k[r] in g && !Full(k[r])
  {
    if g == [] then []
    else Kept(g[..|g| - 1]) + (if Full(g[|g| - 1]) then [] else [g[|g| - 1]])
  }

  /** The number of full rows in `g`. */
  function FullCount(g: Well): nat
  {
    if g == [] then 0
    else FullCount(g[..|g| - 1]) + (if Full(g[|g| - 1]) then 1 else 0)
  }

  /** Every row is either kept or counted. */
  lemma {:induction false} KeptCount(g: Well)
    ensures |Kept(g)| + FullCount(g) == |g|
  {
    if g != [] {
      KeptCount(g[..|g| - 1]);
    }
  }

  /** `n` empty rows. */
  function EmptyRows(n: nat): (e: Well)
    ensures IsRect(e, n, COLS)
    ensures forall r :: 0 <= r < n ==> !Full(e[r])
  {
    var e := Filled(n, COLS, None);
    assert forall r :: 0 <= r < n ==> e[r][0] == None;
    e
  }

  /** The well after `clearLines()`: its full rows removed and as many empty rows added on top. */
  function Cleared(g: Well): Well
  {
    EmptyRows(FullCount(g)) + Kept(g)
  }

  /** Clearing keeps the well 22 rows of 10 cells and leaves no full row. */
  lemma ClearedShape(g: Well)
    requires IsRect(g, ROWS, COLS)
    ensures IsRect(Cleared(g), ROWS, COLS)
    ensures forall r :: 0 <= r < ROWS ==> !Full(Cleared(g)[r])
  {
    KeptCount(g);
    var e := EmptyRows(FullCount(g));
    forall r | 0 <= r < |Kept(g)|
      ensures |Kept(g)[r]| == COLS
    {
      assert Kept(g)[r] in g;
    }
    assert forall r :: 0 <= r < |e| ==> Cleared(g)[r] == e[r];
    assert forall r :: |e| <= r < ROWS ==> Cleared(g)[r] == Kept(g)[r - |e|];
  }

  /** The points for clearing `n` rows at level 1: `[0, 100, 300, 500, 800][n]`, or `n * 200` past the table. */
  function Base(n: nat): nat
  {
    if n < 5 then [0, 100, 300, 500, 800][n] else n * 200
  }

  /** The points `clearLines` awards for `n` rows at `level`: the table points times the level. */
  function Points(n: nat, level: nat): nat
  {
    Base(n) * level
  }

  /** One pass of `clearLines`' loop over row `r`: the prefix before `r` has had its full rows moved out and empty rows put on top. */
  lemma {:induction false} SweepShape(g: Well, w: Well, r: int, n: nat)
    requires 0 <= r < |g| && n == FullCount(g[..r])
    requires w == EmptyRows(n) + Kept(g[..r]) + g[r..]
    ensures |Kept(g[..r])| + n == r && |w| == |g| && w[r] == g[r]
    ensures w[..r] == EmptyRows(n) + Kept(g[..r]) && w[r + 1..] == g[r + 1..]
  {
    KeptCount(g[..r]);
    assert g[r..] == [g[r]] + g[r + 1..];
  }

  /** A full row `r` is spliced out and an empty row put on top: the prefix through `r` is swept. */
  lemma {:induction false} SweepFull(g: Well, w: Well, r: int, n: nat)
    requires 0 <= r < |g| == |w| && n == FullCount(g[..r]) && Full(g[r])
    requires w[..r] == EmptyRows(n) + Kept(g[..r]) && w[r + 1..] == g[r + 1..]
    ensures n + 1 == FullCount(g[..r + 1])
    ensures [seq(COLS, _ => None)] + w[..r] + w[r + 1..] == EmptyRows(n + 1) + Kept(g[..r + 1]) + g[r + 1..]
  {
    assert g[..r + 1][..r] == g[..r];
    assert EmptyRows(n + 1) == [seq(COLS, _ => None)] + EmptyRows(n);
  }

  /** A row `r` that is not full stays where it is: the prefix through `r` is swept. */
  lemma {:induction false} SweepKeep(g: Well, w: Well, r: int, n: nat)
    requires 0 <= r < |g| == |w| && n == FullCount(g[..r]) && !Full(g[r]) && w[r] == g[r]
    requires w[..r] == EmptyRows(n) + Kept(g[..r]) && w[r + 1..] == g[r + 1..]
    ensures n == FullCount(g[..r + 1])
    ensures w == EmptyRows(n) + Kept(g[..r + 1]) + g[r + 1..]
  {
    assert g[..r + 1][..r] == g[..r];
    assert w == w[..r] + [w[r]] + w[r + 1..];
  }

  /** The loop of `clearLines`: each full row is spliced out and an empty row put on top; returns the new well and the count. */
  method SweepRows(g: Well) returns (w: Well, cleared: nat)
    requires IsRect(g, ROWS, COLS)
    ensures w == Cleared(g) && cleared == FullCount(g)
  {
    w := g;
    cleared := 0;
    for r := 0 to ROWS
      invariant cleared == FullCount(g[..r])
      invariant w == EmptyRows(cleared) + Kept(g[..r]) + g[r..]
    {
      SweepShape(g, w, r, cleared);
      if Full(w[r]) {
        SweepFull(g, w, r, cleared);
        w := [seq(COLS, _ => None)] + w[..r] + w[r + 1..];
        cleared := cleared + 1;
      } else {
        SweepKeep(g, w, r, cleared);
      }
    }
    assert g[..ROWS] == g;
  }

  /** `refillBag`'s state before handling index `i`: the swaps for indices 6 down to `i + 1` done, draw `6 - j` serving index `j`. */
  function ShuffledDown(draws: seq<real>, i: nat): (b: seq<Kind>)
    requires |draws| == 6 && (forall k :: 0 <= k < 6 ==> IsUnit(draws[k])) && i <= 6
    ensures |b| == 7
    decreases 6 - i
  {
    if i == 6 then BAG
    else
      var b := ShuffledDown(draws, i + 1);
      var j := Pick(draws[5 - i], i + 2);
      b[i + 1 := b[j]][j := b[i + 1]]
  }

  /** The bag `refillBag()` appends for the draws given. */
  function Shuffle(draws: seq<real>): (b: seq<Kind>)
    requires |draws| == 6 && forall k :: 0 <= k < 6 ==> IsUnit(draws[k])
  {
    ShuffledDown(draws, 0)
  }

  /** Every partial shuffle is a permutation of the seven kinds. */
  lemma {:induction false} ShuffledPerm(draws: seq<real>, i: nat)
    requires |draws| == 6 && (forall k :: 0 <= k < 6 ==> IsUnit(draws[k])) && i <= 6
    ensures multiset(ShuffledDown(draws, i)) == multiset(BAG)
    decreases 6 - i
  {
    if i < 6 {
      ShuffledPerm(draws, i + 1);
      var b := ShuffledDown(draws, i + 1);
      var j := Pick(draws[5 - i], i + 2);
      SwapPerm(b, i + 1, j);
    }
  }

  lemma SwapPerm<A>(b: seq<A>, i: int, j: int)
    requires 0 <= i < |b| && 0 <= j < |b|
    ensures multiset(b[i := b[j]][j := b[i]]) == multiset(b)
  {
  }

  /** `refillBag()` appends each of the seven kinds exactly once. */
  lemma ShuffleBag(draws: seq<real>)
    requires |draws| == 6 && forall k :: 0 <= k < 6 ==> IsUnit(draws[k])
    ensures multiset(Shuffle(draws)) == multiset(BAG)
    ensures forall k: Kind :: multiset(Shuffle(draws))[k] == 1
  {
    ShuffledPerm(draws, 0);
    forall k: Kind
      ensures multiset(BAG)[k] == 1
    {
      BagOnce(k);
    }
  }

  /** The starting bag holds each kind once. */
  lemma BagOnce(k: Kind)
    ensures multiset(BAG)[k] == 1
  {
    assert multiset(BAG) == multiset{I} + multiset{O} + multiset{T} + multiset{L} + multiset{J} + multiset{S} + multiset{Z};
  }

  /** The shuffle loop of `refillBag()`: the seven kinds in an array, swapped in place from the last index down. */
  method NewBag(draws: seq<real>) returns (b: seq<Kind>)
    requires BagDraws(draws)
    ensures b == Shuffle(draws)
  {
    var bag := new Kind[7] [I, O, T, L, J, S, Z];
    var i := 6;
    while i > 0
      invariant 0 <= i <= 6 && bag[..] == ShuffledDown(draws, i)
    {
      var j := Pick(draws[6 - i], i + 1);
      ghost var was := bag[..];
      bag[i], bag[j] := bag[j], bag[i];
      assert bag[..] == was[i := was[j]][j := was[i]];
      i := i - 1;
    }
    b := bag[..];
  }

  /** The queue after `spawnNext()`'s refill check: a new bag appended when fewer than four are queued. */
  function Refilled(q: seq<Kind>, draws: seq<real>): (r: seq<Kind>)
    requires |draws| == 6 && forall k :: 0 <= k < 6 ==> IsUnit(draws[k])
    ensures |r| >= 4 && q <= r
  {
    if |q| < 4 then q + Shuffle(draws) else q
  }

  /** The spawn placement: rotation 0, column 3, row 0. */
  function Spawn(k: Kind): Piece
  {
    Piece(k, 0, 3, 0)
  }

  /** A bag's draws: six values in [0, 1). */
  predicate BagDraws(draws: seq<real>)
  {
    |draws| == 6 && forall k :: 0 <= k < 6 ==> IsUnit(draws[k])
  }

  /** The empty well of `newGame()`. */
  function EmptyWell(): (g: Well)
    ensures IsRect(g, ROWS, COLS) && forall r :: 0 <= r < ROWS ==> !Full(g[r])
  {
    EmptyRows(ROWS)
  }

  /** The loop of `newGame()` that empties every row of the well. */
  method ClearWell(g: Well) returns (w: Well)
    requires IsRect(g, ROWS, COLS)
    ensures w == EmptyWell()
  {
    w := g;
    for r := 0 to ROWS
      invariant IsRect(w, ROWS, COLS)
      invariant forall a, b :: 0 <= a < r && 0 <= b < COLS ==> w[a][b] == None
    {
      w := w[r := seq(COLS, _ => None)];
    }
    FilledUnique(w, ROWS, COLS, None);
  }

  /** A new game's first spawn: one bag is queued, so no second refill is drawn, and the first piece fits. */
  lemma FreshStart(bag: seq<real>, spare: seq<real>)
    requires BagDraws(bag) && BagDraws(spare)
    ensures Refilled(Shuffle(bag), spare) == Shuffle(bag)
    ensures Placeable(EmptyWell(), Spawn(Shuffle(bag)[0]))
  {
    SpawnFits(Shuffle(bag)[0]);
  }

  /** Every piece can spawn in an empty well. */
  lemma SpawnFits(k: Kind)
    ensures Placeable(EmptyWell(), Spawn(k))
  {
  }

  /** A snapshot of the fields of `Game`. */
  datatype Snap = Snap(running: bool, paused: bool, score: int, lines: int, level: int, grid: Well, cur: Option<Piece>, queue: seq<Kind>)

  /** The state object `S` of the Tetris page (timing and drawing left out). */
  class Game {
    var running: bool
    var paused: bool
    var score: int
    var lines: int
    var level: int
    var grid: Well
    var cur: Option<Piece>
    var queue: seq<Kind>

    /** The well is 22 by 10 without a full row, a running game has a current piece, and the level follows the line count. */
    ghost predicate Valid()
      reads this
    {
      Sound() && (running ==> cur.Some?)
    }

    /** All the fields, as one value. */
    function State(): Snap
      reads this
    {
      Snap(running, paused, score, lines, level, grid, cur, queue)
    }

    /** `Valid` but for the current piece, which `newGame()` only sets at its end. */
    ghost predicate Sound()
      reads this
    {
      && IsRect(grid, ROWS, COLS)
      && (forall r :: 0 <= r < ROWS ==> !Full(grid[r]))
      && (cur.Some? ==> Turned(cur.value))
      && 0 <= score && 0 <= lines && level == lines / 10 + 1
    }

    /** The idle page: no game running, an empty well and queue, no current piece. */
    constructor ()
      ensures Valid() && !running && !paused && score == 0 && lines == 0 && level == 1
      ensures grid == EmptyWell() && cur == None && queue == []
    {
      running, paused := false, false;
      score, lines, level := 0, 0, 1;
      grid := EmptyWell();
      cur, queue := None, [];
    }

    /**
     * `newGame()`: a running, unpaused game with no score or lines at level
     * 1, every well row cleared, and the queue emptied, refilled from the
     * draws `bag` and the first piece spawned (a second refill, from `spare`,
     * is never needed).
     */
    method NewGame(bag: seq<real>, spare: seq<real>)
      requires Valid() && BagDraws(bag) && BagDraws(spare)
      modifies this
      ensures Valid()
      ensures State() == Snap(true, false, 0, 0, 1, EmptyWell(), Some(Spawn(Shuffle(bag)[0])), Shuffle(bag)[1..])
    {
      Reset(bag);
      FreshStart(bag, spare);
      SpawnNext(spare);
      assert queue == Shuffle(bag)[1..] && grid == EmptyWell();
    }

    /** `newGame()` up to its `spawnNext()`: the counters reset, the well emptied, and the queue emptied and refilled. */
    method Reset(bag: seq<real>)
      requires Valid() && BagDraws(bag)
      modifies this
      ensures Sound() && State() == Snap(true, false, 0, 0, 1, EmptyWell(), old(cur), Shuffle(bag))
    {
      var w := ClearWell(grid);
      running, paused, score, lines, level, grid, queue := true, false, 0, 0, 1, w, [];
      RefillBag(bag);
    }

    /** Whether the keys act: a game is running and not paused. */
    predicate Live()
      reads this
    {
      running && !paused
    }

    /** `refillBag()`: the seven kinds shuffled (Fisher-Yates, draw `6 - i` choosing the swap for index `i`) and appended to the queue. */
    method RefillBag(draws: seq<real>)
      requires BagDraws(draws)
      modifies this
      ensures queue == old(queue) + Shuffle(draws)
      ensures State() == old(State()).(queue := queue)
    {
      var bag := NewBag(draws);
      queue := queue + bag;
    }

    /**
     * `spawnNext()`: refill when fewer than four are queued, take the head of
     * the queue as the new piece at the spawn placement, and stop the game
     * if it cannot be placed there.
     */
    method SpawnNext(draws: seq<real>)
      requires Sound() && BagDraws(draws)
      modifies this
      ensures Valid()
      ensures var q := Refilled(old(queue), draws); queue == q[1..] && cur == Some(Spawn(q[0]))
      ensures running == (old(running) && Placeable(grid, cur.value))
      ensures State() == old(State()).(running := running, cur := cur, queue := queue)
    {
      if |queue| < 4 {
        RefillBag(draws);
      }
      var kind := queue[0];
      queue := queue[1..];
      var p := Spawn(kind);
      cur := Some(p);
      var ok := CanPlace(grid, p);
      if !ok {
        running := false;
      }
    }

    /** `move(dx, dy)`: the piece moves only in a live game and only to a placeable spot; reports whether it moved. */
    method Move(dx: int, dy: int) returns (moved: bool)
      requires Valid()
      modifies this
      ensures Valid()
      ensures moved <==> old(Live()) && Placeable(grid, Shifted(old(cur).value, dx, dy))
      ensures cur == if moved then Some(Shifted(old(cur).value, dx, dy)) else old(cur)
      ensures State() == old(State()).(cur := cur)
    {
      if !running || paused {
        return false;
      }
      var p := cur.value;
      var q := Shifted(p, dx, dy);
      moved := CanPlace(grid, q);
      if moved {
        cur := Some(q);
      }
    }

    /**
     * `rotate(delta)`: the next rotation `(rot + delta + 4) % 4` is tried at
     * each kick offset in order and the first placeable one is taken; with
     * none, the piece stays as it was.
     */
    method Rotate(delta: int) returns (turned: bool)
      requires Valid() && -4 <= delta
      modifies this
      ensures Valid()
      ensures turned <==> old(Live() && Rotation(grid, cur.value, delta).Some?)
      ensures cur == if turned then old(Rotation(grid, cur.value, delta)) else old(cur)
      ensures State() == old(State()).(cur := cur)
    {
      if !running || paused {
        return false;
      }
      var p := cur.value;
      var nrot := NextRot(p.rot, delta);
      var k := FindKick(grid, p, nrot);
      if k < |KICKS| {
        cur := Some(Kicked(p, nrot, k));
        return true;
      }
      return false;
    }

    /**
     * `lockPiece()`: the piece is written into the well, full rows are
     * cleared and scored, and the next piece spawns.
     */
    method LockPiece(draws: seq<real>)
      requires Valid() && cur.Some? && BagDraws(draws)
      modifies this
      ensures Valid()
      ensures var h := Stamped(old(grid), old(cur).value); var n := FullCount(h);
        && grid == Cleared(h)
        && lines == old(lines) + n
        && score == old(score) + Points(n, old(level))
      ensures var q := Refilled(old(queue), draws); queue == q[1..] && cur == Some(Spawn(q[0]))
      ensures running == (old(running) && Placeable(grid, cur.value)) && paused == old(paused)
    {
      var p := cur.value;
      grid := StampCells(grid, Matrix(p), p.x, p.y, p.kind);
      ClearLines();
      SpawnNext(draws);
    }

    /**
     * `clearLines()`: full rows are removed and empty rows put on top; when
     * any were cleared, the score gains the table points times the level,
     * the line count grows, and the level becomes `lines / 10 + 1`.
     */
    method ClearLines()
      requires IsRect(grid, ROWS, COLS) && 0 <= score && 0 <= lines && level == lines / 10 + 1
      modifies this
      ensures IsRect(grid, ROWS, COLS) && forall r :: 0 <= r < ROWS ==> !Full(grid[r])
      ensures grid == Cleared(old(grid))
      ensures lines == old(lines) + FullCount(old(grid)) && level == lines / 10 + 1
      ensures score == old(score) + Points(FullCount(old(grid)), old(level)) && 0 <= score
      ensures State() == old(State()).(grid := grid, score := score, lines := lines, level := level)
    {
      var w, cleared := SweepRows(grid);
      ClearedShape(grid);
      var sc, ln, lv := score, lines, level;
      if cleared > 0 {
        sc := sc + Points(cleared, lv);
        ln := ln + cleared;
        var newLevel := ln / 10 + 1;
        if newLevel != lv {
          lv := newLevel;
        }
      }
      grid, score, lines, level := w, sc, ln, lv;
    }

    /** `softDrop()`: in a live game, one row down for a point, or lock if the piece cannot move. */
    method SoftDrop(draws: seq<real>)
      requires Valid() && BagDraws(draws)
      modifies this
      ensures Valid()
      ensures !old(Live()) ==> unchanged(this)
      ensures old(Live()) && Placeable(old(grid), Shifted(old(cur).value, 0, 1)) ==>
        State() == old(State()).(cur := Some(Shifted(old(cur).value, 0, 1)), score := old(score) + 1)
      ensures old(Live()) && !Placeable(old(grid), Shifted(old(cur).value, 0, 1)) ==>
        var h := Stamped(old(grid), old(cur).value);
        var q := Refilled(old(queue), draws);
        && grid == Cleared(h)
        && score == old(score) + Points(FullCount(h), old(level))
        && lines == old(lines) + FullCount(h)
        && queue == q[1..] && cur == Some(Spawn(q[0]))
        && running == Placeable(grid, cur.value) && paused == old(paused)
    {
      if !running || paused {
        return;
      }
      var moved := Move(0, 1);
      if moved {
        score := score + 1;
      } else {
        LockPiece(draws);
      }
    }

    /** The loop of `hardDrop()`: `move(0, 1)` until it fails, counting the rows fallen. */
    method Fall() returns (dist: nat)
      requires Valid() && Live()
      modifies this
      ensures Valid() && dist == DropDist(old(grid), old(cur).value)
      ensures State() == old(State()).(cur := Some(Shifted(old(cur).value, 0, dist)))
    {
      ghost var p, g := cur.value, grid;
      dist := 0;
      var moved := Move(0, 1);
      DropUnfold(g, p);
      while moved
        invariant Valid() && State() == old(State()).(cur := cur)
        invariant cur.Some? && cur.value == Shifted(p, 0, dist + (if moved then 1 else 0))
        invariant moved ==> Placeable(g, cur.value)
        invariant DropDist(g, p) == dist + (if moved then 1 + DropDist(g, cur.value) else 0)
        decreases ROWS - cur.value.y + (if moved then 1 else 0)
      {
        ghost var c := cur.value;
        PlaceableAbove(g, c);
        DropUnfold(g, c);
        dist := dist + 1;
        moved := Move(0, 1);
      }
    }

    /**
     * `hardDrop()`: in a live game the piece moves down while it can, the
     * score gains two points per row dropped, and the piece locks where it
     * landed.
     */
    method HardDrop(draws: seq<real>)
      requires Valid() && BagDraws(draws)
      modifies this
      ensures Valid()
      ensures !old(Live()) ==> unchanged(this)
      ensures old(Live()) ==>
        var d := DropDist(old(grid), old(cur).value);
        var h := Stamped(old(grid), Shifted(old(cur).value, 0, d));
        && grid == Cleared(h)
        && score == old(score) + 2 * d + Points(FullCount(h), old(level))
        && lines == old(lines) + FullCount(h)
      ensures old(Live()) ==>
        var q := Refilled(old(queue), draws);
        && queue == q[1..] && cur == Some(Spawn(q[0]))
        && running == Placeable(grid, cur.value) && paused == old(paused)
    {
      if !running || paused {
        return;
      }
      var dist := Fall();
      score := score + dist * 2;
      LockPiece(draws);
    }

    /** `togglePause()`: a running game flips between paused and live; otherwise nothing happens. */
    method TogglePause()
      modifies this
      ensures State() == old(State()).(paused := if old(running) then !old(paused) else old(paused))
      ensures old(Valid()) ==> Valid()
    {
      if !running {
        return;
      }
      paused := !paused;
    }
  }
}
