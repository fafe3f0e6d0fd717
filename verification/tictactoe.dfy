/**
 * Tic-tac-toe (tictactoe/main.js): nine cells, eight winning lines, moves that
 * alternate between X and O, a score board, and a rule-based computer player
 * for O.
 */
module TicTacToe {
  import opened Wrappers

  datatype Mark = X | O

  function Other(m: Mark): (n: Mark)
    ensures n != m
  {
    if m == X then O else X
  }

  /** A board: cell `i` is `None` while empty. */
  type Board = seq<Option<Mark>>

  /** `n` empty cells. */
  function Blank(n: nat): (b: Board)
    ensures |b| == n && forall i :: 0 <= i < n ==> b[i].None?
  {
    seq(n, _ => None)
  }

  /** The eight lines, rows first, then columns, then the two diagonals. */
  const WINS: seq<(nat, nat, nat)> := [
    (0, 1, 2), (3, 4, 5), (6, 7, 8),
    (0, 3, 6), (1, 4, 7), (2, 5, 8),
    (0, 4, 8), (2, 4, 6)
  ]

  /** `lineWinner(b, a, c, d)`: the mark filling all three cells, if one does. */
  function LineWinner(b: Board, a: nat, c: nat, d: nat): (w: Option<Mark>)
    requires a < |b| && c < |b| && d < |b|
    ensures w.Some? <==> b[a].Some? && b[c] == b[a] && b[d] == b[a]
    ensures w.Some? ==> w == b[a] == b[c] == b[d]
  {
    var v := b[a];
    if v.Some? && v == b[c] && v == b[d] then v else None
  }

  /** Line `k` of `WINS` holds three equal marks. */
  predicate Wins(b: Board, k: nat)
    requires |b| == 9 && k < 8
  {
    LineWinner(b, WINS[k].0, WINS[k].1, WINS[k].2).Some?
  }

  /** The first line from `k` on that holds three equal marks, or 8 when none does. */
  function FirstLine(b: Board, k: nat): (j: nat)
    requires |b| == 9 && k <= 8
    ensures k <= j <= 8
    ensures j < 8 ==> Wins(b, j)
    ensures forall m :: k <= m < j ==> !Wins(b, m)
    decreases 8 - k
  {
    if k == 8 || Wins(b, k) then k else FirstLine(b, k + 1)
  }

  /** Every cell holds a mark (`b.every(Boolean)`). */
  predicate Filled(b: Board)
  {
    forall i :: 0 <= i < |b| ==> b[i].Some?
  }

  /** What `getWinner` reports when the game is decided. */
  datatype Outcome = Win(winner: Mark, line: (nat, nat, nat)) | Draw

  /** `getWinner(b)`. */
  function GetWinner(b: Board): (o: Option<Outcome>)
    requires |b| == 9
    ensures o.Some? && o.value.Win? <==> exists k :: 0 <= k < 8 && Wins(b, k)
    ensures o.Some? && o.value.Win? ==>
      exists k :: 0 <= k < 8 && Wins(b, k) && o.value.line == WINS[k]
        && b[WINS[k].0] == Some(o.value.winner) && forall m :: 0 <= m < k ==> !Wins(b, m)
    ensures o == Some(Draw) <==> (forall k :: 0 <= k < 8 ==> !Wins(b, k)) && Filled(b)
    ensures o == None <==> (forall k :: 0 <= k < 8 ==> !Wins(b, k)) && !Filled(b)
  {
    var j := FirstLine(b, 0);
    if j < 8 then
      var l := WINS[j];
      Some(Win(LineWinner(b, l.0, l.1, l.2).value, l))
    else if Filled(b) then Some(Draw)
    else None
  }

  /** The score board `{ X, O, D }`. */
  datatype Scores = Scores(x: nat, o: nat, d: nat)

  function Total(s: Scores): nat
  {
    s.x + s.o + s.d
  }

  /** The score part of `endGame(outcome)`: exactly one counter, the one of the outcome, goes up by one. */
  function Tally(s: Scores, out: Outcome): (t: Scores)
    ensures Total(t) == Total(s) + 1
    ensures t.d == s.d + (if out.Draw? then 1 else 0)
    ensures t.x == s.x + (if out.Win? && out.winner.X? then 1 else 0)
    ensures t.o == s.o + (if out.Win? && out.winner.O? then 1 else 0)
  {
    match out
    case Draw => s.(d := s.d + 1)
    case Win(w, _) => if w == X then s.(x := s.x + 1) else s.(o := s.o + 1)
  }

  /** The number of cells of `b` holding `v`. */
  function Count(b: Board, v: Option<Mark>): nat
  {
    if b == [] then 0 else (if b[0] == v then 1 else 0) + Count(b[1..], v)
  }

  /** Writing `w` into cell `i` moves one cell from the count of its old content to that of `w`. */
  lemma {:induction false} CountUpdate(b: Board, i: nat, w: Option<Mark>, v: Option<Mark>)
    requires i < |b|
    ensures Count(b[i := w], v) == Count(b, v) - (if b[i] == v then 1 else 0) + (if w == v then 1 else 0)
  {
    if i > 0 {
      assert b[i := w][1..] == b[1..][i - 1 := w];
      CountUpdate(b[1..], i - 1, w, v);
    } else {
      assert b[i := w][1..] == b[1..];
    }
  }

  lemma {:induction false} CountEmpty(n: nat, v: Option<Mark>)
    ensures Count(Blank(n), v) == if v.None? then n else 0
  {
    if n > 0 {
      assert Blank(n)[1..] == Blank(n - 1);
      CountEmpty(n - 1, v);
    }
  }

  /** The game state: board, turn, `over`, the CPU switch and the scores. */
  datatype Play = Play(board: Board, turn: Mark, over: bool, vsCpu: bool, scores: Scores)

  /** The side to move has as many marks as the other side or one fewer. */
  ghost predicate Balanced(b: Board, turn: Mark)
  {
    Count(b, Some(turn)) <= Count(b, Some(Other(turn))) <= Count(b, Some(turn)) + 1
  }

  /**
   * While a game is going on, moves have alternated and there is no outcome yet,
   * so there is an empty cell.
   */
  ghost predicate Ok(p: Play)
  {
    && |p.board| == 9
    && (!p.over ==> Balanced(p.board, p.turn) && GetWinner(p.board).None?)
  }

  /** `resetBoard(next)`: nine empty cells, `next` to move, not over. */
  function Reset(p: Play, next: Mark): (r: Play)
    ensures Ok(r)
    ensures r.board == Blank(9) && r.turn == next && !r.over
    ensures r.scores == p.scores && r.vsCpu == p.vsCpu
  {
    BlankOk(next);
    Play(Blank(9), next, false, p.vsCpu, p.scores)
  }

  /** The empty board is balanced for either side to move and has no outcome. */
  lemma BlankOk(next: Mark)
    ensures Balanced(Blank(9), next) && GetWinner(Blank(9)).None?
  {
    CountEmpty(9, Some(next));
    CountEmpty(9, Some(Other(next)));
    BlankUndecided();
  }

  lemma BlankUndecided()
    ensures GetWinner(Blank(9)).None?
  {
    var b := Blank(9);
    assert !Filled(b) by { assert b[0].None?; }
    forall k | 0 <= k < 8
      ensures !Wins(b, k)
    {
      assert b[WINS[k].0].None?;
    }
  }

  /** The starter the New Game button picks: X after a finished game, else the side not to move. */
  function NextStarter(over: bool, turn: Mark): Mark
  {
    if over then X else Other(turn)
  }

  /** The mover's mark written into empty cell `i`, then the game ended on an outcome or the turn passed. */
  function Placed(p: Play, i: nat): Play
    requires |p.board| == 9 && i < 9
  {
    var b := p.board[i := Some(p.turn)];
    var o := GetWinner(b);
    if o.Some? then p.(board := b, over := true, scores := Tally(p.scores, o.value))
    else p.(board := b, turn := Other(p.turn))
  }

  /** `onPlayerMove(i)`: no effect on a finished game or an occupied cell. */
  function PlayerMoved(p: Play, i: nat): Play
    requires |p.board| == 9 && i < 9
  {
    if p.over || p.board[i].Some? then p else Placed(p, i)
  }

  /** A legal move changes cell `i` only, to the mover's mark, keeps the game well formed, and either ends it, scoring exactly one point, or passes the turn. */
  lemma {:induction false} PlacedOk(p: Play, i: nat)
    requires Ok(p) && !p.over && i < 9 && p.board[i].None?
    ensures var q := Placed(p, i);
      && Ok(q) && q.board == p.board[i := Some(p.turn)]
      && (q.over <==> GetWinner(q.board).Some?)
      && (q.over ==> q.turn == p.turn && q.scores == Tally(p.scores, GetWinner(q.board).value))
      && (q.over ==> Total(q.scores) == Total(p.scores) + 1)
      && (!q.over ==> q.turn == Other(p.turn) && q.scores == p.scores)
  {
    var t := p.turn;
    CountUpdate(p.board, i, Some(t), Some(t));
    CountUpdate(p.board, i, Some(t), Some(Other(t)));
  }

  /** Every empty cell of `b` below `n`, in increasing order (the `empties` list of `bestCpuMove`). */
  function EmptiesBelow(b: Board, n: nat): (es: seq<nat>)
    requires n <= |b|
    ensures forall j :: 0 <= j < |es| ==> es[j] < n && b[es[j]].None?
    ensures forall i :: 0 <= i < n && b[i].None? ==> i in es
  {
    if n == 0 then [] else EmptiesBelow(b, n - 1) + (if b[n - 1].None? then [n - 1] else [])
  }

  /** The empty cells are listed in increasing order. */
  lemma {:induction false} EmptiesSorted(b: Board, n: nat)
    requires n <= |b|
    ensures forall j, k :: 0 <= j < k < |EmptiesBelow(b, n)| ==> EmptiesBelow(b, n)[j] < EmptiesBelow(b, n)[k]
  {
    if n > 0 {
      EmptiesSorted(b, n - 1);
    }
  }

  /** Playing `m` into cell `i` makes `getWinner` name `m`. */
  predicate Completes(b: Board, i: nat, m: Mark)
    requires |b| == 9 && i < 9
  {
    var o := GetWinner(b[i := Some(m)]);
    o.Some? && o.value.Win? && o.value.winner == m
  }

  /** For each cell, whether playing `m` there makes `getWinner` name `m`. */
  function Completions(b: Board, m: Mark): (oks: seq<bool>)
    requires |b| == 9
    ensures |oks| == 9
  {
    seq(9, i requires 0 <= i < 9 => Completes(b, i, m))
  }

  predicate Cells(es: seq<nat>)
  {
    forall j :: 0 <= j < |es| ==> es[j] < 9
  }

  /** The first cell of `es[k..]` marked in `oks`. */
  function FirstMarked(oks: seq<bool>, es: seq<nat>, k: nat): (r: Option<nat>)
    requires |oks| == 9 && Cells(es) && k <= |es|
    ensures r.Some? ==> r.value in es
    decreases |es| - k
  {
    if k == |es| then None
    else if oks[es[k]] then Some(es[k])
    else FirstMarked(oks, es, k + 1)
  }

  /** `FirstMarked` picks the first candidate from `k` on that is marked, and `None` only when none is. */
  lemma {:induction false} FirstMarkedIsFirst(oks: seq<bool>, es: seq<nat>, k: nat) returns (j: nat)
    requires |oks| == 9 && Cells(es) && k <= |es|
    ensures k <= j <= |es|
    ensures forall q :: k <= q < j ==> !oks[es[q]]
    ensures j < |es| ==> FirstMarked(oks, es, k) == Some(es[j]) && oks[es[j]]
    ensures j == |es| ==> FirstMarked(oks, es, k) == None
    decreases |es| - k
  {
    if k == |es| || oks[es[k]] {
      j := k;
    } else {
      j := FirstMarkedIsFirst(oks, es, k + 1);
    }
  }

  /** Over the empty cells in increasing order, the first marked cell is the lowest empty marked cell. */
  lemma LowestMarked(b: Board, oks: seq<bool>, i: nat) returns (c: nat)
    requires |b| == 9 && |oks| == 9 && i < 9 && b[i].None? && oks[i]
    ensures FirstMarked(oks, EmptiesBelow(b, 9), 0) == Some(c)
    ensures c < 9 && b[c].None? && oks[c]
    ensures forall e :: 0 <= e < c && b[e].None? ==> !oks[e]
  {
    var es := EmptiesBelow(b, 9);
    EmptiesSorted(b, 9);
    var j := FirstMarkedIsFirst(oks, es, 0);
    var q :| 0 <= q < |es| && es[q] == i;
    assert j <= q;
    c := es[j];
    forall e | 0 <= e < c && b[e].None?
      ensures !oks[e]
    {
      var qe :| 0 <= qe < |es| && es[qe] == e;
      assert qe < j;
    }
  }

  /** The first empty cell of `a`, `c`, `d`, `e` in that order (the corner or the side loop of `bestCpuMove`). */
  function FreeOf4(b: Board, a: nat, c: nat, d: nat, e: nat): (r: Option<nat>)
    requires |b| == 9 && a < 9 && c < 9 && d < 9 && e < 9
    ensures r.Some? ==> r.value < 9 && b[r.value].None?
    ensures r.None? <==> b[a].Some? && b[c].Some? && b[d].Some? && b[e].Some?
  {
    if b[a].None? then Some(a)
    else if b[c].None? then Some(c)
    else if b[d].None? then Some(d)
    else if b[e].None? then Some(e)
    else None
  }

  /** `bestCpuMove(b)` for O: win, else block X, else the centre, a corner, a side, the first empty cell, or none. */
  function CpuChoice(b: Board): Option<nat>
    requires |b| == 9
  {
    var es := EmptiesBelow(b, 9);
    var win := FirstMarked(Completions(b, O), es, 0);
    var block := FirstMarked(Completions(b, X), es, 0);
    if win.Some? then win
    else if block.Some? then block
    else if b[4].None? then Some(4)
    else if FreeOf4(b, 0, 2, 6, 8).Some? then FreeOf4(b, 0, 2, 6, 8)
    else if FreeOf4(b, 1, 3, 5, 7).Some? then FreeOf4(b, 1, 3, 5, 7)
    else if |es| > 0 then Some(es[0])
    else None
  }

  /** The computer picks an empty cell, and picks none exactly when the board is full. */
  lemma CpuChoiceEmpty(b: Board)
    requires |b| == 9
    ensures CpuChoice(b).Some? ==> CpuChoice(b).value < 9 && b[CpuChoice(b).value].None?
    ensures CpuChoice(b).None? <==> Filled(b)
  {
    var es := EmptiesBelow(b, 9);
    if !Filled(b) {
      var i :| 0 <= i < 9 && b[i].None?;
      assert i in es;
    } else {
      NoEmpties(b, 9);
    }
  }

  /** A full board has no empty cells to list. */
  lemma {:induction false} NoEmpties(b: Board, n: nat)
    requires n <= |b| && Filled(b)
    ensures EmptiesBelow(b, n) == []
  {
    if n > 0 {
      NoEmpties(b, n - 1);
    }
  }

  /** A cell where O completes a line wins first; among several, the lowest. */
  lemma {:induction false} CpuWins(b: Board, i: nat)
    requires |b| == 9 && i < 9 && b[i].None? && Completes(b, i, O)
    ensures CpuChoice(b).Some? && CpuChoice(b).value < 9 && Completes(b, CpuChoice(b).value, O)
    ensures forall c :: 0 <= c < CpuChoice(b).value && b[c].None? ==> !Completes(b, c, O)
  {
    var oks := Completions(b, O);
    assert oks[i];
    var c := LowestMarked(b, oks, i);
    assert oks[c];
    forall e | 0 <= e < c && b[e].None?
      ensures !Completes(b, e, O)
    {
      assert !oks[e];
    }
  }

  /** With no winning cell, a cell where X would complete a line is blocked; among several, the lowest. */
  lemma {:induction false} CpuBlocks(b: Board, i: nat)
    requires |b| == 9 && i < 9 && b[i].None? && Completes(b, i, X)
    requires forall c :: 0 <= c < 9 && b[c].None? ==> !Completes(b, c, O)
    ensures CpuChoice(b).Some? && CpuChoice(b).value < 9 && Completes(b, CpuChoice(b).value, X)
    ensures forall c :: 0 <= c < CpuChoice(b).value && b[c].None? ==> !Completes(b, c, X)
  {
    var es := EmptiesBelow(b, 9);
    NoneMarked(b, O);
    var oks := Completions(b, X);
    assert oks[i];
    var c := LowestMarked(b, oks, i);
    assert oks[c];
    forall e | 0 <= e < c && b[e].None?
      ensures !Completes(b, e, X)
    {
      assert !oks[e];
    }
  }

  /** No empty cell of `b` completes a line for `m`, so the search for one finds nothing. */
  lemma NoneMarked(b: Board, m: Mark)
    requires |b| == 9
    requires forall c :: 0 <= c < 9 && b[c].None? ==> !Completes(b, c, m)
    ensures FirstMarked(Completions(b, m), EmptiesBelow(b, 9), 0) == None
  {
    var es := EmptiesBelow(b, 9);
    forall q | 0 <= q < |es|
      ensures !Completions(b, m)[es[q]]
    {
      assert !Completes(b, es[q], m);
    }
    var w := FirstMarkedIsFirst(Completions(b, m), es, 0);
  }

  /** With nothing to win or block: the centre, else the first free corner of 0, 2, 6, 8, else the first free side of 1, 3, 5, 7. */
  lemma {:induction false} CpuPositional(b: Board)
    requires |b| == 9
    requires forall c :: 0 <= c < 9 && b[c].None? ==> !Completes(b, c, O) && !Completes(b, c, X)
    ensures b[4].None? ==> CpuChoice(b) == Some(4)
    ensures b[4].Some? && FreeOf4(b, 0, 2, 6, 8).Some? ==> CpuChoice(b) == FreeOf4(b, 0, 2, 6, 8)
    ensures b[4].Some? && FreeOf4(b, 0, 2, 6, 8).None? ==> CpuChoice(b) == FreeOf4(b, 1, 3, 5, 7)
  {
    NoneMarked(b, O);
    NoneMarked(b, X);
    var es := EmptiesBelow(b, 9);
    if b[4].Some? && FreeOf4(b, 0, 2, 6, 8).None? && FreeOf4(b, 1, 3, 5, 7).None? {
      forall c | 0 <= c < 9
        ensures b[c].Some?
      {
        assert c == 4 || c == 0 || c == 2 || c == 6 || c == 8 || c == 1 || c == 3 || c == 5 || c == 7;
      }
      NoEmpties(b, 9);
    }
  }

  /** The timer callback of `maybeCpuMove()`: O plays the chosen cell, then the game ends on an outcome or X is to move. */
  function CpuMoved(p: Play): Play
    requires |p.board| == 9
  {
    var idx := CpuChoice(p.board);
    var b := if idx.Some? && idx.value < 9 && p.board[idx.value].None? then p.board[idx.value := Some(O)] else p.board;
    var o := GetWinner(b);
    if o.Some? then p.(board := b, over := true, scores := Tally(p.scores, o.value))
    else p.(board := b, turn := X)
  }

  /** In a game still going with O to move, the computer always has a move, and its move is a legal move for O. */
  lemma CpuMovedOk(p: Play)
    requires Ok(p) && !p.over && p.turn == O
    ensures CpuChoice(p.board).Some? && CpuChoice(p.board).value < 9
    ensures CpuMoved(p) == Placed(p, CpuChoice(p.board).value)
    ensures Ok(CpuMoved(p))
  {
    CpuChoiceEmpty(p.board);
    PlacedOk(p, CpuChoice(p.board).value);
  }

  /** The cells of `es` are empty in `b`. */
  predicate EmptyAt(b: Board, es: seq<nat>)
  {
    forall j :: 0 <= j < |es| ==> es[j] < |b| && b[es[j]].None?
  }

  /** The first loop of `bestCpuMove`: the empty cells in increasing order. */
  method Empties(b: array<Option<Mark>>) returns (es: seq<nat>)
    requires b.Length == 9
    ensures es == EmptiesBelow(b[..], 9)
  {
    es := [];
    for i := 0 to 9
      invariant es == EmptiesBelow(b[..], i)
    {
      if b[i].None? {
        es := es + [i];
      }
    }
  }

  /** One trial loop of `bestCpuMove`: try `m` in each cell of `es` by writing it, asking `getWinner`, and clearing it again. */
  method TryEach(b: array<Option<Mark>>, es: seq<nat>, m: Mark) returns (r: Option<nat>)
    requires b.Length == 9 && Cells(es) && EmptyAt(b[..], es)
    modifies b
    ensures b[..] == old(b[..])
    ensures r == FirstMarked(Completions(old(b[..]), m), es, 0)
  {
    ghost var b0 := b[..];
    ghost var oks := Completions(b0, m);
    for j := 0 to |es|
      invariant b[..] == b0
      invariant FirstMarked(oks, es, j) == FirstMarked(oks, es, 0)
    {
      var i := es[j];
      var hit := TryCell(b, i, m);
      assert hit == oks[i];
      if hit {
        return Some(i);
      }
    }
    return None;
  }

  /** `b[i] = m; getWinner(b)?.winner === m; b[i] = null` on an empty cell `i`. */
  method TryCell(b: array<Option<Mark>>, i: nat, m: Mark) returns (hit: bool)
    requires b.Length == 9 && i < 9 && b[i].None?
    modifies b
    ensures b[..] == old(b[..])
    ensures hit == Completes(old(b[..]), i, m)
  {
    ghost var b0 := b[..];
    b[i] := Some(m);
    assert b[..] == b0[i := Some(m)];
    var o := GetWinner(b[..]);
    b[i] := None;
    assert b[..] == b0;
    hit := o.Some? && o.value.Win? && o.value.winner == m;
  }

  /** The corner or the side loop of `bestCpuMove`: the first empty cell among `a`, `c`, `d`, `e`. */
  method FreeAmong(b: array<Option<Mark>>, a: nat, c: nat, d: nat, e: nat) returns (r: Option<nat>)
    requires b.Length == 9 && a < 9 && c < 9 && d < 9 && e < 9
    ensures r == FreeOf4(b[..], a, c, d, e)
  {
    ghost var bs := b[..];
    var cs := [a, c, d, e];
    assert cs[0] == a && cs[1] == c && cs[2] == d && cs[3] == e;
    for j := 0 to 4
      invariant forall q :: 0 <= q < j ==> bs[cs[q]].Some?
    {
      if b[cs[j]].None? {
        assert bs[cs[j]].None? && bs == b[..];
        assert j == 0 || (j == 1 && bs[a].Some?) || (j == 2 && bs[a].Some? && bs[c].Some?)
          || (j == 3 && bs[a].Some? && bs[c].Some? && bs[d].Some?);
        return Some(cs[j]);
      }
      assert bs[cs[j]].Some?;
    }
    return None;
  }

  /** `bestCpuMove(b)`: the cell O plays; the trial writes leave the board as it was. */
  method BestCpuMove(b: array<Option<Mark>>) returns (r: Option<nat>)
    requires b.Length == 9
    modifies b
    ensures b[..] == old(b[..])
    ensures r == CpuChoice(old(b[..]))
  {
    var es := Empties(b);
    r := TryEach(b, es, O);
    if r.Some? {
      return;
    }
    r := TryEach(b, es, X);
    if r.Some? {
      return;
    }
    if b[4].None? {
      return Some(4);
    }
    r := FreeAmong(b, 0, 2, 6, 8);
    if r.Some? {
      return;
    }
    r := FreeAmong(b, 1, 3, 5, 7);
    if r.Some? {
      return;
    }
    r := if |es| > 0 then Some(es[0]) else None;
  }

  /** `board.fill(null)`. */
  method Clear(b: array<Option<Mark>>)
    modifies b
    ensures b[..] == Blank(b.Length)
  {
    for i := 0 to b.Length
      invariant forall j :: 0 <= j < i ==> b[j].None?
    {
      b[i] := None;
    }
  }

  /** The page's game (`state`). */
  class Game {
    const board: array<Option<Mark>>
    var turn: Mark
    var over: bool
    var vsCpu: bool
    var scores: Scores

    /** All the fields, as one value. */
    function State(): Play
      reads this, board
    {
      Play(board[..], turn, over, vsCpu, scores)
    }

    ghost predicate Valid()
      reads this, board
    {
      board.Length == 9 && Ok(State())
    }

    /** The page at load: an empty board, X to move, the CPU off, the scores as saved. */
    constructor (saved: Scores)
      ensures Valid() && fresh(board)
      ensures State() == Play(Blank(9), X, false, false, saved)
    {
      board := new Option<Mark>[9](_ => None);
      turn, over, vsCpu, scores := X, false, false, saved;
      new;
      assert board[..] == Blank(9);
      ghost var r := Reset(State(), X);
    }

    /** `onPlayerMove(i)`; `cpu` says whether it then schedules the computer's move (`maybeCpuMove()`). */
    method PlayerMove(i: nat) returns (cpu: bool)
      requires Valid() && i < 9
      modifies this, board
      ensures State() == PlayerMoved(old(State()), i) && Valid()
      ensures old(over) || old(board[i]).Some? ==> State() == old(State())
      ensures cpu <==> !old(over) && old(board[i]).None? && !over && vsCpu && turn == O
    {
      if over || board[i].Some? {
        return false;
      }
      PlacedOk(State(), i);
      board[i] := Some(turn);
      var outcome := GetWinner(board[..]);
      if outcome.Some? {
        EndGame(outcome.value);
        return false;
      }
      turn := Other(turn);
      cpu := vsCpu && !over && turn == O;
    }

    /** The timer callback of `maybeCpuMove()`, for a game still going with O to move. */
    method CpuMove()
      requires Valid() && !over && turn == O
      modifies this, board
      ensures State() == CpuMoved(old(State())) && Valid()
    {
      CpuMovedOk(State());
      var idx := BestCpuMove(board);
      if idx.Some? && idx.value < 9 && board[idx.value].None? {
        board[idx.value] := Some(O);
      }
      var outcome := GetWinner(board[..]);
      if outcome.Some? {
        EndGame(outcome.value);
        return;
      }
      turn := X;
    }

    /** The score part of `endGame(outcome)`. */
    method EndGame(o: Outcome)
      modifies this
      ensures State() == old(State()).(over := true, scores := Tally(old(scores), o))
    {
      over := true;
      scores := Tally(scores, o);
    }

    /** `resetBoard(next)`. */
    method ResetBoard(next: Mark)
      requires board.Length == 9
      modifies this, board
      ensures State() == Reset(old(State()), next) && Valid()
    {
      Clear(board);
      turn := next;
      over := false;
    }

    /** The New Game button: X starts after a finished game, otherwise the side not to move. */
    method NewGame()
      requires Valid()
      modifies this, board
      ensures State() == Reset(old(State()), NextStarter(old(over), old(turn))) && Valid()
    {
      var next := if over then X else Other(turn);
      ResetBoard(next);
    }

    /** The Reset Scores button. */
    method ResetScores()
      modifies this
      ensures State() == old(State()).(scores := Scores(0, 0, 0))
      ensures old(Valid()) ==> Valid()
    {
      scores := Scores(0, 0, 0);
    }

    /** The vs-CPU checkbox; `cpu` says whether switching it on schedules the computer's move. */
    method SetVsCpu(on: bool) returns (cpu: bool)
      modifies this
      ensures State() == old(State()).(vsCpu := on)
      ensures cpu <==> on && turn == O && !over
      ensures old(Valid()) ==> Valid()
    {
      vsCpu := on;
      cpu := vsCpu && turn == O && !over;
    }
  }
}
