/**
 * Revealing cells (minesweeper/main.js `reveal`): the clicked cell is
 * uncovered and, when it has no mine around it, a breadth-first flood
 * uncovers the area around it up to the numbered border.
 */
module MineReveal {
  import opened Grids
  import opened Minesweeper

  /** A tile as a later field may hold it: only `rev` changes, from false to true, and never under a flag. */
  predicate Grows(t: Tile, u: Tile)
  {
    u.mine == t.mine && u.flag == t.flag && u.n == t.n && (t.rev ==> u.rev) && (t.flag ==> u.rev == t.rev)
  }

  /** `h` is `g` with some more cells uncovered. */
  ghost predicate Stable(g: Field, h: Field, rows: int, cols: int)
  {
    IsRect(g, rows, cols) && IsRect(h, rows, cols) &&
    forall a, b :: 0 <= a < rows && 0 <= b < cols ==> Grows(g[a][b], h[a][b])
  }

  /** A safe cell with no mine around it: the flood goes on from it. */
  predicate Zero(t: Tile)
  {
    !t.mine && t.n == 0
  }

  /** The cell is one of those the click can uncover. */
  predicate Opens(g: Field, rows: int, cols: int, p: Pos)
  {
    InBounds(rows, cols, p) && Holds(g, p) && !At(g, p).rev && !At(g, p).flag
  }

  /** `x` was covered in `g` and is uncovered in `h`. */
  predicate Fresh(g: Field, h: Field, x: Pos)
  {
    Holds(g, x) && Holds(h, x) && !At(g, x).rev && At(h, x).rev
  }

  /** The first `j` cells of `ns` are uncovered or flagged in `h`. */
  ghost predicate SettledUpTo(h: Field, ns: seq<Pos>, j: int)
  {
    forall i :: 0 <= i < j && i < |ns| ==> Holds(h, ns[i]) && (At(h, ns[i]).rev || At(h, ns[i]).flag)
  }

  /** Every cell around `z` is uncovered or flagged. */
  ghost predicate Settled(h: Field, rows: int, cols: int, z: Pos)
  {
    var ns := Around(rows, cols, z);
    SettledUpTo(h, ns, |ns|)
  }

  /** `z` is a newly uncovered zero next to `x`: the flood reached `x` from `z`. */
  ghost predicate Reached(g: Field, h: Field, rows: int, cols: int, z: Pos, x: Pos)
  {
    InBounds(rows, cols, z) && Fresh(g, h, z) && Zero(At(g, z)) && Adjacent(z, x)
  }

  /** Around every newly uncovered zero nothing is left covered but flags. */
  ghost predicate ZerosSettled(g: Field, h: Field, rows: int, cols: int)
  {
    forall x :: InBounds(rows, cols, x) && Fresh(g, h, x) && Zero(At(g, x)) ==> Settled(h, rows, cols, x)
  }

  /**
   * Ranked links back to `roots`: every newly uncovered cell has a rank, and
   * every one that is not a root was reached from the newly uncovered zero
   * `parent` names, which has a lower rank.
   */
  ghost predicate Rooted(g: Field, h: Field, rows: int, cols: int, roots: seq<Pos>, parent: map<Pos, Pos>, rank: map<Pos, nat>)
  {
    forall x :: InBounds(rows, cols, x) && Fresh(g, h, x) ==>
      x in rank &&
      (x !in roots ==> x in parent && Reached(g, h, rows, cols, parent[x], x) && parent[x] in rank && rank[parent[x]] < rank[x])
  }

  /** Every newly uncovered cell is one of `roots` or was reached from one of them through newly uncovered zeros. */
  ghost predicate Spread(g: Field, h: Field, rows: int, cols: int, roots: seq<Pos>)
  {
    exists parent: map<Pos, Pos>, rank: map<Pos, nat> :: Rooted(g, h, rows, cols, roots, parent, rank)
  }

  /**
   * What one `reveal(r, c)` leaves behind, started on a cell it can uncover:
   * the cell is uncovered; around every newly uncovered zero nothing is left
   * covered but flags; and every newly uncovered cell was reached from `p`
   * through newly uncovered zeros.
   */
  ghost predicate Flooded(g: Field, h: Field, rows: int, cols: int, p: Pos)
  {
    Stable(g, h, rows, cols) && InBounds(rows, cols, p) && Fresh(g, h, p) &&
    ZerosSettled(g, h, rows, cols) && Spread(g, h, rows, cols, [p])
  }

  /**
   * What `Spread` means: from every newly uncovered cell a chain of newly
   * uncovered zeros, each next to the one after it, leads back to a root.
   */
  lemma SpreadChain(g: Field, h: Field, rows: int, cols: int, roots: seq<Pos>, x: Pos) returns (chain: seq<Pos>)
    requires Spread(g, h, rows, cols, roots) && InBounds(rows, cols, x) && Fresh(g, h, x)
    ensures |chain| >= 1 && chain[0] in roots && chain[|chain| - 1] == x
    ensures forall i :: 0 <= i < |chain| - 1 ==> Reached(g, h, rows, cols, chain[i], chain[i + 1])
  {
    var parent, rank :| Rooted(g, h, rows, cols, roots, parent, rank);
    chain := ChainFrom(g, h, rows, cols, roots, parent, rank, x);
  }

  lemma {:induction false} ChainFrom(g: Field, h: Field, rows: int, cols: int, roots: seq<Pos>, parent: map<Pos, Pos>,
                                     rank: map<Pos, nat>, x: Pos) returns (chain: seq<Pos>)
    requires Rooted(g, h, rows, cols, roots, parent, rank) && InBounds(rows, cols, x) && Fresh(g, h, x)
    ensures |chain| >= 1 && chain[0] in roots && chain[|chain| - 1] == x
    ensures forall i :: 0 <= i < |chain| - 1 ==> Reached(g, h, rows, cols, chain[i], chain[i + 1])
    decreases rank[x]
  {
    if x in roots {
      chain := [x];
    } else {
      var z := parent[x];
      var front := ChainFrom(g, h, rows, cols, roots, parent, rank, z);
      chain := front + [x];
      forall i | 0 <= i < |chain| - 1
        ensures Reached(g, h, rows, cols, chain[i], chain[i + 1])
      {
        if i < |front| - 1 {
          assert chain[i] == front[i] && chain[i + 1] == front[i + 1];
        } else {
          assert chain[i] == z && chain[i + 1] == x;
        }
      }
    }
  }

  /** Every queued cell is a newly uncovered zero. */
  ghost predicate Queued(g: Field, h: Field, rows: int, cols: int, q: seq<Pos>)
  {
    forall i :: 0 <= i < |q| ==> InBounds(rows, cols, q[i]) && Fresh(g, h, q[i]) && Zero(At(g, q[i]))
  }

  /** Every newly uncovered zero is still queued or has its neighbours settled. */
  ghost predicate Closed(g: Field, h: Field, rows: int, cols: int, q: seq<Pos>)
  {
    forall x :: InBounds(rows, cols, x) && Fresh(g, h, x) && Zero(At(g, x)) ==> x in q || Settled(h, rows, cols, x)
  }

  /** Uncovering one covered, unflagged cell. */
  function Uncover(h: Field, x: Pos): (h': Field)
    requires Holds(h, x)
    ensures |h'| == |h| && forall a :: 0 <= a < |h| ==> |h'[a]| == |h[a]|
  {
    Set2(h, x.r, x.c, At(h, x).(rev := true))
  }

  lemma UncoverStable(g: Field, h: Field, rows: int, cols: int, x: Pos)
    requires Stable(g, h, rows, cols) && InBounds(rows, cols, x) && !At(h, x).rev && !At(h, x).flag
    ensures Stable(g, Uncover(h, x), rows, cols) && Stable(h, Uncover(h, x), rows, cols)
    ensures Fresh(g, Uncover(h, x), x)
  {
  }

  /** What was newly uncovered stays so. */
  lemma FreshGrows(g: Field, h: Field, h': Field, rows: int, cols: int, y: Pos)
    requires Stable(g, h, rows, cols) && Stable(h, h', rows, cols) && InBounds(rows, cols, y) && Fresh(g, h, y)
    ensures Fresh(g, h', y)
  {
  }

  lemma UncoverCount(h: Field, x: Pos)
    requires Holds(h, x) && !At(h, x).rev
    ensures RevSum(Uncover(h, x)) == RevSum(h) + 1
  {
    GridSumUpdate(h, x.r, x.c, At(h, x).(rev := true), RevW);
  }

  /** Uncovering keeps cells settled. */
  lemma SettledGrows(h: Field, h': Field, rows: int, cols: int, ns: seq<Pos>, j: int)
    requires Stable(h, h', rows, cols) && SettledUpTo(h, ns, j)
    requires forall i :: 0 <= i < |ns| ==> InBounds(rows, cols, ns[i])
    ensures SettledUpTo(h', ns, j)
  {
  }

  lemma RevBound(h: Field, rows: int, cols: int)
    requires IsRect(h, rows, cols)
    ensures RevSum(h) <= rows * cols
  {
    GridSumBound(h, RevW, rows, cols);
  }

  /** The flood begins with the clicked zero uncovered and queued. */
  lemma FloodStart(g: Field, rows: int, cols: int, p: Pos)
    requires IsRect(g, rows, cols) && Opens(g, rows, cols, p) && Zero(At(g, p))
    ensures Stable(g, Uncover(g, p), rows, cols) && Fresh(g, Uncover(g, p), p)
    ensures Queued(g, Uncover(g, p), rows, cols, [p]) && Closed(g, Uncover(g, p), rows, cols, [p])
    ensures Rooted(g, Uncover(g, p), rows, cols, [p], map[], map[p := 0])
  {
    var h := Uncover(g, p);
    forall x | InBounds(rows, cols, x) && Fresh(g, h, x)
      ensures x == p
    {
    }
  }

  /** A neighbour already uncovered or flagged is passed over. */
  lemma SettledSkip(h: Field, ns: seq<Pos>, j: int)
    requires 0 <= j < |ns| && SettledUpTo(h, ns, j) && Holds(h, ns[j]) && (At(h, ns[j]).rev || At(h, ns[j]).flag)
    ensures SettledUpTo(h, ns, j + 1)
  {
  }

  /** An uncovered neighbour is settled. */
  lemma SettledUncover(h: Field, rows: int, cols: int, ns: seq<Pos>, j: int)
    requires IsRect(h, rows, cols) && 0 <= j < |ns| && SettledUpTo(h, ns, j)
    requires forall i :: 0 <= i < |ns| ==> InBounds(rows, cols, ns[i])
    requires Holds(h, ns[j]) && !At(h, ns[j]).rev && !At(h, ns[j]).flag
    ensures SettledUpTo(Uncover(h, ns[j]), ns, j + 1)
  {
    var h' := Uncover(h, ns[j]);
    forall i | 0 <= i < j + 1
      ensures Holds(h', ns[i]) && (At(h', ns[i]).rev || At(h', ns[i]).flag)
    {
      if i < j && ns[i] != ns[j] {
        assert At(h', ns[i]) == At(h, ns[i]);
      }
    }
  }

  /** Uncovering `x` queues it when it is a zero. */
  lemma QueuedUncover(g: Field, h: Field, rows: int, cols: int, cur: Pos, q: seq<Pos>, x: Pos)
    requires Stable(g, h, rows, cols) && Queued(g, h, rows, cols, [cur] + q)
    requires InBounds(rows, cols, x) && !At(h, x).rev && !At(h, x).flag
    ensures Queued(g, Uncover(h, x), rows, cols, [cur] + if Zero(At(h, x)) then q + [x] else q)
  {
    var h' := Uncover(h, x);
    var q0 := [cur] + q;
    var q' := [cur] + if Zero(At(h, x)) then q + [x] else q;
    UncoverStable(g, h, rows, cols, x);
    forall i | 0 <= i < |q'|
      ensures InBounds(rows, cols, q'[i]) && Fresh(g, h', q'[i]) && Zero(At(g, q'[i]))
    {
      if i < |q0| {
        assert q'[i] == q0[i];
        FreshGrows(g, h, h', rows, cols, q0[i]);
      }
    }
  }

  /** Uncovering `x` keeps every newly uncovered zero queued or settled. */
  lemma ClosedUncover(g: Field, h: Field, rows: int, cols: int, cur: Pos, q: seq<Pos>, x: Pos)
    requires Stable(g, h, rows, cols) && Closed(g, h, rows, cols, [cur] + q)
    requires InBounds(rows, cols, x) && !At(h, x).rev && !At(h, x).flag
    ensures Closed(g, Uncover(h, x), rows, cols, [cur] + if Zero(At(h, x)) then q + [x] else q)
  {
    var h' := Uncover(h, x);
    var q' := [cur] + if Zero(At(h, x)) then q + [x] else q;
    UncoverStable(g, h, rows, cols, x);
    forall y | InBounds(rows, cols, y) && Fresh(g, h', y) && Zero(At(g, y))
      ensures y in q' || Settled(h', rows, cols, y)
    {
      if y == x {
        assert q'[|q'| - 1] == y;
      } else {
        assert Fresh(g, h, y);
        if y in [cur] + q {
          assert y == cur || y in q;
        } else {
          SettledGrows(h, h', rows, cols, Around(rows, cols, y), |Around(rows, cols, y)|);
        }
      }
    }
  }

  /**
   * Uncovering `x`, a neighbour of the queued zero `cur`, records `cur` as
   * where it was reached from, one rank below.
   */
  lemma RootedUncover(g: Field, h: Field, rows: int, cols: int, roots: seq<Pos>, parent: map<Pos, Pos>, rank: map<Pos, nat>,
                      cur: Pos, x: Pos)
    requires Stable(g, h, rows, cols) && Rooted(g, h, rows, cols, roots, parent, rank)
    requires InBounds(rows, cols, cur) && Fresh(g, h, cur) && Zero(At(g, cur)) && Adjacent(cur, x)
    requires InBounds(rows, cols, x) && !At(h, x).rev && !At(h, x).flag && x !in roots
    ensures cur in rank
    ensures Rooted(g, Uncover(h, x), rows, cols, roots, parent[x := cur], rank[x := rank[cur] + 1])
  {
    var h' := Uncover(h, x);
    var parent', rank' := parent[x := cur], rank[x := rank[cur] + 1];
    UncoverStable(g, h, rows, cols, x);
    FreshGrows(g, h, h', rows, cols, cur);
    forall y | InBounds(rows, cols, y) && Fresh(g, h', y)
      ensures y in rank' &&
        (y !in roots ==> y in parent' && Reached(g, h', rows, cols, parent'[y], y) && parent'[y] in rank' && rank'[parent'[y]] < rank'[y])
    {
      if y != x {
        assert Fresh(g, h, y);
        if y !in roots {
          FreshGrows(g, h, h', rows, cols, parent[y]);
        }
      }
    }
  }

  /** Taking the head off the queue. */
  lemma QueuedPop(g: Field, h: Field, rows: int, cols: int, q: seq<Pos>)
    requires Queued(g, h, rows, cols, q) && q != []
    ensures Queued(g, h, rows, cols, [q[0]] + q[1..])
  {
    assert [q[0]] + q[1..] == q;
  }

  lemma ClosedPop(g: Field, h: Field, rows: int, cols: int, q: seq<Pos>)
    requires Closed(g, h, rows, cols, q) && q != []
    ensures Closed(g, h, rows, cols, [q[0]] + q[1..])
  {
    assert [q[0]] + q[1..] == q;
  }

  /** All neighbours of `cur` are settled: it leaves the queue for good. */
  lemma QueuedNext(g: Field, h: Field, rows: int, cols: int, cur: Pos, q: seq<Pos>)
    requires Queued(g, h, rows, cols, [cur] + q)
    ensures Queued(g, h, rows, cols, q)
  {
    forall i | 0 <= i < |q|
      ensures InBounds(rows, cols, q[i]) && Fresh(g, h, q[i]) && Zero(At(g, q[i]))
    {
      assert q[i] == ([cur] + q)[i + 1];
    }
  }

  lemma ClosedNext(g: Field, h: Field, rows: int, cols: int, cur: Pos, q: seq<Pos>)
    requires Closed(g, h, rows, cols, [cur] + q) && Settled(h, rows, cols, cur)
    ensures Closed(g, h, rows, cols, q)
  {
    forall y | InBounds(rows, cols, y) && Fresh(g, h, y) && Zero(At(g, y))
      ensures y in q || Settled(h, rows, cols, y)
    {
      assert y in [cur] + q || Settled(h, rows, cols, y);
    }
  }

  /** The queue is empty: the flood has done its work. */
  lemma FloodEnd(g: Field, h: Field, rows: int, cols: int, p: Pos, parent: map<Pos, Pos>, rank: map<Pos, nat>)
    requires Stable(g, h, rows, cols) && InBounds(rows, cols, p) && Fresh(g, h, p)
    requires Closed(g, h, rows, cols, []) && Rooted(g, h, rows, cols, [p], parent, rank)
    ensures Flooded(g, h, rows, cols, p)
  {
  }

  /** A cell that is not a zero is uncovered alone. */
  lemma FloodSingle(g: Field, rows: int, cols: int, p: Pos)
    requires IsRect(g, rows, cols) && Opens(g, rows, cols, p) && !Zero(At(g, p))
    ensures Flooded(g, Uncover(g, p), rows, cols, p)
  {
    var h := Uncover(g, p);
    forall x | InBounds(rows, cols, x) && Fresh(g, h, x)
      ensures x == p
    {
    }
    assert Rooted(g, h, rows, cols, [p], map[], map[p := 0]);
  }

  /** No mine but maybe the one at `p` went from covered to uncovered. */
  ghost predicate MinesOnlyAt(g: Field, h: Field, rows: int, cols: int, p: Pos)
  {
    forall y :: InBounds(rows, cols, y) && Fresh(g, h, y) && At(g, y).mine ==> y == p
  }

  /** On a numbered field the flood uncovers no mine: every cell it reaches lies next to a zero. */
  lemma FloodSafe(g: Field, h: Field, rows: int, cols: int, p: Pos)
    requires Flooded(g, h, rows, cols, p)
    ensures Numbered(g, rows, cols) ==> MinesOnlyAt(g, h, rows, cols, p)
  {
    if Numbered(g, rows, cols) {
      var parent, rank :| Rooted(g, h, rows, cols, [p], parent, rank);
      forall y | InBounds(rows, cols, y) && Fresh(g, h, y) && y != p
        ensures !At(g, y).mine
      {
        assert y !in [p];
        var z := parent[y];
        AroundIff(rows, cols, z, y);
        NoMineNextToZero(g, rows, cols, z, y);
      }
    }
  }

  /**
   * `reveal(r, c)`: nothing happens off the field or on an uncovered or
   * flagged cell; otherwise the cell is uncovered, a mine sets off `boom`,
   * and a zero starts the flood. `count` is what `S.revealed` grows by.
   */
  method RevealAt(g: Field, rows: nat, cols: nat, p: Pos) returns (h: Field, count: nat, boom: bool)
    requires IsRect(g, rows, cols)
    ensures RevSum(h) == RevSum(g) + count
    ensures !Opens(g, rows, cols, p) ==> h == g && count == 0
    ensures boom <==> Opens(g, rows, cols, p) && At(g, p).mine
    ensures Opens(g, rows, cols, p) ==> Flooded(g, h, rows, cols, p)
    ensures Opens(g, rows, cols, p) && !Zero(At(g, p)) ==> h == Uncover(g, p)
    ensures Numbered(g, rows, cols) ==> MinesOnlyAt(g, h, rows, cols, p)
  {
    if !Opens(g, rows, cols, p) {
      return g, 0, false;
    }
    h := Uncover(g, p);
    count := 1;
    UncoverCount(g, p);
    boom := g[p.r][p.c].mine;
    if !Zero(g[p.r][p.c]) {
      FloodSingle(g, rows, cols, p);
      FloodSafe(g, h, rows, cols, p);
      return;
    }
    FloodStart(g, rows, cols, p);
    var q := [p];
    ghost var parent: map<Pos, Pos> := map[];
    ghost var rank: map<Pos, nat> := map[p := 0];
    RevBound(h, rows, cols);
    while q != []
      invariant Stable(g, h, rows, cols) && Fresh(g, h, p)
      invariant Queued(g, h, rows, cols, q) && Closed(g, h, rows, cols, q) && Rooted(g, h, rows, cols, [p], parent, rank)
      invariant RevSum(h) == RevSum(g) + count && RevSum(h) <= rows * cols
      decreases rows * cols - RevSum(h) + |q|
    {
      var cur := q[0];
      QueuedPop(g, h, rows, cols, q);
      ClosedPop(g, h, rows, cols, q);
      h, q, count, parent, rank := FloodFrom(g, rows, cols, p, cur, h, q[1..], count, parent, rank);
      RevBound(h, rows, cols);
    }
    FloodEnd(g, h, rows, cols, p, parent, rank);
    FloodSafe(g, h, rows, cols, p);
  }

  /**
   * One round of the flood: `cur`, taken off the queue, has each covered,
   * unflagged neighbour uncovered, linked back to it and, when a zero,
   * queued.
   */
  method FloodFrom(g: Field, rows: nat, cols: nat, p: Pos, cur: Pos, h: Field, q: seq<Pos>, count: nat,
                   ghost parent: map<Pos, Pos>, ghost rank: map<Pos, nat>)
      returns (h': Field, q': seq<Pos>, count': nat, ghost parent': map<Pos, Pos>, ghost rank': map<Pos, nat>)
    requires Stable(g, h, rows, cols) && Fresh(g, h, p)
    requires Queued(g, h, rows, cols, [cur] + q) && Closed(g, h, rows, cols, [cur] + q)
    requires Rooted(g, h, rows, cols, [p], parent, rank) && RevSum(h) == RevSum(g) + count
    ensures Stable(g, h', rows, cols) && Fresh(g, h', p)
    ensures Queued(g, h', rows, cols, q') && Closed(g, h', rows, cols, q')
    ensures Rooted(g, h', rows, cols, [p], parent', rank') && RevSum(h') == RevSum(g) + count'
    ensures |q'| - |q| <= RevSum(h') - RevSum(h)
  {
    h', q', count', parent', rank' := h, q, count, parent, rank;
    var ns := Around(rows, cols, cur);
    for j := 0 to |ns|
      invariant Stable(g, h', rows, cols) && Fresh(g, h', p)
      invariant Queued(g, h', rows, cols, [cur] + q') && Closed(g, h', rows, cols, [cur] + q')
      invariant Rooted(g, h', rows, cols, [p], parent', rank') && SettledUpTo(h', ns, j)
      invariant RevSum(h') == RevSum(g) + count'
      invariant |q'| - |q| <= RevSum(h') - RevSum(h)
    {
      var x := ns[j];
      if h'[x.r][x.c].rev || h'[x.r][x.c].flag {
        SettledSkip(h', ns, j);
        continue;
      }
      h', q', count', parent', rank' := FloodCell(g, rows, cols, p, cur, ns, j, h', q', count', parent', rank');
    }
    QueuedNext(g, h', rows, cols, cur, q');
    ClosedNext(g, h', rows, cols, cur, q');
  }

  /** The flood uncovers `ns[j]`, a covered, unflagged neighbour of `cur`, and queues it when it is a zero. */
  method FloodCell(g: Field, rows: nat, cols: nat, p: Pos, cur: Pos, ns: seq<Pos>, j: nat, h: Field, q: seq<Pos>, count: nat,
                   ghost parent: map<Pos, Pos>, ghost rank: map<Pos, nat>)
      returns (h': Field, q': seq<Pos>, count': nat, ghost parent': map<Pos, Pos>, ghost rank': map<Pos, nat>)
    requires ns == Around(rows, cols, cur) && j < |ns|
    requires Stable(g, h, rows, cols) && Fresh(g, h, p) && !At(h, ns[j]).rev && !At(h, ns[j]).flag
    requires Queued(g, h, rows, cols, [cur] + q) && Closed(g, h, rows, cols, [cur] + q)
    requires Rooted(g, h, rows, cols, [p], parent, rank) && SettledUpTo(h, ns, j) && RevSum(h) == RevSum(g) + count
    ensures Stable(g, h', rows, cols) && Fresh(g, h', p)
    ensures Queued(g, h', rows, cols, [cur] + q') && Closed(g, h', rows, cols, [cur] + q')
    ensures Rooted(g, h', rows, cols, [p], parent', rank') && SettledUpTo(h', ns, j + 1)
    ensures RevSum(h') == RevSum(g) + count' && RevSum(h') == RevSum(h) + 1 && |q'| <= |q| + 1
  {
    var x := ns[j];
    assert ([cur] + q)[0] == cur;
    UncoverStable(g, h, rows, cols, x);
    FreshGrows(g, h, Uncover(h, x), rows, cols, p);
    QueuedUncover(g, h, rows, cols, cur, q, x);
    ClosedUncover(g, h, rows, cols, cur, q, x);
    assert x !in [p];
    RootedUncover(g, h, rows, cols, [p], parent, rank, cur, x);
    SettledUncover(h, rows, cols, ns, j);
    UncoverCount(h, x);
    q' := q;
    if !h[x.r][x.c].mine && h[x.r][x.c].n == 0 {
      q' := q + [x];
    }
    h' := Uncover(h, x);
    count' := count + 1;
    parent', rank' := parent[x := cur], rank[x := rank[cur] + 1];
  }

  /** A covered, unflagged mine: uncovering it ends the game. */
  predicate Armed(t: Tile)
  {
    !t.rev && !t.flag && t.mine
  }

  /** `h` uncovers some mine that `g` had covered. */
  ghost predicate Blown(g: Field, h: Field, rows: int, cols: int)
  {
    exists y :: InBounds(rows, cols, y) && Fresh(g, h, y) && At(g, y).mine
  }

  /** `onChord`'s test: an uncovered number with exactly that many flags around it. */
  predicate Chords(g: Field, rows: int, cols: int, p: Pos)
    requires IsRect(g, rows, cols)
  {
    InBounds(rows, cols, p) && At(g, p).rev && At(g, p).n > 0 && FlagsAround(g, rows, cols, p) == At(g, p).n
  }

  lemma StableRefl(g: Field, rows: int, cols: int)
    requires IsRect(g, rows, cols)
    ensures Stable(g, g, rows, cols)
  {
  }

  lemma StableTrans(g: Field, h: Field, k: Field, rows: int, cols: int)
    requires Stable(g, h, rows, cols) && Stable(h, k, rows, cols)
    ensures Stable(g, k, rows, cols)
  {
  }

  /** Uncovering cells changes no count of mines. */
  lemma MinesAroundStable(g: Field, h: Field, rows: int, cols: int, p: Pos)
    requires Stable(g, h, rows, cols)
    ensures MinesAround(h, rows, cols, p) == MinesAround(g, rows, cols, p)
  {
    var ps := Around(rows, cols, p);
    forall i | 0 <= i < |ps|
      ensures Holds(g, ps[i]) && Holds(h, ps[i]) && At(g, ps[i]).mine == At(h, ps[i]).mine
    {
      assert InBounds(rows, cols, ps[i]);
    }
    CountSame(g, h, ps);
  }

  /** Uncovering cells keeps the numbers right. */
  lemma NumberedStable(g: Field, h: Field, rows: int, cols: int)
    requires Stable(g, h, rows, cols) && Numbered(g, rows, cols)
    ensures Numbered(h, rows, cols)
  {
    forall q | InBounds(rows, cols, q) && !At(h, q).mine
      ensures At(h, q).n == MinesAround(h, rows, cols, q)
    {
      MinesAroundStable(g, h, rows, cols, q);
    }
  }

  /** Every mine `h` uncovers beyond `g` is among the first `j` cells of `ns`. */
  ghost predicate MinesIn(g: Field, h: Field, rows: int, cols: int, ns: seq<Pos>, j: int)
    requires 0 <= j <= |ns|
  {
    forall y :: InBounds(rows, cols, y) && Fresh(g, h, y) && At(g, y).mine ==> y in ns[..j]
  }

  /** Some cell around `p` holds an armed mine. */
  ghost predicate ArmedAround(g: Field, rows: int, cols: int, p: Pos)
  {
    var ns := Around(rows, cols, p);
    exists i :: 0 <= i < |ns| && Holds(g, ns[i]) && Armed(At(g, ns[i]))
  }

  lemma MinesInSkip(g: Field, h: Field, rows: int, cols: int, ns: seq<Pos>, j: int)
    requires 0 <= j < |ns| && MinesIn(g, h, rows, cols, ns, j)
    ensures MinesIn(g, h, rows, cols, ns, j + 1)
  {
    forall y | InBounds(rows, cols, y) && Fresh(g, h, y) && At(g, y).mine
      ensures y in ns[..j + 1]
    {
      assert y in ns[..j];
    }
  }

  /** Revealing `x` (with its flood) uncovers no new mine but maybe `x`. */
  lemma MinesInReveal(g: Field, h: Field, h': Field, rows: int, cols: int, ns: seq<Pos>, j: int)
    requires Stable(g, h, rows, cols) && Stable(h, h', rows, cols) && 0 <= j < |ns|
    requires MinesIn(g, h, rows, cols, ns, j) && MinesOnlyAt(h, h', rows, cols, ns[j])
    ensures MinesIn(g, h', rows, cols, ns, j + 1)
  {
    forall y | InBounds(rows, cols, y) && Fresh(g, h', y) && At(g, y).mine
      ensures y in ns[..j + 1]
    {
      if Fresh(g, h, y) {
        assert y in ns[..j];
      } else {
        assert Fresh(h, h', y);
        assert ns[..j + 1][j] == y;
      }
    }
  }

  /** Revealing the covered, unflagged `x` (with its flood) blows up exactly when `x` is a mine. */
  lemma BlownStep(g: Field, h: Field, h': Field, rows: int, cols: int, x: Pos)
    requires Stable(g, h, rows, cols) && Stable(h, h', rows, cols) && InBounds(rows, cols, x) && Fresh(h, h', x)
    requires MinesOnlyAt(h, h', rows, cols, x)
    ensures Blown(g, h', rows, cols) <==> Blown(g, h, rows, cols) || At(h, x).mine
  {
    if Blown(g, h', rows, cols) && !At(h, x).mine {
      var y :| InBounds(rows, cols, y) && Fresh(g, h', y) && At(g, y).mine;
      if !Fresh(g, h, y) {
        assert Fresh(h, h', y);
      }
    }
    if Blown(g, h, rows, cols) {
      var y :| InBounds(rows, cols, y) && Fresh(g, h, y) && At(g, y).mine;
      assert Fresh(g, h', y);
    }
    if At(h, x).mine {
      assert Fresh(g, h', x);
    }
  }

  /** After the last neighbour, an armed one has come up. */
  lemma ChordArmedBlown(g: Field, h: Field, rows: int, cols: int, p: Pos)
    requires Stable(g, h, rows, cols)
    requires var ns := Around(rows, cols, p); SettledUpTo(h, ns, |ns|)
    ensures ArmedAround(g, rows, cols, p) ==> Blown(g, h, rows, cols)
  {
    ArmedBlownIn(g, h, rows, cols, Around(rows, cols, p));
  }

  lemma ArmedBlownIn(g: Field, h: Field, rows: int, cols: int, ns: seq<Pos>)
    requires Stable(g, h, rows, cols) && SettledUpTo(h, ns, |ns|)
    requires forall i :: 0 <= i < |ns| ==> InBounds(rows, cols, ns[i])
    ensures (exists i :: 0 <= i < |ns| && Holds(g, ns[i]) && Armed(At(g, ns[i]))) ==> Blown(g, h, rows, cols)
  {
    if exists i :: 0 <= i < |ns| && Holds(g, ns[i]) && Armed(At(g, ns[i])) {
      var i :| 0 <= i < |ns| && Holds(g, ns[i]) && Armed(At(g, ns[i]));
      assert InBounds(rows, cols, ns[i]) && Fresh(g, h, ns[i]) && At(g, ns[i]).mine;
    }
  }

  /** After the last neighbour, a mine that came up was an armed neighbour. */
  lemma ChordBlownArmed(g: Field, h: Field, rows: int, cols: int, p: Pos)
    requires Stable(g, h, rows, cols)
    requires var ns := Around(rows, cols, p); MinesIn(g, h, rows, cols, ns, |ns|)
    ensures Blown(g, h, rows, cols) ==> ArmedAround(g, rows, cols, p)
  {
    BlownArmedIn(g, h, rows, cols, Around(rows, cols, p));
  }

  lemma BlownArmedIn(g: Field, h: Field, rows: int, cols: int, ns: seq<Pos>)
    requires Stable(g, h, rows, cols) && MinesIn(g, h, rows, cols, ns, |ns|)
    ensures Blown(g, h, rows, cols) ==> exists i :: 0 <= i < |ns| && Holds(g, ns[i]) && Armed(At(g, ns[i]))
  {
    if Blown(g, h, rows, cols) {
      var y :| InBounds(rows, cols, y) && Fresh(g, h, y) && At(g, y).mine;
      assert ns[..|ns|] == ns;
      var i :| 0 <= i < |ns| && ns[i] == y;
      assert Holds(g, ns[i]) && Armed(At(g, ns[i]));
    }
  }

  /**
   * The second `forNeighbors` pass of `onChord`: reveal each cell of `ns`
   * that is still covered and unflagged when its turn comes.
   */
  method RevealEach(g: Field, rows: nat, cols: nat, ns: seq<Pos>) returns (h: Field, count: nat, boom: bool)
    requires IsRect(g, rows, cols) && Numbered(g, rows, cols)
    requires forall i :: 0 <= i < |ns| ==> InBounds(rows, cols, ns[i])
    ensures Stable(g, h, rows, cols) && Numbered(h, rows, cols)
    ensures RevSum(h) == RevSum(g) + count
    ensures SettledUpTo(h, ns, |ns|) && MinesIn(g, h, rows, cols, ns, |ns|)
    ensures boom <==> Blown(g, h, rows, cols)
    ensures ZerosSettled(g, h, rows, cols) && Spread(g, h, rows, cols, ns)
  {
    StableRefl(g, rows, cols);
    h, count, boom := g, 0, false;
    ghost var parent: map<Pos, Pos> := map[];
    ghost var rank: map<Pos, nat> := map[];
    for j := 0 to |ns|
      invariant Stable(g, h, rows, cols) && Numbered(h, rows, cols)
      invariant SettledUpTo(h, ns, j) && MinesIn(g, h, rows, cols, ns, j)
      invariant boom <==> Blown(g, h, rows, cols)
      invariant RevSum(h) == RevSum(g) + count
      invariant ZerosSettled(g, h, rows, cols) && Rooted(g, h, rows, cols, ns[..j], parent, rank)
    {
      var x := ns[j];
      if h[x.r][x.c].flag || h[x.r][x.c].rev {
        SettledSkip(h, ns, j);
        MinesInSkip(g, h, rows, cols, ns, j);
        RootsGrow(g, h, rows, cols, ns[..j], ns[..j + 1], parent, rank);
        continue;
      }
      var h', c, b := RevealAt(h, rows, cols, x);
      StableTrans(g, h, h', rows, cols);
      NumberedStable(h, h', rows, cols);
      SettledGrows(h, h', rows, cols, ns, j);
      SettledSkip(h', ns, j);
      MinesInReveal(g, h, h', rows, cols, ns, j);
      BlownStep(g, h, h', rows, cols, x);
      ZerosJoin(g, h, h', rows, cols);
      ghost var pa, ra :| Rooted(h, h', rows, cols, [x], pa, ra);
      parent, rank := RootedJoin(g, h, h', rows, cols, ns, j, parent, rank, pa, ra);
      h, count, boom := h', count + c, boom || b;
    }
    assert ns[..|ns|] == ns;
    assert Rooted(g, h, rows, cols, ns, parent, rank);
  }

  /** More roots keep the links rooted. */
  lemma RootsGrow(g: Field, h: Field, rows: int, cols: int, roots: seq<Pos>, roots': seq<Pos>,
                  parent: map<Pos, Pos>, rank: map<Pos, nat>)
    requires Rooted(g, h, rows, cols, roots, parent, rank) && forall y :: y in roots ==> y in roots'
    ensures Rooted(g, h, rows, cols, roots', parent, rank)
  {
  }

  /** Settled zeros of two reveals in a row: the earlier ones stay settled as more cells come up. */
  lemma ZerosJoin(g: Field, h: Field, h': Field, rows: int, cols: int)
    requires Stable(g, h, rows, cols) && Stable(h, h', rows, cols)
    requires ZerosSettled(g, h, rows, cols) && ZerosSettled(h, h', rows, cols)
    ensures ZerosSettled(g, h', rows, cols)
  {
    forall x | InBounds(rows, cols, x) && Fresh(g, h', x) && Zero(At(g, x))
      ensures Settled(h', rows, cols, x)
    {
      if Fresh(g, h, x) {
        SettledGrows(h, h', rows, cols, Around(rows, cols, x), |Around(rows, cols, x)|);
      } else {
        assert Fresh(h, h', x) && Zero(At(h, x));
      }
    }
  }

  /**
   * The links of the cells the first `j` reveals uncovered, joined with those
   * of the flood from `ns[j]`: each cell keeps the links of the reveal that
   * uncovered it.
   */
  lemma RootedJoin(g: Field, h: Field, h': Field, rows: int, cols: int, ns: seq<Pos>, j: int,
                   parent: map<Pos, Pos>, rank: map<Pos, nat>, pa: map<Pos, Pos>, ra: map<Pos, nat>)
      returns (parent': map<Pos, Pos>, rank': map<Pos, nat>)
    requires Stable(g, h, rows, cols) && Stable(h, h', rows, cols) && 0 <= j < |ns|
    requires Rooted(g, h, rows, cols, ns[..j], parent, rank) && Rooted(h, h', rows, cols, [ns[j]], pa, ra)
    ensures Rooted(g, h', rows, cols, ns[..j + 1], parent', rank')
  {
    parent' := parent + map y | y in pa && Fresh(h, h', y) :: pa[y];
    rank' := rank + map y | y in ra && Fresh(h, h', y) :: ra[y];
    forall y | InBounds(rows, cols, y) && Fresh(g, h', y)
      ensures y in rank' && (y !in ns[..j + 1] ==> y in parent' && Reached(g, h', rows, cols, parent'[y], y) &&
                                                   parent'[y] in rank' && rank'[parent'[y]] < rank'[y])
    {
      if Fresh(g, h, y) {
        OldLinks(g, h, h', rows, cols, ns, j, parent, rank, pa, ra, parent', rank', y);
      } else {
        NewLinks(g, h, h', rows, cols, ns, j, pa, ra, parent', rank', y);
      }
    }
  }

  /** A cell the first `j` reveals uncovered keeps its links. */
  lemma OldLinks(g: Field, h: Field, h': Field, rows: int, cols: int, ns: seq<Pos>, j: int,
                 parent: map<Pos, Pos>, rank: map<Pos, nat>, pa: map<Pos, Pos>, ra: map<Pos, nat>,
                 parent': map<Pos, Pos>, rank': map<Pos, nat>, y: Pos)
    requires Stable(g, h, rows, cols) && Stable(h, h', rows, cols) && 0 <= j < |ns|
    requires Rooted(g, h, rows, cols, ns[..j], parent, rank)
    requires parent' == parent + map y | y in pa && Fresh(h, h', y) :: pa[y]
    requires rank' == rank + map y | y in ra && Fresh(h, h', y) :: ra[y]
    requires InBounds(rows, cols, y) && Fresh(g, h, y)
    ensures y in rank' && (y !in ns[..j + 1] ==> y in parent' && Reached(g, h', rows, cols, parent'[y], y) &&
                                                 parent'[y] in rank' && rank'[parent'[y]] < rank'[y])
  {
    assert !Fresh(h, h', y) && rank'[y] == rank[y];
    if y !in ns[..j + 1] {
      assert y !in ns[..j];
      var z := parent[y];
      assert !Fresh(h, h', z) && parent'[y] == z && rank'[z] == rank[z];
      FreshGrows(g, h, h', rows, cols, z);
    }
  }

  /** A cell the flood from `ns[j]` uncovered keeps the links of that flood. */
  lemma NewLinks(g: Field, h: Field, h': Field, rows: int, cols: int, ns: seq<Pos>, j: int,
                 pa: map<Pos, Pos>, ra: map<Pos, nat>, parent': map<Pos, Pos>, rank': map<Pos, nat>, y: Pos)
    requires Stable(g, h, rows, cols) && Stable(h, h', rows, cols) && 0 <= j < |ns|
    requires Rooted(h, h', rows, cols, [ns[j]], pa, ra)
    requires forall y :: y in pa && Fresh(h, h', y) ==> y in parent' && parent'[y] == pa[y]
    requires forall y :: y in ra && Fresh(h, h', y) ==> y in rank' && rank'[y] == ra[y]
    requires InBounds(rows, cols, y) && Fresh(g, h', y) && !Fresh(g, h, y)
    ensures y in rank' && (y !in ns[..j + 1] ==> y in parent' && Reached(g, h', rows, cols, parent'[y], y) &&
                                                 parent'[y] in rank' && rank'[parent'[y]] < rank'[y])
  {
    assert Fresh(h, h', y);
    if y !in ns[..j + 1] {
      assert ns[..j + 1][j] == ns[j];
      assert y !in [ns[j]];
      var z := pa[y];
      assert Reached(h, h', rows, cols, z, y);
      assert Fresh(h, h', z) && Zero(At(h, z));
    }
  }

  /**
   * `onChord(r, c)` past its `alive` test: on an uncovered number with as many
   * flags around it, reveal every covered, unflagged neighbour. `boom` tells
   * whether one of those reveals hit a mine (the loop goes on regardless),
   * and `chord` whether the guard let the chord through.
   */
  method ChordAt(g: Field, rows: nat, cols: nat, p: Pos) returns (chord: bool, h: Field, count: nat, boom: bool)
    requires IsRect(g, rows, cols) && Numbered(g, rows, cols)
    ensures chord <==> Chords(g, rows, cols, p)
    ensures Stable(g, h, rows, cols) && Numbered(h, rows, cols)
    ensures RevSum(h) == RevSum(g) + count
    ensures !Chords(g, rows, cols, p) ==> h == g && count == 0 && !boom
    ensures Chords(g, rows, cols, p) ==> Settled(h, rows, cols, p)
    ensures Chords(g, rows, cols, p) ==> ZerosSettled(g, h, rows, cols) && Spread(g, h, rows, cols, Around(rows, cols, p))
    ensures boom <==> Chords(g, rows, cols, p) && ArmedAround(g, rows, cols, p)
    ensures boom <==> Blown(g, h, rows, cols)
  {
    StableRefl(g, rows, cols);
    chord := ChordTest(g, rows, cols, p);
    if !chord {
      return chord, g, 0, false;
    }
    h, count, boom := RevealAround(g, rows, cols, p);
  }

  /** The guard of `onChord`: an uncovered number with exactly that many flags around it. */
  method ChordTest(g: Field, rows: nat, cols: nat, p: Pos) returns (chord: bool)
    requires IsRect(g, rows, cols)
    ensures chord <==> Chords(g, rows, cols, p)
  {
    if !InBounds(rows, cols, p) {
      return false;
    }
    var t := At(g, p);
    if !t.rev || t.n <= 0 {
      return false;
    }
    var ns := Around(rows, cols, p);
    AroundHolds(g, rows, cols, ns);
    var flags := CountAround(g, ns, IsFlag);
    chord := flags == t.n;
  }

  /** The reveal pass of a chord on `p`: every covered, unflagged neighbour is revealed; `boom` tells whether a mine was among them. */
  method RevealAround(g: Field, rows: nat, cols: nat, p: Pos) returns (h: Field, count: nat, boom: bool)
    requires IsRect(g, rows, cols) && Numbered(g, rows, cols) && InBounds(rows, cols, p)
    ensures Stable(g, h, rows, cols) && Numbered(h, rows, cols)
    ensures RevSum(h) == RevSum(g) + count && Settled(h, rows, cols, p)
    ensures ZerosSettled(g, h, rows, cols) && Spread(g, h, rows, cols, Around(rows, cols, p))
    ensures boom <==> ArmedAround(g, rows, cols, p)
    ensures boom <==> Blown(g, h, rows, cols)
  {
    h, count, boom := RevealEach(g, rows, cols, Around(rows, cols, p));
    ChordArmedBlown(g, h, rows, cols, p);
    ChordBlownArmed(g, h, rows, cols, p);
  }

  /** What `RevealAt` promises, read as a grown field and the test for a lost game. */
  lemma RevealBlown(g: Field, h: Field, rows: int, cols: int, p: Pos, boom: bool)
    requires IsRect(g, rows, cols)
    requires !Opens(g, rows, cols, p) ==> h == g
    requires boom <==> Opens(g, rows, cols, p) && At(g, p).mine
    requires Opens(g, rows, cols, p) ==> Flooded(g, h, rows, cols, p)
    requires MinesOnlyAt(g, h, rows, cols, p)
    ensures Stable(g, h, rows, cols)
    ensures boom <==> Blown(g, h, rows, cols)
  {
    if !Opens(g, rows, cols, p) {
      StableRefl(g, rows, cols);
    } else if boom {
      assert InBounds(rows, cols, p) && Fresh(g, h, p) && At(g, p).mine;
    }
  }
}
