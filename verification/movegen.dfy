/** Move generation: the legal placements of one side, in row-major order. */
module MoveGen {
  import opened Board

  /** The 64 cells in the generator's scan order: row by row, and column by
      column within a row. */
  function Grid(): (g: seq<Move>)
    ensures |g| == 64
  {
    seq(64, k requires 0 <= k < 64 => Move(k / 8, k % 8))
  }

  /** Cell (r, c) sits at position 8r + c of the scan. */
  lemma GridAt(r: int, c: int)
    requires 0 <= r < 8 && 0 <= c < 8
    ensures Grid()[8 * r + c] == Move(r, c)
  {
    var k := 8 * r + c;
    assert k / 8 == r && k % 8 == c;
  }

  /** The scan visits exactly the cells of the grid, in row-major order. */
  lemma GridIsScan()
    ensures ScanOrdered(Grid())
    ensures forall m :: m in Grid() <==> InBoard(m)
  {
    var g := Grid();
    forall i, j | 0 <= i < j < |g|
      ensures Before(g[i], g[j])
    {
      assert g[i] == Move(i / 8, i % 8) && g[j] == Move(j / 8, j % 8);
    }
    forall m | InBoard(m)
      ensures m in g
    {
      GridAt(m.row, m.col);
    }
  }

  /** The cells of `cells` that the oracle accepts for `side`, in their
      order: the scan keeps a cell exactly when `checkMove` holds. */
  function Filter<B>(o: Oracle<B>, b: B, side: Side, cells: seq<Move>): seq<Move>
    decreases |cells|
  {
    if |cells| == 0 then []
    else
      var last := cells[|cells| - 1];
      Filter(o, b, side, cells[..|cells| - 1]) + (if o.legal(b, last, side) then [last] else [])
  }

  /** Filtering keeps exactly the accepted cells, keeps them in order, and
      never lengthens the list. */
  lemma {:induction false} FilterKeeps<B>(o: Oracle<B>, b: B, side: Side, cells: seq<Move>)
    ensures |Filter(o, b, side, cells)| <= |cells|
    ensures forall m :: m in Filter(o, b, side, cells) <==> m in cells && o.legal(b, m, side)
    ensures ScanOrdered(cells) ==> ScanOrdered(Filter(o, b, side, cells))
    decreases |cells|
  {
    if |cells| > 0 {
      var init := cells[..|cells| - 1];
      var last := cells[|cells| - 1];
      FilterKeeps(o, b, side, init);
      var front := Filter(o, b, side, init);
      assert cells == init + [last];
      if ScanOrdered(cells) {
        forall i | 0 <= i < |front|
          ensures Before(front[i], last)
        {
          assert front[i] in init;
          var k :| 0 <= k < |init| && init[k] == front[i];
          assert cells[k] == front[i];
        }
      }
    }
  }

  /** Every legal placement of `side` on `b`: the scan of the whole grid. */
  function PossibleMoves<B>(o: Oracle<B>, b: B, side: Side): (ms: seq<Move>)
    ensures |ms| <= 64
  {
    FilterKeeps(o, b, side, Grid());
    Filter(o, b, side, Grid())
  }

  /** The generated list holds every legal placement and nothing else, each
      once, in row-major order; so it has at most 64 entries. */
  lemma PossibleMovesExact<B>(o: Oracle<B>, b: B, side: Side)
    ensures |PossibleMoves(o, b, side)| <= 64
    ensures forall m :: m in PossibleMoves(o, b, side) <==> IsLegal(o, b, m, side)
    ensures ScanOrdered(PossibleMoves(o, b, side))
    ensures forall i, j :: 0 <= i < j < |PossibleMoves(o, b, side)| ==>
      PossibleMoves(o, b, side)[i] != PossibleMoves(o, b, side)[j]
  {
    GridIsScan();
    FilterKeeps(o, b, side, Grid());
  }

  /** The generator's two nested loops over the grid, collecting each cell
      the oracle accepts. */
  method PossibleMovesScan<B>(o: Oracle<B>, b: B, side: Side) returns (moves: seq<Move>)
    ensures moves == PossibleMoves(o, b, side)
  {
    moves := [];
    for i := 0 to 8
      invariant moves == Filter(o, b, side, Grid()[..8 * i])
    {
      moves := ScanRowInto(o, b, side, i, moves);
    }
    assert Grid()[..64] == Grid();
  }

  /** The inner loop over the columns of row `i`, appending to what the
      earlier rows collected. */
  method ScanRowInto<B>(o: Oracle<B>, b: B, side: Side, i: int, front: seq<Move>) returns (moves: seq<Move>)
    requires 0 <= i < 8
    requires front == Filter(o, b, side, Grid()[..8 * i])
    ensures moves == Filter(o, b, side, Grid()[..8 * i + 8])
  {
    moves := front;
    for j := 0 to 8
      invariant moves == Filter(o, b, side, Grid()[..8 * i + j])
    {
      var m := Move(i, j);
      GridAt(i, j);
      assert Grid()[..8 * i + j + 1][..8 * i + j] == Grid()[..8 * i + j];
      if o.legal(b, m, side) {
        moves := moves + [m];
      }
    }
  }
}
