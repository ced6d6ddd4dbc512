/** The engine's view of the board: sides, moves, the row-major scan order,
    and the position oracle through which the engine reads and advances a
    board whose representation and capture rule it does not own. */
module Board {
  import opened Wrappers

  datatype Side = Black | White {

    /** The opposing side. */
    function Other(): (s: Side)
      ensures s != this
    {
      if this == Black then White else Black
    }
  }

  /** A placement on the 8x8 grid. `row` is the coordinate the move generator
      scans in its outer loop, `col` the one it scans in its inner loop. */
  datatype Move = Move(row: int, col: int)

  predicate InBoard(m: Move) {
    0 <= m.row < 8 && 0 <= m.col < 8
  }

  /** `a` comes strictly earlier than `b` in the row-major scan. */
  predicate Before(a: Move, b: Move) {
    a.row < b.row || (a.row == b.row && a.col < b.col)
  }

  /** A move list in strictly increasing row-major order (hence without repeats). */
  predicate ScanOrdered(ms: seq<Move>) {
    forall i, j :: 0 <= i < j < |ms| ==> Before(ms[i], ms[j])
  }

  /** The board operations the engine relies on, as total functions of a
      board value. `apply` returns a fresh board, which is how copy-then-move
      is modelled; the caller's board is never changed. */
  datatype Oracle<!B> = Oracle(
    legal: (B, Move, Side) -> bool,
    apply: (B, Move, Side) -> B,
    occupied: (B, Side, int, int) -> bool,
    countBlack: B -> int,
    countWhite: B -> int)

  /** `m` is on the grid and the oracle accepts it for `side`. */
  predicate IsLegal<B>(o: Oracle<B>, b: B, m: Move, side: Side) {
    InBoard(m) && o.legal(b, m, side)
  }

  /** `side` has a piece on cell (r, c). */
  predicate Occupies<B>(o: Oracle<B>, b: B, side: Side, r: int, c: int) {
    o.occupied(b, side, r, c)
  }

  /** Advancing a board by a move that may be a pass: a pass leaves it as it is. */
  function ApplyOpt<B>(o: Oracle<B>, b: B, m: Option<Move>, side: Side): B {
    match m
    case None => b
    case Some(mv) => o.apply(b, mv, side)
  }

  /** Whose pieces count for and against the engine: the pair that the
      original keeps in process-wide variables. */
  datatype Perspective = Perspective(mine: Side, theirs: Side) {

    function Swap(): Perspective {
      Perspective(theirs, mine)
    }
  }

  /** Row-major order is a strict total order on moves. */
  lemma BeforeTotal(a: Move, b: Move)
    ensures !Before(a, a)
    ensures Before(a, b) ==> !Before(b, a)
    ensures a != b ==> Before(a, b) || Before(b, a)
  {
  }
}
