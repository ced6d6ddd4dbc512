/** Static evaluation of the position a candidate move leads to: the
    positional weighted sum and the material count. */
module Evaluate {
  import opened Board

  /** The fixed positional weight of each cell, indexed [row][col]. */
  const BoardValues: seq<seq<int>> :=
    [[99, -8, 8, 6, 6, 8, -8, 99],
     [-8, -24, -4, -3, -3, -4, -24, -8],
     [8, -4, 7, 4, 4, 7, -4, 8],
     [6, -3, 4, 0, 0, 4, -3, 6],
     [6, -3, 4, 0, 0, 4, -3, 6],
     [8, -4, 7, 4, 4, 7, -4, 8],
     [-8, -24, -4, -3, -3, -4, -24, -8],
     [99, -8, 8, 6, 6, 8, -8, 99]]

  function Weight(r: int, c: int): int
    requires 0 <= r < 8 && 0 <= c < 8
  {
    BoardValues[r][c]
  }

  /** Sum of the weights of the cells (r, 0..c-1) that `side` occupies. */
  function RowWeight<B>(o: Oracle<B>, b: B, side: Side, r: int, c: int): int
    requires 0 <= r < 8 && 0 <= c <= 8
    decreases c
  {
    if c == 0 then 0
    else RowWeight(o, b, side, r, c - 1) + (if Occupies(o, b, side, r, c - 1) then Weight(r, c - 1) else 0)
  }

  /** Sum of the weights of the cells in rows 0..n-1 that `side` occupies. */
  function SideWeight<B>(o: Oracle<B>, b: B, side: Side, n: int): int
    requires 0 <= n <= 8
    decreases n
  {
    if n == 0 then 0
    else SideWeight(o, b, side, n - 1) + RowWeight(o, b, side, n - 1, 8)
  }

  /** The weighted sum over the engine's cells minus that over the opponent's. */
  function PositionScore<B>(o: Oracle<B>, p: Perspective, b: B): int {
    SideWeight(o, b, p.mine, 8) - SideWeight(o, b, p.theirs, 8)
  }

  /** The positional evaluator: the score, from the engine's perspective `p`,
      of the board reached when `side` plays `m` on `b`. `side` chooses only
      who moves; whose pieces count for and against is always `p`. */
  function Heuristic<B>(o: Oracle<B>, p: Perspective, b: B, m: Move, side: Side): (r: int)
    ensures -784 <= r <= 784
  {
    ScoreBounded(o, p, o.apply(b, m, side));
    PositionScore(o, p, o.apply(b, m, side))
  }

  /** The material evaluator: black pieces minus white pieces after `side`
      plays `m` on `b`, whoever the engine plays for. */
  function NaiveHeuristic<B>(o: Oracle<B>, b: B, m: Move, side: Side): int {
    var after := o.apply(b, m, side);
    o.countBlack(after) - o.countWhite(after)
  }

  /** The two interchangeable evaluators the search can run with. */
  datatype Evaluator = Positional | Material

  /** The evaluator `e` as a function of the board, the move and the side
      that makes it, scored from perspective `p`. */
  function Evaluation<B>(o: Oracle<B>, p: Perspective, e: Evaluator): (B, Move, Side) -> int {
    match e
    case Positional => (b: B, m: Move, side: Side) => Heuristic(o, p, b, m, side)
    case Material => (b: B, m: Move, side: Side) => NaiveHeuristic(o, b, m, side)
  }

  /** The evaluator's two nested loops over the grid, accumulating the
      engine's and the opponent's weighted sums side by side. */
  method HeuristicScan<B>(o: Oracle<B>, p: Perspective, b: B, m: Move, side: Side) returns (score: int)
    ensures score == Heuristic(o, p, b, m, side)
  {
    var after := o.apply(b, m, side);
    var myScore, oppScore := 0, 0;
    for i := 0 to 8
      invariant myScore == SideWeight(o, after, p.mine, i)
      invariant oppScore == SideWeight(o, after, p.theirs, i)
    {
      for j := 0 to 8
        invariant myScore == SideWeight(o, after, p.mine, i) + RowWeight(o, after, p.mine, i, j)
        invariant oppScore == SideWeight(o, after, p.theirs, i) + RowWeight(o, after, p.theirs, i, j)
      {
        if o.occupied(after, p.mine, i, j) {
          myScore := myScore + Weight(i, j);
        }
        if o.occupied(after, p.theirs, i, j) {
          oppScore := oppScore + Weight(i, j);
        }
      }
    }
    score := myScore - oppScore;
  }

  /** Swapping whose pieces count for and against, on the same post-move
      board, negates the positional score exactly. */
  lemma HeuristicSwapNegates<B>(o: Oracle<B>, p: Perspective, b: B, m: Move, side: Side)
    ensures Heuristic(o, p.Swap(), b, m, side) == -Heuristic(o, p, b, m, side)
  {
  }

  /** `b1` and `b2` have the same pieces of every side on every cell of the grid. */
  predicate SameOccupancy<B>(o: Oracle<B>, b1: B, b2: B) {
    forall s: Side, r: int, c: int :: 0 <= r < 8 && 0 <= c < 8 ==>
      Occupies(o, b1, s, r, c) == Occupies(o, b2, s, r, c)
  }

  /** `b1` and `b2` have the same pieces everywhere except possibly on the cell of `x`. */
  predicate AgreeExcept<B>(o: Oracle<B>, b1: B, b2: B, x: Move) {
    forall s: Side, r: int, c: int :: 0 <= r < 8 && 0 <= c < 8 && (r != x.row || c != x.col) ==>
      Occupies(o, b1, s, r, c) == Occupies(o, b2, s, r, c)
  }

  /** The contribution of the cell of `x` to `side`'s weighted sum. */
  function CellWeight<B>(o: Oracle<B>, b: B, side: Side, x: Move): int
    requires InBoard(x)
  {
    if Occupies(o, b, side, x.row, x.col) then Weight(x.row, x.col) else 0
  }

  lemma {:induction false} RowWeightDelta<B>(o: Oracle<B>, b1: B, b2: B, side: Side, x: Move, r: int, c: int)
    requires InBoard(x) && AgreeExcept(o, b1, b2, x)
    requires 0 <= r < 8 && 0 <= c <= 8
    ensures RowWeight(o, b2, side, r, c) - RowWeight(o, b1, side, r, c) ==
      (if r == x.row && x.col < c then CellWeight(o, b2, side, x) - CellWeight(o, b1, side, x) else 0)
    decreases c
  {
    if c > 0 {
      RowWeightDelta(o, b1, b2, side, x, r, c - 1);
      if r != x.row || c - 1 != x.col {
        assert Occupies(o, b1, side, r, c - 1) == Occupies(o, b2, side, r, c - 1);
      }
    }
  }

  lemma {:induction false} SideWeightDelta<B>(o: Oracle<B>, b1: B, b2: B, side: Side, x: Move, n: int)
    requires InBoard(x) && AgreeExcept(o, b1, b2, x)
    requires 0 <= n <= 8
    ensures SideWeight(o, b2, side, n) - SideWeight(o, b1, side, n) ==
      (if x.row < n then CellWeight(o, b2, side, x) - CellWeight(o, b1, side, x) else 0)
    decreases n
  {
    if n > 0 {
      SideWeightDelta(o, b1, b2, side, x, n - 1);
      RowWeightDelta(o, b1, b2, side, x, n - 1, 8);
    }
  }

  /** The score is a sum over cells: changing the pieces on one cell changes
      the score by exactly that cell's weight for each piece gained by the
      engine or lost by the opponent, and minus it for the converse. */
  lemma ScoreCellDelta<B>(o: Oracle<B>, p: Perspective, b1: B, b2: B, x: Move)
    requires InBoard(x) && AgreeExcept(o, b1, b2, x)
    ensures PositionScore(o, p, b2) - PositionScore(o, p, b1) ==
      (CellWeight(o, b2, p.mine, x) - CellWeight(o, b1, p.mine, x))
      - (CellWeight(o, b2, p.theirs, x) - CellWeight(o, b1, p.theirs, x))
  {
    SideWeightDelta(o, b1, b2, p.mine, x, 8);
    SideWeightDelta(o, b1, b2, p.theirs, x, 8);
  }

  lemma {:induction false} RowWeightFrame<B>(o: Oracle<B>, b1: B, b2: B, side: Side, r: int, c: int)
    requires SameOccupancy(o, b1, b2)
    requires 0 <= r < 8 && 0 <= c <= 8
    ensures RowWeight(o, b1, side, r, c) == RowWeight(o, b2, side, r, c)
    decreases c
  {
    if c > 0 {
      RowWeightFrame(o, b1, b2, side, r, c - 1);
      assert Occupies(o, b1, side, r, c - 1) == Occupies(o, b2, side, r, c - 1);
    }
  }

  lemma {:induction false} SideWeightFrame<B>(o: Oracle<B>, b1: B, b2: B, side: Side, n: int)
    requires SameOccupancy(o, b1, b2)
    requires 0 <= n <= 8
    ensures SideWeight(o, b1, side, n) == SideWeight(o, b2, side, n)
    decreases n
  {
    if n > 0 {
      SideWeightFrame(o, b1, b2, side, n - 1);
      RowWeightFrame(o, b1, b2, side, n - 1, 8);
    }
  }

  /** The positional score reads nothing of a board but which side holds
      which of the 64 cells. */
  lemma ScoreDependsOnlyOnOccupancy<B>(o: Oracle<B>, p: Perspective, b1: B, b2: B)
    requires SameOccupancy(o, b1, b2)
    ensures PositionScore(o, p, b1) == PositionScore(o, p, b2)
  {
    SideWeightFrame(o, b1, b2, p.mine, 8);
    SideWeightFrame(o, b1, b2, p.theirs, 8);
  }

  function Abs(x: int): int {
    if x < 0 then -x else x
  }

  /** Sum of the absolute weights of cells (r, 0..c-1). */
  function AbsRowWeight(r: int, c: int): int
    requires 0 <= r < 8 && 0 <= c <= 8
    decreases c
  {
    if c == 0 then 0 else AbsRowWeight(r, c - 1) + Abs(Weight(r, c - 1))
  }

  /** Sum of the absolute weights of rows 0..n-1. */
  function AbsWeight(n: int): int
    requires 0 <= n <= 8
    decreases n
  {
    if n == 0 then 0 else AbsWeight(n - 1) + AbsRowWeight(n - 1, 8)
  }

  lemma {:induction false} RowWeightGap<B>(o: Oracle<B>, b: B, s1: Side, s2: Side, r: int, c: int)
    requires 0 <= r < 8 && 0 <= c <= 8
    ensures -AbsRowWeight(r, c) <= RowWeight(o, b, s1, r, c) - RowWeight(o, b, s2, r, c) <= AbsRowWeight(r, c)
    decreases c
  {
    if c > 0 {
      RowWeightGap(o, b, s1, s2, r, c - 1);
    }
  }

  lemma {:induction false} SideWeightGap<B>(o: Oracle<B>, b: B, s1: Side, s2: Side, n: int)
    requires 0 <= n <= 8
    ensures -AbsWeight(n) <= SideWeight(o, b, s1, n) - SideWeight(o, b, s2, n) <= AbsWeight(n)
    decreases n
  {
    if n > 0 {
      SideWeightGap(o, b, s1, s2, n - 1);
      RowWeightGap(o, b, s1, s2, n - 1, 8);
    }
  }

  /** Every positional score lies within plus or minus 784, the sum of the
      absolute cell weights, whatever the oracle reports; so the original's
      machine integers never overflow on it. */
  lemma ScoreBounded<B>(o: Oracle<B>, p: Perspective, b: B)
    ensures -784 <= PositionScore(o, p, b) <= 784
  {
    SideWeightGap(o, b, p.mine, p.theirs, 8);
    AbsWeightTotal();
  }

  /** The absolute weights of the table add up to 784. */
  lemma AbsWeightTotal()
    ensures AbsWeight(8) == 784
  {
    assert AbsRowWeight(0, 8) == 242 && AbsRowWeight(7, 8) == 242;
    assert AbsRowWeight(1, 8) == 78 && AbsRowWeight(6, 8) == 78;
    assert AbsRowWeight(2, 8) == 46 && AbsRowWeight(5, 8) == 46;
    assert AbsRowWeight(3, 8) == 26 && AbsRowWeight(4, 8) == 26;
  }

  /** Number of cells (r, 0..c-1) that `side` occupies. */
  function RowCount<B>(o: Oracle<B>, b: B, side: Side, r: int, c: int): int
    requires 0 <= r < 8 && 0 <= c <= 8
    decreases c
  {
    if c == 0 then 0 else RowCount(o, b, side, r, c - 1) + (if Occupies(o, b, side, r, c - 1) then 1 else 0)
  }

  /** Number of cells in rows 0..n-1 that `side` occupies. */
  function SideCount<B>(o: Oracle<B>, b: B, side: Side, n: int): int
    requires 0 <= n <= 8
    decreases n
  {
    if n == 0 then 0 else SideCount(o, b, side, n - 1) + RowCount(o, b, side, n - 1, 8)
  }

  /** The oracle's piece counts agree with its occupancy of the grid. */
  predicate CountsConsistent<B>(o: Oracle<B>, b: B) {
    o.countBlack(b) == SideCount(o, b, Black, 8) && o.countWhite(b) == SideCount(o, b, White, 8)
  }

  lemma {:induction false} SideCountRange<B>(o: Oracle<B>, b: B, side: Side, n: int)
    requires 0 <= n <= 8
    ensures 0 <= SideCount(o, b, side, n) <= 8 * n
    decreases n
  {
    if n > 0 {
      SideCountRange(o, b, side, n - 1);
      RowCountRange(o, b, side, n - 1, 8);
    }
  }

  lemma {:induction false} RowCountRange<B>(o: Oracle<B>, b: B, side: Side, r: int, c: int)
    requires 0 <= r < 8 && 0 <= c <= 8
    ensures 0 <= RowCount(o, b, side, r, c) <= c
    decreases c
  {
    if c > 0 {
      RowCountRange(o, b, side, r, c - 1);
    }
  }

  /** With counts that agree with the grid, the material score lies in
      [-64, 64]. */
  lemma NaiveBounded<B>(o: Oracle<B>, b: B, m: Move, side: Side)
    requires CountsConsistent(o, o.apply(b, m, side))
    ensures -64 <= NaiveHeuristic(o, b, m, side) <= 64
  {
    var after := o.apply(b, m, side);
    SideCountRange(o, after, Black, 8);
    SideCountRange(o, after, White, 8);
  }

  /** The material score does not depend on which side the engine plays:
      unlike the positional one, swapping the perspective leaves it as it is. */
  lemma MaterialIgnoresPerspective<B>(o: Oracle<B>, p: Perspective, b: B, m: Move, side: Side)
    ensures Evaluation(o, p.Swap(), Material)(b, m, side) == Evaluation(o, p, Material)(b, m, side)
    ensures Evaluation(o, p.Swap(), Positional)(b, m, side) == -Evaluation(o, p, Positional)(b, m, side)
  {
  }
}
