/** The player: its side assignment, its canonical board, and the turn that
    records the opponent's move, searches, and records its own. */
module Agent {
  import opened Wrappers
  import opened Board
  import opened Evaluate
  import opened Search

  /** The side pair before any player is constructed: white for the engine,
      black for the opponent. */
  const InitialSides := Perspective(White, Black)

  /** The constructor's effect on the process-wide side pair `g`, as written:
      it overwrites the pair only when the player is black and otherwise
      leaves whatever an earlier construction put there. */
  function ConstructSidesAsWritten(g: Perspective, side: Side): Perspective {
    if side == Black then Perspective(Black, White) else g
  }

  /** In a fresh process the constructor as written assigns the intended pair. */
  lemma FirstConstructionAssignsSides(side: Side)
    ensures ConstructSidesAsWritten(InitialSides, side) == PerspectiveFor(side)
  {
  }

  /** A white player constructed after a black one in the same process is
      left playing for black. */
  lemma WhiteAfterBlackPlaysBlack()
    ensures ConstructSidesAsWritten(ConstructSidesAsWritten(InitialSides, Black), White).mine == Black
    ensures PerspectiveFor(White).mine == White
  {
  }

  /** The side pair of a player of `side`: the engine plays `side`, the
      opponent the other side, whatever was constructed before. */
  function PerspectiveFor(side: Side): (p: Perspective)
    ensures p.mine == side && p.theirs != side
  {
    Perspective(side, side.Other())
  }

  /** A player: its own copy of the board, its side pair, and the flag that
      selects the material evaluator for testing. */
  datatype Player<B> = Player(board: B, sides: Perspective, testingMinimax: bool)

  /** A new player of `side` on the starting position `start`. */
  function NewPlayer<B>(side: Side, start: B): (pl: Player<B>)
    ensures pl.board == start
    ensures pl.sides.mine == side && pl.sides.theirs != side
    ensures !pl.testingMinimax
  {
    Player(start, PerspectiveFor(side), false)
  }

  /** The evaluator the player's search runs with: material when testing,
      positional otherwise. */
  function Strategy<B>(o: Oracle<B>, pl: Player<B>): (B, Move, Side) -> int {
    Evaluation(o, pl.sides, if pl.testingMinimax then Material else Positional)
  }

  /** The player after a turn, and the move it returns (None for a pass). */
  datatype Turn<B> = Turn(player: Player<B>, move: Option<Move>)

  /** The testing flag selects the material score, and otherwise the
      positional score from the player's own side pair. */
  lemma StrategySelects<B>(o: Oracle<B>, pl: Player<B>, b: B, m: Move, s: Side)
    ensures pl.testingMinimax ==> Strategy(o, pl)(b, m, s) == NaiveHeuristic(o, b, m, s)
    ensures !pl.testingMinimax ==> Strategy(o, pl)(b, m, s) == Heuristic(o, pl.sides, b, m, s)
  {
  }

  /** One turn: record the opponent's move (None when it passed), run the
      two-ply search for the engine's side, record the chosen move if there
      is one, and return it. */
  function DoMove<B>(o: Oracle<B>, pl: Player<B>, opponentsMove: Option<Move>): (t: Turn<B>)
    ensures t.player.sides == pl.sides && t.player.testingMinimax == pl.testingMinimax
    ensures
      var cur := ApplyOpt(o, pl.board, opponentsMove, pl.sides.theirs);
      && t.move == MiniMax(o, Strategy(o, pl), pl.sides, cur)
      && (t.move.None? <==> forall m :: !IsLegal(o, cur, m, pl.sides.mine))
      && (t.move.None? ==> t.player.board == cur)
      && (t.move.Some? ==> IsLegal(o, cur, t.move.value, pl.sides.mine) &&
                           t.player.board == o.apply(cur, t.move.value, pl.sides.mine))
  {
    var cur := ApplyOpt(o, pl.board, opponentsMove, pl.sides.theirs);
    var mv := MiniMax(o, Strategy(o, pl), pl.sides, cur);
    var next := if mv.Some? then o.apply(cur, mv.value, pl.sides.mine) else cur;
    Turn(pl.(board := next), mv)
  }

  /** When the opponent passed and the engine has no legal move, the turn
      is a pass and the player's board is left as it was. */
  lemma DoublePassKeepsBoard<B>(o: Oracle<B>, pl: Player<B>)
    requires forall m :: !IsLegal(o, pl.board, m, pl.sides.mine)
    ensures DoMove(o, pl, None).move == None
    ensures DoMove(o, pl, None).player == pl
  {
  }

  /** The turn with the original's loops in place of the search's definition. */
  method DoMoveScan<B>(o: Oracle<B>, pl: Player<B>, opponentsMove: Option<Move>) returns (t: Turn<B>)
    ensures t == DoMove(o, pl, opponentsMove)
  {
    var cur := ApplyOpt(o, pl.board, opponentsMove, pl.sides.theirs);
    var mv := MiniMaxSearch(o, Strategy(o, pl), pl.sides, cur);
    if mv.Some? {
      t := Turn(pl.(board := o.apply(cur, mv.value, pl.sides.mine)), mv);
    } else {
      t := Turn(pl.(board := cur), mv);
    }
  }
}
