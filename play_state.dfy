/**
 * The board state both game screens keep (src/components/MatchGame.tsx and
 * src/components/Game.tsx): the board, the side to move, the winner, the draw flag
 * and the highlighted line, and the step both click handlers take: place the
 * mark, classify the board, and hand the turn over only if the game goes on.
 */
module PlayState {
  import opened Wrappers
  import opened Types
  import opened GameLogic

  /**
   * The screens' state agrees with the board: winner, draw flag and winning line
   * are what the board shows, and X moved first with turns alternating (X has one
   * mark more than O exactly when X moved last, and X moved last exactly when X is
   * to move in a finished game or O is to move in a running one).
   */
  predicate Consistent(b: Board, currentPlayer: Side, winner: Option<Side>, isDraw: bool, winningLine: seq<Index>)
  {
    winner == CheckWinner(b) && isDraw == CheckDraw(b) && winningLine == GetWinningLine(b)
    && Count(b, Some(X)) == Count(b, Some(O)) + (if (winner.Some? || isDraw) == (currentPlayer == X) then 1 else 0)
  }

  /** The state resetGame sets up is consistent. */
  lemma ResetConsistent()
    ensures Consistent(EmptyBoard, X, None, false, [])
  {
    EmptyBoardSpec();
  }

  /**
   * One move of a running game: the side to move marks an empty cell; the winner
   * and its line are set if the move wins, the draw flag if it fills the board,
   * and only otherwise does the turn pass. The new state is consistent again.
   */
  lemma PlaceKeepsConsistent(b: Board, currentPlayer: Side, winningLine: seq<Index>, i: Index)
    requires Consistent(b, currentPlayer, None, false, winningLine)
    requires b[i].None?
    ensures winningLine == []
    ensures CheckWinner(b[i := Some(currentPlayer)]).None? ==> GetWinningLine(b[i := Some(currentPlayer)]) == []
    ensures Consistent(b[i := Some(currentPlayer)],
      if CheckWinner(b[i := Some(currentPlayer)]).Some? || CheckDraw(b[i := Some(currentPlayer)]) then currentPlayer
      else Other(currentPlayer),
      CheckWinner(b[i := Some(currentPlayer)]), CheckDraw(b[i := Some(currentPlayer)]),
      GetWinningLine(b[i := Some(currentPlayer)]))
  {
    WinningLineSpec(b);
    WinningLineSpec(b[i := Some(currentPlayer)]);
    CountMark(b, i, currentPlayer);
    match currentPlayer
    case X =>
    case O =>
  }

  /** A running game (no winner, no draw) has an empty cell for the next move. */
  lemma RunningGameHasMove(b: Board, currentPlayer: Side, winningLine: seq<Index>)
    requires Consistent(b, currentPlayer, None, false, winningLine)
    ensures exists c: Index :: b[c].None?
    ensures GetEmptyCells(b) != []
  {
    NotTerminalHasEmpty(b);
    EmptyCellIsEmpty(b, 0);
    var c := GetEmptyCells(b)[0];
    assert b[c].None?;
  }
}
