/**
 * The casual game screen (src/components/Game.tsx): player against player or
 * against the AI, whose move is the minimax choice on 'hard' and a random empty
 * cell on 'easy'. The React state becomes the fields of a class; the click
 * handler, the AI effect and the buttons' handlers are methods.
 */
module GameComponent {
  import opened Wrappers
  import opened Types
  import opened GameLogic
  import opened PlayState

  datatype GameMode = Pvp | Ai | TournamentMode

  datatype AIDifficulty = Easy | Hard

  class Game {
    var board: Board
    var currentPlayer: Side
    var winner: Option<Side>
    var isDraw: bool
    var gameMode: GameMode
    var aiDifficulty: AIDifficulty
    var winningLine: seq<Index>

    /** The board state is consistent (see PlayState.Consistent). */
    ghost predicate Valid()
      reads this
    {
      Consistent(board, currentPlayer, winner, isDraw, winningLine)
    }

    /** The initial state: player against player, 'hard', an empty board with X to move. */
    constructor()
      ensures Valid()
      ensures board == EmptyBoard && currentPlayer == X && winner == None && !isDraw && winningLine == []
      ensures gameMode == Pvp && aiDifficulty == Hard
    {
      board := EmptyBoard;
      currentPlayer := X;
      winner := None;
      isDraw := false;
      gameMode := Pvp;
      aiDifficulty := Hard;
      winningLine := [];
      ResetConsistent();
    }

    /** resetGame: nine empty cells, X to move, no winner, no draw, no highlighted line. */
    method ResetGame()
      modifies this
      ensures Valid()
      ensures board == EmptyBoard && currentPlayer == X && winner == None && !isDraw && winningLine == []
      ensures gameMode == old(gameMode) && aiDifficulty == old(aiDifficulty)
    {
      board := EmptyBoard;
      currentPlayer := X;
      winner := None;
      isDraw := false;
      winningLine := [];
      ResetConsistent();
    }

    /** switchGameMode: sets the mode and always resets the game. */
    method SwitchGameMode(mode: GameMode)
      modifies this
      ensures Valid()
      ensures gameMode == mode && aiDifficulty == old(aiDifficulty)
      ensures board == EmptyBoard && currentPlayer == X && winner == None && !isDraw && winningLine == []
    {
      gameMode := mode;
      ResetGame();
    }

    /** The difficulty buttons: set the difficulty and reset the game. */
    method SetAIDifficulty(difficulty: AIDifficulty)
      modifies this
      ensures Valid()
      ensures aiDifficulty == difficulty && gameMode == old(gameMode)
      ensures board == EmptyBoard && currentPlayer == X && winner == None && !isDraw && winningLine == []
    {
      aiDifficulty := difficulty;
      ResetGame();
    }

    /**
     * handleSquareClick: ignored on an occupied cell, a finished game, or in AI mode
     * while O (the AI) is to move; otherwise the side to move marks the cell, a win
     * sets the winner and its line, a full board the draw flag, and only a game that
     * goes on passes the turn.
     */
    method HandleSquareClick(index: Index)
      requires Valid()
      modifies this
      ensures Valid()
      ensures gameMode == old(gameMode) && aiDifficulty == old(aiDifficulty)
      ensures old(board[index].Some? || winner.Some? || isDraw || (gameMode == Ai && currentPlayer == O)) ==>
        board == old(board) && currentPlayer == old(currentPlayer) && winner == old(winner)
        && isDraw == old(isDraw) && winningLine == old(winningLine)
      ensures !old(board[index].Some? || winner.Some? || isDraw || (gameMode == Ai && currentPlayer == O)) ==>
        board == old(board)[index := Some(old(currentPlayer))]
        && winner == CheckWinner(board) && isDraw == CheckDraw(board) && winningLine == GetWinningLine(board)
        && currentPlayer == (if winner.Some? || isDraw then old(currentPlayer) else Other(old(currentPlayer)))
    {
      if board[index].Some? || winner.Some? || isDraw {
        return;
      }
      if gameMode == Ai && currentPlayer == O {
        return;
      }
      var newBoard := board[index := Some(currentPlayer)];
      PlaceKeepsConsistent(board, currentPlayer, winningLine, index);
      board := newBoard;
      var gameWinner := CheckWinner(newBoard);
      if gameWinner.Some? {
        winner := gameWinner;
        winningLine := GetWinningLine(newBoard);
        return;
      }
      if CheckDraw(newBoard) {
        isDraw := true;
        return;
      }
      currentPlayer := Other(currentPlayer);
    }

    /**
     * The AI effect: only in AI mode with O to move in a running game. O marks the
     * cell getBestMove picks on 'hard', or a random empty cell on 'easy' (a running
     * game always has one); then the game is classified and, if it goes on, X moves.
     * The 500 ms timer before the move is not modelled.
     */
    method AiMove() returns (move: Option<Index>)
      requires Valid()
      modifies this
      ensures Valid()
      ensures gameMode == old(gameMode) && aiDifficulty == old(aiDifficulty)
      ensures move.Some? <==> old(gameMode == Ai && currentPlayer == O && winner.None? && !isDraw)
      ensures move.None? ==>
        board == old(board) && currentPlayer == old(currentPlayer) && winner == old(winner)
        && isDraw == old(isDraw) && winningLine == old(winningLine)
      ensures move.Some? ==>
        old(board)[move.value].None? && board == old(board)[move.value := Some(O)]
        && (old(aiDifficulty) == Hard ==> move.value == BestMove(old(board), O))
        && winner == CheckWinner(board) && isDraw == CheckDraw(board) && winningLine == GetWinningLine(board)
        && currentPlayer == (if winner.Some? || isDraw then O else X)
    {
      if !(gameMode == Ai && currentPlayer == O && winner.None? && !isDraw) {
        return None;
      }
      RunningGameHasMove(board, currentPlayer, winningLine);
      var aiMove: Index;
      if aiDifficulty == Hard {
        var cells := board;
        var boardCopy := new Cell[9](k requires 0 <= k < 9 => cells[k]);
        assert boardCopy[..] == board;
        var best := GetBestMove(boardCopy, O);
        BestMoveSpec(board, O);
        aiMove := best;
      } else {
        var random := MakeRandomMove(board);
        aiMove := random.value;
      }
      move := Some(aiMove);
      var newBoard := board[aiMove := Some(O)];
      PlaceKeepsConsistent(board, currentPlayer, winningLine, aiMove);
      board := newBoard;
      var gameWinner := CheckWinner(newBoard);
      if gameWinner.Some? {
        winner := gameWinner;
        winningLine := GetWinningLine(newBoard);
        return;
      }
      if CheckDraw(newBoard) {
        isDraw := true;
        return;
      }
      currentPlayer := X;
    }
  }
}
