/**
 * One best-of-N series between the two players of a match
 * (src/components/MatchGame.tsx): the board handlers, the recording of finished
 * games, and the rule that ends the series and names its winner.
 *
 * The React state becomes the fields of a class; each handler is a method that
 * updates them. The `onSeriesComplete` callback becomes the result of CompleteGame,
 * and the clock a `now` parameter (milliseconds).
 */
module MatchGameComponent {
  import opened Wrappers
  import opened Types
  import opened GameLogic
  import opened PlayState

  /** `history.filter(game => game.winner === w).length`. */
  function CountWins(history: seq<GameResult>, w: GameWinner): nat
  {
    if history == [] then 0
    else CountWins(history[..|history| - 1], w) + (if history[|history| - 1].winner == w then 1 else 0)
  }

  /** Every game is an X win, an O win or a draw. */
  lemma {:induction false} CountWinsPartition(history: seq<GameResult>)
    ensures CountWins(history, Won(X)) + CountWins(history, Won(O)) + CountWins(history, Draw) == |history|
  {
    if history != [] {
      CountWinsPartition(history[..|history| - 1]);
      match history[|history| - 1].winner
      case Draw =>
      case Won(s) =>
        match s
        case X =>
        case O =>
    }
  }

  /** Appending one game adds one to exactly its own outcome's count. */
  lemma CountWinsAppend(history: seq<GameResult>, g: GameResult, w: GameWinner)
    ensures CountWins(history + [g], w) == CountWins(history, w) + (if g.winner == w then 1 else 0)
  {
    assert (history + [g])[..|history|] == history;
  }

  /** `Math.ceil(seriesLength / 2)`. */
  function NeededWins(seriesLength: SeriesLength): nat
  {
    (seriesLength + 1) / 2
  }

  /** The wins needed are a strict majority of the games: 2 of 3, 3 of 5. */
  lemma NeededWinsSpec(seriesLength: SeriesLength)
    ensures 2 * NeededWins(seriesLength) > seriesLength
    ensures 2 * (NeededWins(seriesLength) - 1) < seriesLength
    ensures NeededWins(3) == 2 && NeededWins(5) == 3
  {
  }

  /** The series ends when a side reaches the needed wins or all games are played. */
  predicate SeriesOver(history: seq<GameResult>, seriesLength: SeriesLength)
  {
    CountWins(history, Won(X)) >= NeededWins(seriesLength)
    || CountWins(history, Won(O)) >= NeededWins(seriesLength)
    || |history| >= seriesLength
  }

  /** The series winner: player1 with more X wins, player2 with more O wins, none on equal wins. */
  function SeriesWinner(history: seq<GameResult>, player1: Player, player2: Player): Option<Player>
  {
    var xWins := CountWins(history, Won(X));
    var oWins := CountWins(history, Won(O));
    if xWins > oWins then Some(player1) else if oWins > xWins then Some(player2) else None
  }

  /**
   * Within the series length, a side that reaches the needed wins is the series
   * winner: the other side cannot have as many.
   */
  lemma MajorityWinsSeries(history: seq<GameResult>, seriesLength: SeriesLength, player1: Player, player2: Player)
    requires |history| <= seriesLength
    ensures CountWins(history, Won(X)) >= NeededWins(seriesLength) ==> SeriesWinner(history, player1, player2) == Some(player1)
    ensures CountWins(history, Won(O)) >= NeededWins(seriesLength) ==> SeriesWinner(history, player1, player2) == Some(player2)
  {
    CountWinsPartition(history);
  }

  /** The tallies getSeriesStatus shows. */
  datatype SeriesStatus = SeriesStatus(player1Wins: nat, player2Wins: nat, draws: nat, neededWins: nat)

  class MatchGame {
    const tournamentMatch: Match
    const seriesLength: SeriesLength
    var board: Board
    var currentPlayer: Side
    var winner: Option<Side>
    var isDraw: bool
    var winningLine: seq<Index>
    var gameHistory: seq<GameResult>
    var currentGame: int
    var gameStartTime: int

    /**
     * A series in progress: the board state is consistent, game `currentGame` is
     * being played after `currentGame - 1` recorded games, and the series is not over.
     */
    ghost predicate Valid()
      reads this
    {
      Consistent(board, currentPlayer, winner, isDraw, winningLine)
      && |gameHistory| == currentGame - 1
      && !SeriesOver(gameHistory, seriesLength)
    }

    /** The component's initial state: game 1 on an empty board, X to move. */
    constructor(tournamentMatch: Match, seriesLength: SeriesLength, now: int)
      ensures Valid()
      ensures this.tournamentMatch == tournamentMatch && this.seriesLength == seriesLength
      ensures board == EmptyBoard && currentPlayer == X && winner == None && !isDraw && winningLine == []
      ensures gameHistory == [] && currentGame == 1 && gameStartTime == now
    {
      this.tournamentMatch := tournamentMatch;
      this.seriesLength := seriesLength;
      board := EmptyBoard;
      currentPlayer := X;
      winner := None;
      isDraw := false;
      winningLine := [];
      gameHistory := [];
      currentGame := 1;
      gameStartTime := now;
      ResetConsistent();
    }

    /** resetGame: a fresh board with X to move; the series record is kept. */
    method ResetGame(now: int)
      requires Valid()
      modifies this
      ensures Valid()
      ensures board == EmptyBoard && currentPlayer == X && winner == None && !isDraw && winningLine == []
      ensures gameStartTime == now
      ensures gameHistory == old(gameHistory) && currentGame == old(currentGame)
    {
      board := EmptyBoard;
      currentPlayer := X;
      winner := None;
      isDraw := false;
      winningLine := [];
      gameStartTime := now;
      ResetConsistent();
    }

    /**
     * handleSquareClick: ignored on an occupied cell or a finished game; otherwise
     * the side to move marks the cell, a win sets the winner and its line, a full
     * board sets the draw flag, and only a game that goes on passes the turn.
     */
    method HandleSquareClick(index: Index)
      requires Valid()
      modifies this
      ensures Valid()
      ensures gameHistory == old(gameHistory) && currentGame == old(currentGame) && gameStartTime == old(gameStartTime)
      ensures old(board[index].Some? || winner.Some? || isDraw) ==>
        board == old(board) && currentPlayer == old(currentPlayer) && winner == old(winner)
        && isDraw == old(isDraw) && winningLine == old(winningLine)
      ensures !old(board[index].Some? || winner.Some? || isDraw) ==>
        board == old(board)[index := Some(old(currentPlayer))]
        && winner == CheckWinner(board) && isDraw == CheckDraw(board) && winningLine == GetWinningLine(board)
        && currentPlayer == (if winner.Some? || isDraw then old(currentPlayer) else Other(old(currentPlayer)))
    {
      if board[index].Some? || winner.Some? || isDraw {
        return;
      }
      var newBoard := board[index := Some(currentPlayer)];
      PlaceKeepsConsistent(board, currentPlayer, winningLine, index);
      board := newBoard;
      var gameWinner := CheckWinner(newBoard);
      if gameWinner.Some? {
        winner := gameWinner;
        winningLine := GetWinningLine(newBoard);
        WinnerIsNeverDraw(newBoard);
        return;
      }
      if CheckDraw(newBoard) {
        isDraw := true;
        return;
      }
      currentPlayer := Other(currentPlayer);
    }

    /**
     * completeGame (offered once the game has a winner or is drawn): records the
     * game, then either reports the finished series or starts the next game.
     */
    method CompleteGame(now: int) returns (completed: Option<SeriesResult>)
      requires Valid()
      requires winner.Some? || isDraw
      modifies this
      ensures gameHistory == old(gameHistory) + [GameResult(tournamentMatch.player1, tournamentMatch.player2,
        if old(winner).Some? then Won(old(winner).value) else Draw,
        Moves(old(board)), (now - old(gameStartTime)) / 1000, now)]
      ensures completed.Some? <==> SeriesOver(gameHistory, seriesLength)
      ensures completed.Some? ==>
        completed.value == SeriesResult(tournamentMatch.player1, tournamentMatch.player2, gameHistory,
          SeriesWinner(gameHistory, tournamentMatch.player1, tournamentMatch.player2), seriesLength, now)
        && |gameHistory| <= seriesLength && currentGame == old(currentGame)
        && board == old(board) && currentPlayer == old(currentPlayer) && winner == old(winner)
        && isDraw == old(isDraw) && winningLine == old(winningLine) && gameStartTime == old(gameStartTime)
      ensures completed.None? ==>
        Valid() && currentGame == old(currentGame) + 1 && gameStartTime == now
        && board == EmptyBoard && currentPlayer == X && winner == None && !isDraw && winningLine == []
    {
      var duration := (now - gameStartTime) / 1000;
      var moves := Moves(board);
      var gameResult := GameResult(tournamentMatch.player1, tournamentMatch.player2,
        if winner.Some? then Won(winner.value) else Draw, moves, duration, now);
      var updatedHistory := gameHistory + [gameResult];
      gameHistory := updatedHistory;
      CountWinsAppend(old(gameHistory), gameResult, Won(X));
      CountWinsAppend(old(gameHistory), gameResult, Won(O));

      var player1Wins := CountWins(updatedHistory, Won(X));
      var player2Wins := CountWins(updatedHistory, Won(O));
      var neededWins := NeededWins(seriesLength);
      if player1Wins >= neededWins || player2Wins >= neededWins || |updatedHistory| >= seriesLength {
        var seriesWinner := if player1Wins > player2Wins then Some(tournamentMatch.player1)
          else if player2Wins > player1Wins then Some(tournamentMatch.player2) else None;
        completed := Some(SeriesResult(tournamentMatch.player1, tournamentMatch.player2, updatedHistory, seriesWinner, seriesLength, now));
      } else {
        completed := None;
        currentGame := currentGame + 1;
        ResetGame(now);
      }
    }

    /** getSeriesStatus: the X wins, O wins and draws so far, which account for every game. */
    function GetSeriesStatus(): (r: SeriesStatus)
      reads this
      ensures r.player1Wins + r.player2Wins + r.draws == |gameHistory|
      ensures r.neededWins == NeededWins(seriesLength)
    {
      CountWinsPartition(gameHistory);
      SeriesStatus(CountWins(gameHistory, Won(X)), CountWins(gameHistory, Won(O)), CountWins(gameHistory, Draw),
        NeededWins(seriesLength))
    }
  }

  /**
   * A finished series never holds more games than its length, and a side that won
   * the needed games is its winner.
   */
  lemma SeriesResultSpec(history: seq<GameResult>, g: GameResult, seriesLength: SeriesLength, player1: Player, player2: Player)
    requires !SeriesOver(history, seriesLength)
    ensures |history + [g]| <= seriesLength
    ensures CountWins(history + [g], Won(X)) >= NeededWins(seriesLength) ==>
      SeriesWinner(history + [g], player1, player2) == Some(player1)
    ensures CountWins(history + [g], Won(O)) >= NeededWins(seriesLength) ==>
      SeriesWinner(history + [g], player1, player2) == Some(player2)
  {
    MajorityWinsSeries(history + [g], seriesLength, player1, player2);
  }
}
