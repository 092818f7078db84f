/**
 * The value types of the game and of the tournament engine
 * (src/types/tournament.ts and the board types of src/utils/gameLogic.ts).
 * Dates are integer timestamps in milliseconds; ids are opaque strings.
 */
module Types {
  import opened Wrappers

  /** A mark on the board: 'X' or 'O'. */
  datatype Side = X | O

  /** A board cell: null or a mark. */
  type Cell = Option<Side>

  /** A board index, 0..8, row-major over the 3x3 grid. */
  type Index = i: int | 0 <= i < 9

  /** The board: always nine cells. */
  type Board = b: seq<Cell> | |b| == 9
    witness [None, None, None, None, None, None, None, None, None]

  /** The side that moves after `s`. */
  function Other(s: Side): Side
  {
    if s == X then O else X
  }

  /** A tournament player; `wins` and `losses` are display aggregates. */
  datatype Player = Player(id: string, name: string, wins: int, losses: int)

  /** The winner of one game: 'X', 'O' or 'draw'. */
  datatype GameWinner = Won(side: Side) | Draw

  datatype GameResult = GameResult(
    playerX: Player,
    playerO: Player,
    winner: GameWinner,
    moves: int,
    duration: int,     // seconds
    timestamp: int)

  /** The series lengths the application offers: best of 3 or best of 5. */
  type SeriesLength = n: int | n == 3 || n == 5 witness 3

  datatype SeriesResult = SeriesResult(
    playerX: Player,
    playerO: Player,
    games: seq<GameResult>,
    winner: Option<Player>,
    seriesLength: SeriesLength,
    completedAt: int)

  /** 'pending' | 'in-progress' | 'completed', shared by matches and tournaments. */
  datatype Status = Pending | InProgress | Completed

  /**
   * A match id. The source formats `match_<tournament>_<round>_<slot>` for a paired
   * match and `match_<tournament>_<round>_bye` for a bye; the model keeps the parts.
   */
  datatype MatchId = RoundSlot(tournament: string, round: int, slot: int) | ByeSlot(tournament: string, round: int)

  /** One bracket slot (its display coordinates are not modelled). */
  datatype Match = Match(
    id: MatchId,
    round: int,
    player1: Player,
    player2: Player,
    series: Option<SeriesResult>,
    status: Status)

  datatype Format = SingleElimination | DoubleElimination

  datatype Tournament = Tournament(
    id: string,
    name: string,
    status: Status,
    format: Format,
    seriesLength: SeriesLength,
    players: seq<Player>,
    matches: seq<Match>,
    winner: Option<Player>,
    createdAt: int,
    completedAt: Option<int>,
    currentRound: int,
    totalRounds: int)

  datatype Performance = Performance(tournament: string, gamesWon: int, gamesPlayed: int)

  /** Per-player counters (the floating-point average game duration is not modelled). */
  datatype TournamentStats = TournamentStats(
    totalTournaments: int,
    tournamentsWon: int,
    totalGamesPlayed: int,
    totalGamesWon: int,
    longestWinStreak: int,
    currentWinStreak: int,
    favoriteOpponent: string,
    bestPerformance: Performance)
}
