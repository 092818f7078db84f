# Tic-tac-toe with best-of-N tournaments, in Dafny

This project models the logic of a browser tic-tac-toe app and proves properties of it.
The app has a casual game screen (player against player, or against a minimax AI) and
single-elimination tournaments, in which every match is a best-of-3 or best-of-5 series.
An in-memory repository keeps finished tournaments and per-player counters.

Modules, one per source file of the core:

- `Wrappers` (`wrappers.dfy`): `Option`.
- `Types` (`types.dfy`): the records of `src/types/tournament.ts` and the board cells.
- `GameLogic` (`game_logic.dfy`), from `src/utils/gameLogic.ts`:
  - the board rules: winner, draw and empty cells;
  - the minimax search, kept in place on an `array`. `Minimax` and `GetBestMove` are proved
    equal to the functions `Score` and `BestMove`, and the board is restored.
- `TournamentLogic` (`tournament_logic.dfy`), from `src/utils/tournamentLogic.ts`:
  - creating a tournament;
  - the in-place shuffle and the pairing loops of `generateBracket`;
  - advancing rounds, completing matches, and the progress counts.
  - The engine invariant `Inv` (unique match ids; no match ahead of the current round;
    every completed match has a series) is proved to hold after creation and start, and to
    be kept by every advance and every completed match.
- `PlayState` (`play_state.dfy`): the board state that both game screens keep, and the
  predicate `Consistent` that ties it to the board. Consistent means the winner, draw flag
  and line are what the board shows, and the marks alternate with X first.
- `MatchGameComponent` (`match_game.dfy`), from `src/components/MatchGame.tsx`: class
  `MatchGame` holds one series. Its handlers are methods, and the series callback becomes
  the result of `CompleteGame`.
- `GameComponent` (`game.dfy`), from `src/components/Game.tsx`: class `Game`, the casual
  screen with its AI move.
- `StatsManager` (`tournament_stats.dfy`), from `src/utils/tournamentStats.ts`: class
  `TournamentStatsManager` with the fields `tournaments` and `playerStats`. Each update is
  proved against a function of the old state, such as `RecordGames`,
  `TournamentStatsUpdate` and `FavoriteOpponent`.
- `SettingsForm` (`tournament_settings.dfy`), from `src/components/TournamentSettings.tsx`:
  class `TournamentSettings`, the setup form. Its name list always holds 2 to 16 entries.

How the model represents the environment:

- Clocks become integer parameters (`now`, in milliseconds), and generated ids become
  parameters.
- `Math.random` becomes a nondeterministic choice (`:|`) in the shuffle and in the random
  AI move.
- Match ids are the datatype `MatchId`, not formatted strings: `RoundSlot(tournament,
  round, slot)` or `ByeSlot(tournament, round)`.

Two behaviours of the code look unintended; the model keeps them as written:

- **Round-1 byes.** In `generateBracket`, the leftover player of an odd field is pushed
  into `nextRoundPlayers`, which is only used to end the loop. Round 2 is later built from
  series winners only, so that player leaves the tournament. It is not carried forward.
  `TournamentLogic.ByePlayerDropped` states this.
- **Winner's tournament count.** `updateTournamentStats` counts the tournament twice for
  its winner, so the winner's `totalTournaments` goes up by 2. The model keeps this.

## Model

| member | source | states |
|---|---|---|
| GameLogic.CheckWinnerSpec | src/utils/gameLogic.ts:4-22 | no winner exactly when no combination is complete; otherwise the mark of the first complete combination in declaration order |
| GameLogic.CheckDrawSpec | src/utils/gameLogic.ts:24-26 | a draw exactly when every cell is filled and no combination is complete |
| GameLogic.WinnerIsNeverDraw | src/utils/gameLogic.ts:15-26 | a board with a winner is never a draw |
| GameLogic.EmptyCellsSpec | src/utils/gameLogic.ts:28-33 | the list holds exactly the empty cells, in increasing order |
| GameLogic.MakeRandomMove | src/utils/gameLogic.ts:35-38 | a move exists exactly when some cell is empty, and the move is an empty cell |
| GameLogic.NotTerminalHasEmpty | src/utils/gameLogic.ts:24-33 | a board with neither a winner nor a draw has an empty cell |
| GameLogic.MovesSpec | src/components/MatchGame.tsx:78 | the recorded move count plus the number of empty cells is 9 |
| GameLogic.EmptyBoardSpec | src/components/MatchGame.tsx:25-32 | the reset board has no marks, no winner, no draw and no winning line |
| GameLogic.ScoreBounds | src/utils/gameLogic.ts:40-71 | minimax scores lie within `depth - 10` and `10 - depth` |
| GameLogic.Minimax | src/utils/gameLogic.ts:40-71 | the in-place search returns the minimax score of the board and leaves the board as it found it |
| GameLogic.MoveScoreBounds | src/utils/gameLogic.ts:40-71 | an immediately winning move scores 10; any other move scores at most 9 |
| GameLogic.GetBestMove | src/utils/gameLogic.ts:74-91 | the in-place move search returns `BestMove` of the board and leaves the board unchanged |
| GameLogic.BestMoveSpec | src/utils/gameLogic.ts:74-91 | -1 exactly when the board is full; otherwise an empty cell of maximal score, the lowest such cell |
| GameLogic.ImmediateWinChosen | src/utils/gameLogic.ts:74-91 | when a move wins at once, the best move is the lowest such move |
| GameLogic.WinningLineSpec | src/components/MatchGame.tsx:59-73 | the line is empty exactly when there is no winner; otherwise it is the first complete combination, and all three cells carry the winner's mark |
| TournamentLogic.CeilLog2 | src/utils/tournamentLogic.ts:17 | `2^k >= n`, and `2^(k-1) < n` when k > 0 |
| TournamentLogic.CeilLog2Least | src/utils/tournamentLogic.ts:17 | no smaller round count holds all the players |
| TournamentLogic.CreateTournament | src/utils/tournamentLogic.ts:10-33 | one zero-record player per name, in order; pending with no matches and no winner; round 1; the least round count holding all players |
| TournamentLogic.PairMatchesSpec | src/utils/tournamentLogic.ts:64-80 | n pairings; pairing k is pending, has no series, is in the given round, and plays positions 2k and 2k+1 |
| TournamentLogic.Shuffle | src/utils/tournamentLogic.ts:37-43 | the in-place shuffle leaves a permutation of the players |
| TournamentLogic.PairRound | src/utils/tournamentLogic.ts:61-85 | the round's matches pair consecutive players; an odd last player is the only one carried to the next round |
| TournamentLogic.GenerateBracket | src/utils/tournamentLogic.ts:35-92 | the bracket pairs consecutive players of some permutation of the players |
| TournamentLogic.StartTournament | src/utils/tournamentLogic.ts:94-103 | in progress at round 1 with the generated bracket; every other field is unchanged |
| TournamentLogic.BracketShape | src/utils/tournamentLogic.ts:35-92 | floor(n/2) pending round-1 matches without a series; match k plays positions 2k and 2k+1 of the shuffle |
| TournamentLogic.ByePlayerDropped | src/utils/tournamentLogic.ts:81-88 | with an odd number of distinct players, the leftover player is in no match |
| TournamentLogic.CreatedAndStartedInv | src/utils/tournamentLogic.ts:94-103 | a new tournament and a started one satisfy the engine invariant |
| TournamentLogic.RoundMatchesSpec | src/utils/tournamentLogic.ts:105-111 | the round filter keeps exactly the matches of that round |
| TournamentLogic.SeriesWinnersSpec | src/utils/tournamentLogic.ts:121-123 | the listed winners are exactly the series winners of the matches |
| TournamentLogic.AdvanceToNextRound | src/utils/tournamentLogic.ts:113-192 | the loop-built result equals the function `Advance`: blocked, completed, or the next round opened |
| TournamentLogic.AdvanceBlocked | src/utils/tournamentLogic.ts:113-119 | while a current-round match is unfinished, advancing changes nothing |
| TournamentLogic.AdvanceCompletes | src/utils/tournamentLogic.ts:121-133 | a finished round with one winner completes the tournament with that winner; matches and round are kept |
| TournamentLogic.NewRoundMatchesSpec | src/utils/tournamentLogic.ts:136-185 | ceil(w/2) new matches: consecutive winners paired, an odd last winner gets a completed bye that it wins; all in the next round, with distinct ids |
| TournamentLogic.AdvancePairsWinners | src/utils/tournamentLogic.ts:135-191 | otherwise the round number goes up by one, the old matches are kept as a prefix, and the new round's matches are appended |
| TournamentLogic.AdvanceOpensRound | src/utils/tournamentLogic.ts:135-191 | under the invariant, the current round after advancing is exactly the appended matches |
| TournamentLogic.AdvanceInv | src/utils/tournamentLogic.ts:113-192 | advancing keeps the engine invariant |
| TournamentLogic.CompleteMatchTouchesOne | src/utils/tournamentLogic.ts:194-217 | with unique ids, completing a match changes exactly one position |
| TournamentLogic.CompleteMatchInv | src/utils/tournamentLogic.ts:194-217 | completing a match keeps the engine invariant |
| TournamentLogic.ThreePlayerTournamentCompletes | src/utils/tournamentLogic.ts:194-217 | with three players there is one round-1 match, and completing it with a winner ends the tournament with that winner |
| TournamentLogic.CountCompletedSpec | src/utils/tournamentLogic.ts:219-232 | every match counts as completed exactly when all of them are completed |
| TournamentLogic.ProgressSpec | src/utils/tournamentLogic.ts:219-232 | completed <= total == number of matches; equal exactly when all are completed; complete exactly when the status is completed |
| PlayState.ResetConsistent | src/components/MatchGame.tsx:25-32 | the reset state agrees with its board |
| PlayState.PlaceKeepsConsistent | src/components/MatchGame.tsx:34-57 | a move in a running game yields a consistent state: the winner and its line, or the draw, or the turn passed |
| PlayState.RunningGameHasMove | src/components/Game.tsx:73-97 | a running game has an empty cell for the next move |
| MatchGameComponent.CountWinsPartition | src/components/MatchGame.tsx:121-132 | X wins, O wins and draws add up to the number of games |
| MatchGameComponent.NeededWinsSpec | src/components/MatchGame.tsx:97 | the needed wins are a strict majority of the series: 2 of 3, 3 of 5 |
| MatchGameComponent.MajorityWinsSeries | src/components/MatchGame.tsx:99-102 | within the series length, a side with the needed wins is the series winner |
| MatchGameComponent.SeriesResultSpec | src/components/MatchGame.tsx:75-119 | a finished series holds at most its length in games, and a side with the needed wins is its winner |
| MatchGameComponent.MatchGame.constructor | src/components/MatchGame.tsx:16-23 | game 1 on an empty board, X to move, no history |
| MatchGameComponent.MatchGame.ResetGame | src/components/MatchGame.tsx:25-32 | an empty board with X to move and a new start time; the series record is kept |
| MatchGameComponent.MatchGame.HandleSquareClick | src/components/MatchGame.tsx:34-57 | ignored on an occupied cell or a finished game; otherwise the mark is placed and the game classified, and the turn passes only if the game goes on |
| MatchGameComponent.MatchGame.CompleteGame | src/components/MatchGame.tsx:75-119 | appends the game record; reports the series exactly when a side has the needed wins or all games are played, leaving the board, turn, result and timer as they were; otherwise starts the next game |
| MatchGameComponent.MatchGame.GetSeriesStatus | src/components/MatchGame.tsx:121-132 | the three tallies sum to the number of games, and the needed wins are a majority |
| GameComponent.Game.constructor | src/components/Game.tsx:21-27 | player against player, 'hard', an empty board with X to move |
| GameComponent.Game.ResetGame | src/components/Game.tsx:39-45 | nine empty cells, X to move, no winner, no draw, no line; mode and difficulty kept |
| GameComponent.Game.SwitchGameMode | src/components/Game.tsx:112-115 | sets the mode and always resets the game |
| GameComponent.Game.SetAIDifficulty | src/components/Game.tsx:189-211 | sets the difficulty and resets the game |
| GameComponent.Game.HandleSquareClick | src/components/Game.tsx:47-71 | also ignored in AI mode while O is to move; otherwise as in the series screen |
| GameComponent.Game.AiMove | src/components/Game.tsx:73-110 | moves only in AI mode with O to move in a running game; O takes an empty cell, the best move on 'hard'; then X moves unless the game is over |
| StatsManager.RecordResultSpec | src/utils/tournamentStats.ts:103-118 | one game adds 1 to games played; a win adds to wins and streak and lifts the record; anything else ends the streak; the invariant is kept |
| StatsManager.RecordGamesSpec | src/utils/tournamentStats.ts:143-150 | each game adds one game played per side the player took; tournament counters and the invariant are kept |
| StatsManager.AddParticipationsSpec | src/utils/tournamentStats.ts:137-140 | each listing of a player adds one tournament; other counters are kept |
| StatsManager.TournamentStatsUpdateSpec | src/utils/tournamentStats.ts:128-153 | for a completed tournament: a player gets one tournament per listing, and the winner one more and one tournament won; every series game counts for both sides |
| StatsManager.SortSpec | src/utils/tournamentStats.ts:68-72 | the sorted history is newest first and is a permutation of the stored list |
| StatsManager.RecentAreNewest | src/utils/tournamentStats.ts:74-76 | the recent tournaments are the newest ones: a prefix of the sorted history, none older than a tournament left out, drawn from the stored list, of length min(limit, n); a negative limit drops that many from the end |
| StatsManager.FindIndexSpec | src/utils/tournamentStats.ts:61 | -1 exactly when no snapshot has that id; otherwise no earlier snapshot has it |
| StatsManager.TallySpec | src/utils/tournamentStats.ts:162-167 | each opponent name is listed once, with the number of games against it, and no other name is listed |
| StatsManager.BumpSpec | src/utils/tournamentStats.ts:166 | adds one to the entry of that name, or appends it with count 1 when the name is new; names stay distinct |
| StatsManager.CountOpponents | src/utils/tournamentStats.ts:162-167 | the first loop builds exactly `Tally` of the games, so each opponent name once with its game count |
| StatsManager.PickMostMet | src/utils/tournamentStats.ts:169-177 | the second loop returns the name `PickFavorite` selects: the first entry with the largest count |
| StatsManager.RecordGameSpec | src/utils/tournamentStats.ts:103-126 | one game adds one game played to that player's record only; tournament counters and the invariant are kept |
| StatsManager.PickFavoriteSpec | src/utils/tournamentStats.ts:169-177 | nothing picked from no entries; otherwise the first entry with the largest count |
| StatsManager.FavoriteAmongSpec | src/utils/tournamentStats.ts:155-180 | '' without games; otherwise an opponent met in the most games, and on ties the earliest in the map's insertion order |
| StatsManager.TallyInFirstMetOrder | src/utils/tournamentStats.ts:162-167 | the map's insertion order is the order in which the player first met each opponent |
| StatsManager.FavoriteFirstMetOnTies | src/utils/tournamentStats.ts:155-180 | of two opponents met equally often, the favourite is the one the player met first |
| StatsManager.TournamentStatsManager.constructor | src/utils/tournamentStats.ts:7-14 | starts with no snapshots and no counters |
| StatsManager.TournamentStatsManager.AddTournament | src/utils/tournamentStats.ts:55-58 | the snapshot is appended; earlier entries and the counters are unchanged |
| StatsManager.TournamentStatsManager.UpdateTournament | src/utils/tournamentStats.ts:60-66 | replaces the first snapshot with that id; no-op when there is none; length kept |
| StatsManager.TournamentStatsManager.GetTournamentHistory | src/utils/tournamentStats.ts:68-72 | newest first, and holds exactly the stored snapshots |
| StatsManager.TournamentStatsManager.GetRecentTournaments | src/utils/tournamentStats.ts:74-76 | a prefix of the history, no older than any stored tournament it leaves out, of length min(limit, n) |
| StatsManager.TournamentStatsManager.GetPlayerStats | src/utils/tournamentStats.ts:78-101 | the stored record, or an all-zero record inserted for an unknown id |
| StatsManager.TournamentStatsManager.UpdatePlayerStats | src/utils/tournamentStats.ts:103-126 | the map after one game is `RecordGame` of the old map; the counter invariant is kept |
| StatsManager.TournamentStatsManager.UpdateTournamentStats | src/utils/tournamentStats.ts:128-153 | the map becomes `TournamentStatsUpdate` of the old map: unchanged unless completed with a winner |
| StatsManager.TournamentStatsManager.CreditWinnerStats | src/utils/tournamentStats.ts:131-134 | the winner gets one more tournament and one more tournament won |
| StatsManager.TournamentStatsManager.CountTournament | src/utils/tournamentStats.ts:136-140 | every listed player gets one more tournament |
| StatsManager.TournamentStatsManager.RecordMatches | src/utils/tournamentStats.ts:142-150 | records the games of every match that has a series, in order |
| StatsManager.TournamentStatsManager.RecordSeries | src/utils/tournamentStats.ts:145-148 | records both sides of each game of one series, in order |
| StatsManager.TournamentStatsManager.GetFavoriteOpponent | src/utils/tournamentStats.ts:155-180 | the two loops compute `FavoriteOpponent` of the stored tournaments |
| StatsManager.TournamentStatsManager.ClearAllData | src/utils/tournamentStats.ts:244-248 | no snapshots and no counters remain |
| SettingsForm.TrimSpec | src/components/TournamentSettings.tsx:35-38 | trim keeps a contiguous middle part, removes only whitespace around it, and is empty exactly when the string is blank |
| SettingsForm.TrimIdempotent | src/components/TournamentSettings.tsx:35-38 | trimming a trimmed name changes nothing |
| SettingsForm.DecimalRoundTrip | src/components/TournamentSettings.tsx:18 | the printed player number reads back as the number, and has no leading zero |
| SettingsForm.TournamentSettings.constructor | src/components/TournamentSettings.tsx:11-14 | no name, players 1 to 4, single elimination, best of 3 |
| SettingsForm.TournamentSettings.AddPlayer | src/components/TournamentSettings.tsx:16-20 | appends `Player <n+1>` only when there are fewer than 16 names; the list stays within 2 to 16 |
| SettingsForm.TournamentSettings.RemovePlayer | src/components/TournamentSettings.tsx:22-26 | removes exactly the entry at the index, and only when there are more than 2 names; the list stays within 2 to 16 |
| SettingsForm.TournamentSettings.UpdatePlayerName | src/components/TournamentSettings.tsx:28-32 | only the entry at the index changes, and the length is kept |
| SettingsForm.TournamentSettings.SetTournamentName | src/components/TournamentSettings.tsx:61 | sets the name and nothing else |
| SettingsForm.TournamentSettings.SetMode | src/components/TournamentSettings.tsx:75 | sets the format and nothing else |
| SettingsForm.TournamentSettings.SetSeriesLength | src/components/TournamentSettings.tsx:89 | sets the series length and nothing else |
| SettingsForm.TournamentSettings.HandleCreate | src/components/TournamentSettings.tsx:34-43 | calls back exactly when the tournament name and every player name are non-blank; passes the trimmed names in order |

## Left out

- Rendering, styling, the bracket view, the statistics view, the status and square widgets, the app shell, theming, audio and animations. These are presentation only.
- The tournament view of `Game.tsx`, which routes to another view. `GameComponent.Game.SwitchGameMode` still accepts the mode.
- Loading from and saving to storage, `exportData` and `importData`, and the singleton `getInstance`. The manager starts empty, with no storage.
- Floating-point values: the bracket layout coordinates, the progress percentage, `averageGameDuration`, and the win rates of `getBestPerformance` and `getLeaderboard`. Those two operations are not modelled.
- Timers: the AI's 500 ms delay and the cancellation of that timer when the effect is cleaned up. `AiMove` is the move the timer makes.
- The uniform distribution of `Math.random`. The shuffle and the random AI move are arbitrary choices.
- The statistics records that `getPlayerStats` returns can be changed by a caller, through aliasing. The model hands out values.
- TournamentLogic.CreateTournament: an empty name list gives 0 rounds. The source computes `Math.ceil(Math.log2(0))`, which is negative infinity.
- TournamentLogic.SeriesWinners: the source maps a completed match without a series to `undefined` and keeps it in the winners. The model skips it. `Inv` shows that no engine path produces such a match.
- GameLogic.Minimax: requires `player != opponent`. The only caller, `getBestMove`, always passes two different sides.
- MatchGameComponent.MatchGame.CompleteGame: requires a winner or a draw. The button that calls it only appears in that state.
- SettingsForm.TournamentSettings.UpdatePlayerName: requires an index inside the list. The form only calls it from a rendered row; JavaScript would extend the array for a larger index.
- StatsManager.TournamentStatsManager.GetTournamentHistory: states sorted and permutation, not stability. The insertion sort keeps equal timestamps in their stored order, as JavaScript's sort does, but that is not proved.
- StatsManager.TournamentStatsManager.GetRecentTournaments: the default limit of 10 is the caller's to pass. A fractional limit is not modelled.
- Double elimination: the format is stored and offered, but no code path treats it differently.
