/**
 * The in-memory stats repository (src/utils/tournamentStats.ts): the list of
 * tournament snapshots and the map of per-player counters, with the operations
 * that add and replace snapshots, list them newest first, and update the counters
 * game by game and tournament by tournament.
 *
 * The manager's two fields become the fields of a class, reassigned by its
 * methods; each update is proved against a function of the old state. Loading
 * from and saving to storage are not modelled: the manager starts empty.
 */
module StatsManager {
  import opened Wrappers
  import opened Types

  // ----- per-player counters -----

  /** createEmptyStats (without the floating-point average duration). */
  const EmptyStats: TournamentStats := TournamentStats(0, 0, 0, 0, 0, 0, "", Performance("", 0, 0))

  /** What the counters always satisfy: no negative counts, the streak within the record, wins within games. */
  predicate StatsInv(s: TournamentStats)
  {
    0 <= s.currentWinStreak <= s.longestWinStreak
    && 0 <= s.totalGamesWon <= s.totalGamesPlayed
    && 0 <= s.tournamentsWon <= s.totalTournaments
  }

  /** The player with this id won the game: as X with an X win, or as O with an O win. */
  predicate WinsGame(g: GameResult, playerId: string)
  {
    (g.winner == Won(X) && g.playerX.id == playerId) || (g.winner == Won(O) && g.playerO.id == playerId)
  }

  function Max(a: int, b: int): int { if a >= b then a else b }

  /** The counters after one more game of `playerId` (updatePlayerStats on a record). */
  function RecordResult(s: TournamentStats, playerId: string, g: GameResult): TournamentStats
  {
    var played := s.(totalGamesPlayed := s.totalGamesPlayed + 1);
    if WinsGame(g, playerId) then
      var streak := played.currentWinStreak + 1;
      played.(totalGamesWon := played.totalGamesWon + 1, currentWinStreak := streak,
              longestWinStreak := Max(played.longestWinStreak, streak))
    else
      played.(currentWinStreak := 0)
  }

  /**
   * One game: played +1; a win adds to the wins and the streak and lifts the record
   * to the streak; anything else ends the streak. The invariant is kept, and the
   * tournament counters are untouched.
   */
  lemma RecordResultSpec(s: TournamentStats, playerId: string, g: GameResult)
    ensures RecordResult(s, playerId, g).totalGamesPlayed == s.totalGamesPlayed + 1
    ensures WinsGame(g, playerId) ==>
      RecordResult(s, playerId, g).totalGamesWon == s.totalGamesWon + 1
      && RecordResult(s, playerId, g).currentWinStreak == s.currentWinStreak + 1
      && RecordResult(s, playerId, g).longestWinStreak == Max(s.longestWinStreak, s.currentWinStreak + 1)
    ensures !WinsGame(g, playerId) ==>
      RecordResult(s, playerId, g).totalGamesWon == s.totalGamesWon
      && RecordResult(s, playerId, g).currentWinStreak == 0
      && RecordResult(s, playerId, g).longestWinStreak == s.longestWinStreak
    ensures RecordResult(s, playerId, g).totalTournaments == s.totalTournaments
    ensures RecordResult(s, playerId, g).tournamentsWon == s.tournamentsWon
    ensures StatsInv(s) ==> StatsInv(RecordResult(s, playerId, g))
  {
  }

  /** The stored record, or the empty one the getter would insert. */
  function StatsOf(m: map<string, TournamentStats>, playerId: string): TournamentStats
  {
    if playerId in m then m[playerId] else EmptyStats
  }

  /** Every stored record satisfies the invariant. */
  predicate AllStatsInv(m: map<string, TournamentStats>)
  {
    forall id :: id in m ==> StatsInv(m[id])
  }

  /** updatePlayerStats on the map. */
  function RecordGame(m: map<string, TournamentStats>, playerId: string, g: GameResult): map<string, TournamentStats>
  {
    m[playerId := RecordResult(StatsOf(m, playerId), playerId, g)]
  }

  /** One game changes only the record of `playerId`, and keeps the invariant. */
  lemma RecordGameSpec(m: map<string, TournamentStats>, playerId: string, g: GameResult, id: string)
    ensures StatsOf(RecordGame(m, playerId, g), id).totalGamesPlayed
      == StatsOf(m, id).totalGamesPlayed + (if id == playerId then 1 else 0)
    ensures StatsOf(RecordGame(m, playerId, g), id).totalTournaments == StatsOf(m, id).totalTournaments
    ensures StatsOf(RecordGame(m, playerId, g), id).tournamentsWon == StatsOf(m, id).tournamentsWon
    ensures AllStatsInv(m) ==> AllStatsInv(RecordGame(m, playerId, g))
  {
    RecordResultSpec(StatsOf(m, playerId), playerId, g);
  }

  /** Both sides of every game, in order: the nested forEach of updateTournamentStats. */
  function RecordGames(m: map<string, TournamentStats>, games: seq<GameResult>): map<string, TournamentStats>
  {
    if games == [] then m
    else
      var g := games[|games| - 1];
      RecordGame(RecordGame(RecordGames(m, games[..|games| - 1]), g.playerX.id, g), g.playerO.id, g)
  }

  lemma {:induction false} RecordGamesAppend(m: map<string, TournamentStats>, a: seq<GameResult>, b: seq<GameResult>)
    ensures RecordGames(m, a + b) == RecordGames(RecordGames(m, a), b)
    decreases |b|
  {
    if b == [] {
      assert a + b == a;
    } else {
      RecordGamesAppend(m, a, b[..|b| - 1]);
      assert (a + b)[..|a + b| - 1] == a + b[..|b| - 1];
    }
  }

  /** The number of sides `playerId` plays in `games` (two for a game against itself). */
  function Sides(games: seq<GameResult>, playerId: string): nat
  {
    if games == [] then 0
    else
      var g := games[|games| - 1];
      Sides(games[..|games| - 1], playerId) + (if g.playerX.id == playerId then 1 else 0)
        + (if g.playerO.id == playerId then 1 else 0)
  }

  /**
   * Recording games adds one game played per side the player took, keeps the
   * tournament counters, and keeps the invariant.
   */
  lemma {:induction false} RecordGamesSpec(m: map<string, TournamentStats>, games: seq<GameResult>, playerId: string)
    ensures StatsOf(RecordGames(m, games), playerId).totalGamesPlayed == StatsOf(m, playerId).totalGamesPlayed + Sides(games, playerId)
    ensures StatsOf(RecordGames(m, games), playerId).totalTournaments == StatsOf(m, playerId).totalTournaments
    ensures StatsOf(RecordGames(m, games), playerId).tournamentsWon == StatsOf(m, playerId).tournamentsWon
    ensures AllStatsInv(m) ==> AllStatsInv(RecordGames(m, games))
    decreases |games|
  {
    if games != [] {
      var g := games[|games| - 1];
      var m0 := RecordGames(m, games[..|games| - 1]);
      RecordGamesSpec(m, games[..|games| - 1], playerId);
      var m1 := RecordGame(m0, g.playerX.id, g);
      RecordGameSpec(m0, g.playerX.id, g, playerId);
      RecordGameSpec(m1, g.playerO.id, g, playerId);
    }
  }

  /** The games of the matches that have a series, in match order. */
  function SeriesGames(ms: seq<Match>): seq<GameResult>
  {
    if ms == [] then []
    else
      var m := ms[|ms| - 1];
      SeriesGames(ms[..|ms| - 1]) + (if m.series.Some? then m.series.value.games else [])
  }

  lemma SeriesGamesStep(ms: seq<Match>, k: nat)
    requires k < |ms|
    ensures SeriesGames(ms[..k + 1])
      == SeriesGames(ms[..k]) + (if ms[k].series.Some? then ms[k].series.value.games else [])
  {
    assert ms[..k + 1][..k] == ms[..k];
  }

  /** The winner's line of updateTournamentStats: one more tournament played and won. */
  function CreditWinner(m: map<string, TournamentStats>, winnerId: string): map<string, TournamentStats>
  {
    var s := StatsOf(m, winnerId);
    m[winnerId := s.(totalTournaments := s.totalTournaments + 1, tournamentsWon := s.tournamentsWon + 1)]
  }

  /** The players loop of updateTournamentStats: one more tournament for every listed player. */
  function AddParticipations(m: map<string, TournamentStats>, players: seq<Player>): map<string, TournamentStats>
  {
    if players == [] then m
    else
      var m0 := AddParticipations(m, players[..|players| - 1]);
      var id := players[|players| - 1].id;
      m0[id := StatsOf(m0, id).(totalTournaments := StatsOf(m0, id).totalTournaments + 1)]
  }

  /** The number of listed players with this id. */
  function Occurrences(players: seq<Player>, playerId: string): nat
  {
    if players == [] then 0
    else Occurrences(players[..|players| - 1], playerId) + (if players[|players| - 1].id == playerId then 1 else 0)
  }

  lemma {:induction false} AddParticipationsSpec(m: map<string, TournamentStats>, players: seq<Player>, playerId: string)
    ensures StatsOf(AddParticipations(m, players), playerId).totalTournaments
      == StatsOf(m, playerId).totalTournaments + Occurrences(players, playerId)
    ensures StatsOf(AddParticipations(m, players), playerId).tournamentsWon == StatsOf(m, playerId).tournamentsWon
    ensures StatsOf(AddParticipations(m, players), playerId).totalGamesPlayed == StatsOf(m, playerId).totalGamesPlayed
    ensures AllStatsInv(m) ==> AllStatsInv(AddParticipations(m, players))
    decreases |players|
  {
    if players != [] {
      AddParticipationsSpec(m, players[..|players| - 1], playerId);
      var m0 := AddParticipations(m, players[..|players| - 1]);
      var id := players[|players| - 1].id;
      assert StatsOf(m0, id) == EmptyStats || id in m0;
    }
  }

  /** What updateTournamentStats does to the map: nothing unless the tournament is completed with a winner. */
  function TournamentStatsUpdate(m: map<string, TournamentStats>, t: Tournament): map<string, TournamentStats>
  {
    if t.status != Completed || t.winner.None? then m
    else RecordGames(AddParticipations(CreditWinner(m, t.winner.value.id), t.players), SeriesGames(t.matches))
  }

  /**
   * For a completed tournament with winner w: every listed player gets one more
   * tournament per listing, and w one more on top (so +2 when listed once) and
   * one more tournament won; every game of every series counts for both sides.
   * The invariant is kept.
   */
  lemma TournamentStatsUpdateSpec(m: map<string, TournamentStats>, t: Tournament, playerId: string)
    requires t.status == Completed && t.winner.Some?
    ensures StatsOf(TournamentStatsUpdate(m, t), playerId).totalTournaments
      == StatsOf(m, playerId).totalTournaments + Occurrences(t.players, playerId)
         + (if playerId == t.winner.value.id then 1 else 0)
    ensures StatsOf(TournamentStatsUpdate(m, t), playerId).tournamentsWon
      == StatsOf(m, playerId).tournamentsWon + (if playerId == t.winner.value.id then 1 else 0)
    ensures StatsOf(TournamentStatsUpdate(m, t), playerId).totalGamesPlayed
      == StatsOf(m, playerId).totalGamesPlayed + Sides(SeriesGames(t.matches), playerId)
    ensures AllStatsInv(m) ==> AllStatsInv(TournamentStatsUpdate(m, t))
  {
    var m1 := CreditWinner(m, t.winner.value.id);
    var m2 := AddParticipations(m1, t.players);
    AddParticipationsSpec(m1, t.players, playerId);
    RecordGamesSpec(m2, SeriesGames(t.matches), playerId);
    if AllStatsInv(m) {
      assert AllStatsInv(m1);
      AddParticipationsSpec(m1, t.players, playerId);
    }
  }

  // ----- tournament history -----

  /** Newest first. */
  predicate SortedDesc(ts: seq<Tournament>)
  {
    forall i, j :: 0 <= i < j < |ts| ==> ts[i].createdAt >= ts[j].createdAt
  }

  /** Inserts `t` before the first entry not newer than it. */
  function Insert(t: Tournament, ts: seq<Tournament>): seq<Tournament>
  {
    if ts == [] || t.createdAt >= ts[0].createdAt then [t] + ts
    else [ts[0]] + Insert(t, ts[1..])
  }

  /** The sort of getTournamentHistory (comparator `b.createdAt - a.createdAt`), as an insertion sort. */
  function SortByCreatedDesc(ts: seq<Tournament>): seq<Tournament>
  {
    if ts == [] then [] else Insert(ts[0], SortByCreatedDesc(ts[1..]))
  }

  /** Inserting adds exactly one copy of `t`. */
  lemma {:induction false} InsertPerm(t: Tournament, ts: seq<Tournament>)
    ensures multiset(Insert(t, ts)) == multiset(ts) + multiset{t}
  {
    if ts != [] && t.createdAt < ts[0].createdAt {
      InsertPerm(t, ts[1..]);
      assert ts == [ts[0]] + ts[1..];
    }
  }

  /** Inserting into a newest-first list keeps it newest first; the head is `t` or the old head. */
  lemma {:induction false} InsertSorted(t: Tournament, ts: seq<Tournament>)
    requires SortedDesc(ts)
    ensures SortedDesc(Insert(t, ts))
    ensures Insert(t, ts)[0] == t || Insert(t, ts)[0] == ts[0]
  {
    if ts != [] && t.createdAt < ts[0].createdAt {
      var r := Insert(t, ts[1..]);
      InsertSorted(t, ts[1..]);
      assert r[0].createdAt <= ts[0].createdAt;
      assert Insert(t, ts) == [ts[0]] + r;
    }
  }

  /** The sorted history is newest first and holds exactly the stored snapshots. */
  lemma {:induction false} SortSpec(ts: seq<Tournament>)
    ensures SortedDesc(SortByCreatedDesc(ts))
    ensures multiset(SortByCreatedDesc(ts)) == multiset(ts)
    ensures |SortByCreatedDesc(ts)| == |ts|
  {
    if ts != [] {
      SortSpec(ts[1..]);
      InsertSorted(ts[0], SortByCreatedDesc(ts[1..]));
      InsertPerm(ts[0], SortByCreatedDesc(ts[1..]));
      assert ts == [ts[0]] + ts[1..];
      assert |multiset(SortByCreatedDesc(ts))| == |multiset(ts)|;
    }
  }

  /** `history.slice(0, limit)`: a negative limit counts back from the end. */
  function Slice(ts: seq<Tournament>, limit: int): (r: seq<Tournament>)
  {
    if limit >= 0 then ts[..if limit < |ts| then limit else |ts|]
    else ts[..if |ts| + limit > 0 then |ts| + limit else 0]
  }

  /** A slice of a newest-first list is a prefix no older than anything after it. */
  lemma SliceOfSorted(h: seq<Tournament>, limit: int)
    requires SortedDesc(h)
    ensures Slice(h, limit) <= h
    ensures forall i, j :: 0 <= i < |Slice(h, limit)| <= j < |h| ==> Slice(h, limit)[i].createdAt >= h[j].createdAt
    ensures multiset(Slice(h, limit)) <= multiset(h)
  {
    var r := Slice(h, limit);
    assert h == r + h[|r|..];
    forall i, j | 0 <= i < |r| <= j < |h|
      ensures r[i].createdAt >= h[j].createdAt
    {
      assert r[i] == h[i];
    }
  }

  /**
   * getRecentTournaments keeps the newest tournaments: a prefix of the sorted
   * history, no older than any tournament it leaves out, drawn from the stored
   * list, of length min(limit, n) (a negative limit drops that many from the end).
   */
  lemma RecentAreNewest(ts: seq<Tournament>, limit: int)
    ensures Slice(SortByCreatedDesc(ts), limit) <= SortByCreatedDesc(ts)
    ensures forall i, j :: 0 <= i < |Slice(SortByCreatedDesc(ts), limit)| <= j < |SortByCreatedDesc(ts)| ==>
      Slice(SortByCreatedDesc(ts), limit)[i].createdAt >= SortByCreatedDesc(ts)[j].createdAt
    ensures multiset(Slice(SortByCreatedDesc(ts), limit)) <= multiset(ts)
    ensures limit >= 0 ==> |Slice(SortByCreatedDesc(ts), limit)| == if limit < |ts| then limit else |ts|
    ensures limit < 0 ==> |Slice(SortByCreatedDesc(ts), limit)| == if |ts| + limit > 0 then |ts| + limit else 0
  {
    SortSpec(ts);
    SliceOfSorted(SortByCreatedDesc(ts), limit);
  }

  /** findIndex by id: the first position with that id, or -1. */
  function FindIndex(ts: seq<Tournament>, id: string): (k: int)
    ensures -1 <= k < |ts|
    ensures k >= 0 ==> ts[k].id == id
  {
    if ts == [] then -1
    else if ts[0].id == id then 0
    else
      var k := FindIndex(ts[1..], id);
      if k == -1 then -1 else k + 1
  }

  lemma {:induction false} FindIndexSpec(ts: seq<Tournament>, id: string)
    ensures FindIndex(ts, id) == -1 <==> forall i :: 0 <= i < |ts| ==> ts[i].id != id
    ensures forall i :: 0 <= i < FindIndex(ts, id) ==> ts[i].id != id
  {
    if ts != [] && ts[0].id != id {
      FindIndexSpec(ts[1..], id);
      assert forall i :: 1 <= i < |ts| ==> ts[i] == ts[1..][i - 1];
    }
  }

  // ----- favourite opponent -----

  /** One entry of the opponent-count map, kept in insertion order. */
  datatype Entry = Entry(name: string, count: nat)

  /** The position of the entry for `name`, or -1. */
  function FindName(entries: seq<Entry>, name: string): (k: int)
    ensures -1 <= k < |entries|
    ensures k >= 0 ==> entries[k].name == name
    ensures k == -1 ==> forall i :: 0 <= i < |entries| ==> entries[i].name != name
  {
    if entries == [] then -1
    else
      var k := FindName(entries[..|entries| - 1], name);
      if k >= 0 then k
      else if entries[|entries| - 1].name == name then |entries| - 1
      else -1
  }

  /** `opponentCounts.set(name, (opponentCounts.get(name) || 0) + 1)`: a new name goes to the end. */
  function Bump(entries: seq<Entry>, name: string): seq<Entry>
  {
    var k := FindName(entries, name);
    if k >= 0 then entries[k := entries[k].(count := entries[k].count + 1)] else entries + [Entry(name, 1)]
  }

  /** The games of `playerId` in the stored tournaments (flatMap/filter of getFavoriteOpponent). */
  function PlayerGames(ts: seq<Tournament>, playerId: string): seq<GameResult>
  {
    if ts == [] then []
    else PlayerGames(ts[..|ts| - 1], playerId) + InvolvingPlayer(SeriesGames(ts[|ts| - 1].matches), playerId)
  }

  function InvolvingPlayer(games: seq<GameResult>, playerId: string): seq<GameResult>
  {
    if games == [] then []
    else
      var g := games[|games| - 1];
      InvolvingPlayer(games[..|games| - 1], playerId) + (if g.playerX.id == playerId || g.playerO.id == playerId then [g] else [])
  }

  /** The other side of a game of `playerId`: O when the player is X, else X. */
  function OpponentName(g: GameResult, playerId: string): string
  {
    if g.playerX.id == playerId then g.playerO.name else g.playerX.name
  }

  /** The opponent counts after the first forEach. */
  function Tally(games: seq<GameResult>, playerId: string): seq<Entry>
  {
    if games == [] then [] else Bump(Tally(games[..|games| - 1], playerId), OpponentName(games[|games| - 1], playerId))
  }

  /** The number of games against an opponent of that name. */
  function GamesAgainst(games: seq<GameResult>, playerId: string, name: string): nat
  {
    if games == [] then 0
    else GamesAgainst(games[..|games| - 1], playerId, name) + (if OpponentName(games[|games| - 1], playerId) == name then 1 else 0)
  }

  /** Distinct names, each with a positive count. */
  predicate WellFormedTally(entries: seq<Entry>)
  {
    (forall i :: 0 <= i < |entries| ==> entries[i].count >= 1)
    && (forall i, j :: 0 <= i < j < |entries| ==> entries[i].name != entries[j].name)
  }

  /**
   * The tally lists every opponent name once, with the number of games against
   * it, and no other name.
   */
  lemma {:induction false} TallySpec(games: seq<GameResult>, playerId: string)
    ensures WellFormedTally(Tally(games, playerId))
    ensures forall i :: 0 <= i < |Tally(games, playerId)| ==>
      Tally(games, playerId)[i].count == GamesAgainst(games, playerId, Tally(games, playerId)[i].name)
    ensures forall name :: GamesAgainst(games, playerId, name) > 0 ==> FindName(Tally(games, playerId), name) >= 0
    ensures Tally(games, playerId) == [] <==> games == []
  {
    if games != [] {
      var rest := games[..|games| - 1];
      var name := OpponentName(games[|games| - 1], playerId);
      TallySpec(rest, playerId);
      var t0 := Tally(rest, playerId);
      var t1 := Bump(t0, name);
      assert Tally(games, playerId) == t1;
      BumpSpec(t0, name);
      forall i | 0 <= i < |t1|
        ensures t1[i].count == GamesAgainst(games, playerId, t1[i].name)
      {
        if i == |t0| {
          assert GamesAgainst(rest, playerId, name) == 0;
        }
      }
      forall n | GamesAgainst(games, playerId, n) > 0
        ensures FindName(t1, n) >= 0
      {
        if n != name {
          assert t1[FindName(t0, n)].name == n;
        }
      }
    }
  }

  /**
   * Bumping keeps the names distinct and the counts positive, adds one to the
   * entry for `name` (appending it with count 1 when it is new), and leaves the
   * other entries alone.
   */
  lemma BumpSpec(entries: seq<Entry>, name: string)
    requires WellFormedTally(entries)
    ensures WellFormedTally(Bump(entries, name))
    ensures |entries| <= |Bump(entries, name)| <= |entries| + 1
    ensures forall i :: 0 <= i < |entries| ==> Bump(entries, name)[i].name == entries[i].name
    ensures forall i :: 0 <= i < |entries| ==>
      Bump(entries, name)[i].count == entries[i].count + (if entries[i].name == name then 1 else 0)
    ensures |Bump(entries, name)| == |entries| + 1 ==>
      FindName(entries, name) == -1 && Bump(entries, name)[|entries|] == Entry(name, 1)
    ensures FindName(Bump(entries, name), name) >= 0
  {
    var k := FindName(entries, name);
    if k >= 0 {
      forall i | 0 <= i < |entries| && i != k
        ensures entries[i].name != name
      {
      }
    } else {
      assert Bump(entries, name)[|entries|].name == name;
    }
  }

  /** The running best of the second forEach: the name and its count. */
  datatype Best = Best(name: string, count: nat)

  /** The second forEach: a later entry replaces the best only with a strictly larger count. */
  function PickFavorite(entries: seq<Entry>): Best
  {
    if entries == [] then Best("", 0)
    else
      var prev := PickFavorite(entries[..|entries| - 1]);
      var e := entries[|entries| - 1];
      if e.count > prev.count then Best(e.name, e.count) else prev
  }

  /** Entry `k` has the largest count, and every entry before it a smaller one. */
  ghost predicate FirstMax(entries: seq<Entry>, k: int)
  {
    0 <= k < |entries|
    && (forall j :: 0 <= j < |entries| ==> entries[j].count <= entries[k].count)
    && (forall j :: 0 <= j < k ==> entries[j].count < entries[k].count)
  }

  /** Extending the entries by one keeps the first maximum, unless the new entry beats it. */
  lemma FirstMaxStep(entries: seq<Entry>, k: int)
    requires |entries| >= 2 && FirstMax(entries[..|entries| - 1], k)
    ensures entries[|entries| - 1].count > entries[k].count ==> FirstMax(entries, |entries| - 1)
    ensures entries[|entries| - 1].count <= entries[k].count ==> FirstMax(entries, k)
  {
    var init := entries[..|entries| - 1];
    assert forall j :: 0 <= j < |init| ==> init[j] == entries[j];
  }

  /**
   * With positive counts, the pick is the first entry of largest count; with no
   * entries it is ''.
   */
  lemma {:induction false} PickFavoriteSpec(entries: seq<Entry>)
    requires forall i :: 0 <= i < |entries| ==> entries[i].count >= 1
    ensures entries == [] ==> PickFavorite(entries) == Best("", 0)
    ensures entries != [] ==>
      exists k :: FirstMax(entries, k) && PickFavorite(entries) == Best(entries[k].name, entries[k].count)
  {
    if |entries| == 1 {
      assert entries[..0] == [];
      assert PickFavorite(entries) == Best(entries[0].name, entries[0].count);
      assert FirstMax(entries, 0);
    } else if |entries| > 1 {
      var init := entries[..|entries| - 1];
      assert forall i :: 0 <= i < |init| ==> init[i] == entries[i];
      PickFavoriteSpec(init);
      var k :| FirstMax(init, k) && PickFavorite(init) == Best(init[k].name, init[k].count);
      FirstMaxStep(entries, k);
      if entries[|entries| - 1].count > init[k].count {
        assert PickFavorite(entries) == Best(entries[|entries| - 1].name, entries[|entries| - 1].count);
      } else {
        assert PickFavorite(entries) == Best(entries[k].name, entries[k].count);
      }
    }
  }

  /** The favourite among some games: '' without games, else the first-inserted name of largest count. */
  function FavoriteAmong(games: seq<GameResult>, playerId: string): string
  {
    PickFavorite(Tally(games, playerId)).name
  }

  /** getFavoriteOpponent's answer for the stored tournaments. */
  function FavoriteOpponent(ts: seq<Tournament>, playerId: string): string
  {
    FavoriteAmong(PlayerGames(ts, playerId), playerId)
  }

  /**
   * Entry `k` of the tally names an opponent met in the most games, and every
   * entry before it has a smaller count.
   */
  ghost predicate MostMet(games: seq<GameResult>, playerId: string, entries: seq<Entry>, k: int)
  {
    0 <= k < |entries|
    && GamesAgainst(games, playerId, entries[k].name) > 0
    && (forall name :: GamesAgainst(games, playerId, name) <= GamesAgainst(games, playerId, entries[k].name))
    && (forall j :: 0 <= j < k ==> entries[j].count < entries[k].count)
  }

  /**
   * The favourite is '' when there are no games; otherwise the name of an opponent
   * met in the most games, the one first met on ties.
   */
  lemma FavoriteAmongSpec(games: seq<GameResult>, playerId: string)
    ensures games == [] ==> FavoriteAmong(games, playerId) == ""
    ensures games != [] ==>
      exists k :: MostMet(games, playerId, Tally(games, playerId), k)
        && FavoriteAmong(games, playerId) == Tally(games, playerId)[k].name
  {
    var entries := Tally(games, playerId);
    TallySpec(games, playerId);
    PickFavoriteSpec(entries);
    if games != [] {
      var k :| FirstMax(entries, k) && PickFavorite(entries) == Best(entries[k].name, entries[k].count);
      MostMetByCount(games, playerId, entries, k);
    }
  }


  /** The position of the first game against an opponent of that name, or the number of games. */
  function FirstMet(games: seq<GameResult>, playerId: string, name: string): (r: nat)
    ensures r <= |games|
    ensures r < |games| ==> OpponentName(games[r], playerId) == name
    ensures forall i :: 0 <= i < r && i < |games| ==> OpponentName(games[i], playerId) != name
  {
    if games == [] then 0
    else
      var k := FirstMet(games[..|games| - 1], playerId, name);
      if k < |games| - 1 then k
      else if OpponentName(games[|games| - 1], playerId) == name then |games| - 1
      else |games|
  }

  /** Some game is against that name exactly when the first one is found. */
  lemma {:induction false} FirstMetFound(games: seq<GameResult>, playerId: string, name: string)
    ensures FirstMet(games, playerId, name) < |games| <==> GamesAgainst(games, playerId, name) > 0
  {
    if games != [] {
      FirstMetFound(games[..|games| - 1], playerId, name);
    }
  }

  /** The tally lists the opponents in the order the player first met them. */
  lemma {:induction false} TallyInFirstMetOrder(games: seq<GameResult>, playerId: string)
    ensures forall i, j :: 0 <= i < j < |Tally(games, playerId)| ==>
      FirstMet(games, playerId, Tally(games, playerId)[i].name) < FirstMet(games, playerId, Tally(games, playerId)[j].name)
  {
    if games != [] {
      var rest := games[..|games| - 1];
      var name := OpponentName(games[|games| - 1], playerId);
      TallyInFirstMetOrder(rest, playerId);
      TallySpec(rest, playerId);
      var t0 := Tally(rest, playerId);
      var t1 := Bump(t0, name);
      assert Tally(games, playerId) == t1;
      BumpSpec(t0, name);
      forall i | 0 <= i < |t0|
        ensures FirstMet(games, playerId, t1[i].name) == FirstMet(rest, playerId, t0[i].name) < |rest|
      {
        FirstMetFound(rest, playerId, t0[i].name);
      }
      if |t1| > |t0| {
        assert FirstMet(games, playerId, name) == |rest| by {
          FirstMetFound(rest, playerId, name);
        }
      }
    }
  }

  /**
   * Between opponents met equally often, getFavoriteOpponent names the one the
   * player met first.
   */
  lemma FavoriteFirstMetOnTies(games: seq<GameResult>, playerId: string, name: string)
    requires games != []
    requires GamesAgainst(games, playerId, name) == GamesAgainst(games, playerId, FavoriteAmong(games, playerId))
    ensures FirstMet(games, playerId, FavoriteAmong(games, playerId)) <= FirstMet(games, playerId, name)
  {
    var k := FavoriteEntry(games, playerId);
    var entries := Tally(games, playerId);
    assert GamesAgainst(games, playerId, name) == entries[k].count > 0;
    var j := EntryFor(games, playerId, name);
    assert entries[j].count == entries[k].count;
    assert j >= k;
    if j > k {
      TallyInFirstMetOrder(games, playerId);
    }
  }

  /** The tally entry of the favourite: its count is the games against it, and no earlier entry ties it. */
  lemma FavoriteEntry(games: seq<GameResult>, playerId: string) returns (k: int)
    requires games != []
    ensures 0 <= k < |Tally(games, playerId)| && FavoriteAmong(games, playerId) == Tally(games, playerId)[k].name
    ensures Tally(games, playerId)[k].count == GamesAgainst(games, playerId, Tally(games, playerId)[k].name) > 0
    ensures forall j :: 0 <= j < k ==> Tally(games, playerId)[j].count < Tally(games, playerId)[k].count
  {
    FavoriteAmongSpec(games, playerId);
    TallySpec(games, playerId);
    k :| MostMet(games, playerId, Tally(games, playerId), k) && FavoriteAmong(games, playerId) == Tally(games, playerId)[k].name;
  }

  /** An opponent met at least once has a tally entry holding the games against it. */
  lemma EntryFor(games: seq<GameResult>, playerId: string, name: string) returns (j: int)
    requires GamesAgainst(games, playerId, name) > 0
    ensures 0 <= j < |Tally(games, playerId)| && Tally(games, playerId)[j].name == name
    ensures Tally(games, playerId)[j].count == GamesAgainst(games, playerId, name)
  {
    TallySpec(games, playerId);
    j := FindName(Tally(games, playerId), name);
  }

  /** With a faithful tally, a largest count is a largest number of games. */
  lemma MostMetByCount(games: seq<GameResult>, playerId: string, entries: seq<Entry>, k: int)
    requires FirstMax(entries, k)
    requires forall i :: 0 <= i < |entries| ==> entries[i].count == GamesAgainst(games, playerId, entries[i].name)
    requires forall i :: 0 <= i < |entries| ==> entries[i].count >= 1
    requires forall name :: GamesAgainst(games, playerId, name) > 0 ==> FindName(entries, name) >= 0
    ensures MostMet(games, playerId, entries, k)
  {
    forall name
      ensures GamesAgainst(games, playerId, name) <= GamesAgainst(games, playerId, entries[k].name)
    {
      if GamesAgainst(games, playerId, name) > 0 {
        var j := FindName(entries, name);
        assert entries[j].count == GamesAgainst(games, playerId, name);
      }
    }
  }

  /** One more game bumps its opponent's entry. */
  lemma TallyStep(games: seq<GameResult>, playerId: string, i: nat)
    requires i < |games|
    ensures Tally(games[..i + 1], playerId) == Bump(Tally(games[..i], playerId), OpponentName(games[i], playerId))
  {
    assert games[..i + 1][..i] == games[..i];
  }

  /** One more entry is kept only if its count is strictly larger. */
  lemma PickStep(entries: seq<Entry>, j: nat)
    requires j < |entries|
    ensures PickFavorite(entries[..j + 1])
      == if entries[j].count > PickFavorite(entries[..j]).count then Best(entries[j].name, entries[j].count)
         else PickFavorite(entries[..j])
  {
    assert entries[..j + 1][..j] == entries[..j];
  }

  /** The first forEach of getFavoriteOpponent: the opponent counts in insertion order. */
  method CountOpponents(playerGames: seq<GameResult>, playerId: string) returns (opponentCounts: seq<Entry>)
    ensures opponentCounts == Tally(playerGames, playerId)
  {
    opponentCounts := [];
    var i := 0;
    while i < |playerGames|
      invariant 0 <= i <= |playerGames|
      invariant opponentCounts == Tally(playerGames[..i], playerId)
    {
      var game := playerGames[i];
      var opponent := if game.playerX.id == playerId then game.playerO else game.playerX;
      TallyStep(playerGames, playerId, i);
      assert opponent.name == OpponentName(game, playerId);
      var k := FindName(opponentCounts, opponent.name);
      if k >= 0 {
        opponentCounts := opponentCounts[k := Entry(opponent.name, opponentCounts[k].count + 1)];
      } else {
        opponentCounts := opponentCounts + [Entry(opponent.name, 1)];
      }
      i := i + 1;
    }
    assert playerGames[..i] == playerGames;
  }

  /** The second forEach of getFavoriteOpponent: a name replaces the best only with a strictly larger count. */
  method PickMostMet(opponentCounts: seq<Entry>) returns (favorite: string)
    ensures favorite == PickFavorite(opponentCounts).name
  {
    favorite := "";
    var maxCount := 0;
    var j := 0;
    while j < |opponentCounts|
      invariant 0 <= j <= |opponentCounts|
      invariant PickFavorite(opponentCounts[..j]) == Best(favorite, maxCount)
    {
      PickStep(opponentCounts, j);
      if opponentCounts[j].count > maxCount {
        maxCount := opponentCounts[j].count;
        favorite := opponentCounts[j].name;
      }
      j := j + 1;
    }
    assert opponentCounts[..j] == opponentCounts;
  }

  // ----- the manager -----

  class TournamentStatsManager {
    var tournaments: seq<Tournament>
    var playerStats: map<string, TournamentStats>

    /** Every stored record satisfies the counter invariant. */
    ghost predicate Valid()
      reads this
    {
      AllStatsInv(playerStats)
    }

    /** A manager with nothing loaded. */
    constructor()
      ensures Valid()
      ensures tournaments == [] && playerStats == map[]
    {
      tournaments := [];
      playerStats := map[];
    }

    /** addTournament: appends the snapshot; earlier entries are unchanged. */
    method AddTournament(tournament: Tournament)
      modifies this
      ensures tournaments == old(tournaments) + [tournament]
      ensures playerStats == old(playerStats)
    {
      tournaments := tournaments + [tournament];
    }

    /** updateTournament: replaces the first snapshot with the same id; a no-op when there is none. */
    method UpdateTournament(tournament: Tournament)
      modifies this
      ensures |tournaments| == |old(tournaments)| && playerStats == old(playerStats)
      ensures FindIndex(old(tournaments), tournament.id) == -1 ==> tournaments == old(tournaments)
      ensures FindIndex(old(tournaments), tournament.id) >= 0 ==>
        tournaments == old(tournaments)[FindIndex(old(tournaments), tournament.id) := tournament]
    {
      var index := FindIndex(tournaments, tournament.id);
      if index != -1 {
        tournaments := tournaments[index := tournament];
      }
    }

    /** getTournamentHistory: a sorted copy, newest first, holding exactly the stored snapshots. */
    function GetTournamentHistory(): (r: seq<Tournament>)
      reads this
      ensures SortedDesc(r)
      ensures multiset(r) == multiset(tournaments)
      ensures |r| == |tournaments|
    {
      SortSpec(tournaments);
      SortByCreatedDesc(tournaments)
    }

    /** getRecentTournaments (the caller passes 10 for the default): the first `limit` of the history. */
    function GetRecentTournaments(limit: int): (r: seq<Tournament>)
      reads this
      ensures r <= GetTournamentHistory()
      ensures forall i, j :: 0 <= i < |r| <= j < |tournaments| ==> r[i].createdAt >= GetTournamentHistory()[j].createdAt
      ensures multiset(r) <= multiset(tournaments)
      ensures limit >= 0 ==> |r| == if limit < |tournaments| then limit else |tournaments|
    {
      SortSpec(tournaments);
      RecentAreNewest(tournaments, limit);
      Slice(GetTournamentHistory(), limit)
    }

    /** getPlayerStats: the stored record, or a zero record inserted for an unknown id. */
    method GetPlayerStats(playerId: string) returns (stats: TournamentStats)
      requires Valid()
      modifies this
      ensures Valid()
      ensures tournaments == old(tournaments)
      ensures playerId in old(playerStats) ==> playerStats == old(playerStats) && stats == old(playerStats)[playerId]
      ensures playerId !in old(playerStats) ==> playerStats == old(playerStats)[playerId := EmptyStats] && stats == EmptyStats
    {
      if playerId !in playerStats {
        playerStats := playerStats[playerId := EmptyStats];
      }
      stats := playerStats[playerId];
    }

    /** updatePlayerStats: one more game for `playerId` (the running average is not modelled). */
    method UpdatePlayerStats(playerId: string, gameResult: GameResult)
      requires Valid()
      modifies this
      ensures Valid()
      ensures tournaments == old(tournaments)
      ensures playerStats == RecordGame(old(playerStats), playerId, gameResult)
    {
      var stats := GetPlayerStats(playerId);
      stats := stats.(totalGamesPlayed := stats.totalGamesPlayed + 1);
      if gameResult.winner == Won(X) && gameResult.playerX.id == playerId {
        stats := stats.(totalGamesWon := stats.totalGamesWon + 1, currentWinStreak := stats.currentWinStreak + 1);
        stats := stats.(longestWinStreak := Max(stats.longestWinStreak, stats.currentWinStreak));
      } else if gameResult.winner == Won(O) && gameResult.playerO.id == playerId {
        stats := stats.(totalGamesWon := stats.totalGamesWon + 1, currentWinStreak := stats.currentWinStreak + 1);
        stats := stats.(longestWinStreak := Max(stats.longestWinStreak, stats.currentWinStreak));
      } else {
        stats := stats.(currentWinStreak := 0);
      }
      RecordResultSpec(StatsOf(old(playerStats), playerId), playerId, gameResult);
      playerStats := playerStats[playerId := stats];
    }

    /**
     * updateTournamentStats: for a completed tournament with a winner, credits the
     * winner, counts the tournament for every listed player, and records both sides
     * of every game of every series.
     */
    method UpdateTournamentStats(tournament: Tournament)
      requires Valid()
      modifies this
      ensures Valid()
      ensures tournaments == old(tournaments)
      ensures playerStats == TournamentStatsUpdate(old(playerStats), tournament)
    {
      if tournament.status != Completed || tournament.winner.None? {
        return;
      }
      CreditWinnerStats(tournament.winner.value.id);
      CountTournament(tournament.players);
      RecordMatches(tournament.matches);
    }

    /** The winner's line of updateTournamentStats. */
    method CreditWinnerStats(winnerId: string)
      requires Valid()
      modifies this
      ensures Valid()
      ensures tournaments == old(tournaments)
      ensures playerStats == CreditWinner(old(playerStats), winnerId)
    {
      var winnerStats := GetPlayerStats(winnerId);
      winnerStats := winnerStats.(totalTournaments := winnerStats.totalTournaments + 1,
                                  tournamentsWon := winnerStats.tournamentsWon + 1);
      playerStats := playerStats[winnerId := winnerStats];
    }

    /** The matches loop of updateTournamentStats: the series of every match that has one. */
    method RecordMatches(matches: seq<Match>)
      requires Valid()
      modifies this
      ensures Valid()
      ensures tournaments == old(tournaments)
      ensures playerStats == RecordGames(old(playerStats), SeriesGames(matches))
    {
      var k := 0;
      while k < |matches|
        invariant 0 <= k <= |matches|
        invariant Valid() && tournaments == old(tournaments)
        invariant playerStats == RecordGames(old(playerStats), SeriesGames(matches[..k]))
      {
        SeriesGamesStep(matches, k);
        if matches[k].series.Some? {
          var games := matches[k].series.value.games;
          RecordGamesAppend(old(playerStats), SeriesGames(matches[..k]), games);
          RecordSeries(games);
        } else {
          assert SeriesGames(matches[..k]) + [] == SeriesGames(matches[..k]);
        }
        k := k + 1;
      }
      assert matches[..k] == matches;
    }

    /** The players loop of updateTournamentStats. */
    method CountTournament(players: seq<Player>)
      requires Valid()
      modifies this
      ensures Valid()
      ensures tournaments == old(tournaments)
      ensures playerStats == AddParticipations(old(playerStats), players)
    {
      var i := 0;
      while i < |players|
        invariant 0 <= i <= |players|
        invariant Valid() && tournaments == old(tournaments)
        invariant playerStats == AddParticipations(old(playerStats), players[..i])
      {
        ghost var m0 := playerStats;
        var id := players[i].id;
        var stats := GetPlayerStats(id);
        assert stats == StatsOf(m0, id) && StatsInv(stats);
        var counted := stats.(totalTournaments := stats.totalTournaments + 1);
        playerStats := playerStats[id := counted];
        assert playerStats == m0[id := counted];
        assert players[..i + 1][..i] == players[..i];
        assert AddParticipations(old(playerStats), players[..i + 1]) == m0[id := counted];
        i := i + 1;
      }
      assert players[..i] == players;
    }

    /** The games loop of updateTournamentStats: both sides of each game of one series. */
    method RecordSeries(games: seq<GameResult>)
      requires Valid()
      modifies this
      ensures Valid()
      ensures tournaments == old(tournaments)
      ensures playerStats == RecordGames(old(playerStats), games)
    {
      var j := 0;
      while j < |games|
        invariant 0 <= j <= |games|
        invariant Valid() && tournaments == old(tournaments)
        invariant playerStats == RecordGames(old(playerStats), games[..j])
      {
        UpdatePlayerStats(games[j].playerX.id, games[j]);
        UpdatePlayerStats(games[j].playerO.id, games[j]);
        assert games[..j + 1][..j] == games[..j];
        j := j + 1;
      }
      assert games[..j] == games;
    }

    /** getFavoriteOpponent: counts games per opponent name, then keeps the first strictly largest. */
    method GetFavoriteOpponent(playerId: string) returns (favorite: string)
      ensures favorite == FavoriteOpponent(tournaments, playerId)
    {
      var playerGames := PlayerGames(tournaments, playerId);
      var opponentCounts := CountOpponents(playerGames, playerId);
      favorite := PickMostMet(opponentCounts);
    }

    /** clearAllData: no snapshots and no counters. */
    method ClearAllData()
      modifies this
      ensures Valid()
      ensures tournaments == [] && playerStats == map[]
    {
      tournaments := [];
      playerStats := map[];
    }
  }
}
