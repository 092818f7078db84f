/**
 * The tournament engine (src/utils/tournamentLogic.ts): creating a tournament,
 * seeding the first round, completing a match and advancing round by round.
 *
 * Snapshots are values; the two operations that work step by step (the seeding of
 * generateBracket and the pairing loop of advanceToNextRound) are methods proved
 * against the functions PairMatches and Advance. Clocks and fresh ids are parameters;
 * the shuffle's random index is a free choice.
 */
module TournamentLogic {
  import opened Wrappers
  import opened Types

  /** 2^k. */
  function Pow2(k: nat): (r: nat)
    ensures r >= 1
  {
    if k == 0 then 1 else 2 * Pow2(k - 1)
  }

  lemma {:induction false} Pow2Increasing(j: nat, k: nat)
    requires j < k
    ensures Pow2(j) < Pow2(k)
    decreases k
  {
    if j < k - 1 {
      Pow2Increasing(j, k - 1);
    }
  }

  /** 2^j <= 2^k exactly when j <= k. */
  lemma Pow2Order(j: nat, k: nat)
    ensures Pow2(j) <= Pow2(k) <==> j <= k
  {
    if j < k {
      Pow2Increasing(j, k);
    } else if k < j {
      Pow2Increasing(k, j);
    }
  }

  /** Math.ceil(Math.log2(n)): the least k with 2^k >= n. */
  function CeilLog2(n: nat): (k: nat)
    ensures Pow2(k) >= n
    ensures k == 0 || Pow2(k - 1) < n
  {
    if n <= 1 then 0 else 1 + CeilLog2((n + 1) / 2)
  }

  /** No smaller number of rounds holds `n` players. */
  lemma CeilLog2Least(n: nat, k: nat)
    requires Pow2(k) >= n
    ensures CeilLog2(n) <= k
  {
    var c := CeilLog2(n);
    if c >= 1 {
      Pow2Order(k, c - 1);
    }
  }

  /**
   * createTournament: one fresh player per name, no matches, round 1 of
   * ceil(log2 n). The random ids of the players and of the tournament and the
   * clock are parameters.
   */
  function CreateTournament(name: string, playerNames: seq<string>, playerIds: seq<string>, id: string,
                            now: int, mode: Format, seriesLength: SeriesLength): (r: Tournament)
    requires |playerIds| == |playerNames|
    ensures |r.players| == |playerNames|
    ensures forall k :: 0 <= k < |playerNames| ==>
      r.players[k].name == playerNames[k] && r.players[k].id == playerIds[k]
      && r.players[k].wins == 0 && r.players[k].losses == 0
    ensures r.status == Pending && r.matches == [] && r.winner == None && r.completedAt == None
    ensures r.currentRound == 1 && r.createdAt == now && r.format == mode && r.seriesLength == seriesLength
    ensures r.totalRounds >= 0 && Pow2(r.totalRounds) >= |playerNames|
    ensures r.totalRounds == 0 || Pow2(r.totalRounds - 1) < |playerNames|
  {
    var players := seq(|playerNames|, k requires 0 <= k < |playerNames| => Player(playerIds[k], playerNames[k], 0, 0));
    Tournament(id, name, Pending, mode, seriesLength, players, [], None, now, None, 1, CeilLog2(|players|))
  }

  /** The `k`-th pairing of a round: positions 2k and 2k+1, pending, no series yet. */
  function PairMatch(tid: string, round: int, ps: seq<Player>, k: nat): Match
    requires 2 * k + 1 < |ps|
  {
    Match(RoundSlot(tid, round, k), round, ps[2 * k], ps[2 * k + 1], None, Pending)
  }

  /** The first `n` pairings of `ps`, in order. */
  function PairMatches(tid: string, round: int, ps: seq<Player>, n: nat): seq<Match>
    requires 2 * n <= |ps|
  {
    if n == 0 then [] else PairMatches(tid, round, ps, n - 1) + [PairMatch(tid, round, ps, n - 1)]
  }

  /**
   * Pairing `ps` gives `n` matches; match k of the round is pending, has no
   * series, carries id slot k, and plays position 2k against position 2k+1.
   */
  lemma {:induction false} PairMatchesSpec(tid: string, round: int, ps: seq<Player>, n: nat)
    requires 2 * n <= |ps|
    ensures |PairMatches(tid, round, ps, n)| == n
    ensures forall k :: 0 <= k < n ==>
      var m := PairMatches(tid, round, ps, n)[k];
      m.id == RoundSlot(tid, round, k) && m.round == round && m.status == Pending && m.series == None
      && m.player1 == ps[2 * k] && m.player2 == ps[2 * k + 1]
  {
    if n > 0 {
      PairMatchesSpec(tid, round, ps, n - 1);
    }
  }

  /**
   * generateBracket: a Fisher-Yates shuffle of the players in place, then the
   * round loop. Its pairing loop pushes a match for each full pair and moves an
   * odd last player to nextRoundPlayers; the round loop then stops, because a
   * single bye player is never more than one. So only round 1 is emitted and
   * the bye player is dropped.
   */
  method GenerateBracket(t: Tournament) returns (matches: seq<Match>)
    ensures exists s: seq<Player> ::
      multiset(s) == multiset(t.players) && matches == PairMatches(t.id, 1, s, |s| / 2)
  {
    var players := new Player[|t.players|](k requires 0 <= k < |t.players| => t.players[k]);
    assert players[..] == t.players;
    Shuffle(players);
    ghost var shuffled := players[..];

    matches := [];
    var currentPlayers := players[..];
    var round := 1;
    while |currentPlayers| > 1
      invariant round == 1 || round == 2
      invariant round == 1 ==> currentPlayers == shuffled && matches == []
      invariant round == 2 ==> |currentPlayers| <= 1 && matches == PairMatches(t.id, 1, shuffled, |shuffled| / 2)
      decreases |currentPlayers|
    {
      var roundMatches, nextRoundPlayers := PairRound(t.id, round, currentPlayers);
      matches := matches + roundMatches;
      currentPlayers := nextRoundPlayers;
      round := round + 1;
    }
    assert multiset(shuffled) == multiset(t.players) && matches == PairMatches(t.id, 1, shuffled, |shuffled| / 2);
  }

  /** The Fisher-Yates loop of generateBracket: swaps in place, so the result is a permutation. */
  method Shuffle(players: array<Player>)
    modifies players
    ensures multiset(players[..]) == multiset(old(players[..]))
  {
    var i := players.Length - 1;
    while i > 0
      invariant -1 <= i < players.Length
      invariant multiset(players[..]) == multiset(old(players[..]))
    {
      var j :| 0 <= j <= i;
      players[i], players[j] := players[j], players[i];
      i := i - 1;
    }
  }

  /**
   * The pairing loop of one round of generateBracket: a match for each full pair,
   * and an odd last player pushed to the players of the next round.
   */
  method PairRound(tid: string, round: int, currentPlayers: seq<Player>) returns (roundMatches: seq<Match>, nextRoundPlayers: seq<Player>)
    ensures roundMatches == PairMatches(tid, round, currentPlayers, |currentPlayers| / 2)
    ensures nextRoundPlayers == if |currentPlayers| % 2 == 1 then [currentPlayers[|currentPlayers| - 1]] else []
  {
    roundMatches := [];
    nextRoundPlayers := [];
    var k := 0;
    while k < |currentPlayers|
      invariant k % 2 == 0 && (k <= |currentPlayers| || k == |currentPlayers| + 1)
      invariant roundMatches == PairMatches(tid, round, currentPlayers, (if k <= |currentPlayers| then k else k - 1) / 2)
      invariant nextRoundPlayers == if k <= |currentPlayers| then [] else [currentPlayers[|currentPlayers| - 1]]
    {
      if k + 1 < |currentPlayers| {
        var pairMatch := Match(RoundSlot(tid, round, k / 2), round, currentPlayers[k], currentPlayers[k + 1], None, Pending);
        roundMatches := roundMatches + [pairMatch];
      } else {
        nextRoundPlayers := nextRoundPlayers + [currentPlayers[k]];
      }
      k := k + 2;
    }
  }

  /**
   * startTournament: status in progress, round 1, and the bracket of
   * generateBracket; every other field unchanged.
   */
  method StartTournament(t: Tournament) returns (r: Tournament)
    ensures r == t.(status := InProgress, matches := r.matches, currentRound := 1)
    ensures exists s: seq<Player> ::
      multiset(s) == multiset(t.players) && r.matches == PairMatches(t.id, 1, s, |s| / 2)
  {
    var matches := GenerateBracket(t);
    r := t.(status := InProgress, matches := matches, currentRound := 1);
  }

  /** `filter(match => match.round === round)`. */
  function RoundMatches(ms: seq<Match>, round: int): seq<Match>
  {
    if ms == [] then []
    else (if ms[0].round == round then [ms[0]] else []) + RoundMatches(ms[1..], round)
  }

  /** The filter keeps exactly the matches of that round, in their order. */
  lemma {:induction false} RoundMatchesSpec(ms: seq<Match>, round: int)
    ensures |RoundMatches(ms, round)| <= |ms|
    ensures forall m :: m in RoundMatches(ms, round) <==> m in ms && m.round == round
  {
    if ms != [] {
      RoundMatchesSpec(ms[1..], round);
      assert ms == [ms[0]] + ms[1..];
    }
  }

  lemma {:induction false} RoundMatchesAppend(a: seq<Match>, b: seq<Match>, round: int)
    ensures RoundMatches(a + b, round) == RoundMatches(a, round) + RoundMatches(b, round)
  {
    if a == [] {
      assert a + b == b;
    } else {
      var ab := a + b;
      var tail := a[1..];
      assert ab[0] == a[0] && ab[1..] == tail + b;
      RoundMatchesAppend(tail, b, round);
      var head := if a[0].round == round then [a[0]] else [];
      var ra, rb := RoundMatches(tail, round), RoundMatches(b, round);
      assert RoundMatches(ab, round) == head + (ra + rb);
      assert RoundMatches(a, round) == head + ra;
      assert head + (ra + rb) == (head + ra) + rb;
    }
  }

  lemma {:induction false} RoundMatchesNone(ms: seq<Match>, round: int)
    requires forall i :: 0 <= i < |ms| ==> ms[i].round != round
    ensures RoundMatches(ms, round) == []
  {
    if ms != [] {
      RoundMatchesNone(ms[1..], round);
    }
  }

  lemma {:induction false} RoundMatchesAll(ms: seq<Match>, round: int)
    requires forall i :: 0 <= i < |ms| ==> ms[i].round == round
    ensures RoundMatches(ms, round) == ms
  {
    if ms != [] {
      RoundMatchesAll(ms[1..], round);
      assert ms == [ms[0]] + ms[1..];
    }
  }

  /** getCurrentRoundMatches. */
  function GetCurrentRoundMatches(t: Tournament): seq<Match>
  {
    RoundMatches(t.matches, t.currentRound)
  }

  /** getNextRoundMatches. */
  function GetNextRoundMatches(t: Tournament): seq<Match>
  {
    RoundMatches(t.matches, t.currentRound + 1)
  }

  /** `every(match => match.status === 'completed')`. */
  predicate AllCompleted(ms: seq<Match>)
  {
    forall i :: 0 <= i < |ms| ==> ms[i].status == Completed
  }

  /** The series winners of `ms`, in order, skipping null winners (and matches with no series). */
  function SeriesWinners(ms: seq<Match>): seq<Player>
  {
    if ms == [] then []
    else
      var w := if ms[0].series.Some? && ms[0].series.value.winner.Some? then [ms[0].series.value.winner.value] else [];
      w + SeriesWinners(ms[1..])
  }

  /** Every listed winner won the series of some match, and every series winner is listed. */
  lemma {:induction false} SeriesWinnersSpec(ms: seq<Match>)
    ensures |SeriesWinners(ms)| <= |ms|
    ensures forall p :: p in SeriesWinners(ms) <==>
      exists i :: 0 <= i < |ms| && ms[i].series.Some? && ms[i].series.value.winner == Some(p)
  {
    if ms != [] {
      SeriesWinnersSpec(ms[1..]);
      forall p
        ensures p in SeriesWinners(ms) <==>
          exists i :: 0 <= i < |ms| && ms[i].series.Some? && ms[i].series.value.winner == Some(p)
      {
        if exists i :: 0 <= i < |ms| && ms[i].series.Some? && ms[i].series.value.winner == Some(p) {
          var i :| 0 <= i < |ms| && ms[i].series.Some? && ms[i].series.value.winner == Some(p);
          if i > 0 {
            assert ms[1..][i - 1] == ms[i];
          }
        }
        if p in SeriesWinners(ms[1..]) {
          var i :| 0 <= i < |ms[1..]| && ms[1..][i].series.Some? && ms[1..][i].series.value.winner == Some(p);
          assert ms[i + 1] == ms[1..][i];
        }
      }
    }
  }

  /** A bye: already completed, the player against itself, a won series with no games. */
  function ByeMatch(tid: string, round: int, p: Player, seriesLength: SeriesLength, now: int): Match
  {
    Match(ByeSlot(tid, round), round, p, p, Some(SeriesResult(p, p, [], Some(p), seriesLength, now)), Completed)
  }

  /** The next round built from the winners: consecutive pairs, then a bye for an odd last winner. */
  function NewRoundMatches(tid: string, round: int, winners: seq<Player>, seriesLength: SeriesLength, now: int): seq<Match>
  {
    PairMatches(tid, round, winners, |winners| / 2)
      + if |winners| % 2 == 1 then [ByeMatch(tid, round, winners[|winners| - 1], seriesLength, now)] else []
  }

  /**
   * What advanceToNextRound returns: the tournament itself while a match of the
   * current round is open; completed with the winner when the round yields exactly
   * one series winner; otherwise the next round appended and made current.
   */
  function Advance(t: Tournament, now: int): Tournament
  {
    var current := GetCurrentRoundMatches(t);
    if !AllCompleted(current) then t
    else
      var winners := SeriesWinners(current);
      if |winners| == 1 then
        t.(status := Completed, winner := Some(winners[0]), completedAt := Some(now))
      else
        t.(currentRound := t.currentRound + 1,
           matches := t.matches + NewRoundMatches(t.id, t.currentRound + 1, winners, t.seriesLength, now))
  }

  /**
   * advanceToNextRound: the pairing loop walks the winners two at a time, pushing
   * a pending match per pair and a completed bye for an odd last winner.
   */
  method AdvanceToNextRound(t: Tournament, now: int) returns (r: Tournament)
    ensures r == Advance(t, now)
  {
    var currentRoundMatches := GetCurrentRoundMatches(t);
    if !AllCompleted(currentRoundMatches) {
      return t;
    }
    var winners := SeriesWinners(currentRoundMatches);
    if |winners| == 1 {
      return t.(status := Completed, winner := Some(winners[0]), completedAt := Some(now));
    }
    var nextRound := t.currentRound + 1;
    var nextRoundMatches: seq<Match> := [];
    var i := 0;
    while i < |winners|
      invariant i % 2 == 0 && (i <= |winners| || i == |winners| + 1)
      invariant nextRoundMatches ==
        if i <= |winners| then PairMatches(t.id, nextRound, winners, i / 2)
        else NewRoundMatches(t.id, nextRound, winners, t.seriesLength, now)
    {
      var player1 := winners[i];
      if i + 1 < |winners| {
        var pairMatch := Match(RoundSlot(t.id, nextRound, i / 2), nextRound, player1, winners[i + 1], None, Pending);
        assert pairMatch == PairMatch(t.id, nextRound, winners, i / 2);
        nextRoundMatches := nextRoundMatches + [pairMatch];
      } else {
        var byeMatch := Match(ByeSlot(t.id, nextRound), nextRound, player1, player1, None, Completed);
        byeMatch := byeMatch.(series := Some(SeriesResult(player1, player1, [], Some(player1), t.seriesLength, now)));
        assert i / 2 == |winners| / 2 && |winners| % 2 == 1;
        assert byeMatch == ByeMatch(t.id, nextRound, winners[|winners| - 1], t.seriesLength, now);
        nextRoundMatches := nextRoundMatches + [byeMatch];
      }
      i := i + 2;
    }
    assert nextRoundMatches == NewRoundMatches(t.id, nextRound, winners, t.seriesLength, now) by {
      if i == |winners| {
        assert |winners| % 2 == 0;
      }
    }
    r := t.(currentRound := nextRound, matches := t.matches + nextRoundMatches);
  }

  /** The matches after completeMatch's map: the match with that id gets the series and is completed. */
  function MarkCompleted(ms: seq<Match>, matchId: MatchId, series: SeriesResult): (r: seq<Match>)
  {
    seq(|ms|, k requires 0 <= k < |ms| =>
      if ms[k].id == matchId then ms[k].(series := Some(series), status := Completed) else ms[k])
  }

  /** completeMatch: record the series on the match with that id, then try to advance. */
  function CompleteMatch(t: Tournament, matchId: MatchId, series: SeriesResult, now: int): Tournament
  {
    Advance(t.(matches := MarkCompleted(t.matches, matchId, series)), now)
  }

  /** The counts of getTournamentProgress (its percentage is floating point and left out). */
  datatype Progress = Progress(totalMatches: nat, completedMatches: nat, currentRoundComplete: bool, isComplete: bool)

  function CountCompleted(ms: seq<Match>): (n: nat)
    ensures n <= |ms|
  {
    if ms == [] then 0 else (if ms[0].status == Completed then 1 else 0) + CountCompleted(ms[1..])
  }

  function GetTournamentProgress(t: Tournament): Progress
  {
    Progress(|t.matches|, CountCompleted(t.matches), AllCompleted(GetCurrentRoundMatches(t)), t.status == Completed)
  }

  // ----- properties -----

  /** Every match is counted as completed exactly when all of them are. */
  lemma {:induction false} CountCompletedSpec(ms: seq<Match>)
    ensures CountCompleted(ms) == |ms| <==> AllCompleted(ms)
  {
    if ms != [] {
      CountCompletedSpec(ms[1..]);
      if AllCompleted(ms) {
        assert AllCompleted(ms[1..]) by {
          forall i | 0 <= i < |ms[1..]| ensures ms[1..][i].status == Completed {
            assert ms[1..][i] == ms[i + 1];
          }
        }
      }
      if CountCompleted(ms) == |ms| {
        forall i | 0 <= i < |ms| ensures ms[i].status == Completed {
          if i > 0 {
            assert ms[i] == ms[1..][i - 1];
          }
        }
      }
    }
  }

  /** The progress counts: completed <= total, equal exactly when every match is done. */
  lemma ProgressSpec(t: Tournament)
    ensures GetTournamentProgress(t).completedMatches <= GetTournamentProgress(t).totalMatches == |t.matches|
    ensures GetTournamentProgress(t).completedMatches == GetTournamentProgress(t).totalMatches <==> AllCompleted(t.matches)
    ensures GetTournamentProgress(t).isComplete <==> t.status == Completed
  {
    CountCompletedSpec(t.matches);
  }

  /** The invariant the engine keeps: rounds not ahead of the current one, unique ids, completed matches have a series. */
  predicate Inv(t: Tournament)
  {
    (forall i :: 0 <= i < |t.matches| ==>
      t.matches[i].round <= t.currentRound && t.matches[i].id.round == t.matches[i].round
      && (t.matches[i].status == Completed ==> t.matches[i].series.Some?))
    && (forall i, j :: 0 <= i < j < |t.matches| ==> t.matches[i].id != t.matches[j].id)
  }

  /** A new tournament and a started one satisfy the invariant. */
  lemma CreatedAndStartedInv(t: Tournament, s: seq<Player>)
    requires t.matches == []
    ensures Inv(t)
    ensures Inv(t.(status := InProgress, matches := PairMatches(t.id, 1, s, |s| / 2), currentRound := 1))
  {
    PairMatchesSpec(t.id, 1, s, |s| / 2);
  }

  /** The bracket holds floor(n/2) round-1 pending matches with no series; match k plays positions 2k and 2k+1. */
  lemma BracketShape(t: Tournament, s: seq<Player>)
    requires multiset(s) == multiset(t.players)
    ensures |s| == |t.players| && |PairMatches(t.id, 1, s, |s| / 2)| == |t.players| / 2
    ensures forall k :: 0 <= k < |s| / 2 ==>
      var m := PairMatches(t.id, 1, s, |s| / 2)[k];
      m.round == 1 && m.status == Pending && m.series == None && m.player1 == s[2 * k] && m.player2 == s[2 * k + 1]
  {
    assert |s| == |multiset(s)| == |t.players|;
    PairMatchesSpec(t.id, 1, s, |s| / 2);
  }

  /** With an odd number of distinct players, the last shuffled one plays in no round-1 match. */
  lemma ByePlayerDropped(tid: string, s: seq<Player>)
    requires |s| % 2 == 1
    requires forall i, j :: 0 <= i < j < |s| ==> s[i] != s[j]
    ensures forall m :: m in PairMatches(tid, 1, s, |s| / 2) ==>
      m.player1 != s[|s| - 1] && m.player2 != s[|s| - 1]
  {
    PairMatchesSpec(tid, 1, s, |s| / 2);
  }

  /** While a match of the current round is not completed, advancing changes nothing. */
  lemma AdvanceBlocked(t: Tournament, now: int)
    requires exists i :: 0 <= i < |t.matches| && t.matches[i].round == t.currentRound && t.matches[i].status != Completed
    ensures Advance(t, now) == t
  {
    var i :| 0 <= i < |t.matches| && t.matches[i].round == t.currentRound && t.matches[i].status != Completed;
    RoundMatchesSpec(t.matches, t.currentRound);
    var m := t.matches[i];
    assert m in GetCurrentRoundMatches(t);
  }

  /** Exactly one series winner in a finished round completes the tournament; nothing else changes. */
  lemma AdvanceCompletes(t: Tournament, now: int)
    requires AllCompleted(GetCurrentRoundMatches(t))
    requires |SeriesWinners(GetCurrentRoundMatches(t))| == 1
    ensures Advance(t, now) == t.(status := Completed, winner := Some(SeriesWinners(GetCurrentRoundMatches(t))[0]),
                                  completedAt := Some(now))
    ensures Advance(t, now).matches == t.matches && Advance(t, now).currentRound == t.currentRound
  {
  }

  /**
   * The next round's matches: one pending match per pair of consecutive winners,
   * then a completed bye for an odd last winner; all of round `round`, with distinct ids.
   */
  lemma NewRoundMatchesSpec(tid: string, round: int, w: seq<Player>, seriesLength: SeriesLength, now: int)
    ensures |NewRoundMatches(tid, round, w, seriesLength, now)| == (|w| + 1) / 2
    ensures forall k :: 0 <= k < |w| / 2 ==>
      var m := NewRoundMatches(tid, round, w, seriesLength, now)[k];
      m.status == Pending && m.series == None && m.player1 == w[2 * k] && m.player2 == w[2 * k + 1]
    ensures |w| % 2 == 1 ==>
      var m := NewRoundMatches(tid, round, w, seriesLength, now)[|w| / 2];
      m.status == Completed && m.player1 == w[|w| - 1] && m.player2 == m.player1
      && m.series.Some? && m.series.value.winner == Some(m.player1) && m.series.value.games == []
    ensures forall i :: 0 <= i < |NewRoundMatches(tid, round, w, seriesLength, now)| ==>
      var m := NewRoundMatches(tid, round, w, seriesLength, now)[i];
      m.round == round && m.id.round == round && (m.status == Completed ==> m.series.Some?)
    ensures forall i, j :: 0 <= i < j < |NewRoundMatches(tid, round, w, seriesLength, now)| ==>
      NewRoundMatches(tid, round, w, seriesLength, now)[i].id != NewRoundMatches(tid, round, w, seriesLength, now)[j].id
  {
    PairMatchesSpec(tid, round, w, |w| / 2);
  }

  /**
   * Otherwise the old matches stay a prefix, the next round's matches (as
   * NewRoundMatchesSpec describes them) are appended, and the round number goes up by one.
   */
  lemma AdvancePairsWinners(t: Tournament, now: int)
    requires AllCompleted(GetCurrentRoundMatches(t))
    requires |SeriesWinners(GetCurrentRoundMatches(t))| != 1
    ensures Advance(t, now).currentRound == t.currentRound + 1
    ensures Advance(t, now).status == t.status && Advance(t, now).winner == t.winner
    ensures Advance(t, now).matches[..|t.matches|] == t.matches
    ensures Advance(t, now).matches[|t.matches|..]
      == NewRoundMatches(t.id, t.currentRound + 1, SeriesWinners(GetCurrentRoundMatches(t)), t.seriesLength, now)
  {
    var r := Advance(t, now);
    var added := NewRoundMatches(t.id, t.currentRound + 1, SeriesWinners(GetCurrentRoundMatches(t)), t.seriesLength, now);
    assert r.matches == t.matches + added;
  }

  /** Under the invariant, once a round is added it is exactly the current round's matches. */
  lemma AdvanceOpensRound(t: Tournament, now: int)
    requires Inv(t)
    requires AllCompleted(GetCurrentRoundMatches(t))
    requires |SeriesWinners(GetCurrentRoundMatches(t))| != 1
    ensures GetCurrentRoundMatches(Advance(t, now))
      == NewRoundMatches(t.id, t.currentRound + 1, SeriesWinners(GetCurrentRoundMatches(t)), t.seriesLength, now)
  {
    var round := t.currentRound + 1;
    var added := NewRoundMatches(t.id, round, SeriesWinners(GetCurrentRoundMatches(t)), t.seriesLength, now);
    NewRoundMatchesSpec(t.id, round, SeriesWinners(GetCurrentRoundMatches(t)), t.seriesLength, now);
    assert Advance(t, now).matches == t.matches + added && Advance(t, now).currentRound == round;
    RoundMatchesAppend(t.matches, added, round);
    RoundMatchesNone(t.matches, round);
    RoundMatchesAll(added, round);
  }

  /** With unique ids, completeMatch changes exactly one match: the one at the id's position. */
  lemma CompleteMatchTouchesOne(t: Tournament, k: nat, series: SeriesResult)
    requires Inv(t)
    requires k < |t.matches|
    ensures MarkCompleted(t.matches, t.matches[k].id, series)
      == t.matches[k := t.matches[k].(series := Some(series), status := Completed)]
  {
  }

  /** Advancing keeps the invariant. */
  lemma AdvanceInv(t: Tournament, now: int)
    requires Inv(t)
    ensures Inv(Advance(t, now))
  {
    var current := GetCurrentRoundMatches(t);
    if AllCompleted(current) {
      var w := SeriesWinners(current);
      if |w| != 1 {
        var added := NewRoundMatches(t.id, t.currentRound + 1, w, t.seriesLength, now);
        NewRoundMatchesSpec(t.id, t.currentRound + 1, w, t.seriesLength, now);
        AppendRoundInv(t, added);
        assert Advance(t, now) == t.(currentRound := t.currentRound + 1, matches := t.matches + added);
      } else {
        assert Advance(t, now).matches == t.matches && Advance(t, now).currentRound == t.currentRound;
      }
    } else {
      assert Advance(t, now) == t;
    }
  }

  /** Appending a next round whose matches carry its number and distinct ids keeps the invariant. */
  lemma AppendRoundInv(t: Tournament, added: seq<Match>)
    requires Inv(t)
    requires forall i :: 0 <= i < |added| ==>
      added[i].round == t.currentRound + 1 && added[i].id.round == t.currentRound + 1
      && (added[i].status == Completed ==> added[i].series.Some?)
    requires forall i, j :: 0 <= i < j < |added| ==> added[i].id != added[j].id
    ensures Inv(t.(currentRound := t.currentRound + 1, matches := t.matches + added))
  {
    var ms := t.matches + added;
    forall i, j | 0 <= i < j < |ms|
      ensures ms[i].id != ms[j].id
    {
      if j >= |t.matches| && i < |t.matches| {
        assert ms[i].id.round <= t.currentRound;
        assert ms[j] == added[j - |t.matches|];
      }
    }
  }

  /** completeMatch keeps the invariant. */
  lemma CompleteMatchInv(t: Tournament, matchId: MatchId, series: SeriesResult, now: int)
    requires Inv(t)
    ensures Inv(CompleteMatch(t, matchId, series, now))
  {
    var u := t.(matches := MarkCompleted(t.matches, matchId, series));
    assert Inv(u);
    AdvanceInv(u, now);
  }

  /**
   * A three-player tournament: its bracket is a single match (the third player is
   * dropped), and completing that match with a series winner completes the tournament.
   */
  lemma ThreePlayerTournamentCompletes(t: Tournament, s: seq<Player>, series: SeriesResult, now: int)
    requires |s| == 3
    requires t.currentRound == 1 && t.matches == PairMatches(t.id, 1, s, |s| / 2)
    requires series.winner.Some?
    ensures |t.matches| == 1
    ensures var r := CompleteMatch(t, RoundSlot(t.id, 1, 0), series, now);
      r.status == Completed && r.winner == series.winner && r.completedAt == Some(now)
  {
    var m := PairMatch(t.id, 1, s, 0);
    assert t.matches == [m];
    var ms := MarkCompleted(t.matches, RoundSlot(t.id, 1, 0), series);
    var m' := m.(series := Some(series), status := Completed);
    assert ms == [m'];
    assert RoundMatches(ms, 1) == [m'];
    assert SeriesWinners(ms) == [series.winner.value];
  }
}
