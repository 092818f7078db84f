/**
 * The board engine (src/utils/gameLogic.ts): win and draw classification over the
 * eight fixed lines, the list of empty cells, a random move, and a full-depth
 * minimax search that writes into the shared board array and restores it.
 *
 * The functions that the search unfolds (CheckWinner, CheckDraw, GetEmptyCells)
 * carry no quantified contracts; what they mean is stated by the lemmas beside them.
 */
module GameLogic {
  import opened Wrappers
  import opened Types

  /** A winning combination: three board indices. */
  datatype Line = Line(a: Index, b: Index, c: Index)

  /** The eight lines, in the order the scan visits them. */
  const WinningCombinations: seq<Line> := [
    Line(0, 1, 2), Line(3, 4, 5), Line(6, 7, 8),
    Line(0, 3, 6), Line(1, 4, 7), Line(2, 5, 8),
    Line(0, 4, 8), Line(2, 4, 6)]

  /** The three cells of `l` hold the same mark. */
  predicate Complete(b: Board, l: Line)
  {
    b[l.a].Some? && b[l.a] == b[l.b] && b[l.a] == b[l.c]
  }

  /** No combination in `[from, to)` is complete. */
  predicate NoneCompleteIn(b: Board, from: nat, to: nat)
    requires to <= |WinningCombinations|
  {
    forall j :: from <= j < to ==> !Complete(b, WinningCombinations[j])
  }

  /** The scan of checkWinner from combination `k` on: the first complete one, or 8. */
  function FirstCompleteFrom(b: Board, k: nat): (r: nat)
    requires k <= |WinningCombinations|
    ensures k <= r <= |WinningCombinations|
    decreases |WinningCombinations| - k, b
  {
    if k == |WinningCombinations| then k
    else if Complete(b, WinningCombinations[k]) then k
    else FirstCompleteFrom(b, k + 1)
  }

  lemma {:induction false} FirstCompleteFromSpec(b: Board, k: nat)
    requires k <= |WinningCombinations|
    ensures var r := FirstCompleteFrom(b, k);
      (r < |WinningCombinations| ==> Complete(b, WinningCombinations[r]))
      && NoneCompleteIn(b, k, r)
    decreases |WinningCombinations| - k
  {
    if k < |WinningCombinations| && !Complete(b, WinningCombinations[k]) {
      FirstCompleteFromSpec(b, k + 1);
    }
  }

  /** checkWinner: the mark of the first complete combination, or null. */
  function CheckWinner(b: Board): Option<Side>
  {
    var k := FirstCompleteFrom(b, 0);
    if k < |WinningCombinations| then b[WinningCombinations[k].a] else None
  }

  /**
   * checkWinner returns null exactly when no combination is complete, and otherwise
   * the mark of the first complete combination in declaration order.
   */
  lemma CheckWinnerSpec(b: Board)
    ensures CheckWinner(b).None? <==> NoneCompleteIn(b, 0, |WinningCombinations|)
    ensures CheckWinner(b).Some? ==>
      exists j :: 0 <= j < |WinningCombinations| && Complete(b, WinningCombinations[j])
        && CheckWinner(b) == b[WinningCombinations[j].a] && NoneCompleteIn(b, 0, j)
  {
    FirstCompleteFromSpec(b, 0);
  }

  /** `every(cell => cell !== null)` from index `k` on. */
  function FilledFrom(b: Board, k: nat): bool
    requires k <= 9
    decreases |b| - k
  {
    k == 9 || (b[k].Some? && FilledFrom(b, k + 1))
  }

  /** Every cell holds a mark. */
  predicate Full(b: Board)
  {
    forall i: Index :: b[i].Some?
  }

  lemma {:induction false} FilledFromSpec(b: Board, k: nat)
    requires k <= 9
    ensures FilledFrom(b, k) <==> forall i: Index :: k <= i ==> b[i].Some?
    decreases 9 - k
  {
    if k < 9 {
      FilledFromSpec(b, k + 1);
    }
  }

  /** checkDraw: every cell is taken and nobody has won. */
  function CheckDraw(b: Board): bool
  {
    FilledFrom(b, 0) && CheckWinner(b).None?
  }

  /** checkDraw holds exactly for a full board with no complete combination. */
  lemma CheckDrawSpec(b: Board)
    ensures CheckDraw(b) <==> Full(b) && NoneCompleteIn(b, 0, |WinningCombinations|)
  {
    CheckWinnerSpec(b);
    FilledFromSpec(b, 0);
  }

  /** A board with a winner is never a draw. */
  lemma WinnerIsNeverDraw(b: Board)
    ensures CheckWinner(b).Some? ==> !CheckDraw(b)
  {
  }

  /** getWinningLine (as in MatchGame.tsx and Game.tsx): the cells of the first complete combination, or []. */
  function GetWinningLine(b: Board): (r: seq<Index>)
  {
    var k := FirstCompleteFrom(b, 0);
    if k < |WinningCombinations| then
      var l := WinningCombinations[k];
      [l.a, l.b, l.c]
    else
      []
  }

  /**
   * The winning line is empty exactly when there is no winner; otherwise it is the
   * first complete combination and all three of its cells carry the winner's mark.
   */
  lemma WinningLineSpec(b: Board)
    ensures GetWinningLine(b) == [] <==> CheckWinner(b).None?
    ensures var r := GetWinningLine(b);
      r != [] ==>
        |r| == 3 && b[r[0]] == CheckWinner(b) && b[r[1]] == CheckWinner(b) && b[r[2]] == CheckWinner(b)
        && (exists j :: 0 <= j < |WinningCombinations| && NoneCompleteIn(b, 0, j)
              && r == [WinningCombinations[j].a, WinningCombinations[j].b, WinningCombinations[j].c])
  {
    FirstCompleteFromSpec(b, 0);
  }

  /** The reduce of getEmptyCells from index `k` on. */
  function EmptyCellsFrom(b: Board, k: nat): (r: seq<Index>)
    requires k <= 9
    ensures |r| <= 9 - k
    decreases |b| - k
  {
    if k == 9 then []
    else if b[k].None? then [k as Index] + EmptyCellsFrom(b, k + 1)
    else EmptyCellsFrom(b, k + 1)
  }

  /** getEmptyCells: the indices whose cell is null, in ascending order. */
  function GetEmptyCells(b: Board): (r: seq<Index>)
    ensures |r| <= 9
  {
    EmptyCellsFrom(b, 0)
  }

  /** Every entry of the reduce from `k` is an empty index at or after `k`, in ascending order. */
  lemma {:induction false} EmptyCellsFromSound(b: Board, k: nat)
    requires k <= 9
    ensures forall i :: 0 <= i < |EmptyCellsFrom(b, k)| ==>
      k <= EmptyCellsFrom(b, k)[i] && b[EmptyCellsFrom(b, k)[i]].None?
    ensures forall i, j :: 0 <= i < j < |EmptyCellsFrom(b, k)| ==> EmptyCellsFrom(b, k)[i] < EmptyCellsFrom(b, k)[j]
    decreases 9 - k
  {
    if k < 9 {
      EmptyCellsFromSound(b, k + 1);
      var rest := EmptyCellsFrom(b, k + 1);
      if b[k].None? {
        var r := [k as Index] + rest;
        assert EmptyCellsFrom(b, k) == r;
        assert forall i :: 1 <= i < |r| ==> r[i] == rest[i - 1];
      } else {
        assert EmptyCellsFrom(b, k) == rest;
      }
    }
  }

  /** Every empty index at or after `k` is an entry of the reduce from `k`. */
  lemma {:induction false} EmptyCellsFromComplete(b: Board, k: nat)
    requires k <= 9
    ensures forall c: Index :: k <= c && b[c].None? ==> c in EmptyCellsFrom(b, k)
    decreases 9 - k
  {
    if k < 9 {
      EmptyCellsFromComplete(b, k + 1);
      var rest := EmptyCellsFrom(b, k + 1);
      if b[k].None? {
        var r := [k as Index] + rest;
        assert EmptyCellsFrom(b, k) == r;
        forall c: Index | k <= c && b[c].None?
          ensures c in r
        {
          if c == k {
            assert r[0] == c;
          } else {
            assert c in rest;
          }
        }
      }
    }
  }

  /** getEmptyCells lists exactly the empty indices, in ascending order. */
  lemma EmptyCellsSpec(b: Board)
    ensures forall i :: 0 <= i < |GetEmptyCells(b)| ==> b[GetEmptyCells(b)[i]].None?
    ensures forall i, j :: 0 <= i < j < |GetEmptyCells(b)| ==> GetEmptyCells(b)[i] < GetEmptyCells(b)[j]
    ensures forall c: Index :: b[c].None? <==> c in GetEmptyCells(b)
  {
    EmptyCellsFromSound(b, 0);
    EmptyCellsFromComplete(b, 0);
  }

  /** One entry of the list, without the quantifiers of EmptyCellsSpec. */
  lemma EmptyCellIsEmpty(b: Board, i: nat)
    requires i < |GetEmptyCells(b)|
    ensures b[GetEmptyCells(b)[i]].None?
  {
    EmptyCellsSpec(b);
  }

  /**
   * makeRandomMove: the random index into the empty cells is a free choice.
   * With no empty cell the source indexes an empty list (undefined): None here.
   */
  method MakeRandomMove(b: Board) returns (r: Option<Index>)
    ensures r.Some? <==> exists c: Index :: b[c].None?
    ensures r.Some? ==> b[r.value].None? && r.value in GetEmptyCells(b)
  {
    var emptyCells := GetEmptyCells(b);
    EmptyCellsSpec(b);
    if |emptyCells| == 0 {
      r := None;
    } else {
      var k :| 0 <= k < |emptyCells|;
      r := Some(emptyCells[k]);
    }
  }

  /** `Array(9).fill(null)`. */
  const EmptyBoard: Board := [None, None, None, None, None, None, None, None, None]

  /** The number of cells from index `k` on that hold `c`. */
  function CountFrom(b: Board, c: Cell, k: nat): (n: nat)
    requires k <= 9
    ensures n <= 9 - k
    decreases |b| - k
  {
    if k == 9 then 0 else (if b[k] == c then 1 else 0) + CountFrom(b, c, k + 1)
  }

  /** The number of cells holding `c`. */
  function Count(b: Board, c: Cell): nat
  {
    CountFrom(b, c, 0)
  }

  /** `board.filter(cell => cell !== null).length`: the marks on the board. */
  function Moves(b: Board): nat
  {
    Count(b, Some(X)) + Count(b, Some(O))
  }

  lemma {:induction false} CountFromMark(b: Board, i: Index, s: Side, k: nat)
    requires b[i].None? && k <= 9
    ensures CountFrom(b[i := Some(s)], Some(s), k) == CountFrom(b, Some(s), k) + (if k <= i then 1 else 0)
    ensures CountFrom(b[i := Some(s)], Some(Other(s)), k) == CountFrom(b, Some(Other(s)), k)
    decreases 9 - k
  {
    if k < 9 {
      CountFromMark(b, i, s, k + 1);
    }
  }

  /** Marking an empty cell with `s` adds one mark of `s` and leaves the other side's count alone. */
  lemma CountMark(b: Board, i: Index, s: Side)
    requires b[i].None?
    ensures Count(b[i := Some(s)], Some(s)) == Count(b, Some(s)) + 1
    ensures Count(b[i := Some(s)], Some(Other(s))) == Count(b, Some(Other(s)))
  {
    CountFromMark(b, i, s, 0);
  }

  lemma {:induction false} CountFromEmptyCells(b: Board, k: nat)
    requires k <= 9
    ensures CountFrom(b, Some(X), k) + CountFrom(b, Some(O), k) + |EmptyCellsFrom(b, k)| == 9 - k
    decreases 9 - k
  {
    if k < 9 {
      CountFromEmptyCells(b, k + 1);
      assert b[k] == None || b[k] == Some(X) || b[k] == Some(O) by {
        if b[k].Some? {
          match b[k].value
          case X =>
          case O =>
        }
      }
    }
  }

  /** Every cell is either marked or listed as empty. */
  lemma MovesSpec(b: Board)
    ensures Moves(b) + |GetEmptyCells(b)| == 9
  {
    CountFromEmptyCells(b, 0);
  }

  lemma {:induction false} CountFromEmptyBoard(s: Side, k: nat)
    requires k <= 9
    ensures CountFrom(EmptyBoard, Some(s), k) == 0
    decreases 9 - k
  {
    if k < 9 {
      CountFromEmptyBoard(s, k + 1);
    }
  }

  /** The empty board has no marks, no winner and no draw. */
  lemma EmptyBoardSpec()
    ensures Count(EmptyBoard, Some(X)) == 0 && Count(EmptyBoard, Some(O)) == 0
    ensures CheckWinner(EmptyBoard).None? && !CheckDraw(EmptyBoard) && GetWinningLine(EmptyBoard) == []
  {
    CountFromEmptyBoard(X, 0);
    CountFromEmptyBoard(O, 0);
  }

  /** Marking an empty cell removes exactly one entry from the list of empty cells: the search measure. */
  lemma {:induction false} EmptyCellsFromShrinks(b: Board, c: Index, s: Side, k: nat)
    requires b[c].None? && k <= 9
    ensures |EmptyCellsFrom(b[c := Some(s)], k)| == |EmptyCellsFrom(b, k)| - (if k <= c then 1 else 0)
    decreases 9 - k
  {
    if k < 9 {
      EmptyCellsFromShrinks(b, c, s, k + 1);
    }
  }

  lemma EmptyCellsShrink(b: Board, c: Index, s: Side)
    requires b[c].None?
    ensures |GetEmptyCells(b[c := Some(s)])| == |GetEmptyCells(b)| - 1
  {
    EmptyCellsFromShrinks(b, c, s, 0);
  }

  /** A board that is neither won nor drawn has an empty cell. */
  lemma NotTerminalHasEmpty(b: Board)
    requires CheckWinner(b).None? && !CheckDraw(b)
    ensures GetEmptyCells(b) != []
  {
    FilledFromSpec(b, 0);
    var i: Index :| b[i].None?;
    EmptyCellsSpec(b);
    assert i in GetEmptyCells(b);
  }

  /** With two distinct sides given, any winner is one of them. */
  lemma WinnerIsPlayerOrOpponent(b: Board, player: Side, opponent: Side)
    requires player != opponent
    requires CheckWinner(b) != Some(player) && CheckWinner(b) != Some(opponent)
    ensures CheckWinner(b).None?
  {
    if CheckWinner(b).Some? {
      match CheckWinner(b).value
      case X =>
      case O =>
    }
  }

  function Max(a: int, b: int): int { if a >= b then a else b }

  function Min(a: int, b: int): int { if a <= b then a else b }

  /**
   * The value minimax computes: `10 - depth` for a win of `player`, `depth - 10` for a
   * win of `opponent`, 0 for a draw, else the maximum (or minimum) over the children.
   */
  function Score(b: Board, depth: int, isMaximizing: bool, player: Side, opponent: Side): int
    requires player != opponent
    decreases |GetEmptyCells(b)|, 2
  {
    var winner := CheckWinner(b);
    if winner == Some(player) then 10 - depth
    else if winner == Some(opponent) then depth - 10
    else if CheckDraw(b) then 0
    else
      WinnerIsPlayerOrOpponent(b, player, opponent);
      NotTerminalHasEmpty(b);
      Extremum(b, |GetEmptyCells(b)|, depth, isMaximizing, player, opponent)
  }

  /** The score of the search's `i`-th child: the `i`-th empty cell marked by the side to move. */
  function ChildScore(b: Board, i: nat, depth: int, isMaximizing: bool, player: Side, opponent: Side): int
    requires player != opponent
    requires i < |GetEmptyCells(b)|
    decreases |GetEmptyCells(b)|, 0
  {
    var c := GetEmptyCells(b)[i];
    var mark := if isMaximizing then player else opponent;
    EmptyCellIsEmpty(b, i);
    EmptyCellsShrink(b, c, mark);
    Score(b[c := Some(mark)], depth + 1, !isMaximizing, player, opponent)
  }

  /**
   * The running maximum (or minimum) of the search loop after its first `n` children.
   * The source seeds it with -Infinity (+Infinity), which the first child replaces.
   */
  function Extremum(b: Board, n: nat, depth: int, isMaximizing: bool, player: Side, opponent: Side): int
    requires player != opponent
    requires 1 <= n <= |GetEmptyCells(b)|
    decreases |GetEmptyCells(b)|, 1, n
  {
    var s := ChildScore(b, n - 1, depth, isMaximizing, player, opponent);
    if n == 1 then s
    else if isMaximizing then Max(s, Extremum(b, n - 1, depth, isMaximizing, player, opponent))
    else Min(s, Extremum(b, n - 1, depth, isMaximizing, player, opponent))
  }

  /**
   * The score lies between `depth - 10` and `10 - depth`, and strictly inside (by one)
   * when the board is neither won nor drawn.
   */
  lemma {:induction false} ScoreBounds(b: Board, depth: int, isMaximizing: bool, player: Side, opponent: Side)
    requires player != opponent
    requires depth + |GetEmptyCells(b)| <= 10
    ensures depth - 10 <= Score(b, depth, isMaximizing, player, opponent) <= 10 - depth
    ensures CheckWinner(b).None? && !CheckDraw(b) ==>
      depth - 9 <= Score(b, depth, isMaximizing, player, opponent) <= 9 - depth
    decreases |GetEmptyCells(b)|, 2
  {
    var winner := CheckWinner(b);
    if winner != Some(player) && winner != Some(opponent) && !CheckDraw(b) {
      WinnerIsPlayerOrOpponent(b, player, opponent);
      NotTerminalHasEmpty(b);
      ExtremumBounds(b, |GetEmptyCells(b)|, depth, isMaximizing, player, opponent);
    }
  }

  lemma {:induction false} ExtremumBounds(b: Board, n: nat, depth: int, isMaximizing: bool, player: Side, opponent: Side)
    requires player != opponent
    requires 1 <= n <= |GetEmptyCells(b)|
    requires depth + |GetEmptyCells(b)| <= 10
    ensures depth - 9 <= Extremum(b, n, depth, isMaximizing, player, opponent) <= 9 - depth
    decreases |GetEmptyCells(b)|, 1, n
  {
    ChildBounds(b, n - 1, depth, isMaximizing, player, opponent);
    if n > 1 {
      ExtremumBounds(b, n - 1, depth, isMaximizing, player, opponent);
    }
  }

  lemma {:induction false} ChildBounds(b: Board, i: nat, depth: int, isMaximizing: bool, player: Side, opponent: Side)
    requires player != opponent
    requires i < |GetEmptyCells(b)|
    requires depth + |GetEmptyCells(b)| <= 10
    ensures depth - 9 <= ChildScore(b, i, depth, isMaximizing, player, opponent) <= 9 - depth
    decreases |GetEmptyCells(b)|, 0
  {
    var c := GetEmptyCells(b)[i];
    var mark := if isMaximizing then player else opponent;
    EmptyCellIsEmpty(b, i);
    EmptyCellsShrink(b, c, mark);
    ScoreBounds(b[c := Some(mark)], depth + 1, !isMaximizing, player, opponent);
  }

  /**
   * minimax: writes each empty cell, recurses, and writes it back to null. The
   * board is unchanged on return and the result is the value Score defines.
   */
  method Minimax(board: array<Cell>, depth: int, isMaximizing: bool, player: Side, opponent: Side) returns (score: int)
    requires board.Length == 9 && player != opponent
    modifies board
    ensures board[..] == old(board[..])
    ensures score == Score(old(board[..]), depth, isMaximizing, player, opponent)
    decreases |GetEmptyCells(board[..])|
  {
    var b: Board := board[..];
    var winner := CheckWinner(b);
    if winner == Some(player) {
      return 10 - depth;
    }
    if winner == Some(opponent) {
      return depth - 10;
    }
    if CheckDraw(b) {
      return 0;
    }
    WinnerIsPlayerOrOpponent(b, player, opponent);
    NotTerminalHasEmpty(b);
    var cells := GetEmptyCells(b);
    var mark := if isMaximizing then player else opponent;
    score := 0;
    // `score` holds -Infinity (maximizing) or +Infinity (minimizing) while i == 0;
    // Math.max/Math.min with that sentinel yields the first child's score.
    var i := 0;
    while i < |cells|
      invariant 0 <= i <= |cells|
      invariant board[..] == b
      invariant 0 < i ==> score == Extremum(b, i, depth, isMaximizing, player, opponent)
    {
      var index := cells[i];
      EmptyCellIsEmpty(b, i);
      EmptyCellsShrink(b, index, mark);
      board[index] := Some(mark);
      assert board[..] == b[index := Some(mark)];
      var s := Minimax(board, depth + 1, !isMaximizing, player, opponent);
      board[index] := None;
      assert board[..] == b;
      score := if i == 0 then s else if isMaximizing then Max(s, score) else Min(s, score);
      i := i + 1;
    }
  }

  /** The outcome of the selection loop of getBestMove after some prefix of the empty cells. */
  datatype Choice = NoMove | Move(index: Index, score: int)

  /** The score getBestMove gives to playing `c`: minimax at depth 0 with the opponent to move. */
  function MoveScore(b: Board, c: Index, player: Side): int
  {
    Score(b[c := Some(player)], 0, false, player, Other(player))
  }

  /** The score of every candidate cell, in the order the loop visits them. */
  function MoveScores(b: Board, cells: seq<Index>, player: Side): (r: seq<int>)
    ensures |r| == |cells|
  {
    seq(|cells|, k requires 0 <= k < |cells| => MoveScore(b, cells[k], player))
  }

  /**
   * The selection over the first `n` candidates: a later cell replaces the best
   * only with a strictly greater score.
   */
  function ChooseAmong(cells: seq<Index>, scores: seq<int>, n: nat): Choice
    requires n <= |cells| == |scores|
  {
    if n == 0 then NoMove
    else
      var prev := ChooseAmong(cells, scores, n - 1);
      if prev.NoMove? || scores[n - 1] > prev.score then Move(cells[n - 1], scores[n - 1]) else prev
  }

  /** The move getBestMove returns: -1 when there is no empty cell. */
  function BestMove(b: Board, player: Side): int
  {
    var cells := GetEmptyCells(b);
    match ChooseAmong(cells, MoveScores(b, cells, player), |cells|)
    case NoMove => -1
    case Move(i, _) => i
  }

  /**
   * getBestMove: tries every empty cell in ascending order, scores it with minimax
   * and keeps the first strictly greatest; the board is restored.
   */
  method GetBestMove(board: array<Cell>, player: Side) returns (bestMove: int)
    requires board.Length == 9
    modifies board
    ensures board[..] == old(board[..])
    ensures bestMove == BestMove(old(board[..]), player)
  {
    var opponent := Other(player);
    var b: Board := board[..];
    var cells := GetEmptyCells(b);
    ghost var scores := MoveScores(b, cells, player);
    // The source starts from bestScore = -Infinity; here bestMove == -1 marks that state.
    var bestScore := 0;
    bestMove := -1;
    var i := 0;
    while i < |cells|
      invariant 0 <= i <= |cells|
      invariant board[..] == b
      invariant -1 <= bestMove < 9
      invariant ChooseAmong(cells, scores, i) == if bestMove == -1 then NoMove else Move(bestMove, bestScore)
    {
      var index := cells[i];
      EmptyCellIsEmpty(b, i);
      board[index] := Some(player);
      assert board[..] == b[index := Some(player)];
      var score := Minimax(board, 0, false, player, opponent);
      board[index] := None;
      assert board[..] == b;
      assert score == scores[i];
      if bestMove == -1 || score > bestScore {
        bestScore := score;
        bestMove := index;
      }
      i := i + 1;
    }
  }

  lemma {:induction false} ChooseAmongSpec(cells: seq<Index>, scores: seq<int>, n: nat)
    requires n <= |cells| == |scores|
    ensures ChooseAmong(cells, scores, n).NoMove? <==> n == 0
    ensures var ch := ChooseAmong(cells, scores, n);
      ch.Move? ==>
        exists k :: 0 <= k < n && cells[k] == ch.index && scores[k] == ch.score
          && (forall j :: 0 <= j < n ==> scores[j] <= ch.score)
          && (forall j :: 0 <= j < k ==> scores[j] < ch.score)
  {
    if n > 0 {
      ChooseAmongSpec(cells, scores, n - 1);
    }
  }

  /** In an increasing list of cells, a smaller cell comes earlier. */
  lemma EarlierCellFirst(cells: seq<Index>, j: int, k: int)
    requires forall i, i' :: 0 <= i < i' < |cells| ==> cells[i] < cells[i']
    requires 0 <= j < |cells| && 0 <= k < |cells| && cells[j] < cells[k]
    ensures j < k
  {
  }

  /**
   * getBestMove returns -1 exactly when no cell is empty; otherwise an empty cell
   * whose score is maximal, and the lowest such cell.
   */
  lemma BestMoveSpec(b: Board, player: Side)
    ensures BestMove(b, player) == -1 <==> forall c: Index :: b[c].Some?
    ensures BestMove(b, player) != -1 ==>
      var m := BestMove(b, player);
      0 <= m < 9 && b[m].None?
      && (forall c: Index :: b[c].None? ==> MoveScore(b, c, player) <= MoveScore(b, m, player))
      && (forall c: Index :: c < m && b[c].None? ==> MoveScore(b, c, player) < MoveScore(b, m, player))
  {
    var cells := GetEmptyCells(b);
    var scores := MoveScores(b, cells, player);
    EmptyCellsSpec(b);
    ChooseAmongSpec(cells, scores, |cells|);
    var ch := ChooseAmong(cells, scores, |cells|);
    if ch.Move? {
      var k :| 0 <= k < |cells| && cells[k] == ch.index && scores[k] == ch.score
          && (forall j :: 0 <= j < |cells| ==> scores[j] <= ch.score)
          && (forall j :: 0 <= j < k ==> scores[j] < ch.score);
      forall c: Index | b[c].None?
        ensures MoveScore(b, c, player) <= ch.score
        ensures c < ch.index ==> MoveScore(b, c, player) < ch.score
      {
        var j :| 0 <= j < |cells| && cells[j] == c;
        assert scores[j] == MoveScore(b, c, player);
        if c < ch.index {
          EarlierCellFirst(cells, j, k);
        }
      }
    } else {
      assert cells == [];
    }
  }

  /** Playing `c` wins at once for `player`. */
  predicate WinsAt(b: Board, c: Index, player: Side)
  {
    b[c].None? && CheckWinner(b[c := Some(player)]) == Some(player)
  }

  /** An immediately winning move scores 10; any other move on an empty cell at most 9. */
  lemma MoveScoreBounds(b: Board, c: Index, player: Side)
    requires b[c].None?
    ensures MoveScore(b, c, player) <= 10
    ensures WinsAt(b, c, player) ==> MoveScore(b, c, player) == 10
    ensures !WinsAt(b, c, player) ==> MoveScore(b, c, player) <= 9
  {
    var b' := b[c := Some(player)];
    EmptyCellsShrink(b, c, player);
    ScoreBounds(b', 0, false, player, Other(player));
    if CheckWinner(b') != Some(player) && CheckWinner(b') != Some(Other(player)) {
      WinnerIsPlayerOrOpponent(b', player, Other(player));
    }
  }

  /** When `player` can win at once, getBestMove picks the lowest immediately winning cell. */
  lemma ImmediateWinChosen(b: Board, player: Side, w: Index)
    requires WinsAt(b, w, player)
    requires forall c: Index :: c < w ==> !WinsAt(b, c, player)
    ensures BestMove(b, player) == w
  {
    BestMoveSpec(b, player);
    var m := BestMove(b, player);
    MoveScoreBounds(b, w, player);
    MoveScoreBounds(b, m, player);
    assert MoveScore(b, w, player) <= MoveScore(b, m, player);
  }
}
