/** The `ChessAI` object: its difficulty setting and `getBestMove`, the root
    of the alpha-beta search. */
module ChessAi {
  import opened Squares
  import opened Rules
  import opened AiTypes
  import opened Evaluation
  import opened MoveGen
  import opened Search

  /** The unpruned value of the root for the AI's colour: over the AI's own
      moves, the minimum of the child values for black and the maximum for
      any other colour, each child searched depth - 1 plies with
      maximizing == (aiColor == 'w'). */
  function RootValue(b: Grid, ai: char, depth: nat): (v: int)
    requires IsBoard(b) && depth >= 1 && |AllMoves(b, ai)| > 0
    ensures -EvalBound <= v <= EvalBound
  {
    AllMovesOnBoard(b, ai);
    BestChild(b, AllMoves(b, ai), depth, ai != 'b', ai == 'w', ai)
  }

  /** The root value is at least as good for the AI as every child value, and
      some move reaches it exactly. */
  lemma RootValueIsBest(b: Grid, ai: char, depth: nat)
    requires IsBoard(b) && depth >= 1 && |AllMoves(b, ai)| > 0
    ensures forall m :: m in AllMoves(b, ai) ==>
      OnBoardMove(m) && AtLeastAsGood(ai != 'b', RootValue(b, ai, depth), ChildValue(b, m, depth - 1, ai == 'w', ai))
    ensures exists m :: m in AllMoves(b, ai) && OnBoardMove(m) && ChildValue(b, m, depth - 1, ai == 'w', ai) == RootValue(b, ai, depth)
  {
    var ms := AllMoves(b, ai);
    AllMovesOnBoard(b, ai);
    BestChildIsExtreme(b, ms, depth, ai != 'b', ai == 'w', ai);
    forall m | m in ms
      ensures OnBoardMove(m) && AtLeastAsGood(ai != 'b', RootValue(b, ai, depth), ChildValue(b, m, depth - 1, ai == 'w', ai))
    {
      var k :| 0 <= k < |ms| && ms[k] == m;
    }
    var k :| 0 <= k < |ms| && ChildValue(b, ms[k], depth - 1, ai == 'w', ai) == RootValue(b, ai, depth);
    assert ms[k] in ms;
  }

  /** Generated moves carry no score yet. */
  lemma ListedUnscored(b: Grid, color: char, m: Move)
    requires IsBoard(b) && m in AllMoves(b, color)
    ensures m.score == 0
  {
    AllMovesExactly(b, color);
  }

  /** One root move, as arithmetic. The root window is (bestScore, INT_MAX)
      when maximizing and (INT_MIN, bestScore) when minimizing; a score that
      improves on bestScore is the child's exact value, any other score is no
      better than bestScore, and every score bounds the child's value. */
  lemma RootStep(takeMax: bool, first: bool, bestScore: int, score: int, v: int)
    requires -EvalBound <= score <= EvalBound
    requires first ==> bestScore == (if takeMax then INT_MIN else INT_MAX)
    requires !first ==> -EvalBound <= bestScore <= EvalBound
    requires if takeMax then FailSoft(score, bestScore, INT_MAX, v) else FailSoft(score, INT_MIN, bestScore, v)
    ensures AtLeastAsGood(takeMax, score, v)
    ensures first ==> Improves(takeMax, score, bestScore)
    ensures Improves(takeMax, score, bestScore) ==> v == score && AtLeastAsGood(takeMax, score, bestScore)
    ensures !Improves(takeMax, score, bestScore) ==> AtLeastAsGood(takeMax, bestScore, score)
  {
  }

  /** The strict comparison `getBestMove` uses to replace its best score. */
  predicate Improves(takeMax: bool, score: int, bestScore: int) {
    if takeMax then score > bestScore else score < bestScore
  }

  /** Extending the best-so-far index by one value, keeping it or moving it. */
  lemma BestSoFarExtend(vs: seq<int>, i: int, gi: int, gi': int, takeMax: bool)
    requires 0 <= i < |vs| && BestSoFar(vs, i, gi, takeMax)
    requires (gi' == i && (i == 0 || AtLeastAsGood(takeMax, vs[i], vs[gi])))
          || (gi' == gi && AtLeastAsGood(takeMax, vs[gi], vs[i]))
    ensures BestSoFar(vs, i + 1, gi', takeMax)
  {
  }

  /** The moves of ms whose score is s, in order. */
  function Ties(ms: seq<Move>, s: int): seq<Move> {
    if |ms| == 0 then []
    else
      var last := ms[|ms| - 1];
      Ties(ms[..|ms| - 1], s) + (if last.score == s then [last] else [])
  }

  /** The ties are exactly the moves of ms scoring s. */
  lemma {:induction false} TiesFacts(ms: seq<Move>, s: int)
    ensures forall m :: m in Ties(ms, s) <==> m in ms && m.score == s
  {
    if |ms| > 0 {
      TiesFacts(ms[..|ms| - 1], s);
      assert ms == ms[..|ms| - 1] + [ms[|ms| - 1]];
    }
  }

  /** The loop of `getBestMove` that gathers the moves scoring bestScore. */
  method CollectTies(moves: array<Move>, bestScore: int) returns (bestMoves: seq<Move>)
    ensures bestMoves == Ties(moves[..], bestScore)
  {
    bestMoves := [];
    var k := 0;
    while k < moves.Length
      invariant 0 <= k <= moves.Length
      invariant bestMoves == Ties(moves[..k], bestScore)
    {
      assert moves[..k + 1][..k] == moves[..k];
      if moves[k].score == bestScore {
        bestMoves := bestMoves + [moves[k]];
      }
      k := k + 1;
    }
    assert moves[..moves.Length] == moves[..];
  }

  /** The root loop's record after i moves: the moves from i on are untouched,
      each earlier move carries a score that bounds its child value and is no
      better than bestScore, and move gi carries bestScore itself. */
  ghost predicate RootScored(plain: seq<Move>, cur: seq<Move>, values: seq<int>, i: int, gi: int, bestScore: int, takeMax: bool) {
    |cur| == |plain| == |values| && 0 <= i <= |plain|
    && (i > 0 ==> 0 <= gi < i && cur[gi].score == bestScore)
    && (forall j :: i <= j < |plain| ==> cur[j] == plain[j])
    && (forall j :: 0 <= j < i ==> cur[j] == plain[j].(score := cur[j].score))
    && (forall j :: 0 <= j < i ==> AtLeastAsGood(takeMax, cur[j].score, values[j]) && AtLeastAsGood(takeMax, bestScore, cur[j].score))
  }

  lemma RootScoredStep(plain: seq<Move>, cur: seq<Move>, values: seq<int>, i: int, gi: int, gi': int,
                       bestScore: int, bestScore': int, score: int, takeMax: bool)
    requires RootScored(plain, cur, values, i, gi, bestScore, takeMax) && i < |plain|
    requires AtLeastAsGood(takeMax, score, values[i]) && AtLeastAsGood(takeMax, bestScore', score)
    requires AtLeastAsGood(takeMax, bestScore', bestScore)
    requires gi' == i ==> bestScore' == score
    requires gi' != i ==> gi' == gi && i > 0 && bestScore' == bestScore
    ensures RootScored(plain, cur[i := cur[i].(score := score)], values, i + 1, gi', bestScore', takeMax)
  {
  }

  /** m is a choice `getBestMove` may return: one of the generated moves,
      carrying the unpruned root value as its score, whose own child value
      is no better for the AI than that score. */
  predicate BestChoice(b: Grid, ai: char, depth: nat, m: Move)
    requires IsBoard(b) && depth >= 1 && |AllMoves(b, ai)| > 0
  {
    && m.(score := 0) in AllMoves(b, ai)
    && OnBoardMove(m)
    && m.score == RootValue(b, ai, depth)
    // Follows from the line above and RootValueIsBest; restated so callers
    // need not apply that lemma themselves.
    && AtLeastAsGood(ai != 'b', m.score, ChildValue(b, m.(score := 0), depth - 1, ai == 'w', ai))
  }

  /** Any recorded move scoring the best score is a generated move, its
      score is the root value, and its child value is no better than that. */
  lemma RootChoice(board: Grid, ai: char, depth: nat, plain: seq<Move>, cur: seq<Move>, values: seq<int>,
                   gi: int, bestScore: int, m: Move)
    requires IsBoard(board) && depth >= 1 && |AllMoves(board, ai)| > 0
    requires multiset(plain) == multiset(AllMoves(board, ai)) && AllOnBoard(plain)
    requires values == ChildValues(board, plain, depth - 1, ai == 'w', ai)
    requires RootScored(plain, cur, values, |plain|, gi, bestScore, ai != 'b')
    requires BestSoFar(values, |values|, gi, ai != 'b') && bestScore == values[gi]
    requires m in cur && m.score == bestScore
    ensures BestChoice(board, ai, depth, m)
  {
    var possible := AllMoves(board, ai);
    AllMovesOnBoard(board, ai);
    BestOfReordering(board, possible, plain, values, gi, depth, ai != 'b', ai == 'w', ai);
    var o :| 0 <= o < |cur| && cur[o] == m;
    InPermutation(plain, possible);
    ListedUnscored(board, ai, plain[o]);
    assert m.(score := 0) == plain[o];
  }

  /** One root child of `getBestMove`: make the move on a copy of the board
      and search it depth - 1 plies with maximizing == (aiColor == 'w'). */
  method SearchRootChild(board: Grid, move: Move, depth: nat, alpha: int, beta: int, aiColor: char) returns (score: int)
    requires IsBoard(board) && OnBoardMove(move) && depth >= 1
    requires INT_MIN <= alpha && beta <= INT_MAX
    ensures -EvalBound <= score <= EvalBound
    ensures alpha < beta ==> FailSoft(score, alpha, beta, ChildValue(board, move, depth - 1, aiColor == 'w', aiColor))
  {
    var tempBoard := MakeMove(board, move);
    score := Minimax(tempBoard, depth - 1, alpha, beta, aiColor == 'w', aiColor);
  }

  /** The scoring loop of `getBestMove` over the ordered moves: each move is
      searched in the root window and gets its score recorded; bestScore and
      bestMove follow the strictly better scores, and alpha (white) or beta
      (black) follows bestScore. The window never closes, so every move is
      scored: bestScore is the best of the child values, each recorded score
      bounds its child's value and is no better than bestScore. */
  method ScoreRootMoves(board: Grid, moves: array<Move>, aiColor: char, depth: nat)
    returns (bestScore: int, bestMove: Move, ghost gi: int)
    requires IsBoard(board) && depth >= 1 && moves.Length > 0 && AllOnBoard(moves[..])
    modifies moves
    ensures var values := ChildValues(board, old(moves[..]), depth - 1, aiColor == 'w', aiColor);
      RootScored(old(moves[..]), moves[..], values, moves.Length, gi, bestScore, aiColor != 'b')
      && BestSoFar(values, moves.Length, gi, aiColor != 'b') && bestScore == values[gi]
    ensures bestMove == moves[gi]
  {
    ghost var plain := moves[..];
    ghost var values := ChildValues(board, plain, depth - 1, aiColor == 'w', aiColor);
    var takeMax := aiColor != 'b';
    bestMove := NoMove();
    bestScore := if aiColor == 'b' then INT_MAX else INT_MIN;
    var alpha := INT_MIN;
    var beta := INT_MAX;
    var i := 0;
    gi := 0;
    while i < moves.Length
      invariant 0 <= i <= moves.Length == |plain| == |values|
      invariant RootScored(plain, moves[..], values, i, gi, bestScore, takeMax)
      invariant i == 0 ==> bestScore == (if takeMax then INT_MIN else INT_MAX)
      invariant i > 0 ==> -EvalBound <= bestScore <= EvalBound && bestScore == values[gi] && bestMove == moves[gi]
      invariant BestSoFar(values, i, gi, takeMax)
      invariant alpha == (if takeMax then bestScore else INT_MIN)
      invariant beta == (if takeMax then INT_MAX else bestScore)
    {
      var move := moves[i];
      var score := SearchRootChild(board, move, depth, alpha, beta, aiColor);
      RootStep(takeMax, i == 0, bestScore, score, values[i]);
      ghost var gi' := if Improves(takeMax, score, bestScore) then i else gi;
      BestSoFarExtend(values, i, gi, gi', takeMax);
      RootScoredStep(plain, moves[..], values, i, gi, gi', bestScore, if gi' == i then score else bestScore, score, takeMax);
      move := move.(score := score);
      moves[i] := move;
      if aiColor == 'b' {
        if score < bestScore {
          bestScore := score;
          bestMove := move;
          gi := i;
        }
        beta := Min(beta, score);
      } else {
        if score > bestScore {
          bestScore := score;
          bestMove := move;
          gi := i;
        }
        alpha := Max(alpha, score);
      }
      if beta <= alpha {
        break;
      }
      i := i + 1;
    }
  }

  /** The AI player; its random generator is modelled as a free choice. */
  class ChessAI {
    var currentDifficulty: Difficulty

    /** `ChessAI(difficulty = MEDIUM)`. */
    constructor(difficulty: Difficulty := Medium)
      ensures GetDifficulty() == difficulty
    {
      currentDifficulty := difficulty;
    }

    /** `setDifficulty`. */
    method SetDifficulty(difficulty: Difficulty)
      modifies this
      ensures GetDifficulty() == difficulty
    {
      currentDifficulty := difficulty;
    }

    /** `getDifficulty`: the level the AI searches with. */
    function GetDifficulty(): (d: Difficulty)
      reads this
      ensures d == currentDifficulty
    {
      currentDifficulty
    }

    /** `getBestMove`: orders the AI's moves, searches each child with
        depth - 1 and the root window, records each move's score, and picks
        any move whose score equals the best score. With no move it returns
        the sentinel. The chosen move is a generated move carrying the
        unpruned root value as its score; its own child value is no better
        for the AI than that score (a tie that failed low is chosen too). */
    method GetBestMove(board: Grid, aiColor: char) returns (bestMove: Move)
      requires IsBoard(board)
      ensures |AllMoves(board, aiColor)| == 0 ==> bestMove == NoMove()
      ensures |AllMoves(board, aiColor)| > 0 ==> BestChoice(board, aiColor, currentDifficulty.Depth(), bestMove)
    {
      var depth := currentDifficulty.Depth();
      bestMove := NoMove();
      var possible := GetAllPossibleMoves(board, aiColor);
      if |possible| == 0 {
        return;
      }
      AllMovesOnBoard(board, aiColor);
      var moves := new Move[|possible|](i requires 0 <= i < |possible| => possible[i]);
      assert moves[..] == possible;
      OrderMoves(moves, board);
      ghost var plain := moves[..];
      ghost var values := ChildValues(board, plain, depth - 1, aiColor == 'w', aiColor);
      var bestScore;
      ghost var gi;
      bestScore, bestMove, gi := ScoreRootMoves(board, moves, aiColor, depth);
      var bestMoves := CollectTies(moves, bestScore);
      TiesFacts(moves[..], bestScore);
      assert moves[gi] in moves[..];
      if |bestMoves| > 0 {
        var pick :| 0 <= pick < |bestMoves|;
        bestMove := bestMoves[pick];
        RootChoice(board, aiColor, depth, plain, moves[..], values, gi, bestScore, bestMove);
      }
    }
  }
}
