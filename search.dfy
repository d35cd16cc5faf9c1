/** The AI's search: the unpruned minimax value as a reference, the
    alpha-beta `minimax` proved fail-soft against it, and `getBestMove`. */
module Search {
  import opened Squares
  import opened Rules
  import opened AiTypes
  import opened Evaluation
  import opened MoveGen

  /** `std::min`. */
  function Min(a: int, b: int): int { if b < a then b else a }

  /** The colour `minimax` generates moves for: white exactly when maximizing. */
  function SideToMove(maximizing: bool): char { if maximizing then 'w' else 'b' }

  /** x is at least as good as y for the side that maximizes (takeMax) or minimizes. */
  predicate AtLeastAsGood(takeMax: bool, x: int, y: int) {
    if takeMax then x >= y else x <= y
  }

  /** The value `minimax` would return without pruning: the evaluation at
      depth 0 or when the side to move has no move, otherwise the best child
      value for the side to move, whose children are searched with the
      opposite `maximizing`. */
  function MinimaxValue(b: Grid, depth: nat, maximizing: bool, ai: char): (v: int)
    requires IsBoard(b)
    ensures -EvalBound <= v <= EvalBound
    decreases depth, 1, 0
  {
    EvaluationBounded(b, ai);
    if depth == 0 then Evaluate(b, ai)
    else
      var moves := AllMoves(b, SideToMove(maximizing));
      if |moves| == 0 then Evaluate(b, ai)
      else
        AllMovesOnBoard(b, SideToMove(maximizing));
        BestChild(b, moves, depth, maximizing, !maximizing, ai)
  }

  /** The maximum (takeMax) or minimum of the values of the children reached
      by the moves ms, each searched one level shallower with `childMax`. */
  function BestChild(b: Grid, ms: seq<Move>, depth: nat, takeMax: bool, childMax: bool, ai: char): (v: int)
    requires IsBoard(b) && depth >= 1 && |ms| > 0 && AllOnBoard(ms)
    ensures -EvalBound <= v <= EvalBound
    decreases depth, 0, |ms|
  {
    var here := ChildValue(b, ms[0], depth - 1, childMax, ai);
    if |ms| == 1 then here
    else
      var rest := BestChild(b, ms[1..], depth, takeMax, childMax, ai);
      if takeMax then Max(here, rest) else Min(here, rest)
  }

  /** The unpruned value of the position after move m. */
  function ChildValue(b: Grid, m: Move, d: nat, childMax: bool, ai: char): (v: int)
    requires IsBoard(b) && OnBoardMove(m)
    ensures -EvalBound <= v <= EvalBound
    decreases d, 2, 0
  {
    MinimaxValue(MakeMove(b, m), d, childMax, ai)
  }

  /** The best child value bounds every child value and is one of them. */
  lemma {:induction false} BestChildIsExtreme(b: Grid, ms: seq<Move>, depth: nat, takeMax: bool, childMax: bool, ai: char)
    requires IsBoard(b) && depth >= 1 && |ms| > 0 && AllOnBoard(ms)
    ensures forall i :: 0 <= i < |ms| ==>
      AtLeastAsGood(takeMax, BestChild(b, ms, depth, takeMax, childMax, ai), ChildValue(b, ms[i], depth - 1, childMax, ai))
    ensures exists i :: 0 <= i < |ms| && ChildValue(b, ms[i], depth - 1, childMax, ai) == BestChild(b, ms, depth, takeMax, childMax, ai)
  {
    if |ms| > 1 {
      var tail := ms[1..];
      BestChildIsExtreme(b, tail, depth, takeMax, childMax, ai);
      var k :| 0 <= k < |tail| && ChildValue(b, tail[k], depth - 1, childMax, ai) == BestChild(b, tail, depth, takeMax, childMax, ai);
      assert tail[k] == ms[k + 1];
      forall i | 1 <= i < |ms|
        ensures AtLeastAsGood(takeMax, BestChild(b, ms, depth, takeMax, childMax, ai), ChildValue(b, ms[i], depth - 1, childMax, ai))
      {
        assert ms[i] == tail[i - 1];
      }
    }
  }

  /** A move whose child value is best over a reordering of ms has exactly the
      best child value of ms: the order of the moves does not matter. */
  lemma BestOfReordering(b: Grid, ms: seq<Move>, ordered: seq<Move>, vs: seq<int>, gi: int, depth: nat, takeMax: bool, childMax: bool, ai: char)
    requires IsBoard(b) && depth >= 1 && |ms| > 0 && AllOnBoard(ms) && AllOnBoard(ordered)
    requires multiset(ordered) == multiset(ms)
    requires vs == ChildValues(b, ordered, depth - 1, childMax, ai) && BestSoFar(vs, |vs|, gi, takeMax)
    ensures vs[gi] == BestChild(b, ms, depth, takeMax, childMax, ai)
  {
    BestChildIsExtreme(b, ms, depth, takeMax, childMax, ai);
    var k :| 0 <= k < |ms| && ChildValue(b, ms[k], depth - 1, childMax, ai) == BestChild(b, ms, depth, takeMax, childMax, ai);
    assert ms[k] in multiset(ordered);
    var j :| 0 <= j < |ordered| && ordered[j] == ms[k];
    assert ordered[gi] in multiset(ms);
    var l :| 0 <= l < |ms| && ms[l] == ordered[gi];
  }

  /** Fail-soft alpha-beta: a result at or below alpha is an upper bound of the
      true value v, one strictly inside the window is v itself, and one at or
      above beta is a lower bound. */
  predicate FailSoft(r: int, alpha: int, beta: int, v: int) {
    (r <= alpha ==> v <= r) && (alpha < r < beta ==> v == r) && (beta <= r ==> r <= v)
  }

  /** `minimax`: depth-bounded alpha-beta over the moves of the side that
      `maximizing` names. The board is passed by value, so the caller's board
      never changes; moves are made and undone on the local copy. */
  method Minimax(board: Grid, depth: nat, alpha: int, beta: int, maximizing: bool, aiColor: char) returns (score: int)
    requires IsBoard(board) && INT_MIN <= alpha && beta <= INT_MAX
    ensures -EvalBound <= score <= EvalBound
    ensures depth == 0 || |AllMoves(board, SideToMove(maximizing))| == 0 ==> score == Evaluate(board, aiColor)
    ensures alpha < beta ==> FailSoft(score, alpha, beta, MinimaxValue(board, depth, maximizing, aiColor))
    ensures alpha == INT_MIN && beta == INT_MAX ==> score == MinimaxValue(board, depth, maximizing, aiColor)
    decreases depth, 2
  {
    if depth == 0 {
      score := EvaluateBoard(board, aiColor);
      return;
    }
    var currentColor := if maximizing then 'w' else 'b';
    var moves := GetAllPossibleMoves(board, currentColor);
    if |moves| == 0 {
      score := EvaluateBoard(board, aiColor);
      return;
    }
    AllMovesOnBoard(board, currentColor);
    var ordered := new Move[|moves|](i requires 0 <= i < |moves| => moves[i]);
    assert ordered[..] == moves;
    OrderMoves(ordered, board);
    InPermutation(ordered[..], moves);
    ListedRestorable(board, currentColor, ordered[..]);
    if maximizing {
      score := MaxNode(board, ordered[..], moves, depth, alpha, beta, aiColor);
    } else {
      score := MinNode(board, ordered[..], moves, depth, alpha, beta, aiColor);
    }
  }

  /** One child of a `minimax` node: make the move on the node's board, search
      the child one level shallower, undo the move. The board comes back
      unchanged and the score is fail-soft for the child's value. */
  method SearchChild(board: Grid, move: Move, depth: nat, alpha: int, beta: int, childMax: bool, aiColor: char)
    returns (score: int, after: Grid)
    requires IsBoard(board) && depth >= 1 && OnBoardMove(move) && UndoMove(MakeMove(board, move), move) == board
    requires INT_MIN <= alpha && beta <= INT_MAX
    ensures after == board
    ensures -EvalBound <= score <= EvalBound
    ensures alpha < beta ==> FailSoft(score, alpha, beta, ChildValue(board, move, depth - 1, childMax, aiColor))
    decreases depth, 0
  {
    after := MakeMove(board, move);
    score := Minimax(after, depth - 1, alpha, beta, childMax, aiColor);
    after := UndoMove(after, move);
  }

  /** Each move of ms, made on b and then undone, gives b back. */
  predicate Restorable(b: Grid, ms: seq<Move>)
    requires IsBoard(b) && AllOnBoard(ms)
  {
    forall j :: 0 <= j < |ms| ==> UndoMove(MakeMove(b, ms[j]), ms[j]) == b
  }

  /** Moves drawn from the generated list are on the board and undo cleanly. */
  lemma ListedRestorable(b: Grid, color: char, ms: seq<Move>)
    requires IsBoard(b)
    requires forall j :: 0 <= j < |ms| ==> ms[j] in AllMoves(b, color)
    ensures AllOnBoard(ms) && Restorable(b, ms)
  {
    forall j | 0 <= j < |ms|
      ensures OnBoardMove(ms[j]) && UndoMove(MakeMove(b, ms[j]), ms[j]) == b
    {
      ListedMovesUndo(b, color, ms[j]);
    }
  }

  /** Index gi holds a best value among the first n values. */
  predicate BestSoFar(vs: seq<int>, n: int, gi: int, takeMax: bool) {
    0 <= gi < |vs| && n <= |vs| && forall j :: 0 <= j < n ==> AtLeastAsGood(takeMax, vs[gi], vs[j])
  }

  lemma BestSoFarStep(vs: seq<int>, i: int, gi: int, takeMax: bool)
    requires 0 <= i < |vs| && 0 <= gi < |vs| && BestSoFar(vs, i, gi, takeMax)
    ensures var gi' := if i == 0 || (if takeMax then vs[i] > vs[gi] else vs[i] < vs[gi]) then i else gi;
      BestSoFar(vs, i + 1, gi', takeMax)
  {
  }

  /** Every element of a permutation of ms is in ms. */
  lemma InPermutation(ordered: seq<Move>, ms: seq<Move>)
    requires multiset(ordered) == multiset(ms)
    ensures forall j :: 0 <= j < |ordered| ==> ordered[j] in ms
  {
    forall j | 0 <= j < |ordered|
      ensures ordered[j] in ms
    {
      assert ordered[j] in multiset(ms);
    }
  }

  /** The child values of a list of moves, in list order. */
  function ChildValues(b: Grid, ms: seq<Move>, d: nat, childMax: bool, ai: char): (vs: seq<int>)
    requires IsBoard(b) && AllOnBoard(ms)
    ensures |vs| == |ms|
    ensures forall j :: 0 <= j < |ms| ==> vs[j] == ChildValue(b, ms[j], d, childMax, ai)
  {
    seq(|ms|, j requires 0 <= j < |ms| => ChildValue(b, ms[j], d, childMax, ai))
  }

  /** The maximizing branch of `minimax` over the ordered moves of white. */
  method MaxNode(board: Grid, ordered: seq<Move>, ghost moves: seq<Move>, depth: nat, alpha0: int, beta: int, aiColor: char)
    returns (maxScore: int)
    requires IsBoard(board) && depth >= 1 && INT_MIN <= alpha0 && beta <= INT_MAX
    requires |moves| > 0 && AllOnBoard(moves) && multiset(ordered) == multiset(moves)
    requires AllOnBoard(ordered) && Restorable(board, ordered)
    requires forall j :: 0 <= j < |ordered| ==> ordered[j] in moves
    ensures -EvalBound <= maxScore <= EvalBound
    ensures alpha0 < beta ==> FailSoft(maxScore, alpha0, beta, BestChild(board, moves, depth, true, false, aiColor))
    decreases depth, 1
  {
    ghost var values := ChildValues(board, ordered, depth - 1, false, aiColor);
    var b := board;
    maxScore := INT_MIN;
    var alpha := alpha0;
    var i := 0;
    ghost var gi := 0;
    while i < |ordered|
      invariant 0 <= i <= |ordered|
      invariant b == board
      invariant i == 0 ==> maxScore == INT_MIN && alpha == alpha0
      invariant i > 0 ==> -EvalBound <= maxScore <= EvalBound && alpha == Max(alpha0, maxScore) && gi < i
      invariant BestSoFar(values, i, gi, true)
      invariant alpha0 < beta ==> alpha < beta
      invariant alpha0 < beta && i > 0 && maxScore <= alpha0 ==> values[gi] <= maxScore
      invariant alpha0 < beta && i > 0 && alpha0 < maxScore ==> values[gi] == maxScore
    {
      var move := ordered[i];
      var score;
      score, b := SearchChild(b, move, depth, alpha, beta, false, aiColor);
      MaxStep(i == 0, alpha0, beta, maxScore, alpha, values[gi], score, values[i]);
      BestSoFarStep(values, i, gi, true);
      gi := if i == 0 || values[i] > values[gi] then i else gi;
      maxScore := Max(maxScore, score);
      alpha := Max(alpha, score);
      if beta <= alpha {
        MaxCutoff(board, moves, ordered, values, i, depth, aiColor);
        break;
      }
      i := i + 1;
    }
    if i == |ordered| {
      BestOfReordering(board, moves, ordered, values, gi, depth, true, false, aiColor);
    }
  }

  /** One child of a maximizing node, as arithmetic: how the running maximum,
      alpha and the best child value so far move when the child scores `score`
      and has true value v. */
  lemma MaxStep(first: bool, alpha0: int, beta: int, maxScore: int, alpha: int, best: int, score: int, v: int)
    requires -EvalBound <= score <= EvalBound
    requires first ==> maxScore == INT_MIN && alpha == alpha0
    requires !first ==> -EvalBound <= maxScore <= EvalBound && alpha == Max(alpha0, maxScore)
    requires alpha0 < beta ==> alpha < beta
    requires alpha0 < beta && !first && maxScore <= alpha0 ==> best <= maxScore
    requires alpha0 < beta && !first && alpha0 < maxScore ==> best == maxScore
    requires alpha < beta ==> FailSoft(score, alpha, beta, v)
    ensures var m, a := Max(maxScore, score), Max(alpha, score);
      var best' := if first || v > best then v else best;
      -EvalBound <= m <= EvalBound && a == Max(alpha0, m)
      && (alpha0 < beta && a < beta ==> (m <= alpha0 ==> best' <= m) && (alpha0 < m ==> best' == m))
      && (alpha0 < beta && beta <= a ==> beta <= m <= v)
  {
  }

  /** One child of a minimizing node, the mirror image of `MaxStep`. */
  lemma MinStep(first: bool, alpha: int, beta0: int, minScore: int, beta: int, best: int, score: int, v: int)
    requires -EvalBound <= score <= EvalBound
    requires first ==> minScore == INT_MAX && beta == beta0
    requires !first ==> -EvalBound <= minScore <= EvalBound && beta == Min(beta0, minScore)
    requires alpha < beta0 ==> alpha < beta
    requires alpha < beta0 && !first && beta0 <= minScore ==> best >= minScore
    requires alpha < beta0 && !first && minScore < beta0 ==> best == minScore
    requires alpha < beta ==> FailSoft(score, alpha, beta, v)
    ensures var m, c := Min(minScore, score), Min(beta, score);
      var best' := if first || v < best then v else best;
      -EvalBound <= m <= EvalBound && c == Min(beta0, m)
      && (alpha < beta0 && alpha < c ==> (beta0 <= m ==> best' >= m) && (m < beta0 ==> best' == m))
      && (alpha < beta0 && c <= alpha ==> v <= m <= alpha)
  {
  }

  lemma MaxCutoff(board: Grid, moves: seq<Move>, ordered: seq<Move>, vs: seq<int>, i: int, depth: nat, aiColor: char)
    requires IsBoard(board) && depth >= 1 && |moves| > 0 && AllOnBoard(moves) && AllOnBoard(ordered)
    requires 0 <= i < |ordered| && ordered[i] in moves && vs == ChildValues(board, ordered, depth - 1, false, aiColor)
    ensures vs[i] <= BestChild(board, moves, depth, true, false, aiColor)
  {
    BestChildIsExtreme(board, moves, depth, true, false, aiColor);
    var k :| 0 <= k < |moves| && moves[k] == ordered[i];
  }

  lemma MinCutoff(board: Grid, moves: seq<Move>, ordered: seq<Move>, vs: seq<int>, i: int, depth: nat, aiColor: char)
    requires IsBoard(board) && depth >= 1 && |moves| > 0 && AllOnBoard(moves) && AllOnBoard(ordered)
    requires 0 <= i < |ordered| && ordered[i] in moves && vs == ChildValues(board, ordered, depth - 1, true, aiColor)
    ensures vs[i] >= BestChild(board, moves, depth, false, true, aiColor)
  {
    BestChildIsExtreme(board, moves, depth, false, true, aiColor);
    var k :| 0 <= k < |moves| && moves[k] == ordered[i];
  }

  /** The minimizing branch of `minimax` over the ordered moves of black. */
  method MinNode(board: Grid, ordered: seq<Move>, ghost moves: seq<Move>, depth: nat, alpha: int, beta0: int, aiColor: char)
    returns (minScore: int)
    requires IsBoard(board) && depth >= 1 && INT_MIN <= alpha && beta0 <= INT_MAX
    requires |moves| > 0 && AllOnBoard(moves) && multiset(ordered) == multiset(moves)
    requires AllOnBoard(ordered) && Restorable(board, ordered)
    requires forall j :: 0 <= j < |ordered| ==> ordered[j] in moves
    ensures -EvalBound <= minScore <= EvalBound
    ensures alpha < beta0 ==> FailSoft(minScore, alpha, beta0, BestChild(board, moves, depth, false, true, aiColor))
    decreases depth, 1
  {
    ghost var values := ChildValues(board, ordered, depth - 1, true, aiColor);
    var b := board;
    minScore := INT_MAX;
    var beta := beta0;
    var i := 0;
    ghost var gi := 0;
    while i < |ordered|
      invariant 0 <= i <= |ordered|
      invariant b == board
      invariant i == 0 ==> minScore == INT_MAX && beta == beta0
      invariant i > 0 ==> -EvalBound <= minScore <= EvalBound && beta == Min(beta0, minScore) && gi < i
      invariant BestSoFar(values, i, gi, false)
      invariant alpha < beta0 ==> alpha < beta
      invariant alpha < beta0 && i > 0 && beta0 <= minScore ==> values[gi] >= minScore
      invariant alpha < beta0 && i > 0 && minScore < beta0 ==> values[gi] == minScore
    {
      var move := ordered[i];
      var score;
      score, b := SearchChild(b, move, depth, alpha, beta, true, aiColor);
      MinStep(i == 0, alpha, beta0, minScore, beta, values[gi], score, values[i]);
      BestSoFarStep(values, i, gi, false);
      gi := if i == 0 || values[i] < values[gi] then i else gi;
      minScore := Min(minScore, score);
      beta := Min(beta, score);
      if beta <= alpha {
        MinCutoff(board, moves, ordered, values, i, depth, aiColor);
        break;
      }
      i := i + 1;
    }
    if i == |ordered| {
      BestOfReordering(board, moves, ordered, values, gi, depth, false, true, aiColor);
    }
  }
}
