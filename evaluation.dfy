/** Static evaluation: material values plus piece-square tables, summed over
    the board from one colour's point of view. */
module Evaluation {
  import opened Squares

  const INT_MIN: int := -0x8000_0000
  const INT_MAX: int := 0x7FFF_FFFF

  /** Largest absolute value one square can contribute: a king (20000) plus
      the largest table entry (50). */
  const SquareBound: int := 20050
  /** Largest absolute value of a whole evaluation. */
  const EvalBound: int := 64 * SquareBound

  /** `getPieceValue`: material by lower-cased first letter. */
  function PieceValue(p: Square): (v: int)
    ensures 0 <= v <= 20000
    ensures p == Empty ==> v == 0
  {
    if p == Empty then 0
    else match ToLower(p[0])
      case 'p' => 100
      case 'n' => 320
      case 'b' => 330
      case 'r' => 500
      case 'q' => 900
      case 'k' => 20000
      case _ => 0
  }

  /** The material scale, in either colour. */
  lemma MaterialValues()
    ensures PieceValue("P") == PieceValue("p") == 100
    ensures PieceValue("N") == PieceValue("n") == 320
    ensures PieceValue("B") == PieceValue("b") == 330
    ensures PieceValue("R") == PieceValue("r") == 500
    ensures PieceValue("Q") == PieceValue("q") == 900
    ensures PieceValue("K") == PieceValue("k") == 20000
  {
  }

  /** Material ignores colour: a white piece is worth the same as the black
      piece of the same letter. */
  lemma MaterialColourBlind(black: Square, white: Square)
    requires black != Empty && white != Empty
    requires IsUpper(white[0]) && black[0] == ToLower(white[0])
    ensures PieceValue(black) == PieceValue(white)
  {
  }

  // The six tables, from white's point of view, row by row (row 0 first).

  const PawnTable: seq<seq<int>> := [
    [0,  0,  0,  0,  0,  0,  0,  0],
    [50, 50, 50, 50, 50, 50, 50, 50],
    [10, 10, 20, 30, 30, 20, 10, 10],
    [5,  5, 10, 25, 25, 10,  5,  5],
    [0,  0,  0, 20, 20,  0,  0,  0],
    [5, -5,-10,  0,  0,-10, -5,  5],
    [5, 10, 10,-20,-20, 10, 10,  5],
    [0,  0,  0,  0,  0,  0,  0,  0]]

  const KnightTable: seq<seq<int>> := [
    [-50,-40,-30,-30,-30,-30,-40,-50],
    [-40,-20,  0,  0,  0,  0,-20,-40],
    [-30,  0, 10, 15, 15, 10,  0,-30],
    [-30,  5, 15, 20, 20, 15,  5,-30],
    [-30,  0, 15, 20, 20, 15,  0,-30],
    [-30,  5, 10, 15, 15, 10,  5,-30],
    [-40,-20,  0,  5,  5,  0,-20,-40],
    [-50,-40,-30,-30,-30,-30,-40,-50]]

  const BishopTable: seq<seq<int>> := [
    [-20,-10,-10,-10,-10,-10,-10,-20],
    [-10,  0,  0,  0,  0,  0,  0,-10],
    [-10,  0,  5, 10, 10,  5,  0,-10],
    [-10,  5,  5, 10, 10,  5,  5,-10],
    [-10,  0, 10, 10, 10, 10,  0,-10],
    [-10, 10, 10, 10, 10, 10, 10,-10],
    [-10,  5,  0,  0,  0,  0,  5,-10],
    [-20,-10,-10,-10,-10,-10,-10,-20]]

  const RookTable: seq<seq<int>> := [
    [0,  0,  0,  0,  0,  0,  0,  0],
    [5, 10, 10, 10, 10, 10, 10,  5],
    [-5,  0,  0,  0,  0,  0,  0, -5],
    [-5,  0,  0,  0,  0,  0,  0, -5],
    [-5,  0,  0,  0,  0,  0,  0, -5],
    [-5,  0,  0,  0,  0,  0,  0, -5],
    [-5,  0,  0,  0,  0,  0,  0, -5],
    [0,  0,  0,  5,  5,  0,  0,  0]]

  const QueenTable: seq<seq<int>> := [
    [-20,-10,-10, -5, -5,-10,-10,-20],
    [-10,  0,  0,  0,  0,  0,  0,-10],
    [-10,  0,  5,  5,  5,  5,  0,-10],
    [-5,  0,  5,  5,  5,  5,  0, -5],
    [0,  0,  5,  5,  5,  5,  0, -5],
    [-10,  5,  5,  5,  5,  5,  0,-10],
    [-10,  0,  5,  0,  0,  0,  0,-10],
    [-20,-10,-10, -5, -5,-10,-10,-20]]

  const KingTable: seq<seq<int>> := [
    [-30,-40,-40,-50,-50,-40,-40,-30],
    [-30,-40,-40,-50,-50,-40,-40,-30],
    [-30,-40,-40,-50,-50,-40,-40,-30],
    [-30,-40,-40,-50,-50,-40,-40,-30],
    [-20,-30,-30,-40,-40,-30,-30,-20],
    [-10,-20,-20,-20,-20,-20,-20,-10],
    [20, 20,  0,  0,  0,  0, 20, 20],
    [20, 30, 10,  0,  0, 10, 30, 20]]

  /** Every entry of a table lies in [-50, 50]. */
  predicate TableBounded(t: seq<seq<int>>) {
    |t| == 8 && forall r :: 0 <= r < 8 ==> |t[r]| == 8 && forall c :: 0 <= c < 8 ==> -50 <= t[r][c] <= 50
  }

  lemma TablesBounded()
    ensures TableBounded(PawnTable) && TableBounded(KnightTable) && TableBounded(BishopTable)
    ensures TableBounded(RookTable) && TableBounded(QueenTable) && TableBounded(KingTable)
  {
    PawnTableBounded();
    KnightTableBounded();
    BishopTableBounded();
    RookTableBounded();
    QueenTableBounded();
    KingTableBounded();
  }

  lemma PawnTableBounded() ensures TableBounded(PawnTable) {}
  lemma KnightTableBounded() ensures TableBounded(KnightTable) {}
  lemma BishopTableBounded() ensures TableBounded(BishopTable) {}
  lemma RookTableBounded() ensures TableBounded(RookTable) {}
  lemma QueenTableBounded() ensures TableBounded(QueenTable) {}
  lemma KingTableBounded() ensures TableBounded(KingTable) {}

  /** The table entry for a piece letter (already lower case) at a row seen
      from white's side; 0 for any other letter. */
  function TableEntry(kind: char, row: int, col: int): (v: int)
    requires InRange(row) && InRange(col)
    ensures -50 <= v <= 50
  {
    TablesBounded();
    match kind
    case 'p' => PawnTable[row][col]
    case 'n' => KnightTable[row][col]
    case 'b' => BishopTable[row][col]
    case 'r' => RookTable[row][col]
    case 'q' => QueenTable[row][col]
    case 'k' => KingTable[row][col]
    case _ => 0
  }

  /** `getPositionValue`: white reads its table at (row, col); black reads it
      at (7 - row, col) and the value is negated. */
  function PositionValue(p: Square, row: int, col: int): (v: int)
    requires InRange(row) && InRange(col)
    ensures -50 <= v <= 50
    ensures p == Empty ==> v == 0
  {
    if p == Empty then 0
    else
      var white := IsUpper(p[0]);
      var actualRow := if white then row else 7 - row;
      var value := TableEntry(ToLower(p[0]), actualRow, col);
      if white then value else -value
  }

  /** A black piece on (row, col) is worth the negation of the same kind of
      white piece on the mirrored square (7 - row, col). */
  lemma PositionMirrored(black: Square, white: Square, row: int, col: int)
    requires InRange(row) && InRange(col)
    requires black != Empty && white != Empty
    requires !IsUpper(black[0]) && IsUpper(white[0]) && black[0] == ToLower(white[0])
    ensures PositionValue(black, row, col) == -PositionValue(white, 7 - row, col)
  {
  }

  /** What the square (row, col) adds to the evaluation for `ai`: the piece's
      value plus its table entry, counted for `ai`'s side and against the other. */
  function Contribution(b: Grid, row: int, col: int, ai: char): (v: int)
    requires IsBoard(b) && InRange(row) && InRange(col)
    ensures -SquareBound <= v <= SquareBound
  {
    var piece := b[row][col];
    if piece == Empty then 0
    else
      var total := PieceValue(piece) + PositionValue(piece, row, col);
      if PieceColor(piece) == ai then total else -total
  }

  /** Sum of the contributions of the squares of `row` left of column n. */
  function RowSum(b: Grid, ai: char, row: int, n: int): int
    requires IsBoard(b) && InRange(row) && 0 <= n <= 8
  {
    if n == 0 then 0 else RowSum(b, ai, row, n - 1) + Contribution(b, row, n - 1, ai)
  }

  /** Sum of the contributions of the rows above row n. */
  function RowsSum(b: Grid, ai: char, n: int): int
    requires IsBoard(b) && 0 <= n <= 8
  {
    if n == 0 then 0 else RowsSum(b, ai, n - 1) + RowSum(b, ai, n - 1, 8)
  }

  /** `evaluateBoard` as a value: the sum over all 64 squares. */
  function Evaluate(b: Grid, ai: char): int
    requires IsBoard(b)
  {
    RowsSum(b, ai, 8)
  }

  /** `evaluateBoard`: row-major accumulation of the per-square contributions. */
  method EvaluateBoard(b: Grid, aiColor: char) returns (score: int)
    requires IsBoard(b)
    ensures score == Evaluate(b, aiColor)
    ensures -EvalBound <= score <= EvalBound
  {
    score := 0;
    var row := 0;
    while row < 8
      invariant 0 <= row <= 8
      invariant score == RowsSum(b, aiColor, row)
    {
      var col := 0;
      while col < 8
        invariant 0 <= col <= 8
        invariant score == RowsSum(b, aiColor, row) + RowSum(b, aiColor, row, col)
      {
        assert RowSum(b, aiColor, row, col + 1) == RowSum(b, aiColor, row, col) + Contribution(b, row, col, aiColor);
        var piece := b[row][col];
        if piece != Empty {
          var pieceColor := PieceColor(piece);
          var pieceValue := PieceValue(piece);
          var positionValue := PositionValue(piece, row, col);
          var totalValue := pieceValue + positionValue;
          if pieceColor == aiColor {
            score := score + totalValue;
          } else {
            score := score - totalValue;
          }
        }
        col := col + 1;
      }
      row := row + 1;
    }
    EvaluationBounded(b, aiColor);
  }

  lemma {:induction false} RowSumBounded(b: Grid, ai: char, row: int, n: int)
    requires IsBoard(b) && InRange(row) && 0 <= n <= 8
    ensures -n * SquareBound <= RowSum(b, ai, row, n) <= n * SquareBound
  {
    if n > 0 {
      RowSumBounded(b, ai, row, n - 1);
    }
  }

  lemma {:induction false} RowsSumBounded(b: Grid, ai: char, n: int)
    requires IsBoard(b) && 0 <= n <= 8
    ensures -n * 8 * SquareBound <= RowsSum(b, ai, n) <= n * 8 * SquareBound
  {
    if n > 0 {
      RowsSumBounded(b, ai, n - 1);
      RowSumBounded(b, ai, n - 1, 8);
    }
  }

  /** An evaluation is far from the 32-bit limits the search uses as infinities. */
  lemma EvaluationBounded(b: Grid, ai: char)
    requires IsBoard(b)
    ensures -EvalBound <= Evaluate(b, ai) <= EvalBound
    ensures INT_MIN < -EvalBound && EvalBound < INT_MAX
  {
    RowsSumBounded(b, ai, 8);
  }

  lemma {:induction false} RowSumAntisymmetric(b: Grid, row: int, n: int)
    requires IsBoard(b) && InRange(row) && 0 <= n <= 8
    ensures RowSum(b, 'w', row, n) == -RowSum(b, 'b', row, n)
  {
    if n > 0 {
      RowSumAntisymmetric(b, row, n - 1);
      var piece := b[row][n - 1];
      if piece != Empty {
        assert PieceColor(piece) in {'w', 'b'};
      }
    }
  }

  lemma {:induction false} RowsSumAntisymmetric(b: Grid, n: int)
    requires IsBoard(b) && 0 <= n <= 8
    ensures RowsSum(b, 'w', n) == -RowsSum(b, 'b', n)
  {
    if n > 0 {
      RowsSumAntisymmetric(b, n - 1);
      RowSumAntisymmetric(b, n - 1, 8);
    }
  }

  /** White's evaluation of any board is the negation of black's. */
  lemma EvaluationAntisymmetric(b: Grid)
    requires IsBoard(b)
    ensures Evaluate(b, 'w') == -Evaluate(b, 'b')
  {
    RowsSumAntisymmetric(b, 8);
  }

  lemma {:induction false} RowSumEmpty(b: Grid, ai: char, row: int, n: int)
    requires IsBoard(b) && InRange(row) && 0 <= n <= 8
    requires forall c :: 0 <= c < 8 ==> b[row][c] == Empty
    ensures RowSum(b, ai, row, n) == 0
  {
    if n > 0 {
      RowSumEmpty(b, ai, row, n - 1);
    }
  }

  lemma {:induction false} RowsSumEmpty(b: Grid, ai: char, n: int)
    requires IsBoard(b) && 0 <= n <= 8
    requires forall r, c :: 0 <= r < 8 && 0 <= c < 8 ==> b[r][c] == Empty
    ensures RowsSum(b, ai, n) == 0
  {
    if n > 0 {
      RowsSumEmpty(b, ai, n - 1);
      RowSumEmpty(b, ai, n - 1, 8);
    }
  }

  /** A board with no pieces evaluates to 0. */
  lemma EmptyBoardIsZero(b: Grid, ai: char)
    requires IsBoard(b)
    requires forall r, c :: 0 <= r < 8 && 0 <= c < 8 ==> b[r][c] == Empty
    ensures Evaluate(b, ai) == 0
  {
    RowsSumEmpty(b, ai, 8);
  }
}
