/** Move generation for the AI: make and undo on board values, the row-major
    enumeration of validator-approved moves, the attack test, and the
    captures-first ordering. */
module MoveGen {
  import opened Squares
  import opened Rules
  import opened AiTypes
  import opened Evaluation

  /** All four coordinates of a move are on the board. */
  predicate OnBoardMove(m: Move) {
    InRange(m.fromRow) && InRange(m.fromCol) && InRange(m.toRow) && InRange(m.toCol)
  }

  predicate AllOnBoard(ms: seq<Move>) {
    forall i :: 0 <= i < |ms| ==> OnBoardMove(ms[i])
  }

  /** `makeMove` of the AI: the same relocation as the widget's. */
  function MakeMove(b: Grid, m: Move): (r: Grid)
    requires IsBoard(b) && OnBoardMove(m)
    ensures IsBoard(r)
  {
    Relocate(b, m.fromRow, m.fromCol, m.toRow, m.toCol)
  }

  /** `undoMove`: the target's text goes back to the source square, then the
      target gets the recorded captured text. */
  function UndoMove(b: Grid, m: Move): (r: Grid)
    requires IsBoard(b) && OnBoardMove(m)
    ensures IsBoard(r)
    ensures r[m.toRow][m.toCol] == m.capturedPiece
    ensures (m.fromRow, m.fromCol) != (m.toRow, m.toCol) ==> r[m.fromRow][m.fromCol] == b[m.toRow][m.toCol]
    ensures forall i, j :: 0 <= i < 8 && 0 <= j < 8 && (i, j) != (m.fromRow, m.fromCol) && (i, j) != (m.toRow, m.toCol) ==> r[i][j] == b[i][j]
  {
    var back := b[m.fromRow := b[m.fromRow][m.fromCol := b[m.toRow][m.toCol]]];
    back[m.toRow := back[m.toRow][m.toCol := m.capturedPiece]]
  }

  /** Two boards with the same squares are the same board. */
  lemma SameBoard(x: Grid, y: Grid)
    requires IsBoard(x) && IsBoard(y)
    requires forall i, j :: 0 <= i < 8 && 0 <= j < 8 ==> x[i][j] == y[i][j]
    ensures x == y
  {
    forall i | 0 <= i < 8
      ensures x[i] == y[i]
    {
      assert forall j :: 0 <= j < 8 ==> x[i][j] == y[i][j];
    }
  }

  /** Undo after make restores the board exactly whenever the move recorded
      what stood on its target square. */
  lemma UndoRestores(b: Grid, m: Move)
    requires IsBoard(b) && OnBoardMove(m)
    requires m.capturedPiece == b[m.toRow][m.toCol]
    ensures UndoMove(MakeMove(b, m), m) == b
  {
    var r := UndoMove(MakeMove(b, m), m);
    forall i, j | 0 <= i < 8 && 0 <= j < 8
      ensures r[i][j] == b[i][j]
    {
    }
    SameBoard(r, b);
  }

  // Enumeration.

  /** The move `getAllPossibleMoves` records for (fr, fc) -> (tr, tc). */
  function Generated(b: Grid, fr: int, fc: int, tr: int, tc: int): (m: Move)
    requires IsBoard(b) && InRange(tr) && InRange(tc)
    ensures m.fromRow == fr && m.fromCol == fc && m.toRow == tr && m.toCol == tc
    ensures m.score == 0 && m.capturedPiece == b[tr][tc]
  {
    MoveOf(fr, fc, tr, tc).(capturedPiece := b[tr][tc])
  }

  /** Position of a move in row-major (fromRow, fromCol, toRow, toCol) order. */
  function Key(m: Move): int {
    ((m.fromRow * 8 + m.fromCol) * 8 + m.toRow) * 8 + m.toCol
  }

  /** Strictly increasing in row-major order (so also free of duplicates). */
  predicate RowMajor(ms: seq<Move>) {
    forall i, j :: 0 <= i < j < |ms| ==> Key(ms[i]) < Key(ms[j])
  }

  /** The moves of the piece on (fr, fc) onto row tr, columns below tc. */
  function TargetsInRow(b: Grid, fr: int, fc: int, tr: int, tc: int): seq<Move>
    requires IsBoard(b) && InRange(fr) && InRange(fc) && InRange(tr) && 0 <= tc <= 8
  {
    if tc == 0 then []
    else
      var here := if IsValidMove(b, fr, fc, tr, tc - 1) then [Generated(b, fr, fc, tr, tc - 1)] else [];
      TargetsInRow(b, fr, fc, tr, tc - 1) + here
  }

  /** The moves of the piece on (fr, fc) onto the rows below tr. */
  function TargetsBelow(b: Grid, fr: int, fc: int, tr: int): seq<Move>
    requires IsBoard(b) && InRange(fr) && InRange(fc) && 0 <= tr <= 8
  {
    if tr == 0 then [] else TargetsBelow(b, fr, fc, tr - 1) + TargetsInRow(b, fr, fc, tr - 1, 8)
  }

  /** The moves of the piece on (fr, fc) when it has colour `color`, else none. */
  function MovesFrom(b: Grid, color: char, fr: int, fc: int): seq<Move>
    requires IsBoard(b) && InRange(fr) && InRange(fc)
  {
    var piece := b[fr][fc];
    if piece != Empty && PieceColor(piece) == color then TargetsBelow(b, fr, fc, 8) else []
  }

  /** The moves of `color` from row fr, columns below fc. */
  function SourcesInRow(b: Grid, color: char, fr: int, fc: int): seq<Move>
    requires IsBoard(b) && InRange(fr) && 0 <= fc <= 8
  {
    if fc == 0 then [] else SourcesInRow(b, color, fr, fc - 1) + MovesFrom(b, color, fr, fc - 1)
  }

  /** The moves of `color` from the rows below fr. */
  function SourcesBelow(b: Grid, color: char, fr: int): seq<Move>
    requires IsBoard(b) && 0 <= fr <= 8
  {
    if fr == 0 then [] else SourcesBelow(b, color, fr - 1) + SourcesInRow(b, color, fr - 1, 8)
  }

  /** `getAllPossibleMoves` as a value. */
  function AllMoves(b: Grid, color: char): seq<Move>
    requires IsBoard(b)
  {
    SourcesBelow(b, color, 8)
  }

  /** What makes a move one that `getAllPossibleMoves(b, color)` lists: on the
      board, a piece of `color` on the source, approved by the validator, and
      recorded with score 0 and the target's text as captured piece. */
  predicate Generates(b: Grid, color: char, m: Move)
    requires IsBoard(b)
  {
    OnBoardMove(m)
    && PieceColor(b[m.fromRow][m.fromCol]) == color
    && IsValidMove(b, m.fromRow, m.fromCol, m.toRow, m.toCol)
    && m == Generated(b, m.fromRow, m.fromCol, m.toRow, m.toCol)
  }

  /** The moves of one piece that `Generates` allows. */
  predicate PieceMove(b: Grid, fr: int, fc: int, m: Move)
    requires IsBoard(b) && InRange(fr) && InRange(fc)
  {
    m.fromRow == fr && m.fromCol == fc && Generates(b, PieceColor(b[fr][fc]), m)
  }

  /** Concatenating two row-major lists whose keys are separated stays row-major. */
  lemma RowMajorAppend(xs: seq<Move>, ys: seq<Move>)
    requires RowMajor(xs) && RowMajor(ys)
    requires forall x, y :: x in xs && y in ys ==> Key(x) < Key(y)
    ensures RowMajor(xs + ys)
  {
    var zs := xs + ys;
    forall i, j | 0 <= i < j < |zs|
      ensures Key(zs[i]) < Key(zs[j])
    {
      if j >= |xs| && i < |xs| {
        assert zs[i] in xs && zs[j] in ys;
      }
    }
  }

  lemma {:induction false} TargetsInRowFacts(b: Grid, fr: int, fc: int, tr: int, tc: int)
    requires IsBoard(b) && InRange(fr) && InRange(fc) && InRange(tr) && 0 <= tc <= 8
    ensures forall m :: m in TargetsInRow(b, fr, fc, tr, tc) <==> PieceMove(b, fr, fc, m) && m.toRow == tr && m.toCol < tc
    ensures RowMajor(TargetsInRow(b, fr, fc, tr, tc))
  {
    if tc > 0 {
      TargetsInRowFacts(b, fr, fc, tr, tc - 1);
      var prev := TargetsInRow(b, fr, fc, tr, tc - 1);
      var last := if IsValidMove(b, fr, fc, tr, tc - 1) then [Generated(b, fr, fc, tr, tc - 1)] else [];
      forall x, y | x in prev && y in last
        ensures Key(x) < Key(y)
      {
        assert x.fromRow == fr && x.fromCol == fc && x.toRow == tr && x.toCol < tc - 1;
      }
      RowMajorAppend(prev, last);
      assert TargetsInRow(b, fr, fc, tr, tc) == prev + last;
      forall m
        ensures m in prev + last <==> PieceMove(b, fr, fc, m) && m.toRow == tr && m.toCol < tc
      {
        if m.toRow == tr && m.toCol == tc - 1 {
          assert m !in prev;
        }
      }
    }
  }

  lemma {:induction false} TargetsBelowFacts(b: Grid, fr: int, fc: int, tr: int)
    requires IsBoard(b) && InRange(fr) && InRange(fc) && 0 <= tr <= 8
    ensures forall m :: m in TargetsBelow(b, fr, fc, tr) <==> PieceMove(b, fr, fc, m) && m.toRow < tr
    ensures RowMajor(TargetsBelow(b, fr, fc, tr))
  {
    if tr > 0 {
      TargetsBelowFacts(b, fr, fc, tr - 1);
      TargetsInRowFacts(b, fr, fc, tr - 1, 8);
      RowMajorAppend(TargetsBelow(b, fr, fc, tr - 1), TargetsInRow(b, fr, fc, tr - 1, 8));
    }
  }

  lemma MovesFromFacts(b: Grid, color: char, fr: int, fc: int)
    requires IsBoard(b) && InRange(fr) && InRange(fc)
    ensures forall m :: m in MovesFrom(b, color, fr, fc) <==> Generates(b, color, m) && m.fromRow == fr && m.fromCol == fc
    ensures RowMajor(MovesFrom(b, color, fr, fc))
  {
    TargetsBelowFacts(b, fr, fc, 8);
  }

  lemma {:induction false} SourcesInRowFacts(b: Grid, color: char, fr: int, fc: int)
    requires IsBoard(b) && InRange(fr) && 0 <= fc <= 8
    ensures forall m :: m in SourcesInRow(b, color, fr, fc) <==> Generates(b, color, m) && m.fromRow == fr && m.fromCol < fc
    ensures RowMajor(SourcesInRow(b, color, fr, fc))
  {
    if fc > 0 {
      SourcesInRowFacts(b, color, fr, fc - 1);
      MovesFromFacts(b, color, fr, fc - 1);
      RowMajorAppend(SourcesInRow(b, color, fr, fc - 1), MovesFrom(b, color, fr, fc - 1));
    }
  }

  lemma {:induction false} SourcesBelowFacts(b: Grid, color: char, fr: int)
    requires IsBoard(b) && 0 <= fr <= 8
    ensures forall m :: m in SourcesBelow(b, color, fr) <==> Generates(b, color, m) && m.fromRow < fr
    ensures RowMajor(SourcesBelow(b, color, fr))
  {
    if fr > 0 {
      SourcesBelowFacts(b, color, fr - 1);
      SourcesInRowFacts(b, color, fr - 1, 8);
      RowMajorAppend(SourcesBelow(b, color, fr - 1), SourcesInRow(b, color, fr - 1, 8));
    }
  }

  /** `getAllPossibleMoves(b, color)` lists exactly the moves `Generates`
      describes, in strictly increasing row-major order. */
  lemma AllMovesExactly(b: Grid, color: char)
    requires IsBoard(b)
    ensures forall m :: m in AllMoves(b, color) <==> Generates(b, color, m)
    ensures RowMajor(AllMoves(b, color))
  {
    SourcesBelowFacts(b, color, 8);
  }

  /** Every listed move can be undone exactly, leaves its source square, and
      is never the "no move" sentinel. */
  lemma ListedMovesUndo(b: Grid, color: char, m: Move)
    requires IsBoard(b) && m in AllMoves(b, color)
    ensures OnBoardMove(m) && (m.fromRow, m.fromCol) != (m.toRow, m.toCol)
    ensures UndoMove(MakeMove(b, m), m) == b
    ensures m != NoMove()
  {
    AllMovesExactly(b, color);
    UndoRestores(b, m);
  }

  lemma AllMovesOnBoard(b: Grid, color: char)
    requires IsBoard(b)
    ensures AllOnBoard(AllMoves(b, color))
  {
    AllMovesExactly(b, color);
    var ms := AllMoves(b, color);
    forall i | 0 <= i < |ms|
      ensures OnBoardMove(ms[i])
    {
      assert ms[i] in ms;
    }
  }

  lemma Associative(xs: seq<Move>, ys: seq<Move>, zs: seq<Move>)
    ensures xs + ys + zs == xs + (ys + zs)
  {
  }

  /** `getAllPossibleMoves`: four nested loops appending validator-approved
      moves, each recording the target's text. */
  method GetAllPossibleMoves(b: Grid, color: char) returns (moves: seq<Move>)
    requires IsBoard(b)
    ensures moves == AllMoves(b, color)
  {
    moves := [];
    var fromRow := 0;
    while fromRow < 8
      invariant 0 <= fromRow <= 8
      invariant moves == SourcesBelow(b, color, fromRow)
    {
      var fromCol := 0;
      while fromCol < 8
        invariant 0 <= fromCol <= 8
        invariant moves == SourcesBelow(b, color, fromRow) + SourcesInRow(b, color, fromRow, fromCol)
      {
        ghost var before := moves;
        var piece := b[fromRow][fromCol];
        if piece != Empty && PieceColor(piece) == color {
          moves := AppendTargets(b, fromRow, fromCol, moves);
        }
        assert moves == before + MovesFrom(b, color, fromRow, fromCol);
        Associative(SourcesBelow(b, color, fromRow), SourcesInRow(b, color, fromRow, fromCol), MovesFrom(b, color, fromRow, fromCol));
        fromCol := fromCol + 1;
      }
      fromRow := fromRow + 1;
    }
  }

  /** The two inner loops of `getAllPossibleMoves`, over the targets of one source. */
  method AppendTargets(b: Grid, fromRow: int, fromCol: int, moves0: seq<Move>) returns (moves: seq<Move>)
    requires IsBoard(b) && InRange(fromRow) && InRange(fromCol)
    ensures moves == moves0 + TargetsBelow(b, fromRow, fromCol, 8)
  {
    moves := moves0;
    var toRow := 0;
    while toRow < 8
      invariant 0 <= toRow <= 8
      invariant moves == moves0 + TargetsBelow(b, fromRow, fromCol, toRow)
    {
      var toCol := 0;
      while toCol < 8
        invariant 0 <= toCol <= 8
        invariant moves == moves0 + TargetsBelow(b, fromRow, fromCol, toRow) + TargetsInRow(b, fromRow, fromCol, toRow, toCol)
      {
        var ok := IsValidMoveOn(b, fromRow, fromCol, toRow, toCol);
        ghost var before := moves;
        if ok {
          var move := MoveOf(fromRow, fromCol, toRow, toCol);
          move := move.(capturedPiece := b[toRow][toCol]);
          moves := moves + [move];
        }
        Associative(moves0 + TargetsBelow(b, fromRow, fromCol, toRow), TargetsInRow(b, fromRow, fromCol, toRow, toCol),
          if ok then [Generated(b, fromRow, fromCol, toRow, toCol)] else []);
        toCol := toCol + 1;
      }
      toRow := toRow + 1;
    }
  }

  // Attack test.

  /** Some piece of `color` has a validator-approved move onto (row, col). */
  ghost predicate Attacked(b: Grid, row: int, col: int, color: char)
    requires IsBoard(b)
  {
    exists fr, fc :: InRange(fr) && InRange(fc) && PieceColor(b[fr][fc]) == color && IsValidMove(b, fr, fc, row, col)
  }

  /** `isUnderAttack`: scan the sources row-major, stop at the first attacker. */
  method IsUnderAttack(b: Grid, row: int, col: int, attackingColor: char) returns (attacked: bool)
    requires IsBoard(b)
    ensures attacked == Attacked(b, row, col, attackingColor)
  {
    var fromRow := 0;
    while fromRow < 8
      invariant 0 <= fromRow <= 8
      invariant forall fr, fc :: 0 <= fr < fromRow && InRange(fc) ==>
        !(PieceColor(b[fr][fc]) == attackingColor && IsValidMove(b, fr, fc, row, col))
    {
      var fromCol := 0;
      while fromCol < 8
        invariant 0 <= fromCol <= 8
        invariant forall fr, fc :: 0 <= fr < fromRow && InRange(fc) ==>
          !(PieceColor(b[fr][fc]) == attackingColor && IsValidMove(b, fr, fc, row, col))
        invariant forall fc :: 0 <= fc < fromCol ==>
          !(PieceColor(b[fromRow][fc]) == attackingColor && IsValidMove(b, fromRow, fc, row, col))
      {
        var piece := b[fromRow][fromCol];
        if piece != Empty && PieceColor(piece) == attackingColor {
          var ok := IsValidMoveOn(b, fromRow, fromCol, row, col);
          if ok {
            return true;
          }
        }
        fromCol := fromCol + 1;
      }
      fromRow := fromRow + 1;
    }
    return false;
  }

  /** A square is attacked by `color` exactly when some move listed for
      `color` lands on it. */
  lemma AttackedIffTargeted(b: Grid, row: int, col: int, color: char)
    requires IsBoard(b) && InRange(row) && InRange(col)
    ensures Attacked(b, row, col, color) <==>
      exists m :: m in AllMoves(b, color) && m.toRow == row && m.toCol == col
  {
    AllMovesExactly(b, color);
    if Attacked(b, row, col, color) {
      var fr, fc :| InRange(fr) && InRange(fc) && PieceColor(b[fr][fc]) == color && IsValidMove(b, fr, fc, row, col);
      assert Generates(b, color, Generated(b, fr, fc, row, col));
    }
  }

  // Ordering.

  /** The sort key behind `orderMoves`: -1 for a quiet move, the captured
      piece's value for a capture. */
  function Rank(b: Grid, m: Move): int
    requires IsBoard(b) && OnBoardMove(m)
  {
    var target := b[m.toRow][m.toCol];
    if target == Empty then -1 else PieceValue(target)
  }

  /** The comparator `orderMoves` hands to the sort: does x go strictly before
      y? Exactly when x ranks higher: a capture before a quiet move, and the
      more valuable capture first. */
  function GoesBefore(b: Grid, x: Move, y: Move): (before: bool)
    requires IsBoard(b) && OnBoardMove(x) && OnBoardMove(y)
    ensures before <==> Rank(b, x) > Rank(b, y)
  {
    var xCapture := b[x.toRow][x.toCol] != Empty;
    var yCapture := b[y.toRow][y.toCol] != Empty;
    if xCapture && !yCapture then true
    else if !xCapture && yCapture then false
    else if xCapture && yCapture then PieceValue(b[x.toRow][x.toCol]) > PieceValue(b[y.toRow][y.toCol])
    else false
  }

  /** Non-increasing rank. */
  predicate RankOrdered(b: Grid, ms: seq<Move>)
    requires IsBoard(b) && AllOnBoard(ms)
  {
    forall i, j :: 0 <= i < j < |ms| ==> Rank(b, ms[i]) >= Rank(b, ms[j])
  }

  /** In a rank-ordered list no quiet move precedes a capture, captured values
      never increase, and the comparator never puts a later move first. */
  lemma RankOrderedCapturesFirst(b: Grid, ms: seq<Move>)
    requires IsBoard(b) && AllOnBoard(ms) && RankOrdered(b, ms)
    ensures forall i, j :: 0 <= i < j < |ms| && b[ms[i].toRow][ms[i].toCol] == Empty ==> b[ms[j].toRow][ms[j].toCol] == Empty
    ensures forall i, j :: 0 <= i < j < |ms| && b[ms[j].toRow][ms[j].toCol] != Empty ==>
      PieceValue(b[ms[i].toRow][ms[i].toCol]) >= PieceValue(b[ms[j].toRow][ms[j].toCol])
    ensures forall i, j :: 0 <= i < j < |ms| ==> !GoesBefore(b, ms[j], ms[i])
  {
  }

  /** `orderMoves`: sorts in place by the comparator (an insertion sort stands
      for `std::sort`, whose order among equal-ranked moves is unspecified). */
  method OrderMoves(moves: array<Move>, b: Grid)
    requires IsBoard(b) && AllOnBoard(moves[..])
    modifies moves
    ensures multiset(moves[..]) == multiset(old(moves[..]))
    ensures AllOnBoard(moves[..]) && RankOrdered(b, moves[..])
  {
    var i := 0;
    while i < moves.Length
      invariant 0 <= i <= moves.Length
      invariant multiset(moves[..]) == multiset(old(moves[..]))
      invariant AllOnBoard(moves[..])
      invariant AllOnBoard(moves[..i]) && RankOrdered(b, moves[..i])
    {
      InsertLast(moves, b, i);
      i := i + 1;
    }
    assert moves[..] == moves[..moves.Length];
  }

  /** One insertion step: moves[i] sinks left past every lower-ranked move,
      so moves[..i + 1] becomes rank-ordered. */
  method InsertLast(moves: array<Move>, b: Grid, i: int)
    requires IsBoard(b) && AllOnBoard(moves[..]) && 0 <= i < moves.Length
    requires AllOnBoard(moves[..i]) && RankOrdered(b, moves[..i])
    modifies moves
    ensures multiset(moves[..]) == multiset(old(moves[..]))
    ensures AllOnBoard(moves[..])
    ensures AllOnBoard(moves[..i + 1]) && RankOrdered(b, moves[..i + 1])
  {
    var j := i;
    assert Sinking(b, moves[..], j, i);
    while j > 0 && Rank(b, moves[j - 1]) < Rank(b, moves[j])
      invariant Sinking(b, moves[..], j, i)
      invariant multiset(moves[..]) == multiset(old(moves[..]))
    {
      ghost var before := moves[..];
      SinkStep(b, before, j, i);
      moves[j - 1], moves[j] := moves[j], moves[j - 1];
      assert moves[..] == before[j - 1 := before[j]][j := before[j - 1]];
      j := j - 1;
    }
    SinkDone(b, moves[..], j, i);
  }

  /** Mid-insertion: everything in s[..i + 1] but the sinking move at j is in
      rank order, and the sinking move outranks everything after it. */
  predicate Sinking(b: Grid, s: seq<Move>, j: int, i: int)
    requires IsBoard(b)
  {
    0 <= j <= i < |s| && AllOnBoard(s)
    && (forall k, l :: 0 <= k < l <= i && k != j && l != j ==> Rank(b, s[k]) >= Rank(b, s[l]))
    && (forall l :: j < l <= i ==> Rank(b, s[j]) > Rank(b, s[l]))
  }

  lemma SinkStep(b: Grid, s: seq<Move>, j: int, i: int)
    requires IsBoard(b) && Sinking(b, s, j, i) && j > 0 && Rank(b, s[j - 1]) < Rank(b, s[j])
    ensures Sinking(b, s[j - 1 := s[j]][j := s[j - 1]], j - 1, i)
    ensures multiset(s[j - 1 := s[j]][j := s[j - 1]]) == multiset(s)
  {
  }

  lemma SinkDone(b: Grid, s: seq<Move>, j: int, i: int)
    requires IsBoard(b) && Sinking(b, s, j, i) && (j == 0 || Rank(b, s[j - 1]) >= Rank(b, s[j]))
    ensures AllOnBoard(s[..i + 1]) && RankOrdered(b, s[..i + 1])
  {
  }
}
