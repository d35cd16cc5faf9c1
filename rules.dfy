/** The move-shape validator `CheckIfValidMove` and the `isValidMove` wrapper
    around it. Moves are pseudo-legal only: there is no castling, en passant,
    promotion or king-safety test anywhere in the validator. Coordinates are
    (row, column): x is the row and y the column. */
module Rules {
  import opened Squares

  function Abs(x: int): nat { if x < 0 then -x else x }

  function Max(a: int, b: int): int { if a < b then b else a }

  /** The k-th coordinate on the way from f towards t along one axis. */
  function Step(f: int, t: int, k: int): int {
    if t > f then f + k else if t < f then f - k else f
  }

  /** Number of single steps a straight or diagonal move takes. */
  function Dist(fx: int, fy: int, tx: int, ty: int): nat {
    Max(Abs(tx - fx), Abs(ty - fy))
  }

  predicate Orthogonal(fx: int, fy: int, tx: int, ty: int) { fx == tx || fy == ty }

  predicate Diagonal(fx: int, fy: int, tx: int, ty: int) { Abs(tx - fx) == Abs(ty - fy) }

  predicate OnBoard(fx: int, fy: int, tx: int, ty: int) {
    InRange(fx) && InRange(fy) && InRange(tx) && InRange(ty)
  }

  /** Every square strictly between source and destination is empty. */
  predicate PathClear(b: Grid, fx: int, fy: int, tx: int, ty: int)
    requires IsBoard(b) && OnBoard(fx, fy, tx, ty)
    requires Orthogonal(fx, fy, tx, ty) || Diagonal(fx, fy, tx, ty)
  {
    forall k :: 0 < k < Dist(fx, fy, tx, ty) ==> b[Step(fx, tx, k)][Step(fy, ty, k)] == Empty
  }

  function Opposite(race: char): char { if race == 'b' then 'w' else 'b' }

  /** The destination is empty or holds a piece of the opposite colour. */
  predicate Capturable(b: Grid, tx: int, ty: int, race: char)
    requires IsBoard(b) && InRange(tx) && InRange(ty)
  {
    b[tx][ty] == Empty || Race(b[tx][ty]) == Opposite(race)
  }

  /** Pawn shape: white moves towards row 0 and starts on row 6, black moves
      towards row 7 and starts on row 1. */
  predicate PawnMove(b: Grid, fx: int, fy: int, tx: int, ty: int, race: char)
    requires IsBoard(b) && OnBoard(fx, fy, tx, ty)
  {
    (race == 'w' &&
      ((tx == fx - 1 && ty == fy && b[tx][ty] == Empty)
       || (fx == 6 && tx == fx - 2 && ty == fy && b[fx - 1][fy] == Empty && b[tx][ty] == Empty)
       || (tx == fx - 1 && (ty == fy - 1 || ty == fy + 1) && b[tx][ty] != Empty
           && Race(b[tx][ty]) == Opposite(race))))
    ||
    (race == 'b' &&
      ((tx == fx + 1 && ty == fy && b[tx][ty] == Empty)
       || (fx == 1 && tx == fx + 2 && ty == fy && b[fx + 1][fy] == Empty && b[tx][ty] == Empty)
       || (tx == fx + 1 && (ty == fy - 1 || ty == fy + 1) && b[tx][ty] != Empty
           && Race(b[tx][ty]) == Opposite(race))))
  }

  predicate KnightJump(fx: int, fy: int, tx: int, ty: int) {
    (Abs(tx - fx) == 2 && Abs(ty - fy) == 1) || (Abs(tx - fx) == 1 && Abs(ty - fy) == 2)
  }

  predicate KingStep(fx: int, fy: int, tx: int, ty: int) {
    var dx, dy := Abs(tx - fx), Abs(ty - fy);
    (dx == 0 && dy == 1) || (dx == 1 && dy == 0) || (dx == 1 && dy == 1)
  }

  /** The per-piece shape test, dispatched on the piece letter. */
  predicate ShapeOk(b: Grid, fx: int, fy: int, tx: int, ty: int, race: char, name: char)
    requires IsBoard(b) && OnBoard(fx, fy, tx, ty)
  {
    if name == 'p' || name == 'P' then
      PawnMove(b, fx, fy, tx, ty, race)
    else if name == 'r' || name == 'R' then
      Orthogonal(fx, fy, tx, ty) && PathClear(b, fx, fy, tx, ty) && Capturable(b, tx, ty, race)
    else if name == 'n' || name == 'N' then
      KnightJump(fx, fy, tx, ty) && Capturable(b, tx, ty, race)
    else if name == 'b' || name == 'B' then
      Diagonal(fx, fy, tx, ty) && PathClear(b, fx, fy, tx, ty) && Capturable(b, tx, ty, race)
    else if name == 'k' || name == 'K' then
      KingStep(fx, fy, tx, ty) && Capturable(b, tx, ty, race)
    else if name == 'q' || name == 'Q' then
      (Orthogonal(fx, fy, tx, ty) || Diagonal(fx, fy, tx, ty))
      && PathClear(b, fx, fy, tx, ty) && Capturable(b, tx, ty, race)
    else
      false
  }

  /** What `CheckIfValidMove` accepts: in bounds, a real move, not onto a piece
      of the mover's own colour, and the piece's shape. */
  predicate ValidMove(fx: int, fy: int, tx: int, ty: int, b: Grid, race: char, name: char)
    requires IsBoard(b)
  {
    OnBoard(fx, fy, tx, ty)
    && (fx, fy) != (tx, ty)
    && !(b[tx][ty] != Empty && Race(b[tx][ty]) == race)
    && ShapeOk(b, fx, fy, tx, ty, race, name)
  }

  /** `isValidMove`: the source square must hold a piece; its colour comes from
      the first letter and its kind from that letter in lower case. */
  predicate IsValidMove(b: Grid, fr: int, fc: int, tr: int, tc: int)
    requires IsBoard(b) && InRange(fr) && InRange(fc)
  {
    b[fr][fc] != Empty
    && ValidMove(fr, fc, tr, tc, b, PieceColor(b[fr][fc]), ToLower(b[fr][fc][0]))
  }

  lemma StepOnPath(f: int, t: int, k: int)
    requires InRange(f) && InRange(t) && 0 <= k
    requires f == t || k <= Abs(t - f)
    ensures InRange(Step(f, t, k))
    ensures f != t ==> (Step(f, t, k) == t <==> k == Abs(t - f))
  {
  }

  /** The validator, walking the path squares one at a time as the source does. */
  method CheckIfValidMove(fx: int, fy: int, tx: int, ty: int, b: Grid, race: char, name: char)
    returns (ok: bool)
    requires IsBoard(b)
    ensures ok == ValidMove(fx, fy, tx, ty, b, race, name)
  {
    if fx < 0 || fx > 7 || fy < 0 || fy > 7 || tx < 0 || tx > 7 || ty < 0 || ty > 7 {
      return false;
    }
    if fx == tx && fy == ty {
      return false;
    }
    if b[tx][ty] != Empty {
      var targetRace := Race(b[tx][ty]);
      if targetRace == race {
        return false;
      }
    }
    var opposite := if race == 'b' then 'w' else 'b';

    if name == 'p' || name == 'P' {
      ok := CheckPawn(fx, fy, tx, ty, b, race, opposite);
      return ok;
    } else if name == 'r' || name == 'R' {
      if fx == tx {
        ok := WalkRank(b, fx, fy, ty);
        if !ok { return false; }
        return b[tx][ty] == Empty || Race(b[tx][ty]) == opposite;
      } else if fy == ty {
        ok := WalkFile(b, fx, tx, fy);
        if !ok { return false; }
        return b[tx][ty] == Empty || Race(b[tx][ty]) == opposite;
      }
    } else if name == 'n' || name == 'N' {
      var dx := Abs(tx - fx);
      var dy := Abs(ty - fy);
      if (dx == 2 && dy == 1) || (dx == 1 && dy == 2) {
        return b[tx][ty] == Empty || Race(b[tx][ty]) == opposite;
      }
    } else if name == 'b' || name == 'B' {
      if Abs(tx - fx) != Abs(ty - fy) {
        return false;
      }
      ok := WalkDiagonal(b, fx, fy, tx, ty);
      if !ok { return false; }
      return b[tx][ty] == Empty || Race(b[tx][ty]) == opposite;
    } else if name == 'k' || name == 'K' {
      var dx := Abs(tx - fx);
      var dy := Abs(ty - fy);
      if (dx == 0 && dy == 1) || (dx == 1 && dy == 0) || (dx == 1 && dy == 1) {
        return b[tx][ty] == Empty || Race(b[tx][ty]) == opposite;
      }
    } else if name == 'q' || name == 'Q' {
      var dx := tx - fx;
      var dy := ty - fy;
      if dx == 0 || dy == 0 {
        ok := WalkLine(b, fx, fy, tx, ty);
        if !ok { return false; }
      } else if Abs(dx) == Abs(dy) {
        ok := WalkDiagonal(b, fx, fy, tx, ty);
        if !ok { return false; }
      } else {
        return false;
      }
      return b[tx][ty] == Empty || Race(b[tx][ty]) == opposite;
    }
    return false;
  }

  /** The pawn branch of `CheckIfValidMove` (source lines 267-308): each
      accepted shape returns true, anything else falls through to false. */
  method CheckPawn(fx: int, fy: int, tx: int, ty: int, b: Grid, race: char, opposite: char)
    returns (ok: bool)
    requires IsBoard(b) && OnBoard(fx, fy, tx, ty) && opposite == Opposite(race)
    ensures ok == PawnMove(b, fx, fy, tx, ty, race)
  {
    if race == 'w' {
      if tx == fx - 1 && ty == fy && b[tx][ty] == Empty {
        return true;
      }
      if fx == 6 && tx == fx - 2 && ty == fy && b[fx - 1][fy] == Empty && b[tx][ty] == Empty {
        return true;
      }
      if tx == fx - 1 && (ty == fy - 1 || ty == fy + 1) && b[tx][ty] != Empty
         && Race(b[tx][ty]) == opposite {
        return true;
      }
    }
    if race == 'b' {
      if tx == fx + 1 && ty == fy && b[tx][ty] == Empty {
        return true;
      }
      if fx == 1 && tx == fx + 2 && ty == fy && b[fx + 1][fy] == Empty && b[tx][ty] == Empty {
        return true;
      }
      if tx == fx + 1 && (ty == fy - 1 || ty == fy + 1) && b[tx][ty] != Empty
         && Race(b[tx][ty]) == opposite {
        return true;
      }
    }
    return false;
  }

  /** The rook's loop along row x (source lines 312-318). */
  method WalkRank(b: Grid, x: int, fy: int, ty: int) returns (clear: bool)
    requires IsBoard(b) && InRange(x) && InRange(fy) && InRange(ty) && fy != ty
    ensures clear == PathClear(b, x, fy, x, ty)
  {
    var y := if ty > fy then 1 else -1;
    var i := fy + y;
    ghost var k := 1;
    while i != ty
      invariant 1 <= k <= Abs(ty - fy)
      invariant i == Step(fy, ty, k)
      invariant forall j :: 0 < j < k ==> b[x][Step(fy, ty, j)] == Empty
      decreases Abs(ty - fy) - k
    {
      StepOnPath(fy, ty, k);
      if b[x][i] != Empty {
        assert b[Step(x, x, k)][Step(fy, ty, k)] != Empty;
        return false;
      }
      i := i + y;
      k := k + 1;
    }
    StepOnPath(fy, ty, k);
    return true;
  }

  /** The rook's loop along column y (source lines 324-330). */
  method WalkFile(b: Grid, fx: int, tx: int, y: int) returns (clear: bool)
    requires IsBoard(b) && InRange(fx) && InRange(tx) && InRange(y) && fx != tx
    ensures clear == PathClear(b, fx, y, tx, y)
  {
    var x := if tx > fx then 1 else -1;
    var i := fx + x;
    ghost var k := 1;
    while i != tx
      invariant 1 <= k <= Abs(tx - fx)
      invariant i == Step(fx, tx, k)
      invariant forall j :: 0 < j < k ==> b[Step(fx, tx, j)][y] == Empty
      decreases Abs(tx - fx) - k
    {
      StepOnPath(fx, tx, k);
      if b[i][y] != Empty {
        assert b[Step(fx, tx, k)][Step(y, y, k)] != Empty;
        return false;
      }
      i := i + x;
      k := k + 1;
    }
    StepOnPath(fx, tx, k);
    return true;
  }

  /** The bishop's loop, also the queen's diagonal loop: it stops as soon as
      either coordinate reaches the destination's. */
  method WalkDiagonal(b: Grid, fx: int, fy: int, tx: int, ty: int) returns (clear: bool)
    requires IsBoard(b) && OnBoard(fx, fy, tx, ty) && fx != tx && Diagonal(fx, fy, tx, ty)
    ensures clear == PathClear(b, fx, fy, tx, ty)
  {
    var dx := if tx > fx then 1 else -1;
    var dy := if ty > fy then 1 else -1;
    var x := fx + dx;
    var y := fy + dy;
    ghost var k := 1;
    while x != tx && y != ty
      invariant 1 <= k <= Abs(tx - fx)
      invariant x == Step(fx, tx, k) && y == Step(fy, ty, k)
      invariant forall j :: 0 < j < k ==> b[Step(fx, tx, j)][Step(fy, ty, j)] == Empty
      decreases Abs(tx - fx) - k
    {
      StepOnPath(fx, tx, k);
      StepOnPath(fy, ty, k);
      if b[x][y] != Empty {
        return false;
      }
      x := x + dx;
      y := y + dy;
      k := k + 1;
    }
    StepOnPath(fx, tx, k);
    StepOnPath(fy, ty, k);
    return true;
  }

  /** The queen's orthogonal loop: it runs until both coordinates match. */
  method WalkLine(b: Grid, fx: int, fy: int, tx: int, ty: int) returns (clear: bool)
    requires IsBoard(b) && OnBoard(fx, fy, tx, ty) && (fx, fy) != (tx, ty)
    requires fx == tx || fy == ty
    ensures clear == PathClear(b, fx, fy, tx, ty)
  {
    var dx := tx - fx;
    var dy := ty - fy;
    var stepX := if dx == 0 then 0 else if dx > 0 then 1 else -1;
    var stepY := if dy == 0 then 0 else if dy > 0 then 1 else -1;
    var x := fx + stepX;
    var y := fy + stepY;
    ghost var n := Dist(fx, fy, tx, ty);
    ghost var k := 1;
    while x != tx || y != ty
      invariant 1 <= k <= n
      invariant x == Step(fx, tx, k) && y == Step(fy, ty, k)
      invariant forall j :: 0 < j < k ==> b[Step(fx, tx, j)][Step(fy, ty, j)] == Empty
      decreases n - k
    {
      StepOnPath(fx, tx, k);
      StepOnPath(fy, ty, k);
      if b[x][y] != Empty {
        return false;
      }
      x := x + stepX;
      y := y + stepY;
      k := k + 1;
    }
    return true;
  }

  /** `isValidMove`, reading the source square before any bounds check. */
  method IsValidMoveOn(b: Grid, fr: int, fc: int, tr: int, tc: int) returns (ok: bool)
    requires IsBoard(b) && InRange(fr) && InRange(fc)
    ensures ok == IsValidMove(b, fr, fc, tr, tc)
  {
    if b[fr][fc] == Empty {
      return false;
    }
    var piece := b[fr][fc];
    var race := PieceColor(piece);
    var name := ToLower(piece[0]);
    ok := CheckIfValidMove(fr, fc, tr, tc, b, race, name);
  }

  // Properties of the validator.

  /** Off-board coordinates and null moves are rejected before any piece rule. */
  lemma RejectsOffBoardAndNullMoves(fx: int, fy: int, tx: int, ty: int, b: Grid, race: char, name: char)
    requires IsBoard(b)
    requires !OnBoard(fx, fy, tx, ty) || (fx == tx && fy == ty)
    ensures !ValidMove(fx, fy, tx, ty, b, race, name)
  {
  }

  /** An accepted move never lands on a piece of the mover's own colour. */
  lemma NeverOntoOwnColour(fx: int, fy: int, tx: int, ty: int, b: Grid, race: char, name: char)
    requires IsBoard(b) && ValidMove(fx, fy, tx, ty, b, race, name)
    ensures b[tx][ty] == Empty || Race(b[tx][ty]) != race
  {
  }

  /** A white pawn moves one square up onto an empty square, two from row 6
      over two empty squares, or one diagonal square up onto a black piece. */
  lemma WhitePawnMoves(fx: int, fy: int, tx: int, ty: int, b: Grid, name: char)
    requires IsBoard(b) && OnBoard(fx, fy, tx, ty) && (name == 'p' || name == 'P')
    ensures ValidMove(fx, fy, tx, ty, b, 'w', name) <==>
      (tx == fx - 1 && ty == fy && b[tx][ty] == Empty)
      || (fx == 6 && tx == 4 && ty == fy && b[5][fy] == Empty && b[4][fy] == Empty)
      || (tx == fx - 1 && Abs(ty - fy) == 1 && b[tx][ty] != Empty && Race(b[tx][ty]) == 'b')
  {
  }

  /** The black pawn is the mirror image: one square down, two from row 1, or
      one diagonal square down onto a white piece. */
  lemma BlackPawnMoves(fx: int, fy: int, tx: int, ty: int, b: Grid, name: char)
    requires IsBoard(b) && OnBoard(fx, fy, tx, ty) && (name == 'p' || name == 'P')
    ensures ValidMove(fx, fy, tx, ty, b, 'b', name) <==>
      (tx == fx + 1 && ty == fy && b[tx][ty] == Empty)
      || (fx == 1 && tx == 3 && ty == fy && b[2][fy] == Empty && b[3][fy] == Empty)
      || (tx == fx + 1 && Abs(ty - fy) == 1 && b[tx][ty] != Empty && Race(b[tx][ty]) == 'w')
  {
  }

  predicate Slider(name: char) {
    name in {'r', 'R', 'b', 'B', 'q', 'Q'}
  }

  /** Rooks, bishops and queens cannot pass over an occupied square. */
  lemma SlidersBlocked(fx: int, fy: int, tx: int, ty: int, b: Grid, race: char, name: char, k: int)
    requires IsBoard(b) && OnBoard(fx, fy, tx, ty) && Slider(name)
    requires Orthogonal(fx, fy, tx, ty) || Diagonal(fx, fy, tx, ty)
    requires 0 < k < Dist(fx, fy, tx, ty)
    requires b[Step(fx, tx, k)][Step(fy, ty, k)] != Empty
    ensures !ValidMove(fx, fy, tx, ty, b, race, name)
  {
  }

  /** A rook moves only along a row or column, a bishop only along a diagonal,
      a queen along either. */
  lemma SlidersKeepToLines(fx: int, fy: int, tx: int, ty: int, b: Grid, race: char, name: char)
    requires IsBoard(b) && ValidMove(fx, fy, tx, ty, b, race, name)
    ensures (name == 'r' || name == 'R') ==> Orthogonal(fx, fy, tx, ty)
    ensures (name == 'b' || name == 'B') ==> Diagonal(fx, fy, tx, ty)
    ensures (name == 'q' || name == 'Q') ==> Orthogonal(fx, fy, tx, ty) || Diagonal(fx, fy, tx, ty)
  {
  }

  /** A knight jumps: only its destination square matters, never the squares
      in between. */
  lemma KnightIgnoresOtherSquares(fx: int, fy: int, tx: int, ty: int, b: Grid, b': Grid, race: char, name: char)
    requires IsBoard(b) && IsBoard(b') && OnBoard(fx, fy, tx, ty) && (name == 'n' || name == 'N')
    requires b'[tx][ty] == b[tx][ty]
    ensures ValidMove(fx, fy, tx, ty, b, race, name) <==> ValidMove(fx, fy, tx, ty, b', race, name)
    ensures ValidMove(fx, fy, tx, ty, b, race, name) ==> KnightJump(fx, fy, tx, ty)
  {
  }

  /** The king moves exactly one square; in particular there is no castling. */
  lemma KingSingleStep(fx: int, fy: int, tx: int, ty: int, b: Grid, race: char, name: char)
    requires IsBoard(b) && (name == 'k' || name == 'K') && ValidMove(fx, fy, tx, ty, b, race, name)
    ensures Abs(tx - fx) <= 1 && Abs(ty - fy) <= 1
  {
  }

  /** Any letter other than p, r, n, b, k, q (in either case) is never moved. */
  lemma UnknownPieceRejected(fx: int, fy: int, tx: int, ty: int, b: Grid, race: char, name: char)
    requires IsBoard(b) && name !in {'p', 'P', 'r', 'R', 'n', 'N', 'b', 'B', 'k', 'K', 'q', 'Q'}
    ensures !ValidMove(fx, fy, tx, ty, b, race, name)
  {
  }
}
