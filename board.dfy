/** The `ChessBoard` widget's game state: the board, the click-selection
    state machine, turn switching, moves from the network peer and from the
    AI, and the move notation it reports. */
module Board {
  import opened Squares
  import opened Rules
  import opened AiTypes
  import opened MoveGen
  import opened ChessAi

  datatype Option<T> = None | Some(value: T)

  /** The colour that moves next after `player`. */
  function Toggle(player: char): (next: char)
    ensures next == 'w' || next == 'b'
    ensures next != player || (player != 'w' && player != 'b')
  {
    if player == 'w' then 'b' else 'w'
  }

  /** Two switches give the turn back. */
  lemma ToggleTwice(player: char)
    requires player == 'w' || player == 'b'
    ensures Toggle(Toggle(player)) == player
  {
  }

  /** The name of a square: file letter 'a' + col, rank digit 8 - row. */
  function SquareName(row: int, col: int): (s: string)
    requires InRange(row) && InRange(col)
    ensures |s| == 2 && 'a' <= s[0] <= 'h' && '1' <= s[1] <= '8'
    ensures s[0] as int - 'a' as int == col && s[1] as int - '0' as int == 8 - row
  {
    [('a' as int + col) as char, ('0' as int + 8 - row) as char]
  }

  /** Reads a square name back: a file letter and a rank digit. */
  function ParseSquare(s: string): (r: Option<(int, int)>)
    ensures r.Some? <==> |s| == 2 && 'a' <= s[0] <= 'h' && '1' <= s[1] <= '8'
    ensures r.Some? ==> InRange(r.value.0) && InRange(r.value.1)
  {
    if |s| == 2 && 'a' <= s[0] <= 'h' && '1' <= s[1] <= '8' then
      Some((8 - (s[1] as int - '0' as int), s[0] as int - 'a' as int))
    else None
  }

  lemma SquareNameRoundTrip(row: int, col: int)
    requires InRange(row) && InRange(col)
    ensures ParseSquare(SquareName(row, col)) == Some((row, col))
  {
  }

  lemma ParseSquareRoundTrip(s: string)
    requires ParseSquare(s).Some?
    ensures SquareName(ParseSquare(s).value.0, ParseSquare(s).value.1) == s
  {
  }

  /** `getMoveNotation`: "<piece>: <from>-<to>", the piece text being what
      stands on the source square. */
  function MoveNotation(b: Grid, fr: int, fc: int, tr: int, tc: int): (n: string)
    requires IsBoard(b) && InRange(fr) && InRange(fc) && InRange(tr) && InRange(tc)
    ensures |n| == |b[fr][fc]| + 7
  {
    b[fr][fc] + ": " + SquareName(fr, fc) + "-" + SquareName(tr, tc)
  }

  /** Reads a notation back from its end: the piece text, then the two squares. */
  function ParseNotation(n: string): (r: Option<(Square, int, int, int, int)>)
    ensures r.Some? ==> InRange(r.value.1) && InRange(r.value.2) && InRange(r.value.3) && InRange(r.value.4)
  {
    if |n| >= 7 && n[|n| - 7..|n| - 5] == ": " && n[|n| - 3] == '-' then
      match (ParseSquare(n[|n| - 5..|n| - 3]), ParseSquare(n[|n| - 2..]))
      case (Some(from), Some(to)) => Some((n[..|n| - 7], from.0, from.1, to.0, to.1))
      case _ => None
    else None
  }

  /** The notation determines the moving piece's text and both squares. */
  lemma NotationRoundTrip(b: Grid, fr: int, fc: int, tr: int, tc: int)
    requires IsBoard(b) && InRange(fr) && InRange(fc) && InRange(tr) && InRange(tc)
    ensures ParseNotation(MoveNotation(b, fr, fc, tr, tc)) == Some((b[fr][fc], fr, fc, tr, tc))
  {
    var piece, from, to := b[fr][fc], SquareName(fr, fc), SquareName(tr, tc);
    var n := MoveNotation(b, fr, fc, tr, tc);
    var k := |piece|;
    assert n == piece + (": " + from + "-" + to);
    var tail := ": " + from + "-" + to;
    assert tail == [':', ' ', from[0], from[1], '-', to[0], to[1]];
    assert n[..k] == piece;
    assert n[k..] == tail;
    assert n[k..k + 2] == ": " && n[k + 2..k + 4] == from && n[k + 5..] == to;
    SquareNameRoundTrip(fr, fc);
    SquareNameRoundTrip(tr, tc);
  }

  /** Distinct moves on the same board have distinct notations. */
  lemma NotationInjective(b: Grid, fr: int, fc: int, tr: int, tc: int, fr': int, fc': int, tr': int, tc': int)
    requires IsBoard(b) && InRange(fr) && InRange(fc) && InRange(tr) && InRange(tc)
    requires InRange(fr') && InRange(fc') && InRange(tr') && InRange(tc')
    requires MoveNotation(b, fr, fc, tr, tc) == MoveNotation(b, fr', fc', tr', tc')
    ensures (fr, fc, tr, tc) == (fr', fc', tr', tc')
  {
    NotationRoundTrip(b, fr, fc, tr, tc);
    NotationRoundTrip(b, fr', fc', tr', tc');
  }

  /** (row, col) holds a piece of `player`, as `getPieceRace` tells colours. */
  predicate OwnPiece(b: Grid, row: int, col: int, player: char)
    requires IsBoard(b) && InRange(row) && InRange(col)
  {
    b[row][col] != Empty && PieceColor(b[row][col]) == player
  }

  /** The game widget. Painting, images, the timer and the signals are not
      part of the model; the text of the `moveMade` signal is returned. */
  class ChessBoard {
    var board: Grid
    var selectedRow: int
    var selectedCol: int
    var pieceSelected: bool
    var currentPlayer: char
    var aiEnabled: bool
    var aiColor: char
    var chessAI: ChessAI?

    /** An 8x8 board, a player 'w' or 'b', and a selection that is either a
        square of the board or (-1, -1) with nothing selected. */
    predicate Valid()
      reads this
    {
      && IsBoard(board)
      && (currentPlayer == 'w' || currentPlayer == 'b')
      && (pieceSelected ==> InRange(selectedRow) && InRange(selectedCol))
      && (!pieceSelected ==> selectedRow == -1 && selectedCol == -1)
    }

    /** The constructor: nothing selected, white to move, AI off and set to
        play black at medium difficulty, the starting position. */
    constructor()
      ensures Valid()
      ensures board == InitialBoard() && currentPlayer == 'w' && !pieceSelected
      ensures !aiEnabled && aiColor == 'b'
      ensures chessAI != null && fresh(chessAI) && chessAI.GetDifficulty() == Medium
    {
      selectedRow, selectedCol, pieceSelected := -1, -1, false;
      currentPlayer := 'w';
      aiEnabled, aiColor := false, 'b';
      board := [];
      chessAI := new ChessAI(Medium);
      new;
      InitializeBoard();
    }

    /** `initializeBoard`. */
    method InitializeBoard()
      modifies this`board
      ensures board == InitialBoard()
    {
      board := InitialBoard();
    }

    /** `resetBoard`: the starting position, white to move, nothing selected. */
    method ResetBoard()
      modifies this`board, this`currentPlayer, this`pieceSelected, this`selectedRow, this`selectedCol
      ensures Valid()
      ensures board == InitialBoard() && currentPlayer == 'w'
      ensures !pieceSelected && selectedRow == -1 && selectedCol == -1
    {
      InitializeBoard();
      currentPlayer := 'w';
      pieceSelected := false;
      selectedRow, selectedCol := -1, -1;
    }

    /** `isValidMove` of the widget: the validator's verdict on its own board,
        the source square read before any bounds check. */
    method IsValidMove(fromRow: int, fromCol: int, toRow: int, toCol: int) returns (ok: bool)
      requires Valid() && InRange(fromRow) && InRange(fromCol)
      ensures ok == Rules.IsValidMove(board, fromRow, fromCol, toRow, toCol)
      ensures ok ==> InRange(toRow) && InRange(toCol) && OwnPiece(board, fromRow, fromCol, PieceColor(board[fromRow][fromCol]))
      ensures ok ==> board[toRow][toCol] == Empty || Race(board[toRow][toCol]) != PieceColor(board[fromRow][fromCol])
    {
      ok := IsValidMoveOn(board, fromRow, fromCol, toRow, toCol);
    }

    /** `makeMove`: the source's text goes to the target and the source is
        emptied; no other square changes. */
    method MakeMove(fromRow: int, fromCol: int, toRow: int, toCol: int)
      requires Valid() && InRange(fromRow) && InRange(fromCol) && InRange(toRow) && InRange(toCol)
      modifies this`board
      ensures Valid()
      ensures board == Relocate(old(board), fromRow, fromCol, toRow, toCol)
    {
      var moved := board[toRow := board[toRow][toCol := board[fromRow][fromCol]]];
      board := moved[fromRow := moved[fromRow][fromCol := Empty]];
    }

    /** `switchPlayer`: hands the turn to the other colour. */
    method SwitchPlayer()
      requires Valid()
      modifies this`currentPlayer
      ensures Valid()
      ensures currentPlayer == Toggle(old(currentPlayer)) && currentPlayer != old(currentPlayer)
    {
      currentPlayer := if currentPlayer == 'w' then 'b' else 'w';
    }

    /** `makeExternalMove`: a move from the peer is played only if the
        validator accepts it; then the board and the turn change as for a
        move made by clicking. */
    method MakeExternalMove(fromRow: int, fromCol: int, toRow: int, toCol: int) returns (ok: bool, emitted: Option<string>)
      requires Valid() && InRange(fromRow) && InRange(fromCol)
      modifies this`board, this`currentPlayer
      ensures Valid()
      ensures ok == Rules.IsValidMove(old(board), fromRow, fromCol, toRow, toCol)
      ensures !ok ==> board == old(board) && currentPlayer == old(currentPlayer) && emitted == None
      ensures ok ==>
        InRange(toRow) && InRange(toCol)
        && board == Relocate(old(board), fromRow, fromCol, toRow, toCol)
        && currentPlayer == Toggle(old(currentPlayer))
        && emitted == Some(MoveNotation(old(board), fromRow, fromCol, toRow, toCol))
    {
      ok := IsValidMove(fromRow, fromCol, toRow, toCol);
      if !ok {
        return false, None;
      }
      var moveNotation := MoveNotation(board, fromRow, fromCol, toRow, toCol);
      MakeMove(fromRow, fromCol, toRow, toCol);
      emitted := Some(moveNotation);
      SwitchPlayer();
    }

    /** `mousePressEvent` on the square (row, col): ignored for other buttons,
        on the AI's turn and off the board; otherwise it selects an own piece,
        deselects the selected square, plays a valid move from the selected
        square, reselects another own piece, or clears the selection. */
    method MousePress(leftButton: bool, row: int, col: int) returns (emitted: Option<string>)
      requires Valid()
      modifies this`board, this`currentPlayer, this`pieceSelected, this`selectedRow, this`selectedCol
      ensures Valid()
      ensures !leftButton || (aiEnabled && old(currentPlayer) == aiColor) || !InRange(row) || !InRange(col) ==>
        board == old(board) && currentPlayer == old(currentPlayer) && emitted == None
        && pieceSelected == old(pieceSelected) && selectedRow == old(selectedRow) && selectedCol == old(selectedCol)
      ensures leftButton && !(aiEnabled && old(currentPlayer) == aiColor) && InRange(row) && InRange(col) ==>
        if !old(pieceSelected) then
          board == old(board) && currentPlayer == old(currentPlayer) && emitted == None
          && (if OwnPiece(old(board), row, col, old(currentPlayer))
              then pieceSelected && selectedRow == row && selectedCol == col
              else !pieceSelected)
        else if row == old(selectedRow) && col == old(selectedCol) then
          board == old(board) && currentPlayer == old(currentPlayer) && emitted == None && !pieceSelected
        else if Rules.IsValidMove(old(board), old(selectedRow), old(selectedCol), row, col) then
          board == Relocate(old(board), old(selectedRow), old(selectedCol), row, col)
          && currentPlayer == Toggle(old(currentPlayer)) && !pieceSelected
          && emitted == Some(MoveNotation(old(board), old(selectedRow), old(selectedCol), row, col))
        else
          board == old(board) && currentPlayer == old(currentPlayer) && emitted == None
          && (if OwnPiece(old(board), row, col, old(currentPlayer))
              then pieceSelected && selectedRow == row && selectedCol == col
              else !pieceSelected)
    {
      emitted := None;
      if !leftButton {
        return;
      }
      if aiEnabled && currentPlayer == aiColor {
        return;
      }
      if row < 0 || row >= 8 || col < 0 || col >= 8 {
        return;
      }
      if !pieceSelected {
        if board[row][col] != Empty {
          var pieceRace := PieceColor(board[row][col]);
          if pieceRace == currentPlayer {
            selectedRow := row;
            selectedCol := col;
            pieceSelected := true;
          }
        }
      } else {
        if row == selectedRow && col == selectedCol {
          pieceSelected := false;
          selectedRow, selectedCol := -1, -1;
        } else {
          var valid := IsValidMove(selectedRow, selectedCol, row, col);
          if valid {
            var moveNotation := MoveNotation(board, selectedRow, selectedCol, row, col);
            MakeMove(selectedRow, selectedCol, row, col);
            emitted := Some(moveNotation);
            pieceSelected := false;
            selectedRow, selectedCol := -1, -1;
            SwitchPlayer();
          } else if board[row][col] != Empty {
            var pieceRace := PieceColor(board[row][col]);
            if pieceRace == currentPlayer {
              selectedRow := row;
              selectedCol := col;
            } else {
              pieceSelected := false;
              selectedRow, selectedCol := -1, -1;
            }
          } else {
            pieceSelected := false;
            selectedRow, selectedCol := -1, -1;
          }
        }
      }
    }

    /** `setAIEnabled` (the timer it starts is not modelled). */
    method SetAIEnabled(enabled: bool)
      modifies this`aiEnabled
      ensures aiEnabled == enabled
    {
      aiEnabled := enabled;
    }

    /** `setAIColor`. */
    method SetAIColor(color: char)
      modifies this`aiColor
      ensures aiColor == color
    {
      aiColor := color;
    }

    /** `setAIDifficulty`: forwarded to the AI object when there is one. */
    method SetAIDifficulty(difficulty: Difficulty)
      modifies chessAI
      ensures chessAI != null ==> chessAI.GetDifficulty() == difficulty
    {
      if chessAI != null {
        chessAI.SetDifficulty(difficulty);
      }
    }

    /** `makeAIMove`: on the AI's turn, plays the move `getBestMove` chooses
        and hands the turn back; with no move available nothing changes. */
    method MakeAIMove() returns (emitted: Option<string>)
      requires Valid()
      modifies this`board, this`currentPlayer
      ensures Valid()
      ensures chessAI == null || !aiEnabled || old(currentPlayer) != aiColor || |AllMoves(old(board), aiColor)| == 0 ==>
        board == old(board) && currentPlayer == old(currentPlayer) && emitted == None
      ensures chessAI != null && aiEnabled && old(currentPlayer) == aiColor && |AllMoves(old(board), aiColor)| > 0 ==>
        exists m :: BestChoice(old(board), aiColor, chessAI.currentDifficulty.Depth(), m)
          && board == Relocate(old(board), m.fromRow, m.fromCol, m.toRow, m.toCol)
          && currentPlayer == Toggle(old(currentPlayer))
          && emitted == Some(MoveNotation(old(board), m.fromRow, m.fromCol, m.toRow, m.toCol))
    {
      emitted := None;
      if chessAI == null || !aiEnabled || currentPlayer != aiColor {
        return;
      }
      var aiMove := chessAI.GetBestMove(board, aiColor);
      if aiMove.fromRow != -1 {
        var moveNotation := MoveNotation(board, aiMove.fromRow, aiMove.fromCol, aiMove.toRow, aiMove.toCol);
        MakeMove(aiMove.fromRow, aiMove.fromCol, aiMove.toRow, aiMove.toCol);
        emitted := Some(moveNotation);
        SwitchPlayer();
      }
    }
  }
}
