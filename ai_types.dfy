/** The `Move` record and the `Difficulty` levels of the AI. */
module AiTypes {

  /** A move from (fromRow, fromCol) to (toRow, toCol), with the score the
      search gave it and the text of the square it captured (for undo). */
  datatype Move = Move(fromRow: int, fromCol: int, toRow: int, toCol: int, score: int, capturedPiece: string)

  /** `Move()`: the "no move" sentinel, recognised by fromRow == -1. */
  function NoMove(): (m: Move)
    ensures m.fromRow == -1 && m.fromCol == -1 && m.toRow == -1 && m.toCol == -1
    ensures m.score == 0 && m.capturedPiece == ""
  {
    Move(-1, -1, -1, -1, 0, "")
  }

  /** `Move(fr, fc, tr, tc)`: exactly those coordinates, no score, nothing captured. */
  function MoveOf(fr: int, fc: int, tr: int, tc: int): (m: Move)
    ensures m.fromRow == fr && m.fromCol == fc && m.toRow == tr && m.toCol == tc
    ensures m.score == 0 && m.capturedPiece == ""
  {
    Move(fr, fc, tr, tc, 0, "")
  }

  /** The difficulty levels; each stands for its search depth. */
  datatype Difficulty = Easy | Medium | Hard | Expert {
    function Depth(): (d: nat)
      ensures 2 <= d <= 5
      ensures d == 2 <==> this == Easy
      ensures d == 3 <==> this == Medium
      ensures d == 4 <==> this == Hard
      ensures d == 5 <==> this == Expert
    {
      match this
      case Easy => 2
      case Medium => 3
      case Hard => 4
      case Expert => 5
    }
  }
}
