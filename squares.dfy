/** Board squares and the 8x8 board shared by the widget and the AI.
    A square holds the text of a piece: "" for an empty square, an upper-case
    letter for a white piece and a lower-case letter for a black one. */
module Squares {

  type Square = string
  type Grid = seq<seq<Square>>

  const Empty: Square := ""

  predicate InRange(x: int) { 0 <= x < 8 }

  /** An 8x8 grid, as every board the program builds is. */
  predicate IsBoard(b: Grid) {
    |b| == 8 && forall r :: 0 <= r < 8 ==> |b[r]| == 8
  }

  /** `isupper` in the C locale. */
  predicate IsUpper(c: char) { 'A' <= c <= 'Z' }

  /** `tolower` in the C locale. */
  function ToLower(c: char): (l: char)
    ensures IsUpper(c) ==> l as int == c as int + 32 && 'a' <= l <= 'z'
    ensures !IsUpper(c) ==> l == c
  {
    if IsUpper(c) then (c as int + 32) as char else c
  }

  /** `Race`: 'n' for an empty square, 'w' when every character is upper case,
      'b' as soon as one is not. */
  function Race(s: Square): (r: char)
    ensures r == 'n' <==> s == Empty
    ensures r == 'b' <==> exists i :: 0 <= i < |s| && !IsUpper(s[i])
    ensures r == 'w' ==> IsUpper(s[0])
  {
    if |s| == 0 then 'n'
    else if forall i :: 0 <= i < |s| ==> IsUpper(s[i]) then 'w'
    else 'b'
  }

  /** `getPieceRace` / `getPieceColor`: decided by the first character only. */
  function PieceColor(s: Square): (r: char)
    ensures r == 'n' <==> s == Empty
    ensures r == 'w' || r == 'b' || r == 'n'
    ensures Race(s) == 'w' ==> r == 'w'
    ensures r == 'b' ==> Race(s) == 'b'
    ensures s != Empty ==> (r == 'w' <==> IsUpper(s[0]))
  {
    if |s| == 0 then 'n' else if IsUpper(s[0]) then 'w' else 'b'
  }

  /** A non-empty square always has colour 'w' or 'b' under both tests, and the
      two tests agree on the one-letter squares the program places. */
  lemma ColorsOfPiece(s: Square)
    requires s != Empty
    ensures Race(s) in {'w', 'b'} && PieceColor(s) in {'w', 'b'}
    ensures |s| == 1 ==> Race(s) == PieceColor(s)
  {
    if |s| == 1 && !IsUpper(s[0]) {
      assert !IsUpper(s[0]);
    }
  }

  /** Moving the piece on (fr, fc) to (tr, tc): the destination receives the
      source's text, the source is emptied, nothing else changes. */
  function Relocate(b: Grid, fr: int, fc: int, tr: int, tc: int): (r: Grid)
    requires IsBoard(b) && InRange(fr) && InRange(fc) && InRange(tr) && InRange(tc)
    ensures IsBoard(r)
    ensures r[fr][fc] == Empty
    ensures (fr, fc) != (tr, tc) ==> r[tr][tc] == b[fr][fc]
    ensures forall i, j :: 0 <= i < 8 && 0 <= j < 8 && (i, j) != (fr, fc) && (i, j) != (tr, tc) ==> r[i][j] == b[i][j]
  {
    var moved := b[tr := b[tr][tc := b[fr][fc]]];
    moved[fr := moved[fr][fc := Empty]]
  }

  /** The starting position: black on rows 0 and 1, white on rows 6 and 7. */
  function InitialBoard(): (b: Grid)
    ensures IsBoard(b)
    ensures forall r, c :: 2 <= r < 6 && 0 <= c < 8 ==> b[r][c] == Empty
    ensures forall c :: 0 <= c < 8 ==> b[6][c] == "P" && b[1][c] == "p"
    ensures forall c :: 0 <= c < 8 ==> PieceColor(b[7][c]) == 'w' && PieceColor(b[0][c]) == 'b'
    ensures b[7] == ["R", "N", "B", "Q", "K", "B", "N", "R"]
    ensures b[0] == ["r", "n", "b", "q", "k", "b", "n", "r"]
  {
    [["r", "n", "b", "q", "k", "b", "n", "r"],
     ["p", "p", "p", "p", "p", "p", "p", "p"],
     ["", "", "", "", "", "", "", ""],
     ["", "", "", "", "", "", "", ""],
     ["", "", "", "", "", "", "", ""],
     ["", "", "", "", "", "", "", ""],
     ["P", "P", "P", "P", "P", "P", "P", "P"],
     ["R", "N", "B", "Q", "K", "B", "N", "R"]]
  }
}
