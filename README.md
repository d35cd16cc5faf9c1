# Chess game core and bubble sort, modelled in Dafny

This project models the rules and search core of a Qt chess game that plays
over Bluetooth or against a built-in AI. It also models the stand-alone
`bubbleSort` of a small sorting visualiser.

**Board (`squares.dfy`, `rules.dfy`).**
- The board is an 8x8 grid of strings.
- `""` is an empty square, an upper-case letter is a white piece and a
  lower-case letter is a black one.
- `CheckIfValidMove` is a pseudo-legal move-shape validator:
  - it checks bounds, that source and destination differ, and that the
    destination is not an own-colour piece;
  - pawns push one square, or two from the start row, and capture diagonally;
  - rooks, bishops and queens need a clear path;
  - the knight makes an L-shaped jump and the king a single step.
- The validator is written as the source's loops and proved equal to a
  declarative predicate `ValidMove`.
- There is no castling, en passant, promotion, check or mate anywhere in the
  program, and the model adds none.

**Widget state (`board.dfy`).** The `ChessBoard` class holds:
- the board, the click selection, the side to move and the AI settings;
- its operations: `makeMove`, `switchPlayer`, `makeExternalMove` (the move
  received from the Bluetooth peer), the click state machine of
  `mousePressEvent`, `makeAIMove` and the move notation (`"P: e2-e4"`).

**AI (`ai_types.dfy`, `evaluation.dfy`, `movegen.dfy`, `search.dfy`, `chess_ai.dfy`).**
- Move generation lists every validator-approved move of one colour in
  row-major order. A listed move is undone exactly through its recorded
  captured piece.
- Moves are ordered with captures first, most valuable capture first.
- The static evaluation adds material and piece-square tables from the AI's
  point of view.
- `minimax` is depth-bounded alpha-beta. It is proved fail-soft against an
  unpruned reference value `MinimaxValue`, and exact in the full window.
- `getBestMove` scores every root move, then picks at random among the moves
  tied at the best score.

The search keeps the program's colour convention:
- `minimax` generates white's moves when `maximizing` holds and black's
  otherwise.
- The root searches each child with `maximizing == (aiColor == 'w')`, so the
  first ply below the root moves the AI's own colour again.
- The root takes the minimum for a black AI and the maximum otherwise. Yet
  the evaluation always counts the AI's own pieces as positive. A black AI,
  the widget's default, therefore picks the move whose searched value is
  worst for black by its own evaluation.
- The reference functions `MinimaxValue`, `BestChild` and `RootValue` follow
  exactly this convention.

**Bubble sort (`bubble_sort.dfy`).** `bubbleSort` sorts `arr[0..n)` in place
with adjacent swaps. It advances the caller's step counter once per
comparison, n(n-1)/2 times in all.

## Model

| member | source | states |
|---|---|---|
| Squares.ToLower | src/chessboard.cpp:194 | `tolower`: an upper-case letter maps to its lower-case letter (code + 32), anything else is unchanged |
| Squares.Race | src/chessboard.cpp:232-240 | `Race`: 'n' exactly for an empty square, 'b' exactly when some character is not upper case, and 'w' only when the first character is upper case |
| Squares.PieceColor | src/chessai.cpp:206-209 | `getPieceColor` (and the widget's `getPieceRace`, src/chessboard.cpp:206-210): 'n' exactly for an empty square, else 'w' exactly when the first character is upper case and 'b' otherwise; it agrees with `Race` whenever `Race` says white, and says black only when `Race` does |
| Squares.ColorsOfPiece | src/chessboard.cpp:206-240 | every non-empty square has colour 'w' or 'b' under both `Race` (all characters upper case) and `getPieceRace` (first character); on one-letter squares the two agree |
| Squares.Relocate | src/chessboard.cpp:199-204 | moving a piece: the destination gets the source's text, the source becomes empty, every other square is unchanged |
| Squares.InitialBoard | src/chessboard.cpp:48-60 | the starting position: 8x8, middle rows empty, white pawns on row 6 and black pawns on row 1, the white back rank R N B Q K B N R on row 7 and the black one r n b q k b n r on row 0 |
| Rules.StepOnPath | src/chessboard.cpp:310-333 | every intermediate square of a straight or diagonal path is on the board, and the path reaches the destination exactly at its last step |
| Rules.CheckIfValidMove | src/chessboard.cpp:242-411 | the validator with its path-walking loops returns exactly `ValidMove`: on the board, a real move, not onto an own-colour piece, and the piece's shape with a clear path |
| Rules.CheckPawn | src/chessboard.cpp:267-308 | the pawn branch accepts exactly the single push, the double push from the start row and the diagonal capture of its colour |
| Rules.WalkRank | src/chessboard.cpp:310-321 | the rook's loop along a row finds no occupied square strictly between the two columns exactly when the path is clear |
| Rules.WalkFile | src/chessboard.cpp:322-334 | the rook's loop along a column finds no occupied square strictly between the two rows exactly when the path is clear |
| Rules.WalkDiagonal | src/chessboard.cpp:342-361 | the bishop's diagonal walk (and the queen's diagonal walk, lines 388-401) returns true exactly when the diagonal path is clear |
| Rules.WalkLine | src/chessboard.cpp:374-387 | the queen's orthogonal walk, which runs until both coordinates match, returns true exactly when the path is clear |
| Rules.IsValidMoveOn | src/chessai.cpp:170-179 | the AI's `isValidMove` on a board it is given: false on an empty source square, otherwise the validator's verdict with the colour of the first letter and the lower-cased first letter as the kind |
| Rules.RejectsOffBoardAndNullMoves | src/chessboard.cpp:247-255 | a coordinate outside 0..7, or source equal to destination, is rejected |
| Rules.NeverOntoOwnColour | src/chessboard.cpp:258-263 | an accepted move never lands on a piece of the mover's colour |
| Rules.WhitePawnMoves | src/chessboard.cpp:268-288 | a white pawn is accepted exactly for one step up onto an empty square, two from row 6 over two empty squares, or one diagonal step up onto a black piece |
| Rules.BlackPawnMoves | src/chessboard.cpp:289-308 | the mirror image for black: one step down, two from row 1, or a diagonal capture of a white piece |
| Rules.SlidersBlocked | src/chessboard.cpp:309-334 | a rook, bishop or queen move with an occupied square strictly between source and destination is rejected |
| Rules.SlidersKeepToLines | src/chessboard.cpp:309-407 | an accepted rook move is orthogonal, a bishop move diagonal, a queen move either |
| Rules.KnightIgnoresOtherSquares | src/chessboard.cpp:335-341 | a knight's verdict depends only on its destination square, and an accepted knight move is an L-shaped jump |
| Rules.KingSingleStep | src/chessboard.cpp:362-369 | an accepted king move goes at most one square in each direction |
| Rules.UnknownPieceRejected | src/chessboard.cpp:410 | any letter other than p, r, n, b, k, q in either case is never moved |
| AiTypes.NoMove | src/chessai.h:16 | `Move()`: all coordinates -1, score 0, nothing captured |
| AiTypes.MoveOf | src/chessai.h:17 | `Move(fr, fc, tr, tc)`: exactly those coordinates, score 0, nothing captured |
| AiTypes.Difficulty.Depth | src/chessai.h:22-27 | each level stands for its search depth: EASY 2, MEDIUM 3, HARD 4, EXPERT 5, and no two levels share a depth |
| Evaluation.PieceValue | src/chessai.cpp:191-204 | material values lie in 0..20000, and an empty square is worth 0 |
| Evaluation.MaterialValues | src/chessai.cpp:191-204 | pawn 100, knight 320, bishop 330, rook 500, queen 900, king 20000, for either colour |
| Evaluation.MaterialColourBlind | src/chessai.cpp:191-194 | a black piece is worth as much as the white piece of the same letter |
| Evaluation.TablesBounded | src/chessai.cpp:217-281 | every entry of the six piece-square tables lies in [-50, 50] |
| Evaluation.TableEntry | src/chessai.cpp:287-294 | a table lookup by piece kind lies in [-50, 50] |
| Evaluation.PositionValue | src/chessai.cpp:211-297 | `getPositionValue` lies in [-50, 50] and is 0 for an empty square |
| Evaluation.PositionMirrored | src/chessai.cpp:284-296 | a black piece on (r, c) is worth the negation of the same white piece on (7 - r, c) |
| Evaluation.Contribution | src/chessai.cpp:128-140 | one square adds at most 20050 in absolute value to the evaluation |
| Evaluation.EvaluateBoard | src/chessai.cpp:122-145 | the nested loops return the sum of all 64 square contributions, bounded by 64 * 20050 |
| Evaluation.RowSumBounded | src/chessai.cpp:124-142 | a partial row sum is bounded by the number of squares times 20050 |
| Evaluation.RowsSumBounded | src/chessai.cpp:124-142 | a partial sum over rows is bounded by the number of squares times 20050 |
| Evaluation.EvaluationBounded | src/chessai.cpp:122-145 | every evaluation lies strictly inside the `INT_MIN`/`INT_MAX` the search uses as infinities |
| Evaluation.RowSumAntisymmetric | src/chessai.cpp:135-139 | a row's sum for white is the negation of its sum for black |
| Evaluation.RowsSumAntisymmetric | src/chessai.cpp:135-139 | the same for any number of rows |
| Evaluation.EvaluationAntisymmetric | src/chessai.cpp:122-145 | `evaluateBoard(b, 'w') == -evaluateBoard(b, 'b')` for every board |
| Evaluation.RowSumEmpty | src/chessai.cpp:128-129 | an empty row adds nothing |
| Evaluation.RowsSumEmpty | src/chessai.cpp:128-129 | empty rows add nothing |
| Evaluation.EmptyBoardIsZero | src/chessai.cpp:122-145 | a board without pieces evaluates to 0 |
| MoveGen.MakeMove | src/chessai.cpp:181-184 | the AI's `makeMove` on a board value: the result is again an 8x8 board |
| MoveGen.UndoMove | src/chessai.cpp:186-189 | `undoMove`: the destination gets the captured piece back, the source gets the destination's text, nothing else changes |
| MoveGen.UndoRestores | src/chessai.cpp:181-189 | undoing a move made on b whose recorded capture is b's destination square gives back b exactly |
| MoveGen.Generated | src/chessai.cpp:157-158 | a generated move carries its coordinates, score 0 and the destination's text as captured piece |
| MoveGen.RowMajorAppend | src/chessai.cpp:150-165 | joining two row-major lists whose keys are separated gives a row-major list |
| MoveGen.TargetsInRowFacts | src/chessai.cpp:155-161 | the moves found along one destination row are exactly the piece's valid moves there, in increasing column order |
| MoveGen.TargetsBelowFacts | src/chessai.cpp:154-162 | the moves of one piece over the destination rows so far are exactly its valid moves there, row-major |
| MoveGen.MovesFromFacts | src/chessai.cpp:152-163 | one source square contributes exactly its piece's valid moves when the piece has the colour asked for, and none otherwise |
| MoveGen.SourcesInRowFacts | src/chessai.cpp:151-164 | one source row contributes exactly the generated moves from it, row-major |
| MoveGen.SourcesBelowFacts | src/chessai.cpp:150-165 | the source rows so far contribute exactly the generated moves from them, row-major |
| MoveGen.AllMovesExactly | src/chessai.cpp:147-168 | `getAllPossibleMoves(b, c)` lists exactly the moves of c's pieces that `isValidMove` accepts, each recording the captured square, strictly in row-major order |
| MoveGen.ListedMovesUndo | src/chessai.cpp:147-189 | a listed move is on the board, is not a null move, is not the `Move()` sentinel, and undoing it after making it restores the board |
| MoveGen.AllMovesOnBoard | src/chessai.cpp:150-160 | every listed move has all four coordinates on the board |
| MoveGen.GetAllPossibleMoves | src/chessai.cpp:147-168 | the four nested loops return exactly the generated list |
| MoveGen.AppendTargets | src/chessai.cpp:154-162 | the two inner loops append exactly the moves of one source square |
| MoveGen.IsUnderAttack | src/chessai.cpp:299-311 | the scan answers true exactly when some piece of the attacking colour has a valid move onto the square |
| MoveGen.AttackedIffTargeted | src/chessai.cpp:299-311 | a square is attacked by a colour exactly when some move listed for that colour lands on it |
| MoveGen.GoesBefore | src/chessai.cpp:315-330 | the comparator puts x before y exactly when x's rank is higher: a capture before a quiet move, a more valuable capture before a less valuable one |
| MoveGen.RankOrderedCapturesFirst | src/chessai.cpp:313-331 | in the ordered list no quiet move precedes a capture, captured values do not increase, and no pair is out of comparator order |
| MoveGen.OrderMoves | src/chessai.cpp:313-331 | `orderMoves` leaves a permutation of its input in non-increasing rank order |
| MoveGen.InsertLast | src/chessai.cpp:315 | one insertion step extends the rank-ordered prefix by one move and keeps the multiset of moves |
| MoveGen.SinkStep | src/chessai.cpp:315 | swapping a move past a lower-ranked neighbour keeps the insertion invariant and the multiset |
| MoveGen.SinkDone | src/chessai.cpp:315 | a move that stops sinking leaves the prefix rank-ordered |
| Search.MinimaxValue | src/chessai.cpp:75-120 | the unpruned value of a position lies within the evaluation bound |
| Search.BestChild | src/chessai.cpp:91-119 | the best child value over a move list lies within the evaluation bound |
| Search.ChildValue | src/chessai.cpp:94-96 | the value of the position after a move lies within the evaluation bound |
| Search.BestChildIsExtreme | src/chessai.cpp:91-119 | the best child value is at least as good for the side to move as every child value, and some child reaches it |
| Search.BestOfReordering | src/chessai.cpp:88-119 | after `orderMoves` the best child value over the reordered list equals the one over the generated list |
| Search.Minimax | src/chessai.cpp:75-120 | `minimax` returns the evaluation at depth 0 or with no moves. Otherwise the result is fail-soft against the unpruned value: at or below alpha it bounds it from above, inside the window it equals it, at or above beta it bounds it from below. In the full `INT_MIN`/`INT_MAX` window it equals the unpruned value |
| Search.SearchChild | src/chessai.cpp:93-97 | make, search one ply shallower with the other side, undo: the node's board comes back unchanged and the score is fail-soft against the child's value |
| Search.ListedRestorable | src/chessai.cpp:82-96 | every move drawn from the generated list is on the board and undoes exactly |
| Search.BestSoFarStep | src/chessai.cpp:100-101 | the running best is kept or replaced by a strictly better value |
| Search.MaxNode | src/chessai.cpp:91-105 | the maximizing loop returns a fail-soft bound of the best child value over white's moves |
| Search.MinNode | src/chessai.cpp:106-119 | the minimizing loop returns a fail-soft bound of the worst child value over black's moves |
| Search.MaxStep | src/chessai.cpp:100-103 | one child keeps the running maximum and alpha consistent with the fail-soft promise |
| Search.MinStep | src/chessai.cpp:114-117 | one child keeps the running minimum and beta consistent with the fail-soft promise |
| Search.MaxCutoff | src/chessai.cpp:103 | at a beta cutoff, the child that caused it is no better than the best child |
| Search.MinCutoff | src/chessai.cpp:117 | at an alpha cutoff, the child that caused it is no worse than the worst child |
| ChessAi.RootValue | src/chessai.cpp:16-57 | the unpruned root value for the AI lies within the evaluation bound |
| ChessAi.RootValueIsBest | src/chessai.cpp:33-57 | the root value is at least as good for the AI's root (minimum for black, maximum otherwise) as every move's child value, and some move reaches it |
| ChessAi.ListedUnscored | src/chessai.cpp:157 | generated moves carry score 0 |
| ChessAi.RootStep | src/chessai.cpp:37-54 | one root move in the root window: its score bounds its child value, replaces the best score only when strictly better, and is then exact |
| ChessAi.BestSoFarExtend | src/chessai.cpp:42-54 | the best-so-far index survives one more scored move |
| ChessAi.TiesFacts | src/chessai.cpp:60-65 | the tie list holds exactly the moves whose score equals the best score |
| ChessAi.CollectTies | src/chessai.cpp:60-65 | the tie-gathering loop returns the tie list, in order |
| ChessAi.RootScoredStep | src/chessai.cpp:33-57 | the root loop's record survives scoring one more move |
| ChessAi.RootChoice | src/chessai.cpp:59-70 | any recorded move with the best score is a generated move, and that score is the unpruned root value |
| ChessAi.SearchRootChild | src/chessai.cpp:34-38 | a root child is searched on a copy with `maximizing == (aiColor == 'w')`; the score is fail-soft against the child's unpruned value |
| ChessAi.ScoreRootMoves | src/chessai.cpp:30-57 | the root loop scores every ordered move. The best score is the best child value, each recorded score bounds its child's value, and `bestMove` is a move with the best score |
| ChessAi.ChessAI.constructor | src/chessai.cpp:6-10 | a new AI has the difficulty it was given, MEDIUM by default |
| ChessAi.ChessAI.SetDifficulty | src/chessai.cpp:12-14 | `getDifficulty` afterwards returns the level set |
| ChessAi.ChessAI.GetDifficulty | src/chessai.h:38 | returns the level the AI holds, which the constructor and `SetDifficulty` set to the level last given |
| ChessAi.ChessAI.GetBestMove | src/chessai.cpp:16-73 | with no moves it returns the `Move()` sentinel. Otherwise it returns a generated move whose score is the unpruned root value at the difficulty's depth, and whose own child value is no better for the AI than that score |
| Board.Toggle | src/chessboard.cpp:214 | the next player is 'w' or 'b', and differs from a current 'w' or 'b' |
| Board.ToggleTwice | src/chessboard.cpp:212-214 | two switches give the turn back |
| Board.SquareName | src/chessboard.cpp:224-225 | a square's name is the file letter 'a' + col followed by the rank digit 8 - row |
| Board.ParseSquare | src/chessboard.cpp:224-225 | a name parses exactly when it is a file letter and a rank digit, and then gives a square on the board |
| Board.SquareNameRoundTrip | src/chessboard.cpp:224-225 | parsing a square's name gives back the square |
| Board.ParseSquareRoundTrip | src/chessboard.cpp:224-225 | naming a parsed square gives back the text |
| Board.MoveNotation | src/chessboard.cpp:222-229 | the notation is the piece's text followed by 7 characters |
| Board.ParseNotation | src/chessboard.cpp:222-229 | a parsed notation names squares on the board |
| Board.NotationRoundTrip | src/chessboard.cpp:222-229 | the notation gives back the piece's text and both squares |
| Board.NotationInjective | src/chessboard.cpp:222-229 | distinct moves on the same board have distinct notations |
| Board.ChessBoard.constructor | src/chessboard.cpp:7-23 | the starting position, white to move, nothing selected, AI off and playing black, a fresh AI at MEDIUM |
| Board.ChessBoard.InitializeBoard | src/chessboard.cpp:48-60 | the board becomes the starting position |
| Board.ChessBoard.ResetBoard | src/chessboard.cpp:62-73 | the starting position, white to move, nothing selected |
| Board.ChessBoard.IsValidMove | src/chessboard.cpp:188-197 | the widget's `isValidMove` on its own board gives the validator's verdict; an accepted move starts on a piece, ends on the board and does not land on the mover's colour |
| Board.ChessBoard.MakeMove | src/chessboard.cpp:199-204 | the board becomes the relocation of the source piece onto the destination |
| Board.ChessBoard.SwitchPlayer | src/chessboard.cpp:212-220 | the turn passes to the other colour |
| Board.ChessBoard.MakeExternalMove | src/chessboard.cpp:464-477 | the result is the validator's verdict. On false, the board and the player are unchanged and nothing is emitted. On true, the piece is moved, the player toggled and the notation emitted |
| Board.ChessBoard.MousePress | src/chessboard.cpp:128-186 | the full click state machine: ignored for other buttons, on the AI's turn or off the board. Otherwise it selects an own piece, deselects the selected square, or plays a valid move (clearing the selection, toggling the player, emitting the notation). It reselects another own piece and clears the selection on anything else |
| Board.ChessBoard.SetAIEnabled | src/chessboard.cpp:414-419 | the AI flag takes the given value |
| Board.ChessBoard.SetAIColor | src/chessboard.cpp:421-423 | the AI colour takes the given value |
| Board.ChessBoard.SetAIDifficulty | src/chessboard.cpp:425-429 | when there is an AI object its difficulty becomes the given level |
| Board.ChessBoard.MakeAIMove | src/chessboard.cpp:431-447 | off the AI's turn, or with no move, nothing changes. Otherwise the board moves the piece of a best choice at the AI's depth, the player is toggled and the notation emitted |
| BubbleSorting.TotalStepsClosedForm | bubble_sor.c:13-24 | a full sort counts n(n-1)/2 comparisons for n >= 1 and none for n <= 1 |
| BubbleSorting.PassPrefix | bubble_sor.c:13-14 | the first p passes over n elements make p(2n-p-1)/2 comparisons |
| BubbleSorting.CompareSwap | bubble_sor.c:15-21 | one comparison leaves the pair in order, keeps the multiset and touches no other position |
| BubbleSorting.SwapInside | bubble_sor.c:14-21 | a swap inside arr[0..n) leaves everything from n on untouched |
| BubbleSorting.PassStep | bubble_sor.c:14-21 | after a comparison the largest element so far has moved one step further |
| BubbleSorting.PassDone | bubble_sor.c:14 | at the end of pass i the largest i + 1 elements sit sorted at the end |
| BubbleSorting.BubbleSort | bubble_sor.c:12-26 | arr[0..n) ends sorted and a permutation of its contents, nothing from n on changes, and the counter advances by the total number of comparisons |
| BubbleSorting.BubblePass | bubble_sor.c:14-24 | pass i extends the sorted tail by one element, keeps the multiset, leaves arr[n..] alone and counts n - i - 1 comparisons |

## Left out

- Painting, piece images, `update()`, the pixel-to-square conversion in `mousePressEvent`, the status-bar signals, `mainwindow`, the Bluetooth manager and dialog, `main.cpp`, `test.cpp`, `Chess_bluetooth.c` and `ai/chess_ai.py` are outside the model: they are UI, transport or a wrapper over an external library.
- The `moveMade` signal is modelled by returning its text (`emitted`). `moveMadeWithCoords` and `gameStatusChanged` are not modelled.
- `checkForAITurn`, `onAITimerTimeout` and the AI timer are event-loop timing. `SetAIEnabled`, `SwitchPlayer` and `ResetBoard` do not model the timer they start.
- The clock-seeded random tie-break of `getBestMove` is a free choice (`:|`) among the tied moves.
- `usleep` in `bubbleSort` and the visualiser's `main` (drawing, the `maxSteps` display) are left out: they are delays and graphics.
- The AI's `makeMove`/`undoMove` act on board values rather than in place. `minimax` receives its board by value, so its callers never see a change either way; `SearchChild` proves the node's board comes back unchanged after make and undo.
- `MoveGen.OrderMoves`: `std::sort` is replaced by an insertion sort on an array. The contract states only what any correct sort with this comparator gives: a permutation in rank order. The order among moves of equal rank is left open, as `std::sort` leaves it.
- `getAllPossibleMoves` returns a vector, which the model builds as a sequence and copies into an array before ordering it.
- The inner loops of `bubbleSort`, `getAllPossibleMoves` and `getBestMove` are separate methods (`BubblePass`, `AppendTargets`, `ScoreRootMoves`, `CollectTies`) called from the outer code. They run the same loops.
- Rules.IsValidMoveOn: requires the source square to be on the board, because `isValidMove` reads it before any bounds check. An off-board source is undefined behaviour in the program.
- Board.ChessBoard.IsValidMove: requires the source square to be on the board, for the same reason.
- Board.ChessBoard.MakeExternalMove: requires the source square to be on the board, for the same reason.
- Board.MoveNotation: requires both squares on the board. The program only ever formats squares that passed the validator.
- ChessAi.ChessAI.GetBestMove: the chosen move's own unpruned child value is only bounded by the best score, not proved equal to it. A move searched after the best one can fail low exactly at the bound and then tie on score with a worse true value.
- BubbleSorting.BubbleSort: the step counter is taken as an input and returned, rather than updated through the `int* sorted` out-parameter of `bubbleSort`; a caller sees the same final count. C `int` overflow of the step counter is not modelled (unbounded integers). Stability among equal elements is not stated, because equal `int`s cannot be told apart.
- The unused `bestMove` out-parameter of `minimax` is dropped.
- The pieces' strings are arbitrary text. The model does not assume that each holds a single letter, and `Race` and `getPieceRace` stay distinct as in the program.
