# Interactive-Chess board engine in Dafny

This project models the rules-and-state engine of the Interactive-Chess
program. That engine is the `Board` class with its 8x8 grid of `Tile`s. The
model also covers the parts of the game view that carry engine logic:
the screen/board coordinate flip, stepping through the move history, and
the end-of-game decision made before the bot moves.

The model is imperative where the program is:

- `Board` is a class whose `grid` is an `array2<Tile?>`, indexed
  `grid[rank, file]` as in the program. Its methods overwrite tile
  occupants, piece squares and the board's own fields in place.
- Each method is proved against a value view of the grid. That view is the
  ghost field `Pos`, a `seq<seq<Option<PieceView>>>` indexed
  `Pos[rank][file]`.
- The ghost predicate `GridValid` ties the grid to `Pos`. Every square has
  its own tile, which knows its coordinates and shade. Every occupant knows
  its square. `Pos` records each occupant's colour, kind and `has_moved`.
- The positions the methods produce are functions on `Pos` (`AfterMove`,
  `AfterEnPassant`, `Setup`, `Decode`, `Encode`, ...). The lemmas prove
  their properties: the notation round trip, material bookkeeping, castling
  and the starting layout.

Files:

- `chess.dfy`: colours, kinds, squares, positions, piece values, material.
- `fen.dfy`: the piece-placement field of Forsyth-Edwards Notation (section
  16.1.3.1 of the PGN standard), as `board_state` writes it and `load_fen`
  reads it, with the round trip.
- `rules.dfy`: the move generator as a parameter, the check test and the
  legality filter as the board computes them, the effect of a move
  (castling included), en passant, and the starting layout.
- `tiles.dfy`: the `Tile` and `Piece` objects.
- `board.dfy`: the `Board` class.
- `view.dfy`: the view's coordinate, history and bot-turn logic.

The pieces' own movement rules are not in the program's core. A board is
built around a generator `gen: (Position, Square, Option<Square>) -> seq<Square>`,
which stands for `piece.get_moves(board)`. The board requires only that
the generator proposes squares of the board.

The re-entrancy guard of `check_for_checks` is modelled as written. While
the flag is up, every nested `check_if_move_into_check` answers "no
check". So the enemy moves counted by a check test are the generator's
own. Termination is by the measure `(flag up ? 0 : 1, call depth)`.

Only `move_piece` checks `is_curr_pos()` (`_board/board.py:99-100`).
`en_passant`, `promote` and `resign` do not, and neither does the model.

The piece values are those of the pieces' `piece_value` enum, which is not
part of this model: the values assumed here are king 0, queen 9, rook 5,
bishop 3, knight 3 and pawn 1.

## Model

| member | source | states |
|---|---|---|
| Chess.Color.Opposite | _board/board.py:460-461 | the opposite colour differs from the colour |
| Chess.MaterialPut | _board/board.py:580-606 | overwriting one square changes the material differential by exactly the signed values leaving and arriving |
| Chess.BlankIsEmpty | _board/board.py:470-473 | a position with no occupied square is the empty position rebuilt tiles give |
| Chess.Put | _board/board.py:442-445 | one tile write changes that square and no other |
| Fen.Letter | _board/board.py:538-551 | a piece's letter is upper case exactly for White and reads back as the same colour and kind, never as a digit |
| Fen.DigitChar | _board/board.py:536 | a written run length reads back as that number |
| Fen.EncodeRun | _board/board.py:531-553 | a rank string never contains the rank separator |
| Fen.EncodeRunWidth | _board/board.py:531-553 | the digits plus letters of a rank string cover exactly the files of the rank |
| Fen.EncodeShape | _board/board.py:528-554 | the written placement splits into exactly eight rank strings, rank 8 first, each covering eight files |
| Fen.EncodeRunStep | _board/board.py:531-551 | an empty square extends the run of empty files; a piece flushes the pending run count and writes its letter |
| Fen.WidthAppend | _board/board.py:531-553 | the files covered by two joined pieces of a rank string add up |
| Fen.ParseDigit | _board/board.py:634-636 | a digit in a rank string skips that many files |
| Fen.ParseLetter | _board/board.py:638-665 | a piece letter puts the loaded piece on the current file and moves to the next |
| Fen.ParseEncodeRun | _board/board.py:531-553 | reading back the rest of a written rank string fills the remaining files with the reloaded cells |
| Fen.EncodeRowRoundTrip | _board/board.py:528-553 | reading back one written rank gives that rank, has_moved recomputed |
| Fen.SplitPrefix | _board/board.py:626 | text without '/' in front of a string is glued to the first part of that string's split |
| Fen.JoinSnoc | _board/board.py:552-554 | joining one more rank string appends '/' and that string |
| Fen.DecodeRows | _board/board.py:628-665 | loading the written ranks from a given rank onward completes the reloaded position |
| Fen.ReloadRow | _board/board.py:641-665 | each cell of a reloaded rank keeps colour and kind and gets has_moved as load_fen sets it |
| Fen.Reload | _board/board.py:641-665 | a reloaded position is reloaded square by square, each with its own rank |
| Fen.ParseRow | _board/board.py:631-665 | a rank string that loads fills a rank of exactly eight cells |
| Fen.Split | _board/board.py:626 | splitting at '/' yields at least one part |
| Fen.SplitJoin | _board/board.py:552-554 | splitting the written placement at '/' gives back its rank strings |
| Fen.DecodeStep | _board/board.py:628-665 | each rank string that loads either parses into its rank or (past the eighth) holds only digits |
| Fen.RoundTrip | _board/board.py:528-554 | loading the written placement reproduces every square's colour and kind, empties the empty squares, and marks has_moved exactly on pawns off their home rank |
| Fen.RoundTripSquares | _board/board.py:616-665 | square by square: a square is empty after the round trip exactly when it was, and otherwise keeps colour and kind |
| Rules.ScanKing | _board/board.py:304-320 | the square found holds a king of that colour and no earlier square in scan order does; none found means no king of that colour |
| Rules.KingFirst | _board/board.py:313-318 | the first king in rank-then-file order is the one find_king reports |
| Rules.FilterMembers | _board/board.py:390-396 | get_all_legal keeps exactly the generator's moves that do not leave the mover in check |
| Rules.FilterStep | _board/board.py:393-394 | one more generated move is kept exactly when it is safe |
| Rules.IndexInjective | _board/board.py:268-269 | the scan visits each square of the board at a different step |
| Rules.NoneBefore | _board/board.py:265 | before the scan starts no move is collected |
| Rules.LegalBeforeStep | _board/board.py:267-276 | scanning one more square adds exactly the legal moves of its piece when it is of the chosen side |
| Rules.CollectStep | _board/board.py:267-276 | the moves listed after a square are exactly the legal moves of the chosen side's pieces on the squares scanned so far |
| Rules.SideMoveInFlight | _board/board.py:332-333 | while the guard is up, a side's legal moves are the generator's own moves |
| Rules.AfterMoveLands | _board/board.py:125-129 | the moved piece stands on the target with has_moved set, its square is empty, and a move that is not castling changes no other square |
| Rules.AfterMoveCastles | _board/board.py:134-165 | in the four castling cases the corner's occupant moves to the rook's square beside the king and no square other than king, target, corner and rook's square changes; an empty corner changes nothing more |
| Rules.MaterialOfMove | _board/board.py:106-131 | the recount after the move differs from the count before it by exactly the captured piece's value |
| Rules.MaterialAfterMove | _board/board.py:106-165 | a whole move, castling included, changes the material only by the captured piece's value |
| Rules.EnPassantEffect | _board/board.py:435-449 | the pawn lands with has_moved set, its square empties, on the target the square behind it empties, and no other square changes |
| Rules.SetupLayout | _board/board.py:49-80 | on an empty board every square gets its starting occupant |
| Rules.PlaceBoth | _board/board.py:58-63 | a White piece goes on the file's first rank and a Black one on its last; every other square is kept |
| Rules.PlaceRooks | _board/board.py:66-69 | rooks go on the four corners and every other square is kept |
| Rules.PlaceMinor | _board/board.py:72-81 | the kind goes on both files of the first and the last rank and every other square is kept |
| Rules.PlacePawnsAt | _board/board.py:52-55 | after the pawn loop over the first n files, those files hold a White pawn on rank 1 and a Black pawn on rank 6, and every other square is kept |
| Rules.SetupStages | _board/board.py:49-81 | the placements in the order initialize_pieces makes them compose to the setup |
| Rules.SetupChain | _board/board.py:49-81 | a square after the setup holds what the last placement covering it put there |
| Rules.BackRankChain | _board/board.py:58-81 | on the first and last ranks the setup puts rook, knight, bishop, queen, king, bishop, knight, rook, unmoved, in the side's colour |
| Rules.SetupStart | _board/board.py:49-80 | initialize_pieces on an empty board builds the position of a new game |
| Rules.SqOf | _board/board.py:313-314 | the k-th square of the scan is on the board, has index k, and is the only such square |
| Tiles.Piece.constructor | _board/board.py:52-80 | a new piece has its colour, kind and square and has not moved |
| Tiles.Tile.constructor | _board/tile.py:21-27 | a new tile has its coordinates and shade, no occupant and no marker |
| Tiles.Tile.HasPiece | _board/tile.py:29-36 | true exactly when the tile has an occupant |
| Tiles.Tile.IsSameColor | _board/tile.py:38-47 | true exactly when there is an occupant and the other-colour test fails |
| Tiles.Tile.IsOtherColor | _board/tile.py:49-58 | true exactly when there is an occupant and it has the opposite colour |
| Tiles.Tile.GetPieceHere | _board/tile.py:84-91 | returns the occupant and changes nothing |
| Tiles.Tile.HighlightMove | _board/tile.py:60-62 | sets the highlight marker and changes no other field |
| Tiles.Tile.ClearHighlight | _board/tile.py:64-66 | clears the highlight marker and changes no other field |
| Tiles.Tile.PrevMove | _board/tile.py:68-70 | sets the previous-move marker and changes no other field |
| Tiles.Tile.ClearPrev | _board/tile.py:72-74 | clears the previous-move marker and changes no other field |
| Tiles.Tile.Click | _board/tile.py:76-78 | sets the clicked marker and changes no other field |
| Tiles.Tile.ClearClick | _board/tile.py:80-82 | clears the clicked marker and changes no other field |
| Tiles.ColorTests | _board/tile.py:38-58 | on an empty tile both colour tests are false; on an occupied one exactly one holds, for every colour; has_piece is their disjunction |
| ChessBoard.AddNew | _board/board.py:273-276 | appending the moves not yet listed keeps the list free of duplicates, keeps its prefix, and lists exactly the old and the new moves |
| ChessBoard.CheckIfDanger | _board/board.py:398-423 | a square already in the visited set is answered false; the square is recorded as visited; otherwise the answer is whether an enemy move reaches the square |
| ChessBoard.DangerOnce | _board/board.py:412-416 | asking again with the visited set of a first call answers false and leaves the set as it is |
| ChessBoard.RankStep | _board/board.py:531-551 | after each file of the rank loop, the string written so far followed by the encoding of the remaining files is the encoding of the whole rank; after the last file the string is that encoding |
| ChessBoard.Board.Snapshot | _board/board.py:389 | the grid read tile by tile is the value view |
| ChessBoard.Board.PieceAt | _board/board.py:533 | the tile's occupant is absent exactly when the value view has the square empty, and otherwise is recorded there with its colour, kind and has_moved |
| ChessBoard.Board.FindKing | _board/board.py:304-320 | the answer is the first king of that colour in scan order, or none |
| ChessBoard.Board.CalculateMaterial | _board/board.py:580-606 | the loop's result is White's total piece value minus Black's |
| ChessBoard.Board.CheckDraw | _board/board.py:697-724 | 0 when a rook, queen or pawn is on the board; otherwise 1 exactly when at most four pieces are left |
| ChessBoard.Board.RankString | _board/board.py:530-552 | one rank written by the loop is the run-length rank string of that rank |
| ChessBoard.Board.BoardState | _board/board.py:512-554 | the placement written is the encoding of the position, eight ranks from rank 8 down, joined by '/' |
| ChessBoard.Board.CheckForChecks | _board/board.py:322-346 | false while the guard is up; otherwise whether the king is on a square an enemy piece can move to; the flag is down again and every tile and piece as on entry |
| ChessBoard.Board.CheckIfMoveIntoCheck | _board/board.py:348-378 | the answer is the check test on the simulated move, and every tile occupant and piece square is as on entry |
| ChessBoard.Board.GetAllLegal | _board/board.py:380-396 | the generator's moves for the piece, in order, without those that move into check; the board is as on entry |
| ChessBoard.Board.ScanSquare | _board/board.py:270-276 | after one more square the list holds exactly the legal moves of the chosen side's pieces on the squares scanned so far, still free of duplicates; the board is as on entry |
| ChessBoard.Board.CollectMoves | _board/board.py:256-302 | the list is duplicate-free and holds exactly the legal moves of the chosen side's pieces |
| ChessBoard.Board.GetAllMoves | _board/board.py:256-278 | a duplicate-free list holding exactly the legal moves of the colour's pieces |
| ChessBoard.Board.GetAllEnemyMoves | _board/board.py:280-302 | a duplicate-free list holding exactly the legal moves of the other colour's pieces |
| ChessBoard.Board.RebuildTiles | _board/board.py:470-473 | a new tile on every square with its coordinates and the shade (file + rank) odd, and no piece on the board |
| ChessBoard.Board.PlacePiece | _board/board.py:52-80 | the square's tile holds the new piece and the value view changes on that square only |
| ChessBoard.Board.PutNew | _board/board.py:52-81 | a new, unmoved piece of that colour and kind stands on the square and no other square changes |
| ChessBoard.Board.PutPair | _board/board.py:58-63 | a White piece of the kind on the file's first rank and a Black one on its last, every other square kept |
| ChessBoard.Board.PutRooks | _board/board.py:66-69 | rooks on the four corners, every other square kept |
| ChessBoard.Board.PutMinors | _board/board.py:72-81 | the kind on both files of the first and last ranks, every other square kept |
| ChessBoard.Board.PlaceStartingPieces | _board/board.py:49-80 | the placements of initialize_pieces, in order, give the setup position |
| ChessBoard.Board.PlaceNewGame | _board/board.py:49-81 | on an empty board, the placements of initialize_pieces give the starting position of a new game |
| ChessBoard.Board.Record | _board/board.py:189-198 | the history grows by exactly one entry holding the move and the written placement, and the cursor points to it |
| ChessBoard.Board.IsCurrPos | _board/board.py:682-684 | with the cursor inside the history, the board is at the newest position exactly when no entry comes after the one shown |
| ChessBoard.Board.InitializePieces | _board/board.py:49-91 | on an empty board: the position of a new game, and one more history entry holding it, at the cursor |
| ChessBoard.Board.constructor | _board/board.py:20-47 | a consistent board in the starting position whose history is the single starting entry, with every flag at its initial value |
| ChessBoard.Board.ClearState | _board/board.py:476-485 | every game-state field is back at its initial value, with an empty history and the cursor before it |
| ChessBoard.Board.ResetBoard | _board/board.py:465-492 | the starting position, a history of exactly one entry with the cursor on it (so the board is at the newest position), and all terminal flags cleared |
| ChessBoard.Board.GetPiece | _board/board.py:201-203 | the piece becomes the selected one |
| ChessBoard.Board.Shift | _board/board.py:125-129 | the piece learns its new square and is marked as moved, lands on the target tile, and its old tile is emptied |
| ChessBoard.Board.MoveRook | _board/board.py:136-164 | the corner's occupant moves to the rook's square and learns it; an empty corner changes nothing |
| ChessBoard.Board.Castling | _board/board.py:134-165 | the rook moves exactly in the four castling cases for a king that left file 4 |
| ChessBoard.Board.ApplyMove | _board/board.py:106-165 | the position after the move, castling included, and the material differential recounted after the piece moved |
| ChessBoard.Board.FinishMove | _board/board.py:167-199 | both check tests leave the board as it was; the history grows by one entry; the cursor is at the tail and no piece is selected |
| ChessBoard.Board.MovePiece | _board/board.py:93-199 | away from the newest position nothing changes; otherwise the piece moves (castling included), the material equals the recount, the history grows by exactly one entry with its placement, the cursor is at the tail and the selection is dropped |
| ChessBoard.Board.Vacate | _board/board.py:442 | the square's tile is emptied and nothing else changes |
| ChessBoard.Board.Land | _board/board.py:444-447 | the pawn's old square is emptied, it lands on its target, learns the square and is marked as moved |
| ChessBoard.Board.EnPassant | _board/board.py:425-449 | the position of an en passant capture or plain pawn move, the pawn on its target marked as moved, and no en passant target left |
| ChessBoard.Board.Promote | _board/board.py:686-695 | a new, unmoved queen of the colour stands on the square |
| ChessBoard.Board.Resign | _board/board.py:451-461 | resigned and checkmate are set and the other colour wins |
| ChessBoard.Board.SetCheckmate | _board/board.py:205-207 | checkmate is set |
| ChessBoard.Board.SetStalemate | _board/board.py:209-211 | stalemate is set |
| ChessBoard.Board.SetMateColor | _board/board.py:213-215 | the winner is the given colour |
| ChessBoard.Board.RemoveHighlights | _board/board.py:225-229 | no tile is highlighted afterwards, and no occupant or other marker changes |
| ChessBoard.Board.RemovePrev | _board/board.py:231-236 | no tile carries the previous-move marker afterwards, and no occupant or other marker changes |
| ChessBoard.Board.LoadPiece | _board/board.py:646-664 | the square gets a new piece of that colour and kind, marked as moved exactly for a pawn off its home rank, and no other square changes |
| ChessBoard.Board.LoadRank | _board/board.py:631-665 | one rank string loaded piece by piece gives the rank the parser computes; the other ranks are unchanged |
| ChessBoard.Board.LoadFen | _board/board.py:608-668 | the grid holds the decoded placement and the material differential equals its recount |
| BoardView.CoordinatesInverse | _gui/view.py:466-492 | the two conversions undo each other, and are the identity for White and the half-turn for Black |
| BoardView.ScreenToBoard | _gui/view.py:466-478 | a screen square is on the board exactly when the board square it converts to is |
| BoardView.BoardToScreen | _gui/view.py:480-492 | a board square is on the board exactly when the screen square it converts to is |
| BoardView.ShowPrevMove | _gui/view.py:923-929 | the cursor goes back one step only when above 0; the history is untouched; the grid holds the entry's placement and the board is then not at the newest position; at the first entry nothing about the board or its grid changes |
| BoardView.ShowNextMove | _gui/view.py:931-936 | the cursor goes forward one step only when below the tail; the history is untouched; the grid holds the entry's placement; at the newest entry nothing about the board or its grid changes |
| BoardView.StuckVerdict | _gui/view.py:705-723 | with no move for the bot: checkmate when its first king's square is reached by the other side, stalemate when not, no verdict without a king |
| BoardView.BotVerdict | _gui/view.py:702-728 | the outcome decided by the queries, with the board as on entry |
| BoardView.Declare | _gui/view.py:715-741 | checkmate with the user as winner, stalemate for a blocked king or too little material, or the tiles of the bot's move's own two squares marked (the corrected marking; see Findings) |
| BoardView.MakeBotMove | _gui/view.py:694-741 | nothing changes unless the board is at the newest position and the game is not over; otherwise checkmate and stalemate are set exactly as the decision says |
| BoardView.HighlightBotMoveAsWritten | _gui/view.py:740-741 | the tiles marked are those of the two squares with file and rank swapped |
| BoardView.TransposedHighlight | _gui/view.py:740-741 | on any board, the tile the as-written indexing reaches for a square off the diagonal is another square's tile; for the knight move b8-c6 those are the tiles of h2 and f3 |
| BoardView.HighlightBotMove | _gui/view.py:740-741 | the tiles of the move's own two squares are marked |

## Left out

- Rendering, sprites, widgets, mouse handling, the busy-wait `wait`, `print` and `print_board`: display and console output, not engine logic.
- Check markers (`remove_check_indicators`, `highlight_king_in_check`): the tile methods they call are not part of this model. The model keeps the two check tests of `move_piece`, whose answers feed only those markers.
- `highlight_moves`: a display helper outside the modelled core.
- The pieces' `get_moves` is a parameter of the board (see above). `Piece.move` is modelled as the piece taking the target square and being marked as moved. `captured_piece.delete()` is not modelled.
- Where `en_passant_target` is set: that happens inside the pieces' code, which is not part of this model. The model takes the target as the board finds it.
- The bot (`Bot.make_move`) is an external collaborator. `MakeBotMove` receives its answer as a parameter and does not model the bot's own changes to the board.
- The extended placement with an active colour (`board_state(active_color)`): `load_fen` reads only the placement field, so the round trip is stated for the placement-only form.
- ChessBoard.Board.LoadFen: requires that the placement loads. On other input the program raises an exception (a character that is neither a digit nor one of the piece letters, or a piece past file 7 or rank 7), and exceptions are not modelled. The piece letters are the twelve ASCII letters and the Kelvin sign U+212A, which Python lower-cases to 'k' and reads as a White king; `Fen.PieceOf` accepts all thirteen. Digits are read as the ASCII digits only: a non-ASCII decimal digit, which `isdigit()` and `int()` also accept, is outside the model's requires.
- ChessBoard.Board.LoadFen: builds the new tiles rank by rank, where the program goes file by file. The resulting grid is the same.
- Fen.DigitValue: only ASCII digits are read as run lengths. Other Unicode digits that `str.isdigit` accepts are not modelled.
- ChessBoard.Board.EnPassant: requires that the square behind the target is on the board. For Black on rank 7 the program indexes rank 8 and raises an exception. For White on rank 0 the index -1 addresses rank 7, as a negative list index does, and that case is modelled.
- ChessBoard.Board.MovePiece: requires that, at the newest position, the selected piece stands on its tile. The program would fail on a missing selection.
- ChessBoard.Board.InitializePieces: requires an empty board. Both of its callers rebuild the tiles first.
- BoardView.Declare: marks the tiles of the bot's move's own squares (the corrected `HighlightBotMove`), where `_gui/view.py:740-741` marks the transposed tiles; the as-written marking is `HighlightBotMoveAsWritten` (see Findings).
- ChessBoard.Board.CheckIfMoveIntoCheck: the generator sees the position as a value, not the live grid.
- The generator sees only the position, the square and the en passant target. It cannot observe the board's `checking_for_checks` guard, which a `get_moves` that calls back into the board would see.
- The material differential is an unbounded integer. Python integers do not overflow.

## Findings

| source | as written | input that shows it | evidently intended | confidence | as-written member | corrected member |
|---|---|---|---|---|---|---|
| _gui/view.py:740-741 | the bot's move is highlighted on `grid[from_pos[0]][from_pos[1]]` and `grid[to_pos[0]][to_pos[1]]`, but positions are (file, rank) and the grid is indexed [rank][file] | the bot plays b8-c6, from (1, 7) to (2, 5): the tiles of h2 and f3 are marked | mark `grid[from_pos[1]][from_pos[0]]` and `grid[to_pos[1]][to_pos[0]]`, as the rest of the view does | medium: the bot's code is not part of this model; not executed | BoardView.HighlightBotMoveAsWritten, BoardView.TransposedHighlight | BoardView.HighlightBotMove |
