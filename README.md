# Star Chess rules engine, modelled in Dafny

Star Chess is a two-player chess game with a pygame front end. This project
models its rules engine: the board controller of `scripts/board.py`, the six
piece classes of `pieces/`, and the two input widgets of `scripts/menu.py`. It
then proves what that code does.

The board has these parts:

- an 8x8 grid of optional pieces, indexed `[row, file]`;
- the white and black rosters and the list of all pieces;
- the side to move, the winner and the selected piece;
- each side's list of generated moves.

A click on the board works in four stages:

1. Every piece of the side to move applies its pending flag.
2. With a piece selected, the click may match one of its moves: a castling, a
   pawn's double step, an en passant capture, or one of its possible moves. The
   matching branch kills, moves and passes the turn.
3. Otherwise the selected piece is deselected.
4. The selection loop picks the unblocked piece of the side to move that stands
   on the clicked square.

Passing the turn regenerates every piece's moves. It marks a king in check when
its square is among the other side's moves. While a king is in check, the
pieces of its side that have no move are marked blocked.

The model is split into five modules:

- `Squares` (`squares.dfy`): board geometry. It covers squares, the bounds test,
  the sliding rays in the order each piece walks them, and the knight's and the
  king's target squares.
- `Pieces` (`pieces.dfy`): one `Piece` class for all six kinds. Its constant
  `kind` stands for the Python subclass. Each piece's `calculate_moves` is a
  method that clears and appends to `possibleMoves`. It is proved equal to a
  heap-free specification function of a `View`, a snapshot of what stands on
  every square. Lemmas state what those functions produce: exactly the squares
  the chess rule names, in the source's order.
- `Game` (`board.dfy`): the `Board` class. It holds `reset`, `kill`, `move`,
  `change_turn`, `get_white_moves`/`get_black_moves`, `get_possible_moves`,
  `update_next_turn`, `promote` and the move resolution of `click`. Each
  state-changing method states the whole new state. The methods that change the
  grid and the rosters are proved to keep the board `Consistent`: every listed
  piece stands in the cell of its own coordinates, and every occupied cell holds
  a listed piece.
- `Menu` (`menu.dfy`): the `Entry` text field (digits and dots only) and the
  `Option` selector with its modular index.
- `Wrappers` (`wrappers.dfy`): the `Option` datatype.

The test `check_legal` is called by the source but defined nowhere. It is
modelled as a filter that keeps the moves an arbitrary `legal(origin, target)`
predicate accepts. The predicate is a constant of the board. The model also
takes each piece's rectangle list to mirror its move list; see "Left out". `Piece.reset` is
also called but never defined; it is modelled as doing nothing. `in_attack` is a
stub with an empty body, so it is modelled as reporting no attack.

Where the source would raise or index a row from its far end, the model stops
and says so in its result. This covers a move whose origin or destination is
off the board, and a move whose origin is empty. Other method results say where
the source would misbehave.

## Model

| member | source | states |
|---|---|---|
| Squares.Front | pieces/rook.py:22 | the forward ray from an on-board square walks toward row 0 one step at a time and stops exactly at the edge |
| Squares.Back | pieces/rook.py:23 | the backward ray walks toward row 7 and stops exactly at the edge |
| Squares.Left | pieces/rook.py:24 | the left ray walks toward file 0 and stops exactly at the edge |
| Squares.Right | pieces/rook.py:25 | the right ray walks toward file 7 and stops exactly at the edge |
| Squares.TopLeft | pieces/bishop.py:19 | the up-left diagonal walks outward one step at a time and stops at the first edge it meets |
| Squares.TopRight | pieces/bishop.py:20 | the up-right diagonal walks outward and stops at the first edge |
| Squares.BottomLeft | pieces/bishop.py:21 | the down-left diagonal walks outward and stops at the first edge |
| Squares.BottomRight | pieces/bishop.py:22 | the down-right diagonal walks outward and stops at the first edge |
| Squares.RookRaysShape | pieces/rook.py:22-26 | every square of a rook ray is on the board, differs from the origin and shares its file or rank |
| Squares.BishopRaysShape | pieces/bishop.py:19-24 | every square of a bishop ray is on the board, lies on one of the origin's diagonals at distance at least one, and has the origin's colour |
| Squares.QueenRaysShape | pieces/queen.py:20-28 | every square of a queen ray is on the board, differs from her square and shares her file, rank or diagonal |
| Squares.KnightTargets | pieces/knight.py:24-33 | the knight's list has eight distinct squares, which are exactly the one-by-two jumps |
| Squares.KingTargets | pieces/king.py:45-54 | the king's list has eight distinct squares, which are exactly the neighbouring squares |
| Pieces.Team.Enemy | pieces/piece.py:88-91 | a team's enemy is the other team |
| Pieces.ViewOfAt | scripts/board.py:251-255 | the board snapshot answers, for any square, what the grid cell holds on the board and nothing off it |
| Pieces.ViewQueries | scripts/board.py:238-255 | `available` holds iff the square is on the board and empty; `is_enemy` holds iff a piece of the other team stands there; off the board neither holds; the two never hold together |
| Pieces.RayCut | pieces/piece.py:164-169 | what `check_moves` keeps of a ray is a prefix of that ray |
| Pieces.FreeRun | pieces/piece.py:164-169 | the free run of a ray is its longest prefix of available squares |
| Pieces.RayCutIsFreeRunThenEnemy | pieces/piece.py:164-169 | `check_moves` appends the free run, then the first blocked square exactly when it holds an enemy, and nothing after it |
| Pieces.RayCutSquares | pieces/piece.py:164-169 | every appended square is empty or an enemy, and every square before it on the ray is empty: a slider never jumps |
| Pieces.CutAllMember | pieces/queen.py:31 | a square generated from several rays comes from one ray's cut, at the same index on that ray |
| Pieces.OffsetMoves | pieces/knight.py:36-38 | the offset loop keeps at most as many squares as it is given |
| Pieces.OffsetMovesSpec | pieces/knight.py:36-38 | the offset loop keeps exactly the targets that are available or hold an enemy, and repeats none when the targets repeat none |
| Pieces.KnightMovesExactly | pieces/knight.py:19-38 | a knight moves exactly to the jump squares that are empty or hold an enemy, at most eight and without repetition, never off the board |
| Pieces.KingStepsExactly | pieces/king.py:45-59 | a king steps exactly to the neighbours that are empty or hold an enemy, never off the board |
| Pieces.RookMovesShape | pieces/rook.py:17-29 | every rook move is on the board, off its own square, on its file or rank, and empty or an enemy |
| Pieces.BishopMovesShape | pieces/bishop.py:16-26 | every bishop move is on a diagonal at distance at least one, on the board, on a square of the bishop's colour, and empty or an enemy |
| Pieces.QueenMovesShape | pieces/queen.py:15-31 | every queen move is on the board, off her square, on her file, rank or diagonal, and empty or an enemy |
| Pieces.QueenIsRookPlusBishop | pieces/queen.py:20-31 | as a multiset, the queen's moves are the rook's moves from her square plus the bishop's |
| Pieces.EnPassantGeometry | pieces/pawn.py:14-24 | the en passant row is where an enemy pawn lands after its double step, the en passant destination is the square it skipped, and the two teams advance in opposite directions |
| Pieces.PawnMovesExactly | pieces/pawn.py:32-60 | a pawn moves one square ahead iff it is empty; two ahead iff both are empty and it has not moved; diagonally ahead iff an enemy stands there or, on its en passant row, a pawn that just double-stepped stands beside it; nowhere else |
| Pieces.CastlingSquares | pieces/king.py:76-91 | queenside castling needs an unmoved piece on file 0 and files 1-3 empty; kingside needs an unmoved piece on file 7 and files 5-6 empty; both need the king unmoved and not in check |
| Pieces.KingMovesExactly | pieces/king.py:40-67 | a king moves to an empty or enemy neighbour, or to a castling square whose check passes, and nowhere else |
| Pieces.Keep | scripts/board.py:177 | the legality filter keeps exactly the moves the board's legality test accepts, as a subsequence of the moves it is given, no more of them |
| Pieces.Piece.constructor | pieces/piece.py:19-24 | a new piece is unmoved and unselected, holds no moves and no pending flag, and fixes its double-step, passant, rook and castling squares from its start square (pawn.py:14-28, king.py:20-27) |
| Pieces.Piece.CheckMoves | pieces/piece.py:164-169 | walking one ray appends exactly that ray's cut to the moves |
| Pieces.Piece.CheckRays | pieces/rook.py:29 | walking the rays in order appends each ray's cut in order |
| Pieces.Piece.CalculateRookMoves | pieces/rook.py:17-29 | a rook's moves become its four rays' cuts, which is its move specification; its flags are unchanged |
| Pieces.Piece.CalculateBishopMoves | pieces/bishop.py:16-26 | a bishop's moves become its four diagonals' cuts |
| Pieces.Piece.CalculateQueenMoves | pieces/queen.py:15-31 | a queen's moves become her eight rays' cuts |
| Pieces.Piece.CalculateKnightMoves | pieces/knight.py:19-38 | a knight's moves become its available or enemy jump squares in the source's order |
| Pieces.Piece.CheckOffsets | pieces/knight.py:36-38 | the offset loop appends exactly the available or enemy targets |
| Pieces.Piece.AddPawnAdvances | pieces/pawn.py:37-40 | the front section appends the pawn's advances |
| Pieces.Piece.AddPawnCaptures | pieces/pawn.py:43-48 | the left and right sections append the diagonal squares that hold an enemy |
| Pieces.Piece.AddPawnPassants | pieces/pawn.py:51-60 | the en passant section appends, for each side where the pawn stands on its en passant row beside a pawn that just double-stepped, the landing square behind that pawn; it raises that side's passant flag and never lowers one |
| Pieces.Piece.CalculatePawnMoves | pieces/pawn.py:32-60 | a pawn's moves become its advances, captures and en passant captures as the pawn specification lists them, and the passant flags are set as above |
| Pieces.Piece.CastlingAllowed | pieces/king.py:76-91 | the early-return castling check answers exactly the castling predicate |
| Pieces.Piece.AddCastling | pieces/king.py:62-67 | a castling section appends the landing square exactly when its check passes |
| Pieces.Piece.CalculateKingMoves | pieces/king.py:40-67 | a king's moves become its steps and then its allowed castlings, and its castling flags record the two checks |
| Pieces.Piece.CalculateMoves | pieces/piece.py:164-169 | any piece's moves become its kind's move specification, computed from the state before the call |
| Pieces.Piece.CheckLegal | scripts/board.py:177 | the moves keep exactly those the legality test accepts, as a subsequence of the old list (so in order) |
| Pieces.Piece.Recalculate | scripts/board.py:175-178 | one piece's turn in the move loop: its moves are generated and filtered when asked, and its flags become what generation sets |
| Pieces.Piece.Move | pieces/piece.py:99-106 | the piece takes the new square, is moved and unselected; a pawn's passant squares follow its new file (pawn.py:62-72), other kinds keep theirs |
| Pieces.Piece.Click | pieces/piece.py:116-119 | the piece is selected exactly when the click is on its own square, and says so |
| Pieces.Piece.UpdateNextTurn | pieces/piece.py:70-72 | the piece remembers the assignment for its next flag check |
| Pieces.Piece.CheckFlag | pieces/piece.py:65-68 | a pending assignment is applied to its attribute and forgotten; the other attributes keep their values |
| Pieces.Concat | scripts/board.py:178 | a square is in the joined move list iff it is in one of the pieces' lists |
| Pieces.RecalculateAll | scripts/board.py:173-187 | every piece of a roster, in order, recalculates from the board as it stood, and the result is the concatenation of their new moves |
| Game.Without | scripts/board.py:164-166 | `list.remove` keeps every other piece listed and removes the piece from a list without repetitions |
| Game.GatherMoves | scripts/board.py:190-198 | a side's move list is the concatenation of its pieces' move lists in roster order, so a square is in it iff some piece of the side lists it |
| Game.BlockStuck | scripts/board.py:203-209 | while the king is in check, a piece with no move becomes blocked; a mark is never taken back |
| Game.ApplyFlags | scripts/board.py:321-322 | every piece of the side to move applies its pending assignment to the named attribute and forgets it |
| Game.MarkClicked | scripts/board.py:405-408 | the selection loop marks pieces in roster order up to the first unblocked one on the clicked square, and stops there |
| Game.CastlingOf | pieces/king.py:20-27 | a castling's landing, rook and rook-end squares are the ones the king fixed when it was built |
| Game.SetupKings | scripts/board.py:86-108 | each team starts with exactly one king, on file 4 of its home row |
| Game.LayOut | scripts/board.py:73-105 | reset's grid holds a new piece as the setup places it on rows 0, 1, 6 and 7, and nothing elsewhere |
| Game.Build | scripts/board.py:86-105 | a piece built for a setup square has the team and kind placed there and is unmoved at that square |
| Game.PlacePair | scripts/board.py:86-105 | placing one file of a row pair fills that file as the setup says and changes no other cell |
| Game.Roll | scripts/board.py:110-112 | a roster comprehension lists the team's pieces in row-major order |
| Game.ScanLaid | scripts/board.py:110-112 | on reset's grid, black's scan covers rows 0-1 and white's rows 6-7, cell by cell |
| Game.LaidRoster | scripts/board.py:110-112 | a roster of reset's grid lists each piece of its two rows once, each where its coordinates say |
| Game.Rosters | scripts/board.py:110-112 | reset's comprehensions give white rows 6-7 and black rows 0-1, row by row |
| Game.LaidRosters | scripts/board.py:107-112 | the rosters of reset's grid are distinct pieces of their own team, between them cover every occupied cell, and the kings stand on file 4 of their home rows |
| Game.Board.constructor | scripts/board.py:67-128 | a new board is reset: it is consistent, laid out as the setup says, with White to move and nothing won or selected |
| Game.Board.Reset | scripts/board.py:67-128 | reset lays out a fresh grid, lists its pieces row by row, takes the kings from file 4 of the home rows, sets White to move with nothing selected, won or generated, and leaves the board consistent |
| Game.Board.Install | scripts/board.py:107-123 | the rest of reset sets the grid, rosters, kings and turn state to the laid-out values |
| Game.Board.PlacedConsistent | scripts/board.py:67-128 | rosters of distinct pieces of their own team, each settled in its cell and covering every occupied cell, make a consistent board |
| Game.Board.Unlist | scripts/board.py:164-166 | kill removes the victim from whichever rosters hold it and from the list of all pieces |
| Game.Board.ClearCell | scripts/board.py:167 | kill empties exactly one cell |
| Game.Board.SwapCells | scripts/board.py:211-215 | move trades the contents of the two cells and no other |
| Game.Board.Kill | scripts/board.py:161-171 | nothing happens on an empty or off-board square; otherwise the piece leaves its rosters and its cell, a captured king makes the side to move the winner, and a consistent board stays consistent |
| Game.Board.KillKeepsConsistent | scripts/board.py:161-171 | what a kill leaves behind is consistent again |
| Game.Board.Move | scripts/board.py:211-215 | the two cells swap contents, the moving piece takes the new square, and a move onto an empty cell keeps the board consistent |
| Game.Board.MoveKeepsConsistent | scripts/board.py:211-215 | a piece moved onto an empty square leaves the board consistent |
| Game.Board.ConsistentReady | scripts/board.py:173-187 | a consistent board has two kings and no piece listed twice, which is what move generation asks |
| Game.Board.CheckKings | scripts/board.py:190-201 | each side's list gathers its pieces' moves, and a king is in check exactly when its square is among the other side's moves |
| Game.Board.BlockSides | scripts/board.py:203-209 | each side's stuck pieces are marked blocked while its king is in check, and no piece's flags change |
| Game.Board.RecalculateSides | scripts/board.py:191-197 | every white piece and then every black piece recalculates from the board as it stood, filtered by the legality test |
| Game.Board.GetTeamMoves | scripts/board.py:173-187 | one team's pieces recalculate, filtered only when asked, and the result lists all their moves in roster order |
| Game.Board.IsLegal | pieces/king.py:31-38 | a king's move is legal exactly when no enemy piece, regenerated without the legality filter, lists that square |
| Game.Board.Survey | scripts/board.py:190-209 | the moves are gathered, the check marks follow the other side's moves, and stuck pieces are blocked |
| Game.Board.GetPossibleMoves | scripts/board.py:189-209 | every piece's moves are regenerated from the board as it stood; each side's list is the concatenation of its pieces' lists; a king is in check exactly when attacked by that list; while it is, its side's pieces with no move are blocked |
| Game.Board.PassTurn | scripts/board.py:149-159 | the turn passes to the other team; every listed piece's moves become exactly those it generates, through the legality filter, from the board and its own state before the call; each side's list gathers its pieces' moves; each king is in check exactly when the other side's list reaches its square; a piece with no move becomes blocked when its king is in check, and no block is lifted; the side that just moved wins when the new side to move has no move |
| Game.Board.ChangeTurn | scripts/board.py:149-159 | change_turn states every clause of PassTurn above, and a board consistent before it stays consistent |
| Game.Board.UpdateNextTurn | scripts/board.py:304-306 | the piece on the square remembers the assignment for its next flag check |
| Game.Board.ConsistentWithin | scripts/board.py:251-255 | on a consistent board every occupied cell holds a listed piece |
| Game.Board.PickListed | scripts/board.py:405-408 | the piece a click picks is listed for the side to move and stands on the clicked square |
| Game.Board.SelectAt | scripts/board.py:405-410 | the selection becomes the unblocked piece of the side to move on the clicked square, or stays empty; a chosen piece's moves are recalculated and filtered; the board stays consistent |
| Game.Board.ChooseAt | scripts/board.py:405-410 | the selection loop leaves the selection equal to the piece the click picks |
| Game.Board.Choose | scripts/board.py:408-410 | the chosen piece is selected and its moves are recalculated and filtered |
| Game.Board.Conclude | scripts/board.py:338-339 | the end of a move branch passes the turn and clears the selection; every listed piece's moves are regenerated from the board and its state before the call, each king's check mark follows the other side's moves, the side that just moved wins when the new side has no move; the grid and the moving piece are left alone and a consistent board stays consistent |
| Game.Board.Strike | scripts/board.py:394 | a kill on a consistent board empties the square, keeps it consistent, and only shrinks the rosters |
| Game.Board.Capture | scripts/board.py:392-395 | kill then move: the grid afterwards is stated cell by cell, the piece stands on the destination, and the winner is set when a king was taken |
| Game.Board.Shove | scripts/board.py:211-215 | a move without a capture swaps the two cells, and the model stops exactly when a square is off the board or the origin is empty |
| Game.Board.PlayCapture | scripts/board.py:389-398 | the possible-move and en passant branches kill, move the selected piece, pass the turn, clear the selection and mark each king's check from the new move lists; the turn's winner is set when the new side has no move or the victim was a king |
| Game.Board.KingStep | scripts/board.py:331-345 | the king moves to its landing square, the left castling killing first; for an unmoved king the squares are its home rank's |
| Game.Board.CastleMoves | scripts/board.py:331-348 | a castling moves the king and then the rook to the square beside it |
| Game.Board.PlayCastle | scripts/board.py:331-351 | the castling branches move king and rook, pass the turn, clear the selection and mark each king's check from the new move lists |
| Game.Board.NoteDoubleStep | scripts/board.py:357-359 | the pawn notes its double step and asks for the note to be cleared on its next flag check |
| Game.Board.StepTwice | scripts/board.py:356-362 | the pawn notes the double step and moves to its double-step square; the board stays consistent where that square was empty |
| Game.Board.PlayDoubleStep | scripts/board.py:356-365 | the double-step branch does the above, passes the turn, clears the selection and marks each king's check from the new move lists |
| Game.Board.ApplyTeamFlags | scripts/board.py:318-322 | the flag loop over the side to move clears every pending flag and keeps the board consistent |
| Game.Board.Unselect | scripts/board.py:400-402 | the selected piece and the board forget the selection |
| Game.Board.Click | scripts/board.py:315-410 | with a winner set, a click changes nothing: not the board, its grid, its kings or any listed piece; otherwise the flags are applied, the matching move branch runs and passes the turn, or else the piece the click picks becomes the selection |
| Game.Board.Respond | scripts/board.py:325-410 | a matching branch runs for the selected piece, or else the selection is dropped and the click's piece is chosen |
| Game.Board.PlayMove | scripts/board.py:327-398 | a completed move branch passes the turn and clears the selection; an ordinary move keeps the board consistent |
| Game.Board.Enlist | scripts/board.py:456-460 | a new piece joins the roster of the side to move and the list of all pieces, and takes its cell |
| Game.Board.EnlistKeepsConsistent | scripts/board.py:456-460 | a new settled piece of the side to move on an empty cell leaves the board consistent |
| Game.Board.Commission | scripts/board.py:455-460 | a new unmoved piece of the chosen kind and of the side to move is built on the square and enlisted there |
| Game.Board.Promote | scripts/board.py:449-460 | whatever stands on the pawn's square is killed and replaced by a new unmoved piece of the chosen kind for the side to move; the board stays consistent unless that piece is a king off its home file |
| Menu.Typed | scripts/menu.py:301-305 | a key types one accepted character exactly when its code is a digit or a dot, and nothing otherwise |
| Menu.EditedShape | scripts/menu.py:290-305 | backspace drops exactly the last character of a non-empty input; any other key appends at most one accepted character, and leaves the input as it was iff the key is not a digit or a dot |
| Menu.EditGrows | scripts/menu.py:290-305 | one key keeps an input that is part of the starting value followed by digits and dots in that form |
| Menu.TypingGrows | scripts/menu.py:268-305 | whatever keys arrive, an entry holds part of its starting value followed by digits and dots only |
| Menu.GrownTyping | scripts/menu.py:290-305 | the same from any input already in that form |
| Menu.Entry.constructor | scripts/menu.py:253-270 | a new entry shows the configured value, is unselected, and the configuration holds what it shows |
| Menu.Entry.Render | scripts/menu.py:272-282 | render writes the input to the configuration |
| Menu.Entry.Click | scripts/menu.py:284-288 | the entry is selected exactly when the click hits its text |
| Menu.Entry.Keydown | scripts/menu.py:290-305 | an unselected entry ignores keys; a selected one edits its input as Edited says and writes the configuration whenever the input changes |
| Menu.PickModulo | scripts/menu.py:368 | a Python subscript, negative or not, picks the element at the index modulo the length |
| Menu.Turned | scripts/menu.py:349-350 | after a click the index lies in range; without one it is unchanged |
| Menu.TurnedModulo | scripts/menu.py:349-350 | a click moves the index by the buttons' net step, modulo the number of options |
| Menu.TurnBack | scripts/menu.py:349-350 | a left click undone by a right click, or the other way round, returns to the index modulo the length, and exactly to an index in range |
| Menu.Option.constructor | scripts/menu.py:321-345 | a new selector takes its index from the configuration and shows the option that index picks |
| Menu.Option.Render | scripts/menu.py:366-371 | render shows the option the index picks |
| Menu.Option.Click | scripts/menu.py:347-354 | as written: the index turns modulo the length, and on a click the configuration and the callback get the option shown before the click |
| Menu.Option.ClickApplied | scripts/menu.py:347-354 | corrected: the configuration and the callback get the option the click has just chosen |
| Menu.StaleVolume | scripts/menu.py:349-354 | with volumes 0 to 100 at 50, a right click shows 51 but writes 50 |

## Left out

- Drawing, rectangles, pixel geometry, fonts, animations, hovering and sounds are left out. A click reaches the model as the square it falls on. The exit button's click, handled before the board's rules, is left out.
- The network board (`OnlineBoard`, `web/`), the event loops (`main`, `intro`, `tick`) and `win`'s confetti are not part of this model. A win is modelled as setting `winner`.
- Configuration file I/O (`Config.update` writing JSON, scripts/functions.py:77-80) is modelled as the one value each widget stores under its key. A key missing from the configuration (`config.get` returning `None`) is not modelled.
- Menu.Typed: for a key code from 0x110000 up to the largest C `int`, `chr` raises `ValueError`, which the source catches, so nothing is typed, as in the model. For a code outside the C `int` range, including those below -2^31, `chr` raises `OverflowError`, which the source does not catch. The model types nothing for those codes too.
- `check_legal` is defined nowhere in the source, so it is modelled as the filter of an arbitrary legality test. Which moves it rejects, for example moves that leave the own king in check, is left out.
- The model assumes that each piece's list of move rectangles mirrors its list of moves. `change_turn` (scripts/board.py:158) and the move loop of `click` (scripts/board.py:390) read those rectangles. The rectangles are rebuilt only by `calculate_moves_rects` (pieces/piece.py:152-158), and no code in this model calls it. Only the undefined `check_legal` could call it. If nothing did, the rectangle lists would stay empty: every `change_turn` would declare a win, and no click on a move would ever match.
- Pieces.PawnMovesExactly, Pieces.Piece.AddPawnPassants, Pieces.Piece.CalculatePawnMoves: the source reads `moved_twice` from whatever piece stands beside a pawn on its en passant row (pieces/pawn.py:52-53). Only pawns have that attribute (pieces/pawn.py:18), so any other piece there raises `AttributeError`. The model treats such a neighbour as no en passant victim.
- Game.Board.PlayCapture, Game.Board.PlayCastle, Game.Board.PlayDoubleStep: these state that the turn passes, that the check marks follow the new move lists, and who wins. They do not restate that each piece's moves are regenerated from the board after the move. That fact is stated on Game.Board.Conclude, which each of them calls.
- `Piece.reset` is defined nowhere, so it is modelled as doing nothing. `in_attack` is a stub, so it is modelled as reporting no attack.
- Game.Board.IsLegal: the source reads `self.enemy`, which the king never sets. The model takes the king's enemy to be the other team.
- Game.Board.Click: a move branch whose destination lies off the board (a click on a square just outside it) ends in `Halted`. The source would raise `IndexError` there or, for a coordinate of -1, index a row from its far end.
- Game.Board.Click, Game.Board.Respond, Game.Board.PlayMove: these only relay which branch ran, that a completed branch passes the turn, and consistency after an ordinary move. The per-branch facts are stated on the branch methods.
- Game.Board.Capture, Game.Board.PlayCapture: consistency is promised only when the destination is empty or is the captured square. An en passant landing on an occupied square swaps the two pieces in the source, and the rosters no longer match the grid.
- Game.Board.StepTwice, Game.Board.PlayDoubleStep: consistency is promised only when the double-step square was empty. The source does not look at that square and swaps an occupied one with the pawn's.
- Game.Board.KingStep, Game.Board.CastleMoves, Game.Board.PlayCastle: the castling squares are tied to the home rank only for an unmoved king. For a moved king, only the cell-by-cell effect of the two moves is stated.
- Game.Board.Promote: consistency is not promised when the new piece is a king off file 4. `promote` is never called by `click`, and the promotion menu that would call it is not part of this model.
- The en passant flags are only ever raised, never lowered, as in the source.
- A pawn's `allow_left_passant` and `allow_right_passant` are set true (pieces/pawn.py:29-30) and never changed, so the model leaves them out of the en passant test.
- `blocked` is never initialised by the source; the model starts it false.
- Menu.Option.constructor: it requires an index that Python can subscript the options with. An out-of-range index raises `IndexError` in the source's `render`. The configuration stores the option's value and reads it back as the index, which the model keeps as written.

## Findings

| source | as written | input that shows it | evidently intended | confidence | as-written member | corrected member |
|---|---|---|---|---|---|---|
| scripts/menu.py:351-354 | `Option.click` writes `self.option` to the configuration and passes it to the callback before `render` updates it from the new index | volumes 0 to 100 at index 50, right button: index 51 and 51 shown, but 50 stored and 50 passed to the callback | store and apply the option the click has just chosen | not executed | Menu.Option.Click, Menu.StaleVolume | Menu.Option.ClickApplied |
