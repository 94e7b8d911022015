# RustChess core in Dafny

This project models the engine of RustChess, a terminal chess program, and proves properties of the model. The modelled engine has these parts:

- **Pieces and their movement rules** (`src/piece.rs`): the per-type reachability tests, path obstruction, the enumeration of reachable squares, and the legal-destination filter.
- **The board grid** (`src/board.rs`).
- **The two players** and their piece lists (`src/player.rs`): the starting position, capture and restore, and the attack test on the king.
- **The game** (`src/game.rs`): executing and reverting a move, the speculative "does this move leave my king attacked" test, resolving short and full move notation, the checkmate/stalemate classification, FEN export, and construction from a FEN record.
- **The parsers**:
  - `src/parser.rs`: the command/move parser and the FEN placement parser;
  - `src/notation.rs`: an earlier full-notation parser.

Modules, one per file:

| module | file | what it holds |
|---|---|---|
| `Wrappers` | wrappers.dfy | `Result` (error text as in the source) and `Option` |
| `Text` | text.dfy | `trim`, `is_ascii`, `split` and their laws |
| `Geometry` | geometry.dfy | `Color`, `PieceType`, `Position`, `ChessMove` (i32 components), square names |
| `Pieces` | pieces.dfy | the `Piece` record and `take`/`untake`/`update_position` |
| `Boards` | boards.dfy | the `Board` class over a 64-cell array; cell `x*8+y` is `grid[x][y]` |
| `Movement` | movement.dfy | `is_field_reachable_*`, `check_takeable`, `is_path_obstructed` |
| `Enumeration` | enumeration.dfy | `get_reachable_positions_*` as loops proved against the rules |
| `Players` | players.dfy | the `Player` class, `init_pieces`, `gets_checked_by` |
| `GameStates` | state.dfy | the game's mutable data as a value (`State`); a move and its undo on it; consistency of board and lists; legality and the game-state classification |
| `Legality` | legality.dfy | the `swap_remove` filter of `get_legal_positions` |
| `Resolution` | resolution.dfy | what a short or full notation resolves to |
| `Parser` | parser.dfy | `parse_action`, `parse_move`, `parse_notation`, the printed form of a move |
| `Notation` | notation.dfy | `src/notation.rs` as written and corrected |
| `Fen` | fen.dfy | FEN text written by `export_fen` and read by `parse_fen` |
| `FenLaws` | fenlaws.dfy | the round trips between the two, and the king-count check |
| `Games` | games.dfy | the `Game` class, proved against `GameStates` |
| `Scenarios` | scenarios.dfy | the game of `test_pawn_advances_white` in src/tests.rs, proved on the model |
| `CaptureScenario` | capture.dfy | the game of `test_pawn_takes_white` in src/tests.rs, proved on the model |

The `Game` class keeps a board object, two player objects and the side to move. Its methods change them in place. Each method states its new state through `Snapshot()`, which is the board and both piece lists as one `State` value. The properties are proved on `State`:

- a move is undone exactly by its revert;
- a move keeps the board and the lists consistent;
- the per-piece lists of legal destinations are all empty exactly when the side has no legal move.

## Model

| member | source | states |
|---|---|---|
| Geometry.Other | src/game.rs:316-322 | the enemy of a side is the other colour |
| Geometry.ColorIndex | src/piece.rs:22-29 | White is slot 0 and Black slot 1 of the players array |
| Geometry.ColorToStr | src/piece.rs:43-50 | a side is written as a one-character token |
| Geometry.ColorFromStr | src/piece.rs:31-41 | only "w" and "b" are read, and each is read as the colour written that way |
| Geometry.ColorStrRoundTrip | src/piece.rs:31-50 | reading the token of a colour gives that colour |
| Geometry.GetMoveTo | src/piece.rs:59-64 | the displacement between two squares fits in i32 components |
| Geometry.AddMove | src/piece.rs:66-77 | adding a displacement fails exactly when the result leaves the 8x8 board, and otherwise gives the sum |
| Geometry.AddMoveGetMoveTo | src/piece.rs:59-77 | adding the displacement from p to q to p gives q |
| Geometry.Sign | src/piece.rs:126-130 | `i32::signum` is -1, 0 or 1 with the sign of its argument |
| Geometry.Signum | src/piece.rs:126-130 | each component of the step is the sign of the displacement's component |
| Geometry.PositionFromStr | src/piece.rs:88-111 | a position is read exactly from a file letter a-h then a rank digit 1-8, and is the square of that name |
| Geometry.PositionNameRoundTrip | src/piece.rs:80-111 | every on-board square is read back from its printed name |
| Pieces.NewPiece | src/piece.rs:157-172 | a new piece is in play with the given type, colour and square |
| Pieces.Take | src/piece.rs:178-181 | a taken piece is marked taken and parked on (0,0); type and colour are kept |
| Pieces.Untake | src/piece.rs:183-186 | an untaken piece is in play on the given square |
| Pieces.UpdatePosition | src/piece.rs:188-190 | only the square changes |
| Pieces.UntakeTake | src/piece.rs:178-186 | taking a piece and untaking it on its old square restores it |
| Boards.EmptyGrid | src/board.rs:8-10 | the new grid has 64 empty cells |
| Boards.IdxInjective | src/board.rs:47-49 | distinct squares use distinct cells |
| Boards.PlacedLast | src/board.rs:12-17 | after `init`, a piece that no later piece shares a square with is found on its square under its own index |
| Boards.PlacedUntouched | src/board.rs:12-17 | `init` leaves cells without pieces unchanged |
| Boards.PlacedSource | src/board.rs:12-17 | every cell `init` writes names a listed piece standing on it |
| Boards.Board.constructor | src/board.rs:8-10 | a new board is empty |
| Boards.Board.Init | src/board.rs:12-17 | the grid becomes the old grid with every piece's index written on its square, later pieces overwriting earlier ones |
| Boards.Board.GetIndex | src/board.rs:47-49 | reads the cell of the square without changing anything |
| Boards.Board.IsEmptyField | src/board.rs:40-45 | a field is empty exactly when `get_index` finds nothing |
| Boards.Board.SetEntry | src/game.rs:260-261 | writes one cell and keeps the other 63 |
| Movement.Abs | src/piece.rs:248-249 | `i32::abs` |
| Movement.StepPos | src/piece.rs:318-329 | each square on an in-bounds ray is on the board |
| Movement.IsPathObstructed | src/piece.rs:318-329 | true exactly when one of the first n squares stepped through is occupied |
| Movement.ObstructedNext | src/piece.rs:318-329 | the first n+1 steps are obstructed exactly when the first n are or the square of step n+1 is occupied |
| Movement.CheckTakeable | src/piece.rs:331-337 | refused exactly when the target holds a piece of the mover's colour |
| Movement.PawnRule | src/piece.rs:205-242 | the pawn rule accepts exactly a one-square advance onto an empty square, a two-square advance from the start rank over an empty square onto an empty square, or a diagonal step onto an enemy piece |
| Movement.IsFieldReachableKnight | src/piece.rs:244-254 | accepted exactly for a (1,2) or (2,1) jump onto a square without an own piece |
| Movement.LineOnBoard | src/piece.rs:256-294 | the squares strictly between two squares on a line are on the board |
| Movement.IsFieldReachableBishop | src/piece.rs:256-272 | accepted exactly for a non-null diagonal move with empty squares between and no own piece on the target |
| Movement.IsFieldReachableRook | src/piece.rs:274-294 | accepted exactly for a non-null rank or file move with empty squares between and no own piece on the target |
| Movement.IsFieldReachableQueen | src/piece.rs:296-304 | accepted exactly when the rook's rule or the bishop's rule accepts |
| Movement.IsFieldReachableKing | src/piece.rs:306-316 | accepted exactly for a non-null move of at most one square each way onto a square without an own piece |
| Movement.IsFieldReachable | src/piece.rs:194-203 | a reachable square is never the piece's own and never holds an own piece |
| Enumeration.CollectedAll | src/piece.rs:357-366 | once every displacement the rule could accept has been tried, the list holds exactly the accepted squares |
| Enumeration.PushIfReachable | src/piece.rs:380-383 | the list is extended by the square exactly when the rule accepts it |
| Enumeration.SkipOffBoard | src/piece.rs:377-379 | a displacement that leaves the board adds nothing |
| Enumeration.SkipAllOffBoard | src/piece.rs:385-393 | several displacements that leave the board add nothing |
| Enumeration.TryMove | src/piece.rs:377-383 | trying a displacement keeps the collected list exact |
| Enumeration.PawnDeltas | src/piece.rs:205-242 | the pawn rule only accepts the four displacements the pawn enumerator tries |
| Enumeration.GetReachablePositionsPawn | src/piece.rs:368-396 | the result holds exactly the on-board squares the pawn's rule accepts, each once |
| Enumeration.GetReachablePositionsKnight | src/piece.rs:398-421 | the result holds exactly the on-board squares the knight's rule accepts, each once |
| Enumeration.OffBoardBeyond | src/piece.rs:429-433 | once a ray leaves the board it stays off it, so the `break` loses nothing |
| Enumeration.WalkRay | src/piece.rs:429-437 | walking up to seven steps of a ray tries every on-board square of it and keeps the list exact |
| Enumeration.OnRay | src/piece.rs:423-442 | every square on a line through the piece is a whole number of unit steps along its direction |
| Enumeration.GetReachablePositionsBishop | src/piece.rs:423-442 | the result holds exactly the on-board squares the bishop's rule accepts, each once |
| Enumeration.RookLine | src/piece.rs:447-463 | one loop tries every square of the rank (or file) and keeps the list exact |
| Enumeration.GetReachablePositionsRook | src/piece.rs:444-466 | the result holds exactly the on-board squares the rook's rule accepts, each once |
| Enumeration.RookCovered | src/piece.rs:444-466 | the rank and the file hold every square the rook's rule can accept |
| Enumeration.GetReachablePositionsQueen | src/piece.rs:468-475 | the result holds exactly the on-board squares the queen's rule accepts, each once |
| Enumeration.GetReachablePositionsKing | src/piece.rs:477-496 | the result holds exactly the on-board squares the king's rule accepts, each once |
| Enumeration.GetReachablePositions | src/piece.rs:357-366 | the result holds exactly the on-board squares the piece's own rule accepts, each once |
| Players.FirstKing | src/player.rs:102-104 | the first king of the list, the one the attack test looks at |
| Players.StartingPieces | src/player.rs:11-35 | sixteen pieces, all on the board, piece i being `StartingPiece` i |
| Players.StartingPiece | src/player.rs:11-35 | piece i of the starting list is on the board, of the side's colour and in play |
| Players.StartingRanks | src/player.rs:11-35 | White starts on the first two ranks, Black on the last two |
| Players.StartingPiecesWellPlaced | src/player.rs:11-35 | the starting pieces stand on sixteen distinct squares of the side's two home ranks; only the last is a king |
| Players.StartingPiecesMirrored | src/player.rs:11-35 | Black's starting pieces are White's mirrored across the middle of the board |
| Players.InitPieces | src/player.rs:11-35 | the loop builds exactly the starting pieces |
| Players.Player.New | src/player.rs:38-41 | a new player has the starting pieces and is not in check |
| Players.Player.NewFrom | src/player.rs:43-45 | the given pieces are kept in order, not in check |
| Players.Player.TakePiece | src/player.rs:55-61 | only piece i changes, and it becomes taken; the piece must be in play |
| Players.Player.UntakePiece | src/player.rs:63-69 | only piece i changes, and it is back in play on the square; the piece must be taken |
| Players.Player.UpdatePiecePosition | src/player.rs:71-73 | only the square of piece i changes |
| Players.Player.GetsCheckedBy | src/player.rs:102-118 | true exactly when an enemy piece in play can move onto the first king's square |
| Players.Player.UpdateCheck | src/player.rs:120-122 | the cached flag is the attack test |
| GameStates.Assemble | src/game.rs:316-322 | the mover's and the enemy's lists land in the right slots |
| GameStates.ConsistentMovePossible | src/game.rs:251-264 | a move of an own piece onto an empty square or an enemy piece on a consistent position never panics |
| GameStates.ApplyMove | src/game.rs:251-264 | the mover lands on the target, the source empties, a captured piece is taken, and every other square is unchanged |
| GameStates.ApplyMovePiece | src/game.rs:251-264 | only the mover and the captured piece change |
| GameStates.UndoMove | src/game.rs:266-276 | the target gets its old entry back, the source gets the mover back, and a captured piece is untaken |
| GameStates.UndoAfterApplyPossible | src/game.rs:266-276 | after a move, reverting it never panics |
| GameStates.UndoApply | src/game.rs:231-249 | reverting a move on a consistent position restores the position exactly |
| GameStates.ApplyMoveWellFormed | src/game.rs:251-264 | a move keeps every position on the board and every entry pointing into the lists |
| GameStates.ApplyMoveKeepsKind | src/game.rs:251-264 | a move keeps every piece on the board and of its type |
| GameStates.ApplyMoveEntryIndexed | src/game.rs:251-264 | after a move, the entry on every square names an existing slot of its side's list |
| GameStates.ApplyMoveConsistent | src/game.rs:251-264 | a move keeps the board and the lists consistent |
| GameStates.ApplyMoveListsAgree | src/game.rs:251-264 | after a move every piece keeps its colour and every piece in play is named by the entry on its square |
| GameStates.ApplyMoveBoardAgrees | src/game.rs:251-264 | after a move every entry names a piece in play standing on that square |
| GameStates.ReachableMove | src/game.rs:172-187 | a reachable move of a piece in play is a move between the sides that keeps the king |
| GameStates.InPlay | src/game.rs:159-164 | the indices of exactly the pieces in play, increasing |
| GameStates.Flatten | src/game.rs:282 | the flattened list is empty exactly when every list is |
| GameStates.SetUp | src/game.rs:34-43 | both lists are kept as given |
| GameStates.SetUpConsistent | src/game.rs:34-43 | pieces in play on distinct squares give a consistent board and lists |
| GameStates.StartingSquaresDistinct | src/player.rs:11-35 | the two sides start on 32 different squares |
| GameStates.StartingSetUp | src/game.rs:25-32 | the initial position is consistent, with a king on each side |
| Legality.LegalAmong | src/piece.rs:339-355 | the legal destinations among the candidates |
| Legality.SwapRemove | src/piece.rs:348 | `swap_remove` drops element k, keeps the others and keeps the prefix before k |
| Legality.SwapRemoveDistinct | src/piece.rs:348 | `swap_remove` keeps a list free of repeats |
| Legality.FilterStep | src/piece.rs:344-352 | keeping a legal square or swap-removing an illegal one keeps the loop's invariant, and keeps a list without repeats |
| Legality.InPlayStep | src/game.rs:159-167 | the pieces in play grow one index at a time |
| Legality.ListsStep | src/game.rs:159-167 | each round of the loop keeps one exact list of legal destinations per piece in play seen so far |
| Legality.ListsComplete | src/game.rs:154-170 | after the last piece there is one exact list per piece in play of the side |
| Legality.ListsDecideLegalMoves | src/game.rs:278-293 | all lists of legal destinations are empty exactly when the side has no legal move |
| Legality.EmptyListNoMove | src/game.rs:285-289 | a piece with an empty list has no legal move |
| Legality.ListedMove | src/game.rs:290-292 | a listed square is a legal move |
| Resolution.Matches | src/game.rs:194-203 | candidate indices are below the bound |
| Resolution.MatchesExact | src/game.rs:194-203 | the candidates are exactly the pieces in play of the type whose rule reaches the target, increasing |
| Resolution.CountMatches | src/game.rs:192-203 | the count is the number of candidates, and the square is the last candidate's |
| Resolution.MatchesNext | src/game.rs:194-203 | one more piece adds itself to the candidates exactly when it is one |
| Resolution.CountStep | src/game.rs:194-203 | one round counts the piece and records its square exactly when it is a candidate |
| Resolution.ResolvedMove | src/game.rs:172-187 | a resolved notation is a move of an own piece in play, of the named type, accepted by its rule |
| Resolution.SafeIsLegal | src/game.rs:172-187 | the move of a resolved notation passes the check test exactly when it is legal |
| Games.Game.New | src/game.rs:25-32 | the game starts from the initial position with White to move; the position is consistent with a king on each side |
| Games.Game.FromParsed | src/game.rs:34-43 | the parsed lists become the players' lists, and the side index picks the side to move |
| Games.Game.ExportFen | src/game.rs:91-137 | the text written is the FEN export of the board's layout and the side to move |
| Games.Game.ExportRow | src/game.rs:94-127 | one row's text is the FEN text of that rank |
| Games.Game.GetRefPlayers | src/game.rs:295-301 | the players of the side and of the enemy, with their lists |
| Games.Game.ExecuteMove | src/game.rs:251-264 | the new state is the move applied to the old one, and the answer is whether the mover's king is attacked after it |
| Games.Game.RevertMove | src/game.rs:266-276 | the new state is the undo applied to the old one |
| Games.Game.DoesMoveCauseCheck | src/game.rs:231-249 | the position is restored, and the error is returned exactly when the move leaves the king attacked, with the message chosen by the check flag as it stood before the move |
| Games.Game.TryLegal | src/piece.rs:345-351 | one speculative test says whether the square is legal and changes nothing |
| Games.Game.GetLegalPositions | src/piece.rs:339-355 | the list holds exactly the piece's legal destinations, each once, and the position is unchanged |
| Games.Game.KeepLegal | src/piece.rs:342-354 | the filter keeps exactly the legal candidates, and a list without repeats stays without repeats |
| Games.Game.GetAllCurrentLegalPositions | src/game.rs:154-170 | one exact list of legal destinations per piece in play, in order; the position is unchanged |
| Games.Game.CollectPiece | src/game.rs:159-167 | one round adds nothing for a taken piece and the exact list of legal destinations for a piece in play; the position is unchanged |
| Games.Game.UpdateGameState | src/game.rs:278-293 | the mover's check flag is refreshed and the other side's is untouched, and the result is checkmate, stalemate or ongoing as the legal moves and the check decide |
| Games.Game.ValidateAndConvertShortNotation | src/game.rs:189-210 | Ok with the candidate's square exactly when there is one candidate; an error for none, and another for several |
| Games.Game.ValidateFullNotation | src/game.rs:212-229 | in order: an empty source, a source of the other side, a type mismatch, then the piece's own rule |
| Games.Game.ResolveNotation | src/game.rs:172-182 | the result is the one square the notation resolves to, and an error when there is none |
| Games.Game.ValidateAndExecuteMove | src/game.rs:172-187 | succeeds exactly when the notation names a safe move, which is then played; a refusal changes nothing, and consistency is kept |
| Games.Game.SwitchPlayer | src/game.rs:77-80 | the other side is to move |
| Games.NewFromFen | src/game.rs:34-43 | a game is built exactly from a record the king-corrected parser accepts, consistent and with a king on each side; otherwise its error |
| Fen.ReadFenChar | src/parser.rs:104-118 | a digit is read as a run of 1 to 8 empty squares |
| Fen.PositionOf | src/parser.rs:127-139 | two kings in all, then "w" is side 0 and "b" side 1, and other tokens are an error |
| Fen.ParseFen | src/parser.rs:87-140 | the loops compute exactly the FEN reading, check by check |
| Fen.ScanRankInPlace | src/parser.rs:102-124 | the loop over one rank computes exactly the reading of that rank |
| Fen.ScanAllRanks | src/parser.rs:100-125 | the loop over the eight ranks computes exactly the reading of the ranks from the top rank down |
| FenLaws.FigureCharRead | src/parser.rs:105-112 | each piece letter `export_fen` writes is read as that piece |
| FenLaws.DigitCharRead | src/parser.rs:113-116 | each run digit `export_fen` writes is read as that run |
| FenLaws.RowTextPlain | src/game.rs:94-127 | a rank's text holds no separator and no whitespace |
| FenLaws.ScanAppend | src/parser.rs:104-120 | reading two texts is reading the first, then the second from where the first ended |
| FenLaws.ScanRowText | src/parser.rs:104-124 | reading a rank's written text places exactly that rank's pieces and reaches its last file |
| FenLaws.ScanRowEnd | src/parser.rs:113-116 | a pending run digit at the end of a rank moves the file on |
| FenLaws.ScanRowSkip | src/parser.rs:113-116 | an empty square adds to the pending run |
| FenLaws.ScanRowFigure | src/parser.rs:105-112 | a piece ends the pending run and is placed on its file |
| FenLaws.ScanRunFigure | src/parser.rs:104-120 | a run digit then a letter places the piece after the run |
| FenLaws.PushRow | src/parser.rs:105-112 | placing one piece then the rest of the rank is placing the rank |
| FenLaws.RankTexts | src/game.rs:93-133 | eight rank texts |
| FenLaws.ScanLayout | src/parser.rs:100-125 | reading the rank texts from rank i on appends exactly the pieces of those ranks |
| FenLaws.ScanBoard | src/parser.rs:100-125 | reading all eight rank texts gives exactly the pieces on the board, per colour, in reading order |
| FenLaws.Fields | src/parser.rs:89 | eight fields |
| FenLaws.ExportJoin | src/game.rs:129-135 | the written record is the slash-join of its fields |
| FenLaws.ExportSplit | src/parser.rs:88-92 | trimming and splitting the written record at '/' gives back its eight fields |
| FenLaws.LastFieldSplit | src/parser.rs:94-98 | the last field splits at its one space into rank 1 and the side token |
| FenLaws.FenFromFields | src/parser.rs:87-98 | a record made of eight rank texts and a side token is read as those texts and that token |
| FenLaws.ExportThenParse | src/parser.rs:87-140 | parsing what `export_fen` writes gives back the board's pieces and the side, or the king error when the board does not hold two kings |
| FenLaws.LayoutOf | src/game.rs:93-106 | the layout `export_fen` walks holds, at each square, the type and colour of the piece there |
| FenLaws.RowTextAt | src/game.rs:95-127 | the text from file x on, square by square |
| FenLaws.ReadSoFarLater | src/parser.rs:119 | the file only grows while a rank is read |
| FenLaws.PushFigureKeeps | src/parser.rs:105-112 | placing a piece keeps the lists on distinct on-board squares |
| FenLaws.ScanRankKeeps | src/parser.rs:104-124 | reading a rank keeps the lists on distinct on-board squares |
| FenLaws.NextRow | src/parser.rs:103 | a finished rank lets the next one start at file 0 |
| FenLaws.ScanRanksKeep | src/parser.rs:100-125 | reading whole ranks keeps the lists on distinct on-board squares |
| FenLaws.ReadPositionWellPlaced | src/parser.rs:100-139 | the position read from eight ranks is well placed |
| FenLaws.ParsedWellPlaced | src/parser.rs:87-140 | every accepted record gives pieces in play, of their own colours, on distinct on-board squares, with two kings in all |
| FenLaws.RowPiecesHas | src/parser.rs:105-112 | every piece of a rank is listed |
| FenLaws.RowPiecesFrom | src/parser.rs:105-112 | every listed piece stands on its square of the rank |
| FenLaws.LayoutPiecesHas | src/parser.rs:100-125 | every piece of the layout is listed |
| FenLaws.LayoutPiecesFrom | src/parser.rs:100-125 | every listed piece stands on its square of the layout |
| FenLaws.BoardPiecesFrom | src/parser.rs:100-125 | every piece read stands on its square of the layout |
| FenLaws.BoardWellPlaced | src/parser.rs:100-125 | the pieces read from a layout are on distinct squares |
| FenLaws.ImportedLayout | src/game.rs:34-43 | a game built from a layout's pieces is consistent, and exporting it writes that layout back |
| FenLaws.ImportedSquare | src/game.rs:96-122 | each square of that game shows what the layout holds there |
| FenLaws.ImportedPiece | src/game.rs:96-121 | a piece of the layout is found through the board on its square |
| FenLaws.ImportedEmpty | src/game.rs:122 | an empty square of the layout is empty on the board |
| FenLaws.EntryOnLayout | src/game.rs:96-106 | a square with an entry holds a piece in the layout |
| FenLaws.CountKingsHasKing | src/parser.rs:127-128 | a list has a king exactly when its king count is positive |
| FenLaws.KingsOnlyWhiteAccepted | src/parser.rs:127-131 | "KK6/8/8/8/8/8/8/8 w" is accepted as written, and Black has no king |
| FenLaws.CheckedFen | src/parser.rs:127-131 | accepted exactly when the reading succeeds with one king each; such a record is well placed |
| FenLaws.ExportThenCheckedParse | src/parser.rs:87-140 | with one king each, what `export_fen` writes passes the corrected check |
| FenLaws.KingsOnlyWhiteRefused | src/parser.rs:127-131 | the corrected check refuses "KK6/8/8/8/8/8/8/8 w" |
| Parser.ParseSquare | src/parser.rs:72-84 | Ok exactly for a file a-h and a rank 1-8, on the board and named by those two characters; the file is checked first |
| Parser.ParseMove | src/parser.rs:45-70 | an accepted move has on-board squares and the type its first character names; an unknown first character is the figure error |
| Parser.MoveText | src/parser.rs:58-69 | the printed short form has three characters and the full form six |
| Parser.ParseSquareName | src/parser.rs:72-84 | every square is read back from its name |
| Parser.ParseMoveText | src/parser.rs:28-70 | every printed move is read back as that move |
| Parser.ReadMoveText | src/parser.rs:45-70 | `parse_move` reads a printed move back as that move |
| Parser.ParsedMoveText | src/parser.rs:45-70 | every accepted move is its printed text, or for a pawn that text without its 'P' |
| Parser.ParseActionList | src/parser.rs:28-43 | a line is List exactly when, trimmed, it is "l" or "list" |
| Parser.ParseActionQuit | src/parser.rs:28-43 | a line is Quit exactly when, trimmed, it is "q" or "quit" |
| Notation.Prefix | src/notation.rs:23-46 | the shared checks pass only for non-empty ASCII text whose first character names the piece type |
| Notation.ParsePosition | src/notation.rs:61-73 | as written: Ok exactly for a file a-h and any digit 0-9, so rows 8 and 9 are accepted |
| Notation.ParseNotation | src/notation.rs:23-59 | as written: the piece type is the one the first character names |
| Notation.ParsePositionShifted | src/notation.rs:61-73 | as written, each square name is read one row too high |
| Notation.OffBoardAccepted | src/notation.rs:61-73 | "Pa1:a9" is accepted with an off-board target, and "a1" is read as row 1 |
| Notation.ParseCorrected | src/notation.rs:23-59 | corrected: every accepted move has both squares on the board |
| Notation.SquareShift | src/notation.rs:61-73 | a square the corrected reader accepts is read one row higher as written |
| Notation.CorrectedShift | src/notation.rs:23-59 | the parser as written reads the rows of the corrected parser plus one |
| Notation.ReadSquares | src/notation.rs:46-58 | as written: only a five-character "xy:xy" tail is accepted, with the type the first character named |
| Notation.CorrectedSquares | src/notation.rs:46-58 | corrected: an accepted tail has both squares on the board |
| Notation.SquaresShift | src/notation.rs:46-73 | on an accepted tail, the parser as written reads the corrected rows plus one |
| Notation.CorrectedAgrees | src/parser.rs:28-70 | the corrected parser accepts exactly the full-form moves of `parse_action`, with the same squares and type |
| Notation.CorrectedReadsMoveText | src/notation.rs:23-59 | the corrected parser reads every printed full-form move back |
| FenLaws.MovedSquare | src/game.rs:251-262 | after a move, the target square shows what the source showed, the source is empty, and every other square is unchanged |
| Scenarios.PawnText | src/game.rs:91-137 | `export_fen` writes the board with the pawn on file d of row `y` as the record with "3P4" on that rank |
| Scenarios.StartRecord | src/tests.rs:10 | the pawn on d2 gives the record "K7/8/8/8/8/8/3P4/k7 w" |
| Scenarios.ThirdRankRecord | src/tests.rs:26 | the pawn on d3 gives the record "K7/8/8/8/8/3P4/8/k7 w" |
| Scenarios.FourthRankRecord | src/tests.rs:34 | the pawn on d4 gives the record "K7/8/8/8/3P4/8/8/k7 w" |
| Scenarios.PawnBoardPieces | src/parser.rs:100-125 | the record's pieces, in reading order: White's king then pawn, and Black's king |
| Scenarios.PawnRecordRead | src/tests.rs:10-13 | the record is accepted with one king each, two white pieces and one black piece, White to move |
| Scenarios.PawnReach | src/piece.rs:205-242 | on that board the pawn's rule accepts d3 and d4 and no other square |
| Scenarios.PawnNotChecked | src/game.rs:231-249 | moving the pawn along its file leaves White's king on a8 unattacked |
| Scenarios.PawnLegalSquares | src/tests.rs:17-20 | the pawn's legal moves are exactly d3 and d4 |
| Scenarios.PawnLegalList | src/tests.rs:17-20 | the list `get_legal_positions` returns has length 2 and holds d3 and d4 |
| Scenarios.PawnAdvanced | src/game.rs:251-262 | the move from d2 gives the position with the pawn on its new square and its board |
| Scenarios.PawnAdvanceSafe | src/game.rs:172-187 | the full notation d2 to d3 or d4 with type Pawn passes validation and the check test |
| Scenarios.StartGame | src/tests.rs:10 | `new_from_fen` on the record builds the position with White to move |
| Scenarios.PlayPawn | src/tests.rs:23-34 | playing the pawn to d3 or d4 and exporting gives that rank's record |
| Scenarios.PawnAdvancesWhite | src/tests.rs:8-35 | the test's counts 2 and 1, the legal list {d3, d4} of length 2, and both exported records |
| CaptureScenario.StartText | src/tests.rs:39 | the start board is written "K7/8/8/8/8/2ppp3/3P4/k7 w" |
| CaptureScenario.AfterText | src/tests.rs:55-63 | the boards after the captures are written "K7/8/8/8/8/2Ppp3/8/k7 w" and "K7/8/8/8/8/2ppP3/8/k7 w" |
| CaptureScenario.StartPieces | src/parser.rs:100-125 | the record's pieces, in reading order: White's king then pawn, and Black's pawns on c3, d3, e3 then king |
| CaptureScenario.CaptureKings | src/parser.rs:127-131 | each side has one king |
| CaptureScenario.StartRecordRead | src/tests.rs:39-42 | the record is accepted with two white and four black pieces, White to move |
| CaptureScenario.CaptureEntries | src/board.rs:12-17 | each square's entry names the piece standing there, and every other square is empty |
| CaptureScenario.CaptureReach | src/piece.rs:205-242 | on that board the pawn's rule accepts c3 and e3 and nothing else, as d3 is occupied and so d4 is barred |
| CaptureScenario.FarFromA8 | src/piece.rs:205-242 | a black pawn or king on rank 6 or lower never reaches a8 |
| CaptureScenario.CaptureLists | src/game.rs:251-262 | the capture moves White's pawn and marks the black pawn on the target as taken |
| CaptureScenario.LowBlackHarmless | src/player.rs:102-118 | such black pieces never attack a white king on a8 |
| CaptureScenario.CaptureNotChecked | src/game.rs:231-249 | after either capture White's king is not attacked |
| CaptureScenario.CaptureLegalSquares | src/tests.rs:46-49 | the pawn's legal moves are exactly c3 and e3 |
| CaptureScenario.CaptureLegalList | src/tests.rs:46-49 | the list `get_legal_positions` returns has length 2 and holds c3 and e3 |
| CaptureScenario.CaptureSafe | src/game.rs:172-187 | the full notation d2 to c3 or e3 with type Pawn passes validation and the check test |
| CaptureScenario.CaptureLayout | src/game.rs:251-262 | after the capture the white pawn stands in place of the black pawn and rank 2 is empty |
| CaptureScenario.AfterSquare | src/game.rs:91-137 | each square `export_fen` reads after the capture |
| CaptureScenario.StartCapture | src/tests.rs:39 | `new_from_fen` on the record builds the position with White to move |
| CaptureScenario.PlayCapture | src/tests.rs:52-63 | taking on c3 or e3 and exporting gives that capture's record |
| CaptureScenario.PawnTakesWhite | src/tests.rs:37-64 | the test's counts 2 and 4, the legal list {c3, e3} of length 2, and both exported records |

## Left out

- `Game::run` (src/game.rs:45-89) is left out: it is the console loop around `read_input`, `println!` and `parse_action`. Its one state change, the switch of the side to move, is `Games.Game.SwitchPlayer`.
- `read_input`, `list_current_pieces`, `Player::list_pieces` and `Board::print` are left out: they are console I/O and printing.
- The `Display` and `Debug` implementations and the `character` field with its Unicode glyphs are left out: they only render. The square name of `Debug for Position` is kept as `Geometry.SquareName`.
- `Player::get_all_legal_positions` (src/player.rs:87-100) is not modelled separately. It is the same loop as `get_all_current_legal_positions`, which is `Games.Game.GetAllCurrentLegalPositions`. It also calls `get_legal_positions` with arguments that do not match that function's signature in src/piece.rs.
- `Player::is_game_over` (src/player.rs:124-142) is left out: it is an unfinished stub that always answers true. `update_game_state` is modelled instead.
- `get_ref_board`, `get_pieces`, `get_piece`, `get_color`, `is_in_check`, `is_taken`, `get_position` and `get_piece_type` are plain field reads. They appear as field accesses in the model.
- src/main.rs is not part of this model: it is a superseded prototype.
- src/tests.rs is not modelled as a test harness. Its two tests are replayed as the methods `Scenarios.PawnAdvancesWhite` and `CaptureScenario.PawnTakesWhite`, whose contracts state the tests' assertions. The empty `test_pawn_bounds_white` has nothing to model.
- Castling, en passant and promotion are left out: the engine does not implement them.
- Grid cells: src/board.rs as shipped stores a bare `Option<usize>` in each cell. src/game.rs and src/piece.rs read and write `BoardEntry` values (colour and index) through `get_board_entry`, `set_board_entry` and `init_grid`. The model follows the callers: a cell holds a colour and an index, and `init` tags each entry with the side being placed.
- Games.Game.FromParsed: `new_from_fen` stores the parsed `usize` side index straight into `current_player`. The model reads index 0 as White and every other index as Black. `parse_fen` only produces 0 or 1.
- Games.NewFromFen: uses the corrected king check (one king per side, see Findings) rather than the total-of-two check as written. The as-written check is `Fen.FenResult`, proved by `Fen.ParseFen`.
- Players.Player.GetsCheckedBy: requires that the side has a king. The source indexes the first king and panics without one. This is the crash that the king-count finding exposes.
- Panics (`expect`, `unwrap`, out-of-range indexing, taking a taken piece) become preconditions of the members that would panic.
- Geometry.GetMoveTo: positions are `usize` and are cast to `i32`. The model requires that the coordinates fit in an `i32` rather than modelling the cast's wrap-around, because every caller passes on-board squares.

## Findings

| source | as written | input that shows it | evidently intended | confidence | as-written member | corrected member |
|---|---|---|---|---|---|---|
| src/parser.rs:127-131 | `parse_fen` only checks that the two sides hold two kings in total | "KK6/8/8/8/8/8/8/8 w" is accepted with both kings White and none for Black. The game built from it then panics in `gets_checked_by` (src/player.rs:102-104), which takes the first king of a side without one | one king per side | high (not executed) | FenLaws.KingsOnlyWhiteAccepted | FenLaws.CheckedFen |
| src/notation.rs:66-71 | `parse_position` accepts rank digits '0' to '9' and takes the row as the digit itself | "Pa1:a9" is accepted with source row 1 and target row 9, which is off the board. `parse_notation` in src/parser.rs reads "a1" as row 0 | rank digits '1' to '8' and row = digit - '1', as src/parser.rs:72-84 does | high (not executed) | Notation.OffBoardAccepted | Notation.ParseCorrected |
