# Chess3D-Improved: board, moves, client player and game server

This project models the core of Chess3D-Improved, a two-player 3D chess game played in the browser against a Node.js server. The model covers three parts and proves their properties:

- **The client board and move generator** (`public/src/Game/Piece.js`, `public/src/Game/Chessboard.js`).
  - Coordinate strings `"A1".."H8"` and their index pairs.
  - The four ray walkers (forward, backward, sideway, diagonal), each with an optional step limit.
  - The knight generator and each piece type's `GetPossibleMoves`.
  - The start position built from `_layout`.
  - Lookup and removal of pieces by coordinate.
- **The local player** (`public/src/Game/Player.js`).
  - Applying a `{from, to}` move to the shared piece list.
  - The turn flag, selection, and promotion of a pawn that reaches the last rank.
  - The events the client emits.
- **The server** (`server/Player.js`, `server/Room.js`, `server/index.js`).
  - The player registry, rooms and room lists.
  - Turn assignment and switching.
  - Every socket handler: search, move, promote, win, create, join, leave, start and disconnect.
  - HTML escaping of client input.

Modules and files:

- `wrappers.dfy`, module `Wrappers`: `Option` (null/undefined).
- `coordinates.dfy`, module `Coordinates`: `x_coord`, `y_coord`, `CreateCoordinate`, `GetXYIndices`.
- `pieces.dfy`, module `Pieces`: the piece record and `CheckPieceAtCoord`.
- `moves.dfy`, module `Moves`: the generators, as methods proved equal to specification functions.
- `move_properties.dfy`, module `MoveProperties`: what the generators promise.
- `chessboard.dfy`, module `Board`: `Chessboard`.
- `initial_position.dfy`, module `InitialPosition`: the start position `_layout` produces.
- `client_player.dfy`, module `ClientPlayer`: the client's `Player`.
- `server_player.dfy`, module `ServerPlayers`: `Player`, `PlayerList`.
- `server_room.dfy`, module `Rooms`: `Room`, `RoomList`.
- `server_index.dfy`, module `ServerIndex`: the handlers of `server/index.js`.

How the model represents the program:

- **Coordinates** are strings with the template-literal meaning of `${x_coord[xi]}${y_coord[yi]}`. An index outside 0..7 gives the text `"undefined"`, so the off-board strings the pawn-capture code builds are kept exactly. They never match a piece on a board whose pieces stand on squares.
- **Client pieces** are values in the board's piece list. Moving a piece object in place becomes replacing its element of the list.
- **Events.** What the client or the server emits is appended to an `outbox` sequence. The server records each emit together with the socket ID it is sent to.
  - `socket.emit(e)` is recorded as `Emit(sender, e)`.
  - `socket.to(id).emit(e)` reaches the sockets of room `id` except the sender's, and is recorded as `Emit(id, e)`.
  - The one such call whose target can be the sender is the `room:player_join` sent to the host when the host joins its own room. socket.io delivers it to nobody, and the model records nothing for it.
- **Random choices and the room ID.** The `Math.random` coin of `SetRandomSides` and the code from `generateID` are parameters.
- **Exceptions.** A handler that reads a field of `null` or `undefined` throws a TypeError in JavaScript. The model ends the handler at that point and keeps the changes it made before.
- **Custom rooms always have a host.** `OnCreateCustomRoom` sets the host right after creating the room, and nothing clears it. The server invariant `Valid` records this, so `room.host.ID` in the join and leave handlers never throws.
- **Room lists hold rooms of their own type.** `Valid` also records that every room in `public_rooms` is public and every room in `custom_rooms` is custom, so the disconnect handler's room type decides which list it changes.

Some behaviours of the code are easy to misread; the model keeps them as written:

- The knight's `(-2, -1)` target is guarded by `y >= 2`, where the jump needs only `y >= 1`. From the second rank that jump is never offered (`MoveProperties.KnightQuirk`).
- `OnStartCustomGame` has no host check, although only the host is shown the start button. Any member of a room with two counted players starts the game.
- On disconnect, a public room is removed whether or not it started and whether or not it holds another player. A public room that was won is removed twice by ID.
- A custom room whose only member disconnects is not removed.
- A new player's username is `null` until the `username` event arrives.
- `has_moved` is only ever set by a move, because castling is not implemented.

## Model

| member | source | states |
|---|---|---|
| Coordinates.IndexOfSpec | public/src/Game/Piece.js:38-39 | `findIndex` over the characters of a list is -1 exactly when the character is absent; otherwise it is the first position holding it |
| Coordinates.FileIndexIsFindIndex | public/src/Game/Piece.js:38 | the file index of a character is `x_coord.findIndex` of it: its offset from `A` for `A`..`H`, -1 otherwise |
| Coordinates.FileTextIsLookup | public/src/Game/Piece.js:315 | for on-board indices, the text of `x_coord[xi]` and `y_coord[yi]` is the one-character array element |
| Coordinates.GetXYIndices | public/src/Game/Piece.js:35-41 | each index is in -1..7 (a `findIndex` result, -1 when absent), and a square decodes to on-board indices |
| Coordinates.CreateCoordinate | public/src/Game/Piece.js:315 | `CreateCoordinate(x, y)` is one of the 64 square names exactly when both indices are in 0..7 (`IsSquare(r) <==> OnBoard(x, y)`); off the board the text holds `undefined` |
| Coordinates.RankIndexIsFindIndex | public/src/Game/Piece.js:39 | the rank index of a character is `y_coord.findIndex(yi => yi == parseInt(ch))`: the position of the digit's value in [1..8], and -1 for a non-digit |
| Coordinates.EncodeDecode | public/src/Game/Piece.js:35-41 | `GetXYIndices(CreateCoordinate(x, y)) == (x, y)` for every on-board `(x, y)` |
| Coordinates.DecodeEncode | public/src/Game/Piece.js:35-41 | every square decodes to on-board indices, and encoding them gives back the same square |
| Coordinates.EncodeInjective | public/src/Game/Piece.js:315 | distinct on-board index pairs give distinct coordinates |
| Pieces.FindIndexSpec | public/src/Game/Chessboard.js:144 | the `findIndex` by coordinate is -1 exactly when no piece stands there; otherwise it is the first position of one that does |
| Pieces.PieceAt | public/src/Game/Piece.js:314 | `CheckPieceAtCoord` returns nothing, or a piece of the list standing on the coordinate |
| Pieces.PieceAtFirst | public/src/Game/Piece.js:314 | it returns nothing exactly when no piece stands on the coordinate; otherwise it returns the first such piece in list order |
| Pieces.PieceAtUnique | public/src/Game/Piece.js:314 | when coordinates are distinct, the piece found on an element's coordinate is that element |
| Moves.WalkRay | public/src/Game/Piece.js:49-62 | the walker loop lists exactly `Ray`: empty squares in order, then the first occupied square only when captures are allowed and it holds an enemy, stopping at the edge |
| Moves.PawnCapturing | public/src/Game/Piece.js:65-74 | the pawn-capture block lists the left, then the right, diagonal square, each only when an enemy stands there |
| Moves.ForwardMoves | public/src/Game/Piece.js:43-77 | specification of the forward generator: the up ray, non-capturing for a pawn, then a pawn's up-diagonal captures (no contract of its own; ForwardNotFriendly, StraightMoves and PawnMovesSound state its properties) |
| Moves.BackwardMoves | public/src/Game/Piece.js:79-113 | specification of the backward generator: the down ray with the `0 means to the edge` bound, then a pawn's down-diagonal captures (no contract of its own; BackwardNotFriendly, StraightMoves and PawnMovesSound state its properties) |
| Moves.SidewayMoves | public/src/Game/Piece.js:115-153 | specification of the sideway generator: the right ray, then the left ray, both capturing (no contract of its own; SidewayNotFriendly and StraightMoves state its properties) |
| Moves.GetPossibleForwardMoves | public/src/Game/Piece.js:43-77 | the forward generator is the up ray (capturing unless the piece is a pawn), then a pawn's up-diagonal captures |
| Moves.GetPossibleBackwardMoves | public/src/Game/Piece.js:79-113 | the backward generator is the down ray, with the loop's bound in which a step count of 0 means "to the edge", then a pawn's down-diagonal captures |
| Moves.GetPossibleSidewayMoves | public/src/Game/Piece.js:115-153 | the sideway generator is the right ray, then the left ray, both capturing |
| Moves.WalkDiagonals | public/src/Game/Piece.js:163-213 | either half of the diagonal loop (up or down), with its flags `b1`/`b2`, lists exactly the row-by-row walk `DiagonalRows` |
| Moves.DiagonalMoves | public/src/Game/Piece.js:155-216 | specification of the diagonal generator: the up pair of rays interleaved, then the down pair (no contract of its own; DiagonalNotFriendly, DiagonalMovesGeometry and InterleavePerm state its properties) |
| Moves.DiagonalRowsAreRays | public/src/Game/Piece.js:163-213 | the flag-driven row loop lists its two diagonal rays alternately, square by square; a flag drops exactly where its ray ends at a piece |
| Moves.DiagonalRowsFromStart | public/src/Game/Piece.js:160-187 | from the piece's own row with both flags up, the loop is the interleaving of the right and left capturing rays |
| Moves.GetPossibleDiagonalMoves | public/src/Game/Piece.js:155-216 | the diagonal generator is the up-right/up-left rays interleaved, then the down-right/down-left rays interleaved |
| Moves.KnightLand | public/src/Game/Piece.js:226-232 | after its guard, a knight target is listed when it is empty or holds an enemy |
| Moves.KnightForward | public/src/Game/Piece.js:224-243 | the "Forward" section lists the `(-1, 2)` then the `(1, 2)` targets |
| Moves.KnightBackward | public/src/Game/Piece.js:246-265 | the "Backward" section lists the `(-1, -2)` then the `(1, -2)` targets |
| Moves.KnightRight | public/src/Game/Piece.js:268-287 | the "Right" section lists the `(2, -1)` then the `(2, 1)` targets |
| Moves.KnightLeft | public/src/Game/Piece.js:290-309 | the "Left" section lists the `(-2, -1)` target under the guard `y - 2 >= 0`, then the `(-2, 1)` target |
| Moves.KnightMoves | public/src/Game/Piece.js:218-312 | the knight generator offers at most eight targets, in the source's order; KnightSound, KnightComplete and KnightQuirk state which |
| Moves.GetPossibleKnightMoves | public/src/Game/Piece.js:218-312 | the knight generator is the eight targets in the source's order |
| Moves.GetPossibleMoves | public/src/Game/Piece.js:328-423 | per type: a pawn has forward (white) or backward (black) moves with 1 or 2 steps by `has_moved`; Rook = forward+backward+sideway; Knight = knight; Bishop = diagonal; Queen = all four; King = all four with limit 1 |
| Moves.PossibleMoves | public/src/Game/Piece.js:328-423 | specification of each subclass's `GetPossibleMoves` (no contract of its own; NoFriendlyDestination, DestinationsOnBoard, the per-kind geometry lemmas and the pawn and knight lemmas state its properties) |
| Moves.Ray | public/src/Game/Piece.js:49-62 | specification of one ray, which the walker loops are proved equal to (no contract of its own; the MoveProperties ray lemmas below state its shape) |
| MoveProperties.RayLength | public/src/Game/Piece.js:49 | a ray with step limit n lists at most n squares |
| MoveProperties.RayLine | public/src/Game/Piece.js:49-62 | the k-th square of a ray is k+1 steps along its line and not past the edge |
| MoveProperties.RayClear | public/src/Game/Piece.js:56-61 | every square of a ray except the last is empty |
| MoveProperties.RayLast | public/src/Game/Piece.js:56-58 | the last square of a ray is empty, or holds an enemy when the ray captures |
| MoveProperties.RayShape | public/src/Game/Piece.js:49-62 | the four facts above together: length bound, on the line, clear before the last, last landable |
| MoveProperties.RayStops | public/src/Game/Piece.js:50-58 | a ray shorter than its limit stopped at a piece: its last square is occupied, or the next square is past the edge or occupied |
| MoveProperties.RayReaches | public/src/Game/Piece.js:49-62 | along an empty, on-board stretch of k <= n squares, the ray lists at least k squares |
| MoveProperties.RayIncludes | public/src/Game/Piece.js:49-62 | along such a stretch, the k-th square is listed |
| MoveProperties.RayBlocked | public/src/Game/Piece.js:49-62 | when the first piece along a ray's line is k <= n steps away (all earlier squares on the board and empty), the ray lists exactly k squares ending on it if it captures and the piece is an enemy, and exactly k-1 squares otherwise |
| MoveProperties.BlockedFirst | public/src/Game/Piece.js:56-58 | a piece on the first square stops the ray there, listed exactly when it is a capturable enemy |
| MoveProperties.BlockedNext | public/src/Game/Piece.js:56-61 | an empty first square is listed and the ray goes on, one step further from the blocker |
| MoveProperties.NothingBeyond | public/src/Game/Piece.js:49-62 | with its first blocker k steps away, no square of the ray lies more than k steps along the line |
| MoveProperties.RayTarget | public/src/Game/Piece.js:49-62 | from a square, each listed square of a unit ray is a square k steps away for some 1 <= k <= n |
| MoveProperties.RayNotFriendly | public/src/Game/Piece.js:56-59 | no square of a ray holds a piece of the mover's side |
| MoveProperties.RayQuiet | public/src/Game/Piece.js:57 | a ray that does not capture (a pawn's) lists only empty squares |
| MoveProperties.InterleavePerm | public/src/Game/Piece.js:163-213 | the diagonal alternation lists every element of both rays exactly once (multiset union) |
| MoveProperties.InterleaveMember | public/src/Game/Piece.js:163-213 | it has the combined length, and a square is in it exactly when it is in one of the rays |
| MoveProperties.RayStraight | public/src/Game/Piece.js:49-150 | a ray along a file or rank lists other squares of that file or rank |
| MoveProperties.RayDiagonal | public/src/Game/Piece.js:163-213 | a diagonal ray lists other squares of that diagonal |
| MoveProperties.StraightCaptures | public/src/Game/Piece.js:49-150 | an enemy that is the first piece along a file or rank from a rook or queen is among its moves |
| MoveProperties.DiagonalCaptures | public/src/Game/Piece.js:155-216 | an enemy that is the first piece along a diagonal from a bishop or queen is among its moves |
| MoveProperties.SlideCaptures | public/src/Game/Piece.js:343-403 | for a rook, bishop or queen along one of its directions, the first piece on the line is a possible move exactly when it is an enemy: an enemy is captured, a friendly piece is not |
| MoveProperties.RayAdjacent | public/src/Game/Piece.js:414-423 | a one-step ray lists at most a square next to the start |
| MoveProperties.PieceOnBoard | public/src/Game/Piece.js:35-41 | a piece on a square decodes to board indices that encode back to its coordinate |
| MoveProperties.StraightMoves | public/src/Game/Piece.js:43-153 | the forward, backward and sideway moves of a non-pawn stay on its file or rank |
| MoveProperties.DiagonalMovesGeometry | public/src/Game/Piece.js:155-216 | the diagonal moves stay on the piece's diagonals |
| MoveProperties.RookMovesStraight | public/src/Game/Piece.js:343-351 | a rook lands on its own file or rank |
| MoveProperties.BishopMovesDiagonal | public/src/Game/Piece.js:377-383 | a bishop lands on its own diagonals |
| MoveProperties.QueenMovesLines | public/src/Game/Piece.js:394-403 | a queen lands on its own file, rank or diagonals |
| MoveProperties.StraightStepsAdjacent | public/src/Game/Piece.js:416-418 | with step limit 1, the forward, backward and sideway moves are next to the piece |
| MoveProperties.DiagonalStepsAdjacent | public/src/Game/Piece.js:419 | with step limit 1, the diagonal moves are next to the piece |
| MoveProperties.KingMovesAdjacent | public/src/Game/Piece.js:414-423 | every king move is to one of the at most 8 surrounding squares |
| MoveProperties.CapturesEnemies | public/src/Game/Piece.js:65-74 | a pawn's captures list only squares holding an enemy |
| MoveProperties.ForwardNotFriendly | public/src/Game/Piece.js:43-77 | the forward generator never lists a square holding a friendly piece |
| MoveProperties.BackwardNotFriendly | public/src/Game/Piece.js:79-113 | the backward generator never lists a square holding a friendly piece |
| MoveProperties.SidewayNotFriendly | public/src/Game/Piece.js:115-153 | the sideway generator never lists a square holding a friendly piece |
| MoveProperties.DiagonalNotFriendly | public/src/Game/Piece.js:155-216 | the diagonal generator never lists a square holding a friendly piece |
| MoveProperties.TargetNotFriendly | public/src/Game/Piece.js:230-232 | a knight target is listed only when it holds no friendly piece |
| MoveProperties.KnightNotFriendly | public/src/Game/Piece.js:218-312 | the knight generator never lists a square holding a friendly piece |
| MoveProperties.NoFriendlyDestination | public/src/Game/Piece.js:328-423 | no destination of any piece type holds a piece of its own side |
| MoveProperties.PawnMovesUnfold | public/src/Game/Piece.js:328-332 | a pawn's destinations are its non-capturing ray along the file in its direction (up for white, down for black), then its two diagonal captures |
| MoveProperties.PawnRayAhead | public/src/Game/Piece.js:49-62 | each square of a pawn's ray is an empty square of its file, 1 rank ahead, or up to 2 before it has moved |
| MoveProperties.PawnMovesSound | public/src/Game/Piece.js:328-332 | every pawn destination is a straight non-capturing advance of 1 (or 2 when unmoved) ranks toward the opponent, or a diagonal-forward square holding an enemy |
| MoveProperties.PawnCaptureExact | public/src/Game/Piece.js:65-74 | a square diagonally ahead of a pawn is a destination exactly when an enemy stands on it |
| MoveProperties.PawnSingleStep | public/src/Game/Piece.js:49-61 | a pawn may always step onto the empty on-board square directly ahead |
| MoveProperties.PawnDoubleStep | public/src/Game/Piece.js:330-331 | an unmoved pawn may advance two squares when both squares ahead are empty |
| MoveProperties.KnightTargetSound | public/src/Game/Piece.js:224-309 | a listed knight target is on the board, at the jump's offset, and not friendly |
| MoveProperties.KnightSound | public/src/Game/Piece.js:362-366 | every knight destination is a (±1,±2)/(±2,±1) jump away and not friendly |
| MoveProperties.KnightComplete | public/src/Game/Piece.js:224-309 | every on-board, non-friendly jump target is listed, except `(-2, -1)` from the second rank |
| MoveProperties.KnightQuirk | public/src/Game/Piece.js:291 | a lone white knight on C2 is not offered A1, an empty square a jump away |
| MoveProperties.PieceAtOnSquares | public/src/Game/Piece.js:314 | on a board whose pieces stand on squares, a coordinate holding a piece is a square (off-board pawn strings never match) |
| MoveProperties.DestinationsOnBoard | public/src/Game/Piece.js:328-423 | from a square, on such a board, every destination is one of the 64 squares |
| Board.LayoutIsStart | public/src/Game/Chessboard.js:31-40 | `_layout` is 8 rows of 8 cells |
| Board.StartingLayout | public/src/Game/Chessboard.js:31-40 | the constructor's layout has the rows of `_layout` |
| Board.KindOf | public/src/Game/Chessboard.js:78-86 | a layout number names a piece type exactly for 1..6, and names a pawn exactly for 1; every other number (0 on the board) makes no piece |
| Board.RemoveAtSpec | public/src/Game/Chessboard.js:143-153 | removal by coordinate changes nothing when no piece stands there; otherwise it removes exactly the piece `CheckPieceAtCoord` finds (length - 1, multiset) |
| Board.RemoveAtIndex | public/src/Game/Chessboard.js:152 | the splice keeps the other pieces in order: those before the removed one, then those after it |
| Board.RemoveAtOthers | public/src/Game/Chessboard.js:143-153 | after the removal, every other coordinate finds what it found before |
| Board.RemoveAtDistinct | public/src/Game/Chessboard.js:143-153 | removal keeps coordinates distinct and leaves the removed coordinate empty |
| Board.RemoveAt | public/src/Game/Chessboard.js:143-153 | the piece list `RemovePiece` leaves (no contract of its own; RemoveAtSpec, RemoveAtIndex, RemoveAtOthers and RemoveAtDistinct state its effect) |
| Board.Chessboard.constructor | public/src/Game/Chessboard.js:28-42 | the board has the start layout, its 64 squares and the start pieces |
| Board.Chessboard.CreateBoard | public/src/Game/Chessboard.js:45-68 | appends the coordinate of every square in loop order, then the start pieces |
| Board.Chessboard.CreatePieces | public/src/Game/Chessboard.js:70-114 | appends, in loop order, the unmoved piece each non-zero cell makes, black for rows `y > 4`, at file `x_coord[7 - x]` |
| Board.Chessboard.Reset | public/src/Game/Chessboard.js:116-120 | the piece list becomes the start position again; the squares are unchanged |
| Board.Chessboard.GetPieceByCoordinate | public/src/Game/Chessboard.js:122-128 | returns the first piece with that coordinate, or none |
| Board.Chessboard.GetSquareByCoordinate | public/src/Game/Chessboard.js:130-136 | finds a square exactly when one has that coordinate |
| Board.Chessboard.RemovePiece | public/src/Game/Chessboard.js:143-153 | the piece list loses its first piece on the given piece's coordinate (no-op if none); the squares are unchanged |
| InitialPosition.CellSquare | public/src/Game/Chessboard.js:75 | cell (x, y) gets the square with file index 7 - x and rank index y |
| InitialPosition.RowSquaresShape | public/src/Game/Chessboard.js:47-63 | a row contributes 8 squares of its rank, in order, covering every cell |
| InitialPosition.BoardSquaresShape | public/src/Game/Chessboard.js:46-64 | the rows contribute 8 squares each, strictly ordered, covering every cell |
| InitialPosition.SquaresCover | public/src/Game/Chessboard.js:46-64 | the board has 64 distinct squares, and every square A1..H8 is one of them |
| InitialPosition.RowPiecesShape | public/src/Game/Chessboard.js:72-112 | a row's pieces are each the piece of their own cell, in order, covering every non-empty cell |
| InitialPosition.BoardPiecesShape | public/src/Game/Chessboard.js:71-113 | the same holds for all rows |
| InitialPosition.PiecesPlaced | public/src/Game/Chessboard.js:70-113 | the created pieces stand on distinct squares, each the piece its layout cell makes |
| InitialPosition.PieceAtCell | public/src/Game/Chessboard.js:70-113 | the square of a cell holds that cell's piece, or nothing for a 0 cell |
| InitialPosition.StartCells | public/src/Game/Chessboard.js:31-40 | `_layout` has piece numbers 2..6 on rows 0 and 7, pawns on rows 1 and 6, and zeros on rows 2 to 5 |
| InitialPosition.RowCount | public/src/Game/Chessboard.js:78-88 | a row of piece numbers gives a piece per cell; a row of zeros gives none |
| InitialPosition.StartRowCount | public/src/Game/Chessboard.js:70-113 | each start row gives 8 pieces on ranks 1, 2, 7 and 8, and none on ranks 3 to 6 |
| InitialPosition.StartRowsCount | public/src/Game/Chessboard.js:70-113 | the running piece count after each row of the outer loop |
| InitialPosition.StartCount | public/src/Game/Chessboard.js:70-113 | the start position has 32 pieces |
| InitialPosition.StartRanksAndSides | public/src/Game/Chessboard.js:99-105 | every start piece is unmoved, on rank 1, 2, 7 or 8, and black exactly on ranks 7 and 8 |
| InitialPosition.StartPieceAt | public/src/Game/Chessboard.js:75-105 | square (f, r) holds the piece of cell (7 - f, r), of the side of its row, or nothing |
| InitialPosition.BackRanks | public/src/Game/Chessboard.js:32-39 | rows 0 and 7 are `2, 3, 4, 6, 5, 4, 3, 2` |
| InitialPosition.SquareNames | public/src/Game/Chessboard.js:75 | the index pairs the next lemmas use name E1, D1, E8, D8, A1 and H8 |
| InitialPosition.BackRankKinds | public/src/Game/Chessboard.js:78-86 | columns 3, 4 and the corners of the back rows hold King, Queen and Rook numbers |
| InitialPosition.StartKings | public/src/Game/Chessboard.js:31-40 | the white king starts on E1 and the black king on E8 |
| InitialPosition.StartQueens | public/src/Game/Chessboard.js:31-40 | the white queen starts on D1 and the black queen on D8 |
| InitialPosition.StartCorners | public/src/Game/Chessboard.js:31-40 | a white rook starts on A1 and a black rook on H8 |
| ClientPlayer.Moved | public/src/Game/Player.js:50-52 | the mover keeps its type and side, takes coordinate `to`, and has moved once the square `to` exists |
| ClientPlayer.MoverSlotSpec | public/src/Game/Player.js:43-50 | after the occupant of `to` is removed, the mover is still in the list, unless `from == to` |
| ClientPlayer.ApplyMove | public/src/Game/Player.js:43-52 | the piece list after a move: the occupant of `to` removed, then the mover relocated (no contract of its own; ApplyMoveSpec and ApplyMoveOntoItself state its effect) |
| ClientPlayer.ApplyMoveSpec | public/src/Game/Player.js:43-52 | applying a move empties `from`, puts the moved mover on `to`, and leaves every other coordinate as it was; the list shrinks exactly on a capture; coordinates stay distinct |
| ClientPlayer.ApplyMoveOntoItself | public/src/Game/Player.js:43-52 | a move onto the mover's own square takes the mover off the board |
| ClientPlayer.PromotionKind | public/src/Game/Player.js:56-62 | exactly `knight`, `bishop`, `rook` and `queen` name a piece type, and never Pawn or King |
| ClientPlayer.CapturesKing | public/src/Game/Player.js:100-101 | the `game:win` test: the piece on `to` is a King of the other side (no contract of its own; MoveEvents and MovePiece use it) |
| ClientPlayer.Promotes | public/src/Game/Player.js:110-113 | the promotion test: a Pawn whose new rank index is 7 for white or 0 for black (no contract of its own; MoveEvents and MovePiece use it) |
| ClientPlayer.MoveEvents | public/src/Game/Player.js:100-156 | a local move emits `game:win` exactly when it captures the enemy king, and `game:move` exactly when no promotion is pending, in that order and nothing else |
| ClientPlayer.PromotionEvents | public/src/Game/Player.js:145-146 | a promotion choice emits the deferred `game:move`, then `game:promote_piece {at: to, type}` |
| ClientPlayer.Promoted | public/src/Game/Player.js:128-138 | the promoted piece is a fresh, unmoved piece of the chosen type and side on the pawn's square |
| ClientPlayer.Player.constructor | public/src/Game/Player.js:10-30 | it is the player's turn exactly when its side is white; nothing is selected |
| ClientPlayer.Player.TakeSquare | public/src/Game/Player.js:43-50 | removes the occupant of `to` and sets the mover's coordinate |
| ClientPlayer.Player.Relocate | public/src/Game/Player.js:43-52 | the full move step; `has_moved` is set only when the square `to` exists |
| ClientPlayer.Player.OnGameMove | public/src/Game/Player.js:37-53 | a received move makes it the player's turn even when `from` is empty; that move is then ignored; otherwise it is applied |
| ClientPlayer.Player.OnGamePromotePiece | public/src/Game/Player.js:55-85 | for a known type and a piece at `at`, that piece is removed and, when `at` names a square, a fresh unmoved piece of the opponent's side is appended on it; otherwise nothing changes |
| ClientPlayer.Player.MovePiece | public/src/Game/Player.js:94-157 | a move from an empty coordinate does nothing; otherwise the move is applied and an enemy-king capture emits `game:win`; when `to` is a square, a pawn reaching index 7 (white) or 0 (black) leaves the move pending, and any other move emits `game:move`; when it is not, the handler stops after the win |
| ClientPlayer.Player.ChoosePromotion | public/src/Game/Player.js:114-147 | a known type replaces the pawn with a piece of the player's side and emits `game:move` then `game:promote_piece` |
| ClientPlayer.Player.SetSide | public/src/Game/Player.js:159-167 | the turn flag is true exactly when the new side is white, and the selection is cleared |
| ClientPlayer.Player.SetCurrentTurn | public/src/Game/Player.js:169-171 | sets only the turn flag |
| ClientPlayer.Player.Unselect | public/src/Game/Player.js:180-187 | clears the selected piece and `_is_moving_piece` |
| ClientPlayer.Player.SelectPiece | public/src/Game/Player.js:189-221 | with a piece and a square at the coordinate, selects that piece and stores its possible moves; otherwise nothing changes |
| ClientPlayer.Player.OnClick | public/src/Game/Player.js:223-255 | a click outside the player's turn changes nothing; a move clears the turn flag; every path keeps "selected exactly while moving" |
| ServerPlayers.Player.constructor | server/Player.js:2-5 | a new player has the given ID and a null username |
| ServerPlayers.Player.SetUsername | server/Player.js:7 | sets the username; the ID is a constant |
| ServerPlayers.IndexOfIDSpec | server/Player.js:29-31 | `findIndex` by ID is -1 exactly when no player has the ID; otherwise it is the first position holding it |
| ServerPlayers.FindByID | server/Player.js:25-27 | `find` by ID returns nothing exactly when no player has the ID; otherwise it returns the first one that does |
| ServerPlayers.RemoveFirstIDSpec | server/Player.js:19-23 | with the ID absent nothing changes; otherwise exactly the first match is removed (length - 1, multiset) |
| ServerPlayers.RemoveFirstIDIndex | server/Player.js:22 | the other players keep their order |
| ServerPlayers.SpliceSpec | server/Player.js:22 | `splice(i, 1)` removes element i and keeps the others in order |
| ServerPlayers.RemoveFirstIDOthers | server/Player.js:19-23 | a player with another ID stays in the list |
| ServerPlayers.PlayerList.constructor | server/Player.js:11-13 | the registry starts empty |
| ServerPlayers.PlayerList.AddPlayer | server/Player.js:15-17 | appends a fresh player with the ID and a null username |
| ServerPlayers.PlayerList.RemovePlayer | server/Player.js:19-23 | removes the first player with the ID; a no-op when there is none |
| ServerPlayers.PlayerList.GetPlayerByID | server/Player.js:25-27 | returns the first player with the ID, or none exactly when there is none |
| ServerPlayers.PlayerList.GetPlayerIndex | server/Player.js:29-31 | returns -1 exactly when no player has the ID; otherwise the first position holding it |
| Rooms.At | server/Room.js:56-57 | `players[i]` is undefined exactly past the end |
| Rooms.FirstOther | server/Room.js:42 | `find(player.ID != id)` returns nothing exactly when every player has the ID; otherwise it returns the first player that does not |
| Rooms.Switched | server/Room.js:62-65 | the turn after `SwitchTurn` (no contract of its own; SwitchedTwice and SwitchedSides state its properties) |
| Rooms.SwitchedTwice | server/Room.js:62-65 | switching the turn twice gives back the original turn |
| Rooms.SwitchedSides | server/Room.js:62-65 | with distinct sides, the turn toggles white↔black; a turn that is neither side is unchanged |
| Rooms.Room.constructor | server/Room.js:6-19 | a new room of the given type and ID is empty, has no host and no sides, and has not started |
| Rooms.Room.SetHost | server/Room.js:21-23 | sets only the host |
| Rooms.Room.AddPlayer | server/Room.js:25-28 | appends the player and increments `count`, keeping `count == |players|` |
| Rooms.Room.RemovePlayer | server/Room.js:30-35 | removes the first player with the ID and decrements `count`; a no-op when the ID is absent; keeps `count == |players|` |
| Rooms.Room.GetPlayerByID | server/Room.js:37-39 | returns the first player with the ID, or none exactly when there is none |
| Rooms.Room.GetOtherPlayer | server/Room.js:41-43 | returns a player with another ID, or none exactly when every player has the ID |
| Rooms.Room.GetPlayerIndex | server/Room.js:45-47 | returns -1 exactly when no player has the ID; otherwise the first position holding it |
| Rooms.Room.GetPlayerSide | server/Room.js:49-51 | returns `white` when the white player has the ID, else `black` when the black player has it, else null |
| Rooms.Room.SetRandomSides | server/Room.js:53-60 | white and black are `players[0]`/`[1]` in the order the coin picks, and the turn is white's |
| Rooms.Room.SwitchTurn | server/Room.js:62-65 | toggles the turn between the sides; nothing else changes |
| Rooms.OppositeSides | server/Room.js:49-60 | after the sides are set in a room of two, two distinct IDs of the room get two different sides |
| Rooms.IndexOfRoomSpec | server/Room.js:91-93 | `findIndex` by room ID is -1 exactly when no room has the ID; otherwise it is the first position holding it |
| Rooms.RemoveFirstRoomSpec | server/Room.js:81-85 | with the ID absent nothing changes; otherwise exactly the first room with the ID is removed |
| Rooms.RemoveFirstRoomIndex | server/Room.js:84 | the other rooms keep their order |
| Rooms.RoomOf | server/Room.js:96 | returns the first room holding a player with the ID, or none exactly when no room holds one |
| Rooms.Available | server/Room.js:100 | the filter keeps exactly the rooms with `count < 2` |
| Rooms.AvailableFirst | server/Room.js:99-101 | the first available room is the first room of the list with `count < 2` |
| Rooms.RoomList.constructor | server/Room.js:69-72 | a new list of the given type is empty |
| Rooms.RoomList.AddRoom | server/Room.js:74-79 | appends a fresh room of the list's type holding the given players, in order, with `count` equal to their number |
| Rooms.RoomList.RemoveRoom | server/Room.js:81-85 | removes the first room with the ID; a no-op when there is none |
| Rooms.RoomList.GetRoomByID | server/Room.js:87-89 | returns the first room with the ID, or none exactly when there is none |
| Rooms.RoomList.GetRoomIndex | server/Room.js:91-93 | returns -1 exactly when no room has the ID; otherwise the first position holding it |
| Rooms.RoomList.GetPlayerRoom | server/Room.js:95-97 | returns a room of the list holding the player, or none exactly when no room holds one |
| Rooms.RoomList.FindAvailableRooms | server/Room.js:99-101 | returns exactly the list's rooms with `count < 2` |
| ServerIndex.FilterClientInput | server/index.js:20-22 | the three chained `replace` calls (no contract of its own; FilterIsEscapeEach, FilterNoMarkup, FilterKeepsPlain and UnescapeFilter state its properties) |
| ServerIndex.FilterIsEscapeEach | server/index.js:20-22 | the three chained replacements escape each character on its own, because `&` is replaced first |
| ServerIndex.FilterNoMarkup | server/index.js:20-22 | no `<` and no `"` survive the filter |
| ServerIndex.FilterKeepsPlain | server/index.js:20-22 | text without `&`, `<` or `"` (`>` included) passes through unchanged |
| ServerIndex.UnescapeFilter | server/index.js:20-22 | the filter loses nothing: decoding the three entities gives back the input |
| ServerIndex.RelayEach | server/index.js:79 | an array payload is relayed element by element, in order, to the other player |
| ServerIndex.Relayed | server/index.js:79-80 | a single move is relayed once, and an array element by element |
| ServerIndex.RemoveKeepsCounted | server/Room.js:81-85 | removing a room keeps every remaining room's `count == |players|`, keeps every remaining custom room hosted, and keeps every remaining room of the list's type (public or custom) |
| ServerIndex.Server.constructor | server/index.js:5-7 | the server starts with no players, no rooms and nothing sent |
| ServerIndex.Server.GetPlayerRoomType | server/index.js:25-27 | the public list when a public room holds the player, else the custom list when a custom room does, else null |
| ServerIndex.Server.PlayerRoom | server/index.js:67-70 | the room the handlers look up holds the sender and belongs to one of the two lists |
| ServerIndex.Server.OnNewConnection | server/index.js:232-233 | the connection appends a fresh player with the socket ID |
| ServerIndex.Server.OnGetUsername | server/index.js:30-34 | the registered sender gets the filtered username; no other player changes |
| ServerIndex.Server.Relay | server/index.js:79-80 | appends the relayed emits in order |
| ServerIndex.Server.MoveInRoom | server/index.js:72-82 | relays and switches the turn exactly once, only when the turn is the sender's and another player is present; otherwise nothing changes |
| ServerIndex.Server.OnGameMove | server/index.js:66-83 | the same from the sender's room, whose players, count, host, sides and started flag stay as they were; a sender in no room changes nothing; other rooms are unchanged |
| ServerIndex.Server.RemoveRoomFrom | server/index.js:117 | `RemoveRoom` on either list keeps the server's invariant |
| ServerIndex.Server.OnGamePromotePiece | server/index.js:86-99 | relays the promotion to the other player, with no turn check; otherwise it sends nothing |
| ServerIndex.Server.OnWinGame | server/index.js:102-118 | the sender gets `game:win`, the other player `game:lose`, and the room leaves its list; without another player nothing changes |
| ServerIndex.Server.OnCreateCustomRoom | server/index.js:121-133 | a registered sender gets a new custom room holding only itself (count 1) as host, with no sides, no turn and not started; it then receives its own data and the room ID |
| ServerIndex.Server.AddToRoom | server/index.js:146 | `room.AddPlayer` on a listed room keeps the server's invariant |
| ServerIndex.Server.RemoveFromRoom | server/index.js:175 | `room.RemovePlayer` on a listed room keeps the server's invariant |
| ServerIndex.Server.RemoveFromPlayerList | server/index.js:222 | `player_list.RemovePlayer` removes the first entry with the ID and keeps the server's invariant |
| ServerIndex.Server.StartRoom | server/index.js:195-196 | setting sides and `has_started` keeps players, count and host and the server's invariant |
| ServerIndex.Server.OnJoinCustomRoom | server/index.js:136-156 | a join succeeds only for an existing room with `count < 2`, whose host, sides, turn and started flag stay as they were; the host is sent `player_join(joiner)` unless the host is the joiner, then the joiner gets `player_join(host)`, `player_join(self)`, `room:id` and `room:join`; otherwise nothing changes |
| ServerIndex.Server.LeaveRoom | server/index.js:166-176 | the leaving member always gets `room:remove` first; then host leaving: the other member, if any, gets `room:remove` too, the room is removed and its fields are unchanged; guest leaving: the guest is removed, the host gets `room:player_leave`, and host, sides, turn and started flag stay as they were |
| ServerIndex.Server.OnLeaveCustomRoom | server/index.js:159-181 | the same for a registered sender in a custom room (the first one holding it); otherwise nothing changes, the sender's room included; the public list is untouched and no room but the sender's may change |
| ServerIndex.Server.StartInRoom | server/index.js:191-199 | with `count >= 2`, sides are set and the game starts, with players, count and host kept; two distinct players are told opposite sides |
| ServerIndex.Server.OnStartCustomGame | server/index.js:184-200 | the same for a registered sender's custom room with two counted players, with no host check; otherwise nothing changes |
| ServerIndex.Server.SearchedRoom | server/index.js:38-48 | the room a search joins is a public room with `count < 2`; there is none exactly when the sender is unregistered or no such room exists |
| ServerIndex.Server.AddPublicRoom | server/index.js:44 | `public_rooms.AddRoom` appends a fresh public room holding the given players, counted, with no host, sides or turn, and keeps the server's invariant |
| ServerIndex.Server.JoinPublicGame | server/index.js:50-59 | the searcher joins (count + 1, host kept), the game starts, and the searcher and the other player get complementary `game:start` sides |
| ServerIndex.Server.OnSearchForGames | server/index.js:37-63 | with no public room under 2 players, a new room holding only the searcher (count 1, no host, sides or turn) is created and nothing is sent; otherwise the first such room is joined as above, with its host kept |
| ServerIndex.Server.WinOnDisconnect | server/index.js:211-215 | with another player in a started game, that player gets `game:win` and the room is removed; otherwise nothing changes; acting on the custom list it leaves the public list untouched, and afterwards the room `room:leave` would find for the sender is the first custom room still holding it |
| ServerIndex.Server.LeaveOnDisconnect | server/index.js:207-220 | for a public room, or a custom room holding only the sender: a public room is removed whatever happened before and the custom list and its rooms are unchanged; a custom room holding only the sender is left alone, and so is every other custom room |
| ServerIndex.Server.LeaveCustomOnDisconnect | server/index.js:209-216 | for a custom room with another player: the outbox gains `game:win` to the other player for a started game, then what `room:leave` sends for the first custom room still holding the sender; the custom list loses the won room, then that room too when the sender hosts it; that room is unchanged (host leaving) or loses the sender with host, sides, turn and started flag kept (guest leaving); the public list is untouched and no other room changes |
| ServerIndex.Server.DisconnectFromRoom | server/index.js:205-220 | looks up the sender's room type and room and runs the leave flow: no room changes nothing; a custom room with another player has the effects of LeaveCustomOnDisconnect in full (outbox, both lists, the left room's fields) and may change no room but the one left; any other room has the effects of LeaveOnDisconnect |
| ServerIndex.Server.DisconnectPlayer | server/index.js:205-222 | a registered sender leaves its room as DisconnectFromRoom states, in every case, and is then removed from the player list |
| ServerIndex.Server.OnClientDisconnect | server/index.js:203-226 | a registered sender leaves as DisconnectPlayer states; an unregistered sender changes nothing; the custom list and every custom room are unchanged in all cases but a custom room with another player, where the list and the one room left change as LeaveCustomOnDisconnect states and no other room may change |

## Left out

- Rendering: meshes, materials, rotations, positions, the camera and the scene (`Game.js`, `Camera.js`, `Renderer.js`, `utils/Sizes.js`, `Square.js`, and the THREE.js calls elsewhere). These are floating-point geometry and a foreign library. A square is represented only by its coordinate.
- Raycasting and mouse-position normalisation in `OnClick`/`GetIntersections`. A click is the coordinate the ray hits, or none.
- The selectable-piece list (`UpdateSelectablePieces`) and the raycast targets. ClientPlayer.Player.OnClick accepts any hit coordinate, so the model over-approximates what can be clicked. It allows selecting an enemy piece, which the source prevents by raycasting only its own side's pieces (public/src/Game/Player.js:88-91, :249). It also allows moving to a square the generators did not offer, which the source prevents by raycasting only the possible-move squares (public/src/Game/Player.js:231).
- `SelectSquare`, `ShowMove` and `HideMove`. They only toggle mesh visibility.
- The `Player.instance` singleton. Each constructed player is independent.
- The DOM listeners of the promotion options. A click on an option is the call `ChoosePromotion(name)`.
- Transport: `server/Server.js`, `public/src/Socket.js` and the `socket.on` listener registrations in `OnNewConnection`. Each event is a direct method call, and each emit is appended to `outbox`.
- `DisplayInfo` and every `console` call. These are output only.
- `generateID` and `Math.random`, which are randomness. The room ID and the side coin are parameters, and ID collisions are not checked, as in the source.
- Castling, check, checkmate, stalemate and en passant. The source implements none of them.
- JavaScript dynamic typing. Payloads are typed values: a move payload is one `{from, to}` or an array of them, and usernames and room IDs are strings.
- Exceptions: a TypeError ends the handler with its earlier effects kept. The model does not model the exception reaching the socket library.
- Rooms.Room.GetPlayerSide: requires the white side to be set, and the black side too unless the white player matches. Otherwise the source throws, and it is only called after `SetRandomSides`.
- Rooms.RoomList.FindAvailableRooms: states which rooms are returned but not their order. `Rooms.AvailableFirst` states the one fact about order the handlers use: the first element.
- Rooms.Available: same as FindAvailableRooms.
- Rooms.RoomList.GetPlayerRoom: does not state in its contract that the room is the first one holding the player. `Rooms.RoomOf`, which it returns, states that.
- ClientPlayer.Player.OnClick: for a hit while moving, the contract states the turn and selection but not the board and outbox changes. Those are MovePiece's. For a hit while not moving, it does not restate SelectPiece's contract.
- Moves.GetPossibleMoves and the generators: the property lemmas of MoveProperties assume that the piece stands on a square. The generators themselves accept any coordinate, as the source does.
