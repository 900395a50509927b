# ChessMagic core in Dafny

This project models the core of ChessMagic, a C# chess engine, and proves properties about that model. The core is:

- the 8x8 `ChessBoard` and its `Square`s;
- the six piece kinds, which generate their candidate moves and special moves (castling, a pawn's double step, en passant), filter those candidates against checks and pins, perform special moves and name them in algebraic notation;
- the per-piece attack test `CanAttack`;
- the compact `GameSnapshot` of a board;
- the `MoveHistory` stack.

The rules the engine aims at are those of Article 3 of the FIDE Laws of Chess. The model follows the code, not the rules, wherever the two differ. Some of the code's own behaviour is reproduced literally and stated in the contracts:

- A pawn "attacks" the square diagonally behind it.
- A king's and a queen's attack test only ever holds on their own square.
- The king's castling filter always inspects the first candidate.
- The king's move filter overwrites the rejected moves instead of swapping them out.
- A pawn's double step carries the off-board square (-1,-1) as its involved square, so performing one fails in `RemovePiece`.
- A snapshot fails for every piece kind whose notation is empty (pawn, knight, bishop, queen).

How the model is organised:

- Board squares are values in the board's `array<Square>`.
- A piece is a value: a `Man` (kind, colour, first-move flag, double-move flag) plus its cached move lists.
- Board-reading specifications take the board's views `Layout()`, `Threats()` and `Occupants()`.
- A C# exception is an `Err`/`Fail` result carrying the same message; a runtime error (null dereference, division by zero, index out of range) carries .NET's own message for it.
- `Position.Invalid` is taken to be (-1,-1).
- A move's algebraic notation is a pair: the piece prefix and an optional target square.

Modules follow the source files:

| module | source file |
|---|---|
| `Positions` | `Util/Position.cs` |
| `Entities` | piece and move records |
| `Squares` | `Board/Square.cs`, values |
| `Board` | `Board/ChessBoard.cs`: storage, `ConvertToSquare`, `FindKing`, `PlacePiece`/`RemovePiece`/`PerformMove`, snapshots |
| `Rays`, `Attacks` | the sliding walks and every `CanAttack` |
| `Rook`, `Bishop`, `Queen`, `Knight`, `King`, `Pawn` | the piece classes |
| `Compaction`, `Passes`, `Pieces` | `Piece.RemoveInvalidMoves` and its in-place filter loops, plus `TrimMoves` |
| `Generation` | `Square.GeneratePossibleMoves` and the first pass of `CalculateMoves` |
| `Filtering` | `Square.FilterPossibleMoves` |
| `Engine` | `CalculateMoves`, the special-move dispatch and `PerformMove(from, SpecialMove)` |
| `Snapshots`, `History` | the ledger |

## Model

| member | source | states |
|---|---|---|
| Positions.Position.Offset | ChessMagic/Util/Position.cs:14-17 | the offset position is the coordinate-wise sum; no range check |
| Positions.EqualsIsValueEquality | ChessMagic/Util/Position.cs:19-27 | `Equals` holds exactly for equal coordinates, and is symmetric |
| Positions.OffsetComposes | ChessMagic/Util/Position.cs:14-17 | two offsets compose into one offset by the sums |
| Positions.OffsetZero | ChessMagic/Util/Position.cs:14-17 | a zero offset gives back the same position |
| Positions.NoRangeCheck | ChessMagic.Test/UtilTests.cs:19-21 | (0,8) is a constructible position although it is off the board, and offsets can leave the board |
| Positions.InvalidSentinel | ChessMagic.Test/UtilTests.cs:58-68 | `Invalid` is invalid, (1,1) is not, and `Invalid` is off the board |
| Positions.Index | ChessMagic/Board/ChessBoard.cs:86-91 | an on-board position maps to a square index below 64 |
| Positions.PosOf | ChessMagic/Board/ChessBoard.cs:86-91 | every index 0..63 is the index of exactly the position it names, which is on the board |
| Positions.IndexInjective | ChessMagic/Board/ChessBoard.cs:86-91 | two on-board positions with the same index are equal |
| Entities.NewPiece | ChessMagic/Entity/Piece.cs:25-28 | a new piece has its kind and colour, the first-move flag set, no double move and empty caches |
| Entities.AlgebraicNotation | ChessMagic/Entity/Piece.cs:17 | the notation prefix is non-empty exactly for rook and king |
| Squares.Square.PossibleMoves | ChessMagic/Board/Square.cs:21-29 | an empty square has no moves; an occupied one has its occupant's cached moves |
| Squares.Square.PossibleSpecialMoves | ChessMagic/Board/Square.cs:31-39 | the same for the cached special moves |
| Squares.NewSquare | ChessMagic/Board/Square.cs:45-48 | a new square holds the given occupant, has no threats, and is occupied iff it has an occupant |
| Squares.LayoutOf | ChessMagic/Board/Square.cs:19 | the layout view holds each square's occupant as a man |
| Squares.ThreatsOf | ChessMagic/Board/Square.cs:19 | the threat view holds each square's threatening positions |
| Squares.LeapMember | ChessMagic/Entity/KingPiece.cs:39-46 | a single leap yields the target exactly when it is on the board and empty or hostile |
| Squares.ThreatenedAt | ChessMagic/Board/ChessBoard.cs:233-240 | threatening a list of squares from one origin appends the origin once per hit to each square's list |
| Squares.HitsMember | ChessMagic/Board/ChessBoard.cs:233-240 | a square receives a threat iff it is among the threatened targets |
| Squares.ThreatenedMembers | ChessMagic/Board/ChessBoard.cs:233-240 | after threatening, p threatens square j iff it already did, or p is the origin and j is a target |
| Squares.ThreatenedSplit | ChessMagic/Board/ChessBoard.cs:233-240 | threatening a + b equals threatening a and then b |
| Snapshots.EncodePiece | ChessMagic/Ledger/GameSnapshot.cs:22-36 | the code is 'x' exactly for an empty square |
| Snapshots.DecodeTable | ChessMagic/Ledger/GameSnapshot.cs:38-58 | decoding succeeds exactly on 'x' and the twelve piece letters; lower case decodes to a new white piece and upper case to a new black piece |
| Snapshots.RoyalRoundTrip | ChessMagic/Ledger/GameSnapshot.cs:22-58 | decoding a rook's or king's code gives a fresh piece of that kind and colour |
| Snapshots.OthersBecomeWhitePawns | ChessMagic/Ledger/GameSnapshot.cs:22-36 | every other piece encodes as 'p' and decodes to a white pawn |
| Snapshots.CharacterRoundTrip | ChessMagic/Ledger/GameSnapshot.cs:22-58 | the codes x r R k K p survive decode followed by encode |
| Snapshots.GameSnapshot.constructor | ChessMagic/Ledger/GameSnapshot.cs:11-14 | a new snapshot has its next player and 64 zero characters |
| Snapshots.GameSnapshot.Set | ChessMagic/Ledger/GameSnapshot.cs:16-20 | the indexer writes one cell and leaves every other cell unchanged |
| History.MoveHistory.constructor | ChessMagic/Ledger/MoveHistory.cs:5-6 | a new history has empty snapshot and notation stacks |
| History.MoveHistory.PushSnapshot | ChessMagic/Ledger/MoveHistory.cs:8-12 | pushing puts the snapshot and the notation on top of their stacks, which stay the same height |
| History.MoveHistory.Rollback | ChessMagic/Ledger/MoveHistory.cs:14-24 | `times` is one when omitted; rolling back n pops n entries from both stacks, or empties them when there are fewer; the result is the last snapshot popped, or none when nothing was popped or a pop found the stack empty |
| Board.InitialPosition | ChessMagic/Board/ChessBoard.cs:22-41 | initial occupants: white back rank at indices 0-7, pawns at 8-15 and 48-55, black back rank at 56-63, empty in between |
| Board.InitialRanks | ChessMagic/Board/ChessBoard.cs:22-41 | the initial layout has each colour's rook, knight, bishop, queen, king, bishop, knight, rook rank and pawn rank |
| Board.OccupantsOf | ChessMagic/Board/Square.cs:13-17 | the occupant view holds each square's occupant |
| Board.SnapshotCharIsEncoding | ChessMagic/Board/ChessBoard.cs:54-79 | a square's snapshot character exists iff it is empty or holds a rook or king, and then it is the ledger's encoding |
| Board.Moved | ChessMagic/Board/ChessBoard.cs:261-272 | moving puts the origin's occupant on the target, empties the origin, and keeps every other square |
| Board.ChessBoard.constructor | ChessMagic/Board/ChessBoard.cs:14-17 | a new board holds the initial position with no threats |
| Board.ChessBoard.InitializeBoard | ChessMagic/Board/ChessBoard.cs:22-41 | every square is reset to a fresh square holding the initial occupant |
| Board.ChessBoard.ConvertToSquare | ChessMagic/Board/ChessBoard.cs:86-91 | there is no square exactly when a coordinate is outside 0..7; otherwise it is square y*8+x |
| Board.ChessBoard.IsPositionThreatened | ChessMagic/Board/ChessBoard.cs:93-107 | an off-board position is an error; otherwise the answer is whether the square's threat list is non-empty |
| Board.ChessBoard.FindKing | ChessMagic/Board/ChessBoard.cs:109-126 | the lowest-index king of the colour, or an error iff there is none |
| Board.ChessBoard.GetMovesFor | ChessMagic/Board/ChessBoard.cs:134-152 | the cached moves of an occupant of the colour; none for other colours, empty squares or off-board positions |
| Board.ChessBoard.GetSpecialMovesFor | ChessMagic/Board/ChessBoard.cs:154-166 | the same for the cached special moves |
| Board.ChessBoard.HasLegalMoves | ChessMagic/Board/ChessBoard.cs:173-184 | true iff some square holds a piece of the colour with a cached move, or holds a piece of either colour with a cached special move (the condition's `&&`/`\|\|` precedence) |
| Board.ChessBoard.ThreatenSquare | ChessMagic/Board/ChessBoard.cs:233-240 | an on-board origin is appended to the square's threat list; an off-board origin fails and changes nothing |
| Board.ChessBoard.RemovePiece | ChessMagic/Board/ChessBoard.cs:301-310 | an off-board position fails unchanged with "Invalid square position"; otherwise the old occupant is returned and the square emptied |
| Board.ChessBoard.PlacePiece | ChessMagic/Board/ChessBoard.cs:281-299 | an off-board position fails unchanged with "Invalid square position"; otherwise the old occupant is returned and the piece placed |
| Board.ChessBoard.PerformMove | ChessMagic/Board/ChessBoard.cs:261-272 | it succeeds iff both squares are on the board and the origin is occupied, and the result is `Moved` with notation prefix + target; in every case the board becomes `AfterMove` and a failure carries `MoveError`'s message |
| Board.AfterMove | ChessMagic/Board/ChessBoard.cs:261-310 | the board after a move, failed or not: `Moved` when the move can be made, unchanged for an off-board or empty origin, and the lifted piece lost for an off-board target |
| Board.ChessBoard.CreateSnapshot | ChessMagic/Board/ChessBoard.cs:54-79 | it succeeds iff every square has a snapshot character, and then it writes exactly those characters and the next player |
| Rays.RayMembers | ChessMagic/Entity/RookPiece.cs:14-60 | a ray holds exactly the squares ahead that are free for the colour with only empty squares before them |
| Rays.RayShape | ChessMagic/Entity/RookPiece.cs:14-60 | every ray square lies ahead on the line and is free for the colour |
| Rays.WalkRay | ChessMagic/Entity/RookPiece.cs:26-33 | the walking loop collects exactly the ray |
| Rays.WalkMeaning | ChessMagic/Entity/RookPiece.cs:62-92 | for a target ahead on the line, the attack walk reaches it iff every square before it is on the board, at most `depth` of them are occupied, and the go-through square is passed |
| Rays.WalkAttack | ChessMagic/Entity/RookPiece.cs:78-92 | the attack-walking loop computes exactly the walk |
| Rays.WalkReaches | ChessMagic/Entity/RookPiece.cs:62-92 | from an aligned origin, the walk equals `Reaches` on the squares strictly between |
| Rays.BetweenOnLine | ChessMagic/Entity/BishopPiece.cs:61-92 | the squares between two aligned squares lie on their rank, file or diagonal, and are neither end |
| Rays.RayFrom | ChessMagic/Entity/RookPiece.cs:14-60 | membership in the ray from a neighbour, stated with `Clear` |
| Attacks.RookAttack | ChessMagic/Entity/RookPiece.cs:62-92 | the rook attacks along its rank or file iff the go-through square is passed with at most `depth` pieces between; on its own square iff that square is the go-through square |
| Attacks.BishopAttack | ChessMagic/Entity/BishopPiece.cs:61-92 | the same along the diagonals |
| Attacks.QueenAttack | ChessMagic/Entity/QueenPiece.cs:105-137 | the queen's test holds only on its own square with itself as go-through square |
| Attacks.KingAttack | ChessMagic/Entity/KingPiece.cs:174-177 | the king's test holds only on its own square |
| Attacks.PawnAttack | ChessMagic/Entity/PawnPiece.cs:149-153 | the pawn's test names the one square diagonally behind it on the left |
| Rook.GetPossibleMoves | ChessMagic/Entity/RookPiece.cs:14-60 | the rook's moves are its four rays |
| Rook.RookMoveMembers | ChessMagic/Entity/RookPiece.cs:14-60 | a rook move is exactly another square of its rank or file, free for it, with a clear line |
| Bishop.GetPossibleMoves | ChessMagic/Entity/BishopPiece.cs:13-59 | the bishop's moves are its four diagonal rays |
| Bishop.BishopMoveMembers | ChessMagic/Entity/BishopPiece.cs:13-59 | a bishop move is exactly another square of its diagonals, free for it, with a clear line |
| Queen.GetPossibleMoves | ChessMagic/Entity/QueenPiece.cs:13-103 | the queen's moves are the rook's followed by the bishop's |
| Queen.QueenMoveMembers | ChessMagic/Entity/QueenPiece.cs:13-103 | a queen move is exactly another aligned square, free for it, with a clear line |
| Knight.CheckPosition | ChessMagic/Entity/KnightPiece.cs:28-34 | one jump is added iff its target is on the board and empty or hostile |
| Knight.GetPossibleMoves | ChessMagic/Entity/KnightPiece.cs:13-26 | the knight's moves are its eight jumps in source order |
| Knight.JumpOffsets | ChessMagic/Entity/KnightPiece.cs:13-26 | the eight offsets are exactly the (1,2)/(2,1) leaps |
| Knight.KnightMoveMembers | ChessMagic/Entity/KnightPiece.cs:13-26 | a knight move is exactly a square its attack test covers that is free for it; at most eight |
| Knight.InitialKnightMoves | ChessMagic/Entity/KnightPiece.cs:13-26 | on the initial board each knight has exactly its two forward jumps, in order |
| King.IsValidPosition | ChessMagic/Entity/KingPiece.cs:39-46 | a square is valid iff it is on the board and empty or hostile |
| King.AddIfValid | ChessMagic/Entity/KingPiece.cs:19-20 | one neighbour is added iff it is valid |
| King.GetPossibleMoves | ChessMagic/Entity/KingPiece.cs:15-37 | the king's moves are its eight neighbour leaps in source order |
| King.NeighbourOffsets | ChessMagic/Entity/KingPiece.cs:15-37 | the eight offsets are exactly the other squares at distance one |
| King.KingMoveMembers | ChessMagic/Entity/KingPiece.cs:15-37 | a king move is exactly a neighbouring square free for it; at most eight |
| King.RemoveInvalidMoves | ChessMagic/Entity/KingPiece.cs:48-68 | it fails with "Invalid move" iff a move is off the board; otherwise the kept prefix holds each unthreatened move with its multiplicity and no other |
| King.MarchMembers | ChessMagic/Entity/KingPiece.cs:81-85 | the march stops on q iff q is the first occupied on-board square ahead |
| King.MarchFinds | ChessMagic/Entity/KingPiece.cs:77-85 | the march from the king finds q iff q is the first occupied square along the rank on that side |
| King.MarchToPiece | ChessMagic/Entity/KingPiece.cs:77-85 | the marching loop computes the march |
| King.GetPossibleSpecialMoves | ChessMagic/Entity/KingPiece.cs:70-115 | the castlings are the right then the left march's unmoved own rook |
| King.CastlingMembers | ChessMagic/Entity/KingPiece.cs:70-115 | a castling exists iff the king is unmoved and the first piece on that side is its own unmoved rook; the king lands two squares toward it |
| King.WalkCorridor | ChessMagic/Entity/KingPiece.cs:128-138 | for an on-board landing square, the corridor walk reports a threat iff a square from the landing square back to the king (exclusive) is threatened; a castling whose landing square is off the board reports no threat |
| King.CastlingVerdict | ChessMagic/Entity/KingPiece.cs:125-145 | for an on-board landing square, a castling is dropped iff its landing square or the square crossed is threatened; a castling whose landing square is off the board is kept (king on (1,0), rook on (0,0)) |
| King.CastleScanMeaning | ChessMagic/Entity/KingPiece.cs:122-148 | the scan that only ever inspects the first candidate either keeps everything, keeps a shifted suffix, or drops everything, as the first candidate's verdict dictates |
| King.RemoveInvalidSpecialMoves | ChessMagic/Entity/KingPiece.cs:117-149 | a threatened king keeps nothing; otherwise the kept prefix is exactly the scan's result, and a failure is the division by zero |
| King.RookLandsOnCrossedSquare | ChessMagic/Entity/KingPiece.cs:156-158 | the rook lands on the square the king crossed |
| King.PerformSpecialMove | ChessMagic/Entity/KingPiece.cs:151-163 | a castling succeeds iff both moves can be made; then king and rook stand on their landing squares and the rook's landing is returned; in every case the board becomes `CastlingAfter` and a failure carries `CastlingError`'s message |
| King.CastlingAfter | ChessMagic/Entity/KingPiece.cs:151-163 | the board after a castling, failed or not: `Castled` on success, unchanged without a rook square, the king's failed move, the king moved alone on a same-file target, then the rook's move failed or not; once the king's move succeeds it stays on its target unless the rook square is that target |
| King.CastlingOutcome | ChessMagic/Entity/KingPiece.cs:151-163 | for a rook at least three files from the king, a castling puts the king two squares towards the rook and the rook on the square the king crossed, with both origin squares empty; a nearer rook, which generation also offers, ends as `King.CastlingAfter` states |
| King.SpecialMoveAlgebraicNotation | ChessMagic/Entity/KingPiece.cs:165-172 | as written: "O-O" iff the king moved toward the a-file; an error without an involved rook |
| King.CastlingNotation | ChessMagic/Entity/KingPiece.cs:165-172 | corrected: always "O-O" or "O-O-O"; an error without an involved rook |
| King.CastlingNotationNamesSide | ChessMagic/Entity/KingPiece.cs:165-172 | for a generated castling, the corrected notation is "O-O" iff the rook is on the h-side, and the source's is "O-O" iff it is on the a-side |
| King.KingsideNamedQueenside | ChessMagic/Entity/KingPiece.cs:169-171 | White's e1-g1 castling is named "O-O-O" by the source and "O-O" by the correction |
| Pawn.GetPossibleMoves | ChessMagic/Entity/PawnPiece.cs:14-52 | the pawn's moves are its push and captures, and each capture target is threatened; an off-board forward square is the "Promotion square already reached" error |
| Pawn.TryCapture | ChessMagic/Entity/PawnPiece.cs:27-48 | one diagonal capture is added and threatened iff an enemy stands there |
| Pawn.PawnMovesShape | ChessMagic/Entity/PawnPiece.cs:14-52 | the result is the push then the captures, or the error |
| Pawn.CaptureMember | ChessMagic/Entity/PawnPiece.cs:27-48 | a capture is exactly the forward diagonal square holding an enemy |
| Pawn.PawnMoveMembers | ChessMagic/Entity/PawnPiece.cs:14-52 | a pawn move is exactly the empty square ahead or an enemy on a forward diagonal; at most three, all on the board |
| Pawn.CapturesNotAttacked | ChessMagic/Entity/PawnPiece.cs:149-153 | no square a pawn captures on is covered by its own attack test |
| Pawn.GetPossibleSpecialMoves | ChessMagic/Entity/PawnPiece.cs:54-91 | the special moves are the double step, then en passant to the left, then to the right |
| Pawn.PawnSpecialMembers | ChessMagic/Entity/PawnPiece.cs:54-91 | a special move is exactly an unmoved pawn's double step over two empty squares, or an en passant beside an enemy pawn that double-stepped |
| Pawn.EnPassantSides | ChessMagic/Entity/PawnPiece.cs:66-88 | en passant to either side is exactly a move beside the pawn on its rank, landing behind a foe pawn that double-stepped; at most two |
| Pawn.DoubleStepMember | ChessMagic/Entity/PawnPiece.cs:59-64 | the double step exists iff the pawn is unmoved and both squares ahead are empty |
| Pawn.EnPassantMember | ChessMagic/Entity/PawnPiece.cs:66-88 | en passant exists iff the side square holds an enemy pawn that double-stepped |
| Pawn.DoubleStepInvolvesInvalid | ChessMagic/Entity/PawnPiece.cs:64 | the double step's involved square is the off-board (-1,-1) |
| Pawn.SpecialCheckStageMeaning | ChessMagic/Entity/PawnPiece.cs:98-120 | the check passes keep a special move iff, for every checker, it lands on the checker or blocks it, and does not uncover the checker through the involved square |
| Pawn.RemoveInvalidSpecialMoves | ChessMagic/Entity/PawnPiece.cs:93-147 | it fails iff a surviving candidate consults an invalid checker (see `Pawn.SpecialChecksSafe`) or a threat source is invalid, with the null dereference for the checker case and "Invalid threaten source" otherwise; otherwise the kept prefix holds each special move that answers the checks and respects the pins |
| Pawn.MarkDoubleMove | ChessMagic/Entity/PawnPiece.cs:163 | marks the piece as having double-stepped and changes nothing else |
| Pawn.PerformSpecialMove | ChessMagic/Entity/PawnPiece.cs:155-168 | it succeeds iff the move can be made and the involved square is on the board; then it removes the captured pawn and returns its square; in every case the board becomes `PawnSpecialAfter` and a failure carries `PawnSpecialError`'s message |
| Pawn.PawnSpecialAfter | ChessMagic/Entity/PawnPiece.cs:155-168 | the board after a pawn special, failed or not: `PawnSpecialDone` on success, `AfterMove` when the board move fails, and the pawn left moved when the involved square is off the board |
| Pawn.DoubleStepLeavesPawnMoved | ChessMagic/Entity/PawnPiece.cs:155-168 | every generated double step whose board move can be made fails with "Invalid square position" and leaves the pawn on its target |
| Pawn.SpecialMoveAlgebraicNotation | ChessMagic/Entity/PawnPiece.cs:170-173 | the notation is the target square alone |
| Pieces.CheckStageMeaning | ChessMagic/Entity/Piece.cs:112-133 | the check passes keep a move iff, for every checker, it lands on the checker or blocks its attack on the king |
| Pieces.RemoveInvalidMoves | ChessMagic/Entity/Piece.cs:107-161 | it fails iff a surviving candidate consults an invalid checker (see `Pieces.ChecksSafe`) or a threat source is invalid, with the null dereference for the checker case and "Invalid threaten source" otherwise; otherwise the prefix is a sub-multiset holding exactly the moves that answer all checks and keep every pin |
| Pieces.TrimMoves | ChessMagic/Entity/Piece.cs:71-96 | the caches become their prefixes; an unchanged length keeps the same array |
| Compaction.SwapCompact | ChessMagic/Entity/Piece.cs:120-131 | the swap-out loop permutes the array, fails with the caller's message iff a candidate throws, and keeps only accepted candidates in the prefix |
| Compaction.OverwriteCompact | ChessMagic/Entity/KingPiece.cs:51-67 | the overwrite loop fails with the caller's message iff a candidate throws; otherwise the prefix holds each accepted candidate with its multiplicity |
| Passes.CheckStage | ChessMagic/Entity/Piece.cs:112-133 | one pass per checker, a raising pass failing with the caller's message; the prefix holds exactly the candidates every pass keeps, as a multiset |
| Passes.PinStage | ChessMagic/Entity/Piece.cs:136-158 | one pass per pinning threat; it fails with "Invalid threaten source" iff a threat source is invalid, and otherwise keeps exactly the candidates every pin allows |
| Generation.MovesLeaveSquare | ChessMagic/Board/ChessBoard.cs:204-210 | every generated move is on the board and leaves the square |
| Generation.OwnThreatsAreMoves | ChessMagic/Entity/PawnPiece.cs:27-48 | every square a piece threatens while generating is also among its moves |
| Generation.GetPossibleMoves | ChessMagic/Entity/Piece.cs:57 | the per-kind dispatch yields the kind's moves; only a pawn threatens squares while generating |
| Generation.GetPossibleSpecialMoves | ChessMagic/Entity/Piece.cs:66-69 | the per-kind dispatch yields the kind's specials, none for pieces without any |
| Generation.CacheMoves | ChessMagic/Entity/Piece.cs:35-49 | storing the caches changes only that occupant's cached lists |
| Generation.GeneratePossibleMoves | ChessMagic/Board/Square.cs:55-59 | it succeeds iff the occupant's generation succeeds; then the occupant holds its fresh caches and its own threats are recorded |
| Generation.GeneratesOnBoard | ChessMagic/Board/ChessBoard.cs:204-210 | a successful generation threatens only on-board squares |
| Generation.NotOwnTarget | ChessMagic/Board/ChessBoard.cs:200-210 | no piece threatens its own square |
| Generation.TargetsAreMoves | ChessMagic/Board/ChessBoard.cs:200-210 | a square threatened from a piece is exactly one of its generated moves |
| Generation.ScanOrigins | ChessMagic/Board/ChessBoard.cs:190-215 | after scanning n squares, p threatens square j iff p was scanned after j and j is one of p's moves; squares scanned earlier lost theirs when cleared |
| Generation.ThreatOrigins | ChessMagic/Board/ChessBoard.cs:190-215 | after the full scan, p threatens square j iff p comes later in the scan and has j among its moves |
| Generation.ClearThreats | ChessMagic/Board/ChessBoard.cs:197 | clearing empties one square's threat list only |
| Generation.ThreatenAll | ChessMagic/Board/ChessBoard.cs:204-210 | it succeeds iff every move is on the board, and then threatens each of them from the piece |
| Generation.ScanSquare | ChessMagic/Board/ChessBoard.cs:194-212 | one scan step clears the square's threats, generates its occupant and threatens the moves |
| Generation.ScanOccupants | ChessMagic/Board/ChessBoard.cs:190-215 | the scanned occupants keep the board's 64 squares |
| Generation.ScanOccupantsStep | ChessMagic/Board/ChessBoard.cs:190-215 | one more scan step generates exactly the next square |
| Generation.ScanRow | ChessMagic/Board/ChessBoard.cs:190-215 | scanning a rank advances the scan by its eight squares |
| Generation.ScanBoard | ChessMagic/Board/ChessBoard.cs:190-215 | the first pass succeeds iff every square generates, and leaves the scan's threats and caches |
| Filtering.KeptMoves | ChessMagic/Board/Square.cs:61-71 | a move survives filtering iff it was a candidate and is legal for the piece |
| Filtering.KeptMovesFewer | ChessMagic/Entity/Piece.cs:107-161 | filtering only removes moves |
| Filtering.RemoveInvalidMoves | ChessMagic/Entity/Piece.cs:107-161 | the per-kind dispatch fails iff the kind's filter raises; otherwise it keeps exactly the legal moves |
| Filtering.RemoveInvalidSpecialMoves | ChessMagic/Entity/Piece.cs:172-176 | the per-kind dispatch; kinds without special moves keep them all |
| Filtering.FilterPiece | ChessMagic/Board/Square.cs:65-70 | filtering and trimming succeed iff both filters succeed; then the caches are exactly the kept moves and specials |
| Filtering.SetOccupant | ChessMagic/Board/Square.cs:61-71 | writing the filtered piece back changes only its square |
| Filtering.FilterPossibleMoves | ChessMagic/Board/Square.cs:61-71 | an empty square passes unchanged; an occupant is replaced by its filtered piece, and nothing else changes |
| Engine.FirstKing | ChessMagic/Board/ChessBoard.cs:109-126 | the lowest index from i on that holds the colour's king, or none iff there is no such index |
| Engine.FoundKingIsFirst | ChessMagic/Board/ChessBoard.cs:109-126 | the king `FindKing` returns is the first one |
| Engine.FilterSquare | ChessMagic/Board/ChessBoard.cs:225-230 | one filter step passes the piece's own king and that king's checkers, and changes only that square |
| Engine.FilterAll | ChessMagic/Board/ChessBoard.cs:225-230 | the second pass succeeds iff every square filters, and leaves every square filtered |
| Engine.CalculateMoves | ChessMagic/Board/ChessBoard.cs:186-231 | it succeeds iff every square generates, both kings exist and every square filters; then the threats are the scan's and every cache is generated and filtered against its king |
| Engine.CalculableIff | ChessMagic/Board/ChessBoard.cs:186-231 | on any board, the calculation raises iff some square fails to generate or a king of either colour is missing; the filters themselves never raise |
| Engine.ScanSourcesValid | ChessMagic/Board/ChessBoard.cs:190-215 | every origin the scan records in a threat list is an occupied square of the board |
| Engine.CastlingScanOk | ChessMagic/Entity/KingPiece.cs:117-149 | the castling filter never divides by zero on the castlings the king generates |
| Engine.CachedMoves | ChessMagic/Board/ChessBoard.cs:186-231 | after calculation a piece's cached moves are exactly its generated moves that are legal |
| Engine.NewBoard | ChessMagic/Board/ChessBoard.cs:14-20 | a new board holds the initial layout and its calculation succeeds; the threat lists are the scan's over the initial position and every piece holds its generated moves filtered against its own king |
| Engine.InitialCalculable | ChessMagic/Board/ChessBoard.cs:14-20 | the initial position calculates without raising |
| Engine.PerformSpecialMove | ChessMagic/Entity/Piece.cs:199-202 | the dispatch performs castling, pawn specials, or nothing, and returns the involved target; in every case the board becomes `SpecialAfter` and a failure carries `SpecialError`'s message |
| Engine.SpecialAfter | ChessMagic/Entity/Piece.cs:199-202 | the board after the variant's special move, failed or not, which is `SpecialDone` on success |
| Engine.PerformMoveAsWritten | ChessMagic/Board/ChessBoard.cs:242-252 | as written: the notation is asked of the square's occupant after the move, so it succeeds only if the origin is still occupied; the board becomes `SpecialAfter`, a failing special move carries its message, and an emptied origin raises the null dereference |
| Engine.CastlingEmptiesFrom | ChessMagic/Board/ChessBoard.cs:249-251 | a generated castling empties the king's square, so the as-written notation step always raises on it |
| Engine.PawnSpecialEmptiesFrom | ChessMagic/Board/ChessBoard.cs:249-251 | a pawn special to another square empties the pawn's square, so the as-written notation step always raises on it |
| Engine.PerformMove | ChessMagic/Board/ChessBoard.cs:242-252 | corrected: succeeds iff the special move and its notation succeed, and the notation is the moving piece's; the board becomes `SpecialAfter` whatever the outcome, and a failure carries the special move's or the notation's message |

## Left out

- Object identity and aliasing. Pieces and squares are values, and a piece's cached move arrays are copied into fresh arrays for filtering. The model therefore cannot express two squares sharing one piece object, or a caller holding a cached array.
- Exceptions become `Err`/`Fail` results carrying the exception's message. A null dereference, a division by zero or an out-of-range index carries .NET's own message for it.
- Generation.ScanBoard, Engine.FilterAll, Engine.CalculateMoves: on `Fail` they state the layout (and, for `FilterAll`, the threats) but not the partial threat lists and move caches of the squares handled before the failing one, nor the failure's message. The source leaves those squares half-updated; the model does not describe how far.
- `Position.Invalid`, `Position.IsInvalid` and `Position.AlgebraicNotation` are defined in a file that is not part of this model. `Invalid` is taken as (-1,-1). A notation is a (prefix, optional square) pair, not the rendered string.
- `Game.cs`, the event handlers and `SquareInfo` are not part of this model; they are callers of the core.
- `ChessBoard.InitializeBoard(GameSnapshot)` is an empty method in the source; it has no model.
- Board.ChessBoard.constructor: covers the constructor's `InitializeBoard` step only. `Engine.NewBoard` adds the `CalculateMoves` call, because that call lives in a later module.
- Engine.FilterAll: walks indices 0 to 63 and skips empty squares. The source instead collects the occupied squares into a list during the first pass and walks that list. The same squares are visited in the same order.
- King.CastlingOutcome: describes a castling with the rook at least three files away only. `FirstMove` is never cleared, so a rook that has moved next to the king still counts as unmoved. For such a rook the castling leaves the rook where it stood (rook on the adjacent file), or removes it and puts the king on the adjacent file (rook two files away). `King.CastlingAfter` states that board.
- Engine.CalculateMoves: the "Invalid king square" check after `FindKing` cannot fire, because `FindKing` returns only on-board squares. It is not modelled.
- Generation.ScanSquare: the origin check of `ThreatenSquare` always passes during the scan, because the origin is the scanned square.
- Generation.GetPossibleMoves: the pawn's "Threatening square is invalid" error is modelled. It can only occur for an off-board pawn.
- History.MoveHistory.constructor: the source declares no constructor and never initialises its two stacks, so any use of a history would raise a null reference. The model starts from two empty stacks.
- Integer overflow in coordinates is not modelled. Coordinates stay within a few squares of the board.

## Findings

| source | as written | input that shows it | evidently intended | confidence | as-written member | corrected member |
|---|---|---|---|---|---|---|
| ChessMagic/Entity/KingPiece.cs:165-172 | the notation is "O-O" iff the king moved toward the a-file (`from.X - posTo.X > 0`) | White castles e1-g1 toward the h-rook: the source names it "O-O-O" | "O-O" for castling toward the h-side (kingside), "O-O-O" toward the a-side | not executed | King.KingsideNamedQueenside | King.CastlingNotationNamesSide |
| ChessMagic/Board/ChessBoard.cs:242-252 | after the special move, the notation is asked of `fromSquare.Occupant`, which the move has just emptied | any legal castling, e.g. White e1-g1 with the h1 rook: the king's square is empty after the move, so reading its occupant raises a null reference | take the notation from the piece that performed the move, read before it moved | not executed | Engine.PerformMoveAsWritten | Engine.PerformMove |
