# libchess Position, modelled and verified in Dafny

This project models the `Position` class of libchess (`libchess/position.py`). The class holds a chess position on a 0x88 board.

- **Fields.** A list of 128 cells in which index `file + 16 * (8 - rank)` is a square and any index with `i & 0x88 != 0` lies off the board. The side to move, the castling string (`"KQkq"` or a part of it), the en-passant file and the two counters.
- **Operations.** Reading and writing cells with castling-right upkeep. Writing and reading FEN. `make_move`. The `ATTACKS`/`RAYS` attack tables and their ray walk. Pseudo-legal and legal move generation. Check, checkmate, stalemate, insufficient material and game over. The SAN text and the other facts of `get_move_info`.

The project is layered like the class:

| file | module | what it holds |
|---|---|---|
| `types.dfy` | `ChessTypes` | colours, pieces, 0x88 squares, moves, `Option`/`Result` |
| `geometry.dfy` | `Geometry` | rows, files, directions and rays of the 0x88 board |
| `board.dfy` | `BoardState` | the fields as a value `State`, castling-right upkeep, piece counts, `get_king` |
| `text.dfy` | `Text` | `split()`, `" ".join`, `split("/")`, `str(int)` and `int(str)` |
| `fen.dfy` | `Fen` | `get_fen` and `set_fen` as functions, their round trip, the start position |
| `attacks.dfy` | `Attacks` | the two tables, `get_attackers`, `is_attacked`, `is_king_attacked` |
| `moves.dfy` | `Moves` | `make_move` as a function with its two exceptions |
| `movegen.dfy` | `MoveGen` | both generators as the list they yield plus the way they end |
| `classify.dfy` | `Classify` | check, checkmate, stalemate, insufficient material, game over |
| `san.dfy` | `San` | the disambiguator and `get_move_info` |
| `position.dfy` | `Positions` | the class `Position`: the six fields, updated in place by methods |

Each method of `Position` is proved against the value-level function of the same operation: the new state, or the value returned, is that function of the old state. The properties the class promises are proved as lemmas about those functions:

- a FEN round trip;
- the invariant that every method keeps (`Valid`: off-board cells empty, a canonical castling string, counters in range);
- the effects of `make_move`;
- soundness of move generation, and its completeness for every piece other than pawns;
- the exact conditions of checkmate, stalemate and insufficient material;
- the marks in the SAN text.

The model follows the code as written, including these quirks:

- **Black's capture offsets** are 16 and 15, so one of black's "captures" goes straight ahead.
- **White's double step** does not check its target, because of how `or` and `and` bind.
- **Single pawn pushes.** The push block yields a single step only as its four promotions, so a non-promoting single push never comes from it. A black pawn still steps one square straight ahead through the en-passant branch, when the en-passant file is its own file.
- **En-passant removal** after a white move is `target - 16`. From rank 8 this index is negative, and the write clears the cell of the same file on rank 1.
- **After a black move** the removal is `target + 16`. From rank 1 it raises IndexError.
- **A genuine en-passant capture** therefore clears the cell one rank beyond the target, not the captured pawn's cell, so the captured pawn stays on the board.
- **Quiet promotions** do not reset the half-move clock.
- **`set_move_number`** assigns nothing.
- **A king attacker** is yielded twice.

Python exceptions are modelled as `Result`/`Option` errors, and a generator that raises part-way as its list so far plus a `Stop` value.

## Model

| member | source | states |
|---|---|---|
| ChessTypes.Opposite | libchess/position.py:244 | the opposite colour differs from the colour it is taken of |
| ChessTypes.SymbolRoundTrip | libchess/position.py:508-515 | reading back the FEN letter of any piece gives that piece |
| ChessTypes.FromSymbol | libchess/position.py:514 | a character yields a piece exactly when it is one of the twelve piece letters, and the piece's letter is that character |
| ChessTypes.OffBoardIsNotSquare | libchess/position.py:619-622 | the `index & 0x88` test marks exactly the indices that are not squares |
| ChessTypes.NameInjective | libchess/position.py:82-83 | two squares have the same name exactly when they are the same square |
| ChessTypes.SquareAtInjective | libchess/position.py:404 | the enumeration of the 64 squares visits each square once |
| BoardState.WriteCell | libchess/position.py:181-183 | a raw list write with Python's negative-index wrap: the written cell holds the value and every other cell is unchanged |
| BoardState.RightsStringRights | libchess/position.py:246-259 | the castling string built from four flags holds each right exactly when its flag is set |
| BoardState.CanonicalByRights | libchess/position.py:301-308 | two castling strings in K, Q, k, q order with the same rights are equal |
| BoardState.WithRight | libchess/position.py:289-308 | the string set_castling_right builds has right t set to status, every other right as before, in K, Q, k, q order |
| BoardState.RederiveRights | libchess/position.py:46-49 | after the castling update each right is held exactly when it was held and the king and rook stand on their home squares; the order stays canonical |
| BoardState.RederiveKeepsBacked | libchess/position.py:520-523 | the update leaves a string whose rights are all backed unchanged |
| BoardState.RederiveFromRights | libchess/position.py:46-49 | the partial castling update over the types from k on keeps the earlier rights and drops the later unbacked ones |
| BoardState.RightsStringCanonical | libchess/position.py:301-308 | the string built from four flags in K, Q, k, q order is canonical |
| BoardState.SetPieceEffect | libchess/position.py:37-49 | `set` writes the one cell, keeps every other cell, turn, file and counters, drops exactly the unbacked rights and keeps the invariant |
| BoardState.CountIsCardinality | libchess/position.py:366-391 | the count of a kind is the number of cells holding a piece of that kind and an admitted colour |
| BoardState.CountSplit | libchess/position.py:379-390 | the count over both colours is the white count plus the black count |
| BoardState.CountZero | libchess/position.py:366-391 | a count is zero exactly when no cell holds such a piece |
| BoardState.GetKing | libchess/position.py:393-407 | get_king returns a square holding that colour's king, and None exactly when no square holds one |
| BoardState.GetKingUnique | libchess/position.py:404-407 | with a single king of that colour, get_king returns its square |
| Text.SplitJoinSpaces | libchess/position.py:451-460 | splitting at whitespace the space-joined non-empty, space-free fields gives back the fields |
| Text.SplitJoin | libchess/position.py:464 | splitting at '/' the '/'-joined parts that hold no '/' gives back the parts |
| Text.JoinSplit | libchess/position.py:464 | joining with '/' what `split("/")` gives back restores the text |
| Text.ParseIntStr | libchess/position.py:486-488 | `int(str(i)) == i` for every integer |
| Text.IntStrInjective | libchess/position.py:451 | two integers print the same exactly when they are equal |
| Fen.Rows | libchess/position.py:418-435 | get_fen writes eight ranks, rank k being the text of row k |
| Fen.ParseFen | libchess/position.py:453-523 | a text set_fen accepts yields a position with off-board cells empty, a canonical and backed castling string, a file letter and counters in range |
| Fen.LoadFields | libchess/position.py:485-523 | the fields set_fen stores once its assertions pass form such a position |
| Fen.ParseFenAccepts | libchess/position.py:459-489 | set_fen accepts a text exactly when it has 6 fields, the first of 8 well-formed ranks, the turn w or b, castling and en-passant fields matching their patterns, half moves >= 0 and move number >= 1 |
| Fen.ScanRowSpec | libchess/position.py:466-478 | the scan of a rank succeeds exactly when every character is allowed and no two digits follow each other, and then counts the cells the rank covers |
| Fen.CheckRowSpec | libchess/position.py:466-478 | a rank passes exactly when its characters are allowed, no two digits are adjacent and it covers eight cells |
| Fen.CheckRowsSpec | libchess/position.py:463-478 | the ranks pass exactly when every rank is well formed |
| Fen.CastlingPatternCanonical | libchess/position.py:482 | a castling field matches `KQ?k?q?\|Qk?q?\|kq?\|q\|-` exactly when it is "-" or a non-empty string of rights in K, Q, k, q order |
| Fen.FillChecked | libchess/position.py:505-515 | on accepted ranks the fill loop never writes past the list and leaves every off-board cell empty |
| Fen.RowTextScan | libchess/position.py:416-435 | every rank get_fen writes passes set_fen's rank scan with width 8 |
| Fen.PlacementFill | libchess/position.py:505-515 | filling a board from the ranks get_fen wrote for it restores that board |
| Fen.PlacementReads | libchess/position.py:415-435 | the placement field is non-empty, has no whitespace, splits into the eight ranks, passes the rank check and fills back to the board |
| Fen.CanonicalField | libchess/position.py:437-440 | the castling field written for a canonical string matches the pattern and reads back as that string |
| Fen.EpFieldNoWs | libchess/position.py:442-449 | the en-passant field is "-" or a file letter with 3 or 6, and so matches its pattern |
| Fen.FenFields | libchess/position.py:451 | splitting get_fen's text at whitespace gives back the six fields |
| Fen.ReloadFen | libchess/position.py:16-23 | set_fen(get_fen()) on any position the class keeps succeeds and gives the same position minus the castling rights its pieces do not back |
| Fen.FenRoundTrip | libchess/position.py:409-523 | set_fen(get_fen()) gives back any well-formed position unchanged |
| Fen.FenInjective | libchess/position.py:889-890 | two positions the class keeps have equal FENs exactly when they are equal |
| Fen.FieldsInjective | libchess/position.py:409-451 | two such positions with the same six fields are equal |
| Fen.EpFieldInjective | libchess/position.py:442-449 | equal en-passant fields come from equal files |
| Fen.CopyKeepsFen | libchess/position.py:16-23 | copy() has the original's FEN exactly when every castling right is backed by the pieces |
| Fen.LoadedFenStable | libchess/position.py:910-921 | for a position loaded by from_fen, loading its get_fen text gives the same result |
| Fen.StartFenLoads | libchess/position.py:56-58 | the start FEN loads as the start position |
| Fen.StartFenText | libchess/position.py:56-58 | get_fen of the start position is the start FEN |
| Fen.StartStateWf | libchess/position.py:56-58 | the start position is well formed, with all four rights backed |
| Attacks.TableGeometry | libchess/position.py:697-731 | at index source - target + 119, ATTACKS holds the mask of that displacement and RAYS the unit step from source to target on a line or diagonal (0 elsewhere) |
| Attacks.TableIndex | libchess/position.py:747-748 | the index of two squares names the row and file differences of the pair |
| Attacks.MaskBits | libchess/position.py:733-750 | a kind's bit is set in a displacement's mask exactly when that kind can attack along that displacement |
| Attacks.KindBits | libchess/position.py:733-750 | in the six masks the table uses, each kind's bit is set exactly for the masks of the displacements that kind attacks along |
| Attacks.AttackEntry | libchess/position.py:750 | the ATTACKS entry of a pair is the mask of their displacement |
| Attacks.RayEntry | libchess/position.py:766 | the RAYS entry of a pair is the step between them on a line or diagonal and 0 otherwise |
| Attacks.Yields | libchess/position.py:742-775 | a source square is yielded at most twice |
| Attacks.WalkBlockedSpec | libchess/position.py:766-773 | the ray walk finds a blocker exactly when some cell strictly between source and target is occupied |
| Attacks.YieldsSpec | libchess/position.py:742-775 | a square is yielded exactly when it holds a piece of the colour that reaches the target by chess rules, and twice exactly for an adjacent king |
| Attacks.AttackersSpec | libchess/position.py:685-775 | each square occurs in get_attackers as often as it is yielded, and occurs exactly when its piece attacks the target |
| Attacks.IsAttackedSpec | libchess/position.py:777-792 | is_attacked holds exactly when some piece of the colour reaches the square |
| Attacks.KingAttackedSpec | libchess/position.py:564-576 | is_king_attacked is false without a king and otherwise holds exactly when an enemy piece reaches the king's square |
| Moves.RelocatedEffect | libchess/position.py:167-174 | the two `set` calls and the turn toggle empty the source, move the piece, keep every other cell and counter and only drop castling rights |
| Moves.ApplyMoveErrors | libchess/position.py:167-183 | make_move raises AttributeError exactly when the source is empty or equals the target, and IndexError exactly for a black pawn's en-passant-shaped move onto rank 1 |
| Moves.ApplyMoveOk | libchess/position.py:167-222 | a successful make_move runs the relocation, the pawn block and the remaining steps in that order |
| Moves.ApplyMoveErrorsOf | libchess/position.py:167-183 | make_move raises AttributeError exactly when the target is empty after the relocation, and IndexError exactly when the pawn block raises |
| Moves.ApplyMoveCastling | libchess/position.py:167-174 | without a promotion the castling string after make_move is the one the two `set` calls leave |
| Moves.ApplyMoveSquares | libchess/position.py:169-195 | after make_move the source is empty and the target holds the moved piece, or the promotion piece in its colour |
| Moves.ApplyMoveTurn | libchess/position.py:173-222 | make_move toggles the turn and adds one to the move number exactly when black moved |
| Moves.ApplyMoveHalfMoves | libchess/position.py:212-218 | the half-move clock restarts when the landed piece is a pawn, a piece was taken or the move had en-passant shape, and otherwise counts up |
| Moves.ApplyMoveEpFile | libchess/position.py:185-191 | the en-passant file becomes the target's file exactly when a pawn moved two ranks, and None otherwise |
| Moves.ApplyMoveEnPassant | libchess/position.py:178-184 | an en-passant-shaped pawn move clears the cell one rank beyond the target (target-16 after a white move, target+16 after a black move, with the list's wrap-around) |
| Moves.ApplyMoveRook | libchess/position.py:197-210 | a king moving two files also moves the rook from target+1 to target-1, or from target-2 to target+1 |
| Moves.ApplyMoveFrame | libchess/position.py:161-222 | make_move changes no cell besides the source, the target, the en-passant victim and the castling rook's two cells |
| Moves.ApplyMoveLoadable | libchess/position.py:161-222 | make_move keeps the invariant and never adds a castling right |
| Moves.ApplyMoveIgnoresCastling | libchess/position.py:161-222 | the castling string does not affect whether make_move succeeds or what it does to the other fields |
| Moves.EnPassantClearsKing | libchess/position.py:179-184 | a black pawn taking "en passant" from f3 to e2 clears e2+16, which is e1, removing the white king and leaving a castling right the pieces no longer back |
| Moves.WhiteEnPassantWraps | libchess/position.py:179-181 | a white en-passant-shaped pawn move onto rank 8 always succeeds, its removal index `target - 16` is negative, and the cell of the same file on rank 1 ends up empty |
| Moves.EnPassantLeavesPawn | libchess/position.py:178-184 | a pawn leaving its file for an empty square always succeeds except black onto rank 1, and the cell one rank back from the target on its file, where a pawn taken en passant stands, is left unchanged |
| Moves.PawnStepError | libchess/position.py:179-183 | the pawn block raises only IndexError, exactly when the removal cell lies past the end of the list |
| Moves.PromotedEffect | libchess/position.py:193-195 | promotion puts a piece of the promotion type and the mover's colour on the target and changes nothing else but rights |
| Moves.CastledEffect | libchess/position.py:197-210 | the castling step moves the rook's cell and keeps every other cell |
| MoveGen.PieceOffsets | libchess/position.py:588-594 | every offset lies within 33 cells, and every offset of a piece other than the knight is a unit step along a line or diagonal |
| MoveGen.KnightOffsets | libchess/position.py:589 | the knight's offsets are exactly the knight jumps |
| MoveGen.KingOffsets | libchess/position.py:593 | the king's offsets are exactly the steps to adjacent squares |
| MoveGen.SliderOffsets | libchess/position.py:590-592 | a bishop's offsets are the diagonals, a rook's the lines and a queen's both |
| MoveGen.SlideSpec | libchess/position.py:637-653 | a sliding walk yields exactly the squares beyond the start in its direction, over empty cells, that do not hold a piece of the mover |
| MoveGen.SingleSpec | libchess/position.py:650-653 | a single-step walk yields the one square the offset reaches when it does not hold a piece of the mover |
| MoveGen.OffsetMovesSpec | libchess/position.py:635 | the walks over a list of offsets yield what one of the walks yields |
| MoveGen.PieceMovesSpec | libchess/position.py:633-653 | a non-pawn piece's moves are exactly the squares it attacks by chess rules that do not hold a piece of its colour |
| MoveGen.PawnCaptureFacts | libchess/position.py:617-632 | a pawn's capture-loop moves go one offset forward, never onto its own pieces, and promote only on a back rank, in groups of four |
| MoveGen.PushesFacts | libchess/position.py:604-615 | a pawn's push moves stay on its file and go forward one or two ranks; the one-square push is yielded only as promotions, on the back rank, in a group of four |
| MoveGen.PawnMovesFacts | libchess/position.py:602-632 | every pawn move goes forward from the pawn, onto no piece of its own except through white's unchecked double step; promotions are grouped |
| MoveGen.BlackCapturesAhead | libchess/position.py:584 | a black pawn with a white piece straight ahead gets a "capture" onto it |
| MoveGen.BlackEnPassantAhead | libchess/position.py:617-632 | a black pawn with an empty square straight ahead on the en-passant file gets an unpromoted one-square step onto it |
| MoveGen.EnPassantToBackrank | libchess/position.py:630-632 | a white pawn on rank 7 gets an unpromoted move onto rank 8 through the en-passant branch |
| MoveGen.WhiteDoubleStepUnchecked | libchess/position.py:612-615 | a white pawn on rank 2 with the next square free gets the double step whatever stands on its target |
| MoveGen.SquareMovesFacts | libchess/position.py:596-653 | a square's generation stops only for a pawn on its last rank; otherwise its moves start on it and are grouped |
| MoveGen.PiecesFromFacts | libchess/position.py:596-653 | the piece loop yields grouped moves of the side to move and stops early exactly when a pawn stands on its last rank |
| MoveGen.PiecesFromComplete | libchess/position.py:596-653 | when the loop runs to its end, every chess move of every non-pawn piece of the side to move is yielded |
| MoveGen.PiecesFromStop | libchess/position.py:596-653 | the piece loop ends normally exactly when no later square holds a pawn on its last rank, and otherwise with OutsideBoard |
| MoveGen.SquareMovesStop | libchess/position.py:602-615 | a square's generation raises exactly for a pawn of the side to move on its last rank |
| MoveGen.CastleSpec | libchess/position.py:657-672 | castling yields at most one move, king from its square two files over, exactly when the right is held, the cells between are empty, the king is not in check and the crossed and landing squares are not attacked; a held right without a king raises |
| MoveGen.CrossingSpec | libchess/position.py:662-672 | the last castling tests pass exactly when the king is not in check and both squares it crosses are on the board and not attacked |
| MoveGen.CastleMoves | libchess/position.py:655-672 | each castling yields only castling moves of the side to move's king, and ends normally, off the board or for want of a king |
| MoveGen.PseudoLegalSpec | libchess/position.py:578-672 | every pseudo-legal move starts on a piece of the side to move and is a piece, pawn or castling move; promotions come in groups of four |
| MoveGen.PseudoLegalComplete | libchess/position.py:596-653 | with no pawn on its last rank, every chess move of a non-pawn piece of the side to move is pseudo-legal |
| MoveGen.LegalFromSound | libchess/position.py:674-683 | every move the legal filter keeps is pseudo-legal, applies on the copy and leaves the mover's king unattacked |
| MoveGen.LegalFromComplete | libchess/position.py:674-683 | when every move applies, each pseudo-legal move after which the king is not attacked is kept |
| MoveGen.LegalFromStop | libchess/position.py:679-683 | the legal filter ends as its input exactly when every move applies, and otherwise with the error of the first move that fails |
| MoveGen.FilterStopSpec | libchess/position.py:679-683 | the way the filter ends is its input's end exactly when every move applies, and otherwise the first failing move's error |
| MoveGen.PseudoLegalApplies | libchess/position.py:679-681 | a pseudo-legal move fails on the copy only with IndexError, for black moving onto rank 1 |
| MoveGen.CopyAgrees | libchess/position.py:680-681 | every pseudo-legal move succeeds on the copy exactly when it does on the position, with the same board after |
| MoveGen.LegalFiltersCopy | libchess/position.py:679-682 | get_legal_moves filters the pseudo-legal moves on the copy, which differs from the position at most in castling rights |
| MoveGen.FilterSpec | libchess/position.py:674-683 | filtering on a copy that agrees with the position keeps exactly the moves after which the king is safe, unless a move raises IndexError |
| MoveGen.LegalSpec | libchess/position.py:674-683 | get_legal_moves yields exactly the pseudo-legal moves after which the mover's king is not attacked, unless make_move raises IndexError on the copy |
| Classify.NoLegalMove | libchess/position.py:812-816 | probing reports a move exactly when there is a legal one, and none exactly when the generator runs out empty |
| Classify.IsCheckmate | libchess/position.py:802-816 | checkmate needs check, and without check it is false |
| Classify.IsStalemate | libchess/position.py:818-831 | stalemate needs no check, and with check it is false |
| Classify.LegalStop | libchess/position.py:674-683 | the legal generator ends as the pseudo-legal one exactly when every move applies; otherwise with IndexError |
| Classify.NoLegalMoveSpec | libchess/position.py:812-816 | no legal move is reported exactly when no pseudo-legal move escapes; a reported move has an escape; errors are the generator's |
| Classify.NoEscapeNoMove | libchess/position.py:812-816 | with no escaping move the legal generator yields nothing and ends normally |
| Classify.NoMoveNoEscape | libchess/position.py:812-816 | when the legal generator yields nothing and ends normally, no pseudo-legal move escapes |
| Classify.LegalMoveEscapes | libchess/position.py:674-683 | every legal move is a pseudo-legal move that escapes |
| Classify.CheckmateSpec | libchess/position.py:802-816 | checkmate holds exactly in check with no escaping move |
| Classify.StalemateSpec | libchess/position.py:818-831 | stalemate holds exactly out of check with no escaping move |
| Classify.GameOverSpec | libchess/position.py:874-881 | the game is over exactly when no move escapes or material is insufficient; it raises exactly when move probing raises |
| Classify.GameOverCases | libchess/position.py:874-881 | is_game_over is the move probe's result or'ed with insufficient material, and raises when the probe raises |
| Classify.InsufficientMaterialSpec | libchess/position.py:833-872 | with two kings: only kings, a single extra bishop or knight, or only bishops with both colours holding one and all on one shade |
| Classify.PawnKeepsMaterial | libchess/position.py:851-872 | a position with two kings and a pawn never has insufficient material |
| San.DisambiguatorSpec | libchess/position.py:60-89 | the disambiguator names part of the source square, is empty exactly when no rival on the same rank or file exists, and tells the move apart from every such rival |
| San.DescribeSpec | libchess/position.py:101-114 | the info records the move, the moved piece, check, en passant (a pawn changing file onto an empty square, taking an enemy pawn) and the two castlings by a king's two-file move |
| San.DescribeRaises | libchess/position.py:97-160 | after its assertion, get_move_info raises only what the generators raise |
| San.SanMarks | libchess/position.py:120-148 | the SAN holds '#' exactly for mate, '+' for check without mate, 'x' for a capture, '=' for a promotion, 'o' for castling and ')' for en passant |
| San.WrittenMarks | libchess/position.py:120-148 | the text written for any move info carries exactly the marks of its flags |
| San.MarksChars | libchess/position.py:142-148 | the suffix holds '#' for mate, '+' for check without mate and ')' for en passant, and no other mark |
| San.BodyChars | libchess/position.py:126-140 | the body holds 'x' exactly for a capture and '=' exactly for a promotion, and no suffix mark |
| San.InfoOnCopy | libchess/position.py:97-118 | for a legal move the copy accepts the move and gives the same board as the original would |
| San.MoveInfoSpec | libchess/position.py:91-160 | get_move_info of a legal move describes it correctly (piece of the side to move, check, en passant, captured piece); its assertion fails exactly for a move that is not legal when the legal generator runs to its end |
| San.GetMoveInfoNotLegal | libchess/position.py:97 | the assertion fails exactly when the legal generator runs to its end without yielding the move |
| San.MoveInfoSanMarks | libchess/position.py:91-160 | the SAN of get_move_info carries exactly the marks of its flags |
| Positions.BuiltAll | libchess/position.py:301-308 | the loop of set_castling_right builds the string with right t set to status and the others kept |
| Positions.CheckRanks | libchess/position.py:463-478 | the nested loop over ranks and characters reports the first rank error in set_fen's order |
| Positions.Position.constructor | libchess/position.py:7-14 | an empty board, white to move, no rights, no en-passant file, counters 0 and 1 |
| Positions.Position.Get | libchess/position.py:25-35 | returns the cell of the square |
| Positions.Position.GetCastlingRight | libchess/position.py:246-259 | true exactly when the type's letter is in the castling string |
| Positions.Position.GetTheoreticalCastlingRight | libchess/position.py:261-287 | true exactly when the king and the rook of that type stand on their home squares |
| Positions.Position.SetCastlingRight | libchess/position.py:289-308 | sets right t to status and keeps every other field and right, in canonical order |
| Positions.Position.RebuiltRights | libchess/position.py:301-307 | the loop over K, Q, k, q returns the rebuilt string |
| Positions.Position.Set | libchess/position.py:37-49 | writes the cell and drops exactly the rights the pieces no longer back |
| Positions.Position.RederiveCastling | libchess/position.py:520-523 | the castling update drops exactly the unbacked rights |
| Positions.Position.Clear | libchess/position.py:51-54 | a fresh empty board and no castling rights, other fields kept |
| Positions.Position.SetTurn | libchess/position.py:233-240 | sets the turn and nothing else |
| Positions.Position.ToggleTurn | libchess/position.py:242-244 | turns the side to move to the other colour |
| Positions.Position.SetEpFile | libchess/position.py:320-329 | sets the en-passant file and nothing else |
| Positions.Position.SetHalfMoves | libchess/position.py:339-347 | sets the half-move clock and nothing else |
| Positions.Position.SetMoveNumber | libchess/position.py:358-364 | returns the move number and changes nothing |
| Positions.Position.GetPieceCounts | libchess/position.py:366-391 | the map holds every kind with its count on the board for the colour filter |
| Positions.Position.GetKing | libchess/position.py:393-407 | the first square in enumeration order holding that colour's king, or None |
| Positions.Position.RankText | libchess/position.py:419-435 | the inner loop writes one rank's text with its run of empty cells |
| Positions.Position.PlacementText | libchess/position.py:415-435 | the nested loops write the eight ranks separated by '/' |
| Positions.Position.GetFen | libchess/position.py:409-451 | returns the FEN of the position |
| Positions.Position.SetFen | libchess/position.py:453-523 | loads the position set_fen accepts, or reports its first failed check with the position unchanged |
| Positions.Position.Load | libchess/position.py:485-523 | stores the checked fields, fills the board and drops the unbacked rights |
| Positions.Position.FillBoard | libchess/position.py:505-515 | the fill loop with its running index gives a fresh board holding the placement's pieces |
| Positions.Position.Promote | libchess/position.py:193-195 | the promotion step of make_move |
| Positions.Position.UpdateCounters | libchess/position.py:212-222 | the half-move clock and move number steps of make_move |
| Positions.Position.PawnBlock | libchess/position.py:176-191 | the pawn block of make_move, raising IndexError with the position unchanged, and the captured flag it computes |
| Positions.Position.CastleRook | libchess/position.py:197-210 | the rook step of a castling move |
| Positions.Position.MakeMove | libchess/position.py:161-222 | the position after make_move, with the exception raised and the partial update it leaves |
| Positions.Position.FinishMove | libchess/position.py:176-222 | the steps of make_move after the piece is moved and the turn toggled |
| Positions.Position.WalkFrom | libchess/position.py:766-775 | the while loop finds a blocker exactly when the walk is blocked |
| Positions.Position.SourceAttacks | libchess/position.py:743-775 | the copies of one source square that get_attackers yields |
| Positions.Position.GetAttackers | libchess/position.py:685-775 | all attackers in enumeration order, with their repetitions |
| Positions.Position.IsAttacked | libchess/position.py:777-792 | whether any attacker is yielded |
| Positions.Position.IsKingAttacked | libchess/position.py:564-576 | whether that colour's king is attacked, false without a king |
| Positions.Position.IsCheck | libchess/position.py:794-800 | whether the side to move is in check |
| Positions.Position.Walk | libchess/position.py:636-653 | the while loop of one offset walk |
| Positions.Position.PieceMoves | libchess/position.py:633-653 | the moves of a non-pawn piece over its offset table |
| Positions.Position.OffsetsMoves | libchess/position.py:635-653 | the walks of each offset in table order |
| Positions.Position.PawnCaptureMoves | libchess/position.py:618-632 | one pass of the pawn's capture loop |
| Positions.Position.PawnMovesAt | libchess/position.py:602-632 | the pawn's pushes and captures, or the stop on an off-board target |
| Positions.Position.SquareMovesAt | libchess/position.py:596-653 | the moves of whatever stands on a square |
| Positions.Position.AllPieceMoves | libchess/position.py:596-653 | the piece loop over all squares in enumeration order |
| Positions.Position.CastlingPath | libchess/position.py:662-672 | the check and attack tests of castling |
| Positions.Position.CrossedSquares | libchess/position.py:662-672 | the attack tests of the crossed and landing squares |
| Positions.Position.KingSideMoves | libchess/position.py:657-663 | king-side castling |
| Positions.Position.QueenSideMoves | libchess/position.py:665-672 | queen-side castling |
| Positions.Position.GetPseudoLegalMoves | libchess/position.py:578-672 | the piece moves followed by the two castlings |
| Positions.Position.FromFen | libchess/position.py:910-921 | a fresh position loaded from the text, or set_fen's error |
| Positions.Position.Copy | libchess/position.py:16-23 | a fresh position with its own board, equal to the original minus unbacked castling rights |
| Positions.Position.GetLegalMoves | libchess/position.py:674-683 | the legal moves, each tried on its own copy |
| Positions.Position.KeepLegal | libchess/position.py:679-683 | the filtering loop over the pseudo-legal moves |
| Positions.Position.TryMove | libchess/position.py:680-682 | makes the move on a copy and reports whether the mover's king is then attacked |
| Positions.Position.ProbeLegalMoves | libchess/position.py:812-816 | whether the legal generator yields nothing, or how it raised |
| Positions.Position.IsCheckmate | libchess/position.py:802-816 | is_checkmate |
| Positions.Position.IsStalemate | libchess/position.py:818-831 | is_stalemate |
| Positions.Position.BishopsOnOneShade | libchess/position.py:864-871 | the bishop loop: true exactly when all bishops stand on one shade |
| Positions.Position.IsInsufficientMaterial | libchess/position.py:833-872 | is_insufficient_material |
| Positions.Position.IsGameOver | libchess/position.py:874-881 | is_game_over with `or`'s short circuit |
| Positions.Position.GetDisambiguator | libchess/position.py:60-89 | the disambiguator over the legal moves |
| Positions.Position.DisambiguateAmong | libchess/position.py:66-89 | the flag loop with its early break and the choice of text |
| Positions.Position.GetMoveInfo | libchess/position.py:91-160 | get_move_info |
| Positions.Position.DescribeMove | libchess/position.py:101-160 | the facts and SAN of a move given the resulting position |
| Positions.Position.WriteSan | libchess/position.py:120-148 | the SAN text of a move info |
| Positions.Position.SanText | libchess/position.py:126-140 | the body of a non-castling SAN |
| Positions.Position.MarksText | libchess/position.py:142-148 | the check, mate and en-passant suffix |
| Positions.Position.Reset | libchess/position.py:56-58 | a fresh board holding the start position |
| Positions.Position.GetDefault | libchess/position.py:899-908 | a new position holding the start position |
| Positions.Position.Equals | libchess/position.py:889-890 | equal FENs, which holds exactly when the two positions are equal |

## Left out

- `validate` (libchess/position.py:525-562) is declared without `self` and raises plain strings. It cannot run as written and is not modelled.
- `__str__`, `__repr__`, `__ne__` and `__hash__` are formatting and hashing wrappers around get_fen and are not modelled. `__hash__` also has a broken signature.
- `get_turn`, `get_ep_file`, `get_half_moves` and `get_move_number` only read a field. The fields of `Position` are read directly.
- `Square`, `Piece`, `Move`, `MoveInfo` and `opposite_color` of libchess are not part of this model. They are minimal datatypes with only the behaviour this file relies on.
- `Square.get_all()` is assumed to enumerate the squares in ascending 0x88 index order (a8 to h8, then down to a1 to h1).
- `Square.from_0x88_index` is assumed to build a square without checking. Where such an off-board square is then used (the push target of a pawn on its own last rank, a castling square beyond the edge), the generator ends with `OutsideBoard`.
- Generator laziness is not modelled. A generator is the full list it yields plus the way it ends (`Gen`), and the `.next()` probes of is_attacked, is_checkmate and is_stalemate are tests of that list for emptiness.
- Python exceptions are error values, not control flow: set_fen's failed assertions and `int()` errors (`FenError`), make_move's AttributeError and IndexError (`MoveError`), and get_move_info's assertion (`InfoError`).
- The regular expressions of set_fen are written as the string predicates `CastlingPattern` and `EpPattern`.
- Positions.Position.SetTurn, SetEpFile, SetHalfMoves, SetCastlingRight: their argument assertions are preconditions rather than an error result. set_half_moves' `int()` conversion is left out: the argument is an integer.
- `int()` is written as `ParseInt`: an optional sign, then decimal digits, with leading zeros allowed. On the whitespace-free tokens that `split()` produces, this is what `int()` accepts.
- Positions.Position.GetPieceCounts takes a `ColorFilter` in place of the strings "w", "b", "wb" and "bw". "wb" and "bw" both count both colours.
- The ATTACKS and RAYS tables are held as 15 rows of 16 entries (the last row has 15). `TableIndex` relates the flat index `difference + 119` to row and column.
- The read-only methods of `Position` require only a 128-cell board rather than the full invariant, since they read but do not rely on it.
- The loop of set_castling_right and the inner rank loop of get_fen sit in their own methods (`RebuiltRights`, `RankText`), to keep each proof small. They run the same statements.
- Aliasing between positions is not a concern of the source beyond `copy`. Copy's result has its own fresh board.
