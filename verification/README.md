# chessbased-frontend core, modelled in Dafny

This project models the logic core of the chessbased-frontend web application.

- **Rules engine** (src/lib/chess-logic.ts): the immutable game state, square names,
  move generation, attack and check detection, `makeMove`, checkmate and stalemate.
  - The model follows the code where it departs from the FIDE Laws of Chess.
  - Castling does not look for a rook on the corner.
  - Castling rights are lost only when a king or rook moves, never when a rook is captured.
  - `isInCheck` looks only at the first king of the colour in row-major order.
  - Destinations keep the source's order, duplicates included: a pawn diagonal can be listed twice.
- **Board component** (src/components/chess/chessboard.tsx):
  - the move-history timeline: first, prev, next, last and goTo;
  - the branch-truncating append of a new move;
  - the promotion handshake;
  - click selection.
  chess.js is a record of functions over an abstract game type.
- **Stockfish adapter** (src/lib/stockfish-engine.ts):
  - reading UCI `info` lines with first-match regular-expression semantics;
  - the MultiPV slot table and the gate that emits it;
  - the commands `analyze`, `stop` and `quit` send. The worker is an append-only log of the strings sent to it.
  - One quirk is kept as written: `/pv (.+)/` first matches inside `multipv`, and the first 13 tokens of the matched text are dropped.
- **Evaluation text** (`formatLine` in src/components/engine/engine-panel.tsx): exact integer arithmetic on centipawns.
- **Event bus** (src/lib/event-bus.ts): handlers are opaque identifiers, and `emit` yields its calls in order.

The files and their modules:

| file | module |
|---|---|
| chess_types.dfy | ChessTypes: pieces, board, game state, the initial position |
| decimal.dfy | Decimal: JavaScript decimal integer text |
| squares.dfy | Squares: squareToIndices and indicesToSquare |
| attacks.dfy | Attacks: getAttackingMoves, isSquareUnderAttack, isInCheck |
| movegen.dfy | MoveGen: the per-piece generators |
| apply.dfy | Apply: makeMove |
| legal.dfy | Legal: getLegalMoves, wouldBeInCheck, isCheckmate, isStalemate |
| timeline.dfy | Timeline: the board component's state machine |
| text.dfy | Text: trim, split, join and first-match regular expressions |
| engine.dfy | Engine: the Stockfish adapter |
| format_line.dfy | EvalFormat: formatLine |
| eventbus.dfy | EventBus: on, off, emit |

Squares are index pairs `Coord(rank, file)` inside the rules model, exactly the pairs the source computes. The lemmas of Squares show that the names a1..h8 and the on-board pairs convert into each other both ways. They also show that distinct squares have distinct names, so the source's comparisons of names are comparisons of pairs.

## Model

| member | source | states |
|---|---|---|
| ChessTypes.InitialGame | src/lib/chess-logic.ts:49-88 | the start position: both back ranks rook, knight, bishop, queen, king, bishop, knight, rook from the a-file, full pawn ranks, empty middle, white to move, all four rights, no en-passant square, clocks 0 and 1 |
| Squares.IndicesToSquare | src/lib/chess-logic.ts:44-46 | the name starts with the file letter counted from 'a' |
| Squares.SquareToIndices | src/lib/chess-logic.ts:37-41 | coordinates exist exactly when the second character is a digit; the file is the code of the first character minus 'a' |
| Squares.SquareNameRoundTrip | src/lib/chess-logic.ts:37-46 | every name a1..h8 converts to an on-board pair that converts back to the same name |
| Squares.IndicesRoundTrip | src/lib/chess-logic.ts:37-46 | every on-board pair has a name a1..h8 that converts back to the pair |
| Squares.IndicesToSquareInjective | src/lib/chess-logic.ts:44-46 | distinct on-board squares have distinct names |
| Squares.OnlySquareNamesConvertOnBoard | src/lib/chess-logic.ts:37-41 | a two-character string that lands on the board is one of a1..h8 |
| Decimal.NatStringValue | src/lib/chess-logic.ts:45 | the decimal text of a number reads back as that number |
| Decimal.IntStringRoundTrip | src/components/engine/engine-panel.tsx:74 | an integer's text is a minus sign exactly for negatives, followed by digits that read back as its magnitude |
| Attacks.OffsetReach | src/lib/chess-logic.ts:359-388 | pawn and knight attacks are exactly the on-board squares one of the offsets leads to |
| Attacks.AttackRay | src/lib/chess-logic.ts:390-449 | a slider's attack ray walks the direction one square at a time, stays on the board, and stops at the first occupied square (included) or the edge |
| Attacks.PawnReach | src/lib/chess-logic.ts:359-368 | the two diagonal offsets reach exactly the on-board squares one rank in the pawn's direction and one file to either side |
| Attacks.AttackRays | src/lib/chess-logic.ts:390-449 | a slider attacks exactly the squares on the attack ray of one of its directions |
| Attacks.AttackedFrom | src/lib/chess-logic.ts:355-474 | every square a piece attacks is on the board |
| Attacks.AttackedFromMeans | src/lib/chess-logic.ts:355-474 | a piece attacks a square exactly when it is a pawn's forward diagonal, an on-board knight or king offset, or a square on the attack ray of one of a bishop's, rook's or queen's directions |
| Attacks.OffBoardNeverAttacked | src/lib/chess-logic.ts:334-352 | a square off the board is never under attack |
| Attacks.FindKingFrom | src/lib/chess-logic.ts:315-327 | the scan finds the first king of the colour in row-major order, or reports that there is none |
| Attacks.InCheckIffKingAttacked | src/lib/chess-logic.ts:315-331 | with one king of the colour, being in check is that king's square being attacked |
| Attacks.NoKingNoCheck | src/lib/chess-logic.ts:329 | a colour without a king is never in check |
| MoveGen.StepMoves | src/lib/chess-logic.ts:171-196 | knight (and king step) destinations are exactly the on-board offset squares not holding a piece of the mover's colour |
| MoveGen.Ray | src/lib/chess-logic.ts:229-252 | a movement ray walks the direction, stays on the board, never lands on an own piece, and passes only empty squares |
| MoveGen.RayStops | src/lib/chess-logic.ts:236-248 | a movement ray ends at an occupied square, at the edge, or before an own piece |
| MoveGen.RayIsAttackRayWithoutOwnBlocker | src/lib/chess-logic.ts:229-252 | the movement ray is the attack ray without its last square when that square holds an own piece |
| MoveGen.SlidingMoves | src/lib/chess-logic.ts:198-252 | a bishop, rook or queen destination is exactly a square on the movement ray of one of its directions, and never holds an own piece |
| MoveGen.PawnMoves | src/lib/chess-logic.ts:134-169 | a pawn destination is exactly a single step onto an empty square, a double step from the start rank over two empty squares, or a forward diagonal holding an opposing piece or the en-passant square |
| MoveGen.KingMoves | src/lib/chess-logic.ts:254-306 | every king destination lies on a board rank; a square is a destination exactly when it is an on-board neighbour not holding an own piece, or two files right (left) of the king with the king-side (queen-side) castling conditions met |
| MoveGen.CastlingMoves | src/lib/chess-logic.ts:278-303 | the king-side (queen-side) castling destination is offered exactly when the right is held, the king is not attacked, the 2 (3) squares are empty and the two squares the king crosses and lands on are not attacked |
| MoveGen.PseudoMoves | src/lib/chess-logic.ts:109-128 | every generated destination lies on a board rank, and only castling can name a file off the board |
| MoveGen.PseudoMovesMeans | src/lib/chess-logic.ts:109-306 | a square is a destination exactly when the piece's own rule allows it: the pawn rules, an on-board knight step not onto an own piece, a king step or castling, or a square on a slider's movement ray |
| Apply.MakeMove | src/lib/chess-logic.ts:477-561 | a move from an empty square returns the state unchanged; otherwise the side to move flips, the move is recorded, and the result is again a valid state |
| Apply.MakeMoveBookkeeping | src/lib/chess-logic.ts:496-558 | the full-move number grows exactly after black's move; the half-move clock resets exactly on a capture or pawn move and otherwise grows by one; the en-passant square is the skipped square after a pawn double step and absent otherwise; the move record holds the piece, the capture and the en-passant flag, and its castling field is king-side (queen-side) exactly for a king moving two files right (left) |
| Apply.OrdinaryMoveRelocates | src/lib/chess-logic.ts:486-489 | without promotion, castling or en passant, the moved piece ends on the destination, replacing what stood there, and the origin is empty |
| Apply.PromotionPlacesChosenPiece | src/lib/chess-logic.ts:486-494 | a pawn reaching rank index 0 or 7 is replaced by the chosen piece, a queen by default, of its colour, and its origin is left empty |
| Apply.CastlingMovesRook | src/lib/chess-logic.ts:497-504 | a king moving two files takes the corner rook of that side to the square it crosses and empties the corner |
| Apply.EnPassantRemovesVictim | src/lib/chess-logic.ts:507-512 | an en-passant capture empties the square one rank behind the target, seen from the mover |
| Apply.MakeMoveFrame | src/lib/chess-logic.ts:486-512 | no square outside from, to, the castling rook's squares and the en-passant victim changes |
| Apply.RightsOnlyShrink | src/lib/chess-logic.ts:514-533 | castling rights never come back, change only when a king or rook moves, and only for the mover's colour |
| Apply.KingMoveRevokesRights | src/lib/chess-logic.ts:515-522 | a king move removes both rights of its colour |
| Apply.RookMoveRevokesRights | src/lib/chess-logic.ts:525-533 | a rook move keeps its colour's queen-side right exactly when the right was held and the rook leaves a file other than a, and the king-side right exactly when it was held and the file is not h |
| Legal.KeepSafe | src/lib/chess-logic.ts:131 | the filter keeps exactly the destinations whose trial move does not leave the mover in check |
| Legal.LegalMoves | src/lib/chess-logic.ts:102-132 | an empty square or a piece of the side not to move has no moves; otherwise a destination is legal exactly when the piece may go there and the trial move leaves its king unattacked |
| Legal.NonPawnsNeverTakeOwnPiece | src/lib/chess-logic.ts:171-306 | knight, bishop, rook, queen and king destinations, castling included, never hold a piece of the mover's colour |
| Legal.PawnMovesFollowRules | src/lib/chess-logic.ts:134-169 | every legal pawn destination obeys the pawn movement rules |
| Legal.TwoFileKingMoveIsCastling | src/lib/chess-logic.ts:254-303 | a king destination two files away is never one of the eight neighbour steps, so it comes from the castling part |
| Legal.CastlingOnlyWhenAllowed | src/lib/chess-logic.ts:278-303 | a legal king destination two files away stays on the king's rank and its side's castling conditions hold |
| Legal.AnyLegalMoveFrom | src/lib/chess-logic.ts:564-598 | the board scan finds a move exactly when some square holds a piece of the side to move with a legal destination |
| Legal.NoMovesIffScanFails | src/lib/chess-logic.ts:564-598 | the scan fails exactly when no on-board square offers the side to move a legal destination |
| Legal.CheckmateMeans | src/lib/chess-logic.ts:564-580 | checkmate is exactly: in check and no legal move anywhere |
| Legal.StalemateMeans | src/lib/chess-logic.ts:582-598 | stalemate is exactly: not in check and no legal move anywhere |
| Legal.GameOverExclusive | src/lib/chess-logic.ts:564-598 | checkmate and stalemate never hold together, and either one means no legal move anywhere |
| Timeline.ShowAt | src/components/chess/chessboard.tsx:98-161 | showing position k puts the cursor at k in the coherent state (the game is the replay of the first k moves, the highlight the last of them) and keeps the history, the selection, the targets, the pending promotion and the drag |
| Timeline.Prev | src/components/chess/chessboard.tsx:98-116 | prev lowers the cursor by one when it is above 0 and keeps the state coherent; at 0 nothing changes; the history, selection and pending promotion are never touched |
| Timeline.Next | src/components/chess/chessboard.tsx:118-129 | next raises the cursor by one when it is below the end and highlights the move passed over; at the end nothing changes; the history, selection and pending promotion are never touched |
| Timeline.Last | src/components/chess/chessboard.tsx:131-142 | last moves the cursor to the end when it is not there; otherwise nothing changes; the history, selection and pending promotion are never touched |
| Timeline.GoTo | src/components/chess/chessboard.tsx:144-154 | goTo k shows the replay of the first k moves and highlights move k, keeping the history, selection and pending promotion |
| Timeline.First | src/components/chess/chessboard.tsx:156-161 | first shows a new game at cursor 0 with no highlight and keeps the history, selection and pending promotion |
| Timeline.GoToIdempotent | src/components/chess/chessboard.tsx:144-154 | going to the same index twice is going there once |
| Timeline.NextUndoesPrev | src/components/chess/chessboard.tsx:98-129 | from a coherent state, prev then next returns to the same state |
| Timeline.PrevUndoesNext | src/components/chess/chessboard.tsx:98-129 | from a coherent state, next then prev returns to the same state |
| Timeline.Execute | src/components/chess/chessboard.tsx:373-406 | a played move truncates the history at the cursor, appends the move, puts the cursor at the end and highlights the move; a refused move changes nothing |
| Timeline.ExecuteKeepsCoherent | src/components/chess/chessboard.tsx:376-385 | when chess.js replays a recorded move to the game it played, a played move keeps the timeline coherent |
| Timeline.FindTo | src/components/chess/chessboard.tsx:362 | the search returns the first candidate for the destination, or none when there is no such candidate |
| Timeline.HandleMove | src/components/chess/chessboard.tsx:358-371 | a move from an empty square changes nothing; a move chess.js lists as a promotion becomes pending with game, history, cursor and highlight untouched; any other is played, truncating the history at the cursor and appending the move |
| Timeline.PromotionSelect | src/components/chess/chessboard.tsx:408-412 | without a pending promotion nothing changes; otherwise the pending move is cleared |
| Timeline.PromotionHandshake | src/components/chess/chessboard.tsx:358-371 | a promoting move leaves game and history alone and becomes pending; choosing the piece then plays exactly that move with that piece |
| Timeline.TargetsOf | src/components/chess/chessboard.tsx:223-226 | the highlighted destinations are the candidates' destinations, in order |
| Timeline.SquareClick | src/components/chess/chessboard.tsx:228-246 | a non-interactive board or a drag ignores the click; a click on a listed destination moves and clears the selection; a click on a piece of the side to move selects it with its destinations; any other click clears the selection |
| Timeline.ClickKeepsPlayedMoves | src/components/chess/chessboard.tsx:228-246 | no click alters the moves before the cursor |
| Text.Run | src/lib/stockfish-engine.ts:88-91 | a run is the longest stretch of characters with the property starting at the position |
| Text.RunExact | src/lib/stockfish-engine.ts:88-91 | a run is exactly as long as the stretch before the first character without the property |
| Text.Trim | src/lib/stockfish-engine.ts:101 | trim returns a slice with white space only around it, neither starting nor ending with white space |
| Text.Fields | src/lib/stockfish-engine.ts:101 | splitting on white-space runs gives at least one piece, none containing white space |
| Text.FieldsStep | src/lib/stockfish-engine.ts:101 | when white space follows the leading run, the first piece is that whole run, the non-empty gap after it is all consumed, and the split goes on from the next non-white-space character |
| Text.FieldsKeepText | src/lib/stockfish-engine.ts:101 | the pieces, put back together, are exactly the characters of the text that are not white space, in order |
| Text.FieldsInnerPiecesNonEmpty | src/lib/stockfish-engine.ts:101 | only the first and last piece can be empty |
| Text.FieldsOfJoin | src/components/engine/engine-panel.tsx:80 | splitting the space-joined tokens gives the tokens back |
| Text.MatchAt | src/lib/stockfish-engine.ts:88-91 | a match at a position is a key there followed by the longest non-empty group; no match means no key is followed by its group there |
| Text.Search | src/lib/stockfish-engine.ts:88-91 | the match found is at the leftmost position where the pattern matches |
| Text.FirstMatch | src/lib/stockfish-engine.ts:88-91 | `line.match(re)` yields a match of the pattern (a key followed by its longest non-empty group) with no match starting further left; no result means no position matches |
| Text.NoMatchMeansAbsent | src/lib/stockfish-engine.ts:88-93 | a failed search means no key is followed by its group anywhere in the line |
| Text.SignedGroup | src/lib/stockfish-engine.ts:89 | the score group is digits, possibly after one minus sign |
| Text.RestGroup | src/lib/stockfish-engine.ts:90 | the pv group is the non-empty rest of the line up to a line terminator |
| Engine.ReplayPv | src/lib/stockfish-engine.ts:108-130 | the pv loop keeps at most one move per token; a first token chess.js refuses gives no moves; an accepted one gives its move first |
| Engine.RefusalEndsReplay | src/lib/stockfish-engine.ts:114 | tokens after the first refused one never matter |
| Engine.DecorateIsGlyphMap | src/lib/stockfish-engine.ts:116-121 | decoration replaces each upper-case P, N, B, R, Q, K by its glyph and leaves every other character, lower-case file letters included, unchanged |
| Engine.FirstNonEmpty | src/lib/stockfish-engine.ts:106-129 | bestMove is the first non-empty SAN, or "" when there is none |
| Engine.Store | src/lib/stockfish-engine.ts:141 | a write at an array index fills that slot, adds holes up to it, and changes no other slot; any other key leaves the table alone |
| Engine.Present | src/lib/stockfish-engine.ts:145 | the emitted list holds exactly the filled slots |
| Engine.PresentAppend | src/lib/stockfish-engine.ts:145 | dropping holes keeps slot order |
| Engine.ReadInfo | src/lib/stockfish-engine.ts:87-139 | a line is read exactly when the depth, score and pv patterns all match |
| Engine.ParseInfo | src/lib/stockfish-engine.ts:87-148 | a line without depth, score or pv changes nothing and emits nothing; only the slot table changes; the callback fires exactly when a callback is set and slot 0 holds a line of non-zero depth, and receives the filled slots |
| Engine.ScoreReading | src/lib/stockfish-engine.ts:97-135 | a centipawn report gives score = ±value with no mate; a mate report gives score 0 and mate = ±value; the sign is + exactly when white is to move |
| Engine.DepthReading | src/lib/stockfish-engine.ts:88-97 | the depth is the decimal value of the non-empty digit run after the first "depth " |
| Engine.SlotOfLine | src/lib/stockfish-engine.ts:91-102 | the line goes to slot multipv - 1, or slot 0 without a multipv field |
| Engine.StoredInSlot | src/lib/stockfish-engine.ts:141 | an array-index slot receives the line, the table grows with holes, and no other slot changes |
| Engine.PvReading | src/lib/stockfish-engine.ts:101-139 | the line holds one decorated SAN and one verbose move (from, to and promotion as chess.js reports them) per accepted pv token, in order, and bestMove is the first non-empty SAN |
| Engine.PvMatchInsideMultipv | src/lib/stockfish-engine.ts:90-91 | when "multipv " is followed by text and no "pv " comes earlier, the pv text starts right after "multipv " |
| Engine.EmissionOrder | src/lib/stockfish-engine.ts:143-146 | an emitted list starts with slot 0's line, of non-zero depth, and holds exactly the filled slots |
| Engine.Analyze | src/lib/stockfish-engine.ts:150-161 | without a worker analyze throws and changes nothing; otherwise it stores the position and callback, empties the slots and sends "stop", "position fen …", "go depth 20" in that order |
| Engine.Stop | src/lib/stockfish-engine.ts:163-166 | stop forgets the callback and sends "stop" exactly when a worker exists; the slots, the position and readiness stay |
| Engine.Quit | src/lib/stockfish-engine.ts:168-175 | quit sends "quit" exactly when a worker exists, then there is no worker and the engine is not ready; callback, slots and position stay |
| Engine.QuitOnce | src/lib/stockfish-engine.ts:168-175 | a second quit sends nothing and changes nothing |
| Engine.StopSilences | src/lib/stockfish-engine.ts:143-166 | after stop no info line reaches a callback |
| Engine.QuitIsFinal | src/lib/stockfish-engine.ts:150-175 | after quit analyze throws and stop sends nothing |
| Engine.OnMessage | src/lib/stockfish-engine.ts:54-63 | "uciok" makes the engine ready, an `info` line is read against the stored position, and anything else is ignored |
| EvalFormat.TwoDigits | src/components/engine/engine-panel.tsx:76 | the fraction is two digits reading back as the centipawn remainder |
| EvalFormat.EvalText | src/components/engine/engine-panel.tsx:72-78 | a mate gives "#" and the mate count; otherwise the text starts with "-" for a negative score and "+" for any other, 0 included |
| EvalFormat.FormatLine | src/components/engine/engine-panel.tsx:71-81 | the output is "(", the eval text, ") " and the pv joined by single spaces |
| EvalFormat.CentipawnsRoundTrip | src/components/engine/engine-panel.tsx:76-77 | the signed two-decimal text reads back as the centipawn score |
| EvalFormat.MateRoundTrip | src/components/engine/engine-panel.tsx:73-74 | the mate text is "#", then a minus sign exactly for a negative count, then digits reading back as its magnitude |
| EvalFormat.PvReadsBack | src/components/engine/engine-panel.tsx:80 | with space-free moves the pv splits back out of the formatted text |
| EventBus.On | src/lib/event-bus.ts:6-11 | on appends the handler to the end of the event's list, creating it if absent, and leaves other events alone |
| EventBus.RemoveAll | src/lib/event-bus.ts:15 | the filter removes every occurrence of the handler and keeps every other one as often as before |
| EventBus.RemoveAllAppend | src/lib/event-bus.ts:15 | the filter keeps the order of the remaining handlers |
| EventBus.RemoveAllIdempotent | src/lib/event-bus.ts:15 | filtering twice is filtering once |
| EventBus.Off | src/lib/event-bus.ts:13-16 | off on an unknown event is a no-op; otherwise the handler no longer appears in the list and the others remain; other events are untouched |
| EventBus.Emit | src/lib/event-bus.ts:18-21 | emit calls the event's handlers in registration order with the given arguments, and calls nothing for an unknown event |
| EventBus.EmitAfterOn | src/lib/event-bus.ts:6-21 | a newly registered handler is called after the earlier ones |
| EventBus.DuplicatesKept | src/lib/event-bus.ts:10 | a handler registered twice is called twice |
| EventBus.OffSilences | src/lib/event-bus.ts:13-21 | after off the handler is never called for that event |
| EventBus.OffUndoesOn | src/lib/event-bus.ts:6-16 | registering a handler and removing it leaves the list as removing it alone would |
| EventBus.OffIdempotent | src/lib/event-bus.ts:13-16 | off twice is off once |
| EventBus.EventsIsolated | src/lib/event-bus.ts:6-16 | on and off for one event never change another event's handlers |

## Left out

- Squares off the grid: a two-file king move can write off the 8x8 grid in makeMove. The king's own destination (chess-logic.ts:488) is off the grid when a king on the a-, b-, g- or h-file castles towards the near edge. The rook's target square (chess-logic.ts:502) is off the grid only for a king on the a- or h-file. A write at file -1 or -2 adds a non-index property to the row, and a write at file 8 or 9 lengthens the row. The rules engine's 8x8 scans read neither. The model drops these writes.
- Apply.MakeMove and Legal.LegalMoves: require the ranks of the squares on the board and a well-shaped state. The source throws a TypeError on an off-board rank. Every state built by initializeGame and makeMove is well-shaped, and FEN parsing is not part of this code.
- Timeline.GoTo: requires 1 <= k <= history length. For any other index the source reads a missing history entry and throws, after it has already reset the game and the cursor. That partial update is not modelled.
- Timeline.ExecuteKeepsCoherent: assumes chess.js yields the same game when it replays a recorded move as when it plays the requested move. The component actually continues from `new Chess(chess.fen())`, which loses chess.js's own move history.
- chess.js internals (move legality, SAN, FEN, `isDraw`): these are abstract functions. A move chess.js refuses is `None`.
- Engine.ReplayPv, Engine.ParseInfo: a refused pv token ends the replay, and the accepted moves before it are stored. The component imports `PieceSymbol` from chess.js (chessboard.tsx:3), which points to chess.js 1.x, whose `move` throws on an illegal move instead of returning null. `parseInfo` has no handler around the loop (stockfish-engine.ts:108-114), and neither has the worker's message callback (stockfish-engine.ts:54-63). So with chess.js 1.x an `info` line holding a stale pv token is dropped whole: no slot is written and no callback fires. The model keeps the refusal-as-`null` reading that the `if (!move) break` at stockfish-engine.ts:114 expresses. For `executeMove` the two readings agree, because it catches the exception (chessboard.tsx:374, 403) and changes nothing.
- `onMove`, the checkmate, stalemate and draw alerts with their timers, `setFen`, drag and drop, and pixel geometry: UI and timers, not logic.
- Worker creation, `initEngine`, `waitForReady` polling, the `setoption` commands, and the `await` of the ready promise: asynchronous I/O. `analyze` is modelled as if the engine had finished initialising.
- Number precision: depth, score and multipv are exact integers. JavaScript numbers lose precision beyond 2^53, and `toFixed` switches to exponent notation from 10^21.
- Characters are UTF-16 code units outside the surrogate range. Strings with surrogate pairs are not modelled.
- Event bus: handlers that register or remove handlers while `emit` runs are not modelled. Event names that are properties of `Object.prototype` (such as "constructor") make the source misbehave; they are not modelled either.
- No lemma evaluates concrete game positions, such as the twenty legal first moves or a particular mate. The properties are stated for all positions.
