/** makeMove: the state after moving the piece on `from` to `to`, with promotion,
    castling's rook move, en-passant capture and the bookkeeping fields. The move
    is applied as given; legality is the business of module Legal. */
module Apply {
  import opened ChessTypes

  /** The piece a pawn becomes; the source defaults an absent choice to a queen. */
  function PromotedKind(promotion: Option<PieceType>): PieceType {
    if promotion.Some? then promotion.value else Queen
  }

  predicate IsPromotion(piece: Piece, to: Coord) {
    piece.kind == Pawn && (to.rank == 0 || to.rank == 7)
  }

  /** A king moving two files castles. */
  predicate IsCastling(piece: Piece, from: Coord, to: Coord) {
    piece.kind == King && Abs(to.file - from.file) == 2
  }

  /** The corner the castling rook comes from: the h-file going right, the a-file going left,
      on the destination's rank. */
  function RookFrom(from: Coord, to: Coord): Coord {
    Coord(to.rank, if to.file > from.file then 7 else 0)
  }

  /** The square the king crosses, where the rook lands. */
  function RookTo(from: Coord, to: Coord): Coord {
    Coord(to.rank, if to.file > from.file then to.file - 1 else to.file + 1)
  }

  predicate IsEnPassant(s: GameState, piece: Piece, to: Coord) {
    piece.kind == Pawn && s.enPassant == Some(to)
  }

  /** The pawn taken en passant stands one rank behind the target, seen from the mover. */
  function EnPassantVictim(piece: Piece, to: Coord): Coord {
    Coord(if piece.color == White then to.rank + 1 else to.rank - 1, to.file)
  }

  /** Rights after `piece` leaves `from`: a king loses both of its side's rights, a rook
      leaving the a- or h-file (on any rank) loses that wing's right. Captures do not
      touch the rights. */
  function UpdatedRights(rights: CastlingRights, piece: Piece, from: Coord): CastlingRights {
    if piece.kind == King then
      if piece.color == White then rights.(wk := false, wq := false) else rights.(bk := false, bq := false)
    else if piece.kind == Rook then
      if piece.color == White then
        rights.(wq := if from.file == 0 then false else rights.wq,
                wk := if from.file == 7 then false else rights.wk)
      else
        rights.(bq := if from.file == 0 then false else rights.bq,
                bk := if from.file == 7 then false else rights.bk)
    else rights
  }

  /** The square a double step skips; none after any other move. */
  function NewEnPassant(piece: Piece, from: Coord, to: Coord): Option<Coord> {
    if piece.kind == Pawn && Abs(to.rank - from.rank) == 2 then Some(Coord((from.rank + to.rank) / 2, from.file))
    else None
  }

  /** The board after the move of `piece` from `from` to `to`. */
  function MovedBoard(s: GameState, piece: Piece, from: Coord, to: Coord, promotion: Option<PieceType>): Board {
    var b1 := Put(Put(s.board, to, Some(piece)), from, None);
    var b2 := if IsPromotion(piece, to) then Put(b1, to, Some(Piece(PromotedKind(promotion), piece.color))) else b1;
    var b3 := if IsCastling(piece, from, to)
      then Put(Put(b2, RookTo(from, to), At(b2, RookFrom(from, to))), RookFrom(from, to), None)
      else b2;
    if IsEnPassant(s, piece, to) then Put(b3, EnPassantVictim(piece, to), None) else b3
  }

  /** makeMove. An empty `from` leaves the state as it is. The ranks must be on the
      board: the source indexes the board's rows with them and throws otherwise. */
  function MakeMove(s: GameState, from: Coord, to: Coord, promotion: Option<PieceType>): (r: GameState)
    requires Valid(s)
    requires 0 <= from.rank < 8 && 0 <= to.rank < 8
    ensures Valid(r)
    ensures At(s.board, from).None? ==> r == s
    ensures At(s.board, from).Some? ==> r.turn == Opponent(s.turn) && r.lastMove.Some?
  {
    match At(s.board, from)
    case None => s
    case Some(piece) =>
      var captured := At(s.board, to);
      var castling := if IsCastling(piece, from, to) then Some(if to.file > from.file then KingSide else QueenSide) else None;
      GameState(
        MovedBoard(s, piece, from, to, promotion),
        Opponent(s.turn),
        UpdatedRights(s.rights, piece, from),
        NewEnPassant(piece, from, to),
        if captured.Some? || piece.kind == Pawn then 0 else s.halfMoveClock + 1,
        if s.turn == Black then s.fullMoveNumber + 1 else s.fullMoveNumber,
        Some(Move(from, to, piece, captured, promotion, castling, IsEnPassant(s, piece, to))))
  }

  /** The clocks, side to move, en-passant square and last-move record after a move. */
  lemma MakeMoveBookkeeping(s: GameState, from: Coord, to: Coord, promotion: Option<PieceType>)
    requires Valid(s) && 0 <= from.rank < 8 && 0 <= to.rank < 8
    requires At(s.board, from).Some?
    ensures var r := MakeMove(s, from, to, promotion);
      var piece := At(s.board, from).value;
      && r.turn != s.turn
      && (r.fullMoveNumber == s.fullMoveNumber + 1 <==> s.turn == Black)
      && (r.fullMoveNumber == s.fullMoveNumber <==> s.turn == White)
      && (r.halfMoveClock == 0 <==> (At(s.board, to).Some? || piece.kind == Pawn))
      && (r.halfMoveClock != 0 ==> r.halfMoveClock == s.halfMoveClock + 1)
      && (r.enPassant.Some? <==> piece.kind == Pawn && (to.rank - from.rank == 2 || from.rank - to.rank == 2))
      && (r.enPassant.Some? ==> r.enPassant.value.file == from.file
                                && r.enPassant.value.rank - from.rank == to.rank - r.enPassant.value.rank)
      && r.lastMove == Some(Move(from, to, piece, At(s.board, to), promotion,
                                 r.lastMove.value.castling, s.enPassant == Some(to) && piece.kind == Pawn))
      && (r.lastMove.value.castling == Some(KingSide) <==> piece.kind == King && to.file - from.file == 2)
      && (r.lastMove.value.castling == Some(QueenSide) <==> piece.kind == King && from.file - to.file == 2)
  {
  }

  /** An ordinary move (no promotion, castling or en-passant capture) puts the piece on
      the destination, replacing whatever stood there, and empties the origin. */
  lemma OrdinaryMoveRelocates(s: GameState, from: Coord, to: Coord, promotion: Option<PieceType>)
    requires Valid(s) && OnBoard(from) && OnBoard(to) && from != to
    requires At(s.board, from).Some?
    requires !IsPromotion(At(s.board, from).value, to)
    requires !IsCastling(At(s.board, from).value, from, to)
    requires !IsEnPassant(s, At(s.board, from).value, to)
    ensures var r := MakeMove(s, from, to, promotion).board;
      At(r, to) == At(s.board, from) && At(r, from) == None
  {
  }

  /** A pawn reaching the first or last rank is replaced by the chosen piece (a queen by
      default) of its own colour, and leaves its origin empty. */
  lemma PromotionPlacesChosenPiece(s: GameState, from: Coord, to: Coord, promotion: Option<PieceType>)
    requires Valid(s) && 0 <= from.rank < 8 && OnBoard(to)
    requires At(s.board, from).Some? && At(s.board, from).value.kind == Pawn
    requires to.rank == 0 || to.rank == 7
    ensures var color := At(s.board, from).value.color;
      At(MakeMove(s, from, to, promotion).board, to)
        == Some(Piece(if promotion.Some? then promotion.value else Queen, color))
    ensures from != to ==> At(MakeMove(s, from, to, promotion).board, from) == None
  {
  }

  /** A king moving two files takes the rook from the corner on that side to the square
      it crosses; the corner is emptied. */
  lemma CastlingMovesRook(s: GameState, from: Coord, to: Coord, promotion: Option<PieceType>)
    requires Valid(s) && OnBoard(from) && OnBoard(to)
    requires At(s.board, from).Some? && At(s.board, from).value.kind == King
    requires to.file - from.file == 2 || from.file - to.file == 2
    requires RookFrom(from, to) != from && RookFrom(from, to) != to
    ensures var r := MakeMove(s, from, to, promotion).board;
      var rookTo := Coord(to.rank, (from.file + to.file) / 2);
      var corner := Coord(to.rank, if to.file > from.file then 7 else 0);
      && At(r, rookTo) == At(s.board, corner)
      && At(r, corner) == None
      && At(r, to) == At(s.board, from)
      && At(r, from) == None
  {
  }

  /** An en-passant capture removes the pawn one rank behind the target square. */
  lemma EnPassantRemovesVictim(s: GameState, from: Coord, to: Coord, promotion: Option<PieceType>)
    requires Valid(s) && 0 <= from.rank < 8 && 0 <= to.rank < 8 && from != to
    requires At(s.board, from).Some? && At(s.board, from).value.kind == Pawn
    requires s.enPassant == Some(to)
    ensures var piece := At(s.board, from).value;
      var r := MakeMove(s, from, to, promotion).board;
      && At(r, Coord(if piece.color == White then to.rank + 1 else to.rank - 1, to.file)) == None
      && At(r, to) == Some(piece)
      && At(r, from) == None
  {
  }

  /** The squares a move may change. */
  function Touched(s: GameState, piece: Piece, from: Coord, to: Coord): set<Coord> {
    {from, to}
    + (if IsCastling(piece, from, to) then {RookFrom(from, to), RookTo(from, to)} else {})
    + (if IsEnPassant(s, piece, to) then {EnPassantVictim(piece, to)} else {})
  }

  /** Nothing else on the board changes. */
  lemma MakeMoveFrame(s: GameState, from: Coord, to: Coord, promotion: Option<PieceType>, c: Coord)
    requires Valid(s) && 0 <= from.rank < 8 && 0 <= to.rank < 8
    requires At(s.board, from).Some?
    requires c !in Touched(s, At(s.board, from).value, from, to)
    ensures At(MakeMove(s, from, to, promotion).board, c) == At(s.board, c)
  {
  }

  /** Castling rights never come back, change only when a king or a rook moves, and
      only for the mover's side. In particular capturing a rook leaves its side's
      rights as they were. */
  lemma RightsOnlyShrink(s: GameState, from: Coord, to: Coord, promotion: Option<PieceType>)
    requires Valid(s) && 0 <= from.rank < 8 && 0 <= to.rank < 8
    ensures var r := MakeMove(s, from, to, promotion).rights;
      && (r.wk ==> s.rights.wk) && (r.wq ==> s.rights.wq)
      && (r.bk ==> s.rights.bk) && (r.bq ==> s.rights.bq)
    ensures var r := MakeMove(s, from, to, promotion).rights;
      (At(s.board, from).None? || At(s.board, from).value.kind !in {King, Rook}) ==> r == s.rights
    ensures var r := MakeMove(s, from, to, promotion).rights;
      At(s.board, from).Some? && At(s.board, from).value.color == White ==> r.bk == s.rights.bk && r.bq == s.rights.bq
    ensures var r := MakeMove(s, from, to, promotion).rights;
      At(s.board, from).Some? && At(s.board, from).value.color == Black ==> r.wk == s.rights.wk && r.wq == s.rights.wq
  {
  }

  /** A king move revokes both rights of its side. */
  lemma KingMoveRevokesRights(s: GameState, from: Coord, to: Coord, promotion: Option<PieceType>)
    requires Valid(s) && 0 <= from.rank < 8 && 0 <= to.rank < 8
    requires At(s.board, from).Some? && At(s.board, from).value.kind == King
    ensures var r := MakeMove(s, from, to, promotion).rights;
      if At(s.board, from).value.color == White then !r.wk && !r.wq else !r.bk && !r.bq
  {
  }

  /** A rook leaving the a-file loses its side's queen-side right, one leaving the
      h-file the king-side right; the other right of its side stays as it was. */
  lemma RookMoveRevokesRights(s: GameState, from: Coord, to: Coord, promotion: Option<PieceType>)
    requires Valid(s) && 0 <= from.rank < 8 && 0 <= to.rank < 8
    requires At(s.board, from).Some? && At(s.board, from).value.kind == Rook
    ensures var r := MakeMove(s, from, to, promotion).rights;
      if At(s.board, from).value.color == White then
        && (r.wq <==> s.rights.wq && from.file != 0)
        && (r.wk <==> s.rights.wk && from.file != 7)
      else
        && (r.bq <==> s.rights.bq && from.file != 0)
        && (r.bk <==> s.rights.bk && from.file != 7)
  {
  }
}
