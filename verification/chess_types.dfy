/** Shared values of the rules engine (src/lib/chess-logic.ts): pieces, the 8x8 board,
    castling rights, moves and the immutable game state. */
module ChessTypes {

  datatype Option<T> = None | Some(value: T)

  datatype Color = White | Black

  datatype PieceType = Pawn | Knight | Bishop | Rook | Queen | King

  datatype Piece = Piece(kind: PieceType, color: Color)

  /** A square as the index pair the rules engine computes with: rank 0 is the
      eighth rank (Black's back rank), file 0 is the a-file. Coordinates outside
      [0,8) do arise (castling looks two or three files past the king). */
  datatype Coord = Coord(rank: int, file: int)

  /** A (rank, file) step: a knight or king offset, or a slider direction. */
  datatype Offset = Offset(dr: int, df: int)

  /** Row-major board; `None` is an empty square. */
  type Board = seq<seq<Option<Piece>>>

  datatype CastlingRights = CastlingRights(wk: bool, wq: bool, bk: bool, bq: bool)

  datatype CastleSide = KingSide | QueenSide

  datatype Move = Move(
    from: Coord,
    to: Coord,
    piece: Piece,
    captured: Option<Piece>,
    promotion: Option<PieceType>,
    castling: Option<CastleSide>,
    enPassant: bool)

  datatype GameState = GameState(
    board: Board,
    turn: Color,
    rights: CastlingRights,
    enPassant: Option<Coord>,
    halfMoveClock: nat,
    fullMoveNumber: nat,
    lastMove: Option<Move>)

  function Abs(x: int): nat {
    if x < 0 then -x else x
  }

  function Opponent(c: Color): Color {
    if c == White then Black else White
  }

  predicate OnBoard(c: Coord) {
    0 <= c.rank < 8 && 0 <= c.file < 8
  }

  predicate WellShaped(b: Board) {
    |b| == 8 && forall r :: 0 <= r < 8 ==> |b[r]| == 8
  }

  /** The piece on a square; any coordinate off the stored grid reads as empty,
      as an out-of-range JavaScript array read yields a falsy `undefined`. */
  function At(b: Board, c: Coord): Option<Piece> {
    if 0 <= c.rank < |b| && 0 <= c.file < |b[c.rank]| then b[c.rank][c.file] else None
  }

  /** The board with square `c` set to `p`; a write off the grid changes nothing on it. */
  function Put(b: Board, c: Coord, p: Option<Piece>): (r: Board)
    ensures WellShaped(b) ==> WellShaped(r)
    ensures forall d :: At(r, d) == (if d == c && OnBoard(c) && WellShaped(b) then p else At(b, d))
  {
    if WellShaped(b) && OnBoard(c) then b[c.rank := b[c.rank][c.file := p]] else b
  }

  /** Square `c` holds a piece of colour `color`. */
  predicate OwnedBy(b: Board, c: Coord, color: Color) {
    At(b, c).Some? && At(b, c).value.color == color
  }

  function Step(c: Coord, d: Offset): Coord {
    Coord(c.rank + d.dr, c.file + d.df)
  }

  /** The en-passant square lies on one of the ranks a double step can skip. */
  predicate EnPassantSquareOk(ep: Option<Coord>) {
    ep.None? || (1 <= ep.value.rank <= 6 && 0 <= ep.value.file < 8)
  }

  /** What every state built by InitialGame and MakeMove satisfies. */
  predicate Valid(s: GameState) {
    WellShaped(s.board) && EnPassantSquareOk(s.enPassant)
  }

  function BackRank(color: Color): seq<Option<Piece>> {
    [Some(Piece(Rook, color)), Some(Piece(Knight, color)), Some(Piece(Bishop, color)),
     Some(Piece(Queen, color)), Some(Piece(King, color)), Some(Piece(Bishop, color)),
     Some(Piece(Knight, color)), Some(Piece(Rook, color))]
  }

  /** The piece kind on file `f` of a back rank: rook, knight, bishop, queen, king,
      bishop, knight, rook. */
  function BackRankKind(f: int): PieceType {
    match f
    case 0 => Rook
    case 1 => Knight
    case 2 => Bishop
    case 3 => Queen
    case 4 => King
    case 5 => Bishop
    case 6 => Knight
    case _ => Rook
  }

  function Row(p: Option<Piece>): seq<Option<Piece>> {
    [p, p, p, p, p, p, p, p]
  }

  /** The standard starting position (initializeGame). */
  function InitialGame(): (s: GameState)
    ensures Valid(s)
    ensures forall f :: 0 <= f < 8 ==> At(s.board, Coord(7, f)) == Some(Piece(BackRankKind(f), White))
    ensures forall f :: 0 <= f < 8 ==> At(s.board, Coord(0, f)) == Some(Piece(BackRankKind(f), Black))
    ensures forall f :: 0 <= f < 8 ==> At(s.board, Coord(6, f)) == Some(Piece(Pawn, White))
    ensures forall f :: 0 <= f < 8 ==> At(s.board, Coord(1, f)) == Some(Piece(Pawn, Black))
    ensures forall r, f :: 2 <= r < 6 && 0 <= f < 8 ==> At(s.board, Coord(r, f)) == None
    ensures s.turn == White && s.rights == CastlingRights(true, true, true, true)
    ensures s.enPassant == None && s.halfMoveClock == 0 && s.fullMoveNumber == 1 && s.lastMove == None
  {
    GameState(
      [BackRank(Black), Row(Some(Piece(Pawn, Black))), Row(None), Row(None),
       Row(None), Row(None), Row(Some(Piece(Pawn, White))), BackRank(White)],
      White, CastlingRights(true, true, true, true), None, 0, 1, None)
  }
}
