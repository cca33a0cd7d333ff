/** getLegalMoves with its check filter (wouldBeInCheck), and the game-over tests
    isCheckmate / isStalemate. */
module Legal {
  import opened ChessTypes
  import opened Attacks
  import opened MoveGen
  import opened Apply

  predicate RankOnBoard(c: Coord) {
    0 <= c.rank < 8
  }

  /** wouldBeInCheck: after trying the move (promotion left to its default), the side
      that moved has its king attacked. */
  predicate WouldBeInCheck(s: GameState, from: Coord, to: Coord)
    requires Valid(s) && RankOnBoard(from) && RankOnBoard(to)
  {
    IsInCheck(MakeMove(s, from, to, None), s.turn)
  }

  /** The `filter` of getLegalMoves: the destinations, in order, whose trial move does
      not leave the mover in check. */
  function KeepSafe(s: GameState, from: Coord, tos: seq<Coord>): (r: seq<Coord>)
    requires Valid(s) && RankOnBoard(from)
    requires forall t :: t in tos ==> RankOnBoard(t)
    ensures |r| <= |tos|
    ensures forall t :: t in r <==> t in tos && !WouldBeInCheck(s, from, t)
    decreases |tos|
  {
    if tos == [] then []
    else
      var rest := KeepSafe(s, from, tos[1..]);
      if WouldBeInCheck(s, from, tos[0]) then rest else [tos[0]] + rest
  }

  /** The piece on `sq` belongs to the side to move. */
  predicate MoverOn(s: GameState, sq: Coord) {
    At(s.board, sq).Some? && At(s.board, sq).value.color == s.turn
  }

  /** getLegalMoves: nothing for an empty square or a piece of the side not to move;
      otherwise the piece's destinations that do not leave its own king attacked. */
  function LegalMoves(s: GameState, sq: Coord): (r: seq<Coord>)
    requires Valid(s) && RankOnBoard(sq)
    ensures !MoverOn(s, sq) ==> r == []
    ensures forall t :: t in r ==> RankOnBoard(t)
    ensures forall t :: t in r <==>
      MoverOn(s, sq) && t in PseudoMoves(s, sq, At(s.board, sq).value) && !WouldBeInCheck(s, sq, t)
    ensures forall t :: t in r ==> !IsInCheck(MakeMove(s, sq, t, None), s.turn)
  {
    if !MoverOn(s, sq) then []
    else
      var piece := At(s.board, sq).value;
      KeepSafe(s, sq, PseudoMoves(s, sq, piece))
  }

  /** Knights, bishops, rooks, queens and kings never land on a piece of their own
      colour, castling included. */
  lemma {:induction false} NonPawnsNeverTakeOwnPiece(s: GameState, sq: Coord, t: Coord)
    requires Valid(s) && RankOnBoard(sq)
    requires t in LegalMoves(s, sq)
    requires At(s.board, sq).value.kind != Pawn
    ensures !OwnedBy(s.board, t, s.turn)
  {
    var piece := At(s.board, sq).value;
    if piece.kind == King {
      var steps := StepMoves(s.board, sq, KingOffsets, piece.color);
      if t !in steps {
        assert t in CastlingMoves(s, sq, piece.color);
      }
    }
  }

  /** A pawn's legal destinations obey the pawn movement rules. */
  lemma PawnMovesFollowRules(s: GameState, sq: Coord, t: Coord)
    requires Valid(s) && RankOnBoard(sq)
    requires t in LegalMoves(s, sq)
    requires At(s.board, sq).value.kind == Pawn
    ensures PawnTarget(s, sq, s.turn, t)
  {
  }

  /** A king step changes the file by at most one. */
  lemma KingStepsAdjacent(b: Board, sq: Coord, color: Color)
    ensures forall t :: t in StepMoves(b, sq, KingOffsets, color) ==> sq.file - 1 <= t.file <= sq.file + 1
  {
    forall t | t in StepMoves(b, sq, KingOffsets, color)
      ensures sq.file - 1 <= t.file <= sq.file + 1
    {
      var i :| 0 <= i < |KingOffsets| && t == Step(sq, KingOffsets[i]);
      assert -1 <= KingOffsets[i].df <= 1;
    }
  }

  /** A king destination two files away cannot be a neighbour, so it is a castling one. */
  lemma TwoFileKingMoveIsCastling(s: GameState, sq: Coord, color: Color, t: Coord)
    requires OnBoard(sq) && t in KingMoves(s, sq, color)
    requires t.file == sq.file + 2 || t.file == sq.file - 2
    ensures t in CastlingMoves(s, sq, color)
  {
    KingStepsAdjacent(s.board, sq, color);
    assert t !in StepMoves(s.board, sq, KingOffsets, color);
  }

  /** A king's legal destination two files away is a castling the rule allows. */
  lemma CastlingOnlyWhenAllowed(s: GameState, sq: Coord, t: Coord)
    requires Valid(s) && RankOnBoard(sq)
    requires t in LegalMoves(s, sq)
    requires At(s.board, sq).value.kind == King
    requires t.file == sq.file + 2 || t.file == sq.file - 2
    ensures t.rank == sq.rank
    ensures t.file == sq.file + 2 ==> CastlingAllowed(s, sq, s.turn, KingSide)
    ensures t.file == sq.file - 2 ==> CastlingAllowed(s, sq, s.turn, QueenSide)
  {
    assert t in KingMoves(s, sq, s.turn);
    TwoFileKingMoveIsCastling(s, sq, s.turn, t);
  }

  /** The piece on `c` belongs to the side to move and has a legal destination. */
  predicate HasMovesAt(s: GameState, c: Coord)
    requires Valid(s)
  {
    OnBoard(c) && MoverOn(s, c) && |LegalMoves(s, c)| > 0
  }

  /** A scan of the indices `i` to `n - 1` for one satisfying `P`. */
  function AnyIndex(P: nat -> bool, i: nat, n: nat): (r: bool)
    requires i <= n
    ensures r <==> exists k :: i <= k < n && P(k)
    decreases n - i
  {
    if i == n then false else P(i) || AnyIndex(P, i + 1, n)
  }

  /** The scan of isCheckmate / isStalemate from row-major index `i` on: does some piece
      of the side to move have a legal destination? */
  function AnyLegalMoveFrom(s: GameState, i: nat): (r: bool)
    requires Valid(s) && i <= 64
    ensures r <==> exists k :: i <= k < 64 && HasMovesAt(s, SquareAt(k))
  {
    var p := (k: nat) => Valid(s) && HasMovesAt(s, SquareAt(k));
    assert forall k: nat :: p(k) == HasMovesAt(s, SquareAt(k));
    AnyIndex(p, i, 64)
  }

  /** isCheckmate. */
  predicate IsCheckmate(s: GameState)
    requires Valid(s)
  {
    IsInCheck(s, s.turn) && !AnyLegalMoveFrom(s, 0)
  }

  /** isStalemate. */
  predicate IsStalemate(s: GameState)
    requires Valid(s)
  {
    !IsInCheck(s, s.turn) && !AnyLegalMoveFrom(s, 0)
  }

  /** No square of the board offers the side to move a legal destination. */
  ghost predicate NoLegalMoves(s: GameState)
    requires Valid(s)
  {
    forall c :: OnBoard(c) ==> LegalMoves(s, c) == []
  }

  lemma {:induction false} NoMovesIffScanFails(s: GameState)
    requires Valid(s)
    ensures NoLegalMoves(s) <==> !AnyLegalMoveFrom(s, 0)
  {
    if !AnyLegalMoveFrom(s, 0) {
      forall c | OnBoard(c)
        ensures LegalMoves(s, c) == []
      {
        SquareAtIndex(c);
        assert !HasMovesAt(s, SquareAt(Index(c)));
      }
    } else {
      var k :| 0 <= k < 64 && HasMovesAt(s, SquareAt(k));
      assert LegalMoves(s, SquareAt(k)) != [];
    }
  }

  /** Checkmate: the side to move is in check and no piece of it can move. */
  lemma CheckmateMeans(s: GameState)
    requires Valid(s)
    ensures IsCheckmate(s) <==> IsInCheck(s, s.turn) && NoLegalMoves(s)
  {
    NoMovesIffScanFails(s);
  }

  /** Stalemate: the side to move is not in check and no piece of it can move. */
  lemma StalemateMeans(s: GameState)
    requires Valid(s)
    ensures IsStalemate(s) <==> !IsInCheck(s, s.turn) && NoLegalMoves(s)
  {
    NoMovesIffScanFails(s);
  }

  /** A position is never both checkmate and stalemate, and either one means no legal move. */
  lemma GameOverExclusive(s: GameState)
    requires Valid(s)
    ensures !(IsCheckmate(s) && IsStalemate(s))
    ensures IsCheckmate(s) || IsStalemate(s) ==> forall c :: OnBoard(c) ==> LegalMoves(s, c) == []
  {
    NoMovesIffScanFails(s);
  }
}
