/** Per-piece destination generators of the rules engine (getPawnMoves,
    getKnightMoves, getBishopMoves, getRookMoves, getQueenMoves, getSlidingMoves,
    getKingMoves), before the check filter. Destinations come in the source's order. */
module MoveGen {
  import opened ChessTypes
  import opened Attacks

  /** Offset destinations (knight, king without castling): on the board and not
      holding a piece of the mover's colour. */
  function StepMoves(b: Board, origin: Coord, offsets: seq<Offset>, color: Color): (r: seq<Coord>)
    ensures forall t :: t in r <==>
      exists i :: 0 <= i < |offsets| && t == Step(origin, offsets[i]) && OnBoard(t) && !OwnedBy(b, t, color)
    ensures forall t :: t in r ==> OnBoard(t)
    decreases |offsets|
  {
    if offsets == [] then []
    else
      var t := Step(origin, offsets[0]);
      var rest := StepMoves(b, origin, offsets[1..], color);
      assert forall i :: 1 <= i < |offsets| ==> offsets[i] == offsets[1..][i - 1];
      if OnBoard(t) && !OwnedBy(b, t, color) then [t] + rest else rest
  }

  /** One slider ray starting at `cur`: empty squares are destinations; the first
      occupied square ends the ray and is a destination only when it holds an
      opposing piece. */
  function Ray(b: Board, cur: Coord, d: Offset, color: Color): (r: seq<Coord>)
    requires IsUnit(d)
    ensures forall i :: 0 <= i < |r| ==> r[i] == Shift(cur, d, i) && OnBoard(r[i]) && !OwnedBy(b, r[i], color)
    ensures forall i :: 0 <= i < |r| - 1 ==> At(b, r[i]).None?
    decreases Reach(cur, d)
  {
    if !OnBoard(cur) then []
    else if At(b, cur).None? then
      ReachDecreases(cur, d);
      var rest := Ray(b, Step(cur, d), d, color);
      RayCons(b, cur, d, color, rest);
      [cur] + rest
    else if At(b, cur).value.color != color then [cur]
    else []
  }

  /** An empty square followed by the ray from the next square is the ray from that
      square. */
  lemma RayCons(b: Board, cur: Coord, d: Offset, color: Color, rest: seq<Coord>)
    requires IsUnit(d) && OnBoard(cur) && At(b, cur).None?
    requires forall i :: 0 <= i < |rest| ==>
      rest[i] == Shift(Step(cur, d), d, i) && OnBoard(rest[i]) && !OwnedBy(b, rest[i], color)
    requires forall i :: 0 <= i < |rest| - 1 ==> At(b, rest[i]).None?
    ensures var r := [cur] + rest;
      && (forall i :: 0 <= i < |r| ==> r[i] == Shift(cur, d, i) && OnBoard(r[i]) && !OwnedBy(b, r[i], color))
      && (forall i :: 0 <= i < |r| - 1 ==> At(b, r[i]).None?)
  {
    ShiftStep(cur, d);
    var r := [cur] + rest;
    assert forall i :: 1 <= i < |r| ==> r[i] == rest[i - 1];
  }

  /** Why a ray from `start` ends after `r`: its last square is occupied, or the next
      square is off the board or holds a piece of the mover's colour. */
  predicate RayStopped(b: Board, start: Coord, d: Offset, color: Color, r: seq<Coord>) {
    || (|r| > 0 && At(b, r[|r| - 1]).Some?)
    || !OnBoard(Shift(start, d, |r|))
    || OwnedBy(b, Shift(start, d, |r|), color)
  }

  lemma RayStoppedCons(b: Board, cur: Coord, d: Offset, color: Color, rest: seq<Coord>)
    requires IsUnit(d) && RayStopped(b, Step(cur, d), d, color, rest)
    ensures RayStopped(b, cur, d, color, [cur] + rest)
  {
    ShiftStep(cur, d);
    if |rest| > 0 {
      assert ([cur] + rest)[|rest|] == rest[|rest| - 1];
    }
  }

  lemma {:induction false} RayStops(b: Board, cur: Coord, d: Offset, color: Color)
    requires IsUnit(d)
    ensures RayStopped(b, cur, d, color, Ray(b, cur, d, color))
    decreases Reach(cur, d)
  {
    if OnBoard(cur) && At(b, cur).None? {
      ReachDecreases(cur, d);
      RayStops(b, Step(cur, d), d, color);
      var rest := Ray(b, Step(cur, d), d, color);
      assert Ray(b, cur, d, color) == [cur] + rest;
      RayStoppedCons(b, cur, d, color, rest);
    }
  }

  /** The attack ray without a final own piece. */
  function WithoutOwnBlocker(b: Board, a: seq<Coord>, color: Color): seq<Coord> {
    if |a| > 0 && OwnedBy(b, a[|a| - 1], color) then a[..|a| - 1] else a
  }

  /** Putting a square that is not the mover's in front commutes with leaving out a
      final own piece. */
  lemma DropOwnBlockerCons(b: Board, color: Color, x: Coord, a: seq<Coord>, m: seq<Coord>)
    requires !OwnedBy(b, x, color)
    requires m == WithoutOwnBlocker(b, a, color)
    ensures [x] + m == WithoutOwnBlocker(b, [x] + a, color)
  {
    if |a| > 0 {
      assert ([x] + a)[|a|] == a[|a| - 1];
      assert ([x] + a)[..|a|] == [x] + a[..|a| - 1];
    }
  }

  /** A movement ray is the attack ray with a final own piece left out: attack
      detection reuses the movement rules, ignoring whose piece blocks. */
  lemma {:induction false} RayIsAttackRayWithoutOwnBlocker(b: Board, cur: Coord, d: Offset, color: Color)
    requires IsUnit(d)
    ensures Ray(b, cur, d, color) == WithoutOwnBlocker(b, AttackRay(b, cur, d), color)
    decreases Reach(cur, d)
  {
    if OnBoard(cur) && At(b, cur).None? {
      ReachDecreases(cur, d);
      RayIsAttackRayWithoutOwnBlocker(b, Step(cur, d), d, color);
      var a := AttackRay(b, Step(cur, d), d);
      var m := Ray(b, Step(cur, d), d, color);
      assert AttackRay(b, cur, d) == [cur] + a;
      assert Ray(b, cur, d, color) == [cur] + m;
      DropOwnBlockerCons(b, color, cur, a, m);
    }
  }

  /** getSlidingMoves: the rays of every direction, one after the other. */
  function SlidingMoves(b: Board, origin: Coord, dirs: seq<Offset>, color: Color): (r: seq<Coord>)
    requires AllUnit(dirs)
    ensures forall t :: t in r ==> OnBoard(t) && !OwnedBy(b, t, color)
    ensures forall t :: t in r <==> exists i :: 0 <= i < |dirs| && t in Ray(b, Step(origin, dirs[i]), dirs[i], color)
    decreases |dirs|
  {
    if dirs == [] then []
    else
      var rest := SlidingMoves(b, origin, dirs[1..], color);
      assert forall i :: 1 <= i < |dirs| ==> dirs[i] == dirs[1..][i - 1];
      Ray(b, Step(origin, dirs[0]), dirs[0], color) + rest
  }

  function StartRank(color: Color): int {
    if color == White then 6 else 1
  }

  /** The pawn movement rules, stated square by square: one step forward onto an
      empty square; two steps from the start rank across two empty squares; one
      step diagonally forward onto an opposing piece or onto the en-passant square. */
  predicate PawnTarget(s: GameState, origin: Coord, color: Color, t: Coord) {
    var dir := PawnDirection(color);
    var ahead := Coord(origin.rank + dir, origin.file);
    || (t == ahead && OnBoard(t) && At(s.board, t).None?)
    || (t == Coord(origin.rank + 2 * dir, origin.file) && origin.rank == StartRank(color)
        && At(s.board, ahead).None? && At(s.board, t).None?)
    || (t.rank == origin.rank + dir && (t.file == origin.file - 1 || t.file == origin.file + 1) && OnBoard(t)
        && (OwnedBy(s.board, t, Opponent(color)) || s.enPassant == Some(t)))
  }

  /** One forward diagonal of a pawn: a capture of an opposing piece, then (pushed
      again) the en-passant square. */
  function PawnCaptures(s: GameState, origin: Coord, color: Color, df: int): (r: seq<Coord>)
  {
    var t := Coord(origin.rank + PawnDirection(color), origin.file + df);
    if OnBoard(t) then
      (if OwnedBy(s.board, t, Opponent(color)) then [t] else [])
      + (if s.enPassant == Some(t) then [t] else [])
    else []
  }

  /** getPawnMoves. */
  function PawnMoves(s: GameState, origin: Coord, color: Color): (r: seq<Coord>)
    requires OnBoard(origin)
    ensures forall t :: t in r <==> PawnTarget(s, origin, color, t)
    ensures forall t :: t in r ==> OnBoard(t)
  {
    var dir := PawnDirection(color);
    var ahead := Coord(origin.rank + dir, origin.file);
    var double := Coord(origin.rank + 2 * dir, origin.file);
    var forward :=
      if OnBoard(ahead) && At(s.board, ahead).None? then
        [ahead] + (if origin.rank == StartRank(color) && At(s.board, double).None? then [double] else [])
      else [];
    forward + PawnCaptures(s, origin, color, -1) + PawnCaptures(s, origin, color, 1)
  }

  function KingsideRight(rights: CastlingRights, color: Color): bool {
    if color == White then rights.wk else rights.bk
  }

  function QueensideRight(rights: CastlingRights, color: Color): bool {
    if color == White then rights.wq else rights.bq
  }

  function FileOffset(c: Coord, df: int): Coord {
    Coord(c.rank, c.file + df)
  }

  /** The castling rule as the engine applies it. King-side: the right is held, the
      king's square is not attacked, the two squares to its right are empty and not
      attacked. Queen-side: the right is held, the king's square is not attacked, the
      three squares to its left are empty and the two nearest are not attacked.
      Whether a rook stands on the corner is not consulted. */
  predicate CastlingAllowed(s: GameState, king: Coord, color: Color, side: CastleSide) {
    var b := s.board;
    && !UnderAttack(b, king, color)
    && (if side == KingSide then
          && KingsideRight(s.rights, color)
          && At(b, FileOffset(king, 1)).None? && At(b, FileOffset(king, 2)).None?
          && !UnderAttack(b, FileOffset(king, 1), color) && !UnderAttack(b, FileOffset(king, 2), color)
        else
          && QueensideRight(s.rights, color)
          && At(b, FileOffset(king, -1)).None? && At(b, FileOffset(king, -2)).None?
          && At(b, FileOffset(king, -3)).None?
          && !UnderAttack(b, FileOffset(king, -1), color) && !UnderAttack(b, FileOffset(king, -2), color))
  }

  /** The castling part of getKingMoves: nothing when the king is attacked, else the
      king-side then the queen-side destination where its conditions hold. */
  function CastlingMoves(s: GameState, king: Coord, color: Color): (r: seq<Coord>)
    ensures forall t :: t in r ==> t == FileOffset(king, 2) || t == FileOffset(king, -2)
    ensures FileOffset(king, 2) in r <==> CastlingAllowed(s, king, color, KingSide)
    ensures FileOffset(king, -2) in r <==> CastlingAllowed(s, king, color, QueenSide)
  {
    var b := s.board;
    if UnderAttack(b, king, color) then []
    else
      (if KingsideRight(s.rights, color)
          && At(b, FileOffset(king, 1)).None? && At(b, FileOffset(king, 2)).None?
          && !UnderAttack(b, FileOffset(king, 1), color) && !UnderAttack(b, FileOffset(king, 2), color)
       then [FileOffset(king, 2)] else [])
      + (if QueensideRight(s.rights, color)
          && At(b, FileOffset(king, -1)).None? && At(b, FileOffset(king, -2)).None?
          && At(b, FileOffset(king, -3)).None?
          && !UnderAttack(b, FileOffset(king, -1), color) && !UnderAttack(b, FileOffset(king, -2), color)
       then [FileOffset(king, -2)] else [])
  }

  /** getKingMoves: the eight neighbours, then castling. */
  function KingMoves(s: GameState, origin: Coord, color: Color): (r: seq<Coord>)
    requires OnBoard(origin)
    ensures forall t :: t in r ==> 0 <= t.rank < 8
    ensures forall t :: t in r <==>
      || (exists i :: 0 <= i < |KingOffsets| && t == Step(origin, KingOffsets[i]) && OnBoard(t) && !OwnedBy(s.board, t, color))
      || (t == FileOffset(origin, 2) && CastlingAllowed(s, origin, color, KingSide))
      || (t == FileOffset(origin, -2) && CastlingAllowed(s, origin, color, QueenSide))
  {
    var steps := StepMoves(s.board, origin, KingOffsets, color);
    var castles := CastlingMoves(s, origin, color);
    assert forall t :: t in steps + castles ==> t in steps || t in castles;
    steps + castles
  }

  /** The switch of getLegalMoves: the unfiltered destinations of `piece` on `origin`.
      All of them lie on a board rank; only castling can name a file off the board. */
  function PseudoMoves(s: GameState, origin: Coord, piece: Piece): (r: seq<Coord>)
    requires OnBoard(origin)
    ensures forall t :: t in r ==> 0 <= t.rank < 8
    ensures forall t :: t in r && piece.kind != King ==> OnBoard(t)
  {
    match piece.kind
    case Pawn => PawnMoves(s, origin, piece.color)
    case Knight => StepMoves(s.board, origin, KnightOffsets, piece.color)
    case Bishop => SlidingMoves(s.board, origin, BishopDirections, piece.color)
    case Rook => SlidingMoves(s.board, origin, RookDirections, piece.color)
    case Queen => SlidingMoves(s.board, origin, QueenDirections, piece.color)
    case King => KingMoves(s, origin, piece.color)
  }

  /** The movement rule square by square, before the check filter: pawns by
      PawnTarget, knights and kings by their offsets onto squares without an own
      piece, kings also by the castling rule, and bishops, rooks and queens along
      their movement rays. */
  predicate MoveTarget(s: GameState, origin: Coord, piece: Piece, t: Coord) {
    var b := s.board;
    match piece.kind
    case Pawn => PawnTarget(s, origin, piece.color, t)
    case Knight =>
      exists i :: 0 <= i < |KnightOffsets| && t == Step(origin, KnightOffsets[i]) && OnBoard(t) && !OwnedBy(b, t, piece.color)
    case King =>
      || (exists i :: 0 <= i < |KingOffsets| && t == Step(origin, KingOffsets[i]) && OnBoard(t) && !OwnedBy(b, t, piece.color))
      || (t == FileOffset(origin, 2) && CastlingAllowed(s, origin, piece.color, KingSide))
      || (t == FileOffset(origin, -2) && CastlingAllowed(s, origin, piece.color, QueenSide))
    case _ =>
      var dirs := SliderDirections(piece.kind);
      exists i :: 0 <= i < |dirs| && t in Ray(b, Step(origin, dirs[i]), dirs[i], piece.color)
  }

  /** The generators list exactly the squares the movement rule names. */
  lemma PseudoMovesMeans(s: GameState, origin: Coord, piece: Piece, t: Coord)
    requires OnBoard(origin)
    ensures t in PseudoMoves(s, origin, piece) <==> MoveTarget(s, origin, piece, t)
  {
    var r := PseudoMoves(s, origin, piece);
    match piece.kind
    case Pawn =>
    case Knight =>
    case King =>
    case _ =>
      var dirs := SliderDirections(piece.kind);
      assert r == SlidingMoves(s.board, origin, dirs, piece.color);
      assert t in r <==> exists i :: 0 <= i < |dirs| && t in Ray(s.board, Step(origin, dirs[i]), dirs[i], piece.color);
  }
}
