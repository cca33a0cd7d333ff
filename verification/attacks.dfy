/** Attack detection of the rules engine: the squares each piece attacks
    (getAttackingMoves), whether a square is attacked (isSquareUnderAttack), and
    whether a side's king is attacked (isInCheck). */
module Attacks {
  import opened ChessTypes

  const KnightOffsets: seq<Offset> := [
    Offset(-2, -1), Offset(-2, 1), Offset(-1, -2), Offset(-1, 2),
    Offset(1, -2), Offset(1, 2), Offset(2, -1), Offset(2, 1)]

  /** The king's eight neighbours; also the queen's eight directions, in the same order. */
  const KingOffsets: seq<Offset> := [
    Offset(-1, -1), Offset(-1, 0), Offset(-1, 1), Offset(0, -1),
    Offset(0, 1), Offset(1, -1), Offset(1, 0), Offset(1, 1)]

  const BishopDirections: seq<Offset> := [Offset(-1, -1), Offset(-1, 1), Offset(1, -1), Offset(1, 1)]

  const RookDirections: seq<Offset> := [Offset(-1, 0), Offset(1, 0), Offset(0, -1), Offset(0, 1)]

  const QueenDirections: seq<Offset> := KingOffsets

  /** A slider direction: each coordinate moves by at most one, and not both by zero. */
  predicate IsUnit(d: Offset) {
    -1 <= d.dr <= 1 && -1 <= d.df <= 1 && (d.dr != 0 || d.df != 0)
  }

  predicate AllUnit(dirs: seq<Offset>) {
    forall i :: 0 <= i < |dirs| ==> IsUnit(dirs[i])
  }

  /** `k` steps of a unit coordinate change `x`. */
  function Scale(k: int, x: int): int {
    if x > 0 then k else if x < 0 then -k else 0
  }

  /** The square `k` steps from `c` in unit direction `d`. */
  function Shift(c: Coord, d: Offset, k: int): Coord {
    Coord(c.rank + Scale(k, d.dr), c.file + Scale(k, d.df))
  }

  function Span(x: int, dx: int): nat {
    if dx > 0 then (if x < 8 then 8 - x else 0)
    else if dx < 0 then (if x >= 0 then x + 1 else 0)
    else 0
  }

  /** How far a ray from `c` in direction `d` can still run before leaving the board. */
  function Reach(c: Coord, d: Offset): nat {
    Span(c.rank, d.dr) + Span(c.file, d.df)
  }

  /** Stepping once and then `k` more times is stepping `k + 1` times. */
  lemma ShiftStep(c: Coord, d: Offset)
    requires IsUnit(d)
    ensures forall k {:trigger Shift(Step(c, d), d, k)} :: Shift(Step(c, d), d, k) == Shift(c, d, k + 1)
  {
  }

  lemma ReachDecreases(c: Coord, d: Offset)
    requires OnBoard(c) && IsUnit(d)
    ensures Reach(Step(c, d), d) < Reach(c, d)
  {
  }

  /** The squares `offsets` lead to from `origin` that lie on the board, in offset order
      (pawn, knight and king attacks). */
  function OffsetReach(origin: Coord, offsets: seq<Offset>): (r: seq<Coord>)
    ensures forall t :: t in r <==> exists i :: 0 <= i < |offsets| && t == Step(origin, offsets[i]) && OnBoard(t)
    decreases |offsets|
  {
    if offsets == [] then []
    else
      var t := Step(origin, offsets[0]);
      var rest := OffsetReach(origin, offsets[1..]);
      assert forall i :: 1 <= i < |offsets| ==> offsets[i] == offsets[1..][i - 1];
      if OnBoard(t) then [t] + rest else rest
  }

  /** An attack ray: from `cur` onwards every square up to and including the first
      occupied one, whatever its colour. */
  function AttackRay(b: Board, cur: Coord, d: Offset): (r: seq<Coord>)
    requires IsUnit(d)
    ensures forall i :: 0 <= i < |r| ==> r[i] == Shift(cur, d, i) && OnBoard(r[i])
    ensures forall i :: 0 <= i < |r| - 1 ==> At(b, r[i]).None?
    ensures (|r| > 0 && At(b, r[|r| - 1]).Some?) || !OnBoard(Shift(cur, d, |r|))
    decreases Reach(cur, d)
  {
    if !OnBoard(cur) then []
    else if At(b, cur).Some? then [cur]
    else
      ReachDecreases(cur, d);
      var rest := AttackRay(b, Step(cur, d), d);
      AttackRayCons(b, cur, d, rest);
      [cur] + rest
  }

  /** An empty square followed by the attack ray from the next square is the attack ray
      from that square. */
  lemma AttackRayCons(b: Board, cur: Coord, d: Offset, rest: seq<Coord>)
    requires IsUnit(d) && OnBoard(cur) && At(b, cur).None?
    requires forall i :: 0 <= i < |rest| ==> rest[i] == Shift(Step(cur, d), d, i) && OnBoard(rest[i])
    requires forall i :: 0 <= i < |rest| - 1 ==> At(b, rest[i]).None?
    requires (|rest| > 0 && At(b, rest[|rest| - 1]).Some?) || !OnBoard(Shift(Step(cur, d), d, |rest|))
    ensures var r := [cur] + rest;
      && (forall i :: 0 <= i < |r| ==> r[i] == Shift(cur, d, i) && OnBoard(r[i]))
      && (forall i :: 0 <= i < |r| - 1 ==> At(b, r[i]).None?)
      && ((|r| > 0 && At(b, r[|r| - 1]).Some?) || !OnBoard(Shift(cur, d, |r|)))
  {
    var r := [cur] + rest;
    forall i | 0 <= i < |r|
      ensures r[i] == Shift(cur, d, i) && OnBoard(r[i])
    {
      if i > 0 {
        assert r[i] == rest[i - 1];
        ShiftStep(cur, d);
      }
    }
    forall i | 0 <= i < |r| - 1
      ensures At(b, r[i]).None?
    {
      if i > 0 {
        assert r[i] == rest[i - 1];
      }
    }
    ShiftStep(cur, d);
    assert Shift(Step(cur, d), d, |rest|) == Shift(cur, d, |r|);
  }

  function AttackRays(b: Board, origin: Coord, dirs: seq<Offset>): (r: seq<Coord>)
    requires AllUnit(dirs)
    ensures forall t :: t in r ==> OnBoard(t)
    ensures forall t :: t in r <==> exists i :: 0 <= i < |dirs| && t in AttackRay(b, Step(origin, dirs[i]), dirs[i])
    decreases |dirs|
  {
    if dirs == [] then []
    else
      var rest := AttackRays(b, origin, dirs[1..]);
      assert forall i :: 1 <= i < |dirs| ==> dirs[i] == dirs[1..][i - 1];
      AttackRay(b, Step(origin, dirs[0]), dirs[0]) + rest
  }

  function PawnDirection(color: Color): int {
    if color == White then -1 else 1
  }

  /** getAttackingMoves: the squares the piece on `origin` attacks. Pawns attack both
      forward diagonals; sliders stop at the first occupied square but include it. */
  function AttackedFrom(b: Board, origin: Coord, piece: Piece): (r: seq<Coord>)
    ensures forall t :: t in r ==> OnBoard(t)
  {
    match piece.kind
    case Pawn =>
      var dir := PawnDirection(piece.color);
      PawnReach(origin, dir);
      OffsetReach(origin, [Offset(dir, -1), Offset(dir, 1)])
    case Knight => OffsetReach(origin, KnightOffsets)
    case Bishop => AttackRays(b, origin, BishopDirections)
    case Rook => AttackRays(b, origin, RookDirections)
    case Queen => AttackRays(b, origin, QueenDirections)
    case King => OffsetReach(origin, KingOffsets)
  }

  /** The two forward diagonals of a pawn, where they are on the board. */
  lemma PawnReach(origin: Coord, dir: int)
    ensures forall t :: t in OffsetReach(origin, [Offset(dir, -1), Offset(dir, 1)]) <==>
      OnBoard(t) && t.rank == origin.rank + dir && (t.file == origin.file - 1 || t.file == origin.file + 1)
  {
    var left, right := Step(origin, Offset(dir, -1)), Step(origin, Offset(dir, 1));
    assert [Offset(dir, -1), Offset(dir, 1)][1..] == [Offset(dir, 1)];
    assert [Offset(dir, 1)][1..] == [];
    assert OffsetReach(origin, []) == [];
    var tail := OffsetReach(origin, [Offset(dir, 1)]);
    assert tail == if OnBoard(right) then [right] else [];
    assert OffsetReach(origin, [Offset(dir, -1), Offset(dir, 1)]) == (if OnBoard(left) then [left] + tail else tail);
  }

  /** The directions a bishop, rook or queen slides in. */
  function SliderDirections(kind: PieceType): (r: seq<Offset>)
    ensures AllUnit(r)
  {
    if kind == Bishop then BishopDirections else if kind == Rook then RookDirections else QueenDirections
  }

  /** The attack rule square by square: a pawn attacks the two squares diagonally
      forward, a knight or king the on-board squares one of its offsets leads to, and a
      bishop, rook or queen every square of its attack rays. */
  predicate AttackTarget(b: Board, origin: Coord, piece: Piece, t: Coord) {
    match piece.kind
    case Pawn =>
      OnBoard(t) && t.rank == origin.rank + PawnDirection(piece.color)
      && (t.file == origin.file - 1 || t.file == origin.file + 1)
    case Knight => exists i :: 0 <= i < |KnightOffsets| && t == Step(origin, KnightOffsets[i]) && OnBoard(t)
    case King => exists i :: 0 <= i < |KingOffsets| && t == Step(origin, KingOffsets[i]) && OnBoard(t)
    case _ =>
      var dirs := SliderDirections(piece.kind);
      exists i :: 0 <= i < |dirs| && t in AttackRay(b, Step(origin, dirs[i]), dirs[i])
  }

  /** getAttackingMoves lists exactly the squares the attack rule names. */
  lemma AttackedFromMeans(b: Board, origin: Coord, piece: Piece, t: Coord)
    ensures t in AttackedFrom(b, origin, piece) <==> AttackTarget(b, origin, piece, t)
  {
    var r := AttackedFrom(b, origin, piece);
    match piece.kind
    case Pawn =>
      PawnReach(origin, PawnDirection(piece.color));
    case Knight =>
      assert r == OffsetReach(origin, KnightOffsets);
    case King =>
      assert r == OffsetReach(origin, KingOffsets);
    case _ =>
      var dirs := SliderDirections(piece.kind);
      assert r == AttackRays(b, origin, dirs);
      assert t in r <==> exists i :: 0 <= i < |dirs| && t in AttackRay(b, Step(origin, dirs[i]), dirs[i]);
  }

  /** The piece on `from` belongs to the side opposing `defending` and attacks `target`. */
  predicate AttacksSquare(b: Board, from: Coord, target: Coord, defending: Color) {
    && At(b, from).Some?
    && At(b, from).value.color == Opponent(defending)
    && target in AttackedFrom(b, from, At(b, from).value)
  }

  /** isSquareUnderAttack: some piece of the side opposing `defending` attacks `target`.
      Only the board of the state is consulted. */
  predicate UnderAttack(b: Board, target: Coord, defending: Color) {
    exists r, f | 0 <= r < 8 && 0 <= f < 8 :: AttacksSquare(b, Coord(r, f), target, defending)
  }

  /** A square off the board is never attacked: every attacked square is on the board. */
  lemma OffBoardNeverAttacked(b: Board, target: Coord, defending: Color)
    requires !OnBoard(target)
    ensures !UnderAttack(b, target, defending)
  {
  }

  /** The square with row-major index `i` (0 is a8's index pair (0,0), 63 is (7,7)). */
  function SquareAt(i: int): Coord {
    Coord(i / 8, i % 8)
  }

  function Index(c: Coord): int {
    8 * c.rank + c.file
  }

  lemma SquareAtIndex(c: Coord)
    requires OnBoard(c)
    ensures 0 <= Index(c) < 64 && SquareAt(Index(c)) == c
  {
  }

  predicate IsKingOf(b: Board, c: Coord, color: Color) {
    At(b, c) == Some(Piece(King, color))
  }

  /** The first king of `color` at row-major index `i` or later, scanning as isInCheck does. */
  function FindKingFrom(b: Board, color: Color, i: nat): (r: Option<Coord>)
    requires i <= 64
    ensures r.Some? ==> OnBoard(r.value) && IsKingOf(b, r.value, color) && i <= Index(r.value)
    ensures r.Some? ==> forall k :: i <= k < Index(r.value) ==> !IsKingOf(b, SquareAt(k), color)
    ensures r.None? ==> forall k :: i <= k < 64 ==> !IsKingOf(b, SquareAt(k), color)
    decreases 64 - i
  {
    if i == 64 then None
    else if IsKingOf(b, SquareAt(i), color) then Some(SquareAt(i))
    else FindKingFrom(b, color, i + 1)
  }

  function FindKing(b: Board, color: Color): Option<Coord> {
    FindKingFrom(b, color, 0)
  }

  /** isInCheck: the first king of `color` in row-major order is attacked; false when
      `color` has no king on the board. */
  predicate IsInCheck(s: GameState, color: Color) {
    match FindKing(s.board, color)
    case None => false
    case Some(k) => UnderAttack(s.board, k, color)
  }

  /** With exactly one king of `color` on the board, being in check is that king's
      square being attacked; with none, there is no check. */
  lemma InCheckIffKingAttacked(s: GameState, color: Color, k: Coord)
    requires OnBoard(k) && IsKingOf(s.board, k, color)
    requires forall c :: OnBoard(c) && c != k ==> !IsKingOf(s.board, c, color)
    ensures IsInCheck(s, color) <==> UnderAttack(s.board, k, color)
  {
    SquareAtIndex(k);
  }

  lemma NoKingNoCheck(s: GameState, color: Color)
    requires forall c :: OnBoard(c) ==> !IsKingOf(s.board, c, color)
    ensures !IsInCheck(s, color)
  {
  }
}
