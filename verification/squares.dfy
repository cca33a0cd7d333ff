/** Conversion between algebraic square names ("e4") and the index pairs of the
    rules engine (squareToIndices / indicesToSquare). */
module Squares {
  import opened ChessTypes
  import opened Decimal

  /** The 64 names a1 .. h8. */
  predicate IsSquareName(s: string) {
    |s| == 2 && 'a' <= s[0] <= 'h' && '1' <= s[1] <= '8'
  }

  /** A character code that `String.fromCharCode` turns into a single character. */
  predicate IsCharCode(n: int) {
    0 <= n < 0xD800
  }

  /** indicesToSquare: the file letter counted from 'a', then the number 8 - rank. */
  function IndicesToSquare(rank: int, file: int): (s: string)
    requires IsCharCode(97 + file)
    ensures |s| >= 2 && s[0] as int == 97 + file
  {
    [(97 + file) as char] + IntString(8 - rank)
  }

  /** squareToIndices. The file is the first character's code minus 'a'; the rank
      is 8 minus the number `parseInt` reads from the second character alone. A
      name shorter than two characters, or whose second character is not a digit,
      yields NaN coordinates in the source: here `None`. */
  function SquareToIndices(s: string): (r: Option<Coord>)
    ensures r.Some? <==> |s| >= 2 && IsDigit(s[1])
    ensures r.Some? ==> r.value.file == s[0] as int - 97 && -1 <= r.value.rank <= 8
  {
    if |s| >= 2 && IsDigit(s[1]) then Some(Coord(8 - DigitValue(s[1]), s[0] as int - 97)) else None
  }

  lemma SquareNameRoundTrip(s: string)
    requires IsSquareName(s)
    ensures SquareToIndices(s).Some?
    ensures var c := SquareToIndices(s).value;
      OnBoard(c) && IndicesToSquare(c.rank, c.file) == s
  {
    var c := SquareToIndices(s).value;
    assert IntString(8 - c.rank) == [s[1]];
  }

  lemma IndicesRoundTrip(rank: int, file: int)
    requires OnBoard(Coord(rank, file))
    ensures IsSquareName(IndicesToSquare(rank, file))
    ensures SquareToIndices(IndicesToSquare(rank, file)) == Some(Coord(rank, file))
  {
    assert IntString(8 - rank) == [DigitChar(8 - rank)];
  }

  /** Distinct on-board squares get distinct names, so comparing names (as the
      source does for the en-passant square) is comparing coordinates. */
  lemma IndicesToSquareInjective(c: Coord, d: Coord)
    requires OnBoard(c) && OnBoard(d)
    requires IndicesToSquare(c.rank, c.file) == IndicesToSquare(d.rank, d.file)
    ensures c == d
  {
    IndicesRoundTrip(c.rank, c.file);
    IndicesRoundTrip(d.rank, d.file);
  }

  /** A two-character string that converts to an on-board square is one of the 64 names. */
  lemma OnlySquareNamesConvertOnBoard(s: string)
    requires |s| == 2 && SquareToIndices(s).Some? && OnBoard(SquareToIndices(s).value)
    ensures IsSquareName(s)
  {
  }
}
