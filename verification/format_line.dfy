/** The evaluation text of the engine panel (`formatLine` in
    src/components/engine/engine-panel.tsx): "(eval) pv". Scores are integer
    centipawns, so `(score / 100).toFixed(2)` is the integer part and two
    fractional digits of |score| / 100. */
module EvalFormat {
  import opened ChessTypes
  import opened Decimal
  import opened Text
  import opened Engine

  /** The two digits of a number below 100, leading zero kept. */
  function TwoDigits(n: nat): (s: string)
    requires n < 100
    ensures |s| == 2 && AllDigits(s) && DigitsValue(s) == n
  {
    var high := [DigitChar(n / 10)];
    assert high[..0] == [];
    var s := high + [DigitChar(n % 10)];
    assert s[..1] == high;
    assert DigitsValue(high) == n / 10;
    assert DigitsValue(s) == DigitsValue(high) * 10 + n % 10;
    s
  }

  /** `(score / 100).toFixed(2)`. */
  function Fixed2(score: int): string {
    (if score < 0 then "-" else "") + NatString(Abs(score) / 100) + "." + TwoDigits(Abs(score) % 100)
  }

  /** The text in the parentheses: "#" and the mate count when there is one, else the
      score in pawns with two decimals and an explicit sign. */
  function EvalText(line: PvLine): (r: string)
    ensures line.mate.Some? ==> r == "#" + IntString(line.mate.value)
    ensures |r| > 0
    ensures line.mate.None? ==> r[0] == (if line.score < 0 then '-' else '+')
  {
    if line.mate.Some? then "#" + IntString(line.mate.value)
    else
      var t := Fixed2(line.score);
      if StartsWith(t, "-") then t else "+" + t
  }

  /** formatLine. */
  function FormatLine(line: PvLine): (r: string)
    ensures var e := EvalText(line);
      && |r| == |e| + 3 + |Join(line.pv, " ")|
      && r[0] == '(' && r[1..|e| + 1] == e && r[|e| + 1..|e| + 3] == ") "
      && r[|e| + 3..] == Join(line.pv, " ")
  {
    "(" + EvalText(line) + ") " + Join(line.pv, " ")
  }

  /** Centipawns from the pawn and hundredth parts, signed. */
  function Signed(negative: bool, pawns: nat, hundredths: nat): int {
    var magnitude := pawns * 100 + hundredths;
    if negative then -magnitude else magnitude
  }

  /** Reading a signed "pawns.cc" text back into centipawns. */
  function ReadCentipawns(t: string): Option<int> {
    if |t| >= 5 && (t[0] == '+' || t[0] == '-') && t[|t| - 3] == '.' then
      var pawns := t[1..|t| - 3];
      var hundredths := t[|t| - 2..];
      if AllDigits(pawns) && AllDigits(hundredths) then
        Some(Signed(t[0] == '-', DigitsValue(pawns), DigitsValue(hundredths)))
      else None
    else None
  }

  /** Where the parts of a sign, digits, a point and two digits lie. */
  lemma PawnsTextParts(sign: char, digits: string, frac: string)
    requires |frac| == 2
    ensures var t := [sign] + digits + "." + frac;
      && |t| == |digits| + 4 && t[0] == sign && t[|t| - 3] == '.'
      && t[1..|t| - 3] == digits && t[|t| - 2..] == frac
  {
    var t := [sign] + digits + "." + frac;
    assert forall i :: 0 <= i < |digits| ==> t[1..|t| - 3][i] == digits[i];
    assert forall i :: 0 <= i < 2 ==> t[|t| - 2..][i] == frac[i];
  }

  /** Reading a sign, digits, a point and two digits. */
  lemma ReadSignedPawns(t: string, digits: string, frac: string)
    requires |digits| >= 1 && |t| == |digits| + 4 && (t[0] == '+' || t[0] == '-') && t[|t| - 3] == '.'
    requires t[1..|t| - 3] == digits && t[|t| - 2..] == frac
    requires AllDigits(digits) && AllDigits(frac)
    ensures ReadCentipawns(t) == Some(Signed(t[0] == '-', DigitsValue(digits), DigitsValue(frac)))
  {
  }

  /** The centipawn text loses nothing: it reads back as the score. */
  lemma CentipawnsRoundTrip(line: PvLine)
    requires line.mate.None?
    ensures ReadCentipawns(EvalText(line)) == Some(line.score)
  {
    var a := Abs(line.score);
    var digits := NatString(a / 100);
    var frac := TwoDigits(a % 100);
    NatStringValue(a / 100);
    var sign := if line.score < 0 then '-' else '+';
    var t := [sign] + digits + "." + frac;
    assert EvalText(line) == t;
    PawnsTextParts(sign, digits, frac);
    ReadSignedPawns(t, digits, frac);
  }

  /** A mate count reads back from the text after "#". */
  lemma MateRoundTrip(line: PvLine)
    requires line.mate.Some?
    ensures var t := EvalText(line);
      var m := line.mate.value;
      && t[0] == '#'
      && (m < 0 <==> t[1] == '-')
      && (if m < 0 then AllDigits(t[2..]) && DigitsValue(t[2..]) == -m else AllDigits(t[1..]) && DigitsValue(t[1..]) == m)
  {
    var t := EvalText(line);
    IntStringRoundTrip(line.mate.value);
    assert t[1..] == IntString(line.mate.value);
    if line.mate.value < 0 {
      assert t[2..] == IntString(line.mate.value)[1..];
    }
  }

  /** With space-free moves, the pv can be split back out of the formatted text. */
  lemma PvReadsBack(line: PvLine)
    requires |line.pv| > 0 && forall i :: 0 <= i < |line.pv| ==> Token(line.pv[i])
    ensures Fields(FormatLine(line)[|EvalText(line)| + 3..]) == line.pv
  {
    FieldsOfJoin(line.pv);
  }
}
