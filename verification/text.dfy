/** The JavaScript string operations the engine adapter and the evaluation panel rely
    on: `trim`, `split(/\s+/)`, `join(" ")`, and first-match semantics of the simple
    regular expressions `key (\d+)`, `key (-?\d+)` and `key (.+)`. Characters are
    UTF-16 code units of the Basic Multilingual Plane. */
module Text {
  import opened ChessTypes
  import opened Decimal

  /** Line terminators: what `.` in a regular expression does not match. */
  predicate IsLineTerminator(c: char) {
    c == '\n' || c == '\r' || c == '\U{2028}' || c == '\U{2029}'
  }

  /** White space and line terminators: what `\s` matches and `trim` removes. */
  predicate IsSpace(c: char) {
    var n := c as int;
    || n == 0x09 || n == 0x0A || n == 0x0B || n == 0x0C || n == 0x0D || n == 0x20
    || n == 0xA0 || n == 0x1680 || (0x2000 <= n <= 0x200A) || n == 0x2028 || n == 0x2029
    || n == 0x202F || n == 0x205F || n == 0x3000 || n == 0xFEFF
  }

  predicate NotSpace(c: char) {
    !IsSpace(c)
  }

  predicate NoSpace(s: string) {
    forall i :: 0 <= i < |s| ==> !IsSpace(s[i])
  }

  predicate AllSpace(s: string) {
    forall i :: 0 <= i < |s| ==> IsSpace(s[i])
  }

  /** Length of the run of characters satisfying `P` that starts at `i`. */
  function Run(s: string, i: nat, P: char -> bool): (n: nat)
    requires i <= |s|
    ensures i + n <= |s|
    ensures forall k :: i <= k < i + n ==> P(s[k])
    ensures i + n == |s| || !P(s[i + n])
    decreases |s| - i
  {
    if i == |s| || !P(s[i]) then 0 else 1 + Run(s, i + 1, P)
  }

  /** A run is exactly as long as the characters satisfying `P` before the first that does not. */
  lemma {:induction false} RunExact(s: string, i: nat, n: nat, P: char -> bool)
    requires i + n <= |s|
    requires forall k :: i <= k < i + n ==> P(s[k])
    requires i + n == |s| || !P(s[i + n])
    ensures Run(s, i, P) == n
    decreases n
  {
    if n > 0 {
      RunExact(s, i + 1, n - 1, P);
    }
  }

  function LeadingSpaces(s: string): nat
    ensures LeadingSpaces(s) <= |s|
  {
    Run(s, 0, IsSpace)
  }

  /** Length of the run of white space that ends `s`. */
  function TrailingSpaces(s: string): (n: nat)
    ensures n <= |s|
    ensures forall k :: |s| - n <= k < |s| ==> IsSpace(s[k])
    ensures n == |s| || !IsSpace(s[|s| - n - 1])
    decreases |s|
  {
    if s == [] || !IsSpace(s[|s| - 1]) then 0 else 1 + TrailingSpaces(s[..|s| - 1])
  }

  /** `s.trim()`. */
  function Trim(s: string): (r: string)
    ensures r == [] || (!IsSpace(r[0]) && !IsSpace(r[|r| - 1]))
    ensures exists i, j :: 0 <= i <= j <= |s| && r == s[i..j]
                        && (forall k :: 0 <= k < i ==> IsSpace(s[k]))
                        && (forall k :: j <= k < |s| ==> IsSpace(s[k]))
  {
    var t := s[LeadingSpaces(s)..];
    var r := t[..|t| - TrailingSpaces(t)];
    assert r == s[LeadingSpaces(s)..|s| - TrailingSpaces(t)];
    r
  }

  /** `s.split(/\s+/)`: the pieces between maximal runs of white space. A leading or
      trailing run yields an empty first or last piece; the empty string yields one
      empty piece. */
  function Fields(s: string): (r: seq<string>)
    ensures |r| >= 1
    ensures forall k :: 0 <= k < |r| ==> NoSpace(r[k])
    decreases |s|
  {
    var i := Run(s, 0, NotSpace);
    if i == |s| then [s]
    else
      var gap := Run(s, i, IsSpace);
      [s[..i]] + Fields(s[i + gap..])
  }

  /** The characters of `s` that are not white space, in order. */
  function DropSpaces(s: string): string
    decreases |s|
  {
    if s == [] then [] else (if IsSpace(s[0]) then [] else [s[0]]) + DropSpaces(s[1..])
  }

  /** The pieces one after the other. */
  function Concat(ws: seq<string>): string
    decreases |ws|
  {
    if ws == [] then [] else ws[0] + Concat(ws[1..])
  }

  lemma {:induction false} DropSpacesAppend(a: string, b: string)
    ensures DropSpaces(a + b) == DropSpaces(a) + DropSpaces(b)
    decreases |a|
  {
    if a == [] {
      assert a + b == b;
    } else {
      assert (a + b)[0] == a[0];
      assert (a + b)[1..] == a[1..] + b;
      DropSpacesAppend(a[1..], b);
    }
  }

  lemma {:induction false} DropSpacesOfRun(s: string)
    ensures NoSpace(s) ==> DropSpaces(s) == s
    ensures AllSpace(s) ==> DropSpaces(s) == []
    decreases |s|
  {
    if s != [] {
      DropSpacesOfRun(s[1..]);
      assert s == [s[0]] + s[1..];
    }
  }

  /** One step of the split: the leading run of non-white-space characters, then a
      non-empty run of white space, then the split of what follows. */
  lemma FieldsStep(s: string, i: nat, gap: nat)
    requires i == Run(s, 0, NotSpace) && i < |s| && gap == Run(s, i, IsSpace)
    ensures gap > 0 && i + gap <= |s|
    ensures Fields(s) == [s[..i]] + Fields(s[i + gap..])
    ensures i + gap == |s| || !IsSpace(s[i + gap..][0])
  {
    GapPositive(s, i, gap);
    FieldsUnfold(s, i, gap);
    GapEnds(s, i, gap);
  }

  lemma GapPositive(s: string, i: nat, gap: nat)
    requires i == Run(s, 0, NotSpace) && i < |s| && gap == Run(s, i, IsSpace)
    ensures gap > 0 && i + gap <= |s|
  {
  }

  lemma FieldsUnfold(s: string, i: nat, gap: nat)
    requires i == Run(s, 0, NotSpace) && i < |s| && gap == Run(s, i, IsSpace)
    ensures Fields(s) == [s[..i]] + Fields(s[i + gap..])
  {
  }

  lemma GapEnds(s: string, i: nat, gap: nat)
    requires i <= |s| && gap == Run(s, i, IsSpace)
    ensures i + gap == |s| || !IsSpace(s[i + gap..][0])
  {
  }

  lemma SplitThree(s: string, i: nat, j: nat)
    requires i <= j <= |s|
    ensures s == s[..i] + s[i..j] + s[j..]
  {
  }

  /** The leading run of a step holds no white space. */
  lemma LeadingRunNoSpace(s: string, i: nat)
    requires i == Run(s, 0, NotSpace)
    ensures NoSpace(s[..i])
  {
    forall k | 0 <= k < i
      ensures !IsSpace(s[..i][k])
    {
      assert s[..i][k] == s[k] && NotSpace(s[k]);
    }
  }

  /** The gap of a step is all white space. */
  lemma GapAllSpace(s: string, i: nat, gap: nat)
    requires i <= |s| && gap == Run(s, i, IsSpace)
    ensures AllSpace(s[i..i + gap])
  {
    var spaces := s[i..i + gap];
    forall k | 0 <= k < |spaces|
      ensures IsSpace(spaces[k])
    {
      assert spaces[k] == s[i + k];
    }
  }

  /** Dropping white space across one step of the split keeps the leading run whole. */
  lemma DropSpacesStep(s: string, i: nat, gap: nat)
    requires i == Run(s, 0, NotSpace) && i < |s| && gap == Run(s, i, IsSpace)
    ensures DropSpaces(s) == s[..i] + DropSpaces(s[i + gap..])
  {
    var head, spaces, rest := s[..i], s[i..i + gap], s[i + gap..];
    SplitThree(s, i, i + gap);
    DropSpacesAppend(head + spaces, rest);
    DropSpacesAppend(head, spaces);
    LeadingRunNoSpace(s, i);
    DropSpacesOfRun(head);
    GapAllSpace(s, i, gap);
    DropSpacesOfRun(spaces);
  }

  /** Splitting loses only white space: the pieces, put back together, are the
      characters of `s` that are not white space. */
  lemma {:induction false} FieldsKeepText(s: string)
    ensures Concat(Fields(s)) == DropSpaces(s)
    decreases |s|
  {
    var i := Run(s, 0, NotSpace);
    if i == |s| {
      assert s[..i] == s;
      DropSpacesOfRun(s);
      assert Concat([s]) == s + Concat([]);
    } else {
      var gap := Run(s, i, IsSpace);
      FieldsStep(s, i, gap);
      DropSpacesStep(s, i, gap);
      var rest := s[i + gap..];
      FieldsKeepText(rest);
      var r := [s[..i]] + Fields(rest);
      assert r[1..] == Fields(rest);
      assert Concat(r) == s[..i] + Concat(Fields(rest));
    }
  }

  /** Only the first and the last piece can be empty: every piece in between is a
      whole run of non-white-space characters. */
  lemma {:induction false} FieldsInnerPiecesNonEmpty(s: string)
    ensures forall k :: 1 <= k < |Fields(s)| - 1 ==> |Fields(s)[k]| > 0
    decreases |s|
  {
    var i := Run(s, 0, NotSpace);
    if i == |s| {
      assert |Fields(s)| == 1;
    } else {
      var gap := Run(s, i, IsSpace);
      FieldsStep(s, i, gap);
      var rest := s[i + gap..];
      FieldsInnerPiecesNonEmpty(rest);
      PrependInnerNonEmpty(s[..i], rest);
    }
  }

  /** Putting a piece in front of the split of text that starts with a non-white-space
      character (or is empty) keeps every inner piece non-empty. */
  lemma PrependInnerNonEmpty(head: string, rest: string)
    requires rest == [] || !IsSpace(rest[0])
    requires forall k :: 1 <= k < |Fields(rest)| - 1 ==> |Fields(rest)[k]| > 0
    ensures var r := [head] + Fields(rest); forall k :: 1 <= k < |r| - 1 ==> |r[k]| > 0
  {
    var f := Fields(rest);
    var r := [head] + f;
    if rest == [] {
      assert |f| == 1;
    } else {
      FirstFieldNonEmpty(rest);
      forall k | 1 <= k < |r| - 1
        ensures |r[k]| > 0
      {
        assert r[k] == f[k - 1];
      }
    }
  }

  /** Text that starts with a non-white-space character starts with a non-empty piece. */
  lemma FirstFieldNonEmpty(t: string)
    requires |t| > 0 && !IsSpace(t[0])
    ensures |Fields(t)[0]| > 0
  {
    var i := Run(t, 0, NotSpace);
    assert i > 0;
    if i < |t| {
      FieldsUnfold(t, i, Run(t, i, IsSpace));
    }
  }

  /** `words.join(sep)`. */
  function Join(words: seq<string>, sep: string): string
    decreases |words|
  {
    if words == [] then ""
    else if |words| == 1 then words[0]
    else words[0] + sep + Join(words[1..], sep)
  }

  predicate Token(w: string) {
    |w| > 0 && NoSpace(w)
  }

  lemma JoinStartsWithFirst(words: seq<string>)
    requires |words| > 0 && Token(words[0])
    ensures var j := Join(words, " "); |j| > 0 && j[0] == words[0][0]
  {
  }

  /** The first token of a space-joined list, then one space, then the rest joined. */
  lemma JoinedHead(words: seq<string>)
    requires |words| > 1
    requires forall k :: 0 <= k < |words| ==> Token(words[k])
    ensures var s := Join(words, " "); var w := words[0];
      && Run(s, 0, NotSpace) == |w| && Run(s, |w|, IsSpace) == 1
      && s[..|w|] == w && s[|w| + 1..] == Join(words[1..], " ")
  {
    var w := words[0];
    var rest := Join(words[1..], " ");
    var s := Join(words, " ");
    assert s == w + " " + rest;
    JoinStartsWithFirst(words[1..]);
    assert forall k :: 0 <= k < |w| ==> s[k] == w[k];
    RunExact(s, 0, |w|, NotSpace);
    RunExact(s, |w|, 1, IsSpace);
  }

  /** Splitting the space-joined tokens gives the tokens back. */
  lemma {:induction false} FieldsOfJoin(words: seq<string>)
    requires |words| > 0
    requires forall k :: 0 <= k < |words| ==> Token(words[k])
    ensures Fields(Join(words, " ")) == words
    decreases |words|
  {
    var s := Join(words, " ");
    if |words| == 1 {
      assert s == words[0];
      RunExact(s, 0, |s|, NotSpace);
    } else {
      JoinedHead(words);
      FieldsOfJoin(words[1..]);
      assert Fields(s) == [words[0]] + words[1..];
    }
  }

  /** The text around the capture group of a pattern `key (group)`. */
  datatype Group = Digits | SignedDigits | RestOfLine

  /** A pattern: one of the keys, tried in order, immediately followed by the group. */
  datatype Pattern = Pattern(keys: seq<string>, group: Group)

  /** The first match of a pattern: where it starts, which key matched, and the group. */
  datatype Match = Match(at: nat, key: string, text: string)

  predicate HasAt(s: string, i: nat, key: string) {
    i + |key| <= |s| && s[i..i + |key|] == key
  }

  /** Length of the greedy group starting at `j`; 0 when the group cannot match there.
      For `-?\d+`, a minus sign not followed by a digit is given back and the digits
      then fail on it. */
  function GroupLength(g: Group, s: string, j: nat): (n: nat)
    requires j <= |s|
    ensures j + n <= |s|
  {
    match g
    case Digits => Run(s, j, IsDigit)
    case SignedDigits =>
      if j < |s| && s[j] == '-' && Run(s, j + 1, IsDigit) > 0 then 1 + Run(s, j + 1, IsDigit)
      else Run(s, j, IsDigit)
    case RestOfLine => Run(s, j, c => !IsLineTerminator(c))
  }

  /** The text the greedy group takes from `j`. */
  function GroupText(g: Group, s: string, j: nat): string
    requires j <= |s|
  {
    s[j..j + GroupLength(g, s, j)]
  }

  /** `key` occurs at `i` and the group matches right after it. */
  predicate KeyMatches(p: Pattern, s: string, i: nat, key: string) {
    HasAt(s, i, key) && GroupLength(p.group, s, i + |key|) > 0
  }

  /** `m` is a match of the pattern in `s`: one of the keys at `m.at`, then the longest
      run of the group, which is not empty. */
  predicate Matched(p: Pattern, s: string, m: Match) {
    && m.key in p.keys && KeyMatches(p, s, m.at, m.key)
    && var j := m.at + |m.key|;
       m.text == GroupText(p.group, s, j)
  }

  /** The match of the pattern starting exactly at `i`, trying the keys from the `k`-th on. */
  function MatchAt(p: Pattern, s: string, i: nat, k: nat): (r: Option<Match>)
    requires k <= |p.keys|
    ensures r.Some? ==> r.value.at == i && Matched(p, s, r.value)
    ensures r.None? ==> forall q :: k <= q < |p.keys| ==> !KeyMatches(p, s, i, p.keys[q])
    decreases |p.keys| - k
  {
    if k == |p.keys| then None
    else
      var key := p.keys[k];
      if KeyMatches(p, s, i, key) then
        assert key in p.keys;
        Some(Match(i, key, GroupText(p.group, s, i + |key|)))
      else MatchAt(p, s, i, k + 1)
  }

  function MatchesAt(p: Pattern, s: string, i: nat): Option<Match> {
    MatchAt(p, s, i, 0)
  }

  /** `s.match(re)` searching from `i`: the match at the leftmost position where the
      pattern matches. */
  function Search(p: Pattern, s: string, i: nat): (r: Option<Match>)
    requires i <= |s| + 1
    ensures r.Some? ==> i <= r.value.at <= |s| && MatchesAt(p, s, r.value.at) == r
    ensures r.Some? ==> forall j :: i <= j < r.value.at ==> MatchesAt(p, s, j).None?
    ensures r.None? ==> forall j :: i <= j <= |s| ==> MatchesAt(p, s, j).None?
    decreases |s| + 1 - i
  {
    if i == |s| + 1 then None
    else
      var here := MatchesAt(p, s, i);
      if here.Some? then here else Search(p, s, i + 1)
  }

  /** `s.match(re)`. */
  function FirstMatch(p: Pattern, s: string): (r: Option<Match>)
    ensures r.Some? ==> r.value.at <= |s| && Matched(p, s, r.value)
    ensures r.Some? ==> forall j :: 0 <= j < r.value.at ==> MatchesAt(p, s, j).None?
    ensures r.None? ==> forall j :: 0 <= j <= |s| ==> MatchesAt(p, s, j).None?
  {
    Search(p, s, 0)
  }

  /** No match anywhere means no key of the pattern is followed by its group anywhere. */
  lemma NoMatchMeansAbsent(p: Pattern, s: string, m: Match)
    requires FirstMatch(p, s).None?
    ensures !Matched(p, s, m)
  {
    if m.key in p.keys && HasAt(s, m.at, m.key) {
      var q :| 0 <= q < |p.keys| && p.keys[q] == m.key;
      assert MatchesAt(p, s, m.at).None?;
      assert !KeyMatches(p, s, m.at, p.keys[q]);
    }
  }

  /** A run of ASCII digits, optionally after a minus sign. */
  predicate SignedText(t: string) {
    |t| > 0 && if t[0] == '-' then |t| > 1 && AllDigits(t[1..]) else AllDigits(t)
  }

  /** `Number(t)` for such a run. */
  function SignedValue(t: string): int
    requires SignedText(t)
  {
    if t[0] == '-' then -(DigitsValue(t[1..]) as int) else DigitsValue(t)
  }

  /** A `(\d+)` group is a non-empty run of digits. */
  lemma DigitsGroup(p: Pattern, s: string, m: Match)
    requires p.group == Digits && Matched(p, s, m)
    ensures |m.text| > 0 && AllDigits(m.text)
  {
  }

  /** A `(-?\d+)` group is a non-empty run of digits, possibly after one minus sign. */
  lemma SignedGroup(p: Pattern, s: string, m: Match)
    requires p.group == SignedDigits && Matched(p, s, m)
    ensures SignedText(m.text)
  {
    var j := m.at + |m.key|;
    if j < |s| && s[j] == '-' && Run(s, j + 1, IsDigit) > 0 {
      assert m.text[1..] == s[j + 1..j + 1 + Run(s, j + 1, IsDigit)];
    }
  }

  /** A `(.+)` group is the non-empty rest of the line. */
  lemma RestGroup(p: Pattern, s: string, m: Match)
    requires p.group == RestOfLine && Matched(p, s, m)
    ensures |m.text| > 0 && forall k :: 0 <= k < |m.text| ==> !IsLineTerminator(m.text[k])
    ensures var end := m.at + |m.key| + |m.text|; end == |s| || IsLineTerminator(s[end])
  {
  }
}
