/** The Stockfish adapter (src/lib/stockfish-engine.ts): reading UCI `info` lines into
    the MultiPV slot table and emitting it, and the commands `analyze`, `stop` and
    `quit` send to the engine worker. The worker is an append-only log of the
    strings sent to it; chess.js is seen only through the operations the adapter
    calls on it. */
module Engine {
  import opened ChessTypes
  import opened Decimal
  import opened Text

  /** `/depth (\d+)/`, `/score (cp|mate) (-?\d+)/`, `/pv (.+)/`, `/multipv (\d+)/`. */
  const DepthPattern := Pattern(["depth "], Digits)
  const ScorePattern := Pattern(["score cp ", "score mate "], SignedDigits)
  const PvPattern := Pattern(["pv "], RestOfLine)
  const MultiPvPattern := Pattern(["multipv "], Digits)

  /** How many whitespace-separated tokens of the `pv` text are dropped. */
  const SkippedTokens := 13

  /** A JavaScript array index is below 2^32 - 1; a larger "index" names a plain property. */
  const ArrayIndexBound := 0xFFFF_FFFF

  /** The fields of a chess.js move the adapter reads. */
  datatype SanMove = SanMove(san: string, from: string, to: string, promotion: Option<char>)

  datatype VerboseMove = VerboseMove(from: string, to: string, promotion: Option<char>)

  /** One MultiPV line. `mate` is absent for a centipawn score. */
  datatype PvLine = PvLine(
    depth: nat, score: int, mate: Option<int>, pv: seq<string>, bestMove: string, verboseMoves: seq<VerboseMove>)

  /** The chess.js operations over its game type `G`: a game from a FEN, whether white
      is to move, and a move given by from, to and promotion (None when chess.js
      refuses it). */
  datatype Replayer<!G> = Replayer(
    load: string -> G,
    whiteToMove: G -> bool,
    move: (G, string, string, Option<char>) -> Option<(G, SanMove)>)

  /** Registered callbacks are told apart by an identifier. */
  type CallbackId = nat

  /** The adapter's fields: whether a worker exists, `isReady`, `evaluationCallback`,
      `latestLines` (None for a hole), `currentFEN`, and every command sent so far. */
  datatype EngineState = EngineState(
    worker: bool, ready: bool, callback: Option<CallbackId>, slots: seq<Option<PvLine>>, fen: string, sent: seq<string>)

  /** A call of the evaluation callback with the lines it receives. */
  datatype Emission = Emission(callback: CallbackId, lines: seq<PvLine>)

  datatype Parsed = Parsed(state: EngineState, emitted: Option<Emission>)

  datatype Outcome = Done(state: EngineState) | Thrown(message: string)

  /** `xs.slice(n)`. */
  function Drop<T>(xs: seq<T>, n: nat): (r: seq<T>)
    ensures |xs| <= n ==> r == []
    ensures |xs| > n ==> |r| == |xs| - n && forall i :: 0 <= i < |r| ==> r[i] == xs[n + i]
  {
    if |xs| <= n then [] else xs[n..]
  }

  /** `s.slice(a, b)` for 0 <= a <= b. */
  function Slice(s: string, a: nat, b: nat): (r: string)
    requires a <= b
    ensures |r| <= b - a
  {
    if |s| <= a then "" else if |s| <= b then s[a..] else s[a..b]
  }

  /** The move chess.js is asked for by one long-algebraic token: its first two
      characters, the next two, and the fifth if there is one. */
  function Attempt<G>(js: Replayer<G>, g: G, uci: string): Option<(G, SanMove)> {
    js.move(g, Slice(uci, 0, 2), Slice(uci, 2, 4), if |uci| > 4 then Some(uci[4]) else None)
  }

  /** The loop over the pv tokens: each accepted move is kept, and the first refused
      one ends the loop. */
  function ReplayPv<G>(js: Replayer<G>, g: G, tokens: seq<string>): (r: seq<SanMove>)
    ensures |r| <= |tokens|
    ensures tokens != [] && Attempt(js, g, tokens[0]).None? ==> r == []
    ensures tokens != [] && Attempt(js, g, tokens[0]).Some? ==>
      |r| >= 1 && r[0] == Attempt(js, g, tokens[0]).value.1
    decreases |tokens|
  {
    if tokens == [] then []
    else
      match Attempt(js, g, tokens[0])
      case None => []
      case Some((next, m)) => [m] + ReplayPv(js, next, tokens[1..])
  }

  /** Tokens after a refused one are never looked at. */
  lemma {:induction false} RefusalEndsReplay<G>(js: Replayer<G>, g: G, tokens: seq<string>, more: seq<string>)
    requires |ReplayPv(js, g, tokens)| < |tokens|
    ensures ReplayPv(js, g, tokens + more) == ReplayPv(js, g, tokens)
    decreases |tokens|
  {
    assert (tokens + more)[0] == tokens[0];
    match Attempt(js, g, tokens[0])
    case None =>
    case Some((next, m)) =>
      assert (tokens + more)[1..] == tokens[1..] + more;
      RefusalEndsReplay(js, next, tokens[1..], more);
  }

  /** Replaying tokens one after another is replaying the first, then the rest from the
      game the first one reached, as long as the first is accepted. */
  lemma ReplayStep<G>(js: Replayer<G>, g: G, tokens: seq<string>)
    requires tokens != [] && Attempt(js, g, tokens[0]).Some?
    ensures ReplayPv(js, g, tokens)
      == [Attempt(js, g, tokens[0]).value.1] + ReplayPv(js, Attempt(js, g, tokens[0]).value.0, tokens[1..])
  {
  }

  /** The glyph an upper-case piece letter of SAN is shown as. */
  function Glyph(c: char): char {
    if c == 'P' then '\U{265F}'
    else if c == 'N' then '\U{265E}'
    else if c == 'B' then '\U{265D}'
    else if c == 'R' then '\U{265C}'
    else if c == 'Q' then '\U{265B}'
    else if c == 'K' then '\U{265A}'
    else c
  }

  /** `s.replace(new RegExp(a, "g"), b)` for a single literal character. */
  function ReplaceAll(s: string, a: char, b: char): (r: string)
    ensures |r| == |s|
    ensures forall i :: 0 <= i < |s| ==> r[i] == (if s[i] == a then b else s[i])
  {
    seq(|s|, i requires 0 <= i < |s| => if s[i] == a then b else s[i])
  }

  /** The decoration loop: one global replacement per piece letter, in the order
      p, n, b, r, q, k of the glyph table. */
  function Decorate(san: string): string {
    var s1 := ReplaceAll(san, 'P', '\U{265F}');
    var s2 := ReplaceAll(s1, 'N', '\U{265E}');
    var s3 := ReplaceAll(s2, 'B', '\U{265D}');
    var s4 := ReplaceAll(s3, 'R', '\U{265C}');
    var s5 := ReplaceAll(s4, 'Q', '\U{265B}');
    ReplaceAll(s5, 'K', '\U{265A}')
  }

  /** The six passes amount to replacing each upper-case piece letter by its glyph,
      character by character: no glyph is itself a letter a later pass replaces, and
      everything else, lower-case file letters included, is left alone. */
  lemma DecorateIsGlyphMap(san: string)
    ensures |Decorate(san)| == |san|
    ensures forall i :: 0 <= i < |san| ==> Decorate(san)[i] == Glyph(san[i])
  {
  }

  /** The `bestMove` loop: the first non-empty SAN, or "" if there is none. */
  function FirstNonEmpty(ws: seq<string>): (r: string)
    ensures r == "" <==> forall i :: 0 <= i < |ws| ==> ws[i] == ""
    ensures r != "" ==> exists i :: 0 <= i < |ws| && ws[i] == r && forall j :: 0 <= j < i ==> ws[j] == ""
    decreases |ws|
  {
    if ws == [] then ""
    else if ws[0] != "" then ws[0]
    else
      var r := FirstNonEmpty(ws[1..]);
      assert forall i :: 1 <= i < |ws| ==> ws[i] == ws[1..][i - 1];
      if r != "" then
        var i :| 0 <= i < |ws[1..]| && ws[1..][i] == r && forall j :: 0 <= j < i ==> ws[1..][j] == "";
        assert ws[i + 1] == r;
        r
      else r
  }

  /** `latestLines[k] = line`: a write at an array index fills the slot, growing the
      table with holes; any other key leaves the table's elements alone. */
  function Store(slots: seq<Option<PvLine>>, k: int, line: PvLine): (r: seq<Option<PvLine>>)
    ensures !(0 <= k < ArrayIndexBound) ==> r == slots
    ensures 0 <= k < ArrayIndexBound ==>
      && |r| == (if k < |slots| then |slots| else k + 1)
      && r[k] == Some(line)
      && forall j :: 0 <= j < |r| && j != k ==> r[j] == (if j < |slots| then slots[j] else None)
  {
    if !(0 <= k < ArrayIndexBound) then slots
    else if k < |slots| then slots[k := Some(line)]
    else slots + seq(k - |slots|, _ => None) + [Some(line)]
  }

  /** `[...latestLines].filter(Boolean)`: the filled slots in index order. */
  function Present(slots: seq<Option<PvLine>>): (r: seq<PvLine>)
    ensures |r| <= |slots|
    ensures forall l :: l in r <==> Some(l) in slots
    decreases |slots|
  {
    if slots == [] then []
    else
      var rest := Present(slots[1..]);
      assert forall o :: o in slots <==> o == slots[0] || o in slots[1..];
      (if slots[0].Some? then [slots[0].value] else []) + rest
  }

  lemma {:induction false} PresentAppend(a: seq<Option<PvLine>>, b: seq<Option<PvLine>>)
    ensures Present(a + b) == Present(a) + Present(b)
    decreases |a|
  {
    if a == [] {
      assert a + b == b;
    } else {
      assert (a + b)[0] == a[0];
      assert (a + b)[1..] == a[1..] + b;
      PresentAppend(a[1..], b);
    }
  }

  /** The first filled slot comes first. */
  lemma PresentHead(slots: seq<Option<PvLine>>)
    requires |slots| > 0 && slots[0].Some?
    ensures |Present(slots)| > 0 && Present(slots)[0] == slots[0].value
  {
  }

  /** The slot a line goes to: multipv - 1, or 0 without a multipv field. */
  function SlotOf(line: string): int {
    var mp := FirstMatch(MultiPvPattern, line);
    if mp.Some? then (DigitsGroup(MultiPvPattern, line, mp.value); DigitsValue(mp.value.text) - 1) else 0
  }

  /** The moves chess.js accepts from the pv text: its whitespace-separated tokens
      after the first thirteen, replayed from `g`. */
  function PvMoves<G>(js: Replayer<G>, g: G, pvText: string): seq<SanMove> {
    ReplayPv(js, g, Drop(Fields(Trim(pvText)), SkippedTokens))
  }

  function SansOf(moves: seq<SanMove>): (r: seq<string>)
    ensures |r| == |moves| && forall i :: 0 <= i < |moves| ==> r[i] == Decorate(moves[i].san)
  {
    seq(|moves|, i requires 0 <= i < |moves| => Decorate(moves[i].san))
  }

  function VerboseOf(moves: seq<SanMove>): (r: seq<VerboseMove>)
    ensures |r| == |moves|
    ensures forall i :: 0 <= i < |moves| ==> r[i] == VerboseMove(moves[i].from, moves[i].to, moves[i].promotion)
  {
    seq(|moves|, i requires 0 <= i < |moves| => VerboseMove(moves[i].from, moves[i].to, moves[i].promotion))
  }

  /** The line built from the matched depth, score and pv texts, against the position `fen`. */
  function LineFrom<G>(js: Replayer<G>, fen: string, depthText: string, scoreKey: string, scoreText: string, pvText: string)
    : PvLine
    requires AllDigits(depthText) && SignedText(scoreText)
  {
    var g := js.load(fen);
    var value := (if js.whiteToMove(g) then 1 else -1) * SignedValue(scoreText);
    var isCp := scoreKey == "score cp ";
    var sans := SansOf(PvMoves(js, g, pvText));
    PvLine(DigitsValue(depthText), if isCp then value else 0, if isCp then None else Some(value),
           sans, FirstNonEmpty(sans), VerboseOf(PvMoves(js, g, pvText)))
  }

  /** The fields of an `info` line with a depth, a score and a pv, read against the
      position `fen`: the slot it goes to and the line. None when one of the three is
      missing. */
  function ReadInfo<G>(js: Replayer<G>, line: string, fen: string): (r: Option<(int, PvLine)>)
    ensures r.Some? <==>
      FirstMatch(DepthPattern, line).Some? && FirstMatch(ScorePattern, line).Some? && FirstMatch(PvPattern, line).Some?
  {
    var d := FirstMatch(DepthPattern, line);
    var sc := FirstMatch(ScorePattern, line);
    var pv := FirstMatch(PvPattern, line);
    if d.None? || sc.None? || pv.None? then None
    else
      DigitsGroup(DepthPattern, line, d.value);
      SignedGroup(ScorePattern, line, sc.value);
      Some((SlotOf(line), LineFrom(js, fen, d.value.text, sc.value.key, sc.value.text, pv.value.text)))
  }

  /** The emission gate: slot 0 holds a line of non-zero depth and a callback is set. */
  predicate Gate(st: EngineState) {
    |st.slots| > 0 && st.slots[0].Some? && st.slots[0].value.depth != 0 && st.callback.Some?
  }

  /** parseInfo: store the line in its slot and, past the gate, hand the filled slots
      to the callback. A line without depth, score or pv changes nothing. */
  function ParseInfo<G>(js: Replayer<G>, st: EngineState, line: string, fen: string): (r: Parsed)
    ensures ReadInfo(js, line, fen).None? ==> r == Parsed(st, None)
    ensures r.state.worker == st.worker && r.state.ready == st.ready && r.state.callback == st.callback
    ensures r.state.fen == st.fen && r.state.sent == st.sent
    ensures ReadInfo(js, line, fen).Some? ==>
      r.state.slots == Store(st.slots, ReadInfo(js, line, fen).value.0, ReadInfo(js, line, fen).value.1)
    ensures r.emitted.Some? <==> ReadInfo(js, line, fen).Some? && Gate(r.state)
    ensures r.emitted.Some? ==> r.emitted.value == Emission(st.callback.value, Present(r.state.slots))
  {
    match ReadInfo(js, line, fen)
    case None => Parsed(st, None)
    case Some((slot, entry)) =>
      var next := st.(slots := Store(st.slots, slot, entry));
      Parsed(next, if Gate(next) then Some(Emission(st.callback.value, Present(next.slots))) else None)
  }

  /** The score sign follows the side to move in the analysed position; a centipawn
      report leaves `mate` absent, a mate report puts 0 in `score` and the signed
      count in `mate`. */
  lemma ScoreReading<G>(js: Replayer<G>, line: string, fen: string)
    requires ReadInfo(js, line, fen).Some?
    ensures var m := FirstMatch(ScorePattern, line).value;
      var entry := ReadInfo(js, line, fen).value.1;
      var sign := if js.whiteToMove(js.load(fen)) then 1 else -1;
      && SignedText(m.text)
      && (m.key == "score cp " || m.key == "score mate ")
      && (m.key == "score cp " ==> entry.score == sign * SignedValue(m.text) && entry.mate == None)
      && (m.key == "score mate " ==> entry.score == 0 && entry.mate == Some(sign * SignedValue(m.text)))
  {
    var m := FirstMatch(ScorePattern, line).value;
    SignedGroup(ScorePattern, line, m);
    assert m.key in ScorePattern.keys;
  }

  /** The depth is the decimal value of the digits after the first "depth ". */
  lemma DepthReading<G>(js: Replayer<G>, line: string, fen: string)
    requires ReadInfo(js, line, fen).Some?
    ensures var m := FirstMatch(DepthPattern, line).value;
      && AllDigits(m.text) && |m.text| > 0
      && ReadInfo(js, line, fen).value.1.depth == DigitsValue(m.text)
  {
    DigitsGroup(DepthPattern, line, FirstMatch(DepthPattern, line).value);
  }

  /** The line goes to slot multipv - 1, or slot 0 without a multipv field. */
  lemma SlotOfLine<G>(js: Replayer<G>, line: string, fen: string)
    requires ReadInfo(js, line, fen).Some?
    ensures var mp := FirstMatch(MultiPvPattern, line);
      var slot := ReadInfo(js, line, fen).value.0;
      && (mp.None? ==> slot == 0)
      && (mp.Some? ==> AllDigits(mp.value.text) && slot == DigitsValue(mp.value.text) - 1)
  {
    var mp := FirstMatch(MultiPvPattern, line);
    if mp.Some? {
      DigitsGroup(MultiPvPattern, line, mp.value);
    }
  }

  /** An array-index slot receives the line and no other slot changes; holes fill the
      gap when the table grows. */
  lemma StoredInSlot<G>(js: Replayer<G>, st: EngineState, line: string, fen: string, slot: int, entry: PvLine)
    requires ReadInfo(js, line, fen) == Some((slot, entry))
    requires 0 <= slot < ArrayIndexBound
    ensures var slots := ParseInfo(js, st, line, fen).state.slots;
      && slot < |slots| && slots[slot] == Some(entry)
      && forall j :: 0 <= j < |slots| && j != slot ==> slots[j] == (if j < |st.slots| then st.slots[j] else None)
  {
  }

  /** The pv tokens are those after the first "pv " that is followed by text, dropping
      the first thirteen, and the line keeps one SAN, decorated, per accepted move. */
  lemma PvReading<G>(js: Replayer<G>, line: string, fen: string)
    requires ReadInfo(js, line, fen).Some?
    ensures var m := FirstMatch(PvPattern, line).value;
      var tokens := Drop(Fields(Trim(m.text)), SkippedTokens);
      var moves := ReplayPv(js, js.load(fen), tokens);
      var entry := ReadInfo(js, line, fen).value.1;
      && |entry.pv| == |entry.verboseMoves| == |moves| <= |tokens|
      && (forall i :: 0 <= i < |moves| ==> entry.pv[i] == Decorate(moves[i].san))
      && (forall i :: 0 <= i < |moves| ==>
            && entry.verboseMoves[i].from == moves[i].from && entry.verboseMoves[i].to == moves[i].to
            && entry.verboseMoves[i].promotion == moves[i].promotion)
      && entry.bestMove == FirstNonEmpty(entry.pv)
  {
  }

  /** `/pv (.+)/` is met first inside "multipv": when "multipv " is followed by text and
      no "pv " occurs earlier, the pv text starts right after "multipv ". */
  lemma PvMatchInsideMultipv(line: string, at: nat)
    requires HasAt(line, at, "multipv ") && at + 8 < |line| && !IsLineTerminator(line[at + 8])
    requires forall j :: 0 <= j < at + 5 ==> !HasAt(line, j, "pv ")
    ensures FirstMatch(PvPattern, line).Some? && FirstMatch(PvPattern, line).value.at == at + 5
  {
    assert line[at + 5..at + 8] == line[at..at + 8][5..];
    assert HasAt(line, at + 5, "pv ");
    assert MatchesAt(PvPattern, line, at + 5).Some?;
  }

  /** When the gate opens, the callback gets every filled slot in slot order, the line
      of slot 0 first. */
  lemma EmissionOrder<G>(js: Replayer<G>, st: EngineState, line: string, fen: string)
    requires ParseInfo(js, st, line, fen).emitted.Some?
    ensures var r := ParseInfo(js, st, line, fen);
      var lines := r.emitted.value.lines;
      && |lines| > 0 && Some(lines[0]) == r.state.slots[0] && lines[0].depth != 0
      && forall l :: l in lines <==> Some(l) in r.state.slots
  {
    var r := ParseInfo(js, st, line, fen);
    assert Gate(r.state);
    PresentHead(r.state.slots);
  }

  /** analyze: without a worker it throws and changes nothing; otherwise it records the
      position and callback, empties the slot table and sends "stop", the position
      and "go depth 20", in that order. */
  function Analyze(st: EngineState, fen: string, callback: CallbackId): (r: Outcome)
    ensures r.Thrown? <==> !st.worker
    ensures r.Done? ==> r.state == st.(fen := fen, callback := Some(callback), slots := [],
                                       sent := st.sent + ["stop", "position fen " + fen, "go depth 20"])
  {
    if !st.worker then Thrown("Engine not initialized")
    else
      Done(st.(fen := fen, callback := Some(callback), slots := [],
               sent := st.sent + ["stop"] + ["position fen " + fen] + ["go depth 20"]))
  }

  /** stop: forget the callback, and tell the worker to stop if there is one. */
  function Stop(st: EngineState): (r: EngineState)
    ensures r.callback == None && r.slots == st.slots && r.worker == st.worker
    ensures r.fen == st.fen && r.ready == st.ready
    ensures r.sent == st.sent + (if st.worker then ["stop"] else [])
  {
    st.(sent := if st.worker then st.sent + ["stop"] else st.sent, callback := None)
  }

  /** quit: send "quit" to a worker and drop it; the engine is no longer ready. */
  function Quit(st: EngineState): (r: EngineState)
    ensures !r.worker && !r.ready
    ensures r.sent == st.sent + (if st.worker then ["quit"] else [])
    ensures r.callback == st.callback && r.slots == st.slots && r.fen == st.fen
  {
    if st.worker then st.(sent := st.sent + ["quit"], worker := false, ready := false)
    else st.(ready := false)
  }

  /** A second quit sends nothing and changes nothing. */
  lemma QuitOnce(st: EngineState)
    ensures Quit(Quit(st)) == Quit(st)
    ensures Quit(Quit(st)).sent == st.sent + (if st.worker then ["quit"] else [])
  {
  }

  /** Once the callback is forgotten, no info line reaches anyone until the next analyze. */
  lemma StopSilences<G>(js: Replayer<G>, st: EngineState, line: string, fen: string)
    ensures ParseInfo(js, Stop(st), line, fen).emitted.None?
  {
  }

  /** After quit, analyze throws and stop sends nothing. */
  lemma QuitIsFinal(st: EngineState, fen: string, callback: CallbackId)
    ensures Analyze(Quit(st), fen, callback).Thrown?
    ensures Stop(Quit(st)).sent == Quit(st).sent
  {
  }

  predicate StartsWith(s: string, prefix: string) {
    |prefix| <= |s| && s[..|prefix|] == prefix
  }

  /** The worker's message handler: "uciok" makes the engine ready; an `info` line is
      read against the stored position; anything else is ignored. */
  function OnMessage<G>(js: Replayer<G>, st: EngineState, line: string): (r: Parsed)
    ensures line == "uciok" ==> r == Parsed(st.(ready := true), None)
    ensures line != "uciok" && !StartsWith(line, "info") ==> r == Parsed(st, None)
    ensures line != "uciok" && StartsWith(line, "info") ==> r == ParseInfo(js, st, line, st.fen)
  {
    if line == "uciok" then Parsed(st.(ready := true), None)
    else if StartsWith(line, "info") then ParseInfo(js, st, line, st.fen)
    else Parsed(st, None)
  }
}
