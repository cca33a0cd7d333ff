/** The move-history timeline and the click/promotion state machine of the board
    component (src/components/chess/chessboard.tsx). The game object is chess.js,
    seen only through the operations the component calls on it. */
module Timeline {
  import opened ChessTypes

  type Square = string

  /** A move as chess.js reports it after playing it, reduced to what the board reads. */
  datatype Played = Played(from: Square, to: Square, promotion: Option<char>)

  /** The last-move highlight. */
  datatype Highlight = Highlight(from: Square, to: Square)

  /** One entry of chess.js's verbose move list for a square. */
  datatype Candidate = Candidate(to: Square, promotes: bool)

  /** The chess.js operations the component uses, over the game type `G`:
      `start` is a new game, `replay` plays a recorded move, `tryMove` plays a
      requested move and yields the resulting game and the move record (None when
      chess.js rejects it), `colorAt` is the colour of the piece on a square, `turn`
      the side to move, `moves` the verbose legal moves from a square. */
  datatype ChessJs<!G> = ChessJs(
    start: G,
    replay: (G, Played) -> G,
    tryMove: (G, Square, Square, Option<char>) -> Option<(G, Played)>,
    colorAt: (G, Square) -> Option<Color>,
    turn: G -> Color,
    moves: (G, Square) -> seq<Candidate>)

  /** The component's state: the displayed game, the move list and the cursor into it,
      the last-move highlight, click selection with its destinations, a pending
      promotion, and whether a drag is under way. */
  datatype BoardState<G> = BoardState(
    game: G,
    history: seq<Played>,
    index: nat,
    lastMove: Option<Highlight>,
    selected: Option<Square>,
    targets: seq<Square>,
    pending: Option<Highlight>,
    dragging: bool)

  /** The game reached by playing `moves` in order on a new game. */
  function Replay<G>(js: ChessJs<G>, moves: seq<Played>): G
    decreases |moves|
  {
    if moves == [] then js.start else js.replay(Replay(js, moves[..|moves| - 1]), moves[|moves| - 1])
  }

  function HighlightOf(m: Played): Highlight {
    Highlight(m.from, m.to)
  }

  /** The highlight that belongs to cursor position `k`: the move just played, none at the start. */
  function HighlightAt(history: seq<Played>, k: nat): Option<Highlight>
    requires k <= |history|
  {
    if k == 0 then None else Some(HighlightOf(history[k - 1]))
  }

  predicate InRange<G>(st: BoardState<G>) {
    st.index <= |st.history|
  }

  /** The timeline's invariant: the displayed game is the replay of the moves before
      the cursor, and the highlight shows the last of them. */
  ghost predicate Coherent<G>(js: ChessJs<G>, st: BoardState<G>) {
    && InRange(st)
    && st.game == Replay(js, st.history[..st.index])
    && st.lastMove == HighlightAt(st.history, st.index)
  }

  /** Navigation leaves the move list, the click selection, the pending promotion
      and the drag alone. */
  predicate KeepsInteraction<G>(st: BoardState<G>, r: BoardState<G>) {
    && r.history == st.history && r.selected == st.selected && r.targets == st.targets
    && r.pending == st.pending && r.dragging == st.dragging
  }

  /** The state showing cursor position `k`, everything else kept. */
  function ShowAt<G>(js: ChessJs<G>, st: BoardState<G>, k: nat): (r: BoardState<G>)
    requires k <= |st.history|
    ensures Coherent(js, r)
    ensures r.index == k && KeepsInteraction(st, r)
  {
    st.(game := Replay(js, st.history[..k]), index := k, lastMove := HighlightAt(st.history, k))
  }

  /** handlePrev: one move back, if there is one. */
  function Prev<G>(js: ChessJs<G>, st: BoardState<G>): (r: BoardState<G>)
    requires InRange(st)
    ensures KeepsInteraction(st, r)
    ensures st.index > 0 ==> r.index == st.index - 1 && Coherent(js, r)
    ensures st.index == 0 ==> r == st
  {
    if st.index > 0 then ShowAt(js, st, st.index - 1) else st
  }

  /** handleNext: one move forward, if there is one. */
  function Next<G>(js: ChessJs<G>, st: BoardState<G>): (r: BoardState<G>)
    requires InRange(st)
    ensures KeepsInteraction(st, r)
    ensures st.index < |st.history| ==> r.index == st.index + 1 && Coherent(js, r)
    ensures st.index < |st.history| ==> r.lastMove == Some(HighlightOf(st.history[st.index]))
    ensures st.index == |st.history| ==> r == st
  {
    if st.index < |st.history| then ShowAt(js, st, st.index + 1) else st
  }

  /** handleLast: jump to the end, unless already there. */
  function Last<G>(js: ChessJs<G>, st: BoardState<G>): (r: BoardState<G>)
    requires InRange(st)
    ensures KeepsInteraction(st, r)
    ensures st.index < |st.history| ==> r.index == |st.history| && Coherent(js, r)
    ensures st.index == |st.history| ==> r == st
  {
    if st.index < |st.history| then ShowAt(js, st, |st.history|) else st
  }

  /** handleGoTo. The source reads the move before the target index, which fails with
      a TypeError for index 0 and beyond the end: those indices are excluded. */
  function GoTo<G>(js: ChessJs<G>, st: BoardState<G>, k: nat): (r: BoardState<G>)
    requires InRange(st)
    requires 1 <= k <= |st.history|
    ensures KeepsInteraction(st, r) && r.index == k && Coherent(js, r)
    ensures r.lastMove == Some(HighlightOf(st.history[k - 1]))
  {
    if st.index <= |st.history| then ShowAt(js, st, k) else st
  }

  /** handleFirst: back to a new game, with no highlight. */
  function First<G>(js: ChessJs<G>, st: BoardState<G>): (r: BoardState<G>)
    ensures KeepsInteraction(st, r) && r.index == 0 && r.lastMove == None
    ensures r.game == Replay(js, [])
  {
    st.(game := js.start, index := 0, lastMove := None)
  }

  /** Going to the same index twice shows the same state as going there once. */
  lemma GoToIdempotent<G>(js: ChessJs<G>, st: BoardState<G>, k: nat)
    requires InRange(st) && 1 <= k <= |st.history|
    ensures GoTo(js, GoTo(js, st, k), k) == GoTo(js, st, k)
  {
  }

  /** Stepping back and then forward returns to the state one started from. */
  lemma NextUndoesPrev<G>(js: ChessJs<G>, st: BoardState<G>)
    requires Coherent(js, st) && st.index > 0
    ensures Next(js, Prev(js, st)) == st
  {
  }

  /** Stepping forward and then back returns to the state one started from. */
  lemma PrevUndoesNext<G>(js: ChessJs<G>, st: BoardState<G>)
    requires Coherent(js, st) && st.index < |st.history|
    ensures Prev(js, Next(js, st)) == st
  {
  }

  /** executeMove: on success the moves after the cursor are dropped, the new move is
      appended, the cursor moves to the end and the move is highlighted; a rejected
      move changes nothing. */
  function Execute<G>(js: ChessJs<G>, st: BoardState<G>, from: Square, to: Square, promotion: Option<char>)
    : (r: BoardState<G>)
    requires InRange(st)
    ensures InRange(r)
    ensures js.tryMove(st.game, from, to, promotion).None? ==> r == st
    ensures js.tryMove(st.game, from, to, promotion).Some? ==>
      var m := js.tryMove(st.game, from, to, promotion).value.1;
      && r.history == st.history[..st.index] + [m]
      && r.index == |r.history| == st.index + 1
      && r.lastMove == Some(HighlightOf(m))
      && r.selected == st.selected && r.targets == st.targets && r.pending == st.pending
  {
    match js.tryMove(st.game, from, to, promotion)
    case None => st
    case Some((game, m)) =>
      var history := st.history[..st.index] + [m];
      st.(game := game, lastMove := Some(HighlightOf(m)), history := history, index := |history|)
  }

  /** chess.js gives the same game whether this move is played on request or replayed
      from its record. */
  ghost predicate ReplayAgrees<G>(js: ChessJs<G>, g: G, from: Square, to: Square, p: Option<char>) {
    var t := js.tryMove(g, from, to, p);
    t.Some? ==> js.replay(g, t.value.1) == t.value.0
  }

  /** A played move keeps the timeline coherent: the new position is the replay of the
      truncated history plus the move. */
  lemma ExecuteKeepsCoherent<G>(js: ChessJs<G>, st: BoardState<G>, from: Square, to: Square, promotion: Option<char>)
    requires Coherent(js, st) && ReplayAgrees(js, st.game, from, to, promotion)
    ensures Coherent(js, Execute(js, st, from, to, promotion))
  {
    var t := js.tryMove(st.game, from, to, promotion);
    if t.Some? {
      var r := Execute(js, st, from, to, promotion);
      assert r.history[..r.index] == r.history;
      assert r.history[..|r.history| - 1] == st.history[..st.index];
    }
  }

  /** `moves.find(m => m.to === to)`: the first candidate for destination `to`. */
  function FindTo(cands: seq<Candidate>, to: Square): (r: Option<Candidate>)
    ensures r.Some? ==> r.value in cands && r.value.to == to
    ensures r.Some? ==> exists i :: 0 <= i < |cands| && cands[i] == r.value
                                  && forall j :: 0 <= j < i ==> cands[j].to != to
    ensures r.None? ==> forall i :: 0 <= i < |cands| ==> cands[i].to != to
    decreases |cands|
  {
    if cands == [] then None
    else if cands[0].to == to then Some(cands[0])
    else
      var r := FindTo(cands[1..], to);
      assert forall i :: 1 <= i < |cands| ==> cands[i] == cands[1..][i - 1];
      if r.Some? then
        var i :| 0 <= i < |cands[1..]| && cands[1..][i] == r.value && forall j :: 0 <= j < i ==> cands[1..][j].to != to;
        assert cands[i + 1] == r.value;
        r
      else r
  }

  /** handleMove: nothing from an empty square; a move that chess.js lists as a
      promotion is parked as pending; any other is executed. */
  function HandleMove<G>(js: ChessJs<G>, st: BoardState<G>, from: Square, to: Square): (r: BoardState<G>)
    requires InRange(st)
    ensures InRange(r)
    ensures js.colorAt(st.game, from).None? ==> r == st
    ensures var f := FindTo(js.moves(st.game, from), to);
      js.colorAt(st.game, from).Some? && f.Some? && f.value.promotes ==>
        && r.game == st.game && r.history == st.history && r.index == st.index
        && r.lastMove == st.lastMove && r.pending == Some(Highlight(from, to))
    ensures var f := FindTo(js.moves(st.game, from), to);
      js.colorAt(st.game, from).Some? && !(f.Some? && f.value.promotes) ==>
        && r == Execute(js, st, from, to, None)
        && (js.tryMove(st.game, from, to, None).Some? ==>
              r.history == st.history[..st.index] + [js.tryMove(st.game, from, to, None).value.1])
  {
    if js.colorAt(st.game, from).None? then st
    else
      var found := FindTo(js.moves(st.game, from), to);
      if found.Some? && found.value.promotes then st.(pending := Some(Highlight(from, to)))
      else Execute(js, st, from, to, None)
  }

  /** handlePromotionSelect: play the pending move with the chosen piece and clear it. */
  function PromotionSelect<G>(js: ChessJs<G>, st: BoardState<G>, piece: char): (r: BoardState<G>)
    requires InRange(st)
    ensures InRange(r)
    ensures st.pending.None? ==> r == st
    ensures st.pending.Some? ==> r.pending.None?
  {
    if st.pending.None? then st
    else Execute(js, st, st.pending.value.from, st.pending.value.to, Some(piece)).(pending := None)
  }

  /** A promoting move is held back, leaving game and history alone; choosing the piece
      then plays exactly that move with that piece. */
  lemma PromotionHandshake<G>(js: ChessJs<G>, st: BoardState<G>, from: Square, to: Square, piece: char)
    requires InRange(st)
    requires js.colorAt(st.game, from).Some?
    requires var f := FindTo(js.moves(st.game, from), to); f.Some? && f.value.promotes
    ensures var held := HandleMove(js, st, from, to);
      && held.game == st.game && held.history == st.history && held.index == st.index
      && held.pending == Some(Highlight(from, to))
    ensures PromotionSelect(js, HandleMove(js, st, from, to), piece)
      == Execute(js, st, from, to, Some(piece)).(pending := None)
  {
  }

  function TargetsOf(cands: seq<Candidate>): (r: seq<Square>)
    ensures |r| == |cands| && forall i :: 0 <= i < |cands| ==> r[i] == cands[i].to
  {
    seq(|cands|, i requires 0 <= i < |cands| => cands[i].to)
  }

  /** handleSquareClick. */
  function SquareClick<G>(js: ChessJs<G>, st: BoardState<G>, sq: Square, interactive: bool): (r: BoardState<G>)
    requires InRange(st)
    ensures InRange(r)
    ensures !interactive || st.dragging ==> r == st
    ensures interactive && !st.dragging && st.selected.Some? && sq in st.targets ==>
      r == HandleMove(js, st, st.selected.value, sq).(selected := None, targets := [])
    ensures interactive && !st.dragging && !(st.selected.Some? && sq in st.targets) ==>
      if js.colorAt(st.game, sq) == Some(js.turn(st.game))
      then r == st.(selected := Some(sq), targets := TargetsOf(js.moves(st.game, sq)))
      else r == st.(selected := None, targets := [])
  {
    if !interactive || st.dragging then st
    else if st.selected.Some? && sq in st.targets then
      HandleMove(js, st, st.selected.value, sq).(selected := None, targets := [])
    else if js.colorAt(st.game, sq) == Some(js.turn(st.game)) then
      st.(selected := Some(sq), targets := TargetsOf(js.moves(st.game, sq)))
    else st.(selected := None, targets := [])
  }

  /** No click, navigation or promotion choice alters the moves already played before
      the cursor. */
  lemma ClickKeepsPlayedMoves<G>(js: ChessJs<G>, st: BoardState<G>, sq: Square, interactive: bool)
    requires InRange(st)
    ensures var r := SquareClick(js, st, sq, interactive);
      r.history[..st.index] == st.history[..st.index]
  {
  }
}
