/**
 * The game session of src/App.jsx with the React plumbing stripped away.
 *
 * `State` holds the component's state variables and the `processingRef`
 * flag; every handler and effect is a step function from one `State` to the
 * next, with each functional setter applied at once.  The class `Game` keeps
 * the same fields and updates them in place, each method proved to perform its
 * step.  Timers, confetti and storage are not modelled: the timers that clear
 * `processing` are the separate step `Release`, and the random draw of
 * `pickBestMove` is a parameter.
 */
module App {
  import opened Wrappers
  import opened GameLogic
  import opened Minimax

  /** `'local'` or `'ai'`. */
  datatype Mode = Local | Ai

  datatype Difficulty = Easy | Medium | Hard

  /** Wins by X, wins by O and ties. */
  datatype Scores = Scores(x: nat, o: nat, tie: nat)

  /** The keys `handleKeyDown` reacts to, and every other key. */
  datatype Key = ArrowRight | ArrowLeft | ArrowDown | ArrowUp | Enter | Space | OtherKey

  datatype State = State(
    board: Board,
    history: seq<Board>,
    currentPlayer: Mark,
    mode: Mode,
    difficulty: Difficulty,
    scores: Scores,
    winningLine: Option<Line>,
    focusIndex: int,
    processing: bool)

  /** The AI always plays O against a human X. */
  const AiPlayer := O
  const HumanPlayer := X

  function Other(m: Mark): (r: Mark)
    ensures r != m
  {
    if m == X then O else X
  }

  /** A state right after `resetGame`, with the scores loaded from storage. */
  function Initial(stored: Scores): (r: State)
    ensures r.board == EmptyBoard && r.history == [] && r.currentPlayer == X
    ensures r.scores == stored && !r.processing && r.focusIndex == 0
  {
    State(EmptyBoard, [], X, Local, Hard, stored, None, 0, false)
  }

  // ---------------------------------------------------------------------------
  // Handlers

  /** `playAt`'s three guards: it acts only when none of them holds. */
  predicate PlayBlocked(s: State, i: Idx) {
    s.processing || s.board[i] != Empty || CalculateWinner(s.board).Win?
  }

  /**
   * `playAt(index)`: ignored while processing, on a filled cell or once the
   * board has a winner; otherwise saves the old board, writes the current mark
   * into that one cell, passes the turn and moves the focus there.
   */
  function PlayAtStep(s: State, i: Idx): (r: State)
    ensures PlayBlocked(s, i) ==> r == s
    ensures !PlayBlocked(s, i) ==>
      && r.history == s.history + [s.board]
      && r.board[i] == Filled(s.currentPlayer)
      && (forall j :: 0 <= j < 9 && j != i ==> r.board[j] == s.board[j])
      && r.currentPlayer == Other(s.currentPlayer)
      && r.focusIndex == i
      && r.mode == s.mode && r.difficulty == s.difficulty && r.scores == s.scores
      && r.winningLine == s.winningLine && r.processing == s.processing
  {
    if PlayBlocked(s, i) then s
    else s.(history := s.history + [s.board],
            board := s.board[i := Filled(s.currentPlayer)],
            currentPlayer := Other(s.currentPlayer),
            focusIndex := i)
  }

  /** `onPlay(i)`: a human click, ignored in AI mode while it is O's turn. */
  function OnPlayStep(s: State, i: Idx): (r: State)
    ensures s.mode == Ai && s.currentPlayer == AiPlayer ==> r == s
    ensures !(s.mode == Ai && s.currentPlayer == AiPlayer) ==> r == PlayAtStep(s, i)
  {
    if s.mode == Ai && s.currentPlayer == AiPlayer then s else PlayAtStep(s, i)
  }

  /**
   * `undo()`: ignored while processing or with an empty history; otherwise
   * restores the last saved board, pops it, passes the turn back and clears
   * the highlight.
   */
  function UndoStep(s: State): (r: State)
    ensures s.processing || s.history == [] ==> r == s
    ensures !s.processing && s.history != [] ==>
      && r.board == s.history[|s.history| - 1]
      && r.history + [r.board] == s.history
      && r.currentPlayer == Other(s.currentPlayer)
      && r.winningLine == None
      && r.focusIndex == s.focusIndex && r.scores == s.scores && r.processing == s.processing
      && r.mode == s.mode && r.difficulty == s.difficulty
  {
    if s.processing || s.history == [] then s
    else s.(board := s.history[|s.history| - 1],
            history := s.history[..|s.history| - 1],
            currentPlayer := Other(s.currentPlayer),
            winningLine := None)
  }

  /** `resetGame()`: ignored while processing; otherwise a fresh board with X to move. */
  function ResetStep(s: State): (r: State)
    ensures s.processing ==> r == s
    ensures !s.processing ==>
      && r.board == EmptyBoard
      && r.history == [] && r.currentPlayer == X && r.winningLine == None && r.focusIndex == 0
      && r.scores == s.scores && r.mode == s.mode && r.difficulty == s.difficulty && !r.processing
  {
    if s.processing then s
    else s.(board := EmptyBoard, history := [], currentPlayer := X, winningLine := None, focusIndex := 0)
  }

  /** The mode and difficulty selectors: plain setters. */
  function SetModeStep(s: State, m: Mode): (r: State)
    ensures r.mode == m && r.(mode := s.mode) == s
  {
    s.(mode := m)
  }

  function SetDifficultyStep(s: State, d: Difficulty): (r: State)
    ensures r.difficulty == d && r.(difficulty := s.difficulty) == s
  {
    s.(difficulty := d)
  }

  // ---------------------------------------------------------------------------
  // Keyboard focus

  /**
   * The focus arithmetic of `handleKeyDown` on a 3-column grid of 9 cells.
   * The focus is never negative, so Dafny's `%` is JavaScript's here.
   */
  function MoveFocus(i: int, k: Key): (r: int)
    requires 0 <= i < 9
    ensures 0 <= r < 9
    ensures k == ArrowRight ==> r == if i == 8 then 0 else i + 1
    ensures k == ArrowLeft ==> r == if i == 0 then 8 else i - 1
    ensures k == ArrowDown ==> r == if i < 6 then i + 3 else i - 6
    ensures k == ArrowUp ==> r == if i < 3 then i + 6 else i - 3
    ensures k !in {ArrowRight, ArrowLeft, ArrowDown, ArrowUp} ==> r == i
  {
    match k
    case ArrowRight => (i + 1) % 9
    case ArrowLeft => (i + 8) % 9
    case ArrowDown => (i + 3) % 9
    case ArrowUp => (i + 9 - 3) % 9
    case _ => i
  }

  /** Right and Left undo each other, and so do Down and Up. */
  lemma {:induction false} FocusInverses(i: int)
    requires 0 <= i < 9
    ensures MoveFocus(MoveFocus(i, ArrowRight), ArrowLeft) == i
    ensures MoveFocus(MoveFocus(i, ArrowLeft), ArrowRight) == i
    ensures MoveFocus(MoveFocus(i, ArrowDown), ArrowUp) == i
    ensures MoveFocus(MoveFocus(i, ArrowUp), ArrowDown) == i
  {
  }

  /** Down moves one row down the same column, wrapping from the bottom row to the top. */
  lemma {:induction false} FocusDownKeepsColumn(i: int)
    requires 0 <= i < 9
    ensures MoveFocus(i, ArrowDown) % 3 == i % 3
    ensures MoveFocus(i, ArrowDown) / 3 == (i / 3 + 1) % 3
  {
  }

  /**
   * `handleKeyDown`: arrows move the focus, Enter and Space play the focused
   * cell through `onPlay`, every other key is ignored.
   */
  function KeyStep(s: State, k: Key): (r: State)
    requires 0 <= s.focusIndex < 9
    ensures k in {Enter, Space} ==> r == OnPlayStep(s, s.focusIndex)
    ensures k !in {Enter, Space} ==> r == s.(focusIndex := MoveFocus(s.focusIndex, k))
  {
    match k
    case Enter => OnPlayStep(s, s.focusIndex)
    case Space => OnPlayStep(s, s.focusIndex)
    case _ => s.(focusIndex := MoveFocus(s.focusIndex, k))
  }

  // ---------------------------------------------------------------------------
  // The board effect

  /** The game is over: a winner, or a full board. */
  predicate Finished(b: Board) {
    CalculateWinner(b).Win? || Full(b)
  }

  function Total(sc: Scores): nat {
    sc.x + sc.o + sc.tie
  }

  /**
   * The effect run after every change of `board`: a winner gets its line
   * highlighted, its count raised and `processing` set; a full board raises
   * the tie count and sets `processing`; any other board clears the highlight.
   */
  function BoardEffect(s: State): (r: State)
    ensures Total(r.scores) == Total(s.scores) + (if Finished(s.board) then 1 else 0)
    ensures r.scores.x == s.scores.x + (if CalculateWinner(s.board).Win? && CalculateWinner(s.board).mark == X then 1 else 0)
    ensures r.scores.o == s.scores.o + (if CalculateWinner(s.board).Win? && CalculateWinner(s.board).mark == O then 1 else 0)
    ensures r.scores.tie == s.scores.tie + (if CalculateWinner(s.board) == NoWinner && Full(s.board) then 1 else 0)
    ensures r.processing == (s.processing || Finished(s.board))
    ensures CalculateWinner(s.board).Win? ==> r.winningLine == Some(CalculateWinner(s.board).line)
    ensures !Finished(s.board) ==> r.winningLine == None
    ensures CalculateWinner(s.board) == NoWinner && Full(s.board) ==> r.winningLine == s.winningLine
    ensures r.board == s.board && r.history == s.history && r.currentPlayer == s.currentPlayer
    ensures r.focusIndex == s.focusIndex && r.mode == s.mode && r.difficulty == s.difficulty
  {
    match CalculateWinner(s.board)
    case Win(m, l) =>
      var sc' := match m
        case X => s.scores.(x := s.scores.x + 1)
        case O => s.scores.(o := s.scores.o + 1);
      s.(winningLine := Some(l), scores := sc', processing := true)
    case NoWinner =>
      if Full(s.board) then s.(scores := s.scores.(tie := s.scores.tie + 1), processing := true)
      else s.(winningLine := None)
  }

  /** The timer callbacks that clear `processingRef` after a win or a tie. */
  function Release(s: State): (r: State)
    ensures !r.processing && r.(processing := s.processing) == s
  {
    s.(processing := false)
  }

  // ---------------------------------------------------------------------------
  // The AI turn

  /** `randomness` by difficulty: easy 0.6, medium 0.2, hard 0. */
  function Randomness(d: Difficulty): (r: real)
    ensures 0.0 <= r < 1.0
    ensures r == 0.0 <==> d == Hard
  {
    match d
    case Easy => 0.6
    case Medium => 0.2
    case Hard => 0.0
  }

  /** The gate of the AI effect: AI mode, O to move, no winner and an empty cell. */
  predicate AiShouldMove(s: State) {
    s.mode == Ai && s.currentPlayer == AiPlayer && CalculateWinner(s.board) == NoWinner && !Full(s.board)
  }

  /**
   * The AI timer callback: when the gate holds, `pickBestMove` on a copy of
   * the board chooses a cell, with the random draw `draw`, and `playAt` plays it.
   */
  function AiTurnStep(s: State, draw: real): (r: State)
    ensures !AiShouldMove(s) ==> r == s
  {
    if !AiShouldMove(s) then s
    else
      match Pick(s.board, AiPlayer, HumanPlayer, Randomness(s.difficulty), draw)
      case Some(i) => PlayAtStep(s, i)
      case None => s
  }

  /**
   * When the gate holds and nothing is processing, the AI places an O on an
   * empty cell and passes the turn to X; a draw that does not substitute picks
   * the cell with the greatest score, the first such.
   */
  lemma {:induction false} AiMoves(s: State, draw: real)
    requires AiShouldMove(s) && !s.processing
    ensures var r := AiTurnStep(s, draw);
      && r.history == s.history + [s.board] && r.currentPlayer == HumanPlayer
      && r.board[r.focusIndex] == Filled(AiPlayer) && s.board[r.focusIndex] == Empty
      && (forall j :: 0 <= j < 9 && j != r.focusIndex ==> r.board[j] == s.board[j])
    ensures var r := AiTurnStep(s, draw);
      !Substitutes(s.board, Randomness(s.difficulty), draw) ==>
        forall j :: 0 <= j < 9 && s.board[j] == Empty ==>
          Child(s.board, AiPlayer, HumanPlayer, true, j) <= Child(s.board, AiPlayer, HumanPlayer, true, r.focusIndex)
  {
    PickFailsOnlyWhenFull(s.board, AiPlayer, HumanPlayer, Randomness(s.difficulty), draw);
    if !Substitutes(s.board, Randomness(s.difficulty), draw) {
      PickBest(s.board, AiPlayer, HumanPlayer, Randomness(s.difficulty), draw);
    }
  }

  /** On hard the AI plays exactly the move `minimax(board, O, X, true)` reports. */
  lemma {:induction false} HardPlaysMinimax(s: State, draw: real)
    requires AiShouldMove(s) && s.difficulty == Hard
    ensures Search(s.board, AiPlayer, HumanPlayer, true).index.Some?
    ensures AiTurnStep(s, draw) == PlayAtStep(s, Search(s.board, AiPlayer, HumanPlayer, true).index.value)
  {
    PickAgreesWithMinimax(s.board, AiPlayer, HumanPlayer, 0.0, draw);
    SearchChoice(s.board, AiPlayer, HumanPlayer, true);
  }

  /**
   * In AI mode the turns are exclusive: on O's turn a human click does
   * nothing, and on X's turn the AI does nothing.
   */
  lemma {:induction false} TurnsExclusive(s: State, i: Idx, draw: real)
    requires s.mode == Ai
    ensures s.currentPlayer == AiPlayer ==> OnPlayStep(s, i) == s
    ensures s.currentPlayer == HumanPlayer ==> AiTurnStep(s, draw) == s && OnPlayStep(s, i) == PlayAtStep(s, i)
  {
  }

  // ---------------------------------------------------------------------------
  // Round trip and invariant

  /**
   * `playAt(i)` then `undo()` restores the board, the history and the player
   * to move, also when the board effect and its timer ran in between.
   */
  lemma {:induction false} PlayThenUndo(s: State, i: Idx)
    requires !PlayBlocked(s, i)
    ensures var r := UndoStep(PlayAtStep(s, i));
      r.board == s.board && r.history == s.history && r.currentPlayer == s.currentPlayer
    ensures var r := UndoStep(Release(BoardEffect(PlayAtStep(s, i))));
      r.board == s.board && r.history == s.history && r.currentPlayer == s.currentPlayer
  {
    var p := PlayAtStep(s, i);
    assert p.history[..|p.history| - 1] == s.history;
    var q := Release(BoardEffect(p));
    assert q.history == p.history && q.board == p.board;
  }

  /**
   * The invariant every session keeps from its reset: the focus is a cell,
   * the board has as many marks as saved boards, the k-th saved board has k
   * marks, and the player to move is the one the number of saved boards
   * gives, starting from X.
   */
  predicate Consistent(s: State) {
    && 0 <= s.focusIndex < 9
    && FilledCount(s.board) == |s.history|
    && (forall k :: 0 <= k < |s.history| ==> FilledCount(s.history[k]) == k)
    && s.currentPlayer == ToMove(|s.history|)
  }

  lemma {:induction false} InitialConsistent(stored: Scores)
    ensures Consistent(Initial(stored))
  {
    FreshConsistent(Initial(stored));
  }

  lemma {:induction false} PlayAtConsistent(s: State, i: Idx)
    requires Consistent(s)
    ensures Consistent(PlayAtStep(s, i))
  {
    if !PlayBlocked(s, i) {
      var r := PlayAtStep(s, i);
      assert r.board == s.board[i := Filled(s.currentPlayer)];
      FillCounts(s.board, i, s.currentPlayer);
      assert FilledCount(r.board) == |r.history|;
      forall k | 0 <= k < |r.history| ensures FilledCount(r.history[k]) == k {
        if k < |s.history| {
          assert r.history[k] == s.history[k];
        } else {
          assert r.history[k] == s.board;
        }
      }
    }
  }

  lemma {:induction false} UndoConsistent(s: State)
    requires Consistent(s)
    ensures Consistent(UndoStep(s))
  {
    if !s.processing && s.history != [] {
      var r := UndoStep(s);
      assert r.history == s.history[..|s.history| - 1];
      assert FilledCount(r.board) == |r.history|;
      forall k | 0 <= k < |r.history| ensures FilledCount(r.history[k]) == k {
        assert r.history[k] == s.history[k];
      }
    }
  }

  /** The mark to move after `n` moves from a reset: X, then alternating. */
  function ToMove(n: nat): Mark {
    if n == 0 then X else Other(ToMove(n - 1))
  }

  /** X is to move exactly after an even number of moves. */
  lemma {:induction false} ToMoveParity(n: nat)
    ensures ToMove(n) == X <==> n % 2 == 0
  {
    if n > 0 {
      ToMoveParity(n - 1);
    }
  }

  /** A state with the empty board, no history, X to move and the focus on a cell is consistent. */
  lemma {:induction false} FreshConsistent(s: State)
    requires s.board == EmptyBoard && s.history == [] && s.currentPlayer == X && 0 <= s.focusIndex < 9
    ensures Consistent(s)
  {
    EmptyBoardIsFresh();
  }

  /** The invariant only reads the board, the history, the player to move and the focus. */
  lemma {:induction false} SameGameConsistent(s: State, t: State)
    requires Consistent(s)
    requires t.board == s.board && t.history == s.history && t.currentPlayer == s.currentPlayer && t.focusIndex == s.focusIndex
    ensures Consistent(t)
  {
  }

  lemma {:induction false} ResetConsistent(s: State)
    requires Consistent(s)
    ensures Consistent(ResetStep(s))
  {
    if !s.processing {
      FreshConsistent(ResetStep(s));
    }
  }

  lemma {:induction false} KeyConsistent(s: State, k: Key)
    requires Consistent(s)
    ensures Consistent(KeyStep(s, k))
  {
    if k in {Enter, Space} {
      PlayAtConsistent(s, s.focusIndex);
    }
  }

  lemma {:induction false} AiTurnConsistent(s: State, draw: real)
    requires Consistent(s)
    ensures Consistent(AiTurnStep(s, draw))
  {
    var p := Pick(s.board, AiPlayer, HumanPlayer, Randomness(s.difficulty), draw);
    if AiShouldMove(s) && p.Some? {
      PlayAtConsistent(s, p.value);
    }
  }

  /** The events a session consists of. */
  datatype Event =
    | Click(cell: Idx)
    | Press(key: Key)
    | UndoPressed
    | ResetPressed
    | BoardChanged
    | TimerFired
    | AiTimerFired(draw: real)
    | ModePicked(mode: Mode)
    | DifficultyPicked(difficulty: Difficulty)

  function Apply(s: State, e: Event): State
    requires Consistent(s)
  {
    match e
    case Click(i) => OnPlayStep(s, i)
    case Press(k) => KeyStep(s, k)
    case UndoPressed => UndoStep(s)
    case ResetPressed => ResetStep(s)
    case BoardChanged => BoardEffect(s)
    case TimerFired => Release(s)
    case AiTimerFired(draw) => AiTurnStep(s, draw)
    case ModePicked(m) => SetModeStep(s, m)
    case DifficultyPicked(d) => SetDifficultyStep(s, d)
  }

  lemma {:induction false} ApplyConsistent(s: State, e: Event)
    requires Consistent(s)
    ensures Consistent(Apply(s, e))
  {
    match e
    case Click(i) => PlayAtConsistent(s, i);
    case Press(k) => KeyConsistent(s, k);
    case UndoPressed => UndoConsistent(s);
    case ResetPressed => ResetConsistent(s);
    case BoardChanged =>
    case TimerFired =>
    case AiTimerFired(draw) => AiTurnConsistent(s, draw);
    case ModePicked(m) =>
    case DifficultyPicked(d) =>
  }

  /** The state after a sequence of events; the invariant makes every step defined. */
  function Run(s: State, es: seq<Event>): (r: State)
    requires Consistent(s)
    ensures Consistent(r)
    decreases |es|
  {
    if es == [] then s
    else
      ApplyConsistent(s, es[0]);
      Run(Apply(s, es[0]), es[1..])
  }

  /**
   * From the reset state, after any sequence of events, the board holds as
   * many marks as the history holds boards, and X is to move exactly when
   * that number is even.
   */
  lemma {:induction false} SessionInvariant(stored: Scores, es: seq<Event>)
    ensures Consistent(Initial(stored))
    ensures var r := Run(Initial(stored), es);
      && FilledCount(r.board) == |r.history|
      && (r.currentPlayer == X <==> |r.history| % 2 == 0)
      && 0 <= r.focusIndex < 9
  {
    InitialConsistent(stored);
    ToMoveParity(|Run(Initial(stored), es).history|);
  }

  // ---------------------------------------------------------------------------
  // The component

  /** The component's state, updated in place by its handlers. */
  class Game {
    var board: Board
    var history: seq<Board>
    var currentPlayer: Mark
    var mode: Mode
    var difficulty: Difficulty
    var scores: Scores
    var winningLine: Option<Line>
    var focusIndex: int
    var processing: bool

    function Snapshot(): State
      reads this
    {
      State(board, history, currentPlayer, mode, difficulty, scores, winningLine, focusIndex, processing)
    }

    ghost predicate Valid()
      reads this
    {
      Consistent(Snapshot())
    }

    /** The mounted component, with the tally read from storage. */
    constructor (stored: Scores)
      ensures Snapshot() == Initial(stored) && Valid()
    {
      board := EmptyBoard;
      history := [];
      currentPlayer := X;
      mode := Local;
      difficulty := Hard;
      scores := stored;
      winningLine := None;
      focusIndex := 0;
      processing := false;
      InitialConsistent(stored);
    }

    method PlayAt(index: Idx)
      requires Valid()
      modifies this
      ensures Snapshot() == PlayAtStep(old(Snapshot()), index) && Valid()
    {
      PlayAtConsistent(Snapshot(), index);
      if processing { return; }
      if board[index] != Empty { return; }
      if CalculateWinner(board).Win? { return; }
      history := history + [board];
      var next := board[index := Filled(currentPlayer)];
      board := next;
      currentPlayer := Other(currentPlayer);
      focusIndex := index;
    }

    method OnPlay(i: Idx)
      requires Valid()
      modifies this
      ensures Snapshot() == OnPlayStep(old(Snapshot()), i) && Valid()
    {
      if mode == Ai && currentPlayer == AiPlayer { return; }
      PlayAt(i);
    }

    method ResetGame()
      requires Valid()
      modifies this
      ensures Snapshot() == ResetStep(old(Snapshot())) && Valid()
    {
      if processing { return; }
      ghost var s := Snapshot();
      board := EmptyBoard;
      history := [];
      currentPlayer := X;
      winningLine := None;
      focusIndex := 0;
      assert Snapshot() == s.(board := EmptyBoard, history := [], currentPlayer := X, winningLine := None, focusIndex := 0);
      FreshConsistent(Snapshot());
    }

    method Undo()
      requires Valid()
      modifies this
      ensures Snapshot() == UndoStep(old(Snapshot())) && Valid()
    {
      ghost var s := Snapshot();
      UndoConsistent(s);
      if processing { return; }
      if |history| == 0 { return; }
      board := history[|history| - 1];
      history := history[..|history| - 1];
      currentPlayer := Other(currentPlayer);
      winningLine := None;
      assert Snapshot() == UndoStep(s);
    }

    method HandleKeyDown(k: Key)
      requires Valid()
      modifies this
      ensures Snapshot() == KeyStep(old(Snapshot()), k) && Valid()
    {
      if k == Enter || k == Space {
        OnPlay(focusIndex);
      } else {
        focusIndex := MoveFocus(focusIndex, k);
      }
    }

    /** The effect on `board`: outcome highlight, tally and the processing block. */
    method EvaluateBoard()
      requires Valid()
      modifies this
      ensures Snapshot() == BoardEffect(old(Snapshot())) && Valid()
    {
      ghost var s := Snapshot();
      var w := CalculateWinner(board);
      if w.Win? {
        winningLine := Some(w.line);
        if w.mark == X {
          scores := scores.(x := scores.x + 1);
        } else {
          scores := scores.(o := scores.o + 1);
        }
        processing := true;
      } else if Full(board) {
        scores := scores.(tie := scores.tie + 1);
        processing := true;
      } else {
        winningLine := None;
      }
      assert Snapshot() == BoardEffect(s);
      SameGameConsistent(s, Snapshot());
    }

    /** The timer that lifts the processing block. */
    method FinishProcessing()
      requires Valid()
      modifies this
      ensures Snapshot() == Release(old(Snapshot())) && Valid()
    {
      processing := false;
    }

    method SetMode(m: Mode)
      requires Valid()
      modifies this
      ensures Snapshot() == SetModeStep(old(Snapshot()), m) && Valid()
    {
      mode := m;
    }

    method SetDifficulty(d: Difficulty)
      requires Valid()
      modifies this
      ensures Snapshot() == SetDifficultyStep(old(Snapshot()), d) && Valid()
    {
      difficulty := d;
    }

    /**
     * The AI timer callback: `pickBestMove` runs on a copy of the board, and the
     * cell it returns is played.
     */
    method AiTurn(draw: real)
      requires Valid()
      modifies this
      ensures Snapshot() == AiTurnStep(old(Snapshot()), draw) && Valid()
    {
      if !(mode == Ai && currentPlayer == AiPlayer && CalculateWinner(board) == NoWinner && !Full(board)) {
        return;
      }
      ghost var s := Snapshot();
      var randomness := Randomness(difficulty);
      var copy := new Cell[9](i requires 0 <= i < 9 reads this => board[i]);
      assert copy[..] == board;
      var idx := PickBestMove(copy, AiPlayer, HumanPlayer, randomness, draw);
      assert Snapshot() == s;
      assert idx == Pick(s.board, AiPlayer, HumanPlayer, Randomness(s.difficulty), draw);
      if idx.Some? {
        PlayAt(idx.value);
      }
    }
  }
}
