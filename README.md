# Tic-tac-toe: minimax engine and game session

A Dafny model of the two logic files of a React tic-tac-toe game.

- `src/utils/minimax.js` is the move engine. `minimax` is an exhaustive
  max/min search. It marks each empty cell of one shared board, recurses, and
  clears the cell again. `pickBestMove` scores every empty cell that way,
  sorts the candidates by score, and returns the best one or, after a random
  draw, the second-best.
- `src/App.jsx` is the game session: the board, the history stack of saved
  boards, the player to move, the keyboard focus, the score tally and the
  `processing` block; the handlers `playAt`, `onPlay`, `undo`, `resetGame` and
  `handleKeyDown`; the effect that books the outcome of a board; and the effect
  that lets the AI (always O) move.

Files:

- `wrappers.dfy`: `Option`.
- `game_logic.dfy` (module `GameLogic`): the board, `calculateWinner` and
  `availableMoves`. The file that defines those two, `src/utils/gameLogic`, is
  not part of this model. Their definitions here are assumed from the way the
  two core files use them:
  - `calculateWinner` reports the first of the 8 lines (rows, then columns,
    then diagonals) that holds one mark, together with that line;
  - `availableMoves` lists the empty cells in increasing order.
- `minimax.dfy` (module `Minimax`): the engine, in two forms.
  - `Search` and `Pick` are functions giving the value `minimax` and
    `pickBestMove` compute. All properties are proved about them.
  - The methods `Minimax`, `TryMove`, `ScoreMoves` and `PickBestMove` do the
    same work in place on an `array<Cell>`, as the source does. Each is proved
    to leave the array exactly as it found it and to return what the function
    gives.
- `app.dfy` (module `App`): the session, in two forms.
  - A `State` datatype, with one step function per handler or effect, carries
    the properties: guards, the play/undo round trip, the score bookkeeping,
    the AI gate, and the invariant every session keeps.
  - The class `Game` holds the same fields and updates them in place. Each of
    its methods is proved to perform its step function and to keep the
    invariant.

Behaviour of the code that a reader may not expect:

- Scores are not discounted by depth, so a forced win counts as much as an
  immediate one. On `X X _ / O O _ / _ _ _` with O to move, O could win at
  once at 5. `pickBestMove` returns 2 instead (`Minimax.RowThreatBoard`):
  blocking at 2 also wins by force, and 2 comes first.
- `scoreMap` is keyed by the winning mark (O is always +10), not by the side
  the engine plays. An engine playing X therefore plays for O. On
  `X X _ / O O _ / X O X` it does not take the immediate win at 2 and returns
  5 (`Minimax.XEngineAvoidsWin`). The game always gives the engine O, so play
  is unaffected.
- `pickBestMove` on a board that has a winner but still has empty cells still
  returns a cell. Only a full board makes it fail.

## Model

| member | source | states |
|---|---|---|
| GameLogic.WinnerFrom | src/utils/minimax.js:11-12 | definition: the scan of the 8 lines from line `k` on that the assumed `calculateWinner` performs; its properties are in `GameLogic.WinnerSpec` |
| GameLogic.CalculateWinner | src/utils/minimax.js:11-12 | definition: the assumed `calculateWinner`, the first completed line with its mark; its properties are in `GameLogic.WinnerSpec` |
| GameLogic.Full | src/App.jsx:79 | definition: `board.every(Boolean)`, every cell holds a mark; its link to `availableMoves` is in `GameLogic.AvailableMoves` |
| Minimax.ScoreOf | src/utils/minimax.js:4 | definition: `scoreMap`, X -10 and O 10 (the tie score is the constant `TieScore`); its use is stated in `Minimax.SearchScore` |
| Minimax.Search | src/utils/minimax.js:10-34 | definition: the value of `minimax`: the winner's score, the tie score, or the max/min loop over `availableMoves`; its properties are in `Minimax.SearchScore` and `Minimax.SearchChoice`, and `Minimax.Minimax` computes it in place |
| Minimax.BestOf | src/utils/minimax.js:15-33 | definition: the loop over `moves[k..]` with strict `>` (maximizing) or `<` (minimizing) replacement; its properties are in `Minimax.BestOfChoice` and `Minimax.BestOfScore` |
| Minimax.Child | src/utils/minimax.js:18-29 | definition: the score of the recursive call after this ply's mark is placed on an empty cell; its properties are in `Minimax.ChildScore` |
| Minimax.Candidates | src/utils/minimax.js:39-45 | definition: the `moves` list before sorting; its properties are in `Minimax.CandidatesInOrder`, and `Minimax.ScoreMoves` builds it in place |
| Minimax.Insert | src/utils/minimax.js:46 | definition: one insertion step of the stable sort; its properties are in `Minimax.InsertElements` and `Minimax.InsertSorted` |
| Minimax.SortByScore | src/utils/minimax.js:46 | definition: `moves.sort((a, b) => b.score - a.score)` as a stable insertion sort; its properties are in `Minimax.SortByScoreSorted` and `Minimax.SortByScoreRanks` |
| Minimax.Substitutes | src/utils/minimax.js:47 | definition: the condition of the second-best substitution; used by `Minimax.PickBest` and `Minimax.PickSecond` |
| Minimax.Pick | src/utils/minimax.js:37-52 | definition: the value of `pickBestMove` for a given draw; its properties are in `Minimax.PickBest`, `Minimax.PickSecond` and `Minimax.PickFailsOnlyWhenFull`, and `Minimax.PickBestMove` computes it in place |
| App.AiShouldMove | src/App.jsx:95 | definition: the gate of the AI effect; its consequences are in `App.AiTurnStep`, `App.AiMoves` and `App.TurnsExclusive` |
| App.Apply | src/App.jsx:111-160 | definition: one event of a session (a click, a key, undo, reset, the board effect, a timer, the AI callback, the two selectors), each mapped to its step function; its invariant is in `App.ApplyConsistent` |
| GameLogic.WinnerSpec | src/utils/minimax.js:11-12 | `calculateWinner` reports no winner exactly when none of the 8 lines holds one mark; otherwise the reported line is one of the 8, holds the reported mark, and no earlier line in scan order is complete |
| GameLogic.AvailableMoves | src/utils/minimax.js:13 | the list holds exactly the empty cells, strictly increasing, and is empty exactly when the board is full |
| GameLogic.FilledPlusAvailable | src/utils/minimax.js:13 | the number of marked cells plus the number of available moves is 9 |
| GameLogic.FillShrinks | src/utils/minimax.js:17-20 | marking an empty cell removes exactly one available move, so the recursion terminates |
| GameLogic.FillCounts | src/App.jsx:117-118 | marking an empty cell adds exactly one marked cell |
| GameLogic.EmptyBoardIsFresh | src/App.jsx:20 | the empty board has no marks and no winner |
| Minimax.SearchScore | src/utils/minimax.js:4-13 | every score is -10, 0 or 10; a board O has won scores 10 and one X has won scores -10, whichever mark the engine plays; a full board without a winner scores 0; terminal nodes carry no index |
| Minimax.ChildScore | src/utils/minimax.js:18-19 | the score after marking any empty cell is -10, 0 or 10 |
| Minimax.BestOfScore | src/utils/minimax.js:16-23 | the loop value is a real score: the -Infinity/Infinity stand-in does not survive a non-empty move list |
| Minimax.BestOfPicks | src/utils/minimax.js:17-21 | the loop keeps the `best` it started from unless some move improves on it; then it ends on a listed empty cell whose score is its child's score and which improves strictly on every listed cell before it |
| Minimax.BestOfBound | src/utils/minimax.js:17-21 | no listed move improves on the final score, and neither does the starting `best` |
| Minimax.BestOfChoice | src/utils/minimax.js:15-32 | both of the above, for the maximizing (`>`) and the minimizing (`<`) loop |
| Minimax.SearchChoice | src/utils/minimax.js:15-32 | at a node with no winner and an empty cell, the index is an empty cell; no empty cell has a child score better than it (max when maximizing, min when minimizing); every earlier empty cell is strictly worse |
| Minimax.Minimax | src/utils/minimax.js:10-34 | the in-place recursion leaves the board exactly as it found it and returns the `{score, index}` that `Search` gives |
| Minimax.TryMove | src/utils/minimax.js:18-20 | one mark / recurse / clear step: board unchanged on return, score that of the board with the mark placed |
| Minimax.ScoreMoves | src/utils/minimax.js:39-45 | one candidate per empty cell in `availableMoves` order, each scored by `minimax(board with ai placed, false)`; board unchanged |
| Minimax.CandidatesInOrder | src/utils/minimax.js:39-45 | the candidate list has one entry per available move, in strictly increasing cell order, every cell empty, and contains each empty cell with its child score |
| Minimax.InsertElements | src/utils/minimax.js:46 | insertion adds exactly the new entry (as a multiset) |
| Minimax.InsertSorted | src/utils/minimax.js:46 | inserting an entry whose cell precedes all others keeps descending scores and index order among ties |
| Minimax.SortByScoreSorted | src/utils/minimax.js:46 | the sort is a permutation, by descending score, stable: equal scores keep increasing cell order |
| Minimax.SortByScoreRanks | src/utils/minimax.js:46 | rank 0 is an entry of greatest score, the earliest; rank 1 is another entry, scores no more than rank 0, and is the greatest and earliest of the rest |
| Minimax.RankedEntries | src/utils/minimax.js:39-46 | the sorted list has one entry per empty cell, each scored by its child score |
| Minimax.Ranked | src/utils/minimax.js:39-51 | rank 0 and rank 1 of the sorted list dominate every empty cell, respectively every empty cell but rank 0, with strict dominance over earlier cells |
| Minimax.PickFailsOnlyWhenFull | src/utils/minimax.js:51 | `pickBestMove` has no cell to return (reads `moves[0]` of an empty list) exactly on a full board; otherwise it returns an empty cell |
| Minimax.PickBest | src/utils/minimax.js:46-51 | without substitution (randomness 0, one candidate, or a draw not below randomness) the result is an empty cell of greatest score, the first such |
| Minimax.PickSecond | src/utils/minimax.js:47-49 | with substitution the result is an empty cell other than the best one, scoring no more than it, and the greatest and earliest of the other empty cells |
| Minimax.PickAgreesWithMinimax | src/utils/minimax.js:15-23 | without substitution `pickBestMove` returns the index `minimax(board, ai, human, true)` returns |
| Minimax.PickTakesWin | src/utils/minimax.js:39-51 | playing O without substitution, when some empty cell wins at once, the chosen cell scores 10 |
| Minimax.OnlyMoverCanWin | src/utils/minimax.js:11-12 | on a board with no winner, a new mark can only complete lines for itself |
| Minimax.WinningLine | src/App.jsx:56-59 | the line `calculateWinner` reports is one of the 8 and holds the winner's mark |
| Minimax.CompletedLineWins | src/utils/minimax.js:11-12 | a board on which some line holds one mark has a winner |
| Minimax.ThreatSurvives | src/utils/minimax.js:17-31 | a winning cell of one mark stays winning after anyone marks another empty cell that does not itself win |
| Minimax.UnblockedThreatLoses | src/utils/minimax.js:15-32 | playing O: when X threatens a line at `t` and O's move elsewhere does not win, that move scores -10 |
| Minimax.PickBlocks | src/utils/minimax.js:39-51 | playing O without substitution: when X threatens at `t`, O cannot win this move, and blocking does not lose, the result is `t` |
| Minimax.WinningMoveScores | src/utils/minimax.js:15-23 | a maximizing node for O with an immediately winning empty cell scores 10 |
| Minimax.AllRepliesScore | src/utils/minimax.js:24-32 | a minimizing node where every reply scores 10 scores 10 |
| Minimax.RowThreatReply | src/utils/minimax.js:24-32 | on `X X O / O O _ / _ _ _` every reply of X leaves O a win |
| Minimax.RowThreatBlockWins | src/utils/minimax.js:17-22 | on `X X _ / O O _ / _ _ _` blocking at 2 scores 10 for O |
| Minimax.RowThreatBoard | src/utils/minimax.js:37-51 | on `X X _ / O O _ / _ _ _`, O to play at randomness 0, the result is 2 |
| Minimax.PickFirstTop | src/utils/minimax.js:46-51 | without substitution, an empty cell scoring 10 before which no empty cell scores 10 is the result |
| Minimax.EdgeBoardWinScoresLow | src/utils/minimax.js:4-12 | on `X X _ / O O _ / X O X`, X's winning cell 2 scores -10 |
| Minimax.EdgeBoardOtherTies | src/utils/minimax.js:24-32 | on the same board X at 5 scores 0: the board fills without a winner |
| Minimax.XEngineAvoidsWin | src/utils/minimax.js:37-51 | an engine playing X on that board, at randomness 0, returns 5, not the immediate win at 2 |
| Minimax.PickBestMove | src/utils/minimax.js:37-52 | the in-place `pickBestMove` leaves the board as it found it and returns the value of `Pick` |
| App.Other | src/App.jsx:120 | the toggle always changes the mark |
| App.Initial | src/App.jsx:26-41 | the mounted state: empty board, no history, X to move, the stored scores, focus 0, nothing processing |
| App.PlayAtStep | src/App.jsx:111-122 | a no-op while processing, on a filled cell, or once the board has a winner; otherwise the old board is appended to history, exactly the chosen cell gets the current mark, the turn passes, the focus moves there, nothing else changes |
| App.OnPlayStep | src/App.jsx:125-128 | a click is ignored in AI mode on O's turn and is `playAt` otherwise |
| App.UndoStep | src/App.jsx:139-147 | a no-op while processing or with empty history; otherwise the board becomes the last saved one, which is popped, the turn passes back, the highlight clears, nothing else changes |
| App.ResetStep | src/App.jsx:130-137 | a no-op while processing; otherwise the empty board, no history, X to move, no highlight, focus 0, scores and settings kept |
| App.SetModeStep | src/App.jsx:32 | the mode selector changes the mode and nothing else |
| App.SetDifficultyStep | src/App.jsx:33 | the difficulty selector changes the difficulty and nothing else |
| App.MoveFocus | src/App.jsx:155-158 | every arrow keeps the focus in 0..8: Right and Left step with wrap-around, Down and Up move a row with wrap-around; other keys keep it |
| App.FocusInverses | src/App.jsx:155-158 | Right and Left undo each other, and so do Down and Up |
| App.FocusDownKeepsColumn | src/App.jsx:151-157 | Down keeps the column and moves one row down, from the bottom row to the top |
| App.KeyStep | src/App.jsx:150-160 | Enter and Space play the focused cell through `onPlay`; any other key only moves the focus |
| App.BoardEffect | src/App.jsx:55-87 | a winner raises only its own count, highlights its line and sets `processing`; a full board without a winner raises only `tie` and sets `processing`; any other board clears the highlight and keeps the tally; the total rises by one exactly when the game is over |
| App.Release | src/App.jsx:76-84 | the timer clears `processing` and nothing else |
| App.Randomness | src/App.jsx:99 | easy 0.6, medium 0.2, hard 0: always in [0, 1), and 0 exactly on hard |
| App.AiTurnStep | src/App.jsx:94-105 | outside the gate (AI mode, O to move, no winner, an empty cell) the AI does nothing |
| App.AiMoves | src/App.jsx:95-103 | inside the gate, with nothing processing, the AI puts O on an empty cell, saves the old board and passes the turn to X; without substitution that cell has the greatest score |
| App.HardPlaysMinimax | src/App.jsx:99-102 | on hard the AI plays exactly the cell `minimax(board, O, X, true)` reports |
| App.TurnsExclusive | src/App.jsx:95-126 | in AI mode a human click does nothing on O's turn, and the AI does nothing on X's turn |
| App.PlayThenUndo | src/App.jsx:116-145 | `playAt(i)` then `undo()` restores board, history and player to move, also with the board effect and its timer in between |
| App.ToMoveParity | src/App.jsx:116-120 | after `n` moves from a reset the player to move is X exactly when `n` is even |
| App.InitialConsistent | src/App.jsx:26-41 | the mounted state keeps the session invariant (marks = saved boards, the k-th saved board has k marks, the player to move follows from the count, focus a cell) |
| App.FreshConsistent | src/App.jsx:130-137 | any state with an empty board, no history, X to move and a focus on a cell keeps the invariant |
| App.PlayAtConsistent | src/App.jsx:111-122 | `playAt` keeps the invariant |
| App.UndoConsistent | src/App.jsx:139-147 | `undo` keeps the invariant |
| App.ResetConsistent | src/App.jsx:130-137 | `resetGame` keeps the invariant |
| App.KeyConsistent | src/App.jsx:150-160 | `handleKeyDown` keeps the invariant |
| App.AiTurnConsistent | src/App.jsx:92-108 | the AI move keeps the invariant |
| App.SameGameConsistent | src/App.jsx:55-87 | steps that keep board, history, player and focus (the board effect, the timers, the selectors) keep the invariant |
| App.ApplyConsistent | src/App.jsx:111-160 | every event of a session keeps the invariant |
| App.Run | src/App.jsx:111-160 | a session of any events from a consistent state ends consistent |
| App.SessionInvariant | src/App.jsx:116-145 | from the reset state, after any events, the board has as many marks as the history has boards, X is to move exactly when that number is even, and the focus is a cell |
| App.Game.constructor | src/App.jsx:26-41 | the mounted component is the initial state |
| App.Game.PlayAt | src/App.jsx:111-122 | the in-place `playAt` performs `PlayAtStep` and keeps the invariant |
| App.Game.OnPlay | src/App.jsx:125-128 | performs `OnPlayStep` and keeps the invariant |
| App.Game.ResetGame | src/App.jsx:130-137 | performs `ResetStep` and keeps the invariant |
| App.Game.Undo | src/App.jsx:139-147 | performs `UndoStep` and keeps the invariant |
| App.Game.HandleKeyDown | src/App.jsx:150-160 | performs `KeyStep` and keeps the invariant |
| App.Game.EvaluateBoard | src/App.jsx:55-87 | performs `BoardEffect` and keeps the invariant |
| App.Game.FinishProcessing | src/App.jsx:76-84 | performs `Release` and keeps the invariant |
| App.Game.SetMode | src/App.jsx:32 | performs `SetModeStep` and keeps the invariant |
| App.Game.SetDifficulty | src/App.jsx:33 | performs `SetDifficultyStep` and keeps the invariant |
| App.Game.AiTurn | src/App.jsx:92-108 | runs `pickBestMove` on a copy of the board, plays its cell, performs `AiTurnStep` and keeps the invariant |

## Left out

- `src/utils/gameLogic` is not part of this model: `calculateWinner` and `availableMoves` are assumed definitions, stated at the top of `game_logic.dfy`.
- localStorage (src/App.jsx:26-29, 34-37, 47-52) is I/O. The mounted state is the board `resetGame` produces, and the stored tally is a parameter of `Initial`. A stored half-played board is not modelled.
- The confetti call and `console.warn` (src/App.jsx:65-75) belong to a foreign library and to logging.
- Timers: the delays that clear `processingRef` (src/App.jsx:76-78, 84) are the separate step `Release`. The AI delay (src/App.jsx:97, 104-106), including the `Math.random()` that sets its length at src/App.jsx:104, is not modelled, and neither is its cancellation; the AI callback is the step `AiTurnStep` fired when the session chooses.
- Apply: the board effect is the free event `BoardChanged`, so a modelled session may run it zero times or several times after one change of `board`; the source runs it exactly once per change (dependency list `[board]`, src/App.jsx:89). The session invariant does not read the tally, so `App.SessionInvariant` does not depend on this, but the model does not promise that each finished game is booked exactly once.
- React state updates are applied at once and in order. Every functional setter is treated as an assignment.
- The `Math.random()` of `pickBestMove` (src/utils/minimax.js:47) is the `draw` parameter.
- `-Infinity` and `Infinity` (src/utils/minimax.js:16, 25) are -11 and 11. Every real score lies strictly between them.
- On a full board `moves[0].index` throws (src/utils/minimax.js:51). `Pick` returns `None` there, and `AiTurnStep` plays nothing; the AI gate rules that board out anyway.
- `Array.prototype.sort` (src/utils/minimax.js:46) is a stable insertion sort on a `seq`, not an in-place sort. Any stable sort gives the same list.
- Focus clamping and DOM focus (src/App.jsx:163-176) are UI glue. The model keeps the focus in 0..8 as part of the session invariant instead.
- MoveFocus: requires a focus in 0..8, which every reachable state has (`App.Consistent`); the clamping effect of src/App.jsx:163-166 would repair any other value.
- KeyStep: requires a focus in 0..8, for the same reason.
- PickTakesWin: states that the chosen cell scores 10, not that it is the immediately winning cell, because scores are not discounted by depth (`Minimax.RowThreatBoard` shows a board where they differ). It is stated for an engine playing O only, because the scores are O's.
- PickBlocks: stated for an engine playing O only, for the same reason. It also requires that blocking at `t` does not score -10; that condition is needed, not a convenience: when X has two threats every O cell scores -10, and the source then returns the first empty cell, which need not be `t`.
- AiTurnStep: its own contract only states the gate. What the move does is stated by `App.AiMoves` and `App.HardPlaysMinimax`.
- The value of the empty board under perfect play (a tie) is not proved: it would need the verifier to explore the whole game tree.
- Rendering (`src/components/*.jsx`) and the build configuration are not modelled.
