/**
 * The board and its two queries, `calculateWinner` and `availableMoves`.
 *
 * The module that defines these two in the application (src/utils/gameLogic)
 * is not part of this model: the definitions below are ASSUMED from the way
 * minimax.js and App.jsx use them, not transcribed.
 *  - CalculateWinner reports the first of the 8 lines (rows, columns,
 *    diagonals, in that order) whose three cells hold the same mark,
 *    together with that line;
 *  - AvailableMoves lists the empty cells in increasing order.
 */
module GameLogic {

  datatype Mark = X | O

  /** A cell is `null` (Empty) or holds a mark. */
  datatype Cell = Empty | Filled(mark: Mark)

  const EmptyBoard: seq<Cell> := [Empty, Empty, Empty, Empty, Empty, Empty, Empty, Empty, Empty]

  /** Nine cells in row-major order: index = row * 3 + column. */
  type Board = b: seq<Cell> | |b| == 9 witness EmptyBoard

  /** A cell index. */
  type Idx = i: nat | i < 9

  /** Three cell indices that win when they hold the same mark. */
  datatype Line = Line(a: Idx, b: Idx, c: Idx)

  /** The fixed scan order: rows top to bottom, columns left to right, then the two diagonals. */
  const Lines: seq<Line> := [
    Line(0, 1, 2), Line(3, 4, 5), Line(6, 7, 8),
    Line(0, 3, 6), Line(1, 4, 7), Line(2, 5, 8),
    Line(0, 4, 8), Line(2, 4, 6)
  ]

  /** All three cells of `l` hold the mark `m`. */
  predicate Completes(b: Board, l: Line, m: Mark) {
    b[l.a] == Filled(m) && b[l.b] == Filled(m) && b[l.c] == Filled(m)
  }

  /** The three cells of `l` hold one and the same mark. */
  predicate Won(b: Board, l: Line) {
    b[l.a] != Empty && b[l.a] == b[l.b] && b[l.a] == b[l.c]
  }

  /** The result of `calculateWinner`: `{winner, line}`, both null when nobody has won. */
  datatype Winner = NoWinner | Win(mark: Mark, line: Line)

  /** Scan Lines[k..] and report the first completed line. */
  function WinnerFrom(b: Board, k: nat): Winner
    requires k <= |Lines|
    decreases |Lines| - k
  {
    if k == |Lines| then NoWinner
    else
      var l := Lines[k];
      if Won(b, l) then Win(b[l.a].mark, l)
      else WinnerFrom(b, k + 1)
  }

  /** `calculateWinner(board)`: the first completed line in scan order, with its mark. */
  function CalculateWinner(b: Board): Winner {
    WinnerFrom(b, 0)
  }

  lemma {:induction false} WinnerFromSpec(b: Board, k: nat)
    requires k <= |Lines|
    ensures WinnerFrom(b, k).NoWinner? <==> forall j :: k <= j < |Lines| ==> !Won(b, Lines[j])
    ensures var r := WinnerFrom(b, k);
      r.Win? ==> exists p :: k <= p < |Lines| && Lines[p] == r.line
                   && Completes(b, r.line, r.mark)
                   && forall j :: k <= j < p ==> !Won(b, Lines[j])
    decreases |Lines| - k
  {
    if k < |Lines| {
      WinnerFromSpec(b, k + 1);
    }
  }

  /**
   * There is no winner exactly when no line is completed; otherwise the
   * reported line is one of the 8, it holds the reported mark, and no line
   * before it in scan order is completed.
   */
  lemma {:induction false} WinnerSpec(b: Board)
    ensures CalculateWinner(b).NoWinner? <==> forall j :: 0 <= j < |Lines| ==> !Won(b, Lines[j])
    ensures var r := CalculateWinner(b);
      r.Win? ==> exists p :: 0 <= p < |Lines| && Lines[p] == r.line
                   && Completes(b, r.line, r.mark)
                   && forall j :: 0 <= j < p ==> !Won(b, Lines[j])
  {
    WinnerFromSpec(b, 0);
  }

  /** Every cell holds a mark (`board.every(Boolean)`). */
  predicate Full(b: Board) {
    forall i :: 0 <= i < 9 ==> b[i] != Empty
  }

  /** The empty cells with index at least `k`, in increasing order. */
  function EmptyFrom(b: Board, k: nat): (r: seq<nat>)
    requires k <= 9
    ensures |r| <= 9 - k
    ensures forall p :: 0 <= p < |r| ==> k <= r[p] < 9 && b[r[p]] == Empty
    ensures forall p, q :: 0 <= p < q < |r| ==> r[p] < r[q]
    ensures forall i :: k <= i < 9 && b[i] == Empty ==> i in r
    decreases 9 - k
  {
    if k == 9 then []
    else if b[k] == Empty then [k] + EmptyFrom(b, k + 1)
    else EmptyFrom(b, k + 1)
  }

  /** `availableMoves(board)`: exactly the empty cells, in increasing order. */
  function AvailableMoves(b: Board): (r: seq<nat>)
    ensures |r| <= 9
    ensures forall p :: 0 <= p < |r| ==> r[p] < 9 && b[r[p]] == Empty
    ensures forall p, q :: 0 <= p < q < |r| ==> r[p] < r[q]
    ensures forall i :: 0 <= i < 9 && b[i] == Empty ==> i in r
    ensures r == [] <==> Full(b)
  {
    var r := EmptyFrom(b, 0);
    assert r != [] ==> b[r[0]] == Empty;
    r
  }

  /** The number of cells with index at least `k` that hold a mark. */
  function FilledFrom(b: Board, k: nat): nat
    requires k <= 9
    decreases 9 - k
  {
    if k == 9 then 0 else (if b[k] == Empty then 0 else 1) + FilledFrom(b, k + 1)
  }

  /** The number of cells that hold a mark. */
  function FilledCount(b: Board): nat {
    FilledFrom(b, 0)
  }

  lemma {:induction false} CountsFrom(b: Board, k: nat)
    requires k <= 9
    ensures FilledFrom(b, k) + |EmptyFrom(b, k)| == 9 - k
    decreases 9 - k
  {
    if k < 9 {
      CountsFrom(b, k + 1);
    }
  }

  /** Every cell is either filled or an available move. */
  lemma {:induction false} FilledPlusAvailable(b: Board)
    ensures FilledCount(b) + |AvailableMoves(b)| == 9
  {
    CountsFrom(b, 0);
  }

  lemma {:induction false} FillCountsFrom(b: Board, i: nat, m: Mark, k: nat)
    requires i < 9 && b[i] == Empty && k <= 9
    ensures FilledFrom(b[i := Filled(m)], k) == FilledFrom(b, k) + (if k <= i then 1 else 0)
    decreases 9 - k
  {
    if k < 9 {
      FillCountsFrom(b, i, m, k + 1);
    }
  }

  /** Marking an empty cell adds exactly one filled cell. */
  lemma {:induction false} FillCounts(b: Board, i: nat, m: Mark)
    requires i < 9 && b[i] == Empty
    ensures FilledCount(b[i := Filled(m)]) == FilledCount(b) + 1
  {
    FillCountsFrom(b, i, m, 0);
  }

  /** Marking an empty cell removes exactly one available move. */
  lemma {:induction false} FillShrinks(b: Board, i: nat, m: Mark)
    requires i < 9 && b[i] == Empty
    ensures |AvailableMoves(b[i := Filled(m)])| == |AvailableMoves(b)| - 1
  {
    FillCounts(b, i, m);
    FilledPlusAvailable(b);
    FilledPlusAvailable(b[i := Filled(m)]);
  }

  lemma {:induction false} AllEmptyFrom(k: nat)
    requires k <= 9
    ensures |EmptyFrom(EmptyBoard, k)| == 9 - k
    decreases 9 - k
  {
    if k < 9 {
      AllEmptyFrom(k + 1);
    }
  }

  /** The empty board has no filled cell and no winner. */
  lemma {:induction false} EmptyBoardIsFresh()
    ensures FilledCount(EmptyBoard) == 0
    ensures CalculateWinner(EmptyBoard) == NoWinner
  {
    AllEmptyFrom(0);
    FilledPlusAvailable(EmptyBoard);
    WinnerSpec(EmptyBoard);
  }
}
