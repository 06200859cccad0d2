/**
 * The move engine of src/utils/minimax.js.
 *
 * `Search` is the value the recursion `minimax(board, aiPlayer, humanPlayer,
 * isMaximizng)` computes, written as a function; the method `Minimax` is the
 * recursion itself, over one mutable board that every branch marks and then
 * resets.  `Pick` and the method `PickBestMove` are the same pair for
 * `pickBestMove`.
 */
module Minimax {
  import opened Wrappers
  import opened GameLogic

  /** `scoreMap[mark]`: keyed by the winning mark, not by the side the engine plays. */
  function ScoreOf(m: Mark): int {
    match m
    case X => -10
    case O => 10
  }

  /** `scoreMap.tie`. */
  const TieScore := 0

  /** Stand-ins for the `-Infinity` / `Infinity` that `best` starts from: beyond every score. */
  const MinusInfinity := -11
  const PlusInfinity := 11

  predicate IsScore(s: int) {
    s == -10 || s == 0 || s == 10
  }

  /** The `{score, index}` object; `index` is absent at a terminal node. */
  datatype Node = Node(score: int, index: Option<Idx>)

  /** The mark placed at this ply: the engine's when maximizing, the opponent's otherwise. */
  function Mover(ai: Mark, human: Mark, maximizing: bool): Mark {
    if maximizing then ai else human
  }

  /** The replacement test of the loop: strict `>` when maximizing, strict `<` when minimizing. */
  predicate Improves(maximizing: bool, s: int, current: int) {
    if maximizing then s > current else s < current
  }

  /** Number of empty cells: the recursion depth still possible. */
  function Pending(b: Board): nat {
    |AvailableMoves(b)|
  }

  /** Every listed move is an empty cell of `b`. */
  predicate AllEmpty(b: Board, moves: seq<nat>) {
    forall p :: 0 <= p < |moves| ==> moves[p] < 9 && b[moves[p]] == Empty
  }

  /** Every listed move is an empty cell and the list is strictly increasing. */
  predicate Ascending(moves: seq<nat>) {
    forall p, q :: 0 <= p < q < |moves| ==> moves[p] < moves[q]
  }

  /** The value of `minimax(b, ai, human, maximizing)`. */
  function Search(b: Board, ai: Mark, human: Mark, maximizing: bool): Node
    decreases Pending(b), 1, 0
  {
    match CalculateWinner(b)
    case Win(m, _) => Node(ScoreOf(m), None)
    case NoWinner =>
      var moves := AvailableMoves(b);
      if moves == [] then Node(TieScore, None)
      else BestOf(b, ai, human, maximizing, moves, 0, Node(if maximizing then MinusInfinity else PlusInfinity, None))
  }

  /** The loop over `moves[k..]`, starting from the running `best`. */
  function BestOf(b: Board, ai: Mark, human: Mark, maximizing: bool, moves: seq<nat>, k: nat, best: Node): Node
    requires AllEmpty(b, moves) && k <= |moves|
    decreases Pending(b), 0, |moves| - k
  {
    if k == |moves| then best
    else
      var s := Child(b, ai, human, maximizing, moves[k]);
      var next := if Improves(maximizing, s, best.score) then Node(s, Some(moves[k] as Idx)) else best;
      BestOf(b, ai, human, maximizing, moves, k + 1, next)
  }

  /** The score of the reply after this ply's mark is placed on the empty cell `i`. */
  function Child(b: Board, ai: Mark, human: Mark, maximizing: bool, i: Idx): int
    requires b[i] == Empty
    decreases Pending(b), 0, 0
  {
    FillShrinks(b, i, Mover(ai, human, maximizing));
    Search(b[i := Filled(Mover(ai, human, maximizing))], ai, human, !maximizing).score
  }

  // ---------------------------------------------------------------------------
  // Scores

  /**
   * Every score is -10, 0 or 10: a win by O scores 10 and a win by X scores -10
   * whichever mark the engine plays, a full board without a winner scores 0, and
   * the infinite stand-ins never survive a non-terminal node.
   */
  lemma {:induction false} SearchScore(b: Board, ai: Mark, human: Mark, maximizing: bool)
    ensures IsScore(Search(b, ai, human, maximizing).score)
    ensures CalculateWinner(b).Win? && CalculateWinner(b).mark == O ==> Search(b, ai, human, maximizing) == Node(10, None)
    ensures CalculateWinner(b).Win? && CalculateWinner(b).mark == X ==> Search(b, ai, human, maximizing) == Node(-10, None)
    ensures CalculateWinner(b) == NoWinner && Full(b) ==> Search(b, ai, human, maximizing) == Node(0, None)
    decreases Pending(b), 1, 0
  {
    if CalculateWinner(b) == NoWinner {
      var moves := AvailableMoves(b);
      if moves != [] {
        BestOfScore(b, ai, human, maximizing, moves, 0, Node(if maximizing then MinusInfinity else PlusInfinity, None));
      }
    }
  }

  lemma {:induction false} BestOfScore(b: Board, ai: Mark, human: Mark, maximizing: bool, moves: seq<nat>, k: nat, best: Node)
    requires AllEmpty(b, moves) && k <= |moves|
    requires IsScore(best.score) || (k < |moves| && best.score == if maximizing then MinusInfinity else PlusInfinity)
    ensures IsScore(BestOf(b, ai, human, maximizing, moves, k, best).score)
    decreases Pending(b), 0, |moves| - k
  {
    if k < |moves| {
      var s := Child(b, ai, human, maximizing, moves[k]);
      ChildScore(b, ai, human, maximizing, moves[k]);
      var next := if Improves(maximizing, s, best.score) then Node(s, Some(moves[k] as Idx)) else best;
      BestOfScore(b, ai, human, maximizing, moves, k + 1, next);
    }
  }

  lemma {:induction false} ChildScore(b: Board, ai: Mark, human: Mark, maximizing: bool, i: Idx)
    requires b[i] == Empty
    ensures IsScore(Child(b, ai, human, maximizing, i))
    decreases Pending(b), 0, 0
  {
    FillShrinks(b, i, Mover(ai, human, maximizing));
    SearchScore(b[i := Filled(Mover(ai, human, maximizing))], ai, human, !maximizing);
  }

  // ---------------------------------------------------------------------------
  // The choice at a non-terminal node

  /**
   * The loop ends either on the `best` it started from, when no move improves
   * on it, or on a listed move whose score no move improves on and that improves
   * strictly on every move listed before it.
   */
  lemma {:induction false} BestOfChoice(b: Board, ai: Mark, human: Mark, maximizing: bool, moves: seq<nat>, k: nat, best: Node)
    requires AllEmpty(b, moves) && Ascending(moves) && k <= |moves|
    ensures var r := BestOf(b, ai, human, maximizing, moves, k, best);
      && (!Improves(maximizing, r.score, best.score) ==> r == best)
      && (Improves(maximizing, r.score, best.score) ==>
            && r.index.Some? && r.index.value in moves[k..] && b[r.index.value] == Empty
            && r.score == Child(b, ai, human, maximizing, r.index.value)
            && forall p :: k <= p < |moves| && moves[p] < r.index.value ==>
                 Improves(maximizing, r.score, Child(b, ai, human, maximizing, moves[p])))
      && forall p :: k <= p < |moves| ==> !Improves(maximizing, Child(b, ai, human, maximizing, moves[p]), r.score)
  {
    BestOfPicks(b, ai, human, maximizing, moves, k, best);
    BestOfBound(b, ai, human, maximizing, moves, k, best);
  }

  /** The loop keeps `best` or ends on a listed move that improves strictly on every move listed before it. */
  lemma {:induction false} BestOfPicks(b: Board, ai: Mark, human: Mark, maximizing: bool, moves: seq<nat>, k: nat, best: Node)
    requires AllEmpty(b, moves) && Ascending(moves) && k <= |moves|
    ensures var r := BestOf(b, ai, human, maximizing, moves, k, best);
      && (!Improves(maximizing, r.score, best.score) ==> r == best)
      && (Improves(maximizing, r.score, best.score) ==>
            && r.index.Some? && r.index.value in moves[k..] && b[r.index.value] == Empty
            && r.score == Child(b, ai, human, maximizing, r.index.value)
            && forall p :: k <= p < |moves| && moves[p] < r.index.value ==>
                 Improves(maximizing, r.score, Child(b, ai, human, maximizing, moves[p])))
    decreases |moves| - k
  {
    if k < |moves| {
      var s := Child(b, ai, human, maximizing, moves[k]);
      var next := if Improves(maximizing, s, best.score) then Node(s, Some(moves[k] as Idx)) else best;
      BestOfPicks(b, ai, human, maximizing, moves, k + 1, next);
    }
  }

  /** No listed move improves on the score the loop ends with, nor does the `best` it started from. */
  lemma {:induction false} BestOfBound(b: Board, ai: Mark, human: Mark, maximizing: bool, moves: seq<nat>, k: nat, best: Node)
    requires AllEmpty(b, moves) && k <= |moves|
    ensures var r := BestOf(b, ai, human, maximizing, moves, k, best);
      && !Improves(maximizing, best.score, r.score)
      && forall p :: k <= p < |moves| ==> !Improves(maximizing, Child(b, ai, human, maximizing, moves[p]), r.score)
    decreases |moves| - k
  {
    if k < |moves| {
      var s := Child(b, ai, human, maximizing, moves[k]);
      var next := if Improves(maximizing, s, best.score) then Node(s, Some(moves[k] as Idx)) else best;
      BestOfBound(b, ai, human, maximizing, moves, k + 1, next);
      var r := BestOf(b, ai, human, maximizing, moves, k + 1, next);
      assert BestOf(b, ai, human, maximizing, moves, k, best) == r;
      assert !Improves(maximizing, s, next.score) && !Improves(maximizing, best.score, next.score);
      forall p | k <= p < |moves| ensures !Improves(maximizing, Child(b, ai, human, maximizing, moves[p]), r.score) {
        if p == k {
          assert Child(b, ai, human, maximizing, moves[p]) == s;
        }
      }
    }
  }

  /**
   * At a node with no winner and an empty cell, `minimax` returns an empty cell
   * whose child score is the maximum (when maximizing) or the minimum (when
   * minimizing) over all empty cells, and it is the first such cell: every
   * empty cell before it scores strictly worse.
   */
  lemma {:induction false} SearchChoice(b: Board, ai: Mark, human: Mark, maximizing: bool)
    requires CalculateWinner(b) == NoWinner && !Full(b)
    ensures var r := Search(b, ai, human, maximizing);
      && r.index.Some? && b[r.index.value] == Empty
      && r.score == Child(b, ai, human, maximizing, r.index.value)
      && (forall j :: 0 <= j < 9 && b[j] == Empty ==>
            !Improves(maximizing, Child(b, ai, human, maximizing, j), r.score))
      && (forall j :: 0 <= j < r.index.value && b[j] == Empty ==>
            Improves(maximizing, r.score, Child(b, ai, human, maximizing, j)))
  {
    var moves := AvailableMoves(b);
    var start := Node(if maximizing then MinusInfinity else PlusInfinity, None);
    var r := Search(b, ai, human, maximizing);
    assert r == BestOf(b, ai, human, maximizing, moves, 0, start);
    BestOfChoice(b, ai, human, maximizing, moves, 0, start);
    BestOfScore(b, ai, human, maximizing, moves, 0, start);
    assert Improves(maximizing, r.score, start.score);
    forall j | 0 <= j < 9 && b[j] == Empty
      ensures !Improves(maximizing, Child(b, ai, human, maximizing, j), r.score)
      ensures j < r.index.value ==> Improves(maximizing, r.score, Child(b, ai, human, maximizing, j))
    {
      var p :| 0 <= p < |moves| && moves[p] == j;
    }
  }

  // ---------------------------------------------------------------------------
  // The recursion, in place

  /** One turn of the loop: try `moves[k]`, whose reply scores `s`. */
  lemma {:induction false} BestOfStep(b: Board, ai: Mark, human: Mark, maximizing: bool, moves: seq<nat>, k: nat, best: Node, s: int)
    requires AllEmpty(b, moves) && k < |moves|
    requires s == Search(b[moves[k] := Filled(Mover(ai, human, maximizing))], ai, human, !maximizing).score
    ensures BestOf(b, ai, human, maximizing, moves, k, best)
         == BestOf(b, ai, human, maximizing, moves, k + 1,
                   if Improves(maximizing, s, best.score) then Node(s, Some(moves[k] as Idx)) else best)
  {
  }

  /**
   * `minimax`: the board is exactly as it was on return, and the result is
   * the value `Search` gives it.
   */
  method Minimax(board: array<Cell>, ai: Mark, human: Mark, maximizing: bool) returns (score: int, index: Option<Idx>)
    requires board.Length == 9
    modifies board
    ensures board[..] == old(board[..])
    ensures Node(score, index) == Search(old(board[..]), ai, human, maximizing)
    decreases Pending(board[..]), 1
  {
    var b: Board := board[..];
    var w := CalculateWinner(b);
    if w.Win? {
      return ScoreOf(w.mark), None;
    }
    var moves := AvailableMoves(b);
    if |moves| == 0 {
      return TieScore, None;
    }
    var best: Node;
    if maximizing {
      best := Node(MinusInfinity, None);
      ghost var target := Search(b, ai, human, true);
      assert BestOf(b, ai, human, true, moves, 0, best) == target;
      for k := 0 to |moves|
        invariant board[..] == b
        invariant BestOf(b, ai, human, true, moves, k, best) == target
      {
        var idx: Idx := moves[k];
        var s := TryMove(board, idx, ai, ai, human, false);
        BestOfStep(b, ai, human, true, moves, k, best, s);
        if s > best.score {
          best := Node(s, Some(idx));
        }
      }
    } else {
      best := Node(PlusInfinity, None);
      ghost var target := Search(b, ai, human, false);
      assert BestOf(b, ai, human, false, moves, 0, best) == target;
      for k := 0 to |moves|
        invariant board[..] == b
        invariant BestOf(b, ai, human, false, moves, k, best) == target
      {
        var idx: Idx := moves[k];
        var s := TryMove(board, idx, human, ai, human, true);
        BestOfStep(b, ai, human, false, moves, k, best, s);
        if s < best.score {
          best := Node(s, Some(idx));
        }
      }
    }
    return best.score, best.index;
  }

  /**
   * One speculative move: write `mark` into the empty cell `idx`, score the
   * reply, and reset the cell to empty.
   */
  method TryMove(board: array<Cell>, idx: Idx, mark: Mark, ai: Mark, human: Mark, maximizing: bool) returns (s: int)
    requires board.Length == 9 && board[idx] == Empty
    modifies board
    ensures board[..] == old(board[..])
    ensures s == Search(old(board[..])[idx := Filled(mark)], ai, human, maximizing).score
    decreases Pending(board[..]), 0
  {
    ghost var b: Board := board[..];
    board[idx] := Filled(mark);
    assert board[..] == b[idx := Filled(mark)];
    FillShrinks(b, idx, mark);
    var index;
    s, index := Minimax(board, ai, human, maximizing);
    board[idx] := Empty;
    assert board[..] == b[idx := Filled(mark)][idx := Empty] == b;
  }

  // ---------------------------------------------------------------------------
  // pickBestMove

  /** An entry `{index, score}` of the `moves` list. */
  datatype Candidate = Candidate(index: Idx, score: int)

  /**
   * The `moves` list before sorting: one entry per empty cell, in
   * `availableMoves` order, scored by placing the engine's mark there and
   * searching the opponent's reply (`minimax(board, ai, human, false)`).
   */
  function Candidates(b: Board, ai: Mark, human: Mark): seq<Candidate> {
    var moves := AvailableMoves(b);
    seq(|moves|, k requires 0 <= k < |moves| => Candidate(moves[k], Child(b, ai, human, true, moves[k])))
  }

  /** Scores never increase from left to right. */
  predicate Descending(s: seq<Candidate>) {
    forall i, j :: 0 <= i < j < |s| ==> s[i].score >= s[j].score
  }

  /** Among equal scores, cell indices increase from left to right. */
  predicate TiesInIndexOrder(s: seq<Candidate>) {
    forall i, j :: 0 <= i < j < |s| && s[i].score == s[j].score ==> s[i].index < s[j].index
  }

  /** Cell indices increase strictly from left to right. */
  predicate IndexOrder(s: seq<Candidate>) {
    forall i, j :: 0 <= i < j < |s| ==> s[i].index < s[j].index
  }

  /** Insert `c` before the first entry that does not score more than it. */
  function Insert(c: Candidate, s: seq<Candidate>): seq<Candidate> {
    if s == [] then [c]
    else if s[0].score <= c.score then [c] + s
    else [s[0]] + Insert(c, s[1..])
  }

  /**
   * `moves.sort((a, b) => b.score - a.score)`: a stable sort by descending
   * score (an insertion sort here; any stable sort gives the same list).
   */
  function SortByScore(s: seq<Candidate>): seq<Candidate> {
    if s == [] then [] else Insert(s[0], SortByScore(s[1..]))
  }

  /** Prefixing an entry that dominates every later one keeps the order. */
  lemma {:induction false} ConsSorted(h: Candidate, r: seq<Candidate>)
    requires Descending(r) && TiesInIndexOrder(r)
    requires forall k :: 0 <= k < |r| ==> h.score >= r[k].score && (h.score == r[k].score ==> h.index < r[k].index)
    ensures Descending([h] + r) && TiesInIndexOrder([h] + r)
  {
    var q := [h] + r;
    forall i, j | 0 <= i < j < |q| ensures q[i].score >= q[j].score && (q[i].score == q[j].score ==> q[i].index < q[j].index) {
      assert q[j] == r[j - 1];
      if i > 0 {
        assert q[i] == r[i - 1];
      }
    }
  }

  /** Insertion adds `c` and keeps every entry. */
  lemma {:induction false} InsertElements(c: Candidate, s: seq<Candidate>)
    ensures multiset(Insert(c, s)) == multiset(s) + multiset{c}
    ensures forall x :: x in Insert(c, s) <==> x == c || x in s
  {
    if s != [] && s[0].score > c.score {
      assert s == [s[0]] + s[1..];
      InsertElements(c, s[1..]);
    }
  }

  /** Insertion of an entry with a smaller cell index than all others keeps the order and the ties. */
  lemma {:induction false} InsertSorted(c: Candidate, s: seq<Candidate>)
    requires Descending(s) && TiesInIndexOrder(s)
    requires forall k :: 0 <= k < |s| ==> c.index < s[k].index
    ensures Descending(Insert(c, s)) && TiesInIndexOrder(Insert(c, s))
  {
    if s == [] {
    } else if s[0].score <= c.score {
      ConsSorted(c, s);
    } else {
      var t := s[1..];
      InsertSorted(c, t);
      InsertElements(c, t);
      var r := Insert(c, t);
      forall k | 0 <= k < |r| ensures s[0].score >= r[k].score && (s[0].score == r[k].score ==> s[0].index < r[k].index) {
        assert r[k] in r;
      }
      ConsSorted(s[0], r);
    }
  }

  /**
   * The sorted list is a permutation of its input, ordered by descending
   * score, and, when the input lists cells in increasing order, stable: equal
   * scores keep increasing cell order.
   */
  lemma {:induction false} SortByScoreSorted(s: seq<Candidate>)
    requires IndexOrder(s)
    ensures multiset(SortByScore(s)) == multiset(s)
    ensures |SortByScore(s)| == |s|
    ensures Descending(SortByScore(s)) && TiesInIndexOrder(SortByScore(s))
  {
    if s != [] {
      var t := s[1..];
      assert s == [s[0]] + t;
      SortByScoreSorted(t);
      var r := SortByScore(t);
      forall k | 0 <= k < |r| ensures s[0].index < r[k].index {
        assert r[k] in multiset(t);
      }
      InsertSorted(s[0], r);
      InsertElements(s[0], r);
      assert |multiset(SortByScore(s))| == |multiset(s)|;
    }
  }

  /**
   * Rank 0 of the sorted list is an entry of the input with the greatest
   * score, the earliest such; rank 1, when there is one, is another entry
   * that scores no more, and is the greatest and earliest of the rest.
   */
  lemma {:induction false} SortByScoreRanks(s: seq<Candidate>)
    requires IndexOrder(s) && s != []
    ensures var r := SortByScore(s);
      && |r| == |s| && r[0] in s
      && (forall k :: 0 <= k < |s| ==> s[k].score <= r[0].score)
      && (forall k :: 0 <= k < |s| && s[k].score == r[0].score && s[k] != r[0] ==> r[0].index < s[k].index)
    ensures var r := SortByScore(s);
      |s| > 1 ==>
        && r[1] in s && r[1] != r[0] && r[1].score <= r[0].score
        && (forall k :: 0 <= k < |s| && s[k] != r[0] ==> s[k].score <= r[1].score)
        && (forall k :: 0 <= k < |s| && s[k] != r[0] && s[k] != r[1] && s[k].score == r[1].score ==> r[1].index < s[k].index)
  {
    var r := SortByScore(s);
    SortByScoreSorted(s);
    assert r[0] in multiset(s);
    if |s| > 1 {
      assert r[1] in multiset(s);
    }
    forall k | 0 <= k < |s| ensures exists j :: 0 <= j < |r| && r[j] == s[k] {
      assert s[k] in multiset(r);
    }
  }

  /** Any entry of the input scores no more than rank 0 and, unless it is rank 0, no more than rank 1. */
  lemma {:induction false} RanksDominate(s: seq<Candidate>, e: Candidate)
    requires IndexOrder(s) && e in s
    ensures var r := SortByScore(s);
      && |r| == |s|
      && e.score <= r[0].score && (e.index < r[0].index ==> e.score < r[0].score)
      && (|s| > 1 && e.index != r[0].index ==>
            e.score <= r[1].score && (e.index < r[1].index ==> e.score < r[1].score))
  {
    SortByScoreRanks(s);
    var p :| 0 <= p < |s| && s[p] == e;
  }

  /**
   * The value of `pickBestMove(board, ai, human, randomness)` when the random
   * draw is `draw`; `None` when `moves` is empty, where reading `moves[0].index`
   * throws.
   */
  function Pick(b: Board, ai: Mark, human: Mark, randomness: real, draw: real): Option<Idx> {
    var ranked := SortByScore(Candidates(b, ai, human));
    if randomness > 0.0 && |ranked| > 1 && draw < randomness then Some(ranked[1].index)
    else if ranked == [] then None
    else Some(ranked[0].index)
  }

  /** The random substitution happens exactly when the source draws below `randomness`. */
  predicate Substitutes(b: Board, randomness: real, draw: real) {
    randomness > 0.0 && |AvailableMoves(b)| > 1 && draw < randomness
  }

  lemma {:induction false} CandidatesInOrder(b: Board, ai: Mark, human: Mark)
    ensures |Candidates(b, ai, human)| == |AvailableMoves(b)|
    ensures IndexOrder(Candidates(b, ai, human))
    ensures forall k :: 0 <= k < |Candidates(b, ai, human)| ==>
              b[Candidates(b, ai, human)[k].index] == Empty
    ensures forall j :: 0 <= j < 9 && b[j] == Empty ==>
              Candidate(j, Child(b, ai, human, true, j)) in Candidates(b, ai, human)
  {
    var moves := AvailableMoves(b);
    var c := Candidates(b, ai, human);
    forall j | 0 <= j < 9 && b[j] == Empty ensures Candidate(j, Child(b, ai, human, true, j)) in c {
      var p :| 0 <= p < |moves| && moves[p] == j;
      assert c[p] == Candidate(j, Child(b, ai, human, true, j));
    }
  }

  /** The sorted candidate list holds one entry per empty cell, each scored by `Child`. */
  lemma {:induction false} RankedEntries(b: Board, ai: Mark, human: Mark)
    ensures var r := SortByScore(Candidates(b, ai, human));
      && |r| == |AvailableMoves(b)|
      && (forall k :: 0 <= k < |r| ==> b[r[k].index] == Empty && r[k].score == Child(b, ai, human, true, r[k].index))
  {
    var c := Candidates(b, ai, human);
    CandidatesInOrder(b, ai, human);
    SortByScoreSorted(c);
    var r := SortByScore(c);
    forall k | 0 <= k < |r| ensures b[r[k].index] == Empty && r[k].score == Child(b, ai, human, true, r[k].index) {
      assert r[k] in multiset(c);
      var p :| 0 <= p < |c| && c[p] == r[k];
    }
  }

  /**
   * The sorted candidate list in terms of the board: rank 0 is the first cell
   * of greatest score; rank 1 is another cell, the first of greatest score
   * among the rest.
   */
  lemma {:induction false} Ranked(b: Board, ai: Mark, human: Mark)
    ensures var r := SortByScore(Candidates(b, ai, human));
      && |r| == |AvailableMoves(b)|
      && (forall k :: 0 <= k < |r| ==> b[r[k].index] == Empty && r[k].score == Child(b, ai, human, true, r[k].index))
    ensures var r := SortByScore(Candidates(b, ai, human));
      r != [] ==>
        forall j :: 0 <= j < 9 && b[j] == Empty ==>
          Child(b, ai, human, true, j) <= r[0].score
          && (j < r[0].index ==> Child(b, ai, human, true, j) < r[0].score)
    ensures var r := SortByScore(Candidates(b, ai, human));
      |r| > 1 ==>
        && r[1].index != r[0].index && r[1].score <= r[0].score
        && forall j :: 0 <= j < 9 && b[j] == Empty && j != r[0].index ==>
             Child(b, ai, human, true, j) <= r[1].score
             && (j < r[1].index ==> Child(b, ai, human, true, j) < r[1].score)
  {
    RankedEntries(b, ai, human);
    var c := Candidates(b, ai, human);
    var r := SortByScore(c);
    if r != [] {
      CandidatesInOrder(b, ai, human);
      SortByScoreRanks(c);
      forall j | 0 <= j < 9 && b[j] == Empty
        ensures Child(b, ai, human, true, j) <= r[0].score
        ensures j < r[0].index ==> Child(b, ai, human, true, j) < r[0].score
        ensures |r| > 1 && j != r[0].index ==> Child(b, ai, human, true, j) <= r[1].score
        ensures |r| > 1 && j != r[0].index && j < r[1].index ==> Child(b, ai, human, true, j) < r[1].score
      {
        RanksDominate(c, Candidate(j, Child(b, ai, human, true, j)));
      }
    }
  }

  /** `pickBestMove` fails (reads `moves[0]` of an empty list) exactly on a full board. */
  lemma {:induction false} PickFailsOnlyWhenFull(b: Board, ai: Mark, human: Mark, randomness: real, draw: real)
    ensures Pick(b, ai, human, randomness, draw) == None <==> Full(b)
    ensures Pick(b, ai, human, randomness, draw).Some? ==> b[Pick(b, ai, human, randomness, draw).value] == Empty
  {
    Ranked(b, ai, human);
  }

  /**
   * Without the random substitution (randomness 0, one candidate, or a draw
   * not below randomness), `pickBestMove` returns an empty cell whose score is
   * the greatest over all empty cells, and the first such cell.
   */
  lemma {:induction false} PickBest(b: Board, ai: Mark, human: Mark, randomness: real, draw: real)
    requires !Full(b) && !Substitutes(b, randomness, draw)
    ensures var r := Pick(b, ai, human, randomness, draw);
      && r.Some? && b[r.value] == Empty
      && (forall j :: 0 <= j < 9 && b[j] == Empty ==> Child(b, ai, human, true, j) <= Child(b, ai, human, true, r.value))
      && (forall j :: 0 <= j < r.value && b[j] == Empty ==> Child(b, ai, human, true, j) < Child(b, ai, human, true, r.value))
  {
    Ranked(b, ai, human);
  }

  /**
   * With the random substitution, `pickBestMove` returns the second-ranked
   * cell: an empty cell other than the best one, scoring no more than it, and
   * the greatest and earliest among the remaining empty cells.
   */
  lemma {:induction false} PickSecond(b: Board, ai: Mark, human: Mark, randomness: real, draw: real)
    requires Substitutes(b, randomness, draw)
    ensures var r := Pick(b, ai, human, randomness, draw);
      var best := Pick(b, ai, human, 0.0, draw);
      && r.Some? && best.Some? && b[r.value] == Empty && b[best.value] == Empty && r.value != best.value
      && Child(b, ai, human, true, r.value) <= Child(b, ai, human, true, best.value)
      && (forall j :: 0 <= j < 9 && b[j] == Empty && j != best.value ==>
            Child(b, ai, human, true, j) <= Child(b, ai, human, true, r.value))
      && (forall j :: 0 <= j < r.value && b[j] == Empty && j != best.value ==>
            Child(b, ai, human, true, j) < Child(b, ai, human, true, r.value))
  {
    Ranked(b, ai, human);
  }

  /**
   * Without substitution `pickBestMove` and `minimax(board, ai, human, true)`
   * choose the same cell: both take the first cell of greatest score.
   */
  lemma {:induction false} PickAgreesWithMinimax(b: Board, ai: Mark, human: Mark, randomness: real, draw: real)
    requires CalculateWinner(b) == NoWinner && !Full(b) && !Substitutes(b, randomness, draw)
    ensures Pick(b, ai, human, randomness, draw) == Search(b, ai, human, true).index
  {
    PickBest(b, ai, human, randomness, draw);
    SearchChoice(b, ai, human, true);
  }

  /**
   * Playing O against X without substitution: when some empty cell completes
   * a line for O, the chosen cell scores 10 (it wins, now or by force).  The
   * scores are not discounted by depth, so the chosen cell need not be the
   * immediate win.
   */
  lemma {:induction false} PickTakesWin(b: Board, ai: Mark, human: Mark, randomness: real, draw: real, i: Idx)
    requires ai == O
    requires b[i] == Empty && CalculateWinner(b[i := Filled(ai)]).Win? && CalculateWinner(b[i := Filled(ai)]).mark == ai
    requires !Substitutes(b, randomness, draw)
    ensures var r := Pick(b, ai, human, randomness, draw);
      r.Some? && b[r.value] == Empty && Child(b, ai, human, true, r.value) == 10
  {
    PickBest(b, ai, human, randomness, draw);
    var r := Pick(b, ai, human, randomness, draw).value;
    assert Child(b, ai, human, true, i) == 10 by {
      SearchScore(b[i := Filled(ai)], ai, human, false);
    }
    ChildScore(b, ai, human, true, r);
  }

  /**
   * A mark placed on an empty cell of a board without a winner can only
   * complete lines for itself: the board then has no winner or that mark wins.
   */
  lemma {:induction false} OnlyMoverCanWin(b: Board, t: Idx, m: Mark)
    requires CalculateWinner(b) == NoWinner && b[t] == Empty
    ensures CalculateWinner(b[t := Filled(m)]).Win? ==> CalculateWinner(b[t := Filled(m)]).mark == m
  {
    WinnerSpec(b);
    WinnerSpec(b[t := Filled(m)]);
    var w := CalculateWinner(b[t := Filled(m)]);
    if w.Win? {
      var p :| 0 <= p < |Lines| && Lines[p] == w.line && Completes(b[t := Filled(m)], w.line, w.mark);
      assert !Won(b, Lines[p]);
    }
  }

  /** The line `calculateWinner` reports is one of the 8 and holds the winner's mark. */
  lemma {:induction false} WinningLine(b: Board)
    requires CalculateWinner(b).Win?
    ensures CalculateWinner(b).line in Lines && Completes(b, CalculateWinner(b).line, CalculateWinner(b).mark)
  {
    WinnerSpec(b);
    var w := CalculateWinner(b);
    var p :| 0 <= p < |Lines| && Lines[p] == w.line && Completes(b, w.line, w.mark);
  }

  /** A board on which one of the 8 lines holds a single mark has a winner. */
  lemma {:induction false} CompletedLineWins(b: Board, l: Line, m: Mark)
    requires l in Lines && Completes(b, l, m)
    ensures CalculateWinner(b).Win?
  {
    WinnerSpec(b);
    var p :| 0 <= p < |Lines| && Lines[p] == l;
    assert Won(b, Lines[p]);
  }

  /** A line completed by `m` at `t` is still completed when another empty cell is filled first. */
  lemma {:induction false} CompletesAfter(b: Board, t: Idx, m: Mark, i: Idx, n: Mark, l: Line)
    requires b[i] == Empty && i != t && Completes(b[t := Filled(m)], l, m)
    ensures Completes(b[i := Filled(n)][t := Filled(m)], l, m)
  {
  }

  /**
   * A threat of `m` at `t` survives a move by anyone at another empty cell
   * `i`: `m` at `t` still wins.
   */
  lemma {:induction false} ThreatSurvives(b: Board, t: Idx, m: Mark, i: Idx, n: Mark)
    requires CalculateWinner(b) == NoWinner && b[t] == Empty && b[i] == Empty && i != t
    requires CalculateWinner(b[t := Filled(m)]).Win?
    requires CalculateWinner(b[i := Filled(n)]) == NoWinner
    ensures CalculateWinner(b[i := Filled(n)][t := Filled(m)]).Win?
    ensures CalculateWinner(b[i := Filled(n)][t := Filled(m)]).mark == m
  {
    var l := ThreatLine(b, t, m);
    CompletesAfter(b, t, m, i, n, l);
    CompletedLineWins(b[i := Filled(n)][t := Filled(m)], l, m);
    OnlyMoverCanWin(b[i := Filled(n)], t, m);
  }

  /** The line a winning move at `t` completes. */
  lemma {:induction false} ThreatLine(b: Board, t: Idx, m: Mark) returns (l: Line)
    requires CalculateWinner(b) == NoWinner && b[t] == Empty
    requires CalculateWinner(b[t := Filled(m)]).Win?
    ensures l in Lines && Completes(b[t := Filled(m)], l, m)
  {
    WinningLine(b[t := Filled(m)]);
    OnlyMoverCanWin(b, t, m);
    l := CalculateWinner(b[t := Filled(m)]).line;
  }

  /**
   * Playing O against X: if X threatens to complete a line at `t`, and O
   * cannot win with its move at `i` != `t`, then that move scores -10: X
   * answers at `t` and wins.
   */
  lemma {:induction false} UnblockedThreatLoses(b: Board, t: Idx, i: Idx)
    requires CalculateWinner(b) == NoWinner && b[t] == Empty && b[i] == Empty && i != t
    requires CalculateWinner(b[t := Filled(X)]).Win?
    requires CalculateWinner(b[i := Filled(O)]) == NoWinner
    ensures Child(b, O, X, true, i) == -10
  {
    var b1 := b[i := Filled(O)];
    ThreatSurvives(b, t, X, i, O);
    SearchScore(b1[t := Filled(X)], O, X, true);
    assert Child(b1, O, X, false, t) == -10;
    assert !Full(b1) by { assert b1[t] == Empty; }
    SearchChoice(b1, O, X, false);
    SearchScore(b1, O, X, false);
  }

  /**
   * Blocking: playing O against X without substitution, when X threatens to
   * complete a line at `t`, O cannot win this move, and blocking at `t` does
   * not lose, `pickBestMove` blocks at `t`.
   */
  lemma {:induction false} PickBlocks(b: Board, randomness: real, draw: real, t: Idx)
    requires CalculateWinner(b) == NoWinner && b[t] == Empty
    requires CalculateWinner(b[t := Filled(X)]).Win?
    requires forall i :: 0 <= i < 9 && b[i] == Empty ==> CalculateWinner(b[i := Filled(O)]) == NoWinner
    requires Child(b, O, X, true, t) > -10
    requires !Substitutes(b, randomness, draw)
    ensures Pick(b, O, X, randomness, draw) == Some(t)
  {
    PickBest(b, O, X, randomness, draw);
    var r := Pick(b, O, X, randomness, draw).value;
    if r != t {
      UnblockedThreatLoses(b, t, r);
    }
  }

  /** At a maximizing node with an empty cell whose mark wins outright for O, O's engine scores 10. */
  lemma {:induction false} WinningMoveScores(b: Board, i: Idx)
    requires CalculateWinner(b) == NoWinner && b[i] == Empty
    requires CalculateWinner(b[i := Filled(O)]).Win? && CalculateWinner(b[i := Filled(O)]).mark == O
    ensures Search(b, O, X, true).score == 10
  {
    SearchChoice(b, O, X, true);
    SearchScore(b, O, X, true);
    SearchScore(b[i := Filled(O)], O, X, false);
  }

  /** At a minimizing node where every reply scores 10, the node scores 10. */
  lemma {:induction false} AllRepliesScore(b: Board)
    requires CalculateWinner(b) == NoWinner && !Full(b)
    requires forall j :: 0 <= j < 9 && b[j] == Empty ==> Child(b, O, X, false, j) == 10
    ensures Search(b, O, X, false).score == 10
  {
    SearchChoice(b, O, X, false);
  }

  /** `X X _ / O O _ / _ _ _`: X threatens 0-1-2, O threatens 3-4-5. */
  predicate RowThreat(b: Board) {
    b[0] == Filled(X) && b[1] == Filled(X) && b[2] == Empty &&
    b[3] == Filled(O) && b[4] == Filled(O) && b[5] == Empty &&
    b[6] == Empty && b[7] == Empty && b[8] == Empty
  }

  /** After O blocks at 2, every reply of X leaves O a winning cell. */
  lemma {:induction false} RowThreatReply(b: Board, j: Idx)
    requires RowThreat(b) && 5 <= j
    ensures Child(b[2 := Filled(O)], O, X, false, j) == 10
  {
    var c := b[2 := Filled(O)][j := Filled(X)];
    assert CalculateWinner(c) == NoWinner;
    var w: Idx := if j == 5 then 6 else 5;
    assert CalculateWinner(c[w := Filled(O)]) == Win(O, if w == 5 then Line(3, 4, 5) else Line(2, 4, 6));
    WinningMoveScores(c, w);
  }

  /** Blocking at 2 scores 10 for O. */
  lemma {:induction false} RowThreatBlockWins(b: Board)
    requires RowThreat(b)
    ensures Child(b, O, X, true, 2) == 10
  {
    var b2 := b[2 := Filled(O)];
    assert CalculateWinner(b2) == NoWinner;
    forall j | 0 <= j < 9 && b2[j] == Empty ensures Child(b2, O, X, false, j) == 10 {
      RowThreatReply(b, j);
    }
    assert b2[5] == Empty;
    AllRepliesScore(b2);
  }

  /**
   * On `X X _ / O O _ / _ _ _` with O to play, `pickBestMove` without
   * substitution returns cell 2, not the immediate win at 5: O at 2 blocks X
   * and leaves two threats (3-4-5 and 2-4-6), so it also scores 10, and it
   * comes first.
   */
  lemma {:induction false} RowThreatBoard(b: Board, randomness: real, draw: real)
    requires RowThreat(b) && randomness <= 0.0
    ensures Pick(b, O, X, randomness, draw) == Some(2)
  {
    RowThreatBlockWins(b);
    PickFirstTop(b, O, X, randomness, draw, 2);
  }

  /**
   * Without substitution, when the empty cell `i` scores 10, the greatest
   * score, and no earlier empty cell does, `pickBestMove` returns `i`.
   */
  lemma {:induction false} PickFirstTop(b: Board, ai: Mark, human: Mark, randomness: real, draw: real, i: Idx)
    requires b[i] == Empty && Child(b, ai, human, true, i) == 10
    requires forall j :: 0 <= j < i && b[j] == Empty ==> Child(b, ai, human, true, j) < 10
    requires !Substitutes(b, randomness, draw)
    ensures Pick(b, ai, human, randomness, draw) == Some(i)
  {
    assert !Full(b);
    PickBest(b, ai, human, randomness, draw);
    var r := Pick(b, ai, human, randomness, draw).value;
    ChildScore(b, ai, human, true, r);
    assert Child(b, ai, human, true, r) == 10;
  }

  /** `X X _ / O O _ / X O X`: no winner, X wins at 2, the board fills up at 5. */
  predicate EdgeBoard(b: Board) {
    b[0] == Filled(X) && b[1] == Filled(X) && b[2] == Empty &&
    b[3] == Filled(O) && b[4] == Filled(O) && b[5] == Empty &&
    b[6] == Filled(X) && b[7] == Filled(O) && b[8] == Filled(X)
  }

  /** X's winning move at 2 scores -10, since the scores are O's. */
  lemma {:induction false} EdgeBoardWinScoresLow(b: Board)
    requires EdgeBoard(b)
    ensures CalculateWinner(b) == NoWinner
    ensures CalculateWinner(b[2 := Filled(X)]) == Win(X, Line(0, 1, 2))
    ensures Child(b, X, O, true, 2) == -10
  {
    SearchScore(b[2 := Filled(X)], X, O, false);
  }

  /** X at 5 leads to a full board without a winner: a tie. */
  lemma {:induction false} EdgeBoardOtherTies(b: Board)
    requires EdgeBoard(b)
    ensures Child(b, X, O, true, 5) == 0
  {
    var b5 := b[5 := Filled(X)];
    assert CalculateWinner(b5) == NoWinner;
    var b52 := b5[2 := Filled(O)];
    assert CalculateWinner(b52) == NoWinner;
    assert Full(b52);
    SearchScore(b52, X, O, true);
    assert !Full(b5) by { assert b5[2] == Empty; }
    SearchChoice(b5, X, O, false);
    var r := Search(b5, X, O, false);
    assert r.index.value == 2;
    assert Child(b5, X, O, false, 2) == 0;
  }

  /**
   * With X as the engine's mark the scores still favour O: on `X X _ / O O _ /
   * X O X`, where X wins at once at 2, `pickBestMove` without substitution
   * returns 5.
   */
  lemma {:induction false} XEngineAvoidsWin(b: Board, randomness: real, draw: real)
    requires EdgeBoard(b) && randomness <= 0.0
    ensures CalculateWinner(b) == NoWinner && CalculateWinner(b[2 := Filled(X)]).Win?
    ensures Pick(b, X, O, randomness, draw) == Some(5)
  {
    EdgeBoardWinScoresLow(b);
    EdgeBoardOtherTies(b);
    assert !Full(b) by { assert b[2] == Empty; }
    PickBest(b, X, O, randomness, draw);
    var r := Pick(b, X, O, randomness, draw).value;
    assert forall j :: 0 <= j < 9 && b[j] == Empty ==> j == 2 || j == 5;
    assert r == 2 || r == 5;
  }

  /**
   * The first loop of `pickBestMove`: one mutate/revert move per empty cell,
   * in `availableMoves` order.  The board is exactly as it was on return.
   */
  method ScoreMoves(board: array<Cell>, ai: Mark, human: Mark) returns (cands: seq<Candidate>)
    requires board.Length == 9
    modifies board
    ensures board[..] == old(board[..])
    ensures cands == Candidates(old(board[..]), ai, human)
  {
    var b: Board := board[..];
    var moves := AvailableMoves(b);
    ghost var all := Candidates(b, ai, human);
    assert |all| == |moves|;
    cands := [];
    for k := 0 to |moves|
      invariant board[..] == b
      invariant cands == all[..k]
    {
      var idx: Idx := moves[k];
      var s := TryMove(board, idx, ai, ai, human, false);
      assert all[k] == Candidate(idx, s);
      assert all[..k + 1] == all[..k] + [all[k]];
      cands := cands + [Candidate(idx, s)];
    }
    assert all[..|moves|] == all;
  }

  /**
   * `pickBestMove`: scores each empty cell, sorts, and picks rank 0, or rank 1
   * when the draw falls below `randomness`.  The board is exactly as it was on
   * return.
   */
  method PickBestMove(board: array<Cell>, ai: Mark, human: Mark, randomness: real, draw: real) returns (r: Option<Idx>)
    requires board.Length == 9
    modifies board
    ensures board[..] == old(board[..])
    ensures r == Pick(old(board[..]), ai, human, randomness, draw)
  {
    var cands := ScoreMoves(board, ai, human);
    var ranked := SortByScore(cands);
    if randomness > 0.0 && |ranked| > 1 && draw < randomness {
      return Some(ranked[1].index);
    }
    if |ranked| == 0 {
      return None;
    }
    return Some(ranked[0].index);
  }
}
