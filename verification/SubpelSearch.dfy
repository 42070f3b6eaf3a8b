/** The fractional-pel refinement of a motion vector: up to three half-pel and three quarter-pel rounds, once with
    every candidate evaluated directly and once through the memo table. Evaluation is an uninterpreted function of the
    position, in quarter pels. */
module SubpelSearch {
  import opened Arith
  import opened Wrappers
  import opened Motion
  import opened SubpelCache

  /** The evaluation of a position inside the bounds. */
  type Evaluation = (int, int) -> Eval

  const REJECTED := Eval(MAX_INT, 0, 0, false)

  const MAX_FULL_PEL := 255

  const LONG_LIMIT := 1023

  const ROUNDS: nat := 3

  /** Positions outside the bounds score as badly as possible. */
  function Scored(f: Evaluation, b: Bounds, row: int, col: int): Eval {
    if b.Contains(row, col) then f(row, col) else REJECTED
  }

  /** A position and its evaluation. */
  datatype Walk = Walk(row: int, col: int, eval: Eval)

  function At(f: Evaluation, b: Bounds, row: int, col: int): Walk {
    Walk(row, col, Scored(f, b, row, col))
  }

  /** A strictly cheaper candidate takes over. */
  function Better(w: Walk, c: Walk): Walk {
    if c.eval.cost < w.eval.cost then c else w
  }

  /** The candidates compared with w one after the other. */
  function BestOf(w: Walk, candidates: seq<Walk>): Walk
    decreases |candidates|
  {
    if |candidates| == 0 then w else BestOf(Better(w, candidates[0]), candidates[1..])
  }

  lemma BestOfFive(w: Walk, c1: Walk, c2: Walk, c3: Walk, c4: Walk, c5: Walk)
    ensures BestOf(w, [c1, c2, c3, c4, c5]) == Better(Better(Better(Better(Better(w, c1), c2), c3), c4), c5)
  {
    var w1 := Better(w, c1);
    var w2 := Better(w1, c2);
    var w3 := Better(w2, c3);
    var w4 := Better(w3, c4);
    assert [c1, c2, c3, c4, c5][1..] == [c2, c3, c4, c5] && [c2, c3, c4, c5][1..] == [c3, c4, c5];
    assert [c3, c4, c5][1..] == [c4, c5] && [c4, c5][1..] == [c5] && [c5][1..] == [];
    assert BestOf(w, [c1, c2, c3, c4, c5]) == BestOf(w1, [c2, c3, c4, c5]) == BestOf(w2, [c3, c4, c5]);
    assert BestOf(w2, [c3, c4, c5]) == BestOf(w3, [c4, c5]) == BestOf(w4, [c5]);
    assert BestOf(w4, [c5]) == BestOf(Better(w4, c5), []);
  }

  /** The diagonal between the cheaper vertical and the cheaper horizontal neighbour; ties go down and right. */
  function Diagonal(f: Evaluation, b: Bounds, row: int, col: int, step: int): MotionVector {
    MotionVector(
      if Scored(f, b, row - step, col).cost >= Scored(f, b, row + step, col).cost then row + step else row - step,
      if Scored(f, b, row, col - step).cost >= Scored(f, b, row, col + step).cost then col + step else col - step)
  }

  /** The candidates of a round around (row, col): the four neighbours, then one diagonal. */
  function Candidates(f: Evaluation, b: Bounds, row: int, col: int, step: int): seq<Walk> {
    var d := Diagonal(f, b, row, col, step);
    [At(f, b, row, col - step), At(f, b, row, col + step), At(f, b, row - step, col), At(f, b, row + step, col),
     At(f, b, d.row, d.col)]
  }

  function Round(f: Evaluation, b: Bounds, w: Walk, step: int): Walk {
    BestOf(w, Candidates(f, b, w.row, w.col, step))
  }

  /** Rounds until one stays in place or `rounds` are used up. */
  function Refined(f: Evaluation, b: Bounds, w: Walk, step: int, rounds: nat): Walk
    decreases rounds
  {
    if rounds == 0 then w
    else
      var next := Round(f, b, w, step);
      if next.row == w.row && next.col == w.col then next else Refined(f, b, next, step, rounds - 1)
  }

  lemma RefinedUnrolls(f: Evaluation, b: Bounds, w: Walk, step: int, rounds: nat)
    requires 0 < rounds
    ensures var next := Round(f, b, w, step);
            Refined(f, b, w, step, rounds) ==
            if next.row == w.row && next.col == w.col then next else Refined(f, b, next, step, rounds - 1)
  {
  }

  /** The half-pel rounds, then the quarter-pel rounds. */
  function Searched(f: Evaluation, b: Bounds, start: Walk): Walk {
    Refined(f, b, Refined(f, b, start, 2, ROUNDS), 1, ROUNDS)
  }

  /** |delta| <= 255 full pels on both axes. */
  predicate InRange(mv: MotionVector, reference: MotionVector) {
    && -8 * MAX_FULL_PEL <= mv.row - reference.row <= 8 * MAX_FULL_PEL
    && -8 * MAX_FULL_PEL <= mv.col - reference.col <= 8 * MAX_FULL_PEL
  }

  datatype Found = Found(mv: MotionVector, eval: Eval)

  /** The whole refinement of a vector given in eighth pels: None when the vector is not a full-pel one, when its
      block cannot be evaluated, or when the result strays too far from the reference vector. */
  function Refinement(f: Evaluation, center: Evaluation, b: Bounds, best: MotionVector, reference: MotionVector):
    Option<Found>
  {
    if best.row % 8 != 0 || best.col % 8 != 0 then None
    else
      var row, col := best.row / 8 * 4, best.col / 8 * 4;
      if !center(row, col).ok then None
      else
        var w := Searched(f, b, Walk(row, col, center(row, col)));
        var mv := Packed(w.row * 2, w.col * 2);
        if InRange(mv, reference) then Some(Found(mv, w.eval)) else None
  }

  /* Direct evaluation, carrying the whole evaluation of the best position */

  method RoundDirectly(f: Evaluation, b: Bounds, t: Walk, step: int) returns (w: Walk)
    ensures w == Round(f, b, t, step)
  {
    w := t;
    var left := At(f, b, t.row, t.col - step);
    var right := At(f, b, t.row, t.col + step);
    var up := At(f, b, t.row - step, t.col);
    var down := At(f, b, t.row + step, t.col);
    w := Better(w, left);
    w := Better(w, right);
    w := Better(w, up);
    w := Better(w, down);
    var diagRow := t.row - step;
    if up.eval.cost >= down.eval.cost {
      diagRow := t.row + step;
    }
    var diagCol := t.col - step;
    if left.eval.cost >= right.eval.cost {
      diagCol := t.col + step;
    }
    var diag := At(f, b, diagRow, diagCol);
    w := Better(w, diag);
    BestOfFive(t, left, right, up, down, diag);
  }

  method RefineDirectly(f: Evaluation, b: Bounds, start: Walk, step: int, rounds: nat) returns (w: Walk)
    ensures w == Refined(f, b, start, step, rounds)
  {
    w := start;
    for round := 0 to rounds
      invariant Refined(f, b, start, step, rounds) == Refined(f, b, w, step, rounds - round)
    {
      var t := w;
      RefinedUnrolls(f, b, t, step, rounds - round);
      w := RoundDirectly(f, b, t, step);
      if t.row == w.row && t.col == w.col {
        return;
      }
    }
  }

  /** The refinement of whole macroblocks. */
  method SearchDirectly(f: Evaluation, center: Evaluation, b: Bounds, best: MotionVector, reference: MotionVector)
    returns (found: Option<Found>)
    ensures found == Refinement(f, center, b, best, reference)
  {
    if best.row % 8 != 0 || best.col % 8 != 0 {
      return None;
    }
    var w := Walk(best.row / 8 * 4, best.col / 8 * 4, center(best.row / 8 * 4, best.col / 8 * 4));
    if !w.eval.ok {
      return None;
    }
    w := RefineDirectly(f, b, w, 2, ROUNDS);
    w := RefineDirectly(f, b, w, 1, ROUNDS);
    var mv := Packed(w.row * 2, w.col * 2);
    return if InRange(mv, reference) then Some(Found(mv, w.eval)) else None;
  }

  /* Through the memo table, carrying only costs */

  /** The table holds true evaluations, at most `size` of them. */
  ghost predicate Remembers(cache: SubpelEvalCache, f: Evaluation, b: Bounds, size: nat)
    reads cache, cache.rows, cache.cols, cache.eval, cache.used
  {
    && cache.Valid() && |cache.contents| <= size
    && (forall key :: key in cache.contents ==> cache.contents[key] == Scored(f, b, key.row, key.col))
  }

  method Candidate(cache: SubpelEvalCache, f: Evaluation, b: Bounds, row: int, col: int, ghost size: nat)
    returns (cost: int)
    requires Remembers(cache, f, b, size)
    modifies cache`contents, cache`depth, cache.rows, cache.cols, cache.eval, cache.used
    ensures cost == Scored(f, b, row, col).cost
    ensures Remembers(cache, f, b, size + 1)
  {
    var found := cache.Get(row, col);
    if found.Hit? {
      return found.eval.cost;
    }
    var eval := REJECTED;
    if b.Contains(row, col) {
      eval := f(row, col);
    }
    cache.Put(row, col, eval);
    return eval.cost;
  }

  method RoundMemoised(
    cache: SubpelEvalCache, f: Evaluation, b: Bounds, tr: int, tc: int, cost: int, step: int,
    ghost t: Walk, ghost size: nat)
    returns (br: int, bc: int, best: int)
    requires Remembers(cache, f, b, size) && t.row == tr && t.col == tc && t.eval.cost == cost
    modifies cache`contents, cache`depth, cache.rows, cache.cols, cache.eval, cache.used
    ensures var w := Round(f, b, t, step); br == w.row && bc == w.col && best == w.eval.cost
    ensures Remembers(cache, f, b, size + 5)
  {
    var left, right := Neighbours(cache, f, b, tr, tc, 0, step, size);
    var up, down := Neighbours(cache, f, b, tr, tc, step, 0, size + 2);
    br, bc, best := CloseRound(cache, f, b, tr, tc, cost, step, left, right, up, down, t, size + 4);
  }

  /** The costs of the two neighbours on one axis. */
  method Neighbours(
    cache: SubpelEvalCache, f: Evaluation, b: Bounds, tr: int, tc: int, dr: int, dc: int, ghost size: nat)
    returns (before: int, after: int)
    requires Remembers(cache, f, b, size)
    modifies cache`contents, cache`depth, cache.rows, cache.cols, cache.eval, cache.used
    ensures before == Scored(f, b, tr - dr, tc - dc).cost && after == Scored(f, b, tr + dr, tc + dc).cost
    ensures Remembers(cache, f, b, size + 2)
  {
    before := Candidate(cache, f, b, tr - dr, tc - dc, size);
    after := Candidate(cache, f, b, tr + dr, tc + dc, size + 1);
  }

  /** The end of a round, once the four neighbours are known: the diagonal, and the five comparisons. */
  method CloseRound(
    cache: SubpelEvalCache, f: Evaluation, b: Bounds, tr: int, tc: int, cost: int, step: int,
    left: int, right: int, up: int, down: int, ghost t: Walk, ghost size: nat)
    returns (br: int, bc: int, best: int)
    requires Remembers(cache, f, b, size) && t.row == tr && t.col == tc && t.eval.cost == cost
    requires left == Scored(f, b, tr, tc - step).cost && right == Scored(f, b, tr, tc + step).cost
    requires up == Scored(f, b, tr - step, tc).cost && down == Scored(f, b, tr + step, tc).cost
    modifies cache`contents, cache`depth, cache.rows, cache.cols, cache.eval, cache.used
    ensures var w := Round(f, b, t, step); br == w.row && bc == w.col && best == w.eval.cost
    ensures Remembers(cache, f, b, size + 1)
  {
    var diagRow, diagCol := ChooseDiagonal(f, b, tr, tc, step, left, right, up, down);
    var diag := Candidate(cache, f, b, diagRow, diagCol, size);
    best, br, bc := BestOfRound(f, b, tr, tc, cost, step, left, right, up, down, diagRow, diagCol, diag, t);
  }

  /** Which diagonal a round tries, from the costs of the four neighbours. */
  method ChooseDiagonal(
    f: Evaluation, b: Bounds, tr: int, tc: int, step: int, left: int, right: int, up: int, down: int)
    returns (diagRow: int, diagCol: int)
    requires left == Scored(f, b, tr, tc - step).cost && right == Scored(f, b, tr, tc + step).cost
    requires up == Scored(f, b, tr - step, tc).cost && down == Scored(f, b, tr + step, tc).cost
    ensures MotionVector(diagRow, diagCol) == Diagonal(f, b, tr, tc, step)
  {
    diagRow := tr - step;
    if up >= down {
      diagRow := tr + step;
    }
    diagCol := tc - step;
    if left >= right {
      diagCol := tc + step;
    }
  }

  /** The five updates of a round. */
  method BestOfRound(
    f: Evaluation, b: Bounds, tr: int, tc: int, cost: int, step: int,
    left: int, right: int, up: int, down: int, diagRow: int, diagCol: int, diag: int, ghost t: Walk)
    returns (best: int, br: int, bc: int)
    requires t.row == tr && t.col == tc && t.eval.cost == cost
    requires left == Scored(f, b, tr, tc - step).cost && right == Scored(f, b, tr, tc + step).cost
    requires up == Scored(f, b, tr - step, tc).cost && down == Scored(f, b, tr + step, tc).cost
    requires MotionVector(diagRow, diagCol) == Diagonal(f, b, tr, tc, step)
    requires diag == Scored(f, b, diagRow, diagCol).cost
    ensures var w := Round(f, b, t, step); br == w.row && bc == w.col && best == w.eval.cost
  {
    best, br, bc := cost, tr, tc;
    best, br, bc := UpdateBest(best, br, bc, left, tr, tc - step);
    best, br, bc := UpdateBest(best, br, bc, right, tr, tc + step);
    best, br, bc := UpdateBest(best, br, bc, up, tr - step, tc);
    best, br, bc := UpdateBest(best, br, bc, down, tr + step, tc);
    best, br, bc := UpdateBest(best, br, bc, diag, diagRow, diagCol);
    BestOfFive(t, At(f, b, tr, tc - step), At(f, b, tr, tc + step), At(f, b, tr - step, tc),
               At(f, b, tr + step, tc), At(f, b, diagRow, diagCol));
  }

  method RefineMemoised(
    cache: SubpelEvalCache, f: Evaluation, b: Bounds, row: int, col: int, cost: int, step: int, rounds: nat,
    ghost start: Walk, ghost size: nat)
    returns (br: int, bc: int, best: int)
    requires Remembers(cache, f, b, size) && start.row == row && start.col == col && start.eval.cost == cost
    modifies cache`contents, cache`depth, cache.rows, cache.cols, cache.eval, cache.used
    ensures var w := Refined(f, b, start, step, rounds); br == w.row && bc == w.col && best == w.eval.cost
    ensures Remembers(cache, f, b, size + 5 * rounds)
  {
    br, bc, best := row, col, cost;
    ghost var w := start;
    for round := 0 to rounds
      invariant br == w.row && bc == w.col && best == w.eval.cost
      invariant Refined(f, b, start, step, rounds) == Refined(f, b, w, step, rounds - round)
      invariant Remembers(cache, f, b, size + 5 * round)
    {
      var tr, tc := br, bc;
      RefinedUnrolls(f, b, w, step, rounds - round);
      br, bc, best := RoundMemoised(cache, f, b, tr, tc, best, step, w, size + 5 * round);
      w := Round(f, b, w, step);
      if tr == br && tc == bc {
        return;
      }
    }
  }

  method UpdateBest(best: int, row: int, col: int, cost: int, r: int, c: int) returns (best': int, row': int, col': int)
    ensures best' == Min(cost, best)
    ensures if cost < best then row' == r && col' == c else row' == row && col' == col
  {
    if cost < best {
      return cost, r, c;
    }
    return best, row, col;
  }

  /** The refinement of split blocks: the same result as with direct evaluation, whatever is in the fresh table when;
      it never holds more than 30 of its 64 entries. */
  method SearchMemoised(f: Evaluation, center: Evaluation, b: Bounds, best: MotionVector, reference: MotionVector)
    returns (mv: MotionVector, cost: int, ok: bool, cache: SubpelEvalCache)
    ensures var found := Refinement(f, center, b, best, reference);
            && ok == found.Some?
            && (ok ==> mv == found.value.mv && cost == found.value.eval.cost)
    ensures fresh(cache) && cache.Valid() && |cache.contents| <= 30
  {
    cache := new SubpelEvalCache();
    if best.row % 8 != 0 || best.col % 8 != 0 {
      return MotionVector(0, 0), 0, false, cache;
    }
    var br, bc := best.row / 8 * 4, best.col / 8 * 4;
    var eval := center(br, bc);
    if !eval.ok {
      return MotionVector(0, 0), 0, false, cache;
    }
    ghost var start := Walk(br, bc, eval);
    cost := eval.cost;
    br, bc, cost := RefineMemoised(cache, f, b, br, bc, cost, 2, ROUNDS, start, 0);
    br, bc, cost := RefineMemoised(cache, f, b, br, bc, cost, 1, ROUNDS, Refined(f, b, start, 2, ROUNDS), 15);
    mv := Packed(br * 2, bc * 2);
    if !InRange(mv, reference) {
      return MotionVector(0, 0), 0, false, cache;
    }
    return mv, cost, true, cache;
  }

  /* What the search achieves */

  function Distance(a: int, b: int): nat {
    if a < b then b - a else a - b
  }

  /** Comparing one after the other finds the cheapest, and leaves w only for something strictly cheaper. */
  lemma {:induction false} BestOfIsCheapest(w: Walk, candidates: seq<Walk>)
    ensures var best := BestOf(w, candidates);
            && best.eval.cost <= w.eval.cost
            && (forall c :: c in candidates ==> best.eval.cost <= c.eval.cost)
            && (best == w || (best in candidates && best.eval.cost < w.eval.cost))
    decreases |candidates|
  {
    if |candidates| > 0 {
      var rest := candidates[1..];
      BestOfIsCheapest(Better(w, candidates[0]), rest);
      assert candidates == [candidates[0]] + rest;
    }
  }

  /** A round moves at most one step on each axis, never to a worse position, and away from w only to one in bounds. */
  lemma RoundImproves(f: Evaluation, b: Bounds, w: Walk, step: nat)
    requires w.eval.cost <= MAX_INT
    ensures var next := Round(f, b, w, step);
            && next.eval.cost <= w.eval.cost
            && Distance(next.row, w.row) <= step && Distance(next.col, w.col) <= step
            && (next == w || (next.eval.cost < w.eval.cost && b.Contains(next.row, next.col) &&
                              next.eval == f(next.row, next.col)))
  {
    BestOfIsCheapest(w, Candidates(f, b, w.row, w.col, step));
  }

  /** The evaluation at a position; outside the bounds the largest integer as its cost. */
  function EvalAt(f: Evaluation, b: Bounds, row: int, col: int): Eval {
    if b.rowMin <= row <= b.rowMax && b.colMin <= col <= b.colMax then f(row, col)
    else Eval(0x7fff_ffff_ffff_ffff, 0, 0, false)
  }

  /** Downwards exactly when the lower neighbour costs no more than the upper one. */
  function DownOrUp(f: Evaluation, b: Bounds, row: int, col: int, step: int): int {
    if EvalAt(f, b, row + step, col).cost <= EvalAt(f, b, row - step, col).cost then step else -step
  }

  /** To the right exactly when the right neighbour costs no more than the left one. */
  function RightOrLeft(f: Evaluation, b: Bounds, row: int, col: int, step: int): int {
    if EvalAt(f, b, row, col + step).cost <= EvalAt(f, b, row, col - step).cost then step else -step
  }

  /** `cost` is no more than that of the four neighbours and of the diagonal between the cheaper ones. */
  predicate NoneCheaperAround(f: Evaluation, b: Bounds, row: int, col: int, step: int, cost: int) {
    && cost <= EvalAt(f, b, row, col - step).cost && cost <= EvalAt(f, b, row, col + step).cost
    && cost <= EvalAt(f, b, row - step, col).cost && cost <= EvalAt(f, b, row + step, col).cost
    && cost <= EvalAt(f, b, row + DownOrUp(f, b, row, col, step), col + RightOrLeft(f, b, row, col, step)).cost
  }

  /** The five places of a round in the order they are tried: left, right, up, down, diagonal. */
  function PlaceRow(f: Evaluation, b: Bounds, w: Walk, step: int, i: nat): int
    requires i < 5
  {
    [w.row, w.row, w.row - step, w.row + step, w.row + DownOrUp(f, b, w.row, w.col, step)][i]
  }

  function PlaceCol(f: Evaluation, b: Bounds, w: Walk, step: int, i: nat): int
    requires i < 5
  {
    [w.col - step, w.col + step, w.col, w.col, w.col + RightOrLeft(f, b, w.row, w.col, step)][i]
  }

  function EvalOfPlace(f: Evaluation, b: Bounds, w: Walk, step: int, i: nat): Eval
    requires i < 5
  {
    EvalAt(f, b, PlaceRow(f, b, w, step, i), PlaceCol(f, b, w, step, i))
  }

  /** The rule of one round: stay where none of the five is strictly cheaper, otherwise go to the first of the cheapest
      of them. */
  ghost predicate RoundRule(f: Evaluation, b: Bounds, w: Walk, step: int, w': Walk) {
    if NoneCheaperAround(f, b, w.row, w.col, step, w.eval.cost) then w' == w
    else
      exists i: nat {:trigger EvalOfPlace(f, b, w, step, i)} :: i < 5 &&
        w' == Walk(PlaceRow(f, b, w, step, i), PlaceCol(f, b, w, step, i), EvalOfPlace(f, b, w, step, i)) &&
        w'.eval.cost < w.eval.cost &&
        NoneCheaperAround(f, b, w.row, w.col, step, w'.eval.cost) &&
        forall j: nat :: j < i ==> w'.eval.cost < EvalOfPlace(f, b, w, step, j).cost
  }

  /** Every round follows the rule. */
  lemma RoundIsMinimal(f: Evaluation, b: Bounds, w: Walk, step: int)
    ensures RoundRule(f, b, w, step, Round(f, b, w, step))
  {
    var places := Candidates(f, b, w.row, w.col, step);
    forall i: nat | i < 5
      ensures places[i] == Walk(PlaceRow(f, b, w, step, i), PlaceCol(f, b, w, step, i), EvalOfPlace(f, b, w, step, i))
    {
      PlaceIsCandidate(f, b, w, step, i);
    }
    var i := FirstOfCheapest(w, places);
    FiveArePlaces(f, b, w, step, Round(f, b, w, step).eval.cost);
    FiveArePlaces(f, b, w, step, w.eval.cost);
    if i < 5 {
      assert EvalOfPlace(f, b, w, step, i).cost == places[i].eval.cost;
    }
  }

  lemma PlaceIsCandidate(f: Evaluation, b: Bounds, w: Walk, step: int, i: nat)
    requires i < 5
    ensures Candidates(f, b, w.row, w.col, step)[i] ==
            Walk(PlaceRow(f, b, w, step, i), PlaceCol(f, b, w, step, i), EvalOfPlace(f, b, w, step, i))
  {
  }

  lemma FiveArePlaces(f: Evaluation, b: Bounds, w: Walk, step: int, cost: int)
    ensures NoneCheaperAround(f, b, w.row, w.col, step, cost) <==>
            forall i: nat :: i < 5 ==> cost <= EvalOfPlace(f, b, w, step, i).cost
  {
    if forall i: nat :: i < 5 ==> cost <= EvalOfPlace(f, b, w, step, i).cost {
      assert cost <= EvalOfPlace(f, b, w, step, 0).cost && cost <= EvalOfPlace(f, b, w, step, 1).cost;
      assert cost <= EvalOfPlace(f, b, w, step, 2).cost && cost <= EvalOfPlace(f, b, w, step, 3).cost;
      assert cost <= EvalOfPlace(f, b, w, step, 4).cost;
    }
  }

  /** Comparing one after the other finds the first of the cheapest, |candidates| standing for w itself. */
  lemma {:induction false} FirstOfCheapest(w: Walk, candidates: seq<Walk>) returns (i: nat)
    ensures i <= |candidates|
    ensures var best := BestOf(w, candidates);
            && (forall j :: 0 <= j < |candidates| ==> best.eval.cost <= candidates[j].eval.cost)
            && (if i == |candidates| then best == w
                else
                  && best == candidates[i] && best.eval.cost < w.eval.cost
                  && forall j :: 0 <= j < i ==> best.eval.cost < candidates[j].eval.cost)
    decreases |candidates|
  {
    if candidates == [] {
      i := 0;
    } else {
      var rest := candidates[1..];
      assert candidates == [candidates[0]] + rest;
      var k := FirstOfCheapest(Better(w, candidates[0]), rest);
      i := if k < |rest| then k + 1 else if candidates[0].eval.cost < w.eval.cost then 0 else |candidates|;
    }
  }

  lemma {:induction false} RefinedImproves(f: Evaluation, b: Bounds, w: Walk, step: nat, rounds: nat)
    requires w.eval.cost <= MAX_INT
    ensures var r := Refined(f, b, w, step, rounds);
            && r.eval.cost <= w.eval.cost
            && Distance(r.row, w.row) <= rounds * step && Distance(r.col, w.col) <= rounds * step
            && (r == w || (r.eval.cost < w.eval.cost && b.Contains(r.row, r.col) && r.eval == f(r.row, r.col)))
    decreases rounds
  {
    if rounds > 0 {
      var next := Round(f, b, w, step);
      RoundImproves(f, b, w, step);
      assert rounds * step == (rounds - 1) * step + step;
      assert 0 <= (rounds - 1) * step;
      if next.row != w.row || next.col != w.col {
        RefinedImproves(f, b, next, step, rounds - 1);
      }
    }
  }

  /** The result lies within nine quarter pels of the start on each axis, is the start or an evaluated position in
      bounds, and never costs more than the start. */
  lemma SearchStaysClose(f: Evaluation, b: Bounds, start: Walk)
    requires start.eval.cost <= MAX_INT
    ensures var r := Searched(f, b, start);
            && r.eval.cost <= start.eval.cost
            && Distance(r.row, start.row) <= 9 && Distance(r.col, start.col) <= 9
            && (r == start || (r.eval.cost < start.eval.cost && b.Contains(r.row, r.col) &&
                               r.eval == f(r.row, r.col)))
  {
    RefinedImproves(f, b, start, 2, ROUNDS);
    RefinedImproves(f, b, Refined(f, b, start, 2, ROUNDS), 1, ROUNDS);
  }

  /** The position stored without wrapping, in eighth pels. */
  predicate Fits(w: Walk) {
    MotionVector(w.row * 2, w.col * 2).Is16Bit()
  }

  function StartOf(center: Evaluation, best: MotionVector): Walk {
    var row, col := best.row / 8 * 4, best.col / 8 * 4;
    Walk(row, col, center(row, col))
  }

  lemma PackedClose(x: int, y: int)
    requires -0x8000 <= y < 0x8000 && -18 <= x - y <= 18
    ensures -18 <= Int16(x) - y <= 18 <==> -0x8000 <= x < 0x8000
  {
  }

  /** The returned vector costs no more than the start, is the start's or that of a position in bounds, and lies within
      eighteen eighth pels of the start on each axis exactly when the position found fits 16 bits. */
  lemma FoundStaysClose(f: Evaluation, center: Evaluation, b: Bounds, best: MotionVector, reference: MotionVector)
    requires best.Is16Bit() && StartOf(center, best).eval.cost <= MAX_INT
    requires Refinement(f, center, b, best, reference).Some?
    ensures var found, w := Refinement(f, center, b, best, reference).value, Searched(f, b, StartOf(center, best));
            && found.eval.cost <= StartOf(center, best).eval.cost
            && (w == StartOf(center, best) || b.Contains(w.row, w.col))
            && (Distance(found.mv.row, best.row) <= 18 && Distance(found.mv.col, best.col) <= 18 <==> Fits(w))
  {
    var w := Searched(f, b, StartOf(center, best));
    SearchStaysClose(f, b, StartOf(center, best));
    PackedClose(w.row * 2, best.row);
    PackedClose(w.col * 2, best.col);
  }

  /** The bounds of the search, in quarter pels: a window around the reference vector, cut to the area a predictor may
      reach around the frame. */
  function SearchBounds(reference: MotionVector, mbRow: int, mbCol: int, mbRows: int, mbCols: int): Bounds {
    Bounds(Max(reference.row / 2 - LONG_LIMIT, -(mbRow * 16 + 16) * 4),
           Min(reference.row / 2 + LONG_LIMIT, ((mbRows - 1 - mbRow) * 16 + 16) * 4),
           Max(reference.col / 2 - LONG_LIMIT, -(mbCol * 16 + 16) * 4),
           Min(reference.col / 2 + LONG_LIMIT, ((mbCols - 1 - mbCol) * 16 + 16) * 4))
  }

  /** With the encoder's own bounds the condition always holds: a position that would wrap is near the reference, so its
      wrapped vector is out of range and not returned. Every vector returned is within eighteen eighth pels. */
  lemma SearchReturnsClose(
    f: Evaluation, center: Evaluation, best: MotionVector, reference: MotionVector,
    mbRow: int, mbCol: int, mbRows: int, mbCols: int)
    requires best.Is16Bit() && reference.Is16Bit() && StartOf(center, best).eval.cost <= MAX_INT
    requires Refinement(f, center, SearchBounds(reference, mbRow, mbCol, mbRows, mbCols), best, reference).Some?
    ensures var b := SearchBounds(reference, mbRow, mbCol, mbRows, mbCols);
            var found := Refinement(f, center, b, best, reference).value;
            Distance(found.mv.row, best.row) <= 18 && Distance(found.mv.col, best.col) <= 18
  {
    var b := SearchBounds(reference, mbRow, mbCol, mbRows, mbCols);
    var w := Searched(f, b, StartOf(center, best));
    FoundStaysClose(f, center, b, best, reference);
    if b.Contains(w.row, w.col) {
      NearReferenceFits(w.row, reference.row);
      NearReferenceFits(w.col, reference.col);
    }
  }

  lemma NearReferenceFits(x: int, reference: int)
    requires -0x8000 <= reference < 0x8000 && -LONG_LIMIT <= x - reference / 2 <= LONG_LIMIT
    requires -8 * MAX_FULL_PEL <= Int16(x * 2) - reference <= 8 * MAX_FULL_PEL
    ensures -0x8000 <= x * 2 < 0x8000
  {
  }

  /** A round that ends where it started has changed nothing. */
  lemma RoundStaysOrMoves(f: Evaluation, b: Bounds, w: Walk, step: nat)
    requires 0 < step
    ensures var next := Round(f, b, w, step); next.row == w.row && next.col == w.col ==> next == w
  {
    BestOfIsCheapest(w, Candidates(f, b, w.row, w.col, step));
  }

  /** Rounds of one step length: every round but the last moves by the rule, and fewer than three moves end where
      none of the five places of a further round is cheaper. */
  ghost predicate IsRefinement(f: Evaluation, b: Bounds, step: int, path: seq<Walk>) {
    && 1 <= |path| <= 4
    && (forall n :: 0 <= n < |path| - 1 ==> RoundRule(f, b, path[n], step, path[n + 1]) && path[n + 1] != path[n])
    && (|path| < 4 ==>
          var w := path[|path| - 1]; NoneCheaperAround(f, b, w.row, w.col, step, w.eval.cost))
  }

  lemma {:induction false} RoundsFollowRule(f: Evaluation, b: Bounds, w: Walk, step: nat, rounds: nat)
    returns (path: seq<Walk>)
    requires 0 < step
    ensures 1 <= |path| <= rounds + 1 && path[0] == w && path[|path| - 1] == Refined(f, b, w, step, rounds)
    ensures forall n :: 0 <= n < |path| - 1 ==> RoundRule(f, b, path[n], step, path[n + 1]) && path[n + 1] != path[n]
    ensures |path| <= rounds ==>
              var r := path[|path| - 1]; NoneCheaperAround(f, b, r.row, r.col, step, r.eval.cost)
    decreases rounds
  {
    path := [w];
    if rounds > 0 {
      var next := Round(f, b, w, step);
      RoundIsMinimal(f, b, w, step);
      RoundStaysOrMoves(f, b, w, step);
      if next.row != w.row || next.col != w.col {
        var rest := RoundsFollowRule(f, b, next, step, rounds - 1);
        path := [w] + rest;
        forall n | 0 <= n < |path| - 1
          ensures RoundRule(f, b, path[n], step, path[n + 1]) && path[n + 1] != path[n]
        {
          if n > 0 {
            assert RoundRule(f, b, rest[n - 1], step, rest[n - 1 + 1]) && rest[n - 1 + 1] != rest[n - 1];
          }
        }
      }
    }
  }

  /** The search goes up to three rounds of half pels and from there up to three of quarter pels, each by the rule, and
      leaves a step length early only where no candidate of a further round is cheaper. */
  lemma StopsAtMinimum(f: Evaluation, b: Bounds, start: Walk)
    ensures exists half, quarter {:trigger IsRefinement(f, b, 2, half), IsRefinement(f, b, 1, quarter)} ::
              && IsRefinement(f, b, 2, half) && IsRefinement(f, b, 1, quarter)
              && half[0] == start && quarter[0] == half[|half| - 1]
              && quarter[|quarter| - 1] == Searched(f, b, start)
  {
    var half := RoundsFollowRule(f, b, start, 2, ROUNDS);
    var quarter := RoundsFollowRule(f, b, half[|half| - 1], 1, ROUNDS);
    assert IsRefinement(f, b, 2, half) && IsRefinement(f, b, 1, quarter);
  }

  /** What is returned, and when: a full-pel vector whose block can be evaluated, if the position found, as a vector in
      eighth pels, differs from the reference by at most 255 full pels on each axis. */
  lemma RefinementReturns(
    f: Evaluation, center: Evaluation, b: Bounds, best: MotionVector, reference: MotionVector)
    ensures var r := Refinement(f, center, b, best, reference);
            if best.row % 8 != 0 || best.col % 8 != 0 || !center(best.row / 2, best.col / 2).ok then r == None
            else
              var w := Searched(f, b, Walk(best.row / 2, best.col / 2, center(best.row / 2, best.col / 2)));
              var mv := MotionVector(Int16(2 * w.row), Int16(2 * w.col));
              r == if -2040 <= mv.row - reference.row <= 2040 && -2040 <= mv.col - reference.col <= 2040
                   then Some(Found(mv, w.eval)) else None
  {
    if best.row % 8 == 0 && best.col % 8 == 0 {
      assert best.row / 8 * 4 == best.row / 2 && best.col / 8 * 4 == best.col / 2;
    }
  }

  /** The bounds are exactly the positions within 1023 quarter pels of the reference vector whose block, in quarter
      pels, lies within sixteen pels of the frame. */
  lemma SearchBoundsAllow(
    reference: MotionVector, mbRow: int, mbCol: int, mbRows: int, mbCols: int, row: int, col: int)
    ensures var b := SearchBounds(reference, mbRow, mbCol, mbRows, mbCols);
            var top, left := 64 * mbRow + row, 64 * mbCol + col;
            b.rowMin <= row <= b.rowMax && b.colMin <= col <= b.colMax <==>
              && -1023 <= row - reference.row / 2 <= 1023 && -1023 <= col - reference.col / 2 <= 1023
              && -64 <= top && top + 64 <= 64 * mbRows + 64 && -64 <= left && left + 64 <= 64 * mbCols + 64
  {
  }
}
