/** The temporal filter's full-pel search: a hexagon walk that probes three of the six neighbours per round, then a
    small diamond. The sum of absolute differences is an uninterpreted non-negative function of the position. */
module HexSearch {
  import opened Arith
  import opened Motion

  datatype Point = Point(row: int, col: int) {
    function Plus(step: Point): Point {
      Point(row + step.row, col + step.col)
    }
  }

  predicate Inside(b: Bounds, p: Point) {
    b.Contains(p.row, p.col)
  }

  type Difference = Point -> nat

  const HEX_RANGE: nat := 127
  const DIAMOND_RANGE: nat := 8

  const SIDES: nat := 6

  const HEX := [Point(-1, -2), Point(1, -2), Point(2, 0), Point(1, 2), Point(-1, 2), Point(-2, 0)]

  const NEXT_CHECKPOINTS := [
    [Point(-2, 0), Point(-1, -2), Point(1, -2)],
    [Point(-1, -2), Point(1, -2), Point(2, 0)],
    [Point(1, -2), Point(2, 0), Point(1, 2)],
    [Point(2, 0), Point(1, 2), Point(-1, 2)],
    [Point(1, 2), Point(-1, 2), Point(-2, 0)],
    [Point(-1, 2), Point(-2, 0), Point(-1, -2)]]

  const NEIGHBORS := [Point(0, -1), Point(-1, 0), Point(1, 0), Point(0, 1)]

  /** The motion bounds of a macroblock: the predictor may overhang the frame by five pixels on each side. */
  function BoundsFor(mbRow: int, mbCol: int, mbRows: int, mbCols: int): Bounds {
    Bounds(-(mbRow * 16 + 11), (mbRows - 1 - mbRow) * 16 + 11, -(mbCol * 16 + 11), (mbCols - 1 - mbCol) * 16 + 11)
  }

  /* Probing a list of neighbours */

  /** The smallest difference so far and the neighbour that has it, -1 for none. */
  datatype Pick = Pick(sad: int, site: int)

  /** The first n neighbours in order, those out of bounds skipped. */
  function Probed(sad: Difference, b: Bounds, at: Point, best: int, steps: seq<Point>, n: nat): (pick: Pick)
    requires n <= |steps|
    ensures -1 <= pick.site < n && (pick.site < 0 ==> pick.sad == best)
  {
    if n == 0 then Pick(best, -1)
    else
      var pick, p := Probed(sad, b, at, best, steps, n - 1), at.Plus(steps[n - 1]);
      if Inside(b, p) && sad(p) < pick.sad then Pick(sad(p), n - 1) else pick
  }

  /** The result is the minimum over the incumbent and every in-bounds neighbour; without a site it is the incumbent. */
  lemma {:induction false} ProbedIsMinimum(
    sad: Difference, b: Bounds, at: Point, best: int, steps: seq<Point>, n: nat)
    requires n <= |steps|
    ensures var pick := Probed(sad, b, at, best, steps, n);
            && pick.sad <= best
            && (forall i :: 0 <= i < n && Inside(b, at.Plus(steps[i])) ==> pick.sad <= sad(at.Plus(steps[i])))
            && (if pick.site < 0 then pick.sad == best
                else
                  && pick.sad < best && Inside(b, at.Plus(steps[pick.site]))
                  && pick.sad == sad(at.Plus(steps[pick.site])))
  {
    if n > 0 {
      ProbedIsMinimum(sad, b, at, best, steps, n - 1);
    }
  }

  method Probe(sad: Difference, b: Bounds, at: Point, best: int, steps: seq<Point>)
    returns (bestSad: int, bestSite: int)
    ensures Pick(bestSad, bestSite) == Probed(sad, b, at, best, steps, |steps|)
  {
    bestSad, bestSite := best, -1;
    for i := 0 to |steps|
      invariant Pick(bestSad, bestSite) == Probed(sad, b, at, best, steps, i)
    {
      var row, col := at.row + steps[i].row, at.col + steps[i].col;
      if !Inside(b, Point(row, col)) {
        continue;
      }
      var d := sad(Point(row, col));
      if d < bestSad {
        bestSad := d;
        bestSite := i;
      }
    }
  }

  /* The walk with all six neighbours */

  /** Index arithmetic around the hexagon. */
  function Turned(k: nat): (r: nat)
    requires k < 18
    ensures r < 6
  {
    if k >= 12 then k - 12 else if k >= 6 then k - 6 else k
  }

  function Vertex(k: nat): Point
    requires k < 6
  {
    if k == 0 then Point(-1, -2)
    else if k == 1 then Point(1, -2)
    else if k == 2 then Point(2, 0)
    else if k == 3 then Point(1, 2)
    else if k == 4 then Point(-1, 2)
    else Point(-2, 0)
  }

  /** All six vertices, starting with the one before the k-th. */
  function Around(k: nat): (steps: seq<Point>)
    requires k < 6
    ensures |steps| == 6
  {
    [Vertex(Turned(k + 5)), Vertex(k), Vertex(Turned(k + 1)),
     Vertex(Turned(k + 2)), Vertex(Turned(k + 3)), Vertex(Turned(k + 4))]
  }

  datatype Spot = Spot(at: Point, sad: int)

  /** Rounds that probe all six neighbours and move to the best, until none is better. */
  function HexWalk(sad: Difference, b: Bounds, w: Spot, k: nat, rounds: nat): Spot
    requires k < 6
    decreases rounds
  {
    if rounds == 0 then w
    else
      var pick := Probed(sad, b, w.at, w.sad, Around(k), SIDES);
      if pick.site < 0 then w
      else HexWalk(sad, b, Spot(w.at.Plus(Around(k)[pick.site]), pick.sad), Turned(k + 5 + pick.site), rounds - 1)
  }

  function DiamondWalk(sad: Difference, b: Bounds, w: Spot, rounds: nat): Spot
    decreases rounds
  {
    if rounds == 0 then w
    else
      var pick := Probed(sad, b, w.at, w.sad, NEIGHBORS, |NEIGHBORS|);
      if pick.site < 0 then w
      else DiamondWalk(sad, b, Spot(w.at.Plus(NEIGHBORS[pick.site]), pick.sad), rounds - 1)
  }

  function Start(sad: Difference, b: Bounds, seedX: int, seedY: int): Spot {
    var at := Point(Clamp(seedY, b.rowMin, b.rowMax), Clamp(seedX, b.colMin, b.colMax));
    Spot(at, sad(at))
  }

  /** The whole search, every hexagon probed in full. */
  function Matching(sad: Difference, b: Bounds, seedX: int, seedY: int): Spot {
    DiamondWalk(sad, b, HexWalk(sad, b, Start(sad, b, seedX, seedY), 1, HEX_RANGE), DIAMOND_RANGE)
  }

  /* Three probes suffice */

  /** The hexagon closes: a vertex and the next but one add up to the one between, */
  lemma NextButOne(k: nat)
    requires k < 6
    ensures Vertex(k).Plus(Vertex(Turned(k + 2))) == Vertex(Turned(k + 1))
  {
  }

  /** opposite vertices cancel, */
  lemma Opposite(k: nat)
    requires k < 6
    ensures Vertex(k).Plus(Vertex(Turned(k + 3))) == Point(0, 0)
  {
    assert k == 3 ==> Turned(k + 3) == 0;
  }

  /** and so do the vertices on the other side. */
  lemma LastButOne(k: nat)
    requires k < 6
    ensures Vertex(k).Plus(Vertex(Turned(k + 4))) == Vertex(Turned(k + 5))
  {
    var last := Turned(k + 4);
    NextButOne(last);
    assert Turned(last + 2) == k && Turned(last + 1) == Turned(k + 5);
  }

  /** The first round probes the vertices in the order of the table, and a checkpoint row lists the k-th vertex between
      its neighbours. */
  lemma TablesAreAround(k: nat)
    requires k < 6
    ensures HEX == Around(1) && |NEXT_CHECKPOINTS[k]| == 3 && NEXT_CHECKPOINTS[k] == Around(k)[..3]
  {
    if k == 0 {
    } else if k == 1 {
    } else if k == 2 {
    } else if k == 3 {
    } else if k == 4 {
    } else {
    }
  }

  /** No in-bounds neighbour behind the walk is better than where it stands. */
  ghost predicate BackIsWorse(sad: Difference, b: Bounds, w: Spot, k: nat)
    requires k < 6
  {
    forall i :: 3 <= i < 6 && Inside(b, w.at.Plus(Around(k)[i])) ==> w.sad <= sad(w.at.Plus(Around(k)[i]))
  }

  /** Where the neighbours behind the walk are no better, probing the three ahead finds what probing all six would. */
  lemma ThreeProbesSuffice(sad: Difference, b: Bounds, w: Spot, k: nat)
    requires k < 6 && BackIsWorse(sad, b, w, k)
    ensures |NEXT_CHECKPOINTS[k]| == 3
    ensures Probed(sad, b, w.at, w.sad, NEXT_CHECKPOINTS[k], 3) == Probed(sad, b, w.at, w.sad, Around(k), SIDES)
  {
    TablesAreAround(k);
    PrefixProbes(sad, b, w.at, w.sad, Around(k), 3);
    ProbedIsMinimum(sad, b, w.at, w.sad, Around(k), 3);
    BackProbesLose(sad, b, w, k, 6);
  }

  lemma {:induction false} PrefixProbes(sad: Difference, b: Bounds, at: Point, best: int, steps: seq<Point>, n: nat)
    requires n <= 3 <= |steps|
    ensures Probed(sad, b, at, best, steps[..3], n) == Probed(sad, b, at, best, steps, n)
  {
    if n > 0 {
      PrefixProbes(sad, b, at, best, steps, n - 1);
    }
  }

  lemma {:induction false} BackProbesLose(sad: Difference, b: Bounds, w: Spot, k: nat, n: nat)
    requires k < 6 && 3 <= n <= 6 && BackIsWorse(sad, b, w, k)
    ensures Probed(sad, b, w.at, w.sad, Around(k), n) == Probed(sad, b, w.at, w.sad, Around(k), 3)
    decreases n
  {
    if n > 3 {
      BackProbesLose(sad, b, w, k, n - 1);
      ProbedIsMinimum(sad, b, w.at, w.sad, Around(k), n - 1);
    }
  }

  /** Vertex m is the neighbour of index IndexAround(k, m) in the order that starts before the k-th. */
  function IndexAround(k: nat, m: nat): (j: nat)
    requires k < 6 && m < 6
    ensures j < 6
  {
    Turned(m + 7 - k)
  }

  lemma EveryVertexIsAround(k: nat, m: nat)
    requires k < 6 && m < 6
    ensures Around(k)[IndexAround(k, m)] == Vertex(m)
  {
    var j := IndexAround(k, m);
    if j == 0 {
    } else if j == 1 {
    } else if j == 2 {
    } else if j == 3 {
    } else if j == 4 {
    } else {
    }
  }

  lemma SiteIsVertex(k: nat, site: nat)
    requires k < 6 && site < 6
    ensures Around(k)[site] == Vertex(Turned(k + 5 + site))
  {
    if site == 0 {
    } else if site == 1 {
    } else if site == 2 {
    } else if site == 3 {
    } else if site == 4 {
    } else {
    }
  }

  /** A neighbour behind the position that vertex m leads to is the old position or another neighbour of it. */
  function Behind(k: nat, m: nat, i: nat): (j: int)
    requires k < 6 && m < 6 && 3 <= i < 6
    ensures -1 <= j < 6
  {
    if i == 3 then IndexAround(k, Turned(m + 1)) else if i == 4 then -1 else IndexAround(k, Turned(m + 5))
  }

  lemma SumOfSteps(at: Point, s: Point, t: Point)
    ensures at.Plus(s).Plus(t) == at.Plus(s.Plus(t))
    ensures s.Plus(t) == Point(0, 0) ==> at.Plus(s).Plus(t) == at
  {
  }

  lemma BehindIsKnown(at: Point, k: nat, m: nat, i: nat)
    requires k < 6 && m < 6 && 3 <= i < 6
    ensures var back, j := at.Plus(Vertex(m)).Plus(Around(m)[i]), Behind(k, m, i);
            back == if j < 0 then at else at.Plus(Around(k)[j])
  {
    SumOfSteps(at, Vertex(m), Around(m)[i]);
    if i == 3 {
      NextButOne(m);
      assert Around(m)[i] == Vertex(Turned(m + 2));
      EveryVertexIsAround(k, Turned(m + 1));
    } else if i == 4 {
      Opposite(m);
      assert Around(m)[i] == Vertex(Turned(m + 3));
    } else {
      LastButOne(m);
      assert Around(m)[i] == Vertex(Turned(m + 4));
      EveryVertexIsAround(k, Turned(m + 5));
    }
  }

  /** After a round over all six neighbours, none behind the new position is better than it. */
  lemma MovingLeavesWorseBehind(sad: Difference, b: Bounds, w: Spot, k: nat)
    requires k < 6 && w.sad == sad(w.at)
    requires Probed(sad, b, w.at, w.sad, Around(k), SIDES).site >= 0
    ensures var pick := Probed(sad, b, w.at, w.sad, Around(k), SIDES);
            var w' := Spot(w.at.Plus(Around(k)[pick.site]), pick.sad);
            BackIsWorse(sad, b, w', Turned(k + 5 + pick.site)) && w'.sad == sad(w'.at)
  {
    var pick := Probed(sad, b, w.at, w.sad, Around(k), SIDES);
    ProbedIsMinimum(sad, b, w.at, w.sad, Around(k), SIDES);
    SiteIsVertex(k, pick.site);
    var m := Turned(k + 5 + pick.site);
    var w' := Spot(w.at.Plus(Around(k)[pick.site]), pick.sad);
    forall i | 3 <= i < 6 && Inside(b, w'.at.Plus(Around(m)[i]))
      ensures w'.sad <= sad(w'.at.Plus(Around(m)[i]))
    {
      BehindIsKnown(w.at, k, m, i);
    }
  }

  /** The encoder's search: six probes in the first round, three in each later one. */
  method FindMatching(sad: Difference, mbRow: int, mbCol: int, mbRows: int, mbCols: int, seedX: int, seedY: int)
    returns (bestSad: int, bc: int, br: int)
    ensures Spot(Point(br, bc), bestSad) == Matching(sad, BoundsFor(mbRow, mbCol, mbRows, mbCols), seedX, seedY)
  {
    var b := BoundsFor(mbRow, mbCol, mbRows, mbCols);
    var w := Start(sad, b, seedX, seedY);
    w := WalkHexagons(sad, b, w);
    w := WalkDiamonds(sad, b, w);
    return w.sad, w.at.col, w.at.row;
  }

  /** One round of the walk over three checkpoints, and the turn that goes with the move. */
  method WalkRound(sad: Difference, b: Bounds, w: Spot, k: nat, ghost rounds: nat)
    returns (moved: bool, w': Spot, k': nat)
    requires k < 6 && w.sad == sad(w.at) && BackIsWorse(sad, b, w, k) && 0 < rounds
    ensures k' < 6 && HexWalk(sad, b, w, k, rounds) == if moved then HexWalk(sad, b, w', k', rounds - 1) else w'
    ensures var pick := Probed(sad, b, w.at, w.sad, Around(k), SIDES);
            && moved == (pick.site >= 0)
            && (moved ==> w' == Spot(w.at.Plus(Around(k)[pick.site]), pick.sad) && k' == Turned(k + 5 + pick.site))
    ensures if moved then k' < 6 && w'.sad == sad(w'.at) && BackIsWorse(sad, b, w', k') else w' == w
  {
    ThreeProbesSuffice(sad, b, w, k);
    TablesAreAround(k);
    var bestSad, bestSite := Probe(sad, b, w.at, w.sad, NEXT_CHECKPOINTS[k]);
    if bestSite < 0 {
      return false, w, k;
    }
    MovingLeavesWorseBehind(sad, b, w, k);
    w' := Spot(w.at.Plus(NEXT_CHECKPOINTS[k][bestSite]), bestSad);
    k' := k + 5 + bestSite;
    if k' >= 12 {
      k' := k' - 12;
    } else if k' >= 6 {
      k' := k' - 6;
    }
    return true, w', k';
  }

  method WalkHexagons(sad: Difference, b: Bounds, start: Spot) returns (w: Spot)
    requires start.sad == sad(start.at)
    ensures w == HexWalk(sad, b, start, 1, HEX_RANGE)
  {
    w := start;
    TablesAreAround(1);
    var bestSad, bestSite := Probe(sad, b, start.at, start.sad, HEX);
    if bestSite >= 0 {
      MovingLeavesWorseBehind(sad, b, start, 1);
      w := Spot(start.at.Plus(HEX[bestSite]), bestSad);
      w := WalkOn(sad, b, w, bestSite);
    }
  }

  /** The rounds after the first. */
  method WalkOn(sad: Difference, b: Bounds, start: Spot, site: nat) returns (w: Spot)
    requires site < 6 && start.sad == sad(start.at) && BackIsWorse(sad, b, start, site)
    ensures w == HexWalk(sad, b, start, site, HEX_RANGE - 1)
  {
    w := start;
    var k := site;
    ghost var done, left := HexWalk(sad, b, start, site, HEX_RANGE - 1), HEX_RANGE - 1;
    for j := 1 to HEX_RANGE
      invariant 0 <= k < 6 && left == HEX_RANGE - j
      invariant w.sad == sad(w.at) && BackIsWorse(sad, b, w, k)
      invariant done == HexWalk(sad, b, w, k, left)
    {
      var moved;
      moved, w, k := WalkRound(sad, b, w, k, left);
      if !moved {
        break;
      }
      left := left - 1;
    }
  }

  method WalkDiamonds(sad: Difference, b: Bounds, start: Spot) returns (w: Spot)
    ensures w == DiamondWalk(sad, b, start, DIAMOND_RANGE)
  {
    w := start;
    for j := 0 to DIAMOND_RANGE
      invariant DiamondWalk(sad, b, start, DIAMOND_RANGE) == DiamondWalk(sad, b, w, DIAMOND_RANGE - j)
    {
      var bestSad, bestSite := Probe(sad, b, w.at, w.sad, NEIGHBORS);
      if bestSite < 0 {
        break;
      }
      w := Spot(w.at.Plus(NEIGHBORS[bestSite]), bestSad);
    }
  }

  /* What the walks achieve */

  /* What the walks do, move by move */

  /** The position is out of bounds or no better than w. */
  predicate NotBetter(sad: Difference, b: Bounds, w: Spot, row: int, col: int) {
    b.rowMin <= row <= b.rowMax && b.colMin <= col <= b.colMax ==> w.sad <= sad(Point(row, col))
  }

  /** No in-bounds vertex of the hexagon around w is better. */
  predicate HexMinimum(sad: Difference, b: Bounds, w: Spot) {
    var row, col := w.at.row, w.at.col;
    && NotBetter(sad, b, w, row - 1, col - 2) && NotBetter(sad, b, w, row + 1, col - 2)
    && NotBetter(sad, b, w, row - 1, col + 2) && NotBetter(sad, b, w, row + 1, col + 2)
    && NotBetter(sad, b, w, row - 2, col) && NotBetter(sad, b, w, row + 2, col)
  }

  /** None of the four in-bounds direct neighbours of w is better. */
  predicate DiamondMinimum(sad: Difference, b: Bounds, w: Spot) {
    var row, col := w.at.row, w.at.col;
    && NotBetter(sad, b, w, row - 1, col) && NotBetter(sad, b, w, row + 1, col)
    && NotBetter(sad, b, w, row, col - 1) && NotBetter(sad, b, w, row, col + 1)
  }

  function Neighbor(w: Spot, steps: seq<Point>, i: nat): Point
    requires i < |steps|
  {
    Point(w.at.row + steps[i].row, w.at.col + steps[i].col)
  }

  predicate NeighborInside(b: Bounds, w: Spot, steps: seq<Point>, i: nat)
    requires i < |steps|
  {
    var p := Neighbor(w, steps, i);
    b.rowMin <= p.row <= b.rowMax && b.colMin <= p.col <= b.colMax
  }

  /** Neighbour i is better than w and the first of the best in-bounds neighbours. */
  ghost predicate FirstOfBest(sad: Difference, b: Bounds, w: Spot, steps: seq<Point>, i: nat)
    requires i < |steps|
  {
    var d := sad(Neighbor(w, steps, i));
    && NeighborInside(b, w, steps, i) && d < w.sad
    && (forall j :: 0 <= j < |steps| && NeighborInside(b, w, steps, j) ==> d <= sad(Neighbor(w, steps, j)))
    && (forall j :: 0 <= j < i && NeighborInside(b, w, steps, j) ==> d < sad(Neighbor(w, steps, j)))
  }

  /** One move of the diamond: to the first of the best of the left, upper, lower and right neighbour. */
  ghost predicate DiamondMove(sad: Difference, b: Bounds, w: Spot, w': Spot) {
    var steps := [Point(0, -1), Point(-1, 0), Point(1, 0), Point(0, 1)];
    exists i: nat {:trigger FirstOfBest(sad, b, w, steps, i)} ::
      i < |steps| && FirstOfBest(sad, b, w, steps, i) && w' == Spot(Neighbor(w, steps, i), sad(Neighbor(w, steps, i)))
  }

  /** A spot of the hexagon walk, with the vertex it was reached by; vertex 1 before the first round. */
  datatype Turn = Turn(spot: Spot, k: nat)

  /** The six vertices in turn, from the one before vertex k. */
  function VerticesFrom(k: nat): (steps: seq<Point>)
    ensures |steps| == 6
  {
    var vertices := [Point(-1, -2), Point(1, -2), Point(2, 0), Point(1, 2), Point(-1, 2), Point(-2, 0)];
    seq(6, i requires 0 <= i => vertices[(k + 5 + i) % 6])
  }

  /** One move of the hexagon: to the first of the best of all six vertices, counted from the one before the last
      move's. */
  ghost predicate HexMove(sad: Difference, b: Bounds, t: Turn, t': Turn) {
    exists i: nat {:trigger FirstOfBest(sad, b, t.spot, VerticesFrom(t.k), i)} ::
      i < 6 && FirstOfBest(sad, b, t.spot, VerticesFrom(t.k), i) &&
      t' == Turn(Spot(Neighbor(t.spot, VerticesFrom(t.k), i), sad(Neighbor(t.spot, VerticesFrom(t.k), i))),
                 (t.k + 5 + i) % 6)
  }

  lemma VerticesAreAround(k: nat)
    requires k < 6
    ensures VerticesFrom(k) == Around(k)
  {
    forall i | 0 <= i < 6
      ensures VerticesFrom(k)[i] == Around(k)[i]
    {
      VertexIsListed(k + 5 + i);
      SiteIsVertex(k, i);
    }
  }

  lemma VertexIsListed(m: nat)
    requires m < 18
    ensures m % 6 == Turned(m)
    ensures [Point(-1, -2), Point(1, -2), Point(2, 0), Point(1, 2), Point(-1, 2), Point(-2, 0)][m % 6] == Vertex(m % 6)
  {
    var r := m % 6;
    assert r == 0 || r == 1 || r == 2 || r == 3 || r == 4 || r == 5;
  }

  /** A probe finds the first of the best neighbours. */
  lemma {:induction false} ProbedIsFirst(sad: Difference, b: Bounds, w: Spot, steps: seq<Point>, n: nat)
    requires n <= |steps|
    ensures var pick := Probed(sad, b, w.at, w.sad, steps, n);
            && pick.sad <= w.sad
            && (forall j :: 0 <= j < n && NeighborInside(b, w, steps, j) ==> pick.sad <= sad(Neighbor(w, steps, j)))
            && (pick.site < 0 ==> pick.sad == w.sad)
            && (pick.site >= 0 ==>
                  && NeighborInside(b, w, steps, pick.site)
                  && pick.sad == sad(Neighbor(w, steps, pick.site)) < w.sad
                  && forall j :: 0 <= j < pick.site && NeighborInside(b, w, steps, j) ==>
                       pick.sad < sad(Neighbor(w, steps, j)))
  {
    if n > 0 {
      ProbedIsFirst(sad, b, w, steps, n - 1);
      assert w.at.Plus(steps[n - 1]) == Neighbor(w, steps, n - 1);
    }
  }

  /** Where no neighbour was picked, none is better. */
  lemma NothingPicked(sad: Difference, b: Bounds, w: Spot, steps: seq<Point>, i: nat)
    requires Probed(sad, b, w.at, w.sad, steps, |steps|).site < 0 && i < |steps|
    ensures NotBetter(sad, b, w, w.at.row + steps[i].row, w.at.col + steps[i].col)
  {
    ProbedIsFirst(sad, b, w, steps, |steps|);
    assert NeighborInside(b, w, steps, i) ==> w.sad <= sad(Neighbor(w, steps, i));
  }

  lemma VertexIsNotBetter(sad: Difference, b: Bounds, w: Spot, k: nat, m: nat, vertex: Point)
    requires k < 6 && m < 6 && Probed(sad, b, w.at, w.sad, Around(k), SIDES).site < 0 && vertex == Vertex(m)
    ensures NotBetter(sad, b, w, w.at.row + vertex.row, w.at.col + vertex.col)
  {
    EveryVertexIsAround(k, m);
    NothingPicked(sad, b, w, Around(k), IndexAround(k, m));
  }

  lemma StoppedIsMinimum(sad: Difference, b: Bounds, w: Spot, k: nat)
    requires k < 6 && Probed(sad, b, w.at, w.sad, Around(k), SIDES).site < 0
    ensures HexMinimum(sad, b, w)
  {
    VertexIsNotBetter(sad, b, w, k, 0, Point(-1, -2));
    VertexIsNotBetter(sad, b, w, k, 1, Point(1, -2));
    VertexIsNotBetter(sad, b, w, k, 2, Point(2, 0));
    VertexIsNotBetter(sad, b, w, k, 3, Point(1, 2));
    VertexIsNotBetter(sad, b, w, k, 4, Point(-1, 2));
    VertexIsNotBetter(sad, b, w, k, 5, Point(-2, 0));
  }

  lemma StoppedIsDiamondMinimum(sad: Difference, b: Bounds, w: Spot)
    requires Probed(sad, b, w.at, w.sad, NEIGHBORS, |NEIGHBORS|).site < 0
    ensures DiamondMinimum(sad, b, w)
  {
    NothingPicked(sad, b, w, NEIGHBORS, 0);
    NothingPicked(sad, b, w, NEIGHBORS, 1);
    NothingPicked(sad, b, w, NEIGHBORS, 2);
    NothingPicked(sad, b, w, NEIGHBORS, 3);
  }

  lemma PickIsHexMove(sad: Difference, b: Bounds, w: Spot, k: nat)
    requires k < 6
    ensures var pick := Probed(sad, b, w.at, w.sad, Around(k), SIDES);
            pick.site >= 0 ==>
              HexMove(sad, b, Turn(w, k),
                      Turn(Spot(w.at.Plus(Around(k)[pick.site]), pick.sad), Turned(k + 5 + pick.site)))
  {
    var pick := Probed(sad, b, w.at, w.sad, Around(k), SIDES);
    VerticesAreAround(k);
    ProbedIsFirst(sad, b, w, VerticesFrom(k), 6);
    if pick.site >= 0 {
      VertexIsListed(k + 5 + pick.site);
      assert FirstOfBest(sad, b, w, VerticesFrom(k), pick.site);
    }
  }

  lemma PickIsDiamondMove(sad: Difference, b: Bounds, w: Spot)
    ensures var pick := Probed(sad, b, w.at, w.sad, NEIGHBORS, |NEIGHBORS|);
            pick.site >= 0 ==> DiamondMove(sad, b, w, Spot(w.at.Plus(NEIGHBORS[pick.site]), pick.sad))
  {
    var pick := Probed(sad, b, w.at, w.sad, NEIGHBORS, |NEIGHBORS|);
    var steps := [Point(0, -1), Point(-1, 0), Point(1, 0), Point(0, 1)];
    ProbedIsFirst(sad, b, w, steps, 4);
    if pick.site >= 0 {
      assert FirstOfBest(sad, b, w, steps, pick.site);
    }
  }

  ghost predicate IsHexPath(sad: Difference, b: Bounds, path: seq<Turn>) {
    0 < |path| && forall n :: 0 <= n < |path| - 1 ==> HexMove(sad, b, path[n], path[n + 1])
  }

  ghost predicate IsDiamondPath(sad: Difference, b: Bounds, path: seq<Spot>) {
    0 < |path| && forall n :: 0 <= n < |path| - 1 ==> DiamondMove(sad, b, path[n], path[n + 1])
  }

  /** One round of the walk. */
  lemma HexRound(sad: Difference, b: Bounds, w: Spot, k: nat, rounds: nat) returns (moved: bool, t: Turn)
    requires k < 6 && 0 < rounds
    ensures t.k < 6
    ensures if moved
            then && HexMove(sad, b, Turn(w, k), t)
                 && HexWalk(sad, b, w, k, rounds) == HexWalk(sad, b, t.spot, t.k, rounds - 1)
            else HexMinimum(sad, b, w) && HexWalk(sad, b, w, k, rounds) == w
  {
    var pick := Probed(sad, b, w.at, w.sad, Around(k), SIDES);
    moved, t := pick.site >= 0, Turn(w, k);
    if moved {
      t := Turn(Spot(w.at.Plus(Around(k)[pick.site]), pick.sad), Turned(k + 5 + pick.site));
      PickIsHexMove(sad, b, w, k);
    } else {
      StoppedIsMinimum(sad, b, w, k);
    }
  }

  lemma {:induction false} HexWalkMoves(sad: Difference, b: Bounds, w: Spot, k: nat, rounds: nat)
    returns (path: seq<Turn>)
    requires k < 6
    ensures IsHexPath(sad, b, path) && path[0] == Turn(w, k) && |path| <= rounds + 1
    ensures path[|path| - 1].spot == HexWalk(sad, b, w, k, rounds)
    ensures |path| <= rounds ==> HexMinimum(sad, b, path[|path| - 1].spot)
    decreases rounds
  {
    path := [Turn(w, k)];
    if rounds > 0 {
      var moved, t := HexRound(sad, b, w, k, rounds);
      if moved {
        var rest := HexWalkMoves(sad, b, t.spot, t.k, rounds - 1);
        path := HexPathGrows(sad, b, Turn(w, k), rest);
      }
    }
  }

  lemma HexPathGrows(sad: Difference, b: Bounds, t: Turn, rest: seq<Turn>) returns (path: seq<Turn>)
    requires IsHexPath(sad, b, rest) && HexMove(sad, b, t, rest[0])
    ensures IsHexPath(sad, b, path) && path == [t] + rest
  {
    path := [t] + rest;
    forall n | 0 <= n < |path| - 1
      ensures HexMove(sad, b, path[n], path[n + 1])
    {
      if n > 0 {
        assert HexMove(sad, b, rest[n - 1], rest[n - 1 + 1]);
      }
    }
  }

  lemma {:induction false} DiamondWalkMoves(sad: Difference, b: Bounds, w: Spot, rounds: nat) returns (path: seq<Spot>)
    ensures IsDiamondPath(sad, b, path) && path[0] == w && |path| <= rounds + 1
    ensures path[|path| - 1] == DiamondWalk(sad, b, w, rounds)
    ensures |path| <= rounds ==> DiamondMinimum(sad, b, path[|path| - 1])
    decreases rounds
  {
    path := [w];
    if rounds > 0 {
      var pick := Probed(sad, b, w.at, w.sad, NEIGHBORS, |NEIGHBORS|);
      if pick.site < 0 {
        StoppedIsDiamondMinimum(sad, b, w);
      } else {
        PickIsDiamondMove(sad, b, w);
        var rest := DiamondWalkMoves(sad, b, Spot(w.at.Plus(NEIGHBORS[pick.site]), pick.sad), rounds - 1);
        path := DiamondPathGrows(sad, b, w, rest);
      }
    }
  }

  lemma DiamondPathGrows(sad: Difference, b: Bounds, w: Spot, rest: seq<Spot>) returns (path: seq<Spot>)
    requires IsDiamondPath(sad, b, rest) && DiamondMove(sad, b, w, rest[0])
    ensures IsDiamondPath(sad, b, path) && path == [w] + rest
  {
    path := [w] + rest;
    forall n | 0 <= n < |path| - 1
      ensures DiamondMove(sad, b, path[n], path[n + 1])
    {
      if n > 0 {
        assert DiamondMove(sad, b, rest[n - 1], rest[n - 1 + 1]);
      }
    }
  }

  /** The two parts of a search: from the in-bounds position next to the seed up to 127 moves around the hexagon, fewer
      only when no vertex is better, and from there up to 8 moves of the diamond, fewer only when no direct neighbour
      is better. */
  ghost predicate IsSearch(
    sad: Difference, b: Bounds, seedX: int, seedY: int, hex: seq<Turn>, diamond: seq<Spot>)
  {
    && IsHexPath(sad, b, hex) && IsDiamondPath(sad, b, diamond)
    && hex[0] == Turn(Spot(hex[0].spot.at, sad(hex[0].spot.at)), 1)
    && hex[0].spot.at.row == (if seedY < b.rowMin then b.rowMin else if seedY > b.rowMax then b.rowMax else seedY)
    && hex[0].spot.at.col == (if seedX < b.colMin then b.colMin else if seedX > b.colMax then b.colMax else seedX)
    && |hex| <= 128 && (|hex| < 128 ==> HexMinimum(sad, b, hex[|hex| - 1].spot))
    && diamond[0] == hex[|hex| - 1].spot
    && |diamond| <= 9 && (|diamond| < 9 ==> DiamondMinimum(sad, b, diamond[|diamond| - 1]))
  }

  lemma MatchingMoves(sad: Difference, mbRow: int, mbCol: int, mbRows: int, mbCols: int, seedX: int, seedY: int)
    requires 0 <= mbRow < mbRows && 0 <= mbCol < mbCols
    ensures var b := BoundsFor(mbRow, mbCol, mbRows, mbCols);
            exists hex, diamond {:trigger IsSearch(sad, b, seedX, seedY, hex, diamond)} ::
              IsSearch(sad, b, seedX, seedY, hex, diamond) &&
              diamond[|diamond| - 1] == Matching(sad, b, seedX, seedY)
  {
    var b := BoundsFor(mbRow, mbCol, mbRows, mbCols);
    var hex := HexWalkMoves(sad, b, Start(sad, b, seedX, seedY), 1, HEX_RANGE);
    var diamond := DiamondWalkMoves(sad, b, hex[|hex| - 1].spot, DIAMOND_RANGE);
    assert IsSearch(sad, b, seedX, seedY, hex, diamond);
  }

  /** The bounds are exactly the positions where the sixteen rows and columns of the predictor stay within eleven of the
      frame. */
  lemma BoundsAllow(mbRow: int, mbCol: int, mbRows: int, mbCols: int, row: int, col: int)
    ensures var b, top, left := BoundsFor(mbRow, mbCol, mbRows, mbCols), 16 * mbRow + row, 16 * mbCol + col;
            b.rowMin <= row <= b.rowMax && b.colMin <= col <= b.colMax <==>
              && -11 <= top && top + 16 <= 16 * mbRows + 11
              && -11 <= left && left + 16 <= 16 * mbCols + 11
  {
  }

  /** The search never leaves the bounds it starts in, never ends worse than it started, and reports the difference of
      the position it returns. */
  lemma {:induction false} HexWalkImproves(sad: Difference, b: Bounds, w: Spot, k: nat, rounds: nat)
    requires k < 6 && Inside(b, w.at) && w.sad == sad(w.at)
    ensures var r := HexWalk(sad, b, w, k, rounds); Inside(b, r.at) && r.sad == sad(r.at) && r.sad <= w.sad
    decreases rounds
  {
    if rounds > 0 {
      var pick := Probed(sad, b, w.at, w.sad, Around(k), SIDES);
      ProbedIsMinimum(sad, b, w.at, w.sad, Around(k), SIDES);
      if pick.site >= 0 {
        var w' := Spot(w.at.Plus(Around(k)[pick.site]), pick.sad);
        assert Inside(b, w'.at) && w'.sad == sad(w'.at);
        assert HexWalk(sad, b, w, k, rounds) == HexWalk(sad, b, w', Turned(k + 5 + pick.site), rounds - 1);
        HexWalkImproves(sad, b, w', Turned(k + 5 + pick.site), rounds - 1);
      }
    }
  }

  lemma {:induction false} DiamondWalkImproves(sad: Difference, b: Bounds, w: Spot, rounds: nat)
    requires Inside(b, w.at) && w.sad == sad(w.at)
    ensures var r := DiamondWalk(sad, b, w, rounds); Inside(b, r.at) && r.sad == sad(r.at) && r.sad <= w.sad
    decreases rounds
  {
    if rounds > 0 {
      var pick := Probed(sad, b, w.at, w.sad, NEIGHBORS, |NEIGHBORS|);
      ProbedIsMinimum(sad, b, w.at, w.sad, NEIGHBORS, |NEIGHBORS|);
      if pick.site >= 0 {
        DiamondWalkImproves(sad, b, Spot(w.at.Plus(NEIGHBORS[pick.site]), pick.sad), rounds - 1);
      }
    }
  }

  lemma MatchingImproves(sad: Difference, mbRow: int, mbCol: int, mbRows: int, mbCols: int, seedX: int, seedY: int)
    requires 0 <= mbRow < mbRows && 0 <= mbCol < mbCols
    ensures var b := BoundsFor(mbRow, mbCol, mbRows, mbCols);
            var r := Matching(sad, b, seedX, seedY);
            && Inside(b, r.at) && r.sad == sad(r.at)
            && r.sad <= Start(sad, b, seedX, seedY).sad
  {
    var b := BoundsFor(mbRow, mbCol, mbRows, mbCols);
    var start := Start(sad, b, seedX, seedY);
    HexWalkImproves(sad, b, start, 1, HEX_RANGE);
    DiamondWalkImproves(sad, b, HexWalk(sad, b, start, 1, HEX_RANGE), DIAMOND_RANGE);
  }
}
