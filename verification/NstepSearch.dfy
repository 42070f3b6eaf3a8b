/** The full-pel search of split blocks: the pruned n-step diamond with its skipped starts, and the pruned exhaustive
    search. The sum of absolute differences and the rate of a vector are uninterpreted non-negative functions of the
    full-pel position. */
module NstepSearch {
  import opened Arith
  import opened Motion

  const STEPS: nat := 8

  /** Sites per ring. */
  const SITES: nat := 8

  /** The distance of a ring's sites from its middle: 128, 64, .. 1. */
  function Length(ring: nat): (length: int)
    requires ring < STEPS
    ensures 1 <= length
  {
    PowerOfTwo(STEPS - 1 - ring)
  }

  /** The eight sites of a ring, in order. */
  function RingSites(length: int): (sites: seq<MotionVector>)
    ensures |sites| == SITES
  {
    [MotionVector(-length, 0), MotionVector(length, 0), MotionVector(0, -length), MotionVector(0, length),
     MotionVector(-length, -length), MotionVector(-length, length),
     MotionVector(length, -length), MotionVector(length, length)]
  }

  /** The site table: an unused entry, then the rings from the widest to the closest. */
  function NstepSites(rings: nat): (sites: seq<MotionVector>)
    requires rings <= STEPS
    ensures |sites| == 1 + 8 * rings
  {
    if rings == 0 then [MotionVector(0, 0)] else NstepSites(rings - 1) + RingSites(Length(rings - 1))
  }

  /** Site k of a ring of the table. */
  lemma {:induction false} TableSite(rings: nat, ring: nat, k: nat)
    requires ring < rings <= STEPS && k < SITES
    ensures NstepSites(rings)[1 + 8 * ring + k] == RingSites(Length(ring))[k]
  {
    if ring < rings - 1 {
      TableSite(rings - 1, ring, k);
    }
  }

  /** The encoder's table is as the search needs it. */
  lemma TableIsOnRings(s: Search)
    requires s.sites == NstepSites(STEPS)
    ensures s.Valid() && s.SitesAreOnRings()
  {
    forall ring, k | 0 <= ring < STEPS && 0 <= k < SITES
      ensures s.SiteIsOnRing(ring, k)
    {
      TableSite(STEPS, ring, k);
    }
  }

  /** Every site of the encoder's table: rings of 128, 64, .. 1 full pels, in each up, down, left and right come before
      the diagonals. */
  lemma TableSites(ring: nat, k: nat)
    requires ring < 8 && k < 8
    ensures |NstepSites(8)| == 65
    ensures var length := [128, 64, 32, 16, 8, 4, 2, 1][ring];
            var unit := [MotionVector(-1, 0), MotionVector(1, 0), MotionVector(0, -1), MotionVector(0, 1),
                         MotionVector(-1, -1), MotionVector(-1, 1), MotionVector(1, -1), MotionVector(1, 1)][k];
            NstepSites(8)[1 + 8 * ring + k] == MotionVector(length * unit.row, length * unit.col)
  {
    TableSite(STEPS, ring, k);
    LengthsHalve(0);
    Lengths(ring);
    RingSite(Length(ring), k);
  }

  lemma {:induction false} Lengths(ring: nat)
    requires ring < 8
    ensures Length(ring) == [128, 64, 32, 16, 8, 4, 2, 1][ring]
  {
    if ring == 0 {
      LengthsHalve(0);
    } else {
      Lengths(ring - 1);
      LengthsHalve(ring - 1);
    }
  }

  lemma RingSite(length: int, k: nat)
    requires k < 8
    ensures var unit := [MotionVector(-1, 0), MotionVector(1, 0), MotionVector(0, -1), MotionVector(0, 1),
                         MotionVector(-1, -1), MotionVector(-1, 1), MotionVector(1, -1), MotionVector(1, 1)][k];
            RingSites(length)[k] == MotionVector(length * unit.row, length * unit.col)
  {
  }

  /** The table as the encoder builds it. */
  method BuildNstepSites() returns (sites: array<MotionVector>)
    ensures fresh(sites) && sites[..] == NstepSites(STEPS)
  {
    sites := new MotionVector[1 + 8 * STEPS](_ => MotionVector(0, 0));
    var count, length := 1, 128;
    ghost var ring := 0;
    LengthsHalve(0);
    while length > 0
      invariant 0 <= ring <= STEPS && count == 1 + 8 * ring
      invariant length == if ring < STEPS then Length(ring) else 0
      invariant sites[..count] == NstepSites(ring)
      decreases STEPS - ring
    {
      FillRing(sites, count, length);
      LengthsHalve(ring);
      assert sites[..count + 8] == sites[..count] + sites[count..count + 8];
      count := count + 8;
      ring := ring + 1;
      length := length / 2;
    }
  }

  lemma LengthsHalve(ring: nat)
    requires ring < STEPS
    ensures Length(0) == 128
    ensures Length(ring) / 2 == if ring + 1 < STEPS then Length(ring + 1) else 0
  {
    assert PowerOfTwo(7) == 128;
    assert PowerOfTwo(STEPS - 1 - ring) == if ring + 1 < STEPS then 2 * PowerOfTwo(STEPS - 2 - ring) else 1;
  }

  method FillRing(sites: array<MotionVector>, count: nat, length: int)
    requires count + 8 <= sites.Length
    modifies sites
    ensures sites[count..count + 8] == RingSites(length)
    ensures sites[..count] == old(sites[..count]) && sites[count + 8..] == old(sites[count + 8..])
  {
    sites[count], sites[count + 1] := MotionVector(-length, 0), MotionVector(length, 0);
    sites[count + 2], sites[count + 3] := MotionVector(0, -length), MotionVector(0, length);
    sites[count + 4], sites[count + 5] := MotionVector(-length, -length), MotionVector(-length, length);
    sites[count + 6], sites[count + 7] := MotionVector(length, -length), MotionVector(length, length);
  }

  /** A step of one length on one axis or both. */
  predicate IsStep(site: MotionVector, length: int) {
    && (site.row == -length || site.row == 0 || site.row == length)
    && (site.col == -length || site.col == 0 || site.col == length)
    && (site.row != 0 || site.col != 0)
  }

  /** What a search works on: 8 rings of 8 sites after an unused first entry, the two parts of the walk cost, and the
      cost by which results are ranked. */
  datatype Search = Search(
    sites: seq<MotionVector>, sad: (int, int) -> nat, rate: (int, int) -> nat, returnCost: MotionVector -> int,
    bounds: Bounds)
  {
    predicate Valid() {
      |sites| == 1 + 8 * STEPS
    }

    predicate SiteIsOnRing(ring: nat, k: nat)
      requires Valid() && ring < STEPS && k < SITES
    {
      IsStep(sites[1 + 8 * ring + k], Length(ring))
    }

    /** Every site of a ring is a step of the ring's length. */
    ghost predicate SitesAreOnRings()
      requires Valid()
    {
      forall ring, k {:trigger SiteIsOnRing(ring, k)} :: 0 <= ring < STEPS && 0 <= k < SITES ==> SiteIsOnRing(ring, k)
    }

    function Cost(row: int, col: int): nat {
      sad(row, col) + rate(row, col)
    }

    function CostOf(mv: MotionVector): nat {
      Cost(mv.FullRow(), mv.FullCol())
    }

    /** The rank of a result; that of the center is given by the caller. */
    function Rank(mv: MotionVector, center: MotionVector, centerReturnCost: int): int {
      if mv != center then returnCost(mv) else centerReturnCost
    }
  }

  /* One ring, every site evaluated in full */

  /** The cheapest cost so far and the index of its site, 0 for none. */
  datatype Pick = Pick(cost: int, site: nat)

  function Offered(s: Search, at: MotionVector, pick: Pick, i: nat): Pick
    requires s.Valid() && i < |s.sites|
  {
    var row, col := at.FullRow() + s.sites[i].row, at.FullCol() + s.sites[i].col;
    if s.bounds.ContainsStrict(row, col) && s.Cost(row, col) < pick.cost then Pick(s.Cost(row, col), i) else pick
  }

  /** The first k sites of the ring that starts at index `first`. */
  function Scanned(s: Search, at: MotionVector, cost: int, first: nat, k: nat): (pick: Pick)
    requires s.Valid() && 0 < first && first + k <= |s.sites|
    ensures if pick.site == 0 then pick.cost == cost else first <= pick.site < first + k
  {
    if k == 0 then Pick(cost, 0) else Offered(s, at, Scanned(s, at, cost, first, k - 1), first + k - 1)
  }

  /** Where a diamond walk is, what that costs, and how many rings found the walk still at its start and left it
      there. */
  datatype Walk = Walk(best: MotionVector, cost: int, idle: nat)

  function Moved(at: MotionVector, site: MotionVector): MotionVector {
    Packed(at.row + site.row * 8, at.col + site.col * 8)
  }

  function AfterRing(s: Search, start: MotionVector, w: Walk, ring: nat): Walk
    requires s.Valid() && ring < STEPS
  {
    var pick := Scanned(s, w.best, w.cost, 1 + 8 * ring, SITES);
    if pick.site != 0 then Walk(Moved(w.best, s.sites[pick.site]), pick.cost, w.idle)
    else if w.best == start then w.(idle := w.idle + 1)
    else w
  }

  /** The walk through rings `ring` .. 7. */
  function Walked(s: Search, start: MotionVector, w: Walk, ring: nat): Walk
    requires s.Valid() && ring <= STEPS
    decreases STEPS - ring
  {
    if ring == STEPS then w else Walked(s, start, AfterRing(s, start, w, ring), ring + 1)
  }

  /** The diamond search that starts with ring `ring`. */
  function Diamond(s: Search, center: MotionVector, centerCost: int, ring: nat): Walk
    requires s.Valid() && ring <= STEPS
  {
    Walked(s, center, Walk(center, centerCost, 0), ring)
  }

  datatype Result = Result(mv: MotionVector, walkCost: int, returnCost: int, num00: nat)

  /** The eight sites from index startIndex + i on. A site whose rate alone reaches the incumbent is not evaluated:
      its difference sum cannot be negative. */
  method ScanRing(s: Search, best: MotionVector, cost: int, startIndex: nat, from: nat, lastSite: nat)
    returns (bestCost: int, bestSite: nat)
    requires s.Valid() && 0 < from && startIndex + from + SITES <= |s.sites|
    ensures var pick := Scanned(s, best, cost, startIndex + from, SITES);
            bestCost == pick.cost && bestSite == if pick.site == 0 then lastSite else pick.site - startIndex
  {
    bestCost, bestSite := cost, lastSite;
    var i := from;
    for k := 0 to SITES
      invariant i == from + k
      invariant var pick := Scanned(s, best, cost, startIndex + from, k);
                bestCost == pick.cost && bestSite == if pick.site == 0 then lastSite else pick.site - startIndex
    {
      var site := s.sites[startIndex + i];
      var row, col := best.FullRow() + site.row, best.FullCol() + site.col;
      if s.bounds.ContainsStrict(row, col) {
        var rate := s.rate(row, col);
        if rate < bestCost {
          var total := s.sad(row, col) + rate;
          if total < bestCost {
            bestCost := total;
            bestSite := i;
          }
        }
      }
      i := i + 1;
    }
  }

  /** One ring of the diamond: scan, then move or count the ring as idle. */
  method RunRing(
    s: Search, center: MotionVector, at: MotionVector, cost: int, idle: nat, startIndex: nat, i: nat, lastSite: nat,
    ghost ring: nat)
    returns (best: MotionVector, bestCost: int, num00: nat, bestSite: nat)
    requires s.Valid() && ring < STEPS && startIndex + i == 1 + 8 * ring && lastSite < i
    ensures Walk(best, bestCost, num00) == AfterRing(s, center, Walk(at, cost, idle), ring)
    ensures lastSite <= bestSite < i + SITES
  {
    best, num00 := at, idle;
    bestCost, bestSite := ScanRing(s, best, cost, startIndex, i, lastSite);
    if bestSite != lastSite {
      best := Moved(best, s.sites[startIndex + bestSite]);
    } else if best == center {
      num00 := num00 + 1;
    }
  }

  /** All rings from `first` on. */
  method RunRings(
    s: Search, center: MotionVector, start: MotionVector, cost: int, startIndex: nat, totalSteps: nat, ghost first: nat)
    returns (best: MotionVector, bestCost: int, num00: nat)
    requires s.Valid() && first + totalSteps == STEPS && startIndex == 8 * first
    ensures Walk(best, bestCost, num00) == Walked(s, center, Walk(start, cost, 0), first)
  {
    best, bestCost, num00 := start, cost, 0;
    var i, lastSite := 1, 0;
    ghost var done, ring := Walked(s, center, Walk(start, cost, 0), first), first;
    for step := 0 to totalSteps
      invariant i == 1 + 8 * step && 0 <= lastSite < i && ring == first + step
      invariant done == Walked(s, center, Walk(best, bestCost, num00), ring)
    {
      WalkedUnrolls(s, center, Walk(best, bestCost, num00), ring);
      best, bestCost, num00, lastSite := RunRing(s, center, best, bestCost, num00, startIndex, i, lastSite, ring);
      i := i + SITES;
      ring := ring + 1;
    }
  }

  lemma WalkedUnrolls(s: Search, start: MotionVector, w: Walk, ring: nat)
    requires s.Valid() && ring < STEPS
    ensures Walked(s, start, w, ring) == Walked(s, start, AfterRing(s, start, w, ring), ring + 1)
  {
  }

  /** The diamond as the encoder runs it. */
  method DiamondSearch(s: Search, center: MotionVector, centerCost: int, centerReturnCost: int, searchParam: int)
    returns (r: Result)
    requires s.Valid()
    ensures var w := Diamond(s, center, centerCost, Clamp(searchParam, 0, STEPS - 1));
            r == Result(w.best, w.cost, s.Rank(w.best, center, centerReturnCost), w.idle)
  {
    var param := searchParam;
    if param < 0 {
      param := 0;
    } else if param >= STEPS {
      param := STEPS - 1;
    }
    var best, bestCost := center, centerCost;
    var startIndex := param * 8;
    var totalSteps := |s.sites| / 8 - param;
    var num00;
    best, bestCost, num00 := RunRings(s, center, best, bestCost, startIndex, totalSteps, param);
    var returnCost := centerReturnCost;
    if best != center {
      returnCost := s.returnCost(best);
    }
    return Result(best, bestCost, returnCost, num00);
  }

  /* What a search finds, site by site */

  /** The full-pel position that site k of a ring leads to. */
  function SiteRow(s: Search, at: MotionVector, ring: nat, k: nat): int
    requires s.Valid() && ring < 8 && k < 8
  {
    at.row / 8 + s.sites[1 + 8 * ring + k].row
  }

  function SiteCol(s: Search, at: MotionVector, ring: nat, k: nat): int
    requires s.Valid() && ring < 8 && k < 8
  {
    at.col / 8 + s.sites[1 + 8 * ring + k].col
  }

  /** Strictly inside the bounds. */
  predicate SiteIsInside(s: Search, at: MotionVector, ring: nat, k: nat)
    requires s.Valid() && ring < 8 && k < 8
  {
    && s.bounds.rowMin < SiteRow(s, at, ring, k) < s.bounds.rowMax
    && s.bounds.colMin < SiteCol(s, at, ring, k) < s.bounds.colMax
  }

  function SiteCost(s: Search, at: MotionVector, ring: nat, k: nat): int
    requires s.Valid() && ring < 8 && k < 8
  {
    s.sad(SiteRow(s, at, ring, k), SiteCol(s, at, ring, k)) + s.rate(SiteRow(s, at, ring, k), SiteCol(s, at, ring, k))
  }

  /** None of the eight sites inside the bounds is strictly cheaper. */
  ghost predicate NoneCheaper(s: Search, at: MotionVector, cost: int, ring: nat)
    requires s.Valid() && ring < 8
  {
    forall k :: 0 <= k < 8 && SiteIsInside(s, at, ring, k) ==> cost <= SiteCost(s, at, ring, k)
  }

  /** Site k is strictly cheaper than `cost` and the first of the cheapest of the eight inside the bounds. */
  ghost predicate FirstOfCheapest(s: Search, at: MotionVector, cost: int, ring: nat, k: nat)
    requires s.Valid() && ring < 8 && k < 8
  {
    && SiteIsInside(s, at, ring, k) && SiteCost(s, at, ring, k) < cost
    && (forall j :: 0 <= j < 8 && SiteIsInside(s, at, ring, j) ==> SiteCost(s, at, ring, k) <= SiteCost(s, at, ring, j))
    && (forall j :: 0 <= j < k && SiteIsInside(s, at, ring, j) ==> SiteCost(s, at, ring, k) < SiteCost(s, at, ring, j))
  }

  /** The rule of one ring: stay where no site is strictly cheaper, counting the ring when that is the start; otherwise
      move to the first of the cheapest. */
  ghost predicate RingRule(s: Search, start: MotionVector, w: Walk, ring: nat, w': Walk)
    requires s.Valid() && ring < 8
  {
    if NoneCheaper(s, w.best, w.cost, ring) then
      w'.best == w.best && w'.cost == w.cost && w'.idle == if w.best == start then w.idle + 1 else w.idle
    else
      && w'.idle == w.idle
      && exists k: nat {:trigger FirstOfCheapest(s, w.best, w.cost, ring, k)} :: k < 8 &&
           FirstOfCheapest(s, w.best, w.cost, ring, k) && w'.cost == SiteCost(s, w.best, ring, k) &&
           var site := s.sites[1 + 8 * ring + k];
           w'.best == MotionVector(Int16(w.best.row + 8 * site.row), Int16(w.best.col + 8 * site.col))
  }

  /** The scan of the first n sites finds the first of the cheapest of them. */
  lemma {:induction false} ScanIsMinimum(s: Search, at: MotionVector, cost: int, ring: nat, n: nat)
    requires s.Valid() && ring < 8 && n <= 8
    ensures var pick := Scanned(s, at, cost, 1 + 8 * ring, n);
            && pick.cost <= cost
            && (forall j :: 0 <= j < n && SiteIsInside(s, at, ring, j) ==> pick.cost <= SiteCost(s, at, ring, j))
            && (pick.site != 0 ==>
                  var k := pick.site - 1 - 8 * ring;
                  && 0 <= k < n && SiteIsInside(s, at, ring, k) && pick.cost == SiteCost(s, at, ring, k) < cost
                  && forall j :: 0 <= j < k && SiteIsInside(s, at, ring, j) ==> pick.cost < SiteCost(s, at, ring, j))
  {
    if n > 0 {
      ScanIsMinimum(s, at, cost, ring, n - 1);
      OfferedSite(s, at, Scanned(s, at, cost, 1 + 8 * ring, n - 1), ring, n - 1);
    }
  }

  lemma OfferedSite(s: Search, at: MotionVector, pick: Pick, ring: nat, k: nat)
    requires s.Valid() && ring < 8 && k < 8
    ensures Offered(s, at, pick, 1 + 8 * ring + k) ==
            if SiteIsInside(s, at, ring, k) && SiteCost(s, at, ring, k) < pick.cost
            then Pick(SiteCost(s, at, ring, k), 1 + 8 * ring + k) else pick
  {
  }

  /** Every ring follows the rule. */
  lemma RingFollowsRule(s: Search, start: MotionVector, w: Walk, ring: nat)
    requires s.Valid() && ring < 8
    ensures RingRule(s, start, w, ring, AfterRing(s, start, w, ring))
  {
    var pick := Scanned(s, w.best, w.cost, 1 + 8 * ring, SITES);
    ScanIsMinimum(s, w.best, w.cost, ring, 8);
    if pick.site != 0 {
      var k: nat := pick.site - 1 - 8 * ring;
      assert !NoneCheaper(s, w.best, w.cost, ring);
      assert FirstOfCheapest(s, w.best, w.cost, ring, k);
    } else {
      assert NoneCheaper(s, w.best, w.cost, ring);
    }
  }

  /** A walk through the rings `ring` .. 7: one state before each ring and one after the last. */
  ghost predicate IsRingWalk(s: Search, start: MotionVector, ring: nat, path: seq<Walk>)
    requires s.Valid() && ring <= 8
  {
    && |path| == 9 - ring
    && forall n :: 0 <= n < 8 - ring ==> RingRule(s, start, path[n], ring + n, path[n + 1])
  }

  lemma {:induction false} WalkFollowsRings(s: Search, start: MotionVector, w: Walk, ring: nat)
    returns (path: seq<Walk>)
    requires s.Valid() && ring <= 8
    ensures IsRingWalk(s, start, ring, path) && path[0] == w && path[8 - ring] == Walked(s, start, w, ring)
    decreases 8 - ring
  {
    if ring == 8 {
      path := [w];
    } else {
      var w' := AfterRing(s, start, w, ring);
      var rest := WalkFollowsRings(s, start, w', ring + 1);
      RingFollowsRule(s, start, w, ring);
      WalkedUnrolls(s, start, w, ring);
      path := RingWalkGrows(s, start, ring, w, rest);
    }
  }

  lemma RingWalkGrows(s: Search, start: MotionVector, ring: nat, w: Walk, rest: seq<Walk>) returns (path: seq<Walk>)
    requires s.Valid() && ring < 8 && IsRingWalk(s, start, ring + 1, rest) && RingRule(s, start, w, ring, rest[0])
    ensures path == [w] + rest && IsRingWalk(s, start, ring, path)
  {
    path := [w] + rest;
    forall n | 0 <= n < 8 - ring
      ensures RingRule(s, start, path[n], ring + n, path[n + 1])
    {
      if n > 0 {
        assert RingRule(s, start, rest[n - 1], ring + 1 + (n - 1), rest[n - 1 + 1]);
      }
    }
  }

  /** A diamond search goes from its center through every ring from the first to the last by that rule. */
  lemma DiamondFollowsRings(s: Search, center: MotionVector, centerCost: int, ring: nat)
    requires s.Valid() && ring <= 8
    ensures exists path {:trigger IsRingWalk(s, center, ring, path)} ::
              IsRingWalk(s, center, ring, path) && path[0] == Walk(center, centerCost, 0) &&
              path[8 - ring] == Diamond(s, center, centerCost, ring)
  {
    var path := WalkFollowsRings(s, center, Walk(center, centerCost, 0), ring);
  }

  /** The rule leaves no choice. */
  lemma RingRuleIsExact(s: Search, start: MotionVector, w: Walk, ring: nat, w1: Walk, w2: Walk)
    requires s.Valid() && ring < 8 && RingRule(s, start, w, ring, w1) && RingRule(s, start, w, ring, w2)
    ensures w1 == w2
  {
    if !NoneCheaper(s, w.best, w.cost, ring) {
      forall k1: nat, k2: nat | k1 < 8 && k2 < 8 && FirstOfCheapest(s, w.best, w.cost, ring, k1) &&
                                FirstOfCheapest(s, w.best, w.cost, ring, k2)
        ensures k1 == k2
      {
        OnlyOneFirst(s, w.best, w.cost, ring, k1, k2);
      }
    }
  }

  lemma OnlyOneFirst(s: Search, at: MotionVector, cost: int, ring: nat, k1: nat, k2: nat)
    requires s.Valid() && ring < 8 && k1 < 8 && k2 < 8
    requires FirstOfCheapest(s, at, cost, ring, k1) && FirstOfCheapest(s, at, cost, ring, k2)
    ensures k1 == k2
  {
    assert !(k1 < k2) && !(k2 < k1);
  }

  /* Idle rings */

  /** start displaced by (dr, dc) full pels, stored in 16 bits. */
  function Displaced(start: MotionVector, dr: int, dc: int): MotionVector {
    Packed(start.row + dr * 8, start.col + dc * 8)
  }

  /** The displacement before a ring: at least one axis is farther out than the remaining rings together can bring back,
      and neither is farther than the rings so far together reach. */
  predicate IsAway(dr: int, dc: int, ring: nat)
    requires ring <= STEPS
  {
    var left := PowerOfTwo(STEPS - ring);
    && -(256 - left) <= dr <= 256 - left && -(256 - left) <= dc <= 256 - left
    && (dr <= -left || left <= dr || dc <= -left || left <= dc)
  }

  /** The walk stands on its start, or has left it for good; wrap-around is part of the displacement. */
  ghost predicate Tracked(start: MotionVector, at: MotionVector, ring: nat)
    requires ring <= STEPS
  {
    at == start || exists dr, dc :: IsAway(dr, dc, ring) && at == Displaced(start, dr, dc)
  }

  lemma Int16Adds(x: int, y: int)
    ensures Int16(Int16(x) + y) == Int16(x + y)
  {
  }

  /** Less than 256 full pels is never a whole number of wrap-arounds. */
  lemma ShortStepsMove(x: int, d: int)
    requires -0x8000 <= x < 0x8000 && -255 <= d <= 255 && d != 0
    ensures Int16(x + d * 8) != x
  {
  }

  lemma DisplacementsAdd(start: MotionVector, dr: int, dc: int, site: MotionVector)
    ensures Moved(Displaced(start, dr, dc), site) == Displaced(start, dr + site.row, dc + site.col)
  {
    Int16Adds(start.row + dr * 8, site.row * 8);
    Int16Adds(start.col + dc * 8, site.col * 8);
  }

  lemma AwayIsElsewhere(start: MotionVector, dr: int, dc: int, ring: nat)
    requires start.Is16Bit() && ring <= STEPS && IsAway(dr, dc, ring)
    ensures Displaced(start, dr, dc) != start
  {
    if dr != 0 {
      ShortStepsMove(start.row, dr);
    } else {
      ShortStepsMove(start.col, dc);
    }
  }

  /** Leaving the start on a ring, or moving on from a displacement, is a displacement before the next ring. */
  lemma StepsAway(dr: int, dc: int, site: MotionVector, ring: nat)
    requires ring < STEPS && ((dr == 0 && dc == 0) || IsAway(dr, dc, ring))
    requires IsStep(site, Length(ring))
    ensures IsAway(dr + site.row, dc + site.col, ring + 1)
  {
    var length := Length(ring);
    assert PowerOfTwo(STEPS - (ring + 1)) == length && PowerOfTwo(STEPS - ring) == 2 * length;
    PowersGrow(STEPS - 1 - ring, STEPS - 1);
    assert PowerOfTwo(7) == 128;
  }

  lemma {:induction false} PowersGrow(m: nat, n: nat)
    requires m <= n
    ensures PowerOfTwo(m) <= PowerOfTwo(n)
    decreases n
  {
    if m < n {
      PowersGrow(m, n - 1);
    }
  }

  lemma DisplacedMove(start: MotionVector, dr: int, dc: int, site: MotionVector, ring: nat)
    requires start.Is16Bit() && ring < STEPS && ((dr == 0 && dc == 0) || IsAway(dr, dc, ring))
    requires IsStep(site, Length(ring))
    ensures Tracked(start, Moved(Displaced(start, dr, dc), site), ring + 1)
    ensures Moved(Displaced(start, dr, dc), site) != start
  {
    var dr', dc' := dr + site.row, dc + site.col;
    StepsAway(dr, dc, site, ring);
    DisplacementsAdd(start, dr, dc, site);
    AwayIsElsewhere(start, dr', dc', ring + 1);
    assert IsAway(dr', dc', ring + 1) && Moved(Displaced(start, dr, dc), site) == Displaced(start, dr', dc');
  }

  /** A move is tracked and ends away from the start. */
  lemma MoveIsTracked(start: MotionVector, at: MotionVector, site: MotionVector, ring: nat)
    requires start.Is16Bit() && ring < STEPS && Tracked(start, at, ring) && IsStep(site, Length(ring))
    ensures Tracked(start, Moved(at, site), ring + 1) && Moved(at, site) != start
  {
    if at == start {
      DisplacedMove(start, 0, 0, site, ring);
    } else {
      var dr, dc :| IsAway(dr, dc, ring) && at == Displaced(start, dr, dc);
      DisplacedMove(start, dr, dc, site, ring);
    }
  }

  /** A displacement the next ring does not change is still one before the ring after it. */
  lemma StayIsTracked(start: MotionVector, at: MotionVector, ring: nat)
    requires ring < STEPS && Tracked(start, at, ring)
    ensures Tracked(start, at, ring + 1)
  {
    if at != start {
      var dr, dc :| IsAway(dr, dc, ring) && at == Displaced(start, dr, dc);
      assert PowerOfTwo(STEPS - ring) == 2 * PowerOfTwo(STEPS - (ring + 1));
      assert IsAway(dr, dc, ring + 1);
    }
  }

  /** A ring leaves a walk on its start only by leaving it where it was, and counts exactly that. */
  lemma RingIsTracked(s: Search, start: MotionVector, w: Walk, ring: nat)
    requires s.Valid() && s.SitesAreOnRings() && start.Is16Bit() && ring < STEPS && Tracked(start, w.best, ring)
    ensures var w' := AfterRing(s, start, w, ring);
            && Tracked(start, w'.best, ring + 1)
            && (if w'.best == start then w.best == start && w' == w.(idle := w.idle + 1) else w'.idle == w.idle)
  {
    var pick := Scanned(s, w.best, w.cost, 1 + 8 * ring, SITES);
    if pick.site != 0 {
      assert s.SiteIsOnRing(ring, pick.site - (1 + 8 * ring));
      MoveIsTracked(start, w.best, s.sites[pick.site], ring);
    } else {
      StayIsTracked(start, w.best, ring);
    }
  }

  /** Once away from the start, no ring counts as idle. */
  lemma {:induction false} AwayIsNeverIdle(s: Search, start: MotionVector, w: Walk, ring: nat)
    requires s.Valid() && s.SitesAreOnRings() && start.Is16Bit() && ring <= STEPS
    requires Tracked(start, w.best, ring) && w.best != start
    ensures Walked(s, start, w, ring).idle == w.idle
    decreases STEPS - ring
  {
    if ring < STEPS {
      RingIsTracked(s, start, w, ring);
      WalkedUnrolls(s, start, w, ring);
      AwayIsNeverIdle(s, start, AfterRing(s, start, w, ring), ring + 1);
    }
  }

  lemma RingCounts(s: Search, start: MotionVector, w: Walk, n: nat, ring: nat) returns (w': Walk)
    requires s.Valid() && ring < STEPS
    ensures Walked(s, start, w, ring) == Walked(s, start, w', ring + 1)
    ensures Walked(s, start, w.(idle := w.idle + n), ring) == Walked(s, start, w'.(idle := w'.idle + n), ring + 1)
  {
    w' := AfterRing(s, start, w, ring);
    assert AfterRing(s, start, w.(idle := w.idle + n), ring) == w'.(idle := w'.idle + n);
  }

  /** The idle count is only counted. */
  lemma {:induction false} IdleIsACounter(s: Search, start: MotionVector, w: Walk, n: nat, ring: nat)
    requires s.Valid() && ring <= STEPS
    ensures var r := Walked(s, start, w, ring);
            Walked(s, start, w.(idle := w.idle + n), ring) == r.(idle := r.idle + n)
    decreases STEPS - ring
  {
    if ring < STEPS {
      var w' := RingCounts(s, start, w, n, ring);
      IdleIsACounter(s, start, w', n, ring + 1);
    }
  }

  /** If a start reports idle rings, the start one ring later ends in the same place and reports one less. */
  lemma NextStartAgrees(s: Search, center: MotionVector, centerCost: int, ring: nat)
    requires s.Valid() && s.SitesAreOnRings() && center.Is16Bit() && ring < STEPS
    requires 0 < Diamond(s, center, centerCost, ring).idle
    ensures var d, e := Diamond(s, center, centerCost, ring), Diamond(s, center, centerCost, ring + 1);
            d == e.(idle := e.idle + 1)
  {
    var w := Walk(center, centerCost, 0);
    var w' := AfterRing(s, center, w, ring);
    RingIsTracked(s, center, w, ring);
    WalkedUnrolls(s, center, w, ring);
    if w'.best != center {
      AwayIsNeverIdle(s, center, w', ring + 1);
    } else {
      IdleIsACounter(s, center, w, 1, ring + 1);
    }
  }

  lemma NextStartIsSame(s: Search, center: MotionVector, centerCost: int, ring: nat, next: Walk)
    requires s.Valid() && s.SitesAreOnRings() && center.Is16Bit() && ring < STEPS
    requires 0 < Diamond(s, center, centerCost, ring).idle && next == Diamond(s, center, centerCost, ring + 1)
    ensures Diamond(s, center, centerCost, ring).best == next.best
    ensures Diamond(s, center, centerCost, ring).idle == next.idle + 1
  {
    NextStartAgrees(s, center, centerCost, ring);
  }

  /** m idle rings make the next m starts return the same vector. */
  lemma {:induction false} IdleStartsAgree(s: Search, center: MotionVector, centerCost: int, ring: nat, m: nat)
    requires s.Valid() && s.SitesAreOnRings() && center.Is16Bit() && ring + m < STEPS
    requires m <= Diamond(s, center, centerCost, ring).idle
    ensures Diamond(s, center, centerCost, ring + m).best == Diamond(s, center, centerCost, ring).best
    decreases m
  {
    if m > 0 {
      NextStartIsSame(s, center, centerCost, ring, Diamond(s, center, centerCost, ring + 1));
      IdleStartsAgree(s, center, centerCost, ring + 1, m - 1);
    }
  }

  /* All starts */

  /** The result of one start: its vector, its rank, its idle rings. */
  datatype Outcome = Outcome(mv: MotionVector, cost: int, idle: nat)

  function OutcomeOf(s: Search, center: MotionVector, centerCost: int, centerReturnCost: int, ring: nat): Outcome
    requires s.Valid() && ring <= STEPS
  {
    var w := Diamond(s, center, centerCost, ring);
    Outcome(w.best, s.Rank(w.best, center, centerReturnCost), w.idle)
  }

  /** The results of the starts 0 .. n. */
  function Outcomes(s: Search, center: MotionVector, centerCost: int, centerReturnCost: int, n: nat):
    (outs: seq<Outcome>)
    requires s.Valid() && n <= STEPS
    ensures |outs| == n
  {
    if n == 0 then []
    else
      Outcomes(s, center, centerCost, centerReturnCost, n - 1)
      + [OutcomeOf(s, center, centerCost, centerReturnCost, n - 1)]
  }

  lemma {:induction false} OutcomesAt(
    s: Search, center: MotionVector, centerCost: int, centerReturnCost: int, n: nat, ring: nat)
    requires s.Valid() && ring < n <= STEPS
    ensures Outcomes(s, center, centerCost, centerReturnCost, n)[ring] ==
            OutcomeOf(s, center, centerCost, centerReturnCost, ring)
  {
    if ring < n - 1 {
      OutcomesAt(s, center, centerCost, centerReturnCost, n - 1, ring);
    }
  }

  /** The first of the best results among the starts first .. last. */
  function BestOf(outs: seq<Outcome>, first: nat, last: nat): Outcome
    requires first <= last < |outs|
    decreases last
  {
    if last == first then outs[first]
    else
      var best := BestOf(outs, first, last - 1);
      if outs[last].cost < best.cost then outs[last] else best
  }

  /** Start i is the first of those whose result is least among the starts first .. last. */
  ghost predicate IsFirstLeast(outs: seq<Outcome>, first: nat, last: nat, i: nat)
    requires first <= i <= last < |outs|
  {
    && (forall j :: first <= j <= last ==> outs[i].cost <= outs[j].cost)
    && (forall j :: first <= j < i ==> outs[i].cost < outs[j].cost)
  }

  lemma {:induction false} BestOfIsFirstLeast(outs: seq<Outcome>, first: nat, last: nat) returns (i: nat)
    requires first <= last < |outs|
    ensures first <= i <= last && IsFirstLeast(outs, first, last, i) && BestOf(outs, first, last) == outs[i]
    decreases last
  {
    i := first;
    if first < last {
      i := BestOfIsFirstLeast(outs, first, last - 1);
      if outs[last].cost < outs[i].cost {
        i := last;
      }
    }
  }

  /** The rank of what start i finds: the caller's figure for the center itself, otherwise the vector's own cost. */
  function StartRank(s: Search, center: MotionVector, centerCost: int, centerReturnCost: int, i: nat): int
    requires s.Valid() && i < 8
  {
    var mv := Diamond(s, center, centerCost, i).best;
    if mv == center then centerReturnCost else s.returnCost(mv)
  }

  /** What the n-step search returns is what the first of the best-ranked starts finds. */
  lemma BestStartIsFirstLeast(
    s: Search, center: MotionVector, centerCost: int, centerReturnCost: int, stepParam: int)
    returns (i: nat)
    requires s.Valid()
    ensures var first := if stepParam < 0 then 0 else if stepParam > 7 then 7 else stepParam;
            var outs := Outcomes(s, center, centerCost, centerReturnCost, 8);
            var best := BestOf(outs, Clamp(stepParam, 0, STEPS - 1), STEPS - 1);
            && first <= i < 8
            && best.mv == Diamond(s, center, centerCost, i).best
            && best.cost == StartRank(s, center, centerCost, centerReturnCost, i)
            && (forall j :: first <= j < 8 ==>
                  StartRank(s, center, centerCost, centerReturnCost, i) <=
                  StartRank(s, center, centerCost, centerReturnCost, j))
            && (forall j :: first <= j < i ==>
                  StartRank(s, center, centerCost, centerReturnCost, i) <
                  StartRank(s, center, centerCost, centerReturnCost, j))
  {
    var outs := Outcomes(s, center, centerCost, centerReturnCost, 8);
    var first := Clamp(stepParam, 0, STEPS - 1);
    i := BestOfIsFirstLeast(outs, first, STEPS - 1);
    forall j | 0 <= j < 8
      ensures outs[j].mv == Diamond(s, center, centerCost, j).best
      ensures outs[j].cost == StartRank(s, center, centerCost, centerReturnCost, j)
    {
      OutcomesAt(s, center, centerCost, centerReturnCost, 8, j);
    }
  }

  /** A start with m idle rings is followed by m starts with its result. */
  ghost predicate Repeating(outs: seq<Outcome>) {
    forall e, q {:trigger outs[e], outs[q]} :: 0 <= e <= q < |outs| && q - e <= outs[e].idle ==>
      outs[q].mv == outs[e].mv && outs[q].cost == outs[e].cost
  }

  lemma OutcomesRepeat(s: Search, center: MotionVector, centerCost: int, centerReturnCost: int)
    requires s.Valid() && s.SitesAreOnRings() && center.Is16Bit()
    ensures Repeating(Outcomes(s, center, centerCost, centerReturnCost, STEPS))
  {
    var outs := Outcomes(s, center, centerCost, centerReturnCost, STEPS);
    forall e, q | 0 <= e <= q < STEPS && q - e <= outs[e].idle
      ensures outs[q].mv == outs[e].mv && outs[q].cost == outs[e].cost
    {
      OutcomesAt(s, center, centerCost, centerReturnCost, STEPS, e);
      OutcomesAt(s, center, centerCost, centerReturnCost, STEPS, q);
      IdleStartsAgree(s, center, centerCost, e, q - e);
    }
  }

  /** Starts that repeat an earlier one, already compared, change nothing. */
  lemma {:induction false} RepeatedStartsLose(outs: seq<Outcome>, first: nat, e: nat, last: nat)
    requires Repeating(outs) && first <= e <= last < |outs| && last - e <= outs[e].idle
    requires BestOf(outs, first, e).cost <= outs[e].cost
    ensures BestOf(outs, first, last) == BestOf(outs, first, e)
    decreases last
  {
    if last > e {
      RepeatedStartsLose(outs, first, e, last - 1);
      assert outs[last].cost == outs[e].cost;
    }
  }

  method RunStart(
    s: Search, center: MotionVector, centerCost: int, centerReturnCost: int, start: int, ghost outs: seq<Outcome>)
    returns (r: Result)
    requires s.Valid() && 0 <= start < STEPS && outs == Outcomes(s, center, centerCost, centerReturnCost, STEPS)
    ensures Outcome(r.mv, r.returnCost, r.num00) == outs[start]
  {
    OutcomesAt(s, center, centerCost, centerReturnCost, STEPS, start);
    r := DiamondSearch(s, center, centerCost, centerReturnCost, start);
  }

  /** The n-step search, skipping as many starts as the last one run had idle rings, returns what all starts from
      stepParam to the last would. */
  method NstepSearch(s: Search, center: MotionVector, centerCost: int, centerReturnCost: int, stepParam: int)
    returns (best: MotionVector, bestCost: int)
    requires s.Valid() && s.SitesAreOnRings() && center.Is16Bit()
    ensures var outs := Outcomes(s, center, centerCost, centerReturnCost, STEPS);
            var all := BestOf(outs, Clamp(stepParam, 0, STEPS - 1), STEPS - 1);
            best == all.mv && bestCost == all.cost
  {
    ghost var outs := Outcomes(s, center, centerCost, centerReturnCost, STEPS);
    OutcomesRepeat(s, center, centerCost, centerReturnCost);
    var param := Min(Max(stepParam, 0), STEPS - 1);
    var furtherSteps := STEPS - 1 - param;
    var result := RunStart(s, center, centerCost, centerReturnCost, param, outs);
    best, bestCost := result.mv, result.returnCost;
    var n, num00 := result.num00, 0;
    // The last start that was run.
    ghost var e := param;
    RepeatedStartsLose(outs, param, param, param + Min(n, furtherSteps));
    while n < furtherSteps
      invariant param <= e <= param + n && e < STEPS && 0 <= num00
      invariant param + n + num00 - e == outs[e].idle
      invariant var b := BestOf(outs, param, param + Min(n, furtherSteps)); best == b.mv && bestCost == b.cost
      invariant bestCost <= outs[e].cost
      decreases furtherSteps - n
    {
      n := n + 1;
      if num00 > 0 {
        num00 := num00 - 1;
        assert outs[param + n].cost == outs[e].cost;
        continue;
      }
      var candidate := RunStart(s, center, centerCost, centerReturnCost, param + n, outs);
      num00 := candidate.num00;
      e := param + n;
      if candidate.returnCost < bestCost {
        best, bestCost := candidate.mv, candidate.returnCost;
      }
    }
  }

  /* The exhaustive search */

  /** Row by row, and from left to right within a row. */
  predicate Before(row: int, col: int, r: int, c: int) {
    row < r || (row == r && col < c)
  }

  /** The position is center's, or the first of the cheapest positions of the window rows [rowMin, row) and the part of
      `row` left of col; it replaces the center only when strictly cheaper. */
  ghost predicate FirstCheapest(
    s: Search, center: MotionVector, rowMin: int, colMin: int, colMax: int, row: int, col: int,
    atRow: int, atCol: int, cost: int)
  {
    && cost == s.Cost(atRow, atCol) && cost <= s.CostOf(center)
    && (forall r, c :: rowMin <= r && colMin <= c < colMax && Before(r, c, row, col) ==> cost <= s.Cost(r, c))
    && (cost == s.CostOf(center) ==> atRow == center.FullRow() && atCol == center.FullCol())
    && (cost < s.CostOf(center) ==>
          && rowMin <= atRow && colMin <= atCol < colMax && Before(atRow, atCol, row, col)
          && (forall r, c :: rowMin <= r && colMin <= c < colMax && Before(r, c, atRow, atCol) ==> cost < s.Cost(r, c)))
  }

  /** The window of the exhaustive search: `distance` around the center, cut to the bounds. */
  function Window(s: Search, center: MotionVector, distance: int): Bounds {
    Bounds(Max(center.FullRow() - distance, s.bounds.rowMin), Min(center.FullRow() + distance, s.bounds.rowMax),
           Max(center.FullCol() - distance, s.bounds.colMin), Min(center.FullCol() + distance, s.bounds.colMax))
  }

  /** The scanned part of the window: less than `distance` behind or ahead of the center, short of its last row and
      column, and inside the bounds, whose last row and column are left out too. */
  lemma WindowHolds(s: Search, center: MotionVector, distance: int, r: int, c: int)
    ensures var w := Window(s, center, distance);
            w.rowMin <= r < w.rowMax && w.colMin <= c < w.colMax <==>
              && center.row / 8 - distance <= r < center.row / 8 + distance
              && center.col / 8 - distance <= c < center.col / 8 + distance
              && s.bounds.rowMin <= r < s.bounds.rowMax && s.bounds.colMin <= c < s.bounds.colMax
  {
  }

  lemma PositionDone(
    s: Search, center: MotionVector, rowMin: int, colMin: int, colMax: int, row: int, col: int,
    atRow: int, atCol: int, cost: int)
    requires rowMin <= row && colMin <= col < colMax
    requires FirstCheapest(s, center, rowMin, colMin, colMax, row, col, atRow, atCol, cost)
    ensures if s.Cost(row, col) < cost
            then FirstCheapest(s, center, rowMin, colMin, colMax, row, col + 1, row, col, s.Cost(row, col))
            else FirstCheapest(s, center, rowMin, colMin, colMax, row, col + 1, atRow, atCol, cost)
  {
  }

  lemma RowDone(
    s: Search, center: MotionVector, rowMin: int, colMin: int, colMax: int, row: int, col: int,
    atRow: int, atCol: int, cost: int)
    requires rowMin <= row && colMax <= col
    requires FirstCheapest(s, center, rowMin, colMin, colMax, row, col, atRow, atCol, cost)
    ensures FirstCheapest(s, center, rowMin, colMin, colMax, row + 1, colMin, atRow, atCol, cost)
  {
  }

  /** The vector the search carries for a position. */
  function Carried(s: Search, center: MotionVector, row: int, col: int, cost: int): MotionVector {
    if cost == s.CostOf(center) then center else Packed(row * 8, col * 8)
  }

  /** One row of the scan. A position whose rate alone reaches the incumbent is not evaluated. */
  method FullSearchRow(
    s: Search, center: MotionVector, ghost rowMin: int, colMin: int, colMax: int, row: int,
    mv: MotionVector, cost: int, ghost r: int, ghost c: int)
    returns (best: MotionVector, bestCost: int, ghost atRow: int, ghost atCol: int)
    requires rowMin <= row && FirstCheapest(s, center, rowMin, colMin, colMax, row, colMin, r, c, cost)
    requires mv == Carried(s, center, r, c, cost)
    ensures FirstCheapest(s, center, rowMin, colMin, colMax, row + 1, colMin, atRow, atCol, bestCost)
    ensures best == Carried(s, center, atRow, atCol, bestCost)
  {
    best, bestCost, atRow, atCol := mv, cost, r, c;
    var col := colMin;
    while col < colMax
      invariant colMin <= col
      invariant FirstCheapest(s, center, rowMin, colMin, colMax, row, col, atRow, atCol, bestCost)
      invariant best == Carried(s, center, atRow, atCol, bestCost)
    {
      PositionDone(s, center, rowMin, colMin, colMax, row, col, atRow, atCol, bestCost);
      var rate := s.rate(row, col);
      if rate < bestCost {
        var total := s.sad(row, col) + rate;
        if total < bestCost {
          best := Packed(row * 8, col * 8);
          bestCost := total;
          atRow, atCol := row, col;
        }
      }
      col := col + 1;
    }
    RowDone(s, center, rowMin, colMin, colMax, row, col, atRow, atCol, bestCost);
  }

  /** The pruned raster scan ends on the first of the cheapest positions; the last row and column of the window are not
      part of it. */
  method FullSearch(s: Search, center: MotionVector, distance: int)
    returns (best: MotionVector, bestCost: int, returnCost: int)
    ensures var w := Window(s, center, distance);
            exists r, c ::
              FirstCheapest(s, center, w.rowMin, w.colMin, w.colMax, Max(w.rowMin, w.rowMax), w.colMin, r, c, bestCost)
              && best == if bestCost == s.CostOf(center) then center else MotionVector(Int16(r * 8), Int16(c * 8))
    ensures returnCost == s.returnCost(best)
  {
    var w := Window(s, center, distance);
    var rowMin, rowMax, colMin, colMax := w.rowMin, w.rowMax, w.colMin, w.colMax;
    best, bestCost := center, s.CostOf(center);
    ghost var atRow, atCol := center.FullRow(), center.FullCol();
    var row := rowMin;
    while row < rowMax
      invariant rowMin <= row <= Max(rowMin, rowMax)
      invariant FirstCheapest(s, center, rowMin, colMin, colMax, row, colMin, atRow, atCol, bestCost)
      invariant best == Carried(s, center, atRow, atCol, bestCost)
    {
      best, bestCost, atRow, atCol :=
        FullSearchRow(s, center, rowMin, colMin, colMax, row, best, bestCost, atRow, atCol);
      row := row + 1;
    }
    returnCost := s.returnCost(best);
  }

  /** The exhaustive search cannot end in two ways. */
  lemma FirstCheapestIsUnique(
    s: Search, center: MotionVector, rowMin: int, colMin: int, colMax: int, row: int, col: int,
    r1: int, c1: int, cost1: int, r2: int, c2: int, cost2: int)
    requires FirstCheapest(s, center, rowMin, colMin, colMax, row, col, r1, c1, cost1)
    requires FirstCheapest(s, center, rowMin, colMin, colMax, row, col, r2, c2, cost2)
    ensures r1 == r2 && c1 == c2 && cost1 == cost2
  {
    assert cost1 == s.Cost(r1, c1) && cost2 == s.Cost(r2, c2);
    if cost1 < s.CostOf(center) && cost2 < s.CostOf(center) {
      assert cost1 <= s.Cost(r2, c2) && cost2 <= s.Cost(r1, c1);
      assert !Before(r1, c1, r2, c2) && !Before(r2, c2, r1, c1);
    }
  }
}
