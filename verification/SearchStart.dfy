/** Where a motion search starts: the neighbouring vector whose block looks most like the source, found by counting a
    rank where a stable sort of all neighbours would do. */
module SearchStart {
  import opened Arith
  import opened Motion

  const SLOTS := 8
  const INTRA_FRAME := 0
  const MAX_REF_FRAMES := 4

  datatype Neighbor = Neighbor(mv: MotionVector, refFrame: int, signBias: bool, sad: int)

  datatype Start = Start(mv: MotionVector, range: int, slot: int)

  type Key = int -> int

  /* Insertion sort */

  predicate Less(key: Key, x: int, y: int) {
    key(x) < key(y)
  }

  /** x put behind the last element that is not greater. */
  function Inserted(key: Key, s: seq<int>, x: int): (r: seq<int>)
    ensures |r| == |s| + 1
  {
    if |s| == 0 || !Less(key, x, s[|s| - 1]) then s + [x]
    else Inserted(key, s[..|s| - 1], x) + [s[|s| - 1]]
  }

  /** The first n elements of s, sorted. */
  function Sorted(key: Key, s: seq<int>, n: nat): (r: seq<int>)
    requires n <= |s|
    ensures |r| == n
  {
    if n == 0 then [] else Inserted(key, Sorted(key, s, n - 1), s[n - 1])
  }

  method InsertionSort(a: array<int>, limit: nat, key: Key)
    requires limit <= a.Length
    modifies a
    ensures a[..limit] == Sorted(key, old(a[..limit]), limit)
    ensures a[limit..] == old(a[limit..])
  {
    ghost var was := a[..limit];
    for i := 0 to limit
      invariant a[..i] == Sorted(key, was, i)
      invariant forall m :: i <= m < limit ==> a[m] == was[m]
      invariant a[limit..] == old(a[limit..])
    {
      InsertNext(a, i, key);
    }
  }

  /** Shifts greater elements up until a[i] fits. */
  method InsertNext(a: array<int>, i: nat, key: Key)
    requires i < a.Length
    modifies a
    ensures a[..i + 1] == Inserted(key, old(a[..i]), old(a[i]))
    ensures forall m :: i < m < a.Length ==> a[m] == old(a[m])
  {
    var v := a[i];
    ghost var prefix := a[..i];
    var p := ShiftGreater(a, i, v, key);
    a[p] := v;
    InsertedThere(key, prefix, v, p, a[..i + 1]);
  }

  /** Moves the elements greater than v up by one, over a[i], and returns where they began. */
  method ShiftGreater(a: array<int>, i: nat, v: int, key: Key) returns (p: nat)
    requires i < a.Length
    modifies a
    ensures p <= i && (p > 0 ==> !Less(key, v, old(a[p - 1])))
    ensures forall m :: p <= m < i ==> Less(key, v, old(a[m]))
    ensures forall m :: 0 <= m < p ==> a[m] == old(a[m])
    ensures forall m :: p < m <= i ==> a[m] == old(a[m - 1])
    ensures forall m :: i < m < a.Length ==> a[m] == old(a[m])
  {
    var j := i - 1;
    while j >= 0 && Less(key, v, a[j])
      invariant -1 <= j < i
      invariant forall m :: 0 <= m <= j ==> a[m] == old(a[m])
      invariant forall m :: j + 1 < m <= i ==> a[m] == old(a[m - 1])
      invariant forall m :: i < m < a.Length ==> a[m] == old(a[m])
      invariant forall m :: j < m < i ==> Less(key, v, old(a[m]))
      decreases j
    {
      a[j + 1] := a[j];
      j := j - 1;
    }
    return j + 1;
  }

  /** x goes behind an element that is not greater when all that follow are. */
  lemma {:induction false} InsertedThere(key: Key, s: seq<int>, x: int, p: nat, r: seq<int>)
    requires p <= |s| == |r| - 1 && (p > 0 ==> !Less(key, x, s[p - 1]))
    requires forall m :: p <= m < |s| ==> Less(key, x, s[m])
    requires r[..p] == s[..p] && r[p] == x && r[p + 1..] == s[p..]
    ensures r == Inserted(key, s, x)
  {
    var last := |s| - 1;
    assert r == s[..p] + [x] + s[p..];
    if p < |s| {
      assert s[..last][..p] == s[..p] && s[p..] == s[..last][p..] + [s[last]];
      InsertedThere(key, s[..last], x, p, s[..p] + [x] + s[..last][p..]);
    }
  }

  predicate InOrder(key: Key, s: seq<int>, a: int, b: int) {
    0 <= a <= b < |s| ==> key(s[a]) <= key(s[b])
  }

  ghost predicate IsSorted(key: Key, s: seq<int>) {
    forall a, b {:trigger InOrder(key, s, a, b)} :: InOrder(key, s, a, b)
  }

  /** How many elements of s have a key of at most k. */
  function CountUpTo(key: Key, s: seq<int>, k: int): (c: nat)
    ensures c <= |s|
  {
    if |s| == 0 then 0 else CountUpTo(key, s[..|s| - 1], k) + (if key(s[|s| - 1]) <= k then 1 else 0)
  }

  lemma {:induction false} CountUpToConcat(key: Key, s: seq<int>, t: seq<int>, k: int)
    ensures CountUpTo(key, s + t, k) == CountUpTo(key, s, k) + CountUpTo(key, t, k)
  {
    if |t| == 0 {
      assert s + t == s;
    } else {
      var t' := t[..|t| - 1];
      CountUpToConcat(key, s, t', k);
      assert (s + t)[..|s + t| - 1] == s + t';
    }
  }

  /** Where x goes. */
  function InsertionPoint(key: Key, s: seq<int>, x: int): (p: nat)
    ensures p <= |s|
  {
    if |s| == 0 || key(s[|s| - 1]) <= key(x) then |s| else InsertionPoint(key, s[..|s| - 1], x)
  }

  lemma {:induction false} PointSplits(key: Key, s: seq<int>, x: int)
    ensures var p := InsertionPoint(key, s, x);
            && (p > 0 ==> key(s[p - 1]) <= key(x))
            && (forall a :: p <= a < |s| ==> key(x) < key(s[a]))
  {
    if |s| > 0 && key(s[|s| - 1]) > key(x) {
      PointSplits(key, s[..|s| - 1], x);
    }
  }

  lemma {:induction false} InsertedSplits(key: Key, s: seq<int>, x: int)
    ensures var p := InsertionPoint(key, s, x); Inserted(key, s, x) == s[..p] + [x] + s[p..]
  {
    if |s| > 0 && key(s[|s| - 1]) > key(x) {
      var s' := s[..|s| - 1];
      InsertedSplits(key, s', x);
      var p := InsertionPoint(key, s', x);
      assert s[..p] == s'[..p] && s[p..] == s'[p..] + [s[|s| - 1]];
    }
  }

  /** What is where after an insertion. */
  lemma InsertedAt(key: Key, s: seq<int>, x: int, a: nat)
    requires a <= |s|
    ensures var p := InsertionPoint(key, s, x);
            Inserted(key, s, x)[a] == if a < p then s[a] else if a == p then x else s[a - 1]
  {
    InsertedSplits(key, s, x);
  }

  lemma InsertedIsSorted(key: Key, s: seq<int>, x: int)
    requires IsSorted(key, s)
    ensures IsSorted(key, Inserted(key, s, x))
  {
    forall a, b
      ensures InOrder(key, Inserted(key, s, x), a, b)
    {
      if 0 <= a <= b <= |s| {
        InsertedInOrder(key, s, x, a, b);
      }
    }
  }

  lemma InsertedInOrder(key: Key, s: seq<int>, x: int, a: nat, b: nat)
    requires IsSorted(key, s) && a <= b <= |s|
    ensures InOrder(key, Inserted(key, s, x), a, b)
  {
    var p: int := InsertionPoint(key, s, x);
    InsertedAt(key, s, x, a);
    InsertedAt(key, s, x, b);
    PointSplits(key, s, x);
    var a', b' := if a < p then a else a - 1, if b < p then b else b - 1;
    assert InOrder(key, s, a', b') && InOrder(key, s, a, p - 1);
  }

  /** In a sorted sequence x goes behind exactly the elements that are not greater. */
  lemma PointIsCount(key: Key, s: seq<int>, x: int)
    requires IsSorted(key, s)
    ensures InsertionPoint(key, s, x) == CountUpTo(key, s, key(x))
  {
    var p := InsertionPoint(key, s, x);
    PointSplits(key, s, x);
    forall a | 0 <= a < p
      ensures key(s[..p][a]) <= key(x)
    {
      assert InOrder(key, s, a, p - 1);
    }
    AllCount(key, s[..p], key(x));
    NoneCount(key, s[p..], key(x));
    CountUpToConcat(key, s[..p], s[p..], key(x));
    assert s == s[..p] + s[p..];
  }

  lemma {:induction false} AllCount(key: Key, s: seq<int>, k: int)
    requires forall a :: 0 <= a < |s| ==> key(s[a]) <= k
    ensures CountUpTo(key, s, k) == |s|
  {
    if |s| > 0 {
      AllCount(key, s[..|s| - 1], k);
    }
  }

  lemma {:induction false} NoneCount(key: Key, s: seq<int>, k: int)
    requires forall a :: 0 <= a < |s| ==> k < key(s[a])
    ensures CountUpTo(key, s, k) == 0
  {
    if |s| > 0 {
      NoneCount(key, s[..|s| - 1], k);
    }
  }

  /** Inserting x adds one to the counts at and above its key. */
  lemma CountInserted(key: Key, s: seq<int>, x: int, k: int)
    ensures CountUpTo(key, Inserted(key, s, x), k) == CountUpTo(key, s, k) + (if key(x) <= k then 1 else 0)
  {
    var p := InsertionPoint(key, s, x);
    InsertedSplits(key, s, x);
    CountUpToConcat(key, s[..p] + [x], s[p..], k);
    CountUpToConcat(key, s[..p], [x], k);
    CountUpToConcat(key, s[..p], s[p..], k);
    assert s == s[..p] + s[p..];
    SingleCount(key, x, k);
  }

  lemma SingleCount(key: Key, x: int, k: int)
    ensures CountUpTo(key, [x], k) == if key(x) <= k then 1 else 0
  {
    assert [x][..0] == [];
    assert CountUpTo(key, [], k) == 0;
  }

  lemma {:induction false} SortedIsSorted(key: Key, s: seq<int>, n: nat)
    requires n <= |s|
    ensures IsSorted(key, Sorted(key, s, n))
  {
    if n > 0 {
      SortedIsSorted(key, s, n - 1);
      InsertedIsSorted(key, Sorted(key, s, n - 1), s[n - 1]);
    }
  }

  lemma {:induction false} SortedKeepsElements(key: Key, s: seq<int>, n: nat)
    requires n <= |s|
    ensures multiset(Sorted(key, s, n)) == multiset(s[..n])
  {
    if n > 0 {
      SortedKeepsElements(key, s, n - 1);
      InsertedKeepsElements(key, Sorted(key, s, n - 1), s[n - 1]);
      PrefixGrows(s, n);
    }
  }

  lemma PrefixGrows(s: seq<int>, n: nat)
    requires 0 < n <= |s|
    ensures multiset(s[..n]) == multiset(s[..n - 1]) + multiset{s[n - 1]}
  {
    assert s[..n] == s[..n - 1] + [s[n - 1]];
  }

  lemma InsertedKeepsElements(key: Key, s: seq<int>, x: int)
    ensures multiset(Inserted(key, s, x)) == multiset(s) + multiset{x}
  {
    InsertedSplits(key, s, x);
    MultisetOfSplit(s, InsertionPoint(key, s, x), x);
  }

  lemma MultisetOfSplit(s: seq<int>, p: nat, x: int)
    requires p <= |s|
    ensures multiset(s[..p] + [x] + s[p..]) == multiset(s) + multiset{x}
  {
    assert s == s[..p] + s[p..];
  }

  /* Counting a rank */

  /** 0, 1, .. n - 1. */
  function Indices(n: nat): (s: seq<int>)
    ensures |s| == n && forall i :: 0 <= i < n ==> s[i] == i
  {
    seq(n, i => i)
  }

  /** The stable order of the keys of 0 .. n - 1: each index inserted into the order of those before it. */
  function Order(key: Key, n: nat): (r: seq<int>)
    ensures |r| == n
  {
    if n == 0 then [] else Inserted(key, Order(key, n - 1), n - 1)
  }

  lemma {:induction false} OrderIsSortedIndices(key: Key, n: nat, m: nat)
    requires m <= n
    ensures Order(key, m) == Sorted(key, Indices(n), m)
  {
    if m > 0 {
      OrderIsSortedIndices(key, n, m - 1);
    }
  }

  lemma OrderIsSorted(key: Key, n: nat)
    ensures IsSorted(key, Order(key, n))
  {
    OrderIsSortedIndices(key, n, n);
    SortedIsSorted(key, Indices(n), n);
  }

  method SlotOrder(slots: seq<Neighbor>, count: int) returns (order: seq<int>)
    requires 0 <= count
    ensures order == Order(SadKey(slots), Min(count, SLOTS))
  {
    var limit := Min(count, SLOTS);
    var indices := new int[SLOTS](i => i);
    assert indices[..limit] == Indices(limit);
    InsertionSort(indices, limit, SadKey(slots));
    OrderIsSortedIndices(SadKey(slots), limit, limit);
    return indices[..limit];
  }

  /** i comes before j in a stable order. */
  predicate Precedes(key: Key, i: int, j: int) {
    key(i) < key(j) || (i < j && key(i) == key(j))
  }

  /** How many of 0 .. n - 1 come before i. */
  function Rank(key: Key, n: nat, i: int): (r: nat)
    ensures r <= n
  {
    if n == 0 then 0 else Rank(key, n - 1, i) + (if Precedes(key, n - 1, i) then 1 else 0)
  }

  /** For an index past the end, rank counts the elements that are not greater, which is where it goes. */
  lemma {:induction false} LastRank(key: Key, n: nat, x: int)
    requires n <= x
    ensures Rank(key, n, x) == CountUpTo(key, Order(key, n), key(x))
  {
    if n > 0 {
      var m := n - 1;
      LastRank(key, m, x);
      CountInserted(key, Order(key, m), m, key(x));
    }
  }

  lemma LastPosition(key: Key, m: nat)
    ensures InsertionPoint(key, Order(key, m), m) == Rank(key, m, m)
  {
    OrderIsSorted(key, m);
    PointIsCount(key, Order(key, m), m);
    LastRank(key, m, m);
  }

  /** Inserting x moves the greater elements up by one. */
  lemma OldPosition(key: Key, s: seq<int>, x: int, r: nat)
    requires IsSorted(key, s) && r < |s|
    ensures Inserted(key, s, x)[if key(x) < key(s[r]) then r + 1 else r] == s[r]
  {
    var p: int := InsertionPoint(key, s, x);
    PointSplits(key, s, x);
    assert InOrder(key, s, r, p - 1);
    InsertedAt(key, s, x, if key(x) < key(s[r]) then r + 1 else r);
  }

  lemma NewPosition(key: Key, s: seq<int>, x: int, r: nat)
    requires r == InsertionPoint(key, s, x)
    ensures Inserted(key, s, x)[r] == x
  {
    InsertedAt(key, s, x, r);
  }

  /** One more index leaves rank and position together. */
  lemma RankMoves(key: Key, m: nat, i: nat)
    requires i < m && Rank(key, m, i) < m && Order(key, m)[Rank(key, m, i)] == i
    ensures Rank(key, m + 1, i) <= m && Order(key, m + 1)[Rank(key, m + 1, i)] == i
  {
    OrderIsSorted(key, m);
    OldPosition(key, Order(key, m), m, Rank(key, m, i));
  }

  lemma LastRankIsPosition(key: Key, m: nat)
    ensures Rank(key, m + 1, m) <= m && Order(key, m + 1)[Rank(key, m + 1, m)] == m
  {
    LastPosition(key, m);
    NewPosition(key, Order(key, m), m, Rank(key, m, m));
  }

  /** The counted rank of i is its position in the stable order. */
  lemma {:induction false} RankIsPosition(key: Key, n: nat, i: nat)
    requires i < n
    ensures Rank(key, n, i) < n && Order(key, n)[Rank(key, n, i)] == i
  {
    if i < n - 1 {
      RankIsPosition(key, n - 1, i);
      RankMoves(key, n - 1, i);
    } else {
      LastRankIsPosition(key, i);
    }
  }

  /** A stable order lists the indices, each preceding the next. */
  ghost predicate Listed(key: Key, s: seq<int>, n: nat, a: nat, b: nat) {
    a <= b < |s| ==> 0 <= s[a] < n && 0 <= s[b] < n && (a == b || Precedes(key, s[a], s[b]))
  }

  lemma ListedStep(key: Key, s: seq<int>, n: nat, a: nat, b: nat)
    requires |s| == n && IsSorted(key, s) && (forall a, b {:trigger Listed(key, s, n, a, b)} :: Listed(key, s, n, a, b))
    ensures Listed(key, Inserted(key, s, n), n + 1, a, b)
  {
    if a <= b <= n {
      var p: int := InsertionPoint(key, s, n);
      PointSplits(key, s, n);
      InsertedAt(key, s, n, a);
      InsertedAt(key, s, n, b);
      var a', b' := if a < p then a else a - 1, if b < p then b else b - 1;
      if a != p && b != p {
        assert Listed(key, s, n, a', b');
      } else if b == p && a != p {
        assert Listed(key, s, n, a, a) && InOrder(key, s, a, p - 1);
      } else if a == p && b != p {
        assert Listed(key, s, n, b', b');
      }
    }
  }

  lemma {:induction false} OrderIsStable(key: Key, n: nat)
    ensures forall a, b {:trigger Listed(key, Order(key, n), n, a, b)} :: Listed(key, Order(key, n), n, a, b)
  {
    if n > 0 {
      var m := n - 1;
      OrderIsStable(key, m);
      OrderIsSorted(key, m);
      forall a, b
        ensures Listed(key, Order(key, n), n, a, b)
      {
        ListedStep(key, Order(key, m), m, a, b);
      }
    }
  }

  /* The search start */

  function Flipped(mv: MotionVector): MotionVector {
    Packed(-mv.row, -mv.col)
  }

  /** The vector kept within a macroblock of the frame's edges. */
  function ClampedToFrame(mv: MotionVector, mbRow: int, mbCol: int, mbRows: int, mbCols: int): MotionVector {
    if mbRows <= 0 || mbCols <= 0 then mv
    else
      Packed(Min(Max(mv.row, -(mbRow * 16) * 8 - 128), (mbRows - 1 - mbRow) * 128 + 128),
             Min(Max(mv.col, -(mbCol * 16) * 8 - 128), (mbCols - 1 - mbCol) * 128 + 128))
  }

  /** The macroblock, the reference frame searched, and the sign biases of the reference frames. */
  datatype Place = Place(refFrame: int, signBias: seq<bool>, mbRow: int, mbCol: int, mbRows: int, mbCols: int) {
    predicate Valid() {
      INTRA_FRAME < refFrame && |signBias| == MAX_REF_FRAMES
    }
  }

  /** A neighbour's vector mirrored where its sign bias differs, and clamped. */
  function Biased(n: Neighbor, p: Place): MotionVector
    requires p.Valid()
  {
    if p.refFrame >= MAX_REF_FRAMES then n.mv
    else
      ClampedToFrame(if n.signBias != p.signBias[p.refFrame] then Flipped(n.mv) else n.mv,
                     p.mbRow, p.mbCol, p.mbRows, p.mbCols)
  }

  /** All neighbours biased; those without a reference frame keep their zero vector. */
  function AllBiased(slots: seq<Neighbor>, p: Place): (r: seq<Neighbor>)
    requires p.Valid()
    ensures |r| == |slots|
    ensures forall i :: 0 <= i < |slots| ==> r[i].refFrame == slots[i].refFrame && r[i].sad == slots[i].sad
    ensures forall i :: 0 <= i < |slots| ==>
              r[i].mv == if slots[i].refFrame == 0 then slots[i].mv else Biased(slots[i], p)
  {
    seq(|slots|, i requires 0 <= i < |slots| =>
      if slots[i].refFrame == INTRA_FRAME then slots[i] else slots[i].(mv := Biased(slots[i], p)))
  }

  /** A vector component kept so that the block, in eighths of a pixel, starts at most one macroblock outside the
      frame. */
  function Kept(v: int, mb: int, mbs: int): int {
    if 128 * mb + v < -128 then -128 - 128 * mb
    else if 128 * mb + v > 128 * mbs then 128 * mbs - 128 * mb
    else v
  }

  /** A neighbour's vector as it is used: for one of the three reference frames, mirrored exactly when the neighbour's
      sign bias is not that of the reference, and kept near the frame where there is one. */
  lemma BiasedByAxis(n: Neighbor, p: Place)
    requires p.Valid()
    ensures var mirrored := p.refFrame < 4 && n.signBias != p.signBias[p.refFrame];
            var row := if mirrored then Int16(-n.mv.row) else n.mv.row;
            var col := if mirrored then Int16(-n.mv.col) else n.mv.col;
            Biased(n, p) == if p.refFrame < 4 && 0 < p.mbRows && 0 < p.mbCols
                            then MotionVector(Int16(Kept(row, p.mbRow, p.mbRows)), Int16(Kept(col, p.mbCol, p.mbCols)))
                            else MotionVector(row, col)
  {
  }

  function SadKey(slots: seq<Neighbor>): Key {
    i => if 0 <= i < |slots| then slots[i].sad else 0
  }

  /** The middle of the sorted values of the first `count` slots, per component. */
  function MiddleOf(slots: seq<Neighbor>, count: int): MotionVector
    requires |slots| == SLOTS
  {
    if count <= 0 then MotionVector(0, 0)
    else
      var limit := Min(count, SLOTS);
      Packed(Sorted(x => x, Rows(slots), limit)[limit / 2], Sorted(x => x, Cols(slots), limit)[limit / 2])
  }

  function Rows(slots: seq<Neighbor>): (r: seq<int>)
    ensures |r| == |slots|
  {
    seq(|slots|, i requires 0 <= i < |slots| => slots[i].mv.row)
  }

  function Cols(slots: seq<Neighbor>): (r: seq<int>)
    ensures |r| == |slots|
  {
    seq(|slots|, i requires 0 <= i < |slots| => slots[i].mv.col)
  }

  /** The position of the first slot of the reference in an order of slots, its length if there is none. */
  function FirstMatch(slots: seq<Neighbor>, order: seq<int>, refFrame: int, from: nat): (a: nat)
    requires from <= |order|
    ensures from <= a <= |order|
    ensures forall b :: from <= b < a ==> !(0 <= order[b] < |slots| && slots[order[b]].refFrame == refFrame)
    ensures a < |order| ==> 0 <= order[a] < |slots| && slots[order[a]].refFrame == refFrame
    decreases |order| - from
  {
    if from == |order| then from
    else if 0 <= order[from] < |slots| && slots[order[from]].refFrame == refFrame then from
    else FirstMatch(slots, order, refFrame, from + 1)
  }

  /** The search start by sorting: bias every slot, sort them stably by their difference, take the first that uses the
      reference, with the wider range if it is among the first three; without one, the median of all. */
  function SortedStart(slots: seq<Neighbor>, count: int, p: Place): Start
    requires |slots| == SLOTS && 0 <= count <= SLOTS && p.Valid()
  {
    var biased, order := AllBiased(slots, p), Order(SadKey(slots), count);
    var a := FirstMatch(slots, order, p.refFrame, 0);
    if a < |order| then Start(biased[order[a]].mv, if a < 3 then 3 else 2, order[a])
    else Start(MiddleOf(biased, count), 0, -1)
  }

  /** best is the first of the cheapest slots below n that use the reference, -1 if none does. */
  ghost predicate IsBestMatch(slots: seq<Neighbor>, n: nat, refFrame: int, best: int)
    requires n <= |slots|
  {
    && -1 <= best < n
    && (best >= 0 ==> slots[best].refFrame == refFrame)
    && (forall i :: 0 <= i < n && slots[i].refFrame == refFrame ==>
          best >= 0 && (i == best || Precedes(SadKey(slots), best, i)))
  }

  /** The cheapest matching slot is the first matching one of the stable order, at its rank. */
  lemma BestIsFirstMatch(slots: seq<Neighbor>, n: nat, refFrame: int, best: int)
    requires n <= |slots| && IsBestMatch(slots, n, refFrame, best)
    ensures var order, a := Order(SadKey(slots), n), FirstMatch(slots, Order(SadKey(slots), n), refFrame, 0);
            && (best < 0 ==> a == n)
            && (best >= 0 ==> a == Rank(SadKey(slots), n, best) < n && order[a] == best)
  {
    var key := SadKey(slots);
    var order := Order(key, n);
    var a := FirstMatch(slots, order, refFrame, 0);
    OrderIsStable(key, n);
    assert Listed(key, order, n, a, a);
    if best >= 0 {
      RankIsPosition(key, n, best);
      assert Listed(key, order, n, a, Rank(key, n, best));
    }
  }

  /** Slot j stands before slot i in the order by difference, ties by index. */
  predicate StandsBefore(slots: seq<Neighbor>, j: int, i: int)
    requires 0 <= j < |slots| && 0 <= i < |slots|
  {
    slots[j].sad < slots[i].sad || (slots[j].sad == slots[i].sad && j < i)
  }

  function SlotsBefore(slots: seq<Neighbor>, n: nat, i: nat): set<int>
    requires n <= |slots| && i < |slots|
  {
    set j | 0 <= j < n && StandsBefore(slots, j, i)
  }

  lemma {:induction false} RankIsSize(slots: seq<Neighbor>, n: nat, i: nat)
    requires n <= |slots| && i < |slots|
    ensures Rank(SadKey(slots), n, i) == |SlotsBefore(slots, n, i)|
  {
    if n > 0 {
      RankIsSize(slots, n - 1, i);
      SlotsBeforeGrow(slots, n, i);
    }
  }

  lemma SlotsBeforeGrow(slots: seq<Neighbor>, n: nat, i: nat)
    requires 0 < n <= |slots| && i < |slots|
    ensures |SlotsBefore(slots, n, i)| ==
            |SlotsBefore(slots, n - 1, i)| + (if Precedes(SadKey(slots), n - 1, i) then 1 else 0)
  {
    var before := SlotsBefore(slots, n - 1, i);
    assert SlotsBefore(slots, n, i) == if StandsBefore(slots, n - 1, i) then before + {n - 1} else before;
  }

  /** What the start is: where a slot uses the reference, the first of those in the order by difference, with range 3
      when fewer than three slots of any reference stand before it and 2 otherwise; where none does, the median of all
      with range 0. */
  lemma StartIsBestMatch(slots: seq<Neighbor>, count: int, p: Place)
    requires |slots| == SLOTS && 0 <= count <= SLOTS && p.Valid()
    ensures var start := SortedStart(slots, count, p);
            if forall i :: 0 <= i < count ==> slots[i].refFrame != p.refFrame then
              start == Start(MiddleOf(AllBiased(slots, p), count), 0, -1)
            else
              && 0 <= start.slot < count && slots[start.slot].refFrame == p.refFrame
              && (forall i :: 0 <= i < count && slots[i].refFrame == p.refFrame && i != start.slot ==>
                    StandsBefore(slots, start.slot, i))
              && start.range == (if |SlotsBefore(slots, count, start.slot)| < 3 then 3 else 2)
              && start.mv == Biased(slots[start.slot], p)
  {
    var best := FirstOfMatches(slots, count, p.refFrame);
    BestIsFirstMatch(slots, count, p.refFrame, best);
    if best >= 0 {
      RankIsSize(slots, count, best);
    }
  }

  lemma {:induction false} FirstOfMatches(slots: seq<Neighbor>, n: nat, refFrame: int) returns (best: int)
    requires n <= |slots|
    ensures IsBestMatch(slots, n, refFrame, best)
  {
    best := -1;
    if n > 0 {
      best := FirstOfMatches(slots, n - 1, refFrame);
      if slots[n - 1].refFrame == refFrame && (best < 0 || slots[n - 1].sad < slots[best].sad) {
        best := n - 1;
      }
    }
  }

  /** How many of the first n values are at most v. */
  function AtMost(s: seq<int>, n: nat, v: int): nat
    requires n <= |s|
  {
    if n == 0 then 0 else AtMost(s, n - 1, v) + (if s[n - 1] <= v then 1 else 0)
  }

  lemma {:induction false} AtMostIsCount(key: Key, s: seq<int>, n: nat, v: int)
    requires n <= |s| && forall x: int :: key(x) == x
    ensures AtMost(s, n, v) == CountUpTo(key, s[..n], v)
  {
    if n > 0 {
      AtMostIsCount(key, s, n - 1, v);
      CountOfPrefix(key, s, n, v);
    }
  }

  lemma MiddleOfSorted(key: Key, s: seq<int>, n: nat)
    requires 0 < n <= |s| && forall x: int :: key(x) == x
    ensures var middle := Sorted(key, s, n)[n / 2]; AtMost(s, n, middle - 1) <= n / 2 < AtMost(s, n, middle)
  {
    var middle := Sorted(key, s, n)[n / 2];
    SortedIsSorted(key, s, n);
    CountsAround(key, Sorted(key, s, n), n / 2);
    SortedKeepsCounts(key, s, n, middle);
    SortedKeepsCounts(key, s, n, middle - 1);
    AtMostIsCount(key, s, n, middle);
    AtMostIsCount(key, s, n, middle - 1);
  }

  /** The median of the first `count` vectors, on each axis: half of the components at most, rounded down, are below it,
      and more than that are not above it. */
  lemma MiddleIsMedian(slots: seq<Neighbor>, count: nat)
    requires |slots| == SLOTS && 0 < count <= SLOTS
    requires forall i :: 0 <= i < SLOTS ==> slots[i].mv == Packed(slots[i].mv.row, slots[i].mv.col)
    ensures var m := MiddleOf(slots, count);
            && AtMost(Rows(slots), count, m.row - 1) <= count / 2 < AtMost(Rows(slots), count, m.row)
            && AtMost(Cols(slots), count, m.col - 1) <= count / 2 < AtMost(Cols(slots), count, m.col)
  {
    MiddleOfSorted(x => x, Rows(slots), count);
    MiddleOfSorted(x => x, Cols(slots), count);
    MiddleIsElement(x => x, Rows(slots), count);
    MiddleIsElement(x => x, Cols(slots), count);
  }

  lemma MiddleIsElement(key: Key, s: seq<int>, n: nat)
    requires 0 < n <= |s|
    ensures Sorted(key, s, n)[n / 2] in s
  {
    SortedKeepsElements(key, s, n);
    assert Sorted(key, s, n)[n / 2] in multiset(s[..n]);
  }

  lemma CountsAround(key: Key, s: seq<int>, a: nat)
    requires IsSorted(key, s) && a < |s|
    ensures CountUpTo(key, s, key(s[a]) - 1) <= a < CountUpTo(key, s, key(s[a]))
  {
    var low, high, rest := s[..a], s[..a + 1], s[a..];
    assert s == high + s[a + 1..] && s == low + rest;
    CountUpToConcat(key, high, s[a + 1..], key(s[a]));
    CountUpToConcat(key, low, rest, key(s[a]) - 1);
    forall m | 0 <= m < |high|
      ensures key(high[m]) <= key(s[a])
    {
      assert InOrder(key, s, m, a);
    }
    AllCount(key, high, key(s[a]));
    forall m | 0 <= m < |rest|
      ensures key(s[a]) - 1 < key(rest[m])
    {
      assert InOrder(key, s, a, a + m);
    }
    NoneCount(key, rest, key(s[a]) - 1);
  }

  lemma CountOfPrefix(key: Key, s: seq<int>, n: nat, k: int)
    requires 0 < n <= |s|
    ensures CountUpTo(key, s[..n], k) == CountUpTo(key, s[..n - 1], k) + (if key(s[n - 1]) <= k then 1 else 0)
  {
    assert s[..n][..n - 1] == s[..n - 1];
  }

  lemma {:induction false} SortedKeepsCounts(key: Key, s: seq<int>, n: nat, k: int)
    requires n <= |s|
    ensures CountUpTo(key, Sorted(key, s, n), k) == CountUpTo(key, s[..n], k)
  {
    if n > 0 {
      SortedKeepsCounts(key, s, n - 1, k);
      CountInserted(key, Sorted(key, s, n - 1), s[n - 1], k);
      CountOfPrefix(key, s, n, k);
    }
  }

  method BestMatch(slots: seq<Neighbor>, count: nat, refFrame: int) returns (best: int)
    requires count <= |slots|
    ensures IsBestMatch(slots, count, refFrame, best)
  {
    best := -1;
    for i := 0 to count
      invariant IsBestMatch(slots, i, refFrame, best)
    {
      if slots[i].refFrame == refFrame && (best < 0 || slots[i].sad < slots[best].sad) {
        best := i;
      }
    }
  }

  method CountRank(slots: seq<Neighbor>, count: nat, best: int) returns (rank: nat)
    requires count <= |slots| && 0 <= best < count
    ensures rank == Rank(SadKey(slots), count, best)
  {
    rank := 0;
    for i := 0 to count
      invariant rank == Rank(SadKey(slots), i, best)
    {
      if slots[i].sad < slots[best].sad || (i < best && slots[i].sad == slots[best].sad) {
        rank := rank + 1;
      }
    }
  }

  /** The median of three is their sorted middle. */
  lemma ThreeMedian(a: int, b: int, c: int)
    ensures Sorted(x => x, [a, b, c], 3)[1] == Max(Min(a, b), Min(Max(a, b), c))
  {
    var key: Key := x => x;
    var s := [a, b, c];
    assert Sorted(key, s, 1) == Inserted(key, [], a) == [a];
    var two := Sorted(key, s, 2);
    InsertIntoOne(key, a, b);
    assert two == Inserted(key, [a], b);
    var three := Sorted(key, s, 3);
    assert three == Inserted(key, two, c);
    if key(two[1]) > key(c) {
      InsertIntoOne(key, two[0], c);
      assert two[..1] == [two[0]];
    }
  }

  lemma InsertIntoOne(key: Key, x: int, y: int)
    ensures Inserted(key, [x], y) == if key(x) <= key(y) then [x, y] else [y, x]
  {
    assert [x][..0] == [];
    assert Inserted(key, [], y) == [y];
  }

  lemma {:induction false} SortedOfPrefix(key: Key, s: seq<int>, t: seq<int>, n: nat)
    requires n <= |s| && n <= |t| && s[..n] == t[..n]
    ensures Sorted(key, s, n) == Sorted(key, t, n)
  {
    if n > 0 {
      assert s[..n - 1] == s[..n][..n - 1] && t[..n - 1] == t[..n][..n - 1];
      assert s[n - 1] == s[..n][n - 1] && t[n - 1] == t[..n][n - 1];
      SortedOfPrefix(key, s, t, n - 1);
    }
  }

  method Median(slots: seq<Neighbor>, count: int) returns (mv: MotionVector)
    requires |slots| == SLOTS
    requires forall i :: 0 <= i < SLOTS ==> slots[i].mv == Packed(slots[i].mv.row, slots[i].mv.col)
    ensures mv == MiddleOf(slots, count)
  {
    if count <= 0 {
      return MotionVector(0, 0);
    }
    var limit := Min(count, SLOTS);
    if count == 3 {
      var a, b, c := slots[0].mv, slots[1].mv, slots[2].mv;
      ThreeMedian(a.row, b.row, c.row);
      ThreeMedian(a.col, b.col, c.col);
      assert Rows(slots)[..3] == [a.row, b.row, c.row] && Cols(slots)[..3] == [a.col, b.col, c.col];
      SortedOfPrefix(x => x, Rows(slots), [a.row, b.row, c.row], 3);
      SortedOfPrefix(x => x, Cols(slots), [a.col, b.col, c.col], 3);
      return MotionVector(Max(Min(a.row, b.row), Min(Max(a.row, b.row), c.row)),
                          Max(Min(a.col, b.col), Min(Max(a.col, b.col), c.col)));
    }
    var rows := new int[SLOTS](i requires 0 <= i < SLOTS => slots[i].mv.row);
    var cols := new int[SLOTS](i requires 0 <= i < SLOTS => slots[i].mv.col);
    assert rows[..limit] == Rows(slots)[..limit] && cols[..limit] == Cols(slots)[..limit];
    SortedOfPrefix(x => x, rows[..limit], Rows(slots), limit);
    SortedOfPrefix(x => x, cols[..limit], Cols(slots), limit);
    InsertionSort(rows, limit, x => x);
    InsertionSort(cols, limit, x => x);
    return Packed(rows[..limit][limit / 2], cols[..limit][limit / 2]);
  }

  method BiasSlot(n: Neighbor, p: Place) returns (mv: MotionVector)
    requires p.Valid()
    ensures mv == Biased(n, p)
  {
    mv := n.mv;
    if p.refFrame < MAX_REF_FRAMES {
      if n.signBias != p.signBias[p.refFrame] {
        mv := Flipped(mv);
      }
      mv := ClampedToFrame(mv, p.mbRow, p.mbCol, p.mbRows, p.mbCols);
    }
  }

  /** Counting the rank of the best matching slot replaces the sort: same vector, same range, same slot. */
  method SearchStart(slots: seq<Neighbor>, count: int, p: Place) returns (start: Start)
    requires |slots| == SLOTS && 0 <= count <= SLOTS && p.Valid()
    requires forall i :: 0 <= i < SLOTS ==> slots[i].mv == Packed(slots[i].mv.row, slots[i].mv.col)
    ensures start == SortedStart(slots, count, p)
  {
    var best := BestMatch(slots, count, p.refFrame);
    BestIsFirstMatch(slots, count, p.refFrame, best);
    if best >= 0 {
      var rank := CountRank(slots, count, best);
      var mv := BiasSlot(slots[best], p);
      var range := 2;
      if rank < 3 {
        range := 3;
      }
      return Start(mv, range, best);
    }
    var biased := AllBiased(slots, p);
    var mv := Median(biased, count);
    return Start(mv, 0, -1);
  }
}
