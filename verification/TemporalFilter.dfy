/** The temporal filter of one macroblock: every reference adds weighted pixels into an accumulator and a count, and
    the output divides them through a table of truncated reciprocals. Unsigned 32-bit arithmetic is written out where
    it happens; the invariants show that it never wraps. */
module TemporalFilter {
  import opened Arith

  const MAX_FRAMES := 15
  const TWO_TO_THE_32 := 0x1_0000_0000
  const RECIPROCAL_ONE := 0x80000
  const TABLE_SIZE := 512
  const THRESH_LOW := 10000
  const THRESH_HIGH := 20000

  /** Scratch entries of one macroblock: 256 luma, then 64 of each chroma plane. */
  const BLOCK := 384

  function Wrap32(x: int): (r: int)
    ensures 0 <= r < TWO_TO_THE_32
    ensures 0 <= x < TWO_TO_THE_32 ==> r == x
  {
    x % TWO_TO_THE_32
  }

  predicate IsPixel(x: int) {
    0 <= x <= 255
  }

  ghost predicate IsBlock(s: seq<int>) {
    |s| == BLOCK && forall k :: 0 <= k < BLOCK ==> IsPixel(s[k])
  }

  /** One reference: the error of its matching block, and its motion-compensated predictor. */
  datatype Reference = Reference(error: int, predictor: seq<int>)

  /* What the filter computes */

  /** x >> strength for non-negative x, the shift count taken as unsigned. */
  function Shifted(x: int, strength: int): (r: int)
    ensures 0 <= x ==> 0 <= r <= x
  {
    if strength < 0 then 0
    else
      ShrinksUnderDivision(x, PowerOfTwo(strength));
      x / PowerOfTwo(strength)
  }

  lemma ShrinksUnderDivision(x: int, d: int)
    requires 1 <= d
    ensures 0 <= x ==> 0 <= x / d <= x
  {
    if 0 <= x {
      var q := x / d;
      assert x == q * d + x % d;
      assert 0 <= q;
      assert q * d >= q by {
        ScaleAtLeast(q, d);
      }
    }
  }

  function Rounding(strength: int): (r: int)
    ensures 0 <= r
  {
    if strength > 0 then PowerOfTwo(strength - 1) else 0
  }

  /** 16 for a pixel equal to its source, down to 0 for a very different one. */
  function Closeness(src: int, pred: int, strength: int): (r: int)
    ensures 0 <= r <= 16
  {
    var diff := src - pred;
    assert 0 <= diff * diff;
    16 - Min(Shifted(diff * diff * 3 + Rounding(strength), strength), 16)
  }

  /** How much a frame counts: the center frame twice, the others by their error. */
  function FrameWeight(isCenter: bool, error: int): (w: int)
    ensures 0 <= w <= 2
  {
    if isCenter then 2 else if error < THRESH_LOW then 2 else if error < THRESH_HIGH then 1 else 0
  }

  /** The weight of pixel k of a reference. */
  function PixelWeight(src: seq<int>, refs: seq<Reference>, center: int, strength: int, f: nat, k: nat): (w: int)
    requires f < |refs| && k < |src| && k < |refs[f].predictor|
    ensures 0 <= w <= 32
  {
    Closeness(src[k], refs[f].predictor[k], strength) * FrameWeight(f == center, refs[f].error)
  }

  ghost predicate AreReferences(refs: seq<Reference>) {
    |refs| <= MAX_FRAMES && forall f :: 0 <= f < |refs| ==> IsBlock(refs[f].predictor)
  }

  /** The weights of pixel k over the first n references, added up. */
  function Count(src: seq<int>, refs: seq<Reference>, center: int, strength: int, n: nat, k: nat): int
    requires IsBlock(src) && AreReferences(refs) && n <= |refs| && k < BLOCK
  {
    if n == 0 then 0
    else Count(src, refs, center, strength, n - 1, k) + PixelWeight(src, refs, center, strength, n - 1, k)
  }

  /** The same with every weight multiplied by its pixel. */
  function Sum(src: seq<int>, refs: seq<Reference>, center: int, strength: int, n: nat, k: nat): int
    requires IsBlock(src) && AreReferences(refs) && n <= |refs| && k < BLOCK
  {
    if n == 0 then 0
    else Sum(src, refs, center, strength, n - 1, k)
         + PixelWeight(src, refs, center, strength, n - 1, k) * refs[n - 1].predictor[k]
  }

  /** The table of truncated reciprocals. */
  function FixedDivide(c: int): int
    requires 0 <= c < TABLE_SIZE
  {
    if c == 0 then 0 else RECIPROCAL_ONE / c
  }

  /** The output pixel, in 32-bit arithmetic. */
  function Normalized(sum: int, c: int): int
    requires 0 < c
  {
    if c >= TABLE_SIZE then Min(Wrap32(sum + c / 2) / c, 255) % 256
    else Min(Wrap32(Wrap32(sum + c / 2) * FixedDivide(c)) / RECIPROCAL_ONE, 255) % 256
  }

  /* Choosing the frames */

  /** How many frames before and after the center are filtered in; None where the filter is not applied. The third
      mode takes as many frames on each side as both sides have, the extra one of an even limit going backward. */
  function FilterWindow(mode: int, distance: int, lookahead: int, maxFrames: int): (w: FrameWindow)
    ensures w.Frames? ==>
              && 0 <= w.backward <= distance && 0 <= w.forward <= lookahead - distance - 1
              && w.backward + w.forward + 1 <= maxFrames
  {
    var before, after := distance, lookahead - (distance + 1);
    if distance < 0 || maxFrames <= 0 || after < 0 then NoFrames
    else if mode == 1 then Frames(if before >= maxFrames then maxFrames - 1 else before, 0)
    else if mode == 2 then Frames(0, if after >= maxFrames then maxFrames - 1 else after)
    else if mode == 3 then
      var shared := Min(after, before);
      Frames(if shared > maxFrames / 2 then maxFrames / 2 else shared,
             if shared > (maxFrames - 1) / 2 then (maxFrames - 1) / 2 else shared)
    else NoFrames
  }

  datatype FrameWindow = NoFrames | Frames(backward: int, forward: int)

  /** The window is as large as it can be: the one-sided modes take every frame of their side or fill the limit, and the
      two-sided mode takes everything up to the nearer end on both sides or fills the limit, an even limit with one
      more frame backward than forward. */
  lemma WindowIsLargest(mode: int, distance: int, lookahead: int, maxFrames: int)
    ensures var w, after := FilterWindow(mode, distance, lookahead, maxFrames), lookahead - distance - 1;
            && (w.Frames? <==> 1 <= mode <= 3 && 0 <= distance < lookahead && 0 < maxFrames)
            && (w.Frames? ==>
                  && 0 <= w.backward <= distance && 0 <= w.forward <= after && w.backward + w.forward + 1 <= maxFrames
                  && (mode == 1 ==> w.forward == 0 && (w.backward == distance || w.backward + 1 == maxFrames))
                  && (mode == 2 ==> w.backward == 0 && (w.forward == after || w.forward + 1 == maxFrames))
                  && (mode == 3 ==>
                        || (w.backward == w.forward && (w.backward == distance || w.forward == after))
                        || (w.backward + w.forward + 1 == maxFrames &&
                            w.backward - w.forward == if maxFrames % 2 == 0 then 1 else 0)))
  {
  }

  /* Accumulating */

  /** accumulator and count hold the sums over the first n references. */
  ghost predicate Accumulated(
    accumulator: seq<int>, count: seq<int>, src: seq<int>, refs: seq<Reference>, center: int, strength: int, n: nat)
    requires IsBlock(src) && AreReferences(refs) && n <= |refs|
  {
    && |accumulator| == BLOCK && |count| == BLOCK
    && (forall k :: 0 <= k < BLOCK ==> count[k] == Count(src, refs, center, strength, n, k))
    && (forall k :: 0 <= k < BLOCK ==> accumulator[k] == Sum(src, refs, center, strength, n, k))
  }

  /** At most 32 per frame, 480 in all, and at most 255 times the count: nothing wraps. */
  lemma {:induction false} SumsAreBounded(
    src: seq<int>, refs: seq<Reference>, center: int, strength: int, n: nat, k: nat)
    requires IsBlock(src) && AreReferences(refs) && n <= |refs| && k < BLOCK
    ensures 0 <= Count(src, refs, center, strength, n, k) <= 32 * n <= 480
    ensures 0 <= Sum(src, refs, center, strength, n, k) <= 255 * Count(src, refs, center, strength, n, k)
  {
    if n > 0 {
      SumsAreBounded(src, refs, center, strength, n - 1, k);
      var w, p := PixelWeight(src, refs, center, strength, n - 1, k), refs[n - 1].predictor[k];
      assert IsPixel(p);
      ProductGrows(p, 255, w);
      ProductGrows(0, p, w);
      assert p * w == w * p;
    }
  }

  /** One pixel's share of one reference. */
  function AddedCount(c: int, src: int, pred: int, strength: int, filterWeight: int): int {
    Wrap32(c + Closeness(src, pred, strength) * filterWeight)
  }

  function AddedSum(a: int, src: int, pred: int, strength: int, filterWeight: int): int {
    Wrap32(a + Wrap32(Closeness(src, pred, strength) * filterWeight * pred))
  }

  /** Adds one predictor block of blockSize rows, whose pixels and scratch entries start at `base`. */
  method ApplyTemporalFilter(
    src: seq<int>, pred: seq<int>, base: nat, blockSize: nat, strength: int, filterWeight: int,
    accumulator: array<int>, count: array<int>)
    requires IsBlock(src) && IsBlock(pred) && 0 <= filterWeight <= 2
    requires accumulator.Length == BLOCK && count.Length == BLOCK && accumulator != count
    requires base + blockSize * blockSize <= BLOCK
    modifies accumulator, count
    ensures forall k :: 0 <= k < BLOCK ==>
              if base <= k < base + blockSize * blockSize
              then && count[k] == AddedCount(old(count[k]), src[k], pred[k], strength, filterWeight)
                   && accumulator[k] == AddedSum(old(accumulator[k]), src[k], pred[k], strength, filterWeight)
              else count[k] == old(count[k]) && accumulator[k] == old(accumulator[k])
  {
    var rounding := 0;
    if strength > 0 {
      rounding := PowerOfTwo(strength - 1);
    }
    var k := base;
    for j := 0 to blockSize
      invariant k == base + j * blockSize
      invariant forall m :: 0 <= m < BLOCK ==>
                  if base <= m < k
                  then && count[m] == AddedCount(old(count[m]), src[m], pred[m], strength, filterWeight)
                       && accumulator[m] == AddedSum(old(accumulator[m]), src[m], pred[m], strength, filterWeight)
                  else count[m] == old(count[m]) && accumulator[m] == old(accumulator[m])
    {
      RowFits(j, blockSize);
      k := ApplyRow(src, pred, k, blockSize, rounding, strength, filterWeight, accumulator, count);
    }
  }

  /** One row of the block, from pixel `first` on. */
  method ApplyRow(
    src: seq<int>, pred: seq<int>, first: nat, blockSize: nat, rounding: int, strength: int, filterWeight: int,
    accumulator: array<int>, count: array<int>)
    returns (k: int)
    requires IsBlock(src) && IsBlock(pred) && rounding == Rounding(strength)
    requires accumulator.Length == BLOCK && count.Length == BLOCK && accumulator != count && first + blockSize <= BLOCK
    modifies accumulator, count
    ensures k == first + blockSize
    ensures forall m :: 0 <= m < BLOCK ==>
              if first <= m < first + blockSize
              then && count[m] == AddedCount(old(count[m]), src[m], pred[m], strength, filterWeight)
                   && accumulator[m] == AddedSum(old(accumulator[m]), src[m], pred[m], strength, filterWeight)
              else count[m] == old(count[m]) && accumulator[m] == old(accumulator[m])
  {
    k := first;
    for i := 0 to blockSize
      invariant k == first + i
      invariant forall m :: 0 <= m < BLOCK ==>
                  if first <= m < k
                  then && count[m] == AddedCount(old(count[m]), src[m], pred[m], strength, filterWeight)
                       && accumulator[m] == AddedSum(old(accumulator[m]), src[m], pred[m], strength, filterWeight)
                  else count[m] == old(count[m]) && accumulator[m] == old(accumulator[m])
    {
      count[k], accumulator[k] :=
        ApplyPixel(src[k], pred[k], rounding, strength, filterWeight, accumulator[k], count[k]);
      k := k + 1;
    }
  }

  method ApplyPixel(s: int, p: int, rounding: int, strength: int, filterWeight: int, sum: int, count: int)
    returns (count': int, sum': int)
    requires rounding == Rounding(strength)
    ensures count' == AddedCount(count, s, p, strength, filterWeight)
    ensures sum' == AddedSum(sum, s, p, strength, filterWeight)
  {
    var diff := s - p;
    var modifier := diff * diff * 3 + rounding;
    modifier := Shifted(modifier, strength);
    modifier := Min(modifier, 16);
    modifier := (16 - modifier) * filterWeight;
    count' := Wrap32(count + modifier);
    sum' := Wrap32(sum + Wrap32(modifier * p));
  }

  lemma RowFits(j: nat, n: nat)
    requires j < n
    ensures j * n + n == (j + 1) * n <= n * n
  {
    assert j * n + n == (j + 1) * n;
    ProductGrows(j + 1, n, n);
  }

  /* Writing the block back */

  /** Pixel t of a plane after the block of `size` rows at (x, y) has been written: pixels outside the block, outside
      the visible area or with nothing accumulated keep their value. */
  function PixelAfter(
    old': int, t: nat, length: nat, stride: int, width: int, height: int, x: int, y: int, size: nat,
    sums: seq<int>, counts: seq<int>, base: nat): int
    requires 0 < stride && base + size * size <= |sums| == |counts|
  {
    var row, col := t / stride, t % stride;
    if !(y <= row < y + size && x <= col < x + size && row < height && col < width && row * stride + width <= length)
    then old'
    else
      EntryFits(row - y, col - x, size);
      var k := base + (row - y) * size + (col - x);
      if counts[k] <= 0 then old' else Normalized(sums[k], counts[k])
  }

  lemma EntryFits(j: int, i: int, n: int)
    requires 0 <= j < n && 0 <= i < n
    ensures 0 <= j * n + i < n * n
  {
    RowFits(j, n);
    assert 0 <= j * n;
  }

  /** One row of the block; t runs over the whole plane, `start` is the index of the row's first pixel. */
  method WriteRow(
    dst: array<int>, start: nat, x: int, width: nat, size: nat, accumulator: array<int>, count: array<int>, first: nat)
    requires start + width <= dst.Length && first + size <= accumulator.Length && first + size <= count.Length
    requires dst != accumulator && dst != count
    modifies dst
    ensures forall t :: 0 <= t < dst.Length ==>
              dst[t] == if start <= t < start + width && x <= t - start < x + size
                           && 0 < count[first + (t - start - x)]
                        then Normalized(accumulator[first + (t - start - x)], count[first + (t - start - x)])
                        else old(dst[t])
  {
    for i := 0 to size
      invariant forall t :: 0 <= t < dst.Length ==>
                  dst[t] == if start <= t < start + width && x <= t - start < x + i
                               && 0 < count[first + (t - start - x)]
                            then Normalized(accumulator[first + (t - start - x)], count[first + (t - start - x)])
                            else old(dst[t])
    {
      var xx := x + i;
      if !(0 <= xx < width) {
        continue;
      }
      var k := first + i;
      var c := count[k];
      if c <= 0 {
        continue;
      }
      if c >= TABLE_SIZE {
        dst[start + xx] := Min(Wrap32(accumulator[k] + c / 2) / c, 255) % 256;
        continue;
      }
      var value := Min(Wrap32(Wrap32(accumulator[k] + c / 2) * FixedDivide(c)) / RECIPROCAL_ONE, 255);
      dst[start + xx] := value % 256;
    }
  }

  lemma RowOf(t: nat, stride: int, row: int)
    requires 0 < stride
    ensures t / stride == row <==> row * stride <= t < row * stride + stride
    ensures t / stride == row ==> t % stride == t - row * stride
  {
    assert t == t / stride * stride + t % stride;
    if row * stride <= t < row * stride + stride {
      UniqueRemainder(t, stride, row, t - row * stride);
    }
  }

  /** A pixel of row y + j in terms of its distance from the start of that row. */
  lemma PixelInRow(
    old': int, t: nat, length: nat, stride: int, width: nat, height: nat, x: int, y: int, size: nat,
    sums: seq<int>, counts: seq<int>, base: nat, j: nat, start: int, first: int)
    requires 0 < stride && width <= stride && base + size * size <= |sums| == |counts| && j < size
    requires start == (y + j) * stride && first == base + j * size && 0 <= first && first + size <= |sums|
    requires t / stride == y + j
    ensures PixelAfter(old', t, length, stride, width, height, x, y, size, sums, counts, base) ==
            if y + j < height && start + width <= length && t < start + width && x <= t - start < x + size
               && 0 < counts[first + (t - start - x)]
            then Normalized(sums[first + (t - start - x)], counts[first + (t - start - x)])
            else old'
  {
    RowFits(j, size);
    RowOf(t, stride, y + j);
  }

  /** A pixel of the plane after row y + j of the block. */
  lemma PixelIsWritten(
    before: int, after: int, t: nat, length: nat, stride: int, width: nat, height: nat, x: int, y: int, size: nat,
    sums: seq<int>, counts: seq<int>, base: nat, j: nat, start: int, first: int)
    requires 0 < stride && width <= stride && base + size * size <= |sums| == |counts| && j < size
    requires start == (y + j) * stride && first == base + j * size && 0 <= first && first + size <= |sums|
    requires after == if 0 <= y + j < height && start + width <= length && start <= t < start + width
                         && x <= t - start < x + size && 0 < counts[first + (t - start - x)]
                      then Normalized(sums[first + (t - start - x)], counts[first + (t - start - x)])
                      else before
    ensures after == if t / stride == y + j
                     then PixelAfter(before, t, length, stride, width, height, x, y, size, sums, counts, base)
                     else before
  {
    RowOf(t, stride, y + j);
    if t / stride == y + j {
      PixelInRow(before, t, length, stride, width, height, x, y, size, sums, counts, base, j, start, first);
    }
  }

  /** Row j of the block, if it is visible. */
  method WriteVisibleRow(
    dst: array<int>, stride: int, x: int, y: int, width: nat, height: nat, size: nat,
    accumulator: array<int>, count: array<int>, base: nat, j: nat)
    requires 0 < stride && width <= stride && base + size * size <= accumulator.Length == count.Length
    requires dst != accumulator && dst != count && j < size
    modifies dst
    ensures forall t :: 0 <= t < dst.Length ==>
              dst[t] == if t / stride == y + j
                        then PixelAfter(old(dst[t]), t, dst.Length, stride, width, height, x, y, size,
                                        accumulator[..], count[..], base)
                        else old(dst[t])
  {
    RowFits(j, size);
    var row := y + j;
    ghost var before := dst[..];
    ghost var sums, counts := accumulator[..], count[..];
    if 0 <= row < height && row * stride + width <= dst.Length {
      ProductGrows(0, row, stride);
      WriteRow(dst, row * stride, x, width, size, accumulator, count, base + j * size);
    }
    RowIsWritten(dst[..], before, stride, width, height, x, y, size, sums, counts, base, j,
                 row * stride, base + j * size);
  }

  lemma RowIsWritten(
    after: seq<int>, before: seq<int>, stride: int, width: nat, height: nat, x: int, y: int, size: nat,
    sums: seq<int>, counts: seq<int>, base: nat, j: nat, start: int, first: int)
    requires 0 < stride && width <= stride && base + size * size <= |sums| == |counts| && j < size
    requires start == (y + j) * stride && first == base + j * size && 0 <= first && first + size <= |sums|
    requires |after| == |before|
    requires forall t :: 0 <= t < |before| ==>
               after[t] == if 0 <= y + j < height && start + width <= |before| && start <= t < start + width
                              && x <= t - start < x + size && 0 < counts[first + (t - start - x)]
                           then Normalized(sums[first + (t - start - x)], counts[first + (t - start - x)])
                           else before[t]
    ensures forall t :: 0 <= t < |before| ==>
              after[t] == if t / stride == y + j
                          then PixelAfter(before[t], t, |before|, stride, width, height, x, y, size, sums, counts, base)
                          else before[t]
  {
    forall t | 0 <= t < |before|
      ensures after[t] == if t / stride == y + j
                          then PixelAfter(before[t], t, |before|, stride, width, height, x, y, size, sums, counts, base)
                          else before[t]
    {
      PixelIsWritten(before[t], after[t], t, |before|, stride, width, height, x, y, size, sums, counts, base, j,
                     start, first);
    }
  }

  method WriteBlock(
    dst: array<int>, stride: int, x: int, y: int, width: nat, height: nat, size: nat,
    accumulator: array<int>, count: array<int>, base: nat)
    requires 0 < stride && width <= stride && base + size * size <= accumulator.Length == count.Length
    requires dst != accumulator && dst != count
    modifies dst
    ensures forall t :: 0 <= t < dst.Length ==>
              dst[t] == PixelAfter(old(dst[t]), t, dst.Length, stride, width, height, x, y, size,
                                   accumulator[..], count[..], base)
  {
    ghost var sums, counts := accumulator[..], count[..];
    for j := 0 to size
      invariant accumulator[..] == sums && count[..] == counts
      invariant forall t :: 0 <= t < dst.Length ==>
                  dst[t] == if t / stride < y + j
                            then PixelAfter(old(dst[t]), t, dst.Length, stride, width, height, x, y, size,
                                            sums, counts, base)
                            else old(dst[t])
    {
      WriteVisibleRow(dst, stride, x, y, width, height, size, accumulator, count, base, j);
    }
  }

  /* One macroblock */

  /** One component of the output frame. */
  datatype Plane = Plane(pixels: array<int>, stride: int, width: nat, height: nat) {
    predicate Valid() {
      0 < stride && width <= stride
    }
  }

  function Counts(src: seq<int>, refs: seq<Reference>, center: int, strength: int): (r: seq<int>)
    requires IsBlock(src) && AreReferences(refs)
    ensures |r| == BLOCK
  {
    seq(BLOCK, k requires 0 <= k < BLOCK => Count(src, refs, center, strength, |refs|, k))
  }

  function Sums(src: seq<int>, refs: seq<Reference>, center: int, strength: int): (r: seq<int>)
    requires IsBlock(src) && AreReferences(refs)
    ensures |r| == BLOCK
  {
    seq(BLOCK, k requires 0 <= k < BLOCK => Sum(src, refs, center, strength, |refs|, k))
  }

  /** The plane's pixels after its part of the macroblock has been written. */
  ghost predicate Written(
    after: seq<int>, before: seq<int>, p: Plane, x: int, y: int, size: nat, sums: seq<int>, counts: seq<int>, base: nat)
    requires p.Valid() && base + size * size <= |sums| == |counts|
  {
    |after| == |before| &&
    forall t :: 0 <= t < |before| ==>
      after[t] == PixelAfter(before[t], t, |before|, p.stride, p.width, p.height, x, y, size, sums, counts, base)
  }

  /** Adds one reference, all three components. */
  method AddReference(
    src: seq<int>, refs: seq<Reference>, center: int, strength: int, f: nat, accumulator: array<int>, count: array<int>)
    requires IsBlock(src) && AreReferences(refs) && f < |refs|
    requires accumulator.Length == BLOCK && count.Length == BLOCK && accumulator != count
    requires Accumulated(accumulator[..], count[..], src, refs, center, strength, f)
    modifies accumulator, count
    ensures Accumulated(accumulator[..], count[..], src, refs, center, strength, f + 1)
  {
    ghost var sums, counts := accumulator[..], count[..];
    var filterWeight := FrameWeight(f == center, refs[f].error);
    if filterWeight == 0 {
      forall k | 0 <= k < BLOCK
        ensures count[k] == Count(src, refs, center, strength, f + 1, k)
        ensures accumulator[k] == Sum(src, refs, center, strength, f + 1, k)
      {
        AddedIsSum(src, refs, center, strength, f, k, sums[k], counts[k]);
      }
      return;
    }
    ApplyTemporalFilter(src, refs[f].predictor, 0, 16, strength, filterWeight, accumulator, count);
    ApplyTemporalFilter(src, refs[f].predictor, 256, 8, strength, filterWeight, accumulator, count);
    ApplyTemporalFilter(src, refs[f].predictor, 320, 8, strength, filterWeight, accumulator, count);
    forall k | 0 <= k < BLOCK
      ensures count[k] == Count(src, refs, center, strength, f + 1, k)
      ensures accumulator[k] == Sum(src, refs, center, strength, f + 1, k)
    {
      AddedIsSum(src, refs, center, strength, f, k, sums[k], counts[k]);
    }
  }

  /** The 32-bit additions are the exact ones. */
  lemma AddedIsSum(
    src: seq<int>, refs: seq<Reference>, center: int, strength: int, f: nat, k: nat, sum: int, c: int)
    requires IsBlock(src) && AreReferences(refs) && f < |refs| && k < BLOCK
    requires c == Count(src, refs, center, strength, f, k) && sum == Sum(src, refs, center, strength, f, k)
    ensures var w := FrameWeight(f == center, refs[f].error);
            && AddedCount(c, src[k], refs[f].predictor[k], strength, w) == Count(src, refs, center, strength, f + 1, k)
            && AddedSum(sum, src[k], refs[f].predictor[k], strength, w) == Sum(src, refs, center, strength, f + 1, k)
            && (w == 0 ==> c == Count(src, refs, center, strength, f + 1, k) &&
                           sum == Sum(src, refs, center, strength, f + 1, k))
  {
    SumsAreBounded(src, refs, center, strength, f, k);
    var w, p := PixelWeight(src, refs, center, strength, f, k), refs[f].predictor[k];
    assert IsPixel(p);
    ProductGrows(p, 255, w);
    ProductGrows(0, p, w);
    assert p * w == w * p;
  }

  /** The macroblock at luma position (x, y): every visible pixel of the three planes becomes the quotient of its sum
      and its count over all references. */
  method ProcessMacroblock(
    luma: Plane, u: Plane, v: Plane, x: int, y: int, src: seq<int>, refs: seq<Reference>, center: int, strength: int,
    accumulator: array<int>, count: array<int>)
    requires luma.Valid() && u.Valid() && v.Valid()
    requires IsBlock(src) && AreReferences(refs)
    requires accumulator.Length == BLOCK && count.Length == BLOCK && accumulator != count
    requires luma.pixels != u.pixels && luma.pixels != v.pixels && u.pixels != v.pixels
    requires {accumulator, count} !! {luma.pixels, u.pixels, v.pixels}
    modifies accumulator, count, luma.pixels, u.pixels, v.pixels
    ensures var sums, counts := Sums(src, refs, center, strength), Counts(src, refs, center, strength);
            && Written(luma.pixels[..], old(luma.pixels[..]), luma, x, y, 16, sums, counts, 0)
            && Written(u.pixels[..], old(u.pixels[..]), u, x / 2, y / 2, 8, sums, counts, 256)
            && Written(v.pixels[..], old(v.pixels[..]), v, x / 2, y / 2, 8, sums, counts, 320)
  {
    for i := 0 to BLOCK
      modifies accumulator, count
      invariant forall k :: 0 <= k < i ==> accumulator[k] == 0 && count[k] == 0
    {
      accumulator[i] := 0;
      count[i] := 0;
    }
    for f := 0 to |refs|
      modifies accumulator, count
      invariant Accumulated(accumulator[..], count[..], src, refs, center, strength, f)
    {
      AddReference(src, refs, center, strength, f, accumulator, count);
    }
    assert accumulator[..] == Sums(src, refs, center, strength);
    assert count[..] == Counts(src, refs, center, strength);
    WriteBlock(luma.pixels, luma.stride, x, y, luma.width, luma.height, 16, accumulator, count, 0);
    WriteBlock(u.pixels, u.stride, x / 2, y / 2, u.width, u.height, 8, accumulator, count, 256);
    WriteBlock(v.pixels, v.stride, x / 2, y / 2, v.width, v.height, 8, accumulator, count, 320);
  }

  /* What the output is */

  /** The pixel of reference f takes part in pixel k. */
  predicate Contributes(src: seq<int>, refs: seq<Reference>, center: int, strength: int, f: nat, k: nat)
    requires f < |refs| && k < |src| && k < |refs[f].predictor|
  {
    0 < PixelWeight(src, refs, center, strength, f, k)
  }

  /** What a pixel that differs by d loses of its weight of 16: 3 * d * d / 2^strength to the nearest integer, ties
      upwards, as far as that is below 16. */
  predicate IsLoss(d: int, strength: int, loss: int) {
    if strength < 0 then loss == 0
    else if strength == 0 then loss == if 3 * d * d < 16 then 3 * d * d else 16
    else IsNearestLoss(3 * d * d, PowerOfTwo(strength), loss)
  }

  predicate IsNearestLoss(e: int, p: int, loss: int) {
    if 31 * p <= 2 * e then loss == 16 else 0 <= loss < 16 && -p <= 2 * (e - loss * p) < p
  }

  lemma WeightIsRounded(src: int, pred: int, strength: int)
    ensures IsLoss(src - pred, strength, 16 - Closeness(src, pred, strength))
  {
    var diff := src - pred;
    var e := 3 * diff * diff;
    assert diff * diff * 3 == e && 0 <= diff * diff;
    if strength == 0 {
      ShiftedIsQuotient(e, 0, 1);
    } else if 0 < strength {
      ShiftedLoss(e, strength, PowerOfTwo(strength - 1));
    }
  }

  lemma ShiftedLoss(e: int, strength: nat, half: int)
    requires 0 <= e && 0 < strength && half == PowerOfTwo(strength - 1)
    ensures IsNearestLoss(e, PowerOfTwo(strength), Min(Shifted(e + half, strength), 16))
  {
    var p, q := PowerOfTwo(strength), Shifted(e + half, strength);
    ShiftedIsQuotient(e + half, strength, p);
    NearestLoss(e, half, p, q);
  }

  lemma ShiftedIsQuotient(x: int, strength: nat, p: int)
    requires p == PowerOfTwo(strength)
    ensures Shifted(x, strength) == x / p
    ensures 0 < strength ==> p == 2 * PowerOfTwo(strength - 1)
  {
  }

  lemma NearestLoss(e: int, half: int, p: int, q: int)
    requires 0 <= e && 1 <= half && p == 2 * half && q == (e + half) / p
    ensures IsNearestLoss(e, p, Min(q, 16))
  {
    assert e + half == q * p + (e + half) % p;
    assert 0 <= q by {
      if q <= -1 {
        ProductGrows(q, -1, p);
      }
    }
    if 16 <= q {
      ProductGrows(16, q, p);
    } else {
      ProductGrows(q, 15, p);
    }
  }

  lemma NearestIsExact(e: int, p: int, loss1: int, loss2: int)
    requires 0 < p && IsNearestLoss(e, p, loss1) && IsNearestLoss(e, p, loss2)
    ensures loss1 == loss2
  {
    if 2 * e < 31 * p {
      assert (loss1 - loss2) * p == loss1 * p - loss2 * p;
      MultipleGap(loss1 - loss2, p, loss1 * p - loss2 * p);
    }
  }

  /** The weight w of pixel k of reference f: its closeness, doubled for the center frame and for a frame with an error
      below 10000, and nothing for one with an error of 20000 or more. */
  ghost predicate IsWeight(
    src: seq<int>, refs: seq<Reference>, center: int, strength: int, f: nat, k: nat, w: int)
    requires f < |refs| && k < |src| && k < |refs[f].predictor|
  {
    var d := src[k] - refs[f].predictor[k];
    exists loss {:trigger IsLoss(d, strength, loss)} :: IsLoss(d, strength, loss) &&
      w == if f == center || refs[f].error < 10000 then 2 * (16 - loss)
           else if refs[f].error < 20000 then 16 - loss
           else 0
  }

  lemma WeightAndLoss(src: seq<int>, refs: seq<Reference>, center: int, strength: int, f: nat, k: nat)
    returns (loss: int)
    requires f < |refs| && k < |src| && k < |refs[f].predictor|
    ensures IsLoss(src[k] - refs[f].predictor[k], strength, loss)
    ensures PixelWeight(src, refs, center, strength, f, k) ==
            if f == center || refs[f].error < 10000 then 2 * (16 - loss)
            else if refs[f].error < 20000 then 16 - loss
            else 0
  {
    WeightIsRounded(src[k], refs[f].predictor[k], strength);
    loss := 16 - Closeness(src[k], refs[f].predictor[k], strength);
  }

  /** There is always such a weight. */
  lemma PixelWeightIsWeight(src: seq<int>, refs: seq<Reference>, center: int, strength: int, f: nat, k: nat)
    requires f < |refs| && k < |src| && k < |refs[f].predictor|
    ensures IsWeight(src, refs, center, strength, f, k, PixelWeight(src, refs, center, strength, f, k))
  {
    var loss := WeightAndLoss(src, refs, center, strength, f, k);
    LossBelowSixteen(src[k] - refs[f].predictor[k], strength, loss);
  }

  /** Exactly the pixels that take part: those of the center frame and of frames with an error below 20000 whose
      difference is small for the strength. */
  lemma ContributesExactly(src: seq<int>, refs: seq<Reference>, center: int, strength: int, f: nat, k: nat)
    requires f < |refs| && k < |src| && k < |refs[f].predictor|
    ensures Contributes(src, refs, center, strength, f, k) <==>
              var d := src[k] - refs[f].predictor[k];
              && (f == center || refs[f].error < 20000)
              && (strength == 0 ==> 3 * d * d < 16)
              && (0 < strength ==> 6 * d * d < 31 * PowerOfTwo(strength))
  {
    var d := src[k] - refs[f].predictor[k];
    var loss := WeightAndLoss(src, refs, center, strength, f, k);
    LossBelowSixteen(d, strength, loss);
  }

  lemma LossBelowSixteen(d: int, strength: int, loss: int)
    requires IsLoss(d, strength, loss)
    ensures loss <= 16
    ensures loss < 16 <==>
              (strength == 0 ==> 3 * d * d < 16) && (0 < strength ==> 6 * d * d < 31 * PowerOfTwo(strength))
  {
    assert 6 * d * d == 2 * (3 * d * d);
    if 0 < strength {
      NearestBelowSixteen(3 * d * d, PowerOfTwo(strength), loss);
    }
  }

  lemma NearestBelowSixteen(e: int, p: int, loss: int)
    requires IsNearestLoss(e, p, loss)
    ensures loss <= 16 && (loss < 16 <==> 2 * e < 31 * p)
  {
  }

  /** w[0] + .. + w[n - 1]. */
  function Total(w: seq<int>, n: nat): int
    requires n <= |w|
  {
    if n == 0 then 0 else Total(w, n - 1) + w[n - 1]
  }

  /** The pixels k of the references times their weights. */
  function Products(w: seq<int>, refs: seq<Reference>, k: nat): (r: seq<int>)
    requires |w| == |refs| && AreReferences(refs) && k < BLOCK
    ensures |r| == |w| && forall f :: 0 <= f < |w| ==> r[f] == w[f] * refs[f].predictor[k]
  {
    seq(|w|, f requires 0 <= f < |w| => w[f] * refs[f].predictor[k])
  }

  lemma {:induction false} CountIsTotal(
    src: seq<int>, refs: seq<Reference>, center: int, strength: int, k: nat, w: seq<int>, n: nat)
    requires IsBlock(src) && AreReferences(refs) && k < BLOCK && |w| == |refs| && n <= |w|
    requires forall f :: 0 <= f < |refs| ==> IsWeight(src, refs, center, strength, f, k, w[f])
    ensures Count(src, refs, center, strength, n, k) == Total(w, n)
    ensures Sum(src, refs, center, strength, n, k) == Total(Products(w, refs, k), n)
  {
    if n > 0 {
      var f := n - 1;
      CountIsTotal(src, refs, center, strength, k, w, f);
      WeightIsExact(src, refs, center, strength, f, k, w[f]);
    }
  }

  lemma WeightIsExact(src: seq<int>, refs: seq<Reference>, center: int, strength: int, f: nat, k: nat, w: int)
    requires f < |refs| && k < |src| && k < |refs[f].predictor|
    requires IsWeight(src, refs, center, strength, f, k, w)
    ensures w == PixelWeight(src, refs, center, strength, f, k)
  {
    var d := src[k] - refs[f].predictor[k];
    var loss := WeightAndLoss(src, refs, center, strength, f, k);
    forall other | IsLoss(d, strength, other)
      ensures other == loss
    {
      LossIsExact(d, strength, other, loss);
    }
  }

  lemma LossIsExact(d: int, strength: int, loss1: int, loss2: int)
    requires IsLoss(d, strength, loss1) && IsLoss(d, strength, loss2)
    ensures loss1 == loss2
  {
    if 0 < strength {
      NearestIsExact(3 * d * d, PowerOfTwo(strength), loss1, loss2);
    }
  }

  /** The written value of pixel k, from the weights alone: the weighted sum plus half the total weight, times the
      reciprocal in 524288ths, or the old value where nothing contributes. */
  lemma OutputIsWeightedMean(
    src: seq<int>, refs: seq<Reference>, center: int, strength: int, k: nat, w: seq<int>)
    requires IsBlock(src) && AreReferences(refs) && k < BLOCK && |w| == |refs|
    requires forall f :: 0 <= f < |refs| ==> IsWeight(src, refs, center, strength, f, k, w[f])
    ensures var total, sum := Total(w, |w|), Total(Products(w, refs, k), |w|);
            && Counts(src, refs, center, strength)[k] == total && Sums(src, refs, center, strength)[k] == sum
            && 0 <= total
            && (0 < total ==> Normalized(sum, total) == (sum + total / 2) * (524288 / total) / 524288)
  {
    CountIsTotal(src, refs, center, strength, k, w, |w|);
    SumsAreBounded(src, refs, center, strength, |refs|, k);
    if 0 < Total(w, |w|) {
      NormalizedIsTable(Total(Products(w, refs, k), |w|), Total(w, |w|));
    }
  }

  /** The pixel of a plane at (row, col), given where the block lies: inside the block and the plane it becomes the
      quotient of its own entry, where that has anything accumulated; every other one keeps its value. */
  lemma WrittenByPosition(
    after: seq<int>, before: seq<int>, p: Plane, x: int, y: int, size: nat, sums: seq<int>, counts: seq<int>,
    base: nat, row: nat, col: nat)
    requires p.Valid() && base + size * size <= |sums| == |counts|
    requires Written(after, before, p, x, y, size, sums, counts, base)
    requires col < p.stride && row * p.stride + col < |before|
    ensures |after| == |before|
    ensures var t, i, j := row * p.stride + col, col - x, row - y;
            if 0 <= i < size && 0 <= j < size && row < p.height && col < p.width && t - col + p.width <= |before|
            then 0 <= base + size * j + i < |counts| &&
                 after[t] == if 0 < counts[base + size * j + i]
                             then Normalized(sums[base + size * j + i], counts[base + size * j + i])
                             else before[t]
            else after[t] == before[t]
  {
    UniqueRemainder(row * p.stride + col, p.stride, row, col);
    var i, j := col - x, row - y;
    if 0 <= i < size && 0 <= j < size {
      EntryFits(j, i, size);
      assert size * j == j * size;
    }
  }

  /** The weighted sum lies between the extremes of the contributing pixels. */
  lemma {:induction false} SumIsBetween(
    src: seq<int>, refs: seq<Reference>, center: int, strength: int, n: nat, k: nat, lo: int, hi: int)
    requires IsBlock(src) && AreReferences(refs) && n <= |refs| && k < BLOCK
    requires forall f :: 0 <= f < n && Contributes(src, refs, center, strength, f, k) ==>
               lo <= refs[f].predictor[k] <= hi
    ensures var c := Count(src, refs, center, strength, n, k);
            lo * c <= Sum(src, refs, center, strength, n, k) <= hi * c
  {
    if n > 0 {
      SumIsBetween(src, refs, center, strength, n - 1, k, lo, hi);
      var f := n - 1;
      var c, w, p := Count(src, refs, center, strength, f, k), PixelWeight(src, refs, center, strength, f, k),
                     refs[f].predictor[k];
      assert 0 < w ==> Contributes(src, refs, center, strength, f, k);
      WeightedBetween(Sum(src, refs, center, strength, f, k), c, w, p, lo, hi);
    }
  }

  lemma WeightedBetween(s: int, c: int, w: int, p: int, lo: int, hi: int)
    requires 0 <= w && lo * c <= s <= hi * c && (0 < w ==> lo <= p <= hi)
    ensures lo * (c + w) <= s + w * p <= hi * (c + w)
  {
    assert lo * (c + w) == lo * c + lo * w && hi * (c + w) == hi * c + hi * w;
    assert w * p == p * w;
    if 0 < w {
      ProductGrows(lo, p, w);
      ProductGrows(p, hi, w);
    } else {
      assert w == 0;
    }
  }

  /** The table's error: the reciprocal is short by less than c parts. */
  lemma ReciprocalError(c: int)
    requires 1 <= c < TABLE_SIZE
    ensures RECIPROCAL_ONE - c < c * FixedDivide(c) <= RECIPROCAL_ONE
  {
    assert RECIPROCAL_ONE == RECIPROCAL_ONE / c * c + RECIPROCAL_ONE % c;
    assert FixedDivide(c) * c == c * FixedDivide(c);
  }

  /** Dividing through the table stays below the rounded quotient's numerator and loses less than one unit. */
  lemma TableQuotient(x: int, c: int)
    requires 1 <= c <= 480 && 0 <= x < RECIPROCAL_ONE
    ensures var q, v := x / c, x * FixedDivide(c) / RECIPROCAL_ONE; v == q || v == q - 1
    ensures 0 <= x * FixedDivide(c) <= x * RECIPROCAL_ONE
  {
    var r, q := FixedDivide(c), x / c;
    ReciprocalError(c);
    assert x == q * c + x % c && 0 <= q;
    ProductGrows(0, r, x);
    assert 0 <= x * r by { assert x * r == r * x; }
    assert x * r <= x * RECIPROCAL_ONE by {
      ScaleAtLeast(r, c);
      assert r * c == c * r;
      ProductGrows(r, RECIPROCAL_ONE, x);
      assert r * x == x * r && RECIPROCAL_ONE * x == x * RECIPROCAL_ONE;
    }
    TableUpper(x, c, r, q);
    TableLower(x, c, r, q);
    QuotientBounds(x * r, RECIPROCAL_ONE, q);
  }

  lemma TableUpper(x: int, c: int, r: int, q: int)
    requires 1 <= c && 0 <= q && c * r <= RECIPROCAL_ONE && 0 <= r && q * c <= x < q * c + c
    ensures x * r < (q + 1) * RECIPROCAL_ONE
  {
    ProductGrows(x, q * c + c - 1, r);
    assert (q * c + c - 1) * r == (q + 1) * (c * r) - r;
    ProductGrows(c * r, RECIPROCAL_ONE, q + 1);
    assert (q + 1) * (c * r) == (c * r) * (q + 1) && (q + 1) * RECIPROCAL_ONE == RECIPROCAL_ONE * (q + 1);
    if r == 0 {
      assert x * r == 0;
    }
  }

  lemma TableLower(x: int, c: int, r: int, q: int)
    requires 1 <= c && 0 <= q && RECIPROCAL_ONE - c < c * r && 0 <= r && q * c <= x < RECIPROCAL_ONE
    ensures (q - 1) * RECIPROCAL_ONE <= x * r
  {
    ProductGrows(q * c, x, r);
    assert (q * c) * r == q * (c * r);
    ProductGrows(RECIPROCAL_ONE - c, c * r, q);
    assert q * (c * r) == (c * r) * q;
    assert (RECIPROCAL_ONE - c) * q == RECIPROCAL_ONE * q - q * c;
  }

  lemma QuotientBounds(x: int, d: int, q: int)
    requires 0 < d && (q - 1) * d <= x < (q + 1) * d && 0 <= x
    ensures x / d == q || x / d == q - 1
  {
    var k := x / d;
    assert x == k * d + x % d;
    assert (k + 1) * d == k * d + d;
    if k >= q + 1 {
      ProductGrows(q + 1, k, d);
    } else if k < q - 1 {
      ProductGrows(k + 1, q - 1, d);
    }
  }

  /** For every macroblock, frame window and strength: nothing wraps in 32 bits, and a pixel with anything accumulated
      becomes the rounded true quotient or one less. */
  lemma OutputIsRoundedQuotient(src: seq<int>, refs: seq<Reference>, center: int, strength: int, k: nat)
    requires IsBlock(src) && AreReferences(refs) && k < BLOCK
    requires 0 < Count(src, refs, center, strength, |refs|, k)
    ensures var c, sum := Count(src, refs, center, strength, |refs|, k), Sum(src, refs, center, strength, |refs|, k);
            var q := (sum + c / 2) / c;
            && c < TABLE_SIZE && 0 <= (sum + c / 2) * FixedDivide(c) < TWO_TO_THE_32
            && IsPixel(q) && -c <= 2 * (sum - q * c) <= c
            && (Normalized(sum, c) == q || Normalized(sum, c) == q - 1)
  {
    var c, sum := Count(src, refs, center, strength, |refs|, k), Sum(src, refs, center, strength, |refs|, k);
    SumsAreBounded(src, refs, center, strength, |refs|, k);
    var x := sum + c / 2;
    TableQuotient(x, c);
    ProductBelow32Bits(x, c);
    RoundedQuotient(sum, c);
    NormalizedIsTable(sum, c);
  }

  lemma ProductBelow32Bits(x: int, c: int)
    requires 1 <= c <= 480 && 0 <= x <= 255 * c + c / 2
    ensures x * FixedDivide(c) < TWO_TO_THE_32
  {
    var r := FixedDivide(c);
    ReciprocalError(c);
    assert 0 <= r;
    ProductGrows(x, 256 * c, r);
    assert (256 * c) * r == 256 * (c * r);
  }

  lemma RoundedQuotient(sum: int, c: int)
    requires 1 <= c && 0 <= sum <= 255 * c
    ensures var q := (sum + c / 2) / c; 0 <= q <= 255 && -c <= 2 * (sum - q * c) <= c
  {
    var x := sum + c / 2;
    var q := x / c;
    assert x == q * c + x % c;
    assert 0 <= q;
    if q >= 256 {
      ProductGrows(256, q, c);
    }
  }

  /** Below 512, with a product inside 32 bits and a quotient that is a pixel, the output is the table's quotient. */
  lemma NormalizedIsTable(sum: int, c: int)
    requires 1 <= c <= 480 && 0 <= sum <= 255 * c
    ensures Normalized(sum, c) == (sum + c / 2) * FixedDivide(c) / RECIPROCAL_ONE
  {
    var x := sum + c / 2;
    ProductBelow32Bits(x, c);
    TableQuotient(x, c);
    RoundedQuotient(sum, c);
    assert 0 <= x * FixedDivide(c) / RECIPROCAL_ONE;
  }

  /** The output lies between the smallest and the largest contributing pixel: in particular an input that does not
      change over time is reproduced exactly. */
  lemma OutputIsBetween(
    src: seq<int>, refs: seq<Reference>, center: int, strength: int, k: nat, lo: int, hi: int)
    requires IsBlock(src) && AreReferences(refs) && k < BLOCK && IsPixel(lo) && IsPixel(hi)
    requires 0 < Count(src, refs, center, strength, |refs|, k)
    requires forall f :: 0 <= f < |refs| && Contributes(src, refs, center, strength, f, k) ==>
               lo <= refs[f].predictor[k] <= hi
    ensures lo <= Normalized(Sum(src, refs, center, strength, |refs|, k),
                             Count(src, refs, center, strength, |refs|, k)) <= hi
  {
    var c, sum := Count(src, refs, center, strength, |refs|, k), Sum(src, refs, center, strength, |refs|, k);
    SumsAreBounded(src, refs, center, strength, |refs|, k);
    SumIsBetween(src, refs, center, strength, |refs|, k, lo, hi);
    NormalizedIsTable(sum, c);
    QuotientAtLeast(sum, c, lo);
    QuotientAtMost(sum, c, hi);
  }

  /** The half added before dividing outweighs what the truncated reciprocal loses. */
  lemma QuotientAtLeast(sum: int, c: int, lo: int)
    requires 1 <= c <= 480 && 0 <= lo <= 255 && lo * c <= sum
    ensures lo <= (sum + c / 2) * FixedDivide(c) / RECIPROCAL_ONE
  {
    var r, half := FixedDivide(c), c / 2;
    ReciprocalError(c);
    assert 0 <= r;
    ProductGrows(lo * c + half, sum + half, r);
    assert (lo * c + half) * r == lo * (c * r) + half * r;
    HalfOutweighsError(c, r, half, lo);
    assert lo * RECIPROCAL_ONE <= (sum + half) * r;
    QuotientKeepsMultiple((sum + half) * r, RECIPROCAL_ONE, lo);
  }

  lemma HalfOutweighsError(c: int, r: int, half: int, lo: int)
    requires 1 <= c <= 480 && half == c / 2 && r == FixedDivide(c) && 0 <= lo <= 255
    ensures lo * RECIPROCAL_ONE <= lo * (c * r) + half * r
  {
    ReciprocalError(c);
    var error := RECIPROCAL_ONE - c * r;
    assert lo * RECIPROCAL_ONE == lo * (c * r) + lo * error;
    ProductGrows(lo, 255, error);
    if c == 1 {
      assert error == 0;
    } else {
      assert 0 <= r;
      ProductGrows(c, 3 * half, r);
      assert (3 * half) * r == 3 * (half * r);
    }
  }

  lemma QuotientKeepsMultiple(x: int, d: int, m: int)
    requires 0 < d && m * d <= x
    ensures m <= x / d
  {
    var k := x / d;
    assert x == k * d + x % d;
    assert (k + 1) * d == k * d + d;
    if k < m {
      ProductGrows(k + 1, m, d);
    }
  }

  lemma QuotientAtMost(sum: int, c: int, hi: int)
    requires 1 <= c <= 480 && 0 <= hi <= 255 && 0 <= sum <= hi * c
    ensures (sum + c / 2) * FixedDivide(c) / RECIPROCAL_ONE <= hi
  {
    var x := sum + c / 2;
    TableQuotient(x, c) by {
      ProductGrows(hi, 255, c);
    }
    var q := x / c;
    assert x == q * c + x % c;
    assert (hi + 1) * c == hi * c + c;
    if q > hi {
      ProductGrows(hi + 1, q, c);
    }
  }

  /** A center frame that matches its source contributes with the full weight, so its pixels are always written. */
  lemma CenterAlwaysContributes(src: seq<int>, refs: seq<Reference>, center: int, strength: int, k: nat)
    requires IsBlock(src) && AreReferences(refs) && k < BLOCK
    requires 0 <= center < |refs| && refs[center].predictor[k] == src[k]
    ensures 32 <= Count(src, refs, center, strength, |refs|, k)
  {
    MatchingPixelWeighs(src, refs, center, strength, k);
    CountGrows(src, refs, center, strength, center + 1, |refs|, k);
    SumsAreBounded(src, refs, center, strength, center, k);
  }

  lemma MatchingPixelWeighs(src: seq<int>, refs: seq<Reference>, center: int, strength: int, k: nat)
    requires 0 <= center < |refs| && k < |src| && k < |refs[center].predictor|
    requires refs[center].predictor[k] == src[k]
    ensures PixelWeight(src, refs, center, strength, center, k) == 32
  {
    HalfRoundsAway(strength);
    assert Closeness(src[k], src[k], strength) == 16;
  }

  lemma HalfRoundsAway(strength: int)
    ensures Shifted(Rounding(strength), strength) == 0
  {
    if strength > 0 {
      assert PowerOfTwo(strength) == 2 * PowerOfTwo(strength - 1);
      UniqueRemainder(PowerOfTwo(strength - 1), PowerOfTwo(strength), 0, PowerOfTwo(strength - 1));
    }
  }

  lemma {:induction false} CountGrows(
    src: seq<int>, refs: seq<Reference>, center: int, strength: int, m: nat, n: nat, k: nat)
    requires IsBlock(src) && AreReferences(refs) && m <= n <= |refs| && k < BLOCK
    ensures Count(src, refs, center, strength, m, k) <= Count(src, refs, center, strength, n, k)
    decreases n
  {
    if m < n {
      CountGrows(src, refs, center, strength, m, n - 1, k);
    }
  }
}
