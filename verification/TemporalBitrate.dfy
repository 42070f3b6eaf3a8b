/** Bit-budget conservation: the per-frame targets announced over one layer period add up to the configured rate. */
module TemporalBitrate {
  import opened Arith
  import opened Wrappers
  import opened TemporalPattern
  import opened Temporal
  import opened TemporalHistory

  /* Counting the slots of a layer */

  /** How many i < n are multiples of d. */
  function MultiplesBelow(d: int, n: nat): nat
    requires 0 < d
  {
    if n == 0 then 0 else MultiplesBelow(d, n - 1) + (if (n - 1) % d == 0 then 1 else 0)
  }

  lemma {:induction false} MultiplesBelowIsCeiling(d: int, n: nat)
    requires 0 < d
    ensures n <= MultiplesBelow(d, n) * d < n + d
  {
    if n > 0 {
      MultiplesBelowIsCeiling(d, n - 1);
      CeilingStep(d, n - 1, MultiplesBelow(d, n - 1));
    }
  }

  lemma CeilingStep(d: int, n: nat, c: nat)
    requires 0 < d && n <= c * d < n + d
    ensures n % d == 0 ==> n + 1 <= (c + 1) * d < n + 1 + d
    ensures n % d != 0 ==> n + 1 <= c * d < n + 1 + d
  {
    assert (c + 1) * d == c * d + d;
    if n % d == 0 {
      MultipleInRange(d, n, c);
    } else if c * d == n {
      UniqueRemainder(n, d, c, 0);
    }
  }

  lemma MultiplesBelowMultiple(d: int, n: nat)
    requires 0 < d && n % d == 0
    ensures MultiplesBelow(d, n) * d == n
  {
    MultiplesBelowIsCeiling(d, n);
    MultipleInRange(d, n, MultiplesBelow(d, n));
  }

  lemma MultipleInRange(d: int, n: nat, c: nat)
    requires 0 < d && n % d == 0 && n <= c * d < n + d
    ensures c * d == n
  {
    var q := n / d;
    assert n == q * d;
    assert (c - q) * d == c * d - q * d;
    MultipleGap(c - q, d, c * d - n);
  }

  /** How many of the first n slots have layer at most j. */
  function SlotsUpTo(p: Pattern, j: int, n: nat): nat
    requires n <= |p.layerID|
  {
    if n == 0 then 0 else SlotsUpTo(p, j, n - 1) + (if p.layerID[n - 1] <= j then 1 else 0)
  }

  lemma {:induction false} SlotsAreMultiples(p: Pattern, j: nat, n: nat)
    requires FollowsDecimators(p) && j < p.layers && n <= p.periodicity
    ensures SlotsUpTo(p, j, n) == MultiplesBelow(p.rateDecimator[j], n)
  {
    if n > 0 {
      SlotsAreMultiples(p, j, n - 1);
    }
  }

  /** Layer j's cumulative stream has Periodicity / RateDecimator[j] frames in one period. */
  lemma SlotsPerPeriod(p: Pattern, j: nat)
    requires FollowsDecimators(p) && j < p.layers
    ensures SlotsUpTo(p, j, p.periodicity) * p.rateDecimator[j] == p.periodicity
  {
    SlotsAreMultiples(p, j, p.periodicity);
    MultiplesBelowMultiple(p.rateDecimator[j], p.periodicity);
  }

  /* The announced target of one layer */

  /** Positive timing whose products stay inside 64 bits. */
  ghost predicate Affordable(totalKbps: int, p: Pattern, timing: Timing) {
    && 0 < timing.timebaseNum && 0 < timing.timebaseDen && 0 < timing.frameDuration
    && 0 <= totalKbps
    && 1000 * totalKbps * (timing.timebaseNum * timing.frameDuration) * (p.periodicity * p.periodicity)
       + timing.timebaseDen * p.periodicity <= MAX_INT
  }

  /** num / den rounded to nearest, as the bound the budget argument uses. */
  ghost predicate Nearest(target: int, num: int, den: int) {
    0 <= target && -den <= 2 * (target * den - num) <= den
  }

  lemma BoundedProduct(x: int, y: int, a: int, c: int, m: int)
    requires 0 <= x <= y && 0 <= a && 0 <= c <= m
    ensures 0 <= x * a * c <= y * a * m
  {
    assert 0 <= x * a <= y * a;
    assert (x * a) * c <= (y * a) * c <= (y * a) * m;
  }

  lemma Regroup(b: int, n: int, d: int, c: int, q: int)
    ensures b * n * d * c * q == b * (n * d) * (c * q)
  {
    assert b * n * d == b * (n * d);
    assert b * (n * d) * c * q == b * (n * d) * (c * q);
  }

  /** What a layer's target rounds: its own rate over cur * prev / (prev - cur) frame intervals, the mean distance
      between its frames; the base layer's frames are cur intervals apart. */
  ghost predicate TargetsNearest(kbps: seq<int>, p: Pattern, timing: Timing, j: int)
    requires |kbps| == MAX_LAYERS && WellFormed(p) && 0 <= j < p.layers
  {
    var rate := timing.timebaseNum * timing.frameDuration;
    var target := FrameTargetBits(kbps, p, j, timing);
    var cur := p.rateDecimator[j];
    if j == 0 then Nearest(target, 1000 * kbps[0] * rate * cur, timing.timebaseDen)
    else
      var prev := p.rateDecimator[j - 1];
      Nearest(target, 1000 * (kbps[j] - kbps[j - 1]) * rate * (cur * prev), timing.timebaseDen * (prev - cur))
  }

  lemma {:induction false} SplitBelowTotal(kbps: seq<int>, layers: int, totalKbps: int, j: nat)
    requires AcceptedSplit(kbps, layers, totalKbps) && j < layers
    ensures 0 <= kbps[j] <= totalKbps
    decreases layers - j
  {
    SplitNonNegative(kbps, layers, totalKbps, j);
    if j + 1 < layers {
      SplitBelowTotal(kbps, layers, totalKbps, j + 1);
    }
  }

  lemma {:induction false} SplitNonNegative(kbps: seq<int>, layers: int, totalKbps: int, j: nat)
    requires AcceptedSplit(kbps, layers, totalKbps) && j < layers
    ensures 0 <= kbps[j]
  {
    if j > 0 {
      SplitNonNegative(kbps, layers, totalKbps, j - 1);
    }
  }

  lemma BaseTarget(base: int, num: int, den: int, dur: int, cur: int)
    requires 0 < base && 0 < num && 0 < den && 0 < dur && 0 < cur
    requires 1000 * base * (num * dur) * cur + den <= MAX_INT && IsInt(1000 * base) && IsInt(den)
    ensures Nearest(LayerBitsPerFrame(Wrap(base * 1000), Timing(num, den, dur), cur),
                    1000 * base * (num * dur) * cur, den)
  {
    var bits := 1000 * base;
    assert bits * num * dur == bits * (num * dur);
    var x := bits * (num * dur) * cur;
    assert 0 <= x by {
      BoundedProduct(bits, bits, num * dur, cur, cur);
    }
    RoundedIntIsNearest(x, den);
  }

  lemma UpperTarget(bits: int, num: int, den: int, dur: int, cur: int, prev: int)
    requires 0 < bits && 0 < num && 0 < den && 0 < dur && 0 < cur < prev
    requires bits * (num * dur) * (cur * prev) + den * (prev - cur) <= MAX_INT
    ensures Nearest(RoundedInt(Wrap(bits * num * dur * cur * prev), Wrap(den * (prev - cur))),
                    bits * (num * dur) * (cur * prev), den * (prev - cur))
  {
    Regroup(bits, num, dur, cur, prev);
    var x, y := bits * (num * dur) * (cur * prev), den * (prev - cur);
    assert 0 <= x by {
      BoundedProduct(bits, bits, num * dur, cur * prev, cur * prev);
    }
    assert 0 < y;
    RoundedIntIsNearest(x, y);
  }

  lemma DecimatorBounds(p: Pattern, j: nat)
    requires FollowsDecimators(p) && j < p.layers
    ensures 0 < p.rateDecimator[j] <= p.periodicity
    ensures 0 < j ==> p.rateDecimator[j] < p.rateDecimator[j - 1] <= p.periodicity
  {
    SlotsPerPeriod(p, j);
    DecimatorAtMostPeriod(p.rateDecimator[j], SlotsUpTo(p, j, p.periodicity), p.periodicity);
    if 0 < j {
      SlotsPerPeriod(p, j - 1);
      DecimatorAtMostPeriod(p.rateDecimator[j - 1], SlotsUpTo(p, j - 1, p.periodicity), p.periodicity);
    }
  }

  lemma DecimatorAtMostPeriod(d: int, k: int, m: int)
    requires 0 < d && 0 < m && k * d == m
    ensures d <= m
  {
    assert 0 < k;
    MultipleAtLeast(k, d);
  }

  lemma Budget(x: int, total: int, rate: int, m: int, den: int, c: int, w: int)
    requires 0 <= x <= total && 0 < rate && 0 < den && 1 <= m && 0 <= c <= m * m && 0 <= w <= m
    requires 1000 * total * rate * (m * m) + den * m <= MAX_INT
    ensures 1000 * x * rate * c + den * w <= MAX_INT
    ensures IsInt(1000 * x) && IsInt(den)
  {
    BoundedProduct(1000 * x, 1000 * total, rate, c, m * m);
    assert den * w <= den * m;
    ScaleAtLeast(den, m);
    ScaleAtLeast(1000 * total, rate);
    ScaleAtLeast(m, m);
    ScaleAtLeast(1000 * total * rate, m * m);
  }

  lemma BaseLayerTarget(kbps: seq<int>, p: Pattern, timing: Timing, totalKbps: int)
    requires FollowsDecimators(p) && AcceptedSplit(kbps, p.layers, totalKbps) && Affordable(totalKbps, p, timing)
    ensures TargetsNearest(kbps, p, timing, 0)
  {
    var num, den, dur := timing.timebaseNum, timing.timebaseDen, timing.frameDuration;
    var m, cur := p.periodicity, p.rateDecimator[0];
    SplitBelowTotal(kbps, p.layers, totalKbps, 0);
    ScaleAtLeast(m, m);
    ScaleAtLeast(num, dur);
    Budget(kbps[0], totalKbps, num * dur, m, den, cur, 1);
    if kbps[0] > 0 {
      BaseTarget(kbps[0], num, den, dur, cur);
    }
  }

  lemma UpperLayerTarget(kbps: seq<int>, p: Pattern, timing: Timing, totalKbps: int, j: nat)
    requires FollowsDecimators(p) && AcceptedSplit(kbps, p.layers, totalKbps) && Affordable(totalKbps, p, timing)
    requires 0 < j < p.layers
    ensures TargetsNearest(kbps, p, timing, j)
  {
    var num, den, dur := timing.timebaseNum, timing.timebaseDen, timing.frameDuration;
    var m, cur, prev := p.periodicity, p.rateDecimator[j], p.rateDecimator[j - 1];
    SplitBelowTotal(kbps, p.layers, totalKbps, j);
    SplitBelowTotal(kbps, p.layers, totalKbps, j - 1);
    DecimatorBounds(p, j);
    ScaleAtLeast(num, dur);
    SmallSquare(cur, prev, m);
    var own := kbps[j] - kbps[j - 1];
    Budget(own, totalKbps, num * dur, m, den, cur * prev, prev - cur);
    UpperShare(kbps, p, timing, j, own, cur, prev);
  }

  lemma SmallSquare(cur: int, prev: int, m: int)
    requires 0 < cur <= m && 0 < prev <= m
    ensures 0 <= cur * prev <= m * m
  {
    BoundedProduct(cur, m, 1, prev, m);
  }

  lemma UpperShare(kbps: seq<int>, p: Pattern, timing: Timing, j: nat, own: int, cur: int, prev: int)
    requires |kbps| == MAX_LAYERS && WellFormed(p) && 0 < j < p.layers
    requires 0 < timing.timebaseNum && 0 < timing.timebaseDen && 0 < timing.frameDuration
    requires own == kbps[j] - kbps[j - 1] >= 0
    requires cur == p.rateDecimator[j] && prev == p.rateDecimator[j - 1] && 0 < cur < prev && IsInt(1000 * own)
    requires 1000 * own * (timing.timebaseNum * timing.frameDuration) * (cur * prev)
             + timing.timebaseDen * (prev - cur) <= MAX_INT
    ensures TargetsNearest(kbps, p, timing, j)
  {
    assert LayerKbps(kbps, p.layers, j) == own;
    if own > 0 {
      UpperTarget(1000 * own, timing.timebaseNum, timing.timebaseDen, timing.frameDuration, cur, prev);
    } else {
      NothingIsNearest(1000 * own, timing.timebaseNum * timing.frameDuration, cur * prev,
                       timing.timebaseDen, prev - cur);
    }
  }

  lemma NothingIsNearest(bits: int, rate: int, span: int, den: int, gap: int)
    requires bits == 0 && 0 < den && 0 < gap
    ensures Nearest(0, bits * rate * span, den * gap)
  {
    ScaleAtLeast(den, gap);
  }

  /* One period */

  /** The target of frame n of the stream. */
  function TargetOfFrame(kbps: seq<int>, p: Pattern, timing: Timing, n: nat): int
    requires |kbps| == MAX_LAYERS && WellFormed(p)
  {
    FrameTargetBits(kbps, p, p.layerID[n % p.periodicity], timing)
  }

  /** The targets of frames from .. from + len, added up. */
  function WindowBits(kbps: seq<int>, p: Pattern, timing: Timing, from: nat, len: nat): int
    requires |kbps| == MAX_LAYERS && WellFormed(p)
  {
    if len == 0 then 0
    else WindowBits(kbps, p, timing, from, len - 1) + TargetOfFrame(kbps, p, timing, from + len - 1)
  }

  /** The targets of those of the first n slots whose layer is at most j. */
  function BitsUpTo(kbps: seq<int>, p: Pattern, timing: Timing, j: int, n: nat): int
    requires |kbps| == MAX_LAYERS && WellFormed(p) && n <= p.periodicity
  {
    if n == 0 then 0
    else BitsUpTo(kbps, p, timing, j, n - 1)
         + (if p.layerID[n - 1] <= j then FrameTargetBits(kbps, p, p.layerID[n - 1], timing) else 0)
  }

  lemma {:induction false} BitsOfLayer(kbps: seq<int>, p: Pattern, timing: Timing, j: int, n: nat)
    requires |kbps| == MAX_LAYERS && WellFormed(p) && n <= p.periodicity
    ensures BitsUpTo(kbps, p, timing, j, n) ==
            BitsUpTo(kbps, p, timing, j - 1, n)
            + (SlotsUpTo(p, j, n) - SlotsUpTo(p, j - 1, n)) * FrameTargetBits(kbps, p, j, timing)
  {
    if n > 0 {
      BitsOfLayer(kbps, p, timing, j, n - 1);
      var k, target := SlotsUpTo(p, j, n - 1) - SlotsUpTo(p, j - 1, n - 1), FrameTargetBits(kbps, p, j, timing);
      assert (k + 1) * target == k * target + target;
    }
  }

  lemma {:induction false} NothingBelowBase(kbps: seq<int>, p: Pattern, timing: Timing, n: nat)
    requires |kbps| == MAX_LAYERS && WellFormed(p) && n <= p.periodicity
    ensures BitsUpTo(kbps, p, timing, -1, n) == 0 && SlotsUpTo(p, -1, n) == 0
  {
    if n > 0 {
      NothingBelowBase(kbps, p, timing, n - 1);
    }
  }

  /** `count` frames of one layer, each rounded, spend that layer's rate over m intervals up to half a bit each. */
  lemma LayerShare(target: int, own: int, rate: int, den: int, count: int, m: int, cur: int, prev: int)
    requires 0 < cur < prev && 0 < den && 0 <= count && count * (cur * prev) == m * (prev - cur)
    requires Nearest(target, own * rate * (cur * prev), den * (prev - cur))
    ensures -(count * den) <= 2 * (count * target * den - own * rate * m) <= count * den
  {
    var gap := prev - cur;
    var e := target * (den * gap) - own * rate * (cur * prev);
    var x := count * target * den - own * rate * m;
    BoundedMultiple(count, 2 * e, den * gap);
    CountedError(target, own * rate, den, count, m, cur * prev, gap);
    assert count * (2 * e) == 2 * (count * e);
    assert gap * (2 * x) == 2 * (gap * x);
    assert count * (den * gap) == gap * (count * den);
    CancelBound(gap, 2 * x, count * den);
  }

  lemma CountedError(target: int, earned: int, den: int, count: int, m: int, span: int, gap: int)
    requires count * span == m * gap
    ensures count * (target * (den * gap) - earned * span) == gap * (count * target * den - earned * m)
  {
    assert count * (target * (den * gap)) == gap * (count * target * den) by {
      assert target * (den * gap) == gap * (target * den);
      assert count * (gap * (target * den)) == gap * (count * (target * den));
      assert count * target * den == count * (target * den);
    }
    assert count * (earned * span) == earned * (count * span);
    assert earned * (m * gap) == gap * (earned * m);
    assert count * (target * (den * gap) - earned * span) == count * (target * (den * gap)) - count * (earned * span);
    assert gap * (count * target * den - earned * m) == gap * (count * target * den) - gap * (earned * m);
  }

  lemma BoundedMultiple(k: int, x: int, b: int)
    requires 0 <= k && -b <= x <= b
    ensures -(k * b) <= k * x <= k * b
  {
    assert k * (b - x) >= 0 && k * (x + b) >= 0;
  }

  lemma CancelBound(g: int, x: int, b: int)
    requires 0 < g && -(g * b) <= g * x <= g * b
    ensures -b <= x <= b
  {
    assert g * -x == -(g * x);
    if x > b {
      ScaleStrictly(g, b, x);
    } else if x < -b {
      ScaleStrictly(g, b, -x);
    }
  }

  lemma ScaleStrictly(g: int, x: int, y: int)
    requires 0 < g && x < y
    ensures g * x < g * y
  {
    assert g * (y - x) > 0;
  }

  /** `bits` is what kbps earns over `period` frame intervals, up to half a bit for each of `frames` frames. */
  ghost predicate Spends(bits: int, kbps: int, timing: Timing, period: int, frames: int) {
    var spent := bits * timing.timebaseDen;
    var earned := 1000 * kbps * (timing.timebaseNum * timing.frameDuration) * period;
    -(frames * timing.timebaseDen) <= 2 * (spent - earned) <= frames * timing.timebaseDen
  }

  /** The first j layers together: their slots of one period spend kbps[j]. */
  ghost predicate PeriodBudget(kbps: seq<int>, p: Pattern, timing: Timing, j: int)
    requires |kbps| == MAX_LAYERS && WellFormed(p) && 0 <= j < p.layers
  {
    Spends(BitsUpTo(kbps, p, timing, j, p.periodicity), kbps[j], timing, p.periodicity, SlotsUpTo(p, j, p.periodicity))
  }

  lemma BaseSpendsItsRate(kbps: seq<int>, p: Pattern, timing: Timing, totalKbps: int)
    requires FollowsDecimators(p) && AcceptedSplit(kbps, p.layers, totalKbps) && Affordable(totalKbps, p, timing)
    ensures PeriodBudget(kbps, p, timing, 0)
  {
    var m := p.periodicity;
    BaseLayerTarget(kbps, p, timing, totalKbps);
    BitsOfLayer(kbps, p, timing, 0, m);
    NothingBelowBase(kbps, p, timing, m);
    SlotsPerPeriod(p, 0);
    BaseShare(FrameTargetBits(kbps, p, 0, timing), 1000 * kbps[0], timing.timebaseNum * timing.frameDuration,
              timing.timebaseDen, SlotsUpTo(p, 0, m), m, p.rateDecimator[0]);
  }

  lemma UpperSpendsItsRate(kbps: seq<int>, p: Pattern, timing: Timing, totalKbps: int, j: nat)
    requires FollowsDecimators(p) && AcceptedSplit(kbps, p.layers, totalKbps) && Affordable(totalKbps, p, timing)
    requires 0 < j < p.layers && PeriodBudget(kbps, p, timing, j - 1)
    ensures PeriodBudget(kbps, p, timing, j)
  {
    var m, den, rate := p.periodicity, timing.timebaseDen, timing.timebaseNum * timing.frameDuration;
    var target, own := FrameTargetBits(kbps, p, j, timing), 1000 * (kbps[j] - kbps[j - 1]);
    var frames, fewer := SlotsUpTo(p, j, m), SlotsUpTo(p, j - 1, m);
    var cur, prev := p.rateDecimator[j], p.rateDecimator[j - 1];
    UpperLayerTarget(kbps, p, timing, totalKbps, j);
    BitsOfLayer(kbps, p, timing, j, m);
    SlotsPerPeriod(p, j);
    SlotsPerPeriod(p, j - 1);
    SlotsGap(frames, fewer, m, cur, prev);
    LayerShare(target, own, rate, den, frames - fewer, m, cur, prev);
    AddShares(BitsUpTo(kbps, p, timing, j - 1, m), 1000 * kbps[j - 1], fewer, target, own, frames - fewer, rate, den,
              m);
  }

  lemma {:induction false} LayersSpendTheirRate(kbps: seq<int>, p: Pattern, timing: Timing, totalKbps: int, j: nat)
    requires FollowsDecimators(p) && AcceptedSplit(kbps, p.layers, totalKbps)
    requires Affordable(totalKbps, p, timing) && j < p.layers
    ensures PeriodBudget(kbps, p, timing, j)
  {
    if j == 0 {
      BaseSpendsItsRate(kbps, p, timing, totalKbps);
    } else {
      LayersSpendTheirRate(kbps, p, timing, totalKbps, j - 1);
      UpperSpendsItsRate(kbps, p, timing, totalKbps, j);
    }
  }

  /** The lower layers' share and this layer's add up. */
  lemma AddShares(bits: int, below: int, fewer: int, target: int, own: int, count: int, rate: int, den: int, m: int)
    requires -(fewer * den) <= 2 * (bits * den - below * rate * m) <= fewer * den
    requires -(count * den) <= 2 * (count * target * den - own * rate * m) <= count * den
    ensures var error := (bits + count * target) * den - (below + own) * rate * m;
            -((fewer + count) * den) <= 2 * error <= (fewer + count) * den
  {
    assert (bits + count * target) * den == bits * den + count * target * den;
    assert (below + own) * rate * m == below * rate * m + own * rate * m by {
      assert (below + own) * rate == below * rate + own * rate;
    }
    assert (fewer + count) * den == fewer * den + count * den;
  }

  lemma BaseShare(target: int, base: int, rate: int, den: int, frames: int, m: int, cur: int)
    requires 0 <= frames && frames * cur == m && Nearest(target, base * rate * cur, den)
    ensures -(frames * den) <= 2 * (frames * target * den - base * rate * m) <= frames * den
  {
    var e := target * den - base * rate * cur;
    BoundedMultiple(frames, 2 * e, den);
    assert frames * (2 * e) == 2 * (frames * target * den - base * rate * m) by {
      assert frames * (target * den) == frames * target * den;
      assert frames * (base * rate * cur) == base * rate * (frames * cur);
      assert frames * e == frames * (target * den) - frames * (base * rate * cur);
      assert frames * (2 * e) == 2 * (frames * e);
    }
  }

  lemma ShorterGapsMoreFrames(frames: int, fewer: int, m: int, cur: int, prev: int)
    requires 0 < cur < prev && frames * cur == m && fewer * prev == m && 0 < m
    ensures fewer <= frames
  {
    assert 0 < fewer;
    ScaleStrictly(fewer, cur, prev);
    if frames < fewer {
      ScaleStrictly(cur, frames, fewer);
    }
  }

  lemma SlotsGap(frames: int, fewer: int, m: int, cur: int, prev: int)
    requires 0 < cur < prev && frames * cur == m && fewer * prev == m && 0 < m
    ensures fewer <= frames
    ensures (frames - fewer) * (cur * prev) == m * (prev - cur)
  {
    ShorterGapsMoreFrames(frames, fewer, m, cur, prev);
    assert frames * (cur * prev) == (frames * cur) * prev;
    assert fewer * (cur * prev) == (fewer * prev) * cur;
    assert (frames - fewer) * (cur * prev) == frames * (cur * prev) - fewer * (cur * prev);
    assert m * (prev - cur) == m * prev - m * cur;
  }

  /* Any window */

  lemma NextRemainder(n: nat, m: int)
    requires 0 < m
    ensures (n + m) % m == n % m
  {
    UniqueRemainder(n + m, m, n / m + 1, n % m) by {
      assert n == (n / m) * m + n % m;
      assert (n / m + 1) * m == (n / m) * m + m;
    }
  }

  lemma {:induction false} WindowDropsFirst(kbps: seq<int>, p: Pattern, timing: Timing, from: nat, len: nat)
    requires |kbps| == MAX_LAYERS && WellFormed(p) && 0 < len
    ensures WindowBits(kbps, p, timing, from, len) ==
            TargetOfFrame(kbps, p, timing, from) + WindowBits(kbps, p, timing, from + 1, len - 1)
  {
    if len > 1 {
      WindowDropsFirst(kbps, p, timing, from, len - 1);
    }
  }

  /** Sliding a window of one period by a frame swaps a slot for itself. */
  lemma {:induction false} WindowSlides(kbps: seq<int>, p: Pattern, timing: Timing, from: nat)
    requires |kbps| == MAX_LAYERS && WellFormed(p)
    ensures WindowBits(kbps, p, timing, from, p.periodicity) == WindowBits(kbps, p, timing, 0, p.periodicity)
  {
    if from > 0 {
      var n, m := from - 1, p.periodicity;
      WindowSlides(kbps, p, timing, n);
      WindowDropsFirst(kbps, p, timing, n, m);
      NextRemainder(n, m);
      assert TargetOfFrame(kbps, p, timing, n + m) == TargetOfFrame(kbps, p, timing, n);
      assert WindowBits(kbps, p, timing, n + 1, m) ==
             WindowBits(kbps, p, timing, n + 1, m - 1) + TargetOfFrame(kbps, p, timing, n + m);
    }
  }

  lemma {:induction false} FirstWindow(kbps: seq<int>, p: Pattern, timing: Timing, n: nat)
    requires |kbps| == MAX_LAYERS && WellFormed(p) && n <= p.periodicity
    ensures WindowBits(kbps, p, timing, 0, n) == BitsUpTo(kbps, p, timing, p.layers - 1, n)
  {
    if n > 0 {
      FirstWindow(kbps, p, timing, n - 1);
      SmallRemainder(n - 1, p.periodicity);
    }
  }

  /** Any Periodicity consecutive frames, aligned or not, are together given the total rate over their duration, up to
      half a bit per frame. */
  lemma WindowConservesBudget(kbps: seq<int>, p: Pattern, timing: Timing, totalKbps: int, from: nat)
    requires FollowsDecimators(p) && AcceptedSplit(kbps, p.layers, totalKbps) && Affordable(totalKbps, p, timing)
    ensures Spends(WindowBits(kbps, p, timing, from, p.periodicity), totalKbps, timing, p.periodicity, p.periodicity)
  {
    WindowSlides(kbps, p, timing, from);
    FirstWindow(kbps, p, timing, p.periodicity);
    LayersSpendTheirRate(kbps, p, timing, totalKbps, p.layers - 1);
    AllSlots(p);
  }

  lemma AllSlots(p: Pattern)
    requires FollowsDecimators(p)
    ensures SlotsUpTo(p, p.layers - 1, p.periodicity) == p.periodicity
  {
    SlotsPerPeriod(p, p.layers - 1);
  }

  /* The same along a run of the scheduler */

  /** The targets nextFrame announced before frames from .. from + len of a run. */
  ghost function AnnouncedBits(states: seq<Schedule>, timing: Timing, from: nat, len: nat): int
    requires from + len <= |states|
    requires forall m :: from <= m < from + len ==> states[m].Valid()
  {
    if len == 0 then 0
    else AnnouncedBits(states, timing, from, len - 1) + states[from + len - 1].NextFrame(timing).frameTargetBits
  }

  /** A run with no layer override, starting at a state without one. */
  ghost predicate IsPatternRun(states: seq<Schedule>, events: seq<Event>, buffers: BufferConfig) {
    && IsRun(states, events, buffers)
    && states[0].Valid() && states[0].layerIDOverride == -1
    && (forall n :: 0 <= n < |events| ==> events[n].pin == -1)
  }

  lemma PatternRunStep(s: Schedule, event: Event, buffers: BufferConfig, s': Schedule)
    requires Follows(s, event, buffers, s') && event.pin == -1
    ensures s'.Valid() && s'.layerIDOverride == -1 && s'.mode == s.mode && s'.pattern == s.pattern && s'.kbps == s.kbps
    ensures s'.frameIndex == (s.frameIndex + 1) % TWO_TO_THE_64
  {
  }

  /** n frames after frame m the index has moved on by n, around the 64-bit counter. */
  lemma {:induction false} PatternRunIndex(
    states: seq<Schedule>, events: seq<Event>, buffers: BufferConfig, m: nat, n: nat)
    requires IsPatternRun(states, events, buffers) && m + n < |states|
    requires PlainState(states[0], states[m])
    ensures PlainState(states[0], states[m + n])
    ensures states[m + n].frameIndex == (states[m].frameIndex + n) % TWO_TO_THE_64
    decreases n
  {
    if n > 0 {
      var k := m + n - 1;
      PatternRunIndex(states, events, buffers, m, n - 1);
      assert events[k].pin == -1;
      PatternRunStep(states[k], events[k], buffers, states[k + 1]);
      NextIndexWraps(states[m].frameIndex, n);
    }
  }

  lemma NextIndexWraps(x: nat, n: nat)
    requires 0 < n
    ensures ((x + (n - 1)) % TWO_TO_THE_64 + 1) % TWO_TO_THE_64 == (x + n) % TWO_TO_THE_64
  {
  }

  /** A state of the run that starts at s0. */
  ghost predicate PlainState(s0: Schedule, s: Schedule) {
    s.Valid() && s.layerIDOverride == -1 && s.mode == s0.mode && s.pattern == s0.pattern && s.kbps == s0.kbps
  }

  lemma AnnouncedTarget(s: Schedule, timing: Timing)
    requires s.Valid() && s.layerIDOverride == -1
    ensures s.NextFrame(timing).frameTargetBits == TargetOfFrame(s.kbps, s.pattern, timing, s.frameIndex)
  {
  }

  /** The wrap of the frame index keeps the slot, where there is none or the period divides it. */
  lemma WrappedSlot(x: nat, period: nat)
    requires 0 < period && (x < TWO_TO_THE_64 || TWO_TO_THE_64 % period == 0)
    ensures (x % TWO_TO_THE_64) % period == x % period
  {
    if TWO_TO_THE_64 <= x {
      var q := TWO_TO_THE_64 / period;
      assert TWO_TO_THE_64 == q * period;
      RemainderOfRemainder(x, q, period);
    } else {
      SmallRemainder(x, TWO_TO_THE_64);
    }
  }

  /** Frame from + n of the run announces the target of frame index + n of an endless stream. */
  ghost predicate Announces(
    states: seq<Schedule>, timing: Timing, kbps: seq<int>, p: Pattern, from: nat, index: nat, n: nat)
    requires from + n < |states|
  {
    && states[from + n].Valid() && |kbps| == MAX_LAYERS && WellFormed(p)
    && states[from + n].NextFrame(timing).frameTargetBits == TargetOfFrame(kbps, p, timing, index + n)
  }

  lemma AnnouncedFrame(
    states: seq<Schedule>, events: seq<Event>, buffers: BufferConfig, timing: Timing, from: nat, n: nat)
    requires IsPatternRun(states, events, buffers) && from + n < |states|
    requires var x := states[from].frameIndex + n;
             0 <= x && (x < TWO_TO_THE_64 ||
                        (0 < states[0].pattern.periodicity && TWO_TO_THE_64 % states[0].pattern.periodicity == 0))
    ensures states[0].Valid() && 0 <= states[from].frameIndex
    ensures Announces(states, timing, states[0].kbps, states[0].pattern, from, states[from].frameIndex, n)
  {
    PatternRunIndex(states, events, buffers, 0, from);
    PatternRunIndex(states, events, buffers, from, n);
    AnnouncedTarget(states[from + n], timing);
    WrappedSlot(states[from].frameIndex + n, states[0].pattern.periodicity);
  }

  lemma {:induction false} AnnouncedIsWindow(
    states: seq<Schedule>, timing: Timing, kbps: seq<int>, p: Pattern, from: nat, index: nat, len: nat)
    requires |kbps| == MAX_LAYERS && WellFormed(p) && from + len <= |states|
    requires forall n :: 0 <= n < len ==> Announces(states, timing, kbps, p, from, index, n)
    ensures forall m :: from <= m < from + len ==> states[m].Valid()
    ensures AnnouncedBits(states, timing, from, len) == WindowBits(kbps, p, timing, index, len)
  {
    if len > 0 {
      AnnouncedIsWindow(states, timing, kbps, p, from, index, len - 1);
      assert Announces(states, timing, kbps, p, from, index, len - 1);
    }
  }

  /** The window does not straddle the wrap of the 64-bit frame index, or the period divides the wrap and does not
      notice it: only periods three and six can be disturbed. */
  ghost predicate KeepsAlignment(s: Schedule, period: int)
    requires 0 < period
  {
    s.frameIndex + period <= TWO_TO_THE_64 || TWO_TO_THE_64 % period == 0
  }

  lemma OnlyThreeAndSixAreDisturbed(mode: Mode)
    requires PatternOf(mode).Some?
    ensures var period := PatternOf(mode).value.periodicity;
            0 < period && (TWO_TO_THE_64 % period != 0 <==> mode in {TwoLayersThreeFrame, ThreeLayersSixFrame})
  {
  }

  lemma RunConservesBudget(
    states: seq<Schedule>, events: seq<Event>, buffers: BufferConfig, timing: Timing, totalKbps: int, from: nat)
    requires IsPatternRun(states, events, buffers) && FollowsDecimators(states[0].pattern)
    requires AcceptedSplit(states[0].kbps, states[0].pattern.layers, totalKbps)
    requires Affordable(totalKbps, states[0].pattern, timing)
    requires from + states[0].pattern.periodicity <= |states|
    requires KeepsAlignment(states[from], states[0].pattern.periodicity)
    ensures var period := states[0].pattern.periodicity;
            && (forall m :: from <= m < from + period ==> states[m].Valid())
            && Spends(AnnouncedBits(states, timing, from, period), totalKbps, timing, period, period)
  {
    var kbps, p := states[0].kbps, states[0].pattern;
    PatternRunIndex(states, events, buffers, 0, from);
    var index := states[from].frameIndex;
    forall n | 0 <= n < p.periodicity
      ensures Announces(states, timing, kbps, p, from, index, n)
    {
      AnnouncedFrame(states, events, buffers, timing, from, n);
    }
    AnnouncedIsWindow(states, timing, kbps, p, from, index, p.periodicity);
    WindowConservesBudget(kbps, p, timing, totalKbps, index);
  }

  /** Bit-budget conservation, for every mode and accepted split: over any window of Periodicity consecutive frames of
      any run, LayerFrameTargetBits adds up to total bitrate times window duration, within Periodicity / 2 bits. */
  lemma TargetsConserveBudget(
    states: seq<Schedule>, events: seq<Event>, buffers: BufferConfig, timing: Timing, totalKbps: int, from: nat)
    requires IsPatternRun(states, events, buffers)
    requires PatternOf(states[0].mode) == Some(states[0].pattern)
    requires AcceptedSplit(states[0].kbps, states[0].pattern.layers, totalKbps)
    requires Affordable(totalKbps, states[0].pattern, timing)
    requires from + states[0].pattern.periodicity <= |states|
    requires KeepsAlignment(states[from], states[0].pattern.periodicity)
    ensures var period := states[0].pattern.periodicity;
            && (forall m :: from <= m < from + period ==> states[m].Valid())
            && Spends(AnnouncedBits(states, timing, from, period), totalKbps, timing, period, period)
  {
    PatternsFollowDecimators(states[0].mode);
    RunConservesBudget(states, events, buffers, timing, totalKbps, from);
  }

  /* Where the conditions fail */

  const THIRTIETHS := Timing(1, 30, 1)

  const THREE_FRAME_RATES := [600, 1000, 0, 0, 0]

  /** A schedule of the three-frame pattern about to announce frame `index`. */
  ghost predicate AtThreeFrame(s: Schedule, index: int) {
    && s.Valid() && s.mode == TwoLayersThreeFrame && PatternOf(TwoLayersThreeFrame) == Some(s.pattern)
    && s.layerIDOverride == -1 && s.kbps == THREE_FRAME_RATES && s.frameIndex == index
  }

  /** The bits the frame is announced with. */
  ghost predicate AnnouncesBits(s: Schedule, bits: int) {
    s.Valid() && s.NextFrame(THIRTIETHS).frameTargetBits == bits
  }

  lemma ThreeFrameTarget(s: Schedule, index: int)
    requires AtThreeFrame(s, index)
    ensures AnnouncesBits(s, if index % 3 == 0 then 60000 else 20000)
  {
    AnnouncedTarget(s, THIRTIETHS);
    assert s.pattern.layerID[index % 3] == if index % 3 == 0 then 0 else 1;
  }

  lemma ThreeFrameStep(s: Schedule, event: Event, buffers: BufferConfig, s': Schedule, index: int)
    requires AtThreeFrame(s, index) && Follows(s, event, buffers, s') && event.pin == -1
    ensures AtThreeFrame(s', (index + 1) % TWO_TO_THE_64)
  {
    PatternRunStep(s, event, buffers, s');
  }

  lemma SumOfThree(states: seq<Schedule>, b0: int, b1: int, b2: int)
    requires 3 <= |states|
    requires AnnouncesBits(states[0], b0) && AnnouncesBits(states[1], b1) && AnnouncesBits(states[2], b2)
    ensures forall m :: 0 <= m < 3 ==> states[m].Valid()
    ensures AnnouncedBits(states, THIRTIETHS, 0, 3) == b0 + b1 + b2
  {
    AnnouncedGrows(states, 0, 0, b0);
    AnnouncedGrows(states, 1, b0, b1);
    AnnouncedGrows(states, 2, b0 + b1, b2);
  }

  lemma AnnouncedGrows(states: seq<Schedule>, len: nat, total: int, bits: int)
    requires len < |states| && (forall m :: 0 <= m < len ==> states[m].Valid()) && AnnouncesBits(states[len], bits)
    requires AnnouncedBits(states, THIRTIETHS, 0, len) == total
    ensures forall m :: 0 <= m < len + 1 ==> states[m].Valid()
    ensures AnnouncedBits(states, THIRTIETHS, 0, len + 1) == total + bits
  {
  }

  lemma ThreeFrameRates(p: Pattern)
    requires PatternOf(TwoLayersThreeFrame) == Some(p)
    ensures AcceptedSplit(THREE_FRAME_RATES, p.layers, 1000) && Affordable(1000, p, THIRTIETHS)
    ensures p.periodicity == 3 && !Spends(140000, 1000, THIRTIETHS, 3, 3)
  {
  }

  /** The wrap does disturb a period of three: the last index before it and the first after it are both base frames, and
      a window over them is announced 140000 bits where the rate earns 100000. */
  lemma WrapBreaksBudget(states: seq<Schedule>, events: seq<Event>, buffers: BufferConfig)
    requires IsPatternRun(states, events, buffers) && 3 <= |states|
    requires AtThreeFrame(states[0], TWO_TO_THE_64 - 1)
    ensures AcceptedSplit(states[0].kbps, states[0].pattern.layers, 1000)
    ensures Affordable(1000, states[0].pattern, THIRTIETHS) && states[0].pattern.periodicity == 3
    ensures (forall m :: 0 <= m < 3 ==> states[m].Valid())
    ensures !Spends(AnnouncedBits(states, THIRTIETHS, 0, 3), 1000, THIRTIETHS, 3, 3)
  {
    var s := states[0];
    ThreeFramesAnnounced(states, events, buffers);
    SumOfThree(states, 60000, 60000, 20000);
    ThreeFrameRates(s.pattern);
  }

  lemma ThreeFramesAnnounced(states: seq<Schedule>, events: seq<Event>, buffers: BufferConfig)
    requires IsPatternRun(states, events, buffers) && 3 <= |states|
    requires AtThreeFrame(states[0], TWO_TO_THE_64 - 1)
    ensures AnnouncesBits(states[0], 60000) && AnnouncesBits(states[1], 60000) && AnnouncesBits(states[2], 20000)
  {
    assert events[0].pin == -1 && events[1].pin == -1;
    ThreeFrameStep(states[0], events[0], buffers, states[1], TWO_TO_THE_64 - 1);
    ThreeFrameStep(states[1], events[1], buffers, states[2], 0);
    FirstThreeTargets(states[0], states[1], states[2]);
  }

  lemma FirstThreeTargets(s0: Schedule, s1: Schedule, s2: Schedule)
    requires AtThreeFrame(s0, TWO_TO_THE_64 - 1) && AtThreeFrame(s1, 0) && AtThreeFrame(s2, 1)
    ensures AnnouncesBits(s0, 60000) && AnnouncesBits(s1, 60000) && AnnouncesBits(s2, 20000)
  {
    ThreeFrameTarget(s0, TWO_TO_THE_64 - 1);
    ThreeFrameTarget(s1, 0);
    ThreeFrameTarget(s2, 1);
  }

  /** Nor is the product bound idle: a single-layer rate whose product leaves 64 bits is announced as no bits at all. */
  lemma OverflowBreaksBudget(p: Pattern)
    requires PatternOf(OneLayer) == Some(p)
    ensures var kbps, timing := [9_000_000_000_000_000, 0, 0, 0, 0], Timing(1, 1, 2);
            && AcceptedSplit(kbps, 1, kbps[0]) && !Affordable(kbps[0], p, timing)
            && FrameTargetBits(kbps, p, 0, timing) == 0 && !Spends(0, kbps[0], timing, 1, 1)
  {
  }
}
