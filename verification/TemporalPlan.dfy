/** What the thirteen patterns mean for a stream that nothing disturbs: by frame number, the layer of every frame,
    whether it is announced as a sync frame, the earlier frames whose pictures it may use, and the buffers it
    refreshes. */
module TemporalPlan {
  import opened Arith
  import opened Wrappers
  import opened TemporalPattern
  import opened Temporal
  import opened LayerDropping

  /** An inter frame of the stream: for each buffer it may predict from, the number of the frame whose picture is
      there. */
  datatype Plan = Plan(layer: int, sync: bool, uses: References<int>, refreshes: Mask, keepsEntropy: bool)

  function Uses(last: int): References<int> {
    References(Some(last), None, None)
  }

  function Uses2(last: int, golden: int): References<int> {
    References(Some(last), Some(Max(golden, 0)), None)
  }

  function Uses3(last: int, golden: int, alt: int): References<int> {
    References(Some(last), Some(Max(golden, 0)), Some(Max(alt, 0)))
  }

  function Frame(layer: int, sync: bool, uses: References<int>, refreshes: Mask): Plan {
    Plan(layer, sync, uses, refreshes, false)
  }

  /** A frame that leaves the buffers and the entropy contexts alone, as nothing depends on it. */
  function Leaf(sync: bool, uses: References<int>): Plan {
    Plan(2, sync, uses, NONE, true)
  }

  /** The frames that are key frames: the first, and in the five-layer mode every sixteenth. */
  predicate IsKeyFrame(mode: Mode, n: nat) {
    n == 0 || (mode == FiveLayers && n % 16 == 0)
  }

  /** How often the whole pattern repeats. */
  function Length(mode: Mode): (length: nat)
    requires !mode.OtherMode?
    ensures 1 <= length <= 16
  {
    match mode
    case OneLayer => 1
    case TwoLayers => 2
    case TwoLayersThreeFrame => 3
    case ThreeLayersSixFrame => 6
    case FiveLayers => 16
    case TwoLayersWithSync => 8
    case ThreeLayersWithSync => 8
    case ThreeLayersAltRefWithSync => 8
    case ThreeLayersNoSync => 8
    case _ => 4
  }

  /** Frame n of every mode, for n that is not a key frame. */
  function PlanOf(mode: Mode, n: nat): Plan
    requires !mode.OtherMode? && !IsKeyFrame(mode, n)
  {
    PlanAt(mode, n, n % Length(mode))
  }

  /** The same with k for n modulo the length of the pattern. A reference before the first frame of its layer is to
      frame 0. */
  function PlanAt(mode: Mode, n: nat, k: nat): Plan
    requires !mode.OtherMode? && k < Length(mode)
  {
    match mode
    case OneLayer => Frame(0, false, Uses3(n - 1, 0, 0), LAST)
    case TwoLayers =>
      if k == 0 then Frame(0, false, Uses(n - 2), LAST)
      else Frame(1, n == 1, Uses2(n - 1, n - 2), GOLDEN)
    case TwoLayersThreeFrame =>
      if k == 0 then Frame(0, false, Uses(n - 3), LAST)
      else Frame(1, true, Uses(n - k), GOLDEN)
    case ThreeLayersSixFrame =>
      if k == 0 then Frame(0, false, Uses(n - 6), LAST)
      else if k == 3 then Frame(1, n == 3, Uses2(n - 3, n - 6), GOLDEN)
      else
        Frame(2, n == 1,
              Uses3(n - k, if k < 3 then n - k - 3 else n - k + 3, if k == 1 || k == 4 then n - 2 else n - 1), ALTREF)
    case ThreeLayersNoInterLayerPrediction =>
      if k == 0 then Frame(0, false, Uses(n - 4), LAST)
      else if k == 2 then Frame(1, true, Uses(n - 2), GOLDEN)
      else Frame(2, true, Uses2(n - k, if k == 1 then n - 3 else n - 1), NONE)
    case ThreeLayersLayerOnePrediction =>
      if k == 0 then Frame(0, false, Uses(n - 4), LAST)
      else if k == 2 then Frame(1, n == 2, Uses2(n - 2, n - 4), GOLDEN)
      else Frame(2, true, Uses2(n - k, if k == 1 then n - 3 else n - 1), NONE)
    case ThreeLayers =>
      if k == 0 then Frame(0, false, Uses(n - 4), LAST)
      else if k == 2 then Frame(1, n == 2, Uses2(n - 2, n - 4), GOLDEN)
      else Frame(2, n == 1, Uses3(n - k, if k == 1 then n - 3 else n - 1, n - 2), ALTREF)
    case FiveLayers =>
      var base := n - k;
      var golden := if k <= 4 then base else if k <= 12 then base + 4 else base + 12;
      if k == 4 then Frame(2, true, References(None, Some(base), Some(base)), LG)
      else if k == 8 then Frame(1, true, References(None, None, Some(base)), LAST)
      else if k == 12 then Frame(2, false, References(None, Some(base + 4), Some(base)), LG)
      else if k == 2 || k == 6 || k == 10 || k == 14 then Frame(3, true, Uses3(n - 2, golden, base), LAST)
      else Frame(4, true, Uses3(n - 1, golden, base), NONE)
    case TwoLayersWithSync =>
      if k == 0 then Frame(0, false, References(Some(n - 2), None, Some(0)), LG)
      else if k == 1 then Frame(1, true, References(Some(n - 1), None, Some(0)), GOLDEN)
      else if k == 2 || k == 4 || k == 6 then Frame(0, false, References(Some(n - 2), None, Some(0)), LAST)
      else Plan(1, false, Uses3(n - 1, n - 2, 0), GOLDEN, true)
    case ThreeLayersWithSync =>
      if k == 0 || k == 4 then Frame(0, false, Uses(n - 4), LAST)
      else if k == 1 then Frame(2, true, Uses(n - 1), ALTREF)
      else if k == 2 then Frame(1, true, Uses(n - 2), GOLDEN)
      else if k == 3 then Frame(2, false, Uses3(n - 3, n - 1, n - 2), ALTREF)
      else if k == 5 then Frame(2, false, Uses3(n - 1, n - 3, n - 2), ALTREF)
      else if k == 6 then Frame(1, false, Uses2(n - 2, n - 4), GOLDEN)
      else Leaf(false, Uses3(n - 3, n - 1, n - 2))
    case ThreeLayersAltRefWithSync =>
      if k == 0 then Frame(0, false, References(Some(n - 4), None, Some(0)), LG)
      else if k == 4 then Frame(0, false, References(Some(n - 4), None, Some(0)), LAST)
      else if k == 1 then Leaf(true, References(Some(n - 1), None, Some(0)))
      else if k == 2 then Frame(1, true, References(Some(n - 2), None, Some(0)), GOLDEN)
      else if k == 6 then Frame(1, false, Uses3(n - 2, n - 4, 0), GOLDEN)
      else if k == 5 then Leaf(true, Uses3(n - 1, n - 3, 0))
      else Leaf(true, Uses3(n - 3, n - 1, 0))
    case ThreeLayersOneReference =>
      if k == 0 then Frame(0, false, Uses(n - 4), LAST)
      else if k == 1 then Frame(2, true, Uses(n - 1), ALTREF)
      else if k == 2 then Frame(1, true, Uses(n - 2), GOLDEN)
      else Frame(2, true, References(None, Some(n - 1), None), ALTREF)
    case ThreeLayersNoSync =>
      if k == 0 || k == 4 then Frame(0, false, References(Some(n - 4), None, Some(0)), LAST)
      else if k == 2 || k == 6 then Frame(1, n == 2, Uses3(n - 2, n - 4, 0), GOLDEN)
      else if k == 1 || k == 5 then Leaf(true, Uses3(n - 1, n - 3, 0))
      else Leaf(true, Uses3(n - 3, n - 1, 0))
  }

  /* The stream */

  /** Every frame is coded, the key frames and no others as key frames, and the application sets no flags. The payload
      of a frame is its number, counted from n. */
  ghost predicate Undisturbed(mode: Mode, n: nat, inputs: seq<Input<int>>) {
    forall i :: 0 <= i < |inputs| ==>
      inputs[i].userFlags == NO_FLAGS &&
      if IsKeyFrame(mode, n + i) then inputs[i].outcome == CodedKey(n + i)
      else inputs[i].outcome.CodedInter? && inputs[i].outcome.payload == n + i
  }

  /** The picture of a frame is its number, so that a buffer names the frame it holds. */
  function FrameNumber(payload: int, refs: References<int>): int {
    payload
  }

  /** The buffers that the plan names. */
  function Named(uses: References<int>): Mask {
    Mask(uses.last.Some?, uses.golden.Some?, uses.alt.Some?)
  }

  /** Coding the coming frame as an inter frame without application flags can use exactly the named buffers, and
      refreshes the planned ones. */
  ghost predicate CodesAsPlanned(e: Encoder, plan: Plan)
    requires e.schedule.Valid()
  {
    forall next: Input<int> {:trigger Possible(e, next)} ::
      next.userFlags == NO_FLAGS && next.outcome.CodedInter? ==>
        && (Possible(e, next) <==> next.outcome.used.Subset(Named(plan.uses)))
        && PacketOf(e, next).value.refresh == plan.refreshes
  }

  /** What the scheduler announces about the coming frame, and what coding it does, are as planned; `held` says which
      frame each buffer holds. */
  ghost predicate AsPlanned(e: Encoder, held: Buffers<int>, plan: Plan)
    requires e.schedule.Valid()
  {
    var flags := e.schedule.FrameFlags();
    && e.schedule.LayerID() == plan.layer && e.schedule.Sync() == plan.sync
    && !flags.forceKey && flags.noEntropy == plan.keepsEntropy
    && CodesAsPlanned(e, plan)
    && held.View(Named(plan.uses)) == plan.uses
  }

  /* What the buffers hold */

  /** The frame each buffer holds before frame n. */
  function Holds(mode: Mode, n: nat): Buffers<int>
    requires !mode.OtherMode? && 0 < n
  {
    HoldsAt(mode, n, n % Length(mode))
  }

  function HoldsAt(mode: Mode, n: nat, k: nat): Buffers<int>
    requires !mode.OtherMode? && 0 < n && k < Length(mode)
  {
    var of4 := if k < 4 then k else if k < 8 then k - 4 else 0;
    var last, golden := if of4 == 0 then n - 4 else n - of4, if of4 == 3 then n - 1 else Max(n - of4 - 2, 0);
    match mode
    case OneLayer => Buffers(n - 1, 0, 0)
    case TwoLayers => Buffers(if k == 0 then n - 2 else n - 1, if k == 0 then n - 1 else Max(n - 2, 0), 0)
    case TwoLayersThreeFrame =>
      Buffers(if k == 0 then n - 3 else n - k, if k == 1 then Max(n - 2, 0) else n - 1, 0)
    case ThreeLayersSixFrame =>
      Buffers(if k == 0 then n - 6 else n - k, if k <= 3 then Max(n - k - 3, 0) else n - k + 3,
              if k == 1 || k == 4 then Max(n - 2, 0) else n - 1)
    case ThreeLayersNoInterLayerPrediction => Buffers(last, golden, 0)
    case ThreeLayersLayerOnePrediction => Buffers(last, golden, 0)
    case ThreeLayers => Buffers(last, golden, if k == 1 || k == 3 then Max(n - 2, 0) else n - 1)
    case FiveLayers =>
      var base := if k == 0 then n - 16 else n - k;
      Buffers(if k in {0, 2, 4, 6, 8, 10, 12, 14} then n - 2 else n - 1,
              if k == 0 || 12 < k then base + 12 else if k <= 4 then base else base + 4, base)
    case TwoLayersWithSync =>
      Buffers(if k in {0, 2, 4, 6} then n - 2 else n - 1, if k in {3, 5, 7} then n - 2 else n - 1, 0)
    case ThreeLayersWithSync =>
      Buffers(last, golden,
              if k == 0 then n - 3 else if k == 1 then Max(n - 4, 0) else if k in {2, 4, 6} then n - 1 else n - 2)
    case ThreeLayersAltRefWithSync =>
      Buffers(last, if k == 5 then n - 3 else if k == 6 then n - 4 else if k in {0, 2, 4} then n - 2 else n - 1, 0)
    case ThreeLayersOneReference => Buffers(last, golden, if k == 1 || k == 3 then Max(n - 2, 0) else n - 1)
    case ThreeLayersNoSync => Buffers(last, golden, 0)
  }

  /** The layer that last refreshed each buffer before frame n. */
  function TagsAt(mode: Mode, n: nat, k: nat): Tags {
    match mode
    case OneLayer => BASE_TAGS
    case TwoLayers => Tags(0, if n <= 1 then 0 else 1, 0)
    case TwoLayersThreeFrame => Tags(0, if n <= 1 then 0 else 1, 0)
    case ThreeLayersSixFrame => Tags(0, if n <= 3 then 0 else 1, if n <= 1 then 0 else 2)
    case FiveLayers =>
      Tags(if k == 1 || k == 2 then 0 else if k == 5 || k == 6 || k == 13 || k == 14 then 2
           else if k == 9 || k == 10 then 1 else 3,
           if 1 <= k <= 4 then 0 else 2, 0)
    case TwoLayersWithSync => Tags(0, if k == 1 then 0 else 1, 0)
    case ThreeLayersAltRefWithSync => Tags(0, if 1 <= k <= 2 then 0 else 1, 0)
    case _ =>
      Tags(0, if n <= 2 then 0 else 1,
           if n <= 1 || mode !in {ThreeLayers, ThreeLayersWithSync, ThreeLayersOneReference} then 0 else 2)
  }

  /** held and tags are those before frame n. */
  ghost predicate Stands(mode: Mode, n: nat, held: Buffers<int>, tags: Tags)
    requires !mode.OtherMode? && 0 < n
  {
    held == Holds(mode, n) && tags == TagsAt(mode, n, n % Length(mode))
  }

  /** The encoder about to code frame n of an undisturbed stream. */
  ghost predicate Before(mode: Mode, e: Encoder, n: nat, held: Buffers<int>)
    requires !mode.OtherMode?
  {
    && e.schedule.Valid() && e.schedule.mode == mode && PatternOf(mode) == Some(e.schedule.pattern)
    && e.schedule.layerIDOverride == -1 && e.schedule.frameIndex == n
    && e.refresh == None && e.reference == None
    && 0 < n && Stands(mode, n, held, e.schedule.tags)
  }

  lemma NextRemainder(n: nat, m: nat)
    requires 0 < m
    ensures (n + 1) % m == if n % m == m - 1 then 0 else n % m + 1
  {
    var q, r := n / m, n % m;
    assert n == q * m + r;
    if r == m - 1 {
      assert (q + 1) * m == q * m + m;
      UniqueRemainder(n + 1, m, q + 1, 0);
    } else {
      UniqueRemainder(n + 1, m, q, r + 1);
    }
  }

  /* The tables */

  /** A table slot says what the plan says. */
  predicate SlotAsPlanned(layer: int, flags: Flags, plan: Plan) {
    && layer == plan.layer
    && flags.noRef == Named(plan.uses).Complement()
    && RefreshMask(ArmedRefresh(flags, None)) == plan.refreshes
    && !flags.forceGolden && !flags.forceAltRef && flags.noEntropy == plan.keepsEntropy
  }

  predicate TableSlotAsPlanned(mode: Mode, p: Pattern, n: nat, k: nat)
    requires !mode.OtherMode? && WellFormed(p) && k < p.flagPeriodicity == Length(mode)
  {
    && SlotAsPlanned(p.layerID[k % p.periodicity], p.flags[k], PlanAt(mode, n, k))
    && (p.flags[k].forceKey ==> k == 0)
  }

  lemma TablesAsPlanned(mode: Mode, p: Pattern, n: nat, k: nat)
    requires PatternOf(mode) == Some(p) && WellFormed(p) && !mode.OtherMode?
    requires k < Length(mode) && (mode == FiveLayers ==> k != 0)
    ensures p.flagPeriodicity == Length(mode) && TableSlotAsPlanned(mode, p, n, k)
  {
    match mode
    case FiveLayers => FiveLayersAsPlanned(p, n, k);
    case TwoLayersWithSync => TwoLayersWithSyncAsPlanned(p, n, k);
    case ThreeLayersWithSync => ThreeLayersWithSyncAsPlanned(p, n, k);
    case ThreeLayersAltRefWithSync => AltRefWithSyncAsPlanned(p, n, k);
    case ThreeLayersNoSync => NoSyncAsPlanned(p, n, k);
    case ThreeLayersNoInterLayerPrediction => FourFrameTablesAsPlanned(mode, p, n, k);
    case ThreeLayersLayerOnePrediction => FourFrameTablesAsPlanned(mode, p, n, k);
    case ThreeLayers => FourFrameTablesAsPlanned(mode, p, n, k);
    case ThreeLayersOneReference => FourFrameTablesAsPlanned(mode, p, n, k);
    case _ => ShortTablesAsPlanned(mode, p, n, k);
  }

  lemma ShortTablesAsPlanned(mode: Mode, p: Pattern, n: nat, k: nat)
    requires PatternOf(mode) == Some(p) && WellFormed(p)
    requires mode in {OneLayer, TwoLayers, TwoLayersThreeFrame, ThreeLayersSixFrame} && k < Length(mode)
    ensures p.flagPeriodicity == Length(mode) && TableSlotAsPlanned(mode, p, n, k)
  {
    match mode
    case OneLayer =>
    case TwoLayers =>
    case TwoLayersThreeFrame =>
    case ThreeLayersSixFrame =>
  }

  lemma FourFrameTablesAsPlanned(mode: Mode, p: Pattern, n: nat, k: nat)
    requires PatternOf(mode) == Some(p) && WellFormed(p) && k < 4
    requires mode in {ThreeLayersNoInterLayerPrediction, ThreeLayersLayerOnePrediction, ThreeLayers,
                      ThreeLayersOneReference}
    ensures p.flagPeriodicity == 4 && TableSlotAsPlanned(mode, p, n, k)
  {
    match mode
    case ThreeLayersNoInterLayerPrediction =>
    case ThreeLayersLayerOnePrediction =>
    case ThreeLayers =>
    case ThreeLayersOneReference =>
  }

  lemma TwoLayersWithSyncAsPlanned(p: Pattern, n: nat, k: nat)
    requires PatternOf(TwoLayersWithSync) == Some(p) && WellFormed(p) && k < 8
    ensures p.flagPeriodicity == 8 && TableSlotAsPlanned(TwoLayersWithSync, p, n, k)
  {
  }

  lemma ThreeLayersWithSyncAsPlanned(p: Pattern, n: nat, k: nat)
    requires PatternOf(ThreeLayersWithSync) == Some(p) && WellFormed(p) && k < 8
    ensures p.flagPeriodicity == 8 && TableSlotAsPlanned(ThreeLayersWithSync, p, n, k)
  {
  }

  lemma AltRefWithSyncAsPlanned(p: Pattern, n: nat, k: nat)
    requires PatternOf(ThreeLayersAltRefWithSync) == Some(p) && WellFormed(p) && k < 8
    ensures p.flagPeriodicity == 8 && TableSlotAsPlanned(ThreeLayersAltRefWithSync, p, n, k)
  {
  }

  lemma NoSyncAsPlanned(p: Pattern, n: nat, k: nat)
    requires PatternOf(ThreeLayersNoSync) == Some(p) && WellFormed(p) && k < 8
    ensures p.flagPeriodicity == 8 && TableSlotAsPlanned(ThreeLayersNoSync, p, n, k)
  {
  }

  lemma FiveLayersAsPlanned(p: Pattern, n: nat, k: nat)
    requires PatternOf(FiveLayers) == Some(p) && WellFormed(p) && 0 < k < 16
    ensures p.flagPeriodicity == 16 && TableSlotAsPlanned(FiveLayers, p, n, k)
  {
    FiveLayersSlot(p, k);
    FiveSlotAsPlanned(n, k);
  }

  /** Every second frame is a leaf, every fourth refreshes LAST; 4 and 12 do without LAST, 8 uses ALTREF alone. */
  function FiveSlot(k: nat): (int, Flags)
    requires 0 < k < 16
  {
    if k in {2, 6, 10, 14} then (3, TemporalPattern.Inter(NONE, GA))
    else if k == 4 || k == 12 then (2, TemporalPattern.Inter(LAST, ALTREF))
    else if k == 8 then (1, TemporalPattern.Inter(LG, NONE))
    else (4, TemporalPattern.Inter(NONE, ALL))
  }

  lemma FiveLayersSlot(p: Pattern, k: nat)
    requires PatternOf(FiveLayers) == Some(p) && 0 < k < 16
    ensures p.periodicity == p.flagPeriodicity == |p.layerID| == |p.flags| == 16
    ensures (p.layerID[k], p.flags[k]) == FiveSlot(k)
  {
    if k < 4 {
    } else if k < 8 {
    } else if k < 12 {
    } else {
    }
  }

  lemma FiveSlotAsPlanned(n: nat, k: nat)
    requires 0 < k < 16
    ensures SlotAsPlanned(FiveSlot(k).0, FiveSlot(k).1, PlanAt(FiveLayers, n, k)) && !FiveSlot(k).1.forceKey
  {
  }

  /* The buffers */

  /** What the plan says frame n finds in the buffers. */
  predicate FindsAsPlanned(mode: Mode, n: nat, k: nat)
    requires !mode.OtherMode? && 0 < n && k < Length(mode)
  {
    var plan, tags := PlanAt(mode, n, k), TagsAt(mode, n, k);
    && HoldsAt(mode, n, k).View(Named(plan.uses)) == plan.uses
    && IsSyncWith(plan, tags)
  }

  /** The plan's sync mark is right for these tags. */
  predicate IsSyncWith(plan: Plan, tags: Tags) {
    plan.sync <==>
      && 0 < plan.layer
      && (plan.uses.last.Some? ==> tags.last < plan.layer)
      && (plan.uses.golden.Some? ==> tags.golden < plan.layer)
      && (plan.uses.alt.Some? ==> tags.alt < plan.layer)
  }

  /** What it leaves in them for the next frame. */
  predicate LeavesAsPlanned(mode: Mode, n: nat, k: nat)
    requires !mode.OtherMode? && 0 < n && k < Length(mode)
  {
    var plan, next := PlanAt(mode, n, k), if k == Length(mode) - 1 then 0 else k + 1;
    && HoldsAt(mode, n, k).Refreshed(plan.refreshes, n) == HoldsAt(mode, n + 1, next)
    && TagsAt(mode, n, k).Refreshed(plan.refreshes, plan.layer) == TagsAt(mode, n + 1, next)
  }

  lemma AllFindAsPlanned(mode: Mode, n: nat, q: nat, k: nat)
    requires !mode.OtherMode? && 0 < n && k < Length(mode) && n == q * Length(mode) + k
    requires mode == FiveLayers ==> k != 0
    ensures FindsAsPlanned(mode, n, k)
  {
    match mode
    case FiveLayers => FiveLayersFinds(n, q, k);
    case TwoLayersWithSync => TwoLayersWithSyncFinds(n, q, k);
    case ThreeLayersWithSync => ThreeLayersWithSyncFinds(n, q, k);
    case ThreeLayersAltRefWithSync => AltRefWithSyncFinds(n, q, k);
    case ThreeLayersNoSync => NoSyncFinds(n, q, k);
    case ThreeLayersNoInterLayerPrediction => FourFrameFinds(mode, n, q, k);
    case ThreeLayersLayerOnePrediction => FourFrameFinds(mode, n, q, k);
    case ThreeLayers => FourFrameFinds(mode, n, q, k);
    case ThreeLayersOneReference => FourFrameFinds(mode, n, q, k);
    case _ => ShortFinds(mode, n, q, k);
  }

  lemma ShortFinds(mode: Mode, n: nat, q: nat, k: nat)
    requires mode in {OneLayer, TwoLayers, TwoLayersThreeFrame, ThreeLayersSixFrame}
    requires 0 < n && k < Length(mode) && n == q * Length(mode) + k
    ensures FindsAsPlanned(mode, n, k)
  {
    match mode
    case OneLayer =>
    case TwoLayers =>
    case TwoLayersThreeFrame =>
    case ThreeLayersSixFrame =>
  }

  lemma FourFrameFinds(mode: Mode, n: nat, q: nat, k: nat)
    requires mode in {ThreeLayersNoInterLayerPrediction, ThreeLayersLayerOnePrediction, ThreeLayers,
                      ThreeLayersOneReference}
    requires 0 < n && k < 4 && n == q * 4 + k
    ensures FindsAsPlanned(mode, n, k)
  {
    match mode
    case ThreeLayersNoInterLayerPrediction =>
    case ThreeLayersLayerOnePrediction =>
    case ThreeLayers =>
    case ThreeLayersOneReference =>
  }

  lemma FiveLayersFinds(n: nat, q: nat, k: nat)
    requires 0 < n && 0 < k < 16 && n == q * 16 + k
    ensures FindsAsPlanned(FiveLayers, n, k)
  {
  }

  lemma TwoLayersWithSyncFinds(n: nat, q: nat, k: nat)
    requires 0 < n && k < 8 && n == q * 8 + k
    ensures FindsAsPlanned(TwoLayersWithSync, n, k)
  {
  }

  lemma ThreeLayersWithSyncFinds(n: nat, q: nat, k: nat)
    requires 0 < n && k < 8 && n == q * 8 + k
    ensures FindsAsPlanned(ThreeLayersWithSync, n, k)
  {
  }

  lemma AltRefWithSyncFinds(n: nat, q: nat, k: nat)
    requires 0 < n && k < 8 && n == q * 8 + k
    ensures FindsAsPlanned(ThreeLayersAltRefWithSync, n, k)
  {
  }

  lemma NoSyncFinds(n: nat, q: nat, k: nat)
    requires 0 < n && k < 8 && n == q * 8 + k
    ensures FindsAsPlanned(ThreeLayersNoSync, n, k)
  {
  }

  lemma AllLeaveAsPlanned(mode: Mode, n: nat, q: nat, k: nat)
    requires !mode.OtherMode? && 0 < n && k < Length(mode) && n == q * Length(mode) + k
    requires mode == FiveLayers ==> k != 0
    ensures LeavesAsPlanned(mode, n, k)
  {
    match mode
    case FiveLayers => FiveLayersLeaves(n, q, k);
    case TwoLayersWithSync => TwoLayersWithSyncLeaves(n, q, k);
    case ThreeLayersWithSync => ThreeLayersWithSyncLeaves(n, q, k);
    case ThreeLayersAltRefWithSync => AltRefWithSyncLeaves(n, q, k);
    case ThreeLayersNoSync => NoSyncLeaves(n, q, k);
    case ThreeLayersNoInterLayerPrediction => FourFrameLeaves(mode, n, q, k);
    case ThreeLayersLayerOnePrediction => FourFrameLeaves(mode, n, q, k);
    case ThreeLayers => FourFrameLeaves(mode, n, q, k);
    case ThreeLayersOneReference => FourFrameLeaves(mode, n, q, k);
    case _ => ShortLeaves(mode, n, q, k);
  }

  lemma ShortLeaves(mode: Mode, n: nat, q: nat, k: nat)
    requires mode in {OneLayer, TwoLayers, TwoLayersThreeFrame, ThreeLayersSixFrame}
    requires 0 < n && k < Length(mode) && n == q * Length(mode) + k
    ensures LeavesAsPlanned(mode, n, k)
  {
    match mode
    case OneLayer =>
    case TwoLayers =>
    case TwoLayersThreeFrame =>
    case ThreeLayersSixFrame =>
  }

  lemma FourFrameLeaves(mode: Mode, n: nat, q: nat, k: nat)
    requires mode in {ThreeLayersNoInterLayerPrediction, ThreeLayersLayerOnePrediction, ThreeLayers,
                      ThreeLayersOneReference}
    requires 0 < n && k < 4 && n == q * 4 + k
    ensures LeavesAsPlanned(mode, n, k)
  {
    match mode
    case ThreeLayersNoInterLayerPrediction =>
    case ThreeLayersLayerOnePrediction =>
    case ThreeLayers =>
    case ThreeLayersOneReference =>
  }

  lemma FiveLayersLeaves(n: nat, q: nat, k: nat)
    requires 0 < n && 0 < k < 16 && n == q * 16 + k
    ensures LeavesAsPlanned(FiveLayers, n, k)
  {
  }

  lemma TwoLayersWithSyncLeaves(n: nat, q: nat, k: nat)
    requires 0 < n && k < 8 && n == q * 8 + k
    ensures LeavesAsPlanned(TwoLayersWithSync, n, k)
  {
  }

  lemma ThreeLayersWithSyncLeaves(n: nat, q: nat, k: nat)
    requires 0 < n && k < 8 && n == q * 8 + k
    ensures LeavesAsPlanned(ThreeLayersWithSync, n, k)
  {
  }

  lemma AltRefWithSyncLeaves(n: nat, q: nat, k: nat)
    requires 0 < n && k < 8 && n == q * 8 + k
    ensures LeavesAsPlanned(ThreeLayersAltRefWithSync, n, k)
  {
  }

  lemma NoSyncLeaves(n: nat, q: nat, k: nat)
    requires 0 < n && k < 8 && n == q * 8 + k
    ensures LeavesAsPlanned(ThreeLayersNoSync, n, k)
  {
  }

  /** A frame that is not a key frame finds and leaves the buffers as planned. */
  lemma BuffersAsPlanned(mode: Mode, n: nat, held: Buffers<int>, tags: Tags)
    requires !mode.OtherMode? && !IsKeyFrame(mode, n) && Stands(mode, n, held, tags)
    ensures var plan := PlanOf(mode, n);
            && held.View(Named(plan.uses)) == plan.uses && IsSyncWith(plan, tags)
            && Stands(mode, n + 1, held.Refreshed(plan.refreshes, n), tags.Refreshed(plan.refreshes, plan.layer))
  {
    var length := Length(mode);
    var q, k := n / length, n % length;
    assert n == q * length + k;
    AllFindAsPlanned(mode, n, q, k);
    AllLeaveAsPlanned(mode, n, q, k);
    NextRemainder(n, length);
  }

  /** After a key frame every buffer holds it. */
  lemma KeyFrameStands(mode: Mode, n: nat)
    requires !mode.OtherMode? && IsKeyFrame(mode, n)
    ensures Stands(mode, n + 1, Buffers(n, n, n), BASE_TAGS)
  {
    if mode == FiveLayers {
      NextRemainder(n, 16);
    } else {
      NextRemainder(0, Length(mode));
    }
  }

  /* The run */

  /** The tables at frame n. */
  lemma ScheduleAsPlanned(s: Schedule, n: nat)
    requires s.Valid() && PatternOf(s.mode) == Some(s.pattern) && s.layerIDOverride == -1 && s.frameIndex == n
    requires !s.mode.OtherMode? && !IsKeyFrame(s.mode, n)
    ensures SlotAsPlanned(s.LayerID(), s.FrameFlags(), PlanOf(s.mode, n)) && !s.FrameFlags().forceKey
  {
    var k := n % Length(s.mode);
    TablesAsPlanned(s.mode, s.pattern, n, k);
    IndicesInStep(s);
  }

  lemma SyncAsPlanned(s: Schedule, plan: Plan)
    requires s.Valid() && s.LayerID() == plan.layer && s.FrameFlags().noRef == Named(plan.uses).Complement()
    requires IsSyncWith(plan, s.tags)
    ensures s.Sync() == plan.sync
  {
  }

  /** Without application flags a frame is coded with the scheduler's. */
  lemma PlainFlags(e: Encoder, input: Input<int>)
    requires e.schedule.Valid() && input.userFlags == NO_FLAGS
    ensures CodedFlags(e, input) == e.schedule.FrameFlags()
  {
  }

  /** Coding an inter frame with the flags of the plan. */
  lemma CodingAsPlanned(e: Encoder, plan: Plan)
    requires e.schedule.Valid() && e.refresh == None && e.reference == None
    requires SlotAsPlanned(e.schedule.LayerID(), e.schedule.FrameFlags(), plan) && !e.schedule.FrameFlags().forceKey
    ensures CodesAsPlanned(e, plan)
  {
    forall next: Input<int> | next.userFlags == NO_FLAGS && next.outcome.CodedInter?
      ensures Possible(e, next) <==> next.outcome.used.Subset(Named(plan.uses))
      ensures PacketOf(e, next).value.refresh == plan.refreshes
    {
      PlainFlags(e, next);
    }
  }

  /** Frame n of the undisturbed stream is as planned. */
  lemma FrameAsPlanned(mode: Mode, e: Encoder, n: nat, held: Buffers<int>)
    requires !mode.OtherMode? && Before(mode, e, n, held) && !IsKeyFrame(mode, n)
    ensures AsPlanned(e, held, PlanOf(mode, n))
  {
    ScheduleAsPlanned(e.schedule, n);
    CodingAsPlanned(e, PlanOf(mode, n));
    BuffersAsPlanned(mode, n, held, e.schedule.tags);
    SyncAsPlanned(e.schedule, PlanOf(mode, n));
  }

  /** What one coded frame does to the state. */
  lemma CodedStep(e: Encoder, input: Input<int>)
    requires e.schedule.Valid() && (input.outcome.CodedKey? || input.outcome.CodedInter?)
    ensures PacketOf(e, input).Some? && PacketOf(e, input).value.key == input.outcome.CodedKey?
    ensures PacketOf(e, input).value.layerID == e.schedule.LayerID() <= EVERY_LAYER
    ensures PacketOf(e, input).value.payload == input.outcome.payload
    ensures var s, s' := e.schedule, Step(e, input).schedule;
            && s'.Valid() && s'.mode == s.mode && s'.pattern == s.pattern && s'.layerIDOverride == s.layerIDOverride
            && s'.frameIndex == (s.frameIndex + 1) % TWO_TO_THE_64
            && Step(e, input).refresh == None && Step(e, input).reference == None
            && s'.tags == if input.outcome.CodedKey? then BASE_TAGS
                          else s.tags.Refreshed(PacketOf(e, input).value.refresh, s.LayerID())
  {
  }

  lemma StepAsPlanned(mode: Mode, e: Encoder, n: nat, held: Buffers<int>, input: Input<int>)
    requires !mode.OtherMode? && Before(mode, e, n, held) && n + 1 < TWO_TO_THE_64
    requires Undisturbed(mode, n, [input])
    ensures PacketOf(e, input).Some? && PacketOf(e, input).value.layerID <= EVERY_LAYER
    ensures Before(mode, Step(e, input), n + 1, Absorb(FrameNumber, held, PacketOf(e, input).value))
  {
    assert input == [input][0];
    CodedStep(e, input);
    BuffersOfStep(mode, e, n, held, input, PacketOf(e, input).value);
  }

  lemma BuffersOfStep(
    mode: Mode, e: Encoder, n: nat, held: Buffers<int>, input: Input<int>, packet: Packet<int>)
    requires !mode.OtherMode? && Before(mode, e, n, held)
    requires Undisturbed(mode, n, [input]) && PacketOf(e, input) == Some(packet)
    ensures Stands(mode, n + 1, Absorb(FrameNumber, held, packet),
                   if packet.key then BASE_TAGS else e.schedule.tags.Refreshed(packet.refresh, e.schedule.LayerID()))
  {
    assert input == [input][0];
    if IsKeyFrame(mode, n) {
      KeyFrameStands(mode, n);
    } else {
      ScheduleAsPlanned(e.schedule, n);
      InterRefreshes(e, input, PlanOf(mode, n));
      BuffersAsPlanned(mode, n, held, e.schedule.tags);
    }
  }

  lemma InterRefreshes(e: Encoder, input: Input<int>, plan: Plan)
    requires e.schedule.Valid() && e.refresh == None
    requires SlotAsPlanned(e.schedule.LayerID(), e.schedule.FrameFlags(), plan)
    requires input.userFlags == NO_FLAGS && input.outcome.CodedInter?
    ensures PacketOf(e, input).value.refresh == plan.refreshes
  {
    PlainFlags(e, input);
  }

  /** The run ends with encoder `last` and with `left` in the buffers. */
  ghost predicate EndsIn(
    e: Encoder, held: Buffers<int>, inputs: seq<Input<int>>, last: Encoder, left: Buffers<int>)
    requires e.schedule.Valid()
  {
    last == Final(e, inputs) && left == BuffersAfter(FrameNumber, held, Emitted(e, inputs), EVERY_LAYER)
  }

  /** The first frame of a run and the rest of it. */
  lemma FirstOfRun(
    mode: Mode, e: Encoder, n: nat, held: Buffers<int>, inputs: seq<Input<int>>, last: Encoder, left: Buffers<int>)
    returns (e': Encoder, held': Buffers<int>, rest: seq<Input<int>>)
    requires !mode.OtherMode? && Before(mode, e, n, held) && n + |inputs| < TWO_TO_THE_64
    requires inputs != [] && Undisturbed(mode, n, inputs) && EndsIn(e, held, inputs, last, left)
    ensures Before(mode, e', n + 1, held') && Undisturbed(mode, n + 1, rest) && |rest| == |inputs| - 1
    ensures EndsIn(e', held', rest, last, left)
  {
    var input := inputs[0];
    UndisturbedParts(mode, n, inputs);
    StepAsPlanned(mode, e, n, held, input);
    FirstIsAbsorbed(e, inputs, held);
    e', held', rest := Step(e, input), Absorb(FrameNumber, held, PacketOf(e, input).value), inputs[1..];
  }

  lemma {:induction false} RunAsPlanned(
    mode: Mode, e: Encoder, n: nat, held: Buffers<int>, inputs: seq<Input<int>>, end: nat,
    last: Encoder, left: Buffers<int>)
    requires !mode.OtherMode? && Before(mode, e, n, held) && end == n + |inputs| < TWO_TO_THE_64
    requires Undisturbed(mode, n, inputs) && EndsIn(e, held, inputs, last, left)
    ensures Before(mode, last, end, left)
    decreases |inputs|
  {
    if inputs == [] {
      EmptyRun(e, held, last, left);
    } else {
      var e', held', rest := FirstOfRun(mode, e, n, held, inputs, last, left);
      RunAsPlanned(mode, e', n + 1, held', rest, end, last, left);
    }
  }

  lemma EmptyRun(e: Encoder, held: Buffers<int>, last: Encoder, left: Buffers<int>)
    requires e.schedule.Valid() && EndsIn(e, held, [], last, left)
    ensures last == e && left == held
  {
  }

  lemma UndisturbedParts(mode: Mode, n: nat, inputs: seq<Input<int>>)
    requires inputs != [] && Undisturbed(mode, n, inputs)
    ensures Undisturbed(mode, n, [inputs[0]]) && Undisturbed(mode, n + 1, inputs[1..])
  {
    var rest := inputs[1..];
    assert forall i :: 0 <= i < |rest| ==> rest[i] == inputs[i + 1] && n + 1 + i == n + (i + 1);
  }

  lemma FirstIsAbsorbed(e: Encoder, inputs: seq<Input<int>>, held: Buffers<int>)
    requires e.schedule.Valid() && inputs != [] && PacketOf(e, inputs[0]).Some?
    requires PacketOf(e, inputs[0]).value.layerID <= EVERY_LAYER
    ensures BuffersAfter(FrameNumber, held, Emitted(e, inputs), EVERY_LAYER) ==
            BuffersAfter(FrameNumber, Absorb(FrameNumber, held, PacketOf(e, inputs[0]).value),
                         Emitted(Step(e, inputs[0]), inputs[1..]), EVERY_LAYER)
    ensures Final(e, inputs) == Final(Step(e, inputs[0]), inputs[1..])
  {
    var stream := Emitted(e, inputs);
    assert stream == [PacketOf(e, inputs[0])] + Emitted(Step(e, inputs[0]), inputs[1..]);
    assert stream[1..] == Emitted(Step(e, inputs[0]), inputs[1..]);
  }

  /** The first frame: a base-layer key frame in every mode, which eleven of the thirteen modes force. */
  lemma FirstFrame(mode: Mode, kbps: seq<int>)
    requires PatternOf(mode).Some? && |kbps| == MAX_LAYERS
    ensures var s := Fresh(mode, kbps).schedule;
            && s.LayerID() == 0 && !s.Sync()
            && (s.FrameFlags().forceKey <==> mode !in {ThreeLayersOneReference, ThreeLayersNoSync})
  {
    PatternsAreWellFormed(mode);
    FirstSlot(mode);
  }

  lemma FirstSlot(mode: Mode)
    requires PatternOf(mode).Some? && WellFormed(PatternOf(mode).value)
    ensures var p := PatternOf(mode).value;
            p.layerID[0] == 0 && (p.flags[0].forceKey <==> mode !in {ThreeLayersOneReference, ThreeLayersNoSync})
  {
    match mode
    case OneLayer =>
    case TwoLayers =>
    case TwoLayersThreeFrame =>
    case ThreeLayersSixFrame =>
    case ThreeLayersNoInterLayerPrediction =>
    case ThreeLayersLayerOnePrediction =>
    case ThreeLayers =>
    case FiveLayers =>
    case TwoLayersWithSync =>
    case ThreeLayersWithSync =>
    case ThreeLayersAltRefWithSync =>
    case ThreeLayersOneReference =>
    case ThreeLayersNoSync =>
  }

  lemma FirstStep(mode: Mode, kbps: seq<int>, input: Input<int>, start: Buffers<int>)
    requires PatternOf(mode).Some? && |kbps| == MAX_LAYERS && !mode.OtherMode? && Undisturbed(mode, 0, [input])
    ensures var e := Fresh(mode, kbps);
            && PacketOf(e, input).Some? && PacketOf(e, input).value.layerID <= EVERY_LAYER
            && Before(mode, Step(e, input), 1, Absorb(FrameNumber, start, PacketOf(e, input).value))
  {
    assert input == [input][0];
    CodedStep(Fresh(mode, kbps), input);
    KeyFrameStands(mode, 0);
  }

  /** The stream after its first frame. */
  lemma FirstOfStream(
    mode: Mode, kbps: seq<int>, inputs: seq<Input<int>>, start: Buffers<int>, last: Encoder, left: Buffers<int>)
    returns (e': Encoder, held': Buffers<int>, rest: seq<Input<int>>)
    requires PatternOf(mode).Some? && |kbps| == MAX_LAYERS && !mode.OtherMode?
    requires inputs != [] && Undisturbed(mode, 0, inputs)
    requires EndsIn(Fresh(mode, kbps), start, inputs, last, left)
    ensures Before(mode, e', 1, held') && Undisturbed(mode, 1, rest) && |rest| == |inputs| - 1
    ensures EndsIn(e', held', rest, last, left)
  {
    var e := Fresh(mode, kbps);
    UndisturbedParts(mode, 0, inputs);
    FirstStep(mode, kbps, inputs[0], start);
    FirstIsAbsorbed(e, inputs, start);
    e', held' := Step(e, inputs[0]), Absorb(FrameNumber, start, PacketOf(e, inputs[0]).value);
    rest := inputs[1..];
  }

  /** The state after any undisturbed start of a stream. */
  lemma StreamAsPlanned(
    mode: Mode, kbps: seq<int>, inputs: seq<Input<int>>, start: Buffers<int>, last: Encoder, left: Buffers<int>)
    requires PatternOf(mode).Some? && |kbps| == MAX_LAYERS && !mode.OtherMode?
    requires 0 < |inputs| < TWO_TO_THE_64 && Undisturbed(mode, 0, inputs)
    requires EndsIn(Fresh(mode, kbps), start, inputs, last, left)
    ensures Before(mode, last, |inputs|, left)
  {
    var e', held', rest := FirstOfStream(mode, kbps, inputs, start, last, left);
    RunAsPlanned(mode, e', 1, held', rest, |inputs|, last, left);
  }

  /** What is announced about a frame. */
  lemma Announced(s: Schedule, timing: Timing)
    requires s.Valid()
    ensures var meta := s.NextFrame(timing);
            && meta.layerID == s.LayerID() && meta.layerCount == s.pattern.layers && meta.sync == s.Sync()
            && meta.tl0PicIdx == s.NextTL0() && meta.flags == s.FrameFlags()
            && meta.cumulativeKbps == s.kbps[meta.layerID]
            && (forall k :: 0 <= k < MAX_LAYERS ==> IsInt(s.kbps[k]) && 0 <= s.kbps[k]) ==>
                 meta.layerKbps == s.kbps[meta.layerID] - if meta.layerID == 0 then 0 else s.kbps[meta.layerID - 1]
  {
  }

  /** In every mode, frame n of a stream that nothing disturbs is announced, may predict, and refreshes as planned; the
      five-layer mode forces a key frame of the base layer at every sixteenth frame, and no other frame after the first
      is forced to be one. */
  lemma FramesFollowPlan(
    mode: Mode, kbps: seq<int>, inputs: seq<Input<int>>, start: Buffers<int>, timing: Timing)
    requires PatternOf(mode).Some? && |kbps| == MAX_LAYERS
    requires 0 < |inputs| < TWO_TO_THE_64 && Undisturbed(mode, 0, inputs)
    ensures var n, e := |inputs|, Final(Fresh(mode, kbps), inputs);
            var held := BuffersAfter(FrameNumber, start, Emitted(Fresh(mode, kbps), inputs), EVERY_LAYER);
            var meta := e.schedule.NextFrame(timing);
            && !mode.OtherMode?
            && (mode == FiveLayers && n % 16 == 0 ==> meta.flags.forceKey && meta.layerID == 0 && !meta.sync)
            && (mode != FiveLayers || n % 16 != 0 ==>
                  && AsPlanned(e, held, PlanOf(mode, n))
                  && !meta.flags.forceKey
                  && meta.layerID == PlanOf(mode, n).layer && meta.sync == PlanOf(mode, n).sync)
  {
    PatternsAreWellFormed(mode);
    var n, e := |inputs|, Final(Fresh(mode, kbps), inputs);
    var held := BuffersAfter(FrameNumber, start, Emitted(Fresh(mode, kbps), inputs), EVERY_LAYER);
    StreamAsPlanned(mode, kbps, inputs, start, e, held);
    Announced(e.schedule, timing);
    if IsKeyFrame(mode, n) {
      ForcedKeyFrame(e.schedule, n);
    } else {
      FrameAsPlanned(mode, e, n, held);
    }
  }

  lemma ForcedKeyFrame(s: Schedule, n: nat)
    requires s.Valid() && s.mode == FiveLayers && PatternOf(FiveLayers) == Some(s.pattern)
    requires s.layerIDOverride == -1 && s.frameIndex == n && n % 16 == 0
    ensures s.FrameFlags().forceKey && s.LayerID() == 0 && !s.Sync()
  {
  }

  /** Which frames are announced as sync frames. */
  lemma SyncFrames(mode: Mode, n: nat)
    requires !mode.OtherMode? && !IsKeyFrame(mode, n)
    ensures PlanOf(mode, n).sync <==>
              match mode
              case OneLayer => false
              case TwoLayers => n == 1
              case TwoLayersThreeFrame => n % 3 != 0
              case ThreeLayersSixFrame => n == 1 || n == 3
              case ThreeLayersNoInterLayerPrediction => n % 4 != 0
              case ThreeLayersLayerOnePrediction => n % 4 == 1 || n % 4 == 3 || n == 2
              case ThreeLayers => n == 1 || n == 2
              case FiveLayers => n % 16 != 12
              case TwoLayersWithSync => n % 8 == 1
              case ThreeLayersWithSync => n % 8 == 1 || n % 8 == 2
              case ThreeLayersAltRefWithSync => n % 8 != 0 && n % 8 != 4 && n % 8 != 6
              case ThreeLayersOneReference => n % 4 != 0
              case ThreeLayersNoSync => n % 8 == 1 || n % 8 == 3 || n % 8 == 5 || n % 8 == 7 || n == 2
  {
    if n < 4 {
      SyncAt(mode, n, n % Length(mode));
    } else {
      SyncAt(mode, n, n % Length(mode));
    }
  }

  lemma SyncAt(mode: Mode, n: nat, k: nat)
    requires !mode.OtherMode? && 0 < n && k < Length(mode) && (mode == FiveLayers ==> k != 0)
    requires n < 4 && n < Length(mode) ==> k == n
    ensures PlanAt(mode, n, k).sync <==>
              match mode
              case OneLayer => false
              case TwoLayers => n == 1
              case TwoLayersThreeFrame => k != 0
              case ThreeLayersSixFrame => n == 1 || n == 3
              case ThreeLayersNoInterLayerPrediction => k != 0
              case ThreeLayersLayerOnePrediction => k == 1 || k == 3 || n == 2
              case ThreeLayers => n == 1 || n == 2
              case FiveLayers => k != 12
              case TwoLayersWithSync => k == 1
              case ThreeLayersWithSync => k == 1 || k == 2
              case ThreeLayersAltRefWithSync => k != 0 && k != 4 && k != 6
              case ThreeLayersOneReference => k != 0
              case ThreeLayersNoSync => k == 1 || k == 3 || k == 5 || k == 7 || n == 2
  {
  }
}
