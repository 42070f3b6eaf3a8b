/** One set of rate-control registers serving every temporal layer: before a frame the layer's saved context is loaded
    into the registers, after it the context is saved again and the contexts of the other layers are credited.
    The main results say that this is the same as giving each layer a private set. */
module LayerContext {
  import opened Arith
  import opened Wrappers
  import opened Temporal

  datatype RefUsage = RefUsage(intra: int, last: int, golden: int, alt: int)

  /** What a layer keeps between its frames. */
  datatype Context = Context(
    filterLevel: int,
    bufferLevelBits: int, bufferInitialBits: int, bufferOptimalBits: int, maximumBufferBits: int,
    bitsPerFrame: int, totalActualBits: int,
    rateCorrectionFactor: real, keyFrameCorrectionFactor: real, goldenCorrectionFactor: real,
    activeBestQuantizer: int, avgFrameQuantizer: int,
    normalInterAvgQuantizer: int, normalInterFrames: int, normalInterQuantizerTotal: int,
    lastQuantizer: int, lastInterQuantizer: int, currentZbinOverQuant: int,
    framesSinceLastDropOvershoot: int, forceMaxQuantizer: bool,
    lastFramePercentIntra: int, interFrameTarget: int,
    recentRefFrameUsage: RefUsage, mbRefFrameUsage: RefUsage)

  /** The encoder's registers; the buffer size is not part of a context but follows its maximum. */
  datatype Registers = Registers(current: Context, bufferSizeBits: int)

  /** The part of the registers that lives in the rate-control state. */
  datatype RateControl = RateControl(
    bufferLevelBits: int, bufferInitialBits: int, bufferOptimalBits: int, maximumBufferBits: int, bufferSizeBits: int,
    bitsPerFrame: int, totalActualBits: int,
    rateCorrectionFactor: real, keyFrameCorrectionFactor: real, goldenCorrectionFactor: real,
    activeBestQuantizer: int, avgFrameQuantizer: int,
    normalInterAvgQuantizer: int, normalInterFrames: int, normalInterQuantizerTotal: int,
    lastQuantizer: int, lastInterQuantizer: int, currentZbinOverQuant: int,
    framesSinceLastDropOvershoot: int, interFrameTarget: int, recentRefFrameUsage: RefUsage)

  datatype Geometry = Geometry(initialBits: int, optimalBits: int, maximumBits: int, bitsPerFrame: int) {
    predicate Positive() {
      0 < initialBits && 0 < optimalBits && 0 < maximumBits && 0 < bitsPerFrame
    }
  }

  /** The buffer settings every layer's geometry is scaled from. */
  datatype BufferSettings = BufferSettings(timing: Timing, initialMs: int, optimalMs: int, sizeMs: int)

  /** The geometry of a layer with this cumulative bitrate. */
  function LayerGeometry(kbps: int, decimator: int, settings: BufferSettings): Geometry {
    Geometry(BufferBits(kbps, settings.initialMs), BufferBits(kbps, settings.optimalMs),
             BufferBits(kbps, settings.sizeMs), LayerBitsPerFrame(TargetBits(kbps), settings.timing, decimator))
  }

  predicate PositiveGeometry(c: Context) {
    0 < c.bufferInitialBits && 0 < c.bufferOptimalBits && 0 < c.maximumBufferBits && 0 < c.bitsPerFrame
  }

  /* The operations on values */

  /** A context loaded over the registers; a geometry field that is not positive leaves the register alone. */
  function Restored(held: Registers, c: Context): Registers {
    Registers(
      c.(bufferInitialBits := if c.bufferInitialBits > 0 then c.bufferInitialBits else held.current.bufferInitialBits,
         bufferOptimalBits := if c.bufferOptimalBits > 0 then c.bufferOptimalBits else held.current.bufferOptimalBits,
         maximumBufferBits := if c.maximumBufferBits > 0 then c.maximumBufferBits else held.current.maximumBufferBits,
         bitsPerFrame := if c.bitsPerFrame > 0 then c.bitsPerFrame else held.current.bitsPerFrame),
      if c.maximumBufferBits > 0 then c.maximumBufferBits else held.bufferSizeBits)
  }

  /** The registers a layer with registers of its own would hold. */
  function Private(c: Context): Registers {
    Registers(c, c.maximumBufferBits)
  }

  /** A lower layer's frame took `bits` bits out of this layer's cumulative stream. */
  function Credited(c: Context, bits: int): Context {
    if bits < 0 then c
    else
      c.(bufferLevelBits :=
           Min(SaturatingSub(SaturatingAdd(c.bufferLevelBits, c.bitsPerFrame), bits), c.maximumBufferBits),
         totalActualBits :=
           if bits == 0 then c.totalActualBits
           else if c.totalActualBits > MAX_INT - bits then MAX_INT
           else c.totalActualBits + bits)
  }

  /** A lower layer's frame was dropped. */
  function Refilled(c: Context): Context {
    c.(bufferLevelBits := Min(SaturatingAdd(c.bufferLevelBits, c.bitsPerFrame), c.maximumBufferBits))
  }

  function NormalizedFactor(factor: real): real {
    if factor <= 0.0 then 1.0 else factor
  }

  /** Any layer's frame overshot and was discarded: the next frame of every layer runs at the worst quantizer. */
  function Alarmed(c: Context, factor: real): Context {
    c.(forceMaxQuantizer := true, framesSinceLastDropOvershoot := 0, rateCorrectionFactor := factor)
  }

  function Retuned(c: Context, g: Geometry): Context {
    c.(bufferInitialBits := g.initialBits, bufferOptimalBits := g.optimalBits,
       maximumBufferBits := g.maximumBits, bitsPerFrame := g.bitsPerFrame)
  }

  const NO_USAGE := RefUsage(0, 0, 0, 0)

  /** The context of a layer that has not coded a frame: its own geometry, neutral factors, and from the registers only
      what all layers start from. */
  function InitialContext(g: Geometry, held: Registers, minQuantizer: int, maxQuantizer: int): Context {
    var r := held.current;
    Context(0, g.initialBits, g.initialBits, g.optimalBits, g.maximumBits, g.bitsPerFrame, 0, 1.0, 1.0, 1.0,
            minQuantizer, maxQuantizer, 0, 0, 0, r.lastQuantizer, r.lastInterQuantizer, 0,
            r.framesSinceLastDropOvershoot, false, r.lastFramePercentIntra, 0, r.recentRefFrameUsage, NO_USAGE)
  }

  const MAX_CORRECTION_FACTOR := 50.0

  /** Whether an overshoot drop raises the correction factor: `target` is the ratio of the wanted to the worst-quantizer
      bits of a macroblock, where both are known. */
  predicate Raises(factor: real, target: Option<real>) {
    target.Some? && target.value > NormalizedFactor(factor)
  }

  /** The raised factor: at most doubled, and at most the maximum. */
  function RaisedFactor(factor: real, target: Option<real>): real {
    if !Raises(factor, target) then factor
    else
      var doubled := 2.0 * NormalizedFactor(factor);
      var capped := if target.value > doubled then doubled else target.value;
      if capped > MAX_CORRECTION_FACTOR then MAX_CORRECTION_FACTOR else capped
  }

  /** What the overshoot drop writes into the registers. */
  function Overshot(r: Registers, target: Option<real>): Registers {
    r.(current := r.current.(
      forceMaxQuantizer := true,
      bufferLevelBits :=
        if r.current.bufferOptimalBits > 0 then r.current.bufferOptimalBits else r.current.bufferLevelBits,
      rateCorrectionFactor := RaisedFactor(r.current.rateCorrectionFactor, target),
      framesSinceLastDropOvershoot := 0))
  }

  datatype Verdict = Coded(bits: int) | RateDropped | OvershootDropped | Failed

  /** What layer k's context becomes when a frame of `layer` ends with `after` in the registers. */
  function ContextAfter(c: Option<Context>, k: int, layer: int, layers: int, verdict: Verdict, after: Registers):
    (r: Option<Context>)
    ensures c.Some? ==> r.Some?
  {
    if verdict.Failed? then c
    else if k == layer then Some(after.current)
    else if c.None? || layers <= k then c
    else
      match verdict
      case Coded(bits) => if layer < k then Some(Credited(c.value, bits)) else c
      case RateDropped => if layer < k then Some(Refilled(c.value)) else c
      case OvershootDropped => Some(Alarmed(c.value, NormalizedFactor(after.current.rateCorrectionFactor)))
      case Failed => c
  }

  /** All contexts after a frame. */
  function ContextsAfter(contexts: seq<Option<Context>>, layer: int, layers: int, verdict: Verdict, after: Registers):
    (r: seq<Option<Context>>)
    ensures |r| == |contexts|
  {
    seq(|contexts|, k requires 0 <= k < |contexts| => ContextAfter(contexts[k], k, layer, layers, verdict, after))
  }

  /* The encoder's registers and slots, updated in place */

  class SharedRegisters {
    var loopFilterLevel: int
    var rc: RateControl
    var forceMaxQuantizer: bool
    var lastFramePercentIntra: int
    var temporalLayerRefUsage: RefUsage
    const codingState: array<Context>
    const codingValid: array<bool>

    ghost predicate Valid()
      reads this
    {
      codingState.Length == MAX_LAYERS && codingValid.Length == MAX_LAYERS
    }

    /** The registers as a value. */
    function Held(): Registers
      reads this
    {
      Registers(
        Context(loopFilterLevel,
                rc.bufferLevelBits, rc.bufferInitialBits, rc.bufferOptimalBits, rc.maximumBufferBits,
                rc.bitsPerFrame, rc.totalActualBits,
                rc.rateCorrectionFactor, rc.keyFrameCorrectionFactor, rc.goldenCorrectionFactor,
                rc.activeBestQuantizer, rc.avgFrameQuantizer,
                rc.normalInterAvgQuantizer, rc.normalInterFrames, rc.normalInterQuantizerTotal,
                rc.lastQuantizer, rc.lastInterQuantizer, rc.currentZbinOverQuant,
                rc.framesSinceLastDropOvershoot, forceMaxQuantizer,
                lastFramePercentIntra, rc.interFrameTarget,
                rc.recentRefFrameUsage, temporalLayerRefUsage),
        rc.bufferSizeBits)
    }

    /** Layer k's saved context, None before its first save. */
    ghost function Slot(k: int): Option<Context>
      requires Valid() && 0 <= k < MAX_LAYERS
      reads this, codingState, codingValid
    {
      if codingValid[k] then Some(codingState[k]) else None
    }

    ghost function Slots(): (r: seq<Option<Context>>)
      requires Valid()
      reads this, codingState, codingValid
      ensures |r| == MAX_LAYERS
    {
      seq(MAX_LAYERS, k requires 0 <= k < MAX_LAYERS reads this, codingState, codingValid => Slot(k))
    }

    /** Every layer of the pattern gets its initial context. */
    method Initialize(geometry: seq<Geometry>, minQuantizer: int, maxQuantizer: int)
      requires Valid() && |geometry| <= MAX_LAYERS
      modifies codingState, codingValid
      ensures Held() == old(Held())
      ensures forall k :: 0 <= k < MAX_LAYERS ==>
                Slot(k) == if k < |geometry| then Some(InitialContext(geometry[k], Held(), minQuantizer, maxQuantizer))
                           else old(Slot(k))
    {
      for k := 0 to |geometry|
        invariant forall j :: 0 <= j < MAX_LAYERS ==>
                    Slot(j) == if j < k then Some(InitialContext(geometry[j], Held(), minQuantizer, maxQuantizer))
                               else old(Slot(j))
      {
        codingState[k] := InitialContext(geometry[k], Held(), minQuantizer, maxQuantizer);
        codingValid[k] := true;
      }
    }

    /** The registers' part of dropping a frame that overshot. */
    method DropOvershoot(target: Option<real>)
      modifies this
      ensures Held() == Overshot(old(Held()), target)
    {
      var factor := NormalizedFactor(rc.rateCorrectionFactor);
      forceMaxQuantizer := true;
      if rc.bufferOptimalBits > 0 {
        rc := rc.(bufferLevelBits := rc.bufferOptimalBits);
      }
      if target.Some? {
        var raised := target.value;
        if raised > factor {
          var capped := 2.0 * factor;
          if raised > capped {
            raised := capped;
          }
          if raised > MAX_CORRECTION_FACTOR {
            raised := MAX_CORRECTION_FACTOR;
          }
          rc := rc.(rateCorrectionFactor := raised);
        }
      }
      rc := rc.(framesSinceLastDropOvershoot := 0);
    }

    method Restore(layer: int)
      requires Valid()
      modifies this
      ensures Valid()
      ensures Held() == if 0 <= layer < MAX_LAYERS && old(Slot(layer)).Some?
                        then Restored(old(Held()), old(Slot(layer)).value)
                        else old(Held())
    {
      if !(0 <= layer < MAX_LAYERS) {
        return;
      }
      if !codingValid[layer] {
        return;
      }
      Apply(codingState[layer]);
    }

    method Apply(state: Context)
      requires Valid()
      modifies this
      ensures Valid() && Held() == Restored(old(Held()), state)
    {
      loopFilterLevel := state.filterLevel;
      rc := rc.(bufferLevelBits := state.bufferLevelBits);
      if state.bufferInitialBits > 0 {
        rc := rc.(bufferInitialBits := state.bufferInitialBits);
      }
      if state.bufferOptimalBits > 0 {
        rc := rc.(bufferOptimalBits := state.bufferOptimalBits);
      }
      if state.maximumBufferBits > 0 {
        rc := rc.(maximumBufferBits := state.maximumBufferBits, bufferSizeBits := state.maximumBufferBits);
      }
      if state.bitsPerFrame > 0 {
        rc := rc.(bitsPerFrame := state.bitsPerFrame);
      }
      rc := rc.(
        totalActualBits := state.totalActualBits,
        rateCorrectionFactor := state.rateCorrectionFactor,
        keyFrameCorrectionFactor := state.keyFrameCorrectionFactor,
        goldenCorrectionFactor := state.goldenCorrectionFactor,
        activeBestQuantizer := state.activeBestQuantizer,
        avgFrameQuantizer := state.avgFrameQuantizer,
        normalInterAvgQuantizer := state.normalInterAvgQuantizer,
        normalInterFrames := state.normalInterFrames,
        normalInterQuantizerTotal := state.normalInterQuantizerTotal,
        lastQuantizer := state.lastQuantizer,
        lastInterQuantizer := state.lastInterQuantizer,
        currentZbinOverQuant := state.currentZbinOverQuant,
        framesSinceLastDropOvershoot := state.framesSinceLastDropOvershoot,
        interFrameTarget := state.interFrameTarget,
        recentRefFrameUsage := state.recentRefFrameUsage);
      forceMaxQuantizer := state.forceMaxQuantizer;
      lastFramePercentIntra := state.lastFramePercentIntra;
      temporalLayerRefUsage := state.mbRefFrameUsage;
    }

    method Save(layer: int)
      requires Valid()
      modifies codingState, codingValid
      ensures Slots() == if 0 <= layer < MAX_LAYERS
                         then old(Slots())[layer := Some(Held().current)]
                         else old(Slots())
    {
      if !(0 <= layer < MAX_LAYERS) {
        return;
      }
      codingState[layer] := Held().current;
      codingValid[layer] := true;
    }

    method PropagateCoded(layer: int, layers: int, bits: int)
      requires Valid() && 0 <= layer
      modifies codingState
      ensures forall k :: 0 <= k < MAX_LAYERS ==>
                Slot(k) == if layer < k then ContextAfter(old(Slot(k)), k, layer, layers, Coded(bits), Held())
                           else old(Slot(k))
    {
      if bits < 0 {
        return;
      }
      var k := layer + 1;
      while k < layers && k < MAX_LAYERS
        invariant layer < k
        invariant forall j :: 0 <= j < MAX_LAYERS ==>
                    Slot(j) == if layer < j < k
                               then ContextAfter(old(Slot(j)), j, layer, layers, Coded(bits), Held())
                               else old(Slot(j))
      {
        if codingValid[k] {
          var state := codingState[k];
          var level := SaturatingAdd(state.bufferLevelBits, state.bitsPerFrame);
          level := Min(SaturatingSub(level, bits), state.maximumBufferBits);
          state := state.(bufferLevelBits := level);
          if bits > 0 {
            if state.totalActualBits > MAX_INT - bits {
              state := state.(totalActualBits := MAX_INT);
            } else {
              state := state.(totalActualBits := state.totalActualBits + bits);
            }
          }
          codingState[k] := state;
        }
        k := k + 1;
      }
    }

    method PropagateDropped(layer: int, layers: int)
      requires Valid() && 0 <= layer
      modifies codingState
      ensures forall k :: 0 <= k < MAX_LAYERS ==>
                Slot(k) == if layer < k then ContextAfter(old(Slot(k)), k, layer, layers, RateDropped, Held())
                           else old(Slot(k))
    {
      var k := layer + 1;
      while k < layers && k < MAX_LAYERS
        invariant layer < k
        invariant forall j :: 0 <= j < MAX_LAYERS ==>
                    Slot(j) == if layer < j < k
                               then ContextAfter(old(Slot(j)), j, layer, layers, RateDropped, Held())
                               else old(Slot(j))
      {
        if codingValid[k] {
          var state := codingState[k];
          codingState[k] := state.(bufferLevelBits :=
            Min(SaturatingAdd(state.bufferLevelBits, state.bitsPerFrame), state.maximumBufferBits));
        }
        k := k + 1;
      }
    }

    method PropagateOvershoot(layers: int)
      requires Valid()
      modifies codingState
      ensures forall k :: 0 <= k < MAX_LAYERS ==>
                Slot(k) == if k < layers && old(Slot(k)).Some?
                           then Some(Alarmed(old(Slot(k)).value, NormalizedFactor(rc.rateCorrectionFactor)))
                           else old(Slot(k))
    {
      var factor := NormalizedFactor(rc.rateCorrectionFactor);
      var k := 0;
      while k < layers && k < MAX_LAYERS
        invariant 0 <= k && (k == 0 || k <= layers)
        invariant forall j :: 0 <= j < MAX_LAYERS ==>
                    Slot(j) == if j < k && old(Slot(j)).Some?
                               then Some(Alarmed(old(Slot(j)).value, factor))
                               else old(Slot(j))
      {
        if codingValid[k] {
          codingState[k] := codingState[k].(forceMaxQuantizer := true, framesSinceLastDropOvershoot := 0,
                                            rateCorrectionFactor := factor);
        }
        k := k + 1;
      }
    }

    /** The tail of a frame: whichever of the four ways it ended, in the order the encoder calls the steps. */
    method Commit(layer: int, layers: int, verdict: Verdict)
      requires Valid() && 0 <= layer < layers <= MAX_LAYERS
      modifies codingState, codingValid
      ensures Held() == old(Held())
      ensures Slots() == ContextsAfter(old(Slots()), layer, layers, verdict, Held())
    {
      match verdict {
        case Coded(bits) =>
          Save(layer);
          assert forall k :: 0 <= k < MAX_LAYERS ==> Slots()[k] == Slot(k);
          PropagateCoded(layer, layers, bits);
        case RateDropped =>
          PropagateDropped(layer, layers);
          Save(layer);
        case OvershootDropped =>
          PropagateOvershoot(layers);
          Save(layer);
        case Failed =>
      }
    }

    /** A runtime change of bitrate or buffer settings gives every layer a new geometry. */
    method RefreshGeometry(geometry: seq<Geometry>)
      requires Valid() && |geometry| <= MAX_LAYERS
      modifies codingState
      ensures forall k :: 0 <= k < MAX_LAYERS ==>
                Slot(k) == if k < |geometry| && old(Slot(k)).Some?
                           then Some(Retuned(old(Slot(k)).value, geometry[k]))
                           else old(Slot(k))
    {
      for k := 0 to |geometry|
        invariant forall j :: 0 <= j < MAX_LAYERS ==>
                    Slot(j) == if j < k && old(Slot(j)).Some?
                               then Some(Retuned(old(Slot(j)).value, geometry[j]))
                               else old(Slot(j))
      {
        var g := geometry[k];
        codingState[k] := codingState[k].(bufferInitialBits := g.initialBits, bufferOptimalBits := g.optimalBits,
                                          maximumBufferBits := g.maximumBits, bitsPerFrame := g.bitsPerFrame);
      }
    }
  }

  /* What the contexts are filled with */

  /** The buffer figures of a layer with this cumulative bitrate: milliseconds of its stream, and what that earns per
      frame. */
  ghost predicate HasGeometry(c: Context, kbps: int, decimator: int, settings: BufferSettings) {
    && c.bufferInitialBits == kbps * settings.initialMs
    && c.bufferOptimalBits == kbps * settings.optimalMs
    && c.maximumBufferBits == kbps * settings.sizeMs
    && var bits := 1000 * kbps * settings.timing.timebaseNum * settings.timing.frameDuration * decimator;
       var den := settings.timing.timebaseDen;
       -den <= 2 * (c.bitsPerFrame * den - bits) <= den
  }

  /** Nothing in these settings leaves 64 bits. */
  ghost predicate FitsInt(kbps: int, decimator: int, settings: BufferSettings) {
    && 0 <= kbps && 0 <= decimator && 1000 * kbps <= MAX_INT
    && 0 <= settings.initialMs && kbps * settings.initialMs <= MAX_INT
    && 0 <= settings.optimalMs && kbps * settings.optimalMs <= MAX_INT
    && 0 <= settings.sizeMs && kbps * settings.sizeMs <= MAX_INT
    && 0 <= settings.timing.timebaseNum && 0 <= settings.timing.frameDuration && 0 < settings.timing.timebaseDen
    && var bits := 1000 * kbps * settings.timing.timebaseNum * settings.timing.frameDuration * decimator;
       0 <= bits && bits + settings.timing.timebaseDen <= MAX_INT
  }

  /** A layer that has not coded a frame starts with its own buffer figures, the initial level, neutral factors and no
      history; only the last quantizers, the drop counter, the intra share and the reference usage are inherited. */
  lemma FreshContext(
    kbps: int, decimator: int, settings: BufferSettings, held: Registers, minQuantizer: int, maxQuantizer: int)
    requires FitsInt(kbps, decimator, settings)
    ensures var c, r := InitialContext(LayerGeometry(kbps, decimator, settings), held, minQuantizer, maxQuantizer),
                        held.current;
            && HasGeometry(c, kbps, decimator, settings) && c.bufferLevelBits == kbps * settings.initialMs
            && c.rateCorrectionFactor == c.keyFrameCorrectionFactor == c.goldenCorrectionFactor == 1.0
            && c.activeBestQuantizer == minQuantizer && c.avgFrameQuantizer == maxQuantizer
            && c.filterLevel == c.totalActualBits == c.normalInterAvgQuantizer == c.normalInterFrames == 0
            && c.normalInterQuantizerTotal == c.currentZbinOverQuant == c.interFrameTarget == 0
            && !c.forceMaxQuantizer && c.mbRefFrameUsage == RefUsage(0, 0, 0, 0)
            && c.lastQuantizer == r.lastQuantizer && c.lastInterQuantizer == r.lastInterQuantizer
            && c.framesSinceLastDropOvershoot == r.framesSinceLastDropOvershoot
            && c.lastFramePercentIntra == r.lastFramePercentIntra && c.recentRefFrameUsage == r.recentRefFrameUsage
  {
    BandwidthIsNearest(kbps, decimator, settings.timing);
  }

  /** A change of settings replaces the four buffer figures and nothing else. */
  lemma RetunedContext(c: Context, kbps: int, decimator: int, settings: BufferSettings)
    requires FitsInt(kbps, decimator, settings)
    ensures var r := Retuned(c, LayerGeometry(kbps, decimator, settings));
            && HasGeometry(r, kbps, decimator, settings)
            && r.(bufferInitialBits := c.bufferInitialBits, bufferOptimalBits := c.bufferOptimalBits,
                  maximumBufferBits := c.maximumBufferBits, bitsPerFrame := c.bitsPerFrame) == c
  {
    BandwidthIsNearest(kbps, decimator, settings.timing);
  }

  /** An overshoot drop only raises the factor: to the target, but at most to twice what it was (1 standing for one that
      is not positive) and at most to 50. */
  lemma FactorIsRaised(factor: real, target: Option<real>)
    ensures var was, r := if factor <= 0.0 then 1.0 else factor, RaisedFactor(factor, target);
            if target == None || target.value <= was then r == factor
            else
              && r <= target.value && r <= 2.0 * was && r <= 50.0
              && (r == target.value || r == 2.0 * was || r == 50.0)
  {
  }

  /* Loading a context is exact */

  /** Each geometry field of the context is positive or already in its register. */
  predicate LoadsExactly(held: Registers, c: Context) {
    && (0 < c.bufferInitialBits || held.current.bufferInitialBits == c.bufferInitialBits)
    && (0 < c.bufferOptimalBits || held.current.bufferOptimalBits == c.bufferOptimalBits)
    && (0 < c.maximumBufferBits ||
        (held.current.maximumBufferBits == c.maximumBufferBits && held.bufferSizeBits == c.maximumBufferBits))
    && (0 < c.bitsPerFrame || held.current.bitsPerFrame == c.bitsPerFrame)
  }

  /** That is exactly when loading a context wipes out whatever the registers held. */
  lemma RestoreIsExact(held: Registers, c: Context)
    ensures Restored(held, c) == Private(c) <==> LoadsExactly(held, c)
  {
    var r := Restored(held, c);
    assert r == Private(c) <==>
      && r.current.bufferInitialBits == c.bufferInitialBits && r.current.bufferOptimalBits == c.bufferOptimalBits
      && r.current.maximumBufferBits == c.maximumBufferBits && r.current.bitsPerFrame == c.bitsPerFrame
      && r.bufferSizeBits == c.maximumBufferBits;
  }

  /* Runs of the shared registers */

  /** A frame of `layer` that ended with `after` in the registers, or a runtime change of settings. */
  datatype Event =
    | Frame(layer: int, verdict: Verdict, after: Registers)
    | Reconfigured(held: Registers, geometry: seq<Geometry>)

  datatype State = State(held: Registers, contexts: seq<Option<Context>>)

  /** What layer k's context becomes by one event, computed from that context alone. */
  function Replayed(c: Option<Context>, k: nat, layers: int, event: Event): Option<Context> {
    match event
    case Frame(layer, verdict, after) => ContextAfter(c, k, layer, layers, verdict, after)
    case Reconfigured(_, geometry) =>
      if k < |geometry| && c.Some? then Some(Retuned(c.value, geometry[k])) else c
  }

  function Next(s: State, layers: int, event: Event): (r: State)
    ensures |r.contexts| == |s.contexts|
  {
    match event
    case Frame(layer, verdict, after) => State(after, ContextsAfter(s.contexts, layer, layers, verdict, after))
    case Reconfigured(held, geometry) =>
      State(held, seq(|s.contexts|, k requires 0 <= k < |s.contexts| => Replayed(s.contexts[k], k, layers, event)))
  }

  /** The registers a frame of `layer` is encoded with. */
  function Entered(s: State, layer: int): Registers
    requires 0 <= layer < |s.contexts|
  {
    if s.contexts[layer].Some? then Restored(s.held, s.contexts[layer].value) else s.held
  }

  function StateAfter(s: State, layers: int, log: seq<Event>, n: nat): (r: State)
    requires n <= |log|
    ensures |r.contexts| == |s.contexts|
  {
    if n == 0 then s else Next(StateAfter(s, layers, log, n - 1), layers, log[n - 1])
  }

  /** The private context of layer k after n events: no registers, no other layer's context. */
  function Replay(c: Option<Context>, k: nat, layers: int, log: seq<Event>, n: nat): Option<Context>
    requires n <= |log|
  {
    if n == 0 then c else Replayed(Replay(c, k, layers, log, n - 1), k, layers, log[n - 1])
  }

  /** Every event leaves positive buffer geometry behind. */
  ghost predicate PositiveEvent(event: Event) {
    match event
    case Frame(_, verdict, after) => verdict.Failed? || PositiveGeometry(after.current)
    case Reconfigured(_, geometry) =>
      forall k :: 0 <= k < |geometry| ==> geometry[k].Positive()
  }

  lemma {:induction false} SlotsAreReplays(s: State, layers: int, log: seq<Event>, n: nat, k: nat)
    requires n <= |log| && k < |s.contexts|
    ensures StateAfter(s, layers, log, n).contexts[k] == Replay(s.contexts[k], k, layers, log, n)
  {
    if n > 0 {
      SlotsAreReplays(s, layers, log, n - 1, k);
    }
  }

  lemma {:induction false} ReplayStaysPositive(c: Option<Context>, k: nat, layers: int, log: seq<Event>, n: nat)
    requires n <= |log| && (forall m :: 0 <= m < n ==> PositiveEvent(log[m]))
    requires c.Some? && PositiveGeometry(c.value)
    ensures var r := Replay(c, k, layers, log, n); r.Some? && PositiveGeometry(r.value)
  {
    if n > 0 {
      ReplayStaysPositive(c, k, layers, log, n - 1);
      assert PositiveEvent(log[n - 1]);
    }
  }

  /** Before a frame, over any run whatever, the shared registers hold the private context of the frame's layer (the
      last saved values plus what lower-layer frames, overshoot drops and reconfigurations did to them since) exactly
      when that context loads exactly over what the previous frame left. */
  lemma RegistersArePrivate(s: State, layers: int, log: seq<Event>, n: nat, k: nat)
    requires n <= |log| && k < |s.contexts|
    ensures var own, now := Replay(s.contexts[k], k, layers, log, n), StateAfter(s, layers, log, n);
            if own.None? then Entered(now, k) == now.held
            else Entered(now, k) == Private(own.value) <==> LoadsExactly(now.held, own.value)
  {
    SlotsAreReplays(s, layers, log, n, k);
    var own := Replay(s.contexts[k], k, layers, log, n);
    if own.Some? {
      RestoreIsExact(StateAfter(s, layers, log, n).held, own.value);
    }
  }

  /** With positive geometry throughout, the registers are always private. */
  lemma PositiveRegistersArePrivate(s: State, layers: int, log: seq<Event>, n: nat, k: nat)
    requires n <= |log| && (forall m :: 0 <= m < n ==> PositiveEvent(log[m]))
    requires k < |s.contexts| && s.contexts[k].Some? && PositiveGeometry(s.contexts[k].value)
    ensures var own := Replay(s.contexts[k], k, layers, log, n);
            own.Some? && Entered(StateAfter(s, layers, log, n), k) == Private(own.value)
  {
    RegistersArePrivate(s, layers, log, n, k);
    ReplayStaysPositive(s.contexts[k], k, layers, log, n);
  }

  /** The contexts right after initialisation. */
  function Initialized(held: Registers, geometry: seq<Geometry>, minQuantizer: int, maxQuantizer: int): State {
    State(held, seq(|geometry|, k requires 0 <= k < |geometry| =>
                  Some(InitialContext(geometry[k], held, minQuantizer, maxQuantizer))))
  }

  const NO_RATES := [0, 0, 0, 0, 0]

  lemma AutomaticSplitOfOne()
    ensures NormalizeBitrates(NO_RATES, 3, 1) == Ok(([0, 0, 1, 0, 0], true))
  {
    assert Percent(40, 1) == 0 && Percent(60, 1) == 0;
    assert NO_RATES[0 := 0][1 := 0][2 := 1] == [0, 0, 1, 0, 0];
  }

  /** Privacy does fail on a configuration the encoder accepts: 1 kbps, split automatically over three layers, leaves
      the middle layer without a buffer of its own. In the order of the four-frame patterns (layers 0, 2, 1, 2) its
      first frame follows one of the top layer and runs on the top layer's buffer. */
  lemma ZeroRateLayerInheritsRegisters(
    held: Registers, settings: BufferSettings, minQuantizer: int, maxQuantizer: int,
    baseBits: nat, afterBase: Registers, topBits: nat)
    requires 0 < settings.sizeMs <= MAX_INT
    ensures NormalizeBitrates(NO_RATES, 3, 1) == Ok(([0, 0, 1, 0, 0], true))
    ensures var geometry :=
              [LayerGeometry(0, 4, settings), LayerGeometry(0, 2, settings), LayerGeometry(1, 1, settings)];
            var s := Initialized(held, geometry, minQuantizer, maxQuantizer);
            var base := Frame(0, Coded(baseBits), afterBase);
            var log := [base, Frame(2, Coded(topBits), Entered(Next(s, 3, base), 2))];
            var own, now := Replay(s.contexts[1], 1, 3, log, 2), StateAfter(s, 3, log, 2);
            && own.Some? && own.value.maximumBufferBits == 0
            && Entered(now, 1).current.maximumBufferBits == settings.sizeMs
            && Entered(now, 1) != Private(own.value)
  {
    AutomaticSplitOfOne();
    var geometry := [LayerGeometry(0, 4, settings), LayerGeometry(0, 2, settings), LayerGeometry(1, 1, settings)];
    var s := Initialized(held, geometry, minQuantizer, maxQuantizer);
    var base := Frame(0, Coded(baseBits), afterBase);
    var s1 := Next(s, 3, base);
    var log := [base, Frame(2, Coded(topBits), Entered(s1, 2))];
    assert geometry[2].maximumBits == settings.sizeMs && geometry[1].maximumBits == 0;
    assert Entered(s1, 2).current.maximumBufferBits == settings.sizeMs;
    SlotsAreReplays(s, 3, log, 2, 1);
    assert StateAfter(s, 3, log, 0) == s && StateAfter(s, 3, log, 1) == s1;
    assert StateAfter(s, 3, log, 2) == Next(s1, 3, log[1]);
  }

  /* What reaches a layer */

  /** Failed frames and higher-layer frames that did not overshoot are invisible to layer k. */
  predicate Reaches(event: Event, k: int) {
    event.Reconfigured? || (!event.verdict.Failed? && (event.layer <= k || event.verdict.OvershootDropped?))
  }

  /** The events among the first n that reach layer k. */
  function Reaching(log: seq<Event>, n: nat, k: int): seq<Event>
    requires n <= |log|
  {
    if n == 0 then [] else Reaching(log, n - 1, k) + (if Reaches(log[n - 1], k) then [log[n - 1]] else [])
  }

  lemma {:induction false} ReplayOfPrefix(
    c: Option<Context>, k: nat, layers: int, log: seq<Event>, more: seq<Event>, n: nat)
    requires n <= |log|
    ensures Replay(c, k, layers, log + more, n) == Replay(c, k, layers, log, n)
  {
    if n > 0 {
      ReplayOfPrefix(c, k, layers, log, more, n - 1);
    }
  }

  /** Higher-layer frames never disturb a layer: erasing them from the history changes nothing for it. */
  lemma {:induction false} HigherLayersNeverDisturb(c: Option<Context>, k: nat, layers: int, log: seq<Event>, n: nat)
    requires n <= |log|
    ensures Replay(c, k, layers, log, n) ==
            Replay(c, k, layers, Reaching(log, n, k), |Reaching(log, n, k)|)
  {
    if n > 0 {
      HigherLayersNeverDisturb(c, k, layers, log, n - 1);
      var before := Reaching(log, n - 1, k);
      if Reaches(log[n - 1], k) {
        ReplayOfPrefix(c, k, layers, before, [log[n - 1]], |before|);
      } else {
        assert Reaching(log, n, k) == before;
      }
    }
  }

  /** Nothing but coded, dropped and failed frames of other layers, from event m on. */
  ghost predicate OnlyOtherLayers(log: seq<Event>, m: nat, n: nat, k: int)
    requires m <= n <= |log|
  {
    forall i :: m <= i < n ==> IsOther(log[i], k)
  }

  predicate IsOther(event: Event, k: int) {
    event.Frame? && (event.verdict.Failed? || (event.layer != k && !event.verdict.OvershootDropped?))
  }

  /** The bits of the coded lower-layer frames among events m .. n. */
  function LowerBits(log: seq<Event>, m: nat, n: nat, k: int): nat
    requires m <= n <= |log|
    decreases n
  {
    if n == m then 0 else LowerBits(log, m, n - 1, k) + LowerBitsOf(log[n - 1], k)
  }

  function LowerBitsOf(event: Event, k: int): nat {
    if event.Frame? && event.layer < k && event.verdict.Coded? then Max(event.verdict.bits, 0) else 0
  }

  /** The buffer level after the lower-layer frames among events m .. n, each of which fills it by bitsPerFrame and
      drains its bits, under the cap. */
  function LedgerLevel(c: Context, log: seq<Event>, m: nat, n: nat, k: int): int
    requires m <= n <= |log|
    decreases n
  {
    if n == m then c.bufferLevelBits
    else
      var level, event := LedgerLevel(c, log, m, n - 1, k), log[n - 1];
      if !event.Frame? || k <= event.layer then level
      else
        match event.verdict
        case Coded(bits) =>
          if bits < 0 then level
          else Min(SaturatingSub(SaturatingAdd(level, c.bitsPerFrame), bits), c.maximumBufferBits)
        case RateDropped => Min(SaturatingAdd(level, c.bitsPerFrame), c.maximumBufferBits)
        case _ => level
  }

  /** Since a layer's last save, lower-layer frames moved its buffer level and added their bits to its total; every
      other register of the layer is what it saved. */
  lemma {:induction false} OnlyTheLedgerMoves(
    c: Option<Context>, k: nat, layers: int, log: seq<Event>, m: nat, n: nat)
    requires m < n <= |log| && k < layers
    requires log[m].Frame? && log[m].layer == k && !log[m].verdict.Failed?
    requires log[m].after.current.totalActualBits <= MAX_INT
    requires OnlyOtherLayers(log, m + 1, n, k)
    ensures var saved := log[m].after.current;
            Replay(c, k, layers, log, n) ==
            Some(saved.(bufferLevelBits := LedgerLevel(saved, log, m + 1, n, k),
                        totalActualBits := Min(saved.totalActualBits + LowerBits(log, m + 1, n, k), MAX_INT)))
    decreases n
  {
    if n > m + 1 {
      OnlyTheLedgerMoves(c, k, layers, log, m, n - 1);
      assert IsOther(log[n - 1], k);
    }
  }

  /** A frame whose encode ended in an overshoot drop leaves the alarm in every valid layer. Its own layer is saved from
      the registers after the broadcast, so there the alarm is what the drop itself wrote: it is the same exactly when
      the factor was positive or has been raised. */
  lemma OvershootAlarmsEveryLayer(s: State, layers: int, layer: nat, before: Registers, target: Option<real>, k: nat)
    requires layer < layers <= |s.contexts| && k < layers && s.contexts[k].Some?
    ensures var after := Overshot(before, target);
            var c := Next(s, layers, Frame(layer, OvershootDropped, after)).contexts[k];
            && c.Some? && c.value.forceMaxQuantizer && c.value.framesSinceLastDropOvershoot == 0
            && (c.value.rateCorrectionFactor == NormalizedFactor(after.current.rateCorrectionFactor) <==>
                k != layer || 0.0 < before.current.rateCorrectionFactor ||
                Raises(before.current.rateCorrectionFactor, target))
  {
  }

  /* Refinement, for any encode function */

  /** What encoding one frame does: the registers it leaves, how the frame ended, and the state all layers share. */
  datatype Coding<C> = Coding(after: Registers, verdict: Verdict, common: C)

  type Encode<!I, !C> = (I, Registers, C) -> Coding<C>

  datatype Job<I> = Job(layer: nat, input: I)

  datatype SharedRun<C> = SharedRun(state: State, common: C)

  datatype PrivateRun<C> = PrivateRun(contexts: seq<Context>, common: C)

  ghost predicate KeepsGeometry<I(!new), C(!new)>(encode: Encode<I, C>) {
    forall input: I, r: Registers, common: C {:trigger encode(input, r, common)} ::
      PositiveGeometry(r.current) ==> PositiveGeometry(encode(input, r, common).after.current)
  }

  ghost predicate Schedulable<I>(jobs: seq<Job<I>>, layers: int) {
    forall n :: 0 <= n < |jobs| ==> jobs[n].layer < layers
  }

  /** One frame on the shared registers: load, encode, commit. */
  function SharedCoding<I, C>(encode: Encode<I, C>, run: SharedRun<C>, job: Job<I>): Coding<C>
    requires job.layer < |run.state.contexts|
  {
    encode(job.input, Entered(run.state, job.layer), run.common)
  }

  function SharedStep<I, C>(encode: Encode<I, C>, run: SharedRun<C>, layers: int, job: Job<I>): (r: SharedRun<C>)
    requires job.layer < |run.state.contexts|
    ensures |r.state.contexts| == |run.state.contexts|
  {
    var coding := SharedCoding(encode, run, job);
    SharedRun(Next(run.state, layers, Frame(job.layer, coding.verdict, coding.after)), coding.common)
  }

  /** One frame with a register set per layer. */
  function PrivateCoding<I, C>(encode: Encode<I, C>, run: PrivateRun<C>, job: Job<I>): Coding<C>
    requires job.layer < |run.contexts|
  {
    encode(job.input, Private(run.contexts[job.layer]), run.common)
  }

  function PrivateStep<I, C>(encode: Encode<I, C>, run: PrivateRun<C>, job: Job<I>): (r: PrivateRun<C>)
    requires job.layer < |run.contexts|
    ensures |r.contexts| == |run.contexts|
  {
    var coding := PrivateCoding(encode, run, job);
    PrivateRun(seq(|run.contexts|, k requires 0 <= k < |run.contexts| =>
                 PrivateContext(run.contexts[k], k, job.layer, |run.contexts|, coding)),
               coding.common)
  }

  function PrivateContext<C>(c: Context, k: int, layer: int, layers: int, coding: Coding<C>): Context {
    ContextAfter(Some(c), k, layer, layers, coding.verdict, coding.after).value
  }

  function SharedAfter<I, C>(encode: Encode<I, C>, run: SharedRun<C>, layers: int, jobs: seq<Job<I>>, n: nat):
    (r: SharedRun<C>)
    requires n <= |jobs| && Schedulable(jobs, layers) && layers == |run.state.contexts|
    ensures |r.state.contexts| == layers
  {
    if n == 0 then run else SharedStep(encode, SharedAfter(encode, run, layers, jobs, n - 1), layers, jobs[n - 1])
  }

  function PrivateAfter<I, C>(encode: Encode<I, C>, run: PrivateRun<C>, layers: int, jobs: seq<Job<I>>, n: nat):
    (r: PrivateRun<C>)
    requires n <= |jobs| && Schedulable(jobs, layers) && layers == |run.contexts|
    ensures |r.contexts| == layers
  {
    if n == 0 then run else PrivateStep(encode, PrivateAfter(encode, run, layers, jobs, n - 1), jobs[n - 1])
  }

  /** The slots hold the private contexts, whose geometry is positive; nothing is said about the registers. */
  ghost predicate Represents<C>(shared: SharedRun<C>, own: PrivateRun<C>) {
    && |shared.state.contexts| == |own.contexts| && shared.common == own.common
    && (forall k :: 0 <= k < |own.contexts| ==>
          shared.state.contexts[k] == Some(own.contexts[k]) && PositiveGeometry(own.contexts[k]))
  }

  lemma CodingsAgree<I(!new), C(!new)>(encode: Encode<I, C>, shared: SharedRun<C>, own: PrivateRun<C>, job: Job<I>)
    requires Represents(shared, own) && job.layer < |own.contexts|
    ensures SharedCoding(encode, shared, job) == PrivateCoding(encode, own, job)
  {
    RestoreIsExact(shared.state.held, own.contexts[job.layer]);
  }

  lemma RefinementStep<I(!new), C(!new)>(encode: Encode<I, C>, shared: SharedRun<C>, own: PrivateRun<C>, job: Job<I>)
    requires KeepsGeometry(encode) && Represents(shared, own) && job.layer < |own.contexts|
    ensures Represents(SharedStep(encode, shared, |own.contexts|, job), PrivateStep(encode, own, job))
  {
    CodingsAgree(encode, shared, own, job);
    var coding := PrivateCoding(encode, own, job);
    assert PositiveGeometry(own.contexts[job.layer]);
    assert PositiveGeometry(coding.after.current);
    var next := SharedStep(encode, shared, |own.contexts|, job).state.contexts;
    forall k | 0 <= k < |own.contexts|
      ensures next[k] == Some(PrivateContext(own.contexts[k], k, job.layer, |own.contexts|, coding))
      ensures PositiveGeometry(PrivateContext(own.contexts[k], k, job.layer, |own.contexts|, coding))
    {
      assert shared.state.contexts[k] == Some(own.contexts[k]) && PositiveGeometry(own.contexts[k]);
    }
  }

  lemma {:induction false} RunsCorrespond<I(!new), C(!new)>(
    encode: Encode<I, C>, shared: SharedRun<C>, own: PrivateRun<C>, jobs: seq<Job<I>>, n: nat)
    requires KeepsGeometry(encode) && Represents(shared, own)
    requires n <= |jobs| && Schedulable(jobs, |own.contexts|)
    ensures Represents(SharedAfter(encode, shared, |own.contexts|, jobs, n),
                       PrivateAfter(encode, own, |own.contexts|, jobs, n))
  {
    if n > 0 {
      RunsCorrespond(encode, shared, own, jobs, n - 1);
      RefinementStep(encode, SharedAfter(encode, shared, |own.contexts|, jobs, n - 1),
                     PrivateAfter(encode, own, |own.contexts|, jobs, n - 1), jobs[n - 1]);
    }
  }

  /** For any encode function that keeps positive buffer geometry, whatever the registers held at the start, every frame
      of every schedule is encoded, and ends, exactly as if each layer had registers of its own. */
  lemma {:induction false} SharedRegistersRefinePrivate<I(!new), C(!new)>(
    encode: Encode<I, C>, shared: SharedRun<C>, own: PrivateRun<C>, jobs: seq<Job<I>>, n: nat)
    requires KeepsGeometry(encode) && Represents(shared, own)
    requires n < |jobs| && Schedulable(jobs, |own.contexts|)
    ensures SharedCoding(encode, SharedAfter(encode, shared, |own.contexts|, jobs, n), jobs[n]) ==
            PrivateCoding(encode, PrivateAfter(encode, own, |own.contexts|, jobs, n), jobs[n])
  {
    RunsCorrespond(encode, shared, own, jobs, n);
    CodingsAgree(encode, SharedAfter(encode, shared, |own.contexts|, jobs, n),
                 PrivateAfter(encode, own, |own.contexts|, jobs, n), jobs[n]);
  }
}
