/** The temporal-layer scheduler: which layer a frame belongs to, which references it may use, what the finished
    frame leaves behind. `Schedule` is the state as a value and its functions say what each operation means;
    class `TemporalState` is the encoder's record, updated in place and proved against those functions. */
module Temporal {
  import opened Arith
  import opened Wrappers
  import opened TemporalPattern
  import opened Euclid

  const MAX_LAYERS := 5

  datatype Timing = Timing(timebaseNum: int, timebaseDen: int, frameDuration: int)

  datatype BufferConfig = BufferConfig(timing: Timing, initialSizeMs: int, sizeMs: int)

  /** The layer that last refreshed each reference buffer. */
  datatype Tags = Tags(last: int, golden: int, alt: int) {
    function Of(s: Slot): int {
      match s
      case Last => last
      case Golden => golden
      case AltRef => alt
    }

    function Refreshed(m: Mask, layer: int): (t: Tags)
      ensures forall s: Slot :: t.Of(s) == if m.Has(s) then layer else Of(s)
    {
      Tags(if m.last then layer else last, if m.golden then layer else golden, if m.alt then layer else alt)
    }
  }

  const BASE_TAGS := Tags(0, 0, 0)

  datatype Accounting = Accounting(
    inputFrames: int, encodedFrames: int, totalEncodedFrames: int, encodedBits: int,
    frameBandwidthBits: int, maximumBufferBits: int, bufferLevelBits: int)

  const NO_ACCOUNTING := Accounting(0, 0, 0, 0, 0, 0, 0)

  /** What nextFrame announces about the coming frame. */
  datatype Meta = Meta(
    layerID: int, layerCount: int, sync: bool, tl0PicIdx: int, flags: Flags,
    layerKbps: int, frameTargetBits: int, cumulativeKbps: int)

  datatype Error = InvalidConfig | InvalidBitrate

  datatype Result<+T> = Ok(value: T) | Err(error: Error)

  /* Bitrates */

  /** The cumulative per-layer bitrates, checked or derived from the total, and whether they were derived. */
  function NormalizeBitrates(kbps: seq<int>, layers: int, totalKbps: int): (r: Result<(seq<int>, bool)>)
    requires |kbps| == MAX_LAYERS && 1 <= layers <= MAX_LAYERS
    ensures r.Ok? && IsInt(60 * totalKbps) ==> AcceptedSplit(r.value.0, layers, totalKbps)
    ensures r.Ok? && !r.value.1 ==> r.value.0 == kbps
    ensures totalKbps <= 0 ==> r == Err(InvalidBitrate)
  {
    if totalKbps <= 0 then
      Err(InvalidBitrate)
    else if exists i :: 0 <= i < MAX_LAYERS && kbps[i] < 0 then
      Err(InvalidBitrate)
    else if forall i :: 0 <= i < MAX_LAYERS ==> kbps[i] == 0 then
      (match layers
       case 1 => Ok((kbps[0 := totalKbps], true))
       case 2 => Ok((kbps[0 := Percent(60, totalKbps)][1 := totalKbps], true))
       case 3 => Ok((kbps[0 := Percent(40, totalKbps)][1 := Percent(60, totalKbps)][2 := totalKbps], true))
       case _ => Err(InvalidBitrate))
    else if exists i :: 0 <= i < layers && (kbps[i] <= 0 || (0 < i && kbps[i] <= kbps[i - 1])) then
      Err(InvalidBitrate)
    else if kbps[layers - 1] != totalKbps then
      Err(InvalidBitrate)
    else if exists i :: layers <= i < MAX_LAYERS && kbps[i] != 0 then
      Err(InvalidBitrate)
    else
      Ok((kbps, false))
  }

  function Percent(pct: int, totalKbps: int): int {
    TruncDiv(Wrap(pct * totalKbps), 100)
  }

  /** A cumulative split the encoder can run with: it never decreases and ends at the total. */
  ghost predicate AcceptedSplit(kbps: seq<int>, layers: int, totalKbps: int) {
    && |kbps| == MAX_LAYERS && 1 <= layers <= MAX_LAYERS
    && 0 <= kbps[0] && kbps[layers - 1] == totalKbps
    && forall i :: 1 <= i < layers ==> kbps[i - 1] <= kbps[i]
  }

  function LayerKbps(kbps: seq<int>, layers: int, layerID: int): int
    requires |kbps| == MAX_LAYERS && 1 <= layers <= MAX_LAYERS
  {
    if !(0 <= layerID < layers) then 0
    else if layerID == 0 then kbps[0]
    else Wrap(kbps[layerID] - kbps[layerID - 1])
  }

  /** targetBits spread over one frame interval, in 64-bit arithmetic. */
  function LayerBitsPerFrame(targetBits: int, timing: Timing, frameInterval: int): int
  {
    RoundedInt(Wrap(targetBits * timing.timebaseNum * timing.frameDuration * frameInterval), timing.timebaseDen)
  }

  function FrameTargetBits(kbps: seq<int>, p: Pattern, layerID: int, timing: Timing): int
    requires |kbps| == MAX_LAYERS && WellFormed(p)
  {
    if !(0 <= layerID < p.layers) then 0
    else
      var bits := Wrap(LayerKbps(kbps, p.layers, layerID) * 1000);
      if bits <= 0 || Min(Min(timing.timebaseNum, timing.timebaseDen), timing.frameDuration) <= 0 then 0
      else if layerID == 0 then LayerBitsPerFrame(bits, timing, p.rateDecimator[0])
      else
        var prev, current := p.rateDecimator[layerID - 1], p.rateDecimator[layerID];
        if prev <= current then 0
        else RoundedInt(Wrap(bits * timing.timebaseNum * timing.frameDuration * current * prev),
                        Wrap(timing.timebaseDen * (prev - current)))
  }

  function BufferBits(targetKbps: int, bufferMs: int): int {
    var product := CheckedMul(targetKbps, bufferMs);
    if product.Exact? then product.value else MAX_INT
  }

  function TargetBits(targetKbps: int): int {
    var product := CheckedMul(targetKbps, 1000);
    if product.Exact? then product.value else MAX_INT
  }

  /** Exactly which splits are accepted: none given, for up to three layers, or positive strictly increasing figures for
      the layers of the pattern and no others, ending at the total. */
  lemma AcceptedExactly(kbps: seq<int>, layers: int, totalKbps: int)
    requires |kbps| == MAX_LAYERS && 1 <= layers <= MAX_LAYERS
    ensures NormalizeBitrates(kbps, layers, totalKbps).Ok? <==>
              && 0 < totalKbps
              && (|| (kbps == [0, 0, 0, 0, 0] && layers <= 3)
                  || (&& kbps[layers - 1] == totalKbps
                      && (forall i :: 0 <= i < layers ==> 0 < kbps[i])
                      && (forall i :: 1 <= i < layers ==> kbps[i - 1] < kbps[i])
                      && (forall i :: layers <= i < MAX_LAYERS ==> kbps[i] == 0)))
  {
    if forall i :: 0 <= i < MAX_LAYERS ==> kbps[i] == 0 {
      assert kbps == [0, 0, 0, 0, 0];
    }
  }

  /** A derived split: the base layer of two gets 60 percent of the total, those of three 40 and 60, rounded down. */
  lemma DerivedSplit(layers: int, totalKbps: int)
    requires 1 <= layers <= 3 && 0 < totalKbps && 60 * totalKbps <= MAX_INT
    ensures var r := NormalizeBitrates([0, 0, 0, 0, 0], layers, totalKbps);
            && r.Ok? && r.value.1
            && var split := r.value.0;
            && |split| == 5 && split[layers - 1] == totalKbps
            && (forall i :: layers <= i < 5 ==> split[i] == 0)
            && (layers == 2 ==> 100 * split[0] <= 60 * totalKbps < 100 * split[0] + 100)
            && (layers == 3 ==>
                  && 100 * split[0] <= 40 * totalKbps < 100 * split[0] + 100
                  && 100 * split[1] <= 60 * totalKbps < 100 * split[1] + 100)
  {
    var zeros := [0, 0, 0, 0, 0];
    assert forall i :: 0 <= i < MAX_LAYERS ==> zeros[i] == 0;
  }

  /** The bits a cumulative stream of `kbps` earns per frame: kbps kilobits per second over `decimator` frame times, to
      the nearest bit. */
  lemma BandwidthIsNearest(kbps: int, decimator: int, timing: Timing)
    requires 0 <= kbps && 0 <= decimator
    requires 0 <= timing.timebaseNum && 0 <= timing.frameDuration && 0 < timing.timebaseDen
    requires 1000 * kbps <= MAX_INT
    requires var bits := 1000 * kbps * timing.timebaseNum * timing.frameDuration * decimator;
             0 <= bits && bits + timing.timebaseDen <= MAX_INT
    ensures var bits := 1000 * kbps * timing.timebaseNum * timing.frameDuration * decimator;
            -timing.timebaseDen <=
            2 * (LayerBitsPerFrame(TargetBits(kbps), timing, decimator) * timing.timebaseDen - bits) <=
            timing.timebaseDen
  {
    assert TargetBits(kbps) == 1000 * kbps;
    RoundedIntIsNearest(1000 * kbps * timing.timebaseNum * timing.frameDuration * decimator, timing.timebaseDen);
  }

  /* The leaky bucket of one layer */

  /** One frame's effect on a bucket: credit the bandwidth of a shown frame, debit the bits, cap at the maximum. */
  function Charged(a: Accounting, bits: int, show: bool): Accounting {
    var credited := if show then SaturatingAdd(a.bufferLevelBits, a.frameBandwidthBits) else a.bufferLevelBits;
    a.(bufferLevelBits := Min(SaturatingSub(credited, bits), a.maximumBufferBits))
  }

  function Reconfigured(a: Accounting, targetKbps: int, decimator: int, buffers: BufferConfig, keepLevel: bool):
    Accounting
  {
    a.(frameBandwidthBits := LayerBitsPerFrame(TargetBits(targetKbps), buffers.timing, decimator),
       maximumBufferBits := BufferBits(targetKbps, buffers.sizeMs),
       bufferLevelBits := if keepLevel then a.bufferLevelBits else BufferBits(targetKbps, buffers.initialSizeMs))
  }

  /** Layer i's record after an encoded frame of `layerID`, which is part of the cumulative stream of every layer
      from there up; a layer outside the pattern is not accounted. */
  function AfterEncoded(a: Accounting, i: int, layers: int, layerID: int, key: bool, show: bool, bits: int):
    Accounting
  {
    if !(0 <= layerID <= i < layers) then a
    else
      var counted := if i == layerID
                     then a.(inputFrames := a.inputFrames + 1,
                             encodedFrames := a.encodedFrames + (if key then 0 else 1))
                     else a;
      Absorbed(counted, bits, show || i > layerID)
  }

  /** One more frame in a layer's cumulative stream. */
  function Absorbed(a: Accounting, bits: int, show: bool): Accounting {
    Charged(a.(totalEncodedFrames := a.totalEncodedFrames + 1, encodedBits := SaturatingAdd(a.encodedBits, bits)),
            bits, show)
  }

  function EncodedAccounting(
    accounting: seq<Accounting>, layers: int, layerID: int, key: bool, show: bool, bits: int): (r: seq<Accounting>)
    ensures |r| == |accounting|
  {
    seq(|accounting|, i requires 0 <= i < |accounting| =>
      AfterEncoded(accounting[i], i, layers, layerID, key, show, bits))
  }

  function AfterDropped(a: Accounting, i: int, layers: int, layerID: int): Accounting {
    if !(0 <= layerID <= i < layers) then a
    else Charged(if i == layerID then a.(inputFrames := a.inputFrames + 1) else a, 0, true)
  }

  function DroppedAccounting(accounting: seq<Accounting>, layers: int, layerID: int): (r: seq<Accounting>)
    ensures |r| == |accounting|
  {
    seq(|accounting|, i requires 0 <= i < |accounting| => AfterDropped(accounting[i], i, layers, layerID))
  }

  /* The scheduler state as a value */

  datatype Schedule = Schedule(
    mode: Mode, pattern: Pattern, kbps: seq<int>, layerIDOverride: int,
    frameIndex: int, tl0PicIdx: int, tl0Valid: bool, tags: Tags,
    accounting: seq<Accounting>, buffersSet: bool)
  {
    ghost predicate Valid() {
      && WellFormed(pattern)
      && |kbps| == MAX_LAYERS && |accounting| == MAX_LAYERS
      && -1 <= layerIDOverride < pattern.layers
      && 0 <= frameIndex < TWO_TO_THE_64
      && 0 <= tl0PicIdx < 256
    }

    function FlagIndex(): (f: int)
      requires Valid()
      ensures 0 <= f < pattern.flagPeriodicity
    {
      frameIndex % pattern.flagPeriodicity
    }

    /** The layer of the coming frame. */
    function LayerID(): (layer: int)
      requires Valid()
      ensures 0 <= layer < pattern.layers
    {
      if layerIDOverride >= 0 then layerIDOverride else pattern.layerID[frameIndex % pattern.periodicity]
    }

    /** The flags of the coming frame: outside the five-layer mode only the very first frame forces a key frame. */
    function FrameFlags(): Flags
      requires Valid()
    {
      var flags := pattern.flags[FlagIndex()];
      if mode != FiveLayers && frameIndex > 0 && FlagIndex() == 0 then flags.(forceKey := false) else flags
    }

    function NextTL0(): (t: int)
      requires Valid()
      ensures 0 <= t < 256
    {
      if LayerID() != 0 then tl0PicIdx
      else if tl0Valid then (tl0PicIdx + 1) % 256
      else 0
    }

    /** Whether every reference the flags leave open was last refreshed by a lower layer. */
    function LayerSync(layerID: int, flags: Flags): (sync: bool)
      ensures sync <==> 0 < layerID && forall s: Slot :: !flags.noRef.Has(s) ==> tags.Of(s) < layerID
    {
      if layerID <= 0 then false
      else if !flags.noRef.last && tags.last >= layerID then assert tags.Of(Last) >= layerID; false
      else if !flags.noRef.golden && tags.golden >= layerID then assert tags.Of(Golden) >= layerID; false
      else if !flags.noRef.alt && tags.alt >= layerID then assert tags.Of(AltRef) >= layerID; false
      else true
    }

    /** Whether the coming frame is announced as a sync frame. */
    function Sync(): bool
      requires Valid()
    {
      LayerSync(LayerID(), FrameFlags())
    }

    function NextFrame(timing: Timing): Meta
      requires Valid()
    {
      Meta(LayerID(), pattern.layers, Sync(), NextTL0(), FrameFlags(),
           LayerKbps(kbps, pattern.layers, LayerID()),
           FrameTargetBits(kbps, pattern, LayerID(), timing),
           kbps[LayerID()])
    }

    /** The bucket geometry follows the current timing and buffer settings; levels are set on the first call only. */
    function Buffered(buffers: BufferConfig): (r: seq<Accounting>)
      requires Valid()
      ensures |r| == MAX_LAYERS
    {
      seq(MAX_LAYERS, i requires 0 <= i < MAX_LAYERS =>
        if i < pattern.layers
        then Reconfigured(accounting[i], kbps[i], pattern.rateDecimator[i], buffers, buffersSet)
        else accounting[i])
    }

    /** An encoded frame is committed. */
    function Finished(
      layerID: int, tl0: int, key: bool, show: bool, refresh: Mask, bits: int, buffers: BufferConfig): (r: Schedule)
      requires Valid()
      requires 0 <= tl0 < 256
      ensures r.Valid()
    {
      this.(accounting := EncodedAccounting(Buffered(buffers), pattern.layers, layerID, key, show, bits),
            buffersSet := true,
            tags := if key then BASE_TAGS else tags.Refreshed(refresh, layerID),
            tl0PicIdx := if layerID == 0 then tl0 else tl0PicIdx,
            tl0Valid := tl0Valid || layerID == 0,
            frameIndex := (frameIndex + 1) % TWO_TO_THE_64)
    }

    /** A frame was dropped by rate control: only the schedule position and the accounting move. */
    function Dropped(layerID: int, buffers: BufferConfig): (r: Schedule)
      requires Valid()
      ensures r.Valid()
    {
      this.(accounting := DroppedAccounting(Buffered(buffers), pattern.layers, layerID),
            buffersSet := true,
            frameIndex := (frameIndex + 1) % TWO_TO_THE_64)
    }

    /** Both table positions return to slot zero, at an index above zero. */
    function Restarted(): Schedule
      requires Valid()
    {
      this.(tags := BASE_TAGS, frameIndex := Lcm(pattern.periodicity, pattern.flagPeriodicity))
    }

    function RestartedAtTL0(tl0: int): Schedule
      requires Valid() && 0 <= tl0 < 256
    {
      if tl0 == 0 then Restarted().(tl0PicIdx := 0, tl0Valid := false)
      else Restarted().(tl0PicIdx := tl0 - 1, tl0Valid := true)
    }
  }

  /** The schedule right after a successful configure. */
  function Configured(mode: Mode, p: Pattern, kbps: seq<int>): Schedule {
    Schedule(mode, p, kbps, -1, 0, 0, false, BASE_TAGS,
             [NO_ACCOUNTING, NO_ACCOUNTING, NO_ACCOUNTING, NO_ACCOUNTING, NO_ACCOUNTING], false)
  }

  /** What a record that is not in use holds. */
  const NO_SCHEDULE := Schedule(
    OneLayer, Pattern(0, 0, 0, [], [], []), [0, 0, 0, 0, 0], 0, 0, 0, false, BASE_TAGS,
    [NO_ACCOUNTING, NO_ACCOUNTING, NO_ACCOUNTING, NO_ACCOUNTING, NO_ACCOUNTING], false)

  /* The encoder's record */

  class TemporalState {
    var enabled: bool
    var autoBitrate: bool
    var mode: Mode
    var pattern: Pattern
    var kbps: seq<int>
    var layerIDOverride: int
    var frameIndex: int
    var tl0PicIdx: int
    var tl0Valid: bool
    var refLayer: Tags
    var buffersSet: bool
    const accounting: array<Accounting>

    ghost function Model(): Schedule
      reads this, accounting
    {
      Schedule(mode, pattern, kbps, layerIDOverride, frameIndex, tl0PicIdx, tl0Valid, refLayer,
               accounting[..], buffersSet)
    }

    ghost predicate Valid()
      reads this, accounting
    {
      accounting.Length == MAX_LAYERS && (enabled ==> Model().Valid())
    }

    /** The zero record: layering is off. */
    ghost predicate Zeroed()
      reads this, accounting
    {
      !enabled && !autoBitrate && Model() == NO_SCHEDULE
    }

    constructor ()
      ensures Valid() && Zeroed() && fresh(accounting)
    {
      enabled, autoBitrate := false, false;
      mode, pattern, kbps := NO_SCHEDULE.mode, NO_SCHEDULE.pattern, NO_SCHEDULE.kbps;
      layerIDOverride, frameIndex, tl0PicIdx, tl0Valid := 0, 0, 0, false;
      refLayer, buffersSet := BASE_TAGS, false;
      accounting := new Accounting[MAX_LAYERS](_ => NO_ACCOUNTING);
    }

    method Configure(on: bool, newMode: Mode, newKbps: seq<int>, totalKbps: int) returns (error: Option<Error>)
      requires Valid() && |newKbps| == MAX_LAYERS
      modifies this, accounting
      ensures Valid()
      ensures !on ==> error == None && Zeroed()
      ensures on && error == None ==>
                enabled && PatternOf(newMode) == Some(pattern) &&
                Model() == Configured(newMode, pattern, kbps) &&
                NormalizeBitrates(newKbps, pattern.layers, totalKbps) == Ok((kbps, autoBitrate))
      ensures error.Some? ==> enabled == old(enabled) && autoBitrate == old(autoBitrate) && Model() == old(Model())
      ensures on ==> (error == Some(InvalidConfig) <==> newMode.OtherMode?)
    {
      PatternsAreWellFormed(newMode);
      if !on {
        Clear();
        return None;
      }
      var chosen := PatternOf(newMode);
      if chosen == None {
        return Some(InvalidConfig);
      }
      var normalized := NormalizeBitrates(newKbps, chosen.value.layers, totalKbps);
      if normalized.Err? {
        return Some(normalized.error);
      }
      autoBitrate := normalized.value.1;
      Reset(newMode, chosen.value, normalized.value.0);
      return None;
    }

    method Clear()
      requires accounting.Length == MAX_LAYERS
      modifies this, accounting
      ensures Zeroed()
    {
      enabled, autoBitrate := false, false;
      mode, pattern, kbps := NO_SCHEDULE.mode, NO_SCHEDULE.pattern, NO_SCHEDULE.kbps;
      layerIDOverride, frameIndex, tl0PicIdx, tl0Valid := 0, 0, 0, false;
      refLayer, buffersSet := BASE_TAGS, false;
      ClearAccounting();
    }

    method ClearAccounting()
      requires accounting.Length == MAX_LAYERS
      modifies accounting
      ensures accounting[..] == [NO_ACCOUNTING, NO_ACCOUNTING, NO_ACCOUNTING, NO_ACCOUNTING, NO_ACCOUNTING]
    {
      for i := 0 to MAX_LAYERS
        modifies accounting
        invariant forall k :: 0 <= k < i ==> accounting[k] == NO_ACCOUNTING
      {
        accounting[i] := NO_ACCOUNTING;
      }
    }

    method Reset(newMode: Mode, newPattern: Pattern, newKbps: seq<int>)
      requires accounting.Length == MAX_LAYERS && |newKbps| == MAX_LAYERS
      requires WellFormed(newPattern)
      modifies this, accounting
      ensures enabled && autoBitrate == old(autoBitrate)
      ensures Model() == Configured(newMode, newPattern, newKbps)
    {
      enabled := true;
      mode, pattern, kbps := newMode, newPattern, newKbps;
      layerIDOverride, frameIndex, tl0PicIdx, tl0Valid := -1, 0, 0, false;
      refLayer, buffersSet := BASE_TAGS, false;
      ClearAccounting();
    }

    /** Recomputes an automatic split for a new total; an explicit split only accepts its own total. */
    method RefreshBitrate(totalKbps: int) returns (error: Option<Error>)
      requires Valid()
      modifies this`kbps
      ensures Valid()
      ensures !enabled || !autoBitrate ==> kbps == old(kbps)
      ensures enabled && !autoBitrate ==> (error == None <==> kbps[pattern.layers - 1] == totalKbps)
      ensures enabled && autoBitrate ==>
                var derived := NormalizeBitrates(seq(MAX_LAYERS, _ => 0), pattern.layers, totalKbps);
                if derived.Ok? then error == None && kbps == derived.value.0
                else error == Some(derived.error) && kbps == old(kbps)
    {
      if !enabled {
        return None;
      }
      if !autoBitrate {
        return if kbps[pattern.layers - 1] != totalKbps then Some(InvalidBitrate) else None;
      }
      var derived := NormalizeBitrates(seq(MAX_LAYERS, _ => 0), pattern.layers, totalKbps);
      if derived.Err? {
        return Some(derived.error);
      }
      kbps := derived.value.0;
      return None;
    }

    method SetLayerID(layerID: int) returns (error: Option<Error>)
      requires Valid()
      modifies this`layerIDOverride
      ensures Valid()
      ensures error == None <==> 0 <= layerID < (if enabled then pattern.layers else 1)
      ensures layerIDOverride == if error == None && enabled then layerID else old(layerIDOverride)
    {
      var layers := if enabled then pattern.layers else 1;
      if !(0 <= layerID < layers) {
        return Some(InvalidConfig);
      }
      if enabled {
        layerIDOverride := layerID;
      }
      return None;
    }

    method NextFrame(timing: Timing) returns (meta: Meta)
      requires Valid()
      ensures enabled ==> meta == Model().NextFrame(timing)
      ensures !enabled ==> meta == Meta(0, 1, false, 0, NO_FLAGS, 0, 0, 0)
    {
      if !enabled {
        return Meta(0, 1, false, 0, NO_FLAGS, 0, 0, 0);
      }
      var patternIndex := frameIndex % pattern.periodicity;
      var flagIndex := frameIndex % pattern.flagPeriodicity;
      var layerID := pattern.layerID[patternIndex];
      if layerIDOverride >= 0 {
        layerID := layerIDOverride;
      }
      var flags := pattern.flags[flagIndex];
      if mode != FiveLayers && frameIndex > 0 && flagIndex == 0 {
        flags := flags.(forceKey := false);
      }
      var tl0 := tl0PicIdx;
      if layerID == 0 {
        if tl0Valid {
          tl0 := (tl0 + 1) % 256;
        } else {
          tl0 := 0;
        }
      }
      var sync := LayerSync(layerID, flags);
      meta := Meta(layerID, pattern.layers, sync, tl0, flags, LayerKbps(kbps, pattern.layers, layerID),
                   FrameTargetBits(kbps, pattern, layerID, timing), kbps[layerID]);
    }

    method LayerSync(layerID: int, flags: Flags) returns (sync: bool)
      requires Valid()
      ensures sync == Model().LayerSync(layerID, flags)
    {
      if layerID <= 0 {
        return false;
      }
      if !flags.noRef.last && refLayer.last >= layerID {
        return false;
      }
      if !flags.noRef.golden && refLayer.golden >= layerID {
        return false;
      }
      if !flags.noRef.alt && refLayer.alt >= layerID {
        return false;
      }
      return true;
    }

    method FinishFrame(meta: Meta, key: bool, show: bool, refresh: Mask, bits: int, buffers: BufferConfig)
      requires Valid()
      requires enabled ==> 0 <= meta.tl0PicIdx < 256
      modifies this, accounting
      ensures Valid() && enabled == old(enabled)
      ensures Model() == if enabled
                         then old(Model()).Finished(meta.layerID, meta.tl0PicIdx, key, show, refresh, bits, buffers)
                         else old(Model())
    {
      if !enabled {
        return;
      }
      AccountEncodedFrame(meta, key, show, bits, buffers);
      TagReferences(meta, key, refresh);
      if meta.layerID == 0 {
        tl0PicIdx := meta.tl0PicIdx;
        tl0Valid := true;
      }
      frameIndex := (frameIndex + 1) % TWO_TO_THE_64;
    }

    /** The part of FinishFrame that remembers which layer last refreshed each reference. */
    method TagReferences(meta: Meta, key: bool, refresh: Mask)
      modifies this`refLayer
      ensures refLayer == if key then BASE_TAGS else old(refLayer).Refreshed(refresh, meta.layerID)
    {
      if key {
        refLayer := BASE_TAGS;
      } else {
        if refresh.last {
          refLayer := refLayer.(last := meta.layerID);
        }
        if refresh.golden {
          refLayer := refLayer.(golden := meta.layerID);
        }
        if refresh.alt {
          refLayer := refLayer.(alt := meta.layerID);
        }
      }
    }

    method FinishDroppedFrame(meta: Meta, buffers: BufferConfig)
      requires Valid()
      modifies this, accounting
      ensures Valid() && enabled == old(enabled)
      ensures Model() == if enabled then old(Model()).Dropped(meta.layerID, buffers) else old(Model())
    {
      if !enabled {
        return;
      }
      UpdateLayerBufferConfig(buffers);
      AccountInputFrame(meta);
      AccountDroppedFrameBuffer(meta, old(Model().Buffered(buffers)));
      frameIndex := (frameIndex + 1) % TWO_TO_THE_64;
    }

    method AccountDroppedFrameBuffer(meta: Meta, ghost was: seq<Accounting>)
      requires Valid() && enabled
      requires |was| == MAX_LAYERS && accounting[..] == InputCounted(was, meta.layerID, pattern.layers)
      modifies accounting
      ensures accounting[..] == DroppedAccounting(was, pattern.layers, meta.layerID)
    {
      if !(0 <= meta.layerID < pattern.layers) {
        return;
      }
      for layer := meta.layerID to pattern.layers
        modifies accounting
        invariant forall i :: 0 <= i < MAX_LAYERS ==>
                    accounting[i] == if meta.layerID <= i < layer
                                     then AfterDropped(was[i], i, pattern.layers, meta.layerID)
                                     else InputCounted(was, meta.layerID, pattern.layers)[i]
      {
        UpdateLayerBuffer(layer, 0, true);
      }
    }

    method AccountEncodedFrame(meta: Meta, key: bool, show: bool, bits: int, buffers: BufferConfig)
      requires Valid() && enabled
      modifies this`buffersSet, accounting
      ensures accounting[..] ==
              EncodedAccounting(old(Model().Buffered(buffers)), pattern.layers, meta.layerID, key, show, bits)
      ensures buffersSet
    {
      UpdateLayerBufferConfig(buffers);
      ghost var was := accounting[..];
      AccountInputFrame(meta);
      if !(0 <= meta.layerID < pattern.layers) {
        return;
      }
      ghost var counted := accounting[..];
      AbsorbUpwards(meta.layerID, show, bits);
      if !key {
        accounting[meta.layerID] :=
          accounting[meta.layerID].(encodedFrames := accounting[meta.layerID].encodedFrames + 1);
      }
      forall i | 0 <= i < MAX_LAYERS
        ensures accounting[i] == AfterEncoded(was[i], i, pattern.layers, meta.layerID, key, show, bits)
      {
        assert counted[i] == InputCounted(was, meta.layerID, pattern.layers)[i];
      }
    }

    method AbsorbUpwards(layerID: int, show: bool, bits: int)
      requires accounting.Length == MAX_LAYERS && 0 <= layerID < pattern.layers <= MAX_LAYERS
      modifies accounting
      ensures forall i :: 0 <= i < MAX_LAYERS ==>
                accounting[i] == if layerID <= i < pattern.layers
                                 then Absorbed(old(accounting[i]), bits, show || i > layerID)
                                 else old(accounting[i])
    {
      for layer := layerID to pattern.layers
        modifies accounting
        invariant forall i :: 0 <= i < MAX_LAYERS ==>
                    accounting[i] == if layerID <= i < layer
                                     then Absorbed(old(accounting[i]), bits, show || i > layerID)
                                     else old(accounting[i])
      {
        AbsorbFrame(layer, bits, show || layer > layerID);
      }
    }

    method AbsorbFrame(layer: int, bits: int, show: bool)
      requires 0 <= layer < accounting.Length
      modifies accounting
      ensures forall i :: 0 <= i < accounting.Length ==>
                accounting[i] == if i == layer then Absorbed(old(accounting[i]), bits, show) else old(accounting[i])
    {
      var a := accounting[layer];
      accounting[layer] := a.(totalEncodedFrames := a.totalEncodedFrames + 1,
                              encodedBits := SaturatingAdd(a.encodedBits, bits));
      UpdateLayerBuffer(layer, bits, show);
    }

    static ghost function InputCounted(was: seq<Accounting>, layerID: int, layers: int): (r: seq<Accounting>)
      requires layers <= |was|
    {
      if 0 <= layerID < layers then was[layerID := was[layerID].(inputFrames := was[layerID].inputFrames + 1)] else was
    }

    method AccountInputFrame(meta: Meta)
      requires Valid() && enabled
      modifies accounting
      ensures accounting[..] == InputCounted(old(accounting[..]), meta.layerID, pattern.layers)
    {
      if !(0 <= meta.layerID < pattern.layers) {
        return;
      }
      var a := accounting[meta.layerID];
      accounting[meta.layerID] := a.(inputFrames := a.inputFrames + 1);
    }

    method UpdateLayerBufferConfig(buffers: BufferConfig)
      requires Valid() && enabled
      modifies this`buffersSet, accounting
      ensures accounting[..] == old(Model().Buffered(buffers)) && buffersSet
    {
      ghost var goal := Model().Buffered(buffers);
      for layer := 0 to pattern.layers
        modifies accounting
        invariant forall i :: 0 <= i < MAX_LAYERS ==>
                    accounting[i] == if i < layer then goal[i] else old(accounting[i])
      {
        var targetKbps := kbps[layer];
        accounting[layer] := accounting[layer].(
          frameBandwidthBits := LayerBitsPerFrame(TargetBits(targetKbps), buffers.timing, pattern.rateDecimator[layer]),
          maximumBufferBits := BufferBits(targetKbps, buffers.sizeMs));
        if !buffersSet {
          accounting[layer] := accounting[layer].(bufferLevelBits := BufferBits(targetKbps, buffers.initialSizeMs));
        }
      }
      buffersSet := true;
    }

    method UpdateLayerBuffer(layer: int, bits: int, show: bool)
      requires 0 <= layer < accounting.Length
      modifies accounting
      ensures forall i :: 0 <= i < accounting.Length ==>
                accounting[i] == if i == layer then Charged(old(accounting[i]), bits, show) else old(accounting[i])
    {
      if show {
        accounting[layer] := accounting[layer].(
          bufferLevelBits := SaturatingAdd(accounting[layer].bufferLevelBits, accounting[layer].frameBandwidthBits));
      }
      accounting[layer] := accounting[layer].(
        bufferLevelBits := Min(SaturatingSub(accounting[layer].bufferLevelBits, bits),
                               accounting[layer].maximumBufferBits));
    }

    method RestartInterLayerKeyAccessUnit()
      requires Valid()
      modifies this`refLayer, this`frameIndex
      ensures Valid() && Model() == if enabled then old(Model()).Restarted() else old(Model())
    {
      if !enabled {
        return;
      }
      refLayer := BASE_TAGS;
      frameIndex := PositiveLCM(pattern.periodicity, pattern.flagPeriodicity);
      PeriodsRealign(pattern);
    }

    method RestartInterLayerKeyAccessUnitAtTL0(tl0: int)
      requires Valid() && 0 <= tl0 < 256
      modifies this`refLayer, this`frameIndex, this`tl0PicIdx, this`tl0Valid
      ensures Valid() && Model() == if enabled then old(Model()).RestartedAtTL0(tl0) else old(Model())
    {
      RestartInterLayerKeyAccessUnit();
      if !enabled {
        return;
      }
      if tl0 == 0 {
        tl0PicIdx := 0;
        tl0Valid := false;
        return;
      }
      tl0PicIdx := tl0 - 1;
      tl0Valid := true;
    }
  }

  /** The bucket of layer i of the pattern, as the settings give it: what its stream earns per frame, a capacity of
      sizeMs and, on the first call, a level of initialSizeMs at its bitrate. Everything else is as before, and so are
      the layers outside the pattern. */
  lemma BufferedGeometry(s: Schedule, buffers: BufferConfig, i: nat)
    requires s.Valid() && i < MAX_LAYERS
    ensures var a, b, kbps := s.accounting[i], s.Buffered(buffers)[i], s.kbps[i];
            if i < s.pattern.layers then
              && b.frameBandwidthBits == LayerBitsPerFrame(TargetBits(kbps), buffers.timing, s.pattern.rateDecimator[i])
              && (0 <= kbps && 0 <= buffers.sizeMs && kbps * buffers.sizeMs <= MAX_INT ==>
                    b.maximumBufferBits == kbps * buffers.sizeMs)
              && (s.buffersSet ==> b.bufferLevelBits == a.bufferLevelBits)
              && (!s.buffersSet && 0 <= kbps && 0 <= buffers.initialSizeMs
                  && kbps * buffers.initialSizeMs <= MAX_INT ==>
                    b.bufferLevelBits == kbps * buffers.initialSizeMs)
              && b.inputFrames == a.inputFrames && b.encodedFrames == a.encodedFrames
              && b.totalEncodedFrames == a.totalEncodedFrames && b.encodedBits == a.encodedBits
            else b == a
  {
  }

  /** The flag table is a whole number of layer periods, so the two tables realign after one flag period. */
  lemma PeriodsRealign(p: Pattern)
    requires WellFormed(p)
    ensures Lcm(p.periodicity, p.flagPeriodicity) == p.flagPeriodicity
  {
    var k := p.flagPeriodicity / p.periodicity;
    assert p.periodicity * k == p.flagPeriodicity;
    assert Divides(p.periodicity, p.flagPeriodicity);
    assert p.flagPeriodicity * 1 == p.flagPeriodicity;
    assert Divides(p.flagPeriodicity, p.flagPeriodicity);
    LcmIsLeast(p.periodicity, p.flagPeriodicity, p.flagPeriodicity);
    var l := Lcm(p.periodicity, p.flagPeriodicity);
    var m :| p.flagPeriodicity * m == l;
    SmallFactor(p.flagPeriodicity, m);
  }
}
