/** Switching up for good: a receiver of layers below L may start forwarding layer L at any frame marked sync, and
    from there on decodes layers up to L exactly, unless the application forbids that very frame to update a buffer
    that its own layer last refreshed. */
module SwitchingUp {
  import opened Arith
  import opened Wrappers
  import opened TemporalPattern
  import opened Temporal
  import opened LayerDropping

  /** No buffer keeps a picture of the packet's own layer that the switching receiver has never seen. */
  ghost predicate Covers<F>(t: Tags, packet: Packet<F>) {
    forall s: Slot :: t.Of(s) == packet.layerID ==> packet.refresh.Has(s)
  }

  /** A receiver of layers below the packet's that decodes the packet, and from then on layers up to its own, shows
      every forwarded frame as the receiver of the full stream does. */
  ghost predicate SwitchesUp<F, P>(
    recon: Reconstruction<F, P>, start: Buffers<P>, prefix: seq<Option<Packet<F>>>, packet: Packet<F>,
    suffix: seq<Option<Packet<F>>>)
  {
    var full := Absorb(recon, BuffersAfter(recon, start, prefix, EVERY_LAYER), packet);
    var switched := Absorb(recon, BuffersAfter(recon, start, prefix, packet.layerID - 1), packet);
    forall j :: 0 <= j < |suffix| && Forwarded(suffix[j], packet.layerID) ==>
      Shown(recon, switched, suffix, packet.layerID)[j] == Shown(recon, full, suffix, EVERY_LAYER)[j]
  }

  /** The general rule, for any safe stream: prefix, sync packet, suffix. */
  lemma CoveredSyncSwitchesUp<F, P>(
    t: Tags, prefix: seq<Option<Packet<F>>>, packet: Packet<F>, suffix: seq<Option<Packet<F>>>,
    recon: Reconstruction<F, P>, start: Buffers<P>)
    requires SafeStream(t, prefix)
    requires !packet.key && 0 < packet.layerID < EVERY_LAYER
    requires forall s: Slot :: packet.used.Has(s) ==> EndTags(t, prefix).Of(s) < packet.layerID
    requires Covers(EndTags(t, prefix), packet)
    requires SafeStream(TagsAfter(EndTags(t, prefix), Some(packet)), suffix)
    ensures SwitchesUp(recon, start, prefix, packet, suffix)
  {
    var k := packet.layerID - 1;
    PrefixAgrees(t, prefix, k, recon, start);
    var a, b := BuffersAfter(recon, start, prefix, EVERY_LAYER), BuffersAfter(recon, start, prefix, k);
    SyncBringsAgreement(EndTags(t, prefix), packet, recon, a, b);
    var t' := TagsAfter(EndTags(t, prefix), Some(packet));
    StreamSimulates(t', suffix, packet.layerID, recon, Absorb(recon, a, packet), Absorb(recon, b, packet));
  }

  lemma PrefixAgrees<F, P>(
    t: Tags, prefix: seq<Option<Packet<F>>>, k: nat, recon: Reconstruction<F, P>, start: Buffers<P>)
    requires SafeStream(t, prefix)
    ensures Agree(EndTags(t, prefix), k,
                  BuffersAfter(recon, start, prefix, EVERY_LAYER), BuffersAfter(recon, start, prefix, k))
  {
    StreamSimulates(t, prefix, k, recon, start, start);
  }

  /** Decoding a covered sync packet extends the agreement to its own layer. */
  lemma SyncBringsAgreement<F, P>(t: Tags, packet: Packet<F>, recon: Reconstruction<F, P>, a: Buffers<P>, b: Buffers<P>)
    requires !packet.key && 0 < packet.layerID < EVERY_LAYER && Agree(t, packet.layerID - 1, a, b)
    requires (forall s: Slot :: packet.used.Has(s) ==> t.Of(s) < packet.layerID) && Covers(t, packet)
    ensures Agree(TagsAfter(t, Some(packet)), packet.layerID, Absorb(recon, a, packet), Absorb(recon, b, packet))
  {
    SameView(packet.used, a, b);
  }

  /** Buffers that differ in one slot only. */
  function Marked(s: Slot): Buffers<int> {
    Buffers(if s == Last then 1 else 0, if s == Golden then 1 else 0, if s == AltRef then 1 else 0)
  }

  /** Covering is exactly what it takes: whatever the pictures are computed by, decoding the sync packet makes all
      buffers that agree below its layer agree on its layer if and only if the packet covers it. */
  lemma CoverIsExact<F>(t: Tags, packet: Packet<F>, recon: Reconstruction<F, int>)
    requires !packet.key && 0 < packet.layerID < EVERY_LAYER
    requires forall s: Slot :: packet.used.Has(s) ==> t.Of(s) < packet.layerID
    ensures Covers(t, packet) <==>
            forall a, b {:trigger Agree(t, packet.layerID - 1, a, b)} :: Agree(t, packet.layerID - 1, a, b) ==>
              Agree(TagsAfter(t, Some(packet)), packet.layerID, Absorb(recon, a, packet), Absorb(recon, b, packet))
  {
    if Covers(t, packet) {
      forall a: Buffers<int>, b | Agree(t, packet.layerID - 1, a, b)
        ensures Agree(TagsAfter(t, Some(packet)), packet.layerID, Absorb(recon, a, packet), Absorb(recon, b, packet))
      {
        SyncBringsAgreement(t, packet, recon, a, b);
      }
    } else {
      var s: Slot :| t.Of(s) == packet.layerID && !packet.refresh.Has(s);
      UncoveredSlotStays(t, packet, recon, s);
    }
  }

  /** A slot of the packet's layer that the packet leaves alone keeps two receivers apart. */
  lemma UncoveredSlotStays<F>(t: Tags, packet: Packet<F>, recon: Reconstruction<F, int>, s: Slot)
    requires !packet.key && 0 < packet.layerID < EVERY_LAYER
    requires t.Of(s) == packet.layerID && !packet.refresh.Has(s)
    ensures var a, b := Buffers(0, 0, 0), Marked(s);
            && Agree(t, packet.layerID - 1, a, b)
            && !Agree(TagsAfter(t, Some(packet)), packet.layerID, Absorb(recon, a, packet), Absorb(recon, b, packet))
  {
    var a, b := Buffers(0, 0, 0), Marked(s);
    var t' := TagsAfter(t, Some(packet));
    assert t'.Of(s) == packet.layerID;
    assert Absorb(recon, a, packet).Of(s) == 0 && Absorb(recon, b, packet).Of(s) == 1;
  }

  /* Every sync frame covers its layer, unless it is told not to */

  /** The layers a run ever leaves in a buffer. */
  predicate Carries(mode: Mode, s: Slot, layer: int) {
    layer == 0 ||
    (match s
     case Last => mode == FiveLayers && 1 <= layer <= 3
     case Golden => if mode == FiveLayers then 1 <= layer <= 2 else layer == 1 && Top(mode, Golden) == 1
     case AltRef => if mode == FiveLayers then layer == 1 else layer == 2 && Top(mode, AltRef) == 2)
  }

  predicate CoversSlot(mode: Mode, s: Slot, layer: int, flags: Flags) {
    && (!flags.noUpd.Has(s) ==> Carries(mode, s, layer))
    && (0 < layer && flags.noRef.Has(s) && Carries(mode, s, layer) ==> !flags.noUpd.Has(s))
  }

  /** Every table slot restricts its updates and covers its layer, except slots 0 and 8 of the five-layer table. */
  predicate SlotCovers(mode: Mode, f: int, layer: int, flags: Flags) {
    if mode == FiveLayers && f == 0 then flags.forceKey
    else if mode == FiveLayers && f == 8 then layer == 1 && flags == Inter(LG, NONE)
    else
      && RefreshPending(flags)
      && CoversSlot(mode, Last, layer, flags)
      && CoversSlot(mode, Golden, layer, flags)
      && CoversSlot(mode, AltRef, layer, flags)
      && (mode == FiveLayers ==> layer != 1)
  }

  predicate TableSlotCovers(mode: Mode, p: Pattern, f: nat)
    requires WellFormed(p) && f < p.flagPeriodicity
  {
    SlotCovers(mode, f, p.layerID[f % p.periodicity], p.flags[f])
  }

  lemma TablesCover(mode: Mode, p: Pattern, f: nat)
    requires PatternOf(mode) == Some(p) && WellFormed(p) && f < p.flagPeriodicity
    ensures TableSlotCovers(mode, p, f)
    ensures mode == FiveLayers ==> p.flagPeriodicity == 16
  {
    if mode == FiveLayers {
      FiveLayersCover(f);
    } else if mode in {TwoLayersWithSync, ThreeLayersWithSync} {
      SyncTablesCover(mode, p, f);
    } else if mode in {ThreeLayersAltRefWithSync, ThreeLayersNoSync} {
      LongTablesCover(mode, p, f);
    } else {
      ShortTablesCover(mode, f);
      SmallRemainder(f, p.periodicity);
    }
  }

  lemma FiveLayersCover(f: nat)
    requires f < 16
    ensures var p := PatternOf(FiveLayers).value; SlotCovers(FiveLayers, f, p.layerID[f % 16], p.flags[f])
  {
    if f < 4 {
    } else if f < 8 {
    } else if f < 12 {
    } else {
    }
  }

  lemma SyncTablesCover(mode: Mode, p: Pattern, f: nat)
    requires mode in {TwoLayersWithSync, ThreeLayersWithSync}
    requires PatternOf(mode) == Some(p) && WellFormed(p) && f < p.flagPeriodicity
    ensures TableSlotCovers(mode, p, f)
  {
  }

  lemma LongTablesCover(mode: Mode, p: Pattern, f: nat)
    requires mode in {ThreeLayersAltRefWithSync, ThreeLayersNoSync}
    requires PatternOf(mode) == Some(p) && WellFormed(p) && f < p.flagPeriodicity
    ensures TableSlotCovers(mode, p, f)
  {
  }

  lemma ShortTablesCover(mode: Mode, f: nat)
    requires PatternOf(mode).Some? && f < PatternOf(mode).value.flagPeriodicity
    requires mode !in {FiveLayers, TwoLayersWithSync, ThreeLayersWithSync, ThreeLayersAltRefWithSync, ThreeLayersNoSync}
    ensures var p := PatternOf(mode).value;
            && p.periodicity == p.flagPeriodicity == |p.layerID| == |p.flags|
            && SlotCovers(mode, f, p.layerID[f], p.flags[f])
  {
    match mode
    case OneLayer =>
    case TwoLayers =>
    case TwoLayersThreeFrame =>
    case ThreeLayersSixFrame =>
    case ThreeLayersNoInterLayerPrediction =>
    case ThreeLayersLayerOnePrediction =>
    case ThreeLayers =>
    case ThreeLayersOneReference =>
  }

  ghost predicate CoveringTables(mode: Mode, p: Pattern)
    requires WellFormed(p)
  {
    && (mode == FiveLayers ==> p.flagPeriodicity == 16)
    && forall f: nat :: f < p.flagPeriodicity ==> TableSlotCovers(mode, p, f)
  }

  /** A reachable encoder, with whatever flags the application has set so far. In the five-layer mode only slot 8 leaves
      layer 1 in a buffer, and the forced key frame of slot 0 removes it again. */
  ghost predicate Covering(e: Encoder) {
    Reachable(e) &&
    var m, f := e.schedule.mode, e.schedule.FlagIndex();
    && CoveringTables(m, e.schedule.pattern)
    && (forall s: Slot :: Carries(m, s, e.schedule.tags.Of(s)))
    && (m == FiveLayers && 1 <= f <= 8 ==> forall s: Slot :: e.schedule.tags.Of(s) != 1)
  }

  /** The application does not forbid the coming frame to update a buffer that its own layer last refreshed. */
  ghost predicate SparesOwnLayer(e: Encoder, flags: Flags)
    requires e.schedule.Valid()
  {
    forall s: Slot :: e.schedule.tags.Of(s) == e.schedule.LayerID() ==> !flags.noUpd.Has(s)
  }

  lemma NextFlagIndex(s: Schedule)
    requires s.Valid() && s.pattern.flagPeriodicity == 16
    ensures (s.frameIndex + 1) % TWO_TO_THE_64 % 16 == if s.FlagIndex() == 15 then 0 else s.FlagIndex() + 1
  {
    var n := s.frameIndex;
    var q, r := n / 16, n % 16;
    if r < 15 {
      UniqueRemainder(n + 1, 16, q, r + 1);
    } else {
      UniqueRemainder(n + 1, 16, q + 1, 0);
    }
  }

  lemma StepStaysCovering<F>(e: Encoder, input: Input<F>)
    requires Covering(e) && Possible(e, input)
    ensures Covering(Step(e, input))
  {
    StepStaysReachable(e, input);
    IndicesInStep(e.schedule);
    var f := e.schedule.FlagIndex();
    assert TableSlotCovers(e.schedule.mode, e.schedule.pattern, f);
    if e.schedule.mode == FiveLayers {
      NextFlagIndex(e.schedule);
    }
  }

  /** A sync frame covers its layer exactly when the application spares the layer's own buffers on that frame: its other
      flags, and all flags of earlier frames, make no difference. */
  lemma SyncCoversExactly<F>(e: Encoder, input: Input<F>)
    requires Covering(e) && Possible(e, input)
    requires input.outcome.CodedInter? && PacketOf(e, input).value.sync
    ensures Covers(e.schedule.tags, PacketOf(e, input).value) <==> SparesOwnLayer(e, input.userFlags)
  {
    IndicesInStep(e.schedule);
    assert TableSlotCovers(e.schedule.mode, e.schedule.pattern, e.schedule.FlagIndex());
    var packet := PacketOf(e, input).value;
    forall s: Slot | e.schedule.tags.Of(s) == packet.layerID
      ensures packet.refresh.Has(s) <==> !input.userFlags.noUpd.Has(s)
    {
      assert e.schedule.FrameFlags().noRef.Has(s);
    }
  }

  lemma {:induction false} RunStaysCovering<F>(e: Encoder, inputs: seq<Input<F>>)
    requires Covering(e) && PossibleRun(e, inputs)
    ensures Covering(Final(e, inputs))
    decreases |inputs|
  {
    if inputs != [] {
      StepStaysCovering(e, inputs[0]);
      RunStaysCovering(Step(e, inputs[0]), inputs[1..]);
    }
  }

  lemma FreshIsCovering(mode: Mode, kbps: seq<int>)
    requires PatternOf(mode).Some? && |kbps| == MAX_LAYERS
    ensures Covering(Fresh(mode, kbps))
  {
    var p := PatternOf(mode).value;
    PatternsAreWellFormed(mode);
    forall f: nat | f < p.flagPeriodicity
      ensures TableSlotCovers(mode, p, f)
    {
      TablesCover(mode, p, f);
    }
    TablesCover(mode, p, 0);
    forall s: Slot
      ensures BASE_TAGS.Of(s) == 0
    {
    }
  }

  /** The rule for the sync frame of an encoder that has emitted a safe stream. */
  lemma SyncSwitchesUp<F, P>(
    e: Encoder, seen: seq<Option<Packet<F>>>, sync: Input<F>, after: seq<Input<F>>,
    recon: Reconstruction<F, P>, start: Buffers<P>)
    requires Covering(e) && SafeStream(BASE_TAGS, seen) && EndTags(BASE_TAGS, seen) == e.schedule.tags
    requires Possible(e, sync) && sync.outcome.CodedInter? && PacketOf(e, sync).value.sync
    requires SparesOwnLayer(e, sync.userFlags) && PossibleRun(Step(e, sync), after)
    ensures SwitchesUp(recon, start, seen, PacketOf(e, sync).value, Emitted(Step(e, sync), after))
  {
    SyncCoversExactly(e, sync);
    SyncReferencesAreLower(e, sync);
    StepStaysReachable(e, sync);
    EmittedIsSafe(Step(e, sync), after);
    SyncTags(e, sync);
    CoveredSyncSwitchesUp(BASE_TAGS, seen, PacketOf(e, sync).value, Emitted(Step(e, sync), after), recon, start);
  }

  lemma SyncTags<F>(e: Encoder, sync: Input<F>)
    requires Reachable(e) && Possible(e, sync) && sync.outcome.CodedInter? && PacketOf(e, sync).value.sync
    ensures PacketOf(e, sync).value.layerID < EVERY_LAYER
    ensures Step(e, sync).schedule.tags == TagsAfter(e.schedule.tags, PacketOf(e, sync))
  {
  }

  /** In every mode and every run: a receiver of layers below L that forwards a sync frame of layer L, and from then on
      every frame of layers up to L, shows all of those frames exactly as the receiver of the full stream does, whatever
      is dropped, failed, forced to a key frame or restricted by application flags before and after. Of the sync frame
      itself it takes only that the application does not forbid it to update its own layer's buffers. */
  lemma SwitchUpIsPermanent<F, P>(
    mode: Mode, kbps: seq<int>, before: seq<Input<F>>, sync: Input<F>, after: seq<Input<F>>,
    recon: Reconstruction<F, P>, start: Buffers<P>)
    requires PatternOf(mode).Some? && |kbps| == MAX_LAYERS
    requires PossibleRun(Fresh(mode, kbps), before)
    requires var e := Final(Fresh(mode, kbps), before);
             && Possible(e, sync) && sync.outcome.CodedInter? && PacketOf(e, sync).value.sync
             && SparesOwnLayer(e, sync.userFlags) && PossibleRun(Step(e, sync), after)
    ensures var e := Final(Fresh(mode, kbps), before);
            SwitchesUp(recon, start, Emitted(Fresh(mode, kbps), before), PacketOf(e, sync).value,
                       Emitted(Step(e, sync), after))
  {
    FreshIsCovering(mode, kbps);
    EmittedIsSafe(Fresh(mode, kbps), before);
    RunStaysCovering(Fresh(mode, kbps), before);
    SyncSwitchesUp(Final(Fresh(mode, kbps), before), Emitted(Fresh(mode, kbps), before), sync, after, recon, start);
  }
}
