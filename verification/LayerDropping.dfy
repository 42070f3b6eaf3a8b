/** Layer dropping: what a receiver loses, and does not lose, when a forwarder discards the higher temporal layers.
    The encoder is the scheduler plus the reference and refresh masks it carries over dropped frames; a decoder is
    three picture buffers refreshed as in section 9.7 of RFC 6386. Pictures are an uninterpreted function of a
    packet's payload and the buffers it references. */
module LayerDropping {
  import opened Arith
  import opened Wrappers
  import opened TemporalPattern
  import opened Temporal

  /* The encoder */

  predicate RefreshPending(flags: Flags) {
    !flags.noUpd.IsEmpty() || flags.forceGolden || flags.forceAltRef
  }

  /** A frame that restricts its updates replaces the carried mask, which starts from all three buffers. */
  function ArmedRefresh(flags: Flags, carried: Option<Mask>): Option<Mask> {
    if RefreshPending(flags) then Some(flags.noUpd.Complement()) else carried
  }

  function ArmedReference(flags: Flags, carried: Option<Mask>): Option<Mask> {
    if !flags.noRef.IsEmpty() then Some(flags.noRef.Complement()) else carried
  }

  /** The buffers an inter frame refreshes: the armed mask, or LAST alone. */
  function RefreshMask(armed: Option<Mask>): Mask {
    if armed.Some? then armed.value else LAST
  }

  /** The buffers an inter frame may predict from; aliased buffers may be left out of these. */
  function ReferenceMask(armed: Option<Mask>): Mask {
    if armed.Some? then armed.value else ALL
  }

  datatype Encoder = Encoder(schedule: Schedule, refresh: Option<Mask>, reference: Option<Mask>)

  /** What became of one source frame; a failed call may have stopped before or after the masks were armed. */
  datatype Outcome<F> =
    | CodedKey(payload: F)
    | CodedInter(used: Mask, payload: F)
    | DroppedByRateControl
    | Failed(armed: bool)

  datatype Input<F> = Input(
    userFlags: Flags, buffers: BufferConfig, show: bool, bits: int, outcome: Outcome<F>)

  datatype Packet<F> = Packet(key: bool, layerID: int, sync: bool, used: Mask, refresh: Mask, payload: F)

  function CodedFlags<F>(e: Encoder, input: Input<F>): Flags
    requires e.schedule.Valid()
  {
    e.schedule.FrameFlags().Or(input.userFlags)
  }

  predicate Contradictory(flags: Flags) {
    (flags.forceGolden && flags.noUpd.golden) || (flags.forceAltRef && flags.noUpd.alt)
  }

  /** Which outcomes encodeSourceInto can have: contradictory flags fail, a forced key frame is never dropped, and
      an inter frame predicts only from available buffers. Any frame may become a key frame. */
  predicate Possible<F>(e: Encoder, input: Input<F>)
    requires e.schedule.Valid()
  {
    var flags := CodedFlags(e, input);
    && (Contradictory(flags) ==> input.outcome == Failed(false))
    && (flags.forceKey ==> input.outcome.CodedKey? || input.outcome.Failed?)
    && (input.outcome.CodedInter? ==>
          input.outcome.used.Subset(ReferenceMask(ArmedReference(flags, e.reference))))
  }

  /** One source frame: the packet it produced, if any. */
  function PacketOf<F>(e: Encoder, input: Input<F>): Option<Packet<F>>
    requires e.schedule.Valid()
  {
    var layerID, sync, flags := e.schedule.LayerID(), e.schedule.Sync(), CodedFlags(e, input);
    match input.outcome
    case CodedKey(payload) => Some(Packet(true, layerID, sync, NONE, ALL, payload))
    case CodedInter(used, payload) =>
      Some(Packet(false, layerID, sync, used, RefreshMask(ArmedRefresh(flags, e.refresh)), payload))
    case DroppedByRateControl => None
    case Failed(_) => None
  }

  /** The encoder after one source frame. The carried masks end with the first packet that is produced. */
  function Step<F>(e: Encoder, input: Input<F>): (r: Encoder)
    requires e.schedule.Valid()
    ensures r.schedule.Valid()
  {
    var layerID, tl0, flags := e.schedule.LayerID(), e.schedule.NextTL0(), CodedFlags(e, input);
    var armed := Encoder(e.schedule, ArmedRefresh(flags, e.refresh), ArmedReference(flags, e.reference));
    match input.outcome
    case CodedKey(_) =>
      Encoder(e.schedule.Finished(layerID, tl0, true, input.show, ALL, input.bits, input.buffers), None, None)
    case CodedInter(_, _) =>
      Encoder(e.schedule.Finished(layerID, tl0, false, input.show, RefreshMask(armed.refresh), input.bits,
                                  input.buffers),
              None, None)
    case DroppedByRateControl => armed.(schedule := e.schedule.Dropped(layerID, input.buffers))
    case Failed(late) => if late then armed else e
  }

  ghost predicate PossibleRun<F>(e: Encoder, inputs: seq<Input<F>>)
    requires e.schedule.Valid()
    decreases |inputs|
  {
    inputs == [] || (Possible(e, inputs[0]) && PossibleRun(Step(e, inputs[0]), inputs[1..]))
  }

  /** The packet of every source frame, None where the frame was dropped or failed. */
  function Emitted<F>(e: Encoder, inputs: seq<Input<F>>): (r: seq<Option<Packet<F>>>)
    requires e.schedule.Valid()
    ensures |r| == |inputs|
    decreases |inputs|
  {
    if inputs == [] then [] else [PacketOf(e, inputs[0])] + Emitted(Step(e, inputs[0]), inputs[1..])
  }

  function Final<F>(e: Encoder, inputs: seq<Input<F>>): (r: Encoder)
    requires e.schedule.Valid()
    ensures r.schedule.Valid()
    decreases |inputs|
  {
    if inputs == [] then e else Final(Step(e, inputs[0]), inputs[1..])
  }

  /* Decoders */

  datatype Buffers<P> = Buffers(last: P, golden: P, alt: P) {
    function Of(s: Slot): P {
      match s
      case Last => last
      case Golden => golden
      case AltRef => alt
    }

    function Refreshed(m: Mask, picture: P): Buffers<P> {
      Buffers(if m.last then picture else last, if m.golden then picture else golden, if m.alt then picture else alt)
    }

    /** The part of the buffers a frame predicts from. */
    function View(m: Mask): References<P> {
      References(if m.last then Some(last) else None,
                 if m.golden then Some(golden) else None,
                 if m.alt then Some(alt) else None)
    }
  }

  datatype References<P> = References(last: Option<P>, golden: Option<P>, alt: Option<P>)

  type Reconstruction<!F, !P> = (F, References<P>) -> P

  function Picture<F, P>(recon: Reconstruction<F, P>, b: Buffers<P>, packet: Packet<F>): P {
    recon(packet.payload, b.View(if packet.key then NONE else packet.used))
  }

  /** A key frame refreshes all three buffers, an inter frame those of its header. */
  function Absorb<F, P>(recon: Reconstruction<F, P>, b: Buffers<P>, packet: Packet<F>): Buffers<P> {
    b.Refreshed(if packet.key then ALL else packet.refresh, Picture(recon, b, packet))
  }

  /** The forwarder's rule: key frames and layers up to k pass. */
  predicate Forwarded<F>(packet: Option<Packet<F>>, k: int) {
    packet.Some? && (packet.value.key || packet.value.layerID <= k)
  }

  /** The picture a receiver limited to layer k shows for each entry of the stream. */
  function Shown<F, P>(recon: Reconstruction<F, P>, b: Buffers<P>, stream: seq<Option<Packet<F>>>, k: int)
    : (r: seq<Option<P>>)
    ensures |r| == |stream|
    decreases |stream|
  {
    if stream == [] then []
    else if Forwarded(stream[0], k) then
      [Some(Picture(recon, b, stream[0].value))] + Shown(recon, Absorb(recon, b, stream[0].value), stream[1..], k)
    else
      [None] + Shown(recon, b, stream[1..], k)
  }

  function BuffersAfter<F, P>(recon: Reconstruction<F, P>, b: Buffers<P>, stream: seq<Option<Packet<F>>>, k: int)
    : Buffers<P>
    decreases |stream|
  {
    if stream == [] then b
    else BuffersAfter(recon, if Forwarded(stream[0], k) then Absorb(recon, b, stream[0].value) else b, stream[1..], k)
  }

  /** No layer number reaches this: the receiver of the full stream. */
  const EVERY_LAYER := MAX_LAYERS

  /* Which layers a buffer can carry */

  /** The highest layer that ever refreshes a buffer, per mode. */
  function Top(mode: Mode, s: Slot): int {
    match s
    case Last => if mode == FiveLayers then 3 else 0
    case Golden => if mode == FiveLayers then 2 else if mode == OneLayer then 0 else 1
    case AltRef =>
      if mode == FiveLayers then 1
      else if mode in {ThreeLayersSixFrame, ThreeLayers, ThreeLayersWithSync, ThreeLayersOneReference} then 2
      else 0
  }

  ghost predicate TagsBounded(mode: Mode, t: Tags) {
    forall s: Slot :: 0 <= t.Of(s) <= Top(mode, s)
  }

  /** Every reachable encoder whose layer ids come from the pattern. */
  ghost predicate Reachable(e: Encoder) {
    && e.schedule.Valid()
    && SafeTables(e.schedule.mode, e.schedule.pattern)
    && e.schedule.layerIDOverride == -1
    && TagsBounded(e.schedule.mode, e.schedule.tags)
  }

  /** A slot of the tables respects the bounds: its frame refreshes only buffers that may carry its layer, and
      predicts only from buffers that cannot carry a higher one, unless it always forces a key frame. */
  predicate SlotRespectsTops(mode: Mode, layer: int, flags: Flags, alwaysKey: bool) {
    && (!flags.noUpd.last ==> layer <= Top(mode, Last))
    && (!flags.noUpd.golden ==> layer <= Top(mode, Golden))
    && (!flags.noUpd.alt ==> layer <= Top(mode, AltRef))
    && (alwaysKey || flags.noRef.last || Top(mode, Last) <= layer)
    && (alwaysKey || flags.noRef.golden || Top(mode, Golden) <= layer)
    && (alwaysKey || flags.noRef.alt || Top(mode, AltRef) <= layer)
  }

  predicate TableSlotIsSafe(mode: Mode, p: Pattern, f: nat)
    requires WellFormed(p) && f < p.flagPeriodicity
  {
    && SlotRespectsTops(mode, p.layerID[f % p.periodicity], p.flags[f], f == 0 && mode == FiveLayers)
    && (f == 0 && mode == FiveLayers ==> p.flags[f].forceKey)
  }

  ghost predicate SafeTables(mode: Mode, p: Pattern)
    requires WellFormed(p)
  {
    forall f: nat :: f < p.flagPeriodicity ==> TableSlotIsSafe(mode, p, f)
  }

  lemma TablesRespectTops(mode: Mode, p: Pattern, f: nat)
    requires PatternOf(mode) == Some(p) && WellFormed(p) && f < p.flagPeriodicity
    ensures TableSlotIsSafe(mode, p, f)
  {
    if mode == FiveLayers {
      FiveLayersRespectTops(f);
    } else if mode in {TwoLayersWithSync, ThreeLayersWithSync} {
      SyncTablesRespectTops(mode, p, f);
    } else if mode in {ThreeLayersAltRefWithSync, ThreeLayersNoSync} {
      LongTablesRespectTops(mode, p, f);
    } else {
      ShortTablesRespectTops(mode, f);
      SmallRemainder(f, p.periodicity);
    }
  }

  lemma AllTablesAreSafe(mode: Mode)
    requires PatternOf(mode).Some? && WellFormed(PatternOf(mode).value)
    ensures SafeTables(mode, PatternOf(mode).value)
  {
    var p := PatternOf(mode).value;
    forall f: nat | f < p.flagPeriodicity
      ensures TableSlotIsSafe(mode, p, f)
    {
      TablesRespectTops(mode, p, f);
    }
  }

  lemma SyncTablesRespectTops(mode: Mode, p: Pattern, f: nat)
    requires mode in {TwoLayersWithSync, ThreeLayersWithSync}
    requires PatternOf(mode) == Some(p) && WellFormed(p) && f < p.flagPeriodicity
    ensures TableSlotIsSafe(mode, p, f)
  {
  }

  lemma LongTablesRespectTops(mode: Mode, p: Pattern, f: nat)
    requires mode in {ThreeLayersAltRefWithSync, ThreeLayersNoSync}
    requires PatternOf(mode) == Some(p) && WellFormed(p) && f < p.flagPeriodicity
    ensures TableSlotIsSafe(mode, p, f)
  {
  }

  lemma ShortTablesRespectTops(mode: Mode, f: nat)
    requires PatternOf(mode).Some? && f < PatternOf(mode).value.flagPeriodicity
    requires mode !in {FiveLayers, TwoLayersWithSync, ThreeLayersWithSync, ThreeLayersAltRefWithSync, ThreeLayersNoSync}
    ensures var p := PatternOf(mode).value;
            && p.periodicity == p.flagPeriodicity == |p.layerID| == |p.flags|
            && SlotRespectsTops(mode, p.layerID[f], p.flags[f], false)
  {
    match mode
    case OneLayer =>
    case TwoLayers =>
    case TwoLayersThreeFrame =>
    case ThreeLayersSixFrame =>
    case ThreeLayersNoInterLayerPrediction =>
    case ThreeLayersLayerOnePrediction =>
    case ThreeLayers =>
    case ThreeLayersOneReference =>
  }

  lemma FiveLayersRespectTops(f: nat)
    requires f < 16
    ensures var p := PatternOf(FiveLayers).value;
            SlotRespectsTops(FiveLayers, p.layerID[f % 16], p.flags[f], f == 0)
  {
  }

  /** The layer table and the flag table stay in step at every frame index. */
  lemma IndicesInStep(s: Schedule)
    requires s.Valid()
    ensures s.frameIndex % s.pattern.periodicity == s.FlagIndex() % s.pattern.periodicity
  {
    var p, f := s.pattern.periodicity, s.pattern.flagPeriodicity;
    var q := f / p;
    assert f == q * p;
    RemainderOfRemainder(s.frameIndex, q, p);
  }

  /* Safety of every step */

  /** No inter frame predicts from a buffer last refreshed by a higher layer. */
  lemma PredictsFromLowerLayers<F>(e: Encoder, input: Input<F>)
    requires Reachable(e) && Possible(e, input) && input.outcome.CodedInter?
    ensures forall s: Slot :: PacketOf(e, input).value.used.Has(s) ==>
              e.schedule.tags.Of(s) <= PacketOf(e, input).value.layerID
  {
    var p, f := e.schedule.pattern, e.schedule.FlagIndex();
    assert TableSlotIsSafe(e.schedule.mode, p, f);
    IndicesInStep(e.schedule);
    forall s: Slot | input.outcome.used.Has(s)
      ensures e.schedule.tags.Of(s) <= e.schedule.LayerID()
    {
      assert !p.flags[f].noRef.Has(s);
      assert Top(e.schedule.mode, s) <= e.schedule.LayerID();
    }
  }

  lemma StepStaysReachable<F>(e: Encoder, input: Input<F>)
    requires Reachable(e) && Possible(e, input)
    ensures Reachable(Step(e, input))
  {
    if input.outcome.CodedInter? {
      var p, f := e.schedule.pattern, e.schedule.FlagIndex();
      assert TableSlotIsSafe(e.schedule.mode, p, f);
      IndicesInStep(e.schedule);
      var refresh := RefreshMask(ArmedRefresh(CodedFlags(e, input), e.refresh));
      forall s: Slot
        ensures 0 <= Step(e, input).schedule.tags.Of(s) <= Top(e.schedule.mode, s)
      {
        if refresh.Has(s) {
          assert !p.flags[f].noUpd.Has(s);
        }
      }
    }
  }

  /* Streams */

  /** The layer tags a packet leaves behind. */
  function TagsAfter<F>(t: Tags, packet: Option<Packet<F>>): Tags {
    if packet == None then t
    else if packet.value.key then BASE_TAGS
    else t.Refreshed(packet.value.refresh, packet.value.layerID)
  }

  function EndTags<F>(t: Tags, stream: seq<Option<Packet<F>>>): Tags
    decreases |stream|
  {
    if stream == [] then t else EndTags(TagsAfter(t, stream[0]), stream[1..])
  }

  /** A packet that predicts only from buffers last refreshed by its own layer or a lower one. */
  ghost predicate SafePacket<F>(t: Tags, packet: Option<Packet<F>>) {
    packet.Some? ==>
      && 0 <= packet.value.layerID < EVERY_LAYER
      && (!packet.value.key ==> forall s: Slot :: packet.value.used.Has(s) ==> t.Of(s) <= packet.value.layerID)
  }

  ghost predicate SafeStream<F>(t: Tags, stream: seq<Option<Packet<F>>>)
    decreases |stream|
  {
    stream == [] || (SafePacket(t, stream[0]) && SafeStream(TagsAfter(t, stream[0]), stream[1..]))
  }

  /** Everything a reachable encoder emits is a safe stream. */
  lemma {:induction false} EmittedIsSafe<F>(e: Encoder, inputs: seq<Input<F>>)
    requires Reachable(e) && PossibleRun(e, inputs)
    ensures Reachable(Final(e, inputs))
    ensures SafeStream(e.schedule.tags, Emitted(e, inputs))
    ensures EndTags(e.schedule.tags, Emitted(e, inputs)) == Final(e, inputs).schedule.tags
    decreases |inputs|
  {
    if inputs != [] {
      var e' := Step(e, inputs[0]);
      if inputs[0].outcome.CodedInter? {
        PredictsFromLowerLayers(e, inputs[0]);
      }
      StepStaysReachable(e, inputs[0]);
      EmittedIsSafe(e', inputs[1..]);
      assert Emitted(e, inputs)[1..] == Emitted(e', inputs[1..]);
    }
  }

  /* The simulation */

  /** The two receivers hold the same picture in every buffer last refreshed by layer k or below. */
  ghost predicate Agree<P>(t: Tags, k: int, a: Buffers<P>, b: Buffers<P>) {
    forall s: Slot :: t.Of(s) <= k ==> a.Of(s) == b.Of(s)
  }

  lemma SameView<P>(m: Mask, a: Buffers<P>, b: Buffers<P>)
    requires forall s: Slot :: m.Has(s) ==> a.Of(s) == b.Of(s)
    ensures a.View(m) == b.View(m)
  {
    assert m.last ==> a.Of(Last) == b.Of(Last);
    assert m.golden ==> a.Of(Golden) == b.Of(Golden);
    assert m.alt ==> a.Of(AltRef) == b.Of(AltRef);
  }

  function Received<F, P>(recon: Reconstruction<F, P>, b: Buffers<P>, packet: Option<Packet<F>>, k: int): Buffers<P> {
    if Forwarded(packet, k) then Absorb(recon, b, packet.value) else b
  }

  /** One packet: agreement is kept, and if it is forwarded both receivers show the same picture. */
  lemma PacketSimulates<F, P>(
    t: Tags, packet: Option<Packet<F>>, k: nat, recon: Reconstruction<F, P>, a: Buffers<P>, b: Buffers<P>)
    requires SafePacket(t, packet) && Agree(t, k, a, b)
    ensures packet.Some? ==> Forwarded(packet, EVERY_LAYER)
    ensures Forwarded(packet, k) ==> Picture(recon, a, packet.value) == Picture(recon, b, packet.value)
    ensures Agree(TagsAfter(t, packet), k, Received(recon, a, packet, EVERY_LAYER), Received(recon, b, packet, k))
  {
    if Forwarded(packet, k) && !packet.value.key {
      SameView(packet.value.used, a, b);
    }
  }

  /** The simulation over a whole stream, between any two agreeing receivers. */
  lemma {:induction false} StreamSimulates<F, P>(
    t: Tags, stream: seq<Option<Packet<F>>>, k: nat, recon: Reconstruction<F, P>, a: Buffers<P>, b: Buffers<P>)
    requires SafeStream(t, stream) && Agree(t, k, a, b)
    ensures forall j :: 0 <= j < |stream| && Forwarded(stream[j], k) ==>
              Shown(recon, b, stream, k)[j] == Shown(recon, a, stream, EVERY_LAYER)[j]
    ensures Agree(EndTags(t, stream), k,
                  BuffersAfter(recon, a, stream, EVERY_LAYER), BuffersAfter(recon, b, stream, k))
    decreases |stream|
  {
    if stream != [] {
      var packet, rest := stream[0], stream[1..];
      PacketSimulates(t, packet, k, recon, a, b);
      var a', b' := Received(recon, a, packet, EVERY_LAYER), Received(recon, b, packet, k);
      StreamSimulates(TagsAfter(t, packet), rest, k, recon, a', b');
      forall j | 0 <= j < |stream| && Forwarded(stream[j], k)
        ensures Shown(recon, b, stream, k)[j] == Shown(recon, a, stream, EVERY_LAYER)[j]
      {
        if j > 0 {
          assert rest[j - 1] == stream[j];
          assert Shown(recon, b, stream, k)[j] == Shown(recon, b', rest, k)[j - 1];
          assert Shown(recon, a, stream, EVERY_LAYER)[j] == Shown(recon, a', rest, EVERY_LAYER)[j - 1];
        }
      }
    }
  }

  /* The theorems */

  /** An encoder just configured for a mode. */
  ghost function Fresh(mode: Mode, kbps: seq<int>): (e: Encoder)
    requires PatternOf(mode).Some? && |kbps| == MAX_LAYERS
    ensures Reachable(e) && e.schedule.tags == BASE_TAGS
  {
    PatternsAreWellFormed(mode);
    AllTablesAreSafe(mode);
    assert forall s: Slot :: BASE_TAGS.Of(s) == 0 <= Top(mode, s);
    Encoder(Configured(mode, PatternOf(mode).value, kbps), None, None)
  }

  /** Layer dropping is safe: in every mode, over every run of coded, dropped and failed frames, a receiver of key
      frames and layers up to k shows each of those frames exactly as the receiver of the full stream does. */
  lemma LayerDroppingIsSafe<F, P>(
    mode: Mode, kbps: seq<int>, inputs: seq<Input<F>>, k: nat, recon: Reconstruction<F, P>, start: Buffers<P>)
    requires PatternOf(mode).Some? && |kbps| == MAX_LAYERS
    requires PossibleRun(Fresh(mode, kbps), inputs)
    ensures var stream := Emitted(Fresh(mode, kbps), inputs);
            forall j :: 0 <= j < |inputs| && Forwarded(stream[j], k) ==>
              Shown(recon, start, stream, k)[j] == Shown(recon, start, stream, EVERY_LAYER)[j]
  {
    EmittedIsSafe(Fresh(mode, kbps), inputs);
    StreamSimulates(BASE_TAGS, Emitted(Fresh(mode, kbps), inputs), k, recon, start, start);
  }

  /** A sync frame can be decoded by a receiver that so far discarded its layer and everything above. */
  lemma SyncFrameIsDecodable<F, P>(
    mode: Mode, kbps: seq<int>, inputs: seq<Input<F>>, next: Input<F>, recon: Reconstruction<F, P>, start: Buffers<P>)
    requires PatternOf(mode).Some? && |kbps| == MAX_LAYERS
    requires PossibleRun(Fresh(mode, kbps), inputs)
    requires Possible(Final(Fresh(mode, kbps), inputs), next)
    requires var packet := PacketOf(Final(Fresh(mode, kbps), inputs), next);
             packet.Some? && !packet.value.key && packet.value.sync
    ensures var stream := Emitted(Fresh(mode, kbps), inputs);
            var packet := PacketOf(Final(Fresh(mode, kbps), inputs), next).value;
            && 0 < packet.layerID
            && Picture(recon, BuffersAfter(recon, start, stream, packet.layerID - 1), packet) ==
               Picture(recon, BuffersAfter(recon, start, stream, EVERY_LAYER), packet)
  {
    var e := Final(Fresh(mode, kbps), inputs);
    var stream := Emitted(Fresh(mode, kbps), inputs);
    var packet := PacketOf(e, next).value;
    var k := packet.layerID - 1;
    EmittedIsSafe(Fresh(mode, kbps), inputs);
    StreamSimulates(BASE_TAGS, stream, k, recon, start, start);
    SyncReferencesAreLower(e, next);
    SameView(packet.used, BuffersAfter(recon, start, stream, EVERY_LAYER), BuffersAfter(recon, start, stream, k));
  }

  /** A frame marked sync predicts only from buffers last refreshed strictly below its layer. */
  lemma SyncReferencesAreLower<F>(e: Encoder, input: Input<F>)
    requires Reachable(e) && Possible(e, input) && input.outcome.CodedInter? && PacketOf(e, input).value.sync
    ensures var packet := PacketOf(e, input).value;
            0 < packet.layerID &&
            forall s: Slot :: packet.used.Has(s) ==> e.schedule.tags.Of(s) < packet.layerID
  {
    forall s: Slot | input.outcome.used.Has(s)
      ensures !e.schedule.FrameFlags().noRef.Has(s)
    {
    }
  }

  /* The masks carried over frames that produced no packet */

  /** A frame that got as far as arming its masks, but produced no packet. */
  predicate ArmedOnly<F>(input: Input<F>) {
    input.outcome.DroppedByRateControl? || (input.outcome.Failed? && input.outcome.armed)
  }

  /** The update restriction still in force after these frames: that of the latest frame since the last packet that had
      one, counted from the back. */
  ghost function UpdatesInForce<F>(e: Encoder, inputs: seq<Input<F>>): Option<Mask>
    requires e.schedule.Valid()
    decreases |inputs|
  {
    if inputs == [] then None
    else
      var before, input := inputs[..|inputs| - 1], inputs[|inputs| - 1];
      var flags := CodedFlags(Final(e, before), input);
      if input.outcome.CodedKey? || input.outcome.CodedInter? then None
      else if ArmedOnly(input) && (flags.noUpd.last || flags.noUpd.golden || flags.noUpd.alt ||
                                   flags.forceGolden || flags.forceAltRef)
      then Some(Mask(!flags.noUpd.last, !flags.noUpd.golden, !flags.noUpd.alt))
      else UpdatesInForce(e, before)
  }

  /** The same for the reference restriction. */
  ghost function ReferencesInForce<F>(e: Encoder, inputs: seq<Input<F>>): Option<Mask>
    requires e.schedule.Valid()
    decreases |inputs|
  {
    if inputs == [] then None
    else
      var before, input := inputs[..|inputs| - 1], inputs[|inputs| - 1];
      var flags := CodedFlags(Final(e, before), input);
      if input.outcome.CodedKey? || input.outcome.CodedInter? then None
      else if ArmedOnly(input) && (flags.noRef.last || flags.noRef.golden || flags.noRef.alt)
      then Some(Mask(!flags.noRef.last, !flags.noRef.golden, !flags.noRef.alt))
      else ReferencesInForce(e, before)
  }

  lemma {:induction false} FinalOfLast<F>(e: Encoder, inputs: seq<Input<F>>)
    requires e.schedule.Valid() && inputs != []
    ensures Final(e, inputs) == Step(Final(e, inputs[..|inputs| - 1]), inputs[|inputs| - 1])
    decreases |inputs|
  {
    if |inputs| > 1 {
      FinalOfLast(Step(e, inputs[0]), inputs[1..]);
      assert inputs[..|inputs| - 1][1..] == inputs[1..][..|inputs| - 2];
    }
  }

  lemma StepOfMasks<F>(e: Encoder, input: Input<F>)
    requires e.schedule.Valid()
    ensures var flags, e' := CodedFlags(e, input), Step(e, input);
            && e'.refresh == (if input.outcome.CodedKey? || input.outcome.CodedInter? then None
                              else if ArmedOnly(input) then ArmedRefresh(flags, e.refresh) else e.refresh)
            && e'.reference == (if input.outcome.CodedKey? || input.outcome.CodedInter? then None
                                else if ArmedOnly(input) then ArmedReference(flags, e.reference) else e.reference)
  {
  }

  lemma {:induction false} CarriedMasks<F>(e: Encoder, inputs: seq<Input<F>>)
    requires e.schedule.Valid() && e.refresh == None && e.reference == None
    ensures Final(e, inputs).refresh == UpdatesInForce(e, inputs)
    ensures Final(e, inputs).reference == ReferencesInForce(e, inputs)
    decreases |inputs|
  {
    if inputs != [] {
      var before, input := inputs[..|inputs| - 1], inputs[|inputs| - 1];
      CarriedMasks(e, before);
      FinalOfLast(e, inputs);
      StepOfMasks(Final(e, before), input);
    }
  }

  /** The masks of a packet, over any run of coded, dropped and failed frames: its own restrictions, in their absence
      those of the latest frame since the last packet that had any, and otherwise LAST alone to refresh and all three
      to predict from. */
  lemma PacketMasks<F>(mode: Mode, kbps: seq<int>, inputs: seq<Input<F>>, next: Input<F>)
    requires PatternOf(mode).Some? && |kbps| == MAX_LAYERS && next.outcome.CodedInter?
    ensures var start, e := Fresh(mode, kbps), Final(Fresh(mode, kbps), inputs);
            var flags, updates, references :=
              CodedFlags(e, next), UpdatesInForce(start, inputs), ReferencesInForce(start, inputs);
            && PacketOf(e, next).value.refresh ==
               (if flags.noUpd.last || flags.noUpd.golden || flags.noUpd.alt || flags.forceGolden || flags.forceAltRef
                then Mask(!flags.noUpd.last, !flags.noUpd.golden, !flags.noUpd.alt)
                else if updates.Some? then updates.value
                else Mask(true, false, false))
            && (Possible(e, next) ==>
                  next.outcome.used.Subset(
                    if flags.noRef.last || flags.noRef.golden || flags.noRef.alt
                    then Mask(!flags.noRef.last, !flags.noRef.golden, !flags.noRef.alt)
                    else if references.Some? then references.value
                    else Mask(true, true, true)))
  {
    CarriedMasks(Fresh(mode, kbps), inputs);
  }
}
