/** Why switching up for good needs the sync frame to spare its own layer's buffers: one NO_UPDATE_GOLDEN on it, and no
    other application flag anywhere, is enough to break it. The run is that of the two-layer pattern with sync;
    pictures are numbers, and a frame that predicts from GOLDEN shows what it finds there. */
module FlaggedSwitch {
  import opened Wrappers
  import opened TemporalPattern
  import opened Temporal
  import opened LayerDropping
  import opened SwitchingUp

  function ShowGolden(payload: int, refs: References<int>): int {
    if refs.golden.Some? then refs.golden.value else payload
  }

  /** No application flag on any frame. */
  ghost predicate PlainInputs(inputs: seq<Input<int>>) {
    forall i :: 0 <= i < |inputs| ==> inputs[i].userFlags == NO_FLAGS
  }

  const BLANK := Buffers(0, 0, 0)

  /** An encoder of the pattern about to code frame `index`. */
  ghost predicate At(e: Encoder, index: int, tags: Tags) {
    && e.schedule.Valid() && e.schedule.mode == TwoLayersWithSync
    && PatternOf(TwoLayersWithSync) == Some(e.schedule.pattern)
    && e.schedule.layerIDOverride == -1 && e.schedule.frameIndex == index && e.schedule.tags == tags
  }

  function KeyFrame(buffers: BufferConfig): Input<int> {
    Input(NO_FLAGS, buffers, true, 0, CodedKey(0))
  }

  function InterFrame(buffers: BufferConfig, flags: Flags, used: Mask, payload: int): Input<int> {
    Input(flags, buffers, true, 0, CodedInter(used, payload))
  }

  function Drop(buffers: BufferConfig): Input<int> {
    Input(NO_FLAGS, buffers, true, 0, DroppedByRateControl)
  }

  function Drops(buffers: BufferConfig, n: nat): (r: seq<Input<int>>)
    ensures |r| == n && forall i :: 0 <= i < n ==> r[i] == Drop(buffers)
  {
    if n == 0 then [] else [Drop(buffers)] + Drops(buffers, n - 1)
  }

  function Nothing(n: nat): (r: seq<Option<Packet<int>>>)
    ensures |r| == n
  {
    if n == 0 then [] else [None] + Nothing(n - 1)
  }

  /* One frame at a time */

  /** Even frames are base frames; past the first frame none is forced to be a key frame. */
  lemma FrameOfPattern(e: Encoder, index: int, tags: Tags)
    requires At(e, index, tags)
    ensures e.schedule.LayerID() == index % 2
    ensures e.schedule.FrameFlags().forceKey <==> index == 0
    ensures !e.schedule.FrameFlags().forceGolden && !e.schedule.FrameFlags().forceAltRef
    ensures index % 8 == 1 ==> e.schedule.FrameFlags() == Inter(GOLDEN, LA)
    ensures index % 8 == 2 ==> e.schedule.FrameFlags() == Inter(GOLDEN, GA)
    ensures index % 8 == 3 ==> e.schedule.FrameFlags() == Inter(NONE, LA).(noEntropy := true)
  {
    var f := index % 8;
    assert f == 0 || f == 1 || f == 2 || f == 3 || f == 4 || f == 5 || f == 6 || f == 7;
  }

  lemma StepAt(e: Encoder, index: int, tags: Tags, input: Input<int>)
    requires At(e, index, tags) && 0 <= index < 100 && !input.outcome.Failed?
    ensures var flags := CodedFlags(e, input);
            At(Step(e, input), index + 1,
               match input.outcome
               case CodedKey(_) => BASE_TAGS
               case CodedInter(_, _) =>
                 tags.Refreshed(RefreshMask(ArmedRefresh(flags, e.refresh)), e.schedule.LayerID())
               case _ => tags)
    ensures !input.outcome.DroppedByRateControl? ==> Step(e, input).refresh == None && Step(e, input).reference == None
  {
  }

  lemma ConsRun(e: Encoder, x: Input<int>, rest: seq<Input<int>>)
    requires e.schedule.Valid()
    ensures PossibleRun(e, [x] + rest) <==> Possible(e, x) && PossibleRun(Step(e, x), rest)
    ensures Emitted(e, [x] + rest) == [PacketOf(e, x)] + Emitted(Step(e, x), rest)
    ensures Final(e, [x] + rest) == Final(Step(e, x), rest)
  {
    assert ([x] + rest)[1..] == rest;
  }

  lemma ConsBuffers(b: Buffers<int>, p: Option<Packet<int>>, rest: seq<Option<Packet<int>>>, k: int)
    ensures BuffersAfter(ShowGolden, b, [p] + rest, k) ==
            BuffersAfter(ShowGolden, if Forwarded(p, k) then Absorb(ShowGolden, b, p.value) else b, rest, k)
    ensures Shown(ShowGolden, b, [p] + rest, k) ==
            (if Forwarded(p, k)
             then [Some(Picture(ShowGolden, b, p.value))] + Shown(ShowGolden, Absorb(ShowGolden, b, p.value), rest, k)
             else [None] + Shown(ShowGolden, b, rest, k))
  {
    assert ([p] + rest)[1..] == rest;
  }

  lemma DropAt(e: Encoder, index: int, tags: Tags, buffers: BufferConfig)
    requires At(e, index, tags) && 0 < index < 100
    ensures Possible(e, Drop(buffers)) && PacketOf(e, Drop(buffers)) == None
    ensures At(Step(e, Drop(buffers)), index + 1, tags)
  {
    FrameOfPattern(e, index, tags);
    StepAt(e, index, tags, Drop(buffers));
  }

  lemma {:induction false} DropsOnly(e: Encoder, index: int, tags: Tags, buffers: BufferConfig, n: nat)
    requires At(e, index, tags) && 0 < index && index + n < 100
    ensures PossibleRun(e, Drops(buffers, n)) && Emitted(e, Drops(buffers, n)) == Nothing(n)
    ensures At(Final(e, Drops(buffers, n)), index + n, tags)
    ensures PlainInputs(Drops(buffers, n))
    decreases n
  {
    if n > 0 {
      DropAt(e, index, tags, buffers);
      DropsOnly(Step(e, Drop(buffers)), index + 1, tags, buffers, n - 1);
      ConsRun(e, Drop(buffers), Drops(buffers, n - 1));
    }
  }

  lemma {:induction false} NothingChanges(b: Buffers<int>, n: nat, k: int)
    ensures BuffersAfter(ShowGolden, b, Nothing(n), k) == b
  {
    if n > 0 {
      ConsBuffers(b, None, Nothing(n - 1), k);
      NothingChanges(b, n - 1, k);
    }
  }

  /* The run */

  const DROPPED: nat := 7

  const GOLDEN_TAGGED := Tags(0, 1, 0)

  /** Frames 0 to 8: a key frame, a top-layer frame that refreshes GOLDEN, and seven drops. */
  function Before(buffers: BufferConfig): seq<Input<int>> {
    [KeyFrame(buffers)] + ([InterFrame(buffers, NO_FLAGS, LAST, 1)] + Drops(buffers, DROPPED))
  }

  /** Frame 9, a sync frame; the application asks it not to update GOLDEN. */
  function Sync(buffers: BufferConfig): Input<int> {
    InterFrame(buffers, Inter(NONE, GOLDEN), LAST, 9)
  }

  /** Frames 10 and 11: a base frame, and a top-layer frame that predicts from GOLDEN. */
  function After(buffers: BufferConfig): seq<Input<int>> {
    [InterFrame(buffers, NO_FLAGS, LAST, 10)] + ([InterFrame(buffers, NO_FLAGS, GOLDEN, 11)] + [])
  }

  const KEY_PACKET := Packet(true, 0, false, NONE, ALL, 0)
  const TOP_PACKET := Packet(false, 1, true, LAST, GOLDEN, 1)
  const SYNC_PACKET := Packet(false, 1, true, LAST, NONE, 9)
  const BASE_PACKET := Packet(false, 0, false, LAST, LAST, 10)
  const GOLDEN_PACKET := Packet(false, 1, false, GOLDEN, GOLDEN, 11)

  const SEEN := [Some(KEY_PACKET)] + ([Some(TOP_PACKET)] + Nothing(DROPPED))
  const REST := [Some(BASE_PACKET)] + ([Some(GOLDEN_PACKET)] + [])

  lemma BeforeRuns(kbps: seq<int>, buffers: BufferConfig)
    requires |kbps| == MAX_LAYERS && PatternOf(TwoLayersWithSync).Some?
    ensures var e := Fresh(TwoLayersWithSync, kbps);
            && PossibleRun(e, Before(buffers)) && PlainInputs(Before(buffers))
            && Emitted(e, Before(buffers)) == SEEN
            && At(Final(e, Before(buffers)), 9, GOLDEN_TAGGED)
  {
    var e := Fresh(TwoLayersWithSync, kbps);
    var key, top := KeyFrame(buffers), InterFrame(buffers, NO_FLAGS, LAST, 1);
    var rest := Drops(buffers, DROPPED);
    FrameOfPattern(e, 0, BASE_TAGS);
    StepAt(e, 0, BASE_TAGS, key);
    ConsRun(e, key, [top] + rest);
    var e1 := Step(e, key);
    FrameOfPattern(e1, 1, BASE_TAGS);
    StepAt(e1, 1, BASE_TAGS, top);
    ConsRun(e1, top, rest);
    DropsOnly(Step(e1, top), 2, GOLDEN_TAGGED, buffers, DROPPED);
  }

  lemma SyncRuns(e: Encoder, buffers: BufferConfig)
    requires At(e, 9, GOLDEN_TAGGED)
    ensures Possible(e, Sync(buffers)) && Sync(buffers).outcome.CodedInter?
    ensures PacketOf(e, Sync(buffers)) == Some(SYNC_PACKET) && PacketOf(e, Sync(buffers)).value.sync
    ensures !SparesOwnLayer(e, Sync(buffers).userFlags)
    ensures At(Step(e, Sync(buffers)), 10, GOLDEN_TAGGED)
    ensures Step(e, Sync(buffers)).refresh == None && Step(e, Sync(buffers)).reference == None
  {
    FrameOfPattern(e, 9, GOLDEN_TAGGED);
    assert e.schedule.tags.Of(Golden) == e.schedule.LayerID() && Sync(buffers).userFlags.noUpd.Has(Golden);
    StepAt(e, 9, GOLDEN_TAGGED, Sync(buffers));
  }

  lemma BaseRuns(e: Encoder, base: Input<int>, buffers: BufferConfig)
    requires At(e, 10, GOLDEN_TAGGED) && e.refresh == None && e.reference == None
    requires base == InterFrame(buffers, NO_FLAGS, LAST, 10)
    ensures Possible(e, base) && PacketOf(e, base) == Some(BASE_PACKET)
    ensures At(Step(e, base), 11, GOLDEN_TAGGED) && Step(e, base).refresh == None && Step(e, base).reference == None
  {
    FrameOfPattern(e, 10, GOLDEN_TAGGED);
    StepAt(e, 10, GOLDEN_TAGGED, base);
  }

  lemma TopRuns(e: Encoder, top: Input<int>, buffers: BufferConfig)
    requires At(e, 11, GOLDEN_TAGGED) && e.refresh == None && e.reference == None
    requires top == InterFrame(buffers, NO_FLAGS, GOLDEN, 11)
    ensures Possible(e, top) && PacketOf(e, top) == Some(GOLDEN_PACKET)
  {
    FrameOfPattern(e, 11, GOLDEN_TAGGED);
  }

  lemma AfterRuns(e: Encoder, buffers: BufferConfig)
    requires At(e, 10, GOLDEN_TAGGED) && e.refresh == None && e.reference == None
    ensures PossibleRun(e, After(buffers)) && PlainInputs(After(buffers)) && Emitted(e, After(buffers)) == REST
  {
    var base, top := InterFrame(buffers, NO_FLAGS, LAST, 10), InterFrame(buffers, NO_FLAGS, GOLDEN, 11);
    BaseRuns(e, base, buffers);
    ConsRun(e, base, [top] + []);
    TopRuns(Step(e, base), top, buffers);
    ConsRun(Step(e, base), top, []);
  }

  /** What a receiver of layers up to k holds before the sync frame: GOLDEN differs. */
  lemma BuffersBefore(k: int)
    ensures BuffersAfter(ShowGolden, BLANK, SEEN, k) == if k < 1 then BLANK else Buffers(0, 1, 0)
  {
    ConsBuffers(BLANK, Some(KEY_PACKET), [Some(TOP_PACKET)] + Nothing(DROPPED), k);
    ConsBuffers(BLANK, Some(TOP_PACKET), Nothing(DROPPED), k);
    NothingChanges(if k < 1 then BLANK else Buffers(0, 1, 0), DROPPED, k);
  }

  /** Frame 11 shows what GOLDEN held. */
  lemma ShownAfter(b: Buffers<int>, k: int)
    requires 1 <= k
    ensures Shown(ShowGolden, b, REST, k)[1] == Some(b.golden)
  {
    ConsBuffers(b, Some(BASE_PACKET), [Some(GOLDEN_PACKET)] + [], k);
    var b' := Absorb(ShowGolden, b, BASE_PACKET);
    assert b'.golden == b.golden;
    ConsBuffers(b', Some(GOLDEN_PACKET), [], k);
  }

  lemma TheseViewsDiffer()
    ensures !SwitchesUp(ShowGolden, BLANK, SEEN, SYNC_PACKET, REST)
  {
    BuffersBefore(EVERY_LAYER);
    BuffersBefore(0);
    var full, switched := Absorb(ShowGolden, Buffers(0, 1, 0), SYNC_PACKET), Absorb(ShowGolden, BLANK, SYNC_PACKET);
    ShownAfter(full, EVERY_LAYER);
    ShownAfter(switched, 1);
    assert Shown(ShowGolden, switched, REST, 1)[1] != Shown(ShowGolden, full, REST, EVERY_LAYER)[1];
  }

  /** Every condition of SwitchUpIsPermanent holds but that the sync frame spares GOLDEN, and the switched receiver
      shows a later frame differently. */
  lemma FlagsCanBreakSwitchingUp(kbps: seq<int>, buffers: BufferConfig)
    requires |kbps| == MAX_LAYERS
    ensures PatternOf(TwoLayersWithSync).Some?
    ensures var fresh_, sync := Fresh(TwoLayersWithSync, kbps), Sync(buffers);
            && PossibleRun(fresh_, Before(buffers)) && PlainInputs(Before(buffers))
            && var e := Final(fresh_, Before(buffers));
            && Possible(e, sync) && sync.outcome.CodedInter? && PacketOf(e, sync).value.sync
            && !SparesOwnLayer(e, sync.userFlags)
            && PossibleRun(Step(e, sync), After(buffers)) && PlainInputs(After(buffers))
            && !SwitchesUp(ShowGolden, BLANK, Emitted(fresh_, Before(buffers)), PacketOf(e, sync).value,
                           Emitted(Step(e, sync), After(buffers)))
  {
    PatternsAreWellFormed(TwoLayersWithSync);
    BeforeRuns(kbps, buffers);
    var e := Final(Fresh(TwoLayersWithSync, kbps), Before(buffers));
    SyncRuns(e, buffers);
    AfterRuns(Step(e, Sync(buffers)), buffers);
    TheseViewsDiffer();
  }
}
