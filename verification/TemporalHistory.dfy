/** The scheduler's counters as functions of the frames seen since configure: TL0PICIDX (section 4.2 of RFC 7741),
    the per-layer accounting, and the leaky buckets. */
module TemporalHistory {
  import opened Arith
  import opened TemporalPattern
  import opened Temporal

  /** One source frame: the layer override in force (-1 for none) and what became of it. */
  datatype Event =
    | Coded(pin: int, key: bool, show: bool, refresh: Mask, bits: nat)
    | Lost(pin: int)

  /** What the frame was announced and finished as. */
  datatype Entry = Entry(layerID: int, tl0PicIdx: int, coded: bool, key: bool, show: bool, bits: nat)

  function Pinned(s: Schedule, event: Event): Schedule {
    s.(layerIDOverride := event.pin)
  }

  function EntryOf(s: Schedule, event: Event): Entry
    requires Pinned(s, event).Valid()
  {
    var layerID, tl0 := Pinned(s, event).LayerID(), Pinned(s, event).NextTL0();
    if event.Coded? then Entry(layerID, tl0, true, event.key, event.show, event.bits)
    else Entry(layerID, tl0, false, false, false, 0)
  }

  function After(s: Schedule, event: Event, buffers: BufferConfig): (r: Schedule)
    requires Pinned(s, event).Valid()
    ensures r.Valid()
  {
    var layerID, tl0 := Pinned(s, event).LayerID(), Pinned(s, event).NextTL0();
    if event.Coded?
    then Pinned(s, event).Finished(layerID, tl0, event.key, event.show, event.refresh, event.bits, buffers)
    else Pinned(s, event).Dropped(layerID, buffers)
  }

  /** One frame takes s to s'. */
  ghost predicate Follows(s: Schedule, event: Event, buffers: BufferConfig, s': Schedule) {
    Pinned(s, event).Valid() && s' == After(s, event, buffers)
  }

  /** states[n] is the schedule before frame n, and the last one the schedule after them all. */
  ghost predicate IsRun(states: seq<Schedule>, events: seq<Event>, buffers: BufferConfig) {
    && |states| == |events| + 1
    && (forall n {:trigger events[n]} :: 0 <= n < |events| ==> Follows(states[n], events[n], buffers, states[n + 1]))
  }

  /** One entry per source frame. */
  ghost function Log(states: seq<Schedule>, events: seq<Event>, buffers: BufferConfig): (log: seq<Entry>)
    requires IsRun(states, events, buffers)
    ensures IsLog(states, events, buffers, log)
  {
    seq(|events|, n requires 0 <= n < |events| => EntryOf(states[n], events[n]))
  }

  /** log[n] is what frame n of the run was announced and finished as. */
  ghost predicate IsLog(states: seq<Schedule>, events: seq<Event>, buffers: BufferConfig, log: seq<Entry>) {
    && IsRun(states, events, buffers) && |log| == |events|
    && (forall n {:trigger events[n]} :: 0 <= n < |events| ==>
          Follows(states[n], events[n], buffers, states[n + 1]) && log[n] == EntryOf(states[n], events[n]))
  }

  /** A run that starts right after configure. */
  ghost predicate IsFreshRun(states: seq<Schedule>, events: seq<Event>, buffers: BufferConfig) {
    && IsRun(states, events, buffers)
    && states[0] == Configured(states[0].mode, states[0].pattern, states[0].kbps)
  }

  /* Tallies of the log */

  datatype Figure = Inputs | CodedFrames | CodedBits | InterFrames | BaseFrames

  function Weight(e: Entry, figure: Figure, i: int): nat {
    match figure
    case Inputs => if e.layerID == i then 1 else 0
    case CodedFrames => if e.coded && e.layerID <= i then 1 else 0
    case CodedBits => if e.coded && e.layerID <= i then e.bits else 0
    case InterFrames => if e.coded && !e.key && e.layerID == i then 1 else 0
    case BaseFrames => if e.coded && e.layerID == 0 then 1 else 0
  }

  /** The figure of layer i over the first n frames. */
  function Tally(log: seq<Entry>, n: nat, figure: Figure, i: int): nat
    requires n <= |log|
  {
    if n == 0 then 0 else Tally(log, n - 1, figure, i) + Weight(log[n - 1], figure, i)
  }

  /* TL0PICIDX */

  /** The index state after `bases` finished base-layer frames. */
  ghost predicate TL0Counts(s: Schedule, bases: nat) {
    && (s.tl0Valid <==> 0 < bases)
    && s.tl0PicIdx == LatestIndex(bases)
  }

  /** The index of the latest finished base-layer frame, 0 before the first. */
  function LatestIndex(bases: nat): int {
    if 0 < bases then (bases - 1) % 256 else 0
  }

  /** A base-layer frame carries the coming index, any other the latest. */
  predicate CarriesIndex(e: Entry, bases: nat) {
    e.tl0PicIdx == if e.layerID == 0 then bases % 256 else LatestIndex(bases)
  }

  lemma NextIndex(bases: nat)
    ensures 0 < bases ==> (LatestIndex(bases) + 1) % 256 == bases % 256
  {
  }

  lemma TL0Step(s: Schedule, event: Event, buffers: BufferConfig, s': Schedule, bases: nat)
    requires Follows(s, event, buffers, s') && TL0Counts(s, bases)
    ensures var e := EntryOf(s, event);
            && CarriesIndex(e, bases)
            && TL0Counts(s', bases + Weight(e, BaseFrames, 0))
  {
    NextIndex(bases);
  }

  lemma TL0StepInRun(
    states: seq<Schedule>, events: seq<Event>, buffers: BufferConfig, log: seq<Entry>, origin: nat, m: nat)
    requires IsLog(states, events, buffers, log) && m < |events|
    requires TL0Counts(states[m], origin + Tally(log, m, BaseFrames, 0))
    ensures TL0Counts(states[m + 1], origin + Tally(log, m + 1, BaseFrames, 0))
  {
    TL0Step(states[m], events[m], buffers, states[m + 1], origin + Tally(log, m, BaseFrames, 0));
  }

  lemma {:induction false} TL0StateOfLog(
    states: seq<Schedule>, events: seq<Event>, buffers: BufferConfig, log: seq<Entry>, origin: nat, n: nat)
    requires IsLog(states, events, buffers, log) && n <= |events| && TL0Counts(states[0], origin)
    ensures TL0Counts(states[n], origin + Tally(log, n, BaseFrames, 0))
    decreases n
  {
    if n > 0 {
      TL0StateOfLog(states, events, buffers, log, origin, n - 1);
      TL0StepInRun(states, events, buffers, log, origin, n - 1);
    }
  }

  /** From any state that stands for `origin` base-layer frames, the index state counts on. */
  lemma TL0State(states: seq<Schedule>, events: seq<Event>, buffers: BufferConfig, origin: nat, n: nat)
    requires IsRun(states, events, buffers) && n <= |events| && TL0Counts(states[0], origin)
    ensures TL0Counts(states[n], origin + Tally(Log(states, events, buffers), n, BaseFrames, 0))
  {
    TL0StateOfLog(states, events, buffers, Log(states, events, buffers), origin, n);
  }

  lemma EntryInRun(states: seq<Schedule>, events: seq<Event>, buffers: BufferConfig, n: nat, bases: nat)
    requires IsRun(states, events, buffers) && n < |events| && TL0Counts(states[n], bases)
    ensures CarriesIndex(Log(states, events, buffers)[n], bases)
  {
    TL0Step(states[n], events[n], buffers, states[n + 1], bases);
  }

  /** The index every frame of the run carries. */
  lemma TL0OfFrame(states: seq<Schedule>, events: seq<Event>, buffers: BufferConfig, origin: nat, n: nat)
    requires IsRun(states, events, buffers) && n < |events| && TL0Counts(states[0], origin)
    ensures CarriesIndex(Log(states, events, buffers)[n],
                         origin + Tally(Log(states, events, buffers), n, BaseFrames, 0))
  {
    TL0State(states, events, buffers, origin, n);
    EntryInRun(states, events, buffers, n, origin + Tally(Log(states, events, buffers), n, BaseFrames, 0));
  }

  lemma FreshIndex(s: Schedule)
    requires s == Configured(s.mode, s.pattern, s.kbps)
    ensures TL0Counts(s, 0)
  {
  }

  /** Since configure, the n-th finished base-layer frame carries n mod 256, and every finished higher-layer frame the
      index of the latest finished base-layer frame (0 before the first); dropped frames never advance the index. */
  lemma TL0CountsBaseFrames(states: seq<Schedule>, events: seq<Event>, buffers: BufferConfig, n: nat)
    requires IsFreshRun(states, events, buffers) && n < |events|
    ensures var log := Log(states, events, buffers); CarriesIndex(log[n], Tally(log, n, BaseFrames, 0))
  {
    FreshIndex(states[0]);
    TL0State(states, events, buffers, 0, n);
    EntryInRun(states, events, buffers, n, Tally(Log(states, events, buffers), n, BaseFrames, 0));
  }

  /* Accounting */

  /** Layer i's counters are the tallies of the log. */
  ghost predicate AccountsFor(a: Accounting, log: seq<Entry>, n: nat, i: int)
    requires n <= |log|
  {
    && a.inputFrames == Tally(log, n, Inputs, i)
    && a.encodedFrames == Tally(log, n, InterFrames, i)
    && a.totalEncodedFrames == Tally(log, n, CodedFrames, i)
    && a.encodedBits == Min(Tally(log, n, CodedBits, i), MAX_INT)
  }

  /** Layer i's counters after one frame, from its counters before and the frame's entry. */
  lemma CountersStep(s: Schedule, event: Event, buffers: BufferConfig, s': Schedule, i: nat)
    requires Follows(s, event, buffers, s') && i < s.pattern.layers
    ensures |s'.accounting| == |s.accounting| == MAX_LAYERS && s.pattern.layers <= MAX_LAYERS
    ensures s'.pattern == s.pattern && s'.kbps == s.kbps && s'.buffersSet
    ensures var a, a' := s.accounting[i], s'.accounting[i];
            var e := EntryOf(s, event);
            && a'.inputFrames == a.inputFrames + Weight(e, Inputs, i)
            && a'.encodedFrames == a.encodedFrames + Weight(e, InterFrames, i)
            && a'.totalEncodedFrames == a.totalEncodedFrames + Weight(e, CodedFrames, i)
            && (0 <= a.encodedBits <= MAX_INT ==>
                  a'.encodedBits == Min(a.encodedBits + Weight(e, CodedBits, i), MAX_INT))
  {
  }

  lemma StepKeepsPattern(s: Schedule, event: Event, buffers: BufferConfig, s': Schedule)
    requires Follows(s, event, buffers, s')
    ensures s'.pattern == s.pattern && s'.kbps == s.kbps && s'.buffersSet && |s'.accounting| == MAX_LAYERS
  {
  }

  lemma {:induction false} RunKeepsPattern(
    states: seq<Schedule>, events: seq<Event>, buffers: BufferConfig, n: nat)
    requires IsRun(states, events, buffers) && n <= |events|
    ensures states[n].pattern == states[0].pattern && states[n].kbps == states[0].kbps
    ensures 0 < n ==> states[n].buffersSet && |states[n].accounting| == MAX_LAYERS
  {
    if n > 0 {
      RunKeepsPattern(states, events, buffers, n - 1);
      StepKeepsPattern(states[n - 1], events[n - 1], buffers, states[n]);
    }
  }

  lemma CountersStepInRun(states: seq<Schedule>, events: seq<Event>, buffers: BufferConfig, i: nat, m: nat)
    requires IsRun(states, events, buffers) && m < |events|
    requires i < states[m].pattern.layers && |states[m].accounting| == MAX_LAYERS && i < MAX_LAYERS
    requires AccountsFor(states[m].accounting[i], Log(states, events, buffers), m, i)
    ensures |states[m + 1].accounting| == MAX_LAYERS
    ensures AccountsFor(states[m + 1].accounting[i], Log(states, events, buffers), m + 1, i)
  {
    var log := Log(states, events, buffers);
    CountersStep(states[m], events[m], buffers, states[m + 1], i);
    assert log[m] == EntryOf(states[m], events[m]);
    assert Tally(log, m + 1, Inputs, i) == Tally(log, m, Inputs, i) + Weight(log[m], Inputs, i);
    assert Tally(log, m + 1, InterFrames, i) == Tally(log, m, InterFrames, i) + Weight(log[m], InterFrames, i);
    assert Tally(log, m + 1, CodedFrames, i) == Tally(log, m, CodedFrames, i) + Weight(log[m], CodedFrames, i);
    assert Tally(log, m + 1, CodedBits, i) == Tally(log, m, CodedBits, i) + Weight(log[m], CodedBits, i);
  }

  /** After any run since configure, every layer's counters equal what the log says; EncodedBits saturates. */
  lemma {:induction false} AccountingIsHistory(
    states: seq<Schedule>, events: seq<Event>, buffers: BufferConfig, i: nat, n: nat)
    requires IsFreshRun(states, events, buffers) && n <= |events| && i < states[0].pattern.layers <= MAX_LAYERS
    ensures |states[n].accounting| == MAX_LAYERS
    ensures AccountsFor(states[n].accounting[i], Log(states, events, buffers), n, i)
    decreases n
  {
    if n > 0 {
      var m := n - 1;
      AccountingIsHistory(states, events, buffers, i, m);
      RunKeepsPattern(states, events, buffers, m);
      CountersStepInRun(states, events, buffers, i, m);
    }
  }

  /** A higher layer's cumulative stream contains the lower one's. */
  lemma {:induction false} TallyGrowsWithLayer(log: seq<Entry>, n: nat, i: int, j: int)
    requires n <= |log| && i <= j
    ensures Tally(log, n, CodedFrames, i) <= Tally(log, n, CodedFrames, j)
    ensures Tally(log, n, CodedBits, i) <= Tally(log, n, CodedBits, j)
  {
    if n > 0 {
      TallyGrowsWithLayer(log, n - 1, i, j);
    }
  }

  /* The leaky bucket */

  /** Frames in layer i's cumulative stream, dropped ones included, move layer i's bucket. */
  predicate Moves(e: Entry, i: int) {
    e.layerID <= i
  }

  /** Bandwidth credit minus encoded bits of one frame: a coded frame earns its own layer's credit only if shown. */
  function Net(e: Entry, i: int, bandwidth: int): int {
    if !Moves(e, i) then 0
    else (if !e.coded || e.show || e.layerID < i then bandwidth else 0) - (if e.coded then e.bits else 0)
  }

  /** S(n): the net credit of the first n frames. */
  function NetSum(log: seq<Entry>, n: nat, i: int, bandwidth: int): int
    requires n <= |log|
  {
    if n == 0 then 0 else NetSum(log, n - 1, i, bandwidth) + Net(log[n - 1], i, bandwidth)
  }

  /** The capped term of frame j: maximum + S(n) - S(j). */
  function CappedTerm(log: seq<Entry>, n: nat, j: nat, i: int, bandwidth: int, maximum: int): int
    requires j <= n <= |log|
  {
    maximum + NetSum(log, n, i, bandwidth) - NetSum(log, j, i, bandwidth)
  }

  /** level is the least of initial + S(n) and maximum + S(n) - S(j) over the frames 1 <= j <= n that move the
      bucket. */
  ghost predicate ClosedForm(level: int, log: seq<Entry>, n: nat, i: int, bandwidth: int, initial: int, maximum: int)
    requires n <= |log|
  {
    && level <= initial + NetSum(log, n, i, bandwidth)
    && (forall j :: 1 <= j <= n && Moves(log[j - 1], i) ==> level <= CappedTerm(log, n, j, i, bandwidth, maximum))
    && (level == initial + NetSum(log, n, i, bandwidth) ||
        exists j :: 1 <= j <= n && Moves(log[j - 1], i) && level == CappedTerm(log, n, j, i, bandwidth, maximum))
  }

  lemma ClosedFormStep(
    level: int, log: seq<Entry>, n: nat, i: int, bandwidth: int, initial: int, maximum: int)
    requires n < |log| && ClosedForm(level, log, n, i, bandwidth, initial, maximum)
    ensures ClosedForm(if Moves(log[n], i) then Min(level + Net(log[n], i, bandwidth), maximum) else level,
                       log, n + 1, i, bandwidth, initial, maximum)
  {
    var level' := if Moves(log[n], i) then Min(level + Net(log[n], i, bandwidth), maximum) else level;
    var m := n + 1;
    forall j | 1 <= j <= m && Moves(log[j - 1], i)
      ensures level' <= CappedTerm(log, m, j, i, bandwidth, maximum)
    {
      if j <= n {
        assert level <= CappedTerm(log, n, j, i, bandwidth, maximum);
      }
    }
    if Moves(log[n], i) && level' == maximum {
      assert Moves(log[m - 1], i) && level' == CappedTerm(log, m, m, i, bandwidth, maximum);
    } else if level != initial + NetSum(log, n, i, bandwidth) {
      var j :| 1 <= j <= n && Moves(log[j - 1], i) && level == CappedTerm(log, n, j, i, bandwidth, maximum);
      assert level' == CappedTerm(log, m, j, i, bandwidth, maximum);
    }
  }

  /** Bounds, checkable from the configuration and the log, that keep n steps of the bucket inside the integers. */
  ghost predicate NoSaturation(log: seq<Entry>, n: nat, i: int, bandwidth: int, initial: int, maximum: int)
    requires n <= |log|
  {
    && 0 <= bandwidth && 0 <= initial && 0 <= maximum <= MAX_INT
    && initial + n * bandwidth <= MAX_INT
    && Tally(log, n, CodedBits, i) <= MAX_INT
  }

  /** The net credit of frames j to n is at least minus their bits and at most one bandwidth each. */
  lemma {:induction false} NetSumBounds(log: seq<Entry>, j: nat, n: nat, i: int, bandwidth: nat)
    requires j <= n <= |log|
    ensures NetSum(log, n, i, bandwidth) - NetSum(log, j, i, bandwidth) >=
            Tally(log, j, CodedBits, i) - Tally(log, n, CodedBits, i)
    ensures NetSum(log, n, i, bandwidth) - NetSum(log, j, i, bandwidth) <= (n - j) * bandwidth
    decreases n
  {
    if j < n {
      NetSumBounds(log, j, n - 1, i, bandwidth);
      assert (n - j) * bandwidth == (n - 1 - j) * bandwidth + bandwidth;
    }
  }

  lemma LevelBounds(level: int, log: seq<Entry>, n: nat, i: int, bandwidth: int, initial: int, maximum: int)
    requires n < |log| && NoSaturation(log, n + 1, i, bandwidth, initial, maximum)
    requires ClosedForm(level, log, n, i, bandwidth, initial, maximum)
    ensures level + bandwidth <= MAX_INT
    ensures -MAX_INT <= level
    ensures log[n].coded && Moves(log[n], i) ==> -MAX_INT <= level - log[n].bits
  {
    NetSumBounds(log, 0, n, i, bandwidth);
    assert (n + 1) * bandwidth == n * bandwidth + bandwidth;
    if level != initial + NetSum(log, n, i, bandwidth) {
      var j :| 1 <= j <= n && Moves(log[j - 1], i) && level == CappedTerm(log, n, j, i, bandwidth, maximum);
      NetSumBounds(log, j, n, i, bandwidth);
    }
  }

  function Bandwidth(s: Schedule, i: nat, buffers: BufferConfig): int
    requires i < |s.kbps| && i < |s.pattern.rateDecimator|
  {
    LayerBitsPerFrame(TargetBits(s.kbps[i]), buffers.timing, s.pattern.rateDecimator[i])
  }

  function Initial(s: Schedule, i: nat, buffers: BufferConfig): int
    requires i < |s.kbps|
  {
    BufferBits(s.kbps[i], buffers.initialSizeMs)
  }

  function Maximum(s: Schedule, i: nat, buffers: BufferConfig): int
    requires i < |s.kbps|
  {
    BufferBits(s.kbps[i], buffers.sizeMs)
  }

  /** The level a frame starts from: the configured initial level until the buckets have been set up. */
  function Level(s: Schedule, i: nat, buffers: BufferConfig): int
    requires i < |s.accounting| && i < |s.kbps|
  {
    if s.buffersSet then s.accounting[i].bufferLevelBits else Initial(s, i, buffers)
  }

  lemma BucketStep(s: Schedule, event: Event, buffers: BufferConfig, s': Schedule, i: nat)
    requires Follows(s, event, buffers, s') && i < s.pattern.layers
    requires var e, level, bandwidth := EntryOf(s, event), Level(s, i, buffers), Bandwidth(s, i, buffers);
             && 0 <= bandwidth && -MAX_INT <= level && level + bandwidth <= MAX_INT
             && (e.coded && Moves(e, i) ==> -MAX_INT <= level - e.bits)
    ensures var e, level := EntryOf(s, event), Level(s, i, buffers);
            Level(s', i, buffers) ==
            if Moves(e, i) then Min(level + Net(e, i, Bandwidth(s, i, buffers)), Maximum(s, i, buffers)) else level
  {
    var a := Reconfigured(s.accounting[i], s.kbps[i], s.pattern.rateDecimator[i], buffers, s.buffersSet);
    var e := EntryOf(s, event);
    BucketAfter(s, event, buffers, s', i);
    if Moves(e, i) {
      ChargedExactly(a, e.bits, !e.coded || e.show || i > e.layerID);
    }
  }

  /** Layer i's bucket after one frame: reconfigured, and charged if the frame is in its cumulative stream. */
  lemma BucketAfter(s: Schedule, event: Event, buffers: BufferConfig, s': Schedule, i: nat)
    requires Follows(s, event, buffers, s') && i < s.pattern.layers
    ensures var e := EntryOf(s, event);
            var a := Reconfigured(s.accounting[i], s.kbps[i], s.pattern.rateDecimator[i], buffers, s.buffersSet);
            && (!e.coded ==> e.bits == 0)
            && |s'.accounting| == MAX_LAYERS && s'.kbps == s.kbps && s'.buffersSet
            && s'.accounting[i].bufferLevelBits ==
               if Moves(e, i) then Charged(a, e.bits, !e.coded || e.show || i > e.layerID).bufferLevelBits
               else a.bufferLevelBits
  {
  }

  /** Inside the integer range one charge is plain arithmetic under a cap. */
  lemma ChargedExactly(a: Accounting, bits: nat, show: bool)
    requires 0 <= a.frameBandwidthBits && -MAX_INT <= a.bufferLevelBits - bits
    requires a.bufferLevelBits + a.frameBandwidthBits <= MAX_INT
    ensures Charged(a, bits, show).bufferLevelBits ==
            Min(a.bufferLevelBits + (if show then a.frameBandwidthBits else 0) - bits, a.maximumBufferBits)
  {
  }

  /** One more frame of a run, once the state it starts from is known. */
  lemma BucketStepInRun(
    states: seq<Schedule>, events: seq<Event>, buffers: BufferConfig, i: nat, m: nat,
    bandwidth: int, initial: int, maximum: int)
    requires IsRun(states, events, buffers) && m < |events|
    requires i < states[m].pattern.layers && i < |states[m].accounting|
    requires i < |states[m].kbps| && i < |states[m].pattern.rateDecimator|
    requires bandwidth == Bandwidth(states[m], i, buffers) && maximum == Maximum(states[m], i, buffers)
    requires NoSaturation(Log(states, events, buffers), m + 1, i, bandwidth, initial, maximum)
    requires ClosedForm(Level(states[m], i, buffers), Log(states, events, buffers), m, i, bandwidth, initial, maximum)
    ensures |states[m + 1].accounting| == MAX_LAYERS && states[m + 1].kbps == states[m].kbps
    ensures ClosedForm(Level(states[m + 1], i, buffers), Log(states, events, buffers), m + 1, i,
                       bandwidth, initial, maximum)
  {
    var log := Log(states, events, buffers);
    var level := Level(states[m], i, buffers);
    LevelBounds(level, log, m, i, bandwidth, initial, maximum);
    assert log[m] == EntryOf(states[m], events[m]);
    BucketStep(states[m], events[m], buffers, states[m + 1], i);
    StepKeepsPattern(states[m], events[m], buffers, states[m + 1]);
    ClosedFormStep(level, log, m, i, bandwidth, initial, maximum);
  }

  /** Each layer's level after any run since configure is the closed form over the frames of its cumulative stream. */
  lemma {:induction false} BucketClosedForm(
    states: seq<Schedule>, events: seq<Event>, buffers: BufferConfig, i: nat, n: nat)
    requires IsFreshRun(states, events, buffers) && n <= |events|
    requires states[0].Valid() && i < states[0].pattern.layers
    requires NoSaturation(Log(states, events, buffers), n, i, Bandwidth(states[0], i, buffers),
                          Initial(states[0], i, buffers), Maximum(states[0], i, buffers))
    ensures |states[n].accounting| == MAX_LAYERS && states[n].kbps == states[0].kbps
    ensures ClosedForm(Level(states[n], i, buffers), Log(states, events, buffers), n, i,
                       Bandwidth(states[0], i, buffers), Initial(states[0], i, buffers), Maximum(states[0], i, buffers))
    decreases n
  {
    if n > 0 {
      var m := n - 1;
      var bandwidth, initial, maximum :=
        Bandwidth(states[0], i, buffers), Initial(states[0], i, buffers), Maximum(states[0], i, buffers);
      RunKeepsPattern(states, events, buffers, m);
      NoSaturationEarlier(Log(states, events, buffers), m, i, bandwidth, initial, maximum);
      BucketClosedForm(states, events, buffers, i, m);
      BucketStepInRun(states, events, buffers, i, m, bandwidth, initial, maximum);
    }
  }

  lemma NoSaturationEarlier(log: seq<Entry>, n: nat, i: int, bandwidth: int, initial: int, maximum: int)
    requires n < |log| && NoSaturation(log, n + 1, i, bandwidth, initial, maximum)
    ensures NoSaturation(log, n, i, bandwidth, initial, maximum)
  {
    assert (n + 1) * bandwidth == n * bandwidth + bandwidth;
  }
}
