/** Restarting the schedule at an inter-layer key access unit: where it puts the two tables, and which indices
    follow. */
module TemporalRestart {
  import opened Wrappers
  import opened Euclid
  import opened TemporalPattern
  import opened Temporal
  import opened TemporalHistory

  /** Restarting puts both table positions on slot zero, past the start, so the coming frame is a base-layer frame that
      is not forced to be a key frame outside the five-layer mode. */
  lemma RestartLandsOnSlotZero(s: Schedule)
    requires s.Valid() && PatternOf(s.mode) == Some(s.pattern)
    ensures var r := s.Restarted();
            && r.Valid() && 0 < r.frameIndex
            && r.frameIndex % r.pattern.periodicity == 0 && r.frameIndex % r.pattern.flagPeriodicity == 0
            && (s.layerIDOverride == -1 ==> r.LayerID() == 0)
            && (s.mode != FiveLayers ==> !r.FrameFlags().forceKey)
            && (forall f :: 0 < f && Divides(s.pattern.periodicity, f) && Divides(s.pattern.flagPeriodicity, f) ==>
                  r.frameIndex <= f)
  {
    var p := s.pattern;
    PeriodsRealign(p);
    PatternsFollowDecimators(s.mode);
    forall f | 0 < f && Divides(p.periodicity, f) && Divides(p.flagPeriodicity, f)
      ensures s.Restarted().frameIndex <= f
    {
      LcmIsLeast(p.periodicity, p.flagPeriodicity, f);
    }
    LayerOfFrame(p, 0, 0);
  }

  /** A restart at index tl0 leaves the state that tl0 finished base-layer frames would. */
  lemma RestartStandsForIndex(s: Schedule, tl0: int)
    requires s.Valid() && 0 <= tl0 < 256
    ensures TL0Counts(s.RestartedAtTL0(tl0), tl0)
  {
  }

  /** Over any run after a restart at index tl0, the base-layer frames carry tl0, tl0 + 1, .. modulo 256, however many
      frames are dropped or belong to higher layers in between; a higher-layer frame carries the latest of them. */
  lemma RestartCountsOn(
    s: Schedule, tl0: int, states: seq<Schedule>, events: seq<Event>, buffers: BufferConfig, n: nat)
    requires s.Valid() && 0 <= tl0 < 256
    requires IsRun(states, events, buffers) && states[0] == s.RestartedAtTL0(tl0) && n < |events|
    ensures CarriesIndex(Log(states, events, buffers)[n],
                         tl0 + Tally(Log(states, events, buffers), n, BaseFrames, 0))
  {
    RestartStandsForIndex(s, tl0);
    TL0OfFrame(states, events, buffers, tl0, n);
  }

  /** In particular the next base-layer frame, whenever it comes, carries exactly the requested index, and so does
      every other one announced until a base-layer frame is finished. */
  lemma RestartCarriesIndex(
    s: Schedule, tl0: int, states: seq<Schedule>, events: seq<Event>, buffers: BufferConfig, n: nat)
    requires s.Valid() && 0 <= tl0 < 256
    requires IsRun(states, events, buffers) && states[0] == s.RestartedAtTL0(tl0) && n < |events|
    requires Tally(Log(states, events, buffers), n, BaseFrames, 0) == 0
    ensures var log := Log(states, events, buffers); log[n].layerID == 0 ==> log[n].tl0PicIdx == tl0
  {
    RestartStandsForIndex(s, tl0);
    TL0State(states, events, buffers, tl0, n);
    EntryInRun(states, events, buffers, n, tl0);
    FirstIndex(Log(states, events, buffers)[n], tl0);
  }

  lemma FirstIndex(e: Entry, tl0: int)
    requires 0 <= tl0 < 256 && CarriesIndex(e, tl0)
    ensures e.layerID == 0 ==> e.tl0PicIdx == tl0
  {
  }
}
