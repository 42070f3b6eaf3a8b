# Verified models of the govpx VP8 encoder

This project models three parts of the govpx VP8 encoder in Dafny and proves what they promise.

**Temporal scalability.** `TemporalPattern` holds the thirteen layer patterns and `Temporal` the scheduler's record: a
class updated in place, each method proved against a function on the value `Schedule`. Over that state machine:

- `LayerDropping`: a forwarder may drop every inter frame above layer k; all remaining frames decode to the same
  pictures. The encoder includes the refresh and reference masks it carries over dropped frames, user flags, failed
  calls, rate-control drops and key frames at any place; a decoder is three buffers refreshed as in section 9.7 of
  RFC 6386, and a picture is an uninterpreted function of the payload and the buffers the frame uses. Frames marked as
  sync decode for a receiver that has discarded their layer so far.
- `TemporalPlan`: frame by frame, what each of the thirteen patterns means for a stream that nothing disturbs: layer,
  sync mark, the earlier frames whose pictures a frame may use, and the buffers it refreshes.
- `SwitchingUp`: such a receiver can keep the layer from then on, whatever flags the application sets on other frames;
  of the sync frame itself it takes exactly that the application does not forbid it to update a buffer its own layer
  last refreshed. `FlaggedSwitch` is a run in which one such flag breaks it.
- `TemporalHistory`: TL0PICIDX (section 4.2 of RFC 7741), the layer accounting and the leaky buckets as functions of
  the frames seen since configure.
- `TemporalBitrate`: the per-frame targets of any period, aligned or not, add up to the configured rate within half a
  bit per frame, for every pattern whose layer table follows its rate decimators; all thirteen do.
- `TemporalRestart`: where an inter-layer restart puts the two tables, and the indices of every run that follows it.
  `Euclid` is the least common multiple behind it.
- `LayerContext`: one set of rate-control registers behaves like one set per layer.

**Motion search.** `SubpelCache` (a linear-probing table that refines a finite map), `SubpelSearch` (the memoised and
the direct fractional search compute the same function), `NstepSearch` (skipped starts and pruned sites change
nothing; the pruned exhaustive search), `HexSearch` (three probes do the work of six), `SearchStart` (a counted rank in
place of a stable sort), `FullPelPlane` (one plane check for every candidate). Where each step of a search goes is
stated on its own: to the first of the cheapest of the positions it tries, written out. Differences, variances and
vector costs are uninterpreted functions of the position.

**Temporal filter and mode cache.** `TemporalFilter` is the accumulation into 32-bit words, the division through the
table of truncated reciprocals and the clipped write-back; `ModeCache` is the pair of slots that follows the best
candidate through the mode loop.

`Arith` writes out 64-bit and 16-bit wrap-around, saturation and truncating division; `Wrappers`, `Motion` and
`FiniteSets` are small shared modules.

Where an object is updated step by step in the source it is a class or an array here, and its methods are proved
against functions on values; the theorems are about those functions.

Results that a reader may not expect:

- In the leaky-bucket closed form the minimum ranges over the frames that move the bucket, not over j = 0: the initial
  level may lie above the maximum until the first frame.
- A context whose buffer geometry is not positive does not fully replace the registers. `LayerContext.RegistersArePrivate`
  gives the exact condition before any frame of any run, and `LayerContext.ZeroRateLayerInheritsRegisters` a
  configuration that meets it: 1 kbps split automatically over three layers leaves the middle layer with no buffer of
  its own, and its first frame runs on the top layer's.
- For the dropped frame's own layer the overshoot broadcast is overwritten by the save that follows it.
  `LayerContext.OvershootAlarmsEveryLayer` shows that the drop's own writes put the same alarm there, except that a
  correction factor that is not positive and not raised stays as it is while the other layers receive 1.
- A sync frame that the application forbids to update a buffer of its own layer does not allow switching up
  (`FlaggedSwitch.FlagsCanBreakSwitchingUp`); every other application flag, on it or on any other frame, is harmless
  (`SwitchingUp.SyncCoversExactly`, `SwitchingUp.SwitchUpIsPermanent`).
- Subtracting the least integer saturates to the wrong end: `Arith.SaturatingSub` is right for every other operand only.
- Where the 64-bit frame index wraps, three- and six-frame patterns lose their alignment and a window can be announced
  too many bits (`TemporalBitrate.WrapBreaksBudget`); all other periods divide the wrap and never notice it. A target
  whose product leaves 64 bits is announced as no bits (`TemporalBitrate.OverflowBreaksBudget`).
- A fractional vector may wrap when it is stored, but then it lies so far from the reference vector that the search
  rejects it (`SubpelSearch.SearchReturnsClose`).

## Model

| member | source | states |
|---|---|---|
| Arith.SaturatingAdd | internal/vpx/arith/arith.go:10-21 | From any value but the least integer, the sum clamped to the symmetric integer range. |
| Arith.SaturatingSub | internal/vpx/arith/arith.go:23-30 | The clamped difference exactly when the second operand is not the least integer, whose negation overflows; for that one the result is always wrong. |
| Arith.CheckedMul | internal/vpx/arith/arith.go:45-58 | Succeeds exactly for non-negative factors whose product fits 64 bits, with that product. |
| Arith.DivisionGuard | internal/vpx/arith/arith.go:45-58 | The division guard rejects exactly the overflowing products. |
| Arith.RoundedIntIsNearest | temporal.go:675-684 | Within half a unit of the true quotient where the bias does not overflow. |
| Euclid.GcdPositive | temporal.go:557-571 | The loop computes the greatest common divisor of the absolute values, 1 when both are zero. |
| Euclid.PositiveLCM | temporal.go:550-555 | Computes Lcm. |
| Euclid.Bezout | temporal.go:557-571 | What the loop computes divides both operands and is a combination of them. |
| Euclid.LcmIsLeast | temporal.go:550-571 | Lcm is a positive common multiple that divides every other, so it is the least. |
| TemporalPattern.PatternsAreWellFormed | temporal.go:688-867 | Exactly the thirteen enumerated modes have a pattern, and its tables have the shapes the scheduler indexes. |
| TemporalPattern.PatternsFollowDecimators | temporal.go:688-867 | In every pattern a slot has layer at most j exactly when j's rate decimator divides its index; decimators decrease from the period to 1 and divide the period. |
| TemporalPattern.LayerOfFrame | temporal.go:321-331 | The decimator rule for the frames of the whole stream. |
| Temporal.NormalizeBitrates | temporal.go:597-667 | An accepted or derived split never decreases and ends at the total; an explicit split is kept as given. |
| Temporal.AcceptedExactly | temporal.go:597-636 | A split is accepted if and only if none is given for up to three layers, or the layers of the pattern have positive strictly increasing figures that end at the total and the others none. |
| Temporal.DerivedSplit | temporal.go:652-667 | A derived split gives the base layer of two 60 percent, those of three 40 and 60 percent, rounded down, and the top layer the total. |
| Temporal.BandwidthIsNearest | temporal.go:669-684 | What a cumulative stream earns per frame is kbps kilobits per second over its decimator's frame times, to the nearest bit. |
| Temporal.BufferedGeometry | temporal.go:470-500 | Each layer's capacity and first level are its own bitrate over the two buffer times; counters and other layers are untouched. |
| Temporal.TemporalState.constructor | temporal.go:87-110 | A fresh record is the zero record. |
| Temporal.TemporalState.Configure | temporal.go:272-299 | Resets to the initial schedule of the mode with the normalised split, clears the record when layering is off, or fails leaving it as it was. |
| Temporal.TemporalState.RefreshBitrate | temporal.go:301-319 | Recomputes an automatic split; an explicit one accepts only its own total. |
| Temporal.TemporalState.SetLayerID | temporal.go:638-650 | Accepts exactly the layers of the pattern and pins the coming frames to one. |
| Temporal.TemporalState.NextFrame | temporal.go:321-355 | Layer, flags, index, sync mark and bit target of the coming frame; changes nothing. |
| Temporal.TemporalState.LayerSync | temporal.go:502-516 | The three comparisons compute the sync mark. |
| Temporal.Schedule.LayerSync | temporal.go:502-516 | A frame is a sync frame exactly when it is above the base layer and every reference its flags leave open was last refreshed below it. |
| Temporal.TemporalState.FinishFrame | temporal.go:397-420 | The whole new state after an encoded frame. |
| Temporal.TemporalState.TagReferences | temporal.go:402-414 | A key frame clears the layer tags, an inter frame tags exactly the buffers it refreshes. |
| Temporal.TemporalState.FinishDroppedFrame | temporal.go:428-435 | The whole new state after a dropped frame: only position and accounting move. |
| Temporal.TemporalState.AccountEncodedFrame | temporal.go:437-452 | Every layer from the frame's own up absorbs it; other layers are untouched. |
| Temporal.TemporalState.AccountInputFrame | temporal.go:454-459 | Counts the frame in its own layer only. |
| Temporal.TemporalState.AccountDroppedFrameBuffer | temporal.go:461-468 | A drop credits the bandwidth to every layer from the frame's own up. |
| Temporal.TemporalState.UpdateLayerBufferConfig | temporal.go:470-485 | Geometry follows the settings on every call, levels only on the first. |
| Temporal.TemporalState.UpdateLayerBuffer | temporal.go:487-492 | One charge of one bucket, the others unchanged. |
| Temporal.TemporalState.RestartInterLayerKeyAccessUnit | temporal.go:374-381 | The restarted schedule. |
| Temporal.TemporalState.RestartInterLayerKeyAccessUnitAtTL0 | temporal.go:383-395 | The restarted schedule with the requested index. |
| Temporal.PeriodsRealign | temporal.go:374-381 | The least common multiple of the two table lengths is the flag table's. |
| LayerDropping.PredictsFromLowerLayers | temporal.go:688-867 | In every reachable state an inter frame uses only buffers last refreshed by its own layer or a lower one. |
| LayerDropping.StepStaysReachable | vp8_encoder_reference_decisions.go:267-366 | The layer bounds on the three buffers and the carried masks survive every possible source frame. |
| LayerDropping.TablesRespectTops | temporal.go:688-867 | Every slot of every table refreshes and references within the bounds LAST 3, GOLDEN 2, ALTREF 1 for five layers and the smaller ones of the other modes. |
| LayerDropping.EmittedIsSafe | vp8_encoder_attempts.go:670-700 | Every packet of every possible run refreshes and references according to its layer. |
| LayerDropping.CarriedMasks | vp8_encoder_reference_decisions.go:299-360 | After any run the carried masks are the restrictions of the latest frame since the last packet that had any, found by counting back. |
| LayerDropping.PacketMasks | vp8_encoder_reference_decisions.go:267-349 | A packet refreshes by its own restriction, else by the carried one, else LAST alone; it predicts by its own, else the carried one, else from all three. |
| TemporalPlan.FramesFollowPlan | temporal.go:321-355 | In every mode, frame n of an undisturbed stream has the planned layer and sync mark, can use exactly the pictures of the planned earlier frames, and refreshes the planned buffers; five layers force a key frame at every multiple of 16, and no other frame after the first is forced. |
| TemporalPlan.SyncFrames | temporal.go:688-867 | Which frame numbers are announced as sync frames, mode by mode. |
| TemporalPlan.FirstFrame | temporal.go:688-867 | The first frame is a base frame without sync mark, forced to be a key frame in eleven of the thirteen modes. |
| TemporalPlan.Announced | temporal.go:341-355 | The announcement carries the layer, sync mark, index and flags of the schedule, the layer's own and its cumulative bitrate. |
| LayerDropping.PacketSimulates | temporal.go:397-420 | One packet keeps the filtered and the full decoder in agreement on the buffers of layers up to k. |
| LayerDropping.StreamSimulates | temporal.go:397-420 | The simulation over whole streams. |
| LayerDropping.LayerDroppingIsSafe | temporal.go:321-420 | Layer dropping is safe, for every mode, k and run. |
| LayerDropping.SyncReferencesAreLower | temporal.go:502-516 | A sync frame uses only buffers last refreshed strictly below its layer. |
| LayerDropping.SyncFrameIsDecodable | temporal.go:321-355 | In every reachable state a sync frame decodes identically for a receiver that discarded its layer and above so far. |
| SwitchingUp.CoveredSyncSwitchesUp | temporal.go:397-420 | For any safe stream, a sync frame that refreshes every buffer of its own layer lets a receiver follow that layer from then on. |
| SwitchingUp.CoverIsExact | temporal.go:402-414 | Decoding a sync frame brings every two receivers that agree below its layer to agree on its layer if and only if it refreshes every buffer of its layer. |
| SwitchingUp.SyncCoversExactly | temporal.go:688-867 | In every mode and after any run, a sync frame refreshes every buffer of its own layer if and only if the application does not forbid it to update one of them; its other flags and those of earlier frames make no difference. |
| SwitchingUp.StepStaysCovering | vp8_encoder_reference_decisions.go:267-366 | What that rests on, where each layer may have left its tags, survives every possible source frame, with any application flags. |
| SwitchingUp.SwitchUpIsPermanent | temporal.go:502-516 | So in every mode and run, with any application flags, a receiver can start forwarding a layer for good at any sync frame that is not forbidden to update its own layer's buffers. |
| FlaggedSwitch.FlagsCanBreakSwitchingUp | vp8_encoder_reference_decisions.go:267-313 | A run of the two-layer pattern with sync in which one NO_UPDATE_GOLDEN on the sync frame, and no other application flag, makes a later forwarded frame differ. |
| TemporalHistory.TL0CountsBaseFrames | temporal.go:335-342 | The n-th finished base frame carries n mod 256, a higher-layer frame the latest base frame's index; drops do not count. |
| TemporalHistory.TL0State | temporal.go:415-418 | From any state that stands for a number of base frames, the index state counts the finished ones on. |
| TemporalHistory.TL0OfFrame | temporal.go:335-342 | The index every frame of such a run carries. |
| TemporalHistory.AccountingIsHistory | temporal.go:437-468 | Input, encoded, total-encoded and bit counters equal the tallies of the run, bits saturating. |
| TemporalHistory.TallyGrowsWithLayer | temporal.go:443-448 | Cumulative counters grow with the layer. |
| TemporalHistory.BucketStep | temporal.go:470-492 | One frame adds its net credit under the cap, where nothing saturates. |
| TemporalHistory.BucketClosedForm | temporal.go:437-492 | After any run the level is the least of initial + S(n) and maximum + S(n) - S(j) over the frames j that moved the bucket, drops included. |
| TemporalBitrate.SlotsPerPeriod | temporal.go:688-867 | Layer j's cumulative stream has period / decimator frames per period. |
| TemporalBitrate.LayersSpendTheirRate | temporal.go:518-548 | The slots of layers up to j spend the cumulative rate of j, within half a bit per frame. |
| TemporalBitrate.WindowSlides | temporal.go:321-331 | A window of one period has the same sum wherever it starts. |
| TemporalBitrate.WindowConservesBudget | temporal.go:518-548 | Any window of one period spends the total rate within half a bit per frame. |
| TemporalBitrate.TargetsConserveBudget | temporal.go:518-684 | The same for the targets announced along any run of any mode and accepted split, across the wrap of the frame index as well when the period divides it. |
| TemporalBitrate.OnlyThreeAndSixAreDisturbed | temporal.go:321-327 | The period divides the wrap of the frame index in every mode but the two with periods three and six. |
| TemporalBitrate.WrapBreaksBudget | temporal.go:321-327 | Any run of the three-frame pattern that starts on the last frame index, with an accepted split, announces a window off its budget. |
| TemporalBitrate.OverflowBreaksBudget | temporal.go:529-548 | An accepted rate whose product leaves 64 bits is announced as no bits, off its budget. |
| TemporalRestart.RestartLandsOnSlotZero | temporal.go:374-381 | After a restart both table positions are zero at the least such index above zero, so no key frame is forced outside the five-layer mode. |
| TemporalRestart.RestartCountsOn | temporal.go:383-395 | Over any run after the restart the base frames carry the requested index and its successors modulo 256, the others the latest of them. |
| TemporalRestart.RestartCarriesIndex | temporal.go:383-395 | Over any run, whatever is dropped or of higher layers before it, the next base frame carries exactly the requested index. |
| LayerContext.SharedRegisters.Restore | vp8_encoder_frame.go:1056-1067 | Loads a valid layer's context, otherwise nothing. |
| LayerContext.SharedRegisters.Apply | vp8_encoder_frame.go:1069-1109 | Every register after a load, the guarded geometry fields included. |
| LayerContext.SharedRegisters.Save | vp8_encoder_frame.go:1140-1180 | The registers become the layer's context; other slots are unchanged. |
| LayerContext.SharedRegisters.PropagateCoded | vp8_encoder_frame.go:1244-1264 | Higher valid layers are credited and debited, under their cap. |
| LayerContext.SharedRegisters.PropagateDropped | vp8_encoder_frame.go:1266-1277 | Higher valid layers are credited. |
| LayerContext.SharedRegisters.PropagateOvershoot | vp8_encoder_frame.go:1302-1316 | Every valid layer receives the three alarm fields. |
| LayerContext.SharedRegisters.Commit | vp8_encoder_frame.go:266-267 | The tail of a frame, in the encoder's order, for each way a frame can end. |
| LayerContext.SharedRegisters.RefreshGeometry | vp8_encoder_frame.go:1192-1207 | A change of settings replaces the geometry of every layer. |
| LayerContext.SharedRegisters.Initialize | vp8_encoder_frame.go:1182-1190 | Every layer of the pattern gets its initial context, the registers stay. |
| LayerContext.SharedRegisters.DropOvershoot | vp8_encoder_attempts.go:603-632 | What the overshoot drop leaves in the registers. |
| LayerContext.RestoreIsExact | vp8_encoder_frame.go:1069-1083 | Loading wipes out the registers exactly when each geometry field is positive or already there. |
| LayerContext.RegistersArePrivate | vp8_encoder_frame.go:111-137 | Before a frame of any run the registers equal the layer's own replayed history exactly when that context loads exactly over what the previous frame left. |
| LayerContext.PositiveRegistersArePrivate | vp8_encoder_frame.go:111-137 | With positive geometry they always do. |
| LayerContext.ZeroRateLayerInheritsRegisters | vp8_encoder_frame.go:1209-1242 | An accepted configuration and the first three frames of its pattern for which they do not. |
| LayerContext.HigherLayersNeverDisturb | vp8_encoder_frame.go:1244-1277 | Erasing higher-layer and failed frames from the history changes nothing for a layer. |
| LayerContext.OnlyTheLedgerMoves | vp8_encoder_frame.go:1244-1277 | Since a layer's last save only its buffer level and total bits move, by the lower layers' credits and bits. |
| LayerContext.OvershootAlarmsEveryLayer | vp8_encoder_attempts.go:603-632 | After an overshoot drop every valid layer is forced to the worst quantizer with its counter at zero and holds the broadcast factor, the frame's own layer exactly when the factor was positive or raised. |
| LayerContext.FreshContext | vp8_encoder_frame.go:1210-1242 | A new context has its own layer's buffer figures in the fields they belong to, the initial level, neutral factors, the quantizer limits and no history. |
| LayerContext.RetunedContext | vp8_encoder_frame.go:1192-1207 | A change of settings puts the layer's own figures into the four geometry fields and leaves every other field. |
| LayerContext.FactorIsRaised | vp8_encoder_attempts.go:603-632 | The drop raises the factor to the target, at most to twice its value and at most to 50, and otherwise keeps it. |
| LayerContext.SharedRegistersRefinePrivate | vp8_encoder_frame.go:1056-1180 | For any encode function that keeps positive geometry, every frame is encoded as with private registers per layer. |
| SubpelCache.AllProbed | vp8_encoder_inter_motion_subpel.go:386-399 | Passing over 64 other keys means the table is full and the key absent. |
| SubpelCache.FillKeeps | vp8_encoder_inter_motion_subpel.go:386-399 | Filling the free slot where the probes ended adds the key, which was absent from a table not full. |
| SubpelCache.OverwriteKeeps | vp8_encoder_inter_motion_subpel.go:386-399 | Rewriting a slot under its own key overwrites that key's value. |
| SubpelCache.SubpelEvalCache.Get | vp8_encoder_inter_motion_subpel.go:371-384 | The last value stored, a miss exactly when the key is absent. |
| SubpelCache.SubpelEvalCache.Put | vp8_encoder_inter_motion_subpel.go:386-399 | Overwrites a stored key, adds one while fewer than 64 are held, otherwise changes nothing. |
| SubpelCache.NeverOverfull | vp8_encoder_inter_motion_subpel.go:360-399 | Over any stores at most 64 keys, and all of them while no more than 64 were stored. |
| SubpelCache.LastStoreWins | vp8_encoder_inter_motion_subpel.go:360-399 | The last store of a key is what it maps to, whatever else is stored. |
| SubpelSearch.SearchMemoised | vp8_encoder_inter_motion_split.go:307-417 | The memoised search equals the directly evaluated one; the table never holds more than 30 entries. |
| SubpelSearch.SearchDirectly | vp8_encoder_inter_motion_subpel.go:548-632 | The search of whole macroblocks computes the same function with direct evaluation. |
| SubpelSearch.Candidate | vp8_encoder_inter_motion_split.go:340-354 | A looked-up or computed cost is the position's true cost, and adds at most one entry. |
| SubpelSearch.BestOfIsCheapest | vp8_encoder_inter_motion_subpel.go:641-646 | Successive strict comparisons find the cheapest and leave the incumbent only for less. |
| SubpelSearch.RoundIsMinimal | vp8_encoder_inter_motion_subpel.go:571-597 | A round tries left, right, up, down and one diagonal, downwards exactly when the lower neighbour costs no more than the upper and to the right exactly when the right one costs no more than the left; it stays when none of the five is cheaper and otherwise goes to the first of the cheapest. |
| SubpelSearch.SearchStaysClose | vp8_encoder_inter_motion_subpel.go:548-632 | The position found is within nine quarter pels on each axis, is the start or in bounds, and never costs more. |
| SubpelSearch.FoundStaysClose | vp8_encoder_inter_motion_subpel.go:627-632 | The vector returned is as close exactly when the position fits 16 bits. |
| SubpelSearch.SearchReturnsClose | internal/vp8/encoder/interframe_subpel_bounds.go:8-51 | With the encoder's bounds and range test every vector returned is within eighteen eighth pels on each axis. |
| SubpelSearch.StopsAtMinimum | vp8_encoder_inter_motion_subpel.go:571-625 | The search is up to three rounds of half pels and then up to three of quarter pels by that rule, fewer only when none of the five places of a further round is cheaper. |
| SubpelSearch.RefinementReturns | vp8_encoder_inter_motion_subpel.go:548-632 | Exactly when a vector is returned, and that it is the position found in eighth pels, within 2040 of the reference on each axis. |
| SubpelSearch.SearchBoundsAllow | internal/vp8/encoder/interframe_subpel_bounds.go:35-53 | The bounds are the positions within 1023 quarter pels of the reference whose block lies within sixteen pels of the frame. |
| NstepSearch.BuildNstepSites | internal/vp8/encoder/interframe_search_sites.go:11-33 | The loop builds the table of rings 128, 64, .. 1. |
| NstepSearch.TableIsOnRings | internal/vp8/encoder/interframe_search_sites.go:11-33 | Every site of a ring is a step of the ring's length on one axis or both, which is all the search relies on. |
| NstepSearch.TableSites | internal/vp8/encoder/interframe_search_sites.go:11-33 | All 64 sites: rings of 128 to 1 full pels, each up, down, left, right and then the four diagonals. |
| NstepSearch.ScanRing | vp8_encoder_inter_motion_split.go:114-131 | The pruned scan of eight sites picks what full evaluation picks. |
| NstepSearch.DiamondSearch | vp8_encoder_inter_motion_split.go:97-152 | The pruned diamond equals the walk with full evaluation: vector, costs and idle count. |
| NstepSearch.ScanIsMinimum | vp8_encoder_inter_motion_split.go:114-131 | A ring scan finds the first of the cheapest of its sites strictly inside the bounds, if that is cheaper than the incumbent. |
| NstepSearch.RingFollowsRule | vp8_encoder_inter_motion_split.go:114-142 | One ring stays exactly when none of its eight inside sites is strictly cheaper, counting the ring on the start, and otherwise moves to the first of the cheapest. |
| NstepSearch.DiamondFollowsRings | vp8_encoder_inter_motion_split.go:97-152 | The diamond search is a sequence of positions from the center through every ring from the first to the last, each step by that rule. |
| NstepSearch.RingRuleIsExact | vp8_encoder_inter_motion_split.go:114-142 | The rule leaves no choice, so there is only one such sequence. |
| NstepSearch.MoveIsTracked | vp8_encoder_inter_motion_split.go:132-138 | A walk that leaves its start is displaced farther than the remaining rings reach back and less than 256 full pels, so even with wrapped vectors it is never on its start again. |
| NstepSearch.AwayIsNeverIdle | vp8_encoder_inter_motion_split.go:132-142 | So it never counts an idle ring again: idle rings lead. |
| NstepSearch.IdleStartsAgree | vp8_encoder_inter_motion_split.go:97-152 | m idle rings make the next m starts return the same vector. |
| NstepSearch.NstepSearch | vp8_encoder_inter_motion_split.go:73-95 | Skipping starts returns the vector and cost of running every start from stepParam to the last. |
| NstepSearch.BestStartIsFirstLeast | vp8_encoder_inter_motion_split.go:73-95 | That is the vector and rank of the first start whose rank is least among all starts from stepParam to the last. |
| NstepSearch.WindowHolds | vp8_encoder_inter_motion_split.go:188-211 | The positions the exhaustive search scans, by distance from the center and by the bounds. |
| NstepSearch.FullSearch | vp8_encoder_inter_motion_split.go:188-230 | The pruned raster scan ends on the first of the cheapest positions of the window. |
| NstepSearch.FirstCheapestIsUnique | vp8_encoder_inter_motion_split.go:188-230 | That position and cost are the only such ones. |
| HexSearch.FindMatching | vp8_encoder_arnr.go:428-528 | The search with three probes per round equals the search with six. |
| HexSearch.WalkHexagons | vp8_encoder_arnr.go:457-503 | The hexagon part, up to 127 rounds, with the turn of the checkpoint table. |
| HexSearch.ProbedIsMinimum | vp8_encoder_arnr.go:457-471 | A round's best is the minimum over the incumbent and every in-bounds neighbour. |
| HexSearch.ThreeProbesSuffice | vp8_encoder_arnr.go:438-503 | When the neighbours behind are no better, probing three of six finds the same best. |
| HexSearch.MovingLeavesWorseBehind | vp8_encoder_arnr.go:478-502 | After each move the neighbours behind the new position are known and no better. |
| HexSearch.HexWalkMoves | vp8_encoder_arnr.go:457-503 | Every move goes to the first of the best of all six vertices in the turned order; a walk that stops before its limit stops where none of the six is better. |
| HexSearch.DiamondWalkMoves | vp8_encoder_arnr.go:506-526 | Every move goes to the first of the best of the left, upper, lower and right neighbour; a walk that stops before its limit stops where none of the four is better. |
| HexSearch.MatchingMoves | vp8_encoder_arnr.go:428-528 | The search is up to 127 such hexagon moves from the in-bounds position next to the seed and then up to 8 such diamond moves, fewer only at a minimum. |
| HexSearch.BoundsAllow | vp8_encoder_arnr.go:429-436 | The bounds are the positions where the predictor stays within eleven rows and columns of the frame. |
| HexSearch.MatchingImproves | vp8_encoder_arnr.go:428-528 | The result is in bounds, reports its own difference, and is no worse than the clamped seed. |
| TemporalFilter.FilterWindow | vp8_encoder_arnr.go:77-118 | The frames chosen on each side exist and with the center are at most the limit. |
| TemporalFilter.WindowIsLargest | vp8_encoder_arnr.go:77-118 | A window exists exactly for the three modes, an existing center and a positive limit; it takes all its sides offer or fills the limit, an even limit with the extra frame backward. |
| TemporalFilter.ApplyTemporalFilter | vp8_encoder_arnr.go:738-758 | Every scratch entry of the block gets its weighted pixel, no other entry changes. |
| TemporalFilter.WeightIsRounded | vp8_encoder_arnr.go:738-758 | A pixel that differs by d loses 3 d d / 2^strength of its weight of 16, to the nearest integer with ties upwards, and all of it from 31/2 on. |
| TemporalFilter.ContributesExactly | vp8_encoder_arnr.go:259-287 | A pixel takes part if and only if its frame is the center or has an error below 20000 and 6 d d is below 31 * 2^strength (3 d d below 16 at strength 0). |
| TemporalFilter.OutputIsWeightedMean | vp8_encoder_arnr.go:738-758 | Count, sum and written value from the weights alone, doubled for the center and for errors below 10000. |
| TemporalFilter.SumsAreBounded | vp8_encoder_arnr.go:120-136 | With at most 15 frames a count is at most 480 and a sum at most 255 times it. |
| TemporalFilter.AddedIsSum | vp8_encoder_arnr.go:738-758 | The 32-bit additions are exact. |
| TemporalFilter.WriteBlock | vp8_encoder_arnr.go:367-407 | Exactly the visible pixels with something accumulated are replaced. |
| TemporalFilter.WrittenByPosition | vp8_encoder_arnr.go:367-407 | Row by row and column by column, which entry of the block each pixel of the plane takes, and that all others keep their value. |
| TemporalFilter.ProcessMacroblock | vp8_encoder_arnr.go:217-324 | All three planes hold the quotients of the sums and counts over all references. |
| TemporalFilter.OutputIsRoundedQuotient | vp8_encoder_arnr.go:357-410 | The output is the rounded quotient or one less, and no product leaves 32 bits. |
| TemporalFilter.OutputIsBetween | vp8_encoder_arnr.go:357-410 | The output lies between the smallest and largest contributing pixel. |
| TemporalFilter.CenterAlwaysContributes | vp8_encoder_arnr.go:259-266 | A matching center frame gives every pixel a count of at least 32, so it is written. |
| SearchStart.InsertionSort | vp8_encoder_inter_motion_predictor.go:343-352 | The loop computes Sorted in place and leaves the rest alone. |
| SearchStart.SortedIsSorted | vp8_encoder_inter_motion_predictor.go:343-352 | Sorted is in order. |
| SearchStart.SortedKeepsElements | vp8_encoder_inter_motion_predictor.go:343-352 | Sorted is a permutation. |
| SearchStart.SlotOrder | vp8_encoder_inter_motion_predictor.go:294-315 | The slot order is the stable order of the differences. |
| SearchStart.OrderIsStable | vp8_encoder_inter_motion_predictor.go:294-315 | The order lists slot indices, each strictly preceding the next, ties by index. |
| SearchStart.RankIsPosition | vp8_encoder_inter_motion_predictor.go:173-179 | The counted rank is the exact position in that order. |
| SearchStart.BestIsFirstMatch | vp8_encoder_inter_motion_predictor.go:165-179 | The cheapest slot of the reference is the first matching one of the order. |
| SearchStart.SearchStart | vp8_encoder_inter_motion_predictor.go:165-196 | Same vector, range and slot as bias, sort, take the first match, else the median. |
| SearchStart.StartIsBestMatch | vp8_encoder_inter_motion_predictor.go:163-196 | That is the first of the cheapest slots of the reference, with range 3 when fewer than three slots of any reference stand before it and 2 otherwise, or the median with range 0 when no slot uses the reference. |
| SearchStart.BiasedByAxis | vp8_encoder_inter_motion_predictor.go:249-292 | A vector is mirrored exactly when the sign biases differ, and moved on each axis no more than it takes for its block to start at most one macroblock outside the frame. |
| SearchStart.MiddleIsMedian | vp8_encoder_inter_motion_predictor.go:317-341 | On each axis at most half of the components, rounded down, are below the median and more than that are not above it. |
| SearchStart.ThreeMedian | vp8_encoder_inter_motion_predictor.go:322-325 | The min/max formula is the sorted middle of three. |
| SearchStart.Median | vp8_encoder_inter_motion_predictor.go:317-341 | Both paths give the sorted middle per component. |
| ModeCache.CacheSlot.StorePredictor | vp8_encoder_inter_coefficients.go:115-125 | Adds the prediction and keeps the transforms, with the place of the macroblock. |
| ModeCache.ModePicker.Try | vp8_encoder_inter_modes_rd.go:81-528 | One iteration, through each of its exits, keeps the winner slot equal to what the best candidate wrote. |
| ModeCache.ModePicker.Select | vp8_encoder_inter_modes_rd.go:46-531 | After the loop the best candidate is that of the loop without buffers, and the winner slot holds its writing or nothing. |
| ModeCache.TestedExactly | vp8_encoder_inter_modes_rd.go:81-113 | A candidate is tested if and only if it is available, not disabled, evaluates with success, every tested one before it scored above its threshold, and none of those ended the loop. |
| ModeCache.ModePicker.Consume | vp8_encoder_inter_coefficients.go:150-159 | The winner slot, if it holds transforms. |
| ModeCache.ModePicker.Accept | vp8_encoder_inter_coefficients.go:127-224 | The accepted path gets the best candidate's own writing exactly when its parameters agree, never a loser's. |
| ModeCache.BestIsFirstCheapest | vp8_encoder_inter_modes_rd.go:453-528 | The best is the first of the cheapest tested candidates, or the one that ended the loop. |
| FullPelPlane.PassingIsInside | vp8_encoder_inter_motion_cost.go:213-224 | The two unsigned comparisons are four signed ones. |
| FullPelPlane.OneCheckCoversEveryCandidate | vp8_encoder_inter_motion_cost.go:288-302 | On a plane of the right shape the check holds exactly when every pixel of every passing candidate lies in the buffer. |
| FullPelPlane.ContextIsSafe | vp8_encoder_inter_motion_cost.go:77-155 | A usable context lets through only candidates whose whole block is in the buffer. |

## Left out

- Flag words are records of booleans and the table's used-bits a boolean array; bit positions are not modelled.
- Entropy contexts, denoising, segmentation and the two-pass controller; only reference pictures matter to the layer theorems, as in error-resilient streams.
- TemporalPlan.FramesFollowPlan: streams of fewer than 2^64 frames, all coded and without application flags; a picture is identified with the number of its frame.
- LayerDropping.LayerDroppingIsSafe: runs have no layer override and no inter-layer restart; a key frame coded at a higher layer clears the tags, so the filter keeps every key frame.
- TemporalBitrate.TargetsConserveBudget: requires a bound that keeps every layer's product within 64 bits, which is sufficient but not necessary, and for periods three and six a window that does not cross the wrap of the 64-bit frame index.
- TemporalHistory.BucketClosedForm: requires settings fixed over the run and no saturation, stated as bounds on the configuration and the bits.
- TemporalHistory.AccountingIsHistory: frame counters are unbounded integers.
- keyFrameMeta and restartAfterKeyFrame in temporal.go, which only the VP9 encoder calls.
- Reported frame rates (temporalLayerOutputFrameRateInt), which are floating point.
- LayerContext: correction factors are reals; disabling temporal layers (vp8_encoder_frame.go:1111-1132) is not modelled; the ratio an overshoot drop raises its factor towards is a parameter.
- SubpelCache.Index: the row product is not wrapped to 64 bits, which does not change its low six bits.
- SubpelSearch: costs are arbitrary integers; the one-round step search and the statistics variants are the same rounds with other counters.
- The fallback from the n-step to the exhaustive search (vp8_encoder_inter_motion_split.go:56-62) is left to the caller.
- SearchStart.SearchStart: filling the slots from neighbouring modes and the early return for intra references are outside the model.
- HexSearch: the fractional refinement that follows it (arnrSubpelRefine).
- TemporalFilter: gathering blocks and interpolating predictors; predictors are parameters, luma and chroma concatenated as in the scratch arrays.
- ModeCache: scores, thresholds and mode tests are parameters of the candidates; the threshold multipliers and the order of modes are not modelled.
- FullPelPlane: index arithmetic is in unbounded integers; the lazily gathered source block is not modelled.
- SIMD kernels, tracing, phase statistics, automatic speed selection and the VP9 encoder.
