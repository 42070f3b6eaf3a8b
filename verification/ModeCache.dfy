/** The rate-distortion mode loop's two cache slots: the candidate under evaluation writes into the scratch slot, and a
    new best turns the scratch slot into the winner by flipping one index. Scores, transforms and predictors are
    parameters; the loop's exits, the flips and the validity bits are the source's. */
module ModeCache {
  import opened Wrappers

  const DISABLED: int := -1

  /** What must agree for cached transforms to be reused. */
  datatype Key = Key(
    mbRow: int, mbCol: int, is4x4: bool, intra: bool, fastQuant: bool, qIndex: int,
    zbinOverQuant: int, zbinModeBoost: int, actZbinAdj: int)

  /** The transforms one coefficient build left behind. */
  datatype Snapshot = Snapshot(key: Key, yDcts: seq<int>, uvDcts: seq<int>)

  datatype Mode = Mode(refFrame: int, mode: int, uvMode: int, row: int, col: int, partition: int, blocks: seq<int>)

  /** The prediction of an inter candidate: its reference, its mode, and the predicted pixels. */
  datatype Prediction = Prediction(ref: int, mode: Mode, pixels: seq<int>)

  /** What evaluating a candidate yields; only an inter candidate may write transforms. */
  datatype Trial =
    | Intra(ok: bool, score: int)
    | Inter(ok: bool, score: int, wrote: Option<Snapshot>, rdLoopSkip: bool, prediction: Prediction)

  /** One entry of the mode order. A candidate that is not available (no reference, tested too often, not allowed for
      this frame) leaves the loop body before it is evaluated. */
  datatype Candidate = Candidate(threshold: int, available: bool, trial: Trial)

  /* The loop without buffers */

  datatype Best = NoBest | Best(index: nat, score: int, trial: Trial)

  /** The best candidate of the first n, and whether the loop has been left. */
  datatype Progress = Progress(best: Best, stopped: bool)

  predicate Tested(c: Candidate, best: Best) {
    && c.threshold != DISABLED
    && !(best.Best? && best.score <= c.threshold)
    && c.available && c.trial.ok
  }

  predicate Skips(c: Candidate) {
    c.trial.Inter? && c.trial.rdLoopSkip
  }

  predicate Wins(c: Candidate, best: Best) {
    Tested(c, best) && (Skips(c) || best.NoBest? || c.trial.score < best.score)
  }

  function Considered(candidates: seq<Candidate>, n: nat): Progress
    requires n <= |candidates|
  {
    if n == 0 then Progress(NoBest, false)
    else
      var before, c := Considered(candidates, n - 1), candidates[n - 1];
      if before.stopped then before
      else
        Progress(if Wins(c, before.best) then Best(n - 1, c.trial.score, c.trial) else before.best,
                 Tested(c, before.best) && Skips(c))
  }

  /* The slots */

  /** Where the loop works. */
  datatype Place = Place(mbRow: int, mbCol: int)

  class CacheSlot {
    var valid: bool
    var predictorValid: bool
    var key: Key
    var yDcts: seq<int>
    var uvDcts: seq<int>
    var predictorRef: Option<int>
    var predictorMode: Mode
    var predictor: seq<int>

    constructor ()
      ensures !valid && !predictorValid
    {
      valid, predictorValid := false, false;
      key := Key(0, 0, false, false, false, 0, 0, 0, 0);
      yDcts, uvDcts, predictor := [], [], [];
      predictorRef, predictorMode := None, Mode(0, 0, 0, 0, 0, 0, []);
    }

    method Reset()
      modifies this
      ensures Holds(None, None)
    {
      valid, predictorValid, predictorRef := false, false, None;
    }

    /** A coefficient build stages its transforms. */
    method Stage(s: Snapshot)
      requires !predictorValid
      modifies this
      ensures Holds(Some(s), None)
    {
      yDcts, uvDcts := s.yDcts, s.uvDcts;
      key := s.key;
      valid := true;
    }

    method StorePredictor(at: Place, p: Prediction, ghost wrote: Option<Snapshot>)
      requires Holds(wrote, None)
      modifies this
      ensures Holds(Placed(wrote, at), Some(p)) && key.mbRow == at.mbRow && key.mbCol == at.mbCol
    {
      predictorMode := p.mode;
      predictorRef := Some(p.ref);
      key := key.(mbRow := at.mbRow, mbCol := at.mbCol);
      predictor := p.pixels;
      predictorValid := true;
    }

    /** The slot's valid parts are exactly these. */
    ghost predicate Holds(wrote: Option<Snapshot>, prediction: Option<Prediction>)
      reads this
    {
      && (valid <==> wrote.Some?)
      && (valid ==> Snapshot(key, yDcts, uvDcts) == wrote.value)
      && (predictorValid <==> prediction.Some?)
      && (predictorValid ==>
            && predictorRef == Some(prediction.value.ref) && predictorMode == prediction.value.mode
            && predictor == prediction.value.pixels)
    }

    /** The transforms fit a coefficient build with these parameters. */
    predicate Reusable(args: Key)
      reads this
    {
      valid && key == args
    }

    /** The predictor is that of this mode of this reference at this place. */
    predicate PredictorReusable(at: Place, ref: int, mode: Mode)
      reads this
    {
      && predictorValid && key.mbRow == at.mbRow && key.mbCol == at.mbCol
      && predictorRef == Some(ref) && predictorMode == mode
    }
  }

  /** The snapshot with the place of the stored predictor. */
  function Placed(wrote: Option<Snapshot>, at: Place): Option<Snapshot> {
    if wrote.None? then None
    else Some(wrote.value.(key := wrote.value.key.(mbRow := at.mbRow, mbCol := at.mbCol)))
  }

  /** What the winner slot must hold for a best candidate: its own writing, nothing for an intra one or none at all. */
  ghost predicate Represents(slot: CacheSlot, best: Best, at: Place)
    reads slot
  {
    match best
    case NoBest => slot.Holds(None, None)
    case Best(_, _, Intra(_, _)) => slot.Holds(None, None)
    case Best(_, _, Inter(_, _, wrote, _, prediction)) =>
      slot.Holds(Placed(wrote, at), Some(prediction)) && slot.key.mbRow == at.mbRow && slot.key.mbCol == at.mbCol
  }

  class ModePicker {
    const slot0: CacheSlot
    const slot1: CacheSlot
    var winner: int
    /** The slot that evaluation writes into; None outside the loop. */
    var scratch: CacheSlot?

    ghost predicate Valid()
      reads this
    {
      slot0 != slot1 && (winner == 0 || winner == 1)
    }

    function Slot(i: int): CacheSlot
      reads this
    {
      if i == 0 then slot0 else slot1
    }

    constructor ()
      ensures Valid() && fresh(slot0) && fresh(slot1)
    {
      slot0 := new CacheSlot();
      slot1 := new CacheSlot();
      winner, scratch := 0, null;
    }

    method Flip()
      requires Valid()
      modifies this`winner, this`scratch
      ensures Valid() && winner == 1 - old(winner) && scratch == Slot(old(winner))
    {
      winner := 1 - winner;
      scratch := Slot(1 - winner);
    }

    /** Evaluates one candidate; false when the loop is to be left. */
    method Try(c: Candidate, index: nat, best: Best, at: Place) returns (best': Best, stop: bool)
      requires Valid() && scratch == Slot(1 - winner) && Represents(Slot(winner), best, at)
      modifies this`winner, this`scratch, slot0, slot1
      ensures Valid() && scratch == Slot(1 - winner) && Represents(Slot(winner), best', at)
      ensures best' == if Wins(c, best) then Best(index, c.trial.score, c.trial) else best
      ensures stop == (Tested(c, best) && Skips(c))
    {
      if c.threshold == DISABLED {
        return best, false;
      }
      if best.Best? && best.score <= c.threshold {
        return best, false;
      }
      scratch.Reset();
      if !c.available {
        return best, false;
      }
      match c.trial {
        case Intra(ok, score) =>
          if !ok {
            return best, false;
          }
          if best.NoBest? || score < best.score {
            Flip();
            return Best(index, score, c.trial), false;
          }
          return best, false;
        case Inter(ok, score, wrote, rdLoopSkip, prediction) =>
          if wrote.Some? {
            scratch.Stage(wrote.value);
          }
          if !ok {
            return best, false;
          }
          best' := best;
          if rdLoopSkip || best.NoBest? || score < best.score {
            scratch.StorePredictor(at, prediction, wrote);
            Flip();
            best' := Best(index, score, c.trial);
          }
          return best', rdLoopSkip;
      }
    }

    /** After every iteration, through every exit, the winner slot holds exactly what the current best candidate's
        evaluation wrote: the loop over any number of candidates ends in such a state. */
    method Select(candidates: seq<Candidate>, at: Place) returns (best: Best)
      requires Valid()
      modifies this`winner, this`scratch, slot0, slot1
      ensures Valid() && scratch == null
      ensures best == Considered(candidates, |candidates|).best
      ensures Represents(Slot(winner), best, at)
    {
      slot0.Reset();
      slot1.Reset();
      scratch := Slot(1 - winner);
      best := NoBest;
      ghost var stopped := false;
      for i := 0 to |candidates|
        invariant Valid() && scratch == Slot(1 - winner)
        invariant Considered(candidates, i) == Progress(best, false)
        invariant Represents(Slot(winner), best, at)
      {
        var stop;
        best, stop := Try(candidates[i], i, best, at);
        if stop {
          StoppedForGood(candidates, i + 1, |candidates|);
          break;
        }
      }
      scratch := null;
    }

    /** The winner slot, unless it holds no transforms. */
    method Consume() returns (slot: CacheSlot?)
      requires Valid()
      ensures slot == if Slot(winner).valid then Slot(winner) else null
    {
      var candidate := Slot(winner);
      if !candidate.valid {
        return null;
      }
      return candidate;
    }

    /** The accepted path: it can only be given what the best candidate's own evaluation wrote, and is given it exactly
        when its own reference, mode and parameters agree. */
    method Accept(at: Place, ref: int, mode: Mode, args: Key, ghost best: Best)
      returns (pixels: Option<seq<int>>, transforms: Option<Snapshot>)
      requires Valid() && Represents(Slot(winner), best, at)
      ensures best.Best? && best.trial.Inter? && best.trial.wrote.Some? ==>
                && pixels == (if best.trial.prediction.ref == ref && best.trial.prediction.mode == mode
                              then Some(best.trial.prediction.pixels) else None)
                && transforms == (if Placed(best.trial.wrote, at).value.key == args
                                  then Placed(best.trial.wrote, at) else None)
      ensures !(best.Best? && best.trial.Inter? && best.trial.wrote.Some?) ==> pixels == None && transforms == None
    {
      pixels, transforms := None, None;
      var slot := Consume();
      if slot != null {
        if slot.PredictorReusable(at, ref, mode) {
          pixels := Some(slot.predictor);
        }
        if slot.Reusable(args) {
          transforms := Some(Snapshot(slot.key, slot.yDcts, slot.uvDcts));
        }
      }
    }
  }

  lemma {:induction false} StoppedForGood(candidates: seq<Candidate>, m: nat, n: nat)
    requires m <= n <= |candidates| && Considered(candidates, m).stopped
    ensures Considered(candidates, n) == Considered(candidates, m)
    decreases n
  {
    if m < n {
      StoppedForGood(candidates, m, n - 1);
    }
  }

  /* Which candidate wins */

  /** The candidate was evaluated with success, given the best so far. */
  ghost predicate WasTested(candidates: seq<Candidate>, i: nat)
    requires i < |candidates|
  {
    !Considered(candidates, i).stopped && Tested(candidates[i], Considered(candidates, i).best)
  }

  /** No candidate below n was tested and ended the loop. */
  ghost predicate StillRunning(candidates: seq<Candidate>, n: nat)
    requires n <= |candidates|
  {
    forall j :: 0 <= j < n && WasTested(candidates, j) ==>
      !(candidates[j].trial.Inter? && candidates[j].trial.rdLoopSkip)
  }

  /** What the loop knows while it runs: its best is a tested candidate no dearer than any other. */
  lemma {:induction false} RunningBest(candidates: seq<Candidate>, n: nat)
    requires n <= |candidates|
    ensures var p := Considered(candidates, n);
            && (p.stopped <==> !StillRunning(candidates, n))
            && (!p.stopped ==>
                  && (p.best.Best? ==>
                        && p.best.index < n && WasTested(candidates, p.best.index)
                        && p.best.score == candidates[p.best.index].trial.score)
                  && (forall j :: 0 <= j < n && WasTested(candidates, j) ==>
                        p.best.Best? && p.best.score <= candidates[j].trial.score))
    decreases n
  {
    if n > 0 {
      RunningBest(candidates, n - 1);
    }
  }

  /** Exactly which candidates are tested: one whose threshold is not the disabling one, that is available and evaluates
      with success, where no tested candidate before it has a score at or below its threshold, and none has ended the
      loop. */
  lemma TestedExactly(candidates: seq<Candidate>, i: nat)
    requires i < |candidates|
    ensures WasTested(candidates, i) <==>
              var c := candidates[i];
              && c.threshold != -1 && c.available && c.trial.ok
              && (forall j :: 0 <= j < i && WasTested(candidates, j) ==> c.threshold < candidates[j].trial.score)
              && StillRunning(candidates, i)
  {
    RunningBest(candidates, i);
  }

  /** The best is the first of the cheapest candidates tested, unless one that ends the loop was tested: then it is that
      one, whatever its score. */
  lemma {:induction false} BestIsFirstCheapest(candidates: seq<Candidate>, n: nat, i: nat)
    requires i < n <= |candidates| && WasTested(candidates, i)
    ensures var p := Considered(candidates, n);
            && p.best.Best? && p.best.index < n && WasTested(candidates, p.best.index)
            && p.best.trial == candidates[p.best.index].trial && p.best.score == p.best.trial.score
            && (if p.stopped then Skips(candidates[p.best.index]) && i <= p.best.index
                else
                  && !Skips(candidates[i])
                  && (i == p.best.index || p.best.score < candidates[i].trial.score ||
                      (p.best.score == candidates[i].trial.score && p.best.index < i)))
    decreases n
  {
    var m := n - 1;
    if i < m {
      BestIsFirstCheapest(candidates, m, i);
    } else {
      BestIsEarlier(candidates, m);
    }
  }

  lemma {:induction false} BestIsEarlier(candidates: seq<Candidate>, n: nat)
    requires n <= |candidates|
    ensures var p := Considered(candidates, n);
            p.best.Best? ==>
              && p.best.index < n && WasTested(candidates, p.best.index)
              && p.best.trial == candidates[p.best.index].trial && p.best.score == p.best.trial.score
    decreases n
  {
    if n > 0 {
      BestIsEarlier(candidates, n - 1);
    }
  }
}
