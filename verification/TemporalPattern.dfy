/** The thirteen built-in VP8 temporal-layer patterns and what every one of them guarantees. */
module TemporalPattern {
  import opened Arith
  import opened Wrappers

  /** The reference buffers of VP8, in the order of the refLayer tags. */
  datatype Slot = Last | Golden | AltRef

  /** A set of reference buffers. */
  datatype Mask = Mask(last: bool, golden: bool, alt: bool) {
    predicate Has(s: Slot) {
      match s
      case Last => last
      case Golden => golden
      case AltRef => alt
    }

    function Union(m: Mask): (r: Mask)
      ensures forall s: Slot :: r.Has(s) <==> Has(s) || m.Has(s)
    {
      Mask(last || m.last, golden || m.golden, alt || m.alt)
    }

    function Complement(): (r: Mask)
      ensures forall s: Slot :: r.Has(s) <==> !Has(s)
    {
      Mask(!last, !golden, !alt)
    }

    predicate Subset(m: Mask) {
      (last ==> m.last) && (golden ==> m.golden) && (alt ==> m.alt)
    }

    predicate IsEmpty() {
      !last && !golden && !alt
    }
  }

  const NONE := Mask(false, false, false)
  const LAST := Mask(true, false, false)
  const GOLDEN := Mask(false, true, false)
  const ALTREF := Mask(false, false, true)
  const LG := Mask(true, true, false)
  const LA := Mask(true, false, true)
  const GA := Mask(false, true, true)
  const ALL := Mask(true, true, true)

  /** The per-frame encode flags the layering logic reads; `noRef` and `noUpd` hold the NO_REF and NO_UPD bits. */
  datatype Flags = Flags(
    forceKey: bool, noRef: Mask, noUpd: Mask, noEntropy: bool, forceGolden: bool, forceAltRef: bool)
  {
    /** Bitwise or of two flag words. */
    function Or(f: Flags): Flags {
      Flags(forceKey || f.forceKey, noRef.Union(f.noRef), noUpd.Union(f.noUpd), noEntropy || f.noEntropy,
            forceGolden || f.forceGolden, forceAltRef || f.forceAltRef)
    }
  }

  const NO_FLAGS := Flags(false, NONE, NONE, false, false, false)

  /** Flags of a pattern slot that only restricts references and updates. */
  function Inter(noRef: Mask, noUpd: Mask): Flags {
    Flags(false, noRef, noUpd, false, false, false)
  }

  datatype Mode =
    | OneLayer
    | TwoLayers
    | TwoLayersThreeFrame
    | ThreeLayersSixFrame
    | ThreeLayersNoInterLayerPrediction
    | ThreeLayersLayerOnePrediction
    | ThreeLayers
    | FiveLayers
    | TwoLayersWithSync
    | ThreeLayersWithSync
    | ThreeLayersAltRefWithSync
    | ThreeLayersOneReference
    | ThreeLayersNoSync
    | OtherMode(value: int)

  /** One pattern: the layer table repeats every `periodicity` frames and the flag table every `flagPeriodicity`. */
  datatype Pattern = Pattern(
    layers: int, periodicity: int, flagPeriodicity: int,
    rateDecimator: seq<int>, layerID: seq<int>, flags: seq<Flags>)

  /** The pattern of a mode; None for a value outside the enumeration. */
  function PatternOf(mode: Mode): Option<Pattern> {
    match mode
    case OneLayer =>
      Some(Pattern(1, 1, 1, [1], [0], [Inter(NONE, GA).(forceKey := true)]))
    case TwoLayers =>
      Some(Pattern(2, 2, 2, [2, 1], [0, 1],
                   [Inter(GA, GA).(forceKey := true),
                    Inter(ALTREF, LA)]))
    case TwoLayersThreeFrame =>
      Some(Pattern(2, 3, 3, [3, 1], [0, 1, 1],
                   [Inter(GA, GA).(forceKey := true),
                    Inter(GA, LA),
                    Inter(GA, LA)]))
    case ThreeLayersSixFrame =>
      var top := Inter(NONE, LG);
      Some(Pattern(3, 6, 6, [6, 3, 1], [0, 2, 2, 1, 2, 2],
                   [Inter(GA, GA).(forceKey := true), top, top, Inter(ALTREF, LA), top, top]))
    case ThreeLayersNoInterLayerPrediction =>
      var top := Inter(ALTREF, ALL);
      Some(Pattern(3, 4, 4, [4, 2, 1], [0, 2, 1, 2],
                   [Inter(GA, GA).(forceKey := true), top, Inter(GA, LA), top]))
    case ThreeLayersLayerOnePrediction =>
      var top := Inter(ALTREF, ALL);
      Some(Pattern(3, 4, 4, [4, 2, 1], [0, 2, 1, 2],
                   [Inter(GA, GA).(forceKey := true), top, Inter(ALTREF, LA), top]))
    case ThreeLayers =>
      var top := Inter(NONE, LG);
      Some(Pattern(3, 4, 4, [4, 2, 1], [0, 2, 1, 2],
                   [Inter(GA, GA).(forceKey := true), top, Inter(ALTREF, LA), top]))
    case FiveLayers =>
      var four := Inter(NONE, ALL);
      var three := Inter(NONE, GA);
      var two := Inter(LAST, ALTREF);
      Some(Pattern(5, 16, 16, [16, 8, 4, 2, 1],
                   [0, 4, 3, 4, 2, 4, 3, 4, 1, 4, 3, 4, 2, 4, 3, 4],
                   [NO_FLAGS.(forceKey := true), four, three, four, two, four, three, four,
                    Inter(LG, NONE), four, three, four, two, four, three, four]))
    case TwoLayersWithSync =>
      var base := Inter(GOLDEN, GA);
      var top := Inter(NONE, LA).(noEntropy := true);
      Some(Pattern(2, 2, 8, [2, 1], [0, 1],
                   [Inter(GOLDEN, ALTREF).(forceKey := true), Inter(GOLDEN, LA),
                    base, top, base, top, base, top]))
    case ThreeLayersWithSync =>
      Some(Pattern(3, 4, 8, [4, 2, 1], [0, 2, 1, 2],
                   [Inter(GA, GA).(forceKey := true),
                    Inter(GA, LG),
                    Inter(GA, LA),
                    Inter(NONE, LG),
                    Inter(GA, GA),
                    Inter(NONE, LG),
                    Inter(ALTREF, LA),
                    Inter(NONE, ALL).(noEntropy := true)]))
    case ThreeLayersAltRefWithSync =>
      var top := Inter(NONE, ALL).(noEntropy := true);
      Some(Pattern(3, 4, 8, [4, 2, 1], [0, 2, 1, 2],
                   [Inter(GOLDEN, ALTREF).(forceKey := true),
                    Inter(GOLDEN, ALL).(noEntropy := true),
                    Inter(GOLDEN, LA),
                    top,
                    Inter(GOLDEN, GA),
                    top,
                    Inter(NONE, LA),
                    top]))
    case ThreeLayersOneReference =>
      Some(Pattern(3, 4, 4, [4, 2, 1], [0, 2, 1, 2],
                   [Inter(GA, GA), Inter(GA, LG), Inter(GA, LA), Inter(LA, LG)]))
    case ThreeLayersNoSync =>
      var base := Inter(GOLDEN, GA);
      var middle := Inter(NONE, LA);
      var top := Inter(NONE, ALL).(noEntropy := true);
      Some(Pattern(3, 4, 8, [4, 2, 1], [0, 2, 1, 2],
                   [base, top, middle, top, base, top, middle, top]))
    case OtherMode(_) => None
  }

  /** The tables have the lengths and ranges the scheduler indexes them with, and the flag table is a whole
      number of layer periods long. */
  ghost predicate WellFormed(p: Pattern) {
    && 1 <= p.layers <= 5
    && 1 <= p.periodicity <= 16
    && |p.rateDecimator| == p.layers
    && |p.layerID| == p.periodicity
    && |p.flags| == p.flagPeriodicity
    && 0 < p.flagPeriodicity <= 16 && p.flagPeriodicity % p.periodicity == 0
    && (forall i :: 0 <= i < p.periodicity ==> 0 <= p.layerID[i] < p.layers)
  }

  /** What the layer table promises: a frame has layer at most j exactly when its index is a multiple of
      layer j's rate decimator. */
  ghost predicate FollowsDecimators(p: Pattern) {
    && WellFormed(p)
    && p.rateDecimator[0] == p.periodicity
    && p.rateDecimator[p.layers - 1] == 1
    && (forall j :: 0 <= j < p.layers ==> 0 < p.rateDecimator[j] && p.periodicity % p.rateDecimator[j] == 0)
    && (forall j :: 1 <= j < p.layers ==> p.rateDecimator[j] < p.rateDecimator[j - 1])
    && (forall i, j :: 0 <= i < p.periodicity && 0 <= j < p.layers ==>
          (p.layerID[i] <= j <==> i % p.rateDecimator[j] == 0))
  }

  lemma PatternsAreWellFormed(mode: Mode)
    ensures PatternOf(mode).Some? <==> !mode.OtherMode?
    ensures PatternOf(mode).Some? ==> WellFormed(PatternOf(mode).value)
  {
    if PatternOf(mode).Some? {
      TableShape(mode);
    }
  }

  lemma PatternsFollowDecimators(mode: Mode)
    requires PatternOf(mode).Some?
    ensures FollowsDecimators(PatternOf(mode).value)
  {
    TableShape(mode);
    var p := PatternOf(mode).value;
    forall j | 0 <= j < p.layers
      ensures 0 < p.rateDecimator[j] && p.periodicity % p.rateDecimator[j] == 0
      ensures 0 < j ==> p.rateDecimator[j] < p.rateDecimator[j - 1]
    {
      DecimatorsDivide(mode, j);
    }
    forall i, j | 0 <= i < p.periodicity && 0 <= j < p.layers
      ensures p.layerID[i] <= j <==> i % p.rateDecimator[j] == 0
    {
      LayersFollowDecimators(mode, i, j);
    }
  }

  lemma TableShape(mode: Mode)
    requires PatternOf(mode).Some?
    ensures var p := PatternOf(mode).value;
            && 1 <= p.layers <= 5 && 1 <= p.periodicity <= 16
            && |p.rateDecimator| == p.layers && |p.layerID| == p.periodicity && |p.flags| == p.flagPeriodicity
            && 0 < p.flagPeriodicity <= 16 && p.flagPeriodicity % p.periodicity == 0
            && p.rateDecimator[0] == p.periodicity && p.rateDecimator[p.layers - 1] == 1
            && (forall i :: 0 <= i < p.periodicity ==> 0 <= p.layerID[i] < p.layers)
  {
  }

  lemma DecimatorsDivide(mode: Mode, j: nat)
    requires PatternOf(mode).Some? && j < PatternOf(mode).value.layers
    requires |PatternOf(mode).value.rateDecimator| == PatternOf(mode).value.layers
    ensures var p := PatternOf(mode).value;
            && 0 < p.rateDecimator[j] && p.periodicity % p.rateDecimator[j] == 0
            && (0 < j ==> p.rateDecimator[j] < p.rateDecimator[j - 1])
  {
    if j == 0 {
    } else if j == 1 {
    } else if j == 2 {
    } else if j == 3 {
    } else {
    }
  }

  lemma LayersFollowDecimators(mode: Mode, i: nat, j: nat)
    requires PatternOf(mode).Some?
    requires i < PatternOf(mode).value.periodicity && j < PatternOf(mode).value.layers
    ensures var p := PatternOf(mode).value;
            && |p.layerID| == p.periodicity && |p.rateDecimator| == p.layers && 0 < p.rateDecimator[j]
            && (p.layerID[i] <= j <==> i % p.rateDecimator[j] == 0)
  {
    if mode == FiveLayers {
      FiveLayersFollowDecimators(i, j);
    } else if j == 0 {
    } else if j == 1 {
    } else {
    }
  }

  lemma FiveLayersFollowDecimators(i: nat, j: nat)
    requires i < 16 && j < 5
    ensures var p := PatternOf(FiveLayers).value; p.layerID[i] <= j <==> i % p.rateDecimator[j] == 0
  {
    if j == 0 {
    } else if j == 1 {
    } else if j == 2 {
    } else if j == 3 {
    } else {
    }
  }

  /** The layer of frame n, for any n: the decimator rule extends to the whole stream. */
  lemma LayerOfFrame(p: Pattern, n: nat, j: int)
    requires FollowsDecimators(p) && 0 <= j < p.layers
    ensures p.layerID[n % p.periodicity] <= j <==> n % p.rateDecimator[j] == 0
  {
    var d, q := p.rateDecimator[j], p.periodicity / p.rateDecimator[j];
    assert p.periodicity == q * d;
    RemainderOfRemainder(n, q, d);
  }
}
