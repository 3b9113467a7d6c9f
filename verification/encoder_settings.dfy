/** The encoder's tunable settings (`EncoderSettings`) and the three ways
    they are preset: by speed mode, by restricted (profile) mode and by
    tuning target. Each preset assigns a fixed group of fields and leaves
    every other field as it was. */
module EncoderSettings {

  datatype SpeedMode = Placebo | Slow | SpeedTotalNumber
  datatype TuneMode = TuneDefault | Psnr | TuneTotalNumber
  datatype RestrictedMode = Unrestricted | ModeA | ModeB

  /** The fields of `EncoderSettings`, in declaration order. */
  datatype Settings = Settings(
    fastIntraModeEvalLevel: int,
    fastMergeEval: int,
    bipredRefinementIterations: int,
    alwaysEvaluateIntraInInter: int,
    defaultNumRefPics: int,
    maxBinarySplitDepth: int,
    fastQuadSplitBasedOnBinarySplit: int,
    evalPrevMvSearchResult: int,
    fastInterPredBits: int,
    smoothLambdaScaling: int,
    adaptiveQp: int,
    aqpStrength: real,
    structuralSsd: int,
    encapsulationMode: int,
    chromaQpOffsetTable: int,
    chromaQpOffsetU: int,
    chromaQpOffsetV: int,
    restrictedMode: RestrictedMode)

  /** Field names, for stating which fields a preset touches. */
  datatype Field =
    | FastIntraModeEvalLevel | FastMergeEval | BipredRefinementIterations
    | AlwaysEvaluateIntraInInter | DefaultNumRefPics | MaxBinarySplitDepth
    | FastQuadSplitBasedOnBinarySplit | EvalPrevMvSearchResult | FastInterPredBits
    | SmoothLambdaScaling | AdaptiveQp | AqpStrength | StructuralSsd
    | EncapsulationMode | ChromaQpOffsetTable | ChromaQpOffsetU | ChromaQpOffsetV
    | RestrictedModeField

  datatype Value = IntV(i: int) | RealV(x: real) | ModeV(m: RestrictedMode)

  function Get(s: Settings, f: Field): Value {
    match f
    case FastIntraModeEvalLevel => IntV(s.fastIntraModeEvalLevel)
    case FastMergeEval => IntV(s.fastMergeEval)
    case BipredRefinementIterations => IntV(s.bipredRefinementIterations)
    case AlwaysEvaluateIntraInInter => IntV(s.alwaysEvaluateIntraInInter)
    case DefaultNumRefPics => IntV(s.defaultNumRefPics)
    case MaxBinarySplitDepth => IntV(s.maxBinarySplitDepth)
    case FastQuadSplitBasedOnBinarySplit => IntV(s.fastQuadSplitBasedOnBinarySplit)
    case EvalPrevMvSearchResult => IntV(s.evalPrevMvSearchResult)
    case FastInterPredBits => IntV(s.fastInterPredBits)
    case SmoothLambdaScaling => IntV(s.smoothLambdaScaling)
    case AdaptiveQp => IntV(s.adaptiveQp)
    case AqpStrength => RealV(s.aqpStrength)
    case StructuralSsd => IntV(s.structuralSsd)
    case EncapsulationMode => IntV(s.encapsulationMode)
    case ChromaQpOffsetTable => IntV(s.chromaQpOffsetTable)
    case ChromaQpOffsetU => IntV(s.chromaQpOffsetU)
    case ChromaQpOffsetV => IntV(s.chromaQpOffsetV)
    case RestrictedModeField => ModeV(s.restrictedMode)
  }

  /** Two settings agree on every field only when they are equal: the
      field list is complete. */
  lemma FieldsDetermine(a: Settings, b: Settings)
    requires forall f :: Get(a, f) == Get(b, f)
    ensures a == b
  {
    assert Get(a, FastIntraModeEvalLevel) == Get(b, FastIntraModeEvalLevel);
    assert Get(a, FastMergeEval) == Get(b, FastMergeEval);
    assert Get(a, BipredRefinementIterations) == Get(b, BipredRefinementIterations);
    assert Get(a, AlwaysEvaluateIntraInInter) == Get(b, AlwaysEvaluateIntraInInter);
    assert Get(a, DefaultNumRefPics) == Get(b, DefaultNumRefPics);
    assert Get(a, MaxBinarySplitDepth) == Get(b, MaxBinarySplitDepth);
    assert Get(a, FastQuadSplitBasedOnBinarySplit) == Get(b, FastQuadSplitBasedOnBinarySplit);
    assert Get(a, EvalPrevMvSearchResult) == Get(b, EvalPrevMvSearchResult);
    assert Get(a, FastInterPredBits) == Get(b, FastInterPredBits);
    assert Get(a, SmoothLambdaScaling) == Get(b, SmoothLambdaScaling);
    assert Get(a, AdaptiveQp) == Get(b, AdaptiveQp);
    assert Get(a, AqpStrength) == Get(b, AqpStrength);
    assert Get(a, StructuralSsd) == Get(b, StructuralSsd);
    assert Get(a, EncapsulationMode) == Get(b, EncapsulationMode);
    assert Get(a, ChromaQpOffsetTable) == Get(b, ChromaQpOffsetTable);
    assert Get(a, ChromaQpOffsetU) == Get(b, ChromaQpOffsetU);
    assert Get(a, ChromaQpOffsetV) == Get(b, ChromaQpOffsetV);
    assert Get(a, RestrictedModeField) == Get(b, RestrictedModeField);
  }

  /** The six fields whose value depends on the speed mode. */
  const SpeedFields: set<Field> :=
    {FastIntraModeEvalLevel, FastMergeEval, BipredRefinementIterations,
     AlwaysEvaluateIntraInInter, DefaultNumRefPics, MaxBinarySplitDepth}

  /** The fields the PSNR tuning assigns. */
  const TuneFields: set<Field> :=
    {AdaptiveQp, ChromaQpOffsetTable, ChromaQpOffsetU, ChromaQpOffsetV}

  /** The fields a restricted mode assigns besides `restricted_mode`. */
  function RestrictedFields(mode: RestrictedMode): set<Field> {
    SpeedFields
    + {EvalPrevMvSearchResult, FastInterPredBits, SmoothLambdaScaling}
    + TuneFields
    + (if mode == ModeB then {FastQuadSplitBasedOnBinarySplit} else {})
  }

  /** `f` keeps its value from `s` to `t`. */
  predicate Kept(s: Settings, t: Settings, f: Field) {
    Get(t, f) == Get(s, f)
  }

  /** The integer fields shared by all speed modes. */
  const SharedFields: set<Field> :=
    {FastQuadSplitBasedOnBinarySplit, EvalPrevMvSearchResult, FastInterPredBits,
     SmoothLambdaScaling, AdaptiveQp, StructuralSsd, EncapsulationMode,
     ChromaQpOffsetTable, ChromaQpOffsetU, ChromaQpOffsetV}

  /** Their initial values. */
  function SharedDefault(f: Field): int
    requires f in SharedFields
  {
    match f
    case FastQuadSplitBasedOnBinarySplit => 1
    case EvalPrevMvSearchResult => 1
    case FastInterPredBits => 0
    case SmoothLambdaScaling => 1
    case AdaptiveQp => 1
    case StructuralSsd => 0
    case EncapsulationMode => 0
    case ChromaQpOffsetTable => 1
    case ChromaQpOffsetU => 0
    case ChromaQpOffsetV => 0
  }

  /** The values a freshly constructed `EncoderSettings` holds: the speed
      fields are unset (-1), the shared ones hold their defaults. */
  function Defaults(): (s: Settings)
    ensures forall f :: f in SpeedFields ==> Get(s, f) == IntV(-1)
    ensures forall f :: f in SharedFields ==> Get(s, f) == IntV(SharedDefault(f))
    ensures s.aqpStrength == 1.0 && s.restrictedMode == Unrestricted
  {
    Settings(-1, -1, -1, -1, -1, -1, 1, 1, 0, 1, 1, 1.0, 0, 0, 1, 0, 0, Unrestricted)
  }

  /** The speed presets, a table indexed by mode and field. */
  function SpeedValue(m: SpeedMode, f: Field): int
    requires m != SpeedTotalNumber && f in SpeedFields
  {
    match f
    case FastIntraModeEvalLevel => if m == Placebo then 0 else 1
    case FastMergeEval => if m == Placebo then 0 else 1
    case BipredRefinementIterations => if m == Placebo then 4 else 1
    case AlwaysEvaluateIntraInInter => if m == Placebo then 1 else 0
    case DefaultNumRefPics => if m == Placebo then 3 else 2
    case MaxBinarySplitDepth => if m == Placebo then 3 else 2
  }

  /** The restricted-mode presets. */
  function RestrictedValue(mode: RestrictedMode, f: Field): int
    requires mode != Unrestricted && f in RestrictedFields(mode)
  {
    match f
    case FastQuadSplitBasedOnBinarySplit => 2
    case EvalPrevMvSearchResult => if mode == ModeA then 1 else 0
    case FastIntraModeEvalLevel => if mode == ModeA then 1 else 2
    case FastInterPredBits => 1
    case FastMergeEval => if mode == ModeA then 0 else 1
    case BipredRefinementIterations => 1
    case AlwaysEvaluateIntraInInter => 0
    case SmoothLambdaScaling => 0
    case DefaultNumRefPics => 2
    case MaxBinarySplitDepth => if mode == ModeA then 0 else 2
    case AdaptiveQp => 0
    case ChromaQpOffsetTable => 1
    case ChromaQpOffsetU => if mode == ModeA then 0 else 1
    case ChromaQpOffsetV => if mode == ModeA then 0 else 1
  }

  /** The PSNR tuning values. */
  function PsnrValue(f: Field): int
    requires f in TuneFields
  {
    match f
    case AdaptiveQp => 0
    case ChromaQpOffsetTable => 0
    case ChromaQpOffsetU => 1
    case ChromaQpOffsetV => 1
  }

  /** `Initialize(SpeedMode)`: the speed fields take the preset of the mode
      and nothing else changes. An out-of-range mode fails the source's
      assertion. */
  function InitializeSpeed(s: Settings, m: SpeedMode): (t: Settings)
    requires m != SpeedTotalNumber
    ensures forall f :: f in SpeedFields ==> Get(t, f) == IntV(SpeedValue(m, f))
    ensures forall f :: f !in SpeedFields ==> Kept(s, t, f)
  {
    if m == Placebo then
      s.(fastIntraModeEvalLevel := 0, fastMergeEval := 0, bipredRefinementIterations := 4,
         alwaysEvaluateIntraInInter := 1, defaultNumRefPics := 3, maxBinarySplitDepth := 3)
    else
      s.(fastIntraModeEvalLevel := 1, fastMergeEval := 1, bipredRefinementIterations := 1,
         alwaysEvaluateIntraInInter := 0, defaultNumRefPics := 2, maxBinarySplitDepth := 2)
  }

  /** `Initialize(RestrictedMode)`: the mode is recorded, the fields of its
      preset are assigned and nothing else changes. Only modes A and B are
      accepted. */
  function InitializeRestricted(s: Settings, mode: RestrictedMode): (t: Settings)
    requires mode != Unrestricted
    ensures t.restrictedMode == mode
    ensures forall f :: f in RestrictedFields(mode) ==> Get(t, f) == IntV(RestrictedValue(mode, f))
    ensures forall f :: f !in RestrictedFields(mode) && f != RestrictedModeField ==> Kept(s, t, f)
  {
    if mode == ModeA then
      s.(restrictedMode := mode,
         evalPrevMvSearchResult := 1, fastIntraModeEvalLevel := 1, fastInterPredBits := 1,
         fastMergeEval := 0, bipredRefinementIterations := 1, alwaysEvaluateIntraInInter := 0,
         smoothLambdaScaling := 0, defaultNumRefPics := 2, maxBinarySplitDepth := 0,
         adaptiveQp := 0, chromaQpOffsetTable := 1, chromaQpOffsetU := 0, chromaQpOffsetV := 0)
    else
      s.(restrictedMode := mode,
         fastQuadSplitBasedOnBinarySplit := 2,
         evalPrevMvSearchResult := 0, fastIntraModeEvalLevel := 2, fastInterPredBits := 1,
         fastMergeEval := 1, bipredRefinementIterations := 1, alwaysEvaluateIntraInInter := 0,
         smoothLambdaScaling := 0, defaultNumRefPics := 2, maxBinarySplitDepth := 2,
         adaptiveQp := 0, chromaQpOffsetTable := 1, chromaQpOffsetU := 1, chromaQpOffsetV := 1)
  }

  /** `Tune`: the default target changes nothing; PSNR assigns its four
      fields and nothing else. */
  function Tune(s: Settings, t: TuneMode): (u: Settings)
    requires t != TuneTotalNumber
    ensures t == TuneDefault ==> u == s
    ensures t == Psnr ==> forall f :: f in TuneFields ==> Get(u, f) == IntV(PsnrValue(f))
    ensures forall f :: f !in TuneFields ==> Kept(s, u, f)
  {
    if t == TuneDefault then s
    else s.(adaptiveQp := 0, chromaQpOffsetTable := 0, chromaQpOffsetU := 1, chromaQpOffsetV := 1)
  }

  // ---------------------------------------------------------------------
  // How the presets combine
  // ---------------------------------------------------------------------

  /** A speed preset leaves no speed field unset. */
  lemma SpeedSetsAll(s: Settings, m: SpeedMode)
    requires m != SpeedTotalNumber
    ensures forall f :: f in SpeedFields ==> Get(InitializeSpeed(s, m), f).IntV? && Get(InitializeSpeed(s, m), f).i >= 0
  {
    forall f | f in SpeedFields
      ensures SpeedValue(m, f) >= 0
    {
    }
  }

  /** A restricted mode assigns every speed field, so it overrides whatever
      speed mode was applied before it. */
  lemma RestrictedOverridesSpeed(s: Settings, m: SpeedMode, mode: RestrictedMode)
    requires m != SpeedTotalNumber && mode != Unrestricted
    ensures InitializeRestricted(InitializeSpeed(s, m), mode) == InitializeRestricted(s, mode)
  {
    var a := InitializeRestricted(InitializeSpeed(s, m), mode);
    var b := InitializeRestricted(s, mode);
    forall f
      ensures Get(a, f) == Get(b, f)
    {
      if f !in RestrictedFields(mode) && f != RestrictedModeField {
        assert f !in SpeedFields;
      }
    }
    FieldsDetermine(a, b);
  }

  /** Speed presets and tuning touch disjoint fields, so they commute. */
  lemma TuneCommutesWithSpeed(s: Settings, m: SpeedMode, t: TuneMode)
    requires m != SpeedTotalNumber && t != TuneTotalNumber
    ensures Tune(InitializeSpeed(s, m), t) == InitializeSpeed(Tune(s, t), m)
  {
    var a := Tune(InitializeSpeed(s, m), t);
    var b := InitializeSpeed(Tune(s, t), m);
    forall f
      ensures Get(a, f) == Get(b, f)
    {
      if f in SpeedFields {
        assert f !in TuneFields;
      }
    }
    FieldsDetermine(a, b);
  }

  /** Applying the same preset twice is applying it once. */
  lemma PresetsIdempotent(s: Settings, m: SpeedMode, mode: RestrictedMode, t: TuneMode)
    requires m != SpeedTotalNumber && mode != Unrestricted && t != TuneTotalNumber
    ensures InitializeSpeed(InitializeSpeed(s, m), m) == InitializeSpeed(s, m)
    ensures InitializeRestricted(InitializeRestricted(s, mode), mode) == InitializeRestricted(s, mode)
    ensures Tune(Tune(s, t), t) == Tune(s, t)
  {
    var a := InitializeSpeed(s, m);
    forall f ensures Get(InitializeSpeed(a, m), f) == Get(a, f) { }
    FieldsDetermine(InitializeSpeed(a, m), a);
    var b := InitializeRestricted(s, mode);
    forall f ensures Get(InitializeRestricted(b, mode), f) == Get(b, f) { }
    FieldsDetermine(InitializeRestricted(b, mode), b);
    var c := Tune(s, t);
    forall f ensures Get(Tune(c, t), f) == Get(c, f) { }
    FieldsDetermine(Tune(c, t), c);
  }

  /** PSNR tuning after a restricted mode keeps the mode's choices except
      the four tuned fields. */
  lemma PsnrAfterRestricted(s: Settings, mode: RestrictedMode)
    requires mode != Unrestricted
    ensures var t := Tune(InitializeRestricted(s, mode), Psnr);
      && t.restrictedMode == mode
      && t.chromaQpOffsetTable == 0 && t.adaptiveQp == 0
      && forall f :: f in RestrictedFields(mode) - TuneFields ==> Get(t, f) == IntV(RestrictedValue(mode, f))
  {
    var r := InitializeRestricted(s, mode);
    var t := Tune(r, Psnr);
    assert Kept(r, t, RestrictedModeField);
    assert Get(t, ChromaQpOffsetTable) == IntV(PsnrValue(ChromaQpOffsetTable));
    assert Get(t, AdaptiveQp) == IntV(PsnrValue(AdaptiveQp));
  }
}
