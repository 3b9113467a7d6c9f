/** The CABAC context store (cabac.cc, from the initialisation tables on):
    how `ResetStates` initialises every context array from the per-picture-
    type tables, and how the residual-coding syntax elements pick their
    context index (coded-subblock flag, significance, greater-than-1,
    greater-than-2, last position).

    A context model's own state machine is not part of this model: a
    context is represented by the two arguments it was initialised with,
    `CtxInit(qp, initValue)`. A returned `ContextModel &` is represented by
    the array it lives in and its index there, `CtxRef(ctxArray, index)`. */
module CabacContexts {
  import opened Common
  import R = Restrictions
  import Quantize

  /** The context arrays of `CabacContexts`. Syntax elements coded with
      separate luma and chroma contexts have one array per plane type. */
  datatype CtxArray =
    | CuCbfLuma | CuCbfChroma | PartSize | PredMode | RootCbf | SkipFlag | SplitFlag
    | InterDir | MergeFlag | MergeIdx | Mvd | MvpIdx | RefIdx
    | IntraPredLuma | IntraPredChroma | SubblockCsbfLuma | SubblockCsbfChroma
    | CoeffSigLuma | CoeffSigChroma | Greater1Luma | Greater1Chroma
    | Greater2Luma | Greater2Chroma
    | LastPosXLuma | LastPosXChroma | LastPosYLuma | LastPosYChroma
    | TquantBypass | DeltaQp | SaoMerge | SaoTypeIdx | TransSubdiv | TransformSkip

  /** A context model as far as this model follows it: the QP and the
      8-bit table value it was initialised from. */
  datatype CtxInit = CtxInit(qp: int, initValue: nat)

  type Contexts = map<CtxArray, seq<CtxInit>>

  /** A context picked by one of the derivations: which array, which slot. */
  datatype CtxRef = CtxRef(ctxArray: CtxArray, index: nat)

  datatype ScanOrder = Diagonal | Horizontal | Vertical

  // ---------------------------------------------------------------------
  // Initialisation tables: one row per picture prediction type (Bi, Uni,
  // Intra); `kNotUsed` entries are 0. Long rows are written in blocks of
  // eight.

  const InitTquantBypass: seq<seq<nat>> := [
    [154],
    [154],
    [154]
  ]

  const InitSplitFlag: seq<seq<nat>> := [
    [107, 139, 126],
    [107, 139, 126],
    [139, 141, 157]
  ]

  const InitSkipFlag: seq<seq<nat>> := [
    [197, 185, 201],
    [197, 185, 201],
    [0, 0, 0]
  ]

  const InitMergeFlag: seq<seq<nat>> := [
    [154],
    [110],
    [0]
  ]

  const InitMergeIdx: seq<seq<nat>> := [
    [137],
    [122],
    [0]
  ]

  const InitPartSize: seq<seq<nat>> := [
    [154, 139, 154, 154],
    [154, 139, 154, 154],
    [184, 0, 0, 0]
  ]

  const InitPredMode: seq<seq<nat>> := [
    [134],
    [149],
    [0]
  ]

  const InitIntraPredMode: seq<seq<nat>> := [
    [183, 152],
    [154, 152],
    [184, 63]
  ]

  const InitInterDir: seq<seq<nat>> := [
    [95, 79, 63, 31, 31],
    [95, 79, 63, 31, 31],
    [0, 0, 0, 0, 0]
  ]

  const InitMvd: seq<seq<nat>> := [
    [169, 198],
    [140, 198],
    [0, 0]
  ]

  const InitRefIdx: seq<seq<nat>> := [
    [153, 153],
    [153, 153],
    [0, 0]
  ]

  const InitDeltaQp: seq<seq<nat>> := [
    [154, 154, 154],
    [154, 154, 154],
    [154, 154, 154]
  ]

  const InitCuCbf: seq<seq<nat>> := [
    [111, 149],
    [111, 149],
    [141, 94]
  ]

  const InitRootCbf: seq<seq<nat>> := [
    [79],
    [79],
    [0]
  ]

  const InitLastPos: seq<seq<nat>> := [
    [125, 110, 124, 110, 95, 94, 125, 111] + [111, 79, 125, 126, 111, 111, 79, 108] + [123, 93],
    [125, 110, 94, 110, 95, 79, 125, 111] + [110, 78, 110, 111, 111, 95, 94, 108] + [123, 108],
    [110, 110, 124, 125, 140, 153, 125, 127] + [140, 109, 111, 143, 127, 111, 79, 108] +
      [123, 63]
  ]

  const InitSubblockCsbf: seq<seq<nat>> := [
    [121, 140, 61, 154],
    [121, 140, 61, 154],
    [91, 171, 134, 141]
  ]

  const InitCoeffSig: seq<seq<nat>> := [
    [170, 154, 139, 153, 139, 123, 123, 63] + [124, 166, 183, 140, 136, 153, 154, 166] +
      [183, 140, 136, 153, 154, 166, 183, 140] + [136, 153, 154, 170, 153, 138, 138, 122] +
      [121, 122, 121, 167, 151, 183, 140, 151] + [183, 140],
    [155, 154, 139, 153, 139, 123, 123, 63] + [153, 166, 183, 140, 136, 153, 154, 166] +
      [183, 140, 136, 153, 154, 166, 183, 140] + [136, 153, 154, 170, 153, 123, 123, 107] +
      [121, 107, 121, 167, 151, 183, 140, 151] + [183, 140],
    [111, 111, 125, 110, 110, 94, 124, 108] + [124, 107, 125, 141, 179, 153, 125, 107] +
      [125, 141, 179, 153, 125, 107, 125, 141] + [179, 153, 125, 140, 139, 182, 182, 152] +
      [136, 152, 136, 153, 136, 139, 111, 136] + [139, 111]
  ]

  const InitCoeffGreater1: seq<seq<nat>> := [
    [154, 196, 167, 167, 154, 152, 167, 182] + [182, 134, 149, 136, 153, 121, 136, 122] +
      [169, 208, 166, 167, 154, 152, 167, 182],
    [154, 196, 196, 167, 154, 152, 167, 182] + [182, 134, 149, 136, 153, 121, 136, 137] +
      [169, 194, 166, 167, 154, 167, 137, 182],
    [140, 92, 137, 138, 140, 152, 138, 139] + [153, 74, 149, 92, 139, 107, 122, 152] +
      [140, 179, 166, 182, 140, 227, 122, 197]
  ]

  const InitCoeffGreater2: seq<seq<nat>> := [
    [107, 167, 91, 107, 107, 167],
    [107, 167, 91, 122, 107, 167],
    [138, 153, 136, 167, 152, 152]
  ]

  const InitMvpIdx: seq<seq<nat>> := [
    [168],
    [168],
    [0]
  ]

  const InitSaoMerge: seq<seq<nat>> := [
    [153],
    [153],
    [153]
  ]

  const InitSaoTypeIdx: seq<seq<nat>> := [
    [160],
    [185],
    [200]
  ]

  const InitTransSubdiv: seq<seq<nat>> := [
    [224, 167, 122],
    [124, 138, 94],
    [153, 138, 138]
  ]

  const InitTransformSkip: seq<seq<nat>> := [
    [139, 139],
    [139, 139],
    [139, 139]
  ]

  // Number of luma contexts at the start of each row of a table shared by
  // a luma and a chroma array; the chroma contexts take the rest of the row.
  const NumCuCbfLuma: nat := 1
  const NumIntraPredLuma: nat := 1
  const NumSubblockCsbfLuma: nat := 2
  const NumCoeffSigLuma: nat := 27
  const NumGreater1Luma: nat := 16
  const NumGreater2Luma: nat := 4
  const NumLastPosLuma: nat := 15

  /** The table each array is initialised from. */
  function InitTable(a: CtxArray): seq<seq<nat>> {
    match a
    case CuCbfLuma | CuCbfChroma => InitCuCbf
    case PartSize => InitPartSize
    case PredMode => InitPredMode
    case RootCbf => InitRootCbf
    case SkipFlag => InitSkipFlag
    case SplitFlag => InitSplitFlag
    case InterDir => InitInterDir
    case MergeFlag => InitMergeFlag
    case MergeIdx => InitMergeIdx
    case Mvd => InitMvd
    case MvpIdx => InitMvpIdx
    case RefIdx => InitRefIdx
    case IntraPredLuma | IntraPredChroma => InitIntraPredMode
    case SubblockCsbfLuma | SubblockCsbfChroma => InitSubblockCsbf
    case CoeffSigLuma | CoeffSigChroma => InitCoeffSig
    case Greater1Luma | Greater1Chroma => InitCoeffGreater1
    case Greater2Luma | Greater2Chroma => InitCoeffGreater2
    case LastPosXLuma | LastPosXChroma | LastPosYLuma | LastPosYChroma => InitLastPos
    case TquantBypass => InitTquantBypass
    case DeltaQp => InitDeltaQp
    case SaoMerge => InitSaoMerge
    case SaoTypeIdx => InitSaoTypeIdx
    case TransSubdiv => InitTransSubdiv
    case TransformSkip => InitTransformSkip
  }

  /** The luma array of a shared table. */
  predicate IsLumaHalf(a: CtxArray) {
    a.CuCbfLuma? || a.IntraPredLuma? || a.SubblockCsbfLuma? || a.CoeffSigLuma? ||
    a.Greater1Luma? || a.Greater2Luma? || a.LastPosXLuma? || a.LastPosYLuma?
  }

  /** Column of the table row holding the array's first context. */
  function FirstColumn(a: CtxArray): nat {
    match a
    case CuCbfChroma => NumCuCbfLuma
    case IntraPredChroma => NumIntraPredLuma
    case SubblockCsbfChroma => NumSubblockCsbfLuma
    case CoeffSigChroma => NumCoeffSigLuma
    case Greater1Chroma => NumGreater1Luma
    case Greater2Chroma => NumGreater2Luma
    case LastPosXChroma | LastPosYChroma => NumLastPosLuma
    case _ => 0
  }

  /** Number of contexts in each array. */
  function Size(a: CtxArray): nat {
    match a
    case CuCbfLuma => NumCuCbfLuma
    case CuCbfChroma => 1
    case PartSize => 4
    case PredMode => 1
    case RootCbf => 1
    case SkipFlag => 3
    case SplitFlag => 3
    case InterDir => 5
    case MergeFlag => 1
    case MergeIdx => 1
    case Mvd => 2
    case MvpIdx => 1
    case RefIdx => 2
    case IntraPredLuma => NumIntraPredLuma
    case IntraPredChroma => 1
    case SubblockCsbfLuma => NumSubblockCsbfLuma
    case SubblockCsbfChroma => 2
    case CoeffSigLuma => NumCoeffSigLuma
    case CoeffSigChroma => 15
    case Greater1Luma => NumGreater1Luma
    case Greater1Chroma => 8
    case Greater2Luma => NumGreater2Luma
    case Greater2Chroma => 2
    case LastPosXLuma | LastPosYLuma => NumLastPosLuma
    case LastPosXChroma | LastPosYChroma => 3
    case TquantBypass => 1
    case DeltaQp => 3
    case SaoMerge => 1
    case SaoTypeIdx => 1
    case TransSubdiv => 3
    case TransformSkip => 2
  }

  /** The chroma array of a shared table. */
  predicate IsChromaHalf(a: CtxArray) {
    a.CuCbfChroma? || a.IntraPredChroma? || a.SubblockCsbfChroma? || a.CoeffSigChroma? ||
    a.Greater1Chroma? || a.Greater2Chroma? || a.LastPosXChroma? || a.LastPosYChroma?
  }

  /** The chroma array initialised from the same table as a luma array. */
  function ChromaOf(a: CtxArray): (c: CtxArray)
    requires IsLumaHalf(a)
    ensures IsChromaHalf(c)
  {
    match a
    case CuCbfLuma => CuCbfChroma
    case IntraPredLuma => IntraPredChroma
    case SubblockCsbfLuma => SubblockCsbfChroma
    case CoeffSigLuma => CoeffSigChroma
    case Greater1Luma => Greater1Chroma
    case Greater2Luma => Greater2Chroma
    case LastPosXLuma => LastPosXChroma
    case LastPosYLuma => LastPosYChroma
  }

  lemma LumaTableShape(a: CtxArray, row: nat)
    requires row < 3 && IsLumaHalf(a)
    ensures |InitTable(a)| == 3
    ensures FirstColumn(a) == 0 && Size(a) < |InitTable(a)[row]|
    ensures FirstColumn(ChromaOf(a)) == Size(a) && InitTable(ChromaOf(a)) == InitTable(a)
  {
  }

  lemma ChromaTableShape(a: CtxArray, row: nat)
    requires row < 3 && IsChromaHalf(a)
    ensures |InitTable(a)| == 3
    ensures FirstColumn(a) + Size(a) == |InitTable(a)[row]|
  {
  }

  lemma SingleTableShape(a: CtxArray, row: nat)
    requires row < 3 && !IsLumaHalf(a) && !IsChromaHalf(a)
    ensures |InitTable(a)| == 3
    ensures FirstColumn(a) == 0 && Size(a) == |InitTable(a)[row]|
  {
  }

  /** Every table has one row per picture type and each array's contexts
      fit in every row of its table: an unshared array takes the whole
      row; of a shared row the luma array takes a proper prefix and the
      chroma array exactly the rest. */
  lemma TableShape(a: CtxArray, row: nat)
    requires row < 3
    ensures |InitTable(a)| == 3
    ensures FirstColumn(a) + Size(a) <= |InitTable(a)[row]|
    ensures !IsLumaHalf(a) ==> FirstColumn(a) + Size(a) == |InitTable(a)[row]|
    ensures IsLumaHalf(a) ==> FirstColumn(a) == 0 && FirstColumn(ChromaOf(a)) == Size(a)
    ensures IsLumaHalf(a) ==> InitTable(ChromaOf(a)) == InitTable(a)
  {
    if IsLumaHalf(a) {
      LumaTableShape(a, row);
    } else if IsChromaHalf(a) {
      ChromaTableShape(a, row);
    } else {
      SingleTableShape(a, row);
    }
  }

  /** The `Init` templates: `count` contexts initialised with `qp` from
      `values`, starting at column `first`. The one-array template takes a
      whole row; the two-array template takes the luma prefix and then the
      chroma rest of a row. */
  function InitSlice(qp: int, values: seq<nat>, first: nat, count: nat): (ctx: seq<CtxInit>)
    requires first + count <= |values|
    ensures |ctx| == count
    ensures forall i :: 0 <= i < count ==> ctx[i] == CtxInit(qp, values[first + i])
  {
    seq(count, i requires 0 <= i < count => CtxInit(qp, values[first + i]))
  }

  /** What `ResetStates` gives array `a`: its contexts from row `row` of
      its table. */
  function ResetValue(a: CtxArray, qp: int, row: nat): (ctx: seq<CtxInit>)
    requires row < 3
    ensures |ctx| == Size(a)
    ensures forall i :: 0 <= i < |ctx| ==> ctx[i].qp == qp
  {
    TableShape(a, row);
    InitSlice(qp, InitTable(a)[row], FirstColumn(a), Size(a))
  }

  /** The luma and the chroma array of a shared table together take every
      entry of the row exactly once, luma first. */
  lemma SharedRowSplit(a: CtxArray, qp: int, row: nat)
    requires row < 3 && IsLumaHalf(a)
    ensures |InitTable(a)[row]| == Size(a) + Size(ChromaOf(a))
    ensures ResetValue(a, qp, row) + ResetValue(ChromaOf(a), qp, row) ==
            seq(|InitTable(a)[row]|, i requires 0 <= i < |InitTable(a)[row]| => CtxInit(qp, InitTable(a)[row][i]))
  {
    TableShape(a, row);
    TableShape(ChromaOf(a), row);
  }

  /** Arrays whose syntax only occurs in inter-predicted pictures. */
  predicate IsInterOnly(a: CtxArray) {
    a.SkipFlag? || a.MergeFlag? || a.MergeIdx? || a.PredMode? || a.InterDir? ||
    a.Mvd? || a.MvpIdx? || a.RefIdx? || a.RootCbf?
  }

  /** In an intra picture every inter-only context, and every part-size
      context but the first, is initialised from `kNotUsed`. */
  lemma IntraRowUnused(a: CtxArray, qp: int)
    requires IsInterOnly(a) || a.PartSize?
    ensures forall i :: 0 <= i < Size(a) && (a.PartSize? ==> i >= 1) ==>
              ResetValue(a, qp, Intra.Row())[i].initValue == 0
  {
    var row := Intra.Row();
    forall i | 0 <= i < Size(a) && (a.PartSize? ==> i >= 1)
      ensures ResetValue(a, qp, row)[i].initValue == 0
    {
      TableShape(a, row);
      assert ResetValue(a, qp, row)[i].initValue == InitTable(a)[row][FirstColumn(a) + i];
    }
  }

  /** The x and y last-position arrays are initialised identically, both
      from `kInitLastPos`. */
  lemma LastPosShared(qp: int, row: nat)
    requires row < 3
    ensures ResetValue(LastPosXLuma, qp, row) == ResetValue(LastPosYLuma, qp, row)
    ensures ResetValue(LastPosXChroma, qp, row) == ResetValue(LastPosYChroma, qp, row)
  {
  }

  /** Position of an array among the `Init` calls of `ResetStates`; the
      six arrays it leaves alone have none. */
  function ResetPosition(a: CtxArray): Option<nat> {
    match a
    case CuCbfLuma => Some(0)
    case CuCbfChroma => Some(1)
    case PartSize => Some(2)
    case PredMode => Some(3)
    case RootCbf => Some(4)
    case SkipFlag => Some(5)
    case SplitFlag => Some(6)
    case InterDir => Some(7)
    case MergeFlag => Some(8)
    case MergeIdx => Some(9)
    case Mvd => Some(10)
    case MvpIdx => Some(11)
    case RefIdx => Some(12)
    case IntraPredLuma => Some(13)
    case IntraPredChroma => Some(14)
    case SubblockCsbfLuma => Some(15)
    case SubblockCsbfChroma => Some(16)
    case CoeffSigLuma => Some(17)
    case CoeffSigChroma => Some(18)
    case Greater1Luma => Some(19)
    case Greater1Chroma => Some(20)
    case Greater2Luma => Some(21)
    case Greater2Chroma => Some(22)
    case LastPosXLuma => Some(23)
    case LastPosXChroma => Some(24)
    case LastPosYLuma => Some(25)
    case LastPosYChroma => Some(26)
    case TquantBypass | DeltaQp | SaoMerge | SaoTypeIdx | TransSubdiv | TransformSkip => None
  }

  const NumResetArrays: nat := 27

  /** The arrays `ResetStates` initialises. */
  predicate IsReset(a: CtxArray) {
    ResetPosition(a).Some?
  }

  /** The array of the `k`-th `Init` call of `ResetStates`. */
  function ResetArrayAt(k: nat): (a: CtxArray)
    requires k < NumResetArrays
    ensures ResetPosition(a) == Some(k)
  {
    if k == 0 then CuCbfLuma
    else if k == 1 then CuCbfChroma
    else if k == 2 then PartSize
    else if k == 3 then PredMode
    else if k == 4 then RootCbf
    else if k == 5 then SkipFlag
    else if k == 6 then SplitFlag
    else if k == 7 then InterDir
    else if k == 8 then MergeFlag
    else if k == 9 then MergeIdx
    else if k == 10 then Mvd
    else if k == 11 then MvpIdx
    else if k == 12 then RefIdx
    else if k == 13 then IntraPredLuma
    else if k == 14 then IntraPredChroma
    else if k == 15 then SubblockCsbfLuma
    else if k == 16 then SubblockCsbfChroma
    else if k == 17 then CoeffSigLuma
    else if k == 18 then CoeffSigChroma
    else if k == 19 then Greater1Luma
    else if k == 20 then Greater1Chroma
    else if k == 21 then Greater2Luma
    else if k == 22 then Greater2Chroma
    else if k == 23 then LastPosXLuma
    else if k == 24 then LastPosXChroma
    else if k == 25 then LastPosYLuma
    else LastPosYChroma
  }

  /** Every initialised array is the array of exactly one `Init` call. */
  lemma ResetArrayAtInverse(a: CtxArray)
    requires IsReset(a)
    ensures ResetPosition(a).value < NumResetArrays && ResetArrayAt(ResetPosition(a).value) == a
  {
  }

  /** Six arrays have tables but are left alone by `ResetStates`. */
  lemma UntouchedArrays(a: CtxArray)
    ensures !IsReset(a) <==>
            (a.TquantBypass? || a.DeltaQp? || a.SaoMerge? || a.SaoTypeIdx? || a.TransSubdiv? || a.TransformSkip?)
  {
  }

  /** One `Init` call per initialised array, in the order of
      `ResetStates`, each array receiving `value(a)`. */
  method InitArrays(ctxs: Contexts, value: CtxArray -> seq<CtxInit>) returns (r: Contexts)
    ensures forall a :: IsReset(a) ==> a in r && r[a] == value(a)
    ensures forall a :: !IsReset(a) ==> (a in r <==> a in ctxs) && (a in ctxs ==> r[a] == ctxs[a])
  {
    r := ctxs;
    var k := 0;
    while k < NumResetArrays
      invariant 0 <= k <= NumResetArrays
      invariant forall a :: IsReset(a) && ResetPosition(a).value < k ==> a in r && r[a] == value(a)
      invariant forall a :: (!IsReset(a) || ResetPosition(a).value >= k) ==>
                  (a in r <==> a in ctxs) && (a in ctxs ==> r[a] == ctxs[a])
    {
      var a := ResetArrayAt(k);
      forall b | IsReset(b) && ResetPosition(b).value == k
        ensures b == a
      {
        ResetArrayAtInverse(b);
      }
      r := r[a := value(a)];
      k := k + 1;
    }
    forall a | IsReset(a)
      ensures ResetPosition(a).value < NumResetArrays
    {
      ResetArrayAtInverse(a);
    }
  }

  /** `CabacContexts::ResetStates`: every array except the six untouched
      ones is initialised with the luma raw QP from the row of its table
      that the picture type selects; the untouched arrays keep whatever
      they held. */
  method ResetStates(ctxs: Contexts, qp: Quantize.Qp, picType: PicturePredictionType)
    returns (r: Contexts)
    requires |qp.raw| == 3
    ensures forall a :: IsReset(a) ==> a in r && r[a] == ResetValue(a, qp.raw[0], picType.Row())
    ensures forall a :: !IsReset(a) ==> (a in r <==> a in ctxs) && (a in ctxs ==> r[a] == ctxs[a])
  {
    var q := qp.raw[0];
    var s := picType.Row();
    r := InitArrays(ctxs, a => ResetValue(a, q, s));
  }

  // ---------------------------------------------------------------------
  // Context selection for residual coding

  lemma RowMajorInBounds(x: nat, y: nat, width: nat, height: nat)
    requires x < width && y < height
    ensures y * width + x < width * height
  {
    assert (height - 1 - y) * width >= 0;
    assert height * width == (height - 1 - y) * width + y * width + width;
  }

  /** Subblock (x, y) lies inside the `width x height` grid of subblocks
      and its coded-subblock flag is set. */
  predicate SubblockCoded(csbf: seq<int>, x: nat, y: nat, width: nat, height: nat)
    requires width * height <= |csbf|
  {
    if x < width && y < height then
      RowMajorInBounds(x, y, width, height);
      csbf[y * width + x] != 0
    else false
  }

  /** The context of a coded-subblock flag together with the neighbour
      pattern that `GetSubblockCsbfCtx` passes back through its pointer
      argument. */
  datatype CsbfCtx = CsbfCtx(ctx: CtxRef, patternSigCtx: nat)

  /** `GetSubblockCsbfCtx`: the context of a coded-subblock flag and the
      neighbour pattern the significance contexts of the subblock use. Bit
      0 of the pattern is the right neighbour's flag, bit 1 the lower
      neighbour's; a neighbour outside the grid counts as not coded. The
      context is 1 when either neighbour is coded. */
  function GetSubblockCsbfCtx(comp: YuvComponent, csbf: seq<int>, posx: nat, posy: nat,
                              width: nat, height: nat, r: R.Restrictions)
    : (res: CsbfCtx)
    requires posx < width && posy < height && width * height <= |csbf|
    ensures res.ctx.ctxArray == (if comp.IsLuma() then SubblockCsbfLuma else SubblockCsbfChroma)
    ensures res.patternSigCtx <= 3
    ensures res.patternSigCtx % 2 == 1 <==> SubblockCoded(csbf, posx + 1, posy, width, height)
    ensures res.patternSigCtx / 2 == 1 <==> SubblockCoded(csbf, posx, posy + 1, width, height)
    ensures R.DisableCabacSubblockCsbfCtx(r) ==> res.ctx.index == 0
    ensures !R.DisableCabacSubblockCsbfCtx(r) ==> (res.ctx.index == 1 <==> res.patternSigCtx != 0) && res.ctx.index <= 1
  {
    var ctxArray := if comp.IsLuma() then SubblockCsbfLuma else SubblockCsbfChroma;
    var right :=
      if posx < width - 1 then
        RowMajorInBounds(posx + 1, posy, width, height);
        csbf[posy * width + posx + 1] != 0
      else false;
    var below :=
      if posy < height - 1 then
        RowMajorInBounds(posx, posy + 1, width, height);
        csbf[(posy + 1) * width + posx] != 0
      else false;
    var pattern := (if right then 1 else 0) + (if below then 2 else 0);
    if R.DisableCabacSubblockCsbfCtx(r) then CsbfCtx(CtxRef(ctxArray, 0), pattern)
    else CsbfCtx(CtxRef(ctxArray, if right || below then 1 else 0), pattern)
  }

  /** `kCtxIndexMap`: significance context of each position of a 4x4
      block, in raster order. */
  const CtxIndexMap: seq<nat> := [0, 1, 4, 5, 2, 3, 4, 5, 6, 6, 8, 8, 7, 7, 8, 8]

  /** First significance context of a block larger than 4x4, before the
      luma offset for positions outside the first subblock. */
  function SigOffset(log2size: nat, scan: ScanOrder, isLuma: bool): nat {
    if log2size == 3 then (if scan == Diagonal then 9 else 15)
    else if isLuma then 21 else 12
  }

  /** `cnt`: how likely a position inside its 4x4 subset is significant,
      from the neighbour pattern of the subset: 2 near the pattern's coded
      neighbours, fewer further away. `x` and `y` are the position within
      the subset. */
  function SigCount(pattern: int, x: nat, y: nat): (cnt: nat)
    ensures cnt <= 2
    ensures pattern != 0 && pattern != 1 && pattern != 2 ==> cnt == 2
  {
    if pattern == 0 then (if x + y <= 2 then (if x + y == 0 then 2 else 1) else 0)
    else if pattern == 1 then (if y <= 1 then (if y == 0 then 2 else 1) else 0)
    else if pattern == 2 then (if x <= 1 then (if x == 0 then 2 else 1) else 0)
    else 2
  }

  /** The subset origin always gets the largest count, and the count
      never increases moving right or down within the subset. */
  lemma SigCountMonotone(pattern: int, x1: nat, y1: nat, x2: nat, y2: nat)
    requires x1 <= x2 && y1 <= y2
    ensures SigCount(pattern, x1, y1) >= SigCount(pattern, x2, y2)
    ensures SigCount(pattern, 0, 0) == 2
  {
  }

  /** `GetCoeffSigCtx`: the context of a significant-coefficient flag at
      (`posx`, `posy`) of a `2^log2size` block. The DC position, and every
      position when the restriction is set, uses context 0; a 4x4 block
      reads `kCtxIndexMap`; a larger block adds the subset count to an
      offset chosen by block size and scan, plus 3 for luma positions
      outside the first 4x4 subset. */
  function GetCoeffSigCtx(comp: YuvComponent, patternSigCtx: int, scan: ScanOrder,
                          posx: nat, posy: nat, log2size: nat, r: R.Restrictions): (c: CtxRef)
    requires log2size == 2 ==> posx < 4 && posy < 4
    ensures c.ctxArray == (if comp.IsLuma() then CoeffSigLuma else CoeffSigChroma)
    ensures (posx == 0 && posy == 0) || R.DisableCabacCoeffSigCtx(r) ==> c.index == 0
    ensures !(posx == 0 && posy == 0) && !R.DisableCabacCoeffSigCtx(r) && log2size == 2 ==>
              c.index == CtxIndexMap[4 * posy + posx] && 1 <= c.index <= 8
    ensures !(posx == 0 && posy == 0) && !R.DisableCabacCoeffSigCtx(r) && log2size != 2 ==>
              var outside := comp.IsLuma() && (posx >= 4 || posy >= 4);
              c.index == SigOffset(log2size, scan, comp.IsLuma()) + (if outside then 3 else 0) +
                         SigCount(patternSigCtx, posx % 4, posy % 4)
  {
    var ctxArray := if comp.IsLuma() then CoeffSigLuma else CoeffSigChroma;
    if (posx == 0 && posy == 0) || R.DisableCabacCoeffSigCtx(r) then CtxRef(ctxArray, 0)
    else if log2size == 2 then CtxRef(ctxArray, CtxIndexMap[4 * posy + posx])
    else
      var offset := SigOffset(log2size, scan, comp.IsLuma());
      var posXInSubset := posx - (posx / 4) * 4;
      var posYInSubset := posy - (posy / 4) * 4;
      var cnt := SigCount(patternSigCtx, posXInSubset, posYInSubset);
      var compOffset := if comp.IsLuma() && posx / 4 + posy / 4 > 0 then 3 else 0;
      CtxRef(ctxArray, compOffset + offset + cnt)
  }

  /** The significance contexts of each block class occupy their own
      range: 4x4 blocks 1-8, 8x8 blocks with the diagonal scan from 9,
      other 8x8 blocks from 15, larger blocks from 21 (luma) or 12
      (chroma); each range is 6 wide for luma and 3 wide for chroma. */
  lemma SigCtxRanges(comp: YuvComponent, patternSigCtx: int, scan: ScanOrder,
                     posx: nat, posy: nat, log2size: nat, r: R.Restrictions)
    requires log2size == 2 ==> posx < 4 && posy < 4
    requires !(posx == 0 && posy == 0) && !R.DisableCabacCoeffSigCtx(r)
    ensures var c := GetCoeffSigCtx(comp, patternSigCtx, scan, posx, posy, log2size, r);
            var base := SigOffset(log2size, scan, comp.IsLuma());
            && (log2size == 2 ==> 1 <= c.index <= 8)
            && (log2size != 2 && comp.IsLuma() ==> base <= c.index <= base + 5)
            && (log2size != 2 && !comp.IsLuma() ==> base <= c.index <= base + 2)
            && (log2size != 2 && comp.IsLuma() ==> (c.index >= base + 3 <==> (posx >= 4 || posy >= 4)))
  {
  }

  /** Every significance context lies inside its array, except that a
      chroma 8x8 block with a non-diagonal scan would reach past the 15
      chroma contexts; such blocks must not occur. */
  lemma SigCtxFits(comp: YuvComponent, patternSigCtx: int, scan: ScanOrder,
                   posx: nat, posy: nat, log2size: nat, r: R.Restrictions)
    requires log2size == 2 ==> posx < 4 && posy < 4
    requires !comp.IsLuma() && log2size == 3 ==> scan == Diagonal
    ensures var c := GetCoeffSigCtx(comp, patternSigCtx, scan, posx, posy, log2size, r);
            c.index < Size(c.ctxArray)
  {
  }

  /** `GetCoeffGreaterThan1Ctx`: context `4 * ctx_set + c1`, or 0 when
      restricted. For `c1 < 4` the context encodes the pair exactly. */
  function GetCoeffGreater1Ctx(comp: YuvComponent, ctxSet: nat, c1: nat, r: R.Restrictions): (c: CtxRef)
    ensures c.ctxArray == (if comp.IsLuma() then Greater1Luma else Greater1Chroma)
    ensures R.DisableCabacCoeffGreater1Ctx(r) ==> c.index == 0
    ensures !R.DisableCabacCoeffGreater1Ctx(r) && c1 < 4 ==> c.index / 4 == ctxSet && c.index % 4 == c1
  {
    var ctxArray := if comp.IsLuma() then Greater1Luma else Greater1Chroma;
    if R.DisableCabacCoeffGreater1Ctx(r) then CtxRef(ctxArray, 0) else CtxRef(ctxArray, 4 * ctxSet + c1)
  }

  /** `GetCoeffGreaterThan2Ctx`: context `ctx_set`, or 0 when restricted. */
  function GetCoeffGreater2Ctx(comp: YuvComponent, ctxSet: nat, r: R.Restrictions): (c: CtxRef)
    ensures c.ctxArray == (if comp.IsLuma() then Greater2Luma else Greater2Chroma)
    ensures c.index == (if R.DisableCabacCoeffGreater2Ctx(r) then 0 else ctxSet)
  {
    var ctxArray := if comp.IsLuma() then Greater2Luma else Greater2Chroma;
    if R.DisableCabacCoeffGreater2Ctx(r) then CtxRef(ctxArray, 0) else CtxRef(ctxArray, ctxSet)
  }

  /** With four context sets for luma and two for chroma and `c1 < 4`, the
      greater-than-1 and greater-than-2 contexts lie inside their arrays. */
  lemma GreaterCtxFits(comp: YuvComponent, ctxSet: nat, c1: nat, r: R.Restrictions)
    requires ctxSet < (if comp.IsLuma() then 4 else 2) && c1 < 4
    ensures var c := GetCoeffGreater1Ctx(comp, ctxSet, c1, r); c.index < Size(c.ctxArray)
    ensures var c := GetCoeffGreater2Ctx(comp, ctxSet, r); c.index < Size(c.ctxArray)
  {
  }

  /** `util::SizeLog2Bits`: the log2 of a block size relative to the
      smallest (4x4) block. */
  function SizeLog2Bits(size: nat): nat
    requires size >= 4
  {
    Log2AtLeastTwo(size);
    Log2(size) - 2
  }

  /** `ctxInc` of bin `binIdx` of `last_sig_coeff_x_prefix` or
      `last_sig_coeff_y_prefix`, section 9.3.4.2.3 of ITU-T H.265: the
      luma contexts come first and the chroma contexts start at 15. */
  function LastSigCoeffPrefixCtxInc(isLuma: bool, log2TrafoSize: nat, binIdx: nat): nat
    requires log2TrafoSize >= 2
  {
    var ctxOffset := if isLuma then 3 * (log2TrafoSize - 2) + (log2TrafoSize - 1) / 4 else 15;
    var ctxShift := if isLuma then (log2TrafoSize + 1) / 4 else log2TrafoSize - 2;
    ctxOffset + binIdx / Pow2(ctxShift)
  }

  /** `GetCoeffLastPosCtx`: context of bin `pos` of a last-position prefix.
      Luma uses an offset and a shift that grow with the block width;
      chroma uses no offset and shifts by the width's size class. Its
      column in the shared `kInitLastPos` row is the H.265 `ctxInc` for
      the width; the height is not used (`LastPosCtxIgnoresHeight`). */
  function GetCoeffLastPosCtx(comp: YuvComponent, width: nat, height: nat, pos: nat, isPosX: bool,
                              r: R.Restrictions): (c: CtxRef)
    requires width >= 4
    ensures c.ctxArray == (if comp.IsLuma() then (if isPosX then LastPosXLuma else LastPosYLuma)
                        else (if isPosX then LastPosXChroma else LastPosYChroma))
    ensures R.DisableCabacCoeffLastPosCtx(r) ==> c.index == 0
    ensures !R.DisableCabacCoeffLastPosCtx(r) ==>
      FirstColumn(c.ctxArray) + c.index == LastSigCoeffPrefixCtxInc(comp.IsLuma(), Log2(width), pos)
  {
    var l := SizeLog2Bits(width);
    if comp.IsLuma() then
      var ctxArray := if isPosX then LastPosXLuma else LastPosYLuma;
      if R.DisableCabacCoeffLastPosCtx(r) then CtxRef(ctxArray, 0)
      else
        var offset := l * 3 + (l + 1) / 4;
        var shift := (l + 3) / 4;
        CtxRef(ctxArray, offset + Shr(pos, shift))
    else
      var ctxArray := if isPosX then LastPosXChroma else LastPosYChroma;
      if R.DisableCabacCoeffLastPosCtx(r) then CtxRef(ctxArray, 0)
      else CtxRef(ctxArray, 0 + Shr(pos, l))
  }

  /** The context does not depend on the block height. */
  lemma LastPosCtxIgnoresHeight(comp: YuvComponent, width: nat, h1: nat, h2: nat, pos: nat, isPosX: bool,
                                r: R.Restrictions)
    requires width >= 4
    ensures GetCoeffLastPosCtx(comp, width, h1, pos, isPosX, r) == GetCoeffLastPosCtx(comp, width, h2, pos, isPosX, r)
  {
  }

  /** Width 64, which the encoder allows unless
      `disable_ext_transform_size_64` is set: the luma offset is 13 and the
      shift 1, so the prefix bins 4 to 10 select luma contexts 15 to 18,
      past the 15 luma contexts of the assumed split; bin 10 selects index
      18, past even the whole 18-column `kInitLastPos` row. */
  lemma LastPosWidth64(comp: YuvComponent, height: nat, pos: nat, isPosX: bool, r: R.Restrictions)
    requires comp.IsLuma() && !R.DisableCabacCoeffLastPosCtx(r) && pos <= 2 * 6 - 2
    ensures var c := GetCoeffLastPosCtx(comp, 64, height, pos, isPosX, r);
            && c.index == 13 + pos / 2
            && (c.index < Size(c.ctxArray) <==> pos <= 3)
            && (pos == 10 ==> c.index == |InitLastPos[0]|)
  {
  }

  /** First and last luma last-position context of each block width class
      (4, 8, 16, 32): the classes take consecutive, disjoint ranges that
      together cover all 15 luma contexts. */
  const LastPosLumaFirst: seq<nat> := [0, 3, 6, 10]
  const LastPosLumaLast: seq<nat> := [2, 5, 9, 14]

  /** For widths 4 to 32 and every bin a last-position prefix can have
      (at most `2 * log2(width) - 2`), the luma context stays inside its
      width's range and the chroma context is one of the three chroma
      contexts. */
  lemma LastPosCtxRange(comp: YuvComponent, width: nat, height: nat, pos: nat, isPosX: bool,
                        r: R.Restrictions)
    requires 4 <= width <= 32 && pos <= 2 * Log2(width) - 2
    requires !R.DisableCabacCoeffLastPosCtx(r)
    ensures var c := GetCoeffLastPosCtx(comp, width, height, pos, isPosX, r);
            var l := SizeLog2Bits(width);
            && l < 4
            && (comp.IsLuma() ==> LastPosLumaFirst[l] <= c.index <= LastPosLumaLast[l])
            && (comp.IsLuma() && pos == 0 ==> c.index == LastPosLumaFirst[l])
            && (!comp.IsLuma() ==> c.index <= 2)
            && c.index < Size(c.ctxArray)
  {
    Log2AtLeastTwo(width);
    Pow2Values();
    Log2Below(width, 6);
    var l := SizeLog2Bits(width);
    var c := GetCoeffLastPosCtx(comp, width, height, pos, isPosX, r);
    if comp.IsLuma() {
      assert c.index == l * 3 + (l + 1) / 4 + pos / Pow2((l + 3) / 4);
      LumaLastPosClass(l, pos);
    } else {
      assert c.index == pos / Pow2(l);
      ChromaLastPosClass(l, pos);
    }
  }

  lemma Pow2Values()
    ensures Pow2(0) == 1 && Pow2(1) == 2 && Pow2(2) == 4 && Pow2(3) == 8
    ensures Pow2(4) == 16 && Pow2(5) == 32 && Pow2(6) == 64
  {
  }

  lemma LumaLastPosClass(l: nat, pos: nat)
    requires l < 4 && pos <= 2 * l + 2
    ensures var index := l * 3 + (l + 1) / 4 + pos / Pow2((l + 3) / 4);
            LastPosLumaFirst[l] <= index <= LastPosLumaLast[l] &&
            (pos == 0 ==> index == LastPosLumaFirst[l])
  {
    Pow2Values();
    if l == 0 {
      assert (l + 3) / 4 == 0;
    } else {
      assert (l + 3) / 4 == 1;
    }
  }

  lemma ChromaLastPosClass(l: nat, pos: nat)
    requires l < 4 && pos <= 2 * l + 2
    ensures pos / Pow2(l) <= 2
  {
    Pow2Values();
  }

  /** The width classes tile the luma contexts. */
  lemma LastPosLumaRangesTile()
    ensures LastPosLumaFirst[0] == 0 && LastPosLumaLast[3] == NumLastPosLuma - 1
    ensures forall l :: 0 <= l < 3 ==> LastPosLumaLast[l] + 1 == LastPosLumaFirst[l + 1]
    ensures forall l :: 0 <= l < 4 ==> LastPosLumaFirst[l] <= LastPosLumaLast[l]
  {
  }
}
