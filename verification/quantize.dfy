/** The integer part of the quantiser (quantize.cc): the chroma QP mapping,
    the bit-depth QP offset, the forward and inverse scale tables and the
    per-sample scalar quantisation and dequantisation over a 2-D block.

    Coefficient buffers with a stride are modelled as a sequence of rows;
    only the top-left `width x height` region is read or written. Products
    such as `level * scale` are mathematical integers: the source's 32-bit
    arithmetic is assumed not to overflow. */
module Quantize {
  import opened Common

  const ChromaQpMax: nat := 57
  const NumScalingListRem: nat := 6

  /** `kChromaScale_`: chroma QP as a function of the clipped luma-derived
      QP, for 4:2:0 content. */
  const ChromaScale: seq<nat> :=
    [0, 1, 2, 3, 4, 5, 6, 7] + [8, 9, 10, 11, 12, 13, 14, 15] +
    [16, 17, 18, 19, 20, 21, 22, 23] + [24, 25, 26, 27, 28, 29, 29, 30] +
    [31, 32, 33, 33, 34, 34, 35, 35] + [36, 36, 37, 37, 38, 39, 40, 41] +
    [42, 43, 44, 45, 46, 47, 48, 49] + [50, 51]

  /** `kFwdQuantScales_` and `kInvQuantScales_`, indexed by `qp % 6`. */
  const FwdQuantScales: seq<nat> := [26214, 23302, 20560, 18396, 16384, 14564]
  const InvQuantScales: seq<nat> := [40, 45, 51, 57, 64, 72]

  /** The QpC mapping of ITU-T H.265 Table 8-10, written piecewise: identity
      below 30, one less up to 33, half-rate from 34 to 43, and six less
      above 43. */
  function QpcReference(qpi: nat): nat {
    if qpi < 30 then qpi
    else if qpi <= 33 then qpi - 1
    else if qpi <= 43 then 33 + (qpi - 34) / 2
    else qpi - 6
  }

  /** The chroma scale table has `kChromaQpMax_ + 1` entries, agrees with
      H.265's QpC mapping, is non-decreasing, never exceeds its index, and
      tops out at 51. */
  lemma ChromaScaleLow()
    ensures |ChromaScale| == ChromaQpMax + 1
    ensures forall i :: 0 <= i < 30 ==> ChromaScale[i] == QpcReference(i)
  {
  }

  lemma ChromaScaleHigh()
    ensures |ChromaScale| == ChromaQpMax + 1
    ensures forall i :: 30 <= i < |ChromaScale| ==> ChromaScale[i] == QpcReference(i)
  {
  }

  lemma ChromaScaleShape()
    ensures |ChromaScale| == ChromaQpMax + 1
    ensures forall i :: 0 <= i < |ChromaScale| ==> ChromaScale[i] == QpcReference(i)
  {
    ChromaScaleLow();
    ChromaScaleHigh();
  }

  /** Consequences of the agreement with H.265: the table never decreases,
      never exceeds its index, and tops out at 51. */
  lemma ChromaScaleOrder()
    ensures forall i :: 0 <= i < |ChromaScale| - 1 ==> ChromaScale[i] <= ChromaScale[i + 1]
    ensures forall i :: 0 <= i < |ChromaScale| ==> ChromaScale[i] <= i && ChromaScale[i] <= 51
    ensures ChromaScale[ChromaQpMax] == 51
  {
    ChromaScaleShape();
  }

  /** `QP::GetChromaQP`: the QP clipped to [0, 57], mapped through the
      chroma scale table only for 4:2:0. The bit depth is not used. */
  function GetChromaQp(qp: int, format: ChromaFormat, bitdepth: int): (r: int)
    ensures 0 <= r <= ChromaQpMax
    ensures format != C420 ==> r == Clip3(qp, 0, ChromaQpMax)
    ensures format == C420 ==> r == QpcReference(Clip3(qp, 0, ChromaQpMax))
    ensures format == C420 ==> r <= 51 && r <= Clip3(qp, 0, ChromaQpMax)
  {
    ChromaScaleShape();
    var chromaQp := Clip3(qp, 0, ChromaQpMax);
    if format == C420 then ChromaScale[chromaQp] else chromaQp
  }

  /** The chroma QP never decreases when the QP increases. */
  lemma GetChromaQpMonotone(qp1: int, qp2: int, format: ChromaFormat, bitdepth: int)
    requires qp1 <= qp2
    ensures GetChromaQp(qp1, format, bitdepth) <= GetChromaQp(qp2, format, bitdepth)
  {
    var c1 := Clip3(qp1, 0, ChromaQpMax);
    var c2 := Clip3(qp2, 0, ChromaQpMax);
    assert c1 <= c2;
  }

  /** Integer part of a `QP` object: the raw and the bit-depth adjusted QP
      of each component (index 0 luma, 1 and 2 chroma). */
  datatype Qp = Qp(raw: seq<int>, bitdepthQp: seq<int>)

  /** The integer part of the `QP` constructor. */
  function MakeQp(qp: int, format: ChromaFormat, bitdepth: int, chromaOffset: int): (r: Qp)
    ensures |r.raw| == 3 && |r.bitdepthQp| == 3
    ensures r.raw[0] == qp
    ensures r.raw[1] == r.raw[2] == GetChromaQp(qp + chromaOffset, format, bitdepth)
    ensures forall c :: 0 <= c < 3 ==> r.bitdepthQp[c] == r.raw[c] + 6 * (bitdepth - 8)
  {
    var chroma := GetChromaQp(qp + chromaOffset, format, bitdepth);
    var raw := [qp, chroma, chroma];
    Qp(raw, seq(3, c requires 0 <= c < 3 => raw[c] + NumScalingListRem * (bitdepth - 8)))
  }

  /** Every forward scale times its inverse scale is 2^20 (1048576) to
      within 64, so dequantisation undoes quantisation up to rounding. */
  lemma ScalesAreInverse()
    ensures |FwdQuantScales| == NumScalingListRem && |InvQuantScales| == NumScalingListRem
    ensures forall i :: 0 <= i < NumScalingListRem ==>
              1048576 - 64 <= FwdQuantScales[i] * InvQuantScales[i] <= 1048576 + 64
  {
  }

  // ---------------------------------------------------------------------
  // Per-sample quantisation

  function Abs(x: int): nat {
    if x < 0 then -x else x
  }

  /** `magnitude * sign` with the source's sign convention: negative only
      for a negative coefficient. */
  function Signed(coeff: int, magnitude: int): int {
    if coeff < 0 then -magnitude else magnitude
  }

  /** Unclipped magnitude of the quantised level: `(|coeff| * scale +
      offset) >> shift`. */
  function Magnitude(coeff: int, scale: nat, offset: int, shift: nat): int {
    Shr(Abs(coeff) * scale + offset, shift)
  }

  /** One sample of `Quantize::Forward`: the magnitude gets the sign of the
      input (a zero input counts as positive) and is clipped to int16. */
  function Level(coeff: int, scale: nat, offset: int, shift: nat): (r: int)
    ensures Int16Min <= r <= Int16Max
    ensures var unclipped := Signed(coeff, Magnitude(coeff, scale, offset, shift));
            Int16Min <= unclipped <= Int16Max ==> r == unclipped
  {
    Clip3(Signed(coeff, Magnitude(coeff, scale, offset, shift)), Int16Min, Int16Max)
  }

  lemma DivBounds(a: int, d: int)
    requires d > 0
    ensures (a / d) * d <= a < (a / d + 1) * d
  {
  }

  lemma MulMonotone(d: nat, x: int, y: int)
    requires x <= y
    ensures d * x <= d * y && x * d <= y * d
  {
    assert d * y - d * x == d * (y - x);
  }

  lemma DivSmall(a: int, d: int)
    requires 0 <= a < d
    ensures a / d == 0
  {
    DivBounds(a, d);
    if a / d >= 1 {
      MulMonotone(d, 1, a / d);
    } else if a / d <= -1 {
      MulMonotone(d, a / d + 1, 0);
    }
  }

  lemma DivMonotone(a: int, b: int, d: int)
    requires d > 0 && a <= b
    ensures a / d <= b / d
  {
    DivBounds(a, d);
    DivBounds(b, d);
    if a / d > b / d {
      MulMonotone(d, b / d + 1, a / d);
    }
  }

  lemma ShrMonotone(a: int, b: int, n: nat)
    requires a <= b
    ensures Shr(a, n) <= Shr(b, n)
  {
    DivMonotone(a, b, Pow2(n));
  }

  /** The magnitude is the rounded-down quotient it stands for. */
  lemma MagnitudeIsQuotient(coeff: int, scale: nat, offset: int, shift: nat)
    ensures var m := Magnitude(coeff, scale, offset, shift);
            m * Pow2(shift) <= Abs(coeff) * scale + offset < (m + 1) * Pow2(shift)
  {
    DivBounds(Abs(coeff) * scale + offset, Pow2(shift));
  }

  /** With a non-negative rounding offset the output never has the
      opposite sign of the input. */
  lemma LevelSign(coeff: int, scale: nat, offset: int, shift: nat)
    requires offset >= 0
    ensures coeff < 0 ==> Level(coeff, scale, offset, shift) <= 0
    ensures coeff >= 0 ==> Level(coeff, scale, offset, shift) >= 0
  {
    MulMonotone(scale, 0, Abs(coeff));
    ShrMonotone(0, Abs(coeff) * scale + offset, shift);
  }

  /** A zero input gives a zero output when the offset is below one step. */
  lemma LevelZero(scale: nat, offset: int, shift: nat)
    requires 0 <= offset < Pow2(shift)
    ensures Level(0, scale, offset, shift) == 0
  {
    assert Abs(0) * scale == 0;
    DivSmall(offset, Pow2(shift));
  }

  /** The output magnitude grows with the input magnitude. The one
      exception is a negative `a` with a non-negative `b`: there the int16
      clip can leave `a` with the larger magnitude (`LevelClipAsymmetry`). */
  lemma LevelMonotone(a: int, b: int, scale: nat, offset: int, shift: nat)
    requires offset >= 0
    requires Abs(a) <= Abs(b) && !(a < 0 <= b)
    ensures Abs(Level(a, scale, offset, shift)) <= Abs(Level(b, scale, offset, shift))
  {
    MulMonotone(scale, 0, Abs(a));
    MulMonotone(scale, Abs(a), Abs(b));
    ShrMonotone(0, Abs(a) * scale + offset, shift);
    ShrMonotone(Abs(a) * scale + offset, Abs(b) * scale + offset, shift);
  }

  /** Negating a non-zero input negates the output as long as the
      magnitude fits in int16: the magnitude is computed from `|coeff|`
      and the sign is put back afterwards. */
  lemma LevelOdd(x: int, scale: nat, offset: int, shift: nat)
    requires x != 0
    requires 0 <= Magnitude(x, scale, offset, shift) <= Int16Max
    ensures Level(-x, scale, offset, shift) == -Level(x, scale, offset, shift)
  {
    assert Abs(-x) == Abs(x);
  }

  /** The int16 range is not symmetric, so a magnitude of 32768 stays
      32768 for a negative input but is clipped to 32767 for a positive
      one: here `Level(-1) != -Level(1)`. */
  lemma LevelClipAsymmetry()
    ensures Level(1, 32768, 0, 0) == Int16Max
    ensures Level(-1, 32768, 0, 0) == Int16Min
    ensures Level(-1, 32768, 0, 0) != -Level(1, 32768, 0, 0)
  {
    assert Pow2(0) == 1;
  }

  // ---------------------------------------------------------------------
  // Block operations

  /** `rows` holds a `width x height` region at its top left. */
  predicate HasRegion(rows: seq<seq<int>>, width: nat, height: nat) {
    height <= |rows| && forall y :: 0 <= y < height ==> width <= |rows[y]|
  }

  /** Same shape: as many rows, each as long. */
  predicate SameShape(a: seq<seq<int>>, b: seq<seq<int>>) {
    |a| == |b| && forall y :: 0 <= y < |a| ==> |a[y]| == |b[y]|
  }

  /** Every sample outside the `width x height` region is as in `before`. */
  predicate OutsideUnchanged(after: seq<seq<int>>, before: seq<seq<int>>, width: nat, height: nat)
    requires SameShape(after, before)
  {
    forall y, x :: 0 <= y < |before| && 0 <= x < |before[y]| && (y >= height || x >= width) ==>
      after[y][x] == before[y][x]
  }

  /** Number of non-zero samples among the first `width` of a row. */
  function RowNonZero(row: seq<int>, width: nat): (n: nat)
    requires width <= |row|
    ensures n <= width
  {
    if width == 0 then 0 else RowNonZero(row, width - 1) + (if row[width - 1] != 0 then 1 else 0)
  }

  /** Number of non-zero samples in the `width x height` region. */
  function CountNonZero(rows: seq<seq<int>>, width: nat, height: nat): nat
    requires HasRegion(rows, width, height)
  {
    if height == 0 then 0 else CountNonZero(rows, width, height - 1) + RowNonZero(rows[height - 1], width)
  }

  /** Number of samples of a row that quantise to a non-zero level. */
  function RowLevels(row: seq<int>, width: nat, scale: nat, offset: int, shift: nat): nat
    requires width <= |row|
  {
    if width == 0 then 0
    else RowLevels(row, width - 1, scale, offset, shift) +
         (if Level(row[width - 1], scale, offset, shift) != 0 then 1 else 0)
  }

  function GridLevels(rows: seq<seq<int>>, width: nat, height: nat, scale: nat, offset: int, shift: nat): nat
    requires HasRegion(rows, width, height)
  {
    if height == 0 then 0
    else GridLevels(rows, width, height - 1, scale, offset, shift) +
         RowLevels(rows[height - 1], width, scale, offset, shift)
  }

  lemma {:induction false} RowLevelsCount(row: seq<int>, out: seq<int>, width: nat, scale: nat, offset: int, shift: nat)
    requires width <= |row| && width <= |out|
    requires forall x :: 0 <= x < width ==> out[x] == Level(row[x], scale, offset, shift)
    ensures RowNonZero(out, width) == RowLevels(row, width, scale, offset, shift)
  {
    if width > 0 {
      RowLevelsCount(row, out, width - 1, scale, offset, shift);
    }
  }

  lemma {:induction false} GridLevelsCount(rows: seq<seq<int>>, out: seq<seq<int>>, width: nat, height: nat,
                                            scale: nat, offset: int, shift: nat)
    requires HasRegion(rows, width, height) && HasRegion(out, width, height)
    requires forall y, x :: 0 <= y < height && 0 <= x < width ==>
               out[y][x] == Level(rows[y][x], scale, offset, shift)
    ensures CountNonZero(out, width, height) == GridLevels(rows, width, height, scale, offset, shift)
  {
    if height > 0 {
      GridLevelsCount(rows, out, width, height - 1, scale, offset, shift);
      RowLevelsCount(rows[height - 1], out[height - 1], width, scale, offset, shift);
    }
  }

  /** `Quantize::Forward`: quantises the `width x height` region of
      `input` into `output`, leaving the rest of `output` as it was, and
      returns how many of the written samples are non-zero. `scale` is the
      forward scale the caller's `QP` selects for the component. */
  method Forward(scale: nat, shift: nat, offset: int, width: nat, height: nat,
                 input: seq<seq<int>>, output: seq<seq<int>>)
    returns (result: seq<seq<int>>, numNonZero: nat)
    requires HasRegion(input, width, height) && HasRegion(output, width, height)
    ensures SameShape(result, output)
    ensures forall y, x :: 0 <= y < height && 0 <= x < width ==>
              result[y][x] == Level(input[y][x], scale, offset, shift)
    ensures forall y, x :: 0 <= y < height && 0 <= x < width ==>
              Int16Min <= result[y][x] <= Int16Max
    ensures OutsideUnchanged(result, output, width, height)
    ensures numNonZero == CountNonZero(result, width, height)
  {
    result := output;
    numNonZero := 0;
    var y := 0;
    while y < height
      invariant 0 <= y <= height
      invariant SameShape(result, output)
      invariant forall j, x :: 0 <= j < y && 0 <= x < width ==>
                  result[j][x] == Level(input[j][x], scale, offset, shift)
      invariant OutsideUnchanged(result, output, width, height)
      invariant forall j, x :: y <= j < |output| && 0 <= x < |output[j]| ==> result[j][x] == output[j][x]
      invariant numNonZero == GridLevels(input, width, y, scale, offset, shift)
    {
      var row := result[y];
      var x := 0;
      var rowCount := 0;
      while x < width
        invariant 0 <= x <= width
        invariant |row| == |output[y]|
        invariant forall i :: 0 <= i < x ==> row[i] == Level(input[y][i], scale, offset, shift)
        invariant forall i :: x <= i < |row| ==> row[i] == output[y][i]
        invariant rowCount == RowLevels(input[y], x, scale, offset, shift)
      {
        var level := Level(input[y][x], scale, offset, shift);
        row := row[x := level];
        if level != 0 {
          rowCount := rowCount + 1;
        }
        x := x + 1;
      }
      result := result[y := row];
      numNonZero := numNonZero + rowCount;
      y := y + 1;
    }
    GridLevelsCount(input, result, width, height, scale, offset, shift);
  }

  /** One sample of `Quantize::Inverse`: scale, add half a step, shift,
      clip to int16. */
  function Dequant(coeff: int, scale: nat, shift: nat): (r: int)
    requires shift >= 1
    ensures Int16Min <= r <= Int16Max
  {
    Clip3(Shr(coeff * scale + Pow2(shift - 1), shift), Int16Min, Int16Max)
  }

  /** Unless clipped, a dequantised sample is `coeff * scale / 2^shift`
      rounded to the nearest integer, halves rounding up. */
  lemma DequantRounds(coeff: int, scale: nat, shift: nat)
    requires shift >= 1
    requires Int16Min <= Shr(coeff * scale + Pow2(shift - 1), shift) <= Int16Max
    ensures var r := Dequant(coeff, scale, shift);
            && r * Pow2(shift) <= coeff * scale + Pow2(shift - 1)
            && coeff * scale + Pow2(shift - 1) < (r + 1) * Pow2(shift)
  {
    DivBounds(coeff * scale + Pow2(shift - 1), Pow2(shift));
  }

  /** Zero dequantises to zero. */
  lemma DequantZero(scale: nat, shift: nat)
    requires shift >= 1
    ensures Dequant(0, scale, shift) == 0
  {
    assert 0 * scale == 0;
    DivSmall(Pow2(shift - 1), Pow2(shift));
  }

  /** Dequantisation is non-decreasing in the coefficient. */
  lemma DequantMonotone(a: int, b: int, scale: nat, shift: nat)
    requires shift >= 1 && a <= b
    ensures Dequant(a, scale, shift) <= Dequant(b, scale, shift)
  {
    MulMonotone(scale, a, b);
    ShrMonotone(a * scale + Pow2(shift - 1), b * scale + Pow2(shift - 1), shift);
  }

  /** `Quantize::Inverse`: dequantises the `width x height` region of
      `input` into `output`; the rest of `output` is left as it was. The
      rounding offset is `1 << (shift - 1)`, so `shift` must be positive. */
  method Inverse(scale: nat, shift: nat, width: nat, height: nat,
                 input: seq<seq<int>>, output: seq<seq<int>>)
    returns (result: seq<seq<int>>)
    requires shift >= 1
    requires HasRegion(input, width, height) && HasRegion(output, width, height)
    ensures SameShape(result, output)
    ensures forall y, x :: 0 <= y < height && 0 <= x < width ==>
              result[y][x] == Dequant(input[y][x], scale, shift)
    ensures forall y, x :: 0 <= y < height && 0 <= x < width ==>
              Int16Min <= result[y][x] <= Int16Max && (input[y][x] == 0 ==> result[y][x] == 0)
    ensures OutsideUnchanged(result, output, width, height)
  {
    result := output;
    var y := 0;
    while y < height
      invariant 0 <= y <= height
      invariant SameShape(result, output)
      invariant forall j, x :: 0 <= j < y && 0 <= x < width ==>
                  result[j][x] == Dequant(input[j][x], scale, shift)
      invariant OutsideUnchanged(result, output, width, height)
      invariant forall j, x :: y <= j < |output| && 0 <= x < |output[j]| ==> result[j][x] == output[j][x]
    {
      var row := result[y];
      var x := 0;
      while x < width
        invariant 0 <= x <= width
        invariant |row| == |output[y]|
        invariant forall i :: 0 <= i < x ==> row[i] == Dequant(input[y][i], scale, shift)
        invariant forall i :: x <= i < |row| ==> row[i] == output[y][i]
      {
        row := row[x := Dequant(input[y][x], scale, shift)];
        x := x + 1;
      }
      result := result[y := row];
      y := y + 1;
    }
    DequantZero(scale, shift);
  }
}
