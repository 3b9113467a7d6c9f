# xvc codec core in Dafny

This project models five integer-only parts of the xvc video codec. Each
part is a set of pure functions over immutable values, with the properties
the codec relies on stated as contracts and proved.

- **CABAC tables and context selection** (`src/xvc_common_lib/cabac.cc`):
  - the renormalisation table and the LPS range table;
  - the per-picture-type initialisation tables and the `Init` calls of
    `ResetStates`;
  - the five functions that pick the context index for residual syntax
    elements: coded-subblock flag, significance, greater-than-1,
    greater-than-2 and last position.
- **QP mapping and scalar quantisation** (`src/xvc_common_lib/quantize.cc`):
  - the chroma QP table and `GetChromaQP`;
  - the bit-depth QP;
  - the forward and inverse scale tables;
  - `Quantize::Forward` and `Quantize::Inverse` over the top-left region of
    a 2-D coefficient buffer.
- **Segment header parser** (`src/xvc_dec_lib/segment_header_reader.cc`):
  - `SegmentHeaderReader::Read` as a function from a bit sequence to a
    decoder state, the header, the new global restrictions and the number
    of bits consumed;
  - a writer for the same format;
  - a proof that reading back a written header gives the header again.
- **Rate-distortion decisions of the CU encoder**
  (`src/xvc_enc_lib/cu_encoder.cc`):
  - cbf zeroing per component and for the whole CU (`EvalCbfZero`,
    `EvalRootCbfZero`, `CompressAndEvalCbf`);
  - `CompressSkipOnly`;
  - the merge candidate search (`CompressMerge`);
  - the merge / inter / intra mode decision (`CompressNoSplit`);
  - the quad-tree split decision (`CompressCu`, `CompressSplitCu`).

  Distortions, bit counts and the cost of a (distortion, bits) pair are
  inputs: the model proves facts about which alternative the encoder keeps
  and which flags it leaves, for every possible value of those inputs.
- **Encoder settings presets** (`src/xvc_enc_lib/encoder_settings.h`): the
  defaults, `Initialize(SpeedMode)`, `Initialize(RestrictedMode)` and
  `Tune`, each with the exact set of fields it assigns.

The restriction flags, a process-wide singleton in the codec, are one
immutable value (`Restrictions.Restrictions`) passed to every function that
reads them.

The coded-subblock-flag context is `right | below`
(`src/xvc_common_lib/cabac.cc:337`), as section 9.3.4.2.4 of ITU-T H.265
specifies, so it is 0 or 1. The two-bit neighbour pattern
`right + 2 * below` is still computed, for the significance context.

Files:
- `common.dfy`: option type, powers of two, `Clip3`, shared enumerations.
- `restrictions.dfy`: the restriction flags in their seven signalled groups.
- `cabac_tables.dfy`, `cabac_contexts.dfy`
- `quantize.dfy`
- `segment_header_reader.dfy`
- `cu_encoder.dfy`, `cu_tree.dfy`
- `encoder_settings.dfy`

## Model

| member | source | states |
|---|---|---|
| Restrictions.Default | src/xvc_dec_lib/segment_header_reader.cc:72-73 | a default-constructed restriction set has all seven groups at their signalled sizes with every flag cleared |
| CabacTables.RenormTableShape | src/xvc_common_lib/cabac.cc:14-19 | the renormalisation table has 32 entries, each in [1, 6], non-increasing with the index |
| CabacTables.RenormClasses | src/xvc_common_lib/cabac.cc:14-19 | the shift for index k is 5 - floor(log2 k) for k >= 1 (6 at 0), i.e. one class per power of two |
| CabacTables.RenormRestoresRange | src/xvc_common_lib/cabac.cc:14-19 | for every sub-range 4..255 the table shift brings the range back into [256, 512) |
| CabacTables.RangeTableShape | src/xvc_common_lib/cabac.cc:21-88 | the LPS range table has 64 rows of 4 entries, every row non-decreasing, every column non-increasing with the state, and the last row is {2, 2, 2, 2} |
| CabacTables.RowsFromSound | src/xvc_common_lib/cabac.cc:21-88 | the row-by-row check of the range table implies every row from a given state on has the row properties |
| CabacTables.CodingStepRestoresRange | src/xvc_common_lib/cabac.cc:14-88 | an LPS sub-range taken from the range table, renormalised by the renormalisation table, lands in [256, 512) |
| CabacContexts.TableShape | src/xvc_common_lib/cabac.cc:90-292 | every initialisation table has one row per picture type; a luma array takes the first entries of its row and the paired chroma array the rest, and a single array takes the whole row |
| CabacContexts.InitSlice | src/xvc_common_lib/cabac.cc:272-292 | the `Init` templates give context i of an array the value at column first+i of the selected row, all with the same QP |
| CabacContexts.SharedRowSplit | src/xvc_common_lib/cabac.cc:281-292 | the paired `Init` splits one table row exactly between the luma and the chroma array, nothing left over |
| CabacContexts.IntraRowUnused | src/xvc_common_lib/cabac.cc:90-270 | in an intra picture every inter-only context, and every part-size context beyond the first, is initialised from the unused value 0 |
| CabacContexts.LastPosShared | src/xvc_common_lib/cabac.cc:307-310 | the x and y last-position arrays are initialised identically, for luma and for chroma |
| CabacContexts.ResetArrayAtInverse | src/xvc_common_lib/cabac.cc:294-316 | every array `ResetStates` initialises is initialised by exactly one `Init` call |
| CabacContexts.UntouchedArrays | src/xvc_common_lib/cabac.cc:294-316 | exactly six arrays that have tables are left alone by `ResetStates` |
| CabacContexts.InitArrays | src/xvc_common_lib/cabac.cc:294-316 | the `Init` loop writes every initialised array with its value and leaves every other array as it was |
| CabacContexts.ResetStates | src/xvc_common_lib/cabac.cc:294-316 | every initialised array holds its table row for the picture type, initialised with the luma raw QP; every other array is unchanged |
| CabacContexts.GetSubblockCsbfCtx | src/xvc_common_lib/cabac.cc:318-338 | the neighbour pattern is in [0, 3], bit 0 set iff the right subblock is inside and coded, bit 1 set iff the lower one is; the context is 1 exactly when the pattern is non-zero, and 0 under the restriction, while the pattern is still computed |
| CabacContexts.SigCount | src/xvc_common_lib/cabac.cc:355-370 | the in-subset count is at most 2 and is 2 for every pattern other than 0, 1, 2 |
| CabacContexts.SigCountMonotone | src/xvc_common_lib/cabac.cc:355-370 | the subset origin always gets count 2, and moving towards the origin never lowers the count |
| CabacContexts.GetCoeffSigCtx | src/xvc_common_lib/cabac.cc:340-373 | position (0,0) or the restriction gives 0; a 4x4 block takes the position's entry of the 4x4 map (1..8); larger blocks take offset + count, plus 3 for luma outside the first subset |
| CabacContexts.SigCtxRanges | src/xvc_common_lib/cabac.cc:340-373 | the significance contexts of each block class stay inside that class's own index range, luma at most 26 |
| CabacContexts.SigCtxFits | src/xvc_common_lib/cabac.cc:340-373 | every significance index lies inside its array under the luma/chroma split of the tables |
| CabacContexts.GetCoeffGreater1Ctx | src/xvc_common_lib/cabac.cc:375-383 | the index is 4*ctx_set + c1 (quotient and remainder by 4), or 0 under the restriction |
| CabacContexts.GetCoeffGreater2Ctx | src/xvc_common_lib/cabac.cc:385-393 | the index is ctx_set, or 0 under the restriction |
| CabacContexts.GreaterCtxFits | src/xvc_common_lib/cabac.cc:375-393 | with four luma and two chroma context sets, both greater-than indices fit their arrays |
| CabacContexts.GetCoeffLastPosCtx | src/xvc_common_lib/cabac.cc:395-417 | the array is picked by component and axis; the restriction gives index 0; otherwise the context's column in the shared `kInitLastPos` row is the `ctxInc` of section 9.3.4.2.3 of ITU-T H.265 for log2 of the width (luma offset 3*(n-2) + (n-1)/4 and shift (n+1)/4, chroma offset 15 and shift n-2) |
| CabacContexts.LastPosCtxIgnoresHeight | src/xvc_common_lib/cabac.cc:395-417 | the height argument never changes the context |
| CabacContexts.LastPosWidth64 | src/xvc_common_lib/cabac.cc:399-406 | at width 64 the luma index is 13 + bin/2: it fits the 15 luma contexts only for bins 0..3, and bin 10 gives 18, one past the whole 18-entry row |
| CabacContexts.LastPosCtxRange | src/xvc_common_lib/cabac.cc:395-417 | for widths 4..32 and every prefix bin, the luma index stays in its width class's range (the classes tile the 15 luma contexts) and the chroma index is at most 2 |
| Quantize.ChromaScaleShape | src/xvc_common_lib/quantize.cc:16-20 | the chroma QP table has 58 entries and agrees entry by entry with the QpC mapping of Table 8-10 of ITU-T H.265, extended by identity-minus-6 above 43 |
| Quantize.ChromaScaleOrder | src/xvc_common_lib/quantize.cc:16-20 | the chroma QP table is non-decreasing, never above its index, at most 51, and its last entry is 51 |
| Quantize.GetChromaQp | src/xvc_common_lib/quantize.cc:45-51 | the chroma QP is clip(qp, 0, 57) for non-4:2:0 formats and the QpC mapping of the clipped QP for 4:2:0, within [0, 51] there |
| Quantize.GetChromaQpMonotone | src/xvc_common_lib/quantize.cc:45-51 | the chroma QP never decreases as the QP grows |
| Quantize.MakeQp | src/xvc_common_lib/quantize.cc:30-37 | luma raw QP is the QP, both chroma raw QPs are the chroma QP of qp + offset, and each bit-depth QP is its raw QP plus 6*(bitdepth-8) |
| Quantize.ScalesAreInverse | src/xvc_common_lib/quantize.cc:22-28 | for each of the six remainders, forward scale times inverse scale is within 64 of 2^20 |
| Quantize.Level | src/xvc_common_lib/quantize.cc:82-88 | one forward sample is the signed magnitude clipped to int16 |
| Quantize.MagnitudeIsQuotient | src/xvc_common_lib/quantize.cc:86 | the magnitude is the floor of (abs(coeff)*scale + offset) / 2^shift |
| Quantize.LevelSign | src/xvc_common_lib/quantize.cc:82-88 | with a non-negative offset, the output is never of the opposite sign to the input |
| Quantize.LevelZero | src/xvc_common_lib/quantize.cc:82-88 | a zero input gives zero when the offset is below 2^shift |
| Quantize.LevelMonotone | src/xvc_common_lib/quantize.cc:82-88 | the output magnitude does not decrease as the input magnitude grows, for every pair except a negative smaller input with a non-negative larger one, where the int16 clip can reverse the order (`LevelClipAsymmetry`) |
| Quantize.LevelOdd | src/xvc_common_lib/quantize.cc:82-88 | negating a non-zero input negates the output while the unclipped magnitude is at most 32767 |
| Quantize.LevelClipAsymmetry | src/xvc_common_lib/quantize.cc:88 | at magnitude 32768 the clip breaks the symmetry: +1 gives 32767, -1 gives -32768 |
| Quantize.GridLevelsCount | src/xvc_common_lib/quantize.cc:78-98 | the number of non-zero outputs in the region equals the number of inputs whose level is non-zero |
| Quantize.Forward | src/xvc_common_lib/quantize.cc:74-99 | every region sample is the level of its input, clipped to int16; samples outside the region are unchanged; the count returned is exactly the number of non-zero region outputs |
| Quantize.DequantRounds | src/xvc_common_lib/quantize.cc:105-110 | unless clipped, a dequantised sample is coeff*scale/2^shift rounded half up |
| Quantize.DequantZero | src/xvc_common_lib/quantize.cc:105-110 | zero dequantises to zero |
| Quantize.DequantMonotone | src/xvc_common_lib/quantize.cc:105-110 | dequantisation is non-decreasing in the coefficient |
| Quantize.Inverse | src/xvc_common_lib/quantize.cc:101-115 | every region sample is its dequantised input, clipped to int16; samples outside the region are unchanged |
| SegmentHeaderReader.ReadBits | src/xvc_dec_lib/segment_header_reader.cc:28 | a read of n bits fails past the end of the input, and otherwise yields a value below 2^n and advances by n |
| SegmentHeaderReader.BitsAtOf | src/xvc_dec_lib/segment_header_reader.cc:28-70 | reading n bits where the n-bit representation of v was written gives back v |
| SegmentHeaderReader.ToBitsOfBitsAt | src/xvc_dec_lib/segment_header_reader.cc:28-70 | writing back the n bits read reproduces them |
| SegmentHeaderReader.ReadFieldsOf | src/xvc_dec_lib/segment_header_reader.cc:36-56 | a run of fixed-width reads over the serialised values recovers the values and ends after the sum of the widths |
| SegmentHeaderReader.Centered | src/xvc_dec_lib/segment_header_reader.cc:59-69 | a d-bit offset read as raw - 2^(d-1) lies in [-2^(d-1), 2^(d-1) - 1] |
| SegmentHeaderReader.ReadChromaQpOffsets | src/xvc_dec_lib/segment_header_reader.cc:57-64 | the two chroma offsets are read, zero-centred, only when the presence bit is 1; otherwise only the presence bit is consumed |
| SegmentHeaderReader.ReadDeblock | src/xvc_dec_lib/segment_header_reader.cc:65-70 | beta and tc offsets are read, zero-centred, only when the two-bit mode is 3 |
| SegmentHeaderReader.ReadFlagsOr | src/xvc_dec_lib/segment_header_reader.cc:78-290 | in a present group each bit consumed sets exactly its own flag when it is 1 and never clears one: the result is the flags or'ed with the bits |
| SegmentHeaderReader.ReadGroup | src/xvc_dec_lib/segment_header_reader.cc:78-290 | a group whose presence bit is 0 consumes one bit and leaves its flags; a present group consumes 1 + its flag count |
| SegmentHeaderReader.ReadRestrictions | src/xvc_dec_lib/segment_header_reader.cc:72-290 | the seven groups are read in order, taking one presence bit per group plus the flags of each present group, and leave a well-formed restriction set |
| SegmentHeaderReader.ReadGroupsOf | src/xvc_dec_lib/segment_header_reader.cc:78-290 | written groups read back from cleared flags give exactly the written flags, ending where the writing ended |
| SegmentHeaderReader.ReadRestrictionsOf | src/xvc_dec_lib/segment_header_reader.cc:72-290 | reading written restriction groups, starting from `Restrictions()`, gives back the written restrictions |
| SegmentHeaderReader.ReadChromaQpOffsetsOf | src/xvc_dec_lib/segment_header_reader.cc:57-64 | written chroma offsets read back to the same presence bit and offsets |
| SegmentHeaderReader.ReadDeblockOf | src/xvc_dec_lib/segment_header_reader.cc:65-70 | a written deblocking mode, and its two offsets when the mode is 3, read back to the same values |
| SegmentHeaderReader.Read | src/xvc_dec_lib/segment_header_reader.cc:25-296 | a wrong identifier stops after exactly 24 bits, a too-new major version after 40, a bit depth above 8*sizeof(Sample) after 96, all without touching any restrictions; on success the state is decoded, soc is the segment counter, the global restrictions are the parsed ones and the conditional fields follow their presence bits |
| SegmentHeaderReader.ReadTailOf | src/xvc_dec_lib/segment_header_reader.cc:57-295 | reading back a written tail recovers the chroma offsets, the deblocking fields and the restrictions, and consumes exactly what was written |
| SegmentHeaderReader.ReadOf | src/xvc_dec_lib/segment_header_reader.cc:25-296 | a bit sequence that starts with a written header is read back to that header, its restrictions become global, and exactly the written bits are consumed |
| SegmentHeaderReader.ReadEncode | src/xvc_dec_lib/segment_header_reader.cc:25-296 | round trip: any encodable header, written and followed by anything, is decoded back to itself |
| CuEncoder.EvalCbfZero | src/xvc_enc_lib/cu_encoder.cc:434-461 | a component without cbf is left alone and not forced; one with cbf loses it exactly when the zero-residual cost is strictly below the coded cost; no other component changes |
| CuEncoder.EvalComponentsSpec | src/xvc_enc_lib/cu_encoder.cc:350-373 | after the per-component loop each coded component's cbf is "coded and not forced", the forced ones are marked modified, the distortion is the sum of chosen distortions and the zero-residual sum is accumulated |
| CuEncoder.Components | src/xvc_enc_lib/cu_encoder.cc:345-374 | the loop over the coded components leaves exactly the kept residuals, the kept distortion total and the prediction-only total; planes beyond the coded ones stay without cbf |
| CuEncoder.RootFlags | src/xvc_enc_lib/cu_encoder.cc:384-405 | after clearing the modified components the root cbf is "any cbf" and the skip flag is merge && !root cbf |
| CuEncoder.CompressAndEvalCbf | src/xvc_enc_lib/cu_encoder.cc:341-407 | root cbf equals any cbf and skip equals merge && !root; the residual is dropped as a whole exactly when some component kept one, the restrictions allow it and zero cost is strictly below the kept cost, and then the distortion is the prediction-only sum; each component keeps its cbf only when neither decision removed it |
| CuEncoder.RootZeroUsesRootCbfBits | src/xvc_enc_lib/cu_encoder.cc:380-388 | when `CompressAndEvalCbf` drops the whole residual the root-cbf bits were the ones costed (the skip-flag branch of `EvalRootCbfZero` is not reached from there), and the distortion returned equals the zero-residual distortion |
| CuEncoder.CompressSkipOnly | src/xvc_enc_lib/cu_encoder.cc:409-432 | skip is set, root cbf and every component cbf are cleared, and the distortion is the sum of the prediction-only distortions |
| CuEncoder.SumSkip | src/xvc_enc_lib/cu_encoder.cc:418-430 | the distortion loop of `CompressSkipOnly` sums the prediction-only distortions of the remaining components |
| CuEncoder.FullScoreFresh | src/xvc_enc_lib/cu_encoder.cc:270-280 | a full evaluation of a merge candidate does not depend on the flags the previous candidate left |
| CuEncoder.SkipScoreFresh | src/xvc_enc_lib/cu_encoder.cc:310-318 | a skip-only evaluation of a merge candidate does not depend on the flags the previous candidate left |
| CuEncoder.MergeNext | src/xvc_enc_lib/cu_encoder.cc:269-331 | one candidate iteration logs its score, takes it as best on a strict improvement and, in full mode, switches to skip-only when it strictly improves on every earlier full evaluation and leaves the CU skipped |
| CuEncoder.StepBest | src/xvc_enc_lib/cu_encoder.cc:286-321 | each iteration keeps the best candidate the first cheapest of those evaluated so far |
| CuEncoder.StepTrigger | src/xvc_enc_lib/cu_encoder.cc:294-297 | the skip-only switch turns on exactly at a full evaluation strictly cheaper than every earlier one that leaves the CU skipped, and never turns off |
| CuEncoder.Advance | src/xvc_enc_lib/cu_encoder.cc:286-297 | the state after one scored candidate has that score as its flags and newest log entry, and changes best and skip-only mode only as the loop's transition rule allows |
| CuEncoder.MergeLoopReplays | src/xvc_enc_lib/cu_encoder.cc:267-332 | the candidate loop equals its replay on each candidate's full and skip-only evaluations, because an evaluation ignores the previous candidate's flags |
| CuEncoder.ReplaySpec | src/xvc_enc_lib/cu_encoder.cc:267-332 | the replayed loop keeps its invariants: each log entry is its candidate evaluated fully or skip-only, skip-only exactly after a trigger, and the best the first cheapest entry |
| CuEncoder.MergeSearch | src/xvc_enc_lib/cu_encoder.cc:257-332 | from the start state the loop logs one entry per candidate evaluated, each entry independent of earlier flags, and leaves a consistent best |
| CuEncoder.CompressMerge | src/xvc_enc_lib/cu_encoder.cc:246-339 | one candidate is evaluated under `disable_inter_merge_candidates`, otherwise all; an entry is skip-only exactly after a trigger; the chosen index is the first cheapest; the result has the chosen cost and distortion, merge set and skip == !root cbf |
| CuEncoder.BestOf | src/xvc_enc_lib/cu_encoder.cc:172-185 | among the merge and inter results, the one kept under strict `<` is the unique first cheapest |
| CuEncoder.AppendBest | src/xvc_enc_lib/cu_encoder.cc:187-194 | a later alternative replaces the best only when strictly cheaper, so the kept one stays the first cheapest |
| CuEncoder.InterTried | src/xvc_enc_lib/cu_encoder.cc:172-185 | an inter picture evaluates merge unless `disable_inter_merge_mode`, then inter; no evaluated alternative is skipped with a residual |
| CuEncoder.Cascade | src/xvc_enc_lib/cu_encoder.cc:172-209 | intra is evaluated exactly when `always_evaluate_intra_in_inter` is set or the best so far has a cbf; the kept mode is the first cheapest of those evaluated; root cbf is recomputed and the split flag (false) is written only below the maximum depth |
| CuEncoder.CompressNoSplit | src/xvc_enc_lib/cu_encoder.cc:159-211 | an intra picture evaluates intra only; an inter picture evaluates merge (unless restricted), inter, and intra exactly when required; the kept mode is the first cheapest; the outcome has root cbf == any cbf and skip without residual, and writes the split flag false only when depth < max depth |
| CuTree.MaxTrSize | src/xvc_enc_lib/cu_encoder.cc:81-82 | the largest transform is 32 exactly under `disable_ext_transform_size_64`, otherwise 64 |
| CuTree.CompressCu | src/xvc_enc_lib/cu_encoder.cc:79-127 | at or beyond the maximum depth the CU is coded whole; otherwise it is split iff it cannot be coded whole or the split cost is strictly below the whole cost; the returned tree is the chosen branch, with split totals that add up and consistent whole CUs |
| CuTree.CompressSplitCu | src/xvc_enc_lib/cu_encoder.cc:129-146 | the children are the sub-CUs' own decisions in order; the split distortion is their sum; the split flag true is written after them only when the CU lies fully inside the picture |
| CuTree.DistIsLeafSum | src/xvc_enc_lib/cu_encoder.cc:115-146 | the distortion returned for a tree is the sum of the distortions of the CUs it codes whole |
| CuTree.LeavesConsistent | src/xvc_enc_lib/cu_encoder.cc:200 | every CU the tree codes whole has root cbf == any cbf and is not skipped with a residual |
| CuTree.CompressCuLeaves | src/xvc_enc_lib/cu_encoder.cc:79-211 | the tree `CompressCu` picks has the distortion of its whole-coded CUs, and each of those is consistent |
| EncoderSettings.Defaults | src/xvc_enc_lib/encoder_settings.h:139-158 | before any preset the six speed fields are -1, the shared fields hold their declared defaults and the mode is unrestricted |
| EncoderSettings.FieldsDetermine | src/xvc_enc_lib/encoder_settings.h:139-158 | the field list is complete: two settings that agree on every field are equal |
| EncoderSettings.InitializeSpeed | src/xvc_enc_lib/encoder_settings.h:40-62 | the six speed fields take the preset of the mode (placebo 0,0,4,1,3,3; slow 1,1,1,0,2,2) and no other field changes |
| EncoderSettings.InitializeRestricted | src/xvc_enc_lib/encoder_settings.h:65-103 | the mode is recorded, the fields of its preset take their values (mode B also sets the quad-split field to 2) and no other field changes |
| EncoderSettings.Tune | src/xvc_enc_lib/encoder_settings.h:105-120 | the default target changes nothing; PSNR sets adaptive QP 0, offset table 0, both chroma offsets 1, and changes nothing else |
| EncoderSettings.SpeedSetsAll | src/xvc_enc_lib/encoder_settings.h:40-57 | after a speed preset no speed field is left unset |
| EncoderSettings.RestrictedOverridesSpeed | src/xvc_enc_lib/encoder_settings.h:40-98 | a restricted mode assigns every speed field, so applying a speed preset before it makes no difference |
| EncoderSettings.TuneCommutesWithSpeed | src/xvc_enc_lib/encoder_settings.h:40-120 | speed presets and tuning touch disjoint fields, so their order does not matter |
| EncoderSettings.PresetsIdempotent | src/xvc_enc_lib/encoder_settings.h:40-120 | applying the same speed preset, restricted mode or tuning twice equals applying it once |
| EncoderSettings.PsnrAfterRestricted | src/xvc_enc_lib/encoder_settings.h:65-115 | PSNR tuning after a restricted mode keeps the mode and its other fields, with offset table 0 and adaptive QP 0 |

## Left out

- CABAC engine: the arithmetic encoder and decoder and the context-model
  state update are not part of this model. A context is represented by its
  initialisation arguments `(qp, initValue)`, so the table walk is modelled
  but an encode/decode round trip is not.
- Context tables: `restrictions.h`, `cabac.h` and `utils.h` are not part of
  this model. The luma/chroma split of each shared table row is inferred
  from the row lengths and from the largest index each context function
  returns. It is cbf 1+1, intra mode 1+1, subblock flag 2+2,
  significance 27+15, greater-than-1 16+8, greater-than-2 4+2, and last
  position 15+3. `SizeLog2Bits(w)` is taken as `log2(w) - 2`.
- Picture type: the row order of the initialisation tables, bi 0, uni 1,
  intra 2, is taken from the tables. The intra row is the one holding the
  unused value for inter-only syntax (`IntraRowUnused`). The order of the
  bi and uni rows is assumed, because the header declaring
  `PicturePredictionType` is not part of this model.
- `ResetStates` does not initialise six arrays that have tables
  (transquant bypass, delta QP, SAO merge, SAO type, transform subdivision,
  transform skip). The model leaves them untouched and proves that.
- CabacContexts.SigCtxFits: it requires the chroma 8x8 non-diagonal case
  to stay within the 15 chroma contexts. The source can return indices 15
  to 17 there, and whether callers reach that case depends on scan
  derivations outside the shown files.
- CabacContexts.LastPosCtxRange: covers widths 4 to 32 only. The encoder
  also allows 64-wide luma transforms unless
  `disable_ext_transform_size_64` is set (`CuTree.MaxTrSize`). At that
  width the luma index reaches 18, past the 15 luma contexts of the
  assumed 15+3 split (`LastPosWidth64`). The `kInitLastPos` rows have 18
  entries and the chroma array needs at least 3, so no split holds a
  64-wide luma block. The model does not claim a bounds-safe context for
  that width. Whether 64-wide blocks reach this function with all 11
  prefix bins depends on residual code that is not part of this model.
- Quantize: the floating-point parts are omitted (`CalculateLambda`,
  `GetChromaDistWeight`, `lambda_sqrt_`). Integers are unbounded: C++
  `int` overflow of `level * scale` is not modelled. Strides and raw
  pointers become nested sequences.
- Quantize.Inverse: requires `shift >= 1`. The source computes
  `1 << (shift - 1)` and is undefined for `shift == 0`.
- Segment header constants: the codec identifier, supported major version,
  offset widths and `sizeof(Sample)` live in files outside this model and
  are a `Constants` parameter.
- Segment header enumerations: chroma format, colour matrix and checksum
  mode are kept as their raw field values.
- `BitReader`: not shown. A read past the end of the input makes the model
  return `None`.
- Encoder cost: the cost `dist + round(bits * lambda)` is floating point.
  It is a parameter `cost: (dist, bits) -> nat`.
- Encoder oracles: every distortion and bit count comes from code that is
  not part of this model and is an input. This covers:
  - prediction, transform and reconstruction;
  - intra and inter search;
  - the syntax writers;
  - `SampleMetric`.

  `SaveStateTo`, `LoadStateFrom`, `MarkUsedInPic`, `UnSplit`, buffer
  swapping and the reconstructed picture are not modelled.
- Encoder build variant: only the non-strict build is modelled; the
  `HM_STRICT` variants are left out. In that build the "fast" distortion
  equals the reconstructed one, so the two running sums of
  `CompressAndEvalCbf` coincide.
- CuEncoder.EvalRootCbfZero: has no contract of its own. Its skip-flag
  branch is unreachable from its only caller, which `RootZeroUsesRootCbfBits`
  states.
- CuEncoder.CompressMerge: requires at least one merge candidate. The
  source would otherwise apply candidate index -1.
- Merge and inter search results: the flags the merge search starts from
  are modelled by the merge flag and the cbf of the uncoded planes. The
  candidate list is an input, one entry per candidate.
- CuTree.CompressCu: the sub-CU tree `SplitQuad` would build is an input.
  Each node carries its own evaluation inputs and bit counts, so neighbour
  effects of earlier decisions on later evaluations are not modelled. The
  tree is walked only for the primary CU tree.
- `EncodeCtu`, `WriteCtu`, `CompressComponent`, `CompressIntra` and
  `CompressInter` internals: these are search and syntax code around the
  decisions and are inputs here.
- `src/xvc_dec_lib/cu_decoder.cc` and `test/xvc_test/test_helper.h`: glue
  and test harness code calling kernels that are not part of this model.
- Encoder settings: `aqp_strength` is a real-valued field that no preset
  changes, and the static constants (`rdo_quant`, the bit-counting switches
  and the like) are not modelled. The restricted mode enumeration is taken
  as unrestricted, mode A and mode B (`restrictions.h` is not part of this
  model). Out-of-range modes, which fail an `assert` in the source, are
  preconditions.
