/** The decoder's segment header parser, as a pure function from a bit
    sequence (most significant bit first) to the decoder state, the updated
    header, the updated global restrictions and the number of bits consumed.

    The source writes into a caller-owned header and a process-wide
    restrictions singleton; here both come in as values and go out as values,
    so "left untouched" is an equality between input and output. The bit
    reader is not part of this model: reading past the end of the input is
    modelled as `None`. */
module SegmentHeaderReader {
  import opened Common
  import R = Restrictions

  /** Build-time constants the parser compares against or reads with. */
  datatype Constants = Constants(
    codecIdentifier: nat,   // kXvcCodecIdentifier
    majorVersion: nat,      // kXvcMajorVersion
    chromaOffsetBits: nat,  // kChromaOffsetBits
    deblockOffsetBits: nat, // kDeblockOffsetBits
    sampleBits: nat)        // 8 * sizeof(Sample)

  /** The offset widths are used as `1 << (d - 1)`, so they are positive. */
  predicate ValidConstants(k: Constants) {
    k.chromaOffsetBits >= 1 && k.deblockOffsetBits >= 1
  }

  datatype State = NoSegmentHeader | DecoderVersionTooLow | BitstreamBitdepthTooHigh | SegmentHeaderDecoded

  /** The header fields the parser writes. Enumerations (chroma format,
      colour matrix, checksum mode) are kept as their signalled codes. */
  datatype SegmentHeader = SegmentHeader(
    codecIdentifier: nat,
    majorVersion: nat,
    minorVersion: nat,
    width: nat,
    height: nat,
    chromaFormat: nat,
    internalBitdepth: nat,
    bitstreamTicks: nat,
    maxSubGopLength: nat,
    colorMatrix: nat,
    openGop: bool,
    numRefPics: nat,
    maxBinarySplitDepth: nat,
    checksumMode: nat,
    adaptiveQp: nat,
    chromaQpOffsetTable: nat,
    chromaQpOffsetU: int,
    chromaQpOffsetV: int,
    deblock: nat,
    betaOffset: int,
    tcOffset: int,
    restrictions: R.Restrictions,
    soc: nat)

  // ---------------------------------------------------------------------
  // Bits and fields

  /** Unsigned value of the `n` bits at `pos`, most significant bit first. */
  function BitsAt(bits: seq<bool>, pos: nat, n: nat): (v: nat)
    requires pos + n <= |bits|
    ensures v < Pow2(n)
  {
    if n == 0 then 0 else 2 * BitsAt(bits, pos, n - 1) + (if bits[pos + n - 1] then 1 else 0)
  }

  /** The `n`-bit big-endian representation of `v` (its low `n` bits). */
  function ToBits(v: nat, n: nat): (b: seq<bool>)
    ensures |b| == n
  {
    if n == 0 then [] else ToBits(v / 2, n - 1) + [v % 2 == 1]
  }

  datatype Field = Field(value: nat, next: nat)

  /** `BitReader::ReadBits(n)` at position `pos`. */
  function ReadBits(bits: seq<bool>, pos: nat, n: nat): (r: Option<Field>)
    ensures r.Some? <==> pos + n <= |bits|
    ensures r.Some? ==> r.value.next == pos + n && r.value.value < Pow2(n)
  {
    if pos + n <= |bits| then Some(Field(BitsAt(bits, pos, n), pos + n)) else None
  }

  datatype BitRead = BitRead(bit: bool, next: nat)

  /** `BitReader::ReadBit()`: the bit at `pos`. */
  function ReadBit(bits: seq<bool>, pos: nat): (r: Option<BitRead>)
    ensures r.Some? <==> pos < |bits|
    ensures r.Some? ==> r.value == BitRead(bits[pos], pos + 1)
  {
    if pos < |bits| then Some(BitRead(bits[pos], pos + 1)) else None
  }

  function Sum(s: seq<nat>): nat {
    if |s| == 0 then 0 else s[0] + Sum(s[1..])
  }

  /** Every value fits in its field width. */
  predicate Fit(values: seq<nat>, widths: seq<nat>) {
    |values| == |widths| && forall i :: 0 <= i < |values| ==> values[i] < Pow2(widths[i])
  }

  datatype Fields = Fields(values: seq<nat>, next: nat)

  /** A run of consecutive `ReadBits` calls with the given widths. */
  function ReadFields(bits: seq<bool>, pos: nat, widths: seq<nat>): (r: Option<Fields>)
    requires pos <= |bits|
    ensures r.Some? <==> pos + Sum(widths) <= |bits|
    ensures r.Some? ==> r.value.next == pos + Sum(widths) && Fit(r.value.values, widths)
    decreases |widths|
  {
    if |widths| == 0 then Some(Fields([], pos))
    else
      var first :- ReadBits(bits, pos, widths[0]);
      var rest :- ReadFields(bits, first.next, widths[1..]);
      Some(Fields([first.value] + rest.values, rest.next))
  }

  /** Writer side of `ReadFields`. */
  function Serialize(values: seq<nat>, widths: seq<nat>): (b: seq<bool>)
    requires |values| == |widths|
    ensures |b| == Sum(widths)
    decreases |widths|
  {
    if |widths| == 0 then [] else ToBits(values[0], widths[0]) + Serialize(values[1..], widths[1..])
  }

  /** `raw - (1 << (d - 1))`: a `d`-bit field read as a zero-centred offset. */
  function Centered(raw: nat, d: nat): (r: int)
    requires d >= 1
    ensures raw < Pow2(d) ==> -(Pow2(d - 1) as int) <= r < Pow2(d - 1)
  {
    raw - Pow2(d - 1)
  }

  predicate InCenteredRange(x: int, d: nat)
    requires d >= 1
  {
    -(Pow2(d - 1) as int) <= x < Pow2(d - 1)
  }

  /** Writer side of `Centered`. An offset outside the field's range has
      no encoding; the writer puts 0 there, and `Encodable` rules it out. */
  function Uncentered(x: int, d: nat): (raw: nat)
    requires d >= 1
    ensures raw < Pow2(d)
    ensures InCenteredRange(x, d) ==> Centered(raw, d) == x
  {
    if InCenteredRange(x, d) then x + Pow2(d - 1) else 0
  }

  // ---------------------------------------------------------------------
  // The header, stage by stage

  /** minor version, width, height, chroma format, bit depth - 8 */
  const FormatWidths: seq<nat> := [16, 16, 16, 4, 4]

  /** ticks, max sub-GOP length, colour matrix, open GOP, reference pictures,
      binary split depth, checksum mode, adaptive QP, chroma QP offset table */
  const CodingWidths: seq<nat> := [24, 8, 3, 1, 4, 2, 1, 2, 2]

  /** Widths of the format and of the coding fields. */
  const FormatBits: nat := 56
  const CodingBits: nat := 47

  /** Bits before the optional chroma QP offsets: identifier, major version,
      format fields, coding fields. */
  const ChromaPresencePos: nat := 24 + 16 + FormatBits + CodingBits

  function WithFormat(h: SegmentHeader, v: seq<nat>): (r: SegmentHeader)
    requires |v| == |FormatWidths|
    ensures r.internalBitdepth == v[4] + 8
  {
    h.(minorVersion := v[0], width := v[1], height := v[2], chromaFormat := v[3],
       internalBitdepth := v[4] + 8)
  }

  function WithCoding(h: SegmentHeader, v: seq<nat>): (r: SegmentHeader)
    requires |v| == |CodingWidths|
    ensures r.openGop <==> v[3] != 0
  {
    h.(bitstreamTicks := v[0], maxSubGopLength := v[1], colorMatrix := v[2],
       openGop := v[3] != 0, numRefPics := v[4], maxBinarySplitDepth := v[5],
       checksumMode := v[6], adaptiveQp := v[7], chromaQpOffsetTable := v[8])
  }

  datatype ChromaQpOffsets = ChromaQpOffsets(present: bool, u: int, v: int, next: nat)

  /** Optional chroma QP offsets behind a presence bit. */
  function ReadChromaQpOffsets(k: Constants, bits: seq<bool>, pos: nat): (r: Option<ChromaQpOffsets>)
    requires ValidConstants(k)
    ensures r.Some? ==>
      && pos < |bits| && r.value.next <= |bits|
      && r.value.present == bits[pos]
      && r.value.next == pos + 1 + (if bits[pos] then 2 * k.chromaOffsetBits else 0)
    ensures r.Some? && r.value.present ==>
      InCenteredRange(r.value.u, k.chromaOffsetBits) && InCenteredRange(r.value.v, k.chromaOffsetBits)
  {
    var present :- ReadBit(bits, pos);
    if !present.bit then Some(ChromaQpOffsets(false, 0, 0, present.next))
    else
      var d := k.chromaOffsetBits;
      var u :- ReadBits(bits, present.next, d);
      var v :- ReadBits(bits, u.next, d);
      Some(ChromaQpOffsets(true, Centered(u.value, d), Centered(v.value, d), v.next))
  }

  datatype DeblockFields = DeblockFields(mode: nat, beta: int, tc: int, next: nat)

  /** The two-bit deblocking mode, then the beta and tc offsets only when the
      mode is 3. */
  function ReadDeblock(k: Constants, bits: seq<bool>, pos: nat): (r: Option<DeblockFields>)
    requires ValidConstants(k)
    ensures r.Some? ==>
      && r.value.mode < 4
      && r.value.next == pos + 2 + (if r.value.mode == 3 then 2 * k.deblockOffsetBits else 0)
      && r.value.next <= |bits|
    ensures r.Some? && r.value.mode == 3 ==>
      InCenteredRange(r.value.beta, k.deblockOffsetBits) && InCenteredRange(r.value.tc, k.deblockOffsetBits)
  {
    var mode :- ReadBits(bits, pos, 2);
    if mode.value != 3 then Some(DeblockFields(mode.value, 0, 0, mode.next))
    else
      var e := k.deblockOffsetBits;
      var beta :- ReadBits(bits, mode.next, e);
      var tc :- ReadBits(bits, beta.next, e);
      Some(DeblockFields(3, Centered(beta.value, e), Centered(tc.value, e), tc.next))
  }

  /** The header after the tail fields: fields that were not signalled keep
      the value they had. */
  function WithTail(h: SegmentHeader, o: ChromaQpOffsets, d: DeblockFields, restr: R.Restrictions,
                    segmentCounter: nat): SegmentHeader
  {
    h.(chromaQpOffsetU := if o.present then o.u else h.chromaQpOffsetU,
       chromaQpOffsetV := if o.present then o.v else h.chromaQpOffsetV,
       deblock := d.mode,
       betaOffset := if d.mode == 3 then d.beta else h.betaOffset,
       tcOffset := if d.mode == 3 then d.tc else h.tcOffset,
       restrictions := restr,
       soc := segmentCounter)
  }

  // ---------------------------------------------------------------------
  // Restriction groups

  datatype GroupRead = GroupRead(flags: seq<bool>, next: nat)

  /** The flags of a present group: each bit read sets its flag when it is 1
      and leaves it as it was when it is 0 (lemma `ReadFlagsOr`). */
  function ReadFlags(bits: seq<bool>, pos: nat, current: seq<bool>): (r: Option<GroupRead>)
    requires pos <= |bits|
    ensures r.Some? <==> pos + |current| <= |bits|
    ensures r.Some? ==> |r.value.flags| == |current| && r.value.next == pos + |current|
    decreases |current|
  {
    if |current| == 0 then Some(GroupRead([], pos))
    else
      var b :- ReadBit(bits, pos);
      var rest :- ReadFlags(bits, b.next, current[1..]);
      Some(GroupRead([current[0] || b.bit] + rest.flags, rest.next))
  }

  lemma {:induction false} ReadFlagsOr(bits: seq<bool>, pos: nat, current: seq<bool>)
    requires pos + |current| <= |bits|
    ensures forall i {:trigger ReadFlags(bits, pos, current).value.flags[i]} :: 0 <= i < |current| ==>
      ReadFlags(bits, pos, current).value.flags[i] == (current[i] || bits[pos + i])
    decreases |current|
  {
    if |current| > 0 {
      ReadFlagsOr(bits, pos + 1, current[1..]);
      var r := ReadFlags(bits, pos, current).value;
      var rest := ReadFlags(bits, pos + 1, current[1..]).value;
      assert r.flags == [current[0] || bits[pos]] + rest.flags;
      forall i | 1 <= i < |current|
        ensures r.flags[i] == (current[i] || bits[pos + i])
      {
        assert r.flags[i] == rest.flags[i - 1];
      }
    }
  }

  /** A presence bit, then the group's flags only when it is 1. */
  function ReadGroup(bits: seq<bool>, pos: nat, current: seq<bool>): (r: Option<GroupRead>)
    ensures r.Some? <==> pos < |bits| && (bits[pos] ==> pos + 1 + |current| <= |bits|)
    ensures r.Some? ==> r.value.next <= |bits| && |r.value.flags| == |current|
    ensures r.Some? && !bits[pos] ==> r.value == GroupRead(current, pos + 1)
    ensures r.Some? && bits[pos] ==> r.value == ReadFlags(bits, pos + 1, current).value
  {
    var present :- ReadBit(bits, pos);
    if !present.bit then Some(GroupRead(current, present.next)) else ReadFlags(bits, present.next, current)
  }

  /** Bits taken by the groups starting at `pos`: one presence bit each, plus
      the group's flag count when that presence bit is set. */
  function GroupsLength(bits: seq<bool>, pos: nat, groups: seq<seq<bool>>): nat
    decreases |groups|
  {
    if |groups| == 0 then 0
    else
      var n := 1 + (if pos < |bits| && bits[pos] then |groups[0]| else 0);
      n + GroupsLength(bits, pos + n, groups[1..])
  }

  predicate SameShape(a: seq<seq<bool>>, b: seq<seq<bool>>) {
    |a| == |b| && forall g :: 0 <= g < |a| ==> |a[g]| == |b[g]|
  }

  datatype GroupsRead = GroupsRead(groups: seq<seq<bool>>, next: nat)

  /** All restriction groups in signalling order. */
  function ReadGroups(bits: seq<bool>, pos: nat, current: seq<seq<bool>>): (r: Option<GroupsRead>)
    requires pos <= |bits|
    ensures r.Some? ==>
      && SameShape(r.value.groups, current)
      && r.value.next == pos + GroupsLength(bits, pos, current)
      && r.value.next <= |bits|
    decreases |current|
  {
    if |current| == 0 then Some(GroupsRead([], pos))
    else
      var first :- ReadGroup(bits, pos, current[0]);
      var rest :- ReadGroups(bits, first.next, current[1..]);
      Some(GroupsRead([first.flags] + rest.groups, rest.next))
  }

  lemma {:induction false} GroupsLengthBounds(bits: seq<bool>, pos: nat, groups: seq<seq<bool>>)
    ensures |groups| <= GroupsLength(bits, pos, groups) <= |groups| + FlagCount(groups)
    decreases |groups|
  {
    if |groups| > 0 {
      var n := 1 + (if pos < |bits| && bits[pos] then |groups[0]| else 0);
      GroupsLengthBounds(bits, pos + n, groups[1..]);
    }
  }

  /** Total number of flags over all groups. */
  function FlagCount(groups: seq<seq<bool>>): nat {
    if |groups| == 0 then 0 else |groups[0]| + FlagCount(groups[1..])
  }

  // ---------------------------------------------------------------------
  // The parser

  /** Bits taken by the seven restriction groups starting at `pos`. */
  function RestrictionsLength(bits: seq<bool>, pos: nat): nat {
    GroupsLength(bits, pos, R.Default().groups)
  }

  lemma RestrictionsLengthAt(bits: seq<bool>, a: nat, b: nat)
    requires a == b
    ensures RestrictionsLength(bits, a) == RestrictionsLength(bits, b)
  {
  }

  datatype RestrictionsRead = RestrictionsRead(restrictions: R.Restrictions, next: nat)

  /** The seven gated groups, each flag set by the stream added to `start`;
      the parser starts from `Restrictions()`. */
  function ReadRestrictions(bits: seq<bool>, pos: nat, start: R.Restrictions): (r: Option<RestrictionsRead>)
    requires pos <= |bits| && R.Valid(start)
    ensures r.Some? ==>
      && R.Valid(r.value.restrictions)
      && r.value.next == pos + GroupsLength(bits, pos, start.groups)
      && r.value.next <= |bits|
  {
    var groups :- ReadGroups(bits, pos, start.groups);
    Some(RestrictionsRead(R.Restrictions(groups.groups), groups.next))
  }

  /** Where the restriction groups start, for a tail whose chroma presence
      bit is at `pos` and whose deblocking mode is `mode`. */
  function RestrictionsStart(k: Constants, bits: seq<bool>, pos: nat, mode: nat): nat
    requires pos < |bits|
  {
    pos + 3 + (if bits[pos] then 2 * k.chromaOffsetBits else 0)
            + (if mode == 3 then 2 * k.deblockOffsetBits else 0)
  }

  datatype Outcome = Outcome(state: State, header: SegmentHeader, global: R.Restrictions, consumed: nat)

  /** The header fields whose earlier values survive when the stream does not
      signal new ones. */
  datatype Kept = Kept(chromaQpOffsetU: int, chromaQpOffsetV: int, betaOffset: int, tcOffset: int)

  function KeptOf(h: SegmentHeader): Kept {
    Kept(h.chromaQpOffsetU, h.chromaQpOffsetV, h.betaOffset, h.tcOffset)
  }

  /** What a successful read of the tail whose chroma presence bit is at `c`
      leaves behind: a decoded header whose restrictions are also the global
      ones, the segment counter, the earlier offsets `prev` wherever the
      stream does not signal new ones, and the bits consumed up to the end of
      the restriction groups. */
  predicate TailRead(k: Constants, bits: seq<bool>, c: nat, prev: Kept, segmentCounter: nat, o: Outcome) {
    var g := o.header;
    && o.state == SegmentHeaderDecoded
    && o.consumed <= |bits|
    && o.global == g.restrictions
    && R.Valid(g.restrictions)
    && g.soc == segmentCounter
    && c < |bits|
    && (!bits[c] ==> g.chromaQpOffsetU == prev.chromaQpOffsetU && g.chromaQpOffsetV == prev.chromaQpOffsetV)
    && (g.deblock != 3 ==> g.betaOffset == prev.betaOffset && g.tcOffset == prev.tcOffset)
    && var t := RestrictionsStart(k, bits, c, g.deblock);
       o.consumed == t + RestrictionsLength(bits, t)
  }

  /** The header fields a read of the tail leaves as they were. */
  predicate SameIdentity(a: SegmentHeader, b: SegmentHeader) {
    a.codecIdentifier == b.codecIdentifier && a.majorVersion == b.majorVersion
    && a.internalBitdepth == b.internalBitdepth
  }

  /** The chroma QP offsets, the deblocking fields and the restrictions,
      which also become the global restrictions. */
  function ReadTail(k: Constants, bits: seq<bool>, pos: nat, h: SegmentHeader, segmentCounter: nat): (r: Option<Outcome>)
    requires ValidConstants(k)
    ensures r.Some? ==> TailRead(k, bits, pos, KeptOf(h), segmentCounter, r.value) && SameIdentity(r.value.header, h)
  {
    var offsets :- ReadChromaQpOffsets(k, bits, pos);
    var deblock :- ReadDeblock(k, bits, offsets.next);
    var restr :- ReadRestrictions(bits, deblock.next, R.Default());
    RestrictionsLengthAt(bits, deblock.next, RestrictionsStart(k, bits, pos, deblock.mode));
    Some(Outcome(SegmentHeaderDecoded, WithTail(h, offsets, deblock, restr.restrictions, segmentCounter),
                 restr.restrictions, restr.next))
  }

  lemma FormatBitsSum()
    ensures Sum(FormatWidths) == FormatBits
  {
    assert FormatWidths[1..][1..][1..][1..][1..] == [];
  }

  /** The four-bit bit depth field keeps the signalled bit depth below 24. */
  lemma BitdepthField(v: seq<nat>)
    requires Fit(v, FormatWidths)
    ensures v[4] < 16
  {
    assert v[4] < Pow2(FormatWidths[4]);
    assert Pow2(4) == 16;
  }

  lemma CodingBitsSum()
    ensures Sum(CodingWidths) == CodingBits
  {
    assert CodingWidths[1..][1..][1..][1..][1..][1..][1..][1..][1..] == [];
  }

  /** The coding fields and the tail. `pos` is where the coding fields
      start. */
  function ReadBody(k: Constants, bits: seq<bool>, pos: nat, h: SegmentHeader, segmentCounter: nat): (r: Option<Outcome>)
    requires ValidConstants(k)
    requires pos <= |bits|
    ensures r.Some? ==>
      TailRead(k, bits, pos + CodingBits, KeptOf(h), segmentCounter, r.value) && SameIdentity(r.value.header, h)
  {
    var coding :- ReadFields(bits, pos, CodingWidths);
    CodingBitsSum();
    var h4 := WithCoding(h, coding.values);
    ReadTail(k, bits, pos + CodingBits, h4, segmentCounter)
  }

  /** The format fields, the bit depth check, then the body. `pos` is where
      the minor version starts. */
  function ReadFormat(k: Constants, bits: seq<bool>, pos: nat, h: SegmentHeader, global: R.Restrictions,
                      segmentCounter: nat): (r: Option<Outcome>)
    requires ValidConstants(k)
    requires pos <= |bits|
    ensures r.Some? ==> r.value.state == BitstreamBitdepthTooHigh || r.value.state == SegmentHeaderDecoded
    ensures r.Some? ==>
      && r.value.header.codecIdentifier == h.codecIdentifier
      && r.value.header.majorVersion == h.majorVersion
    ensures r.Some? && r.value.state == BitstreamBitdepthTooHigh ==>
      && r.value.consumed == pos + FormatBits
      && r.value.consumed <= |bits|
      && r.value.global == global && r.value.header.restrictions == h.restrictions
      && k.sampleBits < r.value.header.internalBitdepth < 24
    ensures r.Some? && r.value.state == SegmentHeaderDecoded ==>
      && 8 <= r.value.header.internalBitdepth <= k.sampleBits
      && TailRead(k, bits, pos + FormatBits + CodingBits, KeptOf(h), segmentCounter, r.value)
  {
    var format :- ReadFields(bits, pos, FormatWidths);
    FormatBitsSum();
    BitdepthField(format.values);
    var h3 := WithFormat(h, format.values);
    if h3.internalBitdepth > k.sampleBits then Some(Outcome(BitstreamBitdepthTooHigh, h3, global, format.next))
    else
      ReadBody(k, bits, pos + FormatBits, h3, segmentCounter)
  }

  /** `SegmentHeaderReader::Read`. `prev` is the header object before the
      call and `global` the restrictions in force before the call. */
  function Read(k: Constants, bits: seq<bool>, prev: SegmentHeader, global: R.Restrictions,
                segmentCounter: nat): (r: Option<Outcome>)
    requires ValidConstants(k)
    ensures r.Some? ==> r.value.consumed <= |bits|
    ensures r.Some? && r.value.state != SegmentHeaderDecoded ==>
      r.value.global == global && r.value.header.restrictions == prev.restrictions
    ensures r.Some? && r.value.state == NoSegmentHeader ==>
      r.value.consumed == 24 && r.value.header.codecIdentifier != k.codecIdentifier
    ensures r.Some? && r.value.state == DecoderVersionTooLow ==>
      && r.value.consumed == 40 && r.value.header.codecIdentifier == k.codecIdentifier
      && r.value.header.majorVersion > k.majorVersion
    ensures r.Some? && r.value.state == BitstreamBitdepthTooHigh ==>
      && r.value.consumed == 96
      && r.value.header.codecIdentifier == k.codecIdentifier
      && r.value.header.majorVersion <= k.majorVersion
      && k.sampleBits < r.value.header.internalBitdepth < 24
    ensures r.Some? && r.value.state == SegmentHeaderDecoded ==>
      && r.value.header.codecIdentifier == k.codecIdentifier
      && r.value.header.majorVersion <= k.majorVersion
      && 8 <= r.value.header.internalBitdepth <= k.sampleBits
      && TailRead(k, bits, ChromaPresencePos, KeptOf(prev), segmentCounter, r.value)
  {
    var id :- ReadBits(bits, 0, 24);
    var h1 := prev.(codecIdentifier := id.value);
    if id.value != k.codecIdentifier then Some(Outcome(NoSegmentHeader, h1, global, id.next))
    else
      var major :- ReadBits(bits, id.next, 16);
      var h2 := h1.(majorVersion := major.value);
      if major.value > k.majorVersion then Some(Outcome(DecoderVersionTooLow, h2, global, major.next))
      else
        ReadFormat(k, bits, 40, h2, global, segmentCounter)
  }

  // ---------------------------------------------------------------------
  // The writer, and reading back what it writes

  /** The format fields in signalling order; a bit depth below 8 has no
      encoding and is written as 8. */
  function FormatValues(h: SegmentHeader): seq<nat> {
    [h.minorVersion, h.width, h.height, h.chromaFormat, if h.internalBitdepth >= 8 then h.internalBitdepth - 8 else 0]
  }

  function CodingValues(h: SegmentHeader): seq<nat> {
    [h.bitstreamTicks, h.maxSubGopLength, h.colorMatrix, if h.openGop then 1 else 0, h.numRefPics,
     h.maxBinarySplitDepth, h.checksumMode, h.adaptiveQp, h.chromaQpOffsetTable]
  }

  /** Both chroma QP offsets fit their centred fields. */
  predicate OffsetsEncodable(k: Constants, h: SegmentHeader)
    requires ValidConstants(k)
  {
    InCenteredRange(h.chromaQpOffsetU, k.chromaOffsetBits) && InCenteredRange(h.chromaQpOffsetV, k.chromaOffsetBits)
  }

  /** The deblocking mode fits two bits and, when mode 3 signals them, the
      beta and tc offsets fit their centred fields. */
  predicate DeblockEncodable(k: Constants, h: SegmentHeader)
    requires ValidConstants(k)
  {
    && h.deblock < 4
    && (h.deblock == 3 ==>
          InCenteredRange(h.betaOffset, k.deblockOffsetBits) && InCenteredRange(h.tcOffset, k.deblockOffsetBits))
  }

  /** Everything after the coding fields can be written and read back. */
  predicate TailEncodable(k: Constants, h: SegmentHeader)
    requires ValidConstants(k)
  {
    OffsetsEncodable(k, h) && DeblockEncodable(k, h) && R.Valid(h.restrictions)
  }

  /** A header whose every field fits its width and which the reader
      accepts: the identifier matches, the version and bit depth are
      supported. */
  predicate Encodable(k: Constants, h: SegmentHeader)
    requires ValidConstants(k)
  {
    && h.codecIdentifier == k.codecIdentifier && h.codecIdentifier < Pow2(24)
    && h.majorVersion <= k.majorVersion && h.majorVersion < Pow2(16)
    && 8 <= h.internalBitdepth <= k.sampleBits
    && TailEncodable(k, h)
    && Fit(FormatValues(h), FormatWidths)
    && Fit(CodingValues(h), CodingWidths)
  }

  /** Every flag of the group is clear. */
  predicate Cleared(flags: seq<bool>) {
    forall i :: 0 <= i < |flags| ==> !flags[i]
  }

  /** Some flag of the group is set. */
  function AnySet(flags: seq<bool>): bool {
    |flags| > 0 && (flags[0] || AnySet(flags[1..]))
  }

  lemma {:induction false} NoneSet(flags: seq<bool>)
    requires !AnySet(flags)
    ensures Cleared(flags)
  {
    if |flags| > 0 {
      NoneSet(flags[1..]);
      assert forall i :: 1 <= i < |flags| ==> flags[i] == flags[1..][i - 1];
    }
  }

  /** A group is signalled present exactly when one of its flags is set. */
  function EncodeGroup(flags: seq<bool>): seq<bool> {
    if AnySet(flags) then [true] + flags else [false]
  }

  function EncodeGroups(groups: seq<seq<bool>>): seq<bool>
    decreases |groups|
  {
    if |groups| == 0 then [] else EncodeGroup(groups[0]) + EncodeGroups(groups[1..])
  }

  /** The offsets are always signalled, so every value survives. */
  function EncodeChromaQpOffsets(k: Constants, h: SegmentHeader): seq<bool>
    requires ValidConstants(k)
  {
    var d := k.chromaOffsetBits;
    [true] + (ToBits(Uncentered(h.chromaQpOffsetU, d), d) + ToBits(Uncentered(h.chromaQpOffsetV, d), d))
  }

  function EncodeDeblock(k: Constants, h: SegmentHeader): seq<bool>
    requires ValidConstants(k)
  {
    var e := k.deblockOffsetBits;
    ToBits(h.deblock, 2) +
      if h.deblock == 3
      then ToBits(Uncentered(h.betaOffset, e), e) + ToBits(Uncentered(h.tcOffset, e), e)
      else []
  }

  function EncodeTail(k: Constants, h: SegmentHeader): seq<bool>
    requires ValidConstants(k)
  {
    EncodeChromaQpOffsets(k, h) + (EncodeDeblock(k, h) + EncodeGroups(h.restrictions.groups))
  }

  /** The segment header as the encoder side would write it. */
  function Encode(k: Constants, h: SegmentHeader): seq<bool>
    requires ValidConstants(k)
  {
    ToBits(h.codecIdentifier, 24) + (ToBits(h.majorVersion, 16) +
      (Serialize(FormatValues(h), FormatWidths) + (Serialize(CodingValues(h), CodingWidths) + EncodeTail(k, h))))
  }

  /** What the reader leaves in the header object after reading `Encode(h)`:
      `h` itself, except that the deblocking offsets keep their earlier
      values when the mode does not signal them, and the segment counter. */
  function Decoded(h: SegmentHeader, prev: SegmentHeader, segmentCounter: nat): SegmentHeader {
    h.(betaOffset := if h.deblock == 3 then h.betaOffset else prev.betaOffset,
       tcOffset := if h.deblock == 3 then h.tcOffset else prev.tcOffset,
       soc := segmentCounter)
  }

  /** `e` occurs in `bits` at position `pos`. Stated bit by bit from the
      front through `AtFrom`, so that only the bits a proof looks at get
      unfolded. */
  predicate At(bits: seq<bool>, pos: nat, e: seq<bool>) {
    AtFrom(bits, pos, e, 0)
  }

  /** `e[i..]` occurs in `bits` at position `pos + i`. */
  predicate AtFrom(bits: seq<bool>, pos: nat, e: seq<bool>, i: nat)
    decreases |e| - i
  {
    pos + |e| <= |bits| && (i < |e| ==> bits[pos + i] == e[i] && AtFrom(bits, pos, e, i + 1))
  }

  lemma {:induction false} AtFromIndex(bits: seq<bool>, pos: nat, e: seq<bool>, i: nat)
    requires i <= |e|
    ensures AtFrom(bits, pos, e, i) <==> pos + |e| <= |bits| && forall j :: i <= j < |e| ==> bits[pos + j] == e[j]
    decreases |e| - i
  {
    if i < |e| {
      AtFromIndex(bits, pos, e, i + 1);
    }
  }

  /** `At` bit by bit. */
  lemma AtIndex(bits: seq<bool>, pos: nat, e: seq<bool>)
    ensures At(bits, pos, e) <==> pos + |e| <= |bits| && forall j :: 0 <= j < |e| ==> bits[pos + j] == e[j]
  {
    AtFromIndex(bits, pos, e, 0);
  }

  lemma AtSplit(bits: seq<bool>, pos: nat, a: seq<bool>, b: seq<bool>)
    requires At(bits, pos, a + b)
    ensures At(bits, pos, a) && At(bits, pos + |a|, b)
  {
    AtIndex(bits, pos, a + b);
    AtIndex(bits, pos, a);
    AtIndex(bits, pos + |a|, b);
    forall j | 0 <= j < |a|
      ensures bits[pos + j] == a[j]
    {
      assert (a + b)[j] == a[j];
    }
    forall j | 0 <= j < |b|
      ensures bits[pos + |a| + j] == b[j]
    {
      assert (a + b)[|a| + j] == b[j];
    }
  }

  /** `AtSplit` with the position of the second part given explicitly. */
  lemma AtSplitAt(bits: seq<bool>, pos: nat, a: seq<bool>, b: seq<bool>, q: nat)
    requires At(bits, pos, a + b) && q == pos + |a|
    ensures At(bits, pos, a) && At(bits, q, b)
  {
    AtSplit(bits, pos, a, b);
  }

  lemma AtJoin(bits: seq<bool>, pos: nat, a: seq<bool>, b: seq<bool>)
    requires At(bits, pos, a) && At(bits, pos + |a|, b)
    ensures At(bits, pos, a + b)
  {
    AtIndex(bits, pos, a + b);
    AtIndex(bits, pos, a);
    AtIndex(bits, pos + |a|, b);
    forall j | 0 <= j < |a + b|
      ensures bits[pos + j] == (a + b)[j]
    {
      if j >= |a| {
        assert bits[pos + |a| + (j - |a|)] == b[j - |a|];
      }
    }
  }

  lemma AtSlice(bits: seq<bool>, pos: nat, e: seq<bool>)
    requires At(bits, pos, e)
    ensures bits[pos..pos + |e|] == e
  {
    AtIndex(bits, pos, e);
  }

  lemma SliceAt(bits: seq<bool>, pos: nat, e: seq<bool>)
    requires pos + |e| <= |bits| && bits[pos..pos + |e|] == e
    ensures At(bits, pos, e)
  {
    AtIndex(bits, pos, e);
    forall j | 0 <= j < |e|
      ensures bits[pos + j] == e[j]
    {
      assert bits[pos..pos + |e|][j] == bits[pos + j];
    }
  }

  /** Reading `n` bits recovers the value written as `ToBits(v, n)`. */
  lemma {:induction false} BitsAtOf(bits: seq<bool>, pos: nat, v: nat, n: nat)
    requires v < Pow2(n) && At(bits, pos, ToBits(v, n))
    ensures pos + n <= |bits| && BitsAt(bits, pos, n) == v
    decreases n
  {
    AtIndex(bits, pos, ToBits(v, n));
    if n > 0 {
      var h := v / 2;
      AtSplit(bits, pos, ToBits(h, n - 1), [v % 2 == 1]);
      BitsAtOf(bits, pos, h, n - 1);
      AtIndex(bits, pos + n - 1, [v % 2 == 1]);
      assert bits[pos + n - 1 + 0] == (v % 2 == 1);
    }
  }

  /** Writing back the `n` bits read at `pos` reproduces them. */
  lemma {:induction false} ToBitsOfBitsAt(bits: seq<bool>, pos: nat, n: nat)
    requires pos + n <= |bits|
    ensures At(bits, pos, ToBits(BitsAt(bits, pos, n), n))
    decreases n
  {
    var v := BitsAt(bits, pos, n);
    if n == 0 {
      AtIndex(bits, pos, ToBits(v, n));
    } else {
      ToBitsOfBitsAt(bits, pos, n - 1);
      assert v / 2 == BitsAt(bits, pos, n - 1);
      AtIndex(bits, pos + (n - 1), [v % 2 == 1]);
      assert bits[pos + (n - 1) + 0] == (v % 2 == 1);
      AtJoin(bits, pos, ToBits(v / 2, n - 1), [v % 2 == 1]);
    }
  }

  lemma ReadBitsOf(bits: seq<bool>, pos: nat, v: nat, n: nat)
    requires v < Pow2(n) && At(bits, pos, ToBits(v, n))
    ensures ReadBits(bits, pos, n) == Some(Field(v, pos + n))
  {
    BitsAtOf(bits, pos, v, n);
  }

  lemma FitTail(values: seq<nat>, widths: seq<nat>)
    requires Fit(values, widths) && |widths| > 0
    ensures values[0] < Pow2(widths[0]) && Fit(values[1..], widths[1..])
  {
    forall i | 0 <= i < |values| - 1
      ensures values[1..][i] < Pow2(widths[1..][i])
    {
      assert values[1..][i] == values[i + 1];
    }
  }

  /** A serialised run is its first field, then the rest. */
  lemma SerializeSplit(bits: seq<bool>, pos: nat, values: seq<nat>, widths: seq<nat>)
    requires |values| == |widths| > 0 && At(bits, pos, Serialize(values, widths))
    ensures At(bits, pos, ToBits(values[0], widths[0]))
    ensures At(bits, pos + widths[0], Serialize(values[1..], widths[1..]))
  {
    AtSplit(bits, pos, ToBits(values[0], widths[0]), Serialize(values[1..], widths[1..]));
  }

  /** The inductive step of `ReadFieldsOf`: the first field, then the rest. */
  lemma ReadFieldsCons(bits: seq<bool>, pos: nat, values: seq<nat>, widths: seq<nat>, p: nat, q: nat)
    requires |values| == |widths| > 0 && pos <= p <= |bits|
    requires ReadBits(bits, pos, widths[0]) == Some(Field(values[0], p))
    requires ReadFields(bits, p, widths[1..]) == Some(Fields(values[1..], q))
    ensures ReadFields(bits, pos, widths) == Some(Fields(values, q))
  {
    assert values == [values[0]] + values[1..];
  }

  lemma {:induction false} ReadFieldsOf(bits: seq<bool>, pos: nat, values: seq<nat>, widths: seq<nat>)
    requires Fit(values, widths) && At(bits, pos, Serialize(values, widths))
    ensures ReadFields(bits, pos, widths) == Some(Fields(values, pos + Sum(widths)))
    decreases |widths|
  {
    if |widths| == 0 {
      assert values == [];
    } else {
      SerializeSplit(bits, pos, values, widths);
      FitTail(values, widths);
      ReadBitsOf(bits, pos, values[0], widths[0]);
      ReadFieldsOf(bits, pos + widths[0], values[1..], widths[1..]);
      ReadFieldsCons(bits, pos, values, widths, pos + widths[0], pos + Sum(widths));
    }
  }

  lemma ReadFlagsOf(bits: seq<bool>, pos: nat, flags: seq<bool>, current: seq<bool>)
    requires |current| == |flags| && Cleared(current) && At(bits, pos, flags)
    ensures ReadFlags(bits, pos, current) == Some(GroupRead(flags, pos + |flags|))
  {
    ReadFlagsOr(bits, pos, current);
    AtSlice(bits, pos, flags);
    var r := ReadFlags(bits, pos, current).value;
    forall i | 0 <= i < |flags|
      ensures r.flags[i] == flags[i]
    {
      assert bits[pos + i] == bits[pos..pos + |flags|][i];
    }
    assert r.flags == flags;
  }

  lemma ReadGroupOf(bits: seq<bool>, pos: nat, flags: seq<bool>, current: seq<bool>, p: nat)
    requires |current| == |flags| && !AnySet(current) && At(bits, pos, EncodeGroup(flags))
    requires p == pos + |EncodeGroup(flags)|
    ensures ReadGroup(bits, pos, current) == Some(GroupRead(flags, p))
  {
    assert bits[pos] == EncodeGroup(flags)[0];
    NoneSet(current);
    if AnySet(flags) {
      AtSplit(bits, pos, [true], flags);
      ReadFlagsOf(bits, pos + 1, flags, current);
    } else {
      NoneSet(flags);
      assert current == flags;
    }
  }

  /** `current` has the shape of `groups` with every flag clear: what the
      reader starts from. */
  predicate Blank(groups: seq<seq<bool>>, current: seq<seq<bool>>) {
    && |groups| == |current|
    && (|groups| > 0 ==>
          && |groups[0]| == |current[0]| && !AnySet(current[0])
          && Blank(groups[1..], current[1..]))
  }

  lemma ReadGroupsStep(bits: seq<bool>, pos: nat, current: seq<seq<bool>>, head: GroupRead, more: GroupsRead)
    requires pos <= |bits| && |current| > 0
    requires ReadGroup(bits, pos, current[0]) == Some(head)
    requires head.next <= |bits|
    requires ReadGroups(bits, head.next, current[1..]) == Some(more)
    ensures ReadGroups(bits, pos, current) == Some(GroupsRead([head.flags] + more.groups, more.next))
  {
  }

  /** The inductive step of `ReadGroupsOf`: the first group, then the rest. */
  lemma ReadGroupsCons(bits: seq<bool>, pos: nat, groups: seq<seq<bool>>, current: seq<seq<bool>>, p: nat, q: nat)
    requires |groups| > 0 && |current| > 0 && pos <= |bits|
    requires p == pos + |EncodeGroup(groups[0])| && p <= |bits|
    requires q == p + |EncodeGroups(groups[1..])|
    requires ReadGroup(bits, pos, current[0]) == Some(GroupRead(groups[0], p))
    requires ReadGroups(bits, p, current[1..]) == Some(GroupsRead(groups[1..], q))
    ensures ReadGroups(bits, pos, current) == Some(GroupsRead(groups, pos + |EncodeGroups(groups)|))
  {
    ReadGroupsStep(bits, pos, current, GroupRead(groups[0], p), GroupsRead(groups[1..], q));
    assert groups == [groups[0]] + groups[1..];
  }

  lemma {:induction false} ReadGroupsOf(bits: seq<bool>, pos: nat, groups: seq<seq<bool>>, current: seq<seq<bool>>)
    requires Blank(groups, current) && At(bits, pos, EncodeGroups(groups))
    ensures ReadGroups(bits, pos, current) == Some(GroupsRead(groups, pos + |EncodeGroups(groups)|))
    decreases |groups|
  {
    if |groups| > 0 {
      var p := pos + |EncodeGroup(groups[0])|;
      AtSplit(bits, pos, EncodeGroup(groups[0]), EncodeGroups(groups[1..]));
      ReadGroupOf(bits, pos, groups[0], current[0], p);
      ReadGroupsOf(bits, p, groups[1..], current[1..]);
      ReadGroupsCons(bits, pos, groups, current, p, p + |EncodeGroups(groups[1..])|);
    }
  }

  lemma {:induction false} ClearedNoneSet(flags: seq<bool>)
    requires Cleared(flags)
    ensures !AnySet(flags)
    decreases |flags|
  {
    if |flags| > 0 {
      assert !flags[0];
      assert Cleared(flags[1..]) by {
        forall i | 0 <= i < |flags| - 1
          ensures !flags[1..][i]
        {
          assert flags[1..][i] == flags[i + 1];
        }
      }
      ClearedNoneSet(flags[1..]);
    }
  }

  lemma {:induction false} BlankOf(groups: seq<seq<bool>>, current: seq<seq<bool>>)
    requires SameShape(groups, current)
    requires forall g :: 0 <= g < |current| ==> Cleared(current[g])
    ensures Blank(groups, current)
    decreases |groups|
  {
    if |groups| > 0 {
      ClearedNoneSet(current[0]);
      forall g | 0 <= g < |groups| - 1
        ensures |groups[1..][g]| == |current[1..][g]| && Cleared(current[1..][g])
      {
        assert groups[1..][g] == groups[g + 1] && current[1..][g] == current[g + 1];
      }
      BlankOf(groups[1..], current[1..]);
    }
  }

  /** Every flag of the restrictions is clear. */
  predicate AllClear(start: R.Restrictions) {
    forall g, i :: 0 <= g < |start.groups| && 0 <= i < |start.groups[g]| ==> !start.groups[g][i]
  }

  /** A cleared starting point has the shape of every valid set of
      restrictions. */
  lemma BlankStart(r: R.Restrictions, start: R.Restrictions)
    requires R.Valid(r) && R.Valid(start) && AllClear(start)
    ensures Blank(r.groups, start.groups)
  {
    forall g | 0 <= g < |start.groups|
      ensures Cleared(start.groups[g])
    {
    }
    BlankOf(r.groups, start.groups);
  }

  lemma ReadRestrictionsStep(bits: seq<bool>, pos: nat, r: R.Restrictions, start: R.Restrictions, q: nat)
    requires pos <= |bits| && R.Valid(start)
    requires ReadGroups(bits, pos, start.groups) == Some(GroupsRead(r.groups, q))
    ensures ReadRestrictions(bits, pos, start) == Some(RestrictionsRead(r, q))
  {
  }

  lemma ReadRestrictionsOf(bits: seq<bool>, pos: nat, r: R.Restrictions, start: R.Restrictions, q: nat)
    requires R.Valid(r) && R.Valid(start) && AllClear(start)
    requires At(bits, pos, EncodeGroups(r.groups)) && q == pos + |EncodeGroups(r.groups)|
    ensures ReadRestrictions(bits, pos, start) == Some(RestrictionsRead(r, q))
  {
    BlankStart(r, start);
    ReadGroupsOf(bits, pos, r.groups, start.groups);
    ReadRestrictionsStep(bits, pos, r, start, q);
  }

  /** The reader starts from the defaults, where every flag is clear. */
  lemma DefaultClear()
    ensures R.Valid(R.Default()) && AllClear(R.Default())
  {
  }

  /** The offsets the reader recovers from `EncodeChromaQpOffsets(h)`. */
  function OffsetsOf(k: Constants, h: SegmentHeader, pos: nat): ChromaQpOffsets {
    ChromaQpOffsets(true, h.chromaQpOffsetU, h.chromaQpOffsetV, pos + 1 + 2 * k.chromaOffsetBits)
  }

  lemma ReadChromaQpOffsetsOf(k: Constants, bits: seq<bool>, pos: nat, h: SegmentHeader)
    requires ValidConstants(k) && OffsetsEncodable(k, h)
    requires At(bits, pos, EncodeChromaQpOffsets(k, h))
    ensures ReadChromaQpOffsets(k, bits, pos) == Some(OffsetsOf(k, h, pos))
    ensures |EncodeChromaQpOffsets(k, h)| == 1 + 2 * k.chromaOffsetBits
  {
    var d := k.chromaOffsetBits;
    var u := Uncentered(h.chromaQpOffsetU, d);
    var v := Uncentered(h.chromaQpOffsetV, d);
    AtSplit(bits, pos, [true], ToBits(u, d) + ToBits(v, d));
    AtSplit(bits, pos + 1, ToBits(u, d), ToBits(v, d));
    assert bits[pos] == [true][0];
    ReadBitsOf(bits, pos + 1, u, d);
    ReadBitsOf(bits, pos + 1 + d, v, d);
  }

  /** The deblocking fields the reader recovers from `EncodeDeblock(h)`. */
  function DeblockOf(k: Constants, h: SegmentHeader, pos: nat): DeblockFields {
    if h.deblock == 3
    then DeblockFields(3, h.betaOffset, h.tcOffset, pos + 2 + 2 * k.deblockOffsetBits)
    else DeblockFields(h.deblock, 0, 0, pos + 2)
  }

  lemma ReadDeblockOf(k: Constants, bits: seq<bool>, pos: nat, h: SegmentHeader)
    requires ValidConstants(k) && DeblockEncodable(k, h)
    requires At(bits, pos, EncodeDeblock(k, h))
    ensures ReadDeblock(k, bits, pos) == Some(DeblockOf(k, h, pos))
    ensures |EncodeDeblock(k, h)| == DeblockOf(k, h, pos).next - pos
  {
    var e := k.deblockOffsetBits;
    assert Pow2(2) == 4;
    if h.deblock == 3 {
      var beta := Uncentered(h.betaOffset, e);
      var tc := Uncentered(h.tcOffset, e);
      AtSplit(bits, pos, ToBits(h.deblock, 2), ToBits(beta, e) + ToBits(tc, e));
      AtSplit(bits, pos + 2, ToBits(beta, e), ToBits(tc, e));
      ReadBitsOf(bits, pos, h.deblock, 2);
      ReadBitsOf(bits, pos + 2, beta, e);
      ReadBitsOf(bits, pos + 2 + e, tc, e);
    } else {
      assert EncodeDeblock(k, h) == ToBits(h.deblock, 2) + [];
      AtSplit(bits, pos, ToBits(h.deblock, 2), []);
      ReadBitsOf(bits, pos, h.deblock, 2);
    }
  }

  /** `ReadTail` from the results of its three stages. */
  lemma ReadTailStep(k: Constants, bits: seq<bool>, pos: nat, hIn: SegmentHeader, segmentCounter: nat,
                     o: ChromaQpOffsets, d: DeblockFields, rr: RestrictionsRead)
    requires ValidConstants(k)
    requires ReadChromaQpOffsets(k, bits, pos) == Some(o)
    requires ReadDeblock(k, bits, o.next) == Some(d)
    requires d.next <= |bits| && ReadRestrictions(bits, d.next, R.Default()) == Some(rr)
    ensures ReadTail(k, bits, pos, hIn, segmentCounter) ==
      Some(Outcome(SegmentHeaderDecoded, WithTail(hIn, o, d, rr.restrictions, segmentCounter), rr.restrictions, rr.next))
  {
  }

  /** The three stages of the tail, each reading back what the writer wrote.
      The stage results come back as opaque values described by their
      fields, which keeps the callers' proofs small. */
  lemma TailStagesOf(k: Constants, bits: seq<bool>, pos: nat, h: SegmentHeader, start: R.Restrictions)
    returns (o: ChromaQpOffsets, d: DeblockFields)
    requires ValidConstants(k) && TailEncodable(k, h)
    requires R.Valid(start) && AllClear(start)
    requires At(bits, pos, EncodeTail(k, h))
    ensures ReadChromaQpOffsets(k, bits, pos) == Some(o)
    ensures ReadDeblock(k, bits, o.next) == Some(d) && d.next <= |bits|
    ensures ReadRestrictions(bits, d.next, start) == Some(RestrictionsRead(h.restrictions, pos + |EncodeTail(k, h)|))
    ensures o.present && o.u == h.chromaQpOffsetU && o.v == h.chromaQpOffsetV
    ensures d.mode == h.deblock && (d.mode == 3 ==> d.beta == h.betaOffset && d.tc == h.tcOffset)
  {
    o := OffsetsOf(k, h, pos);
    d := DeblockOf(k, h, o.next);
    var groups := EncodeGroups(h.restrictions.groups);
    AtSplit(bits, pos, EncodeChromaQpOffsets(k, h), EncodeDeblock(k, h) + groups);
    ReadChromaQpOffsetsOf(k, bits, pos, h);
    AtSplit(bits, o.next, EncodeDeblock(k, h), groups);
    ReadDeblockOf(k, bits, o.next, h);
    ReadRestrictionsOf(bits, d.next, h.restrictions, start, pos + |EncodeTail(k, h)|);
  }

  /** The header `hIn` after reading back the tail written from `h`: the
      offsets, the deblocking mode and the restrictions of `h`, the beta and
      tc offsets of `h` only when mode 3 signals them, and the segment
      counter. */
  function TailFrom(hIn: SegmentHeader, h: SegmentHeader, segmentCounter: nat): SegmentHeader {
    hIn.(chromaQpOffsetU := h.chromaQpOffsetU,
         chromaQpOffsetV := h.chromaQpOffsetV,
         deblock := h.deblock,
         betaOffset := if h.deblock == 3 then h.betaOffset else hIn.betaOffset,
         tcOffset := if h.deblock == 3 then h.tcOffset else hIn.tcOffset,
         restrictions := h.restrictions,
         soc := segmentCounter)
  }

  lemma WithTailOf(hIn: SegmentHeader, h: SegmentHeader, segmentCounter: nat, o: ChromaQpOffsets, d: DeblockFields)
    requires o.present && o.u == h.chromaQpOffsetU && o.v == h.chromaQpOffsetV
    requires d.mode == h.deblock && (d.mode == 3 ==> d.beta == h.betaOffset && d.tc == h.tcOffset)
    ensures WithTail(hIn, o, d, h.restrictions, segmentCounter) == TailFrom(hIn, h, segmentCounter)
  {
  }

  lemma ReadTailOf(k: Constants, bits: seq<bool>, pos: nat, h: SegmentHeader, hIn: SegmentHeader, segmentCounter: nat)
    requires ValidConstants(k) && TailEncodable(k, h)
    requires At(bits, pos, EncodeTail(k, h))
    ensures ReadTail(k, bits, pos, hIn, segmentCounter) ==
      Some(Outcome(SegmentHeaderDecoded, TailFrom(hIn, h, segmentCounter), h.restrictions, pos + |EncodeTail(k, h)|))
  {
    DefaultClear();
    var o, d := TailStagesOf(k, bits, pos, h, R.Default());
    var rr := RestrictionsRead(h.restrictions, pos + |EncodeTail(k, h)|);
    ReadTailStep(k, bits, pos, hIn, segmentCounter, o, d, rr);
    WithTailOf(hIn, h, segmentCounter, o, d);
    assert Outcome(SegmentHeaderDecoded, WithTail(hIn, o, d, rr.restrictions, segmentCounter), rr.restrictions, rr.next)
      == Outcome(SegmentHeaderDecoded, TailFrom(hIn, h, segmentCounter), h.restrictions, pos + |EncodeTail(k, h)|);
  }

  /** `r` is a successful read that leaves `header` and the restrictions
      `restrictions` behind and consumes `consumed` bits. */
  predicate DecodedTo(r: Option<Outcome>, header: SegmentHeader, restrictions: R.Restrictions, consumed: nat) {
    && r.Some?
    && r.value.state == SegmentHeaderDecoded
    && r.value.header == header
    && r.value.global == restrictions
    && r.value.consumed == consumed
  }

  /** `ReadBody` from the results of its two stages; the tail starts at `p`. */
  lemma ReadBodyStep(k: Constants, bits: seq<bool>, pos: nat, hIn: SegmentHeader, segmentCounter: nat,
                     coding: Fields, p: nat, t: Outcome)
    requires ValidConstants(k) && pos <= |bits| && p == pos + CodingBits
    requires ReadFields(bits, pos, CodingWidths) == Some(coding)
    requires ReadTail(k, bits, p, WithCoding(hIn, coding.values), segmentCounter) == Some(t)
    ensures ReadBody(k, bits, pos, hIn, segmentCounter) == Some(t)
  {
  }

  lemma ReadBodyOf(k: Constants, bits: seq<bool>, pos: nat, h: SegmentHeader, cv: seq<nat>, hIn: SegmentHeader,
                   segmentCounter: nat)
    requires ValidConstants(k) && TailEncodable(k, h) && Fit(cv, CodingWidths)
    requires At(bits, pos, Serialize(cv, CodingWidths) + EncodeTail(k, h))
    ensures DecodedTo(ReadBody(k, bits, pos, hIn, segmentCounter), TailFrom(WithCoding(hIn, cv), h, segmentCounter),
                      h.restrictions, pos + CodingBits + |EncodeTail(k, h)|)
  {
    var p := pos + CodingBits;
    CodingBitsSum();
    AtSplit(bits, pos, Serialize(cv, CodingWidths), EncodeTail(k, h));
    ReadFieldsOf(bits, pos, cv, CodingWidths);
    var hc := WithCoding(hIn, cv);
    ReadTailOf(k, bits, p, h, hc, segmentCounter);
    var t := Outcome(SegmentHeaderDecoded, TailFrom(hc, h, segmentCounter), h.restrictions, p + |EncodeTail(k, h)|);
    ReadBodyStep(k, bits, pos, hIn, segmentCounter, Fields(cv, pos + Sum(CodingWidths)), p, t);
  }

  /** `ReadFormat` on the path where the bit depth is supported: the body
      read at `p`, just after the format fields. */
  lemma ReadFormatStep(k: Constants, bits: seq<bool>, pos: nat, hIn: SegmentHeader, global: R.Restrictions,
                       segmentCounter: nat, format: Fields, p: nat)
    requires ValidConstants(k) && pos <= |bits| && p == pos + FormatBits
    requires ReadFields(bits, pos, FormatWidths) == Some(format)
    requires format.values[4] + 8 <= k.sampleBits
    ensures ReadFormat(k, bits, pos, hIn, global, segmentCounter) ==
      ReadBody(k, bits, p, WithFormat(hIn, format.values), segmentCounter)
  {
  }

  lemma ReadFormatOf(k: Constants, bits: seq<bool>, pos: nat, h: SegmentHeader, fv: seq<nat>, cv: seq<nat>,
                     hIn: SegmentHeader, global: R.Restrictions, segmentCounter: nat)
    requires ValidConstants(k) && TailEncodable(k, h)
    requires Fit(fv, FormatWidths) && fv[4] + 8 <= k.sampleBits && Fit(cv, CodingWidths)
    requires At(bits, pos, Serialize(fv, FormatWidths) + (Serialize(cv, CodingWidths) + EncodeTail(k, h)))
    ensures DecodedTo(ReadFormat(k, bits, pos, hIn, global, segmentCounter),
                      TailFrom(WithCoding(WithFormat(hIn, fv), cv), h, segmentCounter), h.restrictions,
                      pos + FormatBits + CodingBits + |EncodeTail(k, h)|)
  {
    var p := pos + FormatBits;
    FormatBitsSum();
    AtSplit(bits, pos, Serialize(fv, FormatWidths), Serialize(cv, CodingWidths) + EncodeTail(k, h));
    ReadFieldsOf(bits, pos, fv, FormatWidths);
    ReadBodyOf(k, bits, p, h, cv, WithFormat(hIn, fv), segmentCounter);
    ReadFormatStep(k, bits, pos, hIn, global, segmentCounter, Fields(fv, pos + Sum(FormatWidths)), p);
  }

  /** `Read` on the path where the identifier matches and the major version
      is supported: the format stage at bit 40. */
  lemma ReadStep(k: Constants, bits: seq<bool>, prev: SegmentHeader, global: R.Restrictions, segmentCounter: nat,
                 id: Field, major: Field)
    requires ValidConstants(k)
    requires ReadBits(bits, 0, 24) == Some(id) && id.value == k.codecIdentifier
    requires ReadBits(bits, id.next, 16) == Some(major) && major.value <= k.majorVersion
    ensures Read(k, bits, prev, global, segmentCounter) ==
      ReadFormat(k, bits, 40, prev.(codecIdentifier := id.value, majorVersion := major.value), global, segmentCounter)
  {
  }

  /** The header the reader rebuilds, stage by stage, from what the writer
      wrote is `Decoded(h, prev, segmentCounter)`. */
  lemma Rebuild(h: SegmentHeader, prev: SegmentHeader, segmentCounter: nat)
    requires h.internalBitdepth >= 8
    ensures TailFrom(WithCoding(WithFormat(prev.(codecIdentifier := h.codecIdentifier, majorVersion := h.majorVersion),
                                           FormatValues(h)), CodingValues(h)), h, segmentCounter)
      == Decoded(h, prev, segmentCounter)
  {
  }

  /** The identifier and the major version read back from the first 40 bits. */
  lemma PrefixOf(bits: seq<bool>, id: nat, major: nat)
    requires id < Pow2(24) && major < Pow2(16)
    requires At(bits, 0, ToBits(id, 24)) && At(bits, 24, ToBits(major, 16))
    ensures ReadBits(bits, 0, 24) == Some(Field(id, 24))
    ensures ReadBits(bits, 24, 16) == Some(Field(major, 40))
  {
    ReadBitsOf(bits, 0, id, 24);
    ReadBitsOf(bits, 24, major, 16);
  }

  /** The written header: the identifier, the major version, then the
      format fields at bit 40. */
  lemma PrefixSplit(k: Constants, bits: seq<bool>, h: SegmentHeader)
    requires ValidConstants(k) && At(bits, 0, Encode(k, h))
    ensures At(bits, 0, ToBits(h.codecIdentifier, 24)) && At(bits, 24, ToBits(h.majorVersion, 16))
    ensures At(bits, 40, Serialize(FormatValues(h), FormatWidths) + (Serialize(CodingValues(h), CodingWidths) + EncodeTail(k, h)))
  {
    var fields := Serialize(FormatValues(h), FormatWidths) + (Serialize(CodingValues(h), CodingWidths) + EncodeTail(k, h));
    AtSplitAt(bits, 0, ToBits(h.codecIdentifier, 24), ToBits(h.majorVersion, 16) + fields, 24);
    AtSplitAt(bits, 24, ToBits(h.majorVersion, 16), fields, 40);
  }

  lemma EncodeLength(k: Constants, h: SegmentHeader)
    requires ValidConstants(k)
    ensures |Encode(k, h)| == 40 + FormatBits + CodingBits + |EncodeTail(k, h)|
  {
    FormatBitsSum();
    CodingBitsSum();
  }

  lemma ReadOf(k: Constants, bits: seq<bool>, h: SegmentHeader, prev: SegmentHeader, global: R.Restrictions,
               segmentCounter: nat)
    requires ValidConstants(k) && Encodable(k, h)
    requires At(bits, 0, Encode(k, h))
    ensures DecodedTo(Read(k, bits, prev, global, segmentCounter), Decoded(h, prev, segmentCounter), h.restrictions,
                      |Encode(k, h)|)
  {
    PrefixSplit(k, bits, h);
    PrefixOf(bits, h.codecIdentifier, h.majorVersion);
    EncodeLength(k, h);
    var h2 := prev.(codecIdentifier := h.codecIdentifier, majorVersion := h.majorVersion);
    ReadFormatOf(k, bits, 40, h, FormatValues(h), CodingValues(h), h2, global, segmentCounter);
    ReadStep(k, bits, prev, global, segmentCounter, Field(h.codecIdentifier, 24), Field(h.majorVersion, 40));
    Rebuild(h, prev, segmentCounter);
  }

  /** Round trip: reading a written header, whatever follows it, succeeds,
      consumes exactly the written bits and yields the header written (with
      the earlier deblocking offsets where mode 3 does not signal new ones,
      and the segment counter); its restrictions become the global ones. */
  lemma ReadEncode(k: Constants, h: SegmentHeader, rest: seq<bool>, prev: SegmentHeader, global: R.Restrictions,
                   segmentCounter: nat)
    requires ValidConstants(k) && Encodable(k, h)
    ensures DecodedTo(Read(k, Encode(k, h) + rest, prev, global, segmentCounter), Decoded(h, prev, segmentCounter),
                      h.restrictions, |Encode(k, h)|)
  {
    var e := Encode(k, h);
    assert (e + rest)[0..|e|] == e;
    SliceAt(e + rest, 0, e);
    ReadOf(k, e + rest, h, prev, global, segmentCounter);
  }
}
