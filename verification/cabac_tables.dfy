/** The static tables of the binary arithmetic coder (cabac.cc): the
    32-entry renormalisation table and the 64 x 4 table of least-probable-
    symbol sub-ranges (`rangeTabLps` of ITU-T H.265, clause 9.3.4.3.2).

    The coding engine itself is not modelled; what is proved here are the
    properties of the tables that the engine relies on: the range stays a
    9-bit quantity in [256, 511] after each renormalisation. */
module CabacTables {
  import opened Common

  /** `kRenormTable_`, indexed by `range >> 3`: the left shift that
      renormalises a least-probable-symbol sub-range. */
  const RenormTable: seq<nat> := [
    6, 5, 4, 4, 3, 3, 3, 3,
    2, 2, 2, 2, 2, 2, 2, 2,
    1, 1, 1, 1, 1, 1, 1, 1,
    1, 1, 1, 1, 1, 1, 1, 1
  ]

  /** `kRangeTable_`: row = probability state, column = quarter of the
      current range, `(range >> 6) & 3`. Written as eight blocks of eight
      states so that a row is reached in a few steps. */
  const RangeTable: seq<seq<nat>> :=
    LpsRows0 + LpsRows1 + LpsRows2 + LpsRows3 + LpsRows4 + LpsRows5 + LpsRows6 + LpsRows7

  const LpsRows0: seq<seq<nat>> := [
    [128, 176, 208, 240],
    [128, 167, 197, 227],
    [128, 158, 187, 216],
    [123, 150, 178, 205],
    [116, 142, 169, 195],
    [111, 135, 160, 185],
    [105, 128, 152, 175],
    [100, 122, 144, 166]
  ]
  const LpsRows1: seq<seq<nat>> := [
    [95, 116, 137, 158],
    [90, 110, 130, 150],
    [85, 104, 123, 142],
    [81, 99, 117, 135],
    [77, 94, 111, 128],
    [73, 89, 105, 122],
    [69, 85, 100, 116],
    [66, 80, 95, 110]
  ]
  const LpsRows2: seq<seq<nat>> := [
    [62, 76, 90, 104],
    [59, 72, 86, 99],
    [56, 69, 81, 94],
    [53, 65, 77, 89],
    [51, 62, 73, 85],
    [48, 59, 69, 80],
    [46, 56, 66, 76],
    [43, 53, 63, 72]
  ]
  const LpsRows3: seq<seq<nat>> := [
    [41, 50, 59, 69],
    [39, 48, 56, 65],
    [37, 45, 54, 62],
    [35, 43, 51, 59],
    [33, 41, 48, 56],
    [32, 39, 46, 53],
    [30, 37, 43, 50],
    [29, 35, 41, 48]
  ]
  const LpsRows4: seq<seq<nat>> := [
    [27, 33, 39, 45],
    [26, 31, 37, 43],
    [24, 30, 35, 41],
    [23, 28, 33, 39],
    [22, 27, 32, 37],
    [21, 26, 30, 35],
    [20, 24, 29, 33],
    [19, 23, 27, 31]
  ]
  const LpsRows5: seq<seq<nat>> := [
    [18, 22, 26, 30],
    [17, 21, 25, 28],
    [16, 20, 23, 27],
    [15, 19, 22, 25],
    [14, 18, 21, 24],
    [14, 17, 20, 23],
    [13, 16, 19, 22],
    [12, 15, 18, 21]
  ]
  const LpsRows6: seq<seq<nat>> := [
    [12, 14, 17, 20],
    [11, 14, 16, 19],
    [11, 13, 15, 18],
    [10, 12, 15, 17],
    [10, 12, 14, 16],
    [9, 11, 13, 15],
    [9, 11, 12, 14],
    [8, 10, 12, 14]
  ]
  const LpsRows7: seq<seq<nat>> := [
    [8, 9, 11, 13],
    [7, 9, 11, 12],
    [7, 9, 10, 12],
    [7, 8, 10, 11],
    [6, 8, 9, 11],
    [6, 7, 9, 10],
    [6, 7, 8, 9],
    [2, 2, 2, 2]
  ]

  const NumStates: nat := 64

  /** The renormalisation shift of every index class, written out. */
  lemma RenormClasses(k: nat)
    requires k < |RenormTable|
    ensures k == 0 ==> RenormTable[k] == 6
    ensures k == 1 ==> RenormTable[k] == 5
    ensures 2 <= k < 4 ==> RenormTable[k] == 4
    ensures 4 <= k < 8 ==> RenormTable[k] == 3
    ensures 8 <= k < 16 ==> RenormTable[k] == 2
    ensures 16 <= k ==> RenormTable[k] == 1
  {
  }

  /** Size and range of the renormalisation table, and its ordering. */
  lemma RenormTableShape()
    ensures |RenormTable| == 32
    ensures forall k :: 0 <= k < |RenormTable| ==> 1 <= RenormTable[k] <= 6
    ensures forall i, j :: 0 <= i <= j < |RenormTable| ==> RenormTable[j] <= RenormTable[i]
  {
    forall i, j | 0 <= i <= j < |RenormTable|
      ensures 1 <= RenormTable[i] <= 6 && RenormTable[j] <= RenormTable[i]
    {
      RenormClasses(i);
      RenormClasses(j);
    }
  }

  /** Shifting any sub-range of at least 4 by its table entry lands it in
      [256, 511]: the renormalisation restores the 9-bit range. */
  lemma RenormRestoresRange(r: nat)
    requires 4 <= r < 256
    ensures r / 8 < |RenormTable|
    ensures 256 <= r * Pow2(RenormTable[r / 8]) < 512
  {
    RenormClasses(r / 8);
    assert Pow2(1) == 2 && Pow2(2) == 4 && Pow2(3) == 8;
    assert Pow2(4) == 16 && Pow2(5) == 32 && Pow2(6) == 64;
  }

  /** The properties row `s` of a table `t` has: four entries,
      non-decreasing across the quarters, an 8-bit value, small enough
      that one doubling restores the range on the most-probable path, at
      least 6 unless it is the last (floor) row, and no larger than the
      same column of the row before. */
  predicate RowOk(t: seq<seq<nat>>, s: nat)
    requires s < |t|
  {
    var row := t[s];
    && |row| == 4
    && row[0] <= row[1] <= row[2] <= row[3] < 256
    && (forall q :: 0 <= q < 4 ==> row[q] <= 128 + 64 * q)
    && (s + 1 < |t| ==> 6 <= row[0])
    && (s + 1 < |t| ==> |t[s + 1]| == 4 && forall q :: 0 <= q < 4 ==> t[s + 1][q] <= row[q])
  }

  predicate RowsFrom(t: seq<seq<nat>>, s: nat)
    decreases |t| - s
  {
    s >= |t| || (RowOk(t, s) && RowsFrom(t, s + 1))
  }

  lemma {:induction false} RowsFromSound(t: seq<seq<nat>>, s: nat)
    requires RowsFrom(t, s)
    ensures forall u :: s <= u < |t| ==> RowOk(t, u)
    decreases |t| - s
  {
    if s < |t| {
      RowsFromSound(t, s + 1);
    }
  }

  lemma RowsChunk0()
    requires RowsFrom(RangeTable, 8)
    ensures RowsFrom(RangeTable, 0)
  {
    assert RowsFrom(RangeTable, 7);
    assert RowsFrom(RangeTable, 6);
    assert RowsFrom(RangeTable, 5);
    assert RowsFrom(RangeTable, 4);
    assert RowsFrom(RangeTable, 3);
    assert RowsFrom(RangeTable, 2);
    assert RowsFrom(RangeTable, 1);
    assert RowsFrom(RangeTable, 0);
  }

  lemma RowsChunk1()
    requires RowsFrom(RangeTable, 16)
    ensures RowsFrom(RangeTable, 8)
  {
    assert RowsFrom(RangeTable, 15);
    assert RowsFrom(RangeTable, 14);
    assert RowsFrom(RangeTable, 13);
    assert RowsFrom(RangeTable, 12);
    assert RowsFrom(RangeTable, 11);
    assert RowsFrom(RangeTable, 10);
    assert RowsFrom(RangeTable, 9);
    assert RowsFrom(RangeTable, 8);
  }

  lemma RowsChunk2()
    requires RowsFrom(RangeTable, 24)
    ensures RowsFrom(RangeTable, 16)
  {
    assert RowsFrom(RangeTable, 23);
    assert RowsFrom(RangeTable, 22);
    assert RowsFrom(RangeTable, 21);
    assert RowsFrom(RangeTable, 20);
    assert RowsFrom(RangeTable, 19);
    assert RowsFrom(RangeTable, 18);
    assert RowsFrom(RangeTable, 17);
    assert RowsFrom(RangeTable, 16);
  }

  lemma RowsChunk3()
    requires RowsFrom(RangeTable, 32)
    ensures RowsFrom(RangeTable, 24)
  {
    assert RowsFrom(RangeTable, 31);
    assert RowsFrom(RangeTable, 30);
    assert RowsFrom(RangeTable, 29);
    assert RowsFrom(RangeTable, 28);
    assert RowsFrom(RangeTable, 27);
    assert RowsFrom(RangeTable, 26);
    assert RowsFrom(RangeTable, 25);
    assert RowsFrom(RangeTable, 24);
  }

  lemma RowsChunk4()
    requires RowsFrom(RangeTable, 40)
    ensures RowsFrom(RangeTable, 32)
  {
    assert RowsFrom(RangeTable, 39);
    assert RowsFrom(RangeTable, 38);
    assert RowsFrom(RangeTable, 37);
    assert RowsFrom(RangeTable, 36);
    assert RowsFrom(RangeTable, 35);
    assert RowsFrom(RangeTable, 34);
    assert RowsFrom(RangeTable, 33);
    assert RowsFrom(RangeTable, 32);
  }

  lemma RowsChunk5()
    requires RowsFrom(RangeTable, 48)
    ensures RowsFrom(RangeTable, 40)
  {
    assert RowsFrom(RangeTable, 47);
    assert RowsFrom(RangeTable, 46);
    assert RowsFrom(RangeTable, 45);
    assert RowsFrom(RangeTable, 44);
    assert RowsFrom(RangeTable, 43);
    assert RowsFrom(RangeTable, 42);
    assert RowsFrom(RangeTable, 41);
    assert RowsFrom(RangeTable, 40);
  }

  lemma RowsChunk6()
    requires RowsFrom(RangeTable, 56)
    ensures RowsFrom(RangeTable, 48)
  {
    assert RowsFrom(RangeTable, 55);
    assert RowsFrom(RangeTable, 54);
    assert RowsFrom(RangeTable, 53);
    assert RowsFrom(RangeTable, 52);
    assert RowsFrom(RangeTable, 51);
    assert RowsFrom(RangeTable, 50);
    assert RowsFrom(RangeTable, 49);
    assert RowsFrom(RangeTable, 48);
  }

  lemma RowsChunk7()
    requires RowsFrom(RangeTable, 64)
    ensures RowsFrom(RangeTable, 56)
  {
    assert RowsFrom(RangeTable, 63);
    assert RowsFrom(RangeTable, 62);
    assert RowsFrom(RangeTable, 61);
    assert RowsFrom(RangeTable, 60);
    assert RowsFrom(RangeTable, 59);
    assert RowsFrom(RangeTable, 58);
    assert RowsFrom(RangeTable, 57);
    assert RowsFrom(RangeTable, 56);
  }

  lemma AllRowsOk()
    ensures |RangeTable| == NumStates
    ensures forall s :: 0 <= s < |RangeTable| ==> RowOk(RangeTable, s)
  {
    assert RowsFrom(RangeTable, 64);
    RowsChunk7(); RowsChunk6(); RowsChunk5(); RowsChunk4();
    RowsChunk3(); RowsChunk2(); RowsChunk1(); RowsChunk0();
    RowsFromSound(RangeTable, 0);
  }

  /** Shape of the range table: 64 rows of 4, each row non-decreasing
      across its columns, each column non-increasing down the states, and
      the last row the floor state {2, 2, 2, 2}. */
  lemma RangeTableShape()
    ensures |RangeTable| == 64
    ensures forall s :: 0 <= s < |RangeTable| ==>
              && |RangeTable[s]| == 4
              && RangeTable[s][0] <= RangeTable[s][1] <= RangeTable[s][2] <= RangeTable[s][3]
    ensures forall s, u, q :: 0 <= s <= u < |RangeTable| && 0 <= q < 4 ==>
              |RangeTable[s]| == 4 && |RangeTable[u]| == 4 && RangeTable[u][q] <= RangeTable[s][q]
    ensures RangeTable[63] == [2, 2, 2, 2]
  {
    AllRowsOk();
    forall s | 0 <= s < |RangeTable|
      ensures |RangeTable[s]| == 4
      ensures RangeTable[s][0] <= RangeTable[s][1] <= RangeTable[s][2] <= RangeTable[s][3]
    {
      assert RowOk(RangeTable, s);
    }
    forall s, u, q | 0 <= s <= u < |RangeTable| && 0 <= q < 4
      ensures |RangeTable[s]| == 4 && |RangeTable[u]| == 4 && RangeTable[u][q] <= RangeTable[s][q]
    {
      ColumnDescends(RangeTable, s, u, q);
    }
  }

  lemma {:induction false} ColumnDescends(t: seq<seq<nat>>, s: nat, u: nat, q: nat)
    requires s <= u < |t| && q < 4
    requires forall v :: 0 <= v < |t| ==> RowOk(t, v)
    ensures |t[s]| == 4 && |t[u]| == 4
    ensures t[u][q] <= t[s][q]
    decreases u - s
  {
    assert RowOk(t, s);
    if s < u {
      ColumnDescends(t, s + 1, u, q);
    }
  }

  /** Both paths of a coded bin end in a valid range for every state
      below the floor state and every range quarter: the least-probable
      sub-range renormalised by the table lands in [256, 511], and on the
      most-probable path the remainder of any range of that quarter is at
      least 128, so one doubling restores it. */
  lemma CodingStepRestoresRange(s: nat, range: nat)
    requires s < NumStates - 1
    requires 256 <= range < 512
    ensures |RangeTable[s]| == 4
    ensures var lps := RangeTable[s][(range / 64) % 4];
            && 6 <= lps
            && lps / 8 < |RenormTable|
            && 256 <= lps * Pow2(RenormTable[lps / 8]) < 512
            && 128 <= range - lps
  {
    AllRowsOk();
    assert RowOk(RangeTable, s);
    var k := range / 64;
    assert 4 <= k < 8 && 64 * k <= range;
    var q := k % 4;
    assert q == k - 4;
    var lps := RangeTable[s][q];
    assert 6 <= lps <= 128 + 64 * q;
    RenormRestoresRange(lps);
  }
}
