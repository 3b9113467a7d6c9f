/** The quad-tree recursion of the coding-unit encoder (`CompressCu` and
    `CompressSplitCu`): at every CU the encoder compares coding it whole
    (`CompressNoSplit`) with splitting it into its sub-CUs, and keeps the
    split only when it is strictly cheaper.

    The tree the encoder would build by `SplitQuad` is an input: every
    node carries the oracle outcomes of its own no-split evaluation and the
    bit counts the syntax writer reports for the two branches; sub-CUs that
    lie outside the picture (null in the source) are absent. */
module CuTree {
  import opened Common
  import opened CuEncoder
  import R = Restrictions

  /** A CU as the decision sees it. `fullBits` and `splitBits` are the bits
      written for the whole-CU branch and for the split branch. */
  datatype CuNode = CuNode(depth: nat, width: nat, height: nat, fullyInside: bool,
                           flags: CuFlags, input: NoSplitInput,
                           fullBits: nat, splitBits: nat, subs: seq<CuNode>)

  /** The largest transform: 64, or 32 under `disable_ext_transform_size_64`. */
  function MaxTrSize(r: R.Restrictions): (s: nat)
    ensures s == 32 || s == 64
    ensures s == 32 <==> R.DisableExtTransformSize64(r)
  {
    if R.DisableExtTransformSize64(r) then 32 else 64
  }

  /** `do_full`: the CU may be coded whole. */
  predicate DoFull(r: R.Restrictions, node: CuNode) {
    node.fullyInside && node.width <= MaxTrSize(r) && node.height <= MaxTrSize(r)
  }

  /** What `CompressCu` demands: below the maximum depth or codable whole
      (the source asserts `do_split || do_full`), evaluation inputs wherever
      the whole-CU branch runs, and sub-CUs one level deeper. */
  predicate Compressible(r: R.Restrictions, pic: Picture, node: CuNode)
    decreases node
  {
    && (node.depth < pic.maxDepth || DoFull(r, node))
    && (DoFull(r, node) ==> ValidInput(pic, node.flags, node.input))
    && forall i :: 0 <= i < |node.subs| ==>
         node.subs[i].depth == node.depth + 1 && Compressible(r, pic, node.subs[i])
  }

  /** The coding chosen for a CU: whole, or split at `depth` into the
      decisions of its sub-CUs with their total distortion and the split
      flags the branch writes. */
  datatype Decision =
    | Whole(outcome: NoSplitOutcome)
    | Split(depth: nat, children: seq<Decision>, dist: nat, written: seq<bool>)
  {
    function Dist(): nat {
      if Whole? then outcome.score.dist else dist
    }
  }

  function SumDist(ds: seq<Decision>): nat {
    if |ds| == 0 then 0 else ds[0].Dist() + SumDist(ds[1..])
  }

  /** The split flags the children's branches wrote, in order. */
  function Written(d: Decision): seq<bool> {
    if d.Whole? then d.outcome.written else d.written
  }

  function AllWritten(ds: seq<Decision>): seq<bool> {
    if |ds| == 0 then [] else Written(ds[0]) + AllWritten(ds[1..])
  }

  /** Every split total is the sum of its children's distortions. */
  predicate Summed(d: Decision) {
    d.Split? ==> d.dist == SumDist(d.children) && forall i :: 0 <= i < |d.children| ==> Summed(d.children[i])
  }

  /** Every split lies above the maximum depth and every whole CU has a
      consistent skip/root-cbf pair. */
  predicate Sound(pic: Picture, d: Decision) {
    if d.Whole? then Consistent(d.outcome.score.flags)
    else d.depth < pic.maxDepth && forall i :: 0 <= i < |d.children| ==> Sound(pic, d.children[i])
  }

  /** `CompressNoSplit` applied to this CU. */
  function WholeOf(r: R.Restrictions, cost: CostFn, pic: Picture, node: CuNode): (o: NoSplitOutcome)
    requires ValidInput(pic, node.flags, node.input)
  {
    CompressNoSplit(r, cost, pic, node.depth, node.flags, node.input)
  }

  /** `CompressCu`: at the maximum depth the CU is coded whole; otherwise
      the split branch is evaluated, and kept when its cost is strictly
      below the whole branch's (infinite when the CU cannot be coded
      whole). */
  function CompressCu(r: R.Restrictions, cost: CostFn, pic: Picture, node: CuNode): (d: Decision)
    requires Compressible(r, pic, node)
    ensures node.depth >= pic.maxDepth ==> d.Whole?
    ensures d.Split? <==>
      && node.depth < pic.maxDepth
      && (!DoFull(r, node)
          || cost(CompressSplitCu(r, cost, pic, node).dist, node.splitBits)
             < cost(WholeOf(r, cost, pic, node).score.dist, node.fullBits))
    ensures d.Whole? ==> d.outcome == WholeOf(r, cost, pic, node)
    ensures d.Split? ==> d == CompressSplitCu(r, cost, pic, node)
    ensures Summed(d) && Sound(pic, d)
    decreases node, 1
  {
    if node.depth >= pic.maxDepth then
      Whole(WholeOf(r, cost, pic, node))
    else
      var split := CompressSplitCu(r, cost, pic, node);
      var fullCost := if DoFull(r, node) then Some(cost(WholeOf(r, cost, pic, node).score.dist, node.fullBits)) else None;
      if Below(cost(split.dist, node.splitBits), fullCost) then split
      else Whole(WholeOf(r, cost, pic, node))
  }

  /** `CompressSplitCu`: the sub-CUs compressed in order, their distortions
      summed, and the split flag (true) written after them only when the CU
      lies fully inside the picture. */
  function CompressSplitCu(r: R.Restrictions, cost: CostFn, pic: Picture, node: CuNode): (d: Decision)
    requires Compressible(r, pic, node) && node.depth < pic.maxDepth
    ensures d.Split? && d.depth == node.depth && |d.children| == |node.subs|
    ensures forall j :: 0 <= j < |node.subs| ==> d.children[j] == CompressCu(r, cost, pic, node.subs[j])
    ensures d.dist == SumDist(d.children)
    ensures d.written == AllWritten(d.children) + (if node.fullyInside then [true] else [])
    ensures Summed(d) && Sound(pic, d)
    decreases node, 0
  {
    var children := seq(|node.subs|, j requires 0 <= j < |node.subs| => CompressCu(r, cost, pic, node.subs[j]));
    Split(node.depth, children, SumDist(children),
          AllWritten(children) + (if node.fullyInside then [true] else []))
  }

  // ---------------------------------------------------------------------
  // The leaves of a decision
  // ---------------------------------------------------------------------

  /** The whole-coded CUs of a decision, left to right. */
  function Leaves(d: Decision): seq<NoSplitOutcome>
    decreases d, 1
  {
    if d.Whole? then [d.outcome] else LeavesOf(d.children)
  }

  function LeavesOf(ds: seq<Decision>): seq<NoSplitOutcome>
    decreases ds, 0
  {
    if |ds| == 0 then [] else Leaves(ds[0]) + LeavesOf(ds[1..])
  }

  function LeafDist(os: seq<NoSplitOutcome>): nat {
    if |os| == 0 then 0 else os[0].score.dist + LeafDist(os[1..])
  }

  lemma {:induction false} LeafDistAppend(a: seq<NoSplitOutcome>, b: seq<NoSplitOutcome>)
    ensures LeafDist(a + b) == LeafDist(a) + LeafDist(b)
    decreases |a|
  {
    if |a| > 0 {
      assert (a + b)[1..] == a[1..] + b;
      LeafDistAppend(a[1..], b);
    } else {
      assert a + b == b;
    }
  }

  /** The distortion `CompressCu` returns is the sum of the distortions of
      the CUs it codes whole. */
  lemma {:induction false} DistIsLeafSum(d: Decision)
    requires Summed(d)
    ensures d.Dist() == LeafDist(Leaves(d))
    decreases d, 1
  {
    if d.Split? {
      DistIsLeafSumOf(d.children);
    }
  }

  lemma {:induction false} DistIsLeafSumOf(ds: seq<Decision>)
    requires forall i :: 0 <= i < |ds| ==> Summed(ds[i])
    ensures SumDist(ds) == LeafDist(LeavesOf(ds))
    decreases ds, 0
  {
    if |ds| > 0 {
      DistIsLeafSum(ds[0]);
      DistIsLeafSumOf(ds[1..]);
      LeafDistAppend(Leaves(ds[0]), LeavesOf(ds[1..]));
    }
  }

  /** Every CU the tree codes whole has a consistent skip/root-cbf pair. */
  lemma {:induction false} LeavesConsistent(pic: Picture, d: Decision)
    requires Sound(pic, d)
    ensures forall k :: 0 <= k < |Leaves(d)| ==> Consistent(Leaves(d)[k].score.flags)
    decreases d, 1
  {
    if d.Split? {
      LeavesConsistentOf(pic, d.children);
    }
  }

  lemma {:induction false} LeavesConsistentOf(pic: Picture, ds: seq<Decision>)
    requires forall i :: 0 <= i < |ds| ==> Sound(pic, ds[i])
    ensures forall k :: 0 <= k < |LeavesOf(ds)| ==> Consistent(LeavesOf(ds)[k].score.flags)
    decreases ds, 0
  {
    if |ds| > 0 {
      LeavesConsistent(pic, ds[0]);
      LeavesConsistentOf(pic, ds[1..]);
    }
  }

  /** The tree `CompressCu` chooses: its distortion is that of the CUs it
      codes whole, each of which is consistent. */
  lemma CompressCuLeaves(r: R.Restrictions, cost: CostFn, pic: Picture, node: CuNode)
    requires Compressible(r, pic, node)
    ensures CompressCu(r, cost, pic, node).Dist() == LeafDist(Leaves(CompressCu(r, cost, pic, node)))
    ensures forall k :: 0 <= k < |Leaves(CompressCu(r, cost, pic, node))| ==>
              Consistent(Leaves(CompressCu(r, cost, pic, node))[k].score.flags)
  {
    var d := CompressCu(r, cost, pic, node);
    DistIsLeafSum(d);
    LeavesConsistent(pic, d);
  }
}
