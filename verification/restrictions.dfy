/** The codec's restriction flags: boolean "disable X" switches that force
    a simplified behaviour at a decision point. In the source they live in a
    process-wide singleton; here they are one immutable value threaded
    through every call that reads them.

    The flags are stored in the seven groups in which the segment header
    signals them (intra, inter, transform, cabac, deblock, high level,
    extension), each group a sequence of flags in signalling order. */
module Restrictions {

  const IntraGroup: nat := 0
  const InterGroup: nat := 1
  const TransformGroup: nat := 2
  const CabacGroup: nat := 3
  const DeblockGroup: nat := 4
  const HighLevelGroup: nat := 5
  const ExtGroup: nat := 6

  /** Number of flags in each group, in signalling order. */
  const GroupSizes: seq<nat> := [7, 12, 9, 11, 9, 1, 13]

  datatype Restrictions = Restrictions(groups: seq<seq<bool>>)

  /** Every group is present and holds exactly its number of flags. */
  predicate Valid(r: Restrictions) {
    && |r.groups| == |GroupSizes|
    && forall g :: 0 <= g < |GroupSizes| ==> |r.groups[g]| == GroupSizes[g]
  }

  function AllFalse(n: nat): (s: seq<bool>)
    ensures |s| == n
    ensures forall i :: 0 <= i < n ==> !s[i]
  {
    seq(n, _ => false)
  }

  /** `Restrictions()`: every flag cleared. */
  function Default(): (r: Restrictions)
    ensures Valid(r)
    ensures forall g, i :: 0 <= g < |r.groups| && 0 <= i < |r.groups[g]| ==> !r.groups[g][i]
  {
    Restrictions(seq(|GroupSizes|, g requires 0 <= g < |GroupSizes| => AllFalse(GroupSizes[g])))
  }

  /** Read one flag; a missing flag reads as cleared. */
  function Flag(r: Restrictions, group: nat, index: nat): bool {
    group < |r.groups| && index < |r.groups[group]| && r.groups[group][index]
  }

  // The flags read by the modelled encoder and context derivations.

  function DisableInterMergeCandidates(r: Restrictions): bool {
    Flag(r, InterGroup, 5)
  }

  function DisableInterMergeMode(r: Restrictions): bool {
    Flag(r, InterGroup, 6)
  }

  function DisableTransformRootCbf(r: Restrictions): bool {
    Flag(r, TransformGroup, 4)
  }

  function DisableTransformCbf(r: Restrictions): bool {
    Flag(r, TransformGroup, 5)
  }

  function DisableCabacSubblockCsbfCtx(r: Restrictions): bool {
    Flag(r, CabacGroup, 4)
  }

  function DisableCabacCoeffSigCtx(r: Restrictions): bool {
    Flag(r, CabacGroup, 5)
  }

  function DisableCabacCoeffGreater1Ctx(r: Restrictions): bool {
    Flag(r, CabacGroup, 6)
  }

  function DisableCabacCoeffGreater2Ctx(r: Restrictions): bool {
    Flag(r, CabacGroup, 7)
  }

  function DisableCabacCoeffLastPosCtx(r: Restrictions): bool {
    Flag(r, CabacGroup, 8)
  }

  function DisableExtTransformSize64(r: Restrictions): bool {
    Flag(r, ExtGroup, 10)
  }
}
