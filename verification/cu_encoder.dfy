/** Rate-distortion decisions of the coding-unit encoder (`CuEncoder`,
    non-strict build): which residual a candidate keeps, which merge
    candidate wins, and which prediction mode a CU that is not split is
    coded with.

    What the decisions consume but do not compute is an input: the
    distortions (prediction, transform and reconstruction), the bit counts
    (the syntax writers) and the cost of a (distortion, bits) pair, which
    the source computes in floating point as `dist + round(bits * lambda)`. */
module CuEncoder {
  import opened Common
  import R = Restrictions

  /** The rate-distortion cost of a distortion and a bit count. */
  type CostFn = (nat, nat) -> nat

  /** The flags of a CU that the decisions read and write; `cbf` holds the
      coded block flags of Y, U and V. */
  datatype CuFlags = CuFlags(cbf: seq<bool>, rootCbf: bool, skip: bool, merge: bool)

  /** `n` components are coded (one for a monochrome picture, else three);
      the planes beyond them never carry a coded block flag. */
  predicate ValidFlags(f: CuFlags, n: nat) {
    && n <= 3
    && |f.cbf| == 3
    && forall c :: n <= c < 3 ==> !f.cbf[c]
  }

  /** `CodingUnit::GetHasAnyCbf`. */
  predicate AnyCbf(cbf: seq<bool>) {
    true in cbf
  }

  /** The flag invariant of a finished CU: the root flag summarises the
      component flags, and a skipped CU carries no residual. */
  predicate Consistent(f: CuFlags) {
    && f.rootCbf == AnyCbf(f.cbf)
    && (f.skip ==> !f.rootCbf)
  }

  /** What the encoder learns about one component of a candidate: the coded
      block flag the transform produced, the distortion with that residual
      and with none (prediction only), and the bits of signalling the
      residual and of signalling a zero cbf. */
  datatype ComponentEval = ComponentEval(cbf: bool, distOrig: nat, distZero: nat, bitsNonZero: nat, bitsZero: nat)

  /** Bits of coding every residual, and of signalling none by the skip flag
      or by a zero root cbf. */
  datatype RootBits = RootBits(nonZero: nat, skipFlag: nat, rootCbf: nat)

  /** A candidate prediction: one evaluation per coded component, the root
      bits, and the bits of writing the CU with given flags. */
  datatype Candidate = Candidate(evals: seq<ComponentEval>, bits: RootBits, writeBits: CuFlags -> nat)

  /** An evaluated alternative (`RdoCost` with the CU state it leaves). */
  datatype Scored = Scored(cost: nat, dist: nat, flags: CuFlags)

  /** `a < b` on costs, where a missing bound is the largest cost. */
  predicate Below(a: nat, b: Option<nat>) {
    b.None? || a < b.value
  }

  function CostOf(best: Option<Scored>): Option<nat> {
    if best.None? then None else Some(best.value.cost)
  }

  /** Entry `i` is the first minimum of `costs`. */
  predicate FirstMin(costs: seq<nat>, i: int) {
    && 0 <= i < |costs|
    && (forall k :: 0 <= k < |costs| ==> costs[i] <= costs[k])
    && (forall k :: 0 <= k < i ==> costs[i] < costs[k])
  }

  // ---------------------------------------------------------------------
  // Zeroing one component, and the whole residual

  datatype CbfChoice = CbfChoice(forced: bool, cbf: seq<bool>)

  /** `EvalCbfZero`: drop the residual of component `c` when coding it as
      zero is strictly cheaper. */
  function EvalCbfZero(cost: CostFn, cbf: seq<bool>, c: nat, e: ComponentEval): (d: CbfChoice)
    requires c < |cbf|
    ensures |d.cbf| == |cbf|
    ensures forall i :: 0 <= i < |cbf| && i != c ==> d.cbf[i] == cbf[i]
    ensures !cbf[c] ==> !d.forced && d.cbf == cbf
    ensures cbf[c] ==> (d.forced <==> cost(e.distZero, e.bitsZero) < cost(e.distOrig, e.bitsNonZero))
    ensures d.cbf[c] == (cbf[c] && !d.forced)
  {
    if !cbf[c] then
      CbfChoice(false, cbf)
    else if cost(e.distZero, e.bitsZero) < cost(e.distOrig, e.bitsNonZero) then
      CbfChoice(true, cbf[c := false])
    else
      CbfChoice(false, cbf)
  }

  /** `EvalRootCbfZero`: drop every residual when signalling none (by the
      skip flag when the CU is skipped, else by a zero root cbf) is strictly
      cheaper than coding them all. */
  function EvalRootCbfZero(cost: CostFn, skip: bool, sumNonZero: nat, sumZero: nat, bits: RootBits): bool {
    cost(sumZero, if skip then bits.skipFlag else bits.rootCbf) < cost(sumNonZero, bits.nonZero)
  }

  /** Component `e` has its residual zeroed by the per-component decision. */
  predicate Forced(r: R.Restrictions, cost: CostFn, e: ComponentEval) {
    && !R.DisableTransformCbf(r)
    && e.cbf
    && cost(e.distZero, e.bitsZero) < cost(e.distOrig, e.bitsNonZero)
  }

  /** Component `e` keeps a residual after the per-component decision. */
  predicate Kept(r: R.Restrictions, cost: CostFn, e: ComponentEval) {
    e.cbf && !Forced(r, cost, e)
  }

  predicate AnyKept(r: R.Restrictions, cost: CostFn, evals: seq<ComponentEval>) {
    exists c :: 0 <= c < |evals| && Kept(r, cost, evals[c])
  }

  /** Total distortion after the per-component decisions. */
  function KeptDist(r: R.Restrictions, cost: CostFn, evals: seq<ComponentEval>): nat {
    if |evals| == 0 then 0
    else (if Forced(r, cost, evals[0]) then evals[0].distZero else evals[0].distOrig) + KeptDist(r, cost, evals[1..])
  }

  /** Total distortion of the prediction alone. */
  function SumZero(evals: seq<ComponentEval>): nat {
    if |evals| == 0 then 0 else evals[0].distZero + SumZero(evals[1..])
  }

  /** The whole residual is dropped after the per-component decisions. */
  predicate RootZeroed(r: R.Restrictions, cost: CostFn, evals: seq<ComponentEval>, bits: RootBits) {
    && AnyKept(r, cost, evals)
    && !(R.DisableTransformCbf(r) && R.DisableTransformRootCbf(r))
    && cost(SumZero(evals), bits.rootCbf) < cost(KeptDist(r, cost, evals), bits.nonZero)
  }

  /** Running state of the per-component loop of `CompressAndEvalCbf`; in
      the non-strict build the fast distortion is the reconstructed one, so
      `sum_dist_fast` and `final_dist` coincide and are one field here. */
  datatype CbfAcc = CbfAcc(cbf: seq<bool>, modified: seq<bool>, dist: nat, sumZero: nat)

  /** One iteration of the per-component loop: the transform sets the
      component's cbf, then `EvalCbfZero` may clear it. */
  function ComponentStep(r: R.Restrictions, cost: CostFn, e: ComponentEval, c: nat, acc: CbfAcc): (next: CbfAcc)
    requires c < 3 && |acc.cbf| == 3 && |acc.modified| == 3
    ensures |next.cbf| == 3 && |next.modified| == 3
    ensures next.cbf[c] == Kept(r, cost, e) && next.modified[c] == Forced(r, cost, e)
    ensures forall i :: 0 <= i < 3 && i != c ==> next.cbf[i] == acc.cbf[i] && next.modified[i] == acc.modified[i]
    ensures next.dist == acc.dist + (if Forced(r, cost, e) then e.distZero else e.distOrig)
    ensures next.sumZero == acc.sumZero + e.distZero
  {
    var coded := acc.cbf[c := e.cbf];
    var d := if R.DisableTransformCbf(r) then CbfChoice(false, coded) else EvalCbfZero(cost, coded, c, e);
    var dist := if d.forced then e.distZero else e.distOrig;
    CbfAcc(d.cbf, acc.modified[c := d.forced], acc.dist + dist, acc.sumZero + e.distZero)
  }

  function EvalComponents(r: R.Restrictions, cost: CostFn, evals: seq<ComponentEval>, c: nat, acc: CbfAcc): (out: CbfAcc)
    requires c <= |evals| <= 3 && |acc.cbf| == 3 && |acc.modified| == 3
    ensures |out.cbf| == 3 && |out.modified| == 3
    decreases |evals| - c
  {
    if c == |evals| then acc
    else EvalComponents(r, cost, evals, c + 1, ComponentStep(r, cost, evals[c], c, acc))
  }

  lemma {:induction false} EvalComponentsSpec(r: R.Restrictions, cost: CostFn, evals: seq<ComponentEval>, c: nat, acc: CbfAcc)
    requires c <= |evals| <= 3 && |acc.cbf| == 3 && |acc.modified| == 3
    ensures var out := EvalComponents(r, cost, evals, c, acc);
      && (forall i :: 0 <= i < 3 && !(c <= i < |evals|) ==> out.cbf[i] == acc.cbf[i] && out.modified[i] == acc.modified[i])
      && (forall i :: c <= i < |evals| ==> out.cbf[i] == Kept(r, cost, evals[i]) && out.modified[i] == Forced(r, cost, evals[i]))
      && out.dist == acc.dist + KeptDist(r, cost, evals[c..])
      && out.sumZero == acc.sumZero + SumZero(evals[c..])
    decreases |evals| - c
  {
    if c < |evals| {
      var next := ComponentStep(r, cost, evals[c], c, acc);
      EvalComponentsSpec(r, cost, evals, c + 1, next);
      assert evals[c..][1..] == evals[c + 1..];
    }
  }

  /** Clear the flags of the modified components (the final loop over
      every component of `CompressAndEvalCbf`). */
  function ClearModified(cbf: seq<bool>, modified: seq<bool>): (out: seq<bool>)
    requires |cbf| == 3 && |modified| == 3
  {
    [cbf[0] && !modified[0], cbf[1] && !modified[1], cbf[2] && !modified[2]]
  }

  lemma AnyCbfThree(cbf: seq<bool>)
    requires |cbf| == 3
    ensures AnyCbf(cbf) <==> cbf[0] || cbf[1] || cbf[2]
  {
    assert cbf == [cbf[0], cbf[1], cbf[2]];
  }

  /** The state after the per-component loop of `CompressAndEvalCbf`. */
  function Components(r: R.Restrictions, cost: CostFn, flags: CuFlags, evals: seq<ComponentEval>): (a: CbfAcc)
    requires ValidFlags(flags, |evals|)
    ensures |a.cbf| == 3 && |a.modified| == 3
    ensures forall i :: 0 <= i < |evals| ==> a.cbf[i] == Kept(r, cost, evals[i]) && a.modified[i] == Forced(r, cost, evals[i])
    ensures forall i :: |evals| <= i < 3 ==> !a.cbf[i] && !a.modified[i]
    ensures a.dist == KeptDist(r, cost, evals) && a.sumZero == SumZero(evals)
    ensures AnyCbf(a.cbf) == AnyKept(r, cost, evals)
  {
    var acc := CbfAcc(flags.cbf, [false, false, false], 0, 0);
    EvalComponentsSpec(r, cost, evals, 0, acc);
    assert evals[0..] == evals;
    var a := EvalComponents(r, cost, evals, 0, acc);
    AnyCbfThree(a.cbf);
    assert AnyCbf(a.cbf) ==> AnyKept(r, cost, evals);
    assert AnyKept(r, cost, evals) ==> AnyCbf(a.cbf) by {
      if AnyKept(r, cost, evals) {
        var c :| 0 <= c < |evals| && Kept(r, cost, evals[c]);
        assert a.cbf[c];
      }
    }
    a
  }

  datatype CbfOutcome = CbfOutcome(dist: nat, distZero: nat, flags: CuFlags)

  /** The flags after the root decision: every modified component, and
      with `forceAll` every coded one, loses its residual. */
  function RootFlags(flags: CuFlags, a: CbfAcc, forceAll: bool): (f: CuFlags)
    requires |a.cbf| == 3 && |a.modified| == 3
    ensures |f.cbf| == 3 && Consistent(f) && f.merge == flags.merge && f.skip == (flags.merge && !f.rootCbf)
    ensures forall i :: 0 <= i < 3 ==> f.cbf[i] == (a.cbf[i] && !a.modified[i] && !forceAll)
  {
    var modified := if forceAll then [a.modified[0] || a.cbf[0], a.modified[1] || a.cbf[1], a.modified[2] || a.cbf[2]]
                    else a.modified;
    var cbf := ClearModified(a.cbf, modified);
    AnyCbfThree(cbf);
    flags.(cbf := cbf, rootCbf := AnyCbf(cbf), skip := flags.merge && !AnyCbf(cbf))
  }

  /** `CompressAndEvalCbf`: per-component cbf decisions, then the decision
      to drop the whole residual, then the root cbf and skip flags. A
      component keeps its residual only if the transform produced one,
      zeroing it alone was not strictly cheaper, and dropping every residual
      was not strictly cheaper either. */
  function CompressAndEvalCbf(r: R.Restrictions, cost: CostFn, flags: CuFlags, evals: seq<ComponentEval>, bits: RootBits): (o: CbfOutcome)
    requires ValidFlags(flags, |evals|)
    ensures ValidFlags(o.flags, |evals|) && Consistent(o.flags)
    ensures o.flags.merge == flags.merge && o.flags.skip == (flags.merge && !o.flags.rootCbf)
    ensures o.distZero == SumZero(evals)
    ensures o.dist == if RootZeroed(r, cost, evals, bits) then SumZero(evals) else KeptDist(r, cost, evals)
    ensures forall c :: 0 <= c < |evals| ==> o.flags.cbf[c] == (Kept(r, cost, evals[c]) && !RootZeroed(r, cost, evals, bits))
  {
    var a := Components(r, cost, flags, evals);
    var rootCbf := AnyCbf(a.cbf);
    var skip := flags.merge && !rootCbf;
    var forceAll := rootCbf && !(R.DisableTransformCbf(r) && R.DisableTransformRootCbf(r))
                    && EvalRootCbfZero(cost, skip, a.dist, a.sumZero, bits);
    assert forceAll == RootZeroed(r, cost, evals, bits);
    CbfOutcome(if forceAll then a.sumZero else a.dist, a.sumZero, RootFlags(flags, a, forceAll))
  }

  /** In `CompressAndEvalCbf` the residual-free alternative is always costed
      with the root-cbf syntax: the skip flag was just set to `merge && !root`
      with the root cbf set, so the skip branch of `EvalRootCbfZero` is never
      taken from there. */
  lemma RootZeroUsesRootCbfBits(r: R.Restrictions, cost: CostFn, flags: CuFlags, evals: seq<ComponentEval>, bits: RootBits)
    requires ValidFlags(flags, |evals|)
    ensures RootZeroed(r, cost, evals, bits) ==>
      EvalRootCbfZero(cost, false, KeptDist(r, cost, evals), SumZero(evals), bits)
    ensures RootZeroed(r, cost, evals, bits) ==> CompressAndEvalCbf(r, cost, flags, evals, bits).dist == CompressAndEvalCbf(r, cost, flags, evals, bits).distZero
  {
  }

  datatype SkipOutcome = SkipOutcome(dist: nat, flags: CuFlags)

  function ClearFirst(cbf: seq<bool>, n: nat): (out: seq<bool>)
    requires |cbf| == 3
  {
    [n <= 0 && cbf[0], n <= 1 && cbf[1], n <= 2 && cbf[2]]
  }

  /** `CompressSkipOnly`: the CU is coded as skipped, with the prediction as
      its reconstruction. */
  function CompressSkipOnly(flags: CuFlags, evals: seq<ComponentEval>): (o: SkipOutcome)
    requires ValidFlags(flags, |evals|)
    ensures o.flags.skip && !o.flags.rootCbf && !AnyCbf(o.flags.cbf)
    ensures o.flags.merge == flags.merge
    ensures ValidFlags(o.flags, |evals|) && Consistent(o.flags)
    ensures o.dist == SumZero(evals)
  {
    var cbf := ClearFirst(flags.cbf, |evals|);
    AnyCbfThree(cbf);
    SkipOutcome(SumSkip(evals, 0), flags.(skip := true, rootCbf := false, cbf := cbf))
  }

  /** The distortion of the motion-compensated prediction summed over the
      components from `c` on (the `calc_distortion` loop). */
  function SumSkip(evals: seq<ComponentEval>, c: nat): (d: nat)
    requires c <= |evals|
    ensures d == SumZero(evals[c..])
    decreases |evals| - c
  {
    if c == |evals| then 0
    else
      assert evals[c..][1..] == evals[c + 1..];
      evals[c].distZero + SumSkip(evals, c + 1)
  }

  // ---------------------------------------------------------------------
  // Scoring a candidate

  /** `ComputeDistCostNoSplit`: cost of the CU as its flags now stand. */
  function CostNoSplit(cost: CostFn, cand: Candidate, dist: nat, flags: CuFlags): Scored {
    Scored(cost(dist, cand.writeBits(flags)), dist, flags)
  }

  /** A candidate evaluated with residual and cbf decisions. */
  function FullScore(r: R.Restrictions, cost: CostFn, flags: CuFlags, cand: Candidate): (s: Scored)
    requires ValidFlags(flags, |cand.evals|)
    ensures ValidFlags(s.flags, |cand.evals|) && Consistent(s.flags) && s.flags.merge == flags.merge
  {
    var o := CompressAndEvalCbf(r, cost, flags, cand.evals, cand.bits);
    CostNoSplit(cost, cand, o.dist, o.flags)
  }

  /** A candidate evaluated as a skipped CU. */
  function SkipScore(cost: CostFn, flags: CuFlags, cand: Candidate): (s: Scored)
    requires ValidFlags(flags, |cand.evals|)
    ensures ValidFlags(s.flags, |cand.evals|) && Consistent(s.flags) && s.flags.merge == flags.merge
  {
    var o := CompressSkipOnly(flags, cand.evals);
    CostNoSplit(cost, cand, o.dist, o.flags)
  }

  /** The CU flags a merge evaluation starts from, up to what the
      evaluation overwrites. */
  function MergeStart(): CuFlags {
    CuFlags([false, false, false], false, false, true)
  }

  /** The evaluations read from the CU flags only the merge flag and the
      cbf of the planes that are not coded. */
  lemma {:induction false} FullScoreFresh(r: R.Restrictions, cost: CostFn, flags: CuFlags, cand: Candidate)
    requires ValidFlags(flags, |cand.evals|) && flags.merge
    ensures FullScore(r, cost, flags, cand) == FullScore(r, cost, MergeStart(), cand)
  {
    var n := |cand.evals|;
    var a := CompressAndEvalCbf(r, cost, flags, cand.evals, cand.bits);
    var b := CompressAndEvalCbf(r, cost, MergeStart(), cand.evals, cand.bits);
    assert forall c :: 0 <= c < 3 ==> a.flags.cbf[c] == b.flags.cbf[c];
    assert a.flags.cbf == b.flags.cbf;
  }

  lemma {:induction false} SkipScoreFresh(cost: CostFn, flags: CuFlags, cand: Candidate)
    requires ValidFlags(flags, |cand.evals|) && flags.merge
    ensures SkipScore(cost, flags, cand) == SkipScore(cost, MergeStart(), cand)
  {
    var a := CompressSkipOnly(flags, cand.evals);
    var b := CompressSkipOnly(MergeStart(), cand.evals);
    assert forall c :: 0 <= c < 3 ==> a.flags.cbf[c] == b.flags.cbf[c];
    assert a.flags.cbf == b.flags.cbf;
  }

  // ---------------------------------------------------------------------
  // Merge candidate search

  /** Every candidate is evaluated on the same `n` components. */
  predicate Uniform(cands: seq<Candidate>, n: nat) {
    forall i :: 0 <= i < |cands| ==> |cands[i].evals| == n
  }

  /** One merge candidate as evaluated: in full, or skip-only. */
  datatype MergeEval = MergeEval(score: Scored, skipOnly: bool)

  function MergeCosts(log: seq<MergeEval>): (costs: seq<nat>)
    ensures |costs| == |log| && forall i :: 0 <= i < |log| ==> costs[i] == log[i].score.cost
  {
    seq(|log|, i requires 0 <= i < |log| => log[i].score.cost)
  }

  /** Running state of the candidate loop of `CompressMerge`. */
  datatype MergeState = MergeState(cu: CuFlags, best: Option<Scored>, bestIdx: int, fastSkip: bool,
                                   bestNonSkip: Option<nat>, log: seq<MergeEval>)

  /** How one iteration changes the loop state, whatever it scored: the
      score is logged, becomes the best on a strict improvement, and on a
      strict improvement of a full evaluation decides the skip-only mode. */
  predicate Transition(st: MergeState, next: MergeState, idx: int) {
    && |next.log| == |st.log| + 1
    && next.log == st.log + [MergeEval(next.log[|st.log|].score, st.fastSkip)]
    && var s := next.log[|st.log|].score;
    && (if Below(s.cost, CostOf(st.best)) then next.best == Some(s) && next.bestIdx == idx
        else next.best == st.best && next.bestIdx == st.bestIdx)
    && (if !st.fastSkip && Below(s.cost, st.bestNonSkip) then next.fastSkip == s.flags.skip && next.bestNonSkip == Some(s.cost)
        else next.fastSkip == st.fastSkip && next.bestNonSkip == st.bestNonSkip)
  }

  /** The loop state after the candidate at `idx` scored `s`: the score is
      logged and becomes the best on a strict improvement; a full
      evaluation that improves on every earlier full evaluation and leaves
      the CU skipped switches the remaining candidates to skip-only. */
  function Advance(st: MergeState, idx: int, s: Scored): (next: MergeState)
    ensures next.cu == s.flags && |next.log| == |st.log| + 1 && next.log[|st.log|].score == s
    ensures Transition(st, next, idx)
  {
    var better := Below(s.cost, CostOf(st.best));
    var improved := !st.fastSkip && Below(s.cost, st.bestNonSkip);
    MergeState(s.flags, if better then Some(s) else st.best, if better then idx else st.bestIdx,
               if improved then s.flags.skip else st.fastSkip,
               if improved then Some(s.cost) else st.bestNonSkip,
               st.log + [MergeEval(s, st.fastSkip)])
  }

  /** One iteration of the candidate loop on candidate `idx`: the
      candidate is evaluated skip-only once the mode is on, in full
      otherwise, on the flags the previous candidate left. */
  function MergeNext(r: R.Restrictions, cost: CostFn, n: nat, cands: seq<Candidate>, idx: nat, st: MergeState): (next: MergeState)
    requires idx < |cands| && Uniform(cands, n) && ValidFlags(st.cu, n)
    ensures ValidFlags(next.cu, n) && next.cu.merge == st.cu.merge
    ensures Transition(st, next, idx)
  {
    Advance(st, idx, if st.fastSkip then SkipScore(cost, st.cu, cands[idx]) else FullScore(r, cost, st.cu, cands[idx]))
  }

  /** The loop over candidates `idx .. count-1`. */
  function MergeLoop(r: R.Restrictions, cost: CostFn, n: nat, cands: seq<Candidate>, count: nat, idx: nat, st: MergeState): (out: MergeState)
    requires idx <= count <= |cands| && Uniform(cands, n) && ValidFlags(st.cu, n)
    ensures ValidFlags(out.cu, n)
    decreases count - idx
  {
    if idx == count then st
    else MergeLoop(r, cost, n, cands, count, idx + 1, MergeNext(r, cost, n, cands, idx, st))
  }

  /** Candidate `cand` as evaluated in full or skip-only. */
  function Evaluated(r: R.Restrictions, cost: CostFn, cand: Candidate, skipOnly: bool): Scored
    requires ValidFlags(MergeStart(), |cand.evals|)
  {
    if skipOnly then SkipScore(cost, MergeStart(), cand) else FullScore(r, cost, MergeStart(), cand)
  }

  /** Both evaluations of a candidate. */
  datatype Alternatives = Alternatives(full: Scored, skip: Scored)

  function Pick(a: Alternatives, skipOnly: bool): Scored {
    if skipOnly then a.skip else a.full
  }

  /** `ex` holds both evaluations of every candidate. */
  predicate Prepared(r: R.Restrictions, cost: CostFn, n: nat, cands: seq<Candidate>, ex: seq<Alternatives>) {
    && n <= 3
    && Uniform(cands, n)
    && |ex| == |cands|
    && forall i :: 0 <= i < |cands| ==> ex[i] == Alternatives(Evaluated(r, cost, cands[i], false), Evaluated(r, cost, cands[i], true))
  }

  /** Entry `j` switches the search to skip-only evaluation: a full
      evaluation, strictly cheaper than every earlier one, that leaves the
      CU skipped. */
  predicate Trigger(log: seq<MergeEval>, j: int) {
    && 0 <= j < |log|
    && !log[j].skipOnly
    && log[j].score.flags.skip
    && forall k :: 0 <= k < j ==> log[j].score.cost < log[k].score.cost
  }

  predicate Triggered(log: seq<MergeEval>, i: int) {
    exists j :: 0 <= j < i && Trigger(log, j)
  }

  /** What the candidate loop keeps true about its log: each entry is
      its candidate evaluated in full or skip-only, ... */
  predicate LogInv(n: nat, ex: seq<Alternatives>, st: MergeState) {
    && |st.log| <= |ex|
    && ValidFlags(st.cu, n) && st.cu.merge
    && (forall i :: 0 <= i < |st.log| ==> st.log[i].score == Pick(ex[i], st.log[i].skipOnly))
  }

  /** ... and skip-only exactly after a trigger. */
  predicate TriggerInv(st: MergeState) {
    && (forall i :: 0 <= i < |st.log| ==> (st.log[i].skipOnly <==> Triggered(st.log, i)))
    && (st.fastSkip <==> Triggered(st.log, |st.log|))
  }

  /** What the candidate loop keeps true about the best candidate. */
  predicate BestInv(st: MergeState) {
    && (!st.fastSkip ==> st.bestNonSkip == CostOf(st.best))
    && (st.best.None? <==> |st.log| == 0)
    && (st.best.Some? ==> FirstMin(MergeCosts(st.log), st.bestIdx) && st.best.value == st.log[st.bestIdx].score)
  }

  lemma TriggerPrefix(log: seq<MergeEval>, e: MergeEval, j: int)
    requires 0 <= j < |log|
    ensures Trigger(log + [e], j) <==> Trigger(log, j)
  {
    assert forall k :: 0 <= k <= j ==> (log + [e])[k] == log[k];
  }

  lemma TriggeredPrefix(log: seq<MergeEval>, e: MergeEval, i: int)
    requires 0 <= i <= |log|
    ensures Triggered(log + [e], i) <==> Triggered(log, i)
  {
    if Triggered(log, i) {
      var j :| 0 <= j < i && Trigger(log, j);
      TriggerPrefix(log, e, j);
    }
    if Triggered(log + [e], i) {
      var j :| 0 <= j < i && Trigger(log + [e], j);
      TriggerPrefix(log, e, j);
    }
  }

  /** An iteration keeps the best candidate the first cheapest one. */
  lemma StepBest(st: MergeState, next: MergeState, idx: int)
    requires idx == |st.log| && Transition(st, next, idx) && BestInv(st)
    ensures BestInv(next)
  {
    var s := next.log[idx].score;
    var costs := MergeCosts(next.log);
    assert forall k :: 0 <= k < idx ==> costs[k] == MergeCosts(st.log)[k];
    if Below(s.cost, CostOf(st.best)) {
      assert FirstMin(costs, idx);
    } else {
      assert FirstMin(costs, st.bestIdx);
    }
  }

  /** The entry an iteration appends is its candidate, evaluated in full
      or skip-only as the mode says. */
  lemma MergeNextEvaluated(r: R.Restrictions, cost: CostFn, n: nat, cands: seq<Candidate>, ex: seq<Alternatives>, idx: nat, st: MergeState)
    requires idx == |st.log| < |cands| && Prepared(r, cost, n, cands, ex) && ValidFlags(st.cu, n) && st.cu.merge
    ensures MergeNext(r, cost, n, cands, idx, st).log[idx].score == Pick(ex[idx], st.fastSkip)
  {
    if st.fastSkip { SkipScoreFresh(cost, st.cu, cands[idx]); } else { FullScoreFresh(r, cost, st.cu, cands[idx]); }
  }

  lemma StepLog(n: nat, ex: seq<Alternatives>, st: MergeState, next: MergeState, idx: int)
    requires idx == |st.log| < |ex| && LogInv(n, ex, st) && Transition(st, next, idx)
    requires ValidFlags(next.cu, n) && next.cu.merge
    requires next.log[idx].score == Pick(ex[idx], st.fastSkip)
    ensures LogInv(n, ex, next)
  {
    assert forall i :: 0 <= i < idx ==> next.log[i] == st.log[i];
  }

  /** The new entry triggers exactly when it is a full evaluation that
      improves on every earlier one and leaves the CU skipped. */
  lemma StepTrigger(st: MergeState, next: MergeState, idx: int)
    requires idx == |st.log| && Transition(st, next, idx) && BestInv(st)
    ensures Trigger(next.log, idx) <==> !st.fastSkip && next.fastSkip
    ensures st.fastSkip ==> next.fastSkip
  {
    var s := next.log[idx].score;
    assert forall k :: 0 <= k < idx ==> next.log[k] == st.log[k];
    if !st.fastSkip && st.best.Some? {
      assert FirstMin(MergeCosts(st.log), st.bestIdx);
      assert Below(s.cost, st.bestNonSkip) <==> forall k :: 0 <= k < idx ==> s.cost < st.log[k].score.cost;
    }
  }

  /** An iteration keeps entries skip-only exactly after a trigger. */
  lemma StepTriggered(st: MergeState, next: MergeState, idx: int)
    requires idx == |st.log| && Transition(st, next, idx) && BestInv(st) && TriggerInv(st)
    ensures TriggerInv(next)
  {
    var e := next.log[idx];
    StepTrigger(st, next, idx);
    forall i | 0 <= i <= idx
      ensures Triggered(next.log, i) <==> Triggered(st.log, i)
    {
      TriggeredPrefix(st.log, e, i);
    }
    assert Triggered(next.log, idx + 1) <==> Triggered(next.log, idx) || Trigger(next.log, idx);
  }

  /** Every precomputed evaluation keeps the component count and the
      merge flag. */
  predicate Usable(n: nat, ex: seq<Alternatives>) {
    forall i :: 0 <= i < |ex| ==>
      && ValidFlags(ex[i].full.flags, n) && ex[i].full.flags.merge
      && ValidFlags(ex[i].skip.flags, n) && ex[i].skip.flags.merge
  }

  lemma PreparedUsable(r: R.Restrictions, cost: CostFn, n: nat, cands: seq<Candidate>, ex: seq<Alternatives>)
    requires Prepared(r, cost, n, cands, ex)
    ensures Usable(n, ex)
  {
    forall i | 0 <= i < |ex|
      ensures ValidFlags(ex[i].full.flags, n) && ex[i].full.flags.merge
      ensures ValidFlags(ex[i].skip.flags, n) && ex[i].skip.flags.merge
    {
      assert ex[i] == Alternatives(Evaluated(r, cost, cands[i], false), Evaluated(r, cost, cands[i], true));
    }
  }

  /** The candidate loop replayed on precomputed evaluations: the same
      iterations, with each score looked up instead of computed. */
  function Replay(ex: seq<Alternatives>, count: nat, idx: nat, st: MergeState): MergeState
    requires idx <= count <= |ex|
    decreases count - idx
  {
    if idx == count then st else Replay(ex, count, idx + 1, Advance(st, idx, Pick(ex[idx], st.fastSkip)))
  }

  /** The candidate loop is its replay on the candidates' evaluations,
      since an evaluation does not depend on the flags the previous
      candidate left. */
  lemma {:induction false} MergeLoopReplays(r: R.Restrictions, cost: CostFn, n: nat, cands: seq<Candidate>,
                                            ex: seq<Alternatives>, count: nat, idx: nat, st: MergeState)
    requires idx <= count <= |cands| && idx == |st.log| && Prepared(r, cost, n, cands, ex)
    requires ValidFlags(st.cu, n) && st.cu.merge
    ensures MergeLoop(r, cost, n, cands, count, idx, st) == Replay(ex, count, idx, st)
    decreases count - idx
  {
    if idx < count {
      var next := MergeNext(r, cost, n, cands, idx, st);
      MergeNextEvaluated(r, cost, n, cands, ex, idx, st);
      assert next == Advance(st, idx, Pick(ex[idx], st.fastSkip));
      MergeLoopReplays(r, cost, n, cands, ex, count, idx + 1, next);
    }
  }

  /** The replayed loop keeps its invariants: each log entry is its
      candidate evaluated in full or skip-only, skip-only exactly after a
      trigger, and the best the first cheapest entry. */
  lemma {:induction false} ReplaySpec(n: nat, ex: seq<Alternatives>, count: nat, idx: nat, st: MergeState)
    requires idx <= count <= |ex| && idx == |st.log| && Usable(n, ex)
    requires LogInv(n, ex, st) && BestInv(st) && TriggerInv(st)
    ensures var out := Replay(ex, count, idx, st);
      LogInv(n, ex, out) && BestInv(out) && TriggerInv(out) && |out.log| == count
    decreases count - idx
  {
    if idx < count {
      var next := Advance(st, idx, Pick(ex[idx], st.fastSkip));
      StepLog(n, ex, st, next, idx);
      StepTriggered(st, next, idx);
      StepBest(st, next, idx);
      ReplaySpec(n, ex, count, idx + 1, next);
    }
  }

  datatype MergeOutcome = MergeOutcome(score: Scored, mergeIdx: int, log: seq<MergeEval>)

  function MergeStartState(flags: CuFlags): MergeState {
    MergeState(flags.(merge := true), None, -1, false, None, [])
  }

  /** The candidate loop run from the start leaves a consistent best
      candidate, the first cheapest of a log that follows the search rule. */
  lemma MergeSearch(r: R.Restrictions, cost: CostFn, n: nat, flags: CuFlags, cands: seq<Candidate>, count: nat)
    requires 1 <= count <= |cands| && Uniform(cands, n) && ValidFlags(flags, n)
    ensures var st := MergeLoop(r, cost, n, cands, count, 0, MergeStartState(flags));
      && |st.log| == count && TriggerInv(st) && BestInv(st) && st.best.Some?
      && (forall i :: 0 <= i < |st.log| ==> st.log[i].score == Evaluated(r, cost, cands[i], st.log[i].skipOnly))
      && Consistent(st.best.value.flags)
  {
    var ex := seq(|cands|, i requires 0 <= i < |cands| =>
                  Alternatives(Evaluated(r, cost, cands[i], false), Evaluated(r, cost, cands[i], true)));
    PreparedUsable(r, cost, n, cands, ex);
    MergeLoopReplays(r, cost, n, cands, ex, count, 0, MergeStartState(flags));
    ReplaySpec(n, ex, count, 0, MergeStartState(flags));
    var st := MergeLoop(r, cost, n, cands, count, 0, MergeStartState(flags));
    PickEvaluated(r, cost, n, cands, ex, st.log);
    assert st.best.value == Evaluated(r, cost, cands[st.bestIdx], st.log[st.bestIdx].skipOnly);
  }

  lemma PickEvaluated(r: R.Restrictions, cost: CostFn, n: nat, cands: seq<Candidate>, ex: seq<Alternatives>, log: seq<MergeEval>)
    requires Prepared(r, cost, n, cands, ex) && |log| <= |ex|
    requires forall i :: 0 <= i < |log| ==> log[i].score == Pick(ex[i], log[i].skipOnly)
    ensures forall i :: 0 <= i < |log| ==> log[i].score == Evaluated(r, cost, cands[i], log[i].skipOnly)
  {
    forall i | 0 <= i < |log|
      ensures log[i].score == Evaluated(r, cost, cands[i], log[i].skipOnly)
    {
      assert log[i].score == Pick(ex[i], log[i].skipOnly);
    }
  }

  /** `CompressMerge`: evaluate the merge candidates in order (only the
      first when merge candidates are restricted) and keep the first
      cheapest one; the winning CU is skipped exactly when it has no
      residual. */
  function CompressMerge(r: R.Restrictions, cost: CostFn, n: nat, flags: CuFlags, cands: seq<Candidate>): (o: MergeOutcome)
    requires |cands| >= 1 && Uniform(cands, n) && ValidFlags(flags, n)
    ensures |o.log| == (if R.DisableInterMergeCandidates(r) then 1 else |cands|)
    ensures forall i :: 0 <= i < |o.log| ==> o.log[i].score == Evaluated(r, cost, cands[i], o.log[i].skipOnly)
    ensures forall i :: 0 <= i < |o.log| ==> (o.log[i].skipOnly <==> Triggered(o.log, i))
    ensures FirstMin(MergeCosts(o.log), o.mergeIdx)
    ensures o.score.cost == o.log[o.mergeIdx].score.cost && o.score.dist == o.log[o.mergeIdx].score.dist
    ensures o.score.flags == o.log[o.mergeIdx].score.flags.(skip := !o.log[o.mergeIdx].score.flags.rootCbf)
    ensures o.score.flags.merge && Consistent(o.score.flags) && o.score.flags.skip == !o.score.flags.rootCbf
  {
    var count := if R.DisableInterMergeCandidates(r) then 1 else |cands|;
    MergeSearch(r, cost, n, flags, cands, count);
    var st := MergeLoop(r, cost, n, cands, count, 0, MergeStartState(flags));
    var best := st.best.value;
    MergeOutcome(best.(flags := best.flags.(skip := !best.flags.rootCbf)), st.bestIdx, st.log)
  }

  // ---------------------------------------------------------------------
  // Prediction mode of a CU that is not split

  datatype Mode = MergeMode | InterMode | IntraMode

  /** An evaluated prediction mode. */
  datatype Tried = Tried(mode: Mode, score: Scored)

  function TriedCosts(tried: seq<Tried>): (costs: seq<nat>)
    ensures |costs| == |tried| && forall i :: 0 <= i < |tried| ==> costs[i] == tried[i].score.cost
  {
    seq(|tried|, i requires 0 <= i < |tried| => tried[i].score.cost)
  }

  /** Picture-level inputs: whether the picture is intra-only, the number
      of coded components, the `always_evaluate_intra_in_inter` speed
      setting and the maximum depth of the CU tree. */
  datatype Picture = Picture(intraPic: bool, n: nat, alwaysEvaluateIntraInInter: bool, maxDepth: nat)

  /** What the mode decision evaluates: the merge candidates, the inter
      candidate found by motion search with the flags that search left, and
      the outcome of intra coding. */
  datatype NoSplitInput = NoSplitInput(merge: seq<Candidate>, interFlags: CuFlags, inter: Candidate, intra: Scored)

  predicate ValidInput(pic: Picture, flags: CuFlags, input: NoSplitInput) {
    && ValidFlags(flags, pic.n)
    && |input.merge| >= 1 && Uniform(input.merge, pic.n)
    && |input.inter.evals| == pic.n && ValidFlags(input.interFlags, pic.n)
  }

  /** `CompressIntra` leaves the CU not skipped. */
  function IntraScore(s: Scored): Scored {
    s.(flags := s.flags.(skip := false))
  }

  /** A skipped CU carries no residual. */
  predicate SkipClean(f: CuFlags) {
    f.skip ==> !AnyCbf(f.cbf)
  }

  /** The merge alternative, the outcome of `CompressMerge`, unless merge
      mode is restricted. */
  function MergeTried(r: R.Restrictions, cost: CostFn, n: nat, flags: CuFlags, cands: seq<Candidate>): (ts: seq<Tried>)
    requires |cands| >= 1 && Uniform(cands, n) && ValidFlags(flags, n)
    ensures |ts| == (if R.DisableInterMergeMode(r) then 0 else 1)
    ensures |ts| == 1 ==> ts[0].mode == MergeMode && SkipClean(ts[0].score.flags)
  {
    if R.DisableInterMergeMode(r) then []
    else
      var o := CompressMerge(r, cost, n, flags, cands);
      [Tried(MergeMode, o.score)]
  }

  /** The inter alternative: the motion-searched candidate scored with
      the flags the search left. */
  function InterTry(r: R.Restrictions, cost: CostFn, n: nat, flags: CuFlags, cand: Candidate): (t: Tried)
    requires |cand.evals| == n && ValidFlags(flags, n)
    ensures t.mode == InterMode && SkipClean(t.score.flags)
  {
    Tried(InterMode, FullScore(r, cost, flags, cand))
  }

  function AppendClean(ts: seq<Tried>, t: Tried): (r: seq<Tried>)
    requires |ts| <= 1 && (|ts| == 1 ==> SkipClean(ts[0].score.flags))
    requires SkipClean(t.score.flags)
    ensures r == ts + [t] && forall i :: 0 <= i < |r| ==> SkipClean(r[i].score.flags)
  {
    ts + [t]
  }

  /** The modes an inter picture evaluates before intra, in order: merge
      (unless restricted), then inter. */
  function InterTried(r: R.Restrictions, cost: CostFn, pic: Picture, flags: CuFlags, input: NoSplitInput): (tried: seq<Tried>)
    requires ValidInput(pic, flags, input)
    ensures 1 <= |tried| <= 2
    ensures forall i :: 0 <= i < |tried| ==> SkipClean(tried[i].score.flags)
  {
    AppendClean(MergeTried(r, cost, pic.n, flags, input.merge), InterTry(r, cost, pic.n, input.interFlags, input.inter))
  }

  /** The chosen alternative, with the root cbf recomputed and the split
      flag (false) written below the maximum depth. */
  datatype NoSplitOutcome = NoSplitOutcome(mode: Mode, score: Scored, tried: seq<Tried>, chosen: nat, written: seq<bool>)

  function Finish(pic: Picture, depth: nat, tried: seq<Tried>, chosen: nat): (o: NoSplitOutcome)
    requires chosen < |tried|
    ensures o.tried == tried && o.chosen == chosen && o.mode == tried[chosen].mode
    ensures o.score.cost == tried[chosen].score.cost && o.score.dist == tried[chosen].score.dist
    ensures o.score.flags.cbf == tried[chosen].score.flags.cbf && o.score.flags.skip == tried[chosen].score.flags.skip
    ensures o.score.flags.rootCbf == AnyCbf(o.score.flags.cbf)
    ensures o.written == (if depth < pic.maxDepth then [false] else [])
  {
    var s := tried[chosen].score;
    NoSplitOutcome(tried[chosen].mode, s.(flags := s.flags.(rootCbf := AnyCbf(s.flags.cbf))), tried, chosen,
                   if depth < pic.maxDepth then [false] else [])
  }

  /** The first cheapest of one or two alternatives, and it is the only
      index that is. */
  function BestOf(ts: seq<Tried>): (b: nat)
    requires 1 <= |ts| <= 2
    ensures FirstMin(TriedCosts(ts), b)
    ensures forall j :: FirstMin(TriedCosts(ts), j) ==> j == b
  {
    if |ts| == 2 && !(ts[1].score.cost < ts[0].score.cost) then 0 else |ts| - 1
  }

  /** Appending one alternative: it becomes the best only when strictly
      cheaper than the best so far. */
  function AppendBest(ts: seq<Tried>, b: nat, t: Tried): (c: nat)
    requires FirstMin(TriedCosts(ts), b)
    ensures FirstMin(TriedCosts(ts + [t]), c)
    ensures c == (if t.score.cost < ts[b].score.cost then |ts| else b)
  {
    var costs := TriedCosts(ts + [t]);
    assert forall i :: 0 <= i < |ts| ==> costs[i] == TriedCosts(ts)[i];
    if t.score.cost < ts[b].score.cost then |ts| else b
  }

  /** The inter-picture cascade over the alternatives evaluated before
      intra: intra is tried when the speed setting asks for it or the best
      so far has a residual, and each later alternative replaces the best
      only when strictly cheaper. */
  function Cascade(pic: Picture, depth: nat, before: seq<Tried>, intra: Tried): (o: NoSplitOutcome)
    requires 1 <= |before| <= 2
    ensures FirstMin(TriedCosts(o.tried), o.chosen) && o.mode == o.tried[o.chosen].mode
    ensures o.score.cost == o.tried[o.chosen].score.cost && o.score.dist == o.tried[o.chosen].score.dist
    ensures o.score.flags.cbf == o.tried[o.chosen].score.flags.cbf && o.score.flags.skip == o.tried[o.chosen].score.flags.skip
    ensures o.score.flags.rootCbf == AnyCbf(o.score.flags.cbf)
    ensures o.written == (if depth < pic.maxDepth then [false] else [])
    ensures o.tried == before || o.tried == before + [intra]
    ensures (forall i :: 0 <= i < |before| ==> SkipClean(before[i].score.flags)) && SkipClean(intra.score.flags)
            ==> Consistent(o.score.flags)
    ensures |o.tried| > |before| <==>
      pic.alwaysEvaluateIntraInInter || exists j :: FirstMin(TriedCosts(before), j) && AnyCbf(before[j].score.flags.cbf)
  {
    var b := BestOf(before);
    var evalIntra := pic.alwaysEvaluateIntraInInter || AnyCbf(before[b].score.flags.cbf);
    if evalIntra then
      var c := AppendBest(before, b, intra);
      Finish(pic, depth, before + [intra], c)
    else
      Finish(pic, depth, before, b)
  }

  /** `CompressNoSplit`: an intra picture evaluates intra only; an inter
      picture evaluates merge (unless restricted) and inter, then intra when
      the speed setting asks for it or the best so far has a residual, and
      keeps the first cheapest. */
  function CompressNoSplit(r: R.Restrictions, cost: CostFn, pic: Picture, depth: nat, flags: CuFlags, input: NoSplitInput): (o: NoSplitOutcome)
    requires ValidInput(pic, flags, input)
    ensures FirstMin(TriedCosts(o.tried), o.chosen) && o.mode == o.tried[o.chosen].mode
    ensures o.score.cost == o.tried[o.chosen].score.cost && o.score.dist == o.tried[o.chosen].score.dist
    ensures Consistent(o.score.flags)
    ensures o.written == (if depth < pic.maxDepth then [false] else [])
    ensures pic.intraPic ==> o.tried == [Tried(IntraMode, IntraScore(input.intra))]
    ensures !pic.intraPic ==>
      var before := InterTried(r, cost, pic, flags, input);
      && (o.tried == before || o.tried == before + [Tried(IntraMode, IntraScore(input.intra))])
      && (|o.tried| > |before| <==>
            pic.alwaysEvaluateIntraInInter || exists j :: FirstMin(TriedCosts(before), j) && AnyCbf(before[j].score.flags.cbf))
  {
    var intra := Tried(IntraMode, IntraScore(input.intra));
    if pic.intraPic then
      Finish(pic, depth, [intra], 0)
    else
      Cascade(pic, depth, InterTried(r, cost, pic, flags, input), intra)
  }
}
