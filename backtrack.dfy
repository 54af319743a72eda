/**
 * Backtracking through the per-step history `(targets, backrefs)` recorded by the
 * beam-search loops. Step `t` records, for every batch row and every slot of that
 * step, the label chosen and the slot of step `t - 1` it extends (for `t == 0`, the
 * single initial hypothesis).
 */
module Backtrack {
  import opened TensorOps

  /**
   * The backrefs form a list of `[Batch, widths[t]]` tensors, and every backref of
   * step `t` is a slot of step `t - 1` (of the one initial slot when `t == 0`).
   */
  ghost predicate Chained(backrefs: seq<seq<seq<nat>>>, widths: seq<nat>, batch: nat)
  {
    && |backrefs| == |widths|
    && (forall t :: 0 <= t < |backrefs| ==> |backrefs[t]| == batch)
    && (forall t, b :: 0 <= t < |backrefs| && 0 <= b < batch ==> |backrefs[t][b]| == widths[t])
    && (forall t, b, j :: 0 <= t < |backrefs| && 0 <= b < batch && 0 <= j < widths[t] ==>
          backrefs[t][b][j] < (if t == 0 then 1 else widths[t - 1]))
  }

  /** The recorded history: targets shaped like the backrefs, which are chained. */
  ghost predicate WellFormed(targets: seq<seq<seq<nat>>>, backrefs: seq<seq<seq<nat>>>, widths: seq<nat>, batch: nat)
  {
    && Chained(backrefs, widths, batch)
    && |targets| == |backrefs|
    && (forall t :: 0 <= t < |targets| ==> |targets[t]| == batch)
    && (forall t, b :: 0 <= t < |targets| && 0 <= b < batch ==> |targets[t][b]| == widths[t])
  }

  /** Appending a step whose backrefs point into the previous step keeps the history well formed. */
  lemma WellFormedAppend(targets0: seq<seq<seq<nat>>>, backrefs0: seq<seq<seq<nat>>>, widths0: seq<nat>,
                         targets: seq<seq<seq<nat>>>, backrefs: seq<seq<seq<nat>>>, widths: seq<nat>, batch: nat)
    requires WellFormed(targets0, backrefs0, widths0, batch)
    requires var n := |widths0|;
             && |targets| == |backrefs| == |widths| == n + 1
             && targets[..n] == targets0 && backrefs[..n] == backrefs0 && widths[..n] == widths0
             && Rect(targets[n], batch, widths[n]) && Rect(backrefs[n], batch, widths[n])
             && forall b, j :: 0 <= b < batch && 0 <= j < widths[n] ==>
                  backrefs[n][b][j] < (if n == 0 then 1 else widths[n - 1])
    ensures WellFormed(targets, backrefs, widths, batch)
    ensures targets0 <= targets && backrefs0 <= backrefs && widths0 <= widths
  {
    var n := |widths0|;
    assert forall t :: 0 <= t < n ==> targets[t] == targets0[t] && backrefs[t] == backrefs0[t] && widths[t] == widths0[t];
  }

  /**
   * The slot at step `to` on the backref chain through slot `k` of step `from`, in
   * row `b`: the ancestor of that hypothesis `from - to` steps back.
   */
  function Ancestor(backrefs: seq<seq<seq<nat>>>, widths: seq<nat>, batch: nat,
                    b: nat, k: nat, from: nat, to: nat): (slot: nat)
    requires Chained(backrefs, widths, batch)
    requires b < batch && to <= from < |backrefs| && k < widths[from]
    ensures slot < widths[to]
    decreases from - to
  {
    if to == from then k
    else Ancestor(backrefs, widths, batch, b, backrefs[from][b][k], from - 1, to)
  }

  /**
   * The chain can also be walked from the bottom: the ancestor one step further
   * back is the backref recorded in the ancestor's slot.
   */
  lemma {:induction false} AncestorStepDown(backrefs: seq<seq<seq<nat>>>, widths: seq<nat>, batch: nat,
                                            b: nat, k: nat, from: nat, to: nat)
    requires Chained(backrefs, widths, batch)
    requires b < batch && 0 < to <= from < |backrefs| && k < widths[from]
    ensures Ancestor(backrefs, widths, batch, b, k, from, to - 1)
            == backrefs[to][b][Ancestor(backrefs, widths, batch, b, k, from, to)]
    decreases from - to
  {
    if to < from {
      AncestorStepDown(backrefs, widths, batch, b, backrefs[from][b][k], from - 1, to);
    }
  }

  /** Ancestors only depend on the history up to `from`: appending later steps changes none of them. */
  lemma {:induction false} AncestorPrefix(backrefs: seq<seq<seq<nat>>>, widths: seq<nat>,
                                          backrefs': seq<seq<seq<nat>>>, widths': seq<nat>, batch: nat,
                                          b: nat, k: nat, from: nat, to: nat)
    requires Chained(backrefs, widths, batch) && Chained(backrefs', widths', batch)
    requires |backrefs| <= |backrefs'| && backrefs == backrefs'[..|backrefs|] && widths == widths'[..|widths|]
    requires b < batch && to <= from < |backrefs| && k < widths[from]
    ensures Ancestor(backrefs, widths, batch, b, k, from, to) == Ancestor(backrefs', widths', batch, b, k, from, to)
    decreases from - to
  {
    if to < from {
      assert backrefs[from] == backrefs'[from];
      AncestorPrefix(backrefs, widths, backrefs', widths', batch, b, backrefs[from][b][k], from - 1, to);
    }
  }

  /** The labels on the chain ending in slot `k` of step `from`, one per step `0..from`. */
  ghost function ChainLabels(targets: seq<seq<seq<nat>>>, backrefs: seq<seq<seq<nat>>>, widths: seq<nat>, batch: nat,
                             b: nat, k: nat, from: nat): (labels: seq<nat>)
    requires WellFormed(targets, backrefs, widths, batch)
    requires b < batch && from < |backrefs| && k < widths[from]
    ensures |labels| == from + 1
    ensures labels[from] == targets[from][b][k]
  {
    seq(from + 1, s requires 0 <= s <= from => targets[s][b][Ancestor(backrefs, widths, batch, b, k, from, s)])
  }

  /** The chain of a slot is its parent's chain followed by its own label. */
  lemma ChainLabelsStep(targets: seq<seq<seq<nat>>>, backrefs: seq<seq<seq<nat>>>, widths: seq<nat>, batch: nat,
                        b: nat, k: nat, from: nat)
    requires WellFormed(targets, backrefs, widths, batch)
    requires b < batch && 0 < from < |backrefs| && k < widths[from]
    ensures ChainLabels(targets, backrefs, widths, batch, b, k, from)
            == ChainLabels(targets, backrefs, widths, batch, b, backrefs[from][b][k], from - 1) + [targets[from][b][k]]
  {
  }

  /** Chains only depend on the history up to their last step: appending later steps changes none of them. */
  lemma ChainLabelsPrefix(targets: seq<seq<seq<nat>>>, backrefs: seq<seq<seq<nat>>>, widths: seq<nat>,
                          targets': seq<seq<seq<nat>>>, backrefs': seq<seq<seq<nat>>>, widths': seq<nat>, batch: nat,
                          b: nat, k: nat, from: nat)
    requires WellFormed(targets, backrefs, widths, batch) && WellFormed(targets', backrefs', widths', batch)
    requires targets <= targets' && backrefs <= backrefs' && widths <= widths'
    requires b < batch && from < |backrefs| && k < widths[from]
    ensures ChainLabels(targets, backrefs, widths, batch, b, k, from)
            == ChainLabels(targets', backrefs', widths', batch, b, k, from)
  {
    forall s | 0 <= s <= from
      ensures Ancestor(backrefs, widths, batch, b, k, from, s) == Ancestor(backrefs', widths', batch, b, k, from, s)
    {
      AncestorPrefix(backrefs, widths, backrefs', widths', batch, b, k, from, s);
    }
  }

  /** Every tensor of the list `steps` has shape `[batch, width]`. */
  ghost predicate AllRect<T>(steps: seq<seq<seq<T>>>, batch: nat, width: nat)
  {
    && (forall s :: 0 <= s < |steps| ==> |steps[s]| == batch)
    && (forall s, b :: 0 <= s < |steps| && 0 <= b < batch ==> |steps[s][b]| == width)
  }

  /** `torch.stack(steps, dim=2)` of a list of `[Batch, FinalBeam]` tensors. */
  function Stack<T>(steps: seq<seq<seq<T>>>, batch: nat, width: nat): (out: seq<seq<seq<T>>>)
    requires AllRect(steps, batch, width)
    ensures Rect(out, batch, width)
    ensures forall b, k :: 0 <= b < batch && 0 <= k < width ==> |out[b][k]| == |steps|
    ensures forall b, k, s :: 0 <= b < batch && 0 <= k < width && 0 <= s < |steps| ==> out[b][k][s] == steps[s][b][k]
  {
    seq(batch, b requires 0 <= b < batch =>
      seq(width, k requires 0 <= k < width =>
        seq(|steps|, s requires 0 <= s < |steps| => steps[s][b][k])))
  }

  /**
   * The backtracking loop of both decoders: starting from every final slot, walk
   * the recorded history backwards, collecting the label of each step and moving
   * to the recorded parent slot. The sequence of final slot `k` is the chain of
   * labels ending in that slot: its label at step `t` is the one recorded for the
   * slot on `k`'s backref chain at that step.
   */
  method Backtrack(seqTargets: seq<seq<seq<nat>>>, seqBackrefs: seq<seq<seq<nat>>>, ghost widths: seq<nat>,
                   batch: nat, finalWidth: nat) returns (out: seq<seq<seq<nat>>>)
    requires WellFormed(seqTargets, seqBackrefs, widths, batch)
    requires |seqTargets| > 0 && finalWidth == widths[|widths| - 1]
    ensures Rect(out, batch, finalWidth)
    ensures forall b, k :: 0 <= b < batch && 0 <= k < finalWidth ==>
              out[b][k] == ChainLabels(seqTargets, seqBackrefs, widths, batch, b, k, |seqTargets| - 1)
  {
    var n := |seqTargets|;
    var indices := seq(batch, b requires 0 <= b < batch => Iota(finalWidth));
    assert forall b :: 0 <= b < batch ==> indices[b] == Iota(finalWidth);
    var steps: seq<seq<seq<nat>>> := [];
    var t := n;
    while t > 0
      invariant 0 <= t <= n
      invariant |steps| == n - t
      invariant Rect(indices, batch, finalWidth)
      invariant AllRect(steps, batch, finalWidth)
      invariant t > 0 ==> forall b, k :: 0 <= b < batch && 0 <= k < finalWidth ==>
                  indices[b][k] == Ancestor(seqBackrefs, widths, batch, b, k, n - 1, t - 1)
      invariant forall s, b, k :: 0 <= s < |steps| && 0 <= b < batch && 0 <= k < finalWidth ==>
                  steps[s][b][k] == seqTargets[t + s][b][Ancestor(seqBackrefs, widths, batch, b, k, n - 1, t + s)]
    {
      t := t - 1;
      var labels := BatchGather(seqTargets[t], indices);
      var parents := BatchGather(seqBackrefs[t], indices);
      if t > 0 {
        forall b, k | 0 <= b < batch && 0 <= k < finalWidth
          ensures parents[b][k] == Ancestor(seqBackrefs, widths, batch, b, k, n - 1, t - 1)
        {
          AncestorStepDown(seqBackrefs, widths, batch, b, k, n - 1, t);
        }
      }
      indices := parents;
      steps := [labels] + steps;
    }
    out := Stack(steps, batch, finalWidth);
  }
}
