/**
 * The filtering of ended hypotheses in `beam_search`,
 * `torch.where(ended, masked_finished_log_prob, label_log_prob)`, as written and
 * as intended. `ended` is `[Batch, Beam]`, the mask `[Vocab]` and the
 * log-probabilities `[Batch, Beam, Vocab]`. Broadcasting aligns trailing
 * dimensions, so as written `ended` lines up with `[Beam, Vocab]` rather than with
 * `[Batch, Beam]`; the intended filter is `ended[:, :, None]`, one flag per
 * hypothesis, which is what `BeamSearch.ExtendAll` computes.
 */
module BeamSearchWhere {
  import opened Wrappers
  import opened TensorOps
  import opened BeamSearch

  /** Every row holds `width` rows of `vocab` entries. */
  ghost predicate Cube<T>(t: seq<seq<seq<T>>>, batch: nat, width: nat, vocab: nat)
  {
    Rect(t, batch, width) && forall b, h :: 0 <= b < batch && 0 <= h < width ==> |t[b][h]| == vocab
  }

  /** Two dimensions broadcast together: they must be equal, or one of them 1. */
  function JoinDim(x: nat, y: nat): (r: Option<nat>)
    ensures r.Some? <==> x == y || x == 1 || y == 1
    ensures r.Some? ==> (r.value == x || x == 1) && (r.value == y || y == 1)
  {
    if x == y then Some(x) else if x == 1 then Some(y) else if y == 1 then Some(x) else None
  }

  /** The index into a dimension of size `n` broadcast to a larger one: a size-1 dimension is stretched. */
  function At(i: nat, n: nat): nat
  {
    if n == 1 then 0 else i
  }

  /**
   * `torch.where(ended, masked_finished_log_prob, label_log_prob)` as written.
   * Right-aligned to three dimensions the shapes are `[1, Batch, Beam]`,
   * `[1, 1, Vocab]` and `[Batch, Beam, Vocab]`, so the result is
   * `[Batch, join(Batch, Beam), join(Beam, Vocab)]`, and entry `[i][j][v]` tests
   * `ended[j][v]`. Dimensions that cannot be joined raise `RuntimeError`.
   */
  function WhereAsWritten(ended: seq<seq<bool>>, mask: seq<real>, lp: seq<seq<seq<real>>>,
                          batch: nat, width: nat, vocab: nat): (r: Result<seq<seq<seq<real>>>, string>)
    requires 0 < batch && 0 < width && 0 < vocab
    requires Rect(ended, batch, width) && |mask| == vocab && Cube(lp, batch, width, vocab)
    ensures r.Failure? <==> JoinDim(batch, width).None? || JoinDim(width, vocab).None?
    ensures r.Success? ==>
              var d1, d2 := JoinDim(batch, width).value, JoinDim(width, vocab).value;
              && Cube(r.value, batch, d1, d2)
              && forall i, j, v :: 0 <= i < batch && 0 <= j < d1 && 0 <= v < d2 ==>
                   r.value[i][j][v] == if ended[At(j, batch)][At(v, width)] then mask[At(v, vocab)]
                                       else lp[i][At(j, width)][At(v, vocab)]
  {
    var j1, j2 := JoinDim(batch, width), JoinDim(width, vocab);
    if j1.None? || j2.None? then Failure("RuntimeError: the sizes of the tensors must match")
    else
      var d1, d2 := j1.value, j2.value;
      Success(seq(batch, i requires 0 <= i < batch =>
        seq(d1, j requires 0 <= j < d1 =>
          seq(d2, v requires 0 <= v < d2 =>
            if ended[At(j, batch)][At(v, width)] then mask[At(v, vocab)] else lp[i][At(j, width)][At(v, vocab)]))))
  }

  /** `torch.where(ended[:, :, None], masked_finished_log_prob, label_log_prob)`: one flag per hypothesis. */
  function WhereIntended(ended: seq<seq<bool>>, mask: seq<real>, lp: seq<seq<seq<real>>>,
                         batch: nat, width: nat, vocab: nat): (r: seq<seq<seq<real>>>)
    requires Rect(ended, batch, width) && |mask| == vocab && Cube(lp, batch, width, vocab)
    ensures Cube(r, batch, width, vocab)
    ensures forall b, h, v :: 0 <= b < batch && 0 <= h < width && 0 <= v < vocab ==>
              r[b][h][v] == if ended[b][h] then mask[v] else lp[b][h][v]
  {
    seq(batch, b requires 0 <= b < batch =>
      seq(width, h requires 0 <= h < width =>
        seq(vocab, v requires 0 <= v < vocab => if ended[b][h] then mask[v] else lp[b][h][v])))
  }

  /** `label_scorer.score` of every input hypothesis, before the filtering. */
  function ScoreAll<S(!new)>(scorer: Scorer<S>, state: seq<seq<S>>, target: seq<seq<nat>>, batch: nat, width: nat,
                             vocab: nat): (r: seq<seq<seq<real>>>)
    requires ScoresAllLabels(scorer, vocab) && Rect(state, batch, width) && Rect(target, batch, width)
    ensures Cube(r, batch, width, vocab)
    ensures forall b, h :: 0 <= b < batch && 0 <= h < width ==>
              r[b][h] == scorer.score(state[b][h], target[b][h], scorer.update(state[b][h], target[b][h]))
  {
    var r := seq(batch, b requires 0 <= b < batch =>
      seq(width, h requires 0 <= h < width =>
        scorer.score(state[b][h], target[b][h], scorer.update(state[b][h], target[b][h]))));
    assert forall b, h :: 0 <= b < batch && 0 <= h < width ==> |r[b][h]| == vocab by {
      forall b, h | 0 <= b < batch && 0 <= h < width
        ensures |r[b][h]| == vocab
      {
        var st := state[b][h];
        assert |scorer.score(st, target[b][h], scorer.update(st, target[b][h]))| == vocab;
      }
    }
    r
  }

  /**
   * The model's extension `ExtendAll` is the input score plus the intended filter
   * applied to the scorer's log-probabilities.
   */
  lemma ExtendAllIsIntended<S(!new)>(scorer: Scorer<S>, masked: seq<real>, scores: seq<seq<real>>,
                                     ended: seq<seq<bool>>, state: seq<seq<S>>, target: seq<seq<nat>>,
                                     batch: nat, width: nat)
    requires ScoresAllLabels(scorer, |masked|)
    requires Rect(scores, batch, width) && Rect(ended, batch, width) && Rect(state, batch, width)
    requires Rect(target, batch, width)
    ensures var ext := ExtendAll(scorer, masked, scores, ended, state, target, batch, width);
            var w := WhereIntended(ended, masked, ScoreAll(scorer, state, target, batch, width, |masked|),
                                   batch, width, |masked|);
            forall b, h, v :: 0 <= b < batch && 0 <= h < width && 0 <= v < |masked| ==>
              ext[b][h][v] == scores[b][h] + w[b][h][v]
  {
  }

  /** With one batch row and one hypothesis (the first step of a one-row batch) the written filter is the intended one. */
  lemma AgreesOnSingleHypothesis(ended: seq<seq<bool>>, mask: seq<real>, lp: seq<seq<seq<real>>>, vocab: nat)
    requires 0 < vocab && Rect(ended, 1, 1) && |mask| == vocab && Cube(lp, 1, 1, vocab)
    ensures WhereAsWritten(ended, mask, lp, 1, 1, vocab) == Success(WhereIntended(ended, mask, lp, 1, 1, vocab))
  {
    assert JoinDim(1, 1) == Some(1);
    var r := WhereAsWritten(ended, mask, lp, 1, 1, vocab).value;
    var w := WhereIntended(ended, mask, lp, 1, 1, vocab);
    assert |r| == 1 && |r[0]| == 1 && |r[0][0]| == vocab;
    forall v | 0 <= v < vocab
      ensures r[0][0][v] == w[0][0][v]
    {
    }
    assert r[0][0] == w[0][0];
    assert r[0] == w[0];
    assert r == w;
  }

  /**
   * On the first step (one hypothesis per row) of a batch of several rows the
   * written filter does not fail but widens the beam axis to the batch size: the
   * result is `[Batch, Batch, Vocab]` where `[Batch, 1, Vocab]` was meant, and its
   * second hypothesis of every row reads `ended` of batch row 1.
   */
  lemma FirstStepWidensBeam(ended: seq<seq<bool>>, mask: seq<real>, lp: seq<seq<seq<real>>>, batch: nat, vocab: nat)
    requires 1 < batch && 1 < vocab && Rect(ended, batch, 1) && |mask| == vocab && Cube(lp, batch, 1, vocab)
    ensures var r := WhereAsWritten(ended, mask, lp, batch, 1, vocab);
            && r.Success? && |r.value| == batch && |r.value[0]| == batch
            && forall v :: 0 <= v < vocab ==> r.value[0][1][v] == if ended[1][0] then mask[v] else lp[0][0][v]
  {
  }

  /** On a later step of a one-row batch, a beam wider than one and other than `Vocab` makes the written filter raise. */
  lemma LaterStepShapeError(ended: seq<seq<bool>>, mask: seq<real>, lp: seq<seq<seq<real>>>, width: nat, vocab: nat)
    requires 1 < width && 1 < vocab && width != vocab
    requires Rect(ended, 1, width) && |mask| == vocab && Cube(lp, 1, width, vocab)
    ensures WhereAsWritten(ended, mask, lp, 1, width, vocab).Failure?
  {
  }

  /**
   * With a beam as wide as the vocabulary, the written filter succeeds but label
   * `v` of every hypothesis is filtered by the flag of hypothesis `v`: it differs
   * from the intended filter as soon as one hypothesis has ended and another has not.
   */
  lemma FullBeamMisaligned(ended: seq<seq<bool>>, mask: seq<real>, lp: seq<seq<seq<real>>>, vocab: nat, h: nat, v: nat)
    requires 1 < vocab && Rect(ended, 1, vocab) && |mask| == vocab && Cube(lp, 1, vocab, vocab)
    requires h < vocab && v < vocab && ended[0][v] && !ended[0][h] && mask[v] != lp[0][h][v]
    ensures WhereAsWritten(ended, mask, lp, 1, vocab, vocab).Success?
    ensures WhereAsWritten(ended, mask, lp, 1, vocab, vocab).value[0][h][v] !=
            WhereIntended(ended, mask, lp, 1, vocab, vocab)[0][h][v]
  {
  }
}
