/**
 * What the recorded history of `beam_search` implies about every hypothesis,
 * followed along its backref chain: once ended it stays ended, its length is the
 * number of steps before it ended, and (without length normalisation) its score is
 * the sum of the log-probabilities of its labels.
 */
module BeamSearchProps {
  import opened TensorOps
  import opened Backtrack
  import opened BeamSearch

  /** Every recorded step marks ended hypotheses as the loop does. */
  ghost predicate AllEndedOk<S>(tr: Trace<S>, batch: nat, maxSeqLen: seq<int>, opts: BeamSearchOpts)
    requires TraceShape(tr, batch, opts.numLabels, opts.beamSize) && |maxSeqLen| == batch
  {
    forall t :: 0 <= t < |tr.targets| ==> EndedOk(tr, batch, maxSeqLen, opts, t)
  }

  /** Every recorded step grows the lengths as the loop does. */
  ghost predicate AllLenOk<S>(tr: Trace<S>, batch: nat, opts: BeamSearchOpts)
    requires TraceShape(tr, batch, opts.numLabels, opts.beamSize)
  {
    forall t :: 0 <= t < |tr.targets| ==> LenOk(tr, batch, opts, t)
  }

  /**
   * A hypothesis whose ancestor at step `to` had ended has ended too: `ended` is
   * never cleared along a backref chain.
   */
  lemma {:induction false} EndedPersists<S>(tr: Trace<S>, batch: nat, maxSeqLen: seq<int>, opts: BeamSearchOpts,
                                            b: nat, k: nat, from: nat, to: nat)
    requires TraceShape(tr, batch, opts.numLabels, opts.beamSize) && |maxSeqLen| == batch
    requires AllEndedOk(tr, batch, maxSeqLen, opts)
    requires b < batch && to <= from < |tr.targets| && k < opts.beamSize
    requires tr.ended[to][b][Ancestor(tr.backrefs, tr.widths, batch, b, k, from, to)]
    ensures tr.ended[from][b][k]
    decreases from - to
  {
    if to < from {
      var p := tr.backrefs[from][b][k];
      EndedPersists(tr, batch, maxSeqLen, opts, b, p, from - 1, to);
      assert EndedOk(tr, batch, maxSeqLen, opts, from);
    }
  }

  /**
   * `out_seq_len` counts the steps before a hypothesis ended: the length `n` of
   * slot `k` after step `from` is such that its chain had not ended at steps
   * `0 .. n - 1` and had ended at every step from `n` on. In particular the step
   * that emitted `eos` is not counted.
   */
  lemma {:induction false} LenIsStepsBeforeEnd<S>(tr: Trace<S>, batch: nat, maxSeqLen: seq<int>, opts: BeamSearchOpts,
                                                  b: nat, k: nat, from: nat)
    requires TraceShape(tr, batch, opts.numLabels, opts.beamSize) && |maxSeqLen| == batch
    requires AllEndedOk(tr, batch, maxSeqLen, opts) && AllLenOk(tr, batch, opts)
    requires b < batch && from < |tr.targets| && k < opts.beamSize
    ensures tr.lens[from][b][k] <= from + 1
    ensures forall s :: 0 <= s < tr.lens[from][b][k] ==>
              !tr.ended[s][b][Ancestor(tr.backrefs, tr.widths, batch, b, k, from, s)]
    ensures forall s :: tr.lens[from][b][k] <= s <= from ==>
              tr.ended[s][b][Ancestor(tr.backrefs, tr.widths, batch, b, k, from, s)]
    decreases from
  {
    var p := tr.backrefs[from][b][k];
    assert EndedOk(tr, batch, maxSeqLen, opts, from) && LenOk(tr, batch, opts, from);
    if from > 0 {
      LenIsStepsBeforeEnd(tr, batch, maxSeqLen, opts, b, p, from - 1);
      assert forall s :: 0 <= s < from ==>
        Ancestor(tr.backrefs, tr.widths, batch, b, k, from, s) == Ancestor(tr.backrefs, tr.widths, batch, b, p, from - 1, s);
      if !tr.ended[from][b][k] {
        assert Ancestor(tr.backrefs, tr.widths, batch, b, p, from - 1, from - 1) == p;
      }
    }
  }

  /**
   * The log-probability that step `t` gave the label of slot `j`: the scorer's
   * (or, once the parent had ended, the masked) log-probability of that label after
   * the parent hypothesis.
   */
  ghost function StepLogProb<S(!new)>(tr: Trace<S>, scorer: Scorer<S>, batch: nat, opts: BeamSearchOpts,
                                      t: nat, b: nat, j: nat): real
    requires TraceShape(tr, batch, opts.numLabels, opts.beamSize) && ScoresAllLabels(scorer, opts.numLabels)
    requires t < |tr.targets| && b < batch && j < opts.beamSize
    requires tr.targets[t][b][j] < opts.numLabels
  {
    var V := opts.numLabels;
    var p := tr.backrefs[t][b][j];
    assert p < InWidth(opts.beamSize, t) by { assert tr.widths[t] == opts.beamSize; }
    SlotLogProbs(scorer, MaskedFinishedLogProb(V, opts.eosLabel), InEnded(tr, batch, V, opts.beamSize, t, b, p),
                 tr.states[t][b][p], InTarget(tr, batch, V, opts.beamSize, opts.bosLabel, t, b, p))[tr.targets[t][b][j]]
  }

  /** Every recorded label is a label. */
  ghost predicate LabelsInRange<S>(tr: Trace<S>, batch: nat, opts: BeamSearchOpts)
    requires TraceShape(tr, batch, opts.numLabels, opts.beamSize)
  {
    forall t, b, j :: 0 <= t < |tr.targets| && 0 <= b < batch && 0 <= j < opts.beamSize ==>
      tr.targets[t][b][j] < opts.numLabels
  }

  /** The sum of the log-probabilities of the labels on the chain ending in slot `k` of step `from`. */
  ghost function ChainLogProb<S(!new)>(tr: Trace<S>, scorer: Scorer<S>, batch: nat, opts: BeamSearchOpts,
                                       b: nat, k: nat, from: nat): real
    requires TraceShape(tr, batch, opts.numLabels, opts.beamSize) && ScoresAllLabels(scorer, opts.numLabels)
    requires LabelsInRange(tr, batch, opts)
    requires from < |tr.targets| && b < batch && k < opts.beamSize
    decreases from
  {
    (if from == 0 then 0.0
     else ChainLogProb(tr, scorer, batch, opts, b, tr.backrefs[from][b][k], from - 1))
    + StepLogProb(tr, scorer, batch, opts, from, b, k)
  }

  /** Every recorded step is one of the loop. */
  lemma StepsAreTopK<S(!new)>(tr: Trace<S>, scorer: Scorer<S>, batch: nat, maxSeqLen: seq<int>, opts: BeamSearchOpts,
                              pow: (real, real) -> real)
    requires TraceShape(tr, batch, opts.numLabels, opts.beamSize) && |maxSeqLen| == batch
    requires ScoresAllLabels(scorer, opts.numLabels)
    requires forall t :: 0 <= t < |tr.targets| ==> StepOk(tr, scorer, batch, maxSeqLen, opts, pow, t)
    ensures LabelsInRange(tr, batch, opts)
    ensures AllEndedOk(tr, batch, maxSeqLen, opts) && AllLenOk(tr, batch, opts)
  {
    forall t, b, j | 0 <= t < |tr.targets| && 0 <= b < batch && 0 <= j < opts.beamSize
      ensures tr.targets[t][b][j] < opts.numLabels
    {
      assert StepOk(tr, scorer, batch, maxSeqLen, opts, pow, t);
      assert TopKOk(tr, batch, opts, t);
      assert IsTopKNd(tr.exts[t][b], opts.numLabels, opts.beamSize, tr.vals[t][b], tr.backrefs[t][b], tr.targets[t][b]);
    }
    forall t | 0 <= t < |tr.targets|
      ensures EndedOk(tr, batch, maxSeqLen, opts, t) && LenOk(tr, batch, opts, t)
    {
      assert StepOk(tr, scorer, batch, maxSeqLen, opts, pow, t);
    }
  }

  /**
   * Without length normalisation (`e == 0`) the score of every hypothesis is the sum
   * of the log-probabilities of its labels.
   */
  lemma {:induction false} ScoreIsChainLogProb<S(!new)>(tr: Trace<S>, scorer: Scorer<S>, batch: nat, maxSeqLen: seq<int>,
                                                        opts: BeamSearchOpts, pow: (real, real) -> real,
                                                        b: nat, k: nat, from: nat)
    requires TraceShape(tr, batch, opts.numLabels, opts.beamSize) && |maxSeqLen| == batch
    requires ScoresAllLabels(scorer, opts.numLabels)
    requires forall t :: 0 <= t < |tr.targets| ==> StepOk(tr, scorer, batch, maxSeqLen, opts, pow, t)
    requires opts.lengthNormalizationExponent == 0.0
    requires b < batch && from < |tr.targets| && k < opts.beamSize
    ensures LabelsInRange(tr, batch, opts)
    ensures tr.vals[from][b][k] == ChainLogProb(tr, scorer, batch, opts, b, k, from)
    decreases from
  {
    StepsAreTopK(tr, scorer, batch, maxSeqLen, opts, pow);
    var p := tr.backrefs[from][b][k];
    var v := tr.targets[from][b][k];
    assert StepOk(tr, scorer, batch, maxSeqLen, opts, pow, from);
    assert TopKOk(tr, batch, opts, from) && ExtOk(tr, scorer, batch, opts, from);
    assert IsTopKNd(tr.exts[from][b], opts.numLabels, opts.beamSize, tr.vals[from][b], tr.backrefs[from][b], tr.targets[from][b]);
    assert tr.vals[from][b][k] == tr.exts[from][b][p][v];
    assert HeadOk(tr, scorer, batch, opts, pow, from, tr.states[from], tr.inScores[from]);
    assert tr.inScores[from][b][p] == InScore(tr, batch, opts.numLabels, opts, pow, from, b, p);
    if from > 0 {
      ScoreIsChainLogProb(tr, scorer, batch, maxSeqLen, opts, pow, b, p, from - 1);
    }
  }
}
