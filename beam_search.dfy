/**
 * The simple batched beam search of `beam_search_torch.py`: every batch row keeps
 * a beam of hypotheses, each with a label, a cumulative score, an `ended` flag and
 * a length; each step extends every hypothesis by every label, keeps the best
 * `beam_size`, reorders the per-hypothesis state through the backrefs, marks ended
 * hypotheses and optionally rescales ended scores; when every hypothesis has ended
 * the recorded history is backtracked.
 *
 * Tensors `[Batch, Beam]` are `seq<seq<T>>`; scores are reals with the sentinel
 * `BAD` standing for `-1.0e30`. The label scorer is a record of functions, the
 * factor `x ** e` is the parameter `pow`.
 */
module BeamSearch {
  import opened TensorOps
  import opened Backtrack

  /** The score given to impossible extensions. */
  const BAD: real := -1.0e30

  /** `BeamSearchOpts`. */
  datatype BeamSearchOpts = BeamSearchOpts(
    beamSize: nat,
    lengthNormalizationExponent: real,
    bosLabel: nat,
    eosLabel: nat,
    numLabels: nat)

  /**
   * The label scorer, one hypothesis at a time: the initial state of batch row `b`,
   * the state after feeding a label, and the log-probabilities of the next label
   * given the previous state, the previous label and the new state.
   */
  datatype Scorer<!S> = Scorer(
    initial: nat -> S,
    update: (S, nat) -> S,
    score: (S, nat, S) -> seq<real>)

  /** The scorer gives one log-probability per label. */
  ghost predicate ScoresAllLabels<S(!new)>(scorer: Scorer<S>, numLabels: nat)
  {
    forall st: S, prev: nat, st': S :: |scorer.score(st, prev, st')| == numLabels
  }

  /** The state reached from `st` by feeding `labels` one after the other. */
  function Feed<S>(update: (S, nat) -> S, st: S, labels: seq<nat>): S
  {
    if labels == [] then st else update(Feed(update, st, labels[..|labels| - 1]), labels[|labels| - 1])
  }

  /**
   * `masked_finished_log_prob`: the log-probabilities used for an ended hypothesis,
   * zero for `eos` and `BAD` for every other label.
   */
  function MaskedFinishedLogProb(numLabels: nat, eos: nat): (r: seq<real>)
    ensures |r| == numLabels
    ensures forall v :: 0 <= v < numLabels ==> (r[v] == 0.0 <==> v == eos) && (r[v] != 0.0 ==> r[v] == BAD)
  {
    seq(numLabels, v requires 0 <= v < numLabels => if v == eos then 0.0 else BAD)
  }

  /** The log-probabilities of the next label for one hypothesis, after filtering out ended ones. */
  function SlotLogProbs<S(!new)>(scorer: Scorer<S>, masked: seq<real>, ended: bool, st: S, prev: nat): (r: seq<real>)
    requires ScoresAllLabels(scorer, |masked|)
    ensures |r| == |masked|
  {
    if ended then masked else scorer.score(st, prev, scorer.update(st, prev))
  }

  /** `seq_log_prob[:, :, None] + label_log_prob` for one hypothesis. */
  function ExtendSlot(score: real, logProbs: seq<real>): (r: seq<real>)
    ensures |r| == |logProbs|
  {
    seq(|logProbs|, v requires 0 <= v < |logProbs| => score + logProbs[v])
  }

  /**
   * An ended hypothesis can only be extended by `eos`, at zero additional score;
   * every other extension of it scores `BAD` more.
   */
  lemma EndedExtendsOnlyByEos<S(!new)>(scorer: Scorer<S>, numLabels: nat, eos: nat, st: S, prev: nat, score: real, v: nat)
    requires v < numLabels && ScoresAllLabels(scorer, numLabels)
    ensures var ext := ExtendSlot(score, SlotLogProbs(scorer, MaskedFinishedLogProb(numLabels, eos), true, st, prev));
            |ext| == numLabels && (v == eos ==> ext[v] == score) && (v != eos ==> ext[v] == score + BAD)
  {
  }

  /** `ended | (target == eos) | (i >= max_seq_len)[:, None]`. */
  function MarkEnded(ended: seq<seq<bool>>, target: seq<seq<nat>>, eos: nat, maxSeqLen: seq<int>, i: nat)
    : (r: seq<seq<bool>>)
    requires |ended| == |target| == |maxSeqLen|
    requires forall b :: 0 <= b < |ended| ==> |ended[b]| == |target[b]|
    ensures |r| == |ended| && forall b :: 0 <= b < |r| ==> |r[b]| == |ended[b]|
    ensures forall b, k :: 0 <= b < |r| && 0 <= k < |r[b]| ==>
              (r[b][k] <==> ended[b][k] || target[b][k] == eos || i >= maxSeqLen[b])
  {
    seq(|ended|, b requires 0 <= b < |ended| =>
      seq(|ended[b]|, k requires 0 <= k < |ended[b]| => ended[b][k] || target[b][k] == eos || i >= maxSeqLen[b]))
  }

  /** `ended.all()`. */
  predicate AllEnded(ended: seq<seq<bool>>)
  {
    forall b, k | 0 <= b < |ended| && 0 <= k < |ended[b]| :: ended[b][k]
  }

  /** `out_seq_len + torch.where(ended, 0, 1)`. */
  function GrowLen(lens: seq<seq<nat>>, ended: seq<seq<bool>>): (r: seq<seq<nat>>)
    requires |lens| == |ended| && forall b :: 0 <= b < |lens| ==> |lens[b]| == |ended[b]|
    ensures |r| == |lens| && forall b :: 0 <= b < |r| ==> |r[b]| == |lens[b]|
    ensures forall b, k :: 0 <= b < |r| && 0 <= k < |r[b]| ==> r[b][k] == lens[b][k] + (if ended[b][k] then 0 else 1)
  {
    seq(|lens|, b requires 0 <= b < |lens| =>
      seq(|lens[b]|, k requires 0 <= k < |lens[b]| => lens[b][k] + (if ended[b][k] then 0 else 1)))
  }

  /** `scores *= torch.where(ended, factor, 1.0)`. */
  function RescaleEnded(scores: seq<seq<real>>, ended: seq<seq<bool>>, factor: real): (r: seq<seq<real>>)
    requires |scores| == |ended| && forall b :: 0 <= b < |scores| ==> |scores[b]| == |ended[b]|
    ensures |r| == |scores| && forall b :: 0 <= b < |r| ==> |r[b]| == |scores[b]|
    ensures forall b, k :: 0 <= b < |r| && 0 <= k < |r[b]| ==>
              r[b][k] == scores[b][k] * (if ended[b][k] then factor else 1.0)
  {
    seq(|scores|, b requires 0 <= b < |scores| =>
      seq(|scores[b]|, k requires 0 <= k < |scores[b]| => scores[b][k] * (if ended[b][k] then factor else 1.0)))
  }

  /** `scores *= factor`. */
  function ScaleAll(scores: seq<seq<real>>, factor: real): (r: seq<seq<real>>)
    ensures |r| == |scores| && forall b :: 0 <= b < |r| ==> |r[b]| == |scores[b]|
    ensures forall b, k :: 0 <= b < |r| && 0 <= k < |r[b]| ==> r[b][k] == scores[b][k] * factor
  {
    seq(|scores|, b requires 0 <= b < |scores| =>
      seq(|scores[b]|, k requires 0 <= k < |scores[b]| => scores[b][k] * factor))
  }

  /** A step count after which every row has reached its `max_seq_len` (and at least one step). */
  function StepBound(maxSeqLen: seq<int>): (m: nat)
    ensures m >= 1
    ensures forall b :: 0 <= b < |maxSeqLen| ==> maxSeqLen[b] <= m
  {
    if maxSeqLen == [] then 1
    else
      var rest := StepBound(maxSeqLen[1..]);
      if maxSeqLen[0] > rest then maxSeqLen[0] else rest
  }

  /**
   * Everything the loop records or computes, one entry per step `t`: the scorer
   * state and score of every input hypothesis, the extended scores, the top-k
   * values, backrefs and labels, and the `ended` flags and lengths after the step.
   */
  datatype Trace<S> = Trace(
    states: seq<seq<seq<S>>>,
    inScores: seq<seq<seq<real>>>,
    exts: seq<seq<seq<seq<real>>>>,
    vals: seq<seq<seq<real>>>,
    backrefs: seq<seq<seq<nat>>>,
    targets: seq<seq<seq<nat>>>,
    ended: seq<seq<seq<bool>>>,
    lens: seq<seq<seq<nat>>>,
    widths: seq<nat>)

  /** The number of input hypotheses of step `t`: one initially, `beam_size` afterwards. */
  function InWidth(beamSize: nat, t: nat): nat
  {
    if t == 0 then 1 else beamSize
  }

  /** `xs` lists `n` tensors `[batch, first]`, `[batch, width]`, `[batch, width]`, ... */
  ghost predicate Steps<T>(xs: seq<seq<seq<T>>>, n: nat, batch: nat, first: nat, width: nat)
  {
    && |xs| == n
    && (forall t :: 0 <= t < n ==> |xs[t]| == batch)
    && (forall t, b :: 0 <= t < n && 0 <= b < batch ==> |xs[t][b]| == if t == 0 then first else width)
  }

  /** Appending a tensor of the next step's shape to such a list. */
  lemma StepsAppend<T>(xs0: seq<seq<seq<T>>>, xs: seq<seq<seq<T>>>, n: nat, batch: nat, first: nat, width: nat)
    requires Steps(xs0, n, batch, first, width)
    requires |xs| == n + 1 && xs[..n] == xs0 && Rect(xs[n], batch, if n == 0 then first else width)
    ensures Steps(xs, n + 1, batch, first, width) && xs0 <= xs
  {
    assert forall t :: 0 <= t < n ==> xs[t] == xs0[t];
  }

  /** Every entry of the trace has the shape the loop gives it. */
  ghost predicate TraceShape<S>(tr: Trace<S>, batch: nat, numLabels: nat, beamSize: nat)
  {
    var n := |tr.targets|;
    && WellFormed(tr.targets, tr.backrefs, tr.widths, batch)
    && (forall t :: 0 <= t < n ==> tr.widths[t] == beamSize)
    && Steps(tr.states, n, batch, 1, beamSize) && Steps(tr.inScores, n, batch, 1, beamSize)
    && Steps(tr.exts, n, batch, 1, beamSize)
    && Steps(tr.vals, n, batch, beamSize, beamSize) && Steps(tr.ended, n, batch, beamSize, beamSize)
    && Steps(tr.lens, n, batch, beamSize, beamSize)
    && (forall t, b, h :: 0 <= t < n && 0 <= b < batch && 0 <= h < InWidth(beamSize, t) ==>
          |tr.exts[t][b][h]| == numLabels)
  }

  /** Whether input hypothesis `h` of step `t` had ended (none has at the start). */
  ghost function InEnded<S>(tr: Trace<S>, batch: nat, numLabels: nat, beamSize: nat, t: nat, b: nat, h: nat): bool
    requires TraceShape(tr, batch, numLabels, beamSize)
    requires t <= |tr.targets| && b < batch && h < InWidth(beamSize, t)
  {
    t > 0 && tr.ended[t - 1][b][h]
  }

  /** The label of input hypothesis `h` of step `t` (`bos` at the start). */
  ghost function InTarget<S>(tr: Trace<S>, batch: nat, numLabels: nat, beamSize: nat, bos: nat,
                             t: nat, b: nat, h: nat): nat
    requires TraceShape(tr, batch, numLabels, beamSize)
    requires t <= |tr.targets| && b < batch && h < InWidth(beamSize, t)
  {
    if t == 0 then bos else tr.targets[t - 1][b][h]
  }

  /** The length of input hypothesis `h` of step `t` (0 at the start). */
  ghost function InLen<S>(tr: Trace<S>, batch: nat, numLabels: nat, beamSize: nat, t: nat, b: nat, h: nat): nat
    requires TraceShape(tr, batch, numLabels, beamSize)
    requires t <= |tr.targets| && b < batch && h < InWidth(beamSize, t)
  {
    if t == 0 then 0 else tr.lens[t - 1][b][h]
  }

  /**
   * The score of input hypothesis `h` of step `t`: 0 at the start, afterwards the
   * top-k value of the previous step, multiplied by `(t / (t - 1)) ** e` when it
   * had ended, `t > 1` and the exponent is not 0.
   */
  ghost function InScore<S>(tr: Trace<S>, batch: nat, numLabels: nat, opts: BeamSearchOpts, pow: (real, real) -> real,
                            t: nat, b: nat, h: nat): real
    requires TraceShape(tr, batch, numLabels, opts.beamSize)
    requires t <= |tr.targets| && b < batch && h < InWidth(opts.beamSize, t)
  {
    if t == 0 then 0.0
    else
      var e := opts.lengthNormalizationExponent;
      tr.vals[t - 1][b][h] *
        (if t > 1 && e != 0.0 && tr.ended[t - 1][b][h] then pow(t as real / (t - 1) as real, e) else 1.0)
  }

  /**
   * The labels fed to the scorer state of input hypothesis `h` of step `t`: none at
   * the start, afterwards `bos` followed by all labels of its chain but the last.
   */
  ghost function FedLabels<S>(tr: Trace<S>, batch: nat, numLabels: nat, beamSize: nat, bos: nat,
                              t: nat, b: nat, h: nat): seq<nat>
    requires TraceShape(tr, batch, numLabels, beamSize)
    requires t <= |tr.targets| && b < batch && h < InWidth(beamSize, t)
  {
    if t == 0 then [] else [bos] + ChainLabels(tr.targets, tr.backrefs, tr.widths, batch, b, h, t - 1)[..t - 1]
  }

  /**
   * The input hypotheses of step `t` are `(state, scores)`: each state is the
   * scorer's state after feeding the hypothesis' own labels, and each score is the
   * one the previous step left.
   */
  ghost predicate HeadOk<S>(tr: Trace<S>, scorer: Scorer<S>, batch: nat, opts: BeamSearchOpts,
                            pow: (real, real) -> real, t: nat, state: seq<seq<S>>, scores: seq<seq<real>>)
    requires TraceShape(tr, batch, opts.numLabels, opts.beamSize) && t <= |tr.targets|
  {
    && Rect(state, batch, InWidth(opts.beamSize, t)) && Rect(scores, batch, InWidth(opts.beamSize, t))
    && (forall b, h :: 0 <= b < batch && 0 <= h < InWidth(opts.beamSize, t) ==>
          state[b][h] == Feed(scorer.update, scorer.initial(b),
                              FedLabels(tr, batch, opts.numLabels, opts.beamSize, opts.bosLabel, t, b, h)))
    && (forall b, h :: 0 <= b < batch && 0 <= h < InWidth(opts.beamSize, t) ==>
          scores[b][h] == InScore(tr, batch, opts.numLabels, opts, pow, t, b, h))
  }

  /**
   * Step `t` extends every input hypothesis by every label: its extended scores are
   * its score plus the scorer's log-probabilities, or the masked ones once ended.
   */
  ghost predicate ExtOk<S(!new)>(tr: Trace<S>, scorer: Scorer<S>, batch: nat, opts: BeamSearchOpts, t: nat)
    requires TraceShape(tr, batch, opts.numLabels, opts.beamSize) && t < |tr.targets|
    requires ScoresAllLabels(scorer, opts.numLabels)
  {
    var V := opts.numLabels;
    var k := opts.beamSize;
    forall b, h, v :: 0 <= b < batch && 0 <= h < InWidth(k, t) && 0 <= v < V ==>
      tr.exts[t][b][h][v] == tr.inScores[t][b][h]
                             + SlotLogProbs(scorer, MaskedFinishedLogProb(V, opts.eosLabel), InEnded(tr, batch, V, k, t, b, h),
                                            tr.states[t][b][h], InTarget(tr, batch, V, k, opts.bosLabel, t, b, h))[v]
  }

  /** Step `t` keeps a top `beam_size` of the extensions of every row. */
  ghost predicate TopKOk<S>(tr: Trace<S>, batch: nat, opts: BeamSearchOpts, t: nat)
    requires TraceShape(tr, batch, opts.numLabels, opts.beamSize) && t < |tr.targets|
  {
    forall b :: 0 <= b < batch ==>
      IsTopKNd(tr.exts[t][b], opts.numLabels, opts.beamSize, tr.vals[t][b], tr.backrefs[t][b], tr.targets[t][b])
  }

  /**
   * After step `t` a hypothesis has ended iff its parent had, its label is `eos`,
   * or its row has reached `max_seq_len` (the step counter is then `t + 1`).
   */
  ghost predicate EndedOk<S>(tr: Trace<S>, batch: nat, maxSeqLen: seq<int>, opts: BeamSearchOpts, t: nat)
    requires TraceShape(tr, batch, opts.numLabels, opts.beamSize) && t < |tr.targets| && |maxSeqLen| == batch
  {
    forall b, j :: 0 <= b < batch && 0 <= j < opts.beamSize ==>
      (tr.ended[t][b][j] <==>
         InEnded(tr, batch, opts.numLabels, opts.beamSize, t, b, tr.backrefs[t][b][j])
         || tr.targets[t][b][j] == opts.eosLabel || t + 1 >= maxSeqLen[b])
  }

  /** After step `t` a hypothesis has its parent's length, plus one unless it has ended. */
  ghost predicate LenOk<S>(tr: Trace<S>, batch: nat, opts: BeamSearchOpts, t: nat)
    requires TraceShape(tr, batch, opts.numLabels, opts.beamSize) && t < |tr.targets|
  {
    forall b, j :: 0 <= b < batch && 0 <= j < opts.beamSize ==>
      tr.lens[t][b][j] == InLen(tr, batch, opts.numLabels, opts.beamSize, t, b, tr.backrefs[t][b][j])
                          + (if tr.ended[t][b][j] then 0 else 1)
  }

  /** Step `t` of the loop, as recorded in the trace. */
  ghost predicate StepOk<S(!new)>(tr: Trace<S>, scorer: Scorer<S>, batch: nat, maxSeqLen: seq<int>, opts: BeamSearchOpts,
                            pow: (real, real) -> real, t: nat)
    requires TraceShape(tr, batch, opts.numLabels, opts.beamSize) && t < |tr.targets| && |maxSeqLen| == batch
    requires ScoresAllLabels(scorer, opts.numLabels)
  {
    && HeadOk(tr, scorer, batch, opts, pow, t, tr.states[t], tr.inScores[t])
    && ExtOk(tr, scorer, batch, opts, t)
    && TopKOk(tr, batch, opts, t)
    && EndedOk(tr, batch, maxSeqLen, opts, t)
    && LenOk(tr, batch, opts, t)
  }

  /** Steps `0..n-1` of the loop, as recorded in the trace. */
  ghost predicate StepsOk<S(!new)>(tr: Trace<S>, scorer: Scorer<S>, batch: nat, maxSeqLen: seq<int>, opts: BeamSearchOpts,
                                   pow: (real, real) -> real, n: nat)
    requires TraceShape(tr, batch, opts.numLabels, opts.beamSize) && n <= |tr.targets| && |maxSeqLen| == batch
    requires ScoresAllLabels(scorer, opts.numLabels)
  {
    forall t :: 0 <= t < n ==> StepOk(tr, scorer, batch, maxSeqLen, opts, pow, t)
  }

  /** `tr` continues `tr0`: every list recorded in `tr0` is a prefix of the one in `tr`. */
  ghost predicate Extends<S>(tr0: Trace<S>, tr: Trace<S>)
  {
    && tr0.states <= tr.states && tr0.inScores <= tr.inScores && tr0.exts <= tr.exts && tr0.vals <= tr.vals
    && tr0.backrefs <= tr.backrefs && tr0.targets <= tr.targets && tr0.ended <= tr.ended && tr0.lens <= tr.lens
    && tr0.widths <= tr.widths
  }

  /** What holds of the inputs of a step stays true when later steps are recorded. */
  lemma HeadOkExtend<S>(tr0: Trace<S>, tr: Trace<S>, scorer: Scorer<S>, batch: nat, opts: BeamSearchOpts,
                        pow: (real, real) -> real, t: nat, state: seq<seq<S>>, scores: seq<seq<real>>)
    requires TraceShape(tr0, batch, opts.numLabels, opts.beamSize) && TraceShape(tr, batch, opts.numLabels, opts.beamSize)
    requires Extends(tr0, tr) && t <= |tr0.targets|
    requires HeadOk(tr0, scorer, batch, opts, pow, t, state, scores)
    ensures HeadOk(tr, scorer, batch, opts, pow, t, state, scores)
  {
    forall b, h | 0 <= b < batch && 0 <= h < InWidth(opts.beamSize, t)
      ensures FedLabels(tr, batch, opts.numLabels, opts.beamSize, opts.bosLabel, t, b, h)
              == FedLabels(tr0, batch, opts.numLabels, opts.beamSize, opts.bosLabel, t, b, h)
      ensures InScore(tr, batch, opts.numLabels, opts, pow, t, b, h) == InScore(tr0, batch, opts.numLabels, opts, pow, t, b, h)
    {
      if t > 0 {
        ChainLabelsPrefix(tr0.targets, tr0.backrefs, tr0.widths, tr.targets, tr.backrefs, tr.widths, batch, b, h, t - 1);
        assert tr.vals[t - 1] == tr0.vals[t - 1] && tr.ended[t - 1] == tr0.ended[t - 1];
      }
    }
  }

  /** Recorded steps stay correctly recorded when later steps are recorded. */
  lemma StepsOkExtend<S(!new)>(tr0: Trace<S>, tr: Trace<S>, scorer: Scorer<S>, batch: nat, maxSeqLen: seq<int>,
                               opts: BeamSearchOpts, pow: (real, real) -> real)
    requires TraceShape(tr0, batch, opts.numLabels, opts.beamSize) && TraceShape(tr, batch, opts.numLabels, opts.beamSize)
    requires Extends(tr0, tr) && |tr0.targets| <= |tr.targets| && |maxSeqLen| == batch
    requires ScoresAllLabels(scorer, opts.numLabels)
    requires StepsOk(tr0, scorer, batch, maxSeqLen, opts, pow, |tr0.targets|)
    ensures StepsOk(tr, scorer, batch, maxSeqLen, opts, pow, |tr0.targets|)
  {
    forall t | 0 <= t < |tr0.targets|
      ensures StepOk(tr, scorer, batch, maxSeqLen, opts, pow, t)
    {
      StepOkExtend(tr0, tr, scorer, batch, maxSeqLen, opts, pow, t);
    }
  }

  /** A recorded step stays correctly recorded when later steps are recorded. */
  lemma StepOkExtend<S(!new)>(tr0: Trace<S>, tr: Trace<S>, scorer: Scorer<S>, batch: nat, maxSeqLen: seq<int>,
                              opts: BeamSearchOpts, pow: (real, real) -> real, t: nat)
    requires TraceShape(tr0, batch, opts.numLabels, opts.beamSize) && TraceShape(tr, batch, opts.numLabels, opts.beamSize)
    requires Extends(tr0, tr) && t < |tr0.targets| && |maxSeqLen| == batch
    requires ScoresAllLabels(scorer, opts.numLabels)
    requires StepOk(tr0, scorer, batch, maxSeqLen, opts, pow, t)
    ensures StepOk(tr, scorer, batch, maxSeqLen, opts, pow, t)
  {
    assert tr.states[t] == tr0.states[t] && tr.inScores[t] == tr0.inScores[t];
    HeadOkExtend(tr0, tr, scorer, batch, opts, pow, t, tr0.states[t], tr0.inScores[t]);
    assert ExtOk(tr, scorer, batch, opts, t) by {
      assert tr.exts[t] == tr0.exts[t];
      assert t > 0 ==> tr.ended[t - 1] == tr0.ended[t - 1] && tr.targets[t - 1] == tr0.targets[t - 1];
    }
    assert TopKOk(tr, batch, opts, t) by {
      assert tr.exts[t] == tr0.exts[t] && tr.vals[t] == tr0.vals[t];
      assert tr.backrefs[t] == tr0.backrefs[t] && tr.targets[t] == tr0.targets[t];
    }
    assert EndedOk(tr, batch, maxSeqLen, opts, t) by {
      assert tr.ended[t] == tr0.ended[t] && tr.backrefs[t] == tr0.backrefs[t] && tr.targets[t] == tr0.targets[t];
      assert t > 0 ==> tr.ended[t - 1] == tr0.ended[t - 1];
    }
    assert LenOk(tr, batch, opts, t) by {
      assert tr.ended[t] == tr0.ended[t] && tr.backrefs[t] == tr0.backrefs[t] && tr.lens[t] == tr0.lens[t];
      assert t > 0 ==> tr.lens[t - 1] == tr0.lens[t - 1];
    }
  }

  /**
   * What a step computes from its inputs (`width` hypotheses per row): the extended
   * scores of every hypothesis, a top `beam_size` of them, and the flags and lengths
   * of the kept hypotheses after step `i`.
   */
  ghost predicate StepComputed<S(!new)>(scorer: Scorer<S>, batch: nat, maxSeqLen: seq<int>, opts: BeamSearchOpts,
                                        width: nat, i: nat, state: seq<seq<S>>, scores: seq<seq<real>>,
                                        target: seq<seq<nat>>, ended: seq<seq<bool>>, lens: seq<seq<nat>>,
                                        ext: seq<seq<seq<real>>>, vals: seq<seq<real>>, backrefs: seq<seq<nat>>,
                                        labels: seq<seq<nat>>, endedNew: seq<seq<bool>>, grown: seq<seq<nat>>)
    requires |maxSeqLen| == batch && ScoresAllLabels(scorer, opts.numLabels)
    requires Rect(state, batch, width) && Rect(scores, batch, width)
    requires Rect(target, batch, width) && Rect(ended, batch, width) && Rect(lens, batch, width)
  {
    && Rect(ext, batch, width)
    && (forall b, h :: 0 <= b < batch && 0 <= h < width ==>
          ext[b][h] == ExtendSlot(scores[b][h], SlotLogProbs(scorer, MaskedFinishedLogProb(opts.numLabels, opts.eosLabel),
                                                             ended[b][h], state[b][h], target[b][h])))
    && Rect(vals, batch, opts.beamSize) && Rect(backrefs, batch, opts.beamSize) && Rect(labels, batch, opts.beamSize)
    && (forall b :: 0 <= b < batch ==> IsTopKNd(ext[b], opts.numLabels, opts.beamSize, vals[b], backrefs[b], labels[b]))
    && (forall b, j :: 0 <= b < batch && 0 <= j < opts.beamSize ==> backrefs[b][j] < width)
    && Rect(endedNew, batch, opts.beamSize) && Rect(grown, batch, opts.beamSize)
    && (forall b, j :: 0 <= b < batch && 0 <= j < opts.beamSize ==>
          && (endedNew[b][j] <==> ended[b][backrefs[b][j]] || labels[b][j] == opts.eosLabel || i + 1 >= maxSeqLen[b])
          && grown[b][j] == lens[b][backrefs[b][j]] + (if endedNew[b][j] then 0 else 1))
  }

  /**
   * Recording one step of the loop: from the step's inputs, its extensions, its
   * top-k and the new `ended` flags and lengths, the trace grows by a step that is
   * correctly recorded, and every earlier step stays so.
   */
  lemma RecordStep<S(!new)>(tr0: Trace<S>, scorer: Scorer<S>, batch: nat, maxSeqLen: seq<int>, opts: BeamSearchOpts,
                            pow: (real, real) -> real, state: seq<seq<S>>, scores: seq<seq<real>>,
                            target: seq<seq<nat>>, ended: seq<seq<bool>>, lens: seq<seq<nat>>,
                            ext: seq<seq<seq<real>>>, vals: seq<seq<real>>, backrefs: seq<seq<nat>>,
                            labels: seq<seq<nat>>, endedNew: seq<seq<bool>>, grown: seq<seq<nat>>)
    returns (tr: Trace<S>)
    requires StepInputs(tr0, scorer, batch, opts, pow, |tr0.targets|, InWidth(opts.beamSize, |tr0.targets|),
                        state, scores, target, ended, lens)
    requires |maxSeqLen| == batch && ScoresAllLabels(scorer, opts.numLabels)
    requires StepsOk(tr0, scorer, batch, maxSeqLen, opts, pow, |tr0.targets|)
    requires StepComputed(scorer, batch, maxSeqLen, opts, InWidth(opts.beamSize, |tr0.targets|), |tr0.targets|,
                          state, scores, target, ended, lens, ext, vals, backrefs, labels, endedNew, grown)
    ensures tr == Trace(tr0.states + [state], tr0.inScores + [scores], tr0.exts + [ext], tr0.vals + [vals],
                        tr0.backrefs + [backrefs], tr0.targets + [labels], tr0.ended + [endedNew], tr0.lens + [grown],
                        tr0.widths + [opts.beamSize])
    ensures TraceShape(tr, batch, opts.numLabels, opts.beamSize) && Extends(tr0, tr)
    ensures StepsOk(tr, scorer, batch, maxSeqLen, opts, pow, |tr0.targets| + 1)
    ensures forall b, h :: 0 <= b < batch && 0 <= h < InWidth(opts.beamSize, |tr0.targets|) ==>
              target[b][h] == InTarget(tr, batch, opts.numLabels, opts.beamSize, opts.bosLabel, |tr0.targets|, b, h)
  {
    var i := |tr0.targets|;
    var V := opts.numLabels;
    var k := opts.beamSize;
    tr := Trace(tr0.states + [state], tr0.inScores + [scores], tr0.exts + [ext], tr0.vals + [vals],
                tr0.backrefs + [backrefs], tr0.targets + [labels], tr0.ended + [endedNew], tr0.lens + [grown],
                tr0.widths + [k]);
    AppendShape(tr0, tr, batch, V, k);
    StepsOkExtend(tr0, tr, scorer, batch, maxSeqLen, opts, pow);
    NewStepOk(tr0, tr, scorer, batch, maxSeqLen, opts, pow, state, scores, target, ended, lens,
              ext, vals, backrefs, labels, endedNew, grown);
    StepsOkAppend(tr, scorer, batch, maxSeqLen, opts, pow, i);
    assert i > 0 ==> tr.targets[i - 1] == tr0.targets[i - 1];
  }

  /** The step just appended to the trace is correctly recorded. */
  lemma NewStepOk<S(!new)>(tr0: Trace<S>, tr: Trace<S>, scorer: Scorer<S>, batch: nat, maxSeqLen: seq<int>,
                           opts: BeamSearchOpts, pow: (real, real) -> real, state: seq<seq<S>>, scores: seq<seq<real>>,
                           target: seq<seq<nat>>, ended: seq<seq<bool>>, lens: seq<seq<nat>>,
                           ext: seq<seq<seq<real>>>, vals: seq<seq<real>>, backrefs: seq<seq<nat>>,
                           labels: seq<seq<nat>>, endedNew: seq<seq<bool>>, grown: seq<seq<nat>>)
    requires StepInputs(tr0, scorer, batch, opts, pow, |tr0.targets|, InWidth(opts.beamSize, |tr0.targets|),
                        state, scores, target, ended, lens)
    requires |maxSeqLen| == batch && ScoresAllLabels(scorer, opts.numLabels)
    requires StepComputed(scorer, batch, maxSeqLen, opts, InWidth(opts.beamSize, |tr0.targets|), |tr0.targets|,
                          state, scores, target, ended, lens, ext, vals, backrefs, labels, endedNew, grown)
    requires tr == Trace(tr0.states + [state], tr0.inScores + [scores], tr0.exts + [ext], tr0.vals + [vals],
                         tr0.backrefs + [backrefs], tr0.targets + [labels], tr0.ended + [endedNew], tr0.lens + [grown],
                         tr0.widths + [opts.beamSize])
    requires TraceShape(tr, batch, opts.numLabels, opts.beamSize) && Extends(tr0, tr)
    ensures StepOk(tr, scorer, batch, maxSeqLen, opts, pow, |tr0.targets|)
  {
    var i := |tr0.targets|;
    HeadOkExtend(tr0, tr, scorer, batch, opts, pow, i, state, scores);
    RecordExt(tr0, tr, scorer, batch, opts, state, scores, target, ended, ext);
    assert TopKOk(tr, batch, opts, i);
    RecordFlags(tr0, tr, batch, maxSeqLen, opts, ended, lens);
  }

  /** Recording step `n` correctly extends the recorded steps by one. */
  lemma StepsOkAppend<S(!new)>(tr: Trace<S>, scorer: Scorer<S>, batch: nat, maxSeqLen: seq<int>,
                               opts: BeamSearchOpts, pow: (real, real) -> real, n: nat)
    requires TraceShape(tr, batch, opts.numLabels, opts.beamSize) && n < |tr.targets| && |maxSeqLen| == batch
    requires ScoresAllLabels(scorer, opts.numLabels)
    requires StepsOk(tr, scorer, batch, maxSeqLen, opts, pow, n) && StepOk(tr, scorer, batch, maxSeqLen, opts, pow, n)
    ensures StepsOk(tr, scorer, batch, maxSeqLen, opts, pow, n + 1)
  {
  }

  /** The extended scores of a new step, computed from its inputs, are correctly recorded. */
  lemma RecordExt<S(!new)>(tr0: Trace<S>, tr: Trace<S>, scorer: Scorer<S>, batch: nat, opts: BeamSearchOpts,
                           state: seq<seq<S>>, scores: seq<seq<real>>, target: seq<seq<nat>>, ended: seq<seq<bool>>,
                           ext: seq<seq<seq<real>>>)
    requires TraceShape(tr0, batch, opts.numLabels, opts.beamSize) && TraceShape(tr, batch, opts.numLabels, opts.beamSize)
    requires Extends(tr0, tr) && |tr.targets| == |tr0.targets| + 1 && ScoresAllLabels(scorer, opts.numLabels)
    requires var i := |tr0.targets|;
             tr.states[i] == state && tr.inScores[i] == scores && tr.exts[i] == ext
    requires Rect(ext, batch, InWidth(opts.beamSize, |tr0.targets|))
    requires Rect(target, batch, InWidth(opts.beamSize, |tr0.targets|))
    requires Rect(ended, batch, InWidth(opts.beamSize, |tr0.targets|))
    requires forall b, h :: 0 <= b < batch && 0 <= h < InWidth(opts.beamSize, |tr0.targets|) ==>
               && target[b][h] == InTarget(tr0, batch, opts.numLabels, opts.beamSize, opts.bosLabel, |tr0.targets|, b, h)
               && ended[b][h] == InEnded(tr0, batch, opts.numLabels, opts.beamSize, |tr0.targets|, b, h)
               && ext[b][h] == ExtendSlot(scores[b][h], SlotLogProbs(scorer, MaskedFinishedLogProb(opts.numLabels, opts.eosLabel),
                                                                     ended[b][h], state[b][h], target[b][h]))
    ensures ExtOk(tr, scorer, batch, opts, |tr0.targets|)
  {
    var i := |tr0.targets|;
    var V := opts.numLabels;
    var k := opts.beamSize;
    forall b, h, v | 0 <= b < batch && 0 <= h < InWidth(k, i) && 0 <= v < V
      ensures tr.exts[i][b][h][v] == tr.inScores[i][b][h]
                + SlotLogProbs(scorer, MaskedFinishedLogProb(V, opts.eosLabel), InEnded(tr, batch, V, k, i, b, h),
                               tr.states[i][b][h], InTarget(tr, batch, V, k, opts.bosLabel, i, b, h))[v]
    {
      assert i > 0 ==> tr.ended[i - 1] == tr0.ended[i - 1] && tr.targets[i - 1] == tr0.targets[i - 1];
    }
  }

  /** The `ended` flags and lengths of a new step, computed from its inputs, are correctly recorded. */
  lemma RecordFlags<S>(tr0: Trace<S>, tr: Trace<S>, batch: nat, maxSeqLen: seq<int>, opts: BeamSearchOpts,
                       ended: seq<seq<bool>>, lens: seq<seq<nat>>)
    requires TraceShape(tr0, batch, opts.numLabels, opts.beamSize) && TraceShape(tr, batch, opts.numLabels, opts.beamSize)
    requires Extends(tr0, tr) && |tr.targets| == |tr0.targets| + 1 && |maxSeqLen| == batch
    requires Rect(ended, batch, InWidth(opts.beamSize, |tr0.targets|))
    requires Rect(lens, batch, InWidth(opts.beamSize, |tr0.targets|))
    requires forall b, h :: 0 <= b < batch && 0 <= h < InWidth(opts.beamSize, |tr0.targets|) ==>
               && ended[b][h] == InEnded(tr0, batch, opts.numLabels, opts.beamSize, |tr0.targets|, b, h)
               && lens[b][h] == InLen(tr0, batch, opts.numLabels, opts.beamSize, |tr0.targets|, b, h)
    requires var i := |tr0.targets|;
             forall b, j :: 0 <= b < batch && 0 <= j < opts.beamSize ==>
               && (tr.ended[i][b][j] <==> ended[b][tr.backrefs[i][b][j]] || tr.targets[i][b][j] == opts.eosLabel
                                          || i + 1 >= maxSeqLen[b])
               && tr.lens[i][b][j] == lens[b][tr.backrefs[i][b][j]] + (if tr.ended[i][b][j] then 0 else 1)
    ensures EndedOk(tr, batch, maxSeqLen, opts, |tr0.targets|) && LenOk(tr, batch, opts, |tr0.targets|)
  {
    var i := |tr0.targets|;
    if i > 0 {
      assert tr.ended[i - 1] == tr0.ended[i - 1] && tr.lens[i - 1] == tr0.lens[i - 1];
    }
  }

  /** Appending a step of the right shape to a trace keeps its shape. */
  lemma AppendShape<S>(tr0: Trace<S>, tr: Trace<S>, batch: nat, numLabels: nat, beamSize: nat)
    requires TraceShape(tr0, batch, numLabels, beamSize)
    requires var i := |tr0.targets|;
             && |tr.states| == |tr.inScores| == |tr.exts| == |tr.vals| == |tr.backrefs| == |tr.targets| == i + 1
             && |tr.ended| == |tr.lens| == |tr.widths| == i + 1
             && tr.states[..i] == tr0.states && tr.inScores[..i] == tr0.inScores && tr.exts[..i] == tr0.exts
             && tr.vals[..i] == tr0.vals && tr.backrefs[..i] == tr0.backrefs && tr.targets[..i] == tr0.targets
             && tr.ended[..i] == tr0.ended && tr.lens[..i] == tr0.lens && tr.widths[..i] == tr0.widths
             && tr.widths[i] == beamSize
             && Rect(tr.states[i], batch, InWidth(beamSize, i)) && Rect(tr.inScores[i], batch, InWidth(beamSize, i))
             && Rect(tr.exts[i], batch, InWidth(beamSize, i))
             && (forall b, h :: 0 <= b < batch && 0 <= h < InWidth(beamSize, i) ==> |tr.exts[i][b][h]| == numLabels)
             && Rect(tr.vals[i], batch, beamSize) && Rect(tr.backrefs[i], batch, beamSize)
             && Rect(tr.targets[i], batch, beamSize) && Rect(tr.ended[i], batch, beamSize) && Rect(tr.lens[i], batch, beamSize)
             && (forall b, j :: 0 <= b < batch && 0 <= j < beamSize ==> tr.backrefs[i][b][j] < InWidth(beamSize, i))
    ensures TraceShape(tr, batch, numLabels, beamSize) && Extends(tr0, tr)
  {
    var i := |tr0.targets|;
    StepsAppend(tr0.states, tr.states, i, batch, 1, beamSize);
    StepsAppend(tr0.inScores, tr.inScores, i, batch, 1, beamSize);
    StepsAppend(tr0.exts, tr.exts, i, batch, 1, beamSize);
    StepsAppend(tr0.vals, tr.vals, i, batch, beamSize, beamSize);
    StepsAppend(tr0.ended, tr.ended, i, batch, beamSize, beamSize);
    StepsAppend(tr0.lens, tr.lens, i, batch, beamSize, beamSize);
    WellFormedAppend(tr0.targets, tr0.backrefs, tr0.widths, tr.targets, tr.backrefs, tr.widths, batch);
    assert forall t :: 0 <= t < i ==> tr.exts[t] == tr0.exts[t];
  }

  /** The labels fed to a hypothesis after step `t` are those fed to its parent, then the parent's label. */
  lemma FedLabelsStep<S>(tr: Trace<S>, batch: nat, numLabels: nat, beamSize: nat, bos: nat, t: nat, b: nat, j: nat)
    requires TraceShape(tr, batch, numLabels, beamSize)
    requires t < |tr.targets| && b < batch && j < beamSize
    ensures tr.backrefs[t][b][j] < InWidth(beamSize, t)
    ensures FedLabels(tr, batch, numLabels, beamSize, bos, t + 1, b, j)
            == FedLabels(tr, batch, numLabels, beamSize, bos, t, b, tr.backrefs[t][b][j])
               + [InTarget(tr, batch, numLabels, beamSize, bos, t, b, tr.backrefs[t][b][j])]
  {
    var p := tr.backrefs[t][b][j];
    if t > 0 {
      var chain := ChainLabels(tr.targets, tr.backrefs, tr.widths, batch, b, j, t);
      var parent := ChainLabels(tr.targets, tr.backrefs, tr.widths, batch, b, p, t - 1);
      ChainLabelsStep(tr.targets, tr.backrefs, tr.widths, batch, b, j, t);
      assert chain[..t] == parent;
      assert parent == parent[..t - 1] + [tr.targets[t - 1][b][p]];
    }
  }

  /**
   * The scorer state of every kept hypothesis is its parent's state updated with
   * the parent's label, so it is the state reached by feeding the hypothesis' own
   * labels.
   */
  lemma NextStates<S(!new)>(tr: Trace<S>, scorer: Scorer<S>, batch: nat, maxSeqLen: seq<int>, opts: BeamSearchOpts,
                            pow: (real, real) -> real, target: seq<seq<nat>>, newState: seq<seq<S>>,
                            nextState: seq<seq<S>>)
    requires TraceShape(tr, batch, opts.numLabels, opts.beamSize) && 0 < |tr.targets| && |maxSeqLen| == batch
    requires ScoresAllLabels(scorer, opts.numLabels)
    requires StepOk(tr, scorer, batch, maxSeqLen, opts, pow, |tr.targets| - 1)
    requires Rect(target, batch, InWidth(opts.beamSize, |tr.targets| - 1))
    requires Rect(newState, batch, InWidth(opts.beamSize, |tr.targets| - 1))
    requires forall b, h :: 0 <= b < batch && 0 <= h < InWidth(opts.beamSize, |tr.targets| - 1) ==>
               && target[b][h] == InTarget(tr, batch, opts.numLabels, opts.beamSize, opts.bosLabel, |tr.targets| - 1, b, h)
               && newState[b][h] == scorer.update(tr.states[|tr.targets| - 1][b][h], target[b][h])
    requires Rect(nextState, batch, opts.beamSize)
    requires forall b, j :: 0 <= b < batch && 0 <= j < opts.beamSize ==>
               tr.backrefs[|tr.targets| - 1][b][j] < InWidth(opts.beamSize, |tr.targets| - 1)
               && nextState[b][j] == newState[b][tr.backrefs[|tr.targets| - 1][b][j]]
    ensures forall b, j :: 0 <= b < batch && 0 <= j < opts.beamSize ==>
              nextState[b][j] == Feed(scorer.update, scorer.initial(b),
                                      FedLabels(tr, batch, opts.numLabels, opts.beamSize, opts.bosLabel, |tr.targets|, b, j))
  {
    var i := |tr.targets| - 1;
    forall b, j | 0 <= b < batch && 0 <= j < opts.beamSize
      ensures nextState[b][j] == Feed(scorer.update, scorer.initial(b),
                                      FedLabels(tr, batch, opts.numLabels, opts.beamSize, opts.bosLabel, i + 1, b, j))
    {
      var p := tr.backrefs[i][b][j];
      var fed := FedLabels(tr, batch, opts.numLabels, opts.beamSize, opts.bosLabel, i, b, p);
      var prev := InTarget(tr, batch, opts.numLabels, opts.beamSize, opts.bosLabel, i, b, p);
      FedLabelsStep(tr, batch, opts.numLabels, opts.beamSize, opts.bosLabel, i, b, j);
      assert (fed + [prev])[..|fed + [prev]| - 1] == fed;
    }
  }

  /** Once every hypothesis has ended, no length grows. */
  lemma GrowLenAllEnded(lens: seq<seq<nat>>, ended: seq<seq<bool>>)
    requires |lens| == |ended| && forall b :: 0 <= b < |lens| ==> |lens[b]| == |ended[b]|
    requires AllEnded(ended)
    ensures GrowLen(lens, ended) == lens
  {
    var r := GrowLen(lens, ended);
    forall b | 0 <= b < |lens|
      ensures r[b] == lens[b]
    {
      assert forall k :: 0 <= k < |lens[b]| ==> r[b][k] == lens[b][k];
    }
  }

  /**
   * The loop variables at the top of step `i`: the trace records steps `0..i-1`, and
   * state, scores, labels, flags and lengths are those of the step's input hypotheses.
   */
  ghost predicate StepInputs<S>(tr: Trace<S>, scorer: Scorer<S>, batch: nat, opts: BeamSearchOpts, pow: (real, real) -> real,
                                i: nat, width: nat, state: seq<seq<S>>, scores: seq<seq<real>>,
                                target: seq<seq<nat>>, ended: seq<seq<bool>>, lens: seq<seq<nat>>)
  {
    && TraceShape(tr, batch, opts.numLabels, opts.beamSize) && i == |tr.targets|
    && width == InWidth(opts.beamSize, i) && width > 0
    && HeadOk(tr, scorer, batch, opts, pow, i, state, scores)
    && Rect(target, batch, width) && Rect(ended, batch, width) && Rect(lens, batch, width)
    && (forall b, h :: 0 <= b < batch && 0 <= h < width ==>
          && target[b][h] == InTarget(tr, batch, opts.numLabels, opts.beamSize, opts.bosLabel, i, b, h)
          && ended[b][h] == InEnded(tr, batch, opts.numLabels, opts.beamSize, i, b, h)
          && lens[b][h] == InLen(tr, batch, opts.numLabels, opts.beamSize, i, b, h))
  }

  /**
   * The scores handed to step `t` (`t > 0`): the top-k values of step `t - 1`,
   * multiplied by `(t / (t - 1)) ** e` where ended when `t > 1` and `e != 0`.
   */
  lemma RescaledIsInScore<S>(tr: Trace<S>, batch: nat, opts: BeamSearchOpts, pow: (real, real) -> real,
                             t: nat, scores: seq<seq<real>>)
    requires TraceShape(tr, batch, opts.numLabels, opts.beamSize) && 0 < t == |tr.targets|
    requires var e := opts.lengthNormalizationExponent;
             scores == if t > 1 && e != 0.0 then RescaleEnded(tr.vals[t - 1], tr.ended[t - 1], pow(t as real / (t - 1) as real, e))
                       else tr.vals[t - 1]
    ensures Rect(scores, batch, opts.beamSize)
    ensures forall b, j :: 0 <= b < batch && 0 <= j < opts.beamSize ==>
              scores[b][j] == InScore(tr, batch, opts.numLabels, opts, pow, t, b, j)
  {
  }

  /**
   * The inputs of step `t` (`t > 0`) are the outputs of step `t - 1`: its labels,
   * flags and lengths, the gathered scorer states and the (rescaled) top-k values.
   */
  lemma NextInputs<S>(tr: Trace<S>, scorer: Scorer<S>, batch: nat, opts: BeamSearchOpts, pow: (real, real) -> real,
                      t: nat, state: seq<seq<S>>, scores: seq<seq<real>>,
                      target: seq<seq<nat>>, ended: seq<seq<bool>>, lens: seq<seq<nat>>)
    requires TraceShape(tr, batch, opts.numLabels, opts.beamSize) && 0 < t == |tr.targets|
    requires Rect(state, batch, opts.beamSize)
    requires forall b, j :: 0 <= b < batch && 0 <= j < opts.beamSize ==>
               state[b][j] == Feed(scorer.update, scorer.initial(b),
                                   FedLabels(tr, batch, opts.numLabels, opts.beamSize, opts.bosLabel, t, b, j))
    requires var e := opts.lengthNormalizationExponent;
             scores == if t > 1 && e != 0.0 then RescaleEnded(tr.vals[t - 1], tr.ended[t - 1], pow(t as real / (t - 1) as real, e))
                       else tr.vals[t - 1]
    requires target == tr.targets[t - 1] && ended == tr.ended[t - 1] && lens == tr.lens[t - 1]
    requires 0 < opts.beamSize
    ensures StepInputs(tr, scorer, batch, opts, pow, t, opts.beamSize, state, scores, target, ended, lens)
  {
    RescaledIsInScore(tr, batch, opts, pow, t, scores);
  }

  /** Once the step counter reaches every row's `max_seq_len`, every hypothesis has ended. */
  lemma PastBoundNotAllEnded(ended: seq<seq<bool>>, maxSeqLen: seq<int>, n: nat, width: nat)
    requires Rect(ended, |maxSeqLen|, width)
    requires forall b, j :: 0 <= b < |maxSeqLen| && 0 <= j < width && n >= maxSeqLen[b] ==> ended[b][j]
    ensures !AllEnded(ended) ==> n < StepBound(maxSeqLen)
  {
  }

  /** No step in `endeds` has ended every hypothesis. */
  ghost predicate NoneAllEnded(endeds: seq<seq<seq<bool>>>)
  {
    forall t :: 0 <= t < |endeds| ==> !AllEnded(endeds[t])
  }

  lemma NoneAllEndedAppend(endeds: seq<seq<seq<bool>>>, ended: seq<seq<bool>>)
    requires NoneAllEnded(endeds) && !AllEnded(ended)
    ensures NoneAllEnded(endeds + [ended])
  {
  }

  /** The search starts with one hypothesis per row: the scorer's initial state, `bos`, score 0. */
  lemma InitialHead<S>(scorer: Scorer<S>, batch: nat, opts: BeamSearchOpts, pow: (real, real) -> real,
                       state: seq<seq<S>>, scores: seq<seq<real>>,
                       target: seq<seq<nat>>, ended: seq<seq<bool>>, lens: seq<seq<nat>>)
    requires Rect(state, batch, 1) && Rect(scores, batch, 1)
    requires forall b :: 0 <= b < batch ==> state[b][0] == scorer.initial(b) && scores[b][0] == 0.0
    requires Rect(target, batch, 1) && Rect(ended, batch, 1) && Rect(lens, batch, 1)
    requires forall b :: 0 <= b < batch ==> target[b][0] == opts.bosLabel && !ended[b][0] && lens[b][0] == 0
    ensures StepInputs<S>(Trace([], [], [], [], [], [], [], [], []), scorer, batch, opts, pow, 0, 1,
                          state, scores, target, ended, lens)
  {
  }

  /** A `[Batch, 1]` tensor filled with `x`. */
  function Column<T>(batch: nat, x: T): (r: seq<seq<T>>)
    ensures Rect(r, batch, 1) && forall b :: 0 <= b < batch ==> r[b][0] == x
  {
    seq(batch, b requires 0 <= b < batch => [x])
  }

  /** `label_scorer.get_initial_state`: one state per batch row. */
  function InitialStates<S>(scorer: Scorer<S>, batch: nat): (r: seq<seq<S>>)
    ensures Rect(r, batch, 1) && forall b :: 0 <= b < batch ==> r[b][0] == scorer.initial(b)
  {
    seq(batch, b requires 0 <= b < batch => [scorer.initial(b)])
  }

  /** `label_scorer.update` for every input hypothesis. */
  function UpdateAll<S>(scorer: Scorer<S>, state: seq<seq<S>>, target: seq<seq<nat>>, batch: nat, width: nat)
    : (r: seq<seq<S>>)
    requires Rect(state, batch, width) && Rect(target, batch, width)
    ensures Rect(r, batch, width)
    ensures forall b, h :: 0 <= b < batch && 0 <= h < width ==> r[b][h] == scorer.update(state[b][h], target[b][h])
  {
    seq(batch, b requires 0 <= b < batch => seq(width, h requires 0 <= h < width => scorer.update(state[b][h], target[b][h])))
  }

  /** The extended scores of every input hypothesis by every label. */
  function ExtendAll<S(!new)>(scorer: Scorer<S>, masked: seq<real>, scores: seq<seq<real>>, ended: seq<seq<bool>>,
                              state: seq<seq<S>>, target: seq<seq<nat>>, batch: nat, width: nat): (r: seq<seq<seq<real>>>)
    requires ScoresAllLabels(scorer, |masked|)
    requires Rect(scores, batch, width) && Rect(ended, batch, width) && Rect(state, batch, width) && Rect(target, batch, width)
    ensures Rect(r, batch, width)
    ensures forall b, h :: 0 <= b < batch && 0 <= h < width ==>
              r[b][h] == ExtendSlot(scores[b][h], SlotLogProbs(scorer, masked, ended[b][h], state[b][h], target[b][h]))
  {
    seq(batch, b requires 0 <= b < batch =>
      seq(width, h requires 0 <= h < width =>
        ExtendSlot(scores[b][h], SlotLogProbs(scorer, masked, ended[b][h], state[b][h], target[b][h]))))
  }

  /**
   * The scoring half of a step: feed every input hypothesis its label, extend it
   * by every label and keep the top `beam_size` of every row.
   */
  method Expand<S(!new)>(scorer: Scorer<S>, batch: nat, opts: BeamSearchOpts, width: nat,
                         state: seq<seq<S>>, target: seq<seq<nat>>, ended: seq<seq<bool>>, scores: seq<seq<real>>)
    returns (newState: seq<seq<S>>, ext: seq<seq<seq<real>>>, vals: seq<seq<real>>, backrefs: seq<seq<nat>>,
             labels: seq<seq<nat>>)
    requires 0 < opts.numLabels && opts.beamSize <= opts.numLabels && 0 < width
    requires ScoresAllLabels(scorer, opts.numLabels)
    requires Rect(state, batch, width) && Rect(scores, batch, width)
    requires Rect(target, batch, width) && Rect(ended, batch, width)
    ensures Rect(newState, batch, width)
    ensures forall b, h :: 0 <= b < batch && 0 <= h < width ==> newState[b][h] == scorer.update(state[b][h], target[b][h])
    ensures Rect(ext, batch, width)
    ensures forall b, h :: 0 <= b < batch && 0 <= h < width ==>
              ext[b][h] == ExtendSlot(scores[b][h], SlotLogProbs(scorer, MaskedFinishedLogProb(opts.numLabels, opts.eosLabel),
                                                                 ended[b][h], state[b][h], target[b][h]))
    ensures Rect(vals, batch, opts.beamSize) && Rect(backrefs, batch, opts.beamSize) && Rect(labels, batch, opts.beamSize)
    ensures forall b :: 0 <= b < batch ==> IsTopKNd(ext[b], opts.numLabels, opts.beamSize, vals[b], backrefs[b], labels[b])
    ensures forall b, j :: 0 <= b < batch && 0 <= j < opts.beamSize ==> backrefs[b][j] < width
  {
    var V := opts.numLabels;
    var masked := MaskedFinishedLogProb(V, opts.eosLabel);
    newState := UpdateAll(scorer, state, target, batch, width);
    ext := ExtendAll(scorer, masked, scores, ended, state, target, batch, width);
    vals, backrefs, labels := TopKNdBatch(ext, width, V, opts.beamSize);
  }

  /**
   * One pass of the `beam_search` loop up to the exit test: score and extend every
   * hypothesis (ended ones only by the masked log-probabilities), keep the top
   * `beam_size`, gather scorer state, flags and lengths through the backrefs and
   * mark the ended hypotheses. The step is recorded in the trace.
   */
  method Step<S(!new)>(scorer: Scorer<S>, batch: nat, maxSeqLen: seq<int>, opts: BeamSearchOpts,
                       ghost pow: (real, real) -> real, width: nat, i: nat,
                       state: seq<seq<S>>, target: seq<seq<nat>>, ended: seq<seq<bool>>, lens: seq<seq<nat>>,
                       scores: seq<seq<real>>, ghost tr0: Trace<S>)
    returns (nextState: seq<seq<S>>, vals: seq<seq<real>>, backrefs: seq<seq<nat>>, labels: seq<seq<nat>>,
             newEnded: seq<seq<bool>>, parentLens: seq<seq<nat>>, ghost tr: Trace<S>)
    requires |maxSeqLen| == batch && 0 < opts.numLabels && opts.beamSize <= opts.numLabels
    requires ScoresAllLabels(scorer, opts.numLabels)
    requires StepInputs(tr0, scorer, batch, opts, pow, i, width, state, scores, target, ended, lens)
    requires StepsOk(tr0, scorer, batch, maxSeqLen, opts, pow, i)
    ensures TraceShape(tr, batch, opts.numLabels, opts.beamSize) && Extends(tr0, tr) && |tr.targets| == i + 1
    ensures tr.ended == tr0.ended + [newEnded]
    ensures StepsOk(tr, scorer, batch, maxSeqLen, opts, pow, i + 1)
    ensures tr.vals[i] == vals && tr.backrefs[i] == backrefs && tr.targets[i] == labels && tr.ended[i] == newEnded
    ensures Rect(parentLens, batch, opts.beamSize) && tr.lens[i] == GrowLen(parentLens, newEnded)
    ensures forall b, j :: 0 <= b < batch && 0 <= j < opts.beamSize && i + 1 >= maxSeqLen[b] ==> newEnded[b][j]
    ensures Rect(nextState, batch, opts.beamSize)
    ensures forall b, j :: 0 <= b < batch && 0 <= j < opts.beamSize ==>
              nextState[b][j] == Feed(scorer.update, scorer.initial(b),
                                      FedLabels(tr, batch, opts.numLabels, opts.beamSize, opts.bosLabel, i + 1, b, j))
  {
    var newState, ext;
    newState, ext, vals, backrefs, labels := Expand(scorer, batch, opts, width, state, target, ended, scores);
    nextState := BatchGather(newState, backrefs);
    var parentEnded := BatchGather(ended, backrefs);
    parentLens := BatchGather(lens, backrefs);
    newEnded := MarkEnded(parentEnded, labels, opts.eosLabel, maxSeqLen, i + 1);
    tr := StepRecorded(scorer, batch, maxSeqLen, opts, pow, width, i, state, target, ended, lens, scores, tr0,
                       newState, ext, vals, backrefs, labels, nextState, newEnded, GrowLen(parentLens, newEnded));
  }

  /** What `Step` computes is recorded as step `i` of the trace. */
  lemma StepRecorded<S(!new)>(scorer: Scorer<S>, batch: nat, maxSeqLen: seq<int>, opts: BeamSearchOpts,
                              pow: (real, real) -> real, width: nat, i: nat,
                              state: seq<seq<S>>, target: seq<seq<nat>>, ended: seq<seq<bool>>, lens: seq<seq<nat>>,
                              scores: seq<seq<real>>, tr0: Trace<S>,
                              newState: seq<seq<S>>, ext: seq<seq<seq<real>>>, vals: seq<seq<real>>,
                              backrefs: seq<seq<nat>>, labels: seq<seq<nat>>,
                              nextState: seq<seq<S>>, newEnded: seq<seq<bool>>, grown: seq<seq<nat>>)
    returns (tr: Trace<S>)
    requires |maxSeqLen| == batch && 0 < opts.numLabels && opts.beamSize <= opts.numLabels
    requires ScoresAllLabels(scorer, opts.numLabels)
    requires StepInputs(tr0, scorer, batch, opts, pow, i, width, state, scores, target, ended, lens)
    requires StepsOk(tr0, scorer, batch, maxSeqLen, opts, pow, i)
    requires Rect(newState, batch, width)
    requires forall b, h :: 0 <= b < batch && 0 <= h < width ==> newState[b][h] == scorer.update(state[b][h], target[b][h])
    requires StepComputed(scorer, batch, maxSeqLen, opts, width, i, state, scores, target, ended, lens,
                          ext, vals, backrefs, labels, newEnded, grown)
    requires Rect(nextState, batch, opts.beamSize)
    requires forall b, j :: 0 <= b < batch && 0 <= j < opts.beamSize ==>
               backrefs[b][j] < width && nextState[b][j] == newState[b][backrefs[b][j]]
    ensures tr == Trace(tr0.states + [state], tr0.inScores + [scores], tr0.exts + [ext], tr0.vals + [vals],
                        tr0.backrefs + [backrefs], tr0.targets + [labels], tr0.ended + [newEnded], tr0.lens + [grown],
                        tr0.widths + [opts.beamSize])
    ensures TraceShape(tr, batch, opts.numLabels, opts.beamSize) && Extends(tr0, tr)
    ensures StepsOk(tr, scorer, batch, maxSeqLen, opts, pow, i + 1)
    ensures forall b, j :: 0 <= b < batch && 0 <= j < opts.beamSize ==>
              nextState[b][j] == Feed(scorer.update, scorer.initial(b),
                                      FedLabels(tr, batch, opts.numLabels, opts.beamSize, opts.bosLabel, i + 1, b, j))
  {
    tr := RecordStep(tr0, scorer, batch, maxSeqLen, opts, pow, state, scores, target, ended, lens,
                     ext, vals, backrefs, labels, newEnded, grown);
    NextStates(tr, scorer, batch, maxSeqLen, opts, pow, target, newState, nextState);
  }

  /**
   * `beam_search`. Returns the label sequences `[Batch, FinalBeam, OutSeqLen]`, their
   * scores and lengths `[Batch, FinalBeam]`, and (as a ghost) the trace of the loop.
   */
  method Search<S(!new)>(scorer: Scorer<S>, batch: nat, maxSeqLen: seq<int>, opts: BeamSearchOpts,
                         pow: (real, real) -> real)
    returns (seqTargets: seq<seq<seq<nat>>>, seqLogProb: seq<seq<real>>, outSeqLen: seq<seq<nat>>,
             ghost tr: Trace<S>)
    requires |maxSeqLen| == batch
    requires 0 < opts.numLabels && opts.beamSize <= opts.numLabels
    requires ScoresAllLabels(scorer, opts.numLabels)
    ensures TraceShape(tr, batch, opts.numLabels, opts.beamSize)
    ensures 0 < |tr.targets| <= StepBound(maxSeqLen)
    ensures forall t :: 0 <= t < |tr.targets| ==> StepOk(tr, scorer, batch, maxSeqLen, opts, pow, t)
    // the loop stops exactly when every hypothesis has ended
    ensures AllEnded(tr.ended[|tr.targets| - 1])
    ensures NoneAllEnded(tr.ended[..|tr.targets| - 1])
    // the outputs
    ensures Rect(seqTargets, batch, opts.beamSize)
    ensures forall b, k :: 0 <= b < batch && 0 <= k < opts.beamSize ==>
              seqTargets[b][k] == ChainLabels(tr.targets, tr.backrefs, tr.widths, batch, b, k, |tr.targets| - 1)
    ensures outSeqLen == tr.lens[|tr.targets| - 1]
    ensures Rect(seqLogProb, batch, opts.beamSize)
    ensures forall b, k :: 0 <= b < batch && 0 <= k < opts.beamSize ==>
              seqLogProb[b][k] == tr.vals[|tr.targets| - 1][b][k] *
                (if opts.lengthNormalizationExponent != 0.0
                 then pow(1.0 / |tr.targets| as real, opts.lengthNormalizationExponent) else 1.0)
  {
    var state: seq<seq<S>> := InitialStates(scorer, batch);
    var target: seq<seq<nat>> := Column(batch, opts.bosLabel);
    var ended: seq<seq<bool>> := Column(batch, false);
    var lens: seq<seq<nat>> := Column(batch, 0);
    var scores: seq<seq<real>> := Column(batch, 0.0);
    var width: nat := 1;
    var i: nat := 0;
    var stepTargets: seq<seq<seq<nat>>> := [];
    var stepBackrefs: seq<seq<seq<nat>>> := [];
    var done := false;
    tr := Trace([], [], [], [], [], [], [], [], []);
    InitialHead(scorer, batch, opts, pow, state, scores, target, ended, lens);
    ghost var bound := StepBound(maxSeqLen);

    while !done
      invariant TraceShape(tr, batch, opts.numLabels, opts.beamSize) && i == |tr.targets| <= bound
      invariant stepTargets == tr.targets && stepBackrefs == tr.backrefs
      invariant StepsOk(tr, scorer, batch, maxSeqLen, opts, pow, i)
      invariant !done ==> && StepInputs(tr, scorer, batch, opts, pow, i, width, state, scores, target, ended, lens)
                          && i < bound && NoneAllEnded(tr.ended)
      invariant done ==> 0 < i && AllEnded(tr.ended[i - 1]) && NoneAllEnded(tr.ended[..i - 1])
                         && lens == tr.lens[i - 1] && scores == tr.vals[i - 1]
      decreases if done then 0 else bound - i
    {
      state, target, ended, lens, scores, stepTargets, stepBackrefs, tr, done :=
        Advance(scorer, batch, maxSeqLen, opts, pow, width, i, state, target, ended, lens, scores,
                stepTargets, stepBackrefs, tr);
      i := i + 1;
      width := opts.beamSize;
    }
    seqTargets, seqLogProb := Finish(stepTargets, stepBackrefs, scores, batch, opts, pow, tr);
    outSeqLen := lens;
  }

  /**
   * One pass of the `beam_search` loop: run the step, record its labels and
   * backrefs, and stop once every hypothesis has ended; otherwise grow the lengths
   * of the hypotheses still running and rescale the scores of the ended ones by
   * `(i / (i - 1)) ** e` (from the second step on, when `e != 0`).
   */
  method Advance<S(!new)>(scorer: Scorer<S>, batch: nat, maxSeqLen: seq<int>, opts: BeamSearchOpts,
                          pow: (real, real) -> real, width: nat, i: nat,
                          state: seq<seq<S>>, target: seq<seq<nat>>, ended: seq<seq<bool>>, lens: seq<seq<nat>>,
                          scores: seq<seq<real>>, stepTargets: seq<seq<seq<nat>>>, stepBackrefs: seq<seq<seq<nat>>>,
                          ghost tr0: Trace<S>)
    returns (state': seq<seq<S>>, target': seq<seq<nat>>, ended': seq<seq<bool>>, lens': seq<seq<nat>>,
             scores': seq<seq<real>>, stepTargets': seq<seq<seq<nat>>>, stepBackrefs': seq<seq<seq<nat>>>,
             ghost tr: Trace<S>, done: bool)
    requires |maxSeqLen| == batch && 0 < opts.numLabels && opts.beamSize <= opts.numLabels
    requires ScoresAllLabels(scorer, opts.numLabels)
    requires StepInputs(tr0, scorer, batch, opts, pow, i, width, state, scores, target, ended, lens)
    requires StepsOk(tr0, scorer, batch, maxSeqLen, opts, pow, i)
    requires NoneAllEnded(tr0.ended) && stepTargets == tr0.targets && stepBackrefs == tr0.backrefs
    requires i < StepBound(maxSeqLen)
    ensures TraceShape(tr, batch, opts.numLabels, opts.beamSize) && |tr.targets| == i + 1 <= StepBound(maxSeqLen)
    ensures stepTargets' == tr.targets && stepBackrefs' == tr.backrefs
    ensures StepsOk(tr, scorer, batch, maxSeqLen, opts, pow, i + 1)
    ensures !done ==> && StepInputs(tr, scorer, batch, opts, pow, i + 1, opts.beamSize, state', scores', target', ended', lens')
                      && i + 1 < StepBound(maxSeqLen) && NoneAllEnded(tr.ended)
    ensures done ==> AllEnded(tr.ended[i]) && NoneAllEnded(tr.ended[..i]) && lens' == tr.lens[i] && scores' == tr.vals[i]
  {
    var e := opts.lengthNormalizationExponent;
    var vals, backrefs, labels;
    state', vals, backrefs, labels, ended', lens', tr :=
      Step(scorer, batch, maxSeqLen, opts, pow, width, i, state, target, ended, lens, scores, tr0);
    stepTargets' := stepTargets + [labels];
    stepBackrefs' := stepBackrefs + [backrefs];
    scores' := vals;
    target' := labels;
    PastBoundNotAllEnded(ended', maxSeqLen, i + 1, opts.beamSize);
    if AllEnded(ended') {
      assert tr.ended[..i] == tr0.ended;
      GrowLenAllEnded(lens', ended');
      done := true;
      return;
    }
    done := false;
    NoneAllEndedAppend(tr0.ended, ended');
    lens' := GrowLen(lens', ended');
    if i + 1 > 1 && e != 0.0 {
      scores' := RescaleEnded(scores', ended', pow((i + 1) as real / i as real, e));
    }
    NextInputs(tr, scorer, batch, opts, pow, i + 1, state', scores', target', ended', lens');
  }

  /**
   * The end of `beam_search`: length-normalise the final scores by `(1 / n) ** e`
   * (when `e != 0`) and backtrack the recorded history.
   */
  method Finish<S>(stepTargets: seq<seq<seq<nat>>>, stepBackrefs: seq<seq<seq<nat>>>, scores: seq<seq<real>>,
                   batch: nat, opts: BeamSearchOpts, pow: (real, real) -> real, ghost tr: Trace<S>)
    returns (seqTargets: seq<seq<seq<nat>>>, seqLogProb: seq<seq<real>>)
    requires TraceShape(tr, batch, opts.numLabels, opts.beamSize) && 0 < |tr.targets|
    requires stepTargets == tr.targets && stepBackrefs == tr.backrefs && scores == tr.vals[|tr.targets| - 1]
    ensures Rect(seqTargets, batch, opts.beamSize)
    ensures forall b, k :: 0 <= b < batch && 0 <= k < opts.beamSize ==>
              seqTargets[b][k] == ChainLabels(tr.targets, tr.backrefs, tr.widths, batch, b, k, |tr.targets| - 1)
    ensures Rect(seqLogProb, batch, opts.beamSize)
    ensures forall b, k :: 0 <= b < batch && 0 <= k < opts.beamSize ==>
              seqLogProb[b][k] == tr.vals[|tr.targets| - 1][b][k] *
                (if opts.lengthNormalizationExponent != 0.0
                 then pow(1.0 / |tr.targets| as real, opts.lengthNormalizationExponent) else 1.0)
  {
    var e := opts.lengthNormalizationExponent;
    seqLogProb := scores;
    if e != 0.0 {
      seqLogProb := ScaleAll(seqLogProb, pow(1.0 / |stepTargets| as real, e));
    }
    seqTargets := Backtrack.Backtrack(stepTargets, stepBackrefs, tr.widths, batch, opts.beamSize);
  }
}
