/**
 * The loop of `beam_search_sep_ended`: one pass runs a step, applies the optional
 * ESPnet end detection and either stops or carries the first active hypotheses and
 * the ended pool into the next pass; at the exit the scores are length-normalized
 * and the final slots backtracked.
 */
module SepEndedLoop {
  import opened TensorOps
  import opened Backtrack
  import opened BeamSearch
  import opened SepEndedOps
  import opened SepEnded

  /** The factor `((i + 1) / i) ** e` the ended pool is rescaled by after `n` steps (1 when `e` is 0). */
  function EndFactor(e: real, pow: (real, real) -> real, n: nat): real
    requires 0 < n
  {
    if e != 0.0 then pow((n + 1) as real / n as real, e) else 1.0
  }

  /**
   * Whether the ESPnet end detector, when enabled, flags row `b` after step `t`: it
   * sees the ended part `[actWidths[t]:]` of the packed scores and lengths of that step.
   */
  ghost function Flagged<S>(opts: SepEndedOpts, endDetect: (seq<real>, seq<nat>, nat) -> bool, h: History<S>,
                            batch: nat, t: nat, b: nat): bool
    requires HistoryShape(h, batch) && t < |h.targets| && b < batch
  {
    var a := h.actWidths[t];
    opts.useEspnetEndDetect && endDetect(h.scores[t][b][a..], h.lens[t][b][a..], t)
  }

  /** After step `t` no row keeps a valid active hypothesis that the end detector did not flag: the loop stops. */
  ghost predicate Stopped<S>(opts: SepEndedOpts, endDetect: (seq<real>, seq<nat>, nat) -> bool, h: History<S>,
                             batch: nat, t: nat)
    requires HistoryShape(h, batch) && t < |h.targets|
  {
    forall b, j :: 0 <= b < batch && 0 <= j < h.actWidths[t] && h.scores[t][b][j] > BAD ==>
      Flagged(opts, endDetect, h, batch, t, b)
  }

  /** After step `t` some row keeps a valid active hypothesis that the end detector did not flag: the loop goes on. */
  ghost predicate Continued<S>(opts: SepEndedOpts, endDetect: (seq<real>, seq<nat>, nat) -> bool, h: History<S>,
                               batch: nat, t: nat)
    requires HistoryShape(h, batch) && t < |h.targets|
  {
    exists b :: 0 <= b < batch && 0 < h.actWidths[t] && h.scores[t][b][0] > BAD && !Flagged(opts, endDetect, h, batch, t, b)
  }

  /** The loop went on after each of the steps `0..n`. */
  ghost predicate Continuing<S>(opts: SepEndedOpts, endDetect: (seq<real>, seq<nat>, nat) -> bool, h: History<S>,
                                batch: nat, n: nat)
    requires HistoryShape(h, batch) && n <= |h.targets|
  {
    forall t :: 0 <= t < n ==> Continued(opts, endDetect, h, batch, t)
  }

  /** The scores at the exit: those of the last step, with the active part of flagged rows set to `BAD`. */
  ghost predicate ExitScores<S>(opts: SepEndedOpts, endDetect: (seq<real>, seq<nat>, nat) -> bool, h: History<S>,
                                batch: nat, t: nat, scores: seq<seq<real>>)
    requires HistoryShape(h, batch) && t < |h.targets|
  {
    && Rect(scores, batch, h.widths[t])
    && forall b, k :: 0 <= b < batch && 0 <= k < h.widths[t] ==>
         scores[b][k] == if k < h.actWidths[t] && Flagged(opts, endDetect, h, batch, t, b) then BAD else h.scores[t][b][k]
  }

  /** The scores of the ended pool are those at `layoutW..` in the previous step, times `factor`. */
  ghost predicate EndedScores(prevScores: seq<seq<real>>, endScores: seq<seq<real>>, batch: nat, layoutW: nat, endW: nat,
                              factor: real)
    requires Rect(prevScores, batch, layoutW + endW) && Rect(endScores, batch, endW)
  {
    forall b, j :: 0 <= b < batch && layoutW <= j < layoutW + endW ==>
      endScores[b][j - layoutW] == prevScores[b][j] * factor
  }

  /**
   * The score input slot `q` of step `t` starts from: 0 for the first step, otherwise
   * its exit score after step `t - 1` (`BAD` in a row the end detector flagged).
   */
  ghost function InScore<S>(opts: SepEndedOpts, endDetect: (seq<real>, seq<nat>, nat) -> bool, h: History<S>,
                            batch: nat, t: nat, b: nat, q: nat): real
    requires HistoryShape(h, batch) && t <= |h.targets| && b < batch
    requires 0 < t ==> q < h.actWidths[t - 1]
  {
    if t == 0 then 0.0
    else if Flagged(opts, endDetect, h, batch, t - 1, b) then BAD
    else h.scores[t - 1][b][q]
  }

  /** The last label of input slot `q` of step `t`: `bos` for the first step, otherwise its label in step `t - 1`. */
  ghost function InLabel<S>(opts: SepEndedOpts, h: History<S>, batch: nat, t: nat, b: nat, q: nat): nat
    requires HistoryShape(h, batch) && t <= |h.targets| && b < batch
    requires 0 < t ==> q < h.actWidths[t - 1]
  {
    if t == 0 then opts.bosLabel else h.targets[t - 1][b][q]
  }

  /**
   * The labels, scores and ended pool scores step `t` starts from, as the steps
   * before it determine them: the `actW` first slots of step `t - 1` with their exit
   * scores, and the ended part of step `t - 1` rescaled by `EndFactor`.
   */
  ghost predicate StepInputs<S>(opts: SepEndedOpts, endDetect: (seq<real>, seq<nat>, nat) -> bool,
                                pow: (real, real) -> real, h: History<S>, batch: nat, t: nat, actW: nat,
                                actTarget: seq<seq<nat>>, actScores: seq<seq<real>>, endScores: seq<seq<real>>)
    requires HistoryShape(h, batch) && t <= |h.targets|
    requires 0 < t ==> actW <= h.actWidths[t - 1]
  {
    && Rect(actTarget, batch, actW) && Rect(actScores, batch, actW)
    && Rect(endScores, batch, if t == 0 then 0 else h.widths[t - 1] - h.actWidths[t - 1])
    && (forall b, q :: 0 <= b < batch && 0 <= q < actW ==>
          actTarget[b][q] == InLabel(opts, h, batch, t, b, q) && actScores[b][q] == InScore(opts, endDetect, h, batch, t, b, q))
    && (0 < t ==> EndedScores(h.scores[t - 1], endScores, batch, h.actWidths[t - 1], h.widths[t - 1] - h.actWidths[t - 1],
                              EndFactor(opts.lengthNormalizationExponent, pow, t)))
  }

  /**
   * One step as the loop ran it: its number, the widths, scorer states, labels and scores it was
   * handed, what it computed on the way (`work`), and the packed result with its widths.
   */
  datatype StepTrace<S> = StepTrace(step: nat, actW: nat, layoutW: nat, endW: nat, actState: seq<seq<S>>,
                                    actTarget: seq<seq<nat>>, actScores: seq<seq<real>>, endScores: seq<seq<real>>,
                                    work: StepWork, p: Packed, nextActW: nat, nextEndW: nat)

  /** The packed result of `tr` is what step `tr.step` computes from the inputs of `tr` (`PackedFrom`). */
  ghost predicate TraceComputed<S(!new)>(scorer: Scorer<S>, batch: nat, maxSeqLen: seq<int>, opts: SepEndedOpts,
                                         tr: StepTrace<S>)
    requires |maxSeqLen| == batch && 0 < batch && ScoresAllLabels(scorer, opts.numLabels)
  {
    && Rect(tr.actState, batch, tr.actW) && Rect(tr.actTarget, batch, tr.actW) && Rect(tr.actScores, batch, tr.actW)
    && Rect(tr.endScores, batch, tr.endW)
    && PackedFrom(scorer, batch, maxSeqLen, opts, tr.step, tr.actW, tr.layoutW, tr.endW, tr.actState, tr.actTarget,
                  tr.actScores, tr.endScores, tr.work, tr.p, tr.nextActW, tr.nextEndW)
  }

  /**
   * `tr` is recorded step `t`: its inputs are those the steps before determine
   * (`StepInputs`) with the recorded scorer states, and its result is the recorded step.
   */
  ghost predicate TraceRecorded<S>(opts: SepEndedOpts, endDetect: (seq<real>, seq<nat>, nat) -> bool,
                                   pow: (real, real) -> real, h: History<S>, batch: nat, t: nat, tr: StepTrace<S>)
    requires HistoryShape(h, batch) && t < |h.targets|
  {
    && tr.step == t && tr.actW == h.inActWidths[t] && tr.actState == h.states[t]
    && tr.layoutW == (if t == 0 then 0 else h.actWidths[t - 1])
    && tr.endW == (if t == 0 then 0 else h.widths[t - 1] - h.actWidths[t - 1])
    && tr.p == Packed(h.scores[t], h.targets[t], h.backrefs[t], h.lens[t])
    && tr.nextActW == h.actWidths[t] && tr.nextEndW == h.widths[t] - h.actWidths[t]
    && StepInputs(opts, endDetect, pow, h, batch, t, tr.actW, tr.actTarget, tr.actScores, tr.endScores)
  }

  /** Recorded step `t` is computed, as `tr` traces it, from what the steps before it left. */
  ghost predicate StepTraced<S(!new)>(scorer: Scorer<S>, batch: nat, maxSeqLen: seq<int>, opts: SepEndedOpts,
                                      endDetect: (seq<real>, seq<nat>, nat) -> bool, pow: (real, real) -> real,
                                      h: History<S>, t: nat, tr: StepTrace<S>)
    requires |maxSeqLen| == batch && 0 < batch && ScoresAllLabels(scorer, opts.numLabels)
    requires HistoryShape(h, batch) && t < |h.targets|
  {
    TraceRecorded(opts, endDetect, pow, h, batch, t, tr) && TraceComputed(scorer, batch, maxSeqLen, opts, tr)
  }

  /** Every entry of `trace` is what its step computes from the inputs it records (stated entry by entry, last first). */
  ghost predicate AllComputed<S(!new)>(scorer: Scorer<S>, batch: nat, maxSeqLen: seq<int>, opts: SepEndedOpts,
                                       trace: seq<StepTrace<S>>)
    requires |maxSeqLen| == batch && 0 < batch && ScoresAllLabels(scorer, opts.numLabels)
  {
    0 < |trace| ==>
      AllComputed(scorer, batch, maxSeqLen, opts, trace[..|trace| - 1])
      && TraceComputed(scorer, batch, maxSeqLen, opts, trace[|trace| - 1])
  }

  /** Entry `t` of a computed trace is computed. */
  lemma ComputedAt<S(!new)>(scorer: Scorer<S>, batch: nat, maxSeqLen: seq<int>, opts: SepEndedOpts,
                            trace: seq<StepTrace<S>>, t: nat)
    requires |maxSeqLen| == batch && 0 < batch && ScoresAllLabels(scorer, opts.numLabels)
    requires AllComputed(scorer, batch, maxSeqLen, opts, trace) && t < |trace|
    ensures TraceComputed(scorer, batch, maxSeqLen, opts, trace[t]) == true
    decreases |trace|
  {
    if t < |trace| - 1 {
      var pre := trace[..|trace| - 1];
      ComputedAt(scorer, batch, maxSeqLen, opts, pre, t);
      assert pre[t] == trace[t];
    }
  }

  /** Every entry `t` of `trace` records step `t` of `h`. */
  ghost predicate AllRecorded<S>(opts: SepEndedOpts, endDetect: (seq<real>, seq<nat>, nat) -> bool,
                                 pow: (real, real) -> real, h: History<S>, batch: nat, trace: seq<StepTrace<S>>)
    requires HistoryShape(h, batch)
  {
    && |trace| == |h.targets|
    && forall t :: 0 <= t < |trace| ==> TraceRecorded(opts, endDetect, pow, h, batch, t, trace[t])
  }

  /** Every recorded step is traced by the matching entry of `trace`. */
  ghost predicate Traced<S(!new)>(scorer: Scorer<S>, batch: nat, maxSeqLen: seq<int>, opts: SepEndedOpts,
                                  endDetect: (seq<real>, seq<nat>, nat) -> bool, pow: (real, real) -> real,
                                  h: History<S>, trace: seq<StepTrace<S>>)
    requires |maxSeqLen| == batch && 0 < batch && ScoresAllLabels(scorer, opts.numLabels)
    requires HistoryShape(h, batch)
  {
    AllRecorded(opts, endDetect, pow, h, batch, trace) && AllComputed(scorer, batch, maxSeqLen, opts, trace)
  }

  /** A traced history traces each of its steps. */
  lemma TracedStep<S(!new)>(scorer: Scorer<S>, batch: nat, maxSeqLen: seq<int>, opts: SepEndedOpts,
                            endDetect: (seq<real>, seq<nat>, nat) -> bool, pow: (real, real) -> real,
                            h: History<S>, trace: seq<StepTrace<S>>, t: nat)
    requires |maxSeqLen| == batch && 0 < batch && ScoresAllLabels(scorer, opts.numLabels)
    requires HistoryShape(h, batch) && t < |h.targets|
    requires Traced(scorer, batch, maxSeqLen, opts, endDetect, pow, h, trace) == true
    ensures t < |trace| && StepTraced(scorer, batch, maxSeqLen, opts, endDetect, pow, h, t, trace[t])
  {
    ComputedAt(scorer, batch, maxSeqLen, opts, trace, t);
  }

  /** What `StepInputs` says about input slot `q` of row `b`, active or ended. */
  lemma InputAt<S>(opts: SepEndedOpts, endDetect: (seq<real>, seq<nat>, nat) -> bool, pow: (real, real) -> real,
                   h: History<S>, batch: nat, t: nat, actW: nat, actTarget: seq<seq<nat>>, actScores: seq<seq<real>>,
                   endScores: seq<seq<real>>, b: nat, q: nat)
    requires HistoryShape(h, batch) && t <= |h.targets| && b < batch
    requires 0 < t ==> actW <= h.actWidths[t - 1]
    requires StepInputs(opts, endDetect, pow, h, batch, t, actW, actTarget, actScores, endScores) == true
    ensures q < actW ==>
              actTarget[b][q] == InLabel(opts, h, batch, t, b, q) && actScores[b][q] == InScore(opts, endDetect, h, batch, t, b, q)
    ensures 0 < t && h.actWidths[t - 1] <= q < h.widths[t - 1] ==>
              endScores[b][q - h.actWidths[t - 1]] == h.scores[t - 1][b][q] * EndFactor(opts.lengthNormalizationExponent, pow, t)
  {
  }

  /**
   * The score of a valid active slot `j` of recorded step `t` is one extension of its
   * backref `q`: the score `q` entered the step with (its exit score after step
   * `t - 1`, or 0 for the first step) plus the log-probability the scorer gives its
   * label after `q`'s last label, in `q`'s recorded scorer state.
   */
  lemma RecordedActiveScore<S(!new)>(scorer: Scorer<S>, batch: nat, maxSeqLen: seq<int>, opts: SepEndedOpts,
                                     endDetect: (seq<real>, seq<nat>, nat) -> bool, pow: (real, real) -> real,
                                     h: History<S>, trace: seq<StepTrace<S>>, t: nat, b: nat, j: nat)
    requires |maxSeqLen| == batch && 0 < batch && ScoresAllLabels(scorer, opts.numLabels)
    requires HistoryShape(h, batch) && Traced(scorer, batch, maxSeqLen, opts, endDetect, pow, h, trace)
    requires t < |h.targets| && b < batch && j < h.actWidths[t] && h.scores[t][b][j] > BAD
    ensures var q := h.backrefs[t][b][j];
            && q < h.inActWidths[t] && h.targets[t][b][j] < opts.numLabels
            && h.scores[t][b][j] ==
                 InScore(opts, endDetect, h, batch, t, b, q)
                 + LabelLogProbs(scorer, opts.numLabels, h.states[t][b][q], InLabel(opts, h, batch, t, b, q))[h.targets[t][b][j]]
  {
    TracedStep(scorer, batch, maxSeqLen, opts, endDetect, pow, h, trace, t);
    var tr := trace[t];
    ActiveSlotScore(scorer, batch, maxSeqLen, opts, tr.step, tr.actW, tr.layoutW, tr.endW, tr.actState, tr.actTarget,
                    tr.actScores, tr.endScores, tr.work, tr.p, tr.nextActW, tr.nextEndW, b, j);
    InputAt(opts, endDetect, pow, h, batch, t, tr.actW, tr.actTarget, tr.actScores, tr.endScores, b, h.backrefs[t][b][j]);
  }

  /**
   * The score of a valid ended slot `j` of recorded step `t` is either one extension
   * of an active input slot `q` (by some label `v`: the recorded label is `eos`), or,
   * when its backref lies past the active input, the score the ended slot `q` of
   * step `t - 1` had, rescaled by `EndFactor`.
   */
  lemma RecordedEndedScore<S(!new)>(scorer: Scorer<S>, batch: nat, maxSeqLen: seq<int>, opts: SepEndedOpts,
                                    endDetect: (seq<real>, seq<nat>, nat) -> bool, pow: (real, real) -> real,
                                    h: History<S>, trace: seq<StepTrace<S>>, t: nat, b: nat, j: nat)
    returns (v: nat)
    requires |maxSeqLen| == batch && 0 < batch && ScoresAllLabels(scorer, opts.numLabels)
    requires HistoryShape(h, batch) && Traced(scorer, batch, maxSeqLen, opts, endDetect, pow, h, trace)
    requires t < |h.targets| && b < batch && h.actWidths[t] <= j < h.widths[t] && h.scores[t][b][j] > BAD
    ensures var q := h.backrefs[t][b][j];
            && (q < h.inActWidths[t] ==>
                  && v < opts.numLabels
                  && h.scores[t][b][j] ==
                       InScore(opts, endDetect, h, batch, t, b, q)
                       + LabelLogProbs(scorer, opts.numLabels, h.states[t][b][q], InLabel(opts, h, batch, t, b, q))[v])
            && (h.inActWidths[t] <= q ==>
                  && 0 < t && h.actWidths[t - 1] <= q < h.widths[t - 1]
                  && h.scores[t][b][j] == h.scores[t - 1][b][q] * EndFactor(opts.lengthNormalizationExponent, pow, t))
  {
    TracedStep(scorer, batch, maxSeqLen, opts, endDetect, pow, h, trace, t);
    var tr := trace[t];
    assert tr.actW <= tr.layoutW || tr.endW == 0 by {
      if 0 < t {
        assert h.inActWidths[t] <= h.actWidths[t - 1];
      }
    }
    v := EndedSlotScore(scorer, batch, maxSeqLen, opts, tr.step, tr.actW, tr.layoutW, tr.endW, tr.actState, tr.actTarget,
                        tr.actScores, tr.endScores, tr.work, tr.p, tr.nextActW, tr.nextEndW, b, j);
    EndedSlotInputs(scorer, opts, endDetect, pow, h, batch, t, tr, b, j, v);
  }

  /**
   * An ended slot of recorded step `t`, as `tr` records it, in terms of the history:
   * a fresh slot extends input slot `q` of step `t` by label `v`; a carried one scores
   * what ended slot `q` of step `t - 1` scored, rescaled by `EndFactor`.
   */
  lemma EndedSlotInputs<S(!new)>(scorer: Scorer<S>, opts: SepEndedOpts, endDetect: (seq<real>, seq<nat>, nat) -> bool,
                                 pow: (real, real) -> real, h: History<S>, batch: nat, t: nat, tr: StepTrace<S>,
                                 b: nat, j: nat, v: nat)
    requires ScoresAllLabels(scorer, opts.numLabels)
    requires HistoryShape(h, batch) && t < |h.targets| && b < batch && j < h.widths[t]
    requires TraceRecorded(opts, endDetect, pow, h, batch, t, tr) == true
    requires Rect(tr.actState, batch, tr.actW) && Rect(tr.actTarget, batch, tr.actW) && Rect(tr.actScores, batch, tr.actW)
    requires Rect(tr.endScores, batch, tr.endW)
    requires var q := tr.p.backrefs[b][j];
             && (q < tr.actW ==>
                   v < opts.numLabels
                   && tr.p.scores[b][j] ==
                        tr.actScores[b][q] + LabelLogProbs(scorer, opts.numLabels, tr.actState[b][q], tr.actTarget[b][q])[v])
             && (tr.actW <= q ==>
                   tr.layoutW <= q < tr.layoutW + tr.endW && tr.p.scores[b][j] == tr.endScores[b][q - tr.layoutW])
    ensures var q := h.backrefs[t][b][j];
            && (q < h.inActWidths[t] ==>
                  && v < opts.numLabels
                  && h.scores[t][b][j] ==
                       InScore(opts, endDetect, h, batch, t, b, q)
                       + LabelLogProbs(scorer, opts.numLabels, h.states[t][b][q], InLabel(opts, h, batch, t, b, q))[v])
            && (h.inActWidths[t] <= q ==>
                  && 0 < t && h.actWidths[t - 1] <= q < h.widths[t - 1]
                  && h.scores[t][b][j] == h.scores[t - 1][b][q] * EndFactor(opts.lengthNormalizationExponent, pow, t))
  {
    var q := h.backrefs[t][b][j];
    InputAt(opts, endDetect, pow, h, batch, t, tr.actW, tr.actTarget, tr.actScores, tr.endScores, b, q);
    if tr.actW <= q {
      assert 0 < t && tr.layoutW == h.actWidths[t - 1];
    }
  }

  /** The inputs of step `t` only depend on the steps before it: appending later steps keeps them. */
  lemma InputsPrefix<S>(opts: SepEndedOpts, endDetect: (seq<real>, seq<nat>, nat) -> bool, pow: (real, real) -> real,
                        h: History<S>, h': History<S>, batch: nat, t: nat, actW: nat, actTarget: seq<seq<nat>>,
                        actScores: seq<seq<real>>, endScores: seq<seq<real>>)
    requires HistoryShape(h, batch) && HistoryShape(h', batch) && IsPrefix(h, h') && t <= |h.targets|
    requires 0 < t ==> actW <= h.actWidths[t - 1]
    requires StepInputs(opts, endDetect, pow, h, batch, t, actW, actTarget, actScores, endScores)
    ensures StepInputs(opts, endDetect, pow, h', batch, t, actW, actTarget, actScores, endScores)
  {
    if 0 < t {
      assert h'.scores[t - 1] == h.scores[t - 1] && h'.targets[t - 1] == h.targets[t - 1] && h'.lens[t - 1] == h.lens[t - 1];
      assert h'.actWidths[t - 1] == h.actWidths[t - 1] && h'.widths[t - 1] == h.widths[t - 1];
      forall b, q | 0 <= b < batch && 0 <= q < actW
        ensures InLabel(opts, h', batch, t, b, q) == InLabel(opts, h, batch, t, b, q)
        ensures InScore(opts, endDetect, h', batch, t, b, q) == InScore(opts, endDetect, h, batch, t, b, q)
      {
        assert Flagged(opts, endDetect, h', batch, t - 1, b) == Flagged(opts, endDetect, h, batch, t - 1, b);
      }
    }
  }

  /** A recorded step stays recorded when later steps are appended. */
  lemma RecordedPrefix<S>(opts: SepEndedOpts, endDetect: (seq<real>, seq<nat>, nat) -> bool, pow: (real, real) -> real,
                          h: History<S>, h': History<S>, batch: nat, t: nat, tr: StepTrace<S>)
    requires HistoryShape(h, batch) && HistoryShape(h', batch) && IsPrefix(h, h') && t < |h.targets|
    requires TraceRecorded(opts, endDetect, pow, h, batch, t, tr) == true
    ensures TraceRecorded(opts, endDetect, pow, h', batch, t, tr)
  {
    assert h'.inActWidths[t] == h.inActWidths[t] && h'.states[t] == h.states[t];
    assert h'.scores[t] == h.scores[t] && h'.targets[t] == h.targets[t];
    assert h'.backrefs[t] == h.backrefs[t] && h'.lens[t] == h.lens[t];
    assert h'.actWidths[t] == h.actWidths[t] && h'.widths[t] == h.widths[t];
    if 0 < t {
      assert h'.actWidths[t - 1] == h.actWidths[t - 1] && h'.widths[t - 1] == h.widths[t - 1];
    }
    InputsPrefix(opts, endDetect, pow, h, h', batch, t, tr.actW, tr.actTarget, tr.actScores, tr.endScores);
  }

  /** The step a pass runs is recorded in the history it appends to, with the inputs the pass handed it. */
  lemma NewStepRecorded<S>(opts: SepEndedOpts, endDetect: (seq<real>, seq<nat>, nat) -> bool, pow: (real, real) -> real,
                           h: History<S>, h': History<S>, batch: nat, i: nat, actW: nat, layoutW: nat, endW: nat,
                           actState: seq<seq<S>>, actTarget: seq<seq<nat>>, actScores: seq<seq<real>>,
                           endScores: seq<seq<real>>, work: StepWork, p: Packed, nA: nat, nE: nat)
    requires HistoryShape(h, batch) && HistoryShape(h', batch) && IsPrefix(h, h') && |h.targets| == i
    requires h' == AppendStep(h, p, actState, nA, actW, nA + nE)
    requires i == 0 ==> actW == 1 && layoutW == 0 && endW == 0
    requires 0 < i ==> actW <= layoutW == h.actWidths[i - 1] && layoutW + endW == h.widths[i - 1]
    requires StepInputs(opts, endDetect, pow, h, batch, i, actW, actTarget, actScores, endScores) == true
    ensures TraceRecorded(opts, endDetect, pow, h', batch, i,
                          StepTrace(i, actW, layoutW, endW, actState, actTarget, actScores, endScores, work, p, nA, nE))
  {
    InputsPrefix(opts, endDetect, pow, h, h', batch, i, actW, actTarget, actScores, endScores);
    assert Packed(h'.scores[i], h'.targets[i], h'.backrefs[i], h'.lens[i]) == p;
    assert h'.inActWidths[i] == actW && h'.states[i] == actState;
    assert h'.actWidths[i] == nA && h'.widths[i] - h'.actWidths[i] == nE;
    if 0 < i {
      assert h'.actWidths[i - 1] == layoutW && h'.widths[i - 1] - h'.actWidths[i - 1] == endW;
    }
  }

  /** Appending a recorded step to a recorded history keeps every step recorded. */
  lemma RecordedExtended<S>(opts: SepEndedOpts, endDetect: (seq<real>, seq<nat>, nat) -> bool, pow: (real, real) -> real,
                            h: History<S>, h': History<S>, batch: nat, trace: seq<StepTrace<S>>, tr: StepTrace<S>)
    requires HistoryShape(h, batch) && HistoryShape(h', batch) && IsPrefix(h, h') && |h'.targets| == |h.targets| + 1
    requires AllRecorded(opts, endDetect, pow, h, batch, trace)
    requires TraceRecorded(opts, endDetect, pow, h', batch, |h.targets|, tr) == true
    ensures AllRecorded(opts, endDetect, pow, h', batch, trace + [tr])
  {
    var trace' := trace + [tr];
    forall t | 0 <= t < |trace'|
      ensures TraceRecorded(opts, endDetect, pow, h', batch, t, trace'[t]) == true
    {
      if t < |trace| {
        RecordedPrefix(opts, endDetect, pow, h, h', batch, t, trace[t]);
      } else {
        assert t == |h.targets| && trace'[t] == tr;
      }
    }
  }

  /** Appending a computed step keeps every entry computed. */
  lemma ComputedExtended<S(!new)>(scorer: Scorer<S>, batch: nat, maxSeqLen: seq<int>, opts: SepEndedOpts,
                                  trace: seq<StepTrace<S>>, tr: StepTrace<S>)
    requires |maxSeqLen| == batch && 0 < batch && ScoresAllLabels(scorer, opts.numLabels)
    requires AllComputed(scorer, batch, maxSeqLen, opts, trace)
    requires TraceComputed(scorer, batch, maxSeqLen, opts, tr) == true
    ensures AllComputed(scorer, batch, maxSeqLen, opts, trace + [tr])
  {
    var trace' := trace + [tr];
    assert trace'[..|trace|] == trace;
  }

  /**
   * What the loop carries into step `i`: the history of the `i` steps before, the
   * active pool (states fed with their chains, labels and exit scores of the previous
   * step), and the ended pool, which sits at `layoutW..` in the previous step and
   * whose scores were rescaled by `EndFactor` since.
   */
  ghost predicate LoopInputs<S>(h: History<S>, scorer: Scorer<S>, batch: nat, opts: SepEndedOpts,
                                endDetect: (seq<real>, seq<nat>, nat) -> bool, pow: (real, real) -> real, i: nat,
                                actW: nat, layoutW: nat, endW: nat, actState: seq<seq<S>>, actTarget: seq<seq<nat>>,
                                actScores: seq<seq<real>>, endScores: seq<seq<real>>, endLens: seq<seq<nat>>)
  {
    && HistoryShape(h, batch) && |h.targets| == i && Recorded(h, scorer, batch, opts.bosLabel, opts.eosLabel, i)
    && 0 < actW && Rect(actState, batch, actW) && Rect(actTarget, batch, actW) && Rect(actScores, batch, actW)
    && Rect(endScores, batch, endW) && Rect(endLens, batch, endW)
    && (i == 0 ==> actW == 1 && layoutW == 0 && endW == 0)
    && (0 < i ==> actW <= layoutW == h.actWidths[i - 1] && layoutW + endW == h.widths[i - 1])
    && (0 < i ==> EndedPool(h.targets[i - 1], h.lens[i - 1], endLens, batch, layoutW, endW, opts.eosLabel))
    && FedStates(h, scorer, batch, opts.bosLabel, i, actW, actState)
    && StepInputs(opts, endDetect, pow, h, batch, i, actW, actTarget, actScores, endScores)
  }

  /** The inputs of the first step: one hypothesis per row, `bos`, score 0, initial scorer state, no ended pool. */
  lemma InitialInputs<S>(scorer: Scorer<S>, batch: nat, opts: SepEndedOpts,
                         endDetect: (seq<real>, seq<nat>, nat) -> bool, pow: (real, real) -> real,
                         h: History<S>, actState: seq<seq<S>>, actTarget: seq<seq<nat>>, actScores: seq<seq<real>>,
                         endScores: seq<seq<real>>, endLens: seq<seq<nat>>)
    requires h == History([], [], [], [], [], [], [], [])
    requires Rect(actState, batch, 1) && Rect(actTarget, batch, 1) && Rect(actScores, batch, 1)
    requires Rect(endScores, batch, 0) && Rect(endLens, batch, 0)
    requires forall b :: 0 <= b < batch ==>
               actState[b][0] == scorer.initial(b) && actTarget[b][0] == opts.bosLabel && actScores[b][0] == 0.0
    ensures LoopInputs(h, scorer, batch, opts, endDetect, pow, 0, 1, 0, 0, actState, actTarget, actScores, endScores, endLens)
  {
    assert HistoryShape(h, batch);
    forall b, j | 0 <= b < batch && 0 <= j < 1
      ensures actState[b][j] == Feed(scorer.update, scorer.initial(b), Fed(h, batch, opts.bosLabel, 0, b, j))
    {
      assert Fed(h, batch, opts.bosLabel, 0, b, j) == [];
    }
    forall b, q | 0 <= b < batch && 0 <= q < 1
      ensures actTarget[b][q] == InLabel(opts, h, batch, 0, b, q) && actScores[b][q] == InScore(opts, endDetect, h, batch, 0, b, q)
    {
    }
  }

  /** `torch.where(flags[:, None], bad_score, x)` on the first `actW` columns. */
  function MaskActive(scores: seq<seq<real>>, flags: seq<bool>, batch: nat, width: nat, actW: nat): (r: seq<seq<real>>)
    requires Rect(scores, batch, width) && |flags| == batch
    ensures Rect(r, batch, width)
    ensures forall b, k :: 0 <= b < batch && 0 <= k < width ==>
              r[b][k] == if k < actW && flags[b] then BAD else scores[b][k]
  {
    seq(batch, b requires 0 <= b < batch =>
      seq(width, k requires 0 <= k < width => if k < actW && flags[b] then BAD else scores[b][k]))
  }

  /** `torch.where(flags, 0, act_beam_sizes)`. */
  function MaskCounts(counts: seq<nat>, flags: seq<bool>): (r: seq<nat>)
    requires |flags| == |counts|
    ensures |r| == |counts| && forall b :: 0 <= b < |r| ==> r[b] == if flags[b] then 0 else counts[b]
  {
    seq(|counts|, b requires 0 <= b < |counts| => if flags[b] then 0 else counts[b])
  }

  /** The maximum of the masked counts is 0 exactly when every row is flagged or has no active hypothesis. */
  lemma MaskedMaxZero(counts: seq<nat>, flags: seq<bool>)
    requires |flags| == |counts| && 0 < |counts|
    ensures MaxOf(MaskCounts(counts, flags)) == 0 <==> forall b :: 0 <= b < |counts| ==> flags[b] || counts[b] == 0
  {
    var m := MaskCounts(counts, flags);
    if MaxOf(m) == 0 {
      forall b | 0 <= b < |counts| ensures flags[b] || counts[b] == 0 {
        assert m[b] <= 0;
      }
    }
  }

  /**
   * What a pass does after the step: stop when no row has an active hypothesis, or
   * (with end detection) when every row that has one is flagged; otherwise slice the
   * pools, gather the scorer states of the new active beam through its backrefs and
   * rescale the ended pool.
   */
  method Settle<S(!new)>(ghost h: History<S>, ghost h': History<S>, scorer: Scorer<S>, batch: nat, maxSeqLen: seq<int>,
                   opts: SepEndedOpts, endDetect: (seq<real>, seq<nat>, nat) -> bool, pow: (real, real) -> real,
                   i: nat, actW: nat, actState: seq<seq<S>>, actTarget: seq<seq<nat>>, newState: seq<seq<S>>,
                   p: Packed, nA: nat, nE: nat, actCounts: seq<nat>)
    returns (nextActW: nat, nextState: seq<seq<S>>, nextTarget: seq<seq<nat>>, nextScores: seq<seq<real>>,
             nextEndScores: seq<seq<real>>, nextEndLens: seq<seq<nat>>, exitScores: seq<seq<real>>, done: bool)
    requires |maxSeqLen| == batch && 0 < batch
    requires HistoryShape(h, batch) && HistoryShape(h', batch) && IsPrefix(h, h')
    requires |h.targets| == i && |h'.targets| == i + 1 && i < StepBound(maxSeqLen)
    requires Recorded(h', scorer, batch, opts.bosLabel, opts.eosLabel, i + 1)
    requires h'.targets[i] == p.targets && h'.backrefs[i] == p.backrefs && h'.lens[i] == p.lens
    requires h'.scores[i] == p.scores && h'.actWidths[i] == nA && h'.inActWidths[i] == actW && h'.widths[i] == nA + nE
    requires PackedShape(p, batch, nA + nE)
    requires |actCounts| == batch && nA == MaxOf(actCounts)
    requires forall b :: 0 <= b < batch && 0 < actCounts[b] ==> i + 1 < maxSeqLen[b]
    requires forall b, j :: 0 <= b < batch && 0 <= j < nA ==> (p.scores[b][j] > BAD <==> j < actCounts[b])
    requires Rect(actState, batch, actW) && Rect(actTarget, batch, actW) && Rect(newState, batch, actW)
    requires (0 < i ==> actW <= h.widths[i - 1]) && FedStates(h, scorer, batch, opts.bosLabel, i, actW, actState)
    requires forall b, j :: 0 <= b < batch && 0 <= j < actW ==>
               && actTarget[b][j] == (if i == 0 then opts.bosLabel else h.targets[i - 1][b][j])
               && newState[b][j] == scorer.update(actState[b][j], actTarget[b][j])
    ensures !done ==>
              && LoopInputs(h', scorer, batch, opts, endDetect, pow, i + 1, nextActW, nA, nE, nextState, nextTarget,
                            nextScores, nextEndScores, nextEndLens)
              && i + 1 < StepBound(maxSeqLen) && Continued(opts, endDetect, h', batch, i)
    ensures done ==> Stopped(opts, endDetect, h', batch, i) && ExitScores(opts, endDetect, h', batch, i, exitScores)
  {
    var w := nA + nE;
    nextActW, nextState, nextTarget, nextScores, nextEndScores, nextEndLens := 0, [], [], [], [], [];
    exitScores := p.scores;
    done := true;
    if nA == 0 {
      return;
    }
    exitScores, nextActW := DetectEnded(opts, endDetect, h', p, batch, maxSeqLen, i, w, nA, actCounts);
    if nextActW == 0 {
      return;
    }
    done := false;
    nextState, nextTarget, nextScores, nextEndScores, nextEndLens :=
      CarryOver(h, h', scorer, batch, opts, endDetect, pow, i, actW, actState, actTarget, newState, p, w, nA, nE,
                nextActW, exitScores);
  }

  /**
   * One pass of the `beam_search_sep_ended` loop: run the step, record it, and settle
   * what the next pass gets (or that the loop stops).
   */
  method Advance<S(!new)>(scorer: Scorer<S>, batch: nat, maxSeqLen: seq<int>, opts: SepEndedOpts,
                          endDetect: (seq<real>, seq<nat>, nat) -> bool, pow: (real, real) -> real, i: nat,
                          actW: nat, layoutW: nat, endW: nat, actState: seq<seq<S>>, actTarget: seq<seq<nat>>,
                          actScores: seq<seq<real>>, endScores: seq<seq<real>>, endLens: seq<seq<nat>>,
                          stepTargets: seq<seq<seq<nat>>>, stepBackrefs: seq<seq<seq<nat>>>, ghost h: History<S>)
    returns (nextActW: nat, nextLayoutW: nat, nextEndW: nat, nextState: seq<seq<S>>, nextTarget: seq<seq<nat>>,
             nextScores: seq<seq<real>>, nextEndScores: seq<seq<real>>, nextEndLens: seq<seq<nat>>,
             stepTargets': seq<seq<seq<nat>>>, stepBackrefs': seq<seq<seq<nat>>>,
             exitScores: seq<seq<real>>, exitLens: seq<seq<nat>>, done: bool, ghost h': History<S>,
             ghost tr: StepTrace<S>)
    requires |maxSeqLen| == batch && 0 < batch
    requires 0 < opts.numLabels && opts.beamSize <= opts.numLabels && ScoresAllLabels(scorer, opts.numLabels)
    requires LoopInputs(h, scorer, batch, opts, endDetect, pow, i, actW, layoutW, endW, actState, actTarget, actScores,
                        endScores, endLens)
    requires stepTargets == h.targets && stepBackrefs == h.backrefs && i < StepBound(maxSeqLen)
    ensures HistoryShape(h', batch) && |h'.targets| == i + 1 && IsPrefix(h, h')
    ensures Recorded(h', scorer, batch, opts.bosLabel, opts.eosLabel, i + 1)
    ensures stepTargets' == h'.targets && stepBackrefs' == h'.backrefs
    // the step's scores, labels and backrefs, as computed from the inputs of this pass
    ensures tr.actTarget == actTarget && tr.actScores == actScores && tr.endScores == endScores
    ensures TraceRecorded(opts, endDetect, pow, h', batch, i, tr) == true
    ensures TraceComputed(scorer, batch, maxSeqLen, opts, tr) == true
    ensures !done ==>
              && LoopInputs(h', scorer, batch, opts, endDetect, pow, i + 1, nextActW, nextLayoutW, nextEndW, nextState, nextTarget,
                            nextScores, nextEndScores, nextEndLens)
              && i + 1 < StepBound(maxSeqLen) && Continued(opts, endDetect, h', batch, i)
    ensures done ==>
              && Stopped(opts, endDetect, h', batch, i)
              && exitLens == h'.lens[i] && ExitScores(opts, endDetect, h', batch, i, exitScores)
  {
    var newState, p, nA, nE, actCounts, endCounts;
    ghost var work;
    assert forall b, j :: 0 <= b < batch && 0 <= j < actW ==>
             actTarget[b][j] == (if i == 0 then opts.bosLabel else h.targets[i - 1][b][j]);
    newState, p, nA, nE, actCounts, endCounts, h', work :=
      SepEnded.Step(scorer, batch, maxSeqLen, opts, i, actW, layoutW, endW, actState, actTarget, actScores, endScores, endLens, h);
    tr := StepTrace(i, actW, layoutW, endW, actState, actTarget, actScores, endScores, work, p, nA, nE);
    NewStepRecorded(opts, endDetect, pow, h, h', batch, i, actW, layoutW, endW, actState, actTarget, actScores,
                    endScores, work, p, nA, nE);
    stepTargets', stepBackrefs' := stepTargets + [p.targets], stepBackrefs + [p.backrefs];
    nextLayoutW, nextEndW, exitLens := nA, nE, p.lens;
    nextActW, nextState, nextTarget, nextScores, nextEndScores, nextEndLens, exitScores, done :=
      Settle(h, h', scorer, batch, maxSeqLen, opts, endDetect, pow, i, actW, actState, actTarget, newState, p, nA, nE,
             actCounts);
  }

  /**
   * ESPnet end detection after a step: the rows the detector flags lose their active
   * hypotheses (their scores become `BAD`, in the packed scores too, and their active
   * count drops to zero), and the new active width is the largest remaining count.
   */
  method DetectEnded<S>(opts: SepEndedOpts, endDetect: (seq<real>, seq<nat>, nat) -> bool, ghost h: History<S>,
                        p: Packed, batch: nat, maxSeqLen: seq<int>, i: nat, w: nat, nA: nat, actCounts: seq<nat>)
    returns (exitScores: seq<seq<real>>, nextActW: nat)
    requires HistoryShape(h, batch) && i < |h.targets| && 0 < batch && |maxSeqLen| == batch
    requires h.scores[i] == p.scores && h.lens[i] == p.lens && h.actWidths[i] == nA && h.widths[i] == w
    requires PackedShape(p, batch, w) && nA <= w
    requires |actCounts| == batch && forall b :: 0 <= b < batch ==> actCounts[b] <= nA
    requires forall b, j :: 0 <= b < batch && 0 <= j < nA ==> (p.scores[b][j] > BAD <==> j < actCounts[b])
    requires forall b :: 0 <= b < batch && 0 < actCounts[b] ==> i + 1 < maxSeqLen[b]
    ensures ExitScores(opts, endDetect, h, batch, i, exitScores)
    ensures nextActW <= nA
    ensures nextActW == 0 ==> Stopped(opts, endDetect, h, batch, i)
    ensures 0 < nextActW ==> Continued(opts, endDetect, h, batch, i) && i + 1 < StepBound(maxSeqLen)
  {
    var flags := seq(batch, b requires 0 <= b < batch => false);
    var counts := actCounts;
    exitScores := p.scores;
    if opts.useEspnetEndDetect {
      var endScores := SliceRows(p.scores, batch, w, nA, w);
      var endLens := SliceRows(p.lens, batch, w, nA, w);
      flags := seq(batch, b requires 0 <= b < batch => endDetect(endScores[b], endLens[b], i));
      exitScores := MaskActive(p.scores, flags, batch, w, nA);
      counts := MaskCounts(actCounts, flags);
    }
    nextActW := MaxOf(counts);
    ExitFacts(opts, endDetect, h, p, batch, maxSeqLen, i, w, nA, actCounts, flags, counts, exitScores);
  }

  /**
   * What a pass that goes on carries into the next one: the first `nextActW` active
   * hypotheses (scores, labels, and states gathered through their backrefs), and the
   * ended part of the packed result, rescaled for one more step of length normalization.
   */
  method CarryOver<S(!new)>(ghost h: History<S>, ghost h': History<S>, scorer: Scorer<S>, batch: nat,
                            opts: SepEndedOpts, endDetect: (seq<real>, seq<nat>, nat) -> bool,
                            pow: (real, real) -> real, i: nat, actW: nat, actState: seq<seq<S>>,
                            actTarget: seq<seq<nat>>, newState: seq<seq<S>>, p: Packed, w: nat, nA: nat, nE: nat,
                            nextActW: nat, exitScores: seq<seq<real>>)
    returns (nextState: seq<seq<S>>, nextTarget: seq<seq<nat>>, nextScores: seq<seq<real>>,
             nextEndScores: seq<seq<real>>, nextEndLens: seq<seq<nat>>)
    requires HistoryShape(h, batch) && HistoryShape(h', batch) && IsPrefix(h, h')
    requires |h.targets| == i && |h'.targets| == i + 1
    requires Recorded(h', scorer, batch, opts.bosLabel, opts.eosLabel, i + 1)
    requires h'.targets[i] == p.targets && h'.backrefs[i] == p.backrefs && h'.lens[i] == p.lens
    requires h'.scores[i] == p.scores && h'.actWidths[i] == nA && h'.inActWidths[i] == actW && h'.widths[i] == w
    requires PackedShape(p, batch, w) && w == nA + nE && 0 < nextActW <= nA
    requires Rect(actState, batch, actW) && Rect(actTarget, batch, actW) && Rect(newState, batch, actW)
    requires (0 < i ==> actW <= h.widths[i - 1]) && FedStates(h, scorer, batch, opts.bosLabel, i, actW, actState)
    requires forall b, j :: 0 <= b < batch && 0 <= j < actW ==>
               && actTarget[b][j] == (if i == 0 then opts.bosLabel else h.targets[i - 1][b][j])
               && newState[b][j] == scorer.update(actState[b][j], actTarget[b][j])
    requires ExitScores(opts, endDetect, h', batch, i, exitScores)
    ensures nextScores == SliceRows(exitScores, batch, w, 0, nextActW)
    ensures nextTarget == SliceRows(p.targets, batch, w, 0, nextActW)
    ensures LoopInputs(h', scorer, batch, opts, endDetect, pow, i + 1, nextActW, nA, nE, nextState, nextTarget, nextScores,
                       nextEndScores, nextEndLens)
  {
    nextScores := SliceRows(exitScores, batch, w, 0, nextActW);
    nextTarget := SliceRows(p.targets, batch, w, 0, nextActW);
    var actBackrefs := SliceRows(p.backrefs, batch, w, 0, nextActW);
    assert PackedOk(h', batch, opts.eosLabel, i);
    ActiveBackrefs(h', batch, opts.eosLabel, i);
    nextState := BatchGather(newState, actBackrefs);
    GatheredStatesOk(h, h', scorer, batch, opts.bosLabel, i, actW, actState, actTarget, newState, nextActW, nextState);
    nextEndScores := SliceRows(p.scores, batch, w, nA, w);
    nextEndLens := SliceRows(p.lens, batch, w, nA, w);
    var e := opts.lengthNormalizationExponent;
    if e != 0.0 {
      nextEndScores := ScaleAll(nextEndScores, pow((i + 2) as real / (i + 1) as real, e));
    }
    NextInputs(h', scorer, batch, opts, endDetect, pow, i, p, w, nA, nE, nextActW, nextState, nextTarget, exitScores,
               nextScores, nextEndScores, nextEndLens);
  }

  /** The exit test of one pass: the scores at the exit, and when the loop stops or goes on. */
  lemma ExitFacts<S>(opts: SepEndedOpts, endDetect: (seq<real>, seq<nat>, nat) -> bool, h: History<S>, p: Packed,
                     batch: nat, maxSeqLen: seq<int>, i: nat, w: nat, nA: nat, actCounts: seq<nat>, flags: seq<bool>,
                     counts: seq<nat>, exitScores: seq<seq<real>>)
    requires HistoryShape(h, batch) && i < |h.targets| && 0 < batch && |maxSeqLen| == batch
    requires h.scores[i] == p.scores && h.lens[i] == p.lens && h.actWidths[i] == nA && h.widths[i] == w
    requires PackedShape(p, batch, w) && nA <= w
    requires |actCounts| == batch && forall b :: 0 <= b < batch ==> actCounts[b] <= nA
    requires forall b, j :: 0 <= b < batch && 0 <= j < nA ==> (p.scores[b][j] > BAD <==> j < actCounts[b])
    requires forall b :: 0 <= b < batch && 0 < actCounts[b] ==> i + 1 < maxSeqLen[b]
    requires |flags| == batch
    requires forall b :: 0 <= b < batch ==>
               flags[b] == (opts.useEspnetEndDetect && endDetect(p.scores[b][nA..w], p.lens[b][nA..w], i))
    requires |counts| == batch && forall b :: 0 <= b < batch ==> counts[b] == if flags[b] then 0 else actCounts[b]
    requires Rect(exitScores, batch, w)
    requires forall b, k :: 0 <= b < batch && 0 <= k < w ==>
               exitScores[b][k] == if k < nA && flags[b] then BAD else p.scores[b][k]
    ensures ExitScores(opts, endDetect, h, batch, i, exitScores)
    ensures MaxOf(counts) <= nA
    ensures MaxOf(counts) == 0 ==> Stopped(opts, endDetect, h, batch, i)
    ensures 0 < MaxOf(counts) ==> Continued(opts, endDetect, h, batch, i) && i + 1 < StepBound(maxSeqLen)
  {
    forall b | 0 <= b < batch ensures flags[b] == Flagged(opts, endDetect, h, batch, i, b) {
      assert p.scores[b][nA..w] == h.scores[i][b][nA..] && p.lens[b][nA..w] == h.lens[i][b][nA..];
    }
    var m := MaxOf(counts);
    var b0 :| 0 <= b0 < batch && counts[b0] == m;
    if m == 0 {
      forall b, j | 0 <= b < batch && 0 <= j < nA && h.scores[i][b][j] > BAD
        ensures Flagged(opts, endDetect, h, batch, i, b)
      {
        assert counts[b] <= m;
      }
    } else {
      assert 0 < actCounts[b0] && !flags[b0];
      assert h.scores[i][b0][0] > BAD;
    }
  }

  /** The pools carried into the next step satisfy `LoopInputs`. */
  lemma NextInputs<S>(h: History<S>, scorer: Scorer<S>, batch: nat, opts: SepEndedOpts,
                      endDetect: (seq<real>, seq<nat>, nat) -> bool, pow: (real, real) -> real,
                      i: nat, p: Packed, w: nat, nA: nat, nE: nat, nextActW: nat, nextState: seq<seq<S>>,
                      nextTarget: seq<seq<nat>>, exitScores: seq<seq<real>>, nextScores: seq<seq<real>>,
                      nextEndScores: seq<seq<real>>, nextEndLens: seq<seq<nat>>)
    requires HistoryShape(h, batch) && |h.targets| == i + 1
    requires Recorded(h, scorer, batch, opts.bosLabel, opts.eosLabel, i + 1)
    requires h.targets[i] == p.targets && h.lens[i] == p.lens && h.scores[i] == p.scores
    requires h.actWidths[i] == nA && h.widths[i] == w
    requires PackedShape(p, batch, w) && w == nA + nE && 0 < nextActW <= nA
    requires Rect(nextState, batch, nextActW) && FedStates(h, scorer, batch, opts.bosLabel, i + 1, nextActW, nextState)
    requires nextTarget == SliceRows(p.targets, batch, w, 0, nextActW)
    requires ExitScores(opts, endDetect, h, batch, i, exitScores) && nextScores == SliceRows(exitScores, batch, w, 0, nextActW)
    requires nextEndLens == SliceRows(p.lens, batch, w, nA, w) && Rect(nextEndScores, batch, nE)
    requires forall b, j :: 0 <= b < batch && nA <= j < w ==>
               nextEndScores[b][j - nA] == p.scores[b][j] * EndFactor(opts.lengthNormalizationExponent, pow, i + 1)
    ensures LoopInputs(h, scorer, batch, opts, endDetect, pow, i + 1, nextActW, nA, nE, nextState, nextTarget, nextScores,
                       nextEndScores, nextEndLens)
  {
    assert PackedOk(h, batch, opts.eosLabel, i);
    forall b, j | 0 <= b < batch && nA <= j < w
      ensures p.targets[b][j] == opts.eosLabel && p.lens[b][j] == nextEndLens[b][j - nA]
    {
      assert SlotOk(h, batch, opts.eosLabel, i, b, j);
    }
  }

  /** Whether the loop went on after a step only depends on that step: it survives appending later steps. */
  lemma ContinuingPrefix<S>(opts: SepEndedOpts, endDetect: (seq<real>, seq<nat>, nat) -> bool, h: History<S>,
                            h': History<S>, batch: nat, n: nat)
    requires HistoryShape(h, batch) && HistoryShape(h', batch) && IsPrefix(h, h') && n <= |h.targets|
    requires Continuing(opts, endDetect, h, batch, n)
    ensures Continuing(opts, endDetect, h', batch, n)
    ensures n < |h'.targets| && Continued(opts, endDetect, h', batch, n) ==> Continuing(opts, endDetect, h', batch, n + 1)
  {
    forall t | 0 <= t < n ensures Continued(opts, endDetect, h', batch, t) {
      assert Continued(opts, endDetect, h, batch, t);
      assert h'.scores[t] == h.scores[t] && h'.lens[t] == h.lens[t] && h'.actWidths[t] == h.actWidths[t];
      var b :| 0 <= b < batch && 0 < h.actWidths[t] && h.scores[t][b][0] > BAD
               && !Flagged(opts, endDetect, h, batch, t, b);
      assert !Flagged(opts, endDetect, h', batch, t, b);
    }
  }

  /**
   * The end of the search: the exit scores are length-normalized by `(1 / n) ** e`
   * over the `n` steps taken, and every final slot is resolved to its chain of labels.
   */
  method Finish<S>(stepTargets: seq<seq<seq<nat>>>, stepBackrefs: seq<seq<seq<nat>>>, exitScores: seq<seq<real>>,
                   batch: nat, opts: SepEndedOpts, endDetect: (seq<real>, seq<nat>, nat) -> bool,
                   pow: (real, real) -> real, ghost h: History<S>)
    returns (seqTargets: seq<seq<seq<nat>>>, seqLogProb: seq<seq<real>>)
    requires HistoryShape(h, batch) && 0 < |h.targets| && 0 < batch
    requires stepTargets == h.targets && stepBackrefs == h.backrefs
    requires ExitScores(opts, endDetect, h, batch, |h.targets| - 1, exitScores)
    ensures var n := |h.targets|;
            && Rect(seqTargets, batch, h.widths[n - 1])
            && forall b, k :: 0 <= b < batch && 0 <= k < h.widths[n - 1] ==>
                 seqTargets[b][k] == ChainLabels(h.targets, h.backrefs, h.widths, batch, b, k, n - 1)
    ensures var n := |h.targets|;
            && Rect(seqLogProb, batch, h.widths[n - 1])
            && forall b, k :: 0 <= b < batch && 0 <= k < h.widths[n - 1] ==>
                 seqLogProb[b][k] ==
                   (if k < h.actWidths[n - 1] && Flagged(opts, endDetect, h, batch, n - 1, b)
                    then BAD else h.scores[n - 1][b][k]) *
                   (if opts.lengthNormalizationExponent != 0.0
                    then pow(1.0 / n as real, opts.lengthNormalizationExponent) else 1.0)
  {
    var e := opts.lengthNormalizationExponent;
    seqLogProb := exitScores;
    if e != 0.0 {
      seqLogProb := ScaleAll(seqLogProb, pow(1.0 / |stepTargets| as real, e));
    }
    seqTargets := Backtrack.Backtrack(stepTargets, stepBackrefs, h.widths, batch, |exitScores[0]|);
  }

  /** The loop is about to run step `i`: its inputs are those `LoopInputs` describes, and it went on after every earlier step. */
  ghost predicate Running<S(!new)>(scorer: Scorer<S>, batch: nat, maxSeqLen: seq<int>, opts: SepEndedOpts,
                             endDetect: (seq<real>, seq<nat>, nat) -> bool, pow: (real, real) -> real, h: History<S>,
                             i: nat, actW: nat, layoutW: nat, endW: nat, actState: seq<seq<S>>,
                             actTarget: seq<seq<nat>>, actScores: seq<seq<real>>, endScores: seq<seq<real>>,
                             endLens: seq<seq<nat>>, stepTargets: seq<seq<seq<nat>>>, stepBackrefs: seq<seq<seq<nat>>>,
                             trace: seq<StepTrace<S>>)
  {
    && |maxSeqLen| == batch && 0 < batch && ScoresAllLabels(scorer, opts.numLabels)
    && LoopInputs(h, scorer, batch, opts, endDetect, pow, i, actW, layoutW, endW, actState, actTarget, actScores, endScores, endLens)
    && i < StepBound(maxSeqLen) && Continuing(opts, endDetect, h, batch, i)
    && stepTargets == h.targets && stepBackrefs == h.backrefs
    && Traced(scorer, batch, maxSeqLen, opts, endDetect, pow, h, trace)
  }

  /** The loop has stopped after the last recorded step, having gone on after every earlier one. */
  ghost predicate Exited<S(!new)>(scorer: Scorer<S>, batch: nat, maxSeqLen: seq<int>, opts: SepEndedOpts,
                                  endDetect: (seq<real>, seq<nat>, nat) -> bool, pow: (real, real) -> real,
                                  h: History<S>, stepTargets: seq<seq<seq<nat>>>, stepBackrefs: seq<seq<seq<nat>>>,
                                  exitScores: seq<seq<real>>, exitLens: seq<seq<nat>>, trace: seq<StepTrace<S>>)
  {
    && |maxSeqLen| == batch && 0 < batch && ScoresAllLabels(scorer, opts.numLabels)
    && HistoryShape(h, batch) && 0 < |h.targets|
    && Recorded(h, scorer, batch, opts.bosLabel, opts.eosLabel, |h.targets|)
    && Continuing(opts, endDetect, h, batch, |h.targets| - 1) && Stopped(opts, endDetect, h, batch, |h.targets| - 1)
    && exitLens == h.lens[|h.targets| - 1] && ExitScores(opts, endDetect, h, batch, |h.targets| - 1, exitScores)
    && stepTargets == h.targets && stepBackrefs == h.backrefs
    && Traced(scorer, batch, maxSeqLen, opts, endDetect, pow, h, trace)
  }

  /** One pass of the loop, from a running state to the next running state or to the exit. */
  method Pass<S(!new)>(scorer: Scorer<S>, batch: nat, maxSeqLen: seq<int>, opts: SepEndedOpts,
                       endDetect: (seq<real>, seq<nat>, nat) -> bool, pow: (real, real) -> real, i: nat,
                       actW: nat, layoutW: nat, endW: nat, actState: seq<seq<S>>, actTarget: seq<seq<nat>>,
                       actScores: seq<seq<real>>, endScores: seq<seq<real>>, endLens: seq<seq<nat>>,
                       stepTargets: seq<seq<seq<nat>>>, stepBackrefs: seq<seq<seq<nat>>>, ghost h: History<S>,
                       ghost trace: seq<StepTrace<S>>)
    returns (nextActW: nat, nextLayoutW: nat, nextEndW: nat, nextState: seq<seq<S>>, nextTarget: seq<seq<nat>>,
             nextScores: seq<seq<real>>, nextEndScores: seq<seq<real>>, nextEndLens: seq<seq<nat>>,
             stepTargets': seq<seq<seq<nat>>>, stepBackrefs': seq<seq<seq<nat>>>,
             exitScores: seq<seq<real>>, exitLens: seq<seq<nat>>, done: bool, ghost h': History<S>,
             ghost trace': seq<StepTrace<S>>)
    requires 0 < opts.numLabels && opts.beamSize <= opts.numLabels
    requires Running(scorer, batch, maxSeqLen, opts, endDetect, pow, h, i, actW, layoutW, endW, actState, actTarget,
                     actScores, endScores, endLens, stepTargets, stepBackrefs, trace) == true
    ensures |h'.targets| == i + 1 <= StepBound(maxSeqLen)
    ensures !done ==> Running(scorer, batch, maxSeqLen, opts, endDetect, pow, h', i + 1, nextActW, nextLayoutW,
                              nextEndW, nextState, nextTarget, nextScores, nextEndScores, nextEndLens,
                              stepTargets', stepBackrefs', trace') == true
    ensures done ==> Exited(scorer, batch, maxSeqLen, opts, endDetect, pow, h', stepTargets', stepBackrefs', exitScores,
                            exitLens, trace') == true
    // the new step is traced from the inputs of this pass
    ensures |trace'| == i + 1 && trace'[..i] == trace
    ensures trace'[i].actTarget == actTarget && trace'[i].actScores == actScores && trace'[i].endScores == endScores
  {
    ghost var tr;
    nextActW, nextLayoutW, nextEndW, nextState, nextTarget, nextScores, nextEndScores, nextEndLens,
      stepTargets', stepBackrefs', exitScores, exitLens, done, h', tr :=
      Advance(scorer, batch, maxSeqLen, opts, endDetect, pow, i, actW, layoutW, endW, actState, actTarget,
              actScores, endScores, endLens, stepTargets, stepBackrefs, h);
    ContinuingPrefix(opts, endDetect, h, h', batch, i);
    RecordedExtended(opts, endDetect, pow, h, h', batch, trace, tr);
    ComputedExtended(scorer, batch, maxSeqLen, opts, trace, tr);
    trace' := trace + [tr];
  }

  /** The state before the first pass: one hypothesis per row, `bos`, score 0, initial scorer state, no ended pool. */
  method Start<S(!new)>(scorer: Scorer<S>, batch: nat, maxSeqLen: seq<int>, opts: SepEndedOpts,
                        endDetect: (seq<real>, seq<nat>, nat) -> bool, pow: (real, real) -> real)
    returns (actW: nat, layoutW: nat, endW: nat, actState: seq<seq<S>>, actTarget: seq<seq<nat>>,
             actScores: seq<seq<real>>, endScores: seq<seq<real>>, endLens: seq<seq<nat>>,
             stepTargets: seq<seq<seq<nat>>>, stepBackrefs: seq<seq<seq<nat>>>, ghost h: History<S>,
             ghost trace: seq<StepTrace<S>>)
    requires |maxSeqLen| == batch && 0 < batch && ScoresAllLabels(scorer, opts.numLabels)
    ensures |h.targets| == 0
    ensures Running(scorer, batch, maxSeqLen, opts, endDetect, pow, h, 0, actW, layoutW, endW, actState, actTarget,
                    actScores, endScores, endLens, stepTargets, stepBackrefs, trace)
  {
    actW, layoutW, endW := 1, 0, 0;
    actState := InitialStates(scorer, batch);
    actTarget := Column(batch, opts.bosLabel);
    actScores := Column(batch, 0.0);
    endScores := Fill(batch, 0, 0.0);
    endLens := Fill(batch, 0, 0);
    stepTargets, stepBackrefs := [], [];
    h := History([], [], [], [], [], [], [], []);
    trace := [];
    InitialInputs(scorer, batch, opts, endDetect, pow, h, actState, actTarget, actScores, endScores, endLens);
  }

  /** The `while True` loop of the search: passes from the first step until one exits. */
  method Run<S(!new)>(scorer: Scorer<S>, batch: nat, maxSeqLen: seq<int>, opts: SepEndedOpts,
                      endDetect: (seq<real>, seq<nat>, nat) -> bool, pow: (real, real) -> real,
                      actW0: nat, layoutW0: nat, endW0: nat, actState0: seq<seq<S>>, actTarget0: seq<seq<nat>>,
                      actScores0: seq<seq<real>>, endScores0: seq<seq<real>>, endLens0: seq<seq<nat>>,
                      stepTargets0: seq<seq<seq<nat>>>, stepBackrefs0: seq<seq<seq<nat>>>, ghost h0: History<S>,
                      ghost trace0: seq<StepTrace<S>>)
    returns (stepTargets: seq<seq<seq<nat>>>, stepBackrefs: seq<seq<seq<nat>>>, exitScores: seq<seq<real>>,
             exitLens: seq<seq<nat>>, ghost h: History<S>, ghost trace: seq<StepTrace<S>>)
    requires 0 < opts.numLabels && opts.beamSize <= opts.numLabels
    requires |h0.targets| == 0
    requires Running(scorer, batch, maxSeqLen, opts, endDetect, pow, h0, 0, actW0, layoutW0, endW0, actState0,
                     actTarget0, actScores0, endScores0, endLens0, stepTargets0, stepBackrefs0, trace0) == true
    ensures |h.targets| <= StepBound(maxSeqLen)
    ensures Exited(scorer, batch, maxSeqLen, opts, endDetect, pow, h, stepTargets, stepBackrefs, exitScores, exitLens,
                   trace) == true
  {
    var actW, layoutW, endW, actState, actTarget, actScores, endScores, endLens :=
      actW0, layoutW0, endW0, actState0, actTarget0, actScores0, endScores0, endLens0;
    stepTargets, stepBackrefs, h, trace := stepTargets0, stepBackrefs0, h0, trace0;
    exitScores, exitLens := [], [];
    var i: nat := 0;
    ghost var bound := StepBound(maxSeqLen);
    while true
      invariant i == |h.targets| <= bound
      // `== true`: the state predicate is carried whole from the contract of `Pass`, not conjunct by conjunct
      invariant Running(scorer, batch, maxSeqLen, opts, endDetect, pow, h, i, actW, layoutW, endW, actState,
                        actTarget, actScores, endScores, endLens, stepTargets, stepBackrefs, trace) == true
      decreases bound - i
    {
      var done;
      actW, layoutW, endW, actState, actTarget, actScores, endScores, endLens, stepTargets, stepBackrefs,
        exitScores, exitLens, done, h, trace :=
        Pass(scorer, batch, maxSeqLen, opts, endDetect, pow, i, actW, layoutW, endW, actState, actTarget,
             actScores, endScores, endLens, stepTargets, stepBackrefs, h, trace);
      i := i + 1;
      if done {
        break;
      }
    }
  }

  /**
   * `beam_search_sep_ended`: run steps until no row keeps an unflagged active
   * hypothesis, then backtrack. Every recorded step satisfies `Recorded` (packed
   * layout, slot facts and scorer states), the loop went on after every step but the
   * last and stopped after the last, and the outputs are the chains of the final
   * slots, their normalized exit scores and their lengths.
   */
  method Search<S(!new)>(scorer: Scorer<S>, batch: nat, maxSeqLen: seq<int>, opts: SepEndedOpts,
                         endDetect: (seq<real>, seq<nat>, nat) -> bool, pow: (real, real) -> real)
    returns (seqTargets: seq<seq<seq<nat>>>, seqLogProb: seq<seq<real>>, outSeqLen: seq<seq<nat>>,
             ghost h: History<S>, ghost trace: seq<StepTrace<S>>)
    requires |maxSeqLen| == batch && 0 < batch
    requires 0 < opts.numLabels && opts.beamSize <= opts.numLabels && ScoresAllLabels(scorer, opts.numLabels)
    ensures HistoryShape(h, batch) && 0 < |h.targets| <= StepBound(maxSeqLen)
    ensures Recorded(h, scorer, batch, opts.bosLabel, opts.eosLabel, |h.targets|)
    // the loop stops after the first step that leaves no unflagged valid active hypothesis
    ensures Continuing(opts, endDetect, h, batch, |h.targets| - 1)
    ensures Stopped(opts, endDetect, h, batch, |h.targets| - 1)
    ensures var n := |h.targets|;
            && Rect(seqTargets, batch, h.widths[n - 1])
            && forall b, k :: 0 <= b < batch && 0 <= k < h.widths[n - 1] ==>
                 seqTargets[b][k] == ChainLabels(h.targets, h.backrefs, h.widths, batch, b, k, n - 1)
    ensures outSeqLen == h.lens[|h.targets| - 1]
    ensures var n := |h.targets|;
            && Rect(seqLogProb, batch, h.widths[n - 1])
            && forall b, k :: 0 <= b < batch && 0 <= k < h.widths[n - 1] ==>
                 seqLogProb[b][k] ==
                   (if k < h.actWidths[n - 1] && Flagged(opts, endDetect, h, batch, n - 1, b)
                    then BAD else h.scores[n - 1][b][k]) *
                   (if opts.lengthNormalizationExponent != 0.0
                    then pow(1.0 / n as real, opts.lengthNormalizationExponent) else 1.0)
    // every step computes its scores, labels and backrefs from what the steps before it left
    ensures Traced(scorer, batch, maxSeqLen, opts, endDetect, pow, h, trace)
  {
    var actW, layoutW, endW, actState, actTarget, actScores, endScores, endLens, stepTargets, stepBackrefs;
    actW, layoutW, endW, actState, actTarget, actScores, endScores, endLens, stepTargets, stepBackrefs, h, trace :=
      Start(scorer, batch, maxSeqLen, opts, endDetect, pow);
    var exitScores;
    stepTargets, stepBackrefs, exitScores, outSeqLen, h, trace :=
      Run(scorer, batch, maxSeqLen, opts, endDetect, pow, actW, layoutW, endW, actState, actTarget, actScores,
          endScores, endLens, stepTargets, stepBackrefs, h, trace);
    seqTargets, seqLogProb := Finish(stepTargets, stepBackrefs, exitScores, batch, opts, endDetect, pow, h);
  }

  /**
   * The offset the next step adds to the carried ended entries, as the source computes
   * it: `max_act_beam_size` after end detection, i.e. the largest active count left
   * once the flagged rows are zeroed. The ended entries of the packed step, however,
   * sit after `MaxOf(actCounts)` active slots; the two agree when detection is off.
   */
  function CarryOffsetAsWritten(actCounts: seq<nat>, flags: seq<bool>, useEspnetEndDetect: bool): (offset: nat)
    requires 0 < |actCounts| && |flags| == |actCounts|
    ensures offset <= MaxOf(actCounts)
    ensures !useEspnetEndDetect ==> offset == MaxOf(actCounts)
  {
    if useEspnetEndDetect then
      var m := MaxOf(MaskCounts(actCounts, flags));
      var b :| 0 <= b < |actCounts| && MaskCounts(actCounts, flags)[b] == m;
      assert m <= actCounts[b] <= MaxOf(actCounts);
      m
    else MaxOf(actCounts)
  }

  /**
   * Two rows, `eos` = 0, a packed step with two active slots and one ended slot. Row 0
   * holds active labels 3 and 4 and an ended entry; row 1 holds one active label and
   * padding. The detector flags row 0, so the active width drops to 1, and the next
   * step carries the ended entry of row 0 with backref 1: an active slot labelled 4,
   * not the ended entry at slot 2 that the recorded layout holds.
   */
  lemma CarryOffsetAsWrittenMisses()
    ensures var prevTargets: seq<seq<nat>> := [[3, 4, 0], [3, 0, 0]];
            var offset := CarryOffsetAsWritten([2, 1], [true, false], true);
            && offset == 1 && MaxOf([2, 1]) == 2
            && CarryBackrefs(2, 1, offset)[0][0] == 1 && prevTargets[0][1] == 4
            && CarryBackrefs(2, 1, MaxOf([2, 1]))[0][0] == 2 && prevTargets[0][2] == 0
  {
    var counts := MaskCounts([2, 1], [true, false]);
    assert counts == [0, 1];
    assert MaxOf(counts) == 1 by {
      assert MaxOf(counts[1..]) == 1;
    }
    assert MaxOf([2, 1]) == 2 by {
      assert [2, 1][1..] == [1];
    }
  }
}
