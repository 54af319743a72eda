/**
 * `beam_search_sep_ended`: beam search whose active and ended hypotheses live in
 * separate padded pools. Every step extends the active pool, keeps the best
 * `beam_size` candidates, appends the ended pool, optionally prunes the combined
 * row to `beam_and_ended_size`, classifies every slot, repacks every row into
 * `[active ... | ended ...]` and records the packed labels and backrefs for the
 * final backtracking.
 *
 * Tensors are `seq<seq<T>>`, scores are reals with the sentinel `BAD`, the label
 * scorer is the record `Scorer`, `x ** e` is the parameter `pow` and the ESPnet end
 * detector is the per-row oracle `endDetect(scores, lens, step)`.
 */
module SepEnded {
  import opened TensorOps
  import opened Backtrack
  import opened BeamSearch
  import opened SepEndedOps
  import opened Wrappers

  /** The options of the search (`BeamSearchDynBeamOpts`). */
  datatype SepEndedOpts = SepEndedOpts(
    beamSize: nat,
    beamAndEndedSize: nat,
    lengthNormalizationExponent: real,
    bosLabel: nat,
    eosLabel: nat,
    numLabels: nat,
    useEspnetEndDetect: bool)

  /** The combined candidates `[Batch, Beam + InEndBeam]` and whether each slot was carried over from the ended pool. */
  datatype Comb = Comb(scores: seq<seq<real>>, targets: seq<seq<nat>>, backrefs: seq<seq<nat>>,
                       lens: seq<seq<nat>>, carried: seq<seq<bool>>)

  ghost predicate CombShape(c: Comb, batch: nat, width: nat)
  {
    Rect(c.scores, batch, width) && Rect(c.targets, batch, width) && Rect(c.backrefs, batch, width)
    && Rect(c.lens, batch, width) && Rect(c.carried, batch, width)
  }

  /** The repacked `seq_log_prob`, `target`, `backrefs` and `seq_len` of one step. */
  datatype Packed = Packed(scores: seq<seq<real>>, targets: seq<seq<nat>>, backrefs: seq<seq<nat>>, lens: seq<seq<nat>>)

  ghost predicate PackedShape(p: Packed, batch: nat, width: nat)
  {
    Rect(p.scores, batch, width) && Rect(p.targets, batch, width) && Rect(p.backrefs, batch, width)
    && Rect(p.lens, batch, width)
  }

  /**
   * What the loop records, one entry per step `t`: the packed labels, backrefs,
   * lengths and scores, the scorer states of the active input beam, the width of
   * the packed active part, the width of the active input beam and the total width.
   */
  datatype History<S> = History(
    targets: seq<seq<seq<nat>>>,
    backrefs: seq<seq<seq<nat>>>,
    lens: seq<seq<seq<nat>>>,
    scores: seq<seq<seq<real>>>,
    states: seq<seq<seq<S>>>,
    actWidths: seq<nat>,
    inActWidths: seq<nat>,
    widths: seq<nat>)

  /**
   * Shapes of the history. The first step extends the one initial hypothesis; every
   * later step extends at most the packed active part of the step before.
   */
  ghost predicate HistoryShape<S>(h: History<S>, batch: nat)
  {
    WellFormed(h.targets, h.backrefs, h.widths, batch) && FieldsShape(h, batch) && WidthsOk(h)
  }

  /** Lengths, scores and states are shaped like the labels (states like the active input beam). */
  ghost predicate FieldsShape<S>(h: History<S>, batch: nat)
  {
    && |h.lens| == |h.targets| && |h.scores| == |h.targets| && |h.states| == |h.targets|
    && |h.widths| == |h.targets| && |h.inActWidths| == |h.targets|
    && (forall t :: 0 <= t < |h.targets| ==> |h.lens[t]| == batch && |h.scores[t]| == batch && |h.states[t]| == batch)
    && (forall t, b :: 0 <= t < |h.targets| && 0 <= b < batch ==>
          |h.lens[t][b]| == h.widths[t] && |h.scores[t][b]| == h.widths[t] && |h.states[t][b]| == h.inActWidths[t])
  }

  ghost predicate WidthsOk<S>(h: History<S>)
  {
    && |h.actWidths| == |h.widths| && |h.inActWidths| == |h.widths|
    && (forall t :: 0 <= t < |h.widths| ==> h.actWidths[t] <= h.widths[t])
    && (forall t :: 0 <= t < |h.widths| ==> 0 < h.inActWidths[t])
    && (0 < |h.widths| ==> h.inActWidths[0] == 1)
    && (forall t :: 0 < t < |h.widths| ==> h.inActWidths[t] <= h.actWidths[t - 1])
  }

  /**
   * Slot `j` of a packed row of step `t`, given the row of the step before. A slot
   * whose score is at most `BAD` is padding: label `eos`, backref 0, length 0. The
   * ended part holds `eos` only. A valid slot of the active part is a fresh
   * candidate (its backref is a slot of the active input beam) with a label other
   * than `eos`. Fresh candidates have length `t`. A valid slot whose backref lies
   * beyond the active input beam was carried over from the ended pool: it sits in
   * the ended part, and its backref is its own slot of step `t - 1`, an `eos` slot
   * of the same length.
   */
  ghost predicate SlotFacts(prevTargets: seq<nat>, prevLens: seq<nat>, t: nat, actW: nat, inActW: nat, eos: nat,
                            j: nat, score: real, target: nat, br: nat, len: nat)
  {
    var valid := score > BAD;
    && (!valid ==> target == eos && br == 0 && len == 0)
    && (actW <= j ==> target == eos)
    && (valid && j < actW ==> br < inActW && target != eos)
    && (valid && br < inActW ==> len == t)
    && (valid && inActW <= br ==>
          && 0 < t && actW <= j && br < |prevTargets| && br < |prevLens|
          && prevTargets[br] == eos && prevLens[br] == len)
  }

  /** The shape of the last recorded step, `i - 1`, which is all a new step looks at. */
  ghost predicate LastStepShape<S>(h: History<S>, batch: nat, i: nat)
  {
    && |h.targets| == i && |h.lens| == i && |h.widths| == i
    && (0 < i ==> Rect(h.targets[i - 1], batch, h.widths[i - 1]) && Rect(h.lens[i - 1], batch, h.widths[i - 1]))
  }

  lemma LastShape<S>(h: History<S>, batch: nat)
    requires HistoryShape(h, batch)
    ensures LastStepShape(h, batch, |h.targets|)
  {
  }

  /** The rows of step `t - 1` (empty for the first step). */
  ghost function PrevTargets<S>(h: History<S>, batch: nat, t: nat, b: nat): seq<nat>
    requires t <= |h.targets| && (0 < t ==> b < |h.targets[t - 1]|)
  {
    if t == 0 then [] else h.targets[t - 1][b]
  }

  ghost function PrevLens<S>(h: History<S>, batch: nat, t: nat, b: nat): seq<nat>
    requires t <= |h.lens| && (0 < t ==> b < |h.lens[t - 1]|)
  {
    if t == 0 then [] else h.lens[t - 1][b]
  }

  /**
   * Slots `layoutW..layoutW + endW` of the previous step hold the ended pool: they
   * end in `eos` and their lengths are the pool's lengths.
   */
  ghost predicate EndedPool(prevTargets: seq<seq<nat>>, prevLens: seq<seq<nat>>, endLens: seq<seq<nat>>,
                            batch: nat, layoutW: nat, endW: nat, eos: nat)
    requires Rect(prevTargets, batch, layoutW + endW) && Rect(prevLens, batch, layoutW + endW)
    requires Rect(endLens, batch, endW)
  {
    forall b, j :: 0 <= b < batch && layoutW <= j < layoutW + endW ==>
      prevTargets[b][j] == eos && prevLens[b][j] == endLens[b][j - layoutW]
  }

  ghost predicate SlotOk<S>(h: History<S>, batch: nat, eos: nat, t: nat, b: nat, j: nat)
    requires HistoryShape(h, batch) && t < |h.targets| && b < batch && j < h.widths[t]
  {
    SlotFacts(PrevTargets(h, batch, t, b), PrevLens(h, batch, t, b), t, h.actWidths[t], h.inActWidths[t], eos,
              j, h.scores[t][b][j], h.targets[t][b][j], h.backrefs[t][b][j], h.lens[t][b][j])
  }

  ghost predicate PackedOk<S>(h: History<S>, batch: nat, eos: nat, t: nat)
    requires HistoryShape(h, batch) && t < |h.targets|
  {
    forall b, j :: 0 <= b < batch && 0 <= j < h.widths[t] ==> SlotOk(h, batch, eos, t, b, j)
  }

  /**
   * The labels fed to the scorer state of input slot `j` at step `t`: none at the
   * start, then `bos` and the labels of that slot's chain before its own label
   * (which is fed next, as the previous label).
   */
  ghost function Fed<S>(h: History<S>, batch: nat, bos: nat, t: nat, b: nat, j: nat): (labels: seq<nat>)
    requires HistoryShape(h, batch) && t <= |h.targets| && b < batch && (0 < t ==> j < h.widths[t - 1])
    ensures |labels| == t
  {
    if t == 0 then [] else [bos] + ChainLabels(h.targets, h.backrefs, h.widths, batch, b, j, t - 1)[..t - 1]
  }

  /** The scorer states of step `t` are the initial states fed with the labels of their chains. */
  ghost predicate StatesOk<S>(h: History<S>, scorer: Scorer<S>, batch: nat, bos: nat, t: nat)
    requires HistoryShape(h, batch) && t < |h.targets|
  {
    forall b, j :: 0 <= b < batch && 0 <= j < h.inActWidths[t] ==>
      h.states[t][b][j] == Feed(scorer.update, scorer.initial(b), Fed(h, batch, bos, t, b, j))
  }

  /** Steps `0..n` have the slot properties and the scorer states `PackedOk` and `StatesOk` state. */
  ghost predicate Recorded<S>(h: History<S>, scorer: Scorer<S>, batch: nat, bos: nat, eos: nat, n: nat)
    requires HistoryShape(h, batch) && n <= |h.targets|
  {
    forall t :: 0 <= t < n ==> PackedOk(h, batch, eos, t) && StatesOk(h, scorer, batch, bos, t)
  }

  /** The scorer states `states` of the `actIn` input slots of step `i` are fed with the labels of their chains. */
  ghost predicate FedStates<S>(h: History<S>, scorer: Scorer<S>, batch: nat, bos: nat, i: nat, actIn: nat,
                               states: seq<seq<S>>)
    requires HistoryShape(h, batch) && i <= |h.targets| && Rect(states, batch, actIn)
    requires 0 < i ==> actIn <= h.widths[i - 1]
  {
    forall b, j :: 0 <= b < batch && 0 <= j < actIn ==>
      states[b][j] == Feed(scorer.update, scorer.initial(b), Fed(h, batch, bos, i, b, j))
  }

  /**
   * Every slot of a packed step about to be recorded as step `i` has the properties
   * `SlotFacts` lists, and its backref is a slot of step `i - 1`.
   */
  ghost predicate NewSlots<S>(p: Packed, h: History<S>, batch: nat, i: nat, actIn: nat, actW: nat, width: nat, eos: nat)
    requires LastStepShape(h, batch, i) && PackedShape(p, batch, width)
  {
    forall b, j :: 0 <= b < batch && 0 <= j < width ==>
      && SlotFacts(PrevTargets(h, batch, i, b), PrevLens(h, batch, i, b), i, actW, actIn, eos,
                   j, p.scores[b][j], p.targets[b][j], p.backrefs[b][j], p.lens[b][j])
      && p.backrefs[b][j] < if i == 0 then 1 else h.widths[i - 1]
  }

  function AppendStep<S>(h: History<S>, p: Packed, states: seq<seq<S>>, actW: nat, inActW: nat, width: nat)
    : (h': History<S>)
    ensures |h'.targets| == |h.targets| + 1
  {
    History(h.targets + [p.targets], h.backrefs + [p.backrefs], h.lens + [p.lens], h.scores + [p.scores],
            h.states + [states], h.actWidths + [actW], h.inActWidths + [inActW], h.widths + [width])
  }

  ghost predicate IsPrefix<S>(h: History<S>, h': History<S>)
  {
    && h.targets <= h'.targets && h.backrefs <= h'.backrefs && h.lens <= h'.lens && h.scores <= h'.scores
    && h.states <= h'.states && h.actWidths <= h'.actWidths && h.inActWidths <= h'.inActWidths
    && h.widths <= h'.widths
  }

  /** Appending a step changes nothing recorded about the earlier ones. */
  lemma PrefixKeepsSteps<S>(h: History<S>, h': History<S>, scorer: Scorer<S>, batch: nat, bos: nat, eos: nat, t: nat)
    requires HistoryShape(h, batch) && HistoryShape(h', batch) && IsPrefix(h, h') && t < |h.targets|
    requires PackedOk(h, batch, eos, t) && StatesOk(h, scorer, batch, bos, t)
    ensures PackedOk(h', batch, eos, t) && StatesOk(h', scorer, batch, bos, t)
  {
    assert h'.targets[t] == h.targets[t] && h'.backrefs[t] == h.backrefs[t] && h'.lens[t] == h.lens[t];
    assert h'.scores[t] == h.scores[t] && h'.states[t] == h.states[t] && h'.widths[t] == h.widths[t];
    assert h'.actWidths[t] == h.actWidths[t] && h'.inActWidths[t] == h.inActWidths[t];
    if 0 < t {
      assert h'.targets[t - 1] == h.targets[t - 1] && h'.lens[t - 1] == h.lens[t - 1];
    }
    forall b, j | 0 <= b < batch && 0 <= j < h'.widths[t]
      ensures SlotOk(h', batch, eos, t, b, j)
    {
      assert SlotOk(h, batch, eos, t, b, j);
      assert PrevTargets(h, batch, t, b) == PrevTargets(h', batch, t, b);
      assert PrevLens(h, batch, t, b) == PrevLens(h', batch, t, b);
    }
    forall b, j | 0 <= b < batch && 0 <= j < h'.inActWidths[t]
      ensures h'.states[t][b][j] == Feed(scorer.update, scorer.initial(b), Fed(h', batch, bos, t, b, j))
    {
      if 0 < t {
        ChainLabelsPrefix(h.targets, h.backrefs, h.widths, h'.targets, h'.backrefs, h'.widths, batch, b, j, t - 1);
      }
    }
  }

  /** Feeding the input label of a slot gives the fed labels of every slot extending it. */
  lemma FedStep<S>(h: History<S>, h': History<S>, batch: nat, bos: nat, i: nat, b: nat, j: nat)
    requires HistoryShape(h, batch) && HistoryShape(h', batch) && IsPrefix(h, h')
    requires |h.targets| == i && |h'.targets| == i + 1 && b < batch && j < h'.widths[i]
    requires 0 < i ==> h'.backrefs[i][b][j] < h.widths[i - 1]
    ensures Fed(h', batch, bos, i + 1, b, j)
            == Fed(h, batch, bos, i, b, h'.backrefs[i][b][j])
               + [if i == 0 then bos else h.targets[i - 1][b][h'.backrefs[i][b][j]]]
  {
    if 0 < i {
      var br := h'.backrefs[i][b][j];
      var c' := ChainLabels(h'.targets, h'.backrefs, h'.widths, batch, b, j, i);
      var c := ChainLabels(h.targets, h.backrefs, h.widths, batch, b, br, i - 1);
      ChainLabelsStep(h'.targets, h'.backrefs, h'.widths, batch, b, j, i);
      ChainLabelsPrefix(h.targets, h.backrefs, h.widths, h'.targets, h'.backrefs, h'.widths, batch, b, br, i - 1);
      assert c'[..i] == c;
      assert c == c[..i - 1] + [h.targets[i - 1][b][br]];
      calc {
        Fed(h', batch, bos, i + 1, b, j);
        [bos] + c'[..i];
        [bos] + (c[..i - 1] + [h.targets[i - 1][b][br]]);
        ([bos] + c[..i - 1]) + [h.targets[i - 1][b][br]];
        Fed(h, batch, bos, i, b, br) + [h.targets[i - 1][b][br]];
      }
    }
  }

  // ---------------------------------------------------------------------------
  // Tensor helpers

  /** `torch.full([batch, width], x)`. */
  function Fill<T>(batch: nat, width: nat, x: T): (r: seq<seq<T>>)
    ensures Rect(r, batch, width) && forall b, j :: 0 <= b < batch && 0 <= j < width ==> r[b][j] == x
  {
    seq(batch, b requires 0 <= b < batch => seq(width, j requires 0 <= j < width => x))
  }

  /** `torch.concat([x, y], dim=1)`. */
  function ConcatRows<T>(x: seq<seq<T>>, y: seq<seq<T>>, batch: nat, wx: nat, wy: nat): (r: seq<seq<T>>)
    requires Rect(x, batch, wx) && Rect(y, batch, wy)
    ensures Rect(r, batch, wx + wy)
    ensures forall b, j :: 0 <= b < batch && 0 <= j < wx ==> r[b][j] == x[b][j]
    ensures forall b, j :: 0 <= b < batch && wx <= j < wx + wy ==> r[b][j] == y[b][j - wx]
  {
    seq(batch, b requires 0 <= b < batch => x[b] + y[b])
  }

  /** `x[:, from:to]`. */
  function SliceRows<T>(x: seq<seq<T>>, batch: nat, width: nat, from: nat, to: nat): (r: seq<seq<T>>)
    requires Rect(x, batch, width) && from <= to <= width
    ensures Rect(r, batch, to - from)
    ensures forall b :: 0 <= b < batch ==> r[b] == x[b][from..to]
    ensures forall b, j :: 0 <= b < batch && 0 <= j < to - from ==> r[b][j] == x[b][from + j]
  {
    seq(batch, b requires 0 <= b < batch => x[b][from..to])
  }

  /** `(torch.arange(endW) + offset)[None, :].expand(batch, endW)`: the backrefs of the carried ended entries. */
  function CarryBackrefs(batch: nat, endW: nat, offset: nat): (r: seq<seq<nat>>)
    ensures Rect(r, batch, endW) && forall b, j :: 0 <= b < batch && 0 <= j < endW ==> r[b][j] == offset + j
  {
    seq(batch, b requires 0 <= b < batch => seq(endW, j requires 0 <= j < endW => offset + j))
  }

  /** `.max()` of a per-row count (the source raises on an empty batch). */
  function MaxOf(s: seq<nat>): (m: nat)
    requires |s| > 0
    ensures forall j :: 0 <= j < |s| ==> s[j] <= m
    ensures exists j :: 0 <= j < |s| && s[j] == m
  {
    if |s| == 1 then s[0]
    else
      var r := MaxOf(s[1..]);
      assert forall j :: 1 <= j < |s| ==> s[j] == s[1..][j - 1];
      if s[0] > r then s[0] else r
  }

  /** `.sum()` of a per-row count. */
  function SumOf(s: seq<nat>): nat
  {
    if s == [] then 0 else s[0] + SumOf(s[1..])
  }

  lemma {:induction false} SumBelow(s: seq<nat>, m: nat)
    requires forall j :: 0 <= j < |s| ==> s[j] <= m
    ensures SumOf(s) <= m * |s|
  {
    if s != [] {
      SumBelow(s[1..], m);
      assert m * |s| == m + m * (|s| - 1);
    }
  }

  /** `full_act_beam`: when the counts sum to their maximum times the batch size, every count is the maximum. */
  lemma {:induction false} FullRows(s: seq<nat>, m: nat)
    requires forall j :: 0 <= j < |s| ==> s[j] <= m
    requires SumOf(s) == m * |s|
    ensures forall j :: 0 <= j < |s| ==> s[j] == m
  {
    if s != [] {
      assert m * |s| == m + m * (|s| - 1);
      SumBelow(s[1..], m);
      FullRows(s[1..], m);
      forall j | 1 <= j < |s| ensures s[j] == m {
        assert s[j] == s[1..][j - 1];
      }
    }
  }

  // ---------------------------------------------------------------------------
  // Counting

  lemma {:induction false} CountsBounded(codes: seq<int>)
    ensures Count(codes, ACTIVE) + Count(codes, ENDED) <= |codes|
    decreases |codes|
  {
    if codes != [] {
      CountsBounded(codes[..|codes| - 1]);
    }
  }

  /** A row whose every slot is active repacks to itself. */
  lemma {:induction false} AllActivePositions(codes: seq<int>)
    requires Count(codes, ACTIVE) == |codes|
    ensures forall j :: 0 <= j < |codes| ==> Positions(codes, ACTIVE)[j] == j
    ensures Count(codes, ENDED) == 0
    decreases |codes|
  {
    if codes != [] {
      var n := |codes|;
      var pre := codes[..n - 1];
      CountsBounded(pre);
      if codes[n - 1] != ACTIVE {
        assert false;
      }
      AllActivePositions(pre);
      assert Positions(codes, ACTIVE) == Positions(pre, ACTIVE) + [n - 1];
      assert Positions(codes, ENDED) == Positions(pre, ENDED);
    }
  }

  // ---------------------------------------------------------------------------
  // The steps of one iteration

  /** `seq_score_ext_and_update_state` on the active input beam: the extended scores, one per label. */
  function ExtendActive<S(!new)>(scorer: Scorer<S>, scores: seq<seq<real>>, state: seq<seq<S>>, target: seq<seq<nat>>,
                                 newState: seq<seq<S>>, batch: nat, width: nat, numLabels: nat): (r: seq<seq<seq<real>>>)
    requires ScoresAllLabels(scorer, numLabels)
    requires Rect(scores, batch, width) && Rect(state, batch, width) && Rect(target, batch, width)
    requires Rect(newState, batch, width)
    ensures Rect(r, batch, width)
    ensures forall b, h :: 0 <= b < batch && 0 <= h < width ==>
              r[b][h] == ExtendSlot(scores[b][h], scorer.score(state[b][h], target[b][h], newState[b][h]))
    ensures forall b, h :: 0 <= b < batch && 0 <= h < width ==> |r[b][h]| == numLabels
  {
    seq(batch, b requires 0 <= b < batch =>
      seq(width, h requires 0 <= h < width =>
        ExtendSlot(scores[b][h], scorer.score(state[b][h], target[b][h], newState[b][h]))))
  }

  /**
   * The combined row: the `k` fresh top-k candidates, with length `i`, followed (when
   * the ended pool is not empty) by the `endW` entries of the ended pool, with label
   * `eos`, their stored length and the backrefs `carryOffset + j`.
   */
  function Combine(vals: seq<seq<real>>, backrefs: seq<seq<nat>>, labels: seq<seq<nat>>,
                   endScores: seq<seq<real>>, endLens: seq<seq<nat>>,
                   batch: nat, k: nat, endW: nat, carryOffset: nat, i: nat, eos: nat): (c: Comb)
    requires Rect(vals, batch, k) && Rect(backrefs, batch, k) && Rect(labels, batch, k)
    requires Rect(endScores, batch, endW) && Rect(endLens, batch, endW)
    ensures CombShape(c, batch, k + endW)
    ensures forall b, j :: 0 <= b < batch && 0 <= j < k ==>
              && c.scores[b][j] == vals[b][j] && c.targets[b][j] == labels[b][j]
              && c.backrefs[b][j] == backrefs[b][j] && c.lens[b][j] == i && !c.carried[b][j]
    ensures forall b, j :: 0 <= b < batch && k <= j < k + endW ==>
              && c.scores[b][j] == endScores[b][j - k] && c.targets[b][j] == eos
              && c.backrefs[b][j] == carryOffset + (j - k) && c.lens[b][j] == endLens[b][j - k] && c.carried[b][j]
  {
    var lens := Fill(batch, k, i);
    var carried := Fill(batch, k, false);
    if endW > 0 then
      Comb(ConcatRows(vals, endScores, batch, k, endW),
           ConcatRows(labels, Fill(batch, endW, eos), batch, k, endW),
           ConcatRows(backrefs, CarryBackrefs(batch, endW, carryOffset), batch, k, endW),
           ConcatRows(lens, endLens, batch, k, endW),
           ConcatRows(carried, Fill(batch, endW, true), batch, k, endW))
    else
      Comb(vals, labels, backrefs, lens, carried)
  }

  /**
   * The combined slots, relative to the history of the `i` steps before: a fresh
   * candidate extends a slot of the active input beam and has length `i`; a carried
   * entry is `eos`, points beyond the active input beam at an `eos` slot of the
   * previous step, and has that slot's length.
   */
  ghost predicate CombSlotsOk<S>(c: Comb, batch: nat, width: nat, h: History<S>, i: nat, actIn: nat, eos: nat)
    requires CombShape(c, batch, width) && LastStepShape(h, batch, i)
  {
    forall b, j :: 0 <= b < batch && 0 <= j < width ==> CombSlotOk(c, batch, width, h, i, actIn, eos, b, j)
  }

  /** Slot `j` of row `b` of the combined candidates, as `CombSlotsOk` describes it. */
  ghost predicate CombSlotOk<S>(c: Comb, batch: nat, width: nat, h: History<S>, i: nat, actIn: nat, eos: nat,
                                b: nat, j: nat)
    requires CombShape(c, batch, width) && LastStepShape(h, batch, i)
    requires b < batch && j < width
  {
    && (!c.carried[b][j] ==> c.backrefs[b][j] < actIn && c.lens[b][j] == i)
    && (c.carried[b][j] ==>
          && 0 < i && actIn <= c.backrefs[b][j] < h.widths[i - 1] && c.targets[b][j] == eos
          && h.targets[i - 1][b][c.backrefs[b][j]] == eos && h.lens[i - 1][b][c.backrefs[b][j]] == c.lens[b][j])
  }

  /** `torch.topk(x, k, dim=1)` row by row. */
  method TopKRows(x: seq<seq<real>>, batch: nat, width: nat, k: nat) returns (vals: seq<seq<real>>, idx: seq<seq<nat>>)
    requires Rect(x, batch, width) && k <= width
    ensures Rect(vals, batch, k) && Rect(idx, batch, k)
    ensures forall b :: 0 <= b < batch ==> IsTopK(x[b], k, vals[b], idx[b])
  {
    vals, idx := [], [];
    var b := 0;
    while b < batch
      invariant 0 <= b <= batch && |vals| == b && |idx| == b
      invariant forall b' :: 0 <= b' < b ==> IsTopK(x[b'], k, vals[b'], idx[b'])
      invariant forall b' :: 0 <= b' < b ==> |vals[b']| == k && |idx[b']| == k
    {
      var v, ix := TopK(x[b], k);
      vals, idx := vals + [v], idx + [ix];
      b := b + 1;
    }
  }

  /**
   * When the combined row is wider than `beam_and_ended_size > 0`, keep its best
   * `beam_and_ended_size` slots (`idx` is `backrefs_2nd`) and gather the other fields
   * through them; otherwise keep it as it is.
   */
  method Prune(c: Comb, batch: nat, width: nat, limit: nat) returns (out: Comb, outWidth: nat, ghost idx: seq<seq<nat>>)
    requires CombShape(c, batch, width)
    ensures outWidth == if width > limit > 0 then limit else width
    ensures CombShape(out, batch, outWidth) && Rect(idx, batch, outWidth)
    ensures width > limit > 0 ==> forall b :: 0 <= b < batch ==> IsTopK(c.scores[b], limit, out.scores[b], idx[b])
    ensures !(width > limit > 0) ==> out == c
    ensures forall b, j :: 0 <= b < batch && 0 <= j < outWidth ==>
              && idx[b][j] < width && out.scores[b][j] == c.scores[b][idx[b][j]]
              && out.targets[b][j] == c.targets[b][idx[b][j]] && out.backrefs[b][j] == c.backrefs[b][idx[b][j]]
              && out.lens[b][j] == c.lens[b][idx[b][j]] && out.carried[b][j] == c.carried[b][idx[b][j]]
  {
    if width > limit > 0 {
      var vals, ix := TopKRows(c.scores, batch, width, limit);
      out := Comb(vals, BatchGather(c.targets, ix), BatchGather(c.backrefs, ix), BatchGather(c.lens, ix),
                  BatchGather(c.carried, ix));
      outWidth, idx := limit, ix;
    } else {
      out, outWidth := c, width;
      idx := seq(batch, b requires 0 <= b < batch => Iota(width));
      assert forall b :: 0 <= b < batch ==> idx[b] == Iota(width);
    }
  }

  /** `state_comb` of every slot, with `i` the step count after the increment. */
  function ClassifyAll(c: Comb, batch: nat, width: nat, eos: nat, i: nat, maxSeqLen: seq<int>): (codes: seq<seq<int>>)
    requires CombShape(c, batch, width) && |maxSeqLen| == batch
    ensures Rect(codes, batch, width)
    ensures forall b, j :: 0 <= b < batch && 0 <= j < width ==>
              codes[b][j] == ClassifySlot(c.scores[b][j], c.targets[b][j], c.carried[b][j], eos, i, maxSeqLen[b])
    ensures forall b :: 0 <= b < batch ==> ValidCodes(codes[b])
  {
    seq(batch, b requires 0 <= b < batch =>
      seq(width, j requires 0 <= j < width =>
        ClassifySlot(c.scores[b][j], c.targets[b][j], c.carried[b][j], eos, i, maxSeqLen[b])))
  }

  /** `(state_comb == code).sum(dim=1)`. */
  function CountsOf(codes: seq<seq<int>>, code: int): (counts: seq<nat>)
    ensures |counts| == |codes| && forall b :: 0 <= b < |codes| ==> counts[b] == Count(codes[b], code)
  {
    seq(|codes|, b requires 0 <= b < |codes| => Count(codes[b], code))
  }

  /**
   * One field repacked row by row: gathered by `act_end_idx` and, unless `valid` is
   * `None` (`masked` false), masked with `fill`.
   */
  function RepackRows<T>(codes: seq<seq<int>>, x: seq<seq<T>>, batch: nat, width: nat, actW: nat, endW: nat,
                         fill: T, masked: bool): (r: seq<seq<T>>)
    requires Rect(codes, batch, width) && Rect(x, batch, width) && actW <= width && endW <= width
    requires forall b :: 0 <= b < batch ==> ValidCodes(codes[b])
    requires forall b :: 0 <= b < batch ==> Count(codes[b], ACTIVE) <= actW && Count(codes[b], ENDED) <= endW
    requires !masked ==> endW == 0 && forall b :: 0 <= b < batch ==> Count(codes[b], ACTIVE) == actW
    ensures Rect(r, batch, actW + endW)
    ensures forall b :: 0 <= b < batch ==> IsLayout(codes[b], x[b], actW, endW, fill, r[b])
  {
    var rows := seq(batch, b requires 0 <= b < batch =>
      var g := Gather(x[b], ActEndIdx(codes[b], actW, endW));
      if masked then Where(ValidMask(codes[b], actW, endW), g, fill) else g);
    assert forall b :: 0 <= b < batch ==> IsLayout(codes[b], x[b], actW, endW, fill, rows[b]) by {
      forall b | 0 <= b < batch
        ensures IsLayout(codes[b], x[b], actW, endW, fill, rows[b])
      {
        if masked {
          RepackRowIsLayout(codes[b], x[b], actW, endW, fill);
        } else {
          UnmaskedRowIsLayout(codes[b], x[b], actW, fill);
        }
      }
    }
    rows
  }

  /** The labels repacked row by row: gathered by `act_idx`, masked with `eos` unless `active` is `None`, then `eos` for the ended part. */
  function RepackTargetRows(codes: seq<seq<int>>, x: seq<seq<nat>>, batch: nat, width: nat, actW: nat, endW: nat,
                            eos: nat, masked: bool): (r: seq<seq<nat>>)
    requires Rect(codes, batch, width) && Rect(x, batch, width) && actW <= width
    requires forall b :: 0 <= b < batch ==> ValidCodes(codes[b]) && Count(codes[b], ACTIVE) <= actW
    requires endW <= width && forall b :: 0 <= b < batch ==> Count(codes[b], ENDED) <= endW
    requires !masked ==> endW == 0 && forall b :: 0 <= b < batch ==> Count(codes[b], ACTIVE) == actW
    ensures Rect(r, batch, actW + endW)
    ensures forall b :: 0 <= b < batch ==> IsTargetLayout(codes[b], x[b], actW, endW, eos, r[b])
  {
    var rows := seq(batch, b requires 0 <= b < batch =>
      if masked then RepackTargets(codes[b], x[b], actW, endW, eos) else Gather(x[b], ActEndIdx(codes[b], actW, endW)));
    assert forall b :: 0 <= b < batch ==> IsTargetLayout(codes[b], x[b], actW, endW, eos, rows[b]) by {
      forall b | 0 <= b < batch
        ensures IsTargetLayout(codes[b], x[b], actW, endW, eos, rows[b])
      {
        if masked {
          RepackTargetsIsLayout(codes[b], x[b], actW, endW, eos);
        } else {
          UnmaskedTargetsIsLayout(codes[b], x[b], actW, eos);
        }
      }
    }
    rows
  }

  /**
   * The repacking of every row into `[active ... | ended ...]` with padding, following
   * the source's branches: nothing to do when every row is full and nothing ended,
   * no masking when every row is full and nothing ended but the row was wider.
   */
  method Repack(c: Comb, codes: seq<seq<int>>, batch: nat, width: nat, actCounts: seq<nat>,
                actW: nat, endW: nat, eos: nat) returns (p: Packed)
    requires CombShape(c, batch, width) && Rect(codes, batch, width) && 0 < batch
    requires forall b :: 0 <= b < batch ==> ValidCodes(codes[b])
    requires actW <= width && endW <= width
    requires forall b :: 0 <= b < batch ==> Count(codes[b], ACTIVE) <= actW && Count(codes[b], ENDED) <= endW
    requires SumOf(actCounts) == actW * batch ==> forall b :: 0 <= b < batch ==> Count(codes[b], ACTIVE) == actW
    ensures PackedShape(p, batch, actW + endW)
    ensures forall b :: 0 <= b < batch ==>
              && IsLayout(codes[b], c.scores[b], actW, endW, BAD, p.scores[b])
              && IsTargetLayout(codes[b], c.targets[b], actW, endW, eos, p.targets[b])
              && IsLayout(codes[b], c.backrefs[b], actW, endW, 0, p.backrefs[b])
              && IsLayout(codes[b], c.lens[b], actW, endW, 0, p.lens[b])
  {
    var full := SumOf(actCounts) == actW * batch;
    if full && width == actW && endW == 0 {
      p := Packed(c.scores, c.targets, c.backrefs, c.lens);
      UnchangedIsLayout(c, codes, batch, width, eos);
    } else {
      p := RepackAll(c, codes, batch, width, actW, endW, eos, !(full && endW == 0));
    }
  }

  /** Every row of `p` is the layout of the same row of `c`: active slots, then ended ones, then fill. */
  ghost predicate LaidOut(c: Comb, codes: seq<seq<int>>, batch: nat, width: nat, actW: nat, endW: nat, eos: nat,
                          p: Packed)
    requires CombShape(c, batch, width) && Rect(codes, batch, width)
  {
    && PackedShape(p, batch, actW + endW)
    && forall b :: 0 <= b < batch ==>
         && IsLayout(codes[b], c.scores[b], actW, endW, BAD, p.scores[b])
         && IsTargetLayout(codes[b], c.targets[b], actW, endW, eos, p.targets[b])
         && IsLayout(codes[b], c.backrefs[b], actW, endW, 0, p.backrefs[b])
         && IsLayout(codes[b], c.lens[b], actW, endW, 0, p.lens[b])
  }

  /**
   * The repacking as the source writes it. When every row is `full` and nothing
   * ended, `valid` is set to `None`; if the combined row is nevertheless wider than
   * the active part, `act_idx` is computed and the unguarded
   * `torch.where(valid, backrefs, ...)` raises `TypeError`. Otherwise it repacks as
   * `Repack` does.
   */
  function RepackAsWritten(c: Comb, codes: seq<seq<int>>, batch: nat, width: nat, actCounts: seq<nat>,
                           actW: nat, endW: nat, eos: nat): (r: Result<Packed, string>)
    requires CombShape(c, batch, width) && Rect(codes, batch, width) && 0 < batch
    requires forall b :: 0 <= b < batch ==> ValidCodes(codes[b])
    requires actW <= width && endW <= width
    requires forall b :: 0 <= b < batch ==> Count(codes[b], ACTIVE) <= actW && Count(codes[b], ENDED) <= endW
    requires SumOf(actCounts) == actW * batch ==> forall b :: 0 <= b < batch ==> Count(codes[b], ACTIVE) == actW
    ensures r.Failure? <==> SumOf(actCounts) == actW * batch && endW == 0 && width != actW
    ensures r.Success? ==> LaidOut(c, codes, batch, width, actW, endW, eos, r.value)
  {
    var full := SumOf(actCounts) == actW * batch;
    var actIdxIsNone := full && width == actW && endW == 0;
    var validIsNone := full && endW == 0;
    if actIdxIsNone then
      UnchangedIsLayout(c, codes, batch, width, eos);
      Success(Packed(c.scores, c.targets, c.backrefs, c.lens))
    else if validIsNone then
      Failure("TypeError: where(): argument 'condition' must be Tensor, not NoneType")
    else
      Success(RepackAll(c, codes, batch, width, actW, endW, eos, true))
  }

  /**
   * A one-row step whose two combined slots are one active and one invalid
   * candidate (as the first step gives with `beam_size` 2 when the second best
   * label scores at most `bad_score`): the row is full, nothing ended, and the
   * combined row is wider than the active part, so the repacking as written raises.
   */
  lemma RepackAsWrittenRaises(c: Comb, eos: nat)
    requires CombShape(c, 1, 2)
    ensures var codes := [[ACTIVE, INVALID]];
            && CountsOf(codes, ACTIVE) == [1] && CountsOf(codes, ENDED) == [0]
            && RepackAsWritten(c, codes, 1, 2, [1], 1, 0, eos).Failure?
  {
    var codes := [[ACTIVE, INVALID]];
    assert [ACTIVE, INVALID][..1] == [ACTIVE];
    assert [ACTIVE][..0] == [];
    assert Positions([ACTIVE], ACTIVE) == [0];
    assert Positions([ACTIVE, INVALID], ACTIVE) == [0];
    assert Positions([], ENDED) == [];
    assert Positions([ACTIVE], ENDED) == [];
    assert Positions([ACTIVE, INVALID], ENDED) == [];
    assert ValidCodes(codes[0]);
    assert SumOf([1]) == 1;
  }

  /**
   * On the branch where the source meets `valid is None`, every row is full and
   * nothing ended, so the mask `valid` would be all true: repacking without the
   * mask gives exactly what repacking with it gives. Skipping the masking there,
   * as `Repack` does, is what `valid = None  # not needed` means.
   */
  lemma UnmaskedIsMasked(c: Comb, codes: seq<seq<int>>, batch: nat, width: nat, actW: nat, eos: nat)
    requires CombShape(c, batch, width) && Rect(codes, batch, width) && actW <= width
    requires forall b :: 0 <= b < batch ==> ValidCodes(codes[b]) && Count(codes[b], ACTIVE) == actW
    requires forall b :: 0 <= b < batch ==> Count(codes[b], ENDED) <= 0
    ensures RepackAll(c, codes, batch, width, actW, 0, eos, false) == RepackAll(c, codes, batch, width, actW, 0, eos, true)
  {
    var p, q := RepackAll(c, codes, batch, width, actW, 0, eos, false), RepackAll(c, codes, batch, width, actW, 0, eos, true);
    forall b | 0 <= b < batch
      ensures p.scores[b] == q.scores[b] && p.targets[b] == q.targets[b]
      ensures p.backrefs[b] == q.backrefs[b] && p.lens[b] == q.lens[b]
    {
      LayoutUnique(codes[b], c.scores[b], actW, 0, BAD, p.scores[b], q.scores[b]);
      TargetLayoutUnique(codes[b], c.targets[b], actW, 0, eos, p.targets[b], q.targets[b]);
      LayoutUnique(codes[b], c.backrefs[b], actW, 0, 0, p.backrefs[b], q.backrefs[b]);
      LayoutUnique(codes[b], c.lens[b], actW, 0, 0, p.lens[b], q.lens[b]);
    }
    assert p.scores == q.scores && p.targets == q.targets && p.backrefs == q.backrefs && p.lens == q.lens;
  }

  /** A row has one layout. */
  lemma LayoutUnique<T>(codes: seq<int>, x: seq<T>, actW: nat, endW: nat, fill: T, out: seq<T>, out': seq<T>)
    requires |x| == |codes|
    requires IsLayout(codes, x, actW, endW, fill, out) && IsLayout(codes, x, actW, endW, fill, out')
    ensures out == out'
  {
    forall j | 0 <= j < |out|
      ensures out[j] == out'[j]
    {
      if j < actW {
        assert out[j] == out'[j];
      } else {
        assert out[j] == out'[j];
      }
    }
  }

  /** A row of labels has one layout. */
  lemma TargetLayoutUnique(codes: seq<int>, x: seq<nat>, actW: nat, endW: nat, eos: nat, out: seq<nat>, out': seq<nat>)
    requires |x| == |codes|
    requires IsTargetLayout(codes, x, actW, endW, eos, out) && IsTargetLayout(codes, x, actW, endW, eos, out')
    ensures out == out'
  {
    forall j | 0 <= j < |out|
      ensures out[j] == out'[j]
    {
      if j < actW {
        assert out[j] == out'[j];
      } else {
        assert out[j] == out'[j];
      }
    }
  }

  /** The per-row counts are bounded by their maxima, and all equal them when the rows are `full`. */
  lemma RepackBounds(codes: seq<seq<int>>, batch: nat, width: nat, actCounts: seq<nat>, endCounts: seq<nat>,
                     actW: nat, endW: nat)
    requires Rect(codes, batch, width) && 0 < batch
    requires actCounts == CountsOf(codes, ACTIVE) && endCounts == CountsOf(codes, ENDED)
    requires actW == MaxOf(actCounts) && endW == MaxOf(endCounts)
    ensures actW <= width && endW <= width
    ensures forall b :: 0 <= b < batch ==> Count(codes[b], ACTIVE) <= actW && Count(codes[b], ENDED) <= endW
    ensures SumOf(actCounts) == actW * batch ==> forall b :: 0 <= b < batch ==> Count(codes[b], ACTIVE) == actW
  {
    forall b | 0 <= b < batch ensures Count(codes[b], ACTIVE) + Count(codes[b], ENDED) <= width {
      CountsBounded(codes[b]);
    }
    if SumOf(actCounts) == actW * batch {
      FullRows(actCounts, actW);
    }
  }

  /** Rows whose every slot is active are their own layout. */
  lemma UnchangedIsLayout(c: Comb, codes: seq<seq<int>>, batch: nat, width: nat, eos: nat)
    requires CombShape(c, batch, width) && Rect(codes, batch, width)
    requires forall b :: 0 <= b < batch ==> ValidCodes(codes[b]) && Count(codes[b], ACTIVE) == width
    ensures PackedShape(Packed(c.scores, c.targets, c.backrefs, c.lens), batch, width + 0)
    ensures forall b :: 0 <= b < batch ==>
              && IsLayout(codes[b], c.scores[b], width, 0, BAD, c.scores[b])
              && IsTargetLayout(codes[b], c.targets[b], width, 0, eos, c.targets[b])
              && IsLayout(codes[b], c.backrefs[b], width, 0, 0, c.backrefs[b])
              && IsLayout(codes[b], c.lens[b], width, 0, 0, c.lens[b])
  {
    forall b | 0 <= b < batch
      ensures && IsLayout(codes[b], c.scores[b], width, 0, BAD, c.scores[b])
              && IsTargetLayout(codes[b], c.targets[b], width, 0, eos, c.targets[b])
              && IsLayout(codes[b], c.backrefs[b], width, 0, 0, c.backrefs[b])
              && IsLayout(codes[b], c.lens[b], width, 0, 0, c.lens[b])
    {
      AllActivePositions(codes[b]);
    }
  }

  /** Every field repacked, masked or not. */
  function RepackAll(c: Comb, codes: seq<seq<int>>, batch: nat, width: nat, actW: nat, endW: nat, eos: nat,
                     masked: bool): (p: Packed)
    requires CombShape(c, batch, width) && Rect(codes, batch, width) && actW <= width && endW <= width
    requires forall b :: 0 <= b < batch ==> ValidCodes(codes[b])
    requires forall b :: 0 <= b < batch ==> Count(codes[b], ACTIVE) <= actW && Count(codes[b], ENDED) <= endW
    requires !masked ==> endW == 0 && forall b :: 0 <= b < batch ==> Count(codes[b], ACTIVE) == actW
    ensures PackedShape(p, batch, actW + endW)
    ensures forall b :: 0 <= b < batch ==>
              && IsLayout(codes[b], c.scores[b], actW, endW, BAD, p.scores[b])
              && IsTargetLayout(codes[b], c.targets[b], actW, endW, eos, p.targets[b])
              && IsLayout(codes[b], c.backrefs[b], actW, endW, 0, p.backrefs[b])
              && IsLayout(codes[b], c.lens[b], actW, endW, 0, p.lens[b])
  {
    Packed(RepackRows(codes, c.scores, batch, width, actW, endW, BAD, masked),
           RepackTargetRows(codes, c.targets, batch, width, actW, endW, eos, masked),
           RepackRows(codes, c.backrefs, batch, width, actW, endW, 0, masked),
           RepackRows(codes, c.lens, batch, width, actW, endW, 0, masked))
  }

  // ---------------------------------------------------------------------------
  // Recording a step

  /** The fresh candidates and the carried ended pool, combined, relate to the history as `CombSlotsOk` says. */
  lemma CombinedSlotsOk<S>(vals: seq<seq<real>>, backrefs: seq<seq<nat>>, labels: seq<seq<nat>>,
                           endScores: seq<seq<real>>, endLens: seq<seq<nat>>, h: History<S>,
                           batch: nat, k: nat, actIn: nat, layoutW: nat, endW: nat, i: nat, eos: nat, c: Comb)
    requires LastStepShape(h, batch, i)
    requires Rect(vals, batch, k) && Rect(backrefs, batch, k) && Rect(labels, batch, k)
    requires Rect(endScores, batch, endW) && Rect(endLens, batch, endW)
    requires forall b, j :: 0 <= b < batch && 0 <= j < k ==> backrefs[b][j] < actIn
    requires i == 0 ==> endW == 0
    requires 0 < i ==> actIn <= layoutW && layoutW + endW == h.widths[i - 1]
    requires 0 < i ==> EndedPool(h.targets[i - 1], h.lens[i - 1], endLens, batch, layoutW, endW, eos)
    requires c == Combine(vals, backrefs, labels, endScores, endLens, batch, k, endW, layoutW, i, eos)
    ensures CombShape(c, batch, k + endW) && CombSlotsOk(c, batch, k + endW, h, i, actIn, eos)
  {
    var w := k + endW;
    forall b, j | 0 <= b < batch && 0 <= j < w
      ensures CombSlotOk(c, batch, w, h, i, actIn, eos, b, j)
    {
      if j < k {
        assert !c.carried[b][j] && c.backrefs[b][j] == backrefs[b][j] && c.lens[b][j] == i;
      } else {
        var e := j - k;
        assert c.carried[b][j] && c.targets[b][j] == eos && c.backrefs[b][j] == layoutW + e && c.lens[b][j] == endLens[b][e];
        CarriedSlotOk(c, h, batch, w, i, actIn, layoutW, endW, eos, endLens, b, j, e);
      }
    }
  }

  /** A carried slot points at the ended pool entry it was copied from. */
  lemma CarriedSlotOk<S>(c: Comb, h: History<S>, batch: nat, w: nat, i: nat, actIn: nat, layoutW: nat, endW: nat,
                         eos: nat, endLens: seq<seq<nat>>, b: nat, j: nat, e: nat)
    requires CombShape(c, batch, w) && LastStepShape(h, batch, i) && Rect(endLens, batch, endW)
    requires b < batch && j < w && e < endW
    requires 0 < i && actIn <= layoutW && layoutW + endW == h.widths[i - 1]
    requires EndedPool(h.targets[i - 1], h.lens[i - 1], endLens, batch, layoutW, endW, eos)
    requires c.carried[b][j] && c.targets[b][j] == eos && c.backrefs[b][j] == layoutW + e && c.lens[b][j] == endLens[b][e]
    ensures CombSlotOk(c, batch, w, h, i, actIn, eos, b, j)
  {
    var q := layoutW + e;
    assert h.targets[i - 1][b][q] == eos && h.lens[i - 1][b][q] == endLens[b][q - layoutW];
  }

  /** Pruning keeps a subset of the combined slots, so the slot facts carry over. */
  lemma PrunedSlotsOk<S>(c: Comb, out: Comb, idx: seq<seq<nat>>, h: History<S>, batch: nat, width: nat,
                         outWidth: nat, i: nat, actIn: nat, eos: nat)
    requires LastStepShape(h, batch, i)
    requires CombShape(c, batch, width) && CombSlotsOk(c, batch, width, h, i, actIn, eos)
    requires CombShape(out, batch, outWidth) && Rect(idx, batch, outWidth)
    requires forall b, j :: 0 <= b < batch && 0 <= j < outWidth ==>
               && idx[b][j] < width && out.scores[b][j] == c.scores[b][idx[b][j]]
               && out.targets[b][j] == c.targets[b][idx[b][j]] && out.backrefs[b][j] == c.backrefs[b][idx[b][j]]
               && out.lens[b][j] == c.lens[b][idx[b][j]] && out.carried[b][j] == c.carried[b][idx[b][j]]
    ensures CombSlotsOk(out, batch, outWidth, h, i, actIn, eos)
  {
    forall b, j | 0 <= b < batch && 0 <= j < outWidth
      ensures CombSlotOk(out, batch, outWidth, h, i, actIn, eos, b, j)
    {
      assert CombSlotOk(c, batch, width, h, i, actIn, eos, b, idx[b][j]);
    }
  }

  /**
   * A slot of a packed row is either padding or the combined slot it was gathered
   * from, and in both cases it has the properties `SlotFacts` lists; its backref is
   * a slot of the previous step.
   */
  lemma PackedSlot<S>(c: Comb, codes: seq<seq<int>>, p: Packed, h: History<S>, batch: nat, width: nat, i: nat,
                      actIn: nat, actW: nat, endW: nat, eos: nat, maxSeqLen: seq<int>, b: nat, j: nat)
    requires LastStepShape(h, batch, i) && |maxSeqLen| == batch && 0 < actIn
    requires i == 0 ==> actIn == 1
    requires 0 < i ==> actIn <= h.widths[i - 1]
    requires CombShape(c, batch, width) && CombSlotsOk(c, batch, width, h, i, actIn, eos)
    requires codes == ClassifyAll(c, batch, width, eos, i + 1, maxSeqLen)
    requires PackedShape(p, batch, actW + endW) && b < batch && j < actW + endW
    requires IsLayout(codes[b], c.scores[b], actW, endW, BAD, p.scores[b])
    requires IsTargetLayout(codes[b], c.targets[b], actW, endW, eos, p.targets[b])
    requires IsLayout(codes[b], c.backrefs[b], actW, endW, 0, p.backrefs[b])
    requires IsLayout(codes[b], c.lens[b], actW, endW, 0, p.lens[b])
    ensures SlotFacts(PrevTargets(h, batch, i, b), PrevLens(h, batch, i, b), i, actW, actIn, eos,
                      j, p.scores[b][j], p.targets[b][j], p.backrefs[b][j], p.lens[b][j])
    ensures p.backrefs[b][j] < if i == 0 then 1 else h.widths[i - 1]
  {
    if j < actW {
      if j < Count(codes[b], ACTIVE) {
        var pos := Positions(codes[b], ACTIVE)[j];
        assert codes[b][pos] == ACTIVE;
        assert CombSlotOk(c, batch, width, h, i, actIn, eos, b, pos);
        assert codes[b][pos] == ClassifySlot(c.scores[b][pos], c.targets[b][pos], c.carried[b][pos], eos, i + 1, maxSeqLen[b]);
        assert p.scores[b][j] == c.scores[b][pos] && p.targets[b][j] == c.targets[b][pos];
        assert p.backrefs[b][j] == c.backrefs[b][pos] && p.lens[b][j] == c.lens[b][pos];
      }
    } else {
      assert p.targets[b][j] == eos;
      if j - actW < Count(codes[b], ENDED) {
        var pos := Positions(codes[b], ENDED)[j - actW];
        assert codes[b][pos] == ENDED;
        assert CombSlotOk(c, batch, width, h, i, actIn, eos, b, pos);
        assert codes[b][pos] == ClassifySlot(c.scores[b][pos], c.targets[b][pos], c.carried[b][pos], eos, i + 1, maxSeqLen[b]);
        assert p.scores[b][j] == c.scores[b][pos];
        assert p.backrefs[b][j] == c.backrefs[b][pos] && p.lens[b][j] == c.lens[b][pos];
      } else {
        assert p.scores[b][j] == BAD && p.backrefs[b][j] == 0 && p.lens[b][j] == 0;
      }
    }
  }

  lemma AppendWellFormed(targets: seq<seq<seq<nat>>>, backrefs: seq<seq<seq<nat>>>, widths: seq<nat>, batch: nat,
                         newTargets: seq<seq<nat>>, newBackrefs: seq<seq<nat>>, width: nat)
    requires WellFormed(targets, backrefs, widths, batch)
    requires Rect(newTargets, batch, width) && Rect(newBackrefs, batch, width)
    requires forall b, j :: 0 <= b < batch && 0 <= j < width ==>
               newBackrefs[b][j] < if |backrefs| == 0 then 1 else widths[|widths| - 1]
    ensures WellFormed(targets + [newTargets], backrefs + [newBackrefs], widths + [width], batch)
  {
    var n := |backrefs|;
    var ts, bs, ws := targets + [newTargets], backrefs + [newBackrefs], widths + [width];
    forall t | 0 <= t < n ensures ts[t] == targets[t] && bs[t] == backrefs[t] && ws[t] == widths[t] {
    }
    forall t, b, j | 0 <= t <= n && 0 <= b < batch && 0 <= j < ws[t]
      ensures bs[t][b][j] < if t == 0 then 1 else ws[t - 1]
    {
      if 0 < t {
        assert ws[t - 1] == widths[t - 1];
      }
    }
  }

  lemma AppendFieldsShape<S>(h: History<S>, p: Packed, states: seq<seq<S>>, batch: nat,
                             actIn: nat, actW: nat, width: nat)
    requires FieldsShape(h, batch) && PackedShape(p, batch, width) && Rect(states, batch, actIn)
    ensures FieldsShape(AppendStep(h, p, states, actW, actIn, width), batch)
  {
    var h' := AppendStep(h, p, states, actW, actIn, width);
    var n := |h.targets|;
    forall t | 0 <= t < n
      ensures h'.lens[t] == h.lens[t] && h'.scores[t] == h.scores[t] && h'.states[t] == h.states[t]
      ensures h'.widths[t] == h.widths[t] && h'.inActWidths[t] == h.inActWidths[t]
    {
    }
  }

  lemma AppendWidthsOk<S>(h: History<S>, p: Packed, states: seq<seq<S>>, actIn: nat, actW: nat, width: nat)
    requires WidthsOk(h) && actW <= width && 0 < actIn
    requires |h.widths| == 0 ==> actIn == 1
    requires 0 < |h.widths| ==> actIn <= h.actWidths[|h.widths| - 1]
    ensures WidthsOk(AppendStep(h, p, states, actW, actIn, width))
  {
    var h' := AppendStep(h, p, states, actW, actIn, width);
    var n := |h.widths|;
    assert |h'.widths| == n + 1 && |h'.actWidths| == n + 1 && |h'.inActWidths| == n + 1;
    forall t | 0 <= t <= n
      ensures h'.actWidths[t] <= h'.widths[t]
    {
      if t < n {
        assert h'.actWidths[t] == h.actWidths[t] && h'.widths[t] == h.widths[t];
      }
    }
    forall t | 0 <= t <= n
      ensures 0 < h'.inActWidths[t]
    {
      if t < n {
        assert h'.inActWidths[t] == h.inActWidths[t];
      }
    }
    forall t | 0 < t <= n
      ensures h'.inActWidths[t] <= h'.actWidths[t - 1]
    {
      assert h'.actWidths[t - 1] == h.actWidths[t - 1];
      if t < n {
        assert h'.inActWidths[t] == h.inActWidths[t];
      }
    }
    if n > 0 {
      assert h'.inActWidths[0] == h.inActWidths[0];
    }
  }

  /** The history with one more step appended keeps its shape. */
  lemma AppendKeepsShape<S>(h: History<S>, p: Packed, states: seq<seq<S>>, batch: nat, i: nat,
                            actIn: nat, actW: nat, width: nat, h': History<S>)
    requires HistoryShape(h, batch) && |h.targets| == i
    requires PackedShape(p, batch, width) && Rect(states, batch, actIn) && actW <= width && 0 < actIn
    requires i == 0 ==> actIn == 1
    requires 0 < i ==> actIn <= h.actWidths[i - 1]
    requires forall b, j :: 0 <= b < batch && 0 <= j < width ==>
               p.backrefs[b][j] < if i == 0 then 1 else h.widths[i - 1]
    requires h' == AppendStep(h, p, states, actW, actIn, width)
    ensures HistoryShape(h', batch) && IsPrefix(h, h')
  {
    AppendWellFormed(h.targets, h.backrefs, h.widths, batch, p.targets, p.backrefs, width);
    AppendFieldsShape(h, p, states, batch, actIn, actW, width);
    AppendWidthsOk(h, p, states, actIn, actW, width);
  }

  /** Every slot of a repacked step has the properties `SlotFacts` lists. */
  lemma PackedSlots<S>(c: Comb, codes: seq<seq<int>>, p: Packed, h: History<S>, batch: nat, width: nat, i: nat,
                       actIn: nat, actW: nat, endW: nat, eos: nat, maxSeqLen: seq<int>)
    requires LastStepShape(h, batch, i) && |maxSeqLen| == batch && 0 < actIn
    requires i == 0 ==> actIn == 1
    requires 0 < i ==> actIn <= h.widths[i - 1]
    requires CombShape(c, batch, width) && CombSlotsOk(c, batch, width, h, i, actIn, eos)
    requires codes == ClassifyAll(c, batch, width, eos, i + 1, maxSeqLen)
    requires PackedShape(p, batch, actW + endW)
    requires forall b :: 0 <= b < batch ==>
               && IsLayout(codes[b], c.scores[b], actW, endW, BAD, p.scores[b])
               && IsTargetLayout(codes[b], c.targets[b], actW, endW, eos, p.targets[b])
               && IsLayout(codes[b], c.backrefs[b], actW, endW, 0, p.backrefs[b])
               && IsLayout(codes[b], c.lens[b], actW, endW, 0, p.lens[b])
    ensures NewSlots(p, h, batch, i, actIn, actW, actW + endW, eos)
  {
    forall b, j | 0 <= b < batch && 0 <= j < actW + endW
      ensures SlotFacts(PrevTargets(h, batch, i, b), PrevLens(h, batch, i, b), i, actW, actIn, eos,
                        j, p.scores[b][j], p.targets[b][j], p.backrefs[b][j], p.lens[b][j])
      ensures p.backrefs[b][j] < if i == 0 then 1 else h.widths[i - 1]
    {
      PackedSlot(c, codes, p, h, batch, width, i, actIn, actW, endW, eos, maxSeqLen, b, j);
    }
  }

  /**
   * Recording a repacked step: the history keeps its shape, and the new step (like
   * every earlier one) has the slot properties and scorer states the invariant states.
   */
  lemma RecordPacked<S>(p: Packed, h: History<S>, scorer: Scorer<S>, batch: nat, i: nat, actIn: nat, actW: nat,
                        endW: nat, eos: nat, bos: nat, states: seq<seq<S>>, h': History<S>)
    requires HistoryShape(h, batch) && LastStepShape(h, batch, i) && 0 < actIn
    requires Recorded(h, scorer, batch, bos, eos, i)
    requires i == 0 ==> actIn == 1
    requires 0 < i ==> actIn <= h.actWidths[i - 1]
    requires PackedShape(p, batch, actW + endW)
    requires NewSlots(p, h, batch, i, actIn, actW, actW + endW, eos)
    requires Rect(states, batch, actIn) && FedStates(h, scorer, batch, bos, i, actIn, states)
    requires h' == AppendStep(h, p, states, actW, actIn, actW + endW)
    ensures HistoryShape(h', batch) && IsPrefix(h, h')
    ensures Recorded(h', scorer, batch, bos, eos, i + 1)
  {
    AppendKeepsShape(h, p, states, batch, i, actIn, actW, actW + endW, h');
    NewStepPacked(p, h, batch, i, actIn, actW, endW, eos, states, h');
    NewStepStates(h, scorer, batch, bos, i, actIn, states, h');
    PrefixKeepsAll(h, h', scorer, batch, bos, eos);
    RecordedAppend(h', scorer, batch, bos, eos, i);
  }

  lemma RecordedAppend<S>(h: History<S>, scorer: Scorer<S>, batch: nat, bos: nat, eos: nat, n: nat)
    requires HistoryShape(h, batch) && n < |h.targets| && Recorded(h, scorer, batch, bos, eos, n)
    requires PackedOk(h, batch, eos, n) && StatesOk(h, scorer, batch, bos, n)
    ensures Recorded(h, scorer, batch, bos, eos, n + 1)
  {
  }

  lemma PrefixKeepsAll<S>(h: History<S>, h': History<S>, scorer: Scorer<S>, batch: nat, bos: nat, eos: nat)
    requires HistoryShape(h, batch) && HistoryShape(h', batch) && IsPrefix(h, h')
    requires Recorded(h, scorer, batch, bos, eos, |h.targets|)
    ensures |h.targets| <= |h'.targets| && Recorded(h', scorer, batch, bos, eos, |h.targets|)
  {
    forall t | 0 <= t < |h.targets|
      ensures PackedOk(h', batch, eos, t) && StatesOk(h', scorer, batch, bos, t)
    {
      PrefixKeepsSteps(h, h', scorer, batch, bos, eos, t);
    }
  }

  /** The slots of the appended step have the properties `SlotFacts` lists. */
  lemma NewStepPacked<S>(p: Packed, h: History<S>, batch: nat, i: nat, actIn: nat, actW: nat, endW: nat, eos: nat,
                         states: seq<seq<S>>, h': History<S>)
    requires HistoryShape(h, batch) && |h.targets| == i && PackedShape(p, batch, actW + endW)
    requires h' == AppendStep(h, p, states, actW, actIn, actW + endW) && HistoryShape(h', batch)
    requires NewSlots(p, h, batch, i, actIn, actW, actW + endW, eos)
    ensures PackedOk(h', batch, eos, i)
  {
    forall b, j | 0 <= b < batch && 0 <= j < actW + endW
      ensures SlotOk(h', batch, eos, i, b, j)
    {
      assert PrevTargets(h, batch, i, b) == PrevTargets(h', batch, i, b);
      assert PrevLens(h, batch, i, b) == PrevLens(h', batch, i, b);
    }
  }

  /** The scorer states of the appended step are the initial states fed with their chains. */
  lemma NewStepStates<S>(h: History<S>, scorer: Scorer<S>, batch: nat, bos: nat, i: nat, actIn: nat,
                         states: seq<seq<S>>, h': History<S>)
    requires HistoryShape(h, batch) && HistoryShape(h', batch) && IsPrefix(h, h') && |h.targets| == i
    requires |h'.targets| == i + 1 && h'.states[i] == states && h'.inActWidths[i] == actIn
    requires Rect(states, batch, actIn) && (0 < i ==> actIn <= h.widths[i - 1])
    requires FedStates(h, scorer, batch, bos, i, actIn, states)
    ensures StatesOk(h', scorer, batch, bos, i)
  {
    forall b, j | 0 <= b < batch && 0 <= j < actIn
      ensures h'.states[i][b][j] == Feed(scorer.update, scorer.initial(b), Fed(h', batch, bos, i, b, j))
    {
      if 0 < i {
        ChainLabelsPrefix(h.targets, h.backrefs, h.widths, h'.targets, h'.backrefs, h'.widths, batch, b, j, i - 1);
      }
    }
  }

  /**
   * The scorer states gathered through the backrefs of the new active beam are the
   * initial states fed with the labels of the new chains.
   */
  lemma GatheredStatesOk<S>(h: History<S>, h': History<S>, scorer: Scorer<S>, batch: nat, bos: nat, i: nat,
                            actIn: nat, states: seq<seq<S>>, inTargets: seq<seq<nat>>, newState: seq<seq<S>>,
                            nextW: nat, gathered: seq<seq<S>>)
    requires HistoryShape(h, batch) && HistoryShape(h', batch) && IsPrefix(h, h')
    requires |h.targets| == i && |h'.targets| == i + 1 && h'.inActWidths[i] == actIn && nextW <= h'.actWidths[i]
    requires Rect(states, batch, actIn) && Rect(inTargets, batch, actIn) && Rect(newState, batch, actIn)
    requires (0 < i ==> actIn <= h.widths[i - 1]) && FedStates(h, scorer, batch, bos, i, actIn, states)
    requires forall b, j :: 0 <= b < batch && 0 <= j < actIn ==>
               && inTargets[b][j] == (if i == 0 then bos else h.targets[i - 1][b][j])
               && newState[b][j] == scorer.update(states[b][j], inTargets[b][j])
    requires forall b, j :: 0 <= b < batch && 0 <= j < nextW ==> h'.backrefs[i][b][j] < actIn
    requires Rect(gathered, batch, nextW)
    requires forall b, j :: 0 <= b < batch && 0 <= j < nextW ==> gathered[b][j] == newState[b][h'.backrefs[i][b][j]]
    ensures forall b, j :: 0 <= b < batch && 0 <= j < nextW ==>
              gathered[b][j] == Feed(scorer.update, scorer.initial(b), Fed(h', batch, bos, i + 1, b, j))
  {
    forall b, j | 0 <= b < batch && 0 <= j < nextW
      ensures gathered[b][j] == Feed(scorer.update, scorer.initial(b), Fed(h', batch, bos, i + 1, b, j))
    {
      var br := h'.backrefs[i][b][j];
      FedStep(h, h', batch, bos, i, b, j);
      var fed := Fed(h, batch, bos, i, b, br);
      var fed' := fed + [inTargets[b][br]];
      assert fed'[..|fed'| - 1] == fed;
    }
  }

  /** The active backrefs of a packed step point into the active input beam. */
  lemma ActiveBackrefs<S>(h: History<S>, batch: nat, eos: nat, t: nat)
    requires HistoryShape(h, batch) && t < |h.targets| && PackedOk(h, batch, eos, t)
    ensures forall b, j :: 0 <= b < batch && 0 <= j < h.actWidths[t] ==> h.backrefs[t][b][j] < h.inActWidths[t]
  {
    forall b, j | 0 <= b < batch && 0 <= j < h.actWidths[t]
      ensures h.backrefs[t][b][j] < h.inActWidths[t]
    {
      assert SlotOk(h, batch, eos, t, b, j);
    }
  }

  lemma MulAtLeast(a: nat, v: nat)
    requires 0 < a
    ensures v <= a * v
  {
  }

  // ---------------------------------------------------------------------------
  // What a step computes

  /** The intermediate results of one step: the combined row, the pruned row, its width and the combined slots the pruning kept. */
  datatype StepWork = StepWork(comb: Comb, pruned: Comb, width: nat, idx: seq<seq<nat>>)

  /**
   * The combined row of a step: its first `beam_size` slots are a top-k over every
   * (input slot, label) pair of the extended scores of the active input beam (score,
   * backref, label); the rest is the ended pool, carried with its scores and with
   * backrefs `layoutW + j`.
   */
  ghost predicate ExtendedOk<S(!new)>(scorer: Scorer<S>, batch: nat, opts: SepEndedOpts, actW: nat, layoutW: nat,
                                      endW: nat, actState: seq<seq<S>>, actTarget: seq<seq<nat>>,
                                      actScores: seq<seq<real>>, endScores: seq<seq<real>>, comb: Comb)
    requires ScoresAllLabels(scorer, opts.numLabels)
    requires Rect(actState, batch, actW) && Rect(actTarget, batch, actW) && Rect(actScores, batch, actW)
    requires Rect(endScores, batch, endW)
  {
    var k := opts.beamSize;
    var ext := ExtendActive(scorer, actScores, actState, actTarget, UpdateAll(scorer, actState, actTarget, batch, actW),
                            batch, actW, opts.numLabels);
    && CombShape(comb, batch, k + endW)
    && (forall b :: 0 <= b < batch ==>
          IsTopKNd(ext[b], opts.numLabels, k, comb.scores[b][..k], comb.backrefs[b][..k], comb.targets[b][..k]))
    && (forall b, j :: 0 <= b < batch && 0 <= j < k ==> !comb.carried[b][j])
    && (forall b, j :: 0 <= b < batch && k <= j < k + endW ==>
          && comb.carried[b][j] && comb.scores[b][j] == endScores[b][j - k]
          && comb.backrefs[b][j] == layoutW + (j - k))
  }

  /**
   * The pruned row: when the combined row is wider than `beam_and_ended_size > 0`, a
   * top-k of its scores (`idx` are the kept slots), with every other field gathered
   * through `idx`; otherwise the combined row itself.
   */
  ghost predicate PrunedOk(comb: Comb, batch: nat, combW: nat, limit: nat, pruned: Comb, width: nat,
                           idx: seq<seq<nat>>)
    requires CombShape(comb, batch, combW)
  {
    && width == (if combW > limit > 0 then limit else combW)
    && CombShape(pruned, batch, width) && Rect(idx, batch, width)
    && (combW > limit > 0 ==> forall b :: 0 <= b < batch ==> IsTopK(comb.scores[b], limit, pruned.scores[b], idx[b]))
    && (!(combW > limit > 0) ==> pruned == comb)
    && forall b, j :: 0 <= b < batch && 0 <= j < width ==>
         && idx[b][j] < combW && pruned.scores[b][j] == comb.scores[b][idx[b][j]]
         && pruned.targets[b][j] == comb.targets[b][idx[b][j]] && pruned.backrefs[b][j] == comb.backrefs[b][idx[b][j]]
         && pruned.lens[b][j] == comb.lens[b][idx[b][j]] && pruned.carried[b][j] == comb.carried[b][idx[b][j]]
  }

  /**
   * The packed step `p` as the step computes it from its inputs, through the
   * intermediate results `w`: the combined row is `ExtendedOk`, the pruned row is
   * `PrunedOk`, and `p` lays the pruned row out by the classes of its slots, with the
   * widths the largest active and ended counts give.
   */
  ghost predicate PackedFrom<S(!new)>(scorer: Scorer<S>, batch: nat, maxSeqLen: seq<int>, opts: SepEndedOpts, i: nat,
                                        actW: nat, layoutW: nat, endW: nat, actState: seq<seq<S>>,
                                        actTarget: seq<seq<nat>>, actScores: seq<seq<real>>,
                                        endScores: seq<seq<real>>, w: StepWork, p: Packed, nextActW: nat,
                                        nextEndW: nat)
    requires |maxSeqLen| == batch && 0 < batch && ScoresAllLabels(scorer, opts.numLabels)
    requires Rect(actState, batch, actW) && Rect(actTarget, batch, actW) && Rect(actScores, batch, actW)
    requires Rect(endScores, batch, endW)
  {
    && ExtendedOk(scorer, batch, opts, actW, layoutW, endW, actState, actTarget, actScores, endScores, w.comb)
    && PrunedOk(w.comb, batch, opts.beamSize + endW, opts.beamAndEndedSize, w.pruned, w.width, w.idx)
    && var codes := ClassifyAll(w.pruned, batch, w.width, opts.eosLabel, i + 1, maxSeqLen);
       && nextActW == MaxOf(CountsOf(codes, ACTIVE)) && nextEndW == MaxOf(CountsOf(codes, ENDED))
       && LaidOut(w.pruned, codes, batch, w.width, nextActW, nextEndW, opts.eosLabel, p)
  }

  /** The log-probabilities of the labels after a hypothesis in state `st` whose last label is `prev`. */
  function LabelLogProbs<S(!new)>(scorer: Scorer<S>, numLabels: nat, st: S, prev: nat): (r: seq<real>)
    requires ScoresAllLabels(scorer, numLabels)
    ensures |r| == numLabels
  {
    scorer.score(st, prev, scorer.update(st, prev))
  }

  /**
   * A valid slot of a computed step, traced back to the combined slot it came from:
   * the pruned slot `pos`, the combined slot `r` behind it.
   */
  lemma SlotOrigin<S(!new)>(scorer: Scorer<S>, batch: nat, maxSeqLen: seq<int>, opts: SepEndedOpts, i: nat,
                            actW: nat, layoutW: nat, endW: nat, actState: seq<seq<S>>, actTarget: seq<seq<nat>>,
                            actScores: seq<seq<real>>, endScores: seq<seq<real>>, w: StepWork, p: Packed,
                            nextActW: nat, nextEndW: nat, b: nat, j: nat)
    returns (pos: nat, r: nat)
    requires |maxSeqLen| == batch && 0 < batch && ScoresAllLabels(scorer, opts.numLabels)
    requires Rect(actState, batch, actW) && Rect(actTarget, batch, actW) && Rect(actScores, batch, actW)
    requires Rect(endScores, batch, endW)
    requires PackedFrom(scorer, batch, maxSeqLen, opts, i, actW, layoutW, endW, actState, actTarget, actScores,
                          endScores, w, p, nextActW, nextEndW)
    requires b < batch && j < nextActW + nextEndW && p.scores[b][j] > BAD
    ensures pos < w.width && r == w.idx[b][pos] && r < opts.beamSize + endW
    ensures p.scores[b][j] == w.comb.scores[b][r] && p.backrefs[b][j] == w.comb.backrefs[b][r]
    ensures j < nextActW ==> p.targets[b][j] == w.comb.targets[b][r] && !w.comb.carried[b][r]
  {
    var codes := ClassifyAll(w.pruned, batch, w.width, opts.eosLabel, i + 1, maxSeqLen);
    pos := LaidOutSlot(w.pruned, codes, batch, w.width, nextActW, nextEndW, opts.eosLabel, p, b, j);
    r := w.idx[b][pos];
  }

  /** A valid slot of a laid-out row is the slot `pos` of the source row it was gathered from, of the class of its part. */
  lemma LaidOutSlot(c: Comb, codes: seq<seq<int>>, batch: nat, width: nat, actW: nat, endW: nat, eos: nat, p: Packed,
                    b: nat, j: nat)
    returns (pos: nat)
    requires CombShape(c, batch, width) && Rect(codes, batch, width)
    requires LaidOut(c, codes, batch, width, actW, endW, eos, p)
    requires b < batch && j < actW + endW && p.scores[b][j] > BAD
    ensures pos < width && p.scores[b][j] == c.scores[b][pos] && p.backrefs[b][j] == c.backrefs[b][pos]
    ensures j < actW ==> codes[b][pos] == ACTIVE && p.targets[b][j] == c.targets[b][pos]
    ensures actW <= j ==> codes[b][pos] == ENDED
  {
    assert IsLayout(codes[b], c.scores[b], actW, endW, BAD, p.scores[b]);
    assert IsLayout(codes[b], c.backrefs[b], actW, endW, 0, p.backrefs[b]);
    if j < actW {
      assert j < Count(codes[b], ACTIVE);
      pos := Positions(codes[b], ACTIVE)[j];
      assert IsTargetLayout(codes[b], c.targets[b], actW, endW, eos, p.targets[b]);
    } else {
      assert j - actW < Count(codes[b], ENDED);
      pos := Positions(codes[b], ENDED)[j - actW];
    }
  }

  /**
   * A valid slot of the active part of a computed step is a fresh extension: its
   * backref `q` is a slot of the active input beam, and its score is the input score
   * of `q` plus the log-probability of its label in the state reached from `q`.
   */
  lemma ActiveSlotScore<S(!new)>(scorer: Scorer<S>, batch: nat, maxSeqLen: seq<int>, opts: SepEndedOpts, i: nat,
                                 actW: nat, layoutW: nat, endW: nat, actState: seq<seq<S>>, actTarget: seq<seq<nat>>,
                                 actScores: seq<seq<real>>, endScores: seq<seq<real>>, w: StepWork, p: Packed,
                                 nextActW: nat, nextEndW: nat, b: nat, j: nat)
    requires |maxSeqLen| == batch && 0 < batch && ScoresAllLabels(scorer, opts.numLabels)
    requires Rect(actState, batch, actW) && Rect(actTarget, batch, actW) && Rect(actScores, batch, actW)
    requires Rect(endScores, batch, endW)
    requires PackedFrom(scorer, batch, maxSeqLen, opts, i, actW, layoutW, endW, actState, actTarget, actScores,
                          endScores, w, p, nextActW, nextEndW) == true
    requires b < batch && j < nextActW && p.scores[b][j] > BAD
    ensures var q := p.backrefs[b][j];
            && q < actW && p.targets[b][j] < opts.numLabels
            && p.scores[b][j] == actScores[b][q] + LabelLogProbs(scorer, opts.numLabels, actState[b][q], actTarget[b][q])[p.targets[b][j]]
  {
    var pos, r := SlotOrigin(scorer, batch, maxSeqLen, opts, i, actW, layoutW, endW, actState, actTarget, actScores,
                             endScores, w, p, nextActW, nextEndW, b, j);
    FreshSlotScore(scorer, batch, opts, actW, layoutW, endW, actState, actTarget, actScores, endScores, w.comb, b, r);
  }

  /**
   * A valid slot of the ended part of a computed step is either a fresh extension of
   * a slot `q` of the active input beam, scoring its input score plus the
   * log-probability of a label `v` (the layout keeps `eos` in place of the label), or a
   * carried entry `q - layoutW` of the ended pool, scoring what the pool gave it.
   */
  lemma EndedSlotScore<S(!new)>(scorer: Scorer<S>, batch: nat, maxSeqLen: seq<int>, opts: SepEndedOpts, i: nat,
                                actW: nat, layoutW: nat, endW: nat, actState: seq<seq<S>>, actTarget: seq<seq<nat>>,
                                actScores: seq<seq<real>>, endScores: seq<seq<real>>, w: StepWork, p: Packed,
                                nextActW: nat, nextEndW: nat, b: nat, j: nat)
    returns (v: nat)
    requires |maxSeqLen| == batch && 0 < batch && ScoresAllLabels(scorer, opts.numLabels)
    requires Rect(actState, batch, actW) && Rect(actTarget, batch, actW) && Rect(actScores, batch, actW)
    requires Rect(endScores, batch, endW) && (actW <= layoutW || endW == 0)
    requires PackedFrom(scorer, batch, maxSeqLen, opts, i, actW, layoutW, endW, actState, actTarget, actScores,
                          endScores, w, p, nextActW, nextEndW) == true
    requires b < batch && nextActW <= j < nextActW + nextEndW && p.scores[b][j] > BAD
    ensures var q := p.backrefs[b][j];
            && (q < actW ==>
                  v < opts.numLabels
                  && p.scores[b][j] == actScores[b][q] + LabelLogProbs(scorer, opts.numLabels, actState[b][q], actTarget[b][q])[v])
            && (actW <= q ==> layoutW <= q < layoutW + endW && p.scores[b][j] == endScores[b][q - layoutW])
  {
    var pos, r := SlotOrigin(scorer, batch, maxSeqLen, opts, i, actW, layoutW, endW, actState, actTarget, actScores,
                             endScores, w, p, nextActW, nextEndW, b, j);
    var q := p.backrefs[b][j];
    v := 0;
    if r < opts.beamSize {
      FreshSlotScore(scorer, batch, opts, actW, layoutW, endW, actState, actTarget, actScores, endScores, w.comb, b, r);
      v := w.comb.targets[b][r];
    } else {
      CarriedSlotScore(scorer, batch, opts, actW, layoutW, endW, actState, actTarget, actScores, endScores, w.comb, b, r);
      assert actW <= q && q - layoutW == r - opts.beamSize;
    }
  }

  /** A carried combined slot points at its ended pool entry through `layoutW` and scores what the pool gave it. */
  lemma CarriedSlotScore<S(!new)>(scorer: Scorer<S>, batch: nat, opts: SepEndedOpts, actW: nat, layoutW: nat,
                                  endW: nat, actState: seq<seq<S>>, actTarget: seq<seq<nat>>,
                                  actScores: seq<seq<real>>, endScores: seq<seq<real>>, comb: Comb, b: nat, r: nat)
    requires ScoresAllLabels(scorer, opts.numLabels)
    requires Rect(actState, batch, actW) && Rect(actTarget, batch, actW) && Rect(actScores, batch, actW)
    requires Rect(endScores, batch, endW)
    requires ExtendedOk(scorer, batch, opts, actW, layoutW, endW, actState, actTarget, actScores, endScores, comb)
    requires b < batch && opts.beamSize <= r < opts.beamSize + endW
    ensures comb.backrefs[b][r] == layoutW + (r - opts.beamSize)
    ensures comb.scores[b][r] == endScores[b][r - opts.beamSize]
  {
  }

  /** A fresh combined slot scores the input score of its backref plus the log-probability of its label. */
  lemma FreshSlotScore<S(!new)>(scorer: Scorer<S>, batch: nat, opts: SepEndedOpts, actW: nat, layoutW: nat,
                                endW: nat, actState: seq<seq<S>>, actTarget: seq<seq<nat>>,
                                actScores: seq<seq<real>>, endScores: seq<seq<real>>, comb: Comb, b: nat, r: nat)
    requires ScoresAllLabels(scorer, opts.numLabels)
    requires Rect(actState, batch, actW) && Rect(actTarget, batch, actW) && Rect(actScores, batch, actW)
    requires Rect(endScores, batch, endW)
    requires ExtendedOk(scorer, batch, opts, actW, layoutW, endW, actState, actTarget, actScores, endScores, comb)
    requires b < batch && r < opts.beamSize
    ensures var q := comb.backrefs[b][r];
            && q < actW && comb.targets[b][r] < opts.numLabels
            && comb.scores[b][r] == actScores[b][q] + LabelLogProbs(scorer, opts.numLabels, actState[b][q], actTarget[b][q])[comb.targets[b][r]]
  {
    var k := opts.beamSize;
    var newState := UpdateAll(scorer, actState, actTarget, batch, actW);
    var ext := ExtendActive(scorer, actScores, actState, actTarget, newState, batch, actW, opts.numLabels);
    assert IsTopKNd(ext[b], opts.numLabels, k, comb.scores[b][..k], comb.backrefs[b][..k], comb.targets[b][..k]);
    var q, v := comb.backrefs[b][r], comb.targets[b][r];
    assert comb.backrefs[b][..k][r] == q && comb.targets[b][..k][r] == v;
    assert comb.scores[b][r] == ext[b][q][v];
  }

  /**
   * The candidates of one step: extend the active beam by every label, keep the best
   * `beam_size`, append the ended pool (carried with backrefs `layoutW + j`, where
   * `layoutW` is the active width of the previous packed step) and prune the
   * combined row to `beam_and_ended_size`.
   */
  method Candidates<S(!new)>(scorer: Scorer<S>, batch: nat, opts: SepEndedOpts, i: nat,
                             actW: nat, layoutW: nat, endW: nat, actState: seq<seq<S>>, actTarget: seq<seq<nat>>,
                             actScores: seq<seq<real>>, endScores: seq<seq<real>>, endLens: seq<seq<nat>>,
                             ghost h: History<S>)
    returns (newState: seq<seq<S>>, pruned: Comb, width: nat, comb: Comb, ghost idx: seq<seq<nat>>)
    requires 0 < opts.numLabels && opts.beamSize <= opts.numLabels && ScoresAllLabels(scorer, opts.numLabels)
    requires LastStepShape(h, batch, i)
    requires 0 < actW && Rect(actState, batch, actW) && Rect(actTarget, batch, actW) && Rect(actScores, batch, actW)
    requires Rect(endScores, batch, endW) && Rect(endLens, batch, endW)
    requires i == 0 ==> endW == 0
    requires 0 < i ==> actW <= layoutW && layoutW + endW == h.widths[i - 1]
    requires 0 < i ==> EndedPool(h.targets[i - 1], h.lens[i - 1], endLens, batch, layoutW, endW, opts.eosLabel)
    ensures Rect(newState, batch, actW)
    ensures forall b, j :: 0 <= b < batch && 0 <= j < actW ==> newState[b][j] == scorer.update(actState[b][j], actTarget[b][j])
    ensures width == if opts.beamSize + endW > opts.beamAndEndedSize > 0 then opts.beamAndEndedSize else opts.beamSize + endW
    ensures CombShape(pruned, batch, width) && CombSlotsOk(pruned, batch, width, h, i, actW, opts.eosLabel)
    ensures ExtendedOk(scorer, batch, opts, actW, layoutW, endW, actState, actTarget, actScores, endScores, comb)
    ensures PrunedOk(comb, batch, opts.beamSize + endW, opts.beamAndEndedSize, pruned, width, idx)
  {
    newState, comb := Extended(scorer, batch, opts, i, actW, layoutW, endW, actState, actTarget, actScores,
                               endScores, endLens, h);
    pruned, width, idx := Prune(comb, batch, opts.beamSize + endW, opts.beamAndEndedSize);
    PrunedSlotsOk(comb, pruned, idx, h, batch, opts.beamSize + endW, width, i, actW, opts.eosLabel);
  }

  /** The fresh top `beam_size` candidates followed by the carried ended pool, before pruning. */
  method Extended<S(!new)>(scorer: Scorer<S>, batch: nat, opts: SepEndedOpts, i: nat,
                           actW: nat, layoutW: nat, endW: nat, actState: seq<seq<S>>, actTarget: seq<seq<nat>>,
                           actScores: seq<seq<real>>, endScores: seq<seq<real>>, endLens: seq<seq<nat>>,
                           ghost h: History<S>)
    returns (newState: seq<seq<S>>, comb: Comb)
    requires 0 < opts.numLabels && opts.beamSize <= opts.numLabels && ScoresAllLabels(scorer, opts.numLabels)
    requires LastStepShape(h, batch, i)
    requires 0 < actW && Rect(actState, batch, actW) && Rect(actTarget, batch, actW) && Rect(actScores, batch, actW)
    requires Rect(endScores, batch, endW) && Rect(endLens, batch, endW)
    requires i == 0 ==> endW == 0
    requires 0 < i ==> actW <= layoutW && layoutW + endW == h.widths[i - 1]
    requires 0 < i ==> EndedPool(h.targets[i - 1], h.lens[i - 1], endLens, batch, layoutW, endW, opts.eosLabel)
    ensures Rect(newState, batch, actW)
    ensures forall b, j :: 0 <= b < batch && 0 <= j < actW ==> newState[b][j] == scorer.update(actState[b][j], actTarget[b][j])
    ensures CombShape(comb, batch, opts.beamSize + endW)
    ensures CombSlotsOk(comb, batch, opts.beamSize + endW, h, i, actW, opts.eosLabel)
    ensures ExtendedOk(scorer, batch, opts, actW, layoutW, endW, actState, actTarget, actScores, endScores, comb)
  {
    var k := opts.beamSize;
    newState := UpdateAll(scorer, actState, actTarget, batch, actW);
    var vals, backrefs, labels := FreshCandidates(scorer, batch, opts, actW, actState, actTarget, actScores, newState);
    comb := CombineChecked(vals, backrefs, labels, endScores, endLens, h, batch, k, actW, layoutW, endW, i, opts.eosLabel);
    CombinedIsExtended(scorer, batch, opts, actW, layoutW, endW, actState, actTarget, actScores, endScores,
                       vals, backrefs, labels, comb);
  }

  /** The fresh top-k candidates followed by the carried ended pool form a row that is `ExtendedOk`. */
  lemma CombinedIsExtended<S(!new)>(scorer: Scorer<S>, batch: nat, opts: SepEndedOpts, actW: nat, layoutW: nat,
                                    endW: nat, actState: seq<seq<S>>, actTarget: seq<seq<nat>>,
                                    actScores: seq<seq<real>>, endScores: seq<seq<real>>, vals: seq<seq<real>>,
                                    backrefs: seq<seq<nat>>, labels: seq<seq<nat>>, comb: Comb)
    requires ScoresAllLabels(scorer, opts.numLabels)
    requires Rect(actState, batch, actW) && Rect(actTarget, batch, actW) && Rect(actScores, batch, actW)
    requires Rect(endScores, batch, endW)
    requires Rect(vals, batch, opts.beamSize) && Rect(backrefs, batch, opts.beamSize) && Rect(labels, batch, opts.beamSize)
    requires forall b :: 0 <= b < batch ==>
               IsTopKNd(ExtendActive(scorer, actScores, actState, actTarget,
                                     UpdateAll(scorer, actState, actTarget, batch, actW), batch, actW, opts.numLabels)[b],
                        opts.numLabels, opts.beamSize, vals[b], backrefs[b], labels[b])
    requires CombShape(comb, batch, opts.beamSize + endW)
    requires forall b, j :: 0 <= b < batch && 0 <= j < opts.beamSize ==>
               && comb.scores[b][j] == vals[b][j] && comb.targets[b][j] == labels[b][j]
               && comb.backrefs[b][j] == backrefs[b][j] && !comb.carried[b][j]
    requires forall b, j :: 0 <= b < batch && opts.beamSize <= j < opts.beamSize + endW ==>
               && comb.scores[b][j] == endScores[b][j - opts.beamSize]
               && comb.backrefs[b][j] == layoutW + (j - opts.beamSize) && comb.carried[b][j]
    ensures ExtendedOk(scorer, batch, opts, actW, layoutW, endW, actState, actTarget, actScores, endScores, comb)
  {
    var k := opts.beamSize;
    forall b | 0 <= b < batch
      ensures comb.scores[b][..k] == vals[b] && comb.backrefs[b][..k] == backrefs[b] && comb.targets[b][..k] == labels[b]
    {
    }
  }

  /** `Combine`, together with the slot facts `CombinedSlotsOk` proves of it. */
  method CombineChecked<S>(vals: seq<seq<real>>, backrefs: seq<seq<nat>>, labels: seq<seq<nat>>,
                           endScores: seq<seq<real>>, endLens: seq<seq<nat>>, ghost h: History<S>,
                           batch: nat, k: nat, actIn: nat, layoutW: nat, endW: nat, i: nat, eos: nat)
    returns (c: Comb)
    requires LastStepShape(h, batch, i)
    requires Rect(vals, batch, k) && Rect(backrefs, batch, k) && Rect(labels, batch, k)
    requires Rect(endScores, batch, endW) && Rect(endLens, batch, endW)
    requires forall b, j :: 0 <= b < batch && 0 <= j < k ==> backrefs[b][j] < actIn
    requires i == 0 ==> endW == 0
    requires 0 < i ==> actIn <= layoutW && layoutW + endW == h.widths[i - 1]
    requires 0 < i ==> EndedPool(h.targets[i - 1], h.lens[i - 1], endLens, batch, layoutW, endW, eos)
    ensures CombShape(c, batch, k + endW) && CombSlotsOk(c, batch, k + endW, h, i, actIn, eos)
    ensures forall b, j :: 0 <= b < batch && 0 <= j < k ==>
              && c.scores[b][j] == vals[b][j] && c.targets[b][j] == labels[b][j]
              && c.backrefs[b][j] == backrefs[b][j] && !c.carried[b][j]
    ensures forall b, j :: 0 <= b < batch && k <= j < k + endW ==>
              c.scores[b][j] == endScores[b][j - k] && c.backrefs[b][j] == layoutW + (j - k) && c.carried[b][j]
  {
    c := Combine(vals, backrefs, labels, endScores, endLens, batch, k, endW, layoutW, i, eos);
    CombinedSlotsOk(vals, backrefs, labels, endScores, endLens, h, batch, k, actIn, layoutW, endW, i, eos, c);
  }

  /**
   * The best `beam_size` extensions of the active beam: the top-k over all (input
   * slot, label) pairs of the extended scores.
   */
  method FreshCandidates<S(!new)>(scorer: Scorer<S>, batch: nat, opts: SepEndedOpts, actW: nat,
                                  actState: seq<seq<S>>, actTarget: seq<seq<nat>>, actScores: seq<seq<real>>,
                                  newState: seq<seq<S>>)
    returns (vals: seq<seq<real>>, backrefs: seq<seq<nat>>, labels: seq<seq<nat>>)
    requires 0 < opts.numLabels && opts.beamSize <= opts.numLabels && ScoresAllLabels(scorer, opts.numLabels)
    requires 0 < actW && Rect(actState, batch, actW) && Rect(actTarget, batch, actW) && Rect(actScores, batch, actW)
    requires Rect(newState, batch, actW)
    ensures Rect(vals, batch, opts.beamSize) && Rect(backrefs, batch, opts.beamSize) && Rect(labels, batch, opts.beamSize)
    ensures forall b, j :: 0 <= b < batch && 0 <= j < opts.beamSize ==> backrefs[b][j] < actW
    ensures forall b :: 0 <= b < batch ==>
              IsTopKNd(ExtendActive(scorer, actScores, actState, actTarget, newState, batch, actW, opts.numLabels)[b],
                       opts.numLabels, opts.beamSize, vals[b], backrefs[b], labels[b])
  {
    var ext := ExtendActive(scorer, actScores, actState, actTarget, newState, batch, actW, opts.numLabels);
    MulAtLeast(actW, opts.numLabels);
    vals, backrefs, labels := TopKNdBatch(ext, actW, opts.numLabels, opts.beamSize);
  }

  /**
   * One pass of the loop up to the exit test: extend the active beam, keep the best
   * `beam_size`, append the ended pool (carried with backrefs `layoutW + j`, where
   * `layoutW` is the active width of the previous packed step), prune, classify,
   * count and repack; the packed step is recorded in the history.
   */
  method Step<S(!new)>(scorer: Scorer<S>, batch: nat, maxSeqLen: seq<int>, opts: SepEndedOpts, i: nat,
                       actW: nat, layoutW: nat, endW: nat, actState: seq<seq<S>>, actTarget: seq<seq<nat>>,
                       actScores: seq<seq<real>>, endScores: seq<seq<real>>, endLens: seq<seq<nat>>,
                       ghost h: History<S>)
    returns (newState: seq<seq<S>>, p: Packed, nextActW: nat, nextEndW: nat,
             actCounts: seq<nat>, endCounts: seq<nat>, ghost h': History<S>, ghost work: StepWork)
    requires |maxSeqLen| == batch && 0 < batch
    requires 0 < opts.numLabels && opts.beamSize <= opts.numLabels && ScoresAllLabels(scorer, opts.numLabels)
    requires HistoryShape(h, batch) && |h.targets| == i
    requires Recorded(h, scorer, batch, opts.bosLabel, opts.eosLabel, i)
    requires 0 < actW && Rect(actState, batch, actW) && Rect(actTarget, batch, actW) && Rect(actScores, batch, actW)
    requires Rect(endScores, batch, endW) && Rect(endLens, batch, endW)
    requires i == 0 ==> actW == 1 && endW == 0
    requires 0 < i ==> actW <= layoutW == h.actWidths[i - 1] && layoutW + endW == h.widths[i - 1]
    requires 0 < i ==> EndedPool(h.targets[i - 1], h.lens[i - 1], endLens, batch, layoutW, endW, opts.eosLabel)
    requires FedStates(h, scorer, batch, opts.bosLabel, i, actW, actState)
    ensures h' == AppendStep(h, p, actState, nextActW, actW, nextActW + nextEndW)
    ensures HistoryShape(h', batch) && IsPrefix(h, h')
    ensures Recorded(h', scorer, batch, opts.bosLabel, opts.eosLabel, i + 1)
    ensures PackedShape(p, batch, nextActW + nextEndW)
    ensures |actCounts| == batch && |endCounts| == batch
    ensures nextActW == MaxOf(actCounts) && nextEndW == MaxOf(endCounts)
    // a row keeps active hypotheses only below its max_seq_len
    ensures forall b :: 0 <= b < batch && 0 < actCounts[b] ==> i + 1 < maxSeqLen[b]
    // occupancy
    ensures 0 < opts.beamAndEndedSize ==>
              forall b :: 0 <= b < batch ==> actCounts[b] + endCounts[b] <= opts.beamAndEndedSize
    // the valid slots of each part are the first `count` ones
    ensures forall b, j :: 0 <= b < batch && 0 <= j < nextActW ==> (p.scores[b][j] > BAD <==> j < actCounts[b])
    ensures forall b, j :: 0 <= b < batch && nextActW <= j < nextActW + nextEndW ==>
              (p.scores[b][j] > BAD <==> j - nextActW < endCounts[b])
    ensures Rect(newState, batch, actW)
    ensures forall b, j :: 0 <= b < batch && 0 <= j < actW ==> newState[b][j] == scorer.update(actState[b][j], actTarget[b][j])
    // the scores, labels and backrefs: extend, keep the best, append the ended pool, prune, lay out
    ensures PackedFrom(scorer, batch, maxSeqLen, opts, i, actW, layoutW, endW, actState, actTarget, actScores,
                         endScores, work, p, nextActW, nextEndW)
  {
    var eos := opts.eosLabel;
    LastShape(h, batch);
    var pruned, width, comb;
    ghost var idx;
    newState, pruned, width, comb, idx := Candidates(scorer, batch, opts, i, actW, layoutW, endW, actState, actTarget,
                                                     actScores, endScores, endLens, h);
    work := StepWork(comb, pruned, width, idx);
    p, nextActW, nextEndW, actCounts, endCounts :=
      PackStep(pruned, h, batch, width, i, actW, eos, maxSeqLen, opts.beamAndEndedSize, opts.beamSize + endW);
    h' := AppendStep(h, p, actState, nextActW, actW, nextActW + nextEndW);
    RecordPacked(p, h, scorer, batch, i, actW, nextActW, nextEndW, eos, opts.bosLabel, actState, h');
  }

  /**
   * Classify the pruned candidates, count the active and ended slots of every row and
   * repack every row into `[active ... | ended ...]` of the widths the maxima give.
   */
  method PackStep<S>(pruned: Comb, ghost h: History<S>, batch: nat, width: nat, i: nat, actIn: nat, eos: nat,
                     maxSeqLen: seq<int>, limit: nat, combW: nat)
    returns (p: Packed, nextActW: nat, nextEndW: nat, actCounts: seq<nat>, endCounts: seq<nat>)
    requires LastStepShape(h, batch, i) && |maxSeqLen| == batch && 0 < batch && 0 < actIn
    requires i == 0 ==> actIn == 1
    requires 0 < i ==> actIn <= h.widths[i - 1]
    requires width == if combW > limit > 0 then limit else combW
    requires CombShape(pruned, batch, width) && CombSlotsOk(pruned, batch, width, h, i, actIn, eos)
    ensures PackedShape(p, batch, nextActW + nextEndW)
    ensures NewSlots(p, h, batch, i, actIn, nextActW, nextActW + nextEndW, eos)
    ensures |actCounts| == batch && |endCounts| == batch
    ensures nextActW == MaxOf(actCounts) && nextEndW == MaxOf(endCounts)
    ensures forall b :: 0 <= b < batch && 0 < actCounts[b] ==> i + 1 < maxSeqLen[b]
    ensures 0 < limit ==> forall b :: 0 <= b < batch ==> actCounts[b] + endCounts[b] <= limit
    ensures forall b, j :: 0 <= b < batch && 0 <= j < nextActW ==> (p.scores[b][j] > BAD <==> j < actCounts[b])
    ensures forall b, j :: 0 <= b < batch && nextActW <= j < nextActW + nextEndW ==>
              (p.scores[b][j] > BAD <==> j - nextActW < endCounts[b])
    ensures var codes := ClassifyAll(pruned, batch, width, eos, i + 1, maxSeqLen);
            && actCounts == CountsOf(codes, ACTIVE) && endCounts == CountsOf(codes, ENDED)
            && LaidOut(pruned, codes, batch, width, nextActW, nextEndW, eos, p)
  {
    var codes := ClassifyAll(pruned, batch, width, eos, i + 1, maxSeqLen);
    actCounts := CountsOf(codes, ACTIVE);
    endCounts := CountsOf(codes, ENDED);
    nextActW := MaxOf(actCounts);
    nextEndW := MaxOf(endCounts);
    RepackBounds(codes, batch, width, actCounts, endCounts, nextActW, nextEndW);
    p := Repack(pruned, codes, batch, width, actCounts, nextActW, nextEndW, eos);
    PackFacts(pruned, codes, p, h, batch, width, i, actIn, nextActW, nextEndW, eos, maxSeqLen, actCounts, endCounts,
              limit, combW);
  }

  /** The slot facts and the count facts of a repacked step, together. */
  lemma PackFacts<S>(c: Comb, codes: seq<seq<int>>, p: Packed, h: History<S>, batch: nat, width: nat, i: nat,
                     actIn: nat, actW: nat, endW: nat, eos: nat, maxSeqLen: seq<int>,
                     actCounts: seq<nat>, endCounts: seq<nat>, limit: nat, combW: nat)
    requires LastStepShape(h, batch, i) && |maxSeqLen| == batch && 0 < actIn
    requires i == 0 ==> actIn == 1
    requires 0 < i ==> actIn <= h.widths[i - 1]
    requires width == if combW > limit > 0 then limit else combW
    requires CombShape(c, batch, width) && CombSlotsOk(c, batch, width, h, i, actIn, eos)
    requires codes == ClassifyAll(c, batch, width, eos, i + 1, maxSeqLen)
    requires |actCounts| == batch && |endCounts| == batch
    requires forall b :: 0 <= b < batch ==>
               && actCounts[b] == Count(codes[b], ACTIVE) <= actW && endCounts[b] == Count(codes[b], ENDED) <= endW
    requires PackedShape(p, batch, actW + endW)
    requires forall b :: 0 <= b < batch ==>
               && IsLayout(codes[b], c.scores[b], actW, endW, BAD, p.scores[b])
               && IsTargetLayout(codes[b], c.targets[b], actW, endW, eos, p.targets[b])
               && IsLayout(codes[b], c.backrefs[b], actW, endW, 0, p.backrefs[b])
               && IsLayout(codes[b], c.lens[b], actW, endW, 0, p.lens[b])
    ensures NewSlots(p, h, batch, i, actIn, actW, actW + endW, eos)
    ensures forall b :: 0 <= b < batch && 0 < actCounts[b] ==> i + 1 < maxSeqLen[b]
    ensures 0 < limit ==> forall b :: 0 <= b < batch ==> actCounts[b] + endCounts[b] <= limit
    ensures forall b, j :: 0 <= b < batch && 0 <= j < actW ==> (p.scores[b][j] > BAD <==> j < actCounts[b])
    ensures forall b, j :: 0 <= b < batch && actW <= j < actW + endW ==> (p.scores[b][j] > BAD <==> j - actW < endCounts[b])
  {
    PackedSlots(c, codes, p, h, batch, width, i, actIn, actW, endW, eos, maxSeqLen);
    StepCounts(c, codes, p, batch, width, i + 1, actW, endW, maxSeqLen, eos, actCounts, endCounts, limit, combW);
  }

  /** The count facts of one repacked row. */
  lemma RowCounts(codes: seq<int>, scores: seq<real>, targets: seq<nat>, carried: seq<bool>, out: seq<real>,
                  i: nat, actW: nat, endW: nat, maxLen: int, eos: nat)
    requires |scores| == |codes| && |targets| == |codes| && |carried| == |codes| && ValidCodes(codes)
    requires forall j :: 0 <= j < |codes| ==> codes[j] == ClassifySlot(scores[j], targets[j], carried[j], eos, i, maxLen)
    requires Count(codes, ACTIVE) <= actW && Count(codes, ENDED) <= endW
    requires IsLayout(codes, scores, actW, endW, BAD, out)
    ensures 0 < Count(codes, ACTIVE) ==> i < maxLen
    ensures Count(codes, ACTIVE) + Count(codes, ENDED) <= |codes|
    ensures forall j :: 0 <= j < actW ==> (out[j] > BAD <==> j < Count(codes, ACTIVE))
    ensures forall j :: actW <= j < actW + endW ==> (out[j] > BAD <==> j - actW < Count(codes, ENDED))
  {
    CountsBounded(codes);
    if 0 < Count(codes, ACTIVE) {
      assert codes[Positions(codes, ACTIVE)[0]] == ACTIVE;
    }
    forall j | 0 <= j < actW ensures out[j] > BAD <==> j < Count(codes, ACTIVE) {
      if j < Count(codes, ACTIVE) {
        assert codes[Positions(codes, ACTIVE)[j]] == ACTIVE;
      }
    }
    forall j | actW <= j < actW + endW ensures out[j] > BAD <==> j - actW < Count(codes, ENDED) {
      if j - actW < Count(codes, ENDED) {
        assert codes[Positions(codes, ENDED)[j - actW]] == ENDED;
      }
    }
  }

  /** The count facts of a repacked step. */
  lemma StepCounts(c: Comb, codes: seq<seq<int>>, p: Packed, batch: nat, width: nat, i: nat, actW: nat, endW: nat,
                   maxSeqLen: seq<int>, eos: nat, actCounts: seq<nat>, endCounts: seq<nat>, limit: nat, combW: nat)
    requires CombShape(c, batch, width) && |maxSeqLen| == batch
    requires width == if combW > limit > 0 then limit else combW
    requires codes == ClassifyAll(c, batch, width, eos, i, maxSeqLen)
    requires |actCounts| == batch && |endCounts| == batch
    requires forall b :: 0 <= b < batch ==>
               && actCounts[b] == Count(codes[b], ACTIVE) <= actW && endCounts[b] == Count(codes[b], ENDED) <= endW
    requires PackedShape(p, batch, actW + endW)
    requires forall b :: 0 <= b < batch ==>
               && IsLayout(codes[b], c.scores[b], actW, endW, BAD, p.scores[b])
               && IsTargetLayout(codes[b], c.targets[b], actW, endW, eos, p.targets[b])
               && IsLayout(codes[b], c.backrefs[b], actW, endW, 0, p.backrefs[b])
               && IsLayout(codes[b], c.lens[b], actW, endW, 0, p.lens[b])
    ensures forall b :: 0 <= b < batch && 0 < actCounts[b] ==> i < maxSeqLen[b]
    ensures 0 < limit ==> forall b :: 0 <= b < batch ==> actCounts[b] + endCounts[b] <= limit
    ensures forall b, j :: 0 <= b < batch && 0 <= j < actW ==> (p.scores[b][j] > BAD <==> j < actCounts[b])
    ensures forall b, j :: 0 <= b < batch && actW <= j < actW + endW ==> (p.scores[b][j] > BAD <==> j - actW < endCounts[b])
  {
    forall b | 0 <= b < batch
      ensures 0 < actCounts[b] ==> i < maxSeqLen[b]
      ensures actCounts[b] + endCounts[b] <= width
      ensures forall j :: 0 <= j < actW ==> (p.scores[b][j] > BAD <==> j < actCounts[b])
      ensures forall j :: actW <= j < actW + endW ==> (p.scores[b][j] > BAD <==> j - actW < endCounts[b])
    {
      RowCounts(codes[b], c.scores[b], c.targets[b], c.carried[b], p.scores[b], i, actW, endW, maxSeqLen[b], eos);
    }
  }
}
