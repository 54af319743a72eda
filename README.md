# Beam-search decoders and label utilities, modelled in Dafny

This project is a Dafny model of the decoding core of an ASR/TTS experiment
repository, with a few label and string utilities from the same repository.

- **Batched beam search** (`beam_search`): each row keeps a beam of hypotheses.
  Every step extends each hypothesis by every label, keeps the best `beam_size`
  with `top_k_nd`, and carries scorer state, `ended` flags and lengths through
  the backrefs with `batch_gather`. Hypotheses end on `eos` or at the row's
  `max_seq_len`. Ended scores can be rescaled for length normalization. The loop
  stops when every hypothesis has ended, and the labels are backtracked from
  the recorded `(targets, backrefs)` history.
- **Beam search with a separate ended pool** (`beam_search_sep_ended`): active
  and ended hypotheses live in separate padded pools. Fresh candidates and the
  carried ended entries are pruned together to `beam_and_ended_size`. Every slot
  is classified active, ended or invalid (codes 0, 1, 100). Each row is then
  repacked by a stable argsort into `[active ... pad | ended ... pad]`, with
  padding set to score `-1e30`, label `eos`, backref 0 and length 0. ESPnet-style
  end detection can retire rows.
- **State tying**: RASR allophone lines `phon{prev+next}flags.S idx`. The model
  covers parsing and writing them, the end-of-word index offset, the diphone
  mixed-radix index, the dense one-state renumbering and state duplication.
- **CTC blank collapse**: trimming leading and trailing blank frames and
  shrinking each inner blank run to its last frame. There are three
  formulations: the run-count loop, the single-sequence mask and the padded
  batch.
- **Pipeline tables**: the context-model ids, class counts and stage names.
- **Python code dumper**: the memo, reserved names, fresh names, imports and
  written lines of `PythonCodeDumper`.
- **BPE lexicon**: collecting lemma tokens, reading the BPE vocabulary and
  substituting the unknown label.
- **ESPnet experiment names**: `get_exp_desc` and the experiment name assembled
  from it.

Tensors are nested sequences (`seq<seq<T>>`). Scores are `real`, with `BAD`
standing for `-1e30`. The label scorer is a record of functions: the initial
state, the state update and the per-label log-probabilities. The end detector
and `x ** e` are function parameters. Each decoder is a method whose loop
records a ghost trace of every step, and its contract states, step by step,
what the source computes. Where the source raises, filters along the wrong
axis, offsets carried backrefs by the wrong width or looks tokens up in the
wrong form, the models follow what it evidently intends, the written behaviour
is modelled beside them (see Findings), and every member that follows the
intended behaviour is named under Left out.

Lemmas connect the trace of `beam_search_torch.py` to what that decoder
promises: ended hypotheses persist, lengths count the steps before the end,
every step is a top-k, and without length normalisation the scores are chain
log-probabilities. In the separate-ended-pool search every step is the pruned
top-k of the extended scores and the ended pool, laid out by slot class, and
computed from what the step before it left. Each recorded score is one
extension of the score its backref left (`SepEndedLoop.RecordedActiveScore`,
`SepEndedLoop.RecordedEndedScore`).

Modules, one per source file, plus shared helpers:

- `Wrappers`: `Option` and `Result`.
- `Text`: Python string helpers.
- `TensorOps`: `batch_gather`, `top_k_nd`.
- `Backtrack`: the backref chains.
- `BeamSearch`, `BeamSearchProps`, `BeamSearchWhere`: `beam_search_torch.py`.
- `SepEndedOps`, `SepEnded`, `SepEndedLoop`: `beam_search_sep_ended.py`.
- `StateTying`, `BlankCollapse`, `PipelineData`, `DumpPyCode`, `BpeLexicon`,
  `EspnetAdaptiveSearch`.

## Model

| member | source | states |
|---|---|---|
| TensorOps.BatchGather | users/zeyer/decoding/beam_search_torch.py:131-155 | output row `b`, slot `i` is `values[b][indices[b][i]]`; the output has the shape of the indices; the batch sizes of values and indices must agree (the assertion at :140) |
| TensorOps.BatchGatherScalar | users/zeyer/decoding/beam_search_torch.py:144-152 | with indices of shape `[Batch]`, entry `b` is `values[b][indices[b]]` |
| TensorOps.ScalarGatherIsSqueezedGather | users/zeyer/decoding/beam_search_torch.py:144-152 | the squeezed case equals the one-index case with the index column added and removed again |
| TensorOps.GatherRowsIndependent | users/zeyer/decoding/beam_search_torch.py:131-155 | batch rows never mix: output row `b` depends only on row `b` of values and of indices |
| TensorOps.GatherCompose | users/zeyer/decoding/beam_search_torch.py:100-105 | gathering twice equals gathering once through the composed index map, which is what makes walking the backrefs well defined |
| TensorOps.TopK | users/zeyer/decoding/beam_search_torch.py:121 | `torch.topk` (largest, sorted): `k` distinct positions with non-increasing values, and no position left out has a larger value than a chosen one; ties may be broken in any order |
| TensorOps.RavelBound | users/zeyer/decoding/beam_search_torch.py:118-120 | in-shape coordinates have a flat index below the product of the dimensions |
| TensorOps.RavelInjective | users/zeyer/decoding/beam_search_torch.py:118-120 | distinct in-shape coordinates have distinct flat indices (the flattening loses nothing) |
| TensorOps.FlattenAt | users/zeyer/decoding/beam_search_torch.py:119-120 | flattening `[InBeam, Vocab]` puts entry `(h, v)` at `h * vocab + v` |
| TensorOps.UnravelIndex | users/zeyer/decoding/beam_search_torch.py:122-127 | the mod/div loop, last listed dimension fastest, yields in-shape coordinates whose flat index is the input |
| TensorOps.UnravelAsWrittenRaises | users/zeyer/decoding/beam_search_torch.py:122-127 | as written, the first pass rebinds `indices_out` to a tensor and its `insert` raises for every non-empty dimension list; with a separate list it yields the last coordinate |
| TensorOps.TopKNdFromFlat | users/zeyer/decoding/beam_search_torch.py:113-128 | the top-k of the flattened row, split into (beam, label), is a top-k over both dimensions |
| TensorOps.TopKNd | users/zeyer/decoding/beam_search_torch.py:113-128 | `top_k_nd(dim=[1, 2])` on one batch row: `k` values in non-increasing order, each equal to the entry at its (beam, label), pairs distinct, none left out larger |
| TensorOps.TopKNdBatch | users/zeyer/decoding/beam_search_torch.py:70 | per batch row the top-k over `[InBeam, Vocab]`, rows processed independently |
| Backtrack.WellFormedAppend | users/zeyer/decoding/beam_search_torch.py:72-73 | appending a step whose backrefs point into the previous step keeps the recorded history well formed and extends it |
| Backtrack.Ancestor | users/zeyer/decoding/beam_search_torch.py:101-105 | the slot reached after following the backrefs from a final slot back to an earlier step lies within that step's width |
| Backtrack.AncestorStepDown | users/zeyer/decoding/beam_search_torch.py:105 | one more step back is the backref recorded at the ancestor's slot |
| Backtrack.AncestorPrefix | users/zeyer/decoding/beam_search_torch.py:72-73 | ancestors depend only on the history up to their step: later appended steps change none |
| Backtrack.ChainLabels | users/zeyer/decoding/beam_search_torch.py:99-107 | the label chain of a slot has one label per step and ends with the slot's own label |
| Backtrack.ChainLabelsStep | users/zeyer/decoding/beam_search_torch.py:104-105 | a slot's chain is its parent's chain followed by its own label |
| Backtrack.ChainLabelsPrefix | users/zeyer/decoding/beam_search_torch.py:72-73 | chains depend only on the history up to their last step |
| Backtrack.Stack | users/zeyer/decoding/beam_search_torch.py:107 | `torch.stack(dim=2)`: `out[b][k][s] == steps[s][b][k]` |
| Backtrack.Backtrack | users/zeyer/decoding/beam_search_torch.py:98-107 | the backtracking loop (also users/zeyer/decoding/beam_search_torch/beam_search_sep_ended.py:366-377): `seq_targets[b][k][t]` is the label recorded at step `t` on the backref chain from final slot `k` |
| BeamSearch.MaskedFinishedLogProb | users/zeyer/decoding/beam_search_torch.py:56 | one entry per label: 0 exactly at `eos`, `BAD` (-1e30) at every other label |
| BeamSearch.EndedExtendsOnlyByEos | users/zeyer/decoding/beam_search_torch.py:56-69 | an ended hypothesis is extended by `eos` at zero additional score and by every other label at `BAD` more |
| BeamSearch.MarkEnded | users/zeyer/decoding/beam_search_torch.py:79-80 | a flag is set exactly when it was set, the label is `eos`, or `i >= max_seq_len[b]` |
| BeamSearch.GrowLen | users/zeyer/decoding/beam_search_torch.py:83 | each length grows by 1 exactly when its hypothesis has not ended |
| BeamSearch.RescaleEnded | users/zeyer/decoding/beam_search_torch.py:85-93 | ended scores are multiplied by the factor, the others are unchanged |
| BeamSearch.ScaleAll | users/zeyer/decoding/beam_search_torch.py:95-96 | every score is multiplied by the factor |
| BeamSearch.StepBound | users/zeyer/decoding/beam_search_torch.py:80-82 | a step count, at least 1, that reaches every row's `max_seq_len`: the loop cannot run past it |
| BeamSearch.PastBoundNotAllEnded | users/zeyer/decoding/beam_search_torch.py:80-82 | once the step counter reaches every row's `max_seq_len`, every hypothesis has ended, so the loop exits |
| BeamSearch.GrowLenAllEnded | users/zeyer/decoding/beam_search_torch.py:81-83 | once every hypothesis has ended, no length grows |
| BeamSearch.InitialHead | users/zeyer/decoding/beam_search_torch.py:49-54 | the search starts with one hypothesis per row: the initial scorer state, label `bos`, score 0, length 0, not ended |
| BeamSearch.InitialStates | users/zeyer/decoding/beam_search_torch.py:50 | one initial scorer state per batch row |
| BeamSearch.UpdateAll | users/zeyer/decoding/beam_search_torch.py:62 | every input hypothesis' state is updated with its label |
| BeamSearch.ExtendAll | users/zeyer/decoding/beam_search_torch.py:63-69 | every input hypothesis' score plus the label log-probabilities, masked for ended hypotheses |
| BeamSearch.Expand | users/zeyer/decoding/beam_search_torch.py:62-70 | feeds every hypothesis its label, extends it by every label and keeps a top-`beam_size` of each row over (beam, label) |
| BeamSearch.FedLabelsStep | users/zeyer/decoding/beam_search_torch.py:72-74 | the labels fed to a kept hypothesis are those fed to its parent followed by the parent's label |
| BeamSearch.NextStates | users/zeyer/decoding/beam_search_torch.py:74 | the gathered state of every kept hypothesis is the state reached by feeding it its own label history |
| BeamSearch.RescaledIsInScore | users/zeyer/decoding/beam_search_torch.py:85-93 | the scores entering step `t > 0` are the top-k values of step `t - 1`, multiplied by `(t/(t-1))**e` for ended hypotheses when `t > 1` and `e != 0` |
| BeamSearch.NextInputs | users/zeyer/decoding/beam_search_torch.py:70-93 | the inputs of step `t > 0` are the outputs of step `t - 1`: labels, flags, lengths, gathered states and rescaled scores |
| BeamSearch.Step | users/zeyer/decoding/beam_search_torch.py:62-80 | one pass up to the exit test: extends, prunes, gathers flags and lengths through the backrefs and marks ended hypotheses; the step is recorded and every recorded step stays correct |
| BeamSearch.Advance | users/zeyer/decoding/beam_search_torch.py:61-93 | one loop pass: records labels and backrefs, stops exactly when every hypothesis has ended, otherwise grows the running lengths and rescales ended scores |
| BeamSearch.Finish | users/zeyer/decoding/beam_search_torch.py:95-109 | final scores scaled by `(1/n)**e` when `e != 0`; label sequences are the backtracked chains |
| BeamSearch.Search | users/zeyer/decoding/beam_search_torch.py:26-109 | `beam_search`: every recorded step is a correct loop step, the loop stops at the first step where all hypotheses have ended (within the step bound), and the outputs are the backtracked chains, the final lengths and the normalised final scores |
| BeamSearchProps.EndedPersists | users/zeyer/decoding/beam_search_torch.py:75-80 | `ended` is never cleared along a backref chain |
| BeamSearchProps.LenIsStepsBeforeEnd | users/zeyer/decoding/beam_search_torch.py:76-83 | `out_seq_len` counts the steps before the hypothesis ended: its chain had not ended before that step and had ended at every step from it on, so the `eos` step is not counted |
| BeamSearchProps.StepsAreTopK | users/zeyer/decoding/beam_search_torch.py:70 | every recorded step keeps a top-k of the extended scores, with labels in range, and its flags and lengths are correct |
| BeamSearchProps.ScoreIsChainLogProb | users/zeyer/decoding/beam_search_torch.py:69-70 | without length normalisation, every hypothesis' score is the sum of the log-probabilities of the labels on its chain |
| BeamSearchWhere.JoinDim | users/zeyer/decoding/beam_search_torch.py:68 | two dimensions broadcast exactly when they are equal or one is 1, and the joined size is each one that is not 1 |
| BeamSearchWhere.WhereAsWritten | users/zeyer/decoding/beam_search_torch.py:68 | `torch.where(ended, mask, log_prob)` as written: `RuntimeError` exactly when `[Batch, Beam]` right-aligned against `[Beam, Vocab]` does not broadcast; otherwise a `[Batch, join(Batch, Beam), join(Beam, Vocab)]` tensor whose entry `[i][j][v]` tests `ended[j][v]` |
| BeamSearchWhere.WhereIntended | users/zeyer/decoding/beam_search_torch.py:68 | the filter one flag per hypothesis: entry `[b][h][v]` is the mask entry when hypothesis `h` of row `b` has ended, the log-probability otherwise |
| BeamSearchWhere.ScoreAll | users/zeyer/decoding/beam_search_torch.py:62-63 | the scorer's log-probabilities of every input hypothesis, one row of `Vocab` entries each |
| BeamSearchWhere.ExtendAllIsIntended | users/zeyer/decoding/beam_search_torch.py:63-69 | the model's extension is the input score plus the intended per-hypothesis filter |
| BeamSearchWhere.AgreesOnSingleHypothesis | users/zeyer/decoding/beam_search_torch.py:68 | with one batch row and one hypothesis, the written filter is the intended one |
| BeamSearchWhere.FirstStepWidensBeam | users/zeyer/decoding/beam_search_torch.py:68 | on the first step of a batch of several rows, the written filter gives `[Batch, Batch, Vocab]` instead of `[Batch, 1, Vocab]`, and hypothesis 1 of row 0 is filtered by the flag of row 1 |
| BeamSearchWhere.LaterStepShapeError | users/zeyer/decoding/beam_search_torch.py:68 | on a later step of a one-row batch, a beam wider than 1 and other than `Vocab` makes the written filter raise |
| BeamSearchWhere.FullBeamMisaligned | users/zeyer/decoding/beam_search_torch.py:68 | with a beam as wide as the vocabulary, label `v` of an unended hypothesis is filtered by the flag of hypothesis `v`, so it differs from the intended filter once hypothesis `v` has ended |
| SepEndedOps.ClassifySlot | users/zeyer/decoding/beam_search_torch/beam_search_sep_ended.py:157-163 | every slot gets exactly one class: invalid exactly when the score is at most `bad_score`; otherwise ended exactly when carried over from the ended pool, labelled `eos` or at `max_seq_len`; otherwise active |
| SepEndedOps.Positions | users/zeyer/decoding/beam_search_torch/beam_search_sep_ended.py:165-168 | the positions holding a code: all of them, in increasing order |
| SepEndedOps.ArgsortByKeysInRange | users/zeyer/decoding/beam_search_torch/beam_search_sep_ended.py:181-188 | every listed position has one of the sort keys as its code |
| SepEndedOps.ArgsortByKeysOrders | users/zeyer/decoding/beam_search_torch/beam_search_sep_ended.py:181-188 | listed positions are distinct, ordered by code, and in original order among equal codes |
| SepEndedOps.ArgsortByKeysCovers | users/zeyer/decoding/beam_search_torch/beam_search_sep_ended.py:181-188 | every position whose code is a key is listed |
| SepEndedOps.StableArgsort | users/zeyer/decoding/beam_search_torch/beam_search_sep_ended.py:181-183 | `torch.argsort(stable=True)` on a row of codes 0, 1, 2, 100 is a stable sorting permutation |
| SepEndedOps.ArgsortStartsActive | users/zeyer/decoding/beam_search_torch/beam_search_sep_ended.py:181-183 | the sorted order starts with the active positions, in their original order |
| SepEndedOps.RemapActive | users/zeyer/decoding/beam_search_torch/beam_search_sep_ended.py:185 | active codes become 2, every other code is unchanged |
| SepEndedOps.RemapKeepsEndedPositions | users/zeyer/decoding/beam_search_torch/beam_search_sep_ended.py:185 | after remapping no position is active and the ended positions are the same |
| SepEndedOps.ArgsortRemappedStartsEnded | users/zeyer/decoding/beam_search_torch/beam_search_sep_ended.py:185-188 | after remapping, the sorted order starts with the ended positions, in their original order |
| SepEndedOps.Below | users/zeyer/decoding/beam_search_torch/beam_search_sep_ended.py:196-202 | `arange(n) < count` is true exactly below the count |
| SepEndedOps.Where | users/zeyer/decoding/beam_search_torch/beam_search_sep_ended.py:210-226 | `torch.where` on one row: the entry where the mask holds, the fill elsewhere |
| SepEndedOps.Gather | users/zeyer/decoding/beam_search_torch/beam_search_sep_ended.py:208-225 | `batch_gather` on one row picks the entries at the indices |
| SepEndedOps.ActEndIdx | users/zeyer/decoding/beam_search_torch/beam_search_sep_ended.py:181-191 | `act_end_idx` has `ActBeam + EndBeam` in-range positions |
| SepEndedOps.ValidMask | users/zeyer/decoding/beam_search_torch/beam_search_sep_ended.py:196-205 | `valid` has one flag per `ActBeam + EndBeam` slot |
| SepEndedOps.RepackRowIsLayout | users/zeyer/decoding/beam_search_torch/beam_search_sep_ended.py:178-230 | gathering by `act_end_idx` and masking by `valid` lays the row out as its active slots then its ended slots, each in original relative order, padded with the fill |
| SepEndedOps.UnmaskedRowIsLayout | users/zeyer/decoding/beam_search_torch/beam_search_sep_ended.py:178-179 | when every row is full and nothing ended, the row is already laid out without repacking |
| SepEndedOps.UnmaskedTargetsIsLayout | users/zeyer/decoding/beam_search_torch/beam_search_sep_ended.py:178-179 | the same for labels |
| SepEndedOps.RepackTargets | users/zeyer/decoding/beam_search_torch/beam_search_sep_ended.py:207-220 | the labels of a row have `ActBeam + EndBeam` entries |
| SepEndedOps.RepackTargetsIsLayout | users/zeyer/decoding/beam_search_torch/beam_search_sep_ended.py:207-220 | repacked labels: active labels in order padded with `eos`, then all `eos` on the ended side |
| SepEnded.Fed | users/zeyer/decoding/beam_search_torch/beam_search_sep_ended.py:86-88 | the labels fed to an input slot's scorer state at step `t`: `bos` and its chain before its own label, `t` labels in all |
| SepEnded.FedStep | users/zeyer/decoding/beam_search_torch/beam_search_sep_ended.py:350-353 | feeding a slot's input label gives the fed labels of every slot extending it |
| SepEnded.Fill | users/zeyer/decoding/beam_search_torch/beam_search_sep_ended.py:102 | `torch.full`: every entry is the value |
| SepEnded.ConcatRows | users/zeyer/decoding/beam_search_torch/beam_search_sep_ended.py:104-125 | `concat(dim=1)`: the first columns from `x`, the rest from `y` |
| SepEnded.SliceRows | users/zeyer/decoding/beam_search_torch/beam_search_sep_ended.py:227-230 | `x[:, from:to]` row by row |
| SepEnded.CarryBackrefs | users/zeyer/decoding/beam_search_torch/beam_search_sep_ended.py:110-113 | the carried ended entries get backrefs `offset + j` |
| SepEnded.MaxOf | users/zeyer/decoding/beam_search_torch/beam_search_sep_ended.py:172-174 | `.max()`: an upper bound on every entry that is one of the entries |
| SepEnded.FullRows | users/zeyer/decoding/beam_search_torch/beam_search_sep_ended.py:176 | `full_act_beam`: counts summing to their maximum times the batch size are all equal to the maximum |
| SepEnded.AllActivePositions | users/zeyer/decoding/beam_search_torch/beam_search_sep_ended.py:178-179 | a row whose every slot is active keeps its order and has no ended slot |
| SepEnded.ExtendActive | users/zeyer/decoding/beam_search_torch/beam_search_sep_ended.py:86-90 | the extended scores of each active input slot, one per label |
| SepEnded.Combine | users/zeyer/decoding/beam_search_torch/beam_search_sep_ended.py:98-138 | the combined row: the `k` fresh candidates with length `i`, then the ended pool with label `eos`, its stored lengths and backrefs `offset + j` |
| SepEnded.TopKRows | users/zeyer/decoding/beam_search_torch/beam_search_sep_ended.py:143-145 | `torch.topk(dim=1)` row by row: each row a top-k |
| SepEnded.Prune | users/zeyer/decoding/beam_search_torch/beam_search_sep_ended.py:142-152 | when the combined row is wider than `beam_and_ended_size > 0` it keeps a top-k of that size and gathers labels, backrefs and lengths through it; otherwise nothing changes |
| SepEnded.ClassifyAll | users/zeyer/decoding/beam_search_torch/beam_search_sep_ended.py:157-163 | every slot's code is `ClassifySlot` of its score, label, carried flag and step |
| SepEnded.CountsOf | users/zeyer/decoding/beam_search_torch/beam_search_sep_ended.py:165-168 | the per-row active or ended counts |
| SepEnded.RepackRows | users/zeyer/decoding/beam_search_torch/beam_search_sep_ended.py:221-226 | every field gathered by `act_end_idx` (masked unless `valid` is `None`) is the row's layout |
| SepEnded.RepackTargetRows | users/zeyer/decoding/beam_search_torch/beam_search_sep_ended.py:207-220 | labels repacked row by row are the target layout (`eos` padding and ended side) |
| SepEnded.Repack | users/zeyer/decoding/beam_search_torch/beam_search_sep_ended.py:178-230 | repacking follows the source's branches and every row becomes `[active ... pad | ended ... pad]` in original relative order |
| SepEnded.RepackBounds | users/zeyer/decoding/beam_search_torch/beam_search_sep_ended.py:170-176 | the per-row counts are bounded by their maxima, and all equal them when the rows are full |
| SepEnded.UnchangedIsLayout | users/zeyer/decoding/beam_search_torch/beam_search_sep_ended.py:178-179 | when no repacking is needed the rows already are the layout |
| SepEnded.RepackAll | users/zeyer/decoding/beam_search_torch/beam_search_sep_ended.py:207-226 | every field repacked, masked or not, is the layout |
| SepEnded.RepackAsWritten | users/zeyer/decoding/beam_search_torch/beam_search_sep_ended.py:176-226 | the repacking as written: `TypeError` exactly when every row is full, nothing ended and the combined row is wider than the active part (`act_idx` is set but `valid` is `None`); otherwise every row is the layout |
| SepEnded.RepackAsWrittenRaises | users/zeyer/decoding/beam_search_torch/beam_search_sep_ended.py:193-222 | one row with combined codes `[active, invalid]`, active width 1 and no ended slots reaches the `TypeError` |
| SepEnded.UnmaskedIsMasked | users/zeyer/decoding/beam_search_torch/beam_search_sep_ended.py:193-226 | when every row is full and nothing ended, repacking without the mask equals repacking with it, so leaving the mask out loses nothing |
| SepEnded.LayoutUnique | users/zeyer/decoding/beam_search_torch/beam_search_sep_ended.py:207-226 | a row has at most one layout |
| SepEnded.TargetLayoutUnique | users/zeyer/decoding/beam_search_torch/beam_search_sep_ended.py:207-220 | a row of labels has at most one layout |
| SepEnded.CombinedSlotsOk | users/zeyer/decoding/beam_search_torch/beam_search_sep_ended.py:98-138 | each combined slot is a fresh extension of an active input slot or a carried ended entry, with matching label, length and backref |
| SepEnded.CarriedSlotOk | users/zeyer/decoding/beam_search_torch/beam_search_sep_ended.py:104-125 | a carried slot points at the ended-pool entry it was copied from |
| SepEnded.PrunedSlotsOk | users/zeyer/decoding/beam_search_torch/beam_search_sep_ended.py:142-152 | pruning keeps a subset of the combined slots, so their facts carry over |
| SepEnded.PackedSlot | users/zeyer/decoding/beam_search_torch/beam_search_sep_ended.py:193-230 | a packed slot is padding (score `BAD`, label `eos`, backref 0, length 0) or the combined slot it came from; its backref is a slot of the previous step |
| SepEnded.AppendKeepsShape | users/zeyer/decoding/beam_search_torch/beam_search_sep_ended.py:232-233 | appending the packed step to the history keeps its shape |
| SepEnded.PackedSlots | users/zeyer/decoding/beam_search_torch/beam_search_sep_ended.py:193-230 | every slot of a repacked step has the slot facts |
| SepEnded.RecordPacked | users/zeyer/decoding/beam_search_torch/beam_search_sep_ended.py:232-233 | recording a repacked step keeps the invariant for the new step and all earlier ones |
| SepEnded.NewStepPacked | users/zeyer/decoding/beam_search_torch/beam_search_sep_ended.py:232-233 | the appended step has the slot facts |
| SepEnded.NewStepStates | users/zeyer/decoding/beam_search_torch/beam_search_sep_ended.py:350-353 | the scorer states of the appended step are the initial states fed with their chains |
| SepEnded.GatheredStatesOk | users/zeyer/decoding/beam_search_torch/beam_search_sep_ended.py:350-353 | the states gathered through the active backrefs are the initial states fed with the new chains |
| SepEnded.ActiveBackrefs | users/zeyer/decoding/beam_search_torch/beam_search_sep_ended.py:350 | the active backrefs of a packed step point into the active input beam (see also line 99) |
| SepEnded.Candidates | users/zeyer/decoding/beam_search_torch/beam_search_sep_ended.py:86-152 | one step's candidates: the combined row is a top `beam_size` over every (input slot, label) pair of the extended scores followed by the ended pool with its scores and backrefs `layoutW + j` (`ExtendedOk`), and the pruned row is a top `beam_and_ended_size` of the combined scores with every field gathered through the kept slots, or the combined row itself when it is not wider (`PrunedOk`); the new scorer states are the updates of the input states |
| SepEnded.Extended | users/zeyer/decoding/beam_search_torch/beam_search_sep_ended.py:86-138 | before pruning: the fresh slots are a top `beam_size` over every (input slot, label) pair of the extended scores, not carried; the ended slots carry the pool's scores with backrefs `layoutW + j`; every slot has the slot facts (`ExtendedOk`, `CombSlotsOk`) |
| SepEnded.FreshCandidates | users/zeyer/decoding/beam_search_torch/beam_search_sep_ended.py:98-102 | the top-k over all (input slot, label) pairs of the extended scores, backrefs below the active width |
| SepEnded.Step | users/zeyer/decoding/beam_search_torch/beam_search_sep_ended.py:86-233 | one pass up to the exit test: the packed scores, labels and backrefs are the layout, by slot class, of the pruned top-k of the extended scores and the ended pool (`PackedFrom`); the widths are the largest active and ended counts; valid slots come first in each part; active rows are below `max_seq_len`; the step is recorded with the invariant kept |
| SepEnded.PackStep | users/zeyer/decoding/beam_search_torch/beam_search_sep_ended.py:157-230 | the counts are those of the classification of the pruned row at length `i + 1`, the widths their maxima, and the packed step is that row laid out by class (`LaidOut`); the valid slots come first in each part, and no row holds more than `beam_and_ended_size` |
| SepEnded.PackFacts | users/zeyer/decoding/beam_search_torch/beam_search_sep_ended.py:157-230 | slot facts and count facts of a repacked step together |
| SepEnded.RowCounts | users/zeyer/decoding/beam_search_torch/beam_search_sep_ended.py:142-168 | a row with an active slot has not reached `max_seq_len`; active plus ended never exceed the row width (nor `beam_and_ended_size` when it prunes); a packed active slot scores above `BAD` exactly below the row's active count |
| SepEnded.StepCounts | users/zeyer/decoding/beam_search_torch/beam_search_sep_ended.py:157-168 | the same count facts for every row of a step |
| SepEnded.CombineChecked | users/zeyer/decoding/beam_search_torch/beam_search_sep_ended.py:98-138 | the combined row: its first `beam_size` slots are the fresh candidates (score, label, backref, not carried), the rest the ended pool with its scores and backrefs `layoutW + j`, and every slot has the slot facts |
| SepEnded.CombinedIsExtended | users/zeyer/decoding/beam_search_torch/beam_search_sep_ended.py:98-138 | fresh top-k candidates followed by the carried pool make a row that is `ExtendedOk` |
| SepEnded.LabelLogProbs | users/zeyer/decoding/beam_search_torch/beam_search_sep_ended.py:86-88 | the scorer gives one log-probability per label after a hypothesis |
| SepEnded.FreshSlotScore | users/zeyer/decoding/beam_search_torch/beam_search_sep_ended.py:86-99 | a fresh combined slot has a backref `q` into the active input beam, and its score is the input score of `q` plus the log-probability of its label in the state reached from `q` |
| SepEnded.CarriedSlotScore | users/zeyer/decoding/beam_search_torch/beam_search_sep_ended.py:104-116 | a carried combined slot has backref `layoutW + j` and the score of ended-pool entry `j` |
| SepEnded.LaidOutSlot | users/zeyer/decoding/beam_search_torch/beam_search_sep_ended.py:193-230 | a valid slot of a laid-out row is the source slot it was gathered from (score, backref, and label in the active part), of the class of its part |
| SepEnded.SlotOrigin | users/zeyer/decoding/beam_search_torch/beam_search_sep_ended.py:142-230 | a valid slot of a computed step is a combined slot the pruning kept, with its score and backref, and in the active part its label and not carried |
| SepEnded.ActiveSlotScore | users/zeyer/decoding/beam_search_torch/beam_search_sep_ended.py:86-230 | a valid active slot of a computed step extends input slot `q` (its backref, below the active input width): score = input score of `q` + log-probability of its label in the state reached from `q` (see also line 98) |
| SepEnded.EndedSlotScore | users/zeyer/decoding/beam_search_torch/beam_search_sep_ended.py:98-230 | a valid ended slot of a computed step either extends active input slot `q` by some label `v` (score = input score + log-probability of `v`), or is ended-pool entry `q - layoutW` with that entry's score (see also lines 104-116) |
| SepEndedLoop.InitialInputs | users/zeyer/decoding/beam_search_torch/beam_search_sep_ended.py:71-84 | the first step's inputs: one hypothesis per row, `bos`, score 0, initial state, no ended pool |
| SepEndedLoop.MaskActive | users/zeyer/decoding/beam_search_torch/beam_search_sep_ended.py:330-335 | flagged rows get `bad_score` on their active columns |
| SepEndedLoop.MaskCounts | users/zeyer/decoding/beam_search_torch/beam_search_sep_ended.py:336-341 | flagged rows get an active count of 0 |
| SepEndedLoop.MaskedMaxZero | users/zeyer/decoding/beam_search_torch/beam_search_sep_ended.py:342-344 | the masked maximum is 0 exactly when every row is flagged or has no active hypothesis |
| SepEndedLoop.DetectEnded | users/zeyer/decoding/beam_search_torch/beam_search_sep_ended.py:307-347 | end detection: flagged rows lose their active hypotheses, the new active width is the largest remaining count, and the loop stops when it is 0 |
| SepEndedLoop.ExitFacts | users/zeyer/decoding/beam_search_torch/beam_search_sep_ended.py:305-344 | the exit test: the exit scores, and the loop stops exactly when no unflagged active hypothesis remains |
| SepEndedLoop.CarryOver | users/zeyer/decoding/beam_search_torch/beam_search_sep_ended.py:346-360 | what goes on: the active scores and labels are the first `nextActW` columns of the exit scores and packed labels; the states are gathered through the backrefs; the ended pool is the ended part of the step rescaled by `((i+1)/i)**e`, so the next step's inputs meet `StepInputs` |
| SepEndedLoop.NextInputs | users/zeyer/decoding/beam_search_torch/beam_search_sep_ended.py:346-360 | the pools carried into the next step satisfy the loop's input invariant |
| SepEndedLoop.InputAt | users/zeyer/decoding/beam_search_torch/beam_search_sep_ended.py:85-88 | what the step inputs say about slot `q`: an active input has the previous step's label and exit score (`bos` and 0 at the first step); an ended input has the previous step's score times `EndFactor` |
| SepEndedLoop.TracedStep | users/zeyer/decoding/beam_search_torch/beam_search_sep_ended.py:85-360 | a traced history records and computes each of its steps |
| SepEndedLoop.ComputedAt | users/zeyer/decoding/beam_search_torch/beam_search_sep_ended.py:85-233 | every entry of a computed trace is computed from its inputs |
| SepEndedLoop.RecordedActiveScore | users/zeyer/decoding/beam_search_torch/beam_search_sep_ended.py:86-99 | a valid active slot of recorded step `t` extends its backref `q`, an active input slot: its score is the exit score of `q` after step `t - 1` (0 at the first step) plus the log-probability of its label after `q`'s label in `q`'s recorded state |
| SepEndedLoop.RecordedEndedScore | users/zeyer/decoding/beam_search_torch/beam_search_sep_ended.py:98-116 | a valid ended slot of recorded step `t` either extends an active input slot `q` by some label, scoring exit score plus log-probability, or is the ended slot `q` of step `t - 1`, scoring its score times `((t+1)/t)**e` (see also lines 355-360) |
| SepEndedLoop.EndedSlotInputs | users/zeyer/decoding/beam_search_torch/beam_search_sep_ended.py:98-116 | the ended-slot score facts of one computed step, restated in terms of the history |
| SepEndedLoop.InputsPrefix | users/zeyer/decoding/beam_search_torch/beam_search_sep_ended.py:85-88 | the inputs of a step depend only on the steps before it |
| SepEndedLoop.RecordedPrefix | users/zeyer/decoding/beam_search_torch/beam_search_sep_ended.py:232-233 | a recorded step stays recorded when later steps are appended |
| SepEndedLoop.NewStepRecorded | users/zeyer/decoding/beam_search_torch/beam_search_sep_ended.py:232-233 | the step a pass runs is recorded in the history it appends to, with the inputs the pass handed it |
| SepEndedLoop.RecordedExtended | users/zeyer/decoding/beam_search_torch/beam_search_sep_ended.py:232-233 | appending a recorded step keeps every step recorded |
| SepEndedLoop.ComputedExtended | users/zeyer/decoding/beam_search_torch/beam_search_sep_ended.py:232-233 | appending a computed step keeps every step computed |
| SepEndedLoop.Settle | users/zeyer/decoding/beam_search_torch/beam_search_sep_ended.py:305-360 | after the step: stop with the exit scores when no unflagged active hypothesis is left; otherwise the next pass's inputs, and the loop went on |
| SepEndedLoop.Advance | users/zeyer/decoding/beam_search_torch/beam_search_sep_ended.py:85-360 | one loop pass: the new step is recorded (`TraceRecorded`: its inputs are the exit scores and labels of the previous step and its rescaled ended pool) and computed from those inputs (`TraceComputed`: top-k, prune, layout); then either the inputs of the next pass or the stop with the exit scores |
| SepEndedLoop.Pass | users/zeyer/decoding/beam_search_torch/beam_search_sep_ended.py:85-360 | one pass from a running state to the next running state or to the exit, the trace growing by the step this pass ran on its own inputs |
| SepEndedLoop.Start | users/zeyer/decoding/beam_search_torch/beam_search_sep_ended.py:71-84 | the state before the first pass |
| SepEndedLoop.Run | users/zeyer/decoding/beam_search_torch/beam_search_sep_ended.py:85-360 | the `while True` loop runs passes until one exits, within the step bound, with every step traced |
| SepEndedLoop.Finish | users/zeyer/decoding/beam_search_torch/beam_search_sep_ended.py:362-379 | final scores scaled by `(1/n)**e` when `e != 0`; every final slot resolved to its chain of labels |
| SepEndedLoop.Search | users/zeyer/decoding/beam_search_torch/beam_search_sep_ended.py:19-379 | `beam_search_sep_ended`: every recorded step keeps the packed layout, slot facts and scorer states, and is the layout of the pruned top-k computed from the exit scores, labels and rescaled ended pool the step before it left (`Traced`); the loop went on after every step but the last and stopped after it; the outputs are the chains, normalized exit scores and lengths of the final slots |
| SepEndedLoop.CarryOffsetAsWritten | users/zeyer/decoding/beam_search_torch/beam_search_sep_ended.py:110-113 | the offset the source adds to carried ended entries is the active width after end detection, at most the width the packed step used, and equal to it without end detection (see also line 342) |
| SepEndedLoop.CarryOffsetAsWrittenMisses | users/zeyer/decoding/beam_search_torch/beam_search_sep_ended.py:110-113 | a concrete two-row step where end detection lowers the width, and the carried ended entry gets a backref to an active slot instead of to itself (see also line 342) |
| StateTying.FlagsOf | users/mann/setups/state_tying.py:44-51 | the flag suffix is empty exactly when the allophone is neither word-initial nor word-final, and has two characters per set flag |
| StateTying.FlagsRecover | users/mann/setups/state_tying.py:44-51 | the substring tests `"@i" in flags` and `"@f" in flags` give back the two booleans the flags were written from (see also line 25) |
| StateTying.ParseParts | users/mann/setups/state_tying.py:7-25 | on a line whose fields and flags hold no delimiter and whose text after the index holds no space, where the greedy groups split at the single delimiters, `parse_line` of `phon{prev+next}flags<sep>S idx` gives the phone, both contexts, the flags read by substring tests, the state digit and the index digits as integers |
| StateTying.ParseWrite | users/mann/setups/state_tying.py:20-51 | round trip: parsing the line `write()` produces for an allophone with delimiter-free fields, a state in 0..2 and a non-negative index gives the allophone back |
| StateTying.WriteParse | users/mann/setups/state_tying.py:20-42 | round trip: a canonical line (flags "", "@i", "@f" or "@i@f", separator ".", index without leading zeros) that is parsed and written again is the line itself |
| StateTying.WriteOmitIdx | users/mann/setups/state_tying.py:31-42 | `write(omit_idx=True)` is the full line without its trailing space and index, and is `write_phon()` followed by "." and the state |
| StateTying.EowTransform | users/mann/setups/state_tying.py:91-98 | after stripping the newlines, a line without exactly one space fails to unpack (`ValueError`); a `phon idx` line whose phone holds an exception or no "@f" comes back unchanged; otherwise it succeeds exactly when `idx` parses, and then splits into the phone and the index plus `num_states` |
| StateTying.EowTransformLine | users/mann/setups/state_tying.py:91-98 | on a line `phon idx` the phone is kept and the index is raised by `num_states` exactly when the phone has "@f" and contains no exception |
| StateTying.EowShiftReadsBack | users/mann/setups/state_tying.py:97-98 | the rewritten line of a word-final allophone splits back into the phone and an index that parses to `idx + num_states` |
| StateTying.IndexOf | users/mann/setups/state_tying.py:147-148 | `list.index`: absent exactly when the element is not in the list, otherwise the position of its first occurrence |
| StateTying.DiphoneIndexDigits | users/mann/setups/state_tying.py:137-149 | a non-exception index lies below `P * (P + 1) * H` and its mixed-radix digits are the phone's position, the left context's position (with "#" last) and the state |
| StateTying.DiphoneIndexInjective | users/mann/setups/state_tying.py:141-149 | two non-exception allophones with the same new index have the same phone, left context and state |
| StateTying.DiphoneExceptionAfterBlock | users/mann/setups/state_tying.py:140-145 | an exception's new index keeps its distance from the block start: it moves from after the `P * H` monophone states to after the `P * (P + 1) * H` diphone states |
| StateTying.StateZero | users/mann/setups/state_tying.py:170-173 | the kept allophones are exactly the state-0 ones |
| StateTying.StateZeroConcat | users/mann/setups/state_tying.py:170-173 | `filter` keeps order and duplicates: the state-0 allophones of a concatenation are those of each part, in turn |
| StateTying.StateZeroAppend | users/mann/setups/state_tying.py:170-173 | one more line read appends its allophone exactly when it is of state 0 |
| StateTying.SortedSet | users/mann/setups/state_tying.py:177-179 | `sorted(set(idxs))`: strictly increasing with exactly the elements of the input |
| StateTying.OneStateTying | users/mann/setups/state_tying.py:169-185 | the output keeps the state-0 allophones in order with only the index changed, and every new index is below the state count |
| StateTying.OneStateRank | users/mann/setups/state_tying.py:179-181 | each new index is the position of the old index in `sorted(set(idxs))` |
| StateTying.OneStateOrder | users/mann/setups/state_tying.py:179-181 | renumbering keeps order and equality: two new indices compare exactly as the old ones do |
| StateTying.OneStateDense | users/mann/setups/state_tying.py:177-181 | every number below the state count is the new index of some kept allophone |
| StateTying.OneStateCount | users/mann/setups/state_tying.py:177-178 | `num-states` is the number of distinct indices among the state-0 allophones |
| StateTying.Duplicate | users/mann/setups/state_tying.py:198-205 | the output has one line per state: one for an exception phone, `states_per_phon` for every other allophone |
| StateTying.DuplicateAt | users/mann/setups/state_tying.py:200-205 | the lines of allophone `j` form one block after those of its predecessors, and line `s` of the block is that allophone with state `s` |
| BlankCollapse.LeadingBlanks | users/gruev/implementations/pytorch/blank_collapse.py:36 | the length of the maximal run of blank frames at the start |
| BlankCollapse.TrailingBlanks | users/gruev/implementations/pytorch/blank_collapse.py:37 | the length of the maximal run of blank frames at the end |
| BlankCollapse.Bounds | users/gruev/implementations/pytorch/blank_collapse.py:39-43 | unless every frame is blank, a label frame lies between the leading and the trailing blank runs |
| BlankCollapse.Kept | users/gruev/implementations/pytorch/blank_collapse.py:4-50 | the reference definition of the collapse: the frames between the first and last label frame that are not a blank followed by a blank, strictly increasing |
| BlankCollapse.KeptNonEmpty | users/gruev/implementations/pytorch/blank_collapse.py:22-24 | a mask with a label frame keeps at least one frame |
| BlankCollapse.Runs | users/gruev/implementations/pytorch/blank_collapse.py:33 | `unique_consecutive(return_counts=True)`: consecutive runs of equal flags whose counts cover the mask (see also line 8) |
| BlankCollapse.RunOf | users/gruev/implementations/pytorch/blank_collapse.py:8-10 | each frame lies in exactly one run and carries its value |
| BlankCollapse.FirstRun | users/gruev/implementations/pytorch/blank_collapse.py:36 | a blank first run is exactly the leading blank run (see also lines 14-15) |
| BlankCollapse.LastRun | users/gruev/implementations/pytorch/blank_collapse.py:37 | a blank last run is exactly the trailing blank run (see also lines 16-17) |
| BlankCollapse.LabelRunKept | users/gruev/implementations/pytorch/blank_collapse.py:20-21 | every frame of a label run is kept |
| BlankCollapse.BlankRunKept | users/gruev/implementations/pytorch/blank_collapse.py:18-19 | of a blank run between label runs only its last frame is kept |
| BlankCollapse.LeadingRunDropped | users/gruev/implementations/pytorch/blank_collapse.py:14-15 | no frame of a blank first run is kept |
| BlankCollapse.TrailingRunDropped | users/gruev/implementations/pytorch/blank_collapse.py:16-17 | no frame of a blank last run is kept |
| BlankCollapse.IndicesAppend | users/gruev/implementations/pytorch/blank_collapse.py:19-25 | appending a blank run's count appends one index, the run's last frame |
| BlankCollapse.IndicesOnes | users/gruev/implementations/pytorch/blank_collapse.py:21-25 | appending `[1] * c` appends the indices of the run's `c` frames |
| BlankCollapse.PyIndex | users/gruev/implementations/pytorch/blank_collapse.py:26 | a Python integer index succeeds exactly within `-len .. len-1` |
| BlankCollapse.PyGather | users/gruev/implementations/pytorch/blank_collapse.py:26 | `emission[indices]` succeeds exactly when every index does, and picks those frames |
| BlankCollapse.RunCounts | users/gruev/implementations/pytorch/blank_collapse.py:7-21 | the loop over the runs yields a leading count and counts whose shifted running sums are exactly the kept frames |
| BlankCollapse.CollapseInit | users/gruev/implementations/pytorch/blank_collapse.py:4-28 | `blank_collapse_init` succeeds exactly on a non-empty mask; with a label frame the indices are the kept frames and the new emission those frames; on an all-blank mask it returns the last frame with index -1 |
| BlankCollapse.LastFrame | users/gruev/implementations/pytorch/blank_collapse.py:22-26 | the fallback counts `[0]` give the index -1, which picks the last frame and fails on no frames |
| BlankCollapse.EdgeCounts | users/gruev/implementations/pytorch/blank_collapse.py:35-37 | the first and last run counts, taken only when blank, are the leading and trailing blank run lengths |
| BlankCollapse.CyclicFlags | users/gruev/implementations/pytorch/blank_collapse.py:44-48 | `~(blanks & roll(blanks, -1))`: a frame is dropped when it and its cyclic successor are blank |
| BlankCollapse.SingleIsKept | users/gruev/implementations/pytorch/blank_collapse.py:31-50 | `blank_collapse_single` fails exactly on an empty or all-blank mask, and otherwise keeps exactly the frames of the reference collapse |
| BlankCollapse.SegmentKept | users/gruev/implementations/pytorch/blank_collapse.py:42-48 | inside the cut the cyclic wrap-around never drops a frame the reference keeps, and never keeps one it drops |
| BlankCollapse.CollapseSingle | users/gruev/implementations/pytorch/blank_collapse.py:47-48 | the collapsed log-probs succeed exactly when the kept frames do, one frame per kept position |
| BlankCollapse.CollapseSingleFrames | users/gruev/implementations/pytorch/blank_collapse.py:47-50 | the collapsed log-probs are the input frames at the reference's kept positions |
| BlankCollapse.RowMask | users/gruev/implementations/pytorch/blank_collapse.py:66-69 | frames at or after the row's length are marked blank |
| BlankCollapse.BatchedFlags | users/gruev/implementations/pytorch/blank_collapse.py:83-92 | a frame is kept when it is not blank followed cyclically by blank and lies between the row's first and last label frame |
| BlankCollapse.LabelBounds | users/gruev/implementations/pytorch/blank_collapse.py:72-80 | the first and last label frames of a row, bounding every label frame |
| BlankCollapse.BatchedRowIsKept | users/gruev/implementations/pytorch/blank_collapse.py:72-95 | the batched keep mask of a row keeps exactly the frames of the reference collapse |
| BlankCollapse.Max | users/gruev/implementations/pytorch/blank_collapse.py:101 | `torch.max`: an entry of the list bounding every entry |
| BlankCollapse.PadZeros | users/gruev/implementations/pytorch/blank_collapse.py:115-117 | `pad_sequence`: the row's indices followed by zeros up to the width |
| BlankCollapse.GatherPadded | users/gruev/implementations/pytorch/blank_collapse.py:121 | the row gathered at the padded indices: the kept frames, then frame 0 |
| BlankCollapse.PaddingIgnored | users/gruev/implementations/pytorch/blank_collapse.py:66-69 | marking the padding blank collapses a row as its unpadded part would be collapsed |
| BlankCollapse.CollapsedWithinLength | users/gruev/implementations/pytorch/blank_collapse.py:92-98 | a collapsed row keeps frames only within its length, so its new length never exceeds its old one |
| BlankCollapse.CollapseBatchedSucceeds | users/gruev/implementations/pytorch/blank_collapse.py:53-125 | the batched collapse succeeds exactly on a non-empty batch whose every row has a label frame within its length |
| BlankCollapse.CollapseBatchedRow | users/gruev/implementations/pytorch/blank_collapse.py:53-125 | each row of the result is the reference collapse of its unpadded part, padded with frame 0 to the longest new length, and the new length is the number of kept frames, at most the old length |
| PipelineData.ValueInjective | users/raissi/setups/common/helpers/pipeline_data.py:6-18 | distinct context models have distinct RASR string values |
| PipelineData.GetEnum | users/raissi/setups/common/helpers/pipeline_data.py:21-35 | `get_enum` is defined exactly on the ids 1 to 8, gives the value of the mapped context model there, and raises `KeyError` elsewhere |
| PipelineData.GetEnumInjective | users/raissi/setups/common/helpers/pipeline_data.py:23-32 | different ids map to different context values |
| PipelineData.GetEnumOnto | users/raissi/setups/common/helpers/pipeline_data.py:6-32 | every context model's value is reached by some id in 1..8 |
| PipelineData.WordEndDoubles | users/raissi/setups/common/helpers/pipeline_data.py:62-66 | the word-end class doubles the state classes and the dense classes; without it the state classes are states per phone times contexts |
| PipelineData.ClassesPositive | users/raissi/setups/common/helpers/pipeline_data.py:62-66 | with at least one state and one context there is at least one state class, and no more state classes than dense classes |
| PipelineData.NewPipelineStages | users/raissi/setups/common/helpers/pipeline_data.py:70-74 | the stage table has exactly the alignment keys as keys, each with its context dictionary |
| PipelineData.ContextDictKeys | users/raissi/setups/common/helpers/pipeline_data.py:76-84 | every context dictionary has exactly the six context types as keys |
| PipelineData.GetNameSpec | users/raissi/setups/common/helpers/pipeline_data.py:86-87 | `get_name` succeeds exactly for a listed alignment key and one of the six context types, and then gives `<prefix>-from-<alignment key>` (with "tridelta" for "tri-delta") |
| PipelineData.ContextDictAt | users/raissi/setups/common/helpers/pipeline_data.py:77-84 | each context type maps to its stage prefix followed by "-from-" and the alignment key |
| DumpPyCode.Lower | common/utils/dump_py_code.py:265-267 | `.lower()` on one character: an upper-case letter becomes the letter at the same place of the lower-case alphabet, and any other character is unchanged |
| DumpPyCode.SnakeCase | common/utils/dump_py_code.py:265-267 | the snake-cased class name has no upper-case letter and starts with the lower-cased first character |
| DumpPyCode.SnakeCaseFirst | common/utils/dump_py_code.py:265-267 | the first character is only lower-cased: the `(?<!^)` look-behind puts no underscore before it |
| DumpPyCode.SnakeCaseAppend | common/utils/dump_py_code.py:265-267 | each later character adds an underscore exactly when it is upper-case, then itself lower-cased, so the underscores sit before the upper-case letters |
| DumpPyCode.SnakeTail | common/utils/dump_py_code.py:265-267 | after the first character, one underscore is inserted per upper-case letter and nothing is upper-case |
| DumpPyCode.SnakeTailConcat | common/utils/dump_py_code.py:265-267 | the substitution works character by character: snake-casing a concatenated tail is snake-casing each part |
| DumpPyCode.SnakeTailChar | common/utils/dump_py_code.py:265-267 | one tail character becomes `_` and its lower-case form when upper-case, and its lower-case form otherwise |
| DumpPyCode.SnakeCaseLetters | common/utils/dump_py_code.py:265-267 | snake-casing only inserts underscores and lower-cases: without underscores it equals the lower-cased name without underscores |
| DumpPyCode.BaseName | common/utils/dump_py_code.py:261-269 | the base is the type's own name, or for any other object the snake-cased name of its class, with `_` prepended unless it already starts with `_`; so it always starts with `_` |
| DumpPyCode.Candidate | common/utils/dump_py_code.py:272 | candidate 0 is the base itself, and candidate `i > 0` is the base followed by `str(i)` |
| DumpPyCode.CandidateInjective | common/utils/dump_py_code.py:270-276 | different counters give different candidate names |
| DumpPyCode.CandidatesCard | common/utils/dump_py_code.py:270-276 | the first `n` candidates are `n` distinct names, so the search for a free one ends |
| DumpPyCode.FirstFreeUnique | common/utils/dump_py_code.py:270-276 | there is exactly one first free candidate |
| DumpPyCode.FreshNamesAvoidLhs | common/utils/dump_py_code.py:268-269 | a generated name never coincides with a user left-hand side that `dump` accepts (see also lines 48-50) |
| DumpPyCode.PythonCodeDumper.constructor | common/utils/dump_py_code.py:35-40 | the dumper starts with no reserved names, an empty memo, no imports and no output |
| DumpPyCode.PythonCodeDumper.RegisterObj | common/utils/dump_py_code.py:254-258 | an object already in the memo keeps its first name; otherwise it is remembered under the name, which becomes reserved |
| DumpPyCode.PythonCodeDumper.NewNameForObj | common/utils/dump_py_code.py:260-276 | returns and reserves the first candidate not yet reserved; it starts with an underscore and nothing else changes |
| DumpPyCode.PythonCodeDumper.ImportUserMod | common/utils/dump_py_code.py:278-282 | writes `import <name>` exactly when the module is not imported yet, and records it |
| DumpPyCode.PythonCodeDumper.ImportReserved | common/utils/dump_py_code.py:284-294 | writes the module's import line from the table exactly when it is not imported yet; a name outside the table raises `KeyError`; no import line is ever written twice |
| DumpPyCode.PythonCodeDumper.DumpObj | common/utils/dump_py_code.py:56-111 | the new memo, reserved names, imports and output are `DumpSpec` of the old ones, so everything proved about `DumpSpec` holds of the lines the method writes |
| DumpPyCode.PythonCodeDumper.DumpState | common/utils/dump_py_code.py:95-111 | the new state is `AttrsSpec` of the old one over all attributes: each attribute dumped in order at `lhs.key`, consulting the memo |
| DumpPyCode.PythonCodeDumper.NameForObj | common/utils/dump_py_code.py:247-252 | a remembered object gives its name with no output; otherwise the first free fresh name is reserved and the object is dumped to it as `DumpSpec` says, without consulting the memo, and is remembered under it |
| DumpPyCode.PythonCodeDumper.Dump | common/utils/dump_py_code.py:42-54 | `dump` fails exactly on a left-hand side starting with `_`, naming a reserved module or not an identifier, changing nothing; otherwise the new state is `DumpSpec` of the old one with the memo and reserved names forgotten and the imports kept |
| DumpPyCode.ImportSpec | common/utils/dump_py_code.py:278-282 | the module joins the imports, and `import <name>` is appended to the output exactly when it was not imported before; memo and reserved names are untouched |
| DumpPyCode.RegisterSpec | common/utils/dump_py_code.py:254-258 | the id is remembered, under the given name only if it was new; earlier entries are kept; output and imports are untouched |
| DumpPyCode.DumpSpec | common/utils/dump_py_code.py:56-111 | every dump strictly extends the output, only adds imports and keeps every earlier memo entry |
| DumpPyCode.AttrsSpec | common/utils/dump_py_code.py:104-108 | dumping the first `k` attributes only extends the output, only adds imports and keeps every earlier memo entry |
| DumpPyCode.DumpBinds | common/utils/dump_py_code.py:56-93 | every dump writes, after the earlier output, a line `lhs = ...` binding its left-hand side |
| DumpPyCode.InstanceOutput | common/utils/dump_py_code.py:91-94 | an instance not taken from the memo writes its module's import line if the module is new, then `lhs = object.__new__(module.qualname)`, and after that only its attributes; the module ends up imported and the instance remembered, under `lhs` when it was new |
| DumpPyCode.AttributeOrder | common/utils/dump_py_code.py:104-108 | attribute `j` is dumped after attributes `0 .. j-1` and before the later ones, and its part of the output holds a line binding `lhs.key` |
| BpeLexicon.AllTokensMembers | users/rossenbach/lexicon/bpe_lexicon.py:52-63 | a token is collected exactly when some lemma without `special` has it among its orths, its synt tokens or its eval tokens |
| BpeLexicon.SpecialsFilter | users/rossenbach/lexicon/bpe_lexicon.py:55-65 | the special lemmas are exactly the lemmas with `special` set, in lexicon order |
| BpeLexicon.AddTokens | users/rossenbach/lexicon/bpe_lexicon.py:57-63 | the loop adds every token of the list to the set |
| BpeLexicon.FillLmTokens | users/rossenbach/lexicon/bpe_lexicon.py:52-68 | `_fill_lm_tokens` returns exactly the collected tokens of the ordinary lemmas and the special lemmas in order |
| BpeLexicon.Strip | users/rossenbach/lexicon/bpe_lexicon.py:75 | `strip()`: no longer than the input and with no whitespace at either end (see also line 125) |
| BpeLexicon.StripTrims | users/rossenbach/lexicon/bpe_lexicon.py:75 | `strip()` removes only surrounding whitespace: the result is a slice of the line with only whitespace before and after it |
| BpeLexicon.SplitWs | users/rossenbach/lexicon/bpe_lexicon.py:130 | `split()`: every token is non-empty and holds no whitespace |
| BpeLexicon.SplitJoin | users/rossenbach/lexicon/bpe_lexicon.py:130 | splitting the space-joined tokens gives the tokens back |
| BpeLexicon.ReplaceJoin | users/rossenbach/lexicon/bpe_lexicon.py:130-131 | replacing `.` by `_` after joining equals joining the replaced tokens |
| BpeLexicon.RawSymbols | users/rossenbach/lexicon/bpe_lexicon.py:74-81 | the kept symbols of the vocabulary lines are never the unknown label |
| BpeLexicon.FillVocab | users/rossenbach/lexicon/bpe_lexicon.py:70-88 | the vocabulary is exactly the kept symbols with `.` replaced by `_`, and the fake-count file has one `<symbol> -1` line per kept symbol, in order |
| BpeLexicon.SymbolOf | users/rossenbach/lexicon/bpe_lexicon.py:80 | a quoted symbol without a colon, followed by a colon, reads back as the symbol |
| BpeLexicon.VocabHasNoDots | users/rossenbach/lexicon/bpe_lexicon.py:84-85 | no vocabulary symbol contains `.` |
| BpeLexicon.UnkExcluded | users/rossenbach/lexicon/bpe_lexicon.py:81-85 | the unknown label never gets a fake count, and never enters the vocabulary unless it holds `_` |
| BpeLexicon.SkippedLines | users/rossenbach/lexicon/bpe_lexicon.py:76-79 | the brace and sentence-boundary lines contribute nothing |
| BpeLexicon.QuotedLineKept | users/rossenbach/lexicon/bpe_lexicon.py:75-85 | a line holding a quoted symbol other than the unknown label contributes that symbol |
| BpeLexicon.SubstituteTokens | users/rossenbach/lexicon/bpe_lexicon.py:129-131 | after substitution the pronunciation has as many tokens as the BPE line; each is the token with dots replaced if that is in the vocabulary, and otherwise the unknown label with dots replaced |
| BpeLexicon.SingleTokenAsWritten | users/rossenbach/lexicon/bpe_lexicon.py:130-131 | as written, a single token outside the vocabulary becomes the unknown label |
| BpeLexicon.DottedTokenLost | users/rossenbach/lexicon/bpe_lexicon.py:84-85 | a vocabulary line `'a.b': 7` stores `a_b`; the as-written substitution then turns the BPE token `a.b` into the unknown label, the corrected one into `a_b` (see also lines 130-131) |
| BpeLexicon.BpeLemmas | users/rossenbach/lexicon/bpe_lexicon.py:124-131 | one lemma per word and BPE line as far as both go, with the word as orth and the substituted stripped line as phon |
| BpeLexicon.OutputLemmas | users/rossenbach/lexicon/bpe_lexicon.py:102-131 | the special lemmas come first when they are kept, then the BPE lemmas; otherwise only the BPE lemmas |
| EspnetAdaptiveSearch.LessTotal | users/zeineldeen/experiments/aed_beam_search/configs/espnet_adaptive_search.py:43 | Python's string order on keys is total: two different keys compare one way or the other |
| EspnetAdaptiveSearch.SortPermutes | users/zeineldeen/experiments/aed_beam_search/configs/espnet_adaptive_search.py:43 | `sorted(args.items())` rearranges the items |
| EspnetAdaptiveSearch.SortSorted | users/zeineldeen/experiments/aed_beam_search/configs/espnet_adaptive_search.py:43 | with distinct keys, the sorted items are strictly increasing by key |
| EspnetAdaptiveSearch.SortedUnique | users/zeineldeen/experiments/aed_beam_search/configs/espnet_adaptive_search.py:43 | two strictly key-sorted arrangements of the same items are the same sequence |
| EspnetAdaptiveSearch.ItemStep | users/zeineldeen/experiments/aed_beam_search/configs/espnet_adaptive_search.py:44-56 | "dataset" is skipped exactly; any other dict value is descended into; any other non-bool, non-number, non-string value fails the assertion; a true flag appends `k-`, a false one `Wo_k-`, and an int, float or str value `k_v-` with `v` in its f-string form |
| EspnetAdaptiveSearch.GetExpDesc | users/zeineldeen/experiments/aed_beam_search/configs/espnet_adaptive_search.py:41-57 | the loop with its early return after a nested dict computes the reference description |
| EspnetAdaptiveSearch.DescShape | users/zeineldeen/experiments/aed_beam_search/configs/espnet_adaptive_search.py:41-57 | the description extends the text so far, and adds nothing or ends with "-" |
| EspnetAdaptiveSearch.ExpDescEndsWithDash | users/zeineldeen/experiments/aed_beam_search/configs/espnet_adaptive_search.py:57-60 | a non-empty description ends with "-" |
| EspnetAdaptiveSearch.OrderIrrelevant | users/zeineldeen/experiments/aed_beam_search/configs/espnet_adaptive_search.py:43 | two dicts with the same items, in whatever insertion order, have the same description |
| EspnetAdaptiveSearch.DictDropsRest | users/zeineldeen/experiments/aed_beam_search/configs/espnet_adaptive_search.py:46-48 | a dict value ends the description: keys sorted after it contribute nothing |
| EspnetAdaptiveSearch.ExpName | users/zeineldeen/experiments/aed_beam_search/configs/espnet_adaptive_search.py:35-68 | the name is built exactly when the dataset and the recognition arguments are present and their description succeeds and is non-empty; it is `pylasr_beam_search/`, the description without its final "-", "-suffix" and "-hash_version" when non-empty, then "/dataset" |
| StateTying.Parse | users/mann/setups/state_tying.py:7-25 | a line without all four delimiters `{`, `+`, `}` and a space does not parse (where `m.groups()` raises); a parsed allophone has non-empty phone and context fields without newlines, a state in 0..2 and a non-negative index, as the pattern's `[0-2]` and `\d+` demand |
| StateTying.Write | users/mann/setups/state_tying.py:36-42 | the written line contains a space exactly when the index is kept: `omit_idx` cuts the line at its first space, which is the one before the index |
| StateTying.DiphoneIndex | users/mann/setups/state_tying.py:137-149 | the new index is undefined (`list.index` raises) exactly when the allophone is not an exception and its phone is not among the phones or its left context is neither a phone nor "#" |
| StateTying.Renumber | users/mann/setups/state_tying.py:180-183 | the renumbered list has the same length, and each allophone is the original one with only its index replaced by the map's value for that index |
| BlankCollapse.CollapseBatched | users/gruev/implementations/pytorch/blank_collapse.py:53-125 | no contract of its own: BlankCollapse.CollapseBatchedSucceeds states when it succeeds and BlankCollapse.CollapseBatchedRow states each row of its result against the single-sequence reference |
| BpeLexicon.Substitute | users/rossenbach/lexicon/bpe_lexicon.py:129-131 | the pronunciation contains no `.`, as the final `replace(".", "_")` guarantees; BpeLexicon.SubstituteTokens states it token by token |
| BpeLexicon.SubstituteAsWritten | users/rossenbach/lexicon/bpe_lexicon.py:130-131 | the substitution as the source writes it, looking tokens up before their dots are replaced; its output contains no `.` either |
| BpeLexicon.Symbol | users/rossenbach/lexicon/bpe_lexicon.py:80 | the symbol contains no colon, and a non-empty symbol is the line's text from its second character on, ending at least one character before the line's end (the quotes dropped by `[1:-1]`) |
| EspnetAdaptiveSearch.ExpDesc | users/zeineldeen/experiments/aed_beam_search/configs/espnet_adaptive_search.py:41-57 | no contract of its own: EspnetAdaptiveSearch.GetExpDesc computes it, and EspnetAdaptiveSearch.DescShape, ExpDescEndsWithDash, OrderIrrelevant and DictDropsRest state its properties |
| EspnetAdaptiveSearch.Format | users/zeineldeen/experiments/aed_beam_search/configs/espnet_adaptive_search.py:56 | the f-string form of a value: an integer's text parses back to that integer, and a string is written as itself |
| EspnetAdaptiveSearch.SortItems | users/zeineldeen/experiments/aed_beam_search/configs/espnet_adaptive_search.py:43 | `sorted(args.items())` keeps the number of items; EspnetAdaptiveSearch.SortPermutes and SortSorted state that it is a permutation ordered by key |
| PipelineData.NStateClasses | users/raissi/setups/common/helpers/pipeline_data.py:65-66 | the state classes lie between states-per-phone times contexts and twice that, and equal the product when there is no word-end class |
| PipelineData.NDenseClasses | users/raissi/setups/common/helpers/pipeline_data.py:62-63 | the dense classes are zero without contexts, and otherwise at least the state classes; PipelineData.DenseClassesAreTriples gives their exact number |
| PipelineData.DenseClassesAreTriples | users/raissi/setups/common/helpers/pipeline_data.py:62-66 | `get_n_of_dense_classes` is the number of (left context, center state class, right context) triples: one per state class and pair of contexts |
| PipelineData.ContextDict | users/raissi/setups/common/helpers/pipeline_data.py:76-84 | the context dictionary has exactly the six context types mono, mono-delta, di, di-delta, tri and tri-delta as keys |
| PipelineData.GetName | users/raissi/setups/common/helpers/pipeline_data.py:86-87 | the lookup fails with "KeyError" exactly when the alignment key is missing or its dictionary lacks the context type |
| SepEndedLoop.ExitScores | users/zeyer/decoding/beam_search_torch/beam_search_sep_ended.py:307-347 | no contract of its own: the predicate the exit methods ensure, saying that rows the end detection flags have every active score set to the bad score and all other scores unchanged |
| Text.ParseInt | users/mann/setups/state_tying.py:97 | `int(s)` is defined exactly on digit strings with an optional leading minus sign; Text.IntToStringRoundTrip states `int(str(i)) == i` |
| Text.IntToString | users/mann/setups/state_tying.py:97 | `str(i)` is non-empty and consists of canonical digits, after a minus sign when `i` is negative |
| Text.StripNewlines | users/mann/setups/state_tying.py:92 | `rstrip("\n")` returns a prefix of the line that does not end in a newline, and every character it removed is a newline |
| StateTying.RankMap | users/mann/setups/state_tying.py:179 | `idx_map` has exactly the sorted distinct indices as keys, and maps each to its position in that sorted list, below the number of distinct indices |
| Text.SplitFirst | users/mann/setups/state_tying.py:41 | the split finds nothing exactly when the character does not occur; otherwise the string is the part before, the character and the rest, and the part before does not contain the character, so `split(c)[0]` is that part |
| Text.ReplaceChar | users/rossenbach/lexicon/bpe_lexicon.py:84 | `replace(".", "_")` keeps the length and changes exactly the positions holding the replaced character |
| BpeLexicon.Token | users/rossenbach/lexicon/bpe_lexicon.py:130 | a token of `b.split()` is the longest whitespace-free prefix of what remains: it ends at the end of the text or before a whitespace character |

## Left out

- File, XML and subprocess I/O is not modelled: state-tying files, the BPE vocabulary and lexicon files, the `apply_bpe.py` call and the dumper's output file. Their contents are parameters (sequences of lines) and results (sequences of output lines).
- Floating point is not modelled: scores are exact reals, and `x ** e` is an uninterpreted function parameter. Log-probabilities are not required to be at most 0: with a positive one, a padded `BAD` slot's extension is above `BAD` in exact reals and counts as valid, where in floating point `-1e30 + x` stays `-1e30` and the slot stays invalid. The threshold comparison that produces the blank mask is left out; the mask is an input.
- The label scorer is not modelled: `label_scorer` (its initial state, its update and its per-label log-probabilities) is a record of functions given as a parameter. The `tree.map_structure` plumbing over nested state becomes one state value per slot.
- The ESPnet end detector is a per-row boolean oracle given as a parameter; its own logic is not part of this model.
- The `.utils` helpers imported by the separate-ended-pool search are not part of this model; the `top_k_nd` / `batch_gather` models stand in for them.
- The `out_individual_seq_scores` diagnostics and the `debug_out` printing of the separate-ended-pool search are left out. They do not affect the search result.
- TensorOps.TopKNd: splits the flat top-k indices with the intended mod/div unravel (`TensorOps.UnravelIndex`). As written, lines 125-127 raise `AttributeError` on every call, so the written `top_k_nd` never returns the pairs this contract describes (`TensorOps.UnravelAsWrittenRaises`, see Findings).
- TensorOps.TopKNdBatch: the same intended unravel, row by row; the written function raises on every call as for `TensorOps.TopKNd`.
- TensorOps.TopK: the order among equal scores is left open. The contract states only that the result is a top-k: distinct indices and non-increasing values, no unchosen entry larger than a chosen one. `torch.topk` does not specify tie order.
- BeamSearch.ExtendAll: filters ended hypotheses one flag per hypothesis (`ended[:, :, None]`). The written `torch.where(ended, ...)` broadcasts `ended` along the wrong axes; it is modelled separately as `BeamSearchWhere.WhereAsWritten` (see Findings), and the decoder uses the intended filter.
- BeamSearch.EndedExtendsOnlyByEos: states the intended per-hypothesis filter, not the written broadcast (see Findings).
- BeamSearch.Expand: extends with the intended per-hypothesis filter, not the written broadcast, so it never raises or widens the beam (see Findings).
- BeamSearch.Step: built on `Expand`, so it also follows the intended filter rather than the written broadcast.
- BeamSearch.Search: the decoder as a whole follows the intended filter and the intended `top_k_nd`. As written, `top_k_nd` raises `AttributeError` at line 127 on the first step of every call, so the written decoder raises on every input. The broadcast of line 68 would misfilter or raise only once that is fixed (see Findings).
- BeamSearch.Search: requires `beam_size <= num_labels` and at least one label. Otherwise `torch.topk` raises on the first step, and that raising path is not modelled.
- SepEnded.Repack: when every row is full, nothing ended and the combined row is wider than the active part, it repacks without a mask instead of raising the `TypeError` of the written code; `SepEnded.RepackAsWritten` models the raising path (see Findings).
- SepEnded.RepackAll: takes `masked` false only on the branch where the written code raises; there it models the evident intent, which `SepEnded.UnmaskedIsMasked` shows equal to masking.
- SepEnded.RepackRows: the unmasked case stands for the same branch as in `SepEnded.RepackAll`.
- SepEnded.PackStep: repacks through `SepEnded.Repack`, so the step never raises the `TypeError` (see Findings).
- SepEnded.Step: built on `SepEnded.PackStep`, with the same difference. It also requires the carried ended pool's offset to be the active width of the recorded layout (`layoutW == h.actWidths[i - 1]`). After end detection the written code offsets by the lowered `max_act_beam_size` instead (lines 111-113 with line 342); `SepEndedLoop.CarryOffsetAsWritten` models that offset (see Findings).
- SepEndedLoop.CarryOver: hands the ended pool on with the recorded active width as its offset, the corrected offset, where the written code passes the `max_act_beam_size` that end detection lowered (`SepEndedLoop.CarryOffsetAsWritten`, see Findings).
- SepEndedLoop.NextInputs: its `LoopInputs` fixes the next carry offset to the recorded active width, the corrected offset, not the lowered `max_act_beam_size` of the written code.
- SepEndedLoop.Settle: when the loop goes on, hands on its inputs with the corrected carry offset, as `SepEndedLoop.CarryOver` does.
- SepEndedLoop.Advance: sets the next carry offset to the recorded active width, the corrected offset, not the lowered `max_act_beam_size` of the written code.
- SepEndedLoop.Pass: runs `SepEndedLoop.Advance`, so it carries the ended pool at the corrected offset.
- SepEndedLoop.Run: every pass carries the ended pool at the corrected offset.
- SepEndedLoop.RecordedEndedScore: names the carried ended entry through the corrected offset. As written, after end detection the carried backref points at another slot (`SepEndedLoop.CarryOffsetAsWrittenMisses`).
- SepEndedLoop.Search: every pass carries the ended pool at the corrected offset (see `SepEndedLoop.Advance`). It requires the same as `SepEnded.Step`, plus a non-empty batch; an empty batch makes `.max()` of an empty tensor raise. It runs the repacking of `SepEnded.Repack`, so it never raises the `TypeError` of the written repacking (see Findings). The incremental rescaling is not claimed to equal `score / len ** e`, since the code does not establish that. The scores are related step by step (`SepEndedLoop.RecordedActiveScore`, `SepEndedLoop.RecordedEndedScore`). There is no closed-form lemma giving a final score as the sum of its chain's log-probabilities: end detection sets scores to `BAD`, and the ended pool is rescaled by `pow`, an uninterpreted function.
- CUDA synchronisation, `.cpu()` and devices are not modelled. The aliasing mechanism of `torch.where(..., out=...)` is not modelled either: each in-place update is a new value of the same shape. Its effect is modelled: the active scores of flagged rows become `BAD` in the exit scores the loop carries on and returns (`SepEndedLoop.ExitScores`, `SepEndedLoop.DetectEnded`).
- StateTying.Parse: splits at the first `{`, `+` and `}` and at the first space after `}`. The regular expression's greedy groups would pick the last split that still matches, so the two agree only on lines whose phone, contexts and flags hold none of these delimiters and whose text after the index holds no space. `StateTying.ParseParts` and the round trips are stated on such lines only; `Parse`'s own contract (failure without the delimiters, the field and number bounds) holds on every line.
- The module-level `parse_line` and `write_allophone` of the state-tying file are not modelled. `_make` with six groups for a seven-field tuple raises, and the job that reads its lines through `parse_line` fails the same way. The diphone index is therefore modelled on allophone values.
- `extract_phons` lists a set, so its order is not determined; the phone list is a parameter of `StateTying.DiphoneIndex`.
- BlankCollapse.CollapseBatched: a row with no label frame within its length is a `Failure`. As written, `torch.unique` would then return fewer counts than rows and the rows would no longer line up; that misaligned output is not modelled.
- DumpPyCode: the serializers for RASR configs, CRPs, `MultiPath`, `tk.Path` and jobs are not modelled (`_dump_crp`, `_dump_rasr_config`, `_dump_multi_path`, `_py_repr_path`, `_make_fake_job`). Neither are the rendering done by `_py_repr` (the `gs.BASE_DIR` rewriting, set ordering by hash) or the multi-line `_dump_dict` form. A container is written as one line with its representation given.
- DumpPyCode.PythonCodeDumper.DumpObj: the `__setstate__` and `(state, slotstate)` forms of an instance's state are not modelled. An instance's state is a list of attributes, each dumped in turn.
- DumpPyCode.ValidLhs: `common/utils/python.py` is not part of this model, so `is_valid_python_identifier_name` is modelled as ASCII identifier syntax. Likewise `lower()` is modelled on ASCII letters only.
- Text.ParseInt: reads only what `str()` writes, an optional `-` and ASCII digits. Python's `int()` also accepts a leading `+`, surrounding whitespace, single underscores between digits and non-ASCII decimal digits; on such an index `StateTying.EowTransform` fails where the source succeeds. The state-tying files it reads hold plain indices.
- The embedding sizes, state tying, silence id, boundary and unknown-phoneme options of `LabelInfo` are stored but never read by the modelled getters, and are left out.
- BpeLexicon.BpeLemmas: builds each pronunciation with the corrected `BpeLexicon.Substitute`, which looks a token up with its dots replaced. As written, line 130 looks up the raw token, so a dotted token becomes the unknown label (`BpeLexicon.SubstituteAsWritten`, `BpeLexicon.DottedTokenLost`, see Findings).
- BpeLexicon: the order in which the token set is listed is not determined, so the words are a parameter of `BpeLemmas`. The phoneme inventory that `add_phoneme` builds (including the special lemmas' phonemes) is not modelled. `strip()` and `split()` use the whitespace of `str.isspace`, listed character by character.
- EspnetAdaptiveSearch: the dataset is a string, the recognition arguments are a dict, and `hash_version=None` is modelled as "". A float's `repr` is an opaque string. The job, alias, requirements and scoring plumbing after the name is built is left out.

## Findings

| source | as written | input that shows it | evidently intended | confidence | as-written member | corrected member |
|---|---|---|---|---|---|---|
| users/zeyer/decoding/beam_search_torch.py:122-127 | `indices_out` is rebound from the result list to the remainder tensor (:125), and `.insert(0, indices_out)` is then called on that tensor (:127), which raises `AttributeError` | any call, for example one dimension of size 3 and flat index 4 | collect `indices % a_dim` per dimension into the list, last listed dimension fastest (a mixed-radix decomposition) | high; not executed | TensorOps.UnravelAsWrittenRaises | TensorOps.UnravelIndex |
| users/zeyer/decoding/beam_search_torch/beam_search_sep_ended.py:110-113 | with end detection on, `max_act_beam_size` is lowered after the step is recorded (:342), and the next step gives the carried ended entries backrefs `max_act_beam_size + j` (:111-113). In the recorded layout of the previous step, the ended entries sit after the old active width | two rows with active counts 2 and 1, row 0 holding active labels 3, 4 and one ended entry; the detector flags row 0, so the offset becomes 1 and the carried entry points at slot 1 (an active hypothesis with label 4) instead of slot 2 | offset the carried entries by the active width of the recorded layout, so that backtracking reaches the ended entry they were copied from | medium; not executed | SepEndedLoop.CarryOffsetAsWrittenMisses | SepEnded.CarriedSlotOk |
| users/rossenbach/lexicon/bpe_lexicon.py:84-85 | the vocabulary stores each symbol with `.` replaced by `_` (:84-85), but the BPE tokens are looked up before that replacement (:130), so a token containing `.` is always replaced by the unknown label | vocabulary line `'a.b': 7` and BPE output `a.b` | look each token up with `.` replaced by `_`, the form the vocabulary stores | medium; not executed | BpeLexicon.DottedTokenLost | BpeLexicon.SubstituteTokens |
| users/zeyer/decoding/beam_search_torch.py:68 | `torch.where(ended, masked_finished_log_prob, label_log_prob)` broadcasts the `[Batch, Beam]` flags against `[Batch, Beam, Vocab]` by right-aligning them, so they line up with `[Beam, Vocab]` | first step with batch 2 and vocabulary 5: the result is `[2, 2, 5]`, and hypothesis 1 of row 0 is filtered by row 1's flag; the top-k can then pick backref 1, out of range for the width-1 states gathered at :74. With batch 1 and beam 3 < vocabulary 5, the shapes do not broadcast and it raises `RuntimeError`. As written, these effects are reached only once the `top_k_nd` error of lines 125-127 is fixed: the call at line 70 raises first on every input | one flag per hypothesis, `ended[:, :, None]` | high; not executed | BeamSearchWhere.FirstStepWidensBeam | BeamSearchWhere.ExtendAllIsIntended |
| users/zeyer/decoding/beam_search_torch/beam_search_sep_ended.py:193-222 | when every row is full, nothing ended and the combined row is wider than the active part, `act_idx` is set (:180-183) but `valid` is `None` (:194), and `torch.where(valid, ...)` at :222 raises `TypeError` | batch 1, beam 2, 3 labels, `eos` 2, first-step log-probabilities `[-1, -2e30, -3e30]`: codes `[active, invalid]`, row width 2, active width 1, ended width 0 | skip the mask on that branch (`valid` is all true there), as line 209 does for `active is None` | high; not executed | SepEnded.RepackAsWrittenRaises | SepEnded.UnmaskedIsMasked |
