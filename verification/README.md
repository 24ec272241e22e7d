# Aria transformer and training bookkeeping in Dafny

This project models the parts of the Aria symbolic-music transformer and its
training driver that decide what is computed and in what order. It does not
model the numbers the tensors hold.

From `aria/model.py` it models:

- the residual-dropout schedule of the encoder layers and the order in which they run;
- which configurations each of the four heads accepts (LM, CL, LM_CND, EMB), and which error each rejected configuration raises;
- the rotary cache: its frequency-exponent table against base 500000, built lazily on the first forward pass and sliced to the row length on every call;
- the conditioning shift, where the adapted embedding is prepended and the last token slot is dropped;
- how the conditioned head aligns its output, including the zero-valued dummy adapter pass;
- the in-place half-split rotary update.

From `aria/training/train.py` it models:

- the masked loss reduction, and the truncation of targets and mask on the conditioned branch;
- the trailing (window 200) and running loss averages;
- step numbering on resume, and the checkpoint-every-N rule;
- the sequence of epochs a resumed run goes through, and the `epoch{e}_step{s}` checkpoint names;
- the safetensors key-prefix stripping;
- the search for the next free experiment directory.

Tensor values stay abstract:

- A hidden state at one position has an arbitrary type.
- The embedding lookup, one encoder block, the final norm, the output projections and the conditioning adapter are function parameters.
- Per-token cross-entropy values, batch losses, the random coin of the conditioning branch, and the cos/sin values of the rotary angles are inputs.
- The cache records for each entry the angle it stands for (base, position and frequency exponent) instead of its cosine and sine.

Python exceptions are `Err` values of a `Result`.

Modules (one per file, plus the shared `Results`/`Seqs` in `common.dfy`):

- `Rotary` (`rotary.dfy`): the exponent table, the cache, the slice, and the rotation as a method over a buffer with its inverse and norm lemmas.
- `ModelConfigs` (`model_config.dfy`): the config record, the dropout ramp and the block list.
- `Model` (`model.dfy`): the trunk, head construction, the forward pass and the conditioned head.
- `MaskedLoss` (`training_loss.dfy`): the loss reduction and target truncation.
- `LossStats` (`training_stats.dfy`): the trailing and running averages.
- `TrainSchedule` (`training_schedule.dfy`): the checkpoint setting, `train_loop` and `val_loop`, the epoch plan and checkpoint names.
- `KeyStrip` (`convert.dfy`): `convert_cp_from_safetensors`.
- `ProjectDir` (`project_dir.dfy`): the directory-index search.
- `Decimal` (`decimal.dfy`): Python's `str()` on integers.

## Model

| member | source | states |
|---|---|---|
| Rotary.EvenArange | aria/model.py:383 | `arange(start, stop, 2)` has `ceil((stop - start) / 2)` entries, entry `i` being `start + 2i`; empty when `start >= stop` |
| Rotary.FreqExponents | aria/model.py:382-384 | the exponent table has `n_elem // 2` entries, entry `i` is `2i / n_elem` (also for odd `n_elem`, where the slice drops the extra arange entry) |
| Rotary.PrecomputeFreqsCis | aria/model.py:377-391 | the cache has `seq_len` rows of `n_elem // 2` entries, and entry `(p, i)` is the angle of position `p` at exponent `2i / n_elem` against the given base |
| Rotary.CacheSlice | aria/model.py:182 | `freqs_cis[:S]` keeps `min(S, rows)` rows, each unchanged and in order |
| Rotary.ApplyRotaryEmb | aria/model.py:394-409 | the in-place update (save `x1`, update `x1` from `x2`, then `x2` from the saved copy) equals the pairwise rotation `Rotate` — `x1*cos - x2*sin` in the first half, `x2*cos + x1*sin` in the second — and keeps an element past `2d` |
| Rotary.RotateInverse | aria/model.py:394-409 | for unit (cos, sin) pairs, rotating by the negated sine restores the original head vector |
| Rotary.RotatePreservesPairNorms | aria/model.py:406-409 | for unit (cos, sin) pairs, every pair `(x[i], x[i+d])` keeps its squared length |
| Rotary.RotateAtZeroAngle | aria/model.py:406-409 | with cos 1 and sin 0 (position 0) the vector is unchanged |
| ModelConfigs.LayerDropout | aria/model.py:144-149 | the layer rate fails exactly when `resid_dropout > 0` and `n_layers == 1` (division by zero), and is 0 whenever `resid_dropout <= 0` |
| ModelConfigs.BuildBlocks | aria/model.py:143-153 | the first `k` blocks come out in index order, each with the config's head count and `d_model // n_heads`, and with rate `r * i / (n - 1)` (or 0); the loop fails iff a block cannot be built |
| ModelConfigs.BuildLayers | aria/model.py:141-153 | exactly `n_layers` blocks (none for `n_layers <= 0`), block `i` at index `i`; the first has rate 0, the last the full `resid_dropout`, and the rates rise with the index inside `[0, resid_dropout]` |
| ModelConfigs.DropoutRamp | aria/model.py:144-149 | for `n >= 2` the ramp starts at 0, ends at `r`, and is non-decreasing and bounded by `r` |
| Model.BuildTrunk | aria/model.py:130-153 | a trunk is built iff `vocab_size` is set and the layer loop succeeds; a missing vocab is a TypeError, and otherwise the only failure is the division by zero; a new trunk has no cache |
| Model.BuildHead | aria/model.py:214-221 | each head first asserts its own field (LM and LM_CND `vocab_size`, CL `class_size`, EMB `emb_size`), then needs `vocab_size` for the trunk; LM_CND also needs `emb_size` for its adapter; the output width is that field and only LM_CND has an adapter |
| Model.CndDoesNotCheckEmbSize | aria/model.py:286-297 | without `emb_size`, LM_CND passes its assertion and fails with a TypeError at the adapter, while EMB fails at its assertion |
| Model.ApplyLayersFirstLayerFirst | aria/model.py:200-202 | the first block of the list sees the trunk input, and the remaining blocks run on its output |
| Model.ApplyLayersAppend | aria/model.py:200-202 | running a concatenated block list is running the first part, then the second on its result |
| Model.ApplyLayersKeepsLength | aria/model.py:200-202 | when every block keeps the sequence length, so does the stack |
| Model.TrunkInput | aria/model.py:170-174 | with an embedding, it sits at position 0 and token `j` moves to position `j + 1`, so the length is kept for `S >= 1` (and is 1 for `S = 0`); without one the input is the token embeddings unchanged |
| Model.WithCache | aria/model.py:176-181 | the cache is built only when absent, and building fails only for `n_heads == 0`; an existing cache is left as it is, and config and layers never change |
| Model.TrunkForward | aria/model.py:155-204 | a forward pass raises, in source order: IndexError for a token outside `0 .. vocab_size - 1`; ZeroDivisionError when it must build the cache with `n_heads == 0`; then the error of the first block that raises (`BlockError`). Otherwise it succeeds, leaves the trunk with its cache, gives the layers that cache's first `S` rows, and its hidden states are the final norm of the blocks applied in list order to the trunk input (`[emb]` followed by all but the last token embedding when conditioned, the token embeddings otherwise) |
| Model.BlockError | aria/model.py:73-114 | a block raises a RuntimeError when `n_heads * d_head != d_model` (the reshape at 89-95 and the output projection at 114, which checks widths even for an empty row) or when the cache rows neither match the positions nor are a single row (the in-place `mul_` at model.py:407); and only then a ValueError when its dropout rate is outside `[0, 1]` (75, 78), so the RuntimeError is the one reported when both apply; otherwise nothing |
| Model.LayersErrorIsFirst | aria/model.py:200-202 | the layer loop fails iff some block raises, and then with the error of the first such block |
| Model.DropoutAboveOneNeverRuns | aria/model.py:141-153 | a config with `resid_dropout > 1` and two or more layers builds, but no forward pass on it succeeds: the last layer's rate is the full `resid_dropout` |
| Model.TrunkForwardRejectsLongRows | aria/model.py:182-202 | a row longer than `max_seq_len` fails in the first block unless the cache has exactly one row |
| Model.TrunkForwardRejectsConditionedEmptyRow | aria/model.py:172-182 | a conditioned empty row (one input position, no cache row) fails in a trunk with layers |
| Model.TrunkForwardCache | aria/model.py:176-182 | after a pass the cache is the `max_seq_len`-row table for `d_model // n_heads`, an existing cache is kept, and row `p` of the slice holds the angles of position `p` |
| Model.TrunkForwardReusesCache | aria/model.py:176-182 | a second forward pass on the trunk left by the first finds the cache, never rebuilds it (so never divides by zero), and when it succeeds changes nothing |
| Model.TrunkForwardLength | aria/model.py:170-204 | with length-preserving blocks and norm, a successful pass has `S` hidden positions, or 1 for a conditioned empty row, which only a trunk without layers accepts |
| Model.ApplyLayers | aria/model.py:200-202 | the blocks run in list order, each on the previous one's output (its order is stated by ApplyLayersFirstLayerFirst and ApplyLayersAppend) |
| Model.HeadForward | aria/model.py:236-240 | an LM/CL/EMB forward succeeds exactly when the unconditioned trunk pass does, leaves the trunk with its cache, and output `j` is the head applied to position `j` of the final norm of the blocks, in list order, over the token embeddings |
| Model.CndForward | aria/model.py:299-338 | the conditioned head succeeds exactly when its trunk pass does and leaves the trunk with its cache; with an embedding, output `j` is the head on hidden position `j + 1` of the conditioned trunk input (`S - 1` outputs); without one, output `j` is the head on hidden position `j` of the plain pass, the dummy term adding nothing |
| Model.HeadForwardLength | aria/model.py:236-240 | the unconditioned heads return one output per input position |
| Model.CndWithoutEmbeddingIsLm | aria/model.py:324-338 | without an embedding, the conditioned head's logits equal the plain LM logits, because the dummy pass adds exactly 0 |
| Model.CndConditionedAlignment | aria/model.py:314-322 | with an embedding, a successful pass has `S - 1` output positions (0 for `S = 0`, reachable only without layers); output `j` is the head on trunk position `j + 1`; the trunk input holds the adapted embedding at 0 and token `j`'s embedding at `j + 1`, and the hidden states are the blocks and norm applied to that input |
| Model.CndLogitsMatchTruncatedTargets | aria/model.py:314-322 | the conditioned logits have as many positions as the truncated targets `tgt[:-1]` |
| MaskedLoss.NonZeroMaskedIsSelected | aria/training/train.py:339-341 | the non-zero entries of `loss * mask` are exactly the losses at positions that are masked in and non-zero, in order |
| MaskedLoss.Reduce | aria/training/train.py:337-341 | the batch loss: 0 for an empty mask, otherwise the mean of the masked-in non-zero losses, NaN when there are none (stated by EmptyMaskGivesZero, ReduceIsMeanOfSelected and AllPadMaskedGivesNaN) |
| MaskedLoss.EmptyMaskGivesZero | aria/training/train.py:337-338 | an all-false mask gives a loss of exactly 0 |
| MaskedLoss.ReduceIsMeanOfSelected | aria/training/train.py:337-341 | with a non-empty mask, the loss is the mean of the selected losses, or NaN when none is selected |
| MaskedLoss.ReduceIgnoresMaskedOut | aria/training/train.py:337-341 | changing losses at masked-out positions does not change the reduced loss |
| MaskedLoss.SelectedCountsMask | aria/training/train.py:339-341 | when no masked-in loss is zero, the mean runs over exactly `mask.sum()` values |
| MaskedLoss.AllPadMaskedGivesNaN | aria/training/train.py:337-341 | for every row whose mask is set somewhere but whose masked-in losses are all zero (pad targets), the loss is the empty mean: NaN, not 0 |
| MaskedLoss.LossTargets | aria/training/train.py:323-330 | on the conditioned branch, targets and mask both lose their last position and stay the same length; otherwise they are unchanged |
| MaskedLoss.ConditionedIgnoresLastMask | aria/training/train.py:325-341 | on the conditioned branch, the last mask entry never affects the loss |
| LossStats.LastWindow | aria/training/train.py:345-347 | the window is the last `min(200, n)` entries of the buffer |
| LossStats.Trailing | aria/training/train.py:345-347 | the mean of the last `min(200, n)` batch losses, NaN when one of them is NaN (stated by TrailingIsAverageEarly, TrailingForgetsOlder and NaNPoisons) |
| LossStats.Average | aria/training/train.py:348 | the mean of all batch losses of the call, NaN once one is NaN (stated by RecordUpdatesAverage, StatisticsBounded and NaNPoisons) |
| LossStats.TrailingIsAverageEarly | aria/training/train.py:344-348 | until 200 batches, the trailing loss equals the running average |
| LossStats.TrailingForgetsOlder | aria/training/train.py:345-347 | once 200 batches are recorded, the trailing loss is the mean of the last 200 whatever came before |
| LossStats.StatisticsBounded | aria/training/train.py:344-348 | over NaN-free losses both statistics are real and stay within any bounds of the recorded losses |
| LossStats.RecordUpdatesAverage | aria/training/train.py:344-348 | appending a real loss `x` after real ones moves the average to `(n * old + x) / (n + 1)`; appending a NaN makes it NaN |
| LossStats.NaNPoisons | aria/training/train.py:344-348 | a NaN batch loss makes the running average NaN for the rest of the call, and the trailing loss NaN while it is among the last 200 entries |
| TrainSchedule.ResumeContinuesRows | aria/training/train.py:318-360 | the `loss.csv` rows of a loop resumed at `r` over the remaining batches are exactly rows `r..` of the uninterrupted loop, same steps and same losses |
| TrainSchedule.StepOfShift | aria/training/train.py:318 | batch `k` of a loop resumed after `r` batches gets the step of batch `k + r` of an uninterrupted loop, always after `r` |
| TrainSchedule.CheckpointEvery | aria/training/train.py:429-432 | `None` and `0` turn mid-epoch checkpoints off; any other value is accepted iff it is above 1, otherwise an assertion error |
| TrainSchedule.MidCheckpoints | aria/training/train.py:369-375 | the checkpoints written after the steps of a range, in step order (its members, order and splitting are stated by MidCheckpointsMembers, MidCheckpointsIncrease and MidCheckpointsSplit) |
| TrainSchedule.MidCheckpointsMembers | aria/training/train.py:369-375 | the checkpoints of a loop are exactly the steps in its range divisible by the interval, tagged with its epoch |
| TrainSchedule.MidCheckpointsIncrease | aria/training/train.py:369-375 | within a loop, checkpoint steps strictly increase |
| TrainSchedule.MidCheckpointsSplit | aria/training/train.py:369-375 | the checkpoints of a step range are those of its two halves, one after the other |
| TrainSchedule.ResumeKeepsCheckpoints | aria/training/train.py:458-469 | an epoch resumed at step `r` writes exactly the mid-epoch checkpoints the uninterrupted epoch would have written after step `r` |
| TrainSchedule.TrainLoop | aria/training/train.py:289-382 | every batch loss, NaN included, enters the buffer and `loss.csv` exactly once, in order, at step `k + resume_step + 1` (the rows `LossRows`, whose resume law is ResumeContinuesRows); the returned average is the mean over this call's batches only, NaN once a batch loss was NaN, 0 with no batch; checkpoints are exactly those of `MidCheckpoints` for the call's step range |
| TrainSchedule.ValLoop | aria/training/train.py:385-427 | the mean of all batch losses (NaN once one is NaN), or an error when there is no batch (the average is never bound) |
| TrainSchedule.FullEpochs | aria/training/train.py:481 | `range(start, start + epochs)`: `max(0, epochs)` passes numbered consecutively from `start`, none skipping batches |
| TrainSchedule.Plan | aria/training/train.py:429-488 | the checkpoint check runs first, then `resume_step` requires `resume_epoch`; a resumed run first finishes the interrupted epoch under `resume_epoch`, then runs `epochs` full epochs from `resume_epoch + 1`; the epochs are consecutive |
| TrainSchedule.PlanEndCheckpoints | aria/training/train.py:476-488 | the resumed pass is checkpointed as `(resume_epoch + 1, 0)` and the last pass as `(start + epochs, 0)` |
| TrainSchedule.PassCheckpointsInRange | aria/training/train.py:369-375 | a pass's checkpoints increase and lie after `(e, 0)` and no later than its end checkpoint `(e + 1, 0)` |
| TrainSchedule.RunCheckpointsIncrease | aria/training/train.py:458-488 | over a whole run, checkpoints strictly increase in (epoch, step) order |
| TrainSchedule.CheckpointName | aria/training/train.py:276-280 | the directory name `epoch{e}_step{s}` (that it never names two checkpoints alike is CheckpointNameInjective) |
| TrainSchedule.CheckpointNameInjective | aria/training/train.py:276-280 | different (epoch, step) pairs give different `epoch{e}_step{s}` directory names |
| TrainSchedule.RunCheckpointNamesDistinct | aria/training/train.py:458-488 | a run never saves two checkpoints to the same directory |
| KeyStrip.FirstSegmentLength | aria/training/train.py:769 | the length of the text before the first dot: no dot inside it, and a dot right after unless it is the whole key |
| KeyStrip.ConvertKeys | aria/training/train.py:766-771 | the conversion fails exactly on a file without tensors |
| KeyStrip.ToMapContents | aria/training/train.py:770 | the built dict has exactly the given keys, and with distinct keys each maps to its own value |
| KeyStrip.ToMapLastWins | aria/training/train.py:770 | whatever the keys, a key of the built dict holds the value of the last pair with that key |
| KeyStrip.ConvertKeysContents | aria/training/train.py:767-770 | the new keys are exactly the old keys shortened by the first key's segment length plus one, and each holds the value of the last pair that strips to it |
| KeyStrip.ConvertKeysCollision | aria/training/train.py:767-770 | `a.x` and `b.x` both become `x`, and only the later value survives |
| KeyStrip.ConvertKeysRoundTrip | aria/training/train.py:766-771 | prefixing every key with the same dot-free `P.` and converting gives back exactly the dict of the unprefixed pairs |
| KeyStrip.ConvertKeysRecoversValues | aria/training/train.py:766-771 | after that round trip, every original key is present and holds its own value |
| ProjectDir.IndexNamesCount | aria/training/train.py:116-121 | indices `0 .. n-1` have `n` distinct decimal names |
| ProjectDir.NextExperimentIndex | aria/training/train.py:116-124 | the chosen index's name is free, every smaller index is taken, and the index never exceeds the number of existing directories, so the search ends |
| Decimal.ParseNatToString | aria/training/train.py:118 | reading back the decimal `str(n)` gives `n` |
| Decimal.IntToStringInjective | aria/training/train.py:279 | different integers print differently |

## Left out

- Tensor numerics are not modelled: attention (with its causal mask), the feed-forward block, layer norm, the embedding lookup, the linear heads and cross-entropy. They are function parameters or input values.
- `torch.polar` is not modelled. A cache entry records its angle, and the rotation takes cos/sin as inputs. Unit length of the pairs is a lemma hypothesis.
- Floating-point rounding and `float32` casts are not modelled: values are reals. The one non-real value the model itself produces, the NaN of an empty masked mean, is carried as a `LossValue` through the buffer, the CSV rows and both averages. Infinities are not modelled.
- The batch dimension is not modelled: one row is modelled, and the shape errors of a forward pass assume a batch of at least one row.
- `accelerator.gather` across processes is not modelled. A process count of one is assumed, so the recorded batch loss is the loss.
- `random.random()` is not modelled: the coin of the conditioning branch is an input.
- The random dropout masks a block draws in training mode are folded into the deterministic block function `LayerFn`; results that compare two passes, such as `CndWithoutEmbeddingIsLm`, compare them under the same masks.
- The trailing loss only feeds the progress bar and the debug log, so `TrainLoop` does not return it. Its value after `k` batches is `LossStats.Trailing` of the first `k` buffer entries.
- The optimizer, scheduler, backward pass, learning-rate printing, tqdm, logging and `accelerate.save_state` are not modelled.
- Writing the CSV files is not modelled: the loss-log rows are returned instead.
- Activation checkpointing is modelled as the plain layer loop. It recomputes the same blocks and changes memory use, not values.
- `skip_first_batches` and `init_epoch` are not modelled: the number of batches each pass runs is an input.
- TrainSchedule.Plan: `resume_step` is a `nat`. A negative `resume_step`, which `skip_first_batches` would receive, is not modelled.
- ProjectDir.NextExperimentIndex: the directory listing is a set of names; the Python list has no duplicates that matter for membership. The explicit `project_dir` branch and the `mkdir` calls are not modelled.
- KeyStrip.ConvertKeys: loading and saving the files is not modelled. The first key is the first pair of the input sequence (dict insertion order).
- `convert_cp_from_accelerate`, `train`, `resume_train` and argument parsing are not modelled. They are setup around `_train`.
- The contents of `FusedEncoderBlock` are not modelled. Only its index (standing for its weights), its residual-dropout rate and its head geometry are.
- The embedding width of the conditioning vector is not checked: the adapter is a function parameter, so a `torch.cat` width mismatch is not modelled.
