/** The control flow of `_train` (aria/training/train.py): the checkpoint
    setting, the per-call training and validation loops with their step
    numbering and statistics, the sequence of epochs a (possibly resumed)
    run goes through, and the names of the checkpoints it writes. Batch
    losses arrive as inputs; what the model and optimizer do with them is
    not part of this module. */
module TrainSchedule {
  import opened Results
  import LossStats
  import opened MaskedLoss
  import Decimal

  /** The errors `_train` can raise before or while looping. */
  datatype TrainError =
    | InvalidCheckpointMode   // `steps_per_checkpoint > 1` fails
    | MissingResumeEpoch      // `resume_step` without `resume_epoch`
    | EmptyValidation         // `avg_val_loss` read before any batch bound it

  /** A checkpoint directory `epoch{e}_step{s}`. */
  datatype Ckpt = Ckpt(epoch: int, step: int)

  /** The step number of the `k`-th batch of a loop resumed at `resumeStep`:
      steps count from 1 and continue where the skipped batches left off. */
  function StepOf(k: nat, resumeStep: nat): nat
  {
    k + resumeStep + 1
  }

  /** Batch `k` after `resumeStep` skipped batches gets the step of batch
      `k + resumeStep` of an uninterrupted loop, and no skipped step. */
  lemma StepOfShift(k: nat, resumeStep: nat)
    ensures StepOf(k, resumeStep) == StepOf(k + resumeStep, 0)
    ensures StepOf(k, resumeStep) > resumeStep
  {
  }

  /** The `steps_per_checkpoint` argument after its check: `None` and `0` are
      falsy and turn mid-epoch checkpoints off; any other value must exceed 1. */
  function CheckpointEvery(spc: Option<int>): (r: Result<Option<nat>, TrainError>)
    ensures r.Err? <==> spc.Some? && spc.value != 0 && spc.value <= 1
    ensures r.Err? ==> r.error == InvalidCheckpointMode
    ensures r.Ok? ==> (r.value.None? <==> spc == None || spc == Some(0))
    ensures r.Ok? && r.value.Some? ==> r.value.value > 1 && spc == Some(r.value.value as int)
  {
    match spc
    case None => Ok(None)
    case Some(v) =>
      if v == 0 then Ok(None)
      else if v > 1 then Ok(Some(v as nat))
      else Err(InvalidCheckpointMode)
  }

  /** Whether a mid-epoch checkpoint is written after step `step`. */
  predicate IsCheckpointStep(every: Option<nat>, step: int)
  {
    every.Some? && every.value > 0 && step % every.value == 0
  }

  /** `if steps_per_checkpoint: if step % steps_per_checkpoint == 0:
      make_checkpoint(...)`: the checkpoint written after one step, if any. */
  function CheckpointAfter(epoch: int, step: int, every: Option<nat>): seq<Ckpt>
  {
    if IsCheckpointStep(every, step) then [Ckpt(epoch, step)] else []
  }

  /** The mid-epoch checkpoints of `count` consecutive steps starting at
      step `first`, in step order. */
  function MidCheckpoints(epoch: int, first: nat, count: nat, every: Option<nat>): seq<Ckpt>
  {
    if count == 0 then []
    else
      MidCheckpoints(epoch, first, count - 1, every) + CheckpointAfter(epoch, first + count - 1, every)
  }

  /** Exactly the checkpoint steps of the range appear, tagged with the epoch. */
  lemma {:induction false} MidCheckpointsMembers(epoch: int, first: nat, count: nat, every: Option<nat>)
    ensures forall c :: c in MidCheckpoints(epoch, first, count, every) <==>
              c.epoch == epoch && first <= c.step < first + count && IsCheckpointStep(every, c.step)
    decreases count
  {
    if count > 0 {
      MidCheckpointsMembers(epoch, first, count - 1, every);
    }
  }

  /** Within one epoch the checkpoint steps strictly increase. */
  lemma {:induction false} MidCheckpointsIncrease(epoch: int, first: nat, count: nat, every: Option<nat>)
    ensures StrictlyIncreasing(MidCheckpoints(epoch, first, count, every))
    decreases count
  {
    if count > 0 {
      MidCheckpointsIncrease(epoch, first, count - 1, every);
      MidCheckpointsMembers(epoch, first, count - 1, every);
    }
  }

  /** Splitting a step range splits its checkpoints. */
  lemma {:induction false} MidCheckpointsSplit(epoch: int, first: nat, a: nat, b: nat, every: Option<nat>)
    ensures MidCheckpoints(epoch, first, a + b, every)
              == MidCheckpoints(epoch, first, a, every) + MidCheckpoints(epoch, first + a, b, every)
    decreases b
  {
    if b > 0 {
      MidCheckpointsSplit(epoch, first, a, b - 1, every);
    }
  }

  /** Resuming at `resumeStep` writes exactly the mid-epoch checkpoints an
      uninterrupted epoch would still have written after that step. */
  lemma ResumeKeepsCheckpoints(epoch: int, resumeStep: nat, total: nat, every: Option<nat>)
    requires resumeStep <= total
    ensures MidCheckpoints(epoch, 1, total, every)
              == MidCheckpoints(epoch, 1, resumeStep, every) + MidCheckpoints(epoch, resumeStep + 1, total - resumeStep, every)
  {
    MidCheckpointsSplit(epoch, 1, resumeStep, total - resumeStep, every);
  }

  /** One row of `loss.csv`: epoch, step and the batch loss. */
  datatype LossRow = LossRow(epoch: int, step: nat, loss: LossValue)

  /** The `loss.csv` rows of a loop resumed at `resumeStep` over `losses`:
      batch `k` is logged at step `StepOf(k, resumeStep)`. */
  function LossRows(epoch: int, resumeStep: nat, losses: seq<LossValue>): (rows: seq<LossRow>)
    ensures |rows| == |losses|
    ensures forall k :: 0 <= k < |rows| ==> rows[k] == LossRow(epoch, StepOf(k, resumeStep), losses[k])
  {
    seq(|losses|, k requires 0 <= k < |losses| => LossRow(epoch, StepOf(k, resumeStep), losses[k]))
  }

  /** Resuming at `r` logs the batches that remain exactly as the
      uninterrupted epoch logs them from its `r`-th batch on. */
  lemma ResumeContinuesRows(epoch: int, r: nat, losses: seq<LossValue>)
    requires r <= |losses|
    ensures LossRows(epoch, r, losses[r..]) == LossRows(epoch, 0, losses)[r..]
  {
    var a := LossRows(epoch, r, losses[r..]);
    var b := LossRows(epoch, 0, losses)[r..];
    forall k | 0 <= k < |a|
      ensures a[k] == b[k]
    {
      StepOfShift(k, r);
      assert losses[r..][k] == losses[k + r];
    }
  }

  /** `train_loop`: every batch loss is recorded once, in order, in the
      buffer and in `loss.csv`, under steps numbered from `resumeStep + 1`;
      a checkpoint follows every step divisible by `every`. The returned
      average is the mean over this call's batches only (NaN once a batch
      loss was NaN), 0 when there was none. The trailing loss, which only
      feeds the progress display and the debug log, is `LossStats.Trailing`
      of the buffer so far. */
  method TrainLoop(epoch: int, resumeStep: nat, every: Option<nat>, losses: seq<LossValue>)
    returns (avg: LossValue, buffer: seq<LossValue>, rows: seq<LossRow>, ckpts: seq<Ckpt>)
    ensures buffer == losses
    ensures rows == LossRows(epoch, resumeStep, losses)
    ensures avg == if |losses| == 0 then Finite(0.0) else LossStats.Average(losses)
    ensures ckpts == MidCheckpoints(epoch, resumeStep + 1, |losses|, every)
  {
    buffer := [];
    avg := Finite(0.0);
    rows := [];
    ckpts := [];
    var k := 0;
    while k < |losses|
      invariant 0 <= k <= |losses|
      invariant buffer == losses[..k]
      invariant |rows| == k
      invariant forall j :: 0 <= j < k ==> rows[j] == LossRow(epoch, StepOf(j, resumeStep), losses[j])
      invariant avg == if k == 0 then Finite(0.0) else LossStats.Average(buffer)
      invariant ckpts == MidCheckpoints(epoch, resumeStep + 1, k, every)
    {
      var step := StepOf(k, resumeStep);
      buffer := buffer + [losses[k]];
      avg := LossStats.Average(buffer);
      rows := rows + [LossRow(epoch, step, losses[k])];
      ckpts := ckpts + CheckpointAfter(epoch, step, every);
      k := k + 1;
      assert buffer == losses[..k];
    }
    assert buffer == losses;
    assert rows == LossRows(epoch, resumeStep, losses);
  }

  /** `val_loop`: the running average of the batch losses after the last
      batch; with no batch the average is never bound and reading it fails. */
  method ValLoop(losses: seq<LossValue>) returns (r: Result<LossValue, TrainError>)
    ensures r.Err? <==> |losses| == 0
    ensures r.Err? ==> r.error == EmptyValidation
    ensures r.Ok? ==> r.value == LossStats.Average(losses)
  {
    var buffer: seq<LossValue> := [];
    var avg: Option<LossValue> := None;
    var k := 0;
    while k < |losses|
      invariant 0 <= k <= |losses|
      invariant buffer == losses[..k]
      invariant avg.None? <==> k == 0
      invariant avg.Some? ==> avg.value == LossStats.Average(buffer)
    {
      buffer := buffer + [losses[k]];
      assert buffer == losses[..k + 1];
      avg := Some(LossStats.Average(buffer));
      k := k + 1;
    }
    assert buffer == losses;
    r := if avg.Some? then Ok(avg.value) else Err(EmptyValidation);
  }

  /** One pass of the epoch loop: the epoch it is logged under and how many
      leading batches were skipped (non-zero only for the resumed epoch). */
  datatype EpochPlan = EpochPlan(logEpoch: int, resumeStep: nat)

  /** `start_epoch`: the epoch after `resume_epoch`, or 0. */
  function StartEpoch(resumeEpoch: Option<int>): int
  {
    if resumeEpoch.Some? then resumeEpoch.value + 1 else 0
  }

  /** Each pass is logged one epoch after the previous one. */
  predicate Consecutive(plans: seq<EpochPlan>)
  {
    forall i :: 0 < i < |plans| ==> plans[i].logEpoch == plans[i - 1].logEpoch + 1
  }

  /** Consecutive passes are numbered from the first one's epoch. */
  lemma {:induction false} ConsecutiveEpochs(plans: seq<EpochPlan>)
    requires Consecutive(plans)
    ensures forall i :: 0 <= i < |plans| ==> plans[i].logEpoch == plans[0].logEpoch + i
    decreases |plans|
  {
    if |plans| > 1 {
      var init := plans[..|plans| - 1];
      assert Consecutive(init);
      ConsecutiveEpochs(init);
      assert forall i :: 0 <= i < |init| ==> init[i] == plans[i];
      var n := |plans| - 1;
      assert plans[n].logEpoch == init[n - 1].logEpoch + 1;
    }
  }

  /** The full epochs `range(start, start + epochs)`. */
  function FullEpochs(start: int, epochs: int): (r: seq<EpochPlan>)
    ensures |r| == if epochs > 0 then epochs else 0
    ensures forall i :: 0 <= i < |r| ==> r[i] == EpochPlan(start + i, 0)
    decreases epochs
  {
    if epochs <= 0 then [] else FullEpochs(start, epochs - 1) + [EpochPlan(start + epochs - 1, 0)]
  }

  /** The passes of a run: the checkpoint setting is checked first, then a
      `resume_step` demands a `resume_epoch`; a resumed run first finishes
      the interrupted epoch (logged as `resume_epoch`, skipping
      `resume_step` batches), then runs `epochs` full epochs from
      `resume_epoch + 1`. */
  function Plan(epochs: int, spc: Option<int>, resumeStep: Option<nat>, resumeEpoch: Option<int>)
    : (r: Result<seq<EpochPlan>, TrainError>)
    ensures CheckpointEvery(spc).Err? ==> r == Err(InvalidCheckpointMode)
    ensures CheckpointEvery(spc).Ok? && resumeStep.Some? && resumeEpoch.None? ==> r == Err(MissingResumeEpoch)
    ensures r.Ok? <==> CheckpointEvery(spc).Ok? && (resumeStep.Some? ==> resumeEpoch.Some?)
    ensures r.Ok? ==> |r.value| == (if epochs > 0 then epochs else 0) + (if resumeStep.Some? then 1 else 0)
    ensures r.Ok? && resumeStep.Some? ==> r.value[0] == EpochPlan(resumeEpoch.value, resumeStep.value)
    ensures r.Ok? ==> forall i :: 0 <= i < |r.value| && (i > 0 || resumeStep.None?) ==>
              r.value[i].resumeStep == 0
    ensures r.Ok? ==> Consecutive(r.value)
    ensures r.Ok? && |r.value| > 0 ==>
              (r.value[|r.value| - 1].logEpoch == StartEpoch(resumeEpoch) + (if epochs > 0 then epochs else 0) - 1)
  {
    if CheckpointEvery(spc).Err? then Err(InvalidCheckpointMode)
    else if resumeStep.Some? && resumeEpoch.None? then Err(MissingResumeEpoch)
    else
      var full := FullEpochs(StartEpoch(resumeEpoch), epochs);
      if resumeStep.Some? then Ok([EpochPlan(resumeEpoch.value, resumeStep.value)] + full)
      else Ok(full)
  }

  /** The checkpoint written after a pass: the start of the next epoch. */
  function EndCheckpoint(p: EpochPlan): Ckpt
  {
    Ckpt(p.logEpoch + 1, 0)
  }

  /** The checkpoints of one pass running `batches` batches: the mid-epoch
      ones, then the end-of-pass one. */
  function PassCheckpoints(p: EpochPlan, batches: nat, every: Option<nat>): seq<Ckpt>
  {
    MidCheckpoints(p.logEpoch, p.resumeStep + 1, batches, every) + [EndCheckpoint(p)]
  }

  /** The checkpoints of a run that completes, `batches[i]` being the
      number of batches pass `i` runs. A run that a validation error stops
      writes a prefix of this list, so the ordering and distinctness
      lemmas below hold for it too. */
  function RunCheckpoints(plans: seq<EpochPlan>, batches: seq<nat>, every: Option<nat>): seq<Ckpt>
    requires |batches| == |plans|
  {
    if |plans| == 0 then []
    else PassCheckpoints(plans[0], batches[0], every) + RunCheckpoints(plans[1..], batches[1..], every)
  }

  /** Lexicographic order on (epoch, step). */
  predicate Before(a: Ckpt, b: Ckpt)
  {
    a.epoch < b.epoch || (a.epoch == b.epoch && a.step < b.step)
  }

  predicate StrictlyIncreasing(s: seq<Ckpt>)
  {
    forall i, j :: 0 <= i < j < |s| ==> Before(s[i], s[j])
  }

  /** A pass's checkpoints increase and lie strictly after the start of its
      epoch and no later than the start of the next. */
  lemma PassCheckpointsInRange(p: EpochPlan, batches: nat, every: Option<nat>)
    ensures StrictlyIncreasing(PassCheckpoints(p, batches, every))
    ensures forall c :: c in PassCheckpoints(p, batches, every) ==>
              Before(Ckpt(p.logEpoch, 0), c) && !Before(EndCheckpoint(p), c)
  {
    var mid := MidCheckpoints(p.logEpoch, p.resumeStep + 1, batches, every);
    MidCheckpointsIncrease(p.logEpoch, p.resumeStep + 1, batches, every);
    MidCheckpointsMembers(p.logEpoch, p.resumeStep + 1, batches, every);
    var all := PassCheckpoints(p, batches, every);
    forall i, j | 0 <= i < j < |all|
      ensures Before(all[i], all[j])
    {
      if j < |mid| {
        assert all[i] == mid[i] && all[j] == mid[j];
      } else {
        assert all[i] == mid[i] && mid[i] in mid;
      }
    }
  }

  /** Over a run of consecutive passes the checkpoints strictly increase,
      all after the start of the first pass's epoch and no later than the
      end of the last pass. */
  lemma {:induction false} RunCheckpointsIncrease(plans: seq<EpochPlan>, batches: seq<nat>, every: Option<nat>)
    requires |batches| == |plans| && |plans| > 0
    requires Consecutive(plans)
    ensures StrictlyIncreasing(RunCheckpoints(plans, batches, every))
    ensures forall c :: c in RunCheckpoints(plans, batches, every) ==>
              Before(Ckpt(plans[0].logEpoch, 0), c) && !Before(EndCheckpoint(plans[|plans| - 1]), c)
    decreases |plans|
  {
    var head := PassCheckpoints(plans[0], batches[0], every);
    PassCheckpointsInRange(plans[0], batches[0], every);
    if |plans| > 1 {
      var rest := RunCheckpoints(plans[1..], batches[1..], every);
      RunCheckpointsIncrease(plans[1..], batches[1..], every);
      assert plans[1].logEpoch == plans[0].logEpoch + 1;
      var all := head + rest;
      assert all == RunCheckpoints(plans, batches, every);
      forall i, j | 0 <= i < j < |all|
        ensures Before(all[i], all[j])
      {
        if j < |head| {
          assert all[i] == head[i] && all[j] == head[j];
        } else if i >= |head| {
          assert all[i] == rest[i - |head|] && all[j] == rest[j - |head|];
        } else {
          assert all[i] == head[i] && head[i] in head;
          assert all[j] == rest[j - |head|] && rest[j - |head|] in rest;
        }
      }
      ConsecutiveEpochs(plans);
      forall c | c in all
        ensures Before(Ckpt(plans[0].logEpoch, 0), c) && !Before(EndCheckpoint(plans[|plans| - 1]), c)
      {
        if c !in head {
          assert c in rest;
          assert plans[1..][|plans| - 2] == plans[|plans| - 1];
        }
      }
    } else {
      assert RunCheckpoints(plans, batches, every) == head + [];
    }
  }

  /** `f"epoch{_epoch}_step{_step}"`. */
  function CheckpointName(c: Ckpt): string
  {
    "epoch" + Decimal.IntToString(c.epoch) + "_step" + Decimal.IntToString(c.step)
  }

  /** Different checkpoints get different directory names: the decimal
      numbers contain no `_`, so the separator is found unambiguously. */
  lemma CheckpointNameInjective(a: Ckpt, b: Ckpt)
    ensures CheckpointName(a) == CheckpointName(b) ==> a == b
  {
    if CheckpointName(a) == CheckpointName(b) {
      var ea, eb := Decimal.IntToString(a.epoch), Decimal.IntToString(b.epoch);
      var sa, sb := Decimal.IntToString(a.step), Decimal.IntToString(b.step);
      var na, nb := CheckpointName(a), CheckpointName(b);
      assert na[5 + |ea|] == '_';
      assert nb[5 + |eb|] == '_';
      assert |ea| == |eb|;
      assert ea == na[5..5 + |ea|] == nb[5..5 + |eb|] == eb;
      assert sa == na[10 + |ea|..] == nb[10 + |eb|..] == sb;
      Decimal.IntToStringInjective(a.epoch, b.epoch);
      Decimal.IntToStringInjective(a.step, b.step);
    }
  }

  /** A run never writes two checkpoints to the same directory. */
  lemma RunCheckpointNamesDistinct(plans: seq<EpochPlan>, batches: seq<nat>, every: Option<nat>)
    requires |batches| == |plans| && |plans| > 0
    requires Consecutive(plans)
    ensures forall i, j :: 0 <= i < j < |RunCheckpoints(plans, batches, every)| ==>
              CheckpointName(RunCheckpoints(plans, batches, every)[i]) != CheckpointName(RunCheckpoints(plans, batches, every)[j])
  {
    var all := RunCheckpoints(plans, batches, every);
    RunCheckpointsIncrease(plans, batches, every);
    forall i, j | 0 <= i < j < |all|
      ensures CheckpointName(all[i]) != CheckpointName(all[j])
    {
      CheckpointNameInjective(all[i], all[j]);
    }
  }

  /** Every pass of a planned run is checkpointed at the start of the epoch
      after it: a resumed pass at `epoch{resume_epoch + 1}_step0`, the last
      pass at `epoch{start + epochs}_step0`. */
  lemma PlanEndCheckpoints(epochs: int, spc: Option<int>, resumeStep: Option<nat>, resumeEpoch: Option<int>)
    requires Plan(epochs, spc, resumeStep, resumeEpoch).Ok?
    ensures resumeStep.Some? ==>
              EndCheckpoint(Plan(epochs, spc, resumeStep, resumeEpoch).value[0]) == Ckpt(StartEpoch(resumeEpoch), 0)
    ensures epochs > 0 ==>
              var plans := Plan(epochs, spc, resumeStep, resumeEpoch).value;
              EndCheckpoint(plans[|plans| - 1]) == Ckpt(StartEpoch(resumeEpoch) + epochs, 0)
  {
  }
}
