/** The masked loss reduction of `train_loop` and `val_loop`
    (aria/training/train.py). The per-token cross-entropy values are taken as
    given reals (a position whose target is the pad id has loss exactly 0,
    as `ignore_index` makes it); the mask is one boolean per position. */
module MaskedLoss {
  import Seqs

  /** A reduced loss: a real value, or the NaN that `mean()` of an empty
      tensor yields. */
  datatype LossValue = Finite(value: real) | NaN

  /** `mask.sum()`: the number of set mask positions. */
  function MaskCount(mask: seq<bool>): nat
  {
    if |mask| == 0 then 0 else MaskCount(mask[..|mask| - 1]) + (if mask[|mask| - 1] then 1 else 0)
  }

  /** `loss * mask`: masked-out positions become 0. */
  function Masked(loss: seq<real>, mask: seq<bool>): (r: seq<real>)
    requires |loss| == |mask|
    ensures |r| == |loss|
    ensures forall i :: 0 <= i < |r| ==> r[i] == (if mask[i] then loss[i] else 0.0)
  {
    seq(|loss|, i requires 0 <= i < |loss| => if mask[i] then loss[i] else 0.0)
  }

  /** `t[t != 0.0]`: the non-zero entries, in order. */
  function NonZero(s: seq<real>): seq<real>
  {
    if |s| == 0 then []
    else NonZero(s[..|s| - 1]) + (if s[|s| - 1] != 0.0 then [s[|s| - 1]] else [])
  }

  /** The batch loss: 0 (`(loss * 0).sum()`) when the mask is empty,
      otherwise the mean of the non-zero masked losses, which is NaN when
      none is left. */
  function Reduce(loss: seq<real>, mask: seq<bool>): LossValue
    requires |loss| == |mask|
  {
    if MaskCount(mask) == 0 then
      Finite(Seqs.Sum(seq(|loss|, i requires 0 <= i < |loss| => loss[i] * 0.0)))
    else
      var kept := NonZero(Masked(loss, mask));
      if |kept| == 0 then NaN else Finite(Seqs.Mean(kept))
  }

  /** The independent reading of the reduction: the losses at the positions
      that are both masked in and non-zero, in position order. */
  function Selected(loss: seq<real>, mask: seq<bool>): seq<real>
    requires |loss| == |mask|
  {
    if |loss| == 0 then []
    else
      var n := |loss| - 1;
      Selected(loss[..n], mask[..n]) + (if mask[n] && loss[n] != 0.0 then [loss[n]] else [])
  }

  lemma {:induction false} NonZeroMaskedIsSelected(loss: seq<real>, mask: seq<bool>)
    requires |loss| == |mask|
    ensures NonZero(Masked(loss, mask)) == Selected(loss, mask)
    decreases |loss|
  {
    if |loss| > 0 {
      var n := |loss| - 1;
      assert Masked(loss, mask)[..n] == Masked(loss[..n], mask[..n]);
      NonZeroMaskedIsSelected(loss[..n], mask[..n]);
    }
  }

  /** An all-zero mask gives a loss of exactly 0, never a division by zero. */
  lemma EmptyMaskGivesZero(loss: seq<real>, mask: seq<bool>)
    requires |loss| == |mask|
    requires MaskCount(mask) == 0
    ensures Reduce(loss, mask) == Finite(0.0)
  {
    Seqs.SumZeros(seq(|loss|, i requires 0 <= i < |loss| => loss[i] * 0.0));
  }

  /** With a non-empty mask the loss is the mean over exactly the masked-in
      positions whose loss is non-zero, and NaN when there is none. */
  lemma ReduceIsMeanOfSelected(loss: seq<real>, mask: seq<bool>)
    requires |loss| == |mask|
    requires MaskCount(mask) > 0
    ensures |Selected(loss, mask)| == 0 ==> Reduce(loss, mask) == NaN
    ensures |Selected(loss, mask)| > 0 ==> Reduce(loss, mask) == Finite(Seqs.Mean(Selected(loss, mask)))
  {
    NonZeroMaskedIsSelected(loss, mask);
  }

  /** Values at masked-out positions do not matter. */
  lemma {:induction false} SelectedIgnoresMaskedOut(l1: seq<real>, l2: seq<real>, mask: seq<bool>)
    requires |l1| == |mask| && |l2| == |mask|
    requires forall i :: 0 <= i < |mask| && mask[i] ==> l1[i] == l2[i]
    ensures Selected(l1, mask) == Selected(l2, mask)
    decreases |mask|
  {
    if |mask| > 0 {
      var n := |mask| - 1;
      SelectedIgnoresMaskedOut(l1[..n], l2[..n], mask[..n]);
    }
  }

  lemma ReduceIgnoresMaskedOut(l1: seq<real>, l2: seq<real>, mask: seq<bool>)
    requires |l1| == |mask| && |l2| == |mask|
    requires forall i :: 0 <= i < |mask| && mask[i] ==> l1[i] == l2[i]
    ensures Reduce(l1, mask) == Reduce(l2, mask)
  {
    if MaskCount(mask) == 0 {
      EmptyMaskGivesZero(l1, mask);
      EmptyMaskGivesZero(l2, mask);
    } else {
      SelectedIgnoresMaskedOut(l1, l2, mask);
      ReduceIsMeanOfSelected(l1, mask);
      ReduceIsMeanOfSelected(l2, mask);
    }
  }

  /** When every masked-in loss is non-zero (no pad target among them) the
      mean runs over exactly `mask.sum()` positions. */
  lemma {:induction false} SelectedCountsMask(loss: seq<real>, mask: seq<bool>)
    requires |loss| == |mask|
    requires forall i :: 0 <= i < |mask| && mask[i] ==> loss[i] != 0.0
    ensures |Selected(loss, mask)| == MaskCount(mask)
    decreases |mask|
  {
    if |mask| > 0 {
      var n := |mask| - 1;
      SelectedCountsMask(loss[..n], mask[..n]);
    }
  }

  /** When every masked-in loss is zero nothing is selected. */
  lemma {:induction false} SelectedEmptyOverZeros(loss: seq<real>, mask: seq<bool>)
    requires |loss| == |mask|
    requires forall i :: 0 <= i < |mask| && mask[i] ==> loss[i] == 0.0
    ensures Selected(loss, mask) == []
    decreases |mask|
  {
    if |mask| > 0 {
      var n := |mask| - 1;
      SelectedEmptyOverZeros(loss[..n], mask[..n]);
    }
  }

  /** A set mask whose every masked-in position has a zero loss (all pad
      targets) reaches the NaN branch: the guard tests the mask, not what
      survives it. */
  lemma AllPadMaskedGivesNaN(loss: seq<real>, mask: seq<bool>)
    requires |loss| == |mask|
    requires MaskCount(mask) > 0
    requires forall i :: 0 <= i < |mask| && mask[i] ==> loss[i] == 0.0
    ensures Reduce(loss, mask) == NaN
  {
    SelectedEmptyOverZeros(loss, mask);
    ReduceIsMeanOfSelected(loss, mask);
  }

  /** The branch a batch takes: `use_embeddings and random.random() > 0.5`,
      with the coin flip as an input. */
  function Conditioned(useEmbeddings: bool, coin: bool): bool
  {
    useEmbeddings && coin
  }

  /** The targets and mask the loss is computed against: on the conditioned
      branch both lose their last position (`[:, :-1]`) to match the logits. */
  function LossTargets(tgt: seq<int>, mask: seq<bool>, conditioned: bool): (r: (seq<int>, seq<bool>))
    ensures conditioned ==> r == (Seqs.DropLast(tgt), Seqs.DropLast(mask))
    ensures !conditioned ==> r == (tgt, mask)
    ensures |tgt| == |mask| ==> |r.0| == |r.1|
    ensures conditioned && |tgt| >= 1 ==> |r.0| == |tgt| - 1
  {
    if conditioned then (Seqs.DropLast(tgt), Seqs.DropLast(mask)) else (tgt, mask)
  }

  /** One batch row's loss: `tokenLoss` are the per-token cross-entropy
      values against the (possibly truncated) targets, so there is one per
      kept position; the reduction runs against the matching mask. */
  function BatchLoss(tokenLoss: seq<real>, tgt: seq<int>, mask: seq<bool>, conditioned: bool): LossValue
    requires |tgt| == |mask|
    requires |tokenLoss| == |LossTargets(tgt, mask, conditioned).1|
  {
    Reduce(tokenLoss, LossTargets(tgt, mask, conditioned).1)
  }

  /** On the conditioned branch the last mask entry is never consulted. */
  lemma ConditionedIgnoresLastMask(tokenLoss: seq<real>, tgt: seq<int>, m1: seq<bool>, m2: seq<bool>)
    requires |tgt| == |m1| == |m2| && |m1| >= 1
    requires m1[..|m1| - 1] == m2[..|m2| - 1]
    requires |tokenLoss| == |m1| - 1
    ensures BatchLoss(tokenLoss, tgt, m1, true) == BatchLoss(tokenLoss, tgt, m2, true)
  {
  }
}
