/** The loss statistics `train_loop` keeps per call (aria/training/train.py):
    a buffer with one entry per batch, the trailing mean over the last 200
    entries and the running mean over all of them. A batch loss can be the
    NaN of an empty `mean()`; Python's `sum` then yields NaN, so one NaN in
    a window makes that window's mean NaN. */
module LossStats {
  import opened Seqs
  import opened MaskedLoss

  /** `TRAILING_LOSS_STEPS`. */
  const TrailingLossSteps: nat := 200

  /** `buf[-200:]`: the last `min(200, |buf|)` entries. */
  function LastWindow<T>(buf: seq<T>): (w: seq<T>)
    ensures |w| == if |buf| < TrailingLossSteps then |buf| else TrailingLossSteps
    ensures forall i :: 0 <= i < |w| ==> w[i] == buf[|buf| - |w| + i]
  {
    if |buf| <= TrailingLossSteps then buf else buf[|buf| - TrailingLossSteps..]
  }

  predicate AllFinite(buf: seq<LossValue>)
  {
    forall i :: 0 <= i < |buf| ==> buf[i].Finite?
  }

  /** The real values of a NaN-free buffer. */
  function Values(buf: seq<LossValue>): (r: seq<real>)
    requires AllFinite(buf)
    ensures |r| == |buf|
    ensures forall i :: 0 <= i < |r| ==> r[i] == buf[i].value
  {
    seq(|buf|, i requires 0 <= i < |buf| => buf[i].value)
  }

  /** `sum(buf) / len(buf)` over floats: NaN as soon as one entry is NaN. */
  function MeanOf(buf: seq<LossValue>): LossValue
    requires |buf| > 0
  {
    if AllFinite(buf) then Finite(Mean(Values(buf))) else NaN
  }

  /** `sum(buf[-200:]) / len(buf[-200:])`. */
  function Trailing(buf: seq<LossValue>): LossValue
    requires |buf| > 0
  {
    MeanOf(LastWindow(buf))
  }

  /** `sum(buf) / len(buf)`. */
  function Average(buf: seq<LossValue>): LossValue
    requires |buf| > 0
  {
    MeanOf(buf)
  }

  /** Until 200 batches have been seen, the trailing loss is the running average. */
  lemma TrailingIsAverageEarly(buf: seq<LossValue>)
    requires 0 < |buf| <= TrailingLossSteps
    ensures Trailing(buf) == Average(buf)
  {
  }

  /** After 200 batches the trailing loss depends only on the last 200. */
  lemma TrailingForgetsOlder(older: seq<LossValue>, recent: seq<LossValue>)
    requires |recent| == TrailingLossSteps
    ensures Trailing(older + recent) == MeanOf(recent)
  {
    assert LastWindow(older + recent) == recent;
  }

  /** Over NaN-free losses both statistics are real and stay within the
      range of the recorded losses. */
  lemma StatisticsBounded(buf: seq<LossValue>, lo: real, hi: real)
    requires |buf| > 0 && AllFinite(buf)
    requires Bounded(Values(buf), lo, hi)
    ensures Trailing(buf).Finite? && lo <= Trailing(buf).value <= hi
    ensures Average(buf).Finite? && lo <= Average(buf).value <= hi
  {
    MeanBounds(Values(buf), lo, hi);
    var w := LastWindow(buf);
    assert AllFinite(w);
    assert Bounded(Values(w), lo, hi);
    MeanBounds(Values(w), lo, hi);
  }

  /** Recording a real batch loss after real ones moves the average to the
      weighted combination of the old average and the new loss; recording
      a NaN makes the average NaN. */
  lemma RecordUpdatesAverage(buf: seq<LossValue>, x: LossValue)
    requires |buf| > 0 && AllFinite(buf)
    ensures x.NaN? ==> Average(buf + [x]) == NaN
    ensures x.Finite? ==> Average(buf + [x]).Finite?
    ensures x.Finite? ==>
              Average(buf + [x]).value * ((|buf| + 1) as real) == Average(buf).value * (|buf| as real) + x.value
  {
    if x.NaN? {
      assert !AllFinite(buf + [x]) by {
        assert (buf + [x])[|buf|] == x;
      }
    } else {
      assert AllFinite(buf + [x]);
      assert Values(buf + [x]) == Values(buf) + [x.value];
      SumAppend(Values(buf), [x.value]);
      assert Sum([x.value]) == x.value by {
        assert [x.value][..0] == [];
      }
      var n := |buf| as real;
      assert Average(buf).value * n == Sum(Values(buf));
      assert Average(buf + [x]).value * (n + 1.0) == Sum(Values(buf + [x]));
    }
  }

  /** A NaN batch loss poisons the running average for the rest of the call,
      and the trailing loss while it is among the last 200 entries. */
  lemma NaNPoisons(buf: seq<LossValue>, i: nat)
    requires i < |buf| && buf[i].NaN?
    ensures Average(buf) == NaN
    ensures |buf| - i <= TrailingLossSteps ==> Trailing(buf) == NaN
  {
    var w := LastWindow(buf);
    if |buf| - i <= TrailingLossSteps {
      assert w[i - (|buf| - |w|)] == buf[i];
    }
  }
}
