/** The experiment directory search of `setup_project_dir`
    (aria/training/train.py): with no directory given, the run goes into
    `experiments/<n>` for the least `n` whose decimal name is not taken.
    The directory listing is an input (the names of the existing
    sub-directories); creating directories is not modelled. */
module ProjectDir {
  import Decimal

  /** The names `str(0)`, ..., `str(n - 1)`. */
  function IndexNames(n: nat): set<string>
  {
    set k | 0 <= k < n :: Decimal.NatToString(k)
  }

  /** Distinct indices have distinct names, so `n` indices have `n` names. */
  lemma {:induction false} IndexNamesCount(n: nat)
    ensures |IndexNames(n)| == n
    decreases n
  {
    if n > 0 {
      IndexNamesCount(n - 1);
      assert IndexNames(n) == IndexNames(n - 1) + {Decimal.NatToString(n - 1)};
      if Decimal.NatToString(n - 1) in IndexNames(n - 1) {
        var k :| 0 <= k < n - 1 && Decimal.NatToString(k) == Decimal.NatToString(n - 1);
        Decimal.NatToStringInjective(k, n - 1);
      }
    }
  }

  /** The `while True` search: the index returned is free, every smaller one
      is taken, and it never exceeds the number of existing directories. */
  method NextExperimentIndex(existing: set<string>) returns (ind: nat)
    ensures Decimal.NatToString(ind) !in existing
    ensures forall k :: 0 <= k < ind ==> Decimal.NatToString(k) in existing
    ensures ind <= |existing|
  {
    ind := 0;
    while Decimal.NatToString(ind) in existing
      invariant forall k :: 0 <= k < ind ==> Decimal.NatToString(k) in existing
      invariant ind <= |existing|
      decreases |existing| - ind
    {
      var taken := IndexNames(ind + 1);
      assert taken <= existing;
      IndexNamesCount(ind + 1);
      assert existing == taken + (existing - taken);
      ind := ind + 1;
    }
  }
}
