/** The model configuration record and the encoder-block list the trunk
    builds from it (aria/model.py, `ModelConfig` and `Transformer.__init__`). */
module ModelConfigs {
  import opened Results

  /** `ModelConfig`. Widths are counts; `nLayers` stays an `int` because
      `range(n_layers)` is simply empty for `n_layers <= 0`. The optional
      sizes are `None` until set. */
  datatype ModelConfig = ModelConfig(
    dModel: nat,
    nHeads: nat,
    nLayers: int,
    ffMult: nat,
    dropP: real,
    maxSeqLen: nat,
    gradCheckpoint: bool,
    residDropout: real,
    vocabSize: Option<nat>,
    classSize: Option<nat>,
    embSize: Option<nat>)

  /** What constructing or running a model can raise: a failed `assert` on a
      config field, a `TypeError` from a layer built with a `None` size, a
      `ZeroDivisionError`, the `IndexError` of an embedding lookup outside the
      table, the `RuntimeError` of a tensor whose shape does not fit, or the
      `ValueError` of a dropout probability outside `[0, 1]`. */
  datatype ModelError =
    | AssertionFailed(field: string)
    | TypeErrorUnset(field: string)
    | ZeroDivision
    | IndexError
    | ShapeMismatch
    | InvalidDropout

  /** One `FusedEncoderBlock`: its index in `encode_layers` (which stands for
      its own weights), its residual-dropout probability and its head
      geometry (`d_head = d_model // n_heads`). */
  datatype Block = Block(index: nat, residDropout: real, nHeads: nat, dHead: nat)

  /** How many times `for layer_index in range(n_layers)` runs. */
  function LayerCount(c: ModelConfig): nat
  {
    if c.nLayers > 0 then c.nLayers else 0
  }

  /** The dropout probability `Transformer.__init__` computes for layer `i`
      of `n`: `r * (i / (n - 1))` when `r > 0`, else 0. With `r > 0` and a
      single layer the division raises. */
  function LayerDropout(r: real, i: nat, n: int): (p: Result<real, ModelError>)
    ensures p.Err? <==> r > 0.0 && n == 1
    ensures p.Err? ==> p.error == ZeroDivision
    ensures p.Ok? && r <= 0.0 ==> p.value == 0.0
  {
    if r > 0.0 then
      if n - 1 == 0 then Err(ZeroDivision) else Ok(Ramp(r, i, n))
    else Ok(0.0)
  }

  /** Whether every layer of a non-empty stack can be built: the dropout
      ramp must not divide by zero and `d_model // n_heads` needs `n_heads > 0`. */
  predicate BlocksBuildable(c: ModelConfig)
  {
    c.nHeads > 0 && !(c.residDropout > 0.0 && c.nLayers == 1)
  }

  /** The first `k` blocks of the layer loop, appended in index order; the
      first error raised stops the loop. */
  function BuildBlocks(c: ModelConfig, k: nat): (r: Result<seq<Block>, ModelError>)
    requires k <= LayerCount(c)
    ensures r.Ok? <==> k == 0 || BlocksBuildable(c)
    ensures r.Err? ==> r.error == ZeroDivision
    ensures r.Ok? ==> |r.value| == k
    ensures r.Ok? ==> forall i :: 0 <= i < k ==>
              r.value[i].index == i && r.value[i].nHeads == c.nHeads && r.value[i].dHead == c.dModel / c.nHeads
    ensures r.Ok? && c.residDropout > 0.0 ==> forall i :: 0 <= i < k ==>
              r.value[i].residDropout == Ramp(c.residDropout, i, c.nLayers)
    ensures r.Ok? && c.residDropout <= 0.0 ==> forall i :: 0 <= i < k ==>
              r.value[i].residDropout == 0.0
  {
    if k == 0 then Ok([])
    else
      match BuildBlocks(c, k - 1)
      case Err(e) => Err(e)
      case Ok(prefix) =>
        match LayerDropout(c.residDropout, k - 1, c.nLayers)
        case Err(e) => Err(e)
        case Ok(p) =>
          if c.nHeads == 0 then Err(ZeroDivision)
          else Ok(prefix + [Block(k - 1, p, c.nHeads, c.dModel / c.nHeads)])
  }

  /** The whole `encode_layers` list: exactly `n_layers` blocks, the first
      with no residual dropout and the last with the full rate, the rate
      rising with the index and never leaving `[0, r]`. */
  function BuildLayers(c: ModelConfig): (r: Result<seq<Block>, ModelError>)
    ensures r.Ok? <==> LayerCount(c) == 0 || BlocksBuildable(c)
    ensures r.Ok? ==> |r.value| == LayerCount(c)
    ensures r.Ok? ==> forall i :: 0 <= i < |r.value| ==> r.value[i].index == i
    ensures r.Ok? && |r.value| > 0 ==> r.value[0].residDropout == 0.0
    ensures r.Ok? && |r.value| > 0 && c.residDropout > 0.0 ==>
              r.value[|r.value| - 1].residDropout == c.residDropout
    ensures r.Ok? && c.residDropout <= 0.0 ==> forall i :: 0 <= i < |r.value| ==>
              r.value[i].residDropout == 0.0
    ensures r.Ok? && c.residDropout > 0.0 ==> forall i, j :: 0 <= i <= j < |r.value| ==>
              0.0 <= r.value[i].residDropout <= r.value[j].residDropout <= c.residDropout
  {
    var r := BuildBlocks(c, LayerCount(c));
    if r.Ok? && c.residDropout > 0.0 && c.nLayers >= 2 then
      DropoutRamp(c.residDropout, c.nLayers);
      r
    else
      r
  }

  /** `r * (i / (n - 1))`, the rate of layer `i` of `n` when `r > 0`. */
  function Ramp(r: real, i: nat, n: int): real
    requires n != 1
  {
    r * (i as real / (n - 1) as real)
  }

  /** For `n >= 2` layers the ramp starts at 0, ends at `r` and is
      non-decreasing. */
  lemma DropoutRamp(r: real, n: int)
    requires r > 0.0 && n >= 2
    ensures Ramp(r, 0, n) == 0.0
    ensures Ramp(r, n - 1, n) == r
    ensures forall i: nat, j: nat :: i <= j < n ==> 0.0 <= Ramp(r, i, n) <= Ramp(r, j, n) <= r
  {
    var m := (n - 1) as real;
    assert (n - 1) as real / m == 1.0;
    forall i: nat, j: nat | i <= j < n
      ensures 0.0 <= Ramp(r, i, n) <= Ramp(r, j, n) <= r
    {
      DivMonotone(0.0, i as real, m);
      DivMonotone(i as real, j as real, m);
      DivMonotone(j as real, m, m);
      MulMonotone(r, 0.0, i as real / m);
      MulMonotone(r, i as real / m, j as real / m);
      MulMonotone(r, j as real / m, 1.0);
    }
  }

  lemma DivMonotone(a: real, b: real, m: real)
    requires m > 0.0 && a <= b
    ensures a / m <= b / m
  {
    assert (b / m - a / m) * m == b - a;
  }

  lemma MulMonotone(r: real, a: real, b: real)
    requires r > 0.0 && a <= b
    ensures r * a <= r * b
  {
    assert r * b - r * a == r * (b - a);
  }
}
