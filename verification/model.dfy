/** The trunk (`Transformer`) and its task heads (aria/model.py): which
    configurations each head accepts, the lazily built rotary cache, the
    conditioning shift, the layer order, and the output alignment of the
    conditioned language-model head.

    Tensor numerics stay abstract. A hidden state at one position has an
    arbitrary type `V`; the token-embedding lookup, the work of one encoder
    block, the final norm, the output projection and the conditioning adapter
    are function parameters. Sequences here run over positions of one batch
    row. */
module Model {
  import opened Results
  import opened ModelConfigs
  import Rotary
  import Seqs

  /** `Transformer`: its config, its `encode_layers`, and the rotary cache,
      `None` until the first forward pass. */
  datatype Trunk = Trunk(config: ModelConfig, layers: seq<Block>, freqsCis: Option<Rotary.Cache>)

  /** The four heads of aria/model.py. */
  datatype HeadKind = LM | CL | LMCND | EMB

  /** A constructed head: its trunk, the width of its output projection, and
      for the conditioned head the input width of its embedding adapter. */
  datatype Head = Head(kind: HeadKind, trunk: Trunk, outDim: nat, adapterIn: Option<nat>)

  /** `Transformer.__init__`: the embedding table needs `vocab_size`
      (`TypeError` on `None`), then the layer loop runs. */
  function BuildTrunk(c: ModelConfig): (r: Result<Trunk, ModelError>)
    ensures r.Ok? <==> c.vocabSize.Some? && (LayerCount(c) == 0 || BlocksBuildable(c))
    ensures c.vocabSize.None? ==> r == Err(TypeErrorUnset("vocab_size"))
    ensures r.Err? && c.vocabSize.Some? ==> r == Err(ZeroDivision)
    ensures r.Ok? ==> r.value.config == c && r.value.freqsCis.None?
    ensures r.Ok? ==> |r.value.layers| == LayerCount(c)
  {
    if c.vocabSize.None? then Err(TypeErrorUnset("vocab_size"))
    else
      match BuildLayers(c)
      case Err(e) => Err(e)
      case Ok(layers) => Ok(Trunk(c, layers, None))
  }

  /** The config field each head's constructor asserts on. */
  function CheckedField(kind: HeadKind): string
  {
    match kind
    case LM => "vocab_size"
    case CL => "class_size"
    case LMCND => "vocab_size"
    case EMB => "emb_size"
  }

  function FieldSet(c: ModelConfig, field: string): bool
  {
    if field == "vocab_size" then c.vocabSize.Some?
    else if field == "class_size" then c.classSize.Some?
    else if field == "emb_size" then c.embSize.Some?
    else false
  }

  /** Constructing a head. Each constructor first asserts its own field;
      building the trunk then needs `vocab_size` (so the classification and
      embedding heads need it too, though they do not assert it); the
      conditioned head finally builds its adapter from `emb_size`, which it
      never asserts, so a missing `emb_size` surfaces as a `TypeError`. */
  function BuildHead(kind: HeadKind, c: ModelConfig): (r: Result<Head, ModelError>)
    ensures !FieldSet(c, CheckedField(kind)) ==> r == Err(AssertionFailed(CheckedField(kind)))
    ensures r.Ok? <==>
              && FieldSet(c, CheckedField(kind))
              && c.vocabSize.Some?
              && (LayerCount(c) == 0 || BlocksBuildable(c))
              && (kind == LMCND ==> c.embSize.Some?)
    ensures r.Err? && FieldSet(c, CheckedField(kind)) ==> !r.error.AssertionFailed?
    ensures r.Ok? ==> r.value.kind == kind && r.value.trunk.freqsCis.None?
    ensures r.Ok? ==> |r.value.trunk.layers| == LayerCount(c)
    ensures r.Ok? ==> r.value.outDim == match kind
                                        case LM => c.vocabSize.value
                                        case CL => c.classSize.value
                                        case LMCND => c.vocabSize.value
                                        case EMB => c.embSize.value
    ensures r.Ok? ==> (r.value.adapterIn.Some? <==> kind == LMCND)
  {
    if !FieldSet(c, CheckedField(kind)) then Err(AssertionFailed(CheckedField(kind)))
    else
      match BuildTrunk(c)
      case Err(e) => Err(e)
      case Ok(t) =>
        match kind
        case LM => Ok(Head(LM, t, c.vocabSize.value, None))
        case CL => Ok(Head(CL, t, c.classSize.value, None))
        case EMB => Ok(Head(EMB, t, c.embSize.value, None))
        case LMCND =>
          if c.embSize.None? then Err(TypeErrorUnset("emb_size"))
          else Ok(Head(LMCND, t, c.vocabSize.value, c.embSize))
  }

  /** The conditioned head accepts a config without `emb_size` at its
      assertion and only fails later, building the adapter. */
  lemma CndDoesNotCheckEmbSize(c: ModelConfig)
    requires c.vocabSize.Some? && c.embSize.None?
    requires LayerCount(c) == 0 || BlocksBuildable(c)
    ensures BuildHead(LMCND, c) == Err(TypeErrorUnset("emb_size"))
    ensures BuildHead(EMB, c) == Err(AssertionFailed("emb_size"))
  {
  }

  // ---------------------------------------------------------------------
  // Forward pass

  /** The tensor work of one encoder block on a hidden-state sequence, given
      the cache rows for its positions. */
  type LayerFn<!V> = (Block, seq<V>, Rotary.Cache) -> seq<V>

  /** The layers applied in list order, each to the previous one's output. */
  function ApplyLayers<V>(layers: seq<Block>, f: LayerFn<V>, h: seq<V>, rows: Rotary.Cache): seq<V>
    decreases |layers|
  {
    if |layers| == 0 then h
    else f(layers[|layers| - 1], ApplyLayers(layers[..|layers| - 1], f, h, rows), rows)
  }

  /** The first layer sees the trunk input and hands its output to the rest. */
  lemma {:induction false} ApplyLayersFirstLayerFirst<V>(layers: seq<Block>, f: LayerFn<V>, h: seq<V>, rows: Rotary.Cache)
    requires |layers| > 0
    ensures ApplyLayers(layers, f, h, rows) == ApplyLayers(layers[1..], f, f(layers[0], h, rows), rows)
    decreases |layers|
  {
    if |layers| > 1 {
      var init := layers[..|layers| - 1];
      ApplyLayersFirstLayerFirst(init, f, h, rows);
      assert init[1..] == layers[1..][..|layers[1..]| - 1];
    }
  }

  /** Running a stack split in two is running the halves one after the other. */
  lemma {:induction false} ApplyLayersAppend<V>(a: seq<Block>, b: seq<Block>, f: LayerFn<V>, h: seq<V>, rows: Rotary.Cache)
    ensures ApplyLayers(a + b, f, h, rows) == ApplyLayers(b, f, ApplyLayers(a, f, h, rows), rows)
    decreases |b|
  {
    if |b| == 0 {
      assert a + b == a;
    } else {
      assert (a + b)[..|a + b| - 1] == a + b[..|b| - 1];
      ApplyLayersAppend(a, b[..|b| - 1], f, h, rows);
    }
  }

  /** Every block keeps the sequence length, as `[B, S, d_model]` in and out. */
  ghost predicate KeepsLength<V(!new)>(f: LayerFn<V>)
  {
    forall b, h, rows :: |f(b, h, rows)| == |h|
  }

  ghost predicate NormKeepsLength<V(!new)>(norm: seq<V> -> seq<V>)
  {
    forall h :: |norm(h)| == |h|
  }

  lemma {:induction false} ApplyLayersKeepsLength<V(!new)>(layers: seq<Block>, f: LayerFn<V>, h: seq<V>, rows: Rotary.Cache)
    requires KeepsLength(f)
    ensures |ApplyLayers(layers, f, h, rows)| == |h|
    decreases |layers|
  {
    if |layers| > 0 {
      ApplyLayersKeepsLength(layers[..|layers| - 1], f, h, rows);
    }
  }

  /** The trunk input: with a conditioning vector it is prepended and the
      last token slot dropped (`cat([emb, h[:, :-1]])`), so token `j` moves
      to position `j + 1` and the length stays `S` (for `S >= 1`). */
  function TrunkInput<V>(tokens: seq<V>, emb: Option<V>): (h: seq<V>)
    ensures emb.None? ==> h == tokens
    ensures emb.Some? && |tokens| >= 1 ==> |h| == |tokens|
    ensures emb.Some? && |tokens| == 0 ==> |h| == 1
    ensures emb.Some? ==> h[0] == emb.value
    ensures emb.Some? ==> forall j :: 0 <= j < |tokens| - 1 ==> h[j + 1] == tokens[j]
  {
    match emb
    case None => tokens
    case Some(e) => [e] + Seqs.DropLast(tokens)
  }

  /** The trunk after `forward` has made sure of its cache: built with
      `max_seq_len` rows and head size `d_model // n_heads` only when absent. */
  function WithCache(t: Trunk): (r: Result<Trunk, ModelError>)
    ensures r.Err? <==> t.freqsCis.None? && t.config.nHeads == 0
    ensures r.Ok? ==> r.value.freqsCis.Some?
    ensures r.Ok? ==> r.value.config == t.config && r.value.layers == t.layers
    ensures t.freqsCis.Some? ==> r == Ok(t)
  {
    if t.freqsCis.Some? then Ok(t)
    else if t.config.nHeads == 0 then Err(ZeroDivision)
    else Ok(t.(freqsCis := Some(Rotary.PrecomputeFreqsCis(t.config.maxSeqLen, t.config.dModel / t.config.nHeads, Rotary.FreqBase))))
  }

  /** What one trunk call leaves behind: the trunk (with its cache), the
      cache rows the layers used, and the normed hidden states. */
  datatype Pass<V> = Pass(trunk: Trunk, rows: Rotary.Cache, hidden: seq<V>)

  /** `nn.Embedding` accepts exactly the ids `0 .. vocab_size - 1`. */
  predicate TokensInVocab(c: ModelConfig, src: seq<int>)
  {
    c.vocabSize.Some? && forall j :: 0 <= j < |src| ==> 0 <= src[j] < c.vocabSize.value
  }

  /** The number of positions the layers see: `S`, or 1 for a conditioned
      empty row (the embedding slot alone). */
  function InputLength(s: nat, conditioned: bool): nat
  {
    if conditioned && s == 0 then 1 else s
  }

  /** How many cache rows `freqs_cis[:S]` hands the layers: a prefix of the
      stored cache, or of the `max_seq_len`-row one about to be built. */
  function RowCount(t: Trunk, s: nat): nat
  {
    var m := if t.freqsCis.Some? then |t.freqsCis.value| else t.config.maxSeqLen;
    if s <= m then s else m
  }

  /** The error a block raises on `n` positions with `rows` cache rows, if
      any, in the order the block meets them. In `_att_block` the
      query/key/value reshape to `(B, n, n_heads, d_head)` and the output
      projection (a `d_model`-wide `Linear` fed `n_heads * d_head` columns,
      which it checks even with no row) both need
      `n_heads * d_head == d_model`, and the in-place `x1.mul_(cos)` needs
      the rows to broadcast over the positions (as many rows as positions,
      or a single one): a `RuntimeError` otherwise. Then `F.dropout` with the
      block's residual rate raises a `ValueError` unless the rate lies in
      `[0, 1]`. Blocks map `[B, S, d_model]` to the same shape, so every
      block sees the trunk input length. */
  function BlockError(c: ModelConfig, b: Block, n: nat, rows: nat): (e: Option<ModelError>)
    ensures e.None? <==> b.nHeads * b.dHead == c.dModel && (rows == n || rows == 1)
                         && 0.0 <= b.residDropout <= 1.0
    ensures e.Some? ==> e.value == ShapeMismatch || e.value == InvalidDropout
    ensures e == Some(ShapeMismatch) <==> b.nHeads * b.dHead != c.dModel || (rows != n && rows != 1)
  {
    if b.nHeads * b.dHead != c.dModel || (rows != n && rows != 1) then Some(ShapeMismatch)
    else if b.residDropout < 0.0 || b.residDropout > 1.0 then Some(InvalidDropout)
    else None
  }

  /** The error the layer loop raises: that of the first block that raises. */
  function LayersError(c: ModelConfig, layers: seq<Block>, n: nat, rows: nat): (e: Option<ModelError>)
    ensures e.Some? ==> e.value == ShapeMismatch || e.value == InvalidDropout
    decreases |layers|
  {
    if |layers| == 0 then None
    else if BlockError(c, layers[0], n, rows).Some? then BlockError(c, layers[0], n, rows)
    else LayersError(c, layers[1..], n, rows)
  }

  /** The loop fails iff some block raises, and then with the error of the
      first such block. */
  lemma {:induction false} LayersErrorIsFirst(c: ModelConfig, layers: seq<Block>, n: nat, rows: nat)
    ensures LayersError(c, layers, n, rows).None? <==>
              forall i :: 0 <= i < |layers| ==> BlockError(c, layers[i], n, rows).None?
    ensures LayersError(c, layers, n, rows).Some? ==>
              exists i :: 0 <= i < |layers| && LayersError(c, layers, n, rows) == BlockError(c, layers[i], n, rows)
                          && forall j :: 0 <= j < i ==> BlockError(c, layers[j], n, rows).None?
    decreases |layers|
  {
    if |layers| > 0 {
      var rest := layers[1..];
      LayersErrorIsFirst(c, rest, n, rows);
      assert forall i :: 0 <= i < |rest| ==> rest[i] == layers[i + 1];
      if BlockError(c, layers[0], n, rows).None? {
        if LayersError(c, layers, n, rows).Some? {
          var i :| 0 <= i < |rest| && LayersError(c, rest, n, rows) == BlockError(c, rest[i], n, rows)
                   && forall j :: 0 <= j < i ==> BlockError(c, rest[j], n, rows).None?;
          assert LayersError(c, layers, n, rows) == BlockError(c, layers[i + 1], n, rows);
          assert forall j :: 0 <= j < i + 1 ==> BlockError(c, layers[j], n, rows).None? by {
            forall j | 0 <= j < i + 1
              ensures BlockError(c, layers[j], n, rows).None?
            {
              if j > 0 {
                assert layers[j] == rest[j - 1];
              }
            }
          }
        } else {
          forall i | 0 <= i < |layers|
            ensures BlockError(c, layers[i], n, rows).None?
          {
            if i > 0 {
              assert layers[i] == rest[i - 1];
            }
          }
        }
      }
    }
  }

  predicate LayersAccept(c: ModelConfig, layers: seq<Block>, n: nat, rows: nat)
  {
    LayersError(c, layers, n, rows).None?
  }

  /** `Transformer.forward` on one batch row: the embedding lookup, the
      conditioning shift, the cache, then the layers in list order and the
      final norm, each able to raise. Activation checkpointing recomputes
      the same layers on the backward pass, so both branches of the layer
      loop give the same value and are modelled as one. On an error the
      trunk is not returned, although the source has stored the cache by
      then; a later pass rebuilds the identical cache, which cannot fail
      once one build has succeeded, so nothing observable is lost. */
  function TrunkForward<V>(t: Trunk, src: seq<int>, emb: Option<V>, embed: int -> V,
                           f: LayerFn<V>, norm: seq<V> -> seq<V>): (r: Result<Pass<V>, ModelError>)
    ensures !TokensInVocab(t.config, src) ==> r == Err(IndexError)
    ensures TokensInVocab(t.config, src) && t.freqsCis.None? && t.config.nHeads == 0 ==> r == Err(ZeroDivision)
    ensures r.Ok? <==>
              && TokensInVocab(t.config, src)
              && !(t.freqsCis.None? && t.config.nHeads == 0)
              && LayersAccept(t.config, t.layers, InputLength(|src|, emb.Some?), RowCount(t, |src|))
    ensures r.Err? && TokensInVocab(t.config, src) && !(t.freqsCis.None? && t.config.nHeads == 0) ==>
              Some(r.error) == LayersError(t.config, t.layers, InputLength(|src|, emb.Some?), RowCount(t, |src|))
    ensures r.Ok? ==> WithCache(t) == Ok(r.value.trunk)
    ensures r.Ok? ==> r.value.rows == Rotary.CacheSlice(r.value.trunk.freqsCis.value, |src|)
    ensures r.Ok? ==> r.value.hidden == norm(ApplyLayers(t.layers, f, TrunkInput(Project(src, embed), emb), r.value.rows))
  {
    if !TokensInVocab(t.config, src) then Err(IndexError)
    else
      var h := TrunkInput(Project(src, embed), emb);
      match WithCache(t)
      case Err(e) => Err(e)
      case Ok(t') =>
        var rows := Rotary.CacheSlice(t'.freqsCis.value, |src|);
        match LayersError(t'.config, t'.layers, |h|, |rows|)
        case Some(e) => Err(e)
        case None => Ok(Pass(t', rows, norm(ApplyLayers(t'.layers, f, h, rows))))
  }

  /** A row longer than the cache reaches the layers with too few rows and
      fails in the first block, unless the cache has a single row, which
      broadcasts. */
  lemma TrunkForwardRejectsLongRows<V>(t: Trunk, src: seq<int>, emb: Option<V>, embed: int -> V,
                                       f: LayerFn<V>, norm: seq<V> -> seq<V>)
    requires TokensInVocab(t.config, src) && t.config.nHeads > 0
    requires |t.layers| > 0 && CacheAsBuilt(t)
    requires |src| > t.config.maxSeqLen && t.config.maxSeqLen != 1
    ensures TrunkForward(t, src, emb, embed, f, norm) == Err(ShapeMismatch)
  {
    assert BlockError(t.config, t.layers[0], InputLength(|src|, emb.Some?), RowCount(t, |src|)) == Some(ShapeMismatch);
  }

  /** A conditioned empty row gives the layers one position and no cache
      row, so a trunk with layers rejects it. */
  lemma TrunkForwardRejectsConditionedEmptyRow<V>(t: Trunk, e: V, embed: int -> V,
                                                  f: LayerFn<V>, norm: seq<V> -> seq<V>)
    requires t.config.vocabSize.Some? && t.config.nHeads > 0
    requires |t.layers| > 0
    ensures TrunkForward(t, [], Some(e), embed, f, norm) == Err(ShapeMismatch)
  {
    assert BlockError(t.config, t.layers[0], 1, 0) == Some(ShapeMismatch);
  }

  /** A config whose residual dropout exceeds 1 builds, but with two or more
      layers no forward pass on it ever succeeds: the last block's rate is
      the full `resid_dropout`, which `F.dropout` refuses. */
  lemma DropoutAboveOneNeverRuns<V>(c: ModelConfig, src: seq<int>, emb: Option<V>, embed: int -> V,
                                    f: LayerFn<V>, norm: seq<V> -> seq<V>)
    requires BuildTrunk(c).Ok?
    requires c.residDropout > 1.0 && c.nLayers >= 2
    ensures TrunkForward(BuildTrunk(c).value, src, emb, embed, f, norm).Err?
  {
    var t := BuildTrunk(c).value;
    var n := InputLength(|src|, emb.Some?);
    var rows := RowCount(t, |src|);
    var last := |t.layers| - 1;
    assert t.layers[last].residDropout == c.residDropout;
    assert BlockError(c, t.layers[last], n, rows).Some?;
    LayersErrorIsFirst(c, t.layers, n, rows);
  }

  /** The cache is absent or is exactly the one `forward` builds. */
  predicate CacheAsBuilt(t: Trunk)
  {
    t.freqsCis.None? ||
    (t.config.nHeads > 0 &&
     t.freqsCis.value == Rotary.PrecomputeFreqsCis(t.config.maxSeqLen, t.config.dModel / t.config.nHeads, Rotary.FreqBase))
  }

  /** A forward pass keeps everything but the cache, builds the cache at most
      once, and hands the layers the first `min(S, max_seq_len)` rows, row `p`
      holding the angles of position `p`. */
  lemma TrunkForwardCache<V>(t: Trunk, src: seq<int>, emb: Option<V>, embed: int -> V,
                             f: LayerFn<V>, norm: seq<V> -> seq<V>)
    requires CacheAsBuilt(t)
    requires TrunkForward(t, src, emb, embed, f, norm).Ok?
    ensures var p := TrunkForward(t, src, emb, embed, f, norm).value;
            && CacheAsBuilt(p.trunk)
            && p.trunk.config == t.config && p.trunk.layers == t.layers
            && (t.freqsCis.Some? ==> p.trunk == t)
            && |p.trunk.freqsCis.value| == t.config.maxSeqLen
            && |p.rows| == (if |src| <= t.config.maxSeqLen then |src| else t.config.maxSeqLen)
            && forall q, i :: 0 <= q < |p.rows| && 0 <= i < (t.config.dModel / t.config.nHeads) / 2 ==>
                 p.rows[q][i] == Rotary.Angle(Rotary.FreqBase, q, (2 * i) as real / (t.config.dModel / t.config.nHeads) as real)
  {
  }

  /** A second call finds the cache the first one built: it never rebuilds
      it (so never divides by zero), and when it succeeds it changes nothing. */
  lemma TrunkForwardReusesCache<V>(t: Trunk, src1: seq<int>, src2: seq<int>, emb1: Option<V>, emb2: Option<V>,
                                   embed: int -> V, f: LayerFn<V>, norm: seq<V> -> seq<V>)
    requires TrunkForward(t, src1, emb1, embed, f, norm).Ok?
    ensures var t1 := TrunkForward(t, src1, emb1, embed, f, norm).value.trunk;
            && WithCache(t1) == Ok(t1)
            && TrunkForward(t1, src2, emb2, embed, f, norm) != Err(ZeroDivision)
            && (TrunkForward(t1, src2, emb2, embed, f, norm).Ok? ==>
                  TrunkForward(t1, src2, emb2, embed, f, norm).value.trunk == t1)
  {
  }

  /** With length-preserving blocks and norm, the hidden states have the
      trunk-input length: `S`, or 1 for a conditioned empty row (which only
      a trunk without layers accepts). */
  lemma TrunkForwardLength<V(!new)>(t: Trunk, src: seq<int>, emb: Option<V>, embed: int -> V,
                              f: LayerFn<V>, norm: seq<V> -> seq<V>)
    requires KeepsLength(f) && NormKeepsLength(norm)
    requires TrunkForward(t, src, emb, embed, f, norm).Ok?
    ensures var p := TrunkForward(t, src, emb, embed, f, norm).value;
            |p.hidden| == if emb.Some? && |src| == 0 then 1 else |src|
  {
    var p := TrunkForward(t, src, emb, embed, f, norm).value;
    var input := TrunkInput(Project(src, embed), emb);
    ApplyLayersKeepsLength(t.layers, f, input, p.rows);
    assert |p.hidden| == |ApplyLayers(t.layers, f, input, p.rows)|;
  }

  // ---------------------------------------------------------------------
  // Heads

  /** A per-position map: `tok_embeddings(src)` with `embed`, or an output
      projection with `head`. */
  function Project<V, L>(hidden: seq<V>, head: V -> L): (r: seq<L>)
    ensures |r| == |hidden|
    ensures forall j :: 0 <= j < |hidden| ==> r[j] == head(hidden[j])
  {
    seq(|hidden|, j requires 0 <= j < |hidden| => head(hidden[j]))
  }

  /** `TransformerLM`, `TransformerCL` and `TransformerEMB` forward: the
      trunk without conditioning, then the head's projection at every position. */
  function HeadForward<V, L>(t: Trunk, src: seq<int>, embed: int -> V, f: LayerFn<V>,
                             norm: seq<V> -> seq<V>, head: V -> L): (r: Result<(Trunk, seq<L>), ModelError>)
    ensures r.Ok? <==> TokensInVocab(t.config, src) && !(t.freqsCis.None? && t.config.nHeads == 0)
                       && LayersAccept(t.config, t.layers, |src|, RowCount(t, |src|))
    ensures r.Ok? ==> WithCache(t) == Ok(r.value.0) && r.value.0.freqsCis.Some?
    ensures r.Ok? ==>
              var hidden := norm(ApplyLayers(t.layers, f, Project(src, embed), Rotary.CacheSlice(r.value.0.freqsCis.value, |src|)));
              |r.value.1| == |hidden| && forall j :: 0 <= j < |hidden| ==> r.value.1[j] == head(hidden[j])
  {
    match TrunkForward(t, src, None, embed, f, norm)
    case Err(e) => Err(e)
    case Ok(p) => Ok((p.trunk, Project(p.hidden, head)))
  }

  /** `dummy_output.sum() * 0.0` for the adapter's output on a zero input. */
  function DummyLoss(dummyOut: seq<real>): real
  {
    Seqs.Sum(dummyOut) * 0.0
  }

  /** `logits + c`: the scalar added to every logit. */
  function AddToAll(logits: seq<seq<real>>, c: real): (r: seq<seq<real>>)
    ensures |r| == |logits|
    ensures forall j :: 0 <= j < |r| ==> |r[j]| == |logits[j]|
    ensures forall j, k :: 0 <= j < |r| && 0 <= k < |r[j]| ==> r[j][k] == logits[j][k] + c
  {
    seq(|logits|, j requires 0 <= j < |logits| =>
      seq(|logits[j]|, k requires 0 <= k < |logits[j]| => logits[j][k] + c))
  }

  /** `TransformerLM_CND.forward`. With an embedding: adapt it, run the
      conditioned trunk, and drop logit position 0 (the conditioning slot).
      Without one: run the adapter on zeros (`dummyOut` is its output), and
      add `0 * sum` of it to the plain logits. */
  function CndForward<V, E>(t: Trunk, src: seq<int>, emb: Option<E>, adapter: E -> V, dummyOut: seq<real>,
                            embed: int -> V, f: LayerFn<V>, norm: seq<V> -> seq<V>,
                            head: V -> seq<real>): (r: Result<(Trunk, seq<seq<real>>), ModelError>)
    ensures r.Ok? <==> TokensInVocab(t.config, src) && !(t.freqsCis.None? && t.config.nHeads == 0)
                       && LayersAccept(t.config, t.layers, InputLength(|src|, emb.Some?), RowCount(t, |src|))
    ensures r.Ok? ==> WithCache(t) == Ok(r.value.0) && r.value.0.freqsCis.Some?
    ensures r.Ok? && emb.Some? ==>
              var input := TrunkInput(Project(src, embed), Some(adapter(emb.value)));
              var hidden := norm(ApplyLayers(t.layers, f, input, Rotary.CacheSlice(r.value.0.freqsCis.value, |src|)));
              && |r.value.1| == (if |hidden| == 0 then 0 else |hidden| - 1)
              && forall j :: 0 <= j < |r.value.1| ==> r.value.1[j] == head(hidden[j + 1])
    ensures r.Ok? && emb.None? ==>
              var hidden := norm(ApplyLayers(t.layers, f, Project(src, embed), Rotary.CacheSlice(r.value.0.freqsCis.value, |src|)));
              && |r.value.1| == |hidden|
              && forall j :: 0 <= j < |hidden| ==> r.value.1[j] == head(hidden[j])
  {
    match emb
    case Some(e) =>
      (match TrunkForward(t, src, Some(adapter(e)), embed, f, norm)
       case Err(err) => Err(err)
       case Ok(p) => Ok((p.trunk, Seqs.DropFirst(Project(p.hidden, head)))))
    case None =>
      (match TrunkForward(t, src, None, embed, f, norm)
       case Err(err) => Err(err)
       case Ok(p) =>
         assert DummyLoss(dummyOut) == 0.0;
         AddZero(Project(p.hidden, head));
         Ok((p.trunk, AddToAll(Project(p.hidden, head), DummyLoss(dummyOut)))))
  }

  /** Without an embedding the conditioned head's logits are the plain
      language-model logits: the dummy pass adds exactly zero. */
  lemma CndWithoutEmbeddingIsLm<V, E>(t: Trunk, src: seq<int>, adapter: E -> V, dummyOut: seq<real>,
                                      embed: int -> V, f: LayerFn<V>, norm: seq<V> -> seq<V>,
                                      head: V -> seq<real>)
    ensures CndForward(t, src, None, adapter, dummyOut, embed, f, norm, head)
            == HeadForward(t, src, embed, f, norm, head)
  {
    assert DummyLoss(dummyOut) == 0.0;
    match TrunkForward(t, src, None, embed, f, norm)
    case Err(_) =>
    case Ok(p) =>
      AddZero(Project(p.hidden, head));
  }

  lemma AddZero(logits: seq<seq<real>>)
    ensures AddToAll(logits, 0.0) == logits
  {
    var r := AddToAll(logits, 0.0);
    forall j | 0 <= j < |logits|
      ensures r[j] == logits[j]
    {
      assert forall k :: 0 <= k < |r[j]| ==> r[j][k] == logits[j][k];
    }
  }

  /** With an embedding the conditioned head returns `S - 1` positions, and
      output position `j` is the head applied to trunk position `j + 1`, the
      one whose input is token `j` (position 0 holds the adapted embedding).
      For `S = 0` (accepted only by a trunk without layers) the output is
      empty. */
  lemma CndConditionedAlignment<V(!new), E>(t: Trunk, src: seq<int>, e: E, adapter: E -> V, dummyOut: seq<real>,
                                      embed: int -> V, f: LayerFn<V>, norm: seq<V> -> seq<V>,
                                      head: V -> seq<real>)
    requires KeepsLength(f) && NormKeepsLength(norm)
    requires CndForward(t, src, Some(e), adapter, dummyOut, embed, f, norm, head).Ok?
    ensures var out := CndForward(t, src, Some(e), adapter, dummyOut, embed, f, norm, head).value.1;
            var p := TrunkForward(t, src, Some(adapter(e)), embed, f, norm).value;
            && |out| == (if |src| == 0 then 0 else |src| - 1)
            && forall j :: 0 <= j < |out| ==> out[j] == head(p.hidden[j + 1])
    ensures var p := TrunkForward(t, src, Some(adapter(e)), embed, f, norm).value;
            var input := TrunkInput(Project(src, embed), Some(adapter(e)));
            && p.hidden == norm(ApplyLayers(t.layers, f, input, p.rows))
            && input[0] == adapter(e)
            && forall j :: 0 <= j < |src| - 1 ==> input[j + 1] == embed(src[j])
  {
    TrunkForwardLength(t, src, Some(adapter(e)), embed, f, norm);
  }

  /** Without an embedding every head keeps all `S` positions. */
  lemma HeadForwardLength<V(!new), L>(t: Trunk, src: seq<int>, embed: int -> V, f: LayerFn<V>,
                                norm: seq<V> -> seq<V>, head: V -> L)
    requires KeepsLength(f) && NormKeepsLength(norm)
    requires HeadForward(t, src, embed, f, norm, head).Ok?
    ensures |HeadForward(t, src, embed, f, norm, head).value.1| == |src|
  {
    TrunkForwardLength(t, src, None, embed, f, norm);
  }

  /** The conditioned logits line up with the targets the training loop
      truncates to `tgt[:-1]`, for every row length including 0. */
  lemma CndLogitsMatchTruncatedTargets<V(!new), E>(t: Trunk, src: seq<int>, tgt: seq<int>, e: E, adapter: E -> V,
                                             dummyOut: seq<real>, embed: int -> V, f: LayerFn<V>,
                                             norm: seq<V> -> seq<V>, head: V -> seq<real>)
    requires |tgt| == |src|
    requires KeepsLength(f) && NormKeepsLength(norm)
    requires CndForward(t, src, Some(e), adapter, dummyOut, embed, f, norm, head).Ok?
    ensures |CndForward(t, src, Some(e), adapter, dummyOut, embed, f, norm, head).value.1| == |Seqs.DropLast(tgt)|
  {
    CndConditionedAlignment(t, src, e, adapter, dummyOut, embed, f, norm, head);
  }
}
