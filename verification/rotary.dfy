/** Rotary position encoding: the frequency-exponent table, the (position,
    frequency) cache built from it, and the in-place half-split rotation of a
    head vector. The trigonometry itself (`torch.polar`) is not modelled: a
    cache entry records which angle it stands for, and the rotation takes the
    cosine and sine values as inputs. */
module Rotary {

  /** The frequency base the trunk passes when it builds the cache (also
      the default of `precompute_freqs_cis`). */
  const FreqBase: nat := 500000

  /** `torch.arange(start, stop, 2)`: every second integer from `start` below `stop`. */
  function EvenArange(start: nat, stop: nat): (r: seq<nat>)
    ensures |r| == if start < stop then (stop - start + 1) / 2 else 0
    ensures forall i :: 0 <= i < |r| ==> r[i] == start + 2 * i
    decreases stop - start
  {
    if start >= stop then [] else [start] + EvenArange(start + 2, stop)
  }

  /** The exponent table of `precompute_freqs_cis`: `arange(0, n_elem, 2)`
      cut to its first `n_elem // 2` entries, each divided by `n_elem`. Entry
      `i` stands for the frequency `base ^ (-exponent)`. */
  function FreqExponents(nElem: nat): (r: seq<real>)
    ensures |r| == nElem / 2
    ensures forall i :: 0 <= i < |r| ==> r[i] == (2 * i) as real / nElem as real
  {
    var steps := EvenArange(0, nElem);
    var kept := steps[..nElem / 2];
    seq(|kept|, i requires 0 <= i < |kept| => kept[i] as real / nElem as real)
  }

  /** One (cos, sin) pair of the cache, named by its angle:
      `position * base ^ (-exponent)`. */
  datatype Angle = Angle(base: nat, position: nat, exponent: real)

  /** Rows indexed by position, columns by frequency index: the
      `[seq_len, n_elem // 2, 2]` tensor, with the trailing pair kept as one `Angle`. */
  type Cache = seq<seq<Angle>>

  /** The outer product of positions `0 .. seqLen-1` with the exponent
      table, every angle taken against `base`. */
  function PrecomputeFreqsCis(seqLen: nat, nElem: nat, base: nat): (c: Cache)
    ensures |c| == seqLen
    ensures forall p :: 0 <= p < seqLen ==> |c[p]| == nElem / 2
    ensures forall p, i :: 0 <= p < seqLen && 0 <= i < nElem / 2 ==>
              c[p][i] == Angle(base, p, (2 * i) as real / nElem as real)
  {
    var exps := FreqExponents(nElem);
    seq(seqLen, p requires 0 <= p < seqLen =>
      seq(|exps|, i requires 0 <= i < |exps| => Angle(base, p, exps[i])))
  }

  /** Python's `cache[:s]`: the first `s` rows, or all of them when `s` is larger. */
  function CacheSlice(cache: Cache, s: nat): (r: Cache)
    ensures |r| == if s <= |cache| then s else |cache|
    ensures forall p :: 0 <= p < |r| ==> r[p] == cache[p]
  {
    if s <= |cache| then cache[..s] else cache
  }

  /** The half-split rotation of one head vector: with `d = |x| / 2`, the pair
      `(x[i], x[i + d])` is rotated by the angle whose cosine and sine are
      `cos[i]` and `sin[i]`; an element past `2 * d` (odd head size) is kept. */
  function Rotate(x: seq<real>, cos: seq<real>, sin: seq<real>): seq<real>
    requires |cos| == |x| / 2 && |sin| == |x| / 2
  {
    seq(|x|, i requires 0 <= i < |x| => RotatedAt(x, cos, sin, i))
  }

  /** Element `i` of `Rotate(x, cos, sin)`. */
  function RotatedAt(x: seq<real>, cos: seq<real>, sin: seq<real>, i: nat): real
    requires |cos| == |x| / 2 && |sin| == |x| / 2
    requires i < |x|
  {
    var d := |cos|;
    if i < d then RotFirst(x[i], x[i + d], cos[i], sin[i])
    else if i < 2 * d then RotSecond(x[i - d], x[i], cos[i - d], sin[i - d])
    else x[i]
  }

  /** `apply_rotary_emb` on one head vector, done in place on a buffer as
      the source does: a copy `tmp` of the first half `x1` is saved, `x1` is
      updated, then the second half `x2` is updated from `tmp`. The broadcast
      of `cos`/`sin` against `x1` demands exactly `|x| / 2` values each. */
  method ApplyRotaryEmb(x: seq<real>, cos: seq<real>, sin: seq<real>) returns (y: seq<real>)
    requires |cos| == |x| / 2 && |sin| == |x| / 2
    ensures |y| == |x|
    ensures forall i :: 2 * |cos| <= i < |x| ==> y[i] == x[i]
    ensures y == Rotate(x, cos, sin)
  {
    var d := |cos|;
    var tmp := x[..d];
    var buf := UpdateFirstHalf(x, cos, sin);
    y := UpdateSecondHalf(buf, tmp, cos, sin);
    forall i | 0 <= i < d
      ensures y[i + d] == RotSecond(x[i], x[i + d], cos[i], sin[i])
    {
      assert tmp[i] == x[i];
      assert buf[i + d] == x[i + d];
    }
    forall k | 0 <= k < |x|
      ensures y[k] == RotatedAt(x, cos, sin, k)
    {
      if k < d {
      } else if k < 2 * d {
        assert tmp[k - d] == x[k - d];
      }
    }
  }

  /** `x1.mul_(cos).addcmul_(x2, sin, value=-1)`: the first half is rotated
      in place, reading the second half, which stays as it was. */
  method UpdateFirstHalf(x: seq<real>, cos: seq<real>, sin: seq<real>) returns (buf: seq<real>)
    requires |cos| == |x| / 2 && |sin| == |x| / 2
    ensures |buf| == |x|
    ensures forall k :: 0 <= k < |cos| ==> buf[k] == RotFirst(x[k], x[k + |cos|], cos[k], sin[k])
    ensures forall k :: |cos| <= k < |x| ==> buf[k] == x[k]
  {
    var d := |cos|;
    buf := x;
    var i := 0;
    while i < d
      invariant 0 <= i <= d
      invariant |buf| == |x|
      invariant forall k :: 0 <= k < i ==> buf[k] == RotFirst(x[k], x[k + d], cos[k], sin[k])
      invariant forall k :: i <= k < |x| ==> buf[k] == x[k]
    {
      buf := buf[i := RotFirst(buf[i], buf[i + d], cos[i], sin[i])];
      i := i + 1;
    }
  }

  /** `x2.mul_(cos).addcmul_(tmp, sin, value=1)`: the second half is rotated
      in place, reading the saved copy `tmp` of the first half, not the
      already-updated first half; the first half and any odd tail stay. */
  method UpdateSecondHalf(buf: seq<real>, tmp: seq<real>, cos: seq<real>, sin: seq<real>)
    returns (out: seq<real>)
    requires |cos| == |buf| / 2 && |sin| == |buf| / 2 && |tmp| == |buf| / 2
    ensures |out| == |buf|
    ensures forall k :: 0 <= k < |cos| ==> out[k + |cos|] == RotSecond(tmp[k], buf[k + |cos|], cos[k], sin[k])
    ensures forall k :: 0 <= k < |cos| ==> out[k] == buf[k]
    ensures forall k :: 2 * |cos| <= k < |buf| ==> out[k] == buf[k]
  {
    var d := |cos|;
    out := buf;
    var i := 0;
    while i < d
      invariant 0 <= i <= d
      invariant |out| == |buf|
      invariant forall k :: 0 <= k < d ==> out[k] == buf[k]
      invariant forall k :: 0 <= k < i ==> out[k + d] == RotSecond(tmp[k], buf[k + d], cos[k], sin[k])
      invariant forall k :: d + i <= k < |buf| ==> out[k] == buf[k]
    {
      out := out[i + d := RotSecond(tmp[i], out[i + d], cos[i], sin[i])];
      i := i + 1;
    }
  }

  /** New first-half value from the old pair `(a, b)` = `(x1[i], x2[i])`. */
  function RotFirst(a: real, b: real, c: real, s: real): real
  {
    a * c - b * s
  }

  /** New second-half value from the old pair `(a, b)` = `(x1[i], x2[i])`. */
  function RotSecond(a: real, b: real, c: real, s: real): real
  {
    b * c + a * s
  }

  /** The sines negated: the rotation by the opposite angle. */
  function Negate(s: seq<real>): (r: seq<real>)
    ensures |r| == |s|
    ensures forall i :: 0 <= i < |s| ==> r[i] == -s[i]
  {
    seq(|s|, i requires 0 <= i < |s| => -s[i])
  }

  /** Every (cos, sin) pair lies on the unit circle, as `torch.polar(1, angle)` gives. */
  predicate UnitPairs(cos: seq<real>, sin: seq<real>)
  {
    |cos| == |sin| && forall i :: 0 <= i < |cos| ==> cos[i] * cos[i] + sin[i] * sin[i] == 1.0
  }

  lemma PairInverse(a: real, b: real, c: real, s: real)
    requires c * c + s * s == 1.0
    ensures RotFirst(RotFirst(a, b, c, s), RotSecond(a, b, c, s), c, -s) == a
    ensures RotSecond(RotFirst(a, b, c, s), RotSecond(a, b, c, s), c, -s) == b
  {
    calc {
      RotFirst(RotFirst(a, b, c, s), RotSecond(a, b, c, s), c, -s);
      (a * c - b * s) * c - (b * c + a * s) * (-s);
      a * (c * c + s * s);
      a;
    }
    calc {
      RotSecond(RotFirst(a, b, c, s), RotSecond(a, b, c, s), c, -s);
      (b * c + a * s) * c + (a * c - b * s) * (-s);
      b * (c * c + s * s);
      b;
    }
  }

  /** Rotating by an angle and then by its opposite gives the vector back. */
  lemma RotateInverse(x: seq<real>, cos: seq<real>, sin: seq<real>)
    requires |cos| == |x| / 2 && |sin| == |x| / 2
    requires UnitPairs(cos, sin)
    ensures Rotate(Rotate(x, cos, sin), cos, Negate(sin)) == x
  {
    var d := |cos|;
    var y := Rotate(x, cos, sin);
    var ns := Negate(sin);
    var z := Rotate(y, cos, ns);
    forall i | 0 <= i < |x|
      ensures z[i] == x[i]
    {
      if i < d {
        assert y[i] == RotFirst(x[i], x[i + d], cos[i], sin[i]);
        assert y[i + d] == RotSecond(x[i], x[i + d], cos[i], sin[i]);
        assert z[i] == RotFirst(y[i], y[i + d], cos[i], -sin[i]);
        PairInverse(x[i], x[i + d], cos[i], sin[i]);
      } else if i < 2 * d {
        var j := i - d;
        assert y[j] == RotFirst(x[j], x[i], cos[j], sin[j]);
        assert y[i] == RotSecond(x[j], x[i], cos[j], sin[j]);
        assert z[i] == RotSecond(y[j], y[i], cos[j], -sin[j]);
        PairInverse(x[j], x[i], cos[j], sin[j]);
      } else {
        assert z[i] == y[i];
      }
    }
  }

  lemma PairNorm(a: real, b: real, c: real, s: real)
    requires c * c + s * s == 1.0
    ensures RotFirst(a, b, c, s) * RotFirst(a, b, c, s) + RotSecond(a, b, c, s) * RotSecond(a, b, c, s)
            == a * a + b * b
  {
    calc {
      RotFirst(a, b, c, s) * RotFirst(a, b, c, s) + RotSecond(a, b, c, s) * RotSecond(a, b, c, s);
      (a * c - b * s) * (a * c - b * s) + (b * c + a * s) * (b * c + a * s);
      (a * a + b * b) * (c * c + s * s);
      a * a + b * b;
    }
  }

  /** Squared length of the pair `(v[i], v[i + d])`. */
  function PairNormSq(v: seq<real>, i: nat, d: nat): real
    requires i + d < |v|
  {
    v[i] * v[i] + v[i + d] * v[i + d]
  }

  /** A rotation keeps the length of every rotated pair `(x[i], x[i + d])`. */
  lemma RotatePreservesPairNorms(x: seq<real>, cos: seq<real>, sin: seq<real>)
    requires |cos| == |x| / 2 && |sin| == |x| / 2
    requires UnitPairs(cos, sin)
    ensures forall i :: 0 <= i < |cos| ==>
              PairNormSq(Rotate(x, cos, sin), i, |cos|) == PairNormSq(x, i, |cos|)
  {
    var d := |cos|;
    var y := Rotate(x, cos, sin);
    forall i | 0 <= i < d
      ensures PairNormSq(y, i, d) == PairNormSq(x, i, d)
    {
      assert y[i] == RotFirst(x[i], x[i + d], cos[i], sin[i]);
      assert y[i + d] == RotSecond(x[i], x[i + d], cos[i], sin[i]);
      PairNorm(x[i], x[i + d], cos[i], sin[i]);
    }
  }

  /** At position 0 every angle is 0 (cos 1, sin 0), and the rotation is the identity. */
  lemma RotateAtZeroAngle(x: seq<real>, cos: seq<real>, sin: seq<real>)
    requires |cos| == |x| / 2 && |sin| == |x| / 2
    requires forall i :: 0 <= i < |cos| ==> cos[i] == 1.0 && sin[i] == 0.0
    ensures Rotate(x, cos, sin) == x
  {
    var d := |x| / 2;
    var y := Rotate(x, cos, sin);
    forall i | 0 <= i < |x|
      ensures y[i] == x[i]
    {
      if i < d {
        assert y[i] == x[i] * 1.0 - x[i + d] * 0.0;
      } else if i < 2 * d {
        assert y[i] == x[i] * 1.0 + x[i - d] * 0.0;
      }
    }
  }
}
