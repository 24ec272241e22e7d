/** `convert_cp_from_safetensors` (aria/training/train.py): every key of a
    state dict loses as many leading characters as the first key's first
    dot-separated segment has, plus one for the dot; values are unchanged.
    The tensors are opaque values of type `V`; reading and writing the files
    is not modelled. */
module KeyStrip {
  import opened Results

  /** `list(d.keys())[0]` on a file with no tensors raises. */
  datatype ConvertError = NoKeys

  /** `len(key.split(".")[0])`: the length of the text before the first dot,
      or of the whole key when it has none. */
  function FirstSegmentLength(key: string): (n: nat)
    ensures n <= |key|
    ensures forall i :: 0 <= i < n ==> key[i] != '.'
    ensures n < |key| ==> key[n] == '.'
  {
    if |key| == 0 || key[0] == '.' then 0 else 1 + FirstSegmentLength(key[1..])
  }

  /** `s[gap + 1:]`, which is empty once the slice start passes the end. */
  function StripKey(s: string, gap: nat): string
  {
    if gap + 1 <= |s| then s[gap + 1..] else []
  }

  /** The state dict a sequence of (key, value) pairs builds, a later pair
      overwriting an earlier one with the same key. */
  function ToMap<V>(entries: seq<(string, V)>): map<string, V>
  {
    if |entries| == 0 then map[]
    else
      var last := entries[|entries| - 1];
      ToMap(entries[..|entries| - 1])[last.0 := last.1]
  }

  /** The pairs with every key stripped by `gap + 1` characters. */
  function Renamed<V>(entries: seq<(string, V)>, gap: nat): (r: seq<(string, V)>)
    ensures |r| == |entries|
    ensures forall i :: 0 <= i < |r| ==> r[i] == (StripKey(entries[i].0, gap), entries[i].1)
  {
    seq(|entries|, i requires 0 <= i < |entries| => (StripKey(entries[i].0, gap), entries[i].1))
  }

  /** The converted state dict, or the error an empty file raises. */
  function ConvertKeys<V>(entries: seq<(string, V)>): (r: Result<map<string, V>, ConvertError>)
    ensures r.Err? <==> |entries| == 0
  {
    if |entries| == 0 then Err(NoKeys)
    else Ok(ToMap(Renamed(entries, FirstSegmentLength(entries[0].0))))
  }

  /** No two pairs share a key, as in a dict. */
  predicate DistinctKeys<V>(entries: seq<(string, V)>)
  {
    forall i, j :: 0 <= i < j < |entries| ==> entries[i].0 != entries[j].0
  }

  /** The keys of the built dict are the keys of the pairs, and with
      distinct keys each key maps to its own pair's value. */
  lemma {:induction false} ToMapContents<V>(entries: seq<(string, V)>)
    ensures forall k :: k in ToMap(entries) <==> exists i :: 0 <= i < |entries| && entries[i].0 == k
    ensures DistinctKeys(entries) ==> forall i :: 0 <= i < |entries| ==> ToMap(entries)[entries[i].0] == entries[i].1
    decreases |entries|
  {
    if |entries| > 0 {
      var n := |entries| - 1;
      var init := entries[..n];
      ToMapContents(init);
      assert forall i :: 0 <= i < n ==> init[i] == entries[i];
      forall k | k in ToMap(entries)
        ensures exists i :: 0 <= i < |entries| && entries[i].0 == k
      {
        if k != entries[n].0 {
          assert k in ToMap(init);
          var i :| 0 <= i < n && init[i].0 == k;
          assert entries[i].0 == k;
        }
      }
    }
  }

  /** No later pair has the key of pair `i`. */
  predicate LastWithKey<V>(entries: seq<(string, V)>, i: nat)
    requires i < |entries|
  {
    forall j :: i < j < |entries| ==> entries[j].0 != entries[i].0
  }

  /** Whatever the keys, a key of the built dict holds the value of the last
      pair with that key. */
  lemma {:induction false} ToMapLastWins<V>(entries: seq<(string, V)>)
    ensures forall i :: 0 <= i < |entries| && LastWithKey(entries, i) ==>
              entries[i].0 in ToMap(entries) && ToMap(entries)[entries[i].0] == entries[i].1
    decreases |entries|
  {
    if |entries| > 0 {
      var n := |entries| - 1;
      var init := entries[..n];
      ToMapLastWins(init);
      forall i | 0 <= i < |entries| && LastWithKey(entries, i)
        ensures entries[i].0 in ToMap(entries) && ToMap(entries)[entries[i].0] == entries[i].1
      {
        if i < n {
          assert entries[n].0 != entries[i].0;
          assert init[i] == entries[i];
          assert LastWithKey(init, i);
        }
      }
    }
  }

  /** Every new key is the tail of an old one after `gap + 1` characters,
      and it holds the value of the last pair whose key strips to it: when
      two keys strip to the same name, the earlier value is lost. */
  lemma ConvertKeysContents<V>(entries: seq<(string, V)>)
    requires |entries| > 0
    ensures forall k :: k in ConvertKeys(entries).value <==>
              exists i :: 0 <= i < |entries| && StripKey(entries[i].0, FirstSegmentLength(entries[0].0)) == k
    ensures var renamed := Renamed(entries, FirstSegmentLength(entries[0].0));
            forall i :: 0 <= i < |entries| && LastWithKey(renamed, i) ==>
              renamed[i].0 in ConvertKeys(entries).value &&
              ConvertKeys(entries).value[renamed[i].0] == entries[i].1
  {
    var renamed := Renamed(entries, FirstSegmentLength(entries[0].0));
    ToMapContents(renamed);
    ToMapLastWins(renamed);
  }

  /** Two keys with different prefixes of the same length collapse to one
      name, and only the later value survives. */
  lemma ConvertKeysCollision()
    ensures ConvertKeys([("a.x", 1), ("b.x", 2)]) == Ok(map["x" := 2])
  {
    assert FirstSegmentLength("a.x") == 1 by {
      assert "a.x"[1..] == ".x";
    }
    var renamed := Renamed([("a.x", 1), ("b.x", 2)], 1);
    assert StripKey("a.x", 1) == "x" && StripKey("b.x", 1) == "x";
    assert renamed == [("x", 1), ("x", 2)];
    assert renamed[..1] == [("x", 1)];
    assert ToMap(renamed[..1]) == map["x" := 1] by {
      assert renamed[..1][..0] == renamed[..0];
    }
    assert ToMap(renamed) == map["x" := 1]["x" := 2];
    assert map["x" := 1]["x" := 2] == map["x" := 2];
  }

  /** A dict whose keys all carry the same dot-free prefix followed by a
      dot converts back to the dict without the prefix. */
  lemma ConvertKeysRoundTrip<V>(prefix: string, entries: seq<(string, V)>)
    requires |entries| > 0
    requires forall i :: 0 <= i < |prefix| ==> prefix[i] != '.'
    ensures ConvertKeys(Prefixed(prefix, entries)) == Ok(ToMap(entries))
  {
    var p := Prefixed(prefix, entries);
    var gap := FirstSegmentLength(p[0].0);
    assert p[0].0[|prefix|] == '.';
    assert gap == |prefix|;
    var renamed := Renamed(p, gap);
    forall i | 0 <= i < |entries|
      ensures renamed[i] == entries[i]
    {
      assert p[i].0[gap + 1..] == entries[i].0;
    }
    assert renamed == entries;
  }

  /** After the round trip each key holds its own value again. */
  lemma ConvertKeysRecoversValues<V>(prefix: string, entries: seq<(string, V)>)
    requires |entries| > 0
    requires forall i :: 0 <= i < |prefix| ==> prefix[i] != '.'
    requires DistinctKeys(entries)
    ensures forall i :: 0 <= i < |entries| ==>
              entries[i].0 in ConvertKeys(Prefixed(prefix, entries)).value &&
              ConvertKeys(Prefixed(prefix, entries)).value[entries[i].0] == entries[i].1
  {
    ConvertKeysRoundTrip(prefix, entries);
    ToMapContents(entries);
  }

  /** Every key of `entries` written as `prefix.key`. */
  function Prefixed<V>(prefix: string, entries: seq<(string, V)>): (r: seq<(string, V)>)
    ensures |r| == |entries|
    ensures forall i :: 0 <= i < |r| ==> r[i] == (prefix + "." + entries[i].0, entries[i].1)
  {
    seq(|entries|, i requires 0 <= i < |entries| => (prefix + "." + entries[i].0, entries[i].1))
  }
}
