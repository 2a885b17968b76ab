/** The layer list of an image: de-duplication in `create_image_meta` (image-rs/src/image.rs). */
module ImageLayers {
  import opened Common

  datatype Descriptor = Descriptor(digest: string, size: int, mediaType: string)

  /** Unique descriptors with the diff id of the same position. */
  datatype Unique = Unique(layers: seq<Descriptor>, diffIds: seq<string>)

  predicate Within(at: seq<nat>, n: nat) { forall i :: 0 <= i < |at| ==> at[i] < n }

  /** Positions whose key did not occur before. */
  function FirstIndexes<K(==)>(keys: seq<K>): (r: seq<nat>)
    ensures Within(r, |keys|)
  {
    if keys == [] then []
    else
      var n := |keys| - 1;
      FirstIndexes(keys[..n]) + if keys[n] in keys[..n] then [] else [n]
  }

  function Pick<T>(s: seq<T>, at: seq<nat>): (r: seq<T>)
    requires Within(at, |s|)
    ensures |r| == |at| && forall i :: 0 <= i < |at| ==> r[i] == s[at[i]]
  {
    if at == [] then [] else [s[at[0]]] + Pick(s, at[1..])
  }

  function Digests(layers: seq<Descriptor>): (r: seq<string>)
    ensures |r| == |layers| && forall i :: 0 <= i < |r| ==> r[i] == layers[i].digest
  {
    if layers == [] then [] else Digests(layers[..|layers| - 1]) + [layers[|layers| - 1].digest]
  }

  function UniqueOf(layers: seq<Descriptor>, diffIds: seq<string>): Unique
    requires |layers| == |diffIds|
  {
    var at := FirstIndexes(Digests(layers));
    Unique(Pick(layers, at), Pick(diffIds, at))
  }

  lemma PickMore<T>(s: seq<T>, n: nat, at: seq<nat>)
    requires n <= |s| && Within(at, n)
    ensures Pick(s[..n], at) == Pick(s, at)
  {}

  lemma PickAppend<T>(s: seq<T>, at: seq<nat>, k: nat)
    requires k < |s| && Within(at, |s|)
    ensures Pick(s, at + [k]) == Pick(s, at) + [s[k]]
  {
    var l, r := Pick(s, at + [k]), Pick(s, at) + [s[k]];
    assert |l| == |r| && forall i :: 0 <= i < |l| ==> l[i] == r[i];
  }

  lemma FirstIndexesStep<K>(keys: seq<K>, i: nat)
    requires i < |keys|
    ensures FirstIndexes(keys[..i + 1]) == FirstIndexes(keys[..i]) + if keys[i] in keys[..i] then [] else [i]
  {
    assert keys[..i + 1][..i] == keys[..i];
  }

  method CreateImageMeta(layers: seq<Descriptor>, diffIds: seq<string>) returns (r: Result<Unique>)
    ensures r.Ok? <==> |layers| == |diffIds|
    ensures r.Ok? ==> r.value == UniqueOf(layers, diffIds)
  {
    if |diffIds| != |layers| { return Err; }
    var uniqueLayers: seq<Descriptor>, uniqueDiffIds: seq<string> := [], [];
    var digests: set<string> := {};
    ghost var keys := Digests(layers);
    for i := 0 to |diffIds|
      invariant forall d :: d in digests <==> d in keys[..i]
      invariant uniqueLayers == Pick(layers, FirstIndexes(keys[..i]))
      invariant uniqueDiffIds == Pick(diffIds, FirstIndexes(keys[..i]))
    {
      FirstIndexesStep(keys, i);
      assert keys[..i + 1] == keys[..i] + [keys[i]];
      if layers[i].digest !in digests {
        PickAppend(layers, FirstIndexes(keys[..i]), i);
        PickAppend(diffIds, FirstIndexes(keys[..i]), i);
        digests := digests + {layers[i].digest};
        uniqueLayers := uniqueLayers + [layers[i]];
        uniqueDiffIds := uniqueDiffIds + [diffIds[i]];
      }
    }
    assert keys[..|diffIds|] == keys;
    r := Ok(Unique(uniqueLayers, uniqueDiffIds));
  }

  /** The kept positions are increasing and their keys all different. */
  lemma {:induction false} KeptAreDistinct<K>(keys: seq<K>, i: nat, j: nat)
    requires i < j < |FirstIndexes(keys)|
    ensures FirstIndexes(keys)[i] < FirstIndexes(keys)[j]
    ensures keys[FirstIndexes(keys)[i]] != keys[FirstIndexes(keys)[j]]
  {
    var n := |keys| - 1;
    var before := FirstIndexes(keys[..n]);
    if j < |before| {
      KeptAreDistinct(keys[..n], i, j);
    }
  }

  /** Every key is kept, by its first occurrence. */
  lemma {:induction false} EveryKeyIsKept<K>(keys: seq<K>, k: nat) returns (i: nat)
    requires k < |keys|
    ensures i < |FirstIndexes(keys)| && keys[FirstIndexes(keys)[i]] == keys[k]
    ensures FirstIndexes(keys)[i] <= k && keys[k] !in keys[..FirstIndexes(keys)[i]]
  {
    var n := |keys| - 1;
    if keys[k] in keys[..n] {
      var j :| 0 <= j < n && keys[j] == keys[k] && (k < n ==> j == k);
      i := EveryKeyIsKept(keys[..n], j);
      assert keys[..n][..FirstIndexes(keys[..n])[i]] == keys[..FirstIndexes(keys)[i]];
    } else {
      i := |FirstIndexes(keys[..n])|;
    }
  }

  /** What a list of layers means does not look below equal meanings. */
  ghost predicate Compositional<T(!new), V(!new)>(meaning: seq<T> -> V) {
    forall a, b, t :: meaning(a) == meaning(b) ==> meaning(a + [t]) == meaning(b + [t])
  }

  /** Wherever a layer repeats an earlier one, having it once more changes nothing. */
  ghost predicate RepeatsAreIdle<T(!new), V(!new)>(keys: seq<string>, items: seq<T>, meaning: seq<T> -> V)
    requires |keys| == |items|
  {
    keys == [] ||
    var n := |keys| - 1;
    && RepeatsAreIdle(keys[..n], items[..n], meaning)
    && (keys[n] in keys[..n] ==> meaning(items) == meaning(items[..n]))
  }

  lemma {:induction false} DropRepeats<T(!new), V(!new)>(keys: seq<string>, items: seq<T>, meaning: seq<T> -> V)
    requires |keys| == |items| && Compositional(meaning) && RepeatsAreIdle(keys, items, meaning)
    ensures meaning(Pick(items, FirstIndexes(keys))) == meaning(items)
  {
    if keys == [] {
      assert items == [];
    } else {
      var n := |keys| - 1;
      DropRepeats(keys[..n], items[..n], meaning);
      PickMore(items, n, FirstIndexes(keys[..n]));
      if keys[n] !in keys[..n] {
        PickAppend(items, FirstIndexes(keys[..n]), n);
        assert items == items[..n] + [items[n]];
      } else {
        assert FirstIndexes(keys) == FirstIndexes(keys[..n]);
      }
    }
  }
}
