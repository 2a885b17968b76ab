/**
 The concurrent pull of an image's layers (image-rs/src/pull.rs, `async_pull_layers`) against the pull of one layer
 after the other, and its use in `pull_image` (image-rs/src/image.rs).

 `pull(i)` is what the pull of layer `i` came to. The buffered stream starts layers in order while fewer than `limit`
 are in flight, then takes whichever of them finishes first: `pick` says which, so it stands for the completion order.
 */
module PullOrder {
  import opened Common
  import opened ImageLayers

  /** Pulling in order, up to the first failure. */
  function Sequential<T>(pull: nat -> Result<T>, n: nat): Result<seq<T>> {
    if n == 0 then Ok([])
    else
      match Sequential(pull, n - 1)
      case Err => Err
      case Ok(before) =>
        match pull(n - 1)
        case Err => Err
        case Ok(v) => Ok(before + [v])
  }

  lemma {:induction false} SequentialMeans<T>(pull: nat -> Result<T>, n: nat)
    ensures Sequential(pull, n).Ok? <==> forall i :: 0 <= i < n ==> pull(i).Ok?
    ensures Sequential(pull, n).Ok? ==> |Sequential(pull, n).value| == n
    ensures Sequential(pull, n).Ok? ==> forall i :: 0 <= i < n ==> pull(i) == Ok(Sequential(pull, n).value[i])
  {
    if n > 0 {
      SequentialMeans(pull, n - 1);
    }
  }

  /** The ordered map built from the results: a later pair wins. */
  function Collect<T>(results: seq<(nat, T)>): map<nat, T> {
    if results == [] then map[]
    else Collect(results[..|results| - 1])[results[|results| - 1].0 := results[|results| - 1].1]
  }

  /** The values of the keys below `bound`, by increasing key. */
  function Values<T>(m: map<nat, T>, bound: nat): seq<T> {
    if bound == 0 then []
    else Values(m, bound - 1) + if bound - 1 in m then [m[bound - 1]] else []
  }

  lemma {:induction false} ValuesInOrder<T>(pull: nat -> Result<T>, m: map<nat, T>, n: nat)
    requires forall i :: 0 <= i < n ==> i in m && pull(i) == Ok(m[i])
    ensures Ok(Values(m, n)) == Sequential(pull, n)
  {
    if n > 0 {
      ValuesInOrder(pull, m, n - 1);
      assert n - 1 in m && pull(n - 1) == Ok(m[n - 1]);
    }
  }

  /** `async_pull_layers`, for every completion order. */
  method AsyncPullLayers<T>(n: nat, limit: nat, pull: nat -> Result<T>, pick: nat -> nat) returns (r: Result<seq<T>>)
    requires limit >= 1
    ensures r == Sequential(pull, n)
  {
    var started, inFlight: seq<nat>, results: seq<(nat, T)>, step := 0, [], [], 0;
    while started < n || inFlight != []
      invariant started <= n && |inFlight| <= limit
      invariant forall k :: 0 <= k < |inFlight| ==> inFlight[k] < started
      invariant forall i :: i in Collect(results) ==> i < started && pull(i) == Ok(Collect(results)[i])
      invariant forall i :: 0 <= i < started ==> i in Collect(results) || i in inFlight
      decreases 2 * (n - started) + |inFlight|
    {
      if started < n && |inFlight| < limit {
        inFlight := inFlight + [started];
        started := started + 1;
      } else {
        var k := pick(step) % |inFlight|;
        step := step + 1;
        var i := inFlight[k];
        ghost var was := inFlight;
        inFlight := inFlight[..k] + inFlight[k + 1..];
        assert forall j :: j in was ==> j == i || j in inFlight;
        match pull(i) {
          case Err =>
            SequentialMeans(pull, n);
            return Err;
          case Ok(v) =>
            assert (results + [(i, v)])[..|results|] == results;
            results := results + [(i, v)];
        }
      }
    }
    ValuesInOrder(pull, Collect(results), n);
    r := Ok(Values(Collect(results), n));
  }

  // ---------------------------------------------------------------- in `pull_image`

  datatype Pulled<+T> = AllPulled(metas: seq<T>) | Failed | LayersMissing(missing: int)

  /** What the pull of the `i`th distinct layer comes to: its descriptor with the diff id of the same position. */
  function Outcome<T>(
      layers: seq<Descriptor>, diffIds: seq<string>, pull: (Descriptor, string) -> Result<T>, i: nat): Result<T>
    requires |layers| == |diffIds| && i < |FirstIndexes(Digests(layers))|
  {
    var k := FirstIndexes(Digests(layers))[i];
    pull(layers[k], diffIds[k])
  }

  /** From the manifest to the layers of the image, with the length check that follows: it never finds one missing. */
  method PullImageLayers<T>(
      layers: seq<Descriptor>, diffIds: seq<string>, limit: nat, pull: (Descriptor, string) -> Result<T>,
      pick: nat -> nat)
    returns (r: Pulled<T>)
    requires limit >= 1
    ensures !r.LayersMissing?
    ensures r.AllPulled? <==>
      && |layers| == |diffIds|
      && forall i :: 0 <= i < |FirstIndexes(Digests(layers))| ==> Outcome(layers, diffIds, pull, i).Ok?
    ensures r.AllPulled? ==>
      && |r.metas| == |FirstIndexes(Digests(layers))|
      && forall i :: 0 <= i < |r.metas| ==> Outcome(layers, diffIds, pull, i) == Ok(r.metas[i])
  {
    var unique := CreateImageMeta(layers, diffIds);
    if unique.Err? { return Failed; }
    var u := unique.value;
    var task := (i: nat) => if i < |u.layers| && i < |u.diffIds| then pull(u.layers[i], u.diffIds[i]) else Err;
    var metas := AsyncPullLayers(|u.layers|, limit, task, pick);
    SequentialMeans(task, |u.layers|);
    assert forall i :: 0 <= i < |u.layers| ==> Outcome(layers, diffIds, pull, i) == task(i);
    if metas.Err? { return Failed; }
    var all := metas.value;
    var missing := |u.layers| - |all|;
    r := if missing != 0 then LayersMissing(missing) else AllPulled(all);
  }
}
