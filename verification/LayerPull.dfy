/**
 Pulling one layer: the attempts with clean-up and retry (image-rs/src/pull.rs, image-rs/src/stream.rs).

 Directories are numbered by their layer store, of which there may be several. A directory holds a finished layer or
 something unfinished.
 */
module LayerPull {
  import opened Common
  import opened ImageLayers

  /** A numbered directory below the data directory of a store. */
  datatype Place = Place(store: nat, number: nat)

  datatype LayerMeta = LayerMeta(compressedDigest: string, uncompressedDigest: string, encrypted: bool, path: Place)

  /** What was unpacked into a directory: from which blob, with which digest and how many compressed bytes. */
  datatype Layer = Layer(desc: Descriptor, diffId: string, digest: string, bytes: nat, encrypted: bool)

  type Dirs = map<Place, Option<Layer>>

  const LAYER_PULL_ATTEMPTS := 3
  const SHA256_PREFIX := "sha256:"
  const SHA512_PREFIX := "sha512:"

  /** The checks at the end of `async_handle_layer`. */
  predicate Accepted(l: Layer) {
    (l.encrypted || l.desc.size <= 0 || l.bytes == l.desc.size) && l.digest == l.diffId
  }

  /** The layer that a good attempt leaves. */
  function LayerOf(desc: Descriptor, diffId: string, a: Attempt): Layer {
    Layer(desc, diffId, diffId, |Flatten(a.compressed)|, a.encrypted)
  }

  function MetaOf(l: Layer, path: Place): LayerMeta { LayerMeta(l.desc.digest, l.digest, l.encrypted, path) }

  /** The meta data's directory holds a finished layer that passed the checks and that they describe. */
  predicate Backed(dirs: Dirs, m: LayerMeta) {
    m.path in dirs && dirs[m.path].Some? && Accepted(dirs[m.path].value) && m == MetaOf(dirs[m.path].value, m.path)
  }

  // ---------------------------------------------------------------- readers

  /** One poll of a reader. */
  datatype Poll = Chunk(bytes: seq<byte>) | NotReady

  function Flatten(polls: seq<Poll>): seq<byte> {
    if polls == [] then []
    else
      var n := |polls| - 1;
      Flatten(polls[..n]) + if polls[n].Chunk? then polls[n].bytes else []
  }

  /** `HashReader` and `CountingReader` over a whole stream: what the hasher saw and the counter's value. */
  method ReadThrough(polls: seq<Poll>) returns (hashed: seq<byte>, count: nat)
    ensures hashed == Flatten(polls) && count == |Flatten(polls)|
  {
    hashed, count := [], 0;
    for i := 0 to |polls|
      invariant hashed == Flatten(polls[..i]) && count == |hashed|
    {
      assert polls[..i + 1][..i] == polls[..i];
      if polls[i].Chunk? {
        hashed := hashed + polls[i].bytes;
        count := count + |polls[i].bytes|;
      }
    }
    assert polls[..|polls|] == polls;
  }

  // ---------------------------------------------------------------- one layer, with retries

  /** What the registry, the decoder, the unpacking and the file system do in one attempt. */
  datatype Attempt = Attempt(
    streamOpened: bool, encrypted: bool, decoderReady: bool, compressed: seq<Poll>, plain: seq<Poll>,
    unpackOk: bool, timedOut: bool, rollbackOk: bool, cleanupOk: bool)

  class Puller {
    const store: nat
    var next: nat
    var dirs: Dirs
    var layerDb: map<string, LayerMeta>
    const digest256: seq<byte> -> string
    const digest512: seq<byte> -> string

    constructor (
        store: nat, next: nat, dirs: Dirs, layerDb: map<string, LayerMeta>, digest256: seq<byte> -> string,
        digest512: seq<byte> -> string)
      ensures this.store == store && this.next == next && this.dirs == dirs && this.layerDb == layerDb
      ensures this.digest256 == digest256 && this.digest512 == digest512
    {
      this.store, this.next, this.dirs, this.layerDb := store, next, dirs, layerDb;
      this.digest256, this.digest512 := digest256, digest512;
    }

    /** New directories come after all existing ones of the store. */
    ghost predicate Valid() reads this { forall p :: p in dirs && p.store == store ==> p.number < next }

    /** The digest function that the diff id's prefix selects, applied to the unpacked stream, gives the diff id. */
    predicate DigestFits(diffId: string, a: Attempt) {
      || (SHA256_PREFIX <= diffId && digest256(Flatten(a.plain)) == diffId)
      || (!(SHA256_PREFIX <= diffId) && SHA512_PREFIX <= diffId && digest512(Flatten(a.plain)) == diffId)
    }

    /** Everything after the opening of the stream goes well: decoding, unpacking in time, digest and size. */
    predicate Handles(desc: Descriptor, diffId: string, a: Attempt) {
      && a.decoderReady && a.unpackOk && !a.timedOut && DigestFits(diffId, a)
      && (a.encrypted || desc.size <= 0 || |Flatten(a.compressed)| == desc.size)
    }

    predicate IsFirstGood(desc: Descriptor, diffId: string, attempts: seq<Attempt>, k: nat) requires k < |attempts| {
      Good(desc, diffId, attempts[k]) && forall j :: 0 <= j < k ==> !Good(desc, diffId, attempts[j])
    }

    predicate Good(desc: Descriptor, diffId: string, a: Attempt) { a.streamOpened && Handles(desc, diffId, a) }

    /** `stream_processing` into directory `path`: a failed unpacking is rolled back. */
    method StreamProcessing(diffId: string, path: Place, a: Attempt) returns (r: Result<string>)
      modifies this`dirs
      ensures r.Ok? ==> path in dirs && dirs == old(dirs)[path := None]
      ensures r.Ok? && SHA256_PREFIX <= diffId ==> r.value == digest256(Flatten(a.plain))
      ensures r.Ok? && !(SHA256_PREFIX <= diffId) ==> r.value == digest512(Flatten(a.plain))
      ensures r.Ok? <==> a.unpackOk && !a.timedOut && (SHA256_PREFIX <= diffId || SHA512_PREFIX <= diffId)
      ensures r.Err? ==> dirs == old(dirs) || dirs == old(dirs)[path := None] || dirs == old(dirs) - {path}
    {
      if !(SHA256_PREFIX <= diffId) && !(SHA512_PREFIX <= diffId) { return Err; }
      dirs := dirs[path := None];
      if a.timedOut { return Err; }
      if !a.unpackOk {
        if a.rollbackOk {
          dirs := dirs - {path};
          assert dirs == old(dirs) - {path};
        }
        return Err;
      }
      var hashed, _ := ReadThrough(a.plain);
      r := Ok(if SHA256_PREFIX <= diffId then digest256(hashed) else digest512(hashed));
    }

    /** `async_handle_layer` */
    method HandleLayer(desc: Descriptor, diffId: string, a: Attempt) returns (r: Result<LayerMeta>)
      requires Valid()
      modifies this`next, this`dirs
      ensures Valid() && old(next) <= next <= old(next) + 1
      ensures forall n :: n in old(dirs) ==> n in dirs && dirs[n] == old(dirs)[n]
      ensures forall n :: n in dirs && n !in old(dirs) ==> n == Place(store, old(next))
      ensures desc.digest in layerDb ==> r == Ok(layerDb[desc.digest]) && next == old(next) && dirs == old(dirs)
      ensures desc.digest !in layerDb ==> (r.Ok? <==> Handles(desc, diffId, a))
      ensures desc.digest !in layerDb && r.Ok? ==>
                && Backed(dirs, r.value) && r.value.path == Place(store, old(next))
                && dirs[r.value.path] == Some(LayerOf(desc, diffId, a))
      ensures r.Err? && a.cleanupOk ==> dirs == old(dirs)
    {
      if desc.digest in layerDb { return Ok(layerDb[desc.digest]); }
      var path := Place(store, next);
      next := next + 1;
      var result: Result<LayerMeta> := Err;
      if a.decoderReady {
        var digest := StreamProcessing(diffId, path, a);
        if digest.Ok? {
          var _, copied := ReadThrough(a.compressed);
          var layer := Layer(desc, diffId, digest.value, copied, a.encrypted);
          dirs := dirs[path := Some(layer)];
          if !a.encrypted && desc.size > 0 && copied != desc.size {
          } else if digest.value != diffId {
          } else {
            result := Ok(MetaOf(layer, path));
          }
        }
      }
      if result.Err? && a.cleanupOk {
        dirs := dirs - {path};
        assert dirs == old(dirs);
      }
      r := result;
    }

    /** `pull_layer_with_retry` */
    method PullLayerWithRetry(desc: Descriptor, diffId: string, attempts: seq<Attempt>) returns (r: Result<LayerMeta>)
      requires Valid() && |attempts| == LAYER_PULL_ATTEMPTS
      modifies this`next, this`dirs
      ensures Valid() && old(next) <= next <= old(next) + LAYER_PULL_ATTEMPTS
      ensures forall n :: n in old(dirs) ==> n in dirs && dirs[n] == old(dirs)[n]
      ensures desc.digest in layerDb ==> r == Ok(layerDb[desc.digest]) && dirs == old(dirs) && next == old(next)
      ensures desc.digest !in layerDb ==>
        (r.Ok? <==> exists k :: 0 <= k < |attempts| && Good(desc, diffId, attempts[k]))
      ensures desc.digest !in layerDb && r.Ok? ==>
        Backed(dirs, r.value) && r.value.path !in old(dirs) && r.value.path.store == store
      ensures desc.digest !in layerDb && r.Ok? ==>
        exists k :: 0 <= k < |attempts| && IsFirstGood(desc, diffId, attempts, k)
          && dirs[r.value.path] == Some(LayerOf(desc, diffId, attempts[k]))
      ensures r.Err? && (forall k :: 0 <= k < |attempts| ==> attempts[k].cleanupOk) ==> dirs == old(dirs)
    {
      r := Err;
      for attempt := 0 to LAYER_PULL_ATTEMPTS
        invariant Valid() && old(next) <= next <= old(next) + attempt
        invariant forall n :: n in old(dirs) ==> n in dirs && dirs[n] == old(dirs)[n]
        invariant (forall k :: 0 <= k < |attempts| ==> attempts[k].cleanupOk) ==> dirs == old(dirs)
        invariant attempt > 0 ==> desc.digest !in layerDb
        invariant attempt == 0 ==> dirs == old(dirs)
        invariant forall j :: 0 <= j < attempt ==> !Good(desc, diffId, attempts[j])
      {
        if desc.digest in layerDb { return Ok(layerDb[desc.digest]); }
        if attempts[attempt].streamOpened {
          var result := HandleLayer(desc, diffId, attempts[attempt]);
          if result.Ok? {
            assert desc.digest !in layerDb ==> IsFirstGood(desc, diffId, attempts, attempt);
            return result;
          }
        }
      }
    }
  }
}
