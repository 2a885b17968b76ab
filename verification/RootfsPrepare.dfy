/**
 Preparing a shared rootfs from a pulled bundle (image-rs/src/shared_rootfs.rs,
 `prepare_shared_rootfs_cache_from_bundle`), one prepare after the other, over the cache directory.
 */
module RootfsPrepare {
  import opened Common
  import opened RootfsCache

  /** What the share driver returns. */
  datatype Share = Share(shareId: nat, sourceRd: nat, pageCount: nat)

  datatype Entry = Entry(
    imageRef: string, imageId: string, fsType: string, imageSize: nat, blockSize: nat, rootfsDigest: string,
    configJson: seq<byte>, share: Share, path: string)

  /** A finished rootfs image; `sha256` is empty when hashing is switched off. */
  datatype Built = Built(fsType: string, path: string, size: nat, sha256: string)

  /** Sizes of the regular files that rootfs image paths point to. */
  type Images = map<string, nat>

  /** `validate_shared_rootfs_cache_entry` */
  predicate ValidEntry(images: Images, e: Entry) {
    && e.imageRef != [] && e.imageId != []
    && e.share.shareId != 0 && e.share.sourceRd != 0 && e.imageSize != 0 && e.share.pageCount != 0
    && e.path in images && images[e.path] == e.imageSize
  }

  /** `read_shared_rootfs_cache_entry` */
  function ReadEntry(files: Files<Entry>, images: Images, key: string): Result<Option<Entry>> {
    match Stored(files, CACHE_SUFFIX, key)
    case None => Ok(None)
    case Some(c) => if c.Json? && ValidEntry(images, c.entry) then Ok(Some(c.entry)) else Err
  }

  const BLOCK_SIZE := 4096

  /** `shared_rootfs_digest` */
  function RootfsDigest(b: Built, imageId: string): string {
    if b.sha256 == [] then "image-id:" + imageId else "sha256:" + b.sha256
  }

  function NewEntry(imageRef: string, imageId: string, b: Built, share: Share, config: seq<byte>): Entry {
    Entry(imageRef, imageId, b.fsType, b.size, BLOCK_SIZE, RootfsDigest(b, imageId), config, share, b.path)
  }

  /** What the image builder, the share driver and the file system do during one prepare. */
  datatype Env = Env(
    marks: bool, builds: Option<Built>, shares: Option<Share>, config: seq<byte>,
    aliasFaults: (Fault, Fault), writeFaults: (Fault, Fault), clears: bool)

  datatype Disk = Disk(files: Files<Entry>, images: Images, shares: seq<Share>)

  /** `write_shared_rootfs_cache_entry` */
  function WriteEntry(d: Disk, e: Entry, faults: (Fault, Fault)): (Disk, bool) {
    if !ValidEntry(d.images, e) then (d, false)
    else
      var (files, ok) := WriteKeys(d.files, CACHE_SUFFIX, e.imageRef, e.imageId, e, faults);
      (d.(files := files), ok)
  }

  function MarkPending(d: Disk, imageRef: string): Disk {
    d.(files := Apply(d.files, CACHE_SUFFIX, Mark(imageRef)))
  }

  function ClearPending(d: Disk, imageRef: string, done: bool): Disk {
    if done then d.(files := Apply(d.files, CACHE_SUFFIX, Clear(imageRef))) else d
  }

  /** `prepare_shared_rootfs_cache_from_bundle_inner` */
  function PreparedInner(d: Disk, imageRef: string, imageId: string, env: Env): (Disk, Result<Entry>) {
    match env.builds
    case None => (d, Err)
    case Some(b) =>
      var d1 := d.(images := d.images[b.path := b.size]);
      match env.shares
      case None => (d1, Err)
      case Some(share) =>
        var e := NewEntry(imageRef, imageId, b, share, env.config);
        var (d2, ok) := WriteEntry(d1.(shares := d1.shares + [share]), e, env.writeFaults);
        (d2, if ok then Ok(e) else Err)
  }

  /** The new disk and the result of one prepare. */
  function Prepared(d: Disk, imageRef: string, imageId: string, env: Env): (Disk, Result<Entry>) {
    match ReadEntry(d.files, d.images, imageRef)
    case Err => (d, Err)
    case Ok(Some(e)) => (d, Ok(e))
    case Ok(None) =>
      match ReadEntry(d.files, d.images, imageId)
      case Err => (d, Err)
      case Ok(Some(e)) =>
        var alias := e.(imageRef := imageRef, imageId := imageId);
        var (d', ok) := WriteEntry(d, alias, env.aliasFaults);
        (d', if ok then Ok(alias) else Err)
      case Ok(None) =>
        if !env.marks then (d, Err)
        else
          var (d', r) := PreparedInner(MarkPending(d, imageRef), imageRef, imageId, env);
          (ClearPending(d', imageRef, env.clears), r)
  }

  // ---------------------------------------------------------------- what prepares answer

  /** An entry indexed under the reference is the answer exactly when it is complete and its image file has its size. */
  lemma {:induction false} IndexedReferenceAnswers(d: Disk, imageRef: string, imageId: string, env: Env, e: Entry)
    requires Stored(d.files, CACHE_SUFFIX, imageRef) == Some(Json(e))
    ensures
      var good :=
        && |e.imageRef| > 0 && |e.imageId| > 0 && e.share.shareId > 0 && e.share.sourceRd > 0
        && e.imageSize > 0 && e.share.pageCount > 0 && e.path in d.images && d.images[e.path] == e.imageSize;
      Prepared(d, imageRef, imageId, env) == (d, if good then Ok(e) else Err)
  {}

  /** A file under the reference that does not parse fails the prepare; it is not overwritten. */
  lemma {:induction false} UnparsableReferenceFails(d: Disk, imageRef: string, imageId: string, env: Env)
    requires Stored(d.files, CACHE_SUFFIX, imageRef).Some? && !Stored(d.files, CACHE_SUFFIX, imageRef).value.Json?
    ensures Prepared(d, imageRef, imageId, env) == (d, Err)
  {}

  /** An unknown reference takes over an entry indexed under the id, with its own names, or fails if that is stale. */
  lemma {:induction false} IndexedIdAnswers(d: Disk, imageRef: string, imageId: string, env: Env, e: Entry)
    requires !Indexed(d, imageRef) && Stored(d.files, CACHE_SUFFIX, imageId) == Some(Json(e)) && NoFaults(env)
    requires imageRef != [] && imageId != []
    ensures
      var alias :=
        Entry(imageRef, imageId, e.fsType, e.imageSize, e.blockSize, e.rootfsDigest, e.configJson, e.share, e.path);
      var (d', r) := Prepared(d, imageRef, imageId, env);
      if ValidEntry(d.images, e) then
        && r == Ok(alias) && d'.shares == d.shares
        && Stored(d'.files, CACHE_SUFFIX, imageRef) == Stored(d'.files, CACHE_SUFFIX, imageId) == Some(Json(alias))
      else r == Err && d' == d
  {
    var alias := e.(imageRef := imageRef, imageId := imageId);
    if ValidEntry(d.images, e) {
      WriteEntryStores(d, alias, imageRef);
      WriteEntryStores(d, alias, imageId);
    }
  }

  /** A new entry carries what the build and the driver gave, and the image's digest or, without hashing, its id. */
  lemma {:induction false} NewEntryCarries(d: Disk, imageRef: string, imageId: string, env: Env)
    requires imageRef != [] && imageId != [] && Succeeds(env) && !Indexed(d, imageRef) && !Indexed(d, imageId)
    ensures
      var b := env.builds.value;
      var (d', r) := Prepared(d, imageRef, imageId, env);
      && r.Ok? && r.value.imageRef == imageRef && r.value.imageId == imageId && r.value.configJson == env.config
      && r.value.fsType == b.fsType && r.value.path == b.path && r.value.imageSize == b.size
      && r.value.blockSize == 4096
      && (|b.sha256| > 0 ==> r.value.rootfsDigest == "sha256:" + b.sha256)
      && (|b.sha256| == 0 ==> r.value.rootfsDigest == "image-id:" + imageId)
  {
    FirstPrepare(d, imageRef, imageId, env, imageRef);
  }

  /** The marker is written for a build and stays exactly if its removal fails. */
  lemma {:induction false} MarkerAfterBuild(d: Disk, imageRef: string, imageId: string, env: Env)
    requires !Indexed(d, imageRef) && !Indexed(d, imageId) && env.marks
    ensures FileName(imageRef, PENDING_SUFFIX) in Prepared(d, imageRef, imageId, env).0.files <==> !env.clears
  {
    MarkerSurvivesInner(MarkPending(d, imageRef), imageRef, imageId, env);
    MarkersAreApart(d, imageRef, true, imageId);
  }

  lemma {:induction false} MarkerSurvivesInner(d: Disk, imageRef: string, imageId: string, env: Env)
    requires FileName(imageRef, PENDING_SUFFIX) in d.files
    ensures FileName(imageRef, PENDING_SUFFIX) in PreparedInner(d, imageRef, imageId, env).0.files
  {
    if env.builds.Some? && env.shares.Some? {
      TmpIsApart(imageRef, imageRef, CACHE_SUFFIX);
      TmpIsApart(imageId, imageRef, CACHE_SUFFIX);
    }
  }

  class Preparer {
    var files: Files<Entry>
    var images: Images
    var shares: seq<Share>

    ghost function View(): Disk reads this { Disk(files, images, shares) }

    constructor (d: Disk)
      ensures View() == d
    {
      files, images, shares := d.files, d.images, d.shares;
    }

    method WriteForKey(key: string, e: Entry, fault: Fault) returns (ok: bool)
      modifies this`files
      ensures (files, ok) == WriteKey(old(files), CACHE_SUFFIX, key, e, fault)
    {
      if fault.DirFails? { return false; }
      var tmp := TmpName(key, CACHE_SUFFIX);
      if fault.TmpFails? {
        if fault.touched { files := files[tmp := Garbage]; }
        return false;
      }
      files := files[tmp := Json(e)];
      if fault.RenameFails? { return false; }
      files := (files - {tmp})[FileName(key, CACHE_SUFFIX) := Json(e)];
      ok := true;
    }

    method Write(e: Entry, faults: (Fault, Fault)) returns (ok: bool)
      modifies this`files
      ensures (View(), ok) == WriteEntry(old(View()), e, faults)
    {
      if !ValidEntry(images, e) { return false; }
      ok := WriteForKey(e.imageRef, e, faults.0);
      if !ok { return; }
      if e.imageId != e.imageRef {
        ok := WriteForKey(e.imageId, e, faults.1);
      }
    }

    method PrepareInner(imageRef: string, imageId: string, env: Env) returns (r: Result<Entry>)
      modifies this
      ensures (View(), r) == PreparedInner(old(View()), imageRef, imageId, env)
    {
      if env.builds.None? { return Err; }
      var b := env.builds.value;
      images := images[b.path := b.size];
      if env.shares.None? { return Err; }
      shares := shares + [env.shares.value];
      var e := NewEntry(imageRef, imageId, b, env.shares.value, env.config);
      var ok := Write(e, env.writeFaults);
      r := if ok then Ok(e) else Err;
    }

    /** `prepare_shared_rootfs_cache_from_bundle` */
    method Prepare(imageRef: string, imageId: string, env: Env) returns (r: Result<Entry>)
      modifies this
      ensures (View(), r) == Prepared(old(View()), imageRef, imageId, env)
    {
      var byRef := ReadEntry(files, images, imageRef);
      if byRef.Err? { return Err; }
      if byRef.value.Some? { return Ok(byRef.value.value); }
      var byId := ReadEntry(files, images, imageId);
      if byId.Err? { return Err; }
      if byId.value.Some? {
        var alias := byId.value.value.(imageRef := imageRef, imageId := imageId);
        var ok := Write(alias, env.aliasFaults);
        return if ok then Ok(alias) else Err;
      }
      if !env.marks { return Err; }
      files := files[FileName(imageRef, PENDING_SUFFIX) := Marker];
      r := PrepareInner(imageRef, imageId, env);
      if env.clears {
        files := files - {FileName(imageRef, PENDING_SUFFIX)};
      }
    }
  }

  // ---------------------------------------------------------------- one share for one image

  /** The descriptor of the shared image. */
  datatype Descriptor = Descriptor(share: Share, path: string, imageSize: nat)

  function DescriptorOf(e: Entry): Descriptor { Descriptor(e.share, e.path, e.imageSize) }

  /** What is stored under the key is nothing, or a valid entry with the given descriptor. */
  predicate NothingBut(d: Disk, key: string, what: Descriptor) {
    match Stored(d.files, CACHE_SUFFIX, key)
    case None => true
    case Some(c) => c.Json? && DescriptorOf(c.entry) == what && ValidEntry(d.images, c.entry)
  }

  predicate Indexed(d: Disk, key: string) { Stored(d.files, CACHE_SUFFIX, key).Some? }

  lemma {:induction false} WriteEntryStores(d: Disk, e: Entry, key: string)
    requires ValidEntry(d.images, e)
    ensures var (d', ok) := WriteEntry(d, e, (NoFault, NoFault));
      && ok && d'.images == d.images && d'.shares == d.shares
      && Stored(d'.files, CACHE_SUFFIX, key) ==
         if Sanitize(key) == Sanitize(e.imageRef) || Sanitize(key) == Sanitize(e.imageId) then Some(Json(e))
         else Stored(d.files, CACHE_SUFFIX, key)
  {
    WriteKeyStores(d.files, CACHE_SUFFIX, e.imageRef, e, NoFault, key);
    WriteKeyStores(WriteKey(d.files, CACHE_SUFFIX, e.imageRef, e, NoFault).0, CACHE_SUFFIX, e.imageId, e, NoFault, key);
  }

  lemma {:induction false} MarkersAreApart(d: Disk, imageRef: string, done: bool, key: string)
    ensures Stored(MarkPending(d, imageRef).files, CACHE_SUFFIX, key) == Stored(d.files, CACHE_SUFFIX, key)
    ensures Stored(ClearPending(d, imageRef, done).files, CACHE_SUFFIX, key) == Stored(d.files, CACHE_SUFFIX, key)
  {
    TmpIsApart(key, imageRef, CACHE_SUFFIX);
  }

  predicate NoFaults(env: Env) { env.marks && env.aliasFaults == env.writeFaults == (NoFault, NoFault) }

  /** The image builds, the share is made, and their numbers are ones that an entry may carry. */
  predicate Succeeds(env: Env) {
    && NoFaults(env) && env.builds.Some? && env.shares.Some?
    && env.builds.value.size != 0 && env.shares.value.shareId != 0 && env.shares.value.sourceRd != 0
    && env.shares.value.pageCount != 0
  }

  /** The first prepare of an image makes the share and indexes it under both names. */
  lemma {:induction false} FirstPrepare(d: Disk, imageRef: string, imageId: string, env: Env, key: string)
    requires imageRef != [] && imageId != [] && Succeeds(env)
    requires !Indexed(d, imageRef) && !Indexed(d, imageId)
    ensures var (d', r) := Prepared(d, imageRef, imageId, env);
      && r.Ok? && d'.shares == d.shares + [env.shares.value] && r.value.share == env.shares.value
      && d'.images == d.images[r.value.path := r.value.imageSize] && ValidEntry(d'.images, r.value)
      && Stored(d'.files, CACHE_SUFFIX, key) ==
         if Sanitize(key) == Sanitize(imageRef) || Sanitize(key) == Sanitize(imageId) then Some(Json(r.value))
         else Stored(d.files, CACHE_SUFFIX, key)
  {
    var d0 := MarkPending(d, imageRef);
    var b := env.builds.value;
    var d1 := Disk(d0.files, d0.images[b.path := b.size], d0.shares + [env.shares.value]);
    var e := NewEntry(imageRef, imageId, b, env.shares.value, env.config);
    assert d0.(images := d0.images[b.path := b.size]).(shares := d0.shares + [env.shares.value]) == d1;
    MarkersAreApart(d, imageRef, true, key);
    WriteEntryStores(d1, e, key);
    MarkersAreApart(WriteEntry(d1, e, env.writeFaults).0, imageRef, env.clears, key);
  }

  /** Later prepares of the same image reuse it, under whatever reference. */
  lemma {:induction false} LaterPrepare(
      d: Disk, imageRef: string, imageId: string, env: Env, what: Descriptor, key: string)
    requires imageRef != [] && imageId != [] && NoFaults(env)
    requires Indexed(d, imageId) && NothingBut(d, imageId, what) && NothingBut(d, imageRef, what)
    requires NothingBut(d, key, what)
    ensures var (d', r) := Prepared(d, imageRef, imageId, env);
      && r.Ok? && DescriptorOf(r.value) == what && d'.shares == d.shares && d'.images == d.images
      && NothingBut(d', key, what) && (Indexed(d, key) ==> Indexed(d', key))
  {
    if !Indexed(d, imageRef) {
      var e := Stored(d.files, CACHE_SUFFIX, imageId).value.entry;
      var alias := e.(imageRef := imageRef, imageId := imageId);
      assert ValidEntry(d.images, alias);
      WriteEntryStores(d, alias, key);
    }
  }

  /** The disk and the results of prepares of one image id under one reference after the other. */
  function PreparedAll(d: Disk, refs: seq<string>, imageId: string, envs: seq<Env>): (Disk, seq<Result<Entry>>)
    requires |refs| == |envs|
  {
    if refs == [] then (d, [])
    else
      var n := |refs| - 1;
      var (d1, rs) := PreparedAll(d, refs[..n], imageId, envs[..n]);
      var (d2, r) := Prepared(d1, refs[n], imageId, envs[n]);
      (d2, rs + [r])
  }

  /** The image is indexed with this descriptor, and none of the references with another. */
  ghost predicate SharedAs(d: Disk, imageId: string, refs: seq<string>, what: Descriptor) {
    Indexed(d, imageId) && NothingBut(d, imageId, what) && forall k :: 0 <= k < |refs| ==> NothingBut(d, refs[k], what)
  }

  /** None of the names is in use yet. */
  predicate Unused(d: Disk, imageId: string, refs: seq<string>) {
    imageId != [] && !Indexed(d, imageId) && forall i :: 0 <= i < |refs| ==> refs[i] != [] && !Indexed(d, refs[i])
  }

  lemma {:induction false} FirstShares(d: Disk, imageId: string, refs: seq<string>, env: Env)
    requires 0 < |refs| && Unused(d, imageId, refs) && Succeeds(env)
    ensures var (d', r) := Prepared(d, refs[0], imageId, env);
      && r.Ok? && r.value.share == env.shares.value && d'.shares == d.shares + [env.shares.value]
      && SharedAs(d', imageId, refs, DescriptorOf(r.value))
  {
    FirstPrepare(d, refs[0], imageId, env, imageId);
    var (d', r) := Prepared(d, refs[0], imageId, env);
    forall k | 0 <= k < |refs| ensures NothingBut(d', refs[k], DescriptorOf(r.value)) {
      FirstPrepare(d, refs[0], imageId, env, refs[k]);
    }
  }

  lemma {:induction false} LaterShares(d: Disk, imageId: string, refs: seq<string>, n: nat, env: Env, what: Descriptor)
    requires n < |refs| && refs[n] != [] && imageId != [] && NoFaults(env) && SharedAs(d, imageId, refs, what)
    ensures var (d', r) := Prepared(d, refs[n], imageId, env);
      r.Ok? && DescriptorOf(r.value) == what && d'.shares == d.shares && SharedAs(d', imageId, refs, what)
  {
    LaterPrepare(d, refs[n], imageId, env, what, imageId);
    var (d', r) := Prepared(d, refs[n], imageId, env);
    forall k | 0 <= k < |refs| ensures NothingBut(d', refs[k], what) {
      LaterPrepare(d, refs[n], imageId, env, what, refs[k]);
    }
  }

  lemma {:induction false} SeriesShares(d: Disk, imageId: string, refs: seq<string>, envs: seq<Env>, n: nat)
    requires 0 < n <= |refs| == |envs| && Unused(d, imageId, refs)
    requires Succeeds(envs[0]) && forall i :: 0 <= i < |envs| ==> NoFaults(envs[i])
    ensures var (d', rs) := PreparedAll(d, refs[..n], imageId, envs[..n]);
      && d'.shares == d.shares + [envs[0].shares.value]
      && |rs| == n && rs[0].Ok? && rs[0].value.share == envs[0].shares.value
      && (forall i :: 0 <= i < |rs| ==> rs[i].Ok? && DescriptorOf(rs[i].value) == DescriptorOf(rs[0].value))
      && SharedAs(d', imageId, refs, DescriptorOf(rs[0].value))
  {
    assert refs[..n][..n - 1] == refs[..n - 1] && envs[..n][..n - 1] == envs[..n - 1];
    if n == 1 {
      FirstShares(d, imageId, refs, envs[0]);
    } else {
      SeriesShares(d, imageId, refs, envs, n - 1);
      var (d1, rs) := PreparedAll(d, refs[..n - 1], imageId, envs[..n - 1]);
      LaterShares(d1, imageId, refs, n - 1, envs[n - 1], DescriptorOf(rs[0].value));
    }
  }

  /** Prepares of one image under unused references make exactly one share, and all of them return its descriptor. */
  lemma {:induction false} OneShareForOneImage(d: Disk, imageId: string, refs: seq<string>, envs: seq<Env>)
    requires 0 < |refs| == |envs| && Unused(d, imageId, refs)
    requires Succeeds(envs[0]) && forall i :: 0 <= i < |envs| ==> NoFaults(envs[i])
    ensures var (d', rs) := PreparedAll(d, refs, imageId, envs);
      && d'.shares == d.shares + [envs[0].shares.value]
      && |rs| == |refs| && rs[0].Ok? && rs[0].value.share == envs[0].shares.value
      && forall i :: 0 <= i < |rs| ==> rs[i].Ok? && DescriptorOf(rs[i].value) == DescriptorOf(rs[0].value)
  {
    SeriesShares(d, imageId, refs, envs, |refs|);
    assert refs[..|refs|] == refs && envs[..|refs|] == envs;
  }

  // ---------------------------------------------------------------- names that collide

  /** Whether the second prepare finds what the first one indexed: by its reference, or by its id. */
  predicate Collides(ref1: string, id1: string, ref2: string, id2: string) {
    || Sanitize(ref2) == Sanitize(ref1) || Sanitize(ref2) == Sanitize(id1)
    || Sanitize(id2) == Sanitize(ref1) || Sanitize(id2) == Sanitize(id1)
  }

  /** A reference that sanitizes like an earlier one is answered with the earlier image, under that image's id. */
  lemma {:induction false} ReferencesAlikeMislead(
      d: Disk, ref1: string, id1: string, ref2: string, id2: string, env1: Env, env2: Env)
    requires ref1 != [] && id1 != [] && Succeeds(env1) && !Indexed(d, ref1) && !Indexed(d, id1)
    requires Sanitize(ref2) == Sanitize(ref1) || Sanitize(ref2) == Sanitize(id1)
    ensures var (d1, first) := Prepared(d, ref1, id1, env1);
      first.Ok? && first.value.imageId == id1 && Prepared(d1, ref2, id2, env2) == (d1, first)
  {
    FirstPrepare(d, ref1, id1, env1, ref2);
  }

  /** An id that sanitizes like an earlier reference or id is answered with the earlier image, under the new id. */
  lemma {:induction false} IdsAlikeMislead(
      d: Disk, ref1: string, id1: string, ref2: string, id2: string, env1: Env, env2: Env)
    requires ref1 != [] && id1 != [] && ref2 != [] && id2 != [] && Succeeds(env1) && NoFaults(env2)
    requires !Indexed(d, ref1) && !Indexed(d, id1) && !Indexed(d, ref2)
    requires Sanitize(ref2) != Sanitize(ref1) && Sanitize(ref2) != Sanitize(id1)
    requires Sanitize(id2) == Sanitize(ref1) || Sanitize(id2) == Sanitize(id1)
    ensures
      var (d1, first) := Prepared(d, ref1, id1, env1);
      var (d2, second) := Prepared(d1, ref2, id2, env2);
      && first.Ok? && first.value.imageId == id1 && d2.shares == d1.shares
      && second.Ok? && second.value.imageId == id2 && DescriptorOf(second.value) == DescriptorOf(first.value)
  {
    FirstPrepare(d, ref1, id1, env1, id2);
    FirstPrepare(d, ref1, id1, env1, ref2);
    var (d1, first) := Prepared(d, ref1, id1, env1);
    WriteEntryStores(d1, first.value.(imageRef := ref2, imageId := id2), ref2);
  }

  lemma {:induction false} SecondShares(
      d: Disk, ref1: string, id1: string, ref2: string, id2: string, env1: Env, env2: Env)
    requires ref1 != [] && id1 != [] && ref2 != [] && id2 != [] && Succeeds(env1) && Succeeds(env2)
    requires !Indexed(d, ref1) && !Indexed(d, id1) && !Indexed(d, ref2) && !Indexed(d, id2)
    requires !Collides(ref1, id1, ref2, id2)
    ensures
      var (d1, first) := Prepared(d, ref1, id1, env1);
      var (d2, second) := Prepared(d1, ref2, id2, env2);
      && first.Ok? && d1.shares == d.shares + [env1.shares.value] && d2.shares == d1.shares + [env2.shares.value]
      && second.Ok? && second.value.share == env2.shares.value
  {
    FirstPrepare(d, ref1, id1, env1, id2);
    FirstPrepare(d, ref1, id1, env1, ref2);
    FirstPrepare(Prepared(d, ref1, id1, env1).0, ref2, id2, env2, ref2);
  }

  /**
   Two prepares on a cache that knows none of their names get a share each exactly when no reference or id of the one
   sanitizes like a reference or id of the other.
   */
  lemma {:induction false} OwnSharesIff(
      d: Disk, ref1: string, id1: string, ref2: string, id2: string, env1: Env, env2: Env)
    requires ref1 != [] && id1 != [] && ref2 != [] && id2 != [] && Succeeds(env1) && Succeeds(env2)
    requires !Indexed(d, ref1) && !Indexed(d, id1) && !Indexed(d, ref2) && !Indexed(d, id2)
    ensures
      var (d1, first) := Prepared(d, ref1, id1, env1);
      var (d2, second) := Prepared(d1, ref2, id2, env2);
      && first.Ok? && second.Ok? && d1.shares == d.shares + [env1.shares.value]
      && (d2.shares == d1.shares + [env2.shares.value] <==> !Collides(ref1, id1, ref2, id2))
      && (Collides(ref1, id1, ref2, id2) ==> DescriptorOf(second.value) == DescriptorOf(first.value))
      && (!Collides(ref1, id1, ref2, id2) ==> second.value.share == env2.shares.value)
  {
    FirstPrepare(d, ref1, id1, env1, ref1);
    if Sanitize(ref2) == Sanitize(ref1) || Sanitize(ref2) == Sanitize(id1) {
      ReferencesAlikeMislead(d, ref1, id1, ref2, id2, env1, env2);
    } else if Collides(ref1, id1, ref2, id2) {
      IdsAlikeMislead(d, ref1, id1, ref2, id2, env1, env2);
    } else {
      SecondShares(d, ref1, id1, ref2, id2, env1, env2);
    }
  }

  /** Such names exist: references of different repositories, and a reference named like the digest that is an id. */
  lemma {:induction false} NamesCanCollide(digest: string)
    ensures "a/x" != "a_x" && Sanitize("a/x") == Sanitize("a_x")
    ensures "sha256_" + digest != "sha256:" + digest && Sanitize("sha256_" + digest) == Sanitize("sha256:" + digest)
  {
    assert SafeChars("a/x") == "a_x" == SafeChars("a_x");
    var r, i := "sha256_" + digest, "sha256:" + digest;
    assert r[6] == '_' && i[6] == ':';
    assert forall k :: 0 <= k < |r| && k != 6 ==> r[k] == i[k];
    assert SafeChars(r) == SafeChars(i);
  }
}
