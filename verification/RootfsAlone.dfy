/**
 A prepare request that nothing disturbs (confidential-data-hub/hub/src/bin/vsock-ttrpc-server.rs,
 image-rs/src/shared_rootfs.rs): its steps come to what the sequential prepare gives, a valid cached entry is returned,
 and a waiter waits as long as it should.
 */
module RootfsAlone {
  import opened Common
  import opened RootfsCache
  import opened RootfsPrepare
  import opened SharedRootfs

  // ---------------------------------------------------------------- looking up and waiting

  /** One step of a request that runs alone. */
  function Next(f: Shared, ref: string, pc: Pc, ch: Choice): (Shared, Pc) {
    var (pc', effect) := StepOf(f, ref, pc, ch);
    (Affected(f, ref, effect), pc')
  }

  function Twice(f: Shared, ref: string, pc: Pc, ch: Choice): (Shared, Pc) {
    var (g, pc') := Next(f, ref, pc, ch);
    Next(g, ref, pc', ch)
  }

  /** The cache file of the key holds an entry that is complete and whose image file has its size. */
  predicate Answers(f: Shared, key: string, e: Entry) {
    && Sanitize(key) in f.cache && f.cache[Sanitize(key)] == Json(e)
    && |e.imageRef| > 0 && |e.imageId| > 0 && e.share.shareId > 0 && e.share.sourceRd > 0
    && e.imageSize > 0 && e.share.pageCount > 0 && e.path in f.images && f.images[e.path] == e.imageSize
  }

  /** A request whose reference is cached is answered from the cache, and so is a waiter that wakes up. */
  lemma {:induction false} CachedEntryIsReturned(f: Shared, ref: string, ch: Choice, e: Entry, w: Wait)
    requires Answers(f, ref, e) && ch.ok
    ensures Twice(f, ref, ReadRef, ch).1 == Twice(f, ref, PollRead(w), ch).1 == Finished(Ok(e))
  {}

  /** Without an entry, a request waits exactly while another one has the reference marked. */
  lemma {:induction false} RequestWaitsIff(f: Shared, ref: string, ch: Choice)
    requires Sanitize(ref) !in f.cache && ch.ok
    ensures Twice(f, ref, ReadRef, ch) ==
      (f, if Sanitize(ref) in f.markers then Sleeping(Wait(1, f.clock, f.clock + 200)) else LookupBundle)
  {}

  /** A waiter sleeps again, or goes on by itself once the marker is gone or 180 seconds have passed. */
  lemma {:induction false} WaiterDecides(f: Shared, ref: string, ch: Choice, w: Wait)
    requires Sanitize(ref) !in f.cache && ch.ok
    ensures Twice(f, ref, PollRead(w), ch) == (f, if Sanitize(ref) in f.markers then PollTimeout(w) else LookupBundle)
    ensures Next(f, ref, PollTimeout(w), ch) ==
      (f, if f.clock - w.start >= 180_000 then LookupBundle else Sleeping(Wait(w.sleeps + 1, w.start, f.clock + 200)))
    ensures Next(f, ref, Sleeping(w), ch) == (f, if f.clock >= w.until then PollRead(w) else Sleeping(w))
  {}

  /**
   What is unknown is pulled under a marker and then prepared under the id that the pull gave; a failed pull unmarks.
   */
  lemma {:induction false} UnknownIsPulled(
      f: Shared, ref: string, miss: Choice, pulled: Choice, failed: Choice, id: string)
    requires miss.ok && miss.imageId == None && pulled.ok && pulled.imageId == Some(id) && failed.ok
    requires failed.imageId == None
    ensures
      var k := Sanitize(ref);
      var marked := f.(markers := f.markers + {k});
      && Twice(f, ref, LookupBundle, miss) == (f, OuterMark) && Next(f, ref, OuterMark, miss) == (marked, Pulling(true))
      && Twice(marked, ref, Pulling(true), pulled) ==
         (marked.(entered := f.entered + {(ref, id)}), PrepRead(Ctx(true, id)))
      && Twice(marked, ref, Pulling(true), failed) == (marked.(markers := marked.markers - {k}), Finished(Err))
  {}

  /** An image that was pulled before is prepared at once, without a marker of the pull. */
  lemma {:induction false} BundleIsUsed(f: Shared, ref: string, found: Choice, id: string)
    requires found.imageId == Some(id)
    ensures Next(f, ref, LookupBundle, found) == (f.(entered := f.entered + {(ref, id)}), PrepRead(Ctx(false, id)))
  {}

  // ---------------------------------------------------------------- preparing

  predicate Preparing(pc: Pc) { InPrepare(pc) || pc.Writing? || pc.Finished? }

  /** Steps that are at most left. */
  function Rank(pc: Pc): nat requires Preparing(pc) {
    match pc
    case PrepRead(_) => 12
    case PrepValidate(_, _) => 11
    case PrepReadId(_) => 11
    case PrepValidateId(_, _) => 10
    case InnerMark(_) => 10
    case Building(_) => 9
    case Sharing(_, _) => 8
    case Writing(_, _, _, stage) => if stage == Check then 7 else if stage == First then 6 else 5
    case InnerClear(_, _) => 2
    case OuterClear(_, _) => 1
    case Finished(_) => 0
  }

  lemma {:induction false} RankFallsPreparing(f: Shared, ref: string, pc: Pc, ch: Choice)
    requires InPrepare(pc)
    ensures var pc' := StepPrepare(f, ref, pc, ch).0; Preparing(pc') && Rank(pc') < Rank(pc)
  {}

  lemma {:induction false} RankFallsWriting(f: Shared, pc: Pc, ch: Choice)
    requires pc.Writing?
    ensures var pc' := StepWrite(f, pc, ch).0; Preparing(pc') && Rank(pc') < Rank(pc)
  {}

  lemma {:induction false} RankFalls(f: Shared, ref: string, pc: Pc, ch: Choice)
    requires Preparing(pc) && !pc.Finished?
    ensures Preparing(StepOf(f, ref, pc, ch).0) && Rank(StepOf(f, ref, pc, ch).0) < Rank(pc)
  {
    if pc.Writing? {
      RankFallsWriting(f, pc, ch);
    } else {
      RankFallsPreparing(f, ref, pc, ch);
    }
  }

  /** The files and the result when a prepare runs to its end alone. */
  function RunOut(f: Shared, ref: string, pc: Pc, ch: Choice): (Shared, Result<Entry>)
    requires Preparing(pc)
    decreases Rank(pc)
  {
    if pc.Finished? then (f, pc.result)
    else
      RankFalls(f, ref, pc, ch);
      var (g, pc') := Next(f, ref, pc, ch);
      RunOut(g, ref, pc', ch)
  }

  lemma {:induction false} RunOutStep(f: Shared, ref: string, pc: Pc, ch: Choice)
    requires Preparing(pc) && !pc.Finished?
    ensures Preparing(Next(f, ref, pc, ch).1)
    ensures RunOut(f, ref, pc, ch) == RunOut(Next(f, ref, pc, ch).0, ref, Next(f, ref, pc, ch).1, ch)
  {
    RankFalls(f, ref, pc, ch);
  }

  lemma {:induction false} OuterEnd(f: Shared, ref: string, c: Ctx, result: Result<Entry>, ch: Choice)
    requires ch.ok
    ensures var (g, r) := RunOut(f, ref, OuterClear(c, result), ch);
      r == result && g.cache == f.cache && g.images == f.images
  {
    RunOutStep(f, ref, OuterClear(c, result), ch);
  }

  lemma {:induction false} WriteEnd(f: Shared, ref: string, c: Ctx, inner: bool, result: Result<Entry>, ch: Choice)
    requires ch.ok
    ensures var (g, r) := RunOut(f, ref, AfterWrite(c, inner, result), ch);
      r == result && g.cache == f.cache && g.images == f.images
  {
    if inner {
      var (g, pc') := Next(f, ref, InnerClear(c, result), ch);
      OuterEnd(g, ref, c, result, ch);
    } else {
      OuterEnd(f, ref, c, result, ch);
    }
  }

  function CacheWith(cache: map<string, Content<Entry>>, e: Entry): map<string, Content<Entry>> {
    cache[Sanitize(e.imageRef) := Json(e)][Sanitize(e.imageId) := Json(e)]
  }

  lemma {:induction false} WriteSecond(f: Shared, ref: string, c: Ctx, e: Entry, inner: bool, ch: Choice)
    requires ch.ok
    ensures var (g, r) := RunOut(f, ref, Writing(c, e, inner, Second), ch);
      r == Ok(e) && g.images == f.images && g.cache == f.cache[Sanitize(e.imageId) := Json(e)]
  {
    RunOutStep(f, ref, Writing(c, e, inner, Second), ch);
    WriteEnd(Affected(f, ref, Replace(e.imageId, e)), ref, c, inner, Ok(e), ch);
  }

  lemma {:induction false} WriteFirst(f: Shared, ref: string, c: Ctx, e: Entry, inner: bool, ch: Choice)
    requires ch.ok
    ensures var (g, r) := RunOut(f, ref, Writing(c, e, inner, First), ch);
      r == Ok(e) && g.images == f.images && g.cache == CacheWith(f.cache, e)
  {
    var g1 := Affected(f, ref, Replace(e.imageRef, e));
    RunOutStep(f, ref, Writing(c, e, inner, First), ch);
    if e.imageId == e.imageRef {
      WriteEnd(g1, ref, c, inner, Ok(e), ch);
      assert CacheWith(f.cache, e) == g1.cache;
    } else {
      WriteSecond(g1, ref, c, e, inner, ch);
    }
  }

  /** A write alone: both keys, if the entry is valid. */
  lemma {:induction false} WriteAlone(f: Shared, ref: string, c: Ctx, e: Entry, inner: bool, ch: Choice)
    requires ch.ok
    ensures var (g, r) := RunOut(f, ref, Writing(c, e, inner, Check), ch);
      && r == (if ValidEntry(f.images, e) then Ok(e) else Err) && g.images == f.images
      && g.cache == if ValidEntry(f.images, e) then CacheWith(f.cache, e) else f.cache
  {
    RunOutStep(f, ref, Writing(c, e, inner, Check), ch);
    if ValidEntry(f.images, e) {
      WriteFirst(Affected(f, ref, Validated(e)), ref, c, e, inner, ch);
    } else {
      WriteEnd(f, ref, c, inner, Err, ch);
    }
  }

  /** What the surroundings do when all works, as the sequential form has it. */
  function EnvOf(ch: Choice): Env {
    Env(true, ch.built, ch.share, ch.config, (NoFault, NoFault), (NoFault, NoFault), true)
  }

  /** The disk and the keyed files are the same. */
  ghost predicate SameFiles(d: Disk, f: Shared) {
    Represents(d.files, CACHE_SUFFIX, f.cache) && d.images == f.images
  }

  /** What a stretch of steps and its sequential form come to. */
  ghost predicate SameEnd(end: (Shared, Result<Entry>), end': (Disk, Result<Entry>)) {
    end.1 == end'.1 && SameFiles(end'.0, end.0)
  }

  lemma {:induction false} SameWrite(d: Disk, cache: map<string, Content<Entry>>, e: Entry)
    requires Represents(d.files, CACHE_SUFFIX, cache) && ValidEntry(d.images, e)
    ensures var (d', ok) := WriteEntry(d, e, (NoFault, NoFault));
      ok && d'.images == d.images && Represents(d'.files, CACHE_SUFFIX, CacheWith(cache, e))
  {
    var d' := WriteEntry(d, e, (NoFault, NoFault)).0;
    WriteEntryStores(d, e, e.imageRef);
    forall key: string ensures Stored(d'.files, CACHE_SUFFIX, key) == Get(CacheWith(cache, e), Sanitize(key)) {
      WriteEntryStores(d, e, key);
      assert Stored(d.files, CACHE_SUFFIX, key) == Get(cache, Sanitize(key));
    }
  }

  lemma {:induction false} SameRead(d: Disk, f: Shared, key: string)
    requires SameFiles(d, f)
    ensures ReadEntry(d.files, d.images, key) ==
      match ReadFile(f, key, true)
      case Err => Err
      case Ok(None) => Ok(None)
      case Ok(Some(e)) => if ValidEntry(f.images, e) then Ok(Some(e)) else Err
  {
    assert Stored(d.files, CACHE_SUFFIX, key) == Get(f.cache, Sanitize(key));
  }

  /** The reference is known: its entry, or a failure. */
  lemma {:induction false} AloneByReference(d: Disk, f: Shared, ref: string, c: Ctx, ch: Choice)
    requires SameFiles(d, f) && ch.ok && ReadFile(f, ref, true) != Ok(None)
    ensures SameEnd(RunOut(f, ref, PrepRead(c), ch), Prepared(d, ref, c.imageId, EnvOf(ch)))
  {
    SameRead(d, f, ref);
    RunOutStep(f, ref, PrepRead(c), ch);
    match ReadFile(f, ref, true)
    case Err => OuterEnd(f, ref, c, Err, ch);
    case Ok(found) =>
      RunOutStep(f, ref, PrepValidate(c, found.value), ch);
      if ValidEntry(f.images, found.value) {
        OuterEnd(Affected(f, ref, Validated(found.value)), ref, c, Ok(found.value), ch);
      } else {
        OuterEnd(f, ref, c, Err, ch);
      }
  }

  /** The reference is not known, but the id is: its entry under the new names, or a failure. */
  lemma {:induction false} AloneById(d: Disk, f: Shared, ref: string, c: Ctx, ch: Choice)
    requires SameFiles(d, f) && ch.ok && ReadFile(f, ref, true) == Ok(None) && ReadFile(f, c.imageId, true) != Ok(None)
    ensures SameEnd(RunOut(f, ref, PrepReadId(c), ch), Prepared(d, ref, c.imageId, EnvOf(ch)))
  {
    SameRead(d, f, ref);
    SameRead(d, f, c.imageId);
    RunOutStep(f, ref, PrepReadId(c), ch);
    match ReadFile(f, c.imageId, true)
    case Err => OuterEnd(f, ref, c, Err, ch);
    case Ok(found) =>
      var e := found.value;
      RunOutStep(f, ref, PrepValidateId(c, e), ch);
      if ValidEntry(f.images, e) {
        var alias := e.(imageRef := ref, imageId := c.imageId);
        WriteAlone(Affected(f, ref, Validated(e)), ref, c, alias, false, ch);
        if ValidEntry(f.images, alias) {
          SameWrite(d, f.cache, alias);
        }
      } else {
        OuterEnd(f, ref, c, Err, ch);
      }
  }

  lemma {:induction false} MarkersKeepFiles(d: Disk, f: Shared, ref: string)
    requires SameFiles(d, f)
    ensures SameFiles(MarkPending(d, ref), f) && SameFiles(ClearPending(d, ref, true), f)
  {
    forall key: string
      ensures Stored(MarkPending(d, ref).files, CACHE_SUFFIX, key) == Get(f.cache, Sanitize(key))
      ensures Stored(ClearPending(d, ref, true).files, CACHE_SUFFIX, key) == Get(f.cache, Sanitize(key))
    {
      MarkersAreApart(d, ref, true, key);
      assert Stored(d.files, CACHE_SUFFIX, key) == Get(f.cache, Sanitize(key));
    }
  }

  lemma {:induction false} FromBuilding(f: Shared, ref: string, c: Ctx, ch: Choice)
    ensures RunOut(f, ref, Building(c), ch) ==
      if ch.built.None? then RunOut(f, ref, InnerClear(c, Err), ch)
      else RunOut(Affected(f, ref, PutImage(ch.built.value)), ref, Sharing(c, ch.built.value), ch)
  {
    RunOutStep(f, ref, Building(c), ch);
  }

  lemma {:induction false} FromSharing(f: Shared, ref: string, c: Ctx, b: Built, ch: Choice)
    ensures RunOut(f, ref, Sharing(c, b), ch) ==
      if ch.share.None? then RunOut(f, ref, InnerClear(c, Err), ch)
      else
        var e := NewEntry(ref, c.imageId, b, ch.share.value, ch.config);
        RunOut(Affected(f, ref, PutShare(ch.share.value, c.imageId)), ref, Writing(c, e, true, Check), ch)
  {
    RunOutStep(f, ref, Sharing(c, b), ch);
  }

  /** Sharing and writing. */
  lemma {:induction false} AloneShares(d: Disk, f: Shared, ref: string, c: Ctx, b: Built, share: Share, ch: Choice)
    requires SameFiles(d, f) && ch.ok && ch.share == Some(share)
    ensures var (g, r) := RunOut(f, ref, Sharing(c, b), ch);
      var e := NewEntry(ref, c.imageId, b, share, ch.config);
      var (d', ok) := WriteEntry(d, e, (NoFault, NoFault));
      r == (if ok then Ok(e) else Err) && SameFiles(d', g)
  {
    var e := NewEntry(ref, c.imageId, b, share, ch.config);
    FromSharing(f, ref, c, b, ch);
    WriteAlone(Affected(f, ref, PutShare(share, c.imageId)), ref, c, e, true, ch);
    if ValidEntry(d.images, e) {
      SameWrite(d, f.cache, e);
    }
  }

  lemma {:induction false} InnerWrites(d: Disk, ref: string, imageId: string, b: Built, share: Share, ch: Choice)
    requires ch.built == Some(b) && ch.share == Some(share)
    ensures
      var dd := Disk(d.files, d.images[b.path := b.size], d.shares + [share]);
      var e := NewEntry(ref, imageId, b, share, ch.config);
      var (d', ok) := WriteEntry(dd, e, (NoFault, NoFault));
      PreparedInner(d, ref, imageId, EnvOf(ch)) == (d', if ok then Ok(e) else Err)
  {}

  lemma {:induction false} AloneBuildFails(d: Disk, f: Shared, ref: string, c: Ctx, ch: Choice)
    requires SameFiles(d, f) && ch.ok && ch.built.None?
    ensures SameEnd(RunOut(f, ref, Building(c), ch), PreparedInner(d, ref, c.imageId, EnvOf(ch)))
  {
    FromBuilding(f, ref, c, ch);
    WriteEnd(f, ref, c, true, Err, ch);
  }

  lemma {:induction false} AloneShareFails(d: Disk, f: Shared, ref: string, c: Ctx, b: Built, ch: Choice)
    requires SameFiles(d, f) && ch.ok && ch.built == Some(b) && ch.share.None?
    ensures SameEnd(RunOut(f, ref, Building(c), ch), PreparedInner(d, ref, c.imageId, EnvOf(ch)))
  {
    var f1 := Affected(f, ref, PutImage(b));
    FromBuilding(f, ref, c, ch);
    FromSharing(f1, ref, c, b, ch);
    WriteEnd(f1, ref, c, true, Err, ch);
  }

  /** Building, sharing and writing, up to the marker's removal. */
  lemma {:induction false} AloneBuilds(d: Disk, f: Shared, ref: string, c: Ctx, ch: Choice)
    requires SameFiles(d, f) && ch.ok
    ensures SameEnd(RunOut(f, ref, Building(c), ch), PreparedInner(d, ref, c.imageId, EnvOf(ch)))
  {
    if ch.built.None? {
      AloneBuildFails(d, f, ref, c, ch);
    } else if ch.share.None? {
      AloneShareFails(d, f, ref, c, ch.built.value, ch);
    } else {
      var b, share := ch.built.value, ch.share.value;
      FromBuilding(f, ref, c, ch);
      InnerWrites(d, ref, c.imageId, b, share, ch);
      var f1 := Affected(f, ref, PutImage(b));
      AloneShares(Disk(d.files, d.images[b.path := b.size], d.shares + [share]), f1, ref, c, b, share, ch);
    }
  }

  lemma {:induction false} PreparedWhenNew(d: Disk, ref: string, imageId: string, env: Env)
    requires env.marks && env.clears
    requires ReadEntry(d.files, d.images, ref) == ReadEntry(d.files, d.images, imageId) == Ok(None)
    ensures var (d', r) := PreparedInner(MarkPending(d, ref), ref, imageId, env);
      Prepared(d, ref, imageId, env) == (ClearPending(d', ref, true), r)
  {}

  lemma {:induction false} AloneNew(d: Disk, f: Shared, ref: string, c: Ctx, ch: Choice)
    requires SameFiles(d, f) && ch.ok && ReadFile(f, ref, true) == ReadFile(f, c.imageId, true) == Ok(None)
    ensures SameEnd(RunOut(f, ref, PrepReadId(c), ch), Prepared(d, ref, c.imageId, EnvOf(ch)))
  {
    SameRead(d, f, ref);
    SameRead(d, f, c.imageId);
    PreparedWhenNew(d, ref, c.imageId, EnvOf(ch));
    var f1 := Affected(f, ref, SetMarker(true, ch.touched));
    assert RunOut(f, ref, PrepReadId(c), ch) == RunOut(f1, ref, Building(c), ch) by {
      RunOutStep(f, ref, PrepReadId(c), ch);
      RunOutStep(f, ref, InnerMark(c), ch);
    }
    MarkersKeepFiles(d, f, ref);
    AloneBuilds(MarkPending(d, ref), f1, ref, c, ch);
    var g := RunOut(f1, ref, Building(c), ch).0;
    MarkersKeepFiles(PreparedInner(MarkPending(d, ref), ref, c.imageId, EnvOf(ch)).0, g, ref);
  }

  /** A prepare that runs alone, with everything working, does what the sequential prepare does. */
  lemma {:induction false} AlonePrepares(d: Disk, f: Shared, ref: string, c: Ctx, ch: Choice)
    requires SameFiles(d, f) && ch.ok
    ensures SameEnd(RunOut(f, ref, PrepRead(c), ch), Prepared(d, ref, c.imageId, EnvOf(ch)))
  {
    if ReadFile(f, ref, true) != Ok(None) {
      AloneByReference(d, f, ref, c, ch);
    } else {
      RunOutStep(f, ref, PrepRead(c), ch);
      if ReadFile(f, c.imageId, true) != Ok(None) {
        AloneById(d, f, ref, c, ch);
      } else {
        AloneNew(d, f, ref, c, ch);
      }
    }
  }
}
