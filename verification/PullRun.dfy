/**
 Every interleaving of layer pulls, of the updates of the layer and image databases, and of restarts
 (image-rs/src/image.rs, image-rs/src/pull.rs, image-rs/src/layer_store.rs).

 A task pulls one layer of one image. A restart scans the data directory for the next number; if the scan fails, the
 client falls back to a store without a data directory that counts from 0, whose names are relative to the working
 directory: another store, or the same if the process runs there. `hit`, `garbage` and `bundled` record history only:
 layers taken from the database, the directories whose clean-up failed or that a restart or a cancellation
 interrupted, and the bundles that were created.
 */
module PullRun {
  import opened Common
  import opened ImageLayers
  import opened LayerPull
  import opened LayerStore

  datatype TaskId = TaskId(pull: nat, index: nat)
  datatype Task =
    | Waiting(desc: Descriptor, diffId: string)
    | Working(desc: Descriptor, diffId: string, path: Place, created: bool)
    | Done(desc: Descriptor, diffId: string, meta: LayerMeta, hit: bool)
  datatype Stage = Pulling | Merged | Bundled
  datatype Pull = Pull(imageId: string, descs: seq<Descriptor>, diffIds: seq<string>, stage: Stage)
  datatype Pulled = Pulled(meta: LayerMeta, hit: bool)
  datatype Image = Image(pull: nat, descs: seq<Descriptor>, diffIds: seq<string>, layers: seq<Pulled>)

  /** A bundle that was created: for which image, and mounted from which layers. */
  datatype Bundle = Bundle(imageId: string, layers: seq<Pulled>)
  datatype Meta = Meta(layers: map<string, LayerMeta>, images: map<string, Image>)

  datatype State = State(
    store: nat, next: nat, dirs: Dirs, db: Meta, saved: Meta, tasks: map<TaskId, Task>, pulls: map<nat, Pull>,
    bundled: map<nat, Bundle>, garbage: set<Place>)

  /** Where a client's first number comes from. */
  datatype Origin = Scanned(listing: seq<DirEntry>) | Fallback

  datatype Action =
    | Begin(pull: nat, imageId: string, descs: seq<Descriptor>, diffIds: seq<string>)
    | Hit(id: TaskId)
    | Allocate(id: TaskId)
    | Create(id: TaskId)
    | Unpacked(id: TaskId, digest: string, bytes: nat, encrypted: bool)
    | Abandon(id: TaskId, removed: bool)
    | Merge(pull: nat)
    | CreateBundle(pull: nat)
    | Record(pull: nat)
    | Save(written: bool)
    | Drop(pull: nat)
    | Restart(store: nat, origin: Origin, next: nat)

  predicate AllDone(s: State, p: nat) requires p in s.pulls {
    forall i :: 0 <= i < |s.pulls[p].descs| ==> TaskId(p, i) in s.tasks && s.tasks[TaskId(p, i)].Done?
  }

  function Results(s: State, p: nat): (r: seq<Pulled>)
    requires p in s.pulls && AllDone(s, p)
  {
    seq(|s.pulls[p].descs|,
      i requires 0 <= i < |s.pulls[p].descs| => Pulled(s.tasks[TaskId(p, i)].meta, s.tasks[TaskId(p, i)].hit))
  }

  /** Collecting into a map by compressed digest and extending the database with it. */
  function Extended(db: map<string, LayerMeta>, layers: seq<Pulled>): map<string, LayerMeta> {
    if layers == [] then db
    else
      var m := layers[|layers| - 1].meta;
      Extended(db, layers[..|layers| - 1])[m.compressedDigest := m]
  }

  /** The listing of a store's data directory has all its numbered directories. */
  ghost predicate Lists(listing: seq<DirEntry>, store: nat, dirs: Dirs) {
    forall n :: Place(store, n) in dirs ==> DirEntry(Decimal(n), true, true) in listing
  }

  /** Numbers stay below the overflow of the counter. */
  ghost predicate Enabled(s: State, a: Action) {
    match a
    case Begin(p, _, descs, diffIds) =>
      p !in s.pulls && p !in s.bundled && |descs| == |diffIds| && forall t :: t in s.tasks ==> t.pull != p
    case Hit(t) => t in s.tasks && s.tasks[t].Waiting? && s.tasks[t].desc.digest in s.db.layers
    case Allocate(t) => t in s.tasks && s.tasks[t].Waiting? && s.next < USIZE - 1
    case Create(t) => t in s.tasks && s.tasks[t].Working? && !s.tasks[t].created
    case Unpacked(t, _, _, _) => t in s.tasks && s.tasks[t].Working? && s.tasks[t].created
    case Abandon(t, _) => t in s.tasks && s.tasks[t].Working?
    case Merge(p) => p in s.pulls && s.pulls[p].stage == Pulling && AllDone(s, p)
    case CreateBundle(p) => p in s.pulls && s.pulls[p].stage == Merged && AllDone(s, p)
    case Record(p) => p in s.pulls && s.pulls[p].stage == Bundled && AllDone(s, p)
    case Save(_) => true
    case Drop(p) => p in s.pulls
    case Restart(store, Scanned(listing), next) => Lists(listing, store, s.dirs) && BelowOverflow(listing)
      && IsNextIndex(listing, next)
    case Restart(_, Fallback, next) => next == 0
  }

  function WorkingPaths(tasks: map<TaskId, Task>): set<Place> {
    set t | t in tasks && tasks[t].Working? :: tasks[t].path
  }

  function Of(tasks: map<TaskId, Task>, p: nat): map<TaskId, Task> { map t | t in tasks && t.pull == p :: tasks[t] }

  function Without(tasks: map<TaskId, Task>, p: nat): map<TaskId, Task> {
    map t | t in tasks && t.pull != p :: tasks[t]
  }

  function NewTasks(p: nat, descs: seq<Descriptor>, diffIds: seq<string>): map<TaskId, Task>
    requires |descs| == |diffIds|
  {
    map i | 0 <= i < |descs| :: TaskId(p, i) := Waiting(descs[i], diffIds[i])
  }

  /** The state after an action. A pull that fails is dropped, and its tasks are cancelled where they are. */
  ghost function After(s: State, a: Action): State requires Enabled(s, a) {
    match a
    case Begin(p, id, descs, diffIds) =>
      s.(tasks := s.tasks + NewTasks(p, descs, diffIds), pulls := s.pulls[p := Pull(id, descs, diffIds, Pulling)])
    case Hit(t) =>
      s.(tasks := s.tasks[t := Done(s.tasks[t].desc, s.tasks[t].diffId, s.db.layers[s.tasks[t].desc.digest], true)])
    case Allocate(t) =>
      var place := Place(s.store, s.next);
      s.(next := s.next + 1, tasks := s.tasks[t := Working(s.tasks[t].desc, s.tasks[t].diffId, place, false)])
    case Create(t) =>
      var w := s.tasks[t];
      s.(dirs := (s.dirs - {w.path})[w.path := None], tasks := s.tasks[t := Working(w.desc, w.diffId, w.path, true)])
    case Unpacked(t, digest, bytes, encrypted) =>
      var w := s.tasks[t];
      var layer := Layer(w.desc, w.diffId, digest, bytes, encrypted);
      s.(dirs := s.dirs[w.path := Some(layer)],
         tasks := if Accepted(layer) then s.tasks[t := Done(w.desc, w.diffId, MetaOf(layer, w.path), false)]
           else s.tasks)
    case Abandon(t, removed) =>
      var w := s.tasks[t];
      s.(dirs := if removed then s.dirs - {w.path} else s.dirs,
         tasks := s.tasks[t := Waiting(w.desc, w.diffId)],
         garbage := if removed then s.garbage else s.garbage + {w.path})
    case Merge(p) =>
      s.(db := Meta(Extended(s.db.layers, Results(s, p)), s.db.images),
         pulls := s.pulls[p := s.pulls[p].(stage := Merged)])
    case CreateBundle(p) =>
      s.(pulls := s.pulls[p := s.pulls[p].(stage := Bundled)], 
         bundled := s.bundled[p := Bundle(s.pulls[p].imageId, Results(s, p))])
    case Record(p) =>
      var image := Image(p, s.pulls[p].descs, s.pulls[p].diffIds, Results(s, p));
      s.(db := Meta(s.db.layers, s.db.images[s.pulls[p].imageId := image]), pulls := s.pulls - {p})
    case Save(written) => s.(saved := if written then s.db else Meta(map[], map[]))
    case Drop(p) =>
      s.(pulls := s.pulls - {p}, tasks := Without(s.tasks, p), garbage := s.garbage + WorkingPaths(Of(s.tasks, p)))
    case Restart(store, _, next) =>
      s.(store := store, next := next, db := s.saved, tasks := map[], pulls := map[],
         garbage := s.garbage + WorkingPaths(s.tasks))
  }

  // ---------------------------------------------------------------- the invariant

  /** No future number of the store is this directory. */
  predicate Below(p: Place, store: nat, next: nat) { p.store == store ==> p.number < next }

  /** No task works on the directory, and none will be given it. */
  ghost predicate Released(s: State, n: Place) {
    Below(n, s.store, s.next) && forall t :: t in s.tasks && s.tasks[t].Working? ==> s.tasks[t].path != n
  }

  /** The directory is complete and was checked, and no task will touch it. */
  ghost predicate Sound(s: State, m: LayerMeta) { Backed(s.dirs, m) && Released(s, m.path) }

  ghost predicate LayersSound(s: State, db: map<string, LayerMeta>) {
    forall k :: k in db ==> db[k].compressedDigest == k && Sound(s, db[k])
  }

  /** The result of one task: of the descriptor's digest, and with the task's own diff id unless it was a hit. */
  ghost predicate PulledSound(s: State, desc: Descriptor, diffId: string, x: Pulled) {
    x.meta.compressedDigest == desc.digest && Sound(s, x.meta) && (!x.hit ==> x.meta.uncompressedDigest == diffId)
  }

  /** The pull of the image created a bundle from its layers, and they are sound. */
  ghost predicate ImageSound(s: State, id: string, image: Image) {
    && image.pull in s.bundled && s.bundled[image.pull] == Bundle(id, image.layers)
    && |image.layers| == |image.descs| == |image.diffIds|
    && forall i :: 0 <= i < |image.layers| ==> PulledSound(s, image.descs[i], image.diffIds[i], image.layers[i])
  }

  ghost predicate ImagesSound(s: State, db: map<string, Image>) {
    forall k :: k in db ==> ImageSound(s, k, db[k])
  }

  ghost predicate MetaSound(s: State, m: Meta) { LayersSound(s, m.layers) && ImagesSound(s, m.images) }

  ghost predicate TaskSound(s: State, t: Task) {
    match t
    case Waiting(_, _) => true
    case Working(_, _, path, _) => path.store == s.store && path.number < s.next && path.number < USIZE - 1
    case Done(desc, diffId, meta, hit) => PulledSound(s, desc, diffId, Pulled(meta, hit))
  }

  ghost predicate TasksSound(s: State) {
    && (forall t :: t in s.tasks ==> TaskSound(s, s.tasks[t]))
    && (forall t, u :: t in s.tasks && u in s.tasks && t != u && s.tasks[t].Working? && s.tasks[u].Working? ==>
      s.tasks[t].path != s.tasks[u].path)
  }

  /** A pull that created its bundle did so from the layers it now has; before that it has none. */
  ghost predicate BundleKept(s: State, p: nat) requires p in s.pulls {
    if s.pulls[p].stage != Bundled then p !in s.bundled
    else AllDone(s, p) && p in s.bundled && s.bundled[p] == Bundle(s.pulls[p].imageId, Results(s, p))
  }

  ghost predicate PullsSound(s: State) {
    forall p :: p in s.pulls ==>
      && |s.pulls[p].diffIds| == |s.pulls[p].descs| && BundleKept(s, p)
      && (forall i :: 0 <= i < |s.pulls[p].descs| ==>
        && TaskId(p, i) in s.tasks && s.tasks[TaskId(p, i)].desc == s.pulls[p].descs[i]
        && s.tasks[TaskId(p, i)].diffId == s.pulls[p].diffIds[i])
  }

  predicate Finished(dirs: Dirs, n: Place) { n in dirs && dirs[n].Some? && Accepted(dirs[n].value) }

  /** An unfinished or refused directory is being worked on, or was left over. */
  ghost predicate NoStrays(s: State) {
    forall n :: n in s.dirs ==>
      n.number < USIZE - 1 && (Finished(s.dirs, n) || n in s.garbage || n in WorkingPaths(s.tasks))
  }

  ghost predicate Inv(s: State) {
    MetaSound(s, s.db) && MetaSound(s, s.saved) && TasksSound(s) && PullsSound(s) && NoStrays(s)
  }

  /** No directory that the saved databases refer to lies at or above the first number. */
  ghost predicate SavedBelow(m: Meta, store: nat, next: nat) {
    && (forall k :: k in m.layers ==> Below(m.layers[k].path, store, next))
    && (forall k, i :: k in m.images && 0 <= i < |m.images[k].layers| ==>
      Below(m.images[k].layers[i].meta.path, store, next))
  }

  ghost predicate SafeStart(s: State, a: Action) { a.Restart? ==> SavedBelow(s.saved, a.store, a.next) }

  // ---------------------------------------------------------------- what one action keeps

  /** No action touches a released directory: this is what removal and delete-existing must keep to. */
  lemma {:induction false} StepKeepsReleased(s: State, a: Action, n: Place)
    requires Enabled(s, a) && Released(s, n) && (a.Restart? ==> Below(n, a.store, a.next))
    ensures Released(After(s, a), n) && (n in After(s, a).dirs <==> n in s.dirs)
    ensures n in s.dirs ==> After(s, a).dirs[n] == s.dirs[n]
  {
    var s' := After(s, a);
    forall t | t in s'.tasks && s'.tasks[t].Working? ensures s'.tasks[t].path != n {
      if a.Begin? {
        assert t in s.tasks;
      }
    }
  }

  lemma {:induction false} StepKeepsSound(s: State, a: Action, m: LayerMeta)
    requires Enabled(s, a) && Sound(s, m) && (a.Restart? ==> Below(m.path, a.store, a.next))
    ensures Sound(After(s, a), m) && After(s, a).dirs[m.path] == s.dirs[m.path]
  {
    StepKeepsReleased(s, a, m.path);
  }

  lemma {:induction false} StepKeepsMeta(s: State, a: Action, m: Meta)
    requires PullsSound(s) && Enabled(s, a) && MetaSound(s, m) && (a.Restart? ==> SavedBelow(m, a.store, a.next))
    ensures MetaSound(After(s, a), m)
  {
    var s' := After(s, a);
    forall k | k in m.layers ensures Sound(s', m.layers[k]) {
      StepKeepsSound(s, a, m.layers[k]);
    }
    forall k | k in m.images ensures ImageSound(s', k, m.images[k]) {
      var layers := m.images[k].layers;
      assert ImageSound(s, k, m.images[k]);
      forall i | 0 <= i < |layers| ensures Sound(s', layers[i].meta) {
        assert PulledSound(s, m.images[k].descs[i], m.images[k].diffIds[i], layers[i]);
        StepKeepsSound(s, a, layers[i].meta);
      }
    }
  }

  lemma {:induction false} ExtendedIsSound(s: State, db: map<string, LayerMeta>, layers: seq<Pulled>)
    requires LayersSound(s, db) && forall i :: 0 <= i < |layers| ==> Sound(s, layers[i].meta)
    ensures LayersSound(s, Extended(db, layers))
  {
    if layers != [] {
      ExtendedIsSound(s, db, layers[..|layers| - 1]);
    }
  }

  lemma {:induction false} ResultsAreSound(s: State, p: nat)
    requires Inv(s) && p in s.pulls && AllDone(s, p)
    ensures forall i :: 0 <= i < |Results(s, p)| ==>
      PulledSound(s, s.pulls[p].descs[i], s.pulls[p].diffIds[i], Results(s, p)[i])
    ensures forall i :: 0 <= i < |Results(s, p)| ==> Sound(s, Results(s, p)[i].meta)
  {
    var r := Results(s, p);
    forall i | 0 <= i < |r| ensures PulledSound(s, s.pulls[p].descs[i], s.pulls[p].diffIds[i], r[i]) {
      assert TaskSound(s, s.tasks[TaskId(p, i)]);
    }
  }

  lemma {:induction false} StepDb(s: State, a: Action)
    requires Inv(s) && Enabled(s, a) && SafeStart(s, a)
    ensures MetaSound(After(s, a), After(s, a).db) && MetaSound(After(s, a), After(s, a).saved)
  {
    StepKeepsMeta(s, a, s.saved);
    if a.Merge? {
      ResultsAreSound(s, a.pull);
      ExtendedIsSound(s, s.db.layers, Results(s, a.pull));
      StepKeepsMeta(s, a, After(s, a).db);
    } else if a.Record? {
      ResultsAreSound(s, a.pull);
      assert BundleKept(s, a.pull);
      StepKeepsMeta(s, a, After(s, a).db);
    } else if !a.Restart? {
      StepKeepsMeta(s, a, s.db);
    }
  }

  predicate ActsOn(a: Action, t: TaskId) {
    (a.Hit? || a.Allocate? || a.Create? || a.Unpacked? || a.Abandon?) && a.id == t
  }

  lemma {:induction false} StepOwnTask(s: State, a: Action, t: TaskId)
    requires Inv(s) && Enabled(s, a) && ActsOn(a, t)
    ensures t in s.tasks && TaskSound(After(s, a), After(s, a).tasks[t])
  {
    assert TaskSound(s, s.tasks[t]);
    if a.Hit? {
      StepKeepsSound(s, a, s.db.layers[s.tasks[t].desc.digest]);
    }
  }

  lemma {:induction false} StepTask(s: State, a: Action, t: TaskId)
    requires Inv(s) && Enabled(s, a) && t in After(s, a).tasks
    ensures TaskSound(After(s, a), After(s, a).tasks[t])
  {
    var s' := After(s, a);
    if ActsOn(a, t) {
      StepOwnTask(s, a, t);
    } else if t in s.tasks {
      assert s'.tasks[t] == s.tasks[t] && TaskSound(s, s.tasks[t]);
      if s.tasks[t].Done? {
        StepKeepsSound(s, a, s.tasks[t].meta);
      }
    } else {
      assert s'.tasks[t].Waiting?;
    }
  }

  lemma {:induction false} StepTasks(s: State, a: Action)
    requires Inv(s) && Enabled(s, a)
    ensures TasksSound(After(s, a))
  {
    var s' := After(s, a);
    forall t | t in s'.tasks ensures TaskSound(s', s'.tasks[t]) {
      StepTask(s, a, t);
    }
    forall t, u | t in s'.tasks && u in s'.tasks && t != u && s'.tasks[t].Working? && s'.tasks[u].Working?
      ensures s'.tasks[t].path != s'.tasks[u].path
    {
      assert t in s.tasks && u in s.tasks;
      assert TaskSound(s, s.tasks[t]) && TaskSound(s, s.tasks[u]);
    }
  }

  lemma {:induction false} StepKeepsRequest(s: State, a: Action, t: TaskId)
    requires Enabled(s, a) && t in s.tasks && !a.Restart? && !(a.Drop? && a.pull == t.pull)
    ensures t in After(s, a).tasks && After(s, a).tasks[t].desc == s.tasks[t].desc
    ensures After(s, a).tasks[t].diffId == s.tasks[t].diffId
    ensures s.tasks[t].Done? ==> After(s, a).tasks[t] == s.tasks[t]
  {}

  lemma {:induction false} StepKeepsResults(s: State, a: Action, p: nat)
    requires Enabled(s, a) && p in s.pulls && p in After(s, a).pulls && AllDone(s, p) && !a.Restart?
    requires !(a.Drop? && a.pull == p)
    requires After(s, a).pulls[p].descs == s.pulls[p].descs
    ensures AllDone(After(s, a), p) && Results(After(s, a), p) == Results(s, p)
  {
    forall i | 0 <= i < |s.pulls[p].descs|
      ensures TaskId(p, i) in After(s, a).tasks && After(s, a).tasks[TaskId(p, i)] == s.tasks[TaskId(p, i)]
    {
      StepKeepsRequest(s, a, TaskId(p, i));
    }
  }

  /** The pull after a step: a new one, or as before but for its stage. */
  lemma {:induction false} StepOfPull(s: State, a: Action, p: nat)
    requires Enabled(s, a) && p in After(s, a).pulls && !(a.Begin? && a.pull == p)
    ensures p in s.pulls && !a.Restart? && !(a.Drop? && a.pull == p)
    ensures var was, now := s.pulls[p], After(s, a).pulls[p];
      && now == was.(stage := now.stage)
      && (now.stage == was.stage || (a == Merge(p) && now.stage == Merged)
        || (a == CreateBundle(p) && now.stage == Bundled))
    ensures a.CreateBundle? ==>
      After(s, a).bundled == s.bundled[a.pull := Bundle(s.pulls[a.pull].imageId, Results(s, a.pull))]
    ensures !a.CreateBundle? ==> After(s, a).bundled == s.bundled
  {}

  lemma {:induction false} StepKeepsBundle(s: State, a: Action, p: nat)
    requires Inv(s) && Enabled(s, a) && p in After(s, a).pulls && !(a.Begin? && a.pull == p)
    ensures BundleKept(After(s, a), p)
  {
    StepOfPull(s, a, p);
    assert BundleKept(s, p);
    if After(s, a).pulls[p].stage == Bundled {
      StepKeepsResults(s, a, p);
    }
  }

  lemma {:induction false} StepPull(s: State, a: Action, p: nat, i: nat)
    requires Inv(s) && Enabled(s, a) && p in After(s, a).pulls && i < |After(s, a).pulls[p].descs|
    ensures var s' := After(s, a);
      && |s'.pulls[p].diffIds| == |s'.pulls[p].descs| && TaskId(p, i) in s'.tasks
      && s'.tasks[TaskId(p, i)].desc == s'.pulls[p].descs[i] && s'.tasks[TaskId(p, i)].diffId == s'.pulls[p].diffIds[i]
  {
    if !(a.Begin? && a.pull == p) {
      StepOfPull(s, a, p);
      StepKeepsRequest(s, a, TaskId(p, i));
    }
  }

  lemma {:induction false} StepPulls(s: State, a: Action)
    requires Inv(s) && Enabled(s, a)
    ensures PullsSound(After(s, a))
  {
    var s' := After(s, a);
    forall p | p in s'.pulls ensures |s'.pulls[p].diffIds| == |s'.pulls[p].descs| && BundleKept(s', p) {
      if !(a.Begin? && a.pull == p) {
        StepOfPull(s, a, p);
        StepKeepsBundle(s, a, p);
      }
    }
    forall p, i | p in s'.pulls && 0 <= i < |s'.pulls[p].descs|
      ensures TaskId(p, i) in s'.tasks && s'.tasks[TaskId(p, i)].desc == s'.pulls[p].descs[i]
      ensures |s'.pulls[p].diffIds| == |s'.pulls[p].descs| && s'.tasks[TaskId(p, i)].diffId == s'.pulls[p].diffIds[i]
    {
      StepPull(s, a, p, i);
    }
  }

  /** A task that works on a directory goes on doing so, finishes it, gives it up or is stopped by a restart. */
  lemma {:induction false} StillWorking(s: State, a: Action, t: TaskId)
    requires Inv(s) && Enabled(s, a) && t in s.tasks && s.tasks[t].Working?
    ensures
      var s', n := After(s, a), s.tasks[t].path;
      n.number < USIZE - 1 && (n in s'.dirs ==> Finished(s'.dirs, n) || n in s'.garbage || n in WorkingPaths(s'.tasks))
  {
    var s', n := After(s, a), s.tasks[t].path;
    assert TaskSound(s, s.tasks[t]);
    if t in s'.tasks && s'.tasks[t].Working? {
      assert s'.tasks[t].path == n;
    } else if a.Drop? {
      assert t in Of(s.tasks, a.pull);
    }
  }

  lemma {:induction false} StepStrays(s: State, a: Action)
    requires Inv(s) && Enabled(s, a)
    ensures NoStrays(After(s, a))
  {
    var s' := After(s, a);
    forall n | n in s'.dirs
      ensures n.number < USIZE - 1 && (Finished(s'.dirs, n) || n in s'.garbage || n in WorkingPaths(s'.tasks))
    {
      if n in WorkingPaths(s.tasks) {
        var t :| t in s.tasks && s.tasks[t].Working? && s.tasks[t].path == n;
        StillWorking(s, a, t);
      } else {
        assert n in s.dirs && s'.dirs[n] == s.dirs[n];
      }
    }
  }

  lemma {:induction false} StepKeepsInv(s: State, a: Action)
    requires Inv(s) && Enabled(s, a) && SafeStart(s, a)
    ensures Inv(After(s, a))
  {
    StepDb(s, a);
    StepTasks(s, a);
    StepPulls(s, a);
    StepStrays(s, a);
  }

  // ---------------------------------------------------------------- where numbers start

  ghost predicate Ahead(store: nat, next: nat, dirs: Dirs) { forall p :: p in dirs ==> Below(p, store, next) }

  /** A scan that lists the store's directories ends above all of them. */
  lemma {:induction false} ScanIsAhead(listing: seq<DirEntry>, store: nat, next: nat, dirs: Dirs)
    requires Lists(listing, store, dirs) && IsNextIndex(listing, next)
    requires forall p :: p in dirs ==> p.number < USIZE - 1
    ensures Ahead(store, next, dirs)
  {
    forall p | p in dirs ensures Below(p, store, next) {
      if p.store == store {
        assert Place(store, p.number) in dirs;
        var e := DirEntry(Decimal(p.number), true, true);
        var i :| 0 <= i < |listing| && listing[i] == e;
        ParseDecimal(p.number);
        assert Number(listing[i]) == Some(p.number);
      }
    }
  }

  /** So a restart that scans is safe. */
  lemma {:induction false} ScannedStartIsSafe(s: State, a: Action)
    requires Inv(s) && Enabled(s, a) && a.Restart? && a.origin.Scanned?
    ensures SafeStart(s, a) && Ahead(a.store, a.next, s.dirs)
  {
    ScanIsAhead(a.origin.listing, a.store, a.next, s.dirs);
    forall k, i | k in s.saved.images && 0 <= i < |s.saved.images[k].layers|
      ensures Below(s.saved.images[k].layers[i].meta.path, a.store, a.next)
    {
      var image := s.saved.images[k];
      assert ImageSound(s, k, image) && PulledSound(s, image.descs[i], image.diffIds[i], image.layers[i]);
    }
  }

  /**
   All directories of the store lie below the next number; what is to be created does not exist, what is being made is
   unfinished.
   */
  ghost predicate Fresh(s: State) {
    && Ahead(s.store, s.next, s.dirs)
    && forall t :: t in s.tasks && s.tasks[t].Working? ==>
      if s.tasks[t].created then !Finished(s.dirs, s.tasks[t].path) else s.tasks[t].path !in s.dirs
  }

  lemma {:induction false} StepKeepsFreshTask(s: State, a: Action, t: TaskId)
    requires Inv(s) && Enabled(s, a) && !a.Restart? && Fresh(s) && t in After(s, a).tasks
    requires After(s, a).tasks[t].Working?
    ensures var w := After(s, a).tasks[t];
      if w.created then !Finished(After(s, a).dirs, w.path) else w.path !in After(s, a).dirs
  {
    assert t in s.tasks && forall u :: u in s.tasks ==> TaskSound(s, s.tasks[u]);
  }

  lemma {:induction false} StepKeepsFresh(s: State, a: Action)
    requires Inv(s) && Enabled(s, a) && (if a.Restart? then a.origin.Scanned? else Fresh(s))
    ensures Fresh(After(s, a))
  {
    var s' := After(s, a);
    if a.Restart? {
      ScannedStartIsSafe(s, a);
    } else {
      assert forall t :: t in s.tasks ==> TaskSound(s, s.tasks[t]);
      forall t | t in s'.tasks && s'.tasks[t].Working?
        ensures if s'.tasks[t].created then !Finished(s'.dirs, s'.tasks[t].path) else s'.tasks[t].path !in s'.dirs
      {
        StepKeepsFreshTask(s, a, t);
      }
    }
  }

  // ---------------------------------------------------------------- whole runs

  /** A process on an empty work directory. */
  predicate Initial(s: State) {
    && s.dirs == map[] && s.db == s.saved == Meta(map[], map[]) && s.tasks == map[] && s.pulls == map[]
    && s.bundled == map[] && s.garbage == {}
  }

  /** Every restart in the run is safe: it scanned, or its fallback store holds no directory that is referred to. */
  ghost predicate Run(states: seq<State>, actions: seq<Action>) {
    && |states| == |actions| + 1 && Initial(states[0])
    && forall i :: 0 <= i < |actions| ==>
      && Enabled(states[i], actions[i]) && states[i + 1] == After(states[i], actions[i])
      && (actions[i].Restart? && actions[i].origin.Fallback? ==> SafeStart(states[i], actions[i]))
  }

  lemma {:induction false} RunKeepsInv(states: seq<State>, actions: seq<Action>, k: nat)
    requires Run(states, actions) && k < |states|
    ensures Inv(states[k])
  {
    if k > 0 {
      RunKeepsInv(states, actions, k - 1);
      var s, a := states[k - 1], actions[k - 1];
      if a.Restart? && a.origin.Scanned? {
        ScannedStartIsSafe(s, a);
      }
      StepKeepsInv(s, a);
    }
  }

  /** What the databases say, in every state of every run. */
  lemma {:induction false} DatabasesAreTrue(states: seq<State>, actions: seq<Action>, k: nat)
    requires Run(states, actions) && k < |states|
    ensures var s := states[k];
      forall d :: d in s.db.layers ==>
        var m := s.db.layers[d];
        && m.path in s.dirs && s.dirs[m.path].Some?
        && var layer := s.dirs[m.path].value;
           && layer.desc.digest == d == m.compressedDigest && m.uncompressedDigest == layer.digest == layer.diffId
           && (!m.encrypted && layer.desc.size > 0 ==> layer.bytes == layer.desc.size)
    ensures var s := states[k];
      forall id :: id in s.db.images ==>
        var image := s.db.images[id];
        && image.pull in s.bundled && s.bundled[image.pull] == Bundle(id, image.layers)
        && |image.layers| == |image.descs| == |image.diffIds|
        && forall i :: 0 <= i < |image.layers| ==>
          image.layers[i].meta.compressedDigest == image.descs[i].digest && Backed(s.dirs, image.layers[i].meta)
  {
    RunKeepsInv(states, actions, k);
    var s := states[k];
    forall id | id in s.db.images ensures ImageSound(s, id, s.db.images[id]) {
    }
  }

  /**
   A layer of a recorded image has the image's own diff id if it was unpacked for it; a layer taken from the database
   has it exactly when the pull that unpacked it asked for the same one, which nothing checks.
   */
  lemma {:induction false} DiffIdMatchesIff(states: seq<State>, actions: seq<Action>, k: nat, id: string, i: nat)
    requires Run(states, actions) && k < |states| && id in states[k].db.images && i < |states[k].db.images[id].layers|
    ensures
      var s, image := states[k], states[k].db.images[id];
      var x := image.layers[i];
      && i < |image.diffIds| && x.meta.path in s.dirs && s.dirs[x.meta.path].Some?
      && (x.meta.uncompressedDigest == image.diffIds[i] <==>
        !x.hit || s.dirs[x.meta.path].value.diffId == image.diffIds[i])
  {
    RunKeepsInv(states, actions, k);
    var image := states[k].db.images[id];
    assert ImageSound(states[k], id, image);
    assert PulledSound(states[k], image.descs[i], image.diffIds[i], image.layers[i]);
  }

  predicate IsFallback(a: Action) { a.Restart? && a.origin.Fallback? }

  ghost predicate KeepsSound(s: State, s': State) {
    forall m :: Sound(s, m) ==> Sound(s', m) && s'.dirs[m.path] == s.dirs[m.path]
  }

  lemma {:induction false} StepsKeepSound(states: seq<State>, actions: seq<Action>, j: nat)
    requires Run(states, actions) && j < |actions| && !IsFallback(actions[j])
    ensures KeepsSound(states[j], states[j + 1])
  {
    RunKeepsInv(states, actions, j);
    var s, a := states[j], actions[j];
    if a.Restart? {
      ScannedStartIsSafe(s, a);
    }
    forall m | Sound(s, m) ensures Sound(After(s, a), m) && After(s, a).dirs[m.path] == s.dirs[m.path] {
      StepKeepsSound(s, a, m);
    }
  }

  lemma {:induction false} KeptSteps(states: seq<State>, k: nat, l: nat, m: LayerMeta)
    requires k <= l < |states| && Sound(states[k], m)
    requires forall j :: k <= j < l ==> KeepsSound(states[j], states[j + 1])
    ensures Sound(states[l], m) && states[l].dirs[m.path] == states[k].dirs[m.path]
  {
    if k < l {
      KeptSteps(states, k, l - 1, m);
      assert KeepsSound(states[l - 1], states[l - 1 + 1]);
    }
  }

  lemma {:induction false} SoundForever(states: seq<State>, actions: seq<Action>, k: nat, l: nat, m: LayerMeta)
    requires Run(states, actions) && k <= l < |states| && Sound(states[k], m)
    requires forall j :: k <= j < l ==> !IsFallback(actions[j])
    ensures Sound(states[l], m) && states[l].dirs[m.path] == states[k].dirs[m.path]
  {
    forall j | k <= j < l ensures KeepsSound(states[j], states[j + 1]) {
      StepsKeepSound(states, actions, j);
    }
    KeptSteps(states, k, l, m);
  }

  /**
   From the moment the layer database refers to a directory, nothing removes or changes it, restarts that scan
   included, even if the restart has lost the reference.
   */
  lemma {:induction false} ReferencedLayersAreKept(states: seq<State>, actions: seq<Action>, k: nat, l: nat, d: string)
    requires Run(states, actions) && k <= l < |states| && d in states[k].db.layers
    requires forall j :: k <= j < l ==> !IsFallback(actions[j])
    ensures Backed(states[k].dirs, states[k].db.layers[d]) && Backed(states[l].dirs, states[k].db.layers[d])
    ensures states[l].dirs[states[k].db.layers[d].path] == states[k].dirs[states[k].db.layers[d].path]
  {
    RunKeepsInv(states, actions, k);
    SoundForever(states, actions, k, l, states[k].db.layers[d]);
  }

  lemma {:induction false} ReferencedImagesAreKept(
    states: seq<State>, actions: seq<Action>, k: nat, l: nat, id: string, i: nat)
    requires Run(states, actions) && k <= l < |states|
    requires forall j :: k <= j < l ==> !IsFallback(actions[j])
    requires id in states[k].db.images && i < |states[k].db.images[id].layers|
    ensures Backed(states[l].dirs, states[k].db.images[id].layers[i].meta)
  {
    RunKeepsInv(states, actions, k);
    var image := states[k].db.images[id];
    assert ImageSound(states[k], id, image)
      && PulledSound(states[k], image.descs[i], image.diffIds[i], image.layers[i]);
    SoundForever(states, actions, k, l, image.layers[i].meta);
  }

  /** A process that began in state `j`, by scanning or on an empty work directory, runs until state `k`. */
  ghost predicate Process(actions: seq<Action>, j: nat, k: nat) {
    && j <= k <= |actions| && (j > 0 ==> actions[j - 1].Restart? && actions[j - 1].origin.Scanned?)
    && forall i :: j <= i < k ==> !actions[i].Restart?
  }

  lemma {:induction false} ProcessIsFresh(states: seq<State>, actions: seq<Action>, j: nat, k: nat)
    requires Run(states, actions) && Process(actions, j, k)
    ensures Fresh(states[k])
  {
    if k > 0 {
      RunKeepsInv(states, actions, k - 1);
      if j < k {
        ProcessIsFresh(states, actions, j, k - 1);
      }
      StepKeepsFresh(states[k - 1], actions[k - 1]);
    }
  }

  /** The delete-existing step of unpacking never finds a directory. */
  lemma {:induction false} NothingToDelete(states: seq<State>, actions: seq<Action>, j: nat, k: nat)
    requires Run(states, actions) && Process(actions, j, k) && k < |actions| && actions[k].Create?
    ensures states[k].tasks[actions[k].id].path !in states[k].dirs
  {
    ProcessIsFresh(states, actions, j, k);
  }

  lemma {:induction false} NextOnlyGrows(states: seq<State>, actions: seq<Action>, k: nat, l: nat)
    requires Run(states, actions) && k <= l < |states|
    requires forall j :: k <= j < l ==> !actions[j].Restart?
    ensures states[k].next <= states[l].next
  {
    if k < l {
      NextOnlyGrows(states, actions, k, l - 1);
    }
  }

  /** A new path differs from every existing directory and from every path handed out earlier by the same process. */
  lemma {:induction false} NewPathsDiffer(states: seq<State>, actions: seq<Action>, j: nat, k: nat, l: nat)
    requires Run(states, actions) && Process(actions, j, l) && j <= k < l < |actions| && actions[k].Allocate?
    requires actions[l].Allocate?
    ensures states[k].next != states[l].next && Place(states[l].store, states[l].next) !in states[l].dirs
  {
    NextOnlyGrows(states, actions, k + 1, l);
    ProcessIsFresh(states, actions, j, l);
  }
}
