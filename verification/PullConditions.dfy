/**
 Where the store of layers fails its promise, and exactly when: directories that cancelled pulls leave behind
 (image-rs/src/pull.rs, `async_pull_layers`), and starts that can delete layers still referred to
 (image-rs/src/image.rs, the fallback store of `ImageClient::new`).
 */
module PullConditions {
  import opened Common
  import opened ImageLayers
  import opened LayerPull
  import opened LayerStore
  import opened PullRun

  // ---------------------------------------------------------------- what is left over

  /** A failing pull cancels the task while its directory exists: nobody cleans up behind it. */
  ghost predicate Strands(s: State, a: Action, t: TaskId) {
    a.Drop? && t in s.tasks && t.pull == a.pull && s.tasks[t].Working? && s.tasks[t].path in s.dirs
  }

  /** No restart and no failed clean-up. */
  predicate Orderly(actions: seq<Action>, k: nat) requires k <= |actions| {
    forall j :: 0 <= j < k ==> !actions[j].Restart? && (actions[j].Abandon? ==> actions[j].removed)
  }

  lemma {:induction false} GarbageStep(s: State, a: Action, n: Place)
    requires Enabled(s, a) && !a.Restart? && (a.Abandon? ==> a.removed) && n in After(s, a).garbage && n !in s.garbage
    ensures a.Drop? && exists t :: t in s.tasks && t.pull == a.pull && s.tasks[t].Working? && s.tasks[t].path == n
  {}

  /** In an orderly run only cancellation leaves something over. */
  lemma {:induction false} GarbageWasCancelled(
      states: seq<State>, actions: seq<Action>, k: nat, n: Place) returns (j: nat, t: TaskId)
    requires Run(states, actions) && k < |states| && Orderly(actions, k) && n in states[k].garbage
    ensures j < k && actions[j].Drop? && t in states[j].tasks && t.pull == actions[j].pull
    ensures states[j].tasks[t].Working? && states[j].tasks[t].path == n
  {
    var s, a := states[k - 1], actions[k - 1];
    if n in s.garbage {
      j, t := GarbageWasCancelled(states, actions, k - 1, n);
    } else {
      GarbageStep(s, a, n);
      j := k - 1;
      t :| t in s.tasks && t.pull == a.pull && s.tasks[t].Working? && s.tasks[t].path == n;
    }
  }

  /** A cancelled directory is released, and so stays as it is. */
  lemma {:induction false} CancelReleases(s: State, a: Action, t: TaskId)
    requires Inv(s) && Enabled(s, a) && a.Drop? && t in s.tasks && t.pull == a.pull && s.tasks[t].Working?
    ensures Released(After(s, a), s.tasks[t].path) && After(s, a).dirs == s.dirs
  {
    assert TaskSound(s, s.tasks[t]);
  }

  lemma {:induction false} ReleasedStays(states: seq<State>, actions: seq<Action>, j: nat, k: nat, n: Place)
    requires Run(states, actions) && j <= k < |states| && Released(states[j], n)
    requires forall i :: j <= i < k ==> !actions[i].Restart?
    ensures Released(states[k], n) && (n in states[k].dirs <==> n in states[j].dirs)
    ensures n in states[j].dirs ==> states[k].dirs[n] == states[j].dirs[n]
  {
    if j < k {
      ReleasedStays(states, actions, j, k - 1, n);
      StepKeepsReleased(states[k - 1], actions[k - 1], n);
    }
  }

  /** What a cancelled task had made is still there, unfinished, at the end of an orderly run. */
  lemma {:induction false} StrandedStays(states: seq<State>, actions: seq<Action>, j: nat, t: TaskId, k: nat)
    requires Run(states, actions) && j < k < |states| && Orderly(actions, k) && Strands(states[j], actions[j], t)
    ensures states[j].tasks[t].path in states[k].dirs && !Finished(states[k].dirs, states[j].tasks[t].path)
  {
    RunKeepsInv(states, actions, j);
    ProcessIsFresh(states, actions, 0, j);
    CancelReleases(states[j], actions[j], t);
    ReleasedStays(states, actions, j + 1, k, states[j].tasks[t].path);
  }

  /**
   Without restarts and failed clean-ups, a store on which no task works holds an unfinished directory exactly when
   some failing pull cancelled a sibling while its directory existed.
   */
  lemma {:induction false} IdleStoreIsCleanIff(states: seq<State>, actions: seq<Action>, k: nat)
    requires Run(states, actions) && k < |states| && Orderly(actions, k)
    requires forall t :: t in states[k].tasks ==> !states[k].tasks[t].Working?
    ensures (forall n :: n in states[k].dirs ==> Finished(states[k].dirs, n)) <==>
            (forall j, t :: 0 <= j < k ==> !Strands(states[j], actions[j], t))
  {
    RunKeepsInv(states, actions, k);
    assert WorkingPaths(states[k].tasks) == {};
    forall j, t | 0 <= j < k && Strands(states[j], actions[j], t)
      ensures exists n :: n in states[k].dirs && !Finished(states[k].dirs, n)
    {
      StrandedStays(states, actions, j, t, k);
    }
    forall n | n in states[k].dirs && !Finished(states[k].dirs, n)
      ensures exists j, t :: 0 <= j < k && Strands(states[j], actions[j], t)
    {
      assert n in states[k].garbage;
      var j, t := GarbageWasCancelled(states, actions, k, n);
      RunKeepsInv(states, actions, j);
      CancelReleases(states[j], actions[j], t);
      ReleasedStays(states, actions, j + 1, k, n);
      assert Strands(states[j], actions[j], t);
    }
  }

  // ---------------------------------------------------------------- when a start can lead to a deletion

  ghost predicate Leads(s: State, actions: seq<Action>, end: State)
    decreases |actions|
  {
    if actions == [] then s == end else Enabled(s, actions[0]) && Leads(After(s, actions[0]), actions[1..], end)
  }

  predicate WithinProcess(actions: seq<Action>) { forall i :: 0 <= i < |actions| ==> !actions[i].Restart? }

  /** Everything that the databases refer to is there. */
  ghost predicate AllBacked(dirs: Dirs, m: Meta) {
    && (forall k :: k in m.layers ==> Backed(dirs, m.layers[k]))
    && (forall k, i :: k in m.images && 0 <= i < |m.images[k].layers| ==> Backed(dirs, m.images[k].layers[i].meta))
  }

  ghost predicate CanDelete(s: State, m: Meta) {
    exists actions, end :: Leads(s, actions, end) && WithinProcess(actions) && !AllBacked(end.dirs, m)
  }

  lemma {:induction false} SoundIsBacked(s: State, m: Meta)
    requires MetaSound(s, m)
    ensures AllBacked(s.dirs, m)
  {
    forall k, i | k in m.images && 0 <= i < |m.images[k].layers| ensures Backed(s.dirs, m.images[k].layers[i].meta) {
      assert ImageSound(s, k, m.images[k]);
      assert PulledSound(s, m.images[k].descs[i], m.images[k].diffIds[i], m.images[k].layers[i]);
    }
  }

  lemma {:induction false} ProcessKeepsMeta(s: State, actions: seq<Action>, end: State, m: Meta)
    requires Inv(s) && MetaSound(s, m) && Leads(s, actions, end) && WithinProcess(actions)
    ensures Inv(end) && MetaSound(end, m)
    decreases |actions|
  {
    if actions != [] {
      StepKeepsMeta(s, actions[0], m);
      StepKeepsInv(s, actions[0]);
      ProcessKeepsMeta(After(s, actions[0]), actions[1..], end, m);
    }
  }

  lemma {:induction false} LeadsThen(s: State, first: seq<Action>, mid: State, second: seq<Action>, end: State)
    requires Leads(s, first, mid) && Leads(mid, second, end)
    ensures Leads(s, first + second, end)
    decreases |first|
  {
    if first == [] {
      assert first + second == second;
    } else {
      LeadsThen(After(s, first[0]), first[1..], mid, second, end);
      assert (first + second)[1..] == first[1..] + second;
    }
  }

  lemma {:induction false} LeadsTwo(s: State, a: Action, b: Action)
    requires Enabled(s, a) && Enabled(After(s, a), b)
    ensures Leads(s, [a, b], After(After(s, a), b))
  {
    assert [a, b][1..] == [b] && [b][1..] == [];
    assert Leads(After(s, a), [b], After(After(s, a), b));
  }

  /** A task that is given numbers and gives them up again can move the counter to any target. */
  lemma {:induction false} CountTo(s: State, t: TaskId, target: nat) returns (actions: seq<Action>, end: State)
    requires t in s.tasks && s.tasks[t].Waiting? && s.next <= target < USIZE - 1
    ensures Leads(s, actions, end) && WithinProcess(actions)
    ensures end.next == target && end.store == s.store && t in end.tasks && end.tasks[t].Waiting?
    decreases target - s.next
  {
    if s.next == target {
      actions, end := [], s;
    } else {
      var a, b := Allocate(t), Abandon(t, false);
      LeadsTwo(s, a, b);
      var mid := After(After(s, a), b);
      var rest, last := CountTo(mid, t, target);
      LeadsThen(s, [a, b], mid, rest, last);
      actions, end := [a, b] + rest, last;
    }
  }

  lemma {:induction false} UnusedNumber(used: set<nat>) returns (n: nat)
    ensures forall x :: x in used ==> x < n
    decreases |used|
  {
    n := 0;
    if used != {} {
      var x :| x in used;
      var m := UnusedNumber(used - {x});
      n := if m > x then m else x + 1;
      assert forall y :: y in used ==> y == x || y in used - {x};
    }
  }

  lemma {:induction false} CanBegin(s: State, desc: Descriptor, diffId: string) returns (begin: Action)
    requires s.tasks == map[] && s.pulls == map[]
    ensures begin.Begin? && begin.descs == [desc] && begin.diffIds == [diffId]
    ensures Enabled(s, begin) && Leads(s, [begin], After(s, begin))
    ensures After(s, begin).tasks[TaskId(begin.pull, 0)] == Waiting(desc, diffId)
  {
    var p := UnusedNumber(s.bundled.Keys);
    assert p !in s.bundled;
    begin := Begin(p, "", [desc], [diffId]);
    assert [begin][1..] == [];
    assert Leads(After(s, begin), [], After(s, begin));
  }

  lemma {:induction false} CanOverwrite(s: State, t: TaskId)
    requires t in s.tasks && s.tasks[t].Waiting? && s.next < USIZE - 1
    ensures Enabled(s, Allocate(t)) && Enabled(After(s, Allocate(t)), Create(t))
    ensures var end, p := After(After(s, Allocate(t)), Create(t)), Place(s.store, s.next);
      Leads(s, [Allocate(t), Create(t)], end) && p in end.dirs && end.dirs[p] == None
  {
    LeadsTwo(s, Allocate(t), Create(t));
  }

  /** A new client can be brought to delete any directory of its store at or above its first number. */
  lemma {:induction false} CanReach(s: State, p: Place) returns (actions: seq<Action>, end: State)
    requires s.tasks == map[] && s.pulls == map[] && p.store == s.store && s.next <= p.number < USIZE - 1
    ensures Leads(s, actions, end) && WithinProcess(actions) && p in end.dirs && end.dirs[p] == None
  {
    var begin := CanBegin(s, Descriptor("", 0, ""), "");
    var t := TaskId(begin.pull, 0);
    var counting, s2 := CountTo(After(s, begin), t, p.number);
    LeadsThen(s, [begin], After(s, begin), counting, s2);
    CanOverwrite(s2, t);
    end := After(After(s2, Allocate(t)), Create(t));
    LeadsThen(s, [begin] + counting, s2, [Allocate(t), Create(t)], end);
    actions := [begin] + counting + [Allocate(t), Create(t)];
  }

  lemma {:induction false} UnsafeStartDeletes(s: State, a: Action, m: LayerMeta)
    requires Inv(s) && Enabled(s, a) && a.Restart? && Sound(s, m) && !Below(m.path, a.store, a.next)
    requires forall dirs: Dirs :: AllBacked(dirs, s.saved) ==> Backed(dirs, m)
    ensures CanDelete(After(s, a), s.saved)
  {
    var actions, end := CanReach(After(s, a), m.path);
    assert !AllBacked(end.dirs, s.saved);
  }

  /**
   A start can lead to the deletion of a directory that the databases refer to exactly when such a directory of its
   store has a number at or above the first one.
   */
  lemma {:induction false} StartCanDeleteIff(s: State, a: Action)
    requires Inv(s) && Enabled(s, a) && a.Restart?
    ensures CanDelete(After(s, a), s.saved) <==> !SavedBelow(s.saved, a.store, a.next)
  {
    if SavedBelow(s.saved, a.store, a.next) {
      StepKeepsMeta(s, a, s.saved);
      StepKeepsInv(s, a);
      forall actions, end | Leads(After(s, a), actions, end) && WithinProcess(actions)
        ensures AllBacked(end.dirs, s.saved)
      {
        ProcessKeepsMeta(After(s, a), actions, end, s.saved);
        SoundIsBacked(end, s.saved);
      }
    } else if k :| k in s.saved.layers && !Below(s.saved.layers[k].path, a.store, a.next) {
      UnsafeStartDeletes(s, a, s.saved.layers[k]);
    } else {
      var k, i :| k in s.saved.images && 0 <= i < |s.saved.images[k].layers|
        && !Below(s.saved.images[k].layers[i].meta.path, a.store, a.next);
      var image := s.saved.images[k];
      assert ImageSound(s, k, image) && PulledSound(s, image.descs[i], image.diffIds[i], image.layers[i]);
      UnsafeStartDeletes(s, a, image.layers[i].meta);
    }
  }

  /** A second fallback in a row can delete what the first one stored: its own layers start at 0 again. */
  lemma {:induction false} FallbackCanDelete(s: State, a: Action, d: string)
    requires Inv(s) && a.Restart? && a.origin.Fallback? && Enabled(s, a)
    requires d in s.saved.layers && s.saved.layers[d].path.store == a.store
    ensures CanDelete(After(s, a), s.saved)
  {
    StartCanDeleteIff(s, a);
    assert !Below(s.saved.layers[d].path, a.store, a.next);
  }

  // ---------------------------------------------------------------- runs that fail

  /** Two layers of one image: the second fails while the first is being unpacked, and its directory stays. */
  lemma {:induction false} CancelledSiblingIsStranded(
      s: State, descs: seq<Descriptor>, diffIds: seq<string>) returns (end: State)
    requires Initial(s) && |descs| == |diffIds| == 2 && s.next < USIZE - 1
    ensures Leads(s, [Begin(0, "", descs, diffIds), Allocate(TaskId(0, 0))] + [Create(TaskId(0, 0)), Drop(0)], end)
    ensures end.tasks == map[] && end.pulls == map[] && Place(s.store, s.next) in end.dirs
    ensures !Finished(end.dirs, Place(s.store, s.next))
  {
    var t := TaskId(0, 0);
    var begin := Begin(0, "", descs, diffIds);
    assert After(s, begin).tasks[t] == Waiting(descs[0], diffIds[0]);
    LeadsTwo(s, begin, Allocate(t));
    var mid := After(After(s, begin), Allocate(t));
    assert forall u :: u in mid.tasks ==> u.pull == 0;
    LeadsTwo(mid, Create(t), Drop(0));
    end := After(After(mid, Create(t)), Drop(0));
    assert end.tasks == map[];
    LeadsThen(s, [begin, Allocate(t)], mid, [Create(t), Drop(0)], end);
  }

  /** From allocation to a finished layer. */
  lemma {:induction false} CanUnpack(s: State, t: TaskId) returns (actions: seq<Action>, end: State)
    requires t in s.tasks && s.tasks[t].Waiting? && s.next < USIZE - 1
    ensures Leads(s, actions, end) && WithinProcess(actions)
    ensures end.pulls == s.pulls && end.store == s.store && end.bundled == s.bundled && end.tasks.Keys == s.tasks.Keys
    ensures end.tasks[t].Done? && !end.tasks[t].hit
    ensures end.tasks[t].meta.path == Place(s.store, s.next)
    ensures end.tasks[t].meta.compressedDigest == s.tasks[t].desc.digest
  {
    CanOverwrite(s, t);
    var mid := After(After(s, Allocate(t)), Create(t));
    var unpacked := Unpacked(t, s.tasks[t].diffId, 0, true);
    end := After(mid, unpacked);
    assert [unpacked][1..] == [] && Leads(end, [], end) && Leads(mid, [unpacked], end);
    LeadsThen(s, [Allocate(t), Create(t)], mid, [unpacked], end);
    actions := [Allocate(t), Create(t)] + [unpacked];
  }

  lemma {:induction false} ExtendedByOne(db: map<string, LayerMeta>, x: Pulled)
    ensures Extended(db, [x]) == db[x.meta.compressedDigest := x.meta]
  {
    assert [x][..0] == [];
    assert Extended(db, []) == db;
  }

  /** From the last finished layer to the saved databases. */
  lemma {:induction false} CanSave(s: State, p: nat, t: TaskId) returns (actions: seq<Action>, end: State)
    requires p in s.pulls && s.pulls[p].stage == Pulling && |s.pulls[p].descs| == 1 && t == TaskId(p, 0)
    requires t in s.tasks && s.tasks[t].Done?
    ensures Leads(s, actions, end) && WithinProcess(actions)
    ensures s.tasks[t].meta.compressedDigest in end.saved.layers
    ensures end.saved.layers[s.tasks[t].meta.compressedDigest] == s.tasks[t].meta
    ensures var pull := s.pulls[p];
      && p !in end.pulls && pull.imageId in end.saved.images && end.saved.images == end.db.images
      && end.saved.images[pull.imageId] == Image(p, pull.descs, pull.diffIds, [Pulled(s.tasks[t].meta, s.tasks[t].hit)])
  {
    var m := s.tasks[t].meta;
    assert Results(s, p) == [Pulled(m, s.tasks[t].hit)];
    ExtendedByOne(s.db.layers, Pulled(m, s.tasks[t].hit));
    LeadsTwo(s, Merge(p), CreateBundle(p));
    var mid := After(After(s, Merge(p)), CreateBundle(p));
    LeadsTwo(mid, Record(p), Save(true));
    end := After(After(mid, Record(p)), Save(true));
    LeadsThen(s, [Merge(p), CreateBundle(p)], mid, [Record(p), Save(true)], end);
    actions := [Merge(p), CreateBundle(p)] + [Record(p), Save(true)];
  }

  /** Any layer can be pulled and saved by a new client. */
  lemma {:induction false} CanPullAndSave(
      s: State, desc: Descriptor, diffId: string) returns (actions: seq<Action>, end: State)
    requires s.tasks == map[] && s.pulls == map[] && s.next < USIZE - 1
    ensures Leads(s, actions, end) && WithinProcess(actions)
    ensures desc.digest in end.saved.layers && end.saved.layers[desc.digest].path == Place(s.store, s.next)
  {
    var begin := CanBegin(s, desc, diffId);
    var s1, t := After(s, begin), TaskId(begin.pull, 0);
    var unpacking, s2 := CanUnpack(s1, t);
    var saving, s3 := CanSave(s2, begin.pull, t);
    LeadsThen(s1, unpacking, s2, saving, s3);
    LeadsThen(s, [begin], s1, unpacking + saving, s3);
    actions, end := [begin] + (unpacking + saving), s3;
  }

  /**
   From an empty work directory: a client whose scan failed pulls any layer and saves its databases, and the next
   client whose scan fails can delete that layer.
   */
  lemma {:induction false} FallbackTwiceDeletes(
      s: State, cwd: nat, desc: Descriptor, diffId: string) returns (actions: seq<Action>, mid: State)
    requires Initial(s)
    ensures var fallback := Restart(cwd, Fallback, 0);
      && Leads(s, [fallback] + actions, mid) && WithinProcess(actions) && Enabled(mid, fallback)
      && desc.digest in mid.saved.layers && CanDelete(After(mid, fallback), mid.saved)
  {
    var fallback := Restart(cwd, Fallback, 0);
    var s1 := After(s, fallback);
    StepKeepsInv(s, fallback);
    actions, mid := CanPullAndSave(s1, desc, diffId);
    assert ([fallback] + actions)[1..] == actions;
    ProcessKeepsMeta(s1, actions, mid, s1.saved);
    FallbackCanDelete(mid, fallback, desc.digest);
  }

  /** What was saved is used again: after any restart, a pull of the same blob is a hit, whatever its diff id. */
  lemma {:induction false} SavedLayerIsReused(s: State, a: Action, desc: Descriptor, diffId: string)
    returns (begin: Action, end: State)
    requires Enabled(s, a) && a.Restart? && desc.digest in s.saved.layers
    ensures begin.Begin? && begin.descs == [desc] && Leads(After(s, a), [begin] + [Hit(TaskId(begin.pull, 0))], end)
    ensures end.dirs == s.dirs && TaskId(begin.pull, 0) in end.tasks
    ensures end.tasks[TaskId(begin.pull, 0)] == Done(desc, diffId, s.saved.layers[desc.digest], true)
  {
    var s1 := After(s, a);
    begin := CanBegin(s1, desc, diffId);
    var t, s2 := TaskId(begin.pull, 0), After(s1, begin);
    end := After(s2, Hit(t));
    assert [Hit(t)][1..] == [] && Leads(end, [], end) && Leads(s2, [Hit(t)], end);
    LeadsThen(s1, [begin], s2, [Hit(t)], end);
  }
}
