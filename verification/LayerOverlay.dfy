/**
 Unpacking of image layers (image-rs/src/unpack.rs) and the overlay mount of the
 unpacked layers in reversed order (image-rs/src/image.rs, snapshots/overlay.rs).

 `Unpack` turns a tar stream into the directory tree of one layer, `Walk` is the
 lookup an overlay mount performs over such trees, and `ApplyAll` is the meaning of
 the same tar streams as changesets applied one by one.
 */
module LayerOverlay {
  import opened Common
  import opened ImageLayers

  /** Components of a path below the layer's root; the root is []. */
  type Path = seq<string>

  datatype Owner = Owner(uid: nat, gid: nat, mode: Option<nat>)

  datatype Kind = Directory | Regular | Link

  datatype TarEntry = TarEntry(path: Path, kind: Kind, data: string, owner: Owner, mtime: int)

  /** Owner and time are None where the system chose them. */
  datatype Attrs = Attrs(owner: Option<Owner>, mtime: Option<int>)

  /** A node of an unpacked layer. */
  datatype DiskNode =
    | Dir(dirAttrs: Attrs, opaqueDir: bool)
    | File(data: string, fileAttrs: Attrs)
    | Whiteout

  type Tree = map<Path, DiskNode>

  /** A node as a reader of the mounted file system sees it. */
  datatype ViewNode =
    | ViewDir(dirAttrs: Attrs)
    | ViewFile(data: string, fileAttrs: Attrs)

  /** The layer being written and the directory times still to be set. */
  datatype Extraction = Extraction(tree: Tree, times: map<Path, int>)

  const WHITEOUT_PREFIX: string := ".wh."
  const WHITEOUT_OPAQUE_DIR: string := ".wh..wh..opq"

  const UNSET := Attrs(None, None)
  const IMPLICIT_DIR := Dir(UNSET, false)

  predicate IsWhiteout(name: string) { WHITEOUT_PREFIX <= name }

  function Name(e: TarEntry): string { if e.path == [] then "" else e.path[|e.path| - 1] }

  function Parent(p: Path): Path
    requires p != []
  {
    p[..|p| - 1]
  }

  predicate IsOpaqueMarker(e: TarEntry) { Name(e) == WHITEOUT_OPAQUE_DIR }

  predicate IsWhiteoutFile(e: TarEntry) { IsWhiteout(Name(e)) && !IsOpaqueMarker(e) }

  predicate IsPlain(e: TarEntry) { !IsWhiteout(Name(e)) }

  /** The path a whiteout file hides. */
  function Hidden(e: TarEntry): Path
    requires IsWhiteoutFile(e)
  {
    Parent(e.path) + [Name(e)[4..]]
  }

  /** The path an entry is about: itself, or the path it hides. */
  function Subject(e: TarEntry): Path
    requires !IsOpaqueMarker(e)
  {
    if IsPlain(e) then e.path else Hidden(e)
  }

  // ---------------------------------------------------------------- unpacking

  predicate IsDir(tree: Tree, p: Path) { p in tree && tree[p].Dir? }

  function Timed(dir: DiskNode, time: Option<int>): DiskNode
    requires dir.Dir?
  {
    Dir(Attrs(dir.dirAttrs.owner, time), dir.opaqueDir)
  }

  function Owned(dir: DiskNode, owner: Owner): DiskNode
    requires dir.Dir?
  {
    Dir(Attrs(Some(owner), dir.dirAttrs.mtime), dir.opaqueDir)
  }

  /** Creates a node; the directory it appears in gets a new modification time. */
  function Place(tree: Tree, p: Path, node: DiskNode): Tree
    requires p != [] && IsDir(tree, Parent(p))
  {
    tree[Parent(p) := Timed(tree[Parent(p)], None)][p := node]
  }

  /** Creates the missing directories on the way to `d`, and `d`. */
  function EnsureDir(tree: Tree, d: Path): (r: Result<Tree>)
    ensures r.Ok? ==> IsDir(r.value, d)
    decreases |d|
  {
    if d in tree then
      if tree[d].Dir? then Ok(tree) else Err
    else if d == [] then Err
    else
      match EnsureDir(tree, Parent(d))
      case Err => Err
      case Ok(t) => Ok(Place(t, d, IMPLICIT_DIR))
  }

  function ConvertWhiteout(tree: Tree, e: TarEntry): Result<Tree>
    requires IsWhiteout(Name(e))
  {
    var parent := Parent(e.path);
    if IsOpaqueMarker(e) then
      if parent !in tree then Err
      else if tree[parent].Dir? then Ok(tree[parent := Dir(tree[parent].dirAttrs, true)])
      else Ok(tree)
    else
      var original := Name(e)[4..];
      if original == "" || original == "." || original == ".." then Err
      else if !IsDir(tree, parent) || Hidden(e) in tree then Err
      else Ok(Place(tree, Hidden(e), Whiteout))
  }

  function FileNode(e: TarEntry): DiskNode {
    File(e.data, if e.kind.Link? then UNSET else Attrs(Some(e.owner), Some(e.mtime)))
  }

  /** Extraction of an entry at the layer's root: only attributes can change. */
  function UnpackRoot(x: Extraction, e: TarEntry): Result<Extraction> {
    match e.kind
    case Directory =>
      if !IsDir(x.tree, []) then Err
      else Ok(Extraction(x.tree[[] := Owned(x.tree[[]], e.owner)], x.times[[] := e.mtime]))
    case Regular => Err
    case Link => Ok(x)
  }

  function UnpackEntry(x: Extraction, e: TarEntry): Result<Extraction> {
    if e.path == [] then UnpackRoot(x, e)
    else
      match EnsureDir(x.tree, Parent(e.path))
      case Err => Err
      case Ok(t) =>
        if e.kind.Directory? then
          if e.path !in t then
            Ok(Extraction(Place(t, e.path, Dir(Attrs(Some(e.owner), None), false)), x.times[e.path := e.mtime]))
          else if t[e.path].Dir? then
            Ok(Extraction(t[e.path := Owned(t[e.path], e.owner)], x.times[e.path := e.mtime]))
          else Err
        else if IsDir(t, e.path) then Err
        else Ok(Extraction(Place(t, e.path, FileNode(e)), x.times))
  }

  /** One turn of the entry loop. */
  function Step(x: Extraction, e: TarEntry, xattrs: bool): Result<Extraction> {
    if xattrs && IsWhiteout(Name(e)) then
      match ConvertWhiteout(x.tree, e)
      case Err => Err
      case Ok(t) => Ok(x.(tree := t))
    else UnpackEntry(x, e)
  }

  const EMPTY_LAYER := Extraction(map[[] := IMPLICIT_DIR], map[])

  function Extracted(entries: seq<TarEntry>, xattrs: bool): Result<Extraction> {
    if entries == [] then Ok(EMPTY_LAYER)
    else
      match Extracted(entries[..|entries| - 1], xattrs)
      case Err => Err
      case Ok(x) => Step(x, entries[|entries| - 1], xattrs)
  }

  function WithTimes(x: Extraction): Tree {
    map p | p in x.tree :: TimedAt(x, p)
  }

  function TimedAt(x: Extraction, p: Path): DiskNode
    requires p in x.tree
  {
    if p in x.times && x.tree[p].Dir? then Timed(x.tree[p], Some(x.times[p])) else x.tree[p]
  }

  /** The layer tree a tar stream unpacks to. */
  function Unpacked(entries: seq<TarEntry>, xattrs: bool): Result<Tree> {
    match Extracted(entries, xattrs)
    case Err => Err
    case Ok(x) => Ok(WithTimes(x))
  }

  /** The destination directory on disk. */
  class Destination {
    var tree: Option<Tree>

    constructor ()
      ensures tree == None
    {
      tree := None;
    }

    /** `unpack`: an existing destination is deleted first, directory times are set last. */
    method Unpack(entries: seq<TarEntry>, xattrs: bool) returns (ok: bool)
      modifies this
      ensures ok <==> Unpacked(entries, xattrs).Ok?
      ensures ok ==> tree == Some(Unpacked(entries, xattrs).value)
      ensures tree.Some?
    {
      tree := Some(EMPTY_LAYER.tree);
      var times: map<Path, int> := map[];
      var i := 0;
      while i < |entries|
        invariant 0 <= i <= |entries|
        invariant tree.Some?
        invariant Extracted(entries[..i], xattrs) == Ok(Extraction(tree.value, times))
      {
        assert entries[..i + 1][..i] == entries[..i];
        var step := Step(Extraction(tree.value, times), entries[i], xattrs);
        if step.Err? {
          FailureIsFinal(entries, i + 1, xattrs);
          return false;
        }
        tree, times := Some(step.value.tree), step.value.times;
        i := i + 1;
      }
      assert entries[..i] == entries;
      ghost var x := Extraction(tree.value, times);
      var left := times.Keys;
      while left != {}
        invariant left <= times.Keys
        invariant tree.Some? && tree.value.Keys == x.tree.Keys
        invariant forall p :: p in x.tree ==> tree.value[p] == if p in left then x.tree[p] else TimedAt(x, p)
        decreases |left|
      {
        var p :| p in left;
        if IsDir(tree.value, p) {
          tree := Some(tree.value[p := Timed(tree.value[p], Some(times[p]))]);
        }
        left := left - {p};
      }
      assert tree.value == WithTimes(x);
      ok := true;
    }
  }

  lemma {:induction false} FailureIsFinal(entries: seq<TarEntry>, i: nat, xattrs: bool)
    requires i <= |entries| && Extracted(entries[..i], xattrs).Err?
    ensures Extracted(entries, xattrs).Err?
    decreases |entries|
  {
    if i < |entries| {
      assert entries[..|entries| - 1][..i] == entries[..i];
      FailureIsFinal(entries[..|entries| - 1], i, xattrs);
    } else {
      assert entries[..i] == entries;
    }
  }

  // ---------------------------------------------------------------- changesets

  /** A layer as a changeset: what it adds or changes, what it hides, what it makes opaque. */
  datatype Changeset = Changeset(added: map<Path, TarEntry>, hidden: set<Path>, opaques: set<Path>)

  function Record(c: Changeset, e: TarEntry): Changeset {
    if IsOpaqueMarker(e) then c.(opaques := c.opaques + {Parent(e.path)})
    else if IsWhiteoutFile(e) then c.(hidden := c.hidden + {Hidden(e)})
    else if e.path == [] && e.kind.Link? then c
    else c.(added := c.added[e.path := e])
  }

  function ChangesetOf(entries: seq<TarEntry>): Changeset {
    if entries == [] then Changeset(map[], {}, {})
    else Record(ChangesetOf(entries[..|entries| - 1]), entries[|entries| - 1])
  }

  /** Each path is an entry or a whiteout at most once. */
  predicate AtMostOnce(entries: seq<TarEntry>) {
    forall i, j :: 0 <= i < j < |entries| && !IsOpaqueMarker(entries[i]) && !IsOpaqueMarker(entries[j])
      ==> Subject(entries[i]) != Subject(entries[j])
  }

  predicate Prefix(p: Path, q: Path) { |p| <= |q| && q[..|p|] == p }

  predicate ProperPrefix(p: Path, q: Path) { |p| < |q| && Prefix(p, q) }

  /** A directory the changeset needs without listing it. */
  predicate Implied(c: Changeset, p: Path) {
    p == [] || exists q :: q in c.added && ProperPrefix(p, q)
  }

  predicate AddsNonDir(c: Changeset, p: Path) { p in c.added && !c.added[p].kind.Directory? }

  /** What an earlier layer put at `p` is not removed by the changeset. */
  predicate Kept(c: Changeset, p: Path) {
    && (forall k :: 0 <= k <= |p| ==> p[..k] !in c.hidden)
    && (forall k :: 0 <= k < |p| ==> p[..k] !in c.opaques)
    && (forall k :: 0 <= k < |p| ==> !AddsNonDir(c, p[..k]))
  }

  function ViewOf(e: TarEntry): ViewNode {
    match e.kind
    case Directory => ViewDir(Attrs(Some(e.owner), Some(e.mtime)))
    case Regular => ViewFile(e.data, Attrs(Some(e.owner), Some(e.mtime)))
    case Link => ViewFile(e.data, UNSET)
  }

  /** "Whiteouts" and "Change Types" of the OCI Image Layer Filesystem Changeset specification, at one path. */
  function ApplyAt(c: Changeset, earlier: Option<ViewNode>, p: Path): Option<ViewNode> {
    if p in c.added then Some(ViewOf(c.added[p]))
    else if Implied(c, p) then
      if Kept(c, p) && earlier.Some? && earlier.value.ViewDir? then earlier else Some(ViewDir(UNSET))
    else if Kept(c, p) then earlier
    else None
  }

  /** The layers, bottom first, applied one by one to an empty file system. */
  function ApplyAll(layers: seq<seq<TarEntry>>, p: Path): Option<ViewNode> {
    if layers == [] then None
    else ApplyAt(ChangesetOf(layers[|layers| - 1]), ApplyAll(layers[..|layers| - 1], p), p)
  }

  /** The same for changesets that need not come from tar streams. */
  function ApplyStack(cs: seq<Changeset>, p: Path): Option<ViewNode> {
    if cs == [] then None else ApplyAt(cs[|cs| - 1], ApplyStack(cs[..|cs| - 1], p), p)
  }

  function Changesets(tars: seq<seq<TarEntry>>): (cs: seq<Changeset>)
    ensures |cs| == |tars| && forall i :: 0 <= i < |tars| ==> cs[i] == ChangesetOf(tars[i])
  {
    seq(|tars|, i requires 0 <= i < |tars| => ChangesetOf(tars[i]))
  }

  lemma {:induction false} ApplyAllIsStack(tars: seq<seq<TarEntry>>, p: Path)
    ensures ApplyAll(tars, p) == ApplyStack(Changesets(tars), p)
  {
    if tars != [] {
      ApplyAllIsStack(tars[..|tars| - 1], p);
      assert Changesets(tars)[..|tars| - 1] == Changesets(tars[..|tars| - 1]);
    }
  }

  // ---------------------------------------------------------------- overlay lookup

  datatype Found =
    | Missing
    | NonDir(node: DiskNode)
    | Merged(top: DiskNode, stack: seq<Tree>)

  /** One name looked up through the directories merged at its parent, topmost first. */
  function Scan(stack: seq<Tree>, p: Path): Found {
    if stack == [] then Missing
    else if p !in stack[0] then Scan(stack[1..], p)
    else
      match stack[0][p]
      case Whiteout => Missing
      case File(_, _) => NonDir(stack[0][p])
      case Dir(_, opaqueDir) =>
        var below := Scan(stack[1..], p);
        Merged(stack[0][p], [stack[0]] + if !opaqueDir && below.Merged? then below.stack else [])
  }

  /** The root merges all layers; `rootMark` says whether an opaque mark on a layer's own root counts. */
  function Root(layers: seq<Tree>, rootMark: bool): Found {
    if rootMark || layers == [] || [] !in layers[0] then Scan(layers, []) else Merged(layers[0][[]], layers)
  }

  /** Component by component lookup through an overlay mount, topmost layer first. */
  function Walk(layers: seq<Tree>, p: Path, rootMark: bool): Found
    decreases |p|
  {
    if p == [] then Root(layers, rootMark)
    else
      match Walk(layers, Parent(p), rootMark)
      case Merged(_, stack) => Scan(stack, p)
      case _ => Missing
  }

  function See(f: Found): Option<ViewNode>
    requires f.NonDir? ==> f.node.File?
    requires f.Merged? ==> f.top.Dir?
  {
    match f
    case Missing => None
    case NonDir(node) => Some(ViewFile(node.data, node.fileAttrs))
    case Merged(top, _) => Some(ViewDir(top.dirAttrs))
  }

  // ---------------------------------------------------------------- what a tar stream unpacks to

  /** Every node lies in directories all the way up. */
  ghost predicate Closed(tree: Tree) {
    IsDir(tree, []) && forall p, k :: p in tree && 0 <= k < |p| ==> IsDir(tree, p[..k])
  }

  /** No directory time has been set yet. */
  ghost predicate Untimed(tree: Tree) {
    forall p :: IsDir(tree, p) ==> tree[p].dirAttrs.mtime == None
  }

  ghost predicate Sound(tree: Tree) { Closed(tree) && Untimed(tree) }

  lemma PlaceSound(tree: Tree, p: Path, node: DiskNode)
    requires p != [] && IsDir(tree, Parent(p)) && Sound(tree)
    requires node.Dir? ==> node.dirAttrs.mtime == None
    requires IsDir(tree, p) ==> node.Dir?
    ensures Place(tree, p, node) == tree[p := node]
    ensures Sound(tree[p := node])
  {
    assert Timed(tree[Parent(p)], None) == tree[Parent(p)];
    AddSound(tree, p, node);
  }

  lemma AddSound(tree: Tree, p: Path, node: DiskNode)
    requires p != [] && IsDir(tree, Parent(p)) && Sound(tree)
    requires node.Dir? ==> node.dirAttrs.mtime == None
    requires IsDir(tree, p) ==> node.Dir?
    ensures Sound(tree[p := node])
  {
    var t := tree[p := node];
    forall q, k | q in t && 0 <= k < |q| ensures IsDir(t, q[..k]) {
      if q == p && k < |p| - 1 {
        assert Parent(p)[..k] == p[..k];
      }
    }
  }

  lemma PrefixOfParent(q: Path, d: Path)
    requires d != []
    ensures Prefix(q, d) <==> q == d || Prefix(q, Parent(d))
    ensures ProperPrefix(q, d) <==> Prefix(q, Parent(d))
  {
    if |q| < |d| { assert d[..|q|] == Parent(d)[..|q|]; }
  }

  /** `EnsureDir` adds exactly the missing prefixes of `d`, as implicit directories. */
  lemma {:induction false} EnsureDirAdds(tree: Tree, d: Path)
    requires Sound(tree) && EnsureDir(tree, d).Ok?
    ensures var t := EnsureDir(tree, d).value;
            && Sound(t)
            && (forall q :: q in t <==> q in tree || Prefix(q, d))
            && (forall q :: q in t ==> t[q] == if q in tree then tree[q] else IMPLICIT_DIR)
    decreases |d|
  {
    if d in tree {
      assert d[..|d|] == d;
      forall q | Prefix(q, d) ensures q in tree {
        assert |q| < |d| ==> IsDir(tree, d[..|q|]);
      }
    } else {
      EnsureDirAdds(tree, Parent(d));
      PlaceSound(EnsureDir(tree, Parent(d)).value, d, IMPLICIT_DIR);
      forall q ensures Prefix(q, d) <==> q == d || Prefix(q, Parent(d)) { PrefixOfParent(q, d); }
    }
  }

  function Expected(c: Changeset, p: Path): DiskNode {
    if p in c.added then
      if c.added[p].kind.Directory? then Dir(Attrs(Some(c.added[p].owner), None), p in c.opaques)
      else FileNode(c.added[p])
    else if p in c.hidden then Whiteout
    else Dir(UNSET, p in c.opaques)
  }

  predicate Wanted(c: Changeset, p: Path) { p in c.added || p in c.hidden || Implied(c, p) }

  predicate WantsDir(c: Changeset, p: Path) { p in c.added && c.added[p].kind.Directory? }

  /** The tree holds exactly what the changeset asks for. */
  ghost predicate Holds(tree: Tree, c: Changeset) {
    && (forall p :: p in tree <==> Wanted(c, p))
    && (forall p :: p in tree ==> tree[p] == Expected(c, p))
    && c.opaques <= tree.Keys && c.hidden !! c.added.Keys
  }

  ghost predicate HasTimes(times: map<Path, int>, c: Changeset) {
    && (forall p :: p in times <==> WantsDir(c, p))
    && (forall p :: p in times ==> times[p] == c.added[p].mtime)
  }

  lemma {:induction false} SubjectsSeen(entries: seq<TarEntry>, p: Path)
    requires p in ChangesetOf(entries).added || p in ChangesetOf(entries).hidden
    ensures exists i :: 0 <= i < |entries| && !IsOpaqueMarker(entries[i]) && Subject(entries[i]) == p
  {
    var n := |entries| - 1;
    if !IsOpaqueMarker(entries[n]) && Subject(entries[n]) == p {
    } else {
      SubjectsSeen(entries[..n], p);
      var i :| 0 <= i < n && !IsOpaqueMarker(entries[..n][i]) && Subject(entries[..n][i]) == p;
      assert entries[i] == entries[..n][i];
    }
  }

  function Adding(c: Changeset, e: TarEntry): Changeset { c.(added := c.added[e.path := e]) }

  lemma ImpliedByAdding(c: Changeset, e: TarEntry, q: Path)
    requires e.path != []
    ensures Implied(Adding(c, e), q) <==> Implied(c, q) || Prefix(q, Parent(e.path))
  {
    PrefixOfParent(q, e.path);
    if Prefix(q, Parent(e.path)) {
      assert e.path in Adding(c, e).added;
    }
    if Implied(Adding(c, e), q) && q != [] {
      var a :| a in Adding(c, e).added && ProperPrefix(q, a);
      assert a == e.path || a in c.added;
    }
    if Implied(c, q) && q != [] {
      var a :| a in c.added && ProperPrefix(q, a);
      assert a in Adding(c, e).added;
    }
  }

  lemma HoldsAfterAdding(t: Tree, tree: Tree, c: Changeset, e: TarEntry, node: DiskNode)
    requires Holds(tree, c) && e.path != [] && e.path !in c.hidden
    requires forall q :: q in t <==> q in tree || Prefix(q, Parent(e.path))
    requires forall q :: q in t ==> t[q] == if q in tree then tree[q] else IMPLICIT_DIR
    requires node == Expected(Adding(c, e), e.path)
    ensures Holds(t[e.path := node], Adding(c, e))
  {
    var c', t' := Adding(c, e), t[e.path := node];
    forall q ensures q in t' <==> Wanted(c', q) {
      ImpliedByAdding(c, e, q);
    }
    forall q | q in t' ensures t'[q] == Expected(c', q) {
      if q != e.path && q !in tree { assert !Wanted(c, q); }
    }
  }

  lemma UnpackPlain(x: Extraction, c: Changeset, e: TarEntry)
    requires Sound(x.tree) && Holds(x.tree, c) && HasTimes(x.times, c)
    requires e.path != [] && e.path !in c.added && e.path !in c.hidden
    requires UnpackEntry(x, e).Ok?
    ensures var x' := UnpackEntry(x, e).value;
            Sound(x'.tree) && Holds(x'.tree, Adding(c, e)) && HasTimes(x'.times, Adding(c, e))
  {
    var node := Expected(Adding(c, e), e.path);
    EnsureDirAdds(x.tree, Parent(e.path));
    var t := EnsureDir(x.tree, Parent(e.path)).value;
    assert !Prefix(e.path, Parent(e.path));
    if e.path in t {
      assert t[e.path] == Expected(c, e.path);
      AddSound(t, e.path, node);
    } else {
      assert e.path !in c.opaques;
      PlaceSound(t, e.path, node);
    }
    HoldsAfterAdding(t, x.tree, c, e, node);
  }

  lemma UnpackMarker(tree: Tree, c: Changeset, e: TarEntry)
    requires Sound(tree) && Holds(tree, c) && IsOpaqueMarker(e) && ConvertWhiteout(tree, e).Ok?
    ensures Sound(ConvertWhiteout(tree, e).value) && Holds(ConvertWhiteout(tree, e).value, Record(c, e))
  {
    var c', t, d := Record(c, e), ConvertWhiteout(tree, e).value, Parent(e.path);
    assert forall q :: Wanted(c', q) <==> Wanted(c, q);
    assert t.Keys == tree.Keys;
    forall q | q in t ensures t[q] == Expected(c', q) {
      if q != d { assert t[q] == tree[q]; }
    }
  }

  lemma UnpackHidden(tree: Tree, c: Changeset, e: TarEntry)
    requires Sound(tree) && Holds(tree, c) && IsWhiteoutFile(e) && ConvertWhiteout(tree, e).Ok?
    ensures Sound(ConvertWhiteout(tree, e).value) && Holds(ConvertWhiteout(tree, e).value, Record(c, e))
  {
    var c', t := Record(c, e), ConvertWhiteout(tree, e).value;
    assert Parent(Hidden(e)) == Parent(e.path);
    PlaceSound(tree, Hidden(e), Whiteout);
    assert forall q :: Implied(c', q) <==> Implied(c, q);
  }

  lemma UnpackAtRoot(x: Extraction, c: Changeset, e: TarEntry)
    requires Sound(x.tree) && Holds(x.tree, c) && HasTimes(x.times, c)
    requires e.path == [] && [] !in c.added && [] !in c.hidden && UnpackRoot(x, e).Ok?
    ensures var x' := UnpackRoot(x, e).value;
            Sound(x'.tree) && Holds(x'.tree, Record(c, e)) && HasTimes(x'.times, Record(c, e))
  {
    var c' := Record(c, e);
    assert !IsOpaqueMarker(e) && !IsWhiteoutFile(e);
    forall q ensures Implied(c', q) <==> Implied(c, q) {
      if q != [] && Implied(c', q) {
        var a :| a in c'.added && ProperPrefix(q, a);
        assert a in c.added;
      }
      if q != [] && Implied(c, q) {
        var a :| a in c.added && ProperPrefix(q, a);
        assert a in c'.added;
      }
    }
  }

  ghost predicate Faithful(x: Extraction, c: Changeset) {
    Sound(x.tree) && Holds(x.tree, c) && HasTimes(x.times, c)
  }

  predicate Fresh(c: Changeset, e: TarEntry) { IsPlain(e) ==> e.path !in c.added && e.path !in c.hidden }

  lemma FaithfulStep(x: Extraction, c: Changeset, e: TarEntry)
    requires Faithful(x, c) && Fresh(c, e) && Step(x, e, true).Ok?
    ensures Faithful(Step(x, e, true).value, Record(c, e))
  {
    if IsOpaqueMarker(e) {
      UnpackMarker(x.tree, c, e);
    } else if IsWhiteout(Name(e)) {
      UnpackHidden(x.tree, c, e);
    } else if e.path != [] {
      UnpackPlain(x, c, e);
    } else {
      UnpackAtRoot(x, c, e);
    }
  }

  lemma LastIsFresh(entries: seq<TarEntry>)
    requires entries != [] && AtMostOnce(entries)
    ensures AtMostOnce(entries[..|entries| - 1])
    ensures Fresh(ChangesetOf(entries[..|entries| - 1]), entries[|entries| - 1])
  {
    var n := |entries| - 1;
    var before, e := entries[..n], entries[n];
    assert forall i :: 0 <= i < n ==> before[i] == entries[i];
    if IsPlain(e) && (e.path in ChangesetOf(before).added || e.path in ChangesetOf(before).hidden) {
      SubjectsSeen(before, e.path);
      assert false;
    }
  }

  /** Whatever the order of its entries, a layer unpacks to exactly its changeset. */
  lemma {:induction false} UnpackIsChangeset(entries: seq<TarEntry>)
    requires AtMostOnce(entries) && Extracted(entries, true).Ok?
    ensures Faithful(Extracted(entries, true).value, ChangesetOf(entries))
  {
    if entries == [] {
      assert forall p :: Implied(ChangesetOf([]), p) <==> p == [];
    } else {
      var before := entries[..|entries| - 1];
      LastIsFresh(entries);
      UnpackIsChangeset(before);
      FaithfulStep(Extracted(before, true).value, ChangesetOf(before), entries[|entries| - 1]);
    }
  }

  // ---------------------------------------------------------------- the mounted view

  /** The lookup of `p` goes on below a layer: no node of the layer above `p` stops it. */
  predicate Through(layer: Tree, p: Path)
    decreases |p|
  {
    p == [] || (Through(layer, Parent(p))
      && (Parent(p) in layer ==> layer[Parent(p)].Dir? && !layer[Parent(p)].opaqueDir))
  }

  /** The layers' roots are directories, and their opaque marks count or are not used. */
  ghost predicate Mountable(layers: seq<Tree>, rootMark: bool) {
    forall i :: 0 <= i < |layers| ==> RootReady(layers[i], rootMark)
  }

  ghost predicate RootReady(layer: Tree, rootMark: bool) {
    Closed(layer) && (rootMark || !layer[[]].opaqueDir)
  }

  /** What a lookup finds when `layer` is put on top of `rest`. */
  function OnTop(layer: Tree, p: Path, below: Found): Found {
    if p !in layer then if Through(layer, p) then below else Missing
    else
      match layer[p]
      case Whiteout => Missing
      case File(_, _) => NonDir(layer[p])
      case Dir(_, opaqueDir) =>
        Merged(layer[p], [layer] + if !opaqueDir && Through(layer, p) && below.Merged? then below.stack else [])
  }

  /** The kernel's component-wise walk has a layer-wise meaning. */
  lemma {:induction false} TopLayer(layer: Tree, rest: seq<Tree>, p: Path, rootMark: bool)
    requires Mountable([layer] + rest, rootMark)
    ensures Walk([layer] + rest, p, rootMark) == OnTop(layer, p, Walk(rest, p, rootMark))
    decreases |p|
  {
    assert ([layer] + rest)[0] == layer && ([layer] + rest)[1..] == rest;
    if p == [] {
      assert forall i :: 0 <= i < |rest| ==> rest[i] == ([layer] + rest)[i + 1];
    } else {
      TopLayer(layer, rest, Parent(p), rootMark);
      var below := Walk(rest, Parent(p), rootMark);
      if Parent(p) in layer && layer[Parent(p)].Dir? {
        var stack := Walk([layer] + rest, Parent(p), rootMark).stack;
        assert stack[0] == layer;
        assert stack[1..] == if Through(layer, p) && below.Merged? then below.stack else [];
        assert Scan(stack[1..], p) == if Through(layer, p) then Walk(rest, p, rootMark) else Missing;
      } else {
        assert p !in layer;
      }
    }
  }

  function Reversed(layers: seq<Tree>): (r: seq<Tree>)
    ensures |r| == |layers|
    ensures forall i :: 0 <= i < |r| ==> r[i] == layers[|layers| - 1 - i]
  {
    if layers == [] then [] else [layers[|layers| - 1]] + Reversed(layers[..|layers| - 1])
  }

  /** Directories match up to attributes, or with them when `strict`. */
  predicate SameNode(a: Option<ViewNode>, b: Option<ViewNode>, strict: bool) {
    match (a, b)
    case (None, None) => true
    case (Some(ViewDir(x)), Some(ViewDir(y))) => !strict || x == y
    case (Some(ViewFile(d, x)), Some(ViewFile(e, y))) => d == e && x == y
    case _ => false
  }

  /** The directories a layer needs are in the layer. */
  ghost predicate ParentsListed(entries: seq<TarEntry>) {
    forall p :: p != [] && Implied(ChangesetOf(entries), p) ==> p in ChangesetOf(entries).added
  }

  /** `layer` is what `entries` unpack to. */
  ghost predicate LayerOf(entries: seq<TarEntry>, layer: Tree) {
    AtMostOnce(entries) && Unpacked(entries, true) == Ok(layer)
  }

  /** The layers unpack, and use no root mark that would not count. */
  ghost predicate Unpacks(tars: seq<seq<TarEntry>>, layers: seq<Tree>, rootMark: bool) {
    && |tars| == |layers|
    && (forall i :: 0 <= i < |tars| ==> LayerOf(tars[i], layers[i]))
    && (rootMark || forall i :: 0 <= i < |tars| ==> [] !in ChangesetOf(tars[i]).opaques)
  }

  function OnDisk(c: Changeset, p: Path): DiskNode {
    if WantsDir(c, p) then Dir(Attrs(Some(c.added[p].owner), Some(c.added[p].mtime)), p in c.opaques)
    else Expected(c, p)
  }

  /** A finished layer, directory times included, holds exactly its changeset. */
  ghost predicate Stores(layer: Tree, c: Changeset) {
    && Closed(layer) && c.opaques <= layer.Keys && c.hidden !! c.added.Keys
    && (forall p :: p in layer <==> Wanted(c, p))
    && (forall p :: p in layer ==> layer[p] == OnDisk(c, p))
  }

  lemma LayerContents(entries: seq<TarEntry>, layer: Tree)
    requires LayerOf(entries, layer)
    ensures Stores(layer, ChangesetOf(entries))
  {
    UnpackIsChangeset(entries);
    var x, c := Extracted(entries, true).value, ChangesetOf(entries);
    forall p | p in layer ensures layer[p] == OnDisk(c, p) {
      assert layer[p] == TimedAt(x, p);
    }
    assert forall p :: IsDir(x.tree, p) <==> IsDir(layer, p);
  }

  predicate Passes(c: Changeset, q: Path) { q !in c.hidden && q !in c.opaques && !AddsNonDir(c, q) }

  lemma PassesOne(layer: Tree, c: Changeset, q: Path)
    requires Stores(layer, c)
    ensures (q in layer ==> layer[q].Dir? && !layer[q].opaqueDir) <==> Passes(c, q)
  {}

  lemma {:induction false} ThroughIffPasses(layer: Tree, c: Changeset, p: Path, k: nat)
    requires Stores(layer, c) && k <= |p|
    ensures Through(layer, p[..k]) <==> forall j :: 0 <= j < k ==> Passes(c, p[..j])
    decreases k
  {
    if k > 0 {
      assert Parent(p[..k]) == p[..k - 1];
      PassesOne(layer, c, p[..k - 1]);
      ThroughIffPasses(layer, c, p, k - 1);
    }
  }

  lemma ThroughIffKept(layer: Tree, c: Changeset, p: Path)
    requires Stores(layer, c) && p !in c.hidden
    ensures Through(layer, p) <==> Kept(c, p)
  {
    assert p[..|p|] == p;
    ThroughIffPasses(layer, c, p, |p|);
    if Kept(c, p) {
      assert forall j :: 0 <= j < |p| ==> Passes(c, p[..j]);
    } else if Through(layer, p) {
      assert forall j :: 0 <= j < |p| ==> Passes(c, p[..j]);
    }
  }

  lemma HiddenIsNotImplied(layer: Tree, c: Changeset, p: Path)
    requires Stores(layer, c) && p in c.hidden
    ensures !Implied(c, p) && !Kept(c, p)
  {
    assert p[..|p|] == p;
    forall q | q in c.added ensures !ProperPrefix(p, q) {
      if |p| < |q| { assert IsDir(layer, q[..|p|]); }
    }
  }

  /** One more layer on top of the mount is one more changeset applied. */
  lemma TopLayerApplies(layer: Tree, c: Changeset, below: Found, earlier: Option<ViewNode>, p: Path, strict: bool)
    requires Stores(layer, c)
    requires strict ==> (Implied(c, p) ==> p in c.added)
    requires Visible(below) && SameNode(See(below), earlier, strict)
    ensures Visible(OnTop(layer, p, below))
    ensures SameNode(See(OnTop(layer, p, below)), ApplyAt(c, earlier, p), strict)
  {
    if p in c.hidden {
      HiddenIsNotImplied(layer, c, p);
    } else if p !in layer {
      ThroughIffKept(layer, c, p);
    }
  }

  predicate Visible(f: Found) {
    match f
    case Missing => true
    case NonDir(node) => node.File?
    case Merged(top, _) => top.Dir?
  }

  /** The mount of layers that hold changesets shows the changesets applied one by one. */
  lemma {:induction false} StackShows(cs: seq<Changeset>, layers: seq<Tree>, p: Path, strict: bool, rootMark: bool)
    requires |cs| == |layers| && Mountable(Reversed(layers), rootMark)
    requires forall i :: 0 <= i < |cs| ==> Stores(layers[i], cs[i])
    requires strict ==> forall i :: 0 <= i < |cs| ==> Implied(cs[i], p) ==> p in cs[i].added
    ensures Visible(Walk(Reversed(layers), p, rootMark))
    ensures SameNode(See(Walk(Reversed(layers), p, rootMark)), ApplyStack(cs, p), strict)
  {
    if cs == [] {
      EmptyWalk(p, rootMark);
    } else {
      var n := |cs| - 1;
      var rest := Reversed(layers[..n]);
      assert forall i :: 0 <= i < |rest| ==> rest[i] == Reversed(layers)[i + 1];
      StackShows(cs[..n], layers[..n], p, strict, rootMark);
      TopLayer(layers[n], rest, p, rootMark);
      TopLayerApplies(layers[n], cs[n], Walk(rest, p, rootMark), ApplyStack(cs[..n], p), p, strict);
    }
  }

  /**
   The mounted image is the meaning of its layers. For every list of layers that unpack, bottom first,
   looking any path up in the overlay of the unpacked layers, top first, gives what applying the
   changesets one by one gives; directory attributes agree too when the layers list their directories.
   */
  lemma {:induction false} OverlayIsChangesets(
      tars: seq<seq<TarEntry>>, layers: seq<Tree>, p: Path, strict: bool, rootMark: bool)
    requires Unpacks(tars, layers, rootMark)
    requires strict ==> p != [] && forall i :: 0 <= i < |tars| ==> ParentsListed(tars[i])
    ensures Visible(Walk(Reversed(layers), p, rootMark))
    ensures SameNode(See(Walk(Reversed(layers), p, rootMark)), ApplyAll(tars, p), strict)
  {
    AllMountable(tars, layers, rootMark);
    AllStore(tars, layers);
    ApplyAllIsStack(tars, p);
    StackShows(Changesets(tars), layers, p, strict, rootMark);
  }

  lemma AllStore(tars: seq<seq<TarEntry>>, layers: seq<Tree>)
    requires |tars| == |layers| && forall i :: 0 <= i < |tars| ==> LayerOf(tars[i], layers[i])
    ensures forall i :: 0 <= i < |tars| ==> Stores(layers[i], Changesets(tars)[i])
  {
    forall i | 0 <= i < |tars| ensures Stores(layers[i], Changesets(tars)[i]) {
      LayerContents(tars[i], layers[i]);
    }
  }

  lemma AllMountable(tars: seq<seq<TarEntry>>, layers: seq<Tree>, rootMark: bool)
    requires Unpacks(tars, layers, rootMark)
    ensures Mountable(Reversed(layers), rootMark)
  {
    forall i | 0 <= i < |layers| ensures RootReady(layers[i], rootMark) {
      LayerReady(tars[i], layers[i], rootMark);
    }
  }

  lemma LayerReady(entries: seq<TarEntry>, layer: Tree, rootMark: bool)
    requires LayerOf(entries, layer) && (rootMark || [] !in ChangesetOf(entries).opaques)
    ensures RootReady(layer, rootMark)
  {
    LayerContents(entries, layer);
    assert layer[[]] == OnDisk(ChangesetOf(entries), []);
  }

  lemma {:induction false} EmptyWalk(p: Path, rootMark: bool)
    ensures Walk([], p, rootMark) == Missing
    decreases |p|
  {
    if p != [] { EmptyWalk(Parent(p), rootMark); }
  }

  /** The fresh upper directory of the mount shows everything below it. */
  lemma {:induction false} EmptyUpperShowsAll(layers: seq<Tree>, p: Path, rootMark: bool)
    requires Mountable(layers, rootMark) && p != []
    ensures Walk([EMPTY_LAYER.tree] + layers, p, rootMark) == Walk(layers, p, rootMark)
  {
    TopLayer(EMPTY_LAYER.tree, layers, p, rootMark);
    ThroughEmpty(p);
  }

  lemma {:induction false} ThroughEmpty(p: Path)
    ensures Through(EMPTY_LAYER.tree, p)
    decreases |p|
  {
    if p != [] { ThroughEmpty(Parent(p)); }
  }

  /** Attributes differ exactly where a layer implies a directory without listing it over one with attributes. */
  lemma AttributesAgreeIff(layer: Tree, c: Changeset, below: Found, p: Path)
    requires Stores(layer, c) && Visible(below)
    ensures Visible(OnTop(layer, p, below))
    ensures SameNode(See(OnTop(layer, p, below)), ApplyAt(c, See(below), p), true) <==>
            !(p !in c.added && Implied(c, p) && Kept(c, p) && below.Merged? && below.top.dirAttrs != UNSET)
  {
    TopLayerApplies(layer, c, below, See(below), p, false);
    if p in c.hidden {
      HiddenIsNotImplied(layer, c, p);
    } else if p !in layer {
      ThroughIffKept(layer, c, p);
    }
  }

  // ---------------------------------------------------------------- repeated layers

  /** Dropping repeated layers keeps the view wherever re-applying each repeat would change nothing. */
  lemma DroppingRepeatsKeepsView(keys: seq<string>, tars: seq<seq<TarEntry>>, p: Path)
    requires |keys| == |tars| && RepeatsAreIdle(keys, tars, layers => ApplyAll(layers, p))
    ensures ApplyAll(Pick(tars, FirstIndexes(keys)), p) == ApplyAll(tars, p)
  {
    var meaning := layers => ApplyAll(layers, p);
    forall a, b, t | meaning(a) == meaning(b) ensures meaning(a + [t]) == meaning(b + [t]) {
      SameTop(a, b, t, p);
    }
    DropRepeats(keys, tars, meaning);
  }

  /** The mount of an image's unique layers shows the image, repeated layers included. */
  lemma ImageMountShowsImage(
      keys: seq<string>, tars: seq<seq<TarEntry>>, layers: seq<Tree>, p: Path, strict: bool, rootMark: bool)
    requires |keys| == |tars| && RepeatsAreIdle(keys, tars, layers => ApplyAll(layers, p))
    requires Unpacks(Pick(tars, FirstIndexes(keys)), layers, rootMark)
    requires strict ==> p != [] && forall t :: t in tars ==> ParentsListed(t)
    ensures Visible(Walk(Reversed(layers), p, rootMark))
    ensures SameNode(See(Walk(Reversed(layers), p, rootMark)), ApplyAll(tars, p), strict)
  {
    var unique := Pick(tars, FirstIndexes(keys));
    forall i | 0 <= i < |unique| ensures unique[i] in tars { assert unique[i] == tars[FirstIndexes(keys)[i]]; }
    OverlayIsChangesets(unique, layers, p, strict, rootMark);
    DroppingRepeatsKeepsView(keys, tars, p);
  }

  lemma SameTop(a: seq<seq<TarEntry>>, b: seq<seq<TarEntry>>, top: seq<TarEntry>, p: Path)
    requires ApplyAll(a, p) == ApplyAll(b, p)
    ensures ApplyAll(a + [top], p) == ApplyAll(b + [top], p)
  {
    assert (a + [top])[..|a|] == a && (b + [top])[..|b|] == b;
  }

  const OWNER := Owner(0, 0, None)
  const FILE_F := TarEntry(["f"], Regular, "x", OWNER, 0)
  const HIDE_F := TarEntry([".wh.f"], Regular, "", OWNER, 0)
  const ROOT_MARK := TarEntry([".wh..wh..opq"], Regular, "", OWNER, 0)

  lemma OneEntry(e: TarEntry)
    ensures ChangesetOf([e]) == Record(Changeset(map[], {}, {}), e)
  {
    assert [e][..0] == [];
  }

  lemma TopApplied(tars: seq<seq<TarEntry>>, e: TarEntry, p: Path)
    ensures ApplyAll(tars + [[e]], p) == ApplyAt(Record(Changeset(map[], {}, {}), e), ApplyAll(tars, p), p)
  {
    OneEntry(e);
    assert (tars + [[e]])[..|tars|] == tars;
  }

  lemma HiddenF(tars: seq<seq<TarEntry>>)
    ensures ApplyAll(tars + [[HIDE_F]], ["f"]) == None
  {
    TopApplied(tars, HIDE_F, ["f"]);
    assert Hidden(HIDE_F) == ["f"] && ["f"][..1] == ["f"];
  }

  lemma ThreeKeys()
    ensures FirstIndexes(["a", "b", "a"]) == [0, 1]
  {
    assert ["a", "b", "a"][..2] == ["a", "b"] && ["a", "b"][..1] == ["a"];
    assert FirstIndexes(["a"]) == [0];
    assert FirstIndexes(["a", "b"]) == [0, 1];
  }

  /** Where it would change something, the first occurrences alone do not give the image's view. */
  lemma DroppingRepeatsCanChangeView()
    ensures FirstIndexes(["a", "b", "a"]) == [0, 1]
    ensures ApplyAll([[FILE_F], [HIDE_F], [FILE_F]], ["f"]).Some?
    ensures ApplyAll(Pick([[FILE_F], [HIDE_F], [FILE_F]], [0, 1]), ["f"]) == None
  {
    ThreeKeys();
    TopApplied([[FILE_F], [HIDE_F]], FILE_F, ["f"]);
    assert [[FILE_F], [HIDE_F]] + [[FILE_F]] == [[FILE_F], [HIDE_F], [FILE_F]];
    HiddenF([[FILE_F]]);
    assert Pick([[FILE_F], [HIDE_F], [FILE_F]], [0, 1]) == [[FILE_F]] + [[HIDE_F]];
  }

  lemma UnpackOne(e: TarEntry)
    ensures Extracted([e], true) == Step(EMPTY_LAYER, e, true)
  {
    assert [e][..0] == [];
  }

  /**
   If an opaque mark on a layer's own root does not count, such a mark hides nothing, while the changeset
   hides the lower layers.
   */
  lemma RootMarkNeedsToCount()
    ensures Unpacked([FILE_F], true).Ok? && Unpacked([ROOT_MARK], true).Ok?
    ensures var layers := [Unpacked([FILE_F], true).value, Unpacked([ROOT_MARK], true).value];
            && Walk(Reversed(layers), ["f"], false).NonDir?
            && ApplyAll([[FILE_F], [ROOT_MARK]], ["f"]) == None
  {
    UnpackOne(FILE_F);
    UnpackOne(ROOT_MARK);
    assert Parent(["f"]) == [] && Parent([".wh..wh..opq"]) == [];
    var a, b := Unpacked([FILE_F], true).value, Unpacked([ROOT_MARK], true).value;
    SeenThroughMark(a, b);
    TopApplied([[FILE_F]], ROOT_MARK, ["f"]);
    assert [[FILE_F]] + [[ROOT_MARK]] == [[FILE_F], [ROOT_MARK]];
    assert ["f"][..0] == [];
  }

  lemma SeenThroughMark(a: Tree, b: Tree)
    requires ["f"] in a && a[["f"]].File? && b.Keys == {[]}
    ensures Walk(Reversed([a, b]), ["f"], false).NonDir?
  {
    var top := [b, a];
    assert Reversed([a, b]) == top;
    assert Parent(["f"]) == [] && top[1..] == [a] && Walk(top, [], false) == Merged(b[[]], top);
    assert Scan([a], ["f"]).NonDir?;
  }
}
