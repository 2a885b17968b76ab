/**
 Which layers unpack (image-rs/src/unpack.rs), read off the changeset of the entries that came before, and what a
 layer unpacks to where extended attributes are not available.
 */
module UnpackConditions {
  import opened Common
  import opened LayerOverlay

  // ---------------------------------------------------------------- what stands in the way

  /** The layer has something other than a directory there: a file, a link or a whiteout. */
  predicate Blocks(c: Changeset, p: Path) { p in c.hidden || AddsNonDir(c, p) }

  predicate HasDir(c: Changeset, p: Path) { Wanted(c, p) && !Blocks(c, p) }

  /** A plain entry: nothing in its way is other than a directory, and a file does not replace a directory. */
  predicate AdmitsPlain(c: Changeset, e: TarEntry) {
    if e.path == [] then !e.kind.Regular?
    else
      && (forall k :: 0 <= k < |e.path| ==> !Blocks(c, e.path[..k]))
      && (e.kind.Directory? || !Implied(c, e.path))
  }

  /** A marker needs the path that it marks; a whiteout needs a name, a directory, and nothing where it will be. */
  predicate Admits(c: Changeset, e: TarEntry) {
    if IsOpaqueMarker(e) then Wanted(c, Parent(e.path))
    else if IsWhiteoutFile(e) then
      var name := Name(e)[4..];
      && name != "" && name != "." && name != ".."
      && HasDir(c, Parent(e.path)) && !Wanted(c, Parent(e.path) + [name])
    else AdmitsPlain(c, e)
  }

  lemma {:induction false} NodeKinds(tree: Tree, c: Changeset, p: Path)
    requires Holds(tree, c)
    ensures p in tree && !tree[p].Dir? <==> Blocks(c, p)
    ensures IsDir(tree, p) <==> HasDir(c, p)
  {
    if p in tree {
      assert tree[p] == Expected(c, p);
    }
  }

  /** Ancestors can be made exactly when none of them is there as something else. */
  lemma {:induction false} EnsureDirIff(tree: Tree, d: Path)
    requires Sound(tree)
    ensures EnsureDir(tree, d).Ok? <==> forall k :: 0 <= k <= |d| ==> d[..k] in tree ==> tree[d[..k]].Dir?
    decreases |d|
  {
    assert d[..|d|] == d;
    if d in tree {
      assert forall k :: 0 <= k < |d| ==> IsDir(tree, d[..k]);
    } else {
      assert d != [];
      EnsureDirIff(tree, Parent(d));
      assert forall k :: 0 <= k < |d| ==> Parent(d)[..k] == d[..k];
    }
  }

  lemma {:induction false} PlainOkIff(x: Extraction, c: Changeset, e: TarEntry)
    requires Faithful(x, c) && e.path !in c.added && e.path !in c.hidden
    ensures UnpackEntry(x, e).Ok? <==> AdmitsPlain(c, e)
  {
    if e.path == [] {
      NodeKinds(x.tree, c, []);
    } else {
      var d := Parent(e.path);
      EnsureDirIff(x.tree, d);
      forall k | 0 <= k < |e.path| ensures d[..k] == e.path[..k]
        && (Blocks(c, d[..k]) <==> d[..k] in x.tree && !x.tree[d[..k]].Dir?) {
        NodeKinds(x.tree, c, d[..k]);
      }
      if EnsureDir(x.tree, d).Ok? {
        EnsureDirAdds(x.tree, d);
        assert !Prefix(e.path, d);
        NodeKinds(x.tree, c, e.path);
      }
    }
  }

  lemma {:induction false} WhiteoutOkIff(tree: Tree, c: Changeset, e: TarEntry)
    requires Holds(tree, c) && IsWhiteout(Name(e))
    ensures ConvertWhiteout(tree, e).Ok? <==> Admits(c, e)
  {
    NodeKinds(tree, c, Parent(e.path));
  }

  /** One more entry unpacks exactly when what came before admits it. */
  lemma {:induction false} StepOkIff(x: Extraction, c: Changeset, e: TarEntry)
    requires Faithful(x, c) && Fresh(c, e)
    ensures Step(x, e, true).Ok? <==> Admits(c, e)
  {
    if IsWhiteout(Name(e)) {
      WhiteoutOkIff(x.tree, c, e);
    } else {
      PlainOkIff(x, c, e);
    }
  }

  predicate AdmittedAt(entries: seq<TarEntry>, i: nat) requires i < |entries| {
    Admits(ChangesetOf(entries[..i]), entries[i])
  }

  /** Every entry is admitted by those before it. */
  predicate AllAdmitted(entries: seq<TarEntry>) { forall i :: 0 <= i < |entries| ==> AdmittedAt(entries, i) }

  lemma {:induction false} AdmittedBefore(entries: seq<TarEntry>, n: nat, i: nat)
    requires i < n <= |entries|
    ensures AdmittedAt(entries[..n], i) <==> AdmittedAt(entries, i)
  {
    assert entries[..n][..i] == entries[..i];
  }

  lemma {:induction false} AllAdmittedStep(entries: seq<TarEntry>, n: nat)
    requires n == |entries| - 1
    ensures AllAdmitted(entries) <==> AllAdmitted(entries[..n]) && AdmittedAt(entries, n)
  {
    forall i | 0 <= i < n ensures AdmittedAt(entries[..n], i) <==> AdmittedAt(entries, i) {
      AdmittedBefore(entries, n, i);
    }
  }

  /** A layer in which each path occurs at most once unpacks exactly when every entry is admitted by those before it. */
  lemma {:induction false} UnpacksIff(entries: seq<TarEntry>)
    requires AtMostOnce(entries)
    ensures Unpacked(entries, true).Ok? <==> AllAdmitted(entries)
  {
    if entries != [] {
      var before, e := entries[..|entries| - 1], entries[|entries| - 1];
      AllAdmittedStep(entries, |entries| - 1);
      LastIsFresh(entries);
      UnpacksIff(before);
      if Extracted(before, true).Ok? {
        var x, c := Extracted(before, true).value, ChangesetOf(before);
        UnpackIsChangeset(before);
        assert Step(x, e, true).Ok? <==> Admits(c, e) by { StepOkIff(x, c, e); }
      }
    }
  }

  // ---------------------------------------------------------------- without extended attributes

  /** Every entry is taken as it is: whiteouts are files with a strange name. */
  function RecordPlain(c: Changeset, e: TarEntry): Changeset {
    if e.path == [] && e.kind.Link? then c else Adding(c, e)
  }

  function PlainChangesetOf(entries: seq<TarEntry>): (c: Changeset)
    ensures c.hidden == {} && c.opaques == {}
  {
    if entries == [] then Changeset(map[], {}, {})
    else RecordPlain(PlainChangesetOf(entries[..|entries| - 1]), entries[|entries| - 1])
  }

  predicate DistinctPaths(entries: seq<TarEntry>) {
    forall i, j :: 0 <= i < j < |entries| ==> entries[i].path != entries[j].path
  }

  lemma {:induction false} PlainPathsSeen(entries: seq<TarEntry>, p: Path)
    requires p in PlainChangesetOf(entries).added
    ensures exists i :: 0 <= i < |entries| && entries[i].path == p
  {
    var n := |entries| - 1;
    if entries[n].path != p {
      PlainPathsSeen(entries[..n], p);
      var i :| 0 <= i < n && entries[..n][i].path == p;
      assert entries[i].path == p;
    }
  }

  lemma {:induction false} LastPathIsNew(entries: seq<TarEntry>)
    requires entries != [] && DistinctPaths(entries)
    ensures DistinctPaths(entries[..|entries| - 1])
    ensures entries[|entries| - 1].path !in PlainChangesetOf(entries[..|entries| - 1]).added
  {
    var n := |entries| - 1;
    assert forall i :: 0 <= i < n ==> entries[..n][i] == entries[i];
    if entries[n].path in PlainChangesetOf(entries[..n]).added {
      PlainPathsSeen(entries[..n], entries[n].path);
      assert false;
    }
  }

  lemma {:induction false} PlainStep(x: Extraction, c: Changeset, e: TarEntry)
    requires Faithful(x, c) && e.path !in c.added && e.path !in c.hidden && UnpackEntry(x, e).Ok?
    ensures Faithful(UnpackEntry(x, e).value, RecordPlain(c, e))
  {
    if e.path == [] {
      UnpackAtRoot(x, c, e);
    } else {
      UnpackPlain(x, c, e);
    }
  }

  predicate AllAdmittedPlain(entries: seq<TarEntry>) {
    forall i :: 0 <= i < |entries| ==> AdmitsPlain(PlainChangesetOf(entries[..i]), entries[i])
  }

  lemma {:induction false} AllAdmittedPlainStep(entries: seq<TarEntry>)
    requires entries != []
    ensures var n := |entries| - 1;
      AllAdmittedPlain(entries) <==>
      AllAdmittedPlain(entries[..n]) && AdmitsPlain(PlainChangesetOf(entries[..n]), entries[n])
  {
    var n := |entries| - 1;
    assert forall i :: 0 <= i < n ==> entries[..n][..i] == entries[..i] && entries[..n][i] == entries[i];
    if AllAdmittedPlain(entries[..n]) {
      assert forall i :: 0 <= i < n ==> AdmitsPlain(PlainChangesetOf(entries[..n][..i]), entries[..n][i]);
    }
  }

  /**
   Without extended attributes a layer unpacks exactly when no entry is in the way of another, and the tree holds
   exactly the entries and the directories they need; nothing is hidden.
   */
  lemma {:induction false} UnpackWithoutXattrs(entries: seq<TarEntry>)
    requires DistinctPaths(entries)
    ensures Extracted(entries, false).Ok? <==> AllAdmittedPlain(entries)
    ensures Extracted(entries, false).Ok? ==> Faithful(Extracted(entries, false).value, PlainChangesetOf(entries))
  {
    if entries == [] {
      assert forall p :: Implied(PlainChangesetOf([]), p) <==> p == [];
    } else {
      var before, e := entries[..|entries| - 1], entries[|entries| - 1];
      AllAdmittedPlainStep(entries);
      LastPathIsNew(entries);
      UnpackWithoutXattrs(before);
      if Extracted(before, false).Ok? {
        var x, c := Extracted(before, false).value, PlainChangesetOf(before);
        assert UnpackEntry(x, e).Ok? <==> AdmitsPlain(c, e) by { PlainOkIff(x, c, e); }
        if UnpackEntry(x, e).Ok? {
          PlainStep(x, c, e);
        }
      }
    }
  }
}
