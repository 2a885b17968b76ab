/**
 When the mounted view is the image's view: the exact conditions for a mount that ignores opaque marks on the layers'
 own roots (image-rs/src/unpack.rs, `convert_whiteout`) and for dropping repeated layers (image-rs/src/image.rs,
 `create_image_meta`), both read off the changesets.
 */
module OverlayConditions {
  import opened Common
  import opened ImageLayers
  import opened LayerOverlay

  // ---------------------------------------------------------------- the layer that decides

  /** The layer says itself what is at `p`: it adds it, needs a directory there, or removes what was there. */
  predicate Touches(c: Changeset, p: Path) { p in c.added || Implied(c, p) || !Kept(c, p) }

  function EffectAt(c: Changeset, p: Path): Option<ViewNode> {
    if p in c.added then Some(ViewOf(c.added[p])) else if Implied(c, p) then Some(ViewDir(UNSET)) else None
  }

  /** The topmost layer that touches `p`. */
  function LastTouch(cs: seq<Changeset>, p: Path): (r: Option<nat>)
    ensures r.Some? ==> r.value < |cs| && Touches(cs[r.value], p)
    ensures r.Some? ==> forall j :: r.value < j < |cs| ==> !Touches(cs[j], p)
    ensures r.None? ==> forall j :: 0 <= j < |cs| ==> !Touches(cs[j], p)
  {
    if cs == [] then None
    else if Touches(cs[|cs| - 1], p) then Some(|cs| - 1)
    else LastTouch(cs[..|cs| - 1], p)
  }

  function LastEffect(cs: seq<Changeset>, p: Path): Option<ViewNode> {
    match LastTouch(cs, p)
    case None => None
    case Some(i) => EffectAt(cs[i], p)
  }

  /** No layer needs a directory at `p` without listing it. */
  predicate NoneImplied(cs: seq<Changeset>, p: Path) {
    forall i :: 0 <= i < |cs| ==> Implied(cs[i], p) ==> p in cs[i].added
  }

  /** The view at a path is the effect of the topmost layer that touches it, attributes of implied directories aside. */
  lemma {:induction false} LastTouchDecides(cs: seq<Changeset>, p: Path)
    ensures SameNode(ApplyStack(cs, p), LastEffect(cs, p), false)
    ensures NoneImplied(cs, p) ==> ApplyStack(cs, p) == LastEffect(cs, p)
  {
    if cs != [] {
      LastTouchDecides(cs[..|cs| - 1], p);
    }
  }

  lemma {:induction false} StacksAgreeByEffect(a: seq<Changeset>, b: seq<Changeset>, p: Path)
    ensures SameNode(ApplyStack(a, p), ApplyStack(b, p), false) <==> SameNode(LastEffect(a, p), LastEffect(b, p), false)
    ensures NoneImplied(a, p) && NoneImplied(b, p) ==>
      (ApplyStack(a, p) == ApplyStack(b, p) <==> LastEffect(a, p) == LastEffect(b, p))
  {
    LastTouchDecides(a, p);
    LastTouchDecides(b, p);
  }

  // ---------------------------------------------------------------- attributes of directories

  /**
   The topmost layer touching `p` only implies a directory there, over one from earlier layers that has attributes.
   */
  predicate LosesAttributes(cs: seq<Changeset>, p: Path) {
    var last := LastTouch(cs, p);
    && last.Some? && p !in cs[last.value].added && Implied(cs[last.value], p) && Kept(cs[last.value], p)
    && var earlier := ApplyStack(cs[..last.value], p);
       earlier.Some? && earlier.value.ViewDir? && earlier.value.dirAttrs != UNSET
  }

  /** A layer that does not touch a path is not in its way. */
  lemma {:induction false} UntouchedPasses(layer: Tree, c: Changeset, p: Path, below: Found)
    requires Stores(layer, c) && !Touches(c, p)
    ensures OnTop(layer, p, below) == below
  {
    assert p[..|p|] == p;
    ThroughIffKept(layer, c, p);
  }

  /** A layer that touches a path shows there what it has itself. */
  lemma {:induction false} TouchedShows(layer: Tree, c: Changeset, p: Path, below: Found)
    requires Stores(layer, c) && Touches(c, p) && Visible(below)
    ensures Visible(OnTop(layer, p, below)) && See(OnTop(layer, p, below)) == EffectAt(c, p)
  {
    if p in c.hidden {
      HiddenIsNotImplied(layer, c, p);
    } else if p !in layer {
      ThroughIffKept(layer, c, p);
    }
  }

  /** The mount shows the effect of the topmost layer that touches the path, attributes included. */
  lemma {:induction false} MountShowsLastEffect(cs: seq<Changeset>, layers: seq<Tree>, p: Path, rootMark: bool)
    requires |cs| == |layers| && Mountable(Reversed(layers), rootMark)
    requires forall i :: 0 <= i < |cs| ==> Stores(layers[i], cs[i])
    ensures Visible(Walk(Reversed(layers), p, rootMark))
    ensures See(Walk(Reversed(layers), p, rootMark)) == LastEffect(cs, p)
  {
    if cs == [] {
      EmptyWalk(p, rootMark);
    } else {
      var n := |cs| - 1;
      var rest := Reversed(layers[..n]);
      assert forall i :: 0 <= i < |rest| ==> rest[i] == Reversed(layers)[i + 1];
      MountShowsLastEffect(cs[..n], layers[..n], p, rootMark);
      TopLayer(layers[n], rest, p, rootMark);
      if Touches(cs[n], p) {
        TouchedShows(layers[n], cs[n], p, Walk(rest, p, rootMark));
      } else {
        UntouchedPasses(layers[n], cs[n], p, Walk(rest, p, rootMark));
      }
    }
  }

  lemma {:induction false} LastEffectIsViewIff(cs: seq<Changeset>, p: Path)
    ensures LastEffect(cs, p) == ApplyStack(cs, p) <==> !LosesAttributes(cs, p)
  {
    if cs != [] {
      var n := |cs| - 1;
      if !Touches(cs[n], p) {
        LastEffectIsViewIff(cs[..n], p);
        var last := LastTouch(cs, p);
        assert last == LastTouch(cs[..n], p);
        assert last.Some? ==> cs[..n][..last.value] == cs[..last.value];
      }
    }
  }

  /**
   The mount of a whole stack shows the image exactly, attributes included, unless it loses attributes at the path.
   */
  lemma {:induction false} StackAttributesAgreeIff(tars: seq<seq<TarEntry>>, layers: seq<Tree>, p: Path, rootMark: bool)
    requires Unpacks(tars, layers, rootMark)
    ensures Visible(Walk(Reversed(layers), p, rootMark))
    ensures See(Walk(Reversed(layers), p, rootMark)) == ApplyAll(tars, p) <==> !LosesAttributes(Changesets(tars), p)
  {
    AllMountable(tars, layers, rootMark);
    AllStore(tars, layers);
    ApplyAllIsStack(tars, p);
    MountShowsLastEffect(Changesets(tars), layers, p, rootMark);
    LastEffectIsViewIff(Changesets(tars), p);
  }

  const DIR_D := TarEntry(["d"], Directory, "", OWNER, 7)
  const FILE_DF := TarEntry(["d", "f"], Regular, "x", OWNER, 7)

  /** A directory in one layer and a file in it in the next, which does not list the directory again. */
  lemma {:induction false} AttributesCanBeLost()
    ensures Unpacked([DIR_D], true).Ok? && Unpacked([FILE_DF], true).Ok?
    ensures LosesAttributes(Changesets([[DIR_D], [FILE_DF]]), ["d"])
  {
    UnpackOne(DIR_D);
    UnpackOne(FILE_DF);
    assert Parent(["d"]) == [] && Parent(["d", "f"]) == ["d"];
    OneEntry(DIR_D);
    OneEntry(FILE_DF);
    var cs := Changesets([[DIR_D], [FILE_DF]]);
    var d := ["d"];
    assert FILE_DF.path in cs[1].added && ProperPrefix(d, FILE_DF.path);
    assert Touches(cs[1], d) && LastTouch(cs, d) == Some(1);
    assert cs[..1] == [cs[0]] && [cs[0]][..0] == [];
    assert ApplyStack(cs[..1], d) == Some(ViewOf(DIR_D));
  }

  // ---------------------------------------------------------------- repeated layers

  /**
   Dropping repeated layers keeps the view at a path exactly when the topmost layer that touches the path and the
   topmost first occurrence that touches it have the same effect there.
   */
  lemma {:induction false} DroppingRepeatsKeepsViewIff(keys: seq<string>, tars: seq<seq<TarEntry>>, p: Path)
    requires |keys| == |tars|
    ensures
      var full, first := Changesets(tars), Changesets(Pick(tars, FirstIndexes(keys)));
      && (SameNode(ApplyAll(Pick(tars, FirstIndexes(keys)), p), ApplyAll(tars, p), false) <==>
          SameNode(LastEffect(first, p), LastEffect(full, p), false))
      && (NoneImplied(full, p) ==>
          (ApplyAll(Pick(tars, FirstIndexes(keys)), p) == ApplyAll(tars, p) <==>
            LastEffect(first, p) == LastEffect(full, p)))
  {
    var unique := Pick(tars, FirstIndexes(keys));
    var full, first := Changesets(tars), Changesets(unique);
    ApplyAllIsStack(tars, p);
    ApplyAllIsStack(unique, p);
    StacksAgreeByEffect(first, full, p);
    assert forall i :: 0 <= i < |first| ==> first[i] == full[FirstIndexes(keys)[i]];
  }

  /** So for the mount of the unique layers against the image with its full layer list. */
  lemma {:induction false} ImageMountShowsImageIff(
      keys: seq<string>, tars: seq<seq<TarEntry>>, layers: seq<Tree>, p: Path, rootMark: bool)
    requires |keys| == |tars| && Unpacks(Pick(tars, FirstIndexes(keys)), layers, rootMark)
    ensures Visible(Walk(Reversed(layers), p, rootMark))
    ensures SameNode(See(Walk(Reversed(layers), p, rootMark)), ApplyAll(tars, p), false) <==>
            SameNode(LastEffect(Changesets(Pick(tars, FirstIndexes(keys))), p), LastEffect(Changesets(tars), p), false)
  {
    OverlayIsChangesets(Pick(tars, FirstIndexes(keys)), layers, p, false, rootMark);
    DroppingRepeatsKeepsViewIff(keys, tars, p);
  }

  // ---------------------------------------------------------------- root marks

  /** The changeset without a mark on its root. */
  function Unmarked(c: Changeset): Changeset { c.(opaques := c.opaques - {[]}) }

  function AllUnmarked(cs: seq<Changeset>): (r: seq<Changeset>)
    ensures |r| == |cs| && forall i :: 0 <= i < |cs| ==> r[i] == Unmarked(cs[i])
  {
    seq(|cs|, i requires 0 <= i < |cs| => Unmarked(cs[i]))
  }

  /** The layer without a mark on its root. */
  function Cleared(layer: Tree): Tree requires IsDir(layer, []) {
    layer[[] := Dir(layer[[]].dirAttrs, false)]
  }

  ghost predicate HaveRoots(layers: seq<Tree>) { forall i :: 0 <= i < |layers| ==> IsDir(layers[i], []) }

  function AllCleared(layers: seq<Tree>): (r: seq<Tree>)
    requires forall i :: 0 <= i < |layers| ==> IsDir(layers[i], [])
    ensures |r| == |layers| && forall i :: 0 <= i < |layers| ==> r[i] == Cleared(layers[i])
  {
    seq(|layers|, i requires 0 <= i < |layers| => Cleared(layers[i]))
  }

  lemma {:induction false} ClearedStores(layer: Tree, c: Changeset)
    requires Stores(layer, c)
    ensures IsDir(layer, []) && Stores(Cleared(layer), Unmarked(c)) && RootReady(Cleared(layer), false)
  {
    var l, u := Cleared(layer), Unmarked(c);
    forall p, k | p in l && 0 <= k < |p| ensures IsDir(l, p[..k]) {
      assert IsDir(layer, p[..k]);
    }
    forall p | p in l ensures l[p] == OnDisk(u, p) {
      assert layer[p] == OnDisk(c, p);
      assert layer[[]] == OnDisk(c, []);
    }
    assert forall p :: Implied(u, p) <==> Implied(c, p);
    assert forall p :: Wanted(u, p) <==> Wanted(c, p);
  }

  /** Lookups below the root do not see root marks. */
  lemma {:induction false} ScanCleared(stack: seq<Tree>, p: Path)
    requires HaveRoots(stack) && p != []
    ensures var a, b := Scan(stack, p), Scan(AllCleared(stack), p);
      match a
      case Missing => b == a
      case NonDir(_) => b == a
      case Merged(top, s) => HaveRoots(s) && b == Merged(top, AllCleared(s))
  {
    if stack != [] {
      ScanCleared(stack[1..], p);
      assert AllCleared(stack)[1..] == AllCleared(stack[1..]);
      var a := Scan(stack, p);
      if a.Merged? && p in stack[0] {
        assert AllCleared(a.stack) == Scan(AllCleared(stack), p).stack;
      }
    }
  }

  /** A mount that ignores root marks finds the same as one of layers without them. */
  lemma {:induction false} WalkCleared(layers: seq<Tree>, p: Path)
    requires HaveRoots(layers)
    ensures var a, b := Walk(layers, p, false), Walk(AllCleared(layers), p, false);
      match a
      case Missing => b == a
      case NonDir(_) => b == a
      case Merged(top, s) =>
        && HaveRoots(s) && b.Merged? && b.stack == AllCleared(s)
        && (top.Dir? ==> b.top.Dir? && b.top.dirAttrs == top.dirAttrs) && (b.top.Dir? ==> top.Dir?)
    decreases |p|
  {
    if p != [] {
      WalkCleared(layers, Parent(p));
      var a := Walk(layers, Parent(p), false);
      if a.Merged? {
        ScanCleared(a.stack, p);
      }
    }
  }

  lemma {:induction false} SeenCleared(layers: seq<Tree>, p: Path)
    requires HaveRoots(layers) && Visible(Walk(AllCleared(layers), p, false))
    ensures Visible(Walk(layers, p, false)) && See(Walk(layers, p, false)) == See(Walk(AllCleared(layers), p, false))
  {
    WalkCleared(layers, p);
  }

  lemma {:induction false} ReversedCleared(layers: seq<Tree>)
    requires HaveRoots(layers)
    ensures HaveRoots(Reversed(layers)) && Reversed(AllCleared(layers)) == AllCleared(Reversed(layers))
  {}

  lemma {:induction false} AllClearedStore(cs: seq<Changeset>, layers: seq<Tree>)
    requires |cs| == |layers| && forall i :: 0 <= i < |cs| ==> Stores(layers[i], cs[i])
    ensures HaveRoots(layers) && Mountable(Reversed(AllCleared(layers)), false)
    ensures forall i :: 0 <= i < |cs| ==> Stores(AllCleared(layers)[i], AllUnmarked(cs)[i])
  {
    forall i | 0 <= i < |layers|
      ensures IsDir(layers[i], []) && Stores(Cleared(layers[i]), Unmarked(cs[i]))
      ensures RootReady(Cleared(layers[i]), false)
    {
      ClearedStores(layers[i], cs[i]);
    }
  }

  /** The same for layers that hold changesets. */
  lemma {:induction false} StackDropsRootMarks(cs: seq<Changeset>, layers: seq<Tree>, p: Path, strict: bool)
    requires |cs| == |layers| && forall i :: 0 <= i < |cs| ==> Stores(layers[i], cs[i])
    requires strict ==> NoneImplied(AllUnmarked(cs), p)
    ensures Visible(Walk(Reversed(layers), p, false))
    ensures SameNode(See(Walk(Reversed(layers), p, false)), ApplyStack(AllUnmarked(cs), p), strict)
  {
    AllClearedStore(cs, layers);
    StackShows(AllUnmarked(cs), AllCleared(layers), p, strict, false);
    ReversedCleared(layers);
    SeenCleared(Reversed(layers), p);
  }

  /** A mount that ignores marks on the layers' roots always shows the changesets with those marks dropped. */
  lemma {:induction false} MountDropsRootMarks(tars: seq<seq<TarEntry>>, layers: seq<Tree>, p: Path, strict: bool)
    requires Unpacks(tars, layers, true)
    requires strict ==> p != [] && forall i :: 0 <= i < |tars| ==> ParentsListed(tars[i])
    ensures Visible(Walk(Reversed(layers), p, false))
    ensures SameNode(See(Walk(Reversed(layers), p, false)), ApplyStack(AllUnmarked(Changesets(tars)), p), strict)
  {
    AllStore(tars, layers);
    var cs := Changesets(tars);
    if strict {
      forall i | 0 <= i < |cs| ensures Implied(AllUnmarked(cs)[i], p) ==> p in AllUnmarked(cs)[i].added {
        KeptUnmarked(cs[i], p);
        assert ParentsListed(tars[i]);
      }
    }
    StackDropsRootMarks(cs, layers, p, strict);
  }

  /** Ignoring the root mark of one layer matters exactly where nothing but the mark hides something below. */
  lemma {:induction false} RootMarkMattersIff(layer: Tree, c: Changeset, below: Found, p: Path)
    requires Stores(layer, c) && Visible(below) && p != []
    ensures IsDir(layer, []) && Visible(OnTop(Cleared(layer), p, below))
    ensures SameNode(See(OnTop(Cleared(layer), p, below)), ApplyAt(c, See(below), p), false) <==>
            !([] in c.opaques && p !in c.added && !Implied(c, p) && Kept(Unmarked(c), p) && !below.Missing?)
  {
    ClearedStores(layer, c);
    TopLayerApplies(Cleared(layer), Unmarked(c), below, See(below), p, false);
    KeptUnmarked(c, p);
  }

  lemma {:induction false} KeptUnmarked(c: Changeset, p: Path)
    requires p != []
    ensures Kept(c, p) <==> Kept(Unmarked(c), p) && [] !in c.opaques
    ensures Implied(c, p) <==> Implied(Unmarked(c), p)
  {
    assert p[..0] == [];
    assert forall k :: 0 < k <= |p| ==> p[..k] != [];
    assert forall k :: 0 <= k <= |p| ==> (AddsNonDir(c, p[..k]) <==> AddsNonDir(Unmarked(c), p[..k]));
  }

  /**
   Layer `k` marks its root, no layer from there on touches `p` but for such marks, and the mount has `p` below it.
   */
  predicate Exposes(cs: seq<Changeset>, p: Path, k: nat) {
    && k < |cs| && [] in cs[k].opaques && ApplyStack(AllUnmarked(cs[..k]), p).Some?
    && forall j :: k <= j < |cs| ==> !Touches(Unmarked(cs[j]), p)
  }

  /** A mount that ignores root marks shows the image at `p` exactly when no layer exposes something there. */
  lemma {:induction false} RootMarksMatterIff(tars: seq<seq<TarEntry>>, layers: seq<Tree>, p: Path)
    requires Unpacks(tars, layers, true) && p != []
    ensures Visible(Walk(Reversed(layers), p, false))
    ensures SameNode(See(Walk(Reversed(layers), p, false)), ApplyAll(tars, p), false) <==>
            forall k :: 0 <= k < |tars| ==> !Exposes(Changesets(tars), p, k)
  {
    MountDropsRootMarks(tars, layers, p, false);
    ApplyAllIsStack(tars, p);
    StacksAgreeIff(Changesets(tars), p);
  }

  predicate Agree(cs: seq<Changeset>, p: Path) { SameNode(ApplyStack(AllUnmarked(cs), p), ApplyStack(cs, p), false) }

  /** What the top layer does to the agreement. */
  lemma {:induction false} AgreeAtTop(cs: seq<Changeset>, p: Path)
    requires p != [] && cs != []
    ensures
      var n := |cs| - 1;
      Agree(cs, p) <==>
      if Touches(Unmarked(cs[n]), p) then true
      else if [] in cs[n].opaques then ApplyStack(AllUnmarked(cs[..n]), p).None?
      else Agree(cs[..n], p)
  {
    var n := |cs| - 1;
    assert AllUnmarked(cs)[..n] == AllUnmarked(cs[..n]);
    KeptUnmarked(cs[n], p);
  }

  lemma {:induction false} StacksAgreeIff(cs: seq<Changeset>, p: Path)
    requires p != []
    ensures Agree(cs, p) <==> forall k :: 0 <= k < |cs| ==> !Exposes(cs, p, k)
  {
    if cs != [] {
      var n := |cs| - 1;
      AgreeAtTop(cs, p);
      if Touches(Unmarked(cs[n]), p) {
      } else if [] in cs[n].opaques {
        assert Exposes(cs, p, n) <==> ApplyStack(AllUnmarked(cs[..n]), p).Some?;
        forall k | 0 <= k < n && Exposes(cs, p, k) ensures Exposes(cs, p, n) {
          UntouchedAbove(AllUnmarked(cs), p, k, n);
          assert AllUnmarked(cs)[..k] == AllUnmarked(cs[..k]) && AllUnmarked(cs)[..n] == AllUnmarked(cs[..n]);
        }
      } else {
        StacksAgreeIff(cs[..n], p);
        forall k | 0 <= k < n ensures Exposes(cs, p, k) <==> Exposes(cs[..n], p, k) {
          assert cs[..n][..k] == cs[..k];
        }
      }
    }
  }

  lemma {:induction false} UntouchedAbove(cs: seq<Changeset>, p: Path, k: nat, n: nat)
    requires k <= n <= |cs| && forall j :: k <= j < n ==> !Touches(cs[j], p)
    ensures ApplyStack(cs[..n], p) == ApplyStack(cs[..k], p)
    decreases n
  {
    if k < n {
      UntouchedAbove(cs, p, k, n - 1);
      assert cs[..n][..n - 1] == cs[..n - 1];
    }
  }
}
