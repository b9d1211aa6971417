/**
 * What the views of a selection show: a branch layer is the exact minimal
 * difference from the base, and an overlay's view is its session's checkout.
 */
module Checkouts {
  import opened Wrappers
  import opened Plans
  import opened Knowledge
  import opened Trees
  import opened Selection
  import opened Visibility
  import LayerIds

  // ----- a selection is a well-formed plan

  /** Distinct keys in canonical order, hex commits: what LiveTrees makes of a project's trees. */
  predicate Canonical(live: seq<Tree>) {
    StrictlySorted(live) && CleanCommits(live)
  }

  lemma LiveIsCanonical(trees: seq<Tree>)
    requires DistinctKeys(trees) && CleanCommits(trees)
    ensures Canonical(LiveTrees(trees))
  {
    FilterDistinct(trees, Live);
    SortedIsSorted(Filter(trees, Live));
  }

  /** A layer a plan may hold: filed under its id, its parent a layer of a lower kind, no content under a tombstone. */
  ghost predicate IsSound(p: Plan, id: LayerId)
    requires id in p.layers
  {
    var lp := p.layers[id];
    && lp.layer.id == id && ValidLayer(lp.layer)
    && (forall f :: f in lp.files && lp.files[f].deleted ==> lp.files[f] == TOMBSTONE)
    && (lp.layer.parent != "" ==>
          && lp.layer.parent in p.layers
          && Rank(p.layers[lp.layer.parent].layer.kind) < Rank(lp.layer.kind))
  }

  lemma SelectedNode(live: seq<Tree>, id: LayerId)
    requires Canonical(live) && id in SelectLive(live).layers
    ensures IsSound(SelectLive(live), id)
  {
    if HasBase(live) && id == LayerIds.BASE {
      BaseNode(live);
    } else if t :| t in live && HasBranch(t, DefaultBranch(live)) && id == BranchId(t) {
      BranchNode(live, t);
    } else {
      var t :| t in live && HasOverlay(t) && id == OverlayId(t);
      OverlayNode(live, t);
    }
  }

  lemma BaseNode(live: seq<Tree>)
    requires HasBase(live)
    ensures LayerIds.BASE in SelectLive(live).layers && IsSound(SelectLive(live), LayerIds.BASE)
  {
    BaseIdParses();
    BaseIsSelected(live);
    forall p | p in BaseFiles(BaseSrc(live)) ensures !BaseFiles(BaseSrc(live))[p].deleted {
      ResolveMeaning(BaseSrc(live), p);
    }
  }

  lemma BranchNode(live: seq<Tree>, t: Tree)
    requires Canonical(live) && t in live && HasBranch(t, DefaultBranch(live))
    ensures BranchId(t) in SelectLive(live).layers && IsSound(SelectLive(live), BranchId(t))
  {
    BaseIdParses();
    if HasBase(live) { BaseIsSelected(live); }
    BranchIsSelected(live, t);
    BranchIdParses(t);
    BranchTombstones(BaseFiles(BaseSrc(live)), BranchSources(Group(live, DefaultBranch(live), t.state.ref, PushedCommit(t))));
  }

  lemma BranchTombstones(base: map<Path, FileSource>, src: seq<Tree>)
    ensures var files := BranchFiles(base, src); forall p :: p in files && files[p].deleted ==> files[p] == TOMBSTONE
  {
    forall p | p in BranchFiles(base, src) { ResolveMeaning(src, p); }
  }

  lemma OverlayNode(live: seq<Tree>, t: Tree)
    requires Canonical(live) && t in live && HasOverlay(t)
    ensures OverlayId(t) in SelectLive(live).layers && IsSound(SelectLive(live), OverlayId(t))
  {
    OverlayIsSelected(live, t);
    OverlayIdParses(t);
    BaseIdParses();
    if OverlayParent(live, t) != "" { OverlayParentNode(live, t); }
  }

  lemma OverlayParentNode(live: seq<Tree>, t: Tree)
    requires Canonical(live) && t in live && OverlayParent(live, t) != ""
    ensures OverlayParent(live, t) in SelectLive(live).layers
    ensures Rank(SelectLive(live).layers[OverlayParent(live, t)].layer.kind) < Rank(WorktreeKind)
    ensures LayerIds.Parse(OverlayParent(live, t)).Some?
  {
    BaseIdParses();
    if HasBase(live) { BaseIsSelected(live); }
    if HasBranch(t, DefaultBranch(live)) { BranchIsSelected(live, t); }
  }

  /** Every selection is a plan batches can be made of, its layers stacked base, branch, overlay. */
  lemma SelectedIsValid(live: seq<Tree>)
    requires Canonical(live)
    ensures ValidPlan(SelectLive(live)) && Layered(SelectLive(live))
  {
    forall id | id in SelectLive(live).layers { SelectedNode(live, id); }
  }

  // ----- the views

  ghost function BaseChain(live: seq<Tree>): seq<LayerId> {
    if HasBase(live) then [LayerIds.BASE] else []
  }

  lemma WalkFromBase(live: seq<Tree>, seen: set<LayerId>)
    requires LayerIds.BASE !in seen
    ensures Walk(SelectLive(live), BaseId(live), seen) == BaseChain(live)
    ensures Grounded(SelectLive(live), BaseId(live), seen)
  {
    if HasBase(live) {
      BaseIsSelected(live);
      WalkFromBottom(SelectLive(live), LayerIds.BASE, seen);
    }
  }

  lemma WalkFromBottom(p: Plan, id: LayerId, seen: set<LayerId>)
    requires id in p.layers && id != "" && id !in seen && Parent(p, id) == ""
    ensures Walk(p, id, seen) == [id] && Grounded(p, id, seen)
  {
    assert Walk(p, "", seen + {id}) == [] && Grounded(p, "", seen + {id});
  }

  /** A branch layer's view is the branch over the base. */
  lemma BranchChain(live: seq<Tree>, t: Tree)
    requires Canonical(live) && t in live && HasBranch(t, DefaultBranch(live))
    ensures Chain(SelectLive(live), BranchId(t)) == [BranchId(t)] + BaseChain(live)
    ensures BranchId(t) != LayerIds.BASE && BranchId(t) != ""
    ensures forall seen :: LayerIds.BASE !in seen && BranchId(t) !in seen ==>
              && Walk(SelectLive(live), BranchId(t), seen) == [BranchId(t)] + BaseChain(live)
              && Grounded(SelectLive(live), BranchId(t), seen)
  {
    BranchIsSelected(live, t);
    BranchIdParses(t);
    BaseIdParses();
    var p := SelectLive(live);
    forall seen | LayerIds.BASE !in seen && BranchId(t) !in seen
      ensures Walk(p, BranchId(t), seen) == [BranchId(t)] + BaseChain(live) && Grounded(p, BranchId(t), seen)
    {
      WalkFromBase(live, seen + {BranchId(t)});
    }
    WalkFromBase(live, {BranchId(t)});
  }

  ghost function ParentChain(live: seq<Tree>, t: Tree): seq<LayerId> {
    if HasBranch(t, DefaultBranch(live)) then [BranchId(t)] + BaseChain(live) else BaseChain(live)
  }

  /** An overlay's view is the overlay over its pushed branch over the base, as far as they exist. */
  lemma OverlayChain(live: seq<Tree>, t: Tree)
    requires Canonical(live) && t in live && HasOverlay(t)
    ensures Chain(SelectLive(live), OverlayId(t)) == [OverlayId(t)] + ParentChain(live, t)
    ensures HasView(SelectLive(live), OverlayId(t))
  {
    OverlayIsSelected(live, t);
    NotBase(live, t);
    ParentWalk(live, t);
    ParentChainParses(live, t);
    ChainOver(SelectLive(live), OverlayId(t), OverlayParent(live, t), ParentChain(live, t));
  }

  lemma NotBase(live: seq<Tree>, t: Tree)
    requires Canonical(live) && t in live && HasOverlay(t)
    ensures OverlayId(t) != LayerIds.BASE && OverlayId(t) != ""
    ensures HasBranch(t, DefaultBranch(live)) ==> BranchId(t) != OverlayId(t)
  {
    OverlayIdParses(t);
    BaseIdParses();
    if HasBranch(t, DefaultBranch(live)) { BranchIdParses(t); }
  }

  lemma ParentWalk(live: seq<Tree>, t: Tree)
    requires Canonical(live) && t in live && HasOverlay(t)
    requires OverlayId(t) != LayerIds.BASE && (HasBranch(t, DefaultBranch(live)) ==> BranchId(t) != OverlayId(t))
    ensures Walk(SelectLive(live), OverlayParent(live, t), {OverlayId(t)}) == ParentChain(live, t)
    ensures Grounded(SelectLive(live), OverlayParent(live, t), {OverlayId(t)})
  {
    if HasBranch(t, DefaultBranch(live)) {
      BranchChain(live, t);
    } else {
      WalkFromBase(live, {OverlayId(t)});
    }
  }

  lemma ParentChainParses(live: seq<Tree>, t: Tree)
    ensures forall c :: c in ParentChain(live, t) ==> LayerIds.Parse(c).Some?
  {
    BaseIdParses();
  }

  /** A layer over a chain with a view has that chain below it in its own view. */
  lemma ChainOver(p: Plan, id: LayerId, parent: LayerId, below: seq<LayerId>)
    requires id in p.layers && id != "" && Parent(p, id) == parent && LayerIds.Parse(id).Some?
    requires Walk(p, parent, {id}) == below && Grounded(p, parent, {id})
    requires forall c :: c in below ==> LayerIds.Parse(c).Some?
    ensures Chain(p, id) == [id] + below && HasView(p, id)
  {
    assert {} + {id} == {id};
  }

  /** The file a chain shows at path. */
  function ShownFile(p: Plan, chain: seq<LayerId>, path: Path): Option<FileSource> {
    match Shown(p, chain, path)
    case Some(a) => if Holds(p, Key(a, path)) then Some(FileOf(p, Key(a, path))) else None
    case None => None
  }

  function Lookup(m: map<Path, FileSource>, path: Path): Option<FileSource> {
    if path in m then Some(m[path]) else None
  }

  /** A chain shows its first layer's file, and what the rest shows where that layer holds nothing. */
  lemma ShownFileStep(p: Plan, a: LayerId, rest: seq<LayerId>, path: Path)
    ensures ShownFile(p, [a] + rest, path) ==
              if Holds(p, Key(a, path))
              then if FileOf(p, Key(a, path)).deleted then None else Some(FileOf(p, Key(a, path)))
              else ShownFile(p, rest, path)
  {
    assert ([a] + rest)[1..] == rest;
    TopHolderIsFirst(p, rest, path);
  }

  lemma BaseShows(live: seq<Tree>, path: Path)
    ensures ShownFile(SelectLive(live), BaseChain(live), path) == Lookup(BaseFiles(BaseSrc(live)), path)
  {
    var p := SelectLive(live);
    if HasBase(live) {
      BaseIsSelected(live);
      assert BaseChain(live) == [LayerIds.BASE] + [];
      ShownFileStep(p, LayerIds.BASE, [], path);
      ResolveMeaning(BaseSrc(live), path);
    }
  }

  lemma BranchShows(live: seq<Tree>, t: Tree, path: Path)
    requires Canonical(live) && t in live && HasBranch(t, DefaultBranch(live))
    ensures ShownFile(SelectLive(live), [BranchId(t)] + BaseChain(live), path)
            == Lookup(Stack(BaseFiles(BaseSrc(live)), BranchFilesOf(live, t.state.ref, PushedCommit(t))), path)
  {
    BranchIsSelected(live, t);
    ShownFileStep(SelectLive(live), BranchId(t), BaseChain(live), path);
    BaseShows(live, path);
  }

  lemma OverlayShows(live: seq<Tree>, t: Tree, path: Path)
    requires Canonical(live) && t in live && HasOverlay(t)
    ensures ShownFile(SelectLive(live), Chain(SelectLive(live), OverlayId(t)), path)
            == Lookup(Stack(Below(live, t), OverlayFiles(t, Below(live, t))), path)
  {
    OverlayIsSelected(live, t);
    OverlayChain(live, t);
    ShownFileStep(SelectLive(live), OverlayId(t), ParentChain(live, t), path);
    if HasBranch(t, DefaultBranch(live)) { BranchShows(live, t, path); } else { BaseShows(live, path); }
  }

  // ----- a branch layer is the exact minimal difference

  /**
   * A path is visible in a branch's view exactly when its sources resolve it
   * present, or its pushed version is unknown and the base has it; a present
   * path shows the resolved id and an unknown one the base's file.
   */
  ghost predicate ShowsPushed(base: map<Path, FileSource>, src: seq<Tree>, path: Path, shown: Option<FileSource>) {
    var (st, f) := Resolve(Know(src, path));
    && (shown.Some? <==> st.Present? || (st.Unknown? && path in base))
    && (st.Present? ==> shown.value.oid == f.oid)
    && (st.Unknown? && path in base ==> shown.value == base[path])
  }

  /** No branch file repeats the base's id and no tombstone covers a path the base lacks. */
  ghost predicate IsMinimal(base: map<Path, FileSource>, src: seq<Tree>, files: map<Path, FileSource>, path: Path) {
    path in files ==>
      if files[path].deleted then path in base && Resolve(Know(src, path)).0.Absent?
      else path !in base || base[path].oid != files[path].oid
  }

  lemma BranchDifference(base: map<Path, FileSource>, src: seq<Tree>, path: Path)
    ensures ShowsPushed(base, src, path, Lookup(Stack(base, BranchFiles(base, src)), path))
    ensures IsMinimal(base, src, BranchFiles(base, src), path)
  {
    ResolveMeaning(src, path);
    UnknownPath(src, path);
  }

  /** A branch layer is the exact, minimal difference of its sources from the base. */
  lemma BranchIsExact(live: seq<Tree>, t: Tree, path: Path)
    requires Canonical(live) && t in live && HasBranch(t, DefaultBranch(live))
    ensures var base := BaseFiles(BaseSrc(live));
            var src := BranchSources(Group(live, DefaultBranch(live), t.state.ref, PushedCommit(t)));
            && BranchId(t) in SelectLive(live).layers
            && ShowsPushed(base, src, path, ShownFile(SelectLive(live), Chain(SelectLive(live), BranchId(t)), path))
            && IsMinimal(base, src, SelectLive(live).layers[BranchId(t)].files, path)
  {
    var src := BranchSources(Group(live, DefaultBranch(live), t.state.ref, PushedCommit(t)));
    BranchIsSelected(live, t);
    BranchChain(live, t);
    BranchShows(live, t, path);
    BranchDifference(BaseFiles(BaseSrc(live)), src, path);
  }

  // ----- an overlay's view is its checkout

  predicate CleanPushed(t: Tree, path: Path) {
    path in t.entries && !t.entries[path].dirty && !t.entries[path].unpushed
  }

  /** shown is what t's checkout has at path: its own file, or for clean pushed content the same git blob id. */
  predicate IsCheckout(t: Tree, path: Path, shown: Option<FileSource>) {
    && (shown.Some? <==> path in t.entries)
    && (path in t.entries ==>
          var e := t.entries[path];
          if CleanPushed(t, path) then shown.value.oid == e.oid
          else shown.value == FileSource(e.sha, e.oid, e.lang, e.mode, e.size, e.session, false))
  }

  /** The overlay's view is the checkout at a path exactly when a clean, pushed entry there is what lies below. */
  lemma OverlayIsExact(live: seq<Tree>, t: Tree, path: Path)
    requires Canonical(live) && t in live && HasOverlay(t)
    ensures var below := Below(live, t);
            IsCheckout(t, path, ShownFile(SelectLive(live), Chain(SelectLive(live), OverlayId(t)), path))
            <==> (CleanPushed(t, path) ==> path in below && below[path].oid == t.entries[path].oid)
  {
    OverlayShows(live, t, path);
  }

  /** The source trees of the layer an overlay sits on. */
  ghost function SourcesBelow(live: seq<Tree>, t: Tree): seq<Tree> {
    if HasBranch(t, DefaultBranch(live))
    then BranchSources(Group(live, DefaultBranch(live), t.state.ref, PushedCommit(t)))
    else BaseSrc(live)
  }

  /** Trees at one commit agree on a path's git blob id. */
  ghost predicate Agreed(src: seq<Tree>, path: Path) {
    forall u, v, o, o' :: u in src && v in src && Reports(u, path, o) && Reports(v, path, o') ==> o == o'
  }

  /**
   * Sources that agree, one of which reports what the checkout has clean and
   * pushed (the tree itself when it is a source), make the overlay's view the
   * checkout; so does a checkout with nothing clean and pushed.
   */
  lemma CheckoutReconstructed(live: seq<Tree>, t: Tree, path: Path)
    requires Canonical(live) && t in live && HasOverlay(t)
    requires CleanPushed(t, path) ==>
               && Agreed(SourcesBelow(live, t), path)
               && exists u :: u in SourcesBelow(live, t) && Reports(u, path, t.entries[path].oid)
    ensures IsCheckout(t, path, ShownFile(SelectLive(live), Chain(SelectLive(live), OverlayId(t)), path))
  {
    OverlayIsExact(live, t, path);
    if CleanPushed(t, path) {
      var src, oid := SourcesBelow(live, t), t.entries[path].oid;
      var u :| u in src && Reports(u, path, oid);
      ResolveAgreed(src, path, u, oid);
      UnknownPath(src, path);
      if HasBranch(t, DefaultBranch(live)) {
        BranchDifference(BaseFiles(BaseSrc(live)), src, path);
      }
    }
  }
}
