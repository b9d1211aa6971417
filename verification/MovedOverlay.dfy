/**
 * Where crash recovery fails: an overlay that moves from the base to a branch
 * layer already in the graph, both holding one path.
 */
module MovedOverlay {
  import opened Wrappers
  import opened Plans
  import opened Graphs
  import opened Batches
  import opened Convergence
  import opened Crashes
  import opened Attempts
  import opened Reads
  import opened Visibility
  import LayerIds

  /** The three layers, and the path the overlay and the branch both hold, edited and as pushed. */
  datatype Scene = Scene(base: LayerId, branch: LayerId, overlay: LayerId, path: Path, pushed: string, edited: string)

  ghost predicate Proper(s: Scene) {
    && s.base != "" && s.branch != "" && s.overlay != ""
    && s.base != s.branch && s.base != s.overlay && s.branch != s.overlay
    && (forall moved :: ValidPlan(Stacked(s, moved)))
  }

  function Blob(oid: string): FileSource { FileSource("", oid, "", "", 0, "", false) }

  /** An empty base, a branch layer on it, and an overlay on the branch (moved) or on the base. */
  function Stacked(s: Scene, moved: bool): Plan {
    Plan("", map[s.base := LayerPlan(BaseNode(s), map[]),
                 s.branch := LayerPlan(BranchNode(s), map[s.path := Blob(s.pushed)]),
                 s.overlay := LayerPlan(OverlayNode(s, moved), map[s.path := Blob(s.edited)])])
  }

  function BaseNode(s: Scene): Layer { Layer(s.base, BaseKind, "", "", "", "") }

  function BranchNode(s: Scene): Layer { Layer(s.branch, BranchKind, s.base, "", "", "") }

  function OverlayNode(s: Scene, moved: bool): Layer {
    Layer(s.overlay, WorktreeKind, if moved then s.branch else s.base, "", "", "")
  }

  lemma SceneExists(path: Path, pushed: string, edited: string)
    ensures Proper(Scene("base", "branch:f@c", "wt:w:f", path, pushed, edited))
  {
    var s := Scene("base", "branch:f@c", "wt:w:f", path, pushed, edited);
    BranchParses();
    OverlayParses();
    assert |s.base| == 4 && |s.branch| == 10 && |s.overlay| == 6;
    NamedIsProper(s, LayerIds.BranchName("f", "c"), LayerIds.WorktreeName("w", "f"));
  }

  lemma BranchParses()
    ensures LayerIds.Parse("branch:f@c") == Some(LayerIds.BranchName("f", "c"))
  {
    LayerIds.ParseBranch("f", "c");
    assert LayerIds.Print(LayerIds.BranchName("f", "c")) == "branch:f@c";
  }

  lemma OverlayParses()
    ensures LayerIds.Parse("wt:w:f") == Some(LayerIds.WorktreeName("w", "f"))
  {
    LayerIds.ParseWorktree("w", "f");
    assert LayerIds.Print(LayerIds.WorktreeName("w", "f")) == "wt:w:f";
  }

  lemma NamedIsProper(s: Scene, branch: LayerIds.LayerName, overlay: LayerIds.LayerName)
    requires s.base == LayerIds.BASE && |s.branch| > 4 && |s.overlay| > 4 && |s.branch| != |s.overlay|
    requires branch.BranchName? && LayerIds.Parse(s.branch) == Some(branch)
    requires overlay.WorktreeName? && LayerIds.Parse(s.overlay) == Some(overlay)
    ensures Proper(s)
  {
    assert ValidLayer(BaseNode(s)) && ValidLayer(BranchNode(s));
    forall moved ensures ValidPlan(Stacked(s, moved)) {
      assert ValidLayer(OverlayNode(s, moved));
      var p := Stacked(s, moved);
      ThreeLayers(p, s.base, s.branch, s.overlay);
    }
  }

  lemma ThreeLayers(p: Plan, a: LayerId, b: LayerId, c: LayerId)
    requires p.layers.Keys == {a, b, c}
    requires p.layers[a].layer.id == a && ValidLayer(p.layers[a].layer)
    requires p.layers[b].layer.id == b && ValidLayer(p.layers[b].layer)
    requires p.layers[c].layer.id == c && ValidLayer(p.layers[c].layer)
    requires forall id, f :: id in p.layers && f in p.layers[id].files ==> !p.layers[id].files[f].deleted
    ensures ValidPlan(p)
  {
  }

  lemma Chains(s: Scene, moved: bool)
    requires Proper(s)
    ensures var p := Stacked(s, moved);
            && Ancestors(p, s.base) == [] && Ancestors(p, s.branch) == [s.base]
            && Ancestors(p, s.overlay) == if moved then [s.branch, s.base] else [s.base]
  {
    var p := Stacked(s, moved);
    assert Parent(p, s.base) == "" && Parent(p, s.branch) == s.base;
    assert Walk(p, s.base, {s.branch}) == [s.base];
    assert Walk(p, s.base, {s.overlay}) == [s.base];
    assert Walk(p, s.base, {s.overlay} + {s.branch}) == [s.base];
    assert Walk(p, s.branch, {s.overlay}) == [s.branch] + Walk(p, s.base, {s.overlay} + {s.branch});
  }

  /** The branch's file must be hidden by the overlay once it moves, and was not before. */
  lemma BranchLists(s: Scene, moved: bool)
    requires Proper(s)
    ensures HiddenBy(Stacked(s, moved), Key(s.branch, s.path)) == if moved then {s.overlay} else {}
    ensures HiddenBy(Stacked(s, moved), Key(s.overlay, s.path)) == {}
  {
    var p := Stacked(s, moved);
    Chains(s, moved);
    assert p.layers.Keys == {s.base, s.branch, s.overlay};
    ListOf(s, p, moved);
  }

  lemma ListOf(s: Scene, p: Plan, moved: bool)
    requires p.layers.Keys == {s.base, s.branch, s.overlay} && s.base != s.branch && s.branch != s.overlay && s.base != s.overlay
    requires Ancestors(p, s.base) == [] && Ancestors(p, s.branch) == [s.base]
    requires Ancestors(p, s.overlay) == if moved then [s.branch, s.base] else [s.base]
    requires s.path in p.layers[s.overlay].files
    ensures HiddenBy(p, Key(s.branch, s.path)) == if moved then {s.overlay} else {}
    ensures HiddenBy(p, Key(s.overlay, s.path)) == {}
  {
  }

  lemma NothingChanges(s: Scene, k: Key)
    requires Proper(s)
    ensures !IsChanged(Stacked(s, false), Stacked(s, true), k)
  {
  }

  /** The move is a chain move, and it is not recoverable. */
  lemma MoveIsNotRecoverable(s: Scene, g: GraphState)
    requires Proper(s) && Settled(g, Stacked(s, false))
    ensures ChainMoved(Stacked(s, false), Stacked(s, true), s.overlay)
    ensures !Recoverable(g, Stacked(s, false), Stacked(s, true))
  {
    Chains(s, false);
    Chains(s, true);
    var prev, next, k := Stacked(s, false), Stacked(s, true), Key(s.branch, s.path);
    BranchLists(s, false);
    BranchLists(s, true);
    assert Holds(prev, k) && Holds(next, k);
    NothingChanges(s, k);
    assert Has(g, k) && At(g, k).hidden == {};
    assert !RightAfterDrops(g, prev, next, k);
    forall l ensures !IsChanged(prev, next, Key(l, k.path)) { NothingChanges(s, Key(l, k.path)); }
  }

  // ----- retries that find nothing to do

  /** h holds next, besides layers only prev has, with prev's lists but for ids of those layers. */
  ghost predicate IsStuck(prev: Plan, next: Plan, h: GraphState) {
    && next.layers.Keys <= h.Keys <= next.layers.Keys + prev.layers.Keys
    && (forall id :: id in next.layers ==> h[id].node == next.layers[id].layer)
    && (forall k: Key :: k.layer in next.layers ==> (Has(h, k) <==> Holds(next, k)))
    && (forall k :: Holds(next, k) ==> SameAs(At(h, k), FileOf(next, k)))
    && (forall k :: Holds(next, k) ==> Holds(prev, k) && HasListOf(prev, next, h, k))
  }

  predicate HasListOf(prev: Plan, next: Plan, h: GraphState, k: Key) {
    ListIn(h, k) - Dropped(prev, next) == HiddenBy(prev, k) - Dropped(prev, next)
  }

  /** The puts alone of a batch that changes no file leave such a graph. */
  lemma StuckAfterPuts(g: GraphState, prev: Plan, next: Plan, b: Batch)
    requires ValidPlan(next) && Settled(g, prev) && IsBatch(prev, next, b)
    requires forall j :: !IsChanged(prev, next, j)
    ensures IsStuck(prev, next, Run(g, b.puts))
  {
    CutAfterPuts(g, prev, next, b);
    SameFilesAreStuck(g, prev, next, Run(g, b.puts));
  }

  lemma SameFilesAreStuck(g: GraphState, prev: Plan, next: Plan, h: GraphState)
    requires Settled(g, prev) && h.Keys == g.Keys + next.layers.Keys
    requires forall j :: !IsChanged(prev, next, j)
    requires forall id :: id in next.layers ==> h[id].node == next.layers[id].layer
    requires (forall k :: Has(h, k) <==> Has(g, k)) && forall k :: Has(g, k) ==> At(h, k) == At(g, k)
    ensures IsStuck(prev, next, h)
  {
    forall k: Key | k.layer in next.layers
      ensures Holds(next, k) <==> Holds(prev, k)
      ensures Holds(next, k) ==> SameFile(FileOf(prev, k), FileOf(next, k))
    {
      assert !IsChanged(prev, next, k);
    }
  }

  /** A plan such a graph holds differs from next in layers to drop alone. */
  lemma NothingLeft(prev: Plan, next: Plan, h: GraphState, prev1: Plan)
    requires Closed(next) && IsStuck(prev, next, h) && HoldsPlan(h, prev1)
    ensures forall id :: id in next.layers ==> !InDelta(prev1, next, id)
    ensures forall k :: !IsChanged(prev1, next, k) && !Affected(prev1, next, k)
    ensures Dropped(prev1, next) <= Dropped(prev, next)
  {
    forall k ensures !IsChanged(prev1, next, k) {
      if k.layer in next.layers { assert Holds(prev1, k) <==> Has(h, k); }
    }
    forall l | l in next.layers ensures !ChainMoved(prev1, next, l) {
      WalkInLarger(next, prev1, Parent(next, l), {l});
    }
    forall id | id in next.layers ensures !InDelta(prev1, next, id) {
      assert forall f :: !IsChanged(prev1, next, Key(id, f));
      assert PutsOf(prev1, next, id) == map[];
    }
  }

  /** So an attempt only drops layers. */
  lemma OnlyDrops(prev1: Plan, next: Plan, t: Attempt)
    requires IsBatch(prev1, next, t.batch) && t.writes <= |All(t.batch)|
    requires forall id :: id in next.layers ==> !InDelta(prev1, next, id)
    requires forall k :: !IsChanged(prev1, next, k) && !Affected(prev1, next, k)
    ensures forall w :: w in Done(t) ==> w.DropLayer? && w.layer in Dropped(prev1, next)
  {
    forall w | w in Done(t) ensures w.DropLayer? && w.layer in Dropped(prev1, next) {
      var b := t.batch;
      assert w in All(b);
      assert w in b.puts || w in b.hides || w in b.files || w in b.drops;
    }
  }

  lemma DropsStayStuck(prev: Plan, next: Plan, h: GraphState, ws: seq<Write>)
    requires IsStuck(prev, next, h)
    requires forall w :: w in ws ==> w.DropLayer? && w.layer in Dropped(prev, next)
    ensures IsStuck(prev, next, Run(h, ws))
  {
    AfterDrops(h, ws);
    var h1 := Run(h, ws);
    assert DropIds(ws) <= Dropped(prev, next);
    forall k | Holds(next, k)
      ensures Has(h1, k) && SameAs(At(h1, k), FileOf(next, k)) && HasListOf(prev, next, h1, k)
    {
      assert At(h1, k) == At(h, k).(hidden := At(h, k).hidden - DropIds(ws));
      assert HasListOf(prev, next, h, k);
    }
  }

  lemma {:induction false} StaysStuck(prev: Plan, next: Plan, h: GraphState, tries: seq<Attempt>)
    requires Closed(next) && IsStuck(prev, next, h) && Attempted(h, tries)
    requires forall t :: t in tries ==> t.target == next
    ensures IsStuck(prev, next, AfterAll(h, tries))
    decreases |tries|
  {
    if tries != [] {
      var t := tries[0];
      assert t in tries;
      NothingLeft(prev, next, h, t.prev);
      OnlyDrops(t.prev, next, t);
      DropsStayStuck(prev, next, h, Done(t));
      StaysStuck(prev, next, Run(h, Done(t)), tries[1..]);
    }
  }

  /**
   * Cut after its layer puts, a batch that changes no file is lost however
   * often its target is tried again, each try cut or complete: the graph holds
   * the target's nodes and files, and each list stays as the old chains had it.
   */
  lemma NodeMovesAreLost(g: GraphState, prev: Plan, next: Plan, b: Batch, tries: seq<Attempt>, k: Key)
    requires ValidPlan(next) && Closed(next) && Settled(g, prev) && IsBatch(prev, next, b)
    requires forall j :: !IsChanged(prev, next, j)
    requires Attempted(Run(g, b.puts), tries) && (forall t :: t in tries ==> t.target == next) && Holds(next, k)
    ensures var h := AfterAll(Run(g, b.puts), tries);
            && Has(h, k) && SameAs(At(h, k), FileOf(next, k))
            && At(h, k).hidden - Dropped(prev, next) == HiddenBy(prev, k) - Dropped(prev, next)
  {
    StuckAfterPuts(g, prev, next, b);
    StaysStuck(prev, next, Run(g, b.puts), tries);
    var h := AfterAll(Run(g, b.puts), tries);
    assert Has(h, k) && HasListOf(prev, next, h, k);
  }

  /** So the overlay's view shows two files of one path, however often the move is tried again. */
  lemma MovedOverlayShowsTwoFiles(s: Scene, g: GraphState, b: Batch, tries: seq<Attempt>)
    requires Proper(s) && Settled(g, Stacked(s, false))
    requires IsBatch(Stacked(s, false), Stacked(s, true), b)
    requires Attempted(Run(g, b.puts), tries) && forall t :: t in tries ==> t.target == Stacked(s, true)
    ensures var h := AfterAll(Run(g, b.puts), tries);
            var view := Reverse(Chain(Stacked(s, true), s.overlay));
            && HoldsPlan(h, Stacked(s, true)) && !Settled(h, Stacked(s, true))
            && Visible(h, view, Key(s.branch, s.path)) && Visible(h, view, Key(s.overlay, s.path))
  {
    var prev, next := Stacked(s, false), Stacked(s, true);
    forall j ensures !IsChanged(prev, next, j) { NothingChanges(s, j); }
    OnBoth(s, Key(s.branch, s.path));
    OnBoth(s, Key(s.overlay, s.path));
    StuckAfterPuts(g, prev, next, b);
    StaysStuck(prev, next, Run(g, b.puts), tries);
    StuckShowsTwo(s, AfterAll(Run(g, b.puts), tries));
  }

  lemma StuckShowsTwo(s: Scene, h: GraphState)
    requires Proper(s) && IsStuck(Stacked(s, false), Stacked(s, true), h)
    ensures var view := Reverse(Chain(Stacked(s, true), s.overlay));
            && HoldsPlan(h, Stacked(s, true)) && !Settled(h, Stacked(s, true))
            && Visible(h, view, Key(s.branch, s.path)) && Visible(h, view, Key(s.overlay, s.path))
  {
    StuckHolds(Stacked(s, false), Stacked(s, true), h);
    Unlisted(s, h, Key(s.branch, s.path));
    Unlisted(s, h, Key(s.overlay, s.path));
    BranchLists(s, true);
    ViewHasBoth(s);
  }

  lemma StuckHolds(prev: Plan, next: Plan, h: GraphState)
    requires IsStuck(prev, next, h) && prev.layers.Keys == next.layers.Keys
    ensures HoldsPlan(h, next)
  {
  }

  lemma Unlisted(s: Scene, h: GraphState, k: Key)
    requires Proper(s) && IsStuck(Stacked(s, false), Stacked(s, true), h)
    requires k == Key(s.branch, s.path) || k == Key(s.overlay, s.path)
    ensures Has(h, k) && At(h, k).hidden == {} && !At(h, k).deleted
  {
    OnBoth(s, k);
    assert Dropped(Stacked(s, false), Stacked(s, true)) == {};
    UnlistedIn(Stacked(s, false), Stacked(s, true), h, k);
  }

  lemma UnlistedIn(prev: Plan, next: Plan, h: GraphState, k: Key)
    requires IsStuck(prev, next, h) && Dropped(prev, next) == {}
    requires Holds(next, k) && !FileOf(next, k).deleted && HiddenBy(prev, k) == {}
    ensures Has(h, k) && At(h, k).hidden == {} && !At(h, k).deleted
  {
    assert HasListOf(prev, next, h, k) && ListIn(h, k) - {} == ListIn(h, k);
  }

  lemma OnBoth(s: Scene, k: Key)
    requires Proper(s) && (k == Key(s.branch, s.path) || k == Key(s.overlay, s.path))
    ensures var next := Stacked(s, true); ValidPlan(next) && Closed(next) && Holds(next, k) && !FileOf(next, k).deleted
    ensures HiddenBy(Stacked(s, false), k) == {}
  {
    BranchLists(s, false);
  }

  lemma ViewHasBoth(s: Scene)
    requires Proper(s)
    ensures var view := Reverse(Chain(Stacked(s, true), s.overlay)); s.branch in view && s.overlay in view
  {
    Chains(s, true);
    ReverseMembers(Chain(Stacked(s, true), s.overlay));
    assert Chain(Stacked(s, true), s.overlay)[0] == s.overlay && Chain(Stacked(s, true), s.overlay)[1] == s.branch;
  }
}
