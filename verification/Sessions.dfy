/**
 * What a session reads: from any history of batches, through the flat filter
 * of its overlay's view, to the files of its checkout.
 */
module Sessions {
  import opened Wrappers
  import opened Plans
  import opened Graphs
  import opened Batches
  import opened Visibility
  import opened Knowledge
  import opened Trees
  import opened Selection
  import opened Checkouts
  import opened Reads
  import opened Idle
  import Applier

  /** Through the view, path is f's content, in one file of the graph; or no file of the graph at all. */
  ghost predicate ReadsAs(g: GraphState, view: seq<LayerId>, path: Path, f: Option<FileSource>) {
    match f
    case None => forall a :: !Visible(g, view, Key(a, path))
    case Some(file) => exists a :: ReadsFrom(g, view, path, file, a)
  }

  ghost predicate ReadsFrom(g: GraphState, view: seq<LayerId>, path: Path, file: FileSource, a: LayerId) {
    && Visible(g, view, Key(a, path)) && SameAs(At(g, Key(a, path)), file)
    && forall b :: Visible(g, view, Key(b, path)) ==> b == a
  }

  /** A settled graph reads as the stack of its plan. */
  lemma SettledReadsStack(g: GraphState, p: Plan, id: LayerId, path: Path)
    requires Settled(g, p) && HasView(p, id)
    ensures ReadsAs(g, Reverse(Chain(p, id)), path, ShownFile(p, Chain(p, id), path))
  {
    var view, shown := Reverse(Chain(p, id)), Shown(p, Chain(p, id), path);
    forall a | Has(g, Key(a, path)) ensures Visible(g, view, Key(a, path)) <==> shown == Some(a) {
      GraphShowsStack(g, p, id, Key(a, path));
    }
    if shown.Some? {
      assert Has(g, Key(shown.value, path));
      assert ReadsFrom(g, view, path, FileOf(p, Key(shown.value, path)), shown.value);
    }
  }

  /** What is read has one content. */
  lemma ReadsOnce(g: GraphState, view: seq<LayerId>, path: Path, f: Option<FileSource>, f': Option<FileSource>)
    requires ReadsAs(g, view, path, f) && ReadsAs(g, view, path, f')
    ensures f.Some? <==> f'.Some?
    ensures f.Some? ==> SameFile(f.value, f'.value)
  {
    ReadsSomething(g, view, path, f);
    ReadsSomething(g, view, path, f');
    if f.Some? {
      var a :| ReadsFrom(g, view, path, f.value, a);
      var b :| ReadsFrom(g, view, path, f'.value, b);
    }
  }

  lemma ReadsSomething(g: GraphState, view: seq<LayerId>, path: Path, f: Option<FileSource>)
    requires ReadsAs(g, view, path, f)
    ensures f.Some? <==> exists a :: Visible(g, view, Key(a, path))
  {
  }

  /** A session reads its checkout at a path. */
  ghost predicate ReadsCheckout(g: GraphState, p: Plan, t: Tree, path: Path) {
    exists shown :: IsCheckout(t, path, shown) && ReadsAs(g, Reverse(Chain(p, OverlayId(t))), path, shown)
  }

  /** q is the selection of some trees, but for overlays without files, and holds t's overlay. */
  ghost predicate IsTarget(trees: seq<Tree>, t: Tree, q: Plan) {
    LacksEmptyOverlays(Selected(trees), q) && OverlayId(t) in q.layers
  }

  /** What the overlay shows does not depend on the overlays left out. */
  lemma TargetShows(trees: seq<Tree>, t: Tree, q: Plan, path: Path)
    requires DistinctKeys(trees) && CleanCommits(trees) && t in LiveTrees(trees) && HasOverlay(t) && IsTarget(trees, t, q)
    ensures HasView(q, OverlayId(t))
    ensures ShownFile(q, Chain(q, OverlayId(t)), path)
            == ShownFile(Selected(trees), Chain(Selected(trees), OverlayId(t)), path)
  {
    var live := LiveTrees(trees);
    LiveIsCanonical(trees);
    SelectedIsValid(live);
    OverlayChain(live, t);
    OtherLayersStay(Selected(trees), q);
    ViewStays(Selected(trees), q, OverlayId(t));
  }

  /**
   * After any history of batches that ends on the selection of some trees,
   * overlays without files left out or not, a session reads its checkout at a
   * path exactly when a clean, pushed entry there is what the selection has
   * below the overlay.
   */
  lemma SessionReadsExact(g: GraphState, start: Plan, steps: seq<(Plan, Batch)>, trees: seq<Tree>, t: Tree, q: Plan, path: Path)
    requires Settled(g, start) && Applier.Chained(start, steps) && steps != []
    requires DistinctKeys(trees) && CleanCommits(trees) && steps[|steps| - 1].0 == q
    requires t in LiveTrees(trees) && HasOverlay(t) && IsTarget(trees, t, q)
    ensures var below := Below(LiveTrees(trees), t);
            ReadsCheckout(Applier.RunChain(g, steps), q, t, path)
            <==> (CleanPushed(t, path) ==> path in below && below[path].oid == t.entries[path].oid)
  {
    var h := Applier.RunChain(g, steps);
    LiveIsCanonical(trees);
    Applier.HistorySettles(g, start, steps);
    TargetShows(trees, t, q, path);
    var shown := ShownFile(q, Chain(q, OverlayId(t)), path);
    SettledReadsStack(h, q, OverlayId(t), path);
    OverlayIsExact(LiveTrees(trees), t, path);
    if ReadsCheckout(h, q, t, path) && CleanPushed(t, path) {
      var f :| IsCheckout(t, path, f) && ReadsAs(h, Reverse(Chain(q, OverlayId(t))), path, f);
      ReadsOnce(h, Reverse(Chain(q, OverlayId(t))), path, f, shown);
      assert IsCheckout(t, path, shown);
    }
  }

  /**
   * So with sources that agree, one of which reports what the checkout has
   * clean and pushed, a session reads exactly its checkout, whatever was
   * written before.
   */
  lemma SessionReadsCheckout(g: GraphState, start: Plan, steps: seq<(Plan, Batch)>, trees: seq<Tree>, t: Tree, q: Plan, path: Path)
    requires Settled(g, start) && Applier.Chained(start, steps) && steps != []
    requires DistinctKeys(trees) && CleanCommits(trees) && steps[|steps| - 1].0 == q
    requires t in LiveTrees(trees) && HasOverlay(t) && IsTarget(trees, t, q)
    requires CleanPushed(t, path) ==>
               && Agreed(SourcesBelow(LiveTrees(trees), t), path)
               && exists u :: u in SourcesBelow(LiveTrees(trees), t) && Reports(u, path, t.entries[path].oid)
    ensures ReadsCheckout(Applier.RunChain(g, steps), q, t, path)
  {
    LiveIsCanonical(trees);
    CheckoutReconstructed(LiveTrees(trees), t, path);
    OverlayIsExact(LiveTrees(trees), t, path);
    SessionReadsExact(g, start, steps, trees, t, q, path);
  }
}
