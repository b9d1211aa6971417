/**
 * When the edges of a file a batch overlooks are kept: in general from the
 * edges the graph holds; for a file shown before in the same version, and in
 * a graph that holds the edges of its plan and no others, from the two plans.
 */
module Overlooks {
  import opened Wrappers
  import opened Plans
  import opened Visibility
  import opened Edges
  import opened Inheritance
  import opened Resolving
  import opened Increments
  import opened ExactEdges
  import opened EdgeHistories

  /** The layer holds the edge from a symbol of the file, and its target stays. */
  predicate Stays(e: Engine, next: Plan, edges: set<Edge>, l: LayerId, f: SourceFile, g: Edge) {
    g in edges && g.layer == l && g.from in SymbolNodes(f) && NodeExists(e, next, g.to)
  }

  lemma StaysIs(e: Engine, next: Plan, edges: set<Edge>, l: LayerId, f: SourceFile, g: Edge)
    requires l in next.layers && FileIn(e, next, l, f.path) == Some(f)
    ensures Stays(e, next, edges, l, f, g) <==> g in EdgesAt(Surviving(e, edges, next), l, f)
  {
    ShownIsVersioned(e, next, l, f.path);
    if g.from in SymbolNodes(f) {
      var s :| s in f.facts.symbols && g.from == Node(f.layer, f.path, s.id);
      assert NodeExists(e, next, g.from);
    }
  }

  /** Edges are kept when every reference resolved the layer's own way has its edge and no other edge stays. */
  lemma KeptExact(e: Engine, next: Plan, edges: set<Edge>, l: LayerId, f: SourceFile)
    requires l in next.layers && FileIn(e, next, l, f.path) == Some(f)
    ensures IsKept(e, next, edges, Key(l, f.path)) <==>
            forall g :: Stays(e, next, edges, l, f, g) <==> Wants(e, next, l, f, g)
  {
    forall g
      ensures Stays(e, next, edges, l, f, g) <==> g in EdgesAt(Surviving(e, edges, next), l, f)
      ensures Wants(e, next, l, f, g) <==> g in EdgesOf(e, next, l, f)
    {
      StaysIs(e, next, edges, l, f, g);
      WantsIs(e, next, l, f, g);
    }
  }

  /** A lower file out of its layer's shadow is to have no edge: none may stay. */
  lemma UnmentionedExact(e: Engine, prev: Plan, next: Plan, edges: set<Edge>, l: LayerId, f: SourceFile)
    requires Lawful(e) && IsFit(e, next) && l in next.layers && FileIn(e, next, l, f.path) == Some(f)
    requires f.layer != l && !Mentions(e, f, Shadow(e, prev, next, l))
    ensures IsKept(e, next, edges, Key(l, f.path)) <==> forall g :: !Stays(e, next, edges, l, f, g)
  {
    LayeredHasView(next, l);
    SkippedHasNone(e, prev, next, l, f);
    KeptExact(e, next, edges, l, f);
    forall g ensures !Wants(e, next, l, f, g) { WantsIs(e, next, l, f, g); }
  }

  // ----- shown before in the same version

  /**
   * Where the layer moved over a file it showed in the same version, the
   * edges are kept if and only if the references that are to have an edge had
   * it to be before, and those that no longer are lost their target.
   */
  lemma MovedExact(e: Engine, prev: Plan, next: Plan, edges: set<Edge>, l: LayerId, f: SourceFile)
    requires Lawful(e) && Enclosed(e) && l in next.layers
    requires FileIn(e, prev, l, f.path) == Some(f) && FileIn(e, next, l, f.path) == Some(f)
    requires IsExact(e, prev, edges, l, f.path)
    ensures IsKept(e, next, edges, Key(l, f.path)) <==>
            forall g :: Wants(e, next, l, f, g) <==> Wants(e, prev, l, f, g) && NodeExists(e, next, g.to)
  {
    KeptExact(e, next, edges, l, f);
    forall g ensures Stays(e, next, edges, l, f, g) <==> Wants(e, prev, l, f, g) && NodeExists(e, next, g.to) {
      WantsIs(e, prev, l, f, g);
      assert g in EdgesAt(edges, l, f) <==> g in EdgesOf(e, prev, l, f);
    }
  }

  /** Out of its layer's shadow such a file has nothing to lose. */
  lemma MovedUnmentioned(e: Engine, prev: Plan, next: Plan, edges: set<Edge>, l: LayerId, f: SourceFile)
    requires Regular(e) && IsFit(e, prev) && IsFit(e, next) && l in prev.layers && l in next.layers
    requires FileIn(e, prev, l, f.path) == Some(f) && FileIn(e, next, l, f.path) == Some(f)
    requires f.layer != l && !Mentions(e, f, Shadow(e, prev, next, l)) && IsExact(e, prev, edges, l, f.path)
    ensures IsKept(e, next, edges, Key(l, f.path))
  {
    LayeredHasView(prev, l);
    LayeredHasView(next, l);
    SkippedHasNone(e, prev, next, l, f);
    ShadowOfBoth(e, prev, next, l);
    SkippedHasNone(e, next, prev, l, f);
    WantedSurvive(e, edges, next, l, f);
  }

  // ----- a graph that holds the edges of its plan and no others

  /** There a version the layer's view did not show has no edge: it is right when it is to have none. */
  lemma UnhiddenInPlan(e: Engine, prev: Plan, next: Plan, l: LayerId, f: SourceFile)
    requires Enclosed(e) && l in next.layers && FileIn(e, next, l, f.path) == Some(f)
    requires Shown(prev, Chain(prev, l), f.path) != Some(f.layer)
    ensures IsKept(e, next, EdgesOfPlan(e, prev), Key(l, f.path)) <==>
            forall ref :: ref in f.facts.refs ==> Written(e, next, l, f, ref).None?
  {
    KeptExact(e, next, EdgesOfPlan(e, prev), l, f);
    forall g ensures !Stays(e, next, EdgesOfPlan(e, prev), l, f, g) {
      NewEdgeIsOwned(e, prev, AllKeys(prev), g);
    }
    forall ref | ref in f.facts.refs && Written(e, next, l, f, ref).Some?
      ensures Wants(e, next, l, f, Written(e, next, l, f, ref).value)
    {
    }
  }

  /** And a file out of the shadow is right when no edge of the version shown before stays. */
  lemma UnmentionedInPlan(e: Engine, prev: Plan, next: Plan, l: LayerId, was: SourceFile, f: SourceFile)
    requires Regular(e) && IsFit(e, next) && l in prev.layers && l in next.layers && was.path == f.path
    requires FileIn(e, prev, l, f.path) == Some(was) && FileIn(e, next, l, f.path) == Some(f)
    requires f.layer != l && !Mentions(e, f, Shadow(e, prev, next, l))
    ensures IsKept(e, next, EdgesOfPlan(e, prev), Key(l, f.path)) <==>
            forall g :: Wants(e, prev, l, was, g) && g.from in SymbolNodes(f) ==> !NodeExists(e, next, g.to)
  {
    UnmentionedExact(e, prev, next, EdgesOfPlan(e, prev), l, f);
    ShownPath(e, prev, l, f.path);
    forall g
      ensures Stays(e, next, EdgesOfPlan(e, prev), l, f, g) <==>
              Wants(e, prev, l, was, g) && g.from in SymbolNodes(f) && NodeExists(e, next, g.to)
    {
      WantsIs(e, prev, l, was, g);
      NewEdgeIsOwned(e, prev, AllKeys(prev), g);
      if g in EdgesOf(e, prev, l, was) { EdgeIsOf(e, prev, l, f.path, g); }
    }
  }
}
