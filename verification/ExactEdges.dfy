/**
 * Exact edges: every file of every layer's view has in that layer the edges
 * its references resolve to there, and no others.  Then every reference of a
 * view has its edge, and every edge in sight stands for a reference.
 */
module ExactEdges {
  import opened Wrappers
  import opened Plans
  import opened Visibility
  import opened Edges
  import opened Inheritance
  import opened Resolving
  import opened Increments
  import LayerIds

  // ----- views of layered plans

  /** The rank of the kind an id names. */
  function RankOf(id: LayerId): nat {
    match LayerIds.Parse(id)
    case Some(BaseName) => 0
    case Some(BranchName(_, _)) => 1
    case _ => 2
  }

  lemma RankIsKind(p: Plan, id: LayerId)
    requires ValidPlan(p) && id in p.layers
    ensures RankOf(id) == Rank(p.layers[id].layer.kind) && id != "" && LayerIds.Parse(id).Some?
  {
    assert p.layers[id].layer.id == id && ValidLayer(p.layers[id].layer);
  }

  /** Going down through Parent, ranks fall; so it ends. */
  lemma {:induction false} RanksFall(p: Plan, cur: LayerId, seen: set<LayerId>)
    requires ValidPlan(p) && Layered(p) && cur in p.layers && forall c :: c in seen ==> RankOf(cur) < RankOf(c)
    ensures Grounded(p, cur, seen)
    ensures forall c :: c in Walk(p, cur, seen) ==> c in p.layers && (c == cur || RankOf(c) < RankOf(cur))
    decreases RankOf(cur)
  {
    RankIsKind(p, cur);
    var below := Parent(p, cur);
    if below != "" {
      RankIsKind(p, below);
      RanksFall(p, below, seen + {cur});
    }
  }

  /** Every layer of a layered plan has a view, over layers of lower kinds. */
  lemma LayeredHasView(p: Plan, l: LayerId)
    requires ValidPlan(p) && Layered(p) && l in p.layers
    ensures HasView(p, l) && forall c :: c in Chain(p, l) ==> c == l || RankOf(c) < RankOf(l)
  {
    RankIsKind(p, l);
    RanksFall(p, l, {});
    WalkFromSelf(p, l);
    forall c | c in Chain(p, l) ensures LayerIds.Parse(c).Some? { RankIsKind(p, c); }
  }

  lemma LayeredHasViews(p: Plan)
    requires ValidPlan(p) && Layered(p)
    ensures AllViews(p)
  {
    forall l | l in p.layers ensures HasView(p, l) { LayeredHasView(p, l); }
  }

  // ----- exact edges

  /** The edges are of the plan's layers, between definitions it has, each from its layer or one of a lower kind. */
  ghost predicate AreHeld(e: Engine, p: Plan, edges: set<Edge>) {
    forall g :: g in edges ==> IsHeld(e, p, g)
  }

  ghost predicate IsHeld(e: Engine, p: Plan, g: Edge) {
    && g.layer in p.layers && NodeExists(e, p, g.from) && NodeExists(e, p, g.to)
    && (g.from.layer == g.layer || RankOf(g.from.layer) < RankOf(g.layer))
  }

  /** So are they, and every file of every layer's view, but for some, has exactly its edges. */
  ghost predicate IsExactBut(e: Engine, p: Plan, edges: set<Edge>, but: set<Key>) {
    AreHeld(e, p, edges) && forall l, path :: l in p.layers && Key(l, path) !in but ==> IsExact(e, p, edges, l, path)
  }

  /** Each reference of a file that is kept up in the views of a chain has a visible edge to exactly its target. */
  lemma ReferenceHasEdge(e: Engine, p: Plan, edges: set<Edge>, but: set<Key>, l: LayerId, f: SourceFile, ref: Ref)
    requires Lawful(e) && UniqueIds(e) && IsExactBut(e, p, edges, but) && HasView(p, l)
    requires forall c :: c in Chain(p, l) ==> c in p.layers && Key(c, f.path) !in but
    requires FileIn(e, p, l, f.path) == Some(f) && ref in f.facts.refs && ref.enclosing != ""
    requires Resolve(e, p, l, f, ref).Some?
    ensures HasEdge(e, p, edges, l, f, ref, Resolve(e, p, l, f, ref).value)
  {
    forall c | c in Chain(p, l) && HasView(p, c) && FileIn(e, p, c, f.path).Some?
      ensures Covered(e, p, p, edges, c, FileIn(e, p, c, f.path).value)
    {
      ExactIsResolved(e, p, edges, c, f.path);
    }
    EdgesComplete(e, p, p, edges, l, f, ref);
  }

  /** Some reference of the file is to have the edge. */
  ghost predicate Wants(e: Engine, p: Plan, l: LayerId, f: SourceFile, g: Edge) {
    exists ref :: ref in f.facts.refs && Written(e, p, l, f, ref) == Some(g)
  }

  lemma WantsIs(e: Engine, p: Plan, l: LayerId, f: SourceFile, g: Edge)
    ensures Wants(e, p, l, f, g) <==> g in EdgesOf(e, p, l, f)
  {
  }

  /** An edge stands for a reference of its file that its layer's view resolves to the edge's target. */
  ghost predicate IsRight(e: Engine, p: Plan, g: Edge) {
    && FileIn(e, p, g.layer, g.from.path).Some?
    && Wants(e, p, g.layer, FileIn(e, p, g.layer, g.from.path).value, g)
  }

  /** And no other: every edge in sight is right, from a file that is kept up. */
  lemma EdgeIsRight(e: Engine, p: Plan, edges: set<Edge>, but: set<Key>, l: LayerId, g: Edge)
    requires ValidPlan(p) && Layered(p) && l in p.layers
    requires IsExactBut(e, p, edges, but) && g in edges && EdgeShown(p, l, g) && Key(g.layer, g.from.path) !in but
    ensures IsRight(e, p, g)
  {
    assert IsHeld(e, p, g);
    LayeredHasView(p, l);
    SourceIsBelow(p, l, g);
    ShownLower(p, l, g.layer, g.from.path, g.from.layer);
    var f := FileIn(e, p, g.layer, g.from.path).value;
    var s :| s in f.facts.symbols && s.id == g.from.id;
    assert Node(f.layer, f.path, s.id) in SymbolNodes(f);
    assert IsExact(e, p, edges, g.layer, g.from.path);
    assert g in EdgesAt(edges, g.layer, f);
  }

  lemma SourceIsBelow(p: Plan, l: LayerId, g: Edge)
    requires ValidPlan(p) && Layered(p) && HasView(p, l) && EdgeShown(p, l, g)
    requires g.from.layer == g.layer || RankOf(g.from.layer) < RankOf(g.layer)
    ensures g.from.layer in Chain(p, g.layer)
  {
    TopHolderIsFirst(p, Chain(p, l), g.from.path);
    if g.from.layer != g.layer {
      var i :| 0 <= i < |Chain(p, l)| && Chain(p, l)[i] == g.from.layer;
      var m :| 0 <= m < |Chain(p, l)| && Chain(p, l)[m] == g.layer;
      ChainOrder(p, l, i, m);
      ChainOrder(p, l, m, i);
      LayeredHasView(p, g.from.layer);
      assert g.layer in Ancestors(p, g.from.layer) ==> g.layer in Chain(p, g.from.layer);
    }
  }

  /** A version shown from layer a is shown in each view between. */
  lemma ShownLower(p: Plan, l: LayerId, c: LayerId, path: Path, a: LayerId)
    requires HasView(p, l) && c in Chain(p, l) && a in Chain(p, c) && Shown(p, Chain(p, l), path) == Some(a)
    ensures Shown(p, Chain(p, c), path) == Some(a)
  {
    var m := ChainFrom(p, l, c);
    NoneAbove(p, l, m, path, a);
    TopOfSuffix(p, Chain(p, l), m, path);
  }

  /** The chain of a layer of a chain is the rest of it. */
  lemma ChainFrom(p: Plan, l: LayerId, c: LayerId) returns (m: nat)
    requires HasView(p, l) && c in Chain(p, l)
    ensures m < |Chain(p, l)| && Chain(p, l)[m..] == Chain(p, c)
  {
    m :| 0 <= m < |Chain(p, l)| && Chain(p, l)[m] == c;
    WalkFromSelf(p, l);
    WalkSuffix(p, l, {}, m);
  }

  lemma NoneAbove(p: Plan, l: LayerId, m: nat, path: Path, a: LayerId)
    requires HasView(p, l) && m < |Chain(p, l)| && a in Chain(p, l)[m..] && Shown(p, Chain(p, l), path) == Some(a)
    ensures forall j :: 0 <= j < m ==> !Holds(p, Key(Chain(p, l)[j], path))
  {
    var chain := Chain(p, l);
    TopHolderIsFirst(p, chain, path);
    var j :| 0 <= j < |chain[m..]| && chain[m..][j] == a;
    assert chain[m + j] == a;
    forall i | 0 <= i < |chain| && chain[i] == a ensures i == m + j { ChainOrder(p, l, i, m + j); }
  }

  lemma {:induction false} TopOfSuffix(p: Plan, chain: seq<LayerId>, m: nat, path: Path)
    requires m <= |chain| && forall j :: 0 <= j < m ==> !Holds(p, Key(chain[j], path))
    ensures TopHolder(p, chain[m..], path) == TopHolder(p, chain, path)
  {
    if m > 0 {
      TopOfSuffix(p, chain[1..], m - 1, path);
      assert chain[1..][m - 1..] == chain[m..];
    } else {
      assert chain[0..] == chain;
    }
  }

  function AllKeys(p: Plan): set<Key> { set l, path | l in p.layers && path in AllPaths(p) :: Key(l, path) }

  /** The edges a plan's views resolve to, and no others. */
  function EdgesOfPlan(e: Engine, p: Plan): set<Edge> { EdgesOfAll(e, p, AllKeys(p)) }

  lemma PlanIsHeld(e: Engine, p: Plan, done: set<Key>)
    requires Lawful(e) && Enclosed(e) && ValidPlan(p) && Layered(p) && forall k :: k in done ==> k.layer in p.layers
    ensures AreHeld(e, p, EdgesOfAll(e, p, done))
  {
    forall g | g in EdgesOfAll(e, p, done) ensures IsHeld(e, p, g) {
      NewEdgeIsOwned(e, p, done, g);
      EdgeExists(e, p, g.layer, FileIn(e, p, g.layer, g.from.path).value, g);
      LayeredHasView(p, g.layer);
      TopHolderIsFirst(p, Chain(p, g.layer), g.from.path);
    }
  }

  lemma PlanIsExact(e: Engine, p: Plan)
    requires Lawful(e) && Enclosed(e) && ValidPlan(p) && Layered(p)
    ensures IsExactBut(e, p, EdgesOfPlan(e, p), {})
  {
    var edges := EdgesOfPlan(e, p);
    PlanIsHeld(e, p, AllKeys(p));
    assert AfterResolving(e, p, {}, AllKeys(p)) == edges;
    forall l, path | l in p.layers ensures IsExact(e, p, edges, l, path) {
      if FileIn(e, p, l, path).Some? {
        ShownPath(e, p, l, path);
        DoneIsExact(e, p, {}, AllKeys(p), l, path);
      }
    }
  }
}
