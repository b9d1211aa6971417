/** Resolution runs (Resolve in codeindex/resolve.go) over the edges of a graph. */
module Resolving {
  import opened Wrappers
  import opened Plans
  import opened Visibility
  import opened Edges
  import opened Inheritance

  /** A file resolves to edges only when it has definitions; a reference's enclosing definition is one of them. */
  ghost predicate Enclosed(e: Engine) {
    forall path, src, ref ::
      (e.facts(path, src).Some? && ref in e.facts(path, src).value.refs && ref.enclosing != "") ==>
        exists s :: s in e.facts(path, src).value.symbols && s.id == ref.enclosing
  }

  // ----- what resolving files does to the edges

  /** The edges a layer holds from a file's symbols. */
  function EdgesAt(edges: set<Edge>, l: LayerId, f: SourceFile): set<Edge> {
    set g | g in edges && g.layer == l && g.from in SymbolNodes(f)
  }

  /** The edge is one a file of done holds in its layer. */
  predicate IsOwned(e: Engine, p: Plan, done: set<Key>, g: Edge) {
    && Key(g.layer, g.from.path) in done
    && FileIn(e, p, g.layer, g.from.path).Some?
    && g.from in SymbolNodes(FileIn(e, p, g.layer, g.from.path).value)
  }

  function EdgesOfAll(e: Engine, p: Plan, done: set<Key>): set<Edge> {
    set k, g | k in done && FileIn(e, p, k.layer, k.path).Some?
               && g in EdgesOf(e, p, k.layer, FileIn(e, p, k.layer, k.path).value) :: g
  }

  /** The edges once the files of done are resolved, each in its layer's view: theirs replaced, the others as they were. */
  function AfterResolving(e: Engine, p: Plan, edges: set<Edge>, done: set<Key>): set<Edge> {
    (set g | g in edges && !IsOwned(e, p, done, g)) + EdgesOfAll(e, p, done)
  }

  /** An edge names the layer and the file it is held for. */
  lemma EdgeIsOf(e: Engine, p: Plan, l: LayerId, path: Path, g: Edge)
    requires Enclosed(e) && FileIn(e, p, l, path).Some? && g in EdgesOf(e, p, l, FileIn(e, p, l, path).value)
    ensures g.layer == l && g.from.path == path && g.from in SymbolNodes(FileIn(e, p, l, path).value)
  {
    var f := FileIn(e, p, l, path).value;
    var ref :| ref in f.facts.refs && Written(e, p, l, f, ref) == Some(g);
    assert e.facts(path, FileOf(p, Key(f.layer, path))) == Some(f.facts);
    var s :| s in f.facts.symbols && s.id == ref.enclosing;
    assert Node(f.layer, path, s.id) in SymbolNodes(f);
  }

  lemma NewEdgeIsOwned(e: Engine, p: Plan, done: set<Key>, g: Edge)
    requires Enclosed(e)
    ensures g in EdgesOfAll(e, p, done) ==> IsOwned(e, p, done, g)
    ensures g in EdgesOfAll(e, p, done) <==>
              && Key(g.layer, g.from.path) in done && FileIn(e, p, g.layer, g.from.path).Some?
              && g in EdgesOf(e, p, g.layer, FileIn(e, p, g.layer, g.from.path).value)
  {
    if g in EdgesOfAll(e, p, done) {
      var k :| k in done && FileIn(e, p, k.layer, k.path).Some?
        && g in EdgesOf(e, p, k.layer, FileIn(e, p, k.layer, k.path).value);
      EdgeIsOf(e, p, k.layer, k.path, g);
      assert k == Key(g.layer, g.from.path);
    }
  }

  /** Membership, edge by edge. */
  lemma AfterResolvingIs(e: Engine, p: Plan, edges: set<Edge>, done: set<Key>, g: Edge)
    requires Enclosed(e)
    ensures g in AfterResolving(e, p, edges, done) <==>
              if IsOwned(e, p, done, g) then g in EdgesOf(e, p, g.layer, FileIn(e, p, g.layer, g.from.path).value)
              else g in edges
  {
    NewEdgeIsOwned(e, p, done, g);
  }

  /** Resolving some files and then others is resolving them all. */
  lemma ResolvingTwice(e: Engine, p: Plan, edges: set<Edge>, done: set<Key>, more: set<Key>)
    requires Enclosed(e)
    ensures AfterResolving(e, p, AfterResolving(e, p, edges, done), more) == AfterResolving(e, p, edges, done + more)
  {
    var mid := AfterResolving(e, p, edges, done);
    forall g ensures g in AfterResolving(e, p, mid, more) <==> g in AfterResolving(e, p, edges, done + more) {
      AfterResolvingIs(e, p, mid, more, g);
      AfterResolvingIs(e, p, edges, done, g);
      AfterResolvingIs(e, p, edges, done + more, g);
    }
  }

  lemma ResolvingNone(e: Engine, p: Plan, edges: set<Edge>)
    ensures AfterResolving(e, p, edges, {}) == edges
  {
    assert EdgesOfAll(e, p, {}) == {};
  }

  /** In a layer's view the file at path has the edges it resolves to. */
  ghost predicate Resolved(e: Engine, p: Plan, edges: set<Edge>, l: LayerId, path: Path) {
    FileIn(e, p, l, path).Some? ==> EdgesOf(e, p, l, FileIn(e, p, l, path).value) <= edges
  }

  /** And the layer holds no other edge from its symbols. */
  ghost predicate IsExact(e: Engine, p: Plan, edges: set<Edge>, l: LayerId, path: Path) {
    FileIn(e, p, l, path).Some? ==>
      var f := FileIn(e, p, l, path).value; EdgesAt(edges, l, f) == EdgesOf(e, p, l, f)
  }

  lemma ExactIsResolved(e: Engine, p: Plan, edges: set<Edge>, l: LayerId, path: Path)
    requires IsExact(e, p, edges, l, path)
    ensures Resolved(e, p, edges, l, path)
  {
  }

  /** What is resolved is exact. */
  lemma DoneIsExact(e: Engine, p: Plan, edges: set<Edge>, done: set<Key>, l: LayerId, path: Path)
    requires Enclosed(e) && Key(l, path) in done
    ensures IsExact(e, p, AfterResolving(e, p, edges, done), l, path)
  {
    if FileIn(e, p, l, path).Some? {
      var f := FileIn(e, p, l, path).value;
      var after := AfterResolving(e, p, edges, done);
      forall g ensures g in EdgesAt(after, l, f) <==> g in EdgesOf(e, p, l, f) {
        AfterResolvingIs(e, p, edges, done, g);
        if g in EdgesOf(e, p, l, f) { EdgeIsOf(e, p, l, path, g); }
      }
    }
  }

  /** What is not has the edges it had. */
  lemma OthersStay(e: Engine, p: Plan, edges: set<Edge>, done: set<Key>, l: LayerId, path: Path)
    requires Enclosed(e) && Key(l, path) !in done && FileIn(e, p, l, path).Some?
    ensures var f := FileIn(e, p, l, path).value; EdgesAt(AfterResolving(e, p, edges, done), l, f) == EdgesAt(edges, l, f)
    ensures Resolved(e, p, AfterResolving(e, p, edges, done), l, path) <==> Resolved(e, p, edges, l, path)
    ensures IsExact(e, p, AfterResolving(e, p, edges, done), l, path) <==> IsExact(e, p, edges, l, path)
  {
    var f := FileIn(e, p, l, path).value;
    var after := AfterResolving(e, p, edges, done);
    forall g: Edge | g.layer == l && g.from in SymbolNodes(f) ensures g in after <==> g in edges {
      AfterResolvingIs(e, p, edges, done, g);
    }
    forall g | g in EdgesOf(e, p, l, f) ensures g.layer == l && g.from in SymbolNodes(f) {
      EdgeIsOf(e, p, l, path, g);
    }
  }

  // ----- resolving them

  method ResolvePath(store: EdgeStore, e: Engine, p: Plan, l: LayerId, path: Path)
    requires Enclosed(e)
    modifies store
    ensures store.edges == AfterResolving(e, p, old(store.edges), {Key(l, path)})
  {
    ghost var before := store.edges;
    var f := FileIn(e, p, l, path);
    if f.None? {
      assert EdgesOfAll(e, p, {Key(l, path)}) == {};
      assert AfterResolving(e, p, before, {Key(l, path)}) == before;
      return;
    }
    ResolveFile(store, e, p, l, f.value);
    OneResolved(e, p, before, store.edges, l, path, f.value);
  }

  lemma OneResolved(e: Engine, p: Plan, before: set<Edge>, after: set<Edge>, l: LayerId, path: Path, f: SourceFile)
    requires Enclosed(e) && FileIn(e, p, l, path) == Some(f)
    requires after == Without(before, l, SymbolNodes(f)) + (if f.facts.symbols == {} then {} else EdgesOf(e, p, l, f))
    ensures after == AfterResolving(e, p, before, {Key(l, path)})
  {
    forall g ensures g in after <==> g in AfterResolving(e, p, before, {Key(l, path)}) {
      AfterResolvingIs(e, p, before, {Key(l, path)}, g);
      if g in EdgesOf(e, p, l, f) { EdgeIsOf(e, p, l, path, g); }
    }
  }

  function RefCount(e: Engine, p: Plan, l: LayerId, path: Path): nat {
    match FileIn(e, p, l, path)
    case Some(f) => |f.facts.refs|
    case None => 0
  }

  /** The references of some files, in all. */
  function RefsOf(e: Engine, p: Plan, l: LayerId, order: seq<Path>): nat {
    if order == [] then 0 else RefCount(e, p, l, order[0]) + RefsOf(e, p, l, order[1..])
  }

  /** How many files of order a budget takes: the first whatever it costs, then those that fit in what is left. */
  function Fit(e: Engine, p: Plan, l: LayerId, order: seq<Path>, budget: int, first: bool): (n: nat)
    ensures n <= |order| && (first && order != [] ==> n > 0)
  {
    if order == [] || (!first && RefCount(e, p, l, order[0]) > budget) then 0
    else 1 + Fit(e, p, l, order[1..], budget - RefCount(e, p, l, order[0]), false)
  }

  /** All of them fit when their references together do. */
  lemma {:induction false} AllFit(e: Engine, p: Plan, l: LayerId, order: seq<Path>, budget: int, first: bool)
    requires RefsOf(e, p, l, order) <= budget
    ensures Fit(e, p, l, order, budget, first) == |order|
  {
    if order != [] { AllFit(e, p, l, order[1..], budget - RefCount(e, p, l, order[0]), false); }
  }

  /** The references of some files, one file after the other. */
  function AllRefs(e: Engine, p: Plan, l: LayerId, order: seq<Path>): seq<Ref> {
    if order == [] then []
    else
      (match FileIn(e, p, l, order[0])
       case Some(f) => f.facts.refs
       case None => []) + AllRefs(e, p, l, order[1..])
  }

  lemma {:induction false} RefsCounted(e: Engine, p: Plan, l: LayerId, order: seq<Path>)
    ensures RefsOf(e, p, l, order) == |AllRefs(e, p, l, order)|
  {
    if order != [] { RefsCounted(e, p, l, order[1..]); }
  }

  lemma {:induction false} FitFrom(e: Engine, p: Plan, l: LayerId, order: seq<Path>, budget: int, first: bool)
    ensures var n := Fit(e, p, l, order, budget, first);
            && (forall i :: (if first then 1 else 0) < i <= n ==> RefsOf(e, p, l, order[..i]) <= budget)
            && (n < |order| ==> RefsOf(e, p, l, order[..n + 1]) > budget)
  {
    var n := Fit(e, p, l, order, budget, first);
    if n > 0 {
      FitFrom(e, p, l, order[1..], budget - RefCount(e, p, l, order[0]), false);
      forall i | 0 < i <= |order|
        ensures RefsOf(e, p, l, order[..i]) == RefCount(e, p, l, order[0]) + RefsOf(e, p, l, order[1..][..i - 1])
      {
        assert order[..i][1..] == order[1..][..i - 1];
      }
      if first && n > 1 { assert RefsOf(e, p, l, order[1..][..0]) == 0; }
    } else if order != [] {
      assert order[..1][1..] == [];
    }
  }

  /** As many files fit as have no more references in all than the budget, and the first in any case. */
  lemma FitExact(e: Engine, p: Plan, l: LayerId, order: seq<Path>, budget: int)
    ensures var n := Fit(e, p, l, order, budget, true);
            && (order == [] <==> n == 0)
            && (forall i :: 1 < i <= n ==> |AllRefs(e, p, l, order[..i])| <= budget)
            && (n < |order| ==> |AllRefs(e, p, l, order[..n + 1])| > budget)
  {
    FitFrom(e, p, l, order, budget, true);
    forall i | 0 <= i <= |order| ensures RefsOf(e, p, l, order[..i]) == |AllRefs(e, p, l, order[..i])| {
      RefsCounted(e, p, l, order[..i]);
    }
  }

  function KeysAt(l: LayerId, paths: seq<Path>): set<Key> { set p | p in paths :: Key(l, p) }

  /**
   * Dependents within a budget of references: as many as fit are resolved, at
   * least one, and the rest are carried to the next batch, so carried work
   * drains.
   */
  method ResolveWithin(store: EdgeStore, e: Engine, p: Plan, l: LayerId, order: seq<Path>, budget0: int)
    returns (leftover: seq<Path>, budget: int)
    requires Enclosed(e)
    modifies store
    ensures var n := Fit(e, p, l, order, budget0, true);
            && leftover == order[n..] && budget == budget0 - RefsOf(e, p, l, order[..n])
            && store.edges == AfterResolving(e, p, old(store.edges), KeysAt(l, order[..n]))
  {
    budget := budget0;
    ghost var n := Fit(e, p, l, order, budget0, true);
    ResolvingNone(e, p, store.edges);
    for i := 0 to |order|
      invariant i <= n && i + Fit(e, p, l, order[i..], budget, i == 0) == n
      invariant budget == budget0 - RefsOf(e, p, l, order[..i])
      invariant store.edges == AfterResolving(e, p, old(store.edges), KeysAt(l, order[..i]))
    {
      var refs := RefCount(e, p, l, order[i]);
      if i > 0 && refs > budget { return order[i..], budget; }
      ResolvePath(store, e, p, l, order[i]);
      ResolvingTwice(e, p, old(store.edges), KeysAt(l, order[..i]), {Key(l, order[i])});
      OneMorePath(e, p, l, order, i);
      budget := budget - refs;
    }
    leftover := [];
  }

  lemma OneMorePath(e: Engine, p: Plan, l: LayerId, order: seq<Path>, i: nat)
    requires i < |order|
    ensures KeysAt(l, order[..i + 1]) == KeysAt(l, order[..i]) + {Key(l, order[i])}
    ensures RefsOf(e, p, l, order[..i + 1]) == RefsOf(e, p, l, order[..i]) + RefCount(e, p, l, order[i])
    ensures order[i..][0] == order[i] && order[i..][1..] == order[i + 1..]
  {
    assert order[..i + 1] == order[..i] + [order[i]];
    RefsOfMore(e, p, l, order[..i], order[i]);
  }

  lemma {:induction false} RefsOfMore(e: Engine, p: Plan, l: LayerId, order: seq<Path>, path: Path)
    ensures RefsOf(e, p, l, order + [path]) == RefsOf(e, p, l, order) + RefCount(e, p, l, path)
  {
    if order != [] {
      RefsOfMore(e, p, l, order[1..], path);
      assert (order + [path])[1..] == order[1..] + [path];
    } else {
      assert [path][1..] == [];
    }
  }

  /** The lower files a layer skips have one scope in its view and in the view below. */
  ghost predicate StableScopes(e: Engine, p: Plan) {
    forall l, path :: HasView(p, l) && FileIn(e, p, l, path).Some? && FileIn(e, p, l, path).value.layer != l && Below(p, l).Some? ==>
      SameScope(e, p, l, Below(p, l).value, FileIn(e, p, l, path).value)
  }

  /** The files of a layer's view resolved when it is resolved from nothing. */
  function NeededKeys(e: Engine, prev: Plan, p: Plan, l: LayerId): set<Key> {
    set path | path in AllPaths(p) && Needed(e, p, l, path, Shadow(e, prev, p, l)) :: Key(l, path)
  }

  /** A layer's own files and the lower ones that mention a name of its shadow, resolved; the others skipped. */
  method ResolveLayer(store: EdgeStore, e: Engine, prev: Plan, p: Plan, l: LayerId)
    requires Lawful(e) && Enclosed(e) && StableScopes(e, p)
    modifies store
    ensures store.edges == AfterResolving(e, p, old(store.edges), NeededKeys(e, prev, p, l))
    ensures forall path :: HasView(p, l) && FileIn(e, p, l, path).Some? ==>
              Covered(e, prev, p, store.edges, l, FileIn(e, p, l, path).value)
  {
    var names := Shadow(e, prev, p, l);
    var all := AllPaths(p);
    var todo := all;
    ghost var done: set<Key> := {};
    ResolvingNone(e, p, store.edges);
    while todo != {}
      invariant todo <= all && store.edges == AfterResolving(e, p, old(store.edges), done)
      invariant done == set path | path in all && path !in todo && Needed(e, p, l, path, names) :: Key(l, path)
      decreases todo
    {
      var path :| path in todo;
      if Needed(e, p, l, path, names) {
        ResolvePath(store, e, p, l, path);
        ResolvingTwice(e, p, old(store.edges), done, {Key(l, path)});
        done := done + {Key(l, path)};
      }
      todo := todo - {path};
    }
    assert done == NeededKeys(e, prev, p, l);
    forall path | HasView(p, l) && FileIn(e, p, l, path).Some?
      ensures Covered(e, prev, p, store.edges, l, FileIn(e, p, l, path).value)
    {
      if Key(l, path) in done { DoneIsExact(e, p, old(store.edges), done, l, path); }
      NeededOrSkipped(e, prev, p, l, path, store.edges);
    }
  }

  /** A file resolved in a layer: its own, or one that mentions a name of its shadow. */
  predicate Needed(e: Engine, p: Plan, l: LayerId, path: Path, names: set<string>) {
    match FileIn(e, p, l, path)
    case None => false
    case Some(f) => f.layer == l || Mentions(e, f, names)
  }

  lemma NeededOrSkipped(e: Engine, prev: Plan, p: Plan, l: LayerId, path: Path, edges: set<Edge>)
    requires StableScopes(e, p) && HasView(p, l) && FileIn(e, p, l, path).Some?
    requires path in AllPaths(p) && Needed(e, p, l, path, Shadow(e, prev, p, l)) ==> Resolved(e, p, edges, l, path)
    ensures Covered(e, prev, p, edges, l, FileIn(e, p, l, path).value)
  {
    var f := FileIn(e, p, l, path).value;
    assert Holds(p, Key(f.layer, path));
    assert path in AllPaths(p);
    if f.layer != l { ShownFromBelow(p, l, path, f.layer); }
  }

  /** A whole run over every layer leaves every reference of every view with its edge. */
  method ResolveAll(store: EdgeStore, e: Engine, prev: Plan, p: Plan)
    requires Lawful(e) && UniqueIds(e) && Enclosed(e) && StableScopes(e, p)
    modifies store
    ensures AllCovered(e, prev, p, store.edges)
    ensures forall l, path, ref ::
              (HasView(p, l) && FileIn(e, p, l, path).Some? && ref in FileIn(e, p, l, path).value.facts.refs
               && ref.enclosing != "" && Resolve(e, p, l, FileIn(e, p, l, path).value, ref).Some?) ==>
                HasEdge(e, p, store.edges, l, FileIn(e, p, l, path).value, ref,
                        Resolve(e, p, l, FileIn(e, p, l, path).value, ref).value)
  {
    var todo := p.layers.Keys;
    while todo != {}
      invariant todo <= p.layers.Keys
      invariant forall l, path :: l in p.layers.Keys - todo && HasView(p, l) && FileIn(e, p, l, path).Some? ==>
                  Covered(e, prev, p, store.edges, l, FileIn(e, p, l, path).value)
      decreases todo
    {
      var l :| l in todo;
      ghost var before := store.edges;
      ResolveLayer(store, e, prev, p, l);
      forall k, path | k in p.layers.Keys - todo && HasView(p, k) && FileIn(e, p, k, path).Some?
        ensures Covered(e, prev, p, store.edges, k, FileIn(e, p, k, path).value)
      {
        OthersStay(e, p, before, NeededKeys(e, prev, p, l), k, path);
      }
      todo := todo - {l};
    }
    forall l, path, ref |
      && HasView(p, l) && FileIn(e, p, l, path).Some? && ref in FileIn(e, p, l, path).value.facts.refs
      && ref.enclosing != "" && Resolve(e, p, l, FileIn(e, p, l, path).value, ref).Some?
      ensures HasEdge(e, p, store.edges, l, FileIn(e, p, l, path).value, ref,
                      Resolve(e, p, l, FileIn(e, p, l, path).value, ref).value)
    {
      EdgesComplete(e, prev, p, store.edges, l, FileIn(e, p, l, path).value, ref);
    }
  }
}
