/**
 * Batches of resolution (Resolve in codeindex/resolve.go): each layer's
 * changed files completely, its dependents within a budget of references, the
 * rest carried in memory to the next batch; and any sequence of them.
 */
module Resolutions {
  import opened Orders
  import opened Plans
  import opened Edges
  import opened Resolving
  import opened Increments

  // ----- paths in order

  ghost predicate IsSorted(order: seq<Path>) {
    forall i, j :: 0 <= i < j < |order| ==> StrLess(order[i], order[j])
  }

  ghost predicate ListsAll(order: seq<Path>, paths: set<Path>) {
    (forall p :: p in order <==> p in paths) && forall i, j :: 0 <= i < j < |order| ==> order[i] != order[j]
  }

  method InsertPath(order: seq<Path>, p: Path) returns (out: seq<Path>)
    requires IsSorted(order) && p !in order
    ensures IsSorted(out) && forall x :: x in out <==> x in order || x == p
  {
    var i := |order|;
    while i > 0 && StrLess(p, order[i - 1])
      invariant 0 <= i <= |order|
      invariant forall j :: i <= j < |order| ==> StrLess(p, order[j])
    {
      i := i - 1;
    }
    if i > 0 { StrTotal(p, order[i - 1]); }
    forall j | 0 <= j < i ensures StrLess(order[j], p) {
      if j < i - 1 { StrTransitive(order[j], order[i - 1], p); }
    }
    out := order[..i] + [p] + order[i..];
    assert order == order[..i] + order[i..];
  }

  method SortPaths(paths: set<Path>) returns (order: seq<Path>)
    ensures IsSorted(order) && ListsAll(order, paths)
  {
    order := [];
    var todo := paths;
    while todo != {}
      invariant todo <= paths && IsSorted(order) && forall p :: p in order <==> p in paths - todo
      decreases todo
    {
      var p :| p in todo;
      order := InsertPath(order, p);
      todo := todo - {p};
    }
    SortedIsDistinct(order);
  }

  lemma SortedIsDistinct(order: seq<Path>)
    requires IsSorted(order)
    ensures forall i, j :: 0 <= i < j < |order| ==> order[i] != order[j]
  {
    forall i, j | 0 <= i < j < |order| ensures order[i] != order[j] { StrTotal(order[i], order[i]); }
  }

  // ----- what files cost

  /** The references of a set of files, in all. */
  ghost function RefsIn(e: Engine, p: Plan, l: LayerId, paths: set<Path>): nat {
    if paths == {} then 0
    else
      var x :| x in paths;
      RefCount(e, p, l, x) + RefsIn(e, p, l, paths - {x})
  }

  lemma {:induction false} RefsInBut(e: Engine, p: Plan, l: LayerId, paths: set<Path>, y: Path)
    requires y in paths
    ensures RefsIn(e, p, l, paths) == RefCount(e, p, l, y) + RefsIn(e, p, l, paths - {y})
    decreases paths
  {
    var x :| x in paths && RefsIn(e, p, l, paths) == RefCount(e, p, l, x) + RefsIn(e, p, l, paths - {x});
    if x != y {
      RefsInBut(e, p, l, paths - {x}, y);
      RefsInBut(e, p, l, paths - {y}, x);
      assert paths - {x} - {y} == paths - {y} - {x};
    }
  }

  lemma {:induction false} RefsOfList(e: Engine, p: Plan, l: LayerId, order: seq<Path>, paths: set<Path>)
    requires ListsAll(order, paths)
    ensures RefsOf(e, p, l, order) == RefsIn(e, p, l, paths)
  {
    if order == [] {
      assert paths == {};
    } else {
      var x := order[0];
      assert x in order;
      forall q ensures q in order[1..] <==> q in paths - {x} {
        if q in paths && q != x { assert q in order; }
      }
      RefsOfList(e, p, l, order[1..], paths - {x});
      RefsInBut(e, p, l, paths, x);
    }
  }

  // ----- one layer of a batch

  /** What a budget leaves of a layer's dependents, in order of path: those past the ones that fit. */
  ghost predicate IsLeft(e: Engine, next: Plan, l: LayerId, deps: set<Path>, budget0: int, left: set<Path>, budget: int) {
    exists order :: IsLeftOf(e, next, l, deps, order, budget0, left, budget)
  }

  ghost predicate IsLeftOf(e: Engine, next: Plan, l: LayerId, deps: set<Path>, order: seq<Path>, budget0: int,
                           left: set<Path>, budget: int) {
    && IsSorted(order) && ListsAll(order, deps)
    && var n := Fit(e, next, l, order, budget0, true);
       left == (set p | p in order[n..]) && budget == budget0 - RefsOf(e, next, l, order[..n])
  }

  /** At least one dependent is resolved, and all of them when they fit together. */
  lemma LeftShrinks(e: Engine, next: Plan, l: LayerId, deps: set<Path>, budget0: int, left: set<Path>, budget: int)
    requires IsLeft(e, next, l, deps, budget0, left, budget)
    ensures left <= deps && (deps != {} ==> left != deps)
    ensures RefsIn(e, next, l, deps) <= budget0 ==> left == {} && budget == budget0 - RefsIn(e, next, l, deps)
  {
    var order :| IsLeftOf(e, next, l, deps, order, budget0, left, budget);
    var n := Fit(e, next, l, order, budget0, true);
    if deps != {} {
      var d :| d in deps;
      assert d in order;
      assert order[0] in order && order[0] !in order[n..];
    }
    RefsOfList(e, next, l, order, deps);
    if RefsIn(e, next, l, deps) <= budget0 {
      AllFit(e, next, l, order, budget0, true);
      assert order[..n] == order;
    }
  }

  function KeysOf(l: LayerId, paths: set<Path>): set<Key> { set p | p in paths :: Key(l, p) }

  /** One layer: its own changed files completely, then the dependents within the budget. */
  method ResolveLayerBatch(store: EdgeStore, e: Engine, prev: Plan, next: Plan, pending: set<Key>, l: LayerId, budget0: int)
    returns (left: set<Path>, budget: int)
    requires Enclosed(e)
    modifies store
    ensures var deps := Dependents(e, prev, next, pending, l);
            && IsLeft(e, next, l, deps, budget0, left, budget)
            && store.edges == AfterResolving(e, next, old(store.edges), KeysOf(l, FullAt(prev, next, l) + deps - left))
  {
    left, budget := {}, budget0;
    ResolvingNone(e, next, store.edges);
    if IsSkipped(e, prev, next, pending, l) {
      assert IsLeftOf(e, next, l, {}, [], budget0, {}, budget0);
      assert KeysOf(l, FullAt(prev, next, l) + {} - {}) == {};
      return;
    }
    var deps := Dependents(e, prev, next, pending, l);
    ResolveFull(store, e, next, l, FullAt(prev, next, l));
    var order := SortPaths(deps);
    ghost var full := KeysOf(l, FullAt(prev, next, l));
    var rest;
    rest, budget := ResolveWithin(store, e, next, l, order, budget0);
    left := set p | p in rest;
    ghost var n := Fit(e, next, l, order, budget0, true);
    assert IsLeftOf(e, next, l, deps, order, budget0, left, budget);
    ResolvingTwice(e, next, old(store.edges), full, KeysAt(l, order[..n]));
    DoneKeys(l, FullAt(prev, next, l), deps, order, n);
  }

  /** The files done are those of the layer resolved completely and the dependents in front. */
  lemma DoneKeys(l: LayerId, full: set<Path>, deps: set<Path>, order: seq<Path>, n: nat)
    requires ListsAll(order, deps) && n <= |order| && full !! deps
    ensures KeysOf(l, full) + KeysAt(l, order[..n]) == KeysOf(l, full + deps - (set p | p in order[n..]))
  {
    assert order == order[..n] + order[n..];
    forall i | 0 <= i < n ensures order[i] !in order[n..] {
      assert forall j :: n <= j < |order| ==> order[j] == order[n..][j - n];
    }
    assert forall p :: p in order[..n] <==> p in deps && p !in order[n..];
  }

  method ResolveFull(store: EdgeStore, e: Engine, p: Plan, l: LayerId, full: set<Path>)
    requires Enclosed(e)
    modifies store
    ensures store.edges == AfterResolving(e, p, old(store.edges), KeysOf(l, full))
  {
    var order := SortPaths(full);
    ResolvingNone(e, p, store.edges);
    for i := 0 to |order|
      invariant store.edges == AfterResolving(e, p, old(store.edges), KeysAt(l, order[..i]))
    {
      ResolvePath(store, e, p, l, order[i]);
      ResolvingTwice(e, p, old(store.edges), KeysAt(l, order[..i]), {Key(l, order[i])});
      OneMorePath(e, p, l, order, i);
    }
    assert order[..|order|] == order;
    assert KeysAt(l, order) == KeysOf(l, full);
  }

  // ----- a batch

  function DependentKeys(e: Engine, prev: Plan, next: Plan, pending: set<Key>, layers: set<LayerId>): set<Key> {
    set l, p | l in layers && p in Dependents(e, prev, next, pending, l) :: Key(l, p)
  }

  function FullKeys(prev: Plan, next: Plan, layers: set<LayerId>): set<Key> {
    set l, p | l in layers && p in FullAt(prev, next, l) :: Key(l, p)
  }

  /** The files a batch resolves or carries. */
  function Taken(e: Engine, prev: Plan, next: Plan, pending: set<Key>): set<Key> {
    FullKeys(prev, next, next.layers.Keys) + DependentKeys(e, prev, next, pending, next.layers.Keys)
  }

  lemma TakenIs(e: Engine, prev: Plan, next: Plan, pending: set<Key>, k: Key)
    ensures k in Taken(e, prev, next, pending) <==> IsTaken(e, prev, next, pending, k)
  {
    assert k == Key(k.layer, k.path);
  }

  /** The references of all dependents of some layers. */
  ghost function RefsOfLayers(e: Engine, prev: Plan, next: Plan, pending: set<Key>, layers: set<LayerId>): nat {
    if layers == {} then 0
    else
      var l :| l in layers;
      RefsIn(e, next, l, Dependents(e, prev, next, pending, l)) + RefsOfLayers(e, prev, next, pending, layers - {l})
  }

  lemma {:induction false} RefsOfLayersBut(e: Engine, prev: Plan, next: Plan, pending: set<Key>, layers: set<LayerId>,
                                           m: LayerId)
    requires m in layers
    ensures RefsOfLayers(e, prev, next, pending, layers)
            == RefsIn(e, next, m, Dependents(e, prev, next, pending, m)) + RefsOfLayers(e, prev, next, pending, layers - {m})
    decreases layers
  {
    var l :| l in layers && RefsOfLayers(e, prev, next, pending, layers)
      == RefsIn(e, next, l, Dependents(e, prev, next, pending, l)) + RefsOfLayers(e, prev, next, pending, layers - {l});
    if l != m {
      RefsOfLayersBut(e, prev, next, pending, layers - {l}, m);
      RefsOfLayersBut(e, prev, next, pending, layers - {m}, l);
      assert layers - {l} - {m} == layers - {m} - {l};
    }
  }

  /** Some dependent of the layer is not among those carried. */
  ghost predicate Progresses(e: Engine, prev: Plan, next: Plan, pending: set<Key>, leftover: set<Key>, l: LayerId) {
    Dependents(e, prev, next, pending, l) != {} ==>
      exists p :: p in Dependents(e, prev, next, pending, l) && Key(l, p) !in leftover
  }

  ghost predicate AllProgress(e: Engine, prev: Plan, next: Plan, pending: set<Key>, leftover: set<Key>, layers: set<LayerId>) {
    forall l :: l in layers ==> Progresses(e, prev, next, pending, leftover, l)
  }

  /** A plan's layers in its order: by kind, lower ones first, then by id. */
  ghost predicate InPlanOrder(p: Plan, order: seq<LayerId>) {
    && (forall id :: id in order <==> id in p.layers)
    && forall i, j :: 0 <= i < j < |order| ==> LayerBefore(p, order[i], order[j])
  }

  predicate LayerBefore(p: Plan, a: LayerId, b: LayerId) {
    && a in p.layers && b in p.layers
    && var ra, rb := Rank(p.layers[a].layer.kind), Rank(p.layers[b].layer.kind);
       ra < rb || (ra == rb && StrLess(a, b))
  }

  function OfRank(p: Plan, rank: nat): set<LayerId> {
    set id | id in p.layers && Rank(p.layers[id].layer.kind) == rank
  }

  method SortLayers(p: Plan) returns (order: seq<LayerId>)
    ensures InPlanOrder(p, order)
  {
    order := [];
    for rank := 0 to 3
      invariant forall id :: id in order <==> id in p.layers && Rank(p.layers[id].layer.kind) < rank
      invariant forall i, j :: 0 <= i < j < |order| ==> LayerBefore(p, order[i], order[j])
    {
      var ids := SortPaths(OfRank(p, rank));
      assert forall i :: 0 <= i < |ids| ==> ids[i] in OfRank(p, rank);
      assert forall i :: 0 <= i < |order| ==> order[i] in order;
      order := order + ids;
    }
  }

  /** The layers in turn: each leaves of its dependents what did not fit in what those before left of the budget. */
  ghost predicate IsSpent(e: Engine, prev: Plan, next: Plan, pending: set<Key>, layers: seq<LayerId>, budget0: int,
                          leftover: set<Key>, budget: int)
    decreases |layers|
  {
    if layers == [] then leftover == {} && budget == budget0
    else
      var n := |layers| - 1;
      exists rest, between, left ::
        && IsSpent(e, prev, next, pending, layers[..n], budget0, rest, between)
        && IsLeftAt(e, prev, next, pending, layers[n], between, rest, left, leftover, budget)
  }

  /** One layer more leaves left of its dependents. */
  ghost predicate IsLeftAt(e: Engine, prev: Plan, next: Plan, pending: set<Key>, l: LayerId, between: int, rest: set<Key>,
                           left: set<Path>, leftover: set<Key>, budget: int) {
    IsLeft(e, next, l, Dependents(e, prev, next, pending, l), between, left, budget) && leftover == rest + KeysOf(l, left)
  }

  lemma SpendOneMore(e: Engine, prev: Plan, next: Plan, pending: set<Key>, order: seq<LayerId>, i: nat, budget0: int,
                     rest: set<Key>, between: int, left: set<Path>, budget: int)
    requires i < |order| && IsSpent(e, prev, next, pending, order[..i], budget0, rest, between)
    requires IsLeft(e, next, order[i], Dependents(e, prev, next, pending, order[i]), between, left, budget)
    ensures IsSpent(e, prev, next, pending, order[..i + 1], budget0, rest + KeysOf(order[i], left), budget)
  {
    var layers := order[..i + 1];
    assert layers != [] && layers[..|layers| - 1] == order[..i] && layers[|layers| - 1] == order[i];
    assert IsLeftAt(e, prev, next, pending, order[i], between, rest, left, rest + KeysOf(order[i], left), budget);
  }

  /** In the plan's order what a batch carries is what did not fit. */
  ghost predicate DidNotFit(e: Engine, prev: Plan, next: Plan, pending: set<Key>, maxRefs: int, leftover: set<Key>) {
    exists order, budget :: InPlanOrder(next, order) && IsSpent(e, prev, next, pending, order, maxRefs, leftover, budget)
  }

  /** What a batch carries: dependents that did not fit, never all of a layer's, and none when all fit. */
  ghost predicate IsLeftover(e: Engine, prev: Plan, next: Plan, pending: set<Key>, maxRefs: int, leftover: set<Key>) {
    && DidNotFit(e, prev, next, pending, maxRefs, leftover)
    && leftover <= DependentKeys(e, prev, next, pending, next.layers.Keys)
    && AllProgress(e, prev, next, pending, leftover, next.layers.Keys)
    && (RefsOfLayers(e, prev, next, pending, next.layers.Keys) <= maxRefs ==> leftover == {})
  }

  /** The batch's loop once the layers of done are resolved. */
  ghost predicate IsPartDone(e: Engine, prev: Plan, next: Plan, pending: set<Key>, maxRefs: int, done: set<LayerId>,
                             leftover: set<Key>, budget: int, edges: set<Edge>, now: set<Edge>) {
    && done <= next.layers.Keys && leftover <= DependentKeys(e, prev, next, pending, done)
    && AllProgress(e, prev, next, pending, leftover, done)
    && FitsSoFar(e, prev, next, pending, maxRefs, done, leftover, budget)
    && now == AfterResolving(e, next, edges, FullKeys(prev, next, done) + DependentKeys(e, prev, next, pending, done) - leftover)
  }

  /** While all references fit none is carried, and those of the layers to come fit in what is left. */
  ghost predicate FitsSoFar(e: Engine, prev: Plan, next: Plan, pending: set<Key>, maxRefs: int, done: set<LayerId>,
                            leftover: set<Key>, budget: int) {
    RefsOfLayers(e, prev, next, pending, next.layers.Keys) <= maxRefs ==>
      leftover == {} && RefsOfLayers(e, prev, next, pending, next.layers.Keys - done) <= budget
  }

  lemma OneMoreLayer(e: Engine, prev: Plan, next: Plan, pending: set<Key>, maxRefs: int, done: set<LayerId>, leftover: set<Key>,
                     budget0: int, edges: set<Edge>, before: set<Edge>, now: set<Edge>, l: LayerId, left: set<Path>, budget: int)
    requires Enclosed(e) && IsPartDone(e, prev, next, pending, maxRefs, done, leftover, budget0, edges, before)
    requires l in next.layers && l !in done
    requires var deps := Dependents(e, prev, next, pending, l);
             && IsLeft(e, next, l, deps, budget0, left, budget)
             && now == AfterResolving(e, next, before, KeysOf(l, FullAt(prev, next, l) + deps - left))
    ensures IsPartDone(e, prev, next, pending, maxRefs, done + {l}, leftover + KeysOf(l, left), budget, edges, now)
  {
    var deps := Dependents(e, prev, next, pending, l);
    LeftShrinks(e, next, l, deps, budget0, left, budget);
    LayerWritten(e, prev, next, pending, done, leftover, edges, before, now, l, left);
    StillProgresses(e, prev, next, pending, done, leftover, l, left);
    StillFits(e, prev, next, pending, maxRefs, done, leftover, budget0, l, left, budget);
  }

  lemma LayerWritten(e: Engine, prev: Plan, next: Plan, pending: set<Key>, done: set<LayerId>, leftover: set<Key>,
                     edges: set<Edge>, before: set<Edge>, now: set<Edge>, l: LayerId, left: set<Path>)
    requires Enclosed(e) && l !in done && leftover <= DependentKeys(e, prev, next, pending, done)
    requires left <= Dependents(e, prev, next, pending, l)
    requires before == AfterResolving(e, next, edges, FullKeys(prev, next, done)
                                                      + DependentKeys(e, prev, next, pending, done) - leftover)
    requires now == AfterResolving(e, next, before, KeysOf(l, FullAt(prev, next, l)
                                                              + Dependents(e, prev, next, pending, l) - left))
    ensures leftover + KeysOf(l, left) <= DependentKeys(e, prev, next, pending, done + {l})
    ensures now == AfterResolving(e, next, edges, FullKeys(prev, next, done + {l})
                                                  + DependentKeys(e, prev, next, pending, done + {l})
                                                  - (leftover + KeysOf(l, left)))
  {
    KeysOfMore(e, prev, next, pending, done, leftover, l, left);
    ResolvingTwice(e, next, edges, FullKeys(prev, next, done) + DependentKeys(e, prev, next, pending, done) - leftover,
                   KeysOf(l, FullAt(prev, next, l) + Dependents(e, prev, next, pending, l) - left));
  }

  lemma StillFits(e: Engine, prev: Plan, next: Plan, pending: set<Key>, maxRefs: int, done: set<LayerId>, leftover: set<Key>,
                  budget0: int, l: LayerId, left: set<Path>, budget: int)
    requires l in next.layers && l !in done && FitsSoFar(e, prev, next, pending, maxRefs, done, leftover, budget0)
    requires RefsIn(e, next, l, Dependents(e, prev, next, pending, l)) <= budget0 ==>
               left == {} && budget == budget0 - RefsIn(e, next, l, Dependents(e, prev, next, pending, l))
    ensures FitsSoFar(e, prev, next, pending, maxRefs, done + {l}, leftover + KeysOf(l, left), budget)
  {
    RefsOfLayersBut(e, prev, next, pending, next.layers.Keys - done, l);
    assert next.layers.Keys - done - {l} == next.layers.Keys - (done + {l});
    assert left == {} ==> KeysOf(l, left) == {};
  }

  lemma KeysOfMore(e: Engine, prev: Plan, next: Plan, pending: set<Key>, done: set<LayerId>, leftover: set<Key>, l: LayerId,
                   left: set<Path>)
    requires l !in done && leftover <= DependentKeys(e, prev, next, pending, done)
    requires left <= Dependents(e, prev, next, pending, l)
    ensures leftover + KeysOf(l, left) <= DependentKeys(e, prev, next, pending, done + {l})
    ensures FullKeys(prev, next, done + {l}) + DependentKeys(e, prev, next, pending, done + {l}) - (leftover + KeysOf(l, left))
            == (FullKeys(prev, next, done) + DependentKeys(e, prev, next, pending, done) - leftover)
               + KeysOf(l, FullAt(prev, next, l) + Dependents(e, prev, next, pending, l) - left)
  {
  }

  lemma StillProgresses(e: Engine, prev: Plan, next: Plan, pending: set<Key>, done: set<LayerId>, leftover: set<Key>,
                        l: LayerId, left: set<Path>)
    requires l !in done && leftover <= DependentKeys(e, prev, next, pending, done)
    requires left <= Dependents(e, prev, next, pending, l)
    requires Dependents(e, prev, next, pending, l) != {} ==> left != Dependents(e, prev, next, pending, l)
    requires AllProgress(e, prev, next, pending, leftover, done)
    ensures AllProgress(e, prev, next, pending, leftover + KeysOf(l, left), done + {l})
  {
    forall m | m in done ensures Progresses(e, prev, next, pending, leftover + KeysOf(l, left), m) {
      assert Progresses(e, prev, next, pending, leftover, m);
    }
    var deps := Dependents(e, prev, next, pending, l);
    if deps != {} {
      var p :| p in deps && p !in left;
      assert Key(l, p) !in leftover + KeysOf(l, left);
    }
  }

  /**
   * A whole batch, exactly: the edges of every file taken and not carried
   * become those it resolves to, and every other edge stays.
   */
  method ResolveBatch(store: EdgeStore, e: Engine, prev: Plan, next: Plan, pending: set<Key>, maxRefs: int)
    returns (leftover: set<Key>)
    requires Enclosed(e)
    modifies store
    ensures IsLeftover(e, prev, next, pending, maxRefs, leftover)
    ensures store.edges == AfterResolving(e, next, old(store.edges), Taken(e, prev, next, pending) - leftover)
  {
    leftover := {};
    var budget := maxRefs;
    var order := SortLayers(next);
    RunStarts(e, prev, next, pending, maxRefs, order, store.edges);
    for i := 0 to |order|
      invariant IsRun(e, prev, next, pending, maxRefs, order, i, leftover, budget, old(store.edges), store.edges)
    {
      ghost var before, budget0 := store.edges, budget;
      var left;
      left, budget := ResolveLayerBatch(store, e, prev, next, pending, order[i], budget);
      RunGoesOn(e, prev, next, pending, maxRefs, order, i, leftover, budget0, old(store.edges), before, store.edges,
                left, budget);
      leftover := leftover + KeysOf(order[i], left);
    }
    RunEnds(e, prev, next, pending, maxRefs, order, leftover, budget, old(store.edges), store.edges);
  }

  /** The batch's loop once the first i layers are resolved. */
  ghost predicate IsRun(e: Engine, prev: Plan, next: Plan, pending: set<Key>, maxRefs: int, order: seq<LayerId>, i: nat,
                        leftover: set<Key>, budget: int, edges: set<Edge>, now: set<Edge>) {
    && i <= |order|
    && IsPartDone(e, prev, next, pending, maxRefs, Elements(order[..i]), leftover, budget, edges, now)
    && IsSpent(e, prev, next, pending, order[..i], maxRefs, leftover, budget)
  }

  ghost function Elements(order: seq<LayerId>): set<LayerId> { set id | id in order }

  lemma RunStarts(e: Engine, prev: Plan, next: Plan, pending: set<Key>, maxRefs: int, order: seq<LayerId>, edges: set<Edge>)
    ensures IsRun(e, prev, next, pending, maxRefs, order, 0, {}, maxRefs, edges, edges)
  {
    assert order[..0] == [] && Elements([]) == {};
    ResolvingNone(e, next, edges);
    assert FullKeys(prev, next, {}) + DependentKeys(e, prev, next, pending, {}) - {} == {};
    assert next.layers.Keys - {} == next.layers.Keys;
  }

  lemma RunGoesOn(e: Engine, prev: Plan, next: Plan, pending: set<Key>, maxRefs: int, order: seq<LayerId>, i: nat,
                  leftover: set<Key>, budget0: int, edges: set<Edge>, before: set<Edge>, now: set<Edge>,
                  left: set<Path>, budget: int)
    requires Enclosed(e) && InPlanOrder(next, order) && i < |order|
    requires IsRun(e, prev, next, pending, maxRefs, order, i, leftover, budget0, edges, before)
    requires var deps := Dependents(e, prev, next, pending, order[i]);
             && IsLeft(e, next, order[i], deps, budget0, left, budget)
             && now == AfterResolving(e, next, before, KeysOf(order[i], FullAt(prev, next, order[i]) + deps - left))
    ensures IsRun(e, prev, next, pending, maxRefs, order, i + 1, leftover + KeysOf(order[i], left), budget, edges, now)
  {
    NotYet(next, order, i);
    assert Elements(order[..i + 1]) == Elements(order[..i]) + {order[i]};
    OneMoreLayer(e, prev, next, pending, maxRefs, Elements(order[..i]), leftover, budget0, edges, before, now,
                 order[i], left, budget);
    SpendOneMore(e, prev, next, pending, order, i, maxRefs, leftover, budget0, left, budget);
  }

  lemma RunEnds(e: Engine, prev: Plan, next: Plan, pending: set<Key>, maxRefs: int, order: seq<LayerId>,
                leftover: set<Key>, budget: int, edges: set<Edge>, now: set<Edge>)
    requires InPlanOrder(next, order) && IsRun(e, prev, next, pending, maxRefs, order, |order|, leftover, budget, edges, now)
    ensures IsLeftover(e, prev, next, pending, maxRefs, leftover)
    ensures now == AfterResolving(e, next, edges, Taken(e, prev, next, pending) - leftover)
  {
    assert order[..|order|] == order && Elements(order) == next.layers.Keys;
  }

  lemma NotYet(p: Plan, order: seq<LayerId>, i: nat)
    requires InPlanOrder(p, order) && i < |order|
    ensures order[i] in p.layers && order[i] !in order[..i]
    ensures forall id :: id in order[..i + 1] <==> id in order[..i] || id == order[i]
  {
    assert order[i] in order;
    if order[i] in order[..i] {
      var j :| 0 <= j < i && order[j] == order[i];
      StrTotal(order[j], order[i]);
    }
    assert order[..i + 1] == order[..i] + [order[i]];
  }
}
