/**
 * Writing a batch (write in codeindex/service.go, FileApplier.Apply in
 * codeindex/apply.go), the turn that writes one batch after another, and the
 * rebuild they all converge to.
 */
module Applier {
  import opened Wrappers
  import opened Plans
  import opened Graphs
  import opened Batches
  import opened Convergence
  import opened Attempts

  // ----- the affected (layer, path) pairs

  /** The keys at path in the layers below layer, before and after the batch. */
  method Below(prev: Plan, next: Plan, layer: LayerId, path: Path) returns (keys: set<Key>)
    ensures forall k :: k in keys <==> k.path == path && BelowEither(prev, next, k.layer, layer)
  {
    var up := ComputeAncestors(next, layer);
    var was := ComputeAncestors(prev, layer);
    keys := (set a | a in up :: Key(a, path)) + (set a | a in was :: Key(a, path));
  }

  method BelowAll(prev: Plan, next: Plan, layer: LayerId, paths: set<Path>) returns (keys: set<Key>)
    ensures forall k :: k in keys <==> k.path in paths && BelowEither(prev, next, k.layer, layer)
  {
    keys := {};
    var todo := paths;
    while todo != {}
      invariant todo <= paths
      invariant forall k :: k in keys <==> k.path in paths - todo && BelowEither(prev, next, k.layer, layer)
      decreases todo
    {
      var f :| f in todo;
      var more := Below(prev, next, layer, f);
      keys := keys + more;
      todo := todo - {f};
    }
  }

  /** The paths at which the batch touches a layer. */
  method TouchedPaths(prev: Plan, next: Plan, d: Delta, id: LayerId) returns (paths: set<Path>)
    requires d == DiffOf(prev, next) && id in next.layers
    ensures forall f :: f in paths <==> Touches(prev, next, id, f)
  {
    paths := {};
    if id in d.layers {
      paths := d.layers[id].put.Keys + d.layers[id].remove;
    }
    forall f ensures f in paths <==> IsChanged(prev, next, Key(id, f)) {
      if id !in d.layers { NotInDelta(prev, next, Key(id, f)); }
    }
    if id in prev.layers {
      var up := ComputeAncestors(next, id);
      var was := ComputeAncestors(prev, id);
      if up != was {
        paths := paths + next.layers[id].files.Keys + prev.layers[id].files.Keys;
      }
    }
  }

  method FindAffected(prev: Plan, next: Plan, d: Delta) returns (keys: set<Key>)
    requires d == DiffOf(prev, next)
    ensures forall k :: k in keys <==> Affected(prev, next, k)
  {
    keys := {};
    var todo := next.layers.Keys;
    while todo != {}
      invariant todo <= next.layers.Keys
      invariant forall k :: k in keys <==>
                  exists l :: l in next.layers && l !in todo && Touches(prev, next, l, k.path) && BelowEither(prev, next, k.layer, l)
      decreases todo
    {
      var id :| id in todo;
      var paths := TouchedPaths(prev, next, d, id);
      var more := BelowAll(prev, next, id, paths);
      forall k ensures k in more <==> Touches(prev, next, id, k.path) && BelowEither(prev, next, k.layer, id) {
      }
      keys := keys + more;
      todo := todo - {id};
    }
  }

  method FindPending(prev: Plan, next: Plan, d: Delta) returns (pending: set<Key>)
    requires d == DiffOf(prev, next)
    ensures forall k :: k in pending <==> Pending(prev, next, k)
  {
    var affected := FindAffected(prev, next, d);
    pending := {};
    var todo := affected;
    while todo != {}
      invariant todo <= affected
      invariant forall k :: k in pending <==> k in affected - todo && Pending(prev, next, k)
      decreases todo
    {
      var k :| k in todo;
      if Holds(next, k) && Holds(prev, k) && !IsChanged(prev, next, k) {
        pending := pending + {k};
      }
      todo := todo - {k};
    }
  }

  // ----- the writes, list by list

  ghost predicate IsLowest(ids: set<LayerId>, p: Plan, id: LayerId) {
    id in ids && forall j :: j in ids ==> KindOf(p, id) <= KindOf(p, j)
  }

  ghost predicate IsHighest(ids: set<LayerId>, p: Plan, id: LayerId) {
    id in ids && forall j :: j in ids ==> KindOf(p, j) <= KindOf(p, id)
  }

  lemma {:induction false} LowestExists(ids: set<LayerId>, p: Plan)
    requires ids != {}
    ensures exists id :: IsLowest(ids, p, id)
  {
    var x :| x in ids;
    var rest := ids - {x};
    if rest == {} {
      assert ids == {x};
      assert IsLowest(ids, p, x);
    } else {
      LowestExists(rest, p);
      var m :| IsLowest(rest, p, m);
      assert ids == rest + {x};
      assert IsLowest(ids, p, if KindOf(p, x) < KindOf(p, m) then x else m);
    }
  }

  lemma {:induction false} HighestExists(ids: set<LayerId>, p: Plan)
    requires ids != {}
    ensures exists id :: IsHighest(ids, p, id)
  {
    var x :| x in ids;
    var rest := ids - {x};
    if rest == {} {
      assert ids == {x};
      assert IsHighest(ids, p, x);
    } else {
      HighestExists(rest, p);
      var m :| IsHighest(rest, p, m);
      assert ids == rest + {x};
      assert IsHighest(ids, p, if KindOf(p, m) < KindOf(p, x) then x else m);
    }
  }

  function KindOf(p: Plan, id: LayerId): nat {
    if id in p.layers then Rank(p.layers[id].layer.kind) else 0
  }

  /** ws puts the delta's layers outside todo, lower layers first, none above a layer of todo. */
  ghost predicate PutsSoFar(prev: Plan, next: Plan, ws: seq<Write>, todo: set<LayerId>) {
    && (forall w :: w in ws ==> w.PutLayer? && InDelta(prev, next, w.node.id) && w.node == next.layers[w.node.id].layer)
    && (forall id :: id in next.layers && InDelta(prev, next, id) && id !in todo ==> PutLayer(next.layers[id].layer) in ws)
    && InPutOrder(next, ws, todo)
  }

  ghost predicate InPutOrder(next: Plan, ws: seq<Write>, todo: set<LayerId>) {
    && (forall i, j :: 0 <= i < j < |ws| ==> Rank(PutNode(ws[i]).kind) <= Rank(PutNode(ws[j]).kind))
    && (forall i, id :: 0 <= i < |ws| && id in todo ==> Rank(PutNode(ws[i]).kind) <= KindOf(next, id))
  }

  lemma PutOneMore(prev: Plan, next: Plan, ws: seq<Write>, todo: set<LayerId>, id: LayerId)
    requires ValidPlan(next) && PutsSoFar(prev, next, ws, todo)
    requires id in todo && id in next.layers && InDelta(prev, next, id)
    requires forall j :: j in todo ==> KindOf(next, id) <= KindOf(next, j)
    ensures PutsSoFar(prev, next, ws + [PutLayer(next.layers[id].layer)], todo - {id})
  {
    PutInOrder(next, ws, todo, id);
    var ws1 := ws + [PutLayer(next.layers[id].layer)];
    assert forall w :: w in ws1 <==> w in ws || w == PutLayer(next.layers[id].layer);
  }

  lemma PutInOrder(next: Plan, ws: seq<Write>, todo: set<LayerId>, id: LayerId)
    requires InPutOrder(next, ws, todo) && id in todo && id in next.layers
    requires forall j :: j in todo ==> KindOf(next, id) <= KindOf(next, j)
    ensures InPutOrder(next, ws + [PutLayer(next.layers[id].layer)], todo - {id})
  {
  }

  method LowestOf(todo: set<LayerId>, next: Plan) returns (id: LayerId)
    requires todo != {}
    ensures id in todo && forall j :: j in todo ==> KindOf(next, id) <= KindOf(next, j)
  {
    LowestExists(todo, next);
    id :| id in todo && forall j :: j in todo ==> KindOf(next, id) <= KindOf(next, j);
  }

  method PutLayers(g: Graph, prev: Plan, next: Plan, d: Delta) returns (err: Option<GraphError>, ghost ws: seq<Write>)
    requires d == DiffOf(prev, next) && ValidPlan(next)
    modifies g
    ensures err.None? && IsPutList(prev, next, ws) && g.state == Run(old(g.state), ws)
  {
    ws := [];
    err := None;
    var todo := d.layers.Keys;
    while todo != {}
      invariant err.None? && todo <= d.layers.Keys && g.state == Run(old(g.state), ws)
      invariant PutsSoFar(prev, next, ws, todo)
      decreases todo
    {
      var id := LowestOf(todo, next);
      err := g.PutLayer(d.layers[id].layer);
      RunSnoc(old(g.state), ws, PutLayer(next.layers[id].layer));
      PutOneMore(prev, next, ws, todo, id);
      ws := ws + [PutLayer(next.layers[id].layer)];
      todo := todo - {id};
    }
  }

  ghost predicate HidesSoFar(prev: Plan, next: Plan, ws: seq<Write>, todo: set<Key>) {
    && (forall w :: w in ws ==> w.SetHidden? && Pending(prev, next, w.key) && w.hidden == HiddenBy(next, w.key))
    && (forall k :: Pending(prev, next, k) && k !in todo ==> SetHidden(k, HiddenBy(next, k)) in ws)
  }

  lemma HideOneMore(prev: Plan, next: Plan, ws: seq<Write>, todo: set<Key>, k: Key)
    requires HidesSoFar(prev, next, ws, todo) && Pending(prev, next, k)
    ensures HidesSoFar(prev, next, ws + [SetHidden(k, HiddenBy(next, k))], todo - {k})
  {
    var ws1 := ws + [SetHidden(k, HiddenBy(next, k))];
    assert forall w :: w in ws1 <==> w in ws || w == SetHidden(k, HiddenBy(next, k));
  }

  method Hide(g: Graph, prev: Plan, next: Plan, d: Delta) returns (err: Option<GraphError>, ghost ws: seq<Write>)
    requires d == DiffOf(prev, next)
    requires forall k :: Holds(prev, k) ==> Has(g.state, k)
    modifies g
    ensures err.None? && IsHideList(prev, next, ws) && g.state == Run(old(g.state), ws)
  {
    ws := [];
    err := None;
    var pending := FindPending(prev, next, d);
    var ix := IndexPlan(next);
    var todo := pending;
    while todo != {}
      invariant err.None? && todo <= pending && g.state == Run(old(g.state), ws)
      invariant HidesSoFar(prev, next, ws, todo)
      invariant forall k :: Holds(prev, k) ==> Has(g.state, k)
      decreases todo
    {
      var k :| k in todo;
      var hidden := ComputeHiddenBy(ix, k, next);
      HideKeepsFiles(g.state, k, hidden);
      err := g.SetHidden(k, hidden);
      RunSnoc(old(g.state), ws, SetHidden(k, hidden));
      HideOneMore(prev, next, ws, todo, k);
      ws := ws + [SetHidden(k, hidden)];
      todo := todo - {k};
    }
  }

  lemma HideKeepsFiles(g: GraphState, at: Key, hidden: set<LayerId>)
    ensures forall k :: Has(Step(g, SetHidden(at, hidden)), k) <==> Has(g, k)
  {
  }

  /** One changed path brought to next. */
  method WriteFile(g: Graph, prev: Plan, next: Plan, ix: PlanIndex, k: Key) returns (err: Option<GraphError>)
    requires Indexes(ix, next) && IsChanged(prev, next, k) && k.layer in g.state
    modifies g
    ensures err.None? && g.state == Step(old(g.state), FileWrite(next, k))
  {
    if Holds(ix.plan, k) {
      var hidden := ComputeHiddenBy(ix, k, next);
      err := g.ApplyFile(k, FileOf(ix.plan, k), Some(hidden));
    } else {
      g.RemoveFile(k);
      err := None;
    }
  }

  method WriteFiles(g: Graph, prev: Plan, next: Plan, d: Delta) returns (err: Option<GraphError>, ghost ws: seq<Write>)
    requires d == DiffOf(prev, next) && next.layers.Keys <= g.state.Keys
    modifies g
    ensures err.None? && IsFileList(prev, next, ws) && g.state == Run(old(g.state), ws)
  {
    ws := [];
    err := None;
    var ix := IndexPlan(next);
    var todo := d.layers.Keys;
    while todo != {}
      invariant err.None? && todo <= d.layers.Keys && g.state == Run(old(g.state), ws)
      invariant next.layers.Keys <= g.state.Keys
      invariant forall w :: w in ws ==> IsChanged(prev, next, KeyOf(w)) && w == FileWrite(next, KeyOf(w))
      invariant forall k :: IsChanged(prev, next, k) && k.layer in d.layers.Keys - todo ==> FileWrite(next, k) in ws
      decreases todo
    {
      var id :| id in todo;
      ghost var more;
      err, more := WriteLayerFiles(g, prev, next, ix, d.layers[id], id);
      RunConcat(old(g.state), ws, more);
      ws := ws + more;
      todo := todo - {id};
    }
    forall k | IsChanged(prev, next, k) ensures FileWrite(next, k) in ws {
      if k.layer !in d.layers { NotInDelta(prev, next, k); }
    }
  }

  method WriteLayerFiles(g: Graph, prev: Plan, next: Plan, ix: PlanIndex, ld: LayerDelta, id: LayerId)
    returns (err: Option<GraphError>, ghost ws: seq<Write>)
    requires Indexes(ix, next) && id in next.layers && next.layers.Keys <= g.state.Keys
    requires ld.put == PutsOf(prev, next, id) && ld.remove == RemovesOf(prev, next, id)
    modifies g
    ensures err.None? && g.state == Run(old(g.state), ws) && next.layers.Keys <= g.state.Keys
    ensures forall w :: w in ws ==> IsChanged(prev, next, KeyOf(w)) && w == FileWrite(next, KeyOf(w))
    ensures forall k :: IsChanged(prev, next, k) && k.layer == id ==> FileWrite(next, k) in ws
  {
    ws := [];
    err := None;
    var todo := ld.remove + ld.put.Keys;
    ghost var paths := todo;
    assert forall f :: f in paths <==> IsChanged(prev, next, Key(id, f));
    while todo != {}
      invariant err.None? && todo <= paths && g.state == Run(old(g.state), ws)
      invariant next.layers.Keys <= g.state.Keys
      invariant FilesSoFar(prev, next, ws, id, paths - todo)
      decreases todo
    {
      // removals before puts
      var f :| f in todo && (f in ld.remove || todo !! ld.remove);
      var k := Key(id, f);
      err := WriteFile(g, prev, next, ix, k);
      RunSnoc(old(g.state), ws, FileWrite(next, k));
      FileOneMore(prev, next, ws, id, paths - todo, f);
      ws := ws + [FileWrite(next, k)];
      assert paths - (todo - {f}) == paths - todo + {f};
      todo := todo - {f};
    }
    forall k | IsChanged(prev, next, k) && k.layer == id ensures FileWrite(next, k) in ws {
      assert k == Key(id, k.path);
    }
  }

  /** ws brings the done paths of layer id to next. */
  ghost predicate FilesSoFar(prev: Plan, next: Plan, ws: seq<Write>, id: LayerId, done: set<Path>) {
    && (forall w :: w in ws ==> IsChanged(prev, next, KeyOf(w)) && w == FileWrite(next, KeyOf(w)))
    && (forall f :: f in done ==> FileWrite(next, Key(id, f)) in ws)
  }

  lemma FileOneMore(prev: Plan, next: Plan, ws: seq<Write>, id: LayerId, done: set<Path>, f: Path)
    requires FilesSoFar(prev, next, ws, id, done) && IsChanged(prev, next, Key(id, f))
    ensures FilesSoFar(prev, next, ws + [FileWrite(next, Key(id, f))], id, done + {f})
  {
    var w0 := FileWrite(next, Key(id, f));
    assert KeyOf(w0) == Key(id, f);
    assert forall w :: w in ws + [w0] <==> w in ws || w == w0;
  }

  method DropLayers(g: Graph, prev: Plan, next: Plan, d: Delta) returns (ghost ws: seq<Write>)
    requires d == DiffOf(prev, next)
    modifies g
    ensures IsDropList(prev, next, ws) && g.state == Run(old(g.state), ws)
  {
    ws := [];
    var todo := d.dropped;
    while todo != {}
      invariant todo <= d.dropped && g.state == Run(old(g.state), ws)
      invariant DropsSoFar(prev, next, ws, d.dropped, todo)
      decreases todo
    {
      HighestExists(todo, prev);
      var id :| id in todo && forall j :: j in todo ==> KindOf(prev, j) <= KindOf(prev, id);
      g.DropLayer(id);
      RunSnoc(old(g.state), ws, DropLayer(id));
      DropOneMore(prev, next, ws, d.dropped, todo, id);
      ws := ws + [DropLayer(id)];
      todo := todo - {id};
    }
  }

  /** ws drops the layers outside todo, higher layers first, none below a layer of todo. */
  ghost predicate DropsSoFar(prev: Plan, next: Plan, ws: seq<Write>, all: set<LayerId>, todo: set<LayerId>) {
    && (forall w :: w in ws ==> w.DropLayer? && w.layer in prev.layers && w.layer !in next.layers)
    && (forall id :: id in all - todo ==> DropLayer(id) in ws)
    && InDropOrder(prev, ws, todo)
  }

  ghost predicate InDropOrder(prev: Plan, ws: seq<Write>, todo: set<LayerId>) {
    && (forall i, j :: 0 <= i < j < |ws| ==> KindAt(prev, ws[i]) >= KindAt(prev, ws[j]))
    && (forall i, id :: 0 <= i < |ws| && id in todo ==> KindAt(prev, ws[i]) >= KindOf(prev, id))
  }

  lemma DropOneMore(prev: Plan, next: Plan, ws: seq<Write>, all: set<LayerId>, todo: set<LayerId>, id: LayerId)
    requires DropsSoFar(prev, next, ws, all, todo) && id in todo && id in prev.layers && id !in next.layers
    requires forall j :: j in todo ==> KindOf(prev, j) <= KindOf(prev, id)
    ensures DropsSoFar(prev, next, ws + [DropLayer(id)], all, todo - {id})
  {
    DropInOrder(prev, ws, todo, id);
    assert forall w :: w in ws + [DropLayer(id)] <==> w in ws || w == DropLayer(id);
  }

  lemma DropInOrder(prev: Plan, ws: seq<Write>, todo: set<LayerId>, id: LayerId)
    requires InDropOrder(prev, ws, todo) && id in todo && id in prev.layers
    requires forall j :: j in todo ==> KindOf(prev, j) <= KindOf(prev, id)
    ensures InDropOrder(prev, ws + [DropLayer(id)], todo - {id})
  {
  }

  // ----- the batch

  lemma NothingToWrite(prev: Plan, next: Plan)
    requires EmptyDelta(DiffOf(prev, next))
    ensures IsBatch(prev, next, Batch([], [], [], []))
  {
    EmptyDiff(prev, next);
    forall id | id in next.layers ensures !InDelta(prev, next, id) { assert id !in DiffOf(prev, next).layers; }
    forall k ensures !Affected(prev, next, k) {
      forall l | l in next.layers ensures !Touches(prev, next, l, k.path) {
        NotInDelta(prev, next, Key(l, k.path));
        SameChains(prev, next, Parent(next, l), {l});
      }
    }
    forall k ensures !IsChanged(prev, next, k) {
      if k.layer in next.layers { NotInDelta(prev, next, k); }
    }
  }

  lemma {:induction false} SameChains(p: Plan, q: Plan, cur: LayerId, seen: set<LayerId>)
    requires p.layers.Keys == q.layers.Keys
    requires forall id :: id in p.layers ==> p.layers[id].layer == q.layers[id].layer
    ensures Walk(p, cur, seen) == Walk(q, cur, seen)
    decreases p.layers.Keys - seen
  {
    if cur != "" && cur !in seen && cur in p.layers { SameChains(p, q, Parent(p, cur), seen + {cur}); }
  }

  /** Layer nodes first, then hiddenBy lists, then files, then drops; nothing at all for an empty difference. */
  method WriteBatch(g: Graph, prev: Plan, next: Plan) returns (err: Option<GraphError>, ghost b: Batch)
    requires ValidPlan(next) && HoldsPlan(g.state, prev)
    modifies g
    ensures err.None? && IsBatch(prev, next, b) && g.state == Run(old(g.state), All(b))
  {
    var d := Diff(prev, next);
    err, b := None, Batch([], [], [], []);
    if EmptyDelta(d) {
      NothingToWrite(prev, next);
      return;
    }
    ghost var g0 := g.state;
    ghost var puts, hides, files;
    err, puts := PutLayers(g, prev, next, d);
    if err.Some? { return; }
    PutsKeepFiles(g0, prev, next, puts);
    err, hides := Hide(g, prev, next, d);
    if err.Some? { return; }
    HidesKeepLayers(Run(g0, puts), prev, next, hides);
    err, files := WriteFiles(g, prev, next, d);
    if err.Some? { return; }
    ghost var drops := DropLayers(g, prev, next, d);
    b := Batch(puts, hides, files, drops);
    RunAll(g0, b);
  }

  lemma PutsKeepFiles(g: GraphState, prev: Plan, next: Plan, puts: seq<Write>)
    requires ValidPlan(next) && HoldsPlan(g, prev) && IsPutList(prev, next, puts)
    ensures forall k :: Holds(prev, k) ==> Has(Run(g, puts), k)
    ensures next.layers.Keys <= Run(g, puts).Keys
  {
    AfterPuts(g, next, puts);
    forall id | id in next.layers ensures id in Run(g, puts) {
      if InDelta(prev, next, id) { assert PutLayer(next.layers[id].layer) in puts; }
    }
  }

  lemma HidesKeepLayers(g: GraphState, prev: Plan, next: Plan, hides: seq<Write>)
    requires forall k :: Holds(prev, k) ==> Has(g, k)
    requires IsHideList(prev, next, hides)
    ensures Run(g, hides).Keys == g.Keys
  {
    AfterHides(g, next, hides);
  }

  // ----- turns and rebuilds

  /** Two plans a graph holds hide the same files from the same layers. */
  lemma SameHiddenBy(g: GraphState, p: Plan, q: Plan, k: Key)
    requires HoldsPlan(g, p) && HoldsPlan(g, q)
    ensures HiddenBy(p, k) == HiddenBy(q, k)
  {
    forall h | h in p.layers ensures Ancestors(p, h) == Ancestors(q, h) {
      SameChains(p, q, Parent(p, h), {h});
    }
    forall h | h in p.layers ensures k.path in p.layers[h].files <==> k.path in q.layers[h].files {
      assert Has(g, Key(h, k.path)) <==> Holds(p, Key(h, k.path));
      assert Has(g, Key(h, k.path)) <==> Holds(q, Key(h, k.path));
    }
  }

  /** A settled graph is settled on the plan read back from it. */
  lemma SettledOnReadBack(g: GraphState, p: Plan)
    requires Settled(g, p)
    ensures Settled(g, PlanFromGraph(g))
  {
    PlanFromGraphHolds(g);
    forall k | Has(g, k) ensures At(g, k).hidden == HiddenBy(PlanFromGraph(g), k) {
      SameHiddenBy(g, p, PlanFromGraph(g), k);
    }
  }

  /** The turn's batches as attempts: one to each target, complete, the first from the plan read back. */
  ghost predicate IsTurn(g0: GraphState, targets: seq<Plan>, tries: seq<Attempt>, g: GraphState) {
    && Attempted(g0, tries) && g == AfterAll(g0, tries) && |tries| == |targets|
    && forall i :: 0 <= i < |tries| ==> tries[i].target == targets[i] && tries[i].writes == |All(tries[i].batch)|
  }

  /**
   * From any graph, one an interrupted turn left included, a turn ends
   * holding its last selection; from a settled graph it ends settled on it,
   * and from any other exactly when the lists its batches left alone were
   * right.
   */
  method Turn(g: Graph, targets: seq<Plan>, ghost start: Plan) returns (err: Option<GraphError>, ghost tries: seq<Attempt>)
    requires forall i :: 0 <= i < |targets| ==> ValidPlan(targets[i])
    modifies g
    ensures err.None? && IsTurn(old(g.state), targets, tries, g.state)
    ensures targets != [] ==> HoldsPlan(g.state, targets[|targets| - 1])
    ensures Settled(old(g.state), start) ==> Settled(g.state, if targets == [] then start else targets[|targets| - 1])
  {
    ghost var g0 := g.state;
    var prev := PlanFromGraph(g.state);
    PlanFromGraphHolds(g.state);
    if Settled(g.state, start) { SettledOnReadBack(g.state, start); }
    err, tries := None, [];
    ghost var reached := start;
    for i := 0 to |targets|
      invariant err.None? && HoldsPlan(g.state, prev) && IsTurn(g0, targets[..i], tries, g.state)
      invariant reached == if i == 0 then start else targets[i - 1]
      invariant i > 0 ==> prev == targets[i - 1]
      invariant Settled(g0, start) ==> Settled(g.state, prev) && Settled(g.state, reached)
    {
      ghost var t;
      err, t := WritePlan(g, prev, targets[i]);
      OneMoreBatch(g0, targets, i, tries, t);
      tries := tries + [t];
      prev, reached := targets[i], targets[i];
    }
    assert targets[..|targets|] == targets;
  }

  /** One batch as a complete attempt. */
  method WritePlan(g: Graph, prev: Plan, next: Plan) returns (err: Option<GraphError>, ghost t: Attempt)
    requires ValidPlan(next) && HoldsPlan(g.state, prev)
    modifies g
    ensures err.None? && IsAttempt(old(g.state), t) && t.target == next && t.writes == |All(t.batch)|
    ensures g.state == Run(old(g.state), Done(t)) && HoldsPlan(g.state, next)
    ensures Settled(old(g.state), prev) ==> Settled(g.state, next)
  {
    ghost var g0 := g.state;
    ghost var b;
    err, b := WriteBatch(g, prev, next);
    t := Attempt(prev, next, b, |All(b)|);
    assert Done(t) == All(b);
    AfterBatch(g0, prev, next, b);
    if Settled(g0, prev) { BatchSettles(g0, prev, next, b); }
  }

  lemma OneMoreBatch(g0: GraphState, targets: seq<Plan>, i: nat, tries: seq<Attempt>, t: Attempt)
    requires i < |targets| && Attempted(g0, tries) && IsTurn(g0, targets[..i], tries, AfterAll(g0, tries))
    requires IsAttempt(AfterAll(g0, tries), t) && t.target == targets[i] && t.writes == |All(t.batch)|
    ensures IsTurn(g0, targets[..i + 1], tries + [t], Run(AfterAll(g0, tries), Done(t)))
  {
    OneMoreAttempt(g0, tries, t);
  }

  /** One batch takes a graph from settled on one selection to settled on the next. */
  method Settle(g: Graph, prev: Plan, next: Plan) returns (err: Option<GraphError>)
    requires Settled(g.state, prev) && ValidPlan(next)
    modifies g
    ensures err.None? && Settled(g.state, next)
  {
    ghost var g0 := g.state;
    ghost var b;
    err, b := WriteBatch(g, prev, next);
    BatchSettles(g0, prev, next, b);
  }

  /** Dropping the graph and writing the selection from nothing settles it, whatever it held. */
  method Rebuild(g: Graph, next: Plan) returns (err: Option<GraphError>)
    requires ValidPlan(next)
    modifies g
    ensures err.None? && Settled(g.state, next)
  {
    g.Drop();
    err := Settle(g, EMPTY_PLAN, next);
  }

  /** One batch after another, each from the selection of the one before. */
  ghost predicate Chained(prev: Plan, steps: seq<(Plan, Batch)>)
    decreases |steps|
  {
    steps == [] || (ValidPlan(steps[0].0) && IsBatch(prev, steps[0].0, steps[0].1) && Chained(steps[0].0, steps[1..]))
  }

  ghost function RunChain(g: GraphState, steps: seq<(Plan, Batch)>): GraphState
    decreases |steps|
  {
    if steps == [] then g else RunChain(Run(g, All(steps[0].1)), steps[1..])
  }

  /** Any history of batches settles the graph on its last selection. */
  lemma {:induction false} HistorySettles(g: GraphState, start: Plan, steps: seq<(Plan, Batch)>)
    requires Settled(g, start) && Chained(start, steps) && steps != []
    ensures Settled(RunChain(g, steps), steps[|steps| - 1].0)
    decreases |steps|
  {
    BatchSettles(g, start, steps[0].0, steps[0].1);
    if |steps| == 1 {
      OneStep(g, steps);
    } else {
      HistorySettles(Run(g, All(steps[0].1)), steps[0].0, steps[1..]);
    }
  }

  lemma OneStep(g: GraphState, steps: seq<(Plan, Batch)>)
    requires |steps| == 1
    ensures RunChain(g, steps) == Run(g, All(steps[0].1))
  {
    assert steps[1..] == [];
  }

  lemma {:induction false} LastIsValid(start: Plan, steps: seq<(Plan, Batch)>)
    requires Chained(start, steps) && steps != []
    ensures ValidPlan(steps[|steps| - 1].0)
    decreases |steps|
  {
    if |steps| > 1 { LastIsValid(steps[0].0, steps[1..]); }
  }

  /** Any history of batches leaves the very graph a rebuild writes from the last selection alone. */
  lemma HistoryIsRebuild(g: GraphState, start: Plan, steps: seq<(Plan, Batch)>, rebuild: Batch)
    requires Settled(g, start) && Chained(start, steps) && steps != []
    requires IsBatch(EMPTY_PLAN, steps[|steps| - 1].0, rebuild)
    ensures RunChain(g, steps) == Run(map[], All(rebuild))
  {
    var last := steps[|steps| - 1].0;
    HistorySettles(g, start, steps);
    LastIsValid(start, steps);
    RebuildSettles(last, rebuild);
    SettledUnique(RunChain(g, steps), Run(map[], All(rebuild)), last);
  }

  lemma RebuildSettles(next: Plan, rebuild: Batch)
    requires ValidPlan(next) && IsBatch(EMPTY_PLAN, next, rebuild)
    ensures Settled(Run(map[], All(rebuild)), next)
  {
    assert Settled(map[], EMPTY_PLAN);
    BatchSettles(map[], EMPTY_PLAN, next, rebuild);
  }
}
