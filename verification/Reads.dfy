/**
 * What readers meet while batches run: the files of a settled graph, and the
 * layer nodes of a graph at any point of a batch.
 */
module Reads {
  import opened Wrappers
  import opened Plans
  import opened Graphs
  import opened Batches
  import opened Convergence
  import opened Visibility

  /** The file at k, as the graph has it, passes the flat filter of a view. */
  predicate Visible(g: GraphState, view: seq<LayerId>, k: Key) {
    Has(g, k) && FileVisible(view, k.layer, At(g, k).deleted, At(g, k).hidden)
  }

  /** In a settled graph the flat filter shows exactly the files the chains of the plan show. */
  lemma GraphShowsStack(g: GraphState, p: Plan, id: LayerId, k: Key)
    requires Settled(g, p) && HasView(p, id) && Has(g, k)
    ensures Visible(g, Reverse(Chain(p, id)), k) <==> Shown(p, Chain(p, id), k.path) == Some(k.layer)
  {
    FastVisibility(p, id, k);
  }

  /** Every layer node's parent is in the graph. */
  ghost predicate ParentsPresent(g: GraphState) {
    forall id :: id in g && g[id].node.parent != "" ==> g[id].node.parent in g
  }

  /** Lower layers are put first and higher ones dropped first, so no reader ever meets a missing parent. */
  lemma ParentsAlwaysPresent(g: GraphState, prev: Plan, next: Plan, b: Batch, n: nat)
    requires ValidPlan(prev) && Layered(prev) && ValidPlan(next) && Layered(next)
    requires HoldsPlan(g, prev) && IsBatch(prev, next, b) && n <= |All(b)|
    ensures ParentsPresent(Cut(g, b, n))
  {
    var p, q, r := |b.puts|, |b.hides|, |b.files|;
    if n <= p {
      ParentsDuringPuts(g, prev, next, b, n);
    } else if n <= p + q {
      ParentsDuringHides(g, prev, next, b, n, n - p);
    } else if n <= p + q + r {
      ParentsDuringFiles(g, prev, next, b, n, n - p - q);
    } else {
      ParentsDuringDrops(g, prev, next, b, n, n - p - q - r);
    }
  }

  /** h has the target's nodes, and the previous plan's other ones but for those gone. */
  ghost predicate TargetNodes(g: GraphState, next: Plan, gone: set<LayerId>, h: GraphState) {
    && h.Keys == (g.Keys + next.layers.Keys) - gone
    && forall id :: id in h ==> h[id].node == if id in next.layers then next.layers[id].layer else g[id].node
  }

  lemma NodesDuringHides(g: GraphState, prev: Plan, next: Plan, b: Batch, m: nat)
    requires ValidPlan(next) && HoldsPlan(g, prev) && IsBatch(prev, next, b) && m <= |b.hides|
    ensures TargetNodes(g, next, {}, Run(Run(g, b.puts), b.hides[..m]))
  {
    MidHides(g, prev, next, b, m);
  }

  lemma NodesDuringFiles(g: GraphState, prev: Plan, next: Plan, b: Batch, m: nat)
    requires ValidPlan(next) && HoldsPlan(g, prev) && IsBatch(prev, next, b) && m <= |b.files|
    ensures TargetNodes(g, next, {}, Run(Run(Run(g, b.puts), b.hides), b.files[..m]))
  {
    MidFiles(g, prev, next, b, m);
  }

  lemma NodesDuringDrops(g: GraphState, prev: Plan, next: Plan, b: Batch, m: nat)
    requires ValidPlan(next) && HoldsPlan(g, prev) && IsBatch(prev, next, b) && m <= |b.drops|
    ensures TargetNodes(g, next, DropIds(b.drops[..m]), Run(AfterThree(g, b), b.drops[..m]))
    ensures DropIds(b.drops[..m]) <= Dropped(prev, next)
  {
    MidDrops(g, prev, next, b, m);
  }

  lemma ParentsDuringHides(g: GraphState, prev: Plan, next: Plan, b: Batch, n: nat, m: nat)
    requires ValidPlan(next) && Layered(prev) && Layered(next) && HoldsPlan(g, prev) && IsBatch(prev, next, b)
    requires n == |b.puts| + m && m <= |b.hides|
    ensures ParentsPresent(Cut(g, b, n))
  {
    CutInSecond(g, b, n, m);
    NodesDuringHides(g, prev, next, b, m);
    NodesHaveParents(g, prev, next, {}, Cut(g, b, n));
  }

  lemma ParentsDuringFiles(g: GraphState, prev: Plan, next: Plan, b: Batch, n: nat, m: nat)
    requires ValidPlan(next) && Layered(prev) && Layered(next) && HoldsPlan(g, prev) && IsBatch(prev, next, b)
    requires n == |b.puts| + |b.hides| + m && m <= |b.files|
    ensures ParentsPresent(Cut(g, b, n))
  {
    CutInThird(g, b, n, m);
    NodesDuringFiles(g, prev, next, b, m);
    NodesHaveParents(g, prev, next, {}, Cut(g, b, n));
  }

  lemma ParentsDuringPuts(g: GraphState, prev: Plan, next: Plan, b: Batch, n: nat)
    requires ValidPlan(next) && Layered(prev) && Layered(next)
    requires HoldsPlan(g, prev) && IsBatch(prev, next, b) && n <= |b.puts|
    ensures ParentsPresent(Cut(g, b, n))
  {
    var h, put := Cut(g, b, n), b.puts[..n];
    CutInFirst(g, b, n);
    MidPuts(g, prev, next, b, n);
    forall id | id in PutIds(put) && next.layers[id].layer.parent != ""
      ensures next.layers[id].layer.parent in h
    {
      var parent := next.layers[id].layer.parent;
      if parent !in g { ParentPutBefore(prev, next, b, n, id); }
    }
  }

  /** A layer put among the first n has its new parent among them too. */
  lemma ParentPutBefore(prev: Plan, next: Plan, b: Batch, n: nat, id: LayerId)
    requires ValidPlan(next) && Layered(next) && IsPutList(prev, next, b.puts) && n <= |b.puts|
    requires id in PutIds(b.puts[..n]) && id in next.layers && next.layers[id].layer.parent != ""
    requires next.layers[id].layer.parent !in prev.layers
    ensures next.layers[id].layer.parent in PutIds(b.puts[..n])
  {
    var parent := next.layers[id].layer.parent;
    var i :| 0 <= i < n && b.puts[i].PutLayer? && b.puts[i].node.id == id;
    assert b.puts[i] in b.puts;
    assert InDelta(prev, next, parent);
    assert PutLayer(next.layers[parent].layer) in b.puts;
    var j :| 0 <= j < |b.puts| && b.puts[j] == PutLayer(next.layers[parent].layer);
    assert j < i;
    assert b.puts[..n][j] == b.puts[j];
  }

  lemma ParentsDuringDrops(g: GraphState, prev: Plan, next: Plan, b: Batch, n: nat, m: nat)
    requires ValidPlan(prev) && ValidPlan(next) && Layered(prev) && Layered(next)
    requires HoldsPlan(g, prev) && IsBatch(prev, next, b)
    requires n == |b.puts| + |b.hides| + |b.files| + m && m <= |b.drops|
    ensures ParentsPresent(Cut(g, b, n))
  {
    CutInFourth(g, b, n, m);
    NodesDuringDrops(g, prev, next, b, m);
    AllDroppedAfter(prev, next, b, m);
    NodesHaveParents(g, prev, next, DropIds(b.drops[..m]), Cut(g, b, n));
  }

  /** Target nodes over the previous plan's leftovers have their parents. */
  lemma NodesHaveParents(g: GraphState, prev: Plan, next: Plan, gone: set<LayerId>, h: GraphState)
    requires Layered(prev) && Layered(next) && HoldsPlan(g, prev) && TargetNodes(g, next, gone, h)
    requires gone <= Dropped(prev, next) && GoneFromAbove(prev, next, gone)
    ensures ParentsPresent(h)
  {
  }

  /** No layer is gone before a layer on it that is to go. */
  ghost predicate GoneFromAbove(prev: Plan, next: Plan, gone: set<LayerId>) {
    forall id :: id in Dropped(prev, next) ==>
      prev.layers[id].layer.parent == "" || prev.layers[id].layer.parent !in gone || id in gone
  }

  lemma AllDroppedAfter(prev: Plan, next: Plan, b: Batch, m: nat)
    requires Layered(prev) && IsDropList(prev, next, b.drops) && m <= |b.drops|
    ensures GoneFromAbove(prev, next, DropIds(b.drops[..m]))
  {
    var gone := DropIds(b.drops[..m]);
    forall id | id in prev.layers && id !in next.layers && prev.layers[id].layer.parent in gone
                && prev.layers[id].layer.parent != ""
      ensures id in gone
    {
      DroppedAfter(prev, next, b, m, id, prev.layers[id].layer.parent);
    }
  }

  /** A parent is dropped after the layers on it. */
  lemma DroppedAfter(prev: Plan, next: Plan, b: Batch, m: nat, id: LayerId, parent: LayerId)
    requires Layered(prev) && IsDropList(prev, next, b.drops) && m <= |b.drops|
    requires id in prev.layers && id !in next.layers && prev.layers[id].layer.parent == parent != ""
    requires parent in DropIds(b.drops[..m])
    ensures id in DropIds(b.drops[..m])
  {
    var j :| 0 <= j < m && b.drops[j].DropLayer? && b.drops[j].layer == parent;
    assert b.drops[j] in b.drops && DropLayer(id) in b.drops;
    var i :| 0 <= i < |b.drops| && b.drops[i] == DropLayer(id);
    assert KindAt(prev, b.drops[i]) > KindAt(prev, b.drops[j]);
    assert i < j;
    assert b.drops[..m][i] == b.drops[i];
  }
}
