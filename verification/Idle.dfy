/** Leaving idle overlays out of a selection (DropIdleOverlays in codeindex/lifecycle.go). */
module Idle {
  import opened Wrappers
  import opened Plans
  import opened Visibility
  import LayerIds

  /** An overlay with no file, of a listed worktree without activity in the idle period before now. */
  predicate IsIdle(p: Plan, lastActivity: map<string, int>, now: int, idle: int, id: LayerId) {
    && id in p.layers && p.layers[id].layer.kind == WorktreeKind && p.layers[id].files == map[]
    && var name := LayerIds.Parse(p.layers[id].layer.id);
       && name.Some? && name.value.WorktreeName?
       && name.value.worktree in lastActivity && now - lastActivity[name.value.worktree] >= idle
  }

  /** q is p without some overlays that hold no file. */
  ghost predicate LacksEmptyOverlays(p: Plan, q: Plan) {
    && q.defaultBranch == p.defaultBranch
    && (forall id :: id in q.layers ==> id in p.layers && q.layers[id] == p.layers[id])
    && (forall id :: id in p.layers && id !in q.layers ==> p.layers[id].layer.kind == WorktreeKind && p.layers[id].files == map[])
  }

  /** p without its idle overlays. */
  function WithoutIdle(p: Plan, lastActivity: map<string, int>, now: int, idle: int): Plan {
    p.(layers := map id | id in p.layers && !IsIdle(p, lastActivity, now, idle, id) :: p.layers[id])
  }

  method DropIdleOverlays(p: Plan, lastActivity: map<string, int>, now: int, idle: int) returns (q: Plan)
    ensures q == if idle <= 0 then p else WithoutIdle(p, lastActivity, now, idle)
    ensures LacksEmptyOverlays(p, q)
    ensures forall id :: id in p.layers ==>
              (id !in q.layers <==>
               && idle > 0 && p.layers[id].layer.kind == WorktreeKind && p.layers[id].files == map[]
               && exists w, ref :: LayerIds.Parse(p.layers[id].layer.id) == Some(LayerIds.WorktreeName(w, ref))
                    && w in lastActivity && lastActivity[w] + idle <= now)
  {
    if idle <= 0 { return p; }
    var layers: map<LayerId, LayerPlan> := map[];
    var todo := p.layers.Keys;
    while todo != {}
      invariant todo <= p.layers.Keys && layers.Keys <= p.layers.Keys - todo
      invariant forall id :: id in p.layers && id !in todo ==> (id in layers <==> !IsIdle(p, lastActivity, now, idle, id))
      invariant forall id :: id in layers ==> layers[id] == p.layers[id]
      decreases todo
    {
      var id :| id in todo;
      if !IsIdle(p, lastActivity, now, idle, id) { layers := layers[id := p.layers[id]]; }
      todo := todo - {id};
    }
    q := p.(layers := layers);
    assert layers == WithoutIdle(p, lastActivity, now, idle).layers;
  }

  /** Nothing sits on an overlay. */
  lemma NothingOnOverlays(p: Plan, id: LayerId)
    requires Layered(p) && Parent(p, id) in p.layers && Parent(p, id) != ""
    ensures p.layers[Parent(p, id)].layer.kind != WorktreeKind
  {
  }

  lemma {:induction false} SameWalk(p: Plan, q: Plan, cur: LayerId, seen: set<LayerId>)
    requires Layered(p) && LacksEmptyOverlays(p, q)
    requires cur in p.layers ==> cur in q.layers
    ensures Walk(q, cur, seen) == Walk(p, cur, seen)
    decreases p.layers.Keys - seen
  {
    if cur != "" && cur !in seen && cur in p.layers {
      var next := Parent(p, cur);
      assert Parent(q, cur) == next;
      if next != "" {
        NothingOnOverlays(p, cur);
        SameWalk(p, q, next, seen + {cur});
      }
    }
  }

  /** So no other layer changes: every chain and every hiddenBy list is as before, and the plan stays valid. */
  lemma OtherLayersStay(p: Plan, q: Plan)
    requires ValidPlan(p) && Layered(p) && LacksEmptyOverlays(p, q)
    ensures ValidPlan(q) && Layered(q)
    ensures forall id :: id in q.layers ==> Ancestors(q, id) == Ancestors(p, id)
    ensures forall k :: Holds(p, k) <==> Holds(q, k)
    ensures forall k :: Holds(q, k) ==> FileOf(q, k) == FileOf(p, k) && HiddenBy(q, k) == HiddenBy(p, k)
  {
    forall id | id in q.layers ensures Ancestors(q, id) == Ancestors(p, id) {
      var below := Parent(p, id);
      if below != "" { NothingOnOverlays(p, id); }
      SameWalk(p, q, below, {id});
    }
    forall id | id in q.layers && q.layers[id].layer.parent != "" ensures q.layers[id].layer.parent in q.layers {
      NothingOnOverlays(p, id);
    }
    forall k | Holds(q, k) ensures HiddenBy(q, k) == HiddenBy(p, k) {
      SameHiders(p, q, k);
    }
  }

  lemma SameHiders(p: Plan, q: Plan, k: Key)
    requires LacksEmptyOverlays(p, q) && forall id :: id in q.layers ==> Ancestors(q, id) == Ancestors(p, id)
    ensures HiddenBy(q, k) == HiddenBy(p, k)
  {
  }

  lemma {:induction false} GroundStays(p: Plan, q: Plan, cur: LayerId, seen: set<LayerId>)
    requires Layered(p) && LacksEmptyOverlays(p, q) && Grounded(p, cur, seen)
    requires cur in p.layers ==> cur in q.layers
    ensures Grounded(q, cur, seen)
    decreases p.layers.Keys - seen
  {
    if cur != "" && Parent(p, cur) != "" {
      NothingOnOverlays(p, cur);
      GroundStays(p, q, Parent(p, cur), seen + {cur});
    }
  }

  /** A layer left in keeps its view and what the view shows. */
  lemma ViewStays(p: Plan, q: Plan, id: LayerId)
    requires ValidPlan(p) && Layered(p) && LacksEmptyOverlays(p, q) && id in q.layers && HasView(p, id)
    ensures HasView(q, id) && Chain(q, id) == Chain(p, id)
    ensures forall path :: Shown(q, Chain(q, id), path) == Shown(p, Chain(p, id), path)
  {
    OtherLayersStay(p, q);
    GroundStays(p, q, id, {});
    forall path { SameShown(p, q, Chain(p, id), path); }
  }

  lemma {:induction false} SameShown(p: Plan, q: Plan, chain: seq<LayerId>, path: Path)
    requires forall k :: Holds(p, k) <==> Holds(q, k)
    requires forall k :: Holds(q, k) ==> FileOf(q, k) == FileOf(p, k)
    ensures TopHolder(q, chain, path) == TopHolder(p, chain, path) && Shown(q, chain, path) == Shown(p, chain, path)
  {
    if chain != [] { SameShown(p, q, chain[1..], path); }
  }
}
