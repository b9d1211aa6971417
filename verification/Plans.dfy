/**
 * Selections (codeindex/layers.go) and the questions hiddenBy asks of them
 * (codeindex/apply.go): layers stacked through Parent, the files each holds,
 * and the difference of two selections.
 *
 * A plan's layer list and a layer's file list are sorted by a unique key in
 * the source, so each is the map it denotes.
 */
module Plans {
  import LayerIds

  type LayerId = string
  type Path = string

  datatype Kind = BaseKind | BranchKind | WorktreeKind

  /** Layer kinds bottom-up. */
  function Rank(kind: Kind): nat {
    match kind
    case BaseKind => 0
    case BranchKind => 1
    case WorktreeKind => 2
  }

  datatype Layer = Layer(id: LayerId, kind: Kind, parent: LayerId, owner: string, ref: string, commit: string)

  /** One path of a layer as selected; the path is the key it is filed under. */
  datatype FileSource = FileSource(sha: string, oid: string, lang: string, mode: string, size: int,
                                   session: string, deleted: bool)

  const TOMBSTONE := FileSource("", "", "", "", 0, "", true)

  /** Whether two files index the same thing: blob, git blob id, tombstone. */
  predicate SameFile(a: FileSource, b: FileSource) {
    a.sha == b.sha && a.oid == b.oid && a.deleted == b.deleted
  }

  datatype LayerPlan = LayerPlan(layer: Layer, files: map<Path, FileSource>)

  datatype Plan = Plan(defaultBranch: string, layers: map<LayerId, LayerPlan>)

  const EMPTY_PLAN := Plan("", map[])

  datatype Key = Key(layer: LayerId, path: Path)

  /** A layer node the graph accepts: a well-formed id that agrees with the kind. */
  predicate ValidLayer(l: Layer) {
    && (l.parent == "" || LayerIds.Parse(l.parent).Some?)
    && match LayerIds.Parse(l.id)
       case None => false
       case Some(BaseName) => l.kind == BaseKind
       case Some(BranchName(_, _)) => l.kind == BranchKind
       case Some(WorktreeName(_, _)) => l.kind == WorktreeKind
  }

  /** Layers filed under their own ids; tombstones name no content. */
  predicate ValidPlan(p: Plan) {
    && (forall id :: id in p.layers ==> p.layers[id].layer.id == id && ValidLayer(p.layers[id].layer))
    && (forall id, f :: id in p.layers && f in p.layers[id].files && p.layers[id].files[f].deleted ==>
          p.layers[id].files[f].sha == "" && p.layers[id].files[f].oid == "")
  }

  /** Every layer sits on a layer of the plan of a lower kind, or on nothing. */
  predicate Layered(p: Plan) {
    forall id :: id in p.layers && p.layers[id].layer.parent != "" ==>
      p.layers[id].layer.parent in p.layers
      && Rank(p.layers[p.layers[id].layer.parent].layer.kind) < Rank(p.layers[id].layer.kind)
  }

  // ----- chains of parents

  function Parent(p: Plan, id: LayerId): LayerId {
    if id in p.layers then p.layers[id].layer.parent else ""
  }

  /** The layers met from cur down through Parent, none of seen and none twice. */
  function Walk(p: Plan, cur: LayerId, seen: set<LayerId>): seq<LayerId>
    decreases p.layers.Keys - seen
  {
    if cur == "" || cur in seen || cur !in p.layers then []
    else [cur] + Walk(p, Parent(p, cur), seen + {cur})
  }

  /** The layers below id, nearest first; a parent the plan does not hold ends the chain. */
  function Ancestors(p: Plan, id: LayerId): seq<LayerId> {
    Walk(p, Parent(p, id), {id})
  }

  lemma {:induction false} WalkMeaning(p: Plan, cur: LayerId, seen: set<LayerId>, i: nat)
    requires i <= |Walk(p, cur, seen)|
    ensures var w := Walk(p, cur, seen);
            var at := if i == 0 then cur else Parent(p, w[i - 1]);
            if i < |w| then w[i] == at && at in p.layers && at != "" && at !in seen && at !in w[..i]
            else at == "" || at !in p.layers || at in seen || at in w
    decreases i
  {
    var w := Walk(p, cur, seen);
    if w != [] {
      var rest := Walk(p, Parent(p, cur), seen + {cur});
      if i > 0 {
        WalkMeaning(p, Parent(p, cur), seen + {cur}, i - 1);
        assert w[..i] == [cur] + rest[..i - 1];
      }
    }
  }

  /**
   * The layers below id: its parent, that one's parent and so on, up to a
   * layer with none, one the plan does not hold, or one met before.
   */
  lemma AncestorsMeaning(p: Plan, id: LayerId, i: nat)
    requires i <= |Ancestors(p, id)|
    ensures var below := Ancestors(p, id);
            var at := if i == 0 then (if id in p.layers then p.layers[id].layer.parent else "")
                      else if below[i - 1] in p.layers then p.layers[below[i - 1]].layer.parent else "";
            if i < |below| then below[i] == at && at in p.layers && at != id && at !in below[..i]
            else at == "" || at !in p.layers || at == id || at in below
  {
    WalkMeaning(p, Parent(p, id), {id}, i);
  }

  method ComputeAncestors(p: Plan, id: LayerId) returns (out: seq<LayerId>)
    ensures out == Ancestors(p, id)
  {
    out := [];
    var seen := {id};
    var cur := Parent(p, id);
    while cur != "" && cur !in seen
      invariant out + Walk(p, cur, seen) == Ancestors(p, id)
      decreases p.layers.Keys - seen
    {
      if cur !in p.layers { break; }
      seen := seen + {cur};
      out := out + [cur];
      cur := Parent(p, cur);
    }
  }

  // ----- who holds and who hides a path

  predicate Holds(p: Plan, k: Key) {
    k.layer in p.layers && k.path in p.layers[k.layer].files
  }

  function FileOf(p: Plan, k: Key): FileSource
    requires Holds(p, k)
  {
    p.layers[k.layer].files[k.path]
  }

  /** The layers above k's layer that hold its path. */
  function HiddenBy(p: Plan, k: Key): set<LayerId> {
    set h | h in p.layers && k.layer in Ancestors(p, h) && k.path in p.layers[h].files
  }

  /** The index a batch asks: a plan with, per layer, the layers that have it below them. */
  datatype PlanIndex = PlanIndex(plan: Plan, above: map<LayerId, set<LayerId>>)

  predicate IsAbove(above: map<LayerId, set<LayerId>>, a: LayerId, h: LayerId) {
    a in above && h in above[a]
  }

  ghost predicate Indexes(ix: PlanIndex, p: Plan) {
    ix.plan == p && forall a, h :: IsAbove(ix.above, a, h) <==> (h in p.layers && a in Ancestors(p, h))
  }

  method IndexPlan(p: Plan) returns (ix: PlanIndex)
    ensures Indexes(ix, p)
  {
    var above: map<LayerId, set<LayerId>> := map[];
    var todo := p.layers.Keys;
    while todo != {}
      invariant todo <= p.layers.Keys
      invariant forall a, h :: IsAbove(above, a, h) <==> (h in p.layers.Keys - todo && a in Ancestors(p, h))
      decreases todo
    {
      var id :| id in todo;
      var chain := ComputeAncestors(p, id);
      above := AddAbove(above, chain, id);
      todo := todo - {id};
    }
    ix := PlanIndex(p, above);
  }

  method AddAbove(above: map<LayerId, set<LayerId>>, chain: seq<LayerId>, id: LayerId)
    returns (out: map<LayerId, set<LayerId>>)
    ensures forall a, h :: IsAbove(out, a, h) <==> (IsAbove(above, a, h) || (h == id && a in chain))
  {
    out := above;
    for i := 0 to |chain|
      invariant forall a, h :: IsAbove(out, a, h) <==> (IsAbove(above, a, h) || (h == id && a in chain[..i]))
    {
      var a := chain[i];
      out := out[a := (if a in out then out[a] else {}) + {id}];
      assert forall x :: x in chain[..i + 1] <==> x in chain[..i] || x == a;
    }
    assert chain[..|chain|] == chain;
  }

  method ComputeHiddenBy(ix: PlanIndex, k: Key, ghost p: Plan) returns (out: set<LayerId>)
    requires Indexes(ix, p)
    ensures out == HiddenBy(p, k)
  {
    out := {};
    var todo := if k.layer in ix.above then ix.above[k.layer] else {};
    ghost var all := todo;
    assert forall h :: h in all ==> IsAbove(ix.above, k.layer, h);
    while todo != {}
      invariant todo <= all
      invariant all == set h | h in p.layers && IsAbove(ix.above, k.layer, h)
      invariant out == set h | h in all - todo && Holds(p, Key(h, k.path))
      decreases todo
    {
      var h :| h in todo;
      if Holds(ix.plan, Key(h, k.path)) {
        out := out + {h};
      }
      todo := todo - {h};
    }
  }

  // ----- the difference of two plans

  datatype LayerDelta = LayerDelta(layer: Layer, isNew: bool, put: map<Path, FileSource>, remove: set<Path>)

  datatype Delta = Delta(layers: map<LayerId, LayerDelta>, dropped: set<LayerId>)

  predicate EmptyDelta(d: Delta) {
    d.layers == map[] && d.dropped == {}
  }

  /** next holds k and prev does not hold the same file there. */
  predicate IsPut(prev: Plan, next: Plan, k: Key) {
    Holds(next, k) && !(Holds(prev, k) && SameFile(FileOf(prev, k), FileOf(next, k)))
  }

  /** A layer of both plans that no longer holds the path. */
  predicate IsRemoved(prev: Plan, next: Plan, k: Key) {
    k.layer in next.layers && Holds(prev, k) && !Holds(next, k)
  }

  predicate IsChanged(prev: Plan, next: Plan, k: Key) {
    IsPut(prev, next, k) || IsRemoved(prev, next, k)
  }

  function PutsOf(prev: Plan, next: Plan, id: LayerId): map<Path, FileSource>
    requires id in next.layers
  {
    map f | f in next.layers[id].files && IsPut(prev, next, Key(id, f)) :: next.layers[id].files[f]
  }

  function RemovesOf(prev: Plan, next: Plan, id: LayerId): set<Path> {
    if id in prev.layers then set f | f in prev.layers[id].files && IsRemoved(prev, next, Key(id, f)) else {}
  }

  /** A layer is in the difference when it is new, its node changed or a file of it did. */
  predicate InDelta(prev: Plan, next: Plan, id: LayerId) {
    && id in next.layers
    && (|| id !in prev.layers
        || prev.layers[id].layer != next.layers[id].layer
        || PutsOf(prev, next, id) != map[]
        || RemovesOf(prev, next, id) != {})
  }

  function DiffOf(prev: Plan, next: Plan): Delta {
    Delta(map id | id in next.layers && InDelta(prev, next, id) ::
            LayerDelta(next.layers[id].layer, id !in prev.layers, PutsOf(prev, next, id), RemovesOf(prev, next, id)),
          set id | id in prev.layers && id !in next.layers)
  }

  method Diff(prev: Plan, next: Plan) returns (d: Delta)
    ensures d == DiffOf(prev, next)
  {
    var layers: map<LayerId, LayerDelta> := map[];
    var kept: set<LayerId> := {};
    var todo := next.layers.Keys;
    while todo != {}
      invariant todo <= next.layers.Keys && kept == next.layers.Keys - todo
      invariant layers.Keys == set id | id in kept && InDelta(prev, next, id)
      invariant forall id :: id in layers ==> layers[id] == DiffOf(prev, next).layers[id]
      decreases todo
    {
      var id :| id in todo;
      var ld := DiffLayer(prev, next, id);
      if ld.isNew || prev.layers[id].layer != ld.layer || ld.put != map[] || ld.remove != {} {
        layers := layers[id := ld];
      }
      kept := kept + {id};
      todo := todo - {id};
    }
    var dropped := {};
    todo := prev.layers.Keys;
    while todo != {}
      invariant todo <= prev.layers.Keys
      invariant dropped == set id | id in prev.layers.Keys - todo && id !in next.layers
      decreases todo
    {
      var id :| id in todo;
      if id !in kept { dropped := dropped + {id}; }
      todo := todo - {id};
    }
    d := Delta(layers, dropped);
  }

  method DiffLayer(prev: Plan, next: Plan, id: LayerId) returns (ld: LayerDelta)
    requires id in next.layers
    ensures ld == LayerDelta(next.layers[id].layer, id !in prev.layers, PutsOf(prev, next, id), RemovesOf(prev, next, id))
  {
    var put: map<Path, FileSource> := map[];
    var files := next.layers[id].files;
    var oldFiles := if id in prev.layers then prev.layers[id].files else map[];
    var todo := files.Keys;
    while todo != {}
      invariant todo <= files.Keys
      invariant put == map f | f in files.Keys - todo && IsPut(prev, next, Key(id, f)) :: files[f]
      decreases todo
    {
      var f :| f in todo;
      if f !in oldFiles || !SameFile(oldFiles[f], files[f]) {
        put := put[f := files[f]];
      }
      todo := todo - {f};
    }
    assert put == PutsOf(prev, next, id);
    var remove := {};
    todo := oldFiles.Keys;
    while todo != {}
      invariant todo <= oldFiles.Keys
      invariant remove == set f | f in oldFiles.Keys - todo && f !in files
      decreases todo
    {
      var f :| f in todo;
      if f !in files { remove := remove + {f}; }
      todo := todo - {f};
    }
    ld := LayerDelta(next.layers[id].layer, id !in prev.layers, put, remove);
  }

  /** The plans agree layer by layer, file by file. */
  ghost predicate Agree(prev: Plan, next: Plan) {
    && prev.layers.Keys == next.layers.Keys
    && (forall id :: id in next.layers ==> prev.layers[id].layer == next.layers[id].layer)
    && (forall k :: Holds(prev, k) <==> Holds(next, k))
    && (forall k :: Holds(next, k) ==> SameFile(FileOf(prev, k), FileOf(next, k)))
  }

  /** The difference changes nothing exactly when the plans agree. */
  lemma EmptyDiff(prev: Plan, next: Plan)
    ensures EmptyDelta(DiffOf(prev, next)) <==> Agree(prev, next)
  {
    if EmptyDelta(DiffOf(prev, next)) { EmptyMeansAgree(prev, next); }
    if Agree(prev, next) { AgreeMeansEmpty(prev, next); }
  }

  lemma NotInDelta(prev: Plan, next: Plan, k: Key)
    requires k.layer in next.layers && !InDelta(prev, next, k.layer)
    ensures !IsChanged(prev, next, k)
  {
    assert k == Key(k.layer, k.path);
    assert k.path !in PutsOf(prev, next, k.layer) && k.path !in RemovesOf(prev, next, k.layer);
  }

  lemma EmptyMeansAgree(prev: Plan, next: Plan)
    requires EmptyDelta(DiffOf(prev, next))
    ensures Agree(prev, next)
  {
    var d := DiffOf(prev, next);
    forall id | id in next.layers ensures !InDelta(prev, next, id) { assert id !in d.layers; }
    forall id | id in prev.layers ensures id in next.layers { assert id !in d.dropped; }
    forall k: Key ensures k.layer in next.layers ==> !IsChanged(prev, next, k) {
      if k.layer in next.layers { NotInDelta(prev, next, k); }
    }
  }

  lemma AgreeMeansEmpty(prev: Plan, next: Plan)
    requires Agree(prev, next)
    ensures EmptyDelta(DiffOf(prev, next))
  {
    forall id | id in next.layers ensures !InDelta(prev, next, id) {
      forall f ensures f !in PutsOf(prev, next, id) && f !in RemovesOf(prev, next, id) {
        assert Holds(prev, Key(id, f)) <==> Holds(next, Key(id, f));
      }
      assert PutsOf(prev, next, id) == map[];
    }
    var d := DiffOf(prev, next);
    assert d.layers.Keys == {};
    assert d.layers == map[] && d.dropped == {};
  }
}
