/**
 * A project's code graph as the indexer writes it (the Graph contract of
 * codegraph/graph.go): layer nodes, the files each holds, and every file's
 * hiddenBy list.
 */
module Graphs {
  import opened Wrappers
  import opened Plans
  import LayerIds

  datatype GraphFile = GraphFile(sha: string, oid: string, deleted: bool, hidden: set<LayerId>)

  datatype GraphLayer = GraphLayer(node: Layer, files: map<Path, GraphFile>)

  type GraphState = map<LayerId, GraphLayer>

  datatype GraphError = UnknownLayer | NotFound | Invalid

  /** What a file source leaves in the graph: a tombstone carries no content. */
  function Stored(f: FileSource, hidden: set<LayerId>): GraphFile {
    if f.deleted then GraphFile("", "", true, hidden) else GraphFile(f.sha, f.oid, false, hidden)
  }

  predicate SameAs(gf: GraphFile, f: FileSource) {
    gf.sha == f.sha && gf.oid == f.oid && gf.deleted == f.deleted
  }

  predicate Has(g: GraphState, k: Key) {
    k.layer in g && k.path in g[k.layer].files
  }

  function At(g: GraphState, k: Key): GraphFile
    requires Has(g, k)
  {
    g[k.layer].files[k.path]
  }

  // ----- writes

  datatype Write =
    | PutLayer(node: Layer)
    | SetHidden(key: Key, hidden: set<LayerId>)
    | RemoveFile(key: Key)
    | ApplyFile(key: Key, file: FileSource, hiddenBy: Option<set<LayerId>>)
    | DropLayer(layer: LayerId)

  /** The error a write fails with, if any; a failed write changes nothing. */
  function Refuses(g: GraphState, w: Write): Option<GraphError> {
    match w
    case PutLayer(l) => if ValidLayer(l) then None else Some(Invalid)
    case SetHidden(k, _) => if Has(g, k) then None else Some(NotFound)
    case RemoveFile(_) => None
    case ApplyFile(k, _, _) => if k.layer in g then None else Some(UnknownLayer)
    case DropLayer(_) => None
  }

  function WithFile(g: GraphState, k: Key, f: GraphFile): GraphState
    requires k.layer in g
  {
    g[k.layer := GraphLayer(g[k.layer].node, g[k.layer].files[k.path := f])]
  }

  /** A file with one layer's id taken out of its hiddenBy. */
  function Unhide(f: GraphFile, id: LayerId): GraphFile {
    f.(hidden := f.hidden - {id})
  }

  function Step(g: GraphState, w: Write): GraphState {
    if Refuses(g, w).Some? then g else
    match w
    case PutLayer(l) => g[l.id := GraphLayer(l, if l.id in g then g[l.id].files else map[])]
    case SetHidden(k, hidden) => WithFile(g, k, At(g, k).(hidden := hidden))
    case RemoveFile(k) =>
      if k.layer in g then g[k.layer := GraphLayer(g[k.layer].node, g[k.layer].files - {k.path})] else g
    case ApplyFile(k, f, hiddenBy) =>
      WithFile(g, k, Stored(f, match hiddenBy
                               case Some(hidden) => hidden
                               case None => if Has(g, k) then At(g, k).hidden else {}))
    case DropLayer(id) =>
      map j | j in g && j != id ::
        GraphLayer(g[j].node, map f | f in g[j].files :: Unhide(g[j].files[f], id))
  }

  function Run(g: GraphState, ws: seq<Write>): GraphState {
    if ws == [] then g else Step(Run(g, ws[..|ws| - 1]), ws[|ws| - 1])
  }

  lemma {:induction false} RunConcat(g: GraphState, a: seq<Write>, b: seq<Write>)
    ensures Run(g, a + b) == Run(Run(g, a), b)
  {
    if b == [] {
      assert a + b == a;
    } else {
      assert (a + b)[..|a + b| - 1] == a + b[..|b| - 1];
      RunConcat(g, a, b[..|b| - 1]);
    }
  }

  lemma RunSnoc(g: GraphState, ws: seq<Write>, w: Write)
    ensures Run(g, ws + [w]) == Step(Run(g, ws), w)
  {
    assert (ws + [w])[..|ws|] == ws;
  }

  /** Only k's file may differ. */
  ghost predicate OneFile(g: GraphState, h: GraphState, k: Key) {
    && h.Keys == g.Keys && (forall id :: id in g ==> h[id].node == g[id].node)
    && (forall j :: j != k ==> (Has(h, j) <==> Has(g, j)) && (Has(g, j) ==> At(h, j) == At(g, j)))
  }

  /** The graph in place: each call is one write. */
  class Graph {
    var state: GraphState

    constructor ()
      ensures state == map[]
    {
      state := map[];
    }

    method PutLayer(l: Layer) returns (err: Option<GraphError>)
      modifies this
      ensures err == Refuses(old(state), Write.PutLayer(l)) && state == Step(old(state), Write.PutLayer(l))
      ensures err.None? <==>
                && (l.parent == "" || LayerIds.Parse(l.parent).Some?) && LayerIds.Parse(l.id).Some?
                && var name := LayerIds.Parse(l.id).value;
                   (name.BaseName? <==> l.kind == BaseKind) && (name.BranchName? <==> l.kind == BranchKind)
      ensures if err.Some? then err == Some(Invalid) && state == old(state)
              else
                && state.Keys == old(state).Keys + {l.id} && state[l.id].node == l
                && state[l.id].files == (if l.id in old(state) then old(state)[l.id].files else map[])
                && forall id :: id in old(state) && id != l.id ==> state[id] == old(state)[id]
    {
      if !ValidLayer(l) { return Some(Invalid); }
      state := state[l.id := GraphLayer(l, if l.id in state then state[l.id].files else map[])];
      err := None;
    }

    method SetHidden(k: Key, hidden: set<LayerId>) returns (err: Option<GraphError>)
      modifies this
      ensures err == Refuses(old(state), Write.SetHidden(k, hidden))
      ensures state == Step(old(state), Write.SetHidden(k, hidden))
      ensures err == if k.layer in old(state) && k.path in old(state)[k.layer].files then None else Some(NotFound)
      ensures if err.Some? then state == old(state)
              else OneFile(old(state), state, k) && Has(state, k) && At(state, k) == At(old(state), k).(hidden := hidden)
    {
      if !Has(state, k) { return Some(NotFound); }
      var l := state[k.layer];
      state := state[k.layer := GraphLayer(l.node, l.files[k.path := l.files[k.path].(hidden := hidden)])];
      err := None;
    }

    method RemoveFile(k: Key)
      modifies this
      ensures state == Step(old(state), Write.RemoveFile(k))
      ensures OneFile(old(state), state, k) && !Has(state, k)
    {
      if k.layer in state {
        var l := state[k.layer];
        state := state[k.layer := GraphLayer(l.node, l.files - {k.path})];
      }
    }

    method ApplyFile(k: Key, f: FileSource, hiddenBy: Option<set<LayerId>>) returns (err: Option<GraphError>)
      modifies this
      ensures err == Refuses(old(state), Write.ApplyFile(k, f, hiddenBy))
      ensures state == Step(old(state), Write.ApplyFile(k, f, hiddenBy))
      ensures err == if k.layer in old(state) then None else Some(UnknownLayer)
      ensures if err.Some? then state == old(state)
              else
                && OneFile(old(state), state, k) && Has(state, k) && At(state, k).deleted == f.deleted
                && (!f.deleted ==> At(state, k).sha == f.sha && At(state, k).oid == f.oid)
                && At(state, k).hidden == match hiddenBy
                                          case Some(hidden) => hidden
                                          case None => if Has(old(state), k) then At(old(state), k).hidden else {}
    {
      if k.layer !in state { return Some(UnknownLayer); }
      var l := state[k.layer];
      var hidden := if hiddenBy.Some? then hiddenBy.value
                    else if k.path in l.files then l.files[k.path].hidden else {};
      state := state[k.layer := GraphLayer(l.node, l.files[k.path := Stored(f, hidden)])];
      err := None;
    }

    method DropLayer(id: LayerId)
      modifies this
      ensures state == Step(old(state), Write.DropLayer(id))
      ensures state.Keys == old(state).Keys - {id}
      ensures forall j :: j in state ==> state[j].node == old(state)[j].node
      ensures forall k :: Has(state, k) <==> k.layer != id && Has(old(state), k)
      ensures forall k :: Has(state, k) ==>
                && At(state, k).hidden == At(old(state), k).hidden - {id}
                && At(state, k).sha == At(old(state), k).sha && At(state, k).oid == At(old(state), k).oid
                && At(state, k).deleted == At(old(state), k).deleted
    {
      var rest := state - {id};
      state := map j | j in rest :: GraphLayer(rest[j].node, map f | f in rest[j].files :: Unhide(rest[j].files[f], id));
    }

    method Drop()
      modifies this
      ensures state == map[]
    {
      state := map[];
    }
  }

  // ----- what a graph holds

  /** What a graph holds, read back as a plan (tombstones included). */
  function PlanFromGraph(g: GraphState): Plan {
    Plan(if LayerIds.BASE in g then g[LayerIds.BASE].node.ref else "",
         map id | id in g :: LayerPlan(g[id].node, map f | f in g[id].files :: SourceOf(g[id].files[f])))
  }

  function SourceOf(f: GraphFile): FileSource {
    FileSource(f.sha, f.oid, "", "", 0, "", f.deleted)
  }

  /** g holds p's layer nodes and files (blob, git blob id, tombstone), whatever its hiddenBy lists say. */
  ghost predicate HoldsPlan(g: GraphState, p: Plan) {
    && g.Keys == p.layers.Keys
    && (forall id :: id in g ==> g[id].node == p.layers[id].layer)
    && (forall k :: Has(g, k) <==> Holds(p, k))
    && (forall k :: Has(g, k) ==> SameAs(At(g, k), FileOf(p, k)))
  }

  /** g holds exactly p, every hiddenBy list included. */
  ghost predicate Settled(g: GraphState, p: Plan) {
    HoldsPlan(g, p) && forall k :: Has(g, k) ==> At(g, k).hidden == HiddenBy(p, k)
  }

  /** The plan read back has the graph's nodes and files and follows the base's ref. */
  lemma PlanFromGraphHolds(g: GraphState)
    ensures HoldsPlan(g, PlanFromGraph(g))
    ensures PlanFromGraph(g).defaultBranch == if "base" in g then g["base"].node.ref else ""
  {
  }

  /** A graph is determined by the plan it is settled on. */
  lemma SettledUnique(g: GraphState, h: GraphState, p: Plan)
    requires Settled(g, p) && Settled(h, p)
    ensures g == h
  {
    forall id | id in g ensures g[id] == h[id] {
      assert forall f :: f in g[id].files <==> Has(g, Key(id, f));
      assert forall f :: f in h[id].files <==> Has(h, Key(id, f));
      assert forall f :: f in g[id].files ==> g[id].files[f] == At(g, Key(id, f)) && h[id].files[f] == At(h, Key(id, f));
      assert g[id].files == h[id].files;
    }
  }
}
