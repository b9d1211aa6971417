/**
 * A layer that moved, and a file its view shows before and after in one
 * version.  The overlay takes away the base's definition of a function; a
 * branch already in the graph has another.  Moved over the branch, the overlay
 * resolves the base's call to it, and the batch writes no edge.
 */
module MovedEdges {
  import opened Wrappers
  import opened Plans
  import opened Batches
  import opened Visibility
  import opened Edges
  import opened Resolving
  import opened Increments
  import opened Resolutions
  import opened ExactEdges
  import opened EdgeHistories
  import LayerIds
  import MovedOverlay
  import EdgeScenes

  /** The caller and the definition the overlay takes away are the base's, the other definition is the branch's. */
  datatype Scene = Scene(base: LayerId, branch: LayerId, overlay: LayerId, caller: Path, gone: Path, extra: Path,
                         main: string, called: string, sha: string)

  predicate IsScene(s: Scene) {
    && s.base != s.branch && s.base != s.overlay && s.branch != s.overlay
    && s.base != "" && s.branch != "" && s.overlay != ""
    && LayerIds.Parse(s.base) == Some(LayerIds.BaseName)
    && LayerIds.Parse(s.branch).Some? && LayerIds.Parse(s.branch).value.BranchName?
    && LayerIds.Parse(s.overlay).Some? && LayerIds.Parse(s.overlay).value.WorktreeName?
    && s.caller != s.gone && s.caller != s.extra && s.gone != s.extra
    && s.main != s.called && s.main != "" && s.sha != ""
  }

  lemma SceneExists()
    ensures IsScene(Scene("base", "branch:f@c", "wt:w:f", "a.go", "b.go", "c.go", "main", "helper", "1"))
  {
    MovedOverlay.BranchParses();
    MovedOverlay.OverlayParses();
    assert |"base"| == 4 && |"branch:f@c"| == 10 && |"wt:w:f"| == 6 && |"main"| == 4 && |"helper"| == 6;
    assert "a.go"[0] != "b.go"[0] && "a.go"[0] != "c.go"[0] && "b.go"[0] != "c.go"[0];
  }

  function Named(name: string): Symbol { EdgeScenes.Named(name) }

  function Call(s: Scene): Ref { Ref(s.called, "", "call", s.main, 1) }

  function FactsOf(s: Scene, path: Path, sha: string): Option<Facts> {
    if sha == "" then None
    else if path == s.caller then Some(Facts("go", {Named(s.main)}, [Call(s)]))
    else if path == s.gone || path == s.extra then Some(Facts("go", {Named(s.called)}, []))
    else None
  }

  /** The pick prefers the base's definition. */
  ghost function PickOf(s: Scene, found: set<Candidate>): Candidate {
    if exists c :: c in found && c.file.path == s.gone then
      var c :| c in found && c.file.path == s.gone; c
    else EdgeScenes.PickOf(found)
  }

  ghost function Language(s: Scene): Engine {
    Engine((path, src: FileSource) => FactsOf(s, path, src.sha), (l, path) => "", (l, f, ref) => [Try(false, c => true, None)],
           (kind, found) => PickOf(s, found), (kind, sym) => true, kind => false, n => n, n => n, (f, ref, sym) => "calls")
  }

  /** The overlay over the branch, or beside it over the base. */
  function Stack(s: Scene, moved: bool): Plan {
    var text := EdgeScenes.Text(s.sha);
    Plan("", map[s.base := LayerPlan(Layer(s.base, BaseKind, "", "", "", ""), map[s.caller := text, s.gone := text]),
                 s.branch := LayerPlan(Layer(s.branch, BranchKind, s.base, "", "", ""), map[s.extra := text]),
                 s.overlay := LayerPlan(Layer(s.overlay, WorktreeKind, if moved then s.branch else s.base, "", "", ""),
                                        map[s.gone := TOMBSTONE])])
  }

  lemma LanguageIsRegular(s: Scene)
    requires IsScene(s)
    ensures Regular(Language(s))
  {
    var e := Language(s);
    forall path, src, ref | e.facts(path, src).Some? && ref in e.facts(path, src).value.refs && ref.enclosing != ""
      ensures exists t :: t in e.facts(path, src).value.symbols && t.id == ref.enclosing
    {
      assert Named(s.main) in e.facts(path, src).value.symbols;
    }
  }

  lemma StackIsFit(s: Scene, moved: bool)
    requires IsScene(s)
    ensures IsFit(Language(s), Stack(s, moved))
  {
    StackIsLayered(s, moved);
  }

  lemma StackIsLayered(s: Scene, moved: bool)
    requires IsScene(s)
    ensures ValidPlan(Stack(s, moved)) && Layered(Stack(s, moved))
  {
    ThreeLayers(Stack(s, moved), s.base, s.branch, s.overlay);
    OverBase(Stack(s, moved), s.base, s.branch, s.overlay);
  }

  lemma ThreeLayers(p: Plan, a: LayerId, b: LayerId, c: LayerId)
    requires p.layers.Keys == {a, b, c}
    requires p.layers[a].layer.id == a && ValidLayer(p.layers[a].layer) && p.layers[a].layer.kind == BaseKind
    requires p.layers[b].layer.id == b && ValidLayer(p.layers[b].layer) && p.layers[b].layer.kind == BranchKind
    requires p.layers[c].layer.id == c && ValidLayer(p.layers[c].layer) && p.layers[c].layer.kind == WorktreeKind
    requires forall k :: Holds(p, k) && FileOf(p, k).deleted ==> FileOf(p, k) == TOMBSTONE
    ensures ValidPlan(p)
  {
    forall id, f | id in p.layers && f in p.layers[id].files && p.layers[id].files[f].deleted
      ensures p.layers[id].files[f].sha == "" && p.layers[id].files[f].oid == ""
    {
      assert Holds(p, Key(id, f)) && FileOf(p, Key(id, f)) == TOMBSTONE;
    }
  }

  lemma OverBase(p: Plan, a: LayerId, b: LayerId, c: LayerId)
    requires p.layers.Keys == {a, b, c}
    requires p.layers[a].layer.kind == BaseKind && p.layers[b].layer.kind == BranchKind && p.layers[c].layer.kind == WorktreeKind
    requires p.layers[a].layer.parent == "" && p.layers[b].layer.parent == a
    requires p.layers[c].layer.parent == a || p.layers[c].layer.parent == b
    ensures Layered(p)
  {
  }

  lemma Chains(s: Scene, moved: bool)
    requires IsScene(s)
    ensures var p := Stack(s, moved);
            && Ancestors(p, s.base) == [] && Ancestors(p, s.branch) == [s.base]
            && Ancestors(p, s.overlay) == if moved then [s.branch, s.base] else [s.base]
  {
    var p := Stack(s, moved);
    assert Parent(p, s.base) == "" && Parent(p, s.branch) == s.base;
    assert Walk(p, s.base, {s.branch}) == [s.base];
    assert Walk(p, s.base, {s.overlay}) == [s.base];
    assert Walk(p, s.base, {s.overlay} + {s.branch}) == [s.base];
    assert Walk(p, s.branch, {s.overlay}) == [s.branch] + Walk(p, s.base, {s.overlay} + {s.branch});
  }

  // ----- what the views show

  function FileAt(s: Scene, l: LayerId, path: Path): Option<SourceFile> {
    match FactsOf(s, path, s.sha)
    case None => None
    case Some(facts) => Some(SourceFile(path, l, "", facts))
  }

  lemma TopOfTwo(p: Plan, a: LayerId, b: LayerId, path: Path)
    ensures TopHolder(p, [a, b], path)
            == if Holds(p, Key(a, path)) then Some(a) else if Holds(p, Key(b, path)) then Some(b) else None
  {
    assert [a, b][1..] == [b] && [b][1..] == [];
    assert TopHolder(p, [], path) == None;
  }

  lemma TopOfThree(p: Plan, a: LayerId, b: LayerId, c: LayerId, path: Path)
    ensures TopHolder(p, [a, b, c], path) == if Holds(p, Key(a, path)) then Some(a) else TopHolder(p, [b, c], path)
  {
    assert [a, b, c][1..] == [b, c];
  }

  /** The branch's view: its definition and the base's files. */
  lemma BranchFiles(s: Scene, path: Path)
    requires IsScene(s)
    ensures FileIn(Language(s), Stack(s, true), s.branch, path) == FileAt(s, if path == s.extra then s.branch else s.base, path)
  {
    Chains(s, true);
    BranchShows(Stack(s, true), s.branch, s.base, path);
  }

  lemma BranchShows(p: Plan, branch: LayerId, base: LayerId, path: Path)
    requires Ancestors(p, branch) == [base]
    ensures TopHolder(p, Chain(p, branch), path)
            == if Holds(p, Key(branch, path)) then Some(branch) else if Holds(p, Key(base, path)) then Some(base) else None
  {
    assert Chain(p, branch) == [branch, base];
    TopOfTwo(p, branch, base, path);
  }

  /** The overlay's view: the base's caller, and the branch's definition once it is below. */
  lemma OverlayFiles(s: Scene, moved: bool, path: Path)
    requires IsScene(s)
    ensures FileIn(Language(s), Stack(s, moved), s.overlay, path)
            == if path == s.gone || (path == s.extra && !moved) then None
               else FileAt(s, if path == s.extra then s.branch else s.base, path)
  {
    Chains(s, moved);
    OverlayShows(Stack(s, moved), s.overlay, s.branch, s.base, path);
  }

  lemma OverlayShows(p: Plan, overlay: LayerId, branch: LayerId, base: LayerId, path: Path)
    requires Ancestors(p, overlay) == [base] || Ancestors(p, overlay) == [branch, base]
    ensures TopHolder(p, Chain(p, overlay), path)
            == if Holds(p, Key(overlay, path)) then Some(overlay)
               else if Ancestors(p, overlay) == [branch, base] && Holds(p, Key(branch, path)) then Some(branch)
               else if Holds(p, Key(base, path)) then Some(base) else None
  {
    if Ancestors(p, overlay) == [branch, base] {
      assert Chain(p, overlay) == [overlay, branch, base];
      TopOfThree(p, overlay, branch, base, path);
      TopOfTwo(p, branch, base, path);
    } else {
      assert Chain(p, overlay) == [overlay, base];
      TopOfTwo(p, overlay, base, path);
    }
  }

  function DefinitionAt(s: Scene, path: Path, l: LayerId): Candidate {
    Candidate(SourceFile(path, l, "", Facts("go", {Named(s.called)}, [])), Named(s.called))
  }

  lemma NoneFound(s: Scene)
    requires IsScene(s)
    ensures Candidates(Language(s), Stack(s, false), s.overlay, "go", s.called) == {}
  {
    var e, p := Language(s), Stack(s, false);
    forall path, t | FileIn(e, p, s.overlay, path).Some? && t in FileIn(e, p, s.overlay, path).value.facts.symbols
      ensures t.name != s.called
    {
      OverlayFiles(s, false, path);
    }
  }

  lemma OneFound(s: Scene)
    requires IsScene(s)
    ensures Candidates(Language(s), Stack(s, true), s.overlay, "go", s.called) == {DefinitionAt(s, s.extra, s.branch)}
  {
    var e, p, c := Language(s), Stack(s, true), DefinitionAt(s, s.extra, s.branch);
    OverlayFiles(s, true, s.extra);
    ShownPath(e, p, s.overlay, s.extra);
    forall path, t | FileIn(e, p, s.overlay, path).Some? && t in FileIn(e, p, s.overlay, path).value.facts.symbols
                     && t.name == s.called
      ensures Candidate(FileIn(e, p, s.overlay, path).value, t) == c
    {
      OverlayFiles(s, true, path);
    }
  }

  /** The branch's view has both and takes the base's. */
  lemma BranchTakesBase(s: Scene, f: SourceFile)
    requires IsScene(s) && f.facts.family == "go"
    ensures var r := Resolve(Language(s), Stack(s, true), s.branch, f, Call(s)); r.Some? && r.value.file.path == s.gone
  {
    var e, p, c := Language(s), Stack(s, true), DefinitionAt(s, s.gone, s.base);
    BranchFiles(s, s.gone);
    ShownPath(e, p, s.branch, s.gone);
    assert c in Candidates(e, p, s.branch, "go", s.called);
    assert c in Found(e, p, s.branch, f, Call(s), e.tries(s.branch, f, Call(s))[0], false);
  }

  // ----- the move

  function CallerOf(s: Scene): SourceFile { SourceFile(s.caller, s.base, "", Facts("go", {Named(s.main)}, [Call(s)])) }

  /** From the base's caller to the branch's definition. */
  function CallEdge(s: Scene): Edge {
    Edge(s.overlay, "calls", Node(s.base, s.caller, s.main), Node(s.branch, s.extra, s.called))
  }

  lemma NoneResolves(e: Engine, p: Plan, l: LayerId, f: SourceFile, ref: Ref)
    requires |e.tries(l, f, ref)| == 1 && e.tries(l, f, ref)[0].renamed.None?
    requires !e.kindFiltered(ref.kind) && Candidates(e, p, l, f.facts.family, ref.name) == {}
    ensures Resolve(e, p, l, f, ref).None?
  {
    var tries := e.tries(l, f, ref);
    assert Found(e, p, l, f, ref, tries[0], false) == {};
    assert tries[1..] == [] && WalkTries(e, p, l, f, ref, tries[1..], false).None?;
  }

  lemma WantsNoneBefore(s: Scene, g: Edge)
    requires IsScene(s)
    ensures !Wants(Language(s), Stack(s, false), s.overlay, CallerOf(s), g)
  {
    var e, p, f := Language(s), Stack(s, false), CallerOf(s);
    NoneFound(s);
    NoneResolves(e, p, s.overlay, f, Call(s));
    NoneWritten(e, p, s.overlay, f, Call(s), g);
  }

  lemma NoneWritten(e: Engine, p: Plan, l: LayerId, f: SourceFile, ref: Ref, g: Edge)
    requires f.facts.refs == [ref] && Resolve(e, p, l, f, ref).None?
    ensures !Wants(e, p, l, f, g)
  {
    assert Written(e, p, l, f, ref).None?;
    assert forall r :: r in f.facts.refs ==> r == ref;
  }

  /** A reference the view below resolves elsewhere gets an edge. */
  lemma OwnIsWanted(e: Engine, p: Plan, l: LayerId, b: LayerId, f: SourceFile, ref: Ref, c: Candidate)
    requires ref in f.facts.refs && ref.enclosing != "" && Resolve(e, p, l, f, ref) == Some(c)
    requires Ancestors(p, l) != [] && Ancestors(p, l)[0] == b && FileIn(e, p, b, f.path) == Some(f)
    requires Resolve(e, p, b, f, ref).Some? ==> NodeOf(Resolve(e, p, b, f, ref).value) != NodeOf(c)
    ensures Wants(e, p, l, f, EdgeFor(e, l, f, ref, c))
  {
    assert Written(e, p, l, f, ref) == Some(EdgeFor(e, l, f, ref, c));
  }

  lemma WantsCallAfter(s: Scene)
    requires IsScene(s)
    ensures Wants(Language(s), Stack(s, true), s.overlay, CallerOf(s), CallEdge(s))
  {
    var e, p, f, c := Language(s), Stack(s, true), CallerOf(s), DefinitionAt(s, s.extra, s.branch);
    LanguageIsRegular(s);
    OneFound(s);
    EdgeScenes.OneFound(e, p, s.overlay, f, Call(s), c);
    Chains(s, true);
    BranchFiles(s, s.caller);
    BranchTakesBase(s, f);
    assert f.facts.refs[0] == Call(s);
    OwnIsWanted(e, p, s.overlay, s.branch, f, Call(s), c);
  }

  lemma SameMeansUnchanged(prev: Plan, next: Plan)
    requires forall k :: Holds(prev, k) <==> Holds(next, k)
    requires forall k :: Holds(prev, k) ==> FileOf(prev, k) == FileOf(next, k)
    ensures forall k :: !IsChanged(prev, next, k)
    ensures forall l :: ChangedAt(prev, next, l) == {}
    ensures forall l :: l in next.layers && !ChainMoved(prev, next, l) ==> FullAt(prev, next, l) == {}
  {
  }

  lemma NothingChanged(s: Scene)
    requires IsScene(s)
    ensures var prev, next := Stack(s, false), Stack(s, true);
            && ChainMoved(prev, next, s.overlay)
            && (forall k :: !IsChanged(prev, next, k)) && (forall l :: ChangedAt(prev, next, l) == {})
            && FullAt(prev, next, s.branch) == {} && FullAt(prev, next, s.base) == {}
  {
    Chains(s, false);
    Chains(s, true);
    forall k { SameFiles(s, k); }
    SameMeansUnchanged(Stack(s, false), Stack(s, true));
  }

  lemma SameFiles(s: Scene, k: Key)
    ensures Holds(Stack(s, false), k) <==> Holds(Stack(s, true), k)
    ensures Holds(Stack(s, false), k) ==> FileOf(Stack(s, false), k) == FileOf(Stack(s, true), k)
  {
  }

  lemma MoveOverlooks(s: Scene)
    requires IsScene(s)
    ensures Overlooked(Language(s), Stack(s, false), Stack(s, true), {}, Key(s.overlay, s.caller))
  {
    var e, prev, next, f := Language(s), Stack(s, false), Stack(s, true), CallerOf(s);
    OverlayFiles(s, true, s.caller);
    Chains(s, true);
    NothingChanged(s);
    assert LowerPuts(prev, next, s.overlay) == {};
    assert AffectedNames(e, prev, next, s.overlay) == {};
    OverlookedExact(e, prev, next, {}, s.overlay, f);
  }

  /** From any exact edges, the batch that moves the overlay leaves its view without the call. */
  lemma MoveLosesEdge(s: Scene, edges: set<Edge>)
    requires IsScene(s) && IsExactBut(Language(s), Stack(s, false), edges, {})
    ensures var e, prev, next := Language(s), Stack(s, false), Stack(s, true);
            && Regular(e) && IsFit(e, prev) && IsFit(e, next)
            && FileIn(e, prev, s.overlay, s.caller) == Some(CallerOf(s))
            && FileIn(e, next, s.overlay, s.caller) == Some(CallerOf(s))
            && Overlooked(e, prev, next, {}, Key(s.overlay, s.caller))
            && Wants(e, next, s.overlay, CallerOf(s), CallEdge(s))
            && CallEdge(s) !in AfterBatch(e, prev, next, edges, {}, {})
  {
    var e, prev, next, k := Language(s), Stack(s, false), Stack(s, true), Key(s.overlay, s.caller);
    LanguageIsRegular(s);
    StackIsFit(s, false);
    StackIsFit(s, true);
    OverlayFiles(s, false, s.caller);
    OverlayFiles(s, true, s.caller);
    MoveOverlooks(s);
    WantsCallAfter(s);
    forall g { WantsNoneBefore(s, g); }
    NotGained(e, prev, next, edges, k, CallerOf(s), CallEdge(s));
  }

  /** An edge a file was not to have is not there after a batch that does not take it. */
  lemma NotGained(e: Engine, prev: Plan, next: Plan, edges: set<Edge>, k: Key, f: SourceFile, g: Edge)
    requires Enclosed(e) && IsExactBut(e, prev, edges, {}) && k.layer in prev.layers && f.path == k.path
    requires FileIn(e, prev, k.layer, k.path) == Some(f) && FileIn(e, next, k.layer, k.path) == Some(f)
    requires !IsTaken(e, prev, next, {}, k) && Wants(e, next, k.layer, f, g) && !Wants(e, prev, k.layer, f, g)
    ensures g !in AfterBatch(e, prev, next, edges, {}, {})
  {
    WantsIs(e, prev, k.layer, f, g);
    WantsIs(e, next, k.layer, f, g);
    EdgeIsOf(e, next, k.layer, k.path, g);
    assert k == Key(k.layer, k.path) && IsExact(e, prev, edges, k.layer, k.path);
    assert g in edges ==> g in EdgesAt(edges, k.layer, f);
    TakenIs(e, prev, next, {}, k);
    AfterResolvingIs(e, next, Surviving(e, edges, next), Taken(e, prev, next, {}) - {}, g);
  }
}
