/**
 * Where a batch leaves wrong edges.  A base file calls a function that an
 * overlay defines anew.  Reverting the overlay's own version of the caller
 * leaves its view without the call, unless the graph still holds the edge from
 * before; taking the call out of the base's version leaves its view with it,
 * at once or when the overlay's version is reverted.
 */
module EdgeScenes {
  import opened Wrappers
  import opened Plans
  import opened Visibility
  import opened Edges
  import opened Inheritance
  import opened Resolving
  import opened Increments
  import opened Resolutions
  import opened ExactEdges
  import opened EdgeHistories
  import opened Overlooks
  import LayerIds
  import MovedOverlay
  import RevertedEdit

  /** Two files, a definition in each, and the versions they come in: only one version of the caller is quiet. */
  datatype Scene = Scene(base: LayerId, overlay: LayerId, caller: Path, callee: Path, main: string, called: string,
                         calls: string, quiet: string, other: string)

  predicate IsScene(s: Scene) {
    && s.base != s.overlay && s.base != "" && s.overlay != ""
    && LayerIds.Parse(s.base) == Some(LayerIds.BaseName)
    && LayerIds.Parse(s.overlay).Some? && LayerIds.Parse(s.overlay).value.WorktreeName?
    && s.caller != s.callee && s.main != s.called && s.main != ""
    && s.calls != "" && s.quiet != "" && s.other != "" && s.calls != s.quiet && s.other != s.quiet && s.calls != s.other
  }

  lemma SceneExists()
    ensures IsScene(Scene("base", "wt:w:f", "a.go", "b.go", "main", "helper", "1", "2", "3"))
  {
    MovedOverlay.OverlayParses();
    assert |"base"| == 4 && |"wt:w:f"| == 6 && |"main"| == 4 && |"helper"| == 6;
    assert "a.go"[0] != "b.go"[0] && "1"[0] != "2"[0] && "3"[0] != "2"[0] && "1"[0] != "3"[0];
  }

  function Text(sha: string): FileSource { FileSource(sha, "", "", "", 0, "", false) }

  function Named(name: string): Symbol { Symbol(name, name, name, "function", "", true) }

  function Call(s: Scene): Ref { Ref(s.called, "", "call", s.main, 1) }

  /** What is in a file version. */
  function FactsOf(s: Scene, path: Path, sha: string): Option<Facts> {
    if sha == "" then None
    else if path == s.caller then Some(Facts("go", {Named(s.main)}, if sha == s.quiet then [] else [Call(s)]))
    else if path == s.callee then Some(Facts("go", {Named(s.called)}, []))
    else None
  }

  ghost function PickOf(found: set<Candidate>): Candidate {
    if found == {} then Candidate(SourceFile("", "", "", Facts("", {}, [])), Named(""))
    else var c :| c in found; c
  }

  /** A language in which a name refers to its definition. */
  ghost function Language(s: Scene): Engine {
    Engine((path, src: FileSource) => FactsOf(s, path, src.sha), (l, path) => "", (l, f, ref) => [Try(false, c => true, None)],
           (kind, found) => PickOf(found), (kind, sym) => true, kind => false, n => n, n => n, (f, ref, sym) => "calls")
  }

  /** The base with a version of the caller; over it the overlay with its own callee, and its own caller if both. */
  function Stack(s: Scene, sha: string, both: bool): Plan {
    Plan("", map[s.base := LayerPlan(Layer(s.base, BaseKind, "", "", "", ""), map[s.caller := Text(sha), s.callee := Text(s.calls)]),
                 s.overlay := LayerPlan(Layer(s.overlay, WorktreeKind, s.base, "", "", ""),
                                        if both then map[s.caller := Text(s.other), s.callee := Text(s.other)]
                                        else map[s.callee := Text(s.other)])])
  }

  lemma LanguageIsRegular(s: Scene)
    requires IsScene(s)
    ensures Regular(Language(s))
  {
    var e := Language(s);
    forall path, src, ref | e.facts(path, src).Some? && ref in e.facts(path, src).value.refs && ref.enclosing != ""
      ensures exists t :: t in e.facts(path, src).value.symbols && t.id == ref.enclosing
    {
      assert Named(s.main) in e.facts(path, src).value.symbols;
    }
  }

  lemma Chains(s: Scene, sha: string, both: bool)
    requires IsScene(s)
    ensures var p := Stack(s, sha, both);
            && Ancestors(p, s.base) == [] && Ancestors(p, s.overlay) == [s.base]
            && HasView(p, s.base) && HasView(p, s.overlay)
  {
    var p := Stack(s, sha, both);
    assert Parent(p, s.base) == "" && Parent(p, s.overlay) == s.base;
    assert Walk(p, s.base, {s.overlay}) == [s.base] + Walk(p, "", {s.overlay} + {s.base});
    assert Grounded(p, "", {} + {s.base}) && Grounded(p, "", {} + {s.overlay} + {s.base});
    assert Grounded(p, s.base, {}) && Grounded(p, s.base, {} + {s.overlay});
  }

  lemma StackIsLayered(s: Scene, sha: string, both: bool)
    requires IsScene(s)
    ensures ValidPlan(Stack(s, sha, both)) && Layered(Stack(s, sha, both))
  {
    var p := Stack(s, sha, both);
    RevertedEdit.TwoLayers(p, s.base, s.overlay);
    OneOverOther(p, s.base, s.overlay);
  }

  lemma OneOverOther(p: Plan, base: LayerId, overlay: LayerId)
    requires p.layers.Keys == {base, overlay}
    requires p.layers[base].layer.parent == "" && p.layers[overlay].layer.parent == base
    requires p.layers[base].layer.kind == BaseKind && p.layers[overlay].layer.kind == WorktreeKind
    ensures Layered(p)
  {
  }

  lemma StackIsFit(s: Scene, sha: string, both: bool)
    requires IsScene(s)
    ensures IsFit(Language(s), Stack(s, sha, both))
  {
    Chains(s, sha, both);
    StackIsLayered(s, sha, both);
  }

  // ----- what the views show

  lemma ShownInTwo(p: Plan, base: LayerId, overlay: LayerId, path: Path)
    requires Ancestors(p, overlay) == [base] && Ancestors(p, base) == []
    requires forall k :: Holds(p, k) ==> !FileOf(p, k).deleted
    ensures Shown(p, Chain(p, base), path) == if Holds(p, Key(base, path)) then Some(base) else None
    ensures Shown(p, Chain(p, overlay), path)
            == if Holds(p, Key(overlay, path)) then Some(overlay) else Shown(p, Chain(p, base), path)
  {
    assert Chain(p, overlay) == [overlay, base] && Chain(p, overlay)[1..] == [base] && Chain(p, base) == [base];
    assert TopHolder(p, [base], path) == if Holds(p, Key(base, path)) then Some(base) else TopHolder(p, [], path);
  }

  function FileAt(s: Scene, l: LayerId, path: Path, sha: string): Option<SourceFile> {
    match FactsOf(s, path, sha)
    case None => None
    case Some(facts) => Some(SourceFile(path, l, "", facts))
  }

  /** The base shows its own files; the overlay its own callee, and whichever caller is on top. */
  lemma Files(s: Scene, sha: string, both: bool, path: Path)
    requires IsScene(s) && sha != ""
    ensures var e, p := Language(s), Stack(s, sha, both);
            && FileIn(e, p, s.base, path) == FileAt(s, s.base, path, if path == s.caller then sha else s.calls)
            && FileIn(e, p, s.overlay, path)
               == if path == s.callee || both then FileAt(s, s.overlay, path, s.other)
                  else FileAt(s, s.base, path, if path == s.caller then sha else s.calls)
  {
    var p := Stack(s, sha, both);
    Chains(s, sha, both);
    ShownInTwo(p, s.base, s.overlay, path);
  }

  /** The layer whose callee a view shows. */
  function CalleeAt(s: Scene, l: LayerId): SourceFile {
    SourceFile(s.callee, l, "", Facts("go", {Named(s.called)}, []))
  }

  lemma OneDefinition(s: Scene, sha: string, both: bool, l: LayerId)
    requires IsScene(s) && sha != "" && (l == s.base || l == s.overlay)
    ensures Candidates(Language(s), Stack(s, sha, both), l, "go", s.called) == {Candidate(CalleeAt(s, l), Named(s.called))}
  {
    var e, p, c := Language(s), Stack(s, sha, both), Candidate(CalleeAt(s, l), Named(s.called));
    Files(s, sha, both, s.callee);
    ShownPath(e, p, l, s.callee);
    forall path, t | FileIn(e, p, l, path).Some? && t in FileIn(e, p, l, path).value.facts.symbols && t.name == s.called
      ensures Candidate(FileIn(e, p, l, path).value, t) == c
    {
      Files(s, sha, both, path);
    }
  }

  lemma OneFound(e: Engine, p: Plan, l: LayerId, f: SourceFile, ref: Ref, c: Candidate)
    requires |e.tries(l, f, ref)| == 1
    requires var t := e.tries(l, f, ref)[0]; !t.fallback && t.renamed.None? && t.keep(c)
    requires Lawful(e) && !e.kindFiltered(ref.kind) && Candidates(e, p, l, f.facts.family, ref.name) == {c}
    ensures Resolve(e, p, l, f, ref) == Some(c)
  {
    var t := e.tries(l, f, ref)[0];
    assert Found(e, p, l, f, ref, t, false) == {c};
    assert e.pick(ref.kind, {c}) == c;
  }

  /** In both views the call resolves to the layer's own callee. */
  lemma CallResolves(s: Scene, sha: string, both: bool, l: LayerId, f: SourceFile)
    requires IsScene(s) && sha != "" && (l == s.base || l == s.overlay) && f.facts.family == "go"
    ensures Resolve(Language(s), Stack(s, sha, both), l, f, Call(s)) == Some(Candidate(CalleeAt(s, l), Named(s.called)))
  {
    LanguageIsRegular(s);
    OneDefinition(s, sha, both, l);
    OneFound(Language(s), Stack(s, sha, both), l, f, Call(s), Candidate(CalleeAt(s, l), Named(s.called)));
  }

  // ----- the overlay's edge

  /** A version of the base's caller. */
  function CallerAt(s: Scene, sha: string): SourceFile {
    SourceFile(s.caller, s.base, "", Facts("go", {Named(s.main)}, if sha == s.quiet then [] else [Call(s)]))
  }

  /** From the base's caller to the overlay's callee. */
  function CallEdge(s: Scene): Edge {
    Edge(s.overlay, "calls", Node(s.base, s.caller, s.main), Node(s.overlay, s.callee, s.called))
  }

  /** While the overlay shows the base's caller, which calls, it is to hold that edge. */
  lemma CallIsWritten(s: Scene)
    requires IsScene(s)
    ensures var e, p, f := Language(s), Stack(s, s.calls, false), CallerAt(s, s.calls);
            && FileIn(e, p, s.overlay, s.caller) == Some(f)
            && Written(e, p, s.overlay, f, Call(s)) == Some(CallEdge(s))
            && CallEdge(s) in EdgesOf(e, p, s.overlay, f)
  {
    var e, p, f := Language(s), Stack(s, s.calls, false), CallerAt(s, s.calls);
    Chains(s, s.calls, false);
    Files(s, s.calls, false, s.caller);
    CallResolves(s, s.calls, false, s.base, f);
    CallResolves(s, s.calls, false, s.overlay, f);
    assert !Inherits(e, p, s.overlay, f, Call(s), Candidate(CalleeAt(s, s.overlay), Named(s.called)));
    assert f.facts.refs[0] == Call(s);
  }

  lemma NamesOfCaller(s: Scene, sha: string, both: bool)
    requires IsScene(s)
    ensures NamesIn(Language(s), Stack(s, sha, both), s.caller) <= {s.main}
  {
  }

  /** The overlay has no file to resolve completely when only its own files are taken back or the base changes. */
  lemma NothingFull(s: Scene, sha: string, both: bool, sha': string)
    requires IsScene(s)
    ensures FullAt(Stack(s, sha, both), Stack(s, sha', false), s.overlay) == {}
  {
    Chains(s, sha, both);
    Chains(s, sha', false);
  }

  // ----- the overlay's caller is reverted

  lemma RevertChanges(s: Scene)
    requires IsScene(s)
    ensures var prev, next := Stack(s, s.calls, true), Stack(s, s.calls, false);
            && FullAt(prev, next, s.base) == {} && ChangedAt(prev, next, s.base) == {}
            && ChangedAt(prev, next, s.overlay) <= {s.caller}
  {
    Chains(s, s.calls, true);
    Chains(s, s.calls, false);
  }

  /** Over an unchanged base, a layer that changed one path affects only names defined there. */
  lemma OnePathChanged(e: Engine, prev: Plan, next: Plan, l: LayerId, base: LayerId, path: Path, n: string)
    requires Ancestors(prev, l) == [base] && Ancestors(next, l) == [base]
    requires FullAt(prev, next, base) == {} && ChangedAt(prev, next, base) == {} && ChangedAt(prev, next, l) <= {path}
    requires n !in NamesIn(e, prev, path) && n !in NamesIn(e, next, path)
    ensures LowerPuts(prev, next, l) == {} && n !in AffectedNames(e, prev, next, l)
  {
    assert n !in NamesAt(e, prev, next, l) && n !in NamesAt(e, prev, next, base);
  }

  lemma RevertAffectsNone(s: Scene)
    requires IsScene(s)
    ensures var prev, next := Stack(s, s.calls, true), Stack(s, s.calls, false);
            && LowerPuts(prev, next, s.overlay) == {}
            && s.called !in AffectedNames(Language(s), prev, next, s.overlay)
  {
    Chains(s, s.calls, true);
    Chains(s, s.calls, false);
    RevertChanges(s);
    NamesOfCaller(s, s.calls, true);
    NamesOfCaller(s, s.calls, false);
    OnePathChanged(Language(s), Stack(s, s.calls, true), Stack(s, s.calls, false), s.overlay, s.base, s.caller, s.called);
  }

  lemma RevertOverlooks(s: Scene)
    requires IsScene(s)
    ensures Overlooked(Language(s), Stack(s, s.calls, true), Stack(s, s.calls, false), {}, Key(s.overlay, s.caller))
  {
    var e, prev, next, f := Language(s), Stack(s, s.calls, true), Stack(s, s.calls, false), CallerAt(s, s.calls);
    CallIsWritten(s);
    NothingFull(s, s.calls, true, s.calls);
    RevertAffectsNone(s);
    assert !Considered(e, prev, next, s.overlay, f);
    TakenExact(e, prev, next, {}, s.overlay, f);
    Files(s, s.calls, true, s.caller);
  }

  /** Once the overlay's own caller is reverted the batch leaves its view without the call. */
  lemma RevertLosesEdge(s: Scene)
    requires IsScene(s)
    ensures var e, prev, next := Language(s), Stack(s, s.calls, true), Stack(s, s.calls, false);
            && Regular(e) && IsFit(e, prev) && IsFit(e, next)
            && Overlooked(e, prev, next, {}, Key(s.overlay, s.caller))
            && Written(e, next, s.overlay, CallerAt(s, s.calls), Call(s)) == Some(CallEdge(s))
            && CallEdge(s) !in AfterBatch(e, prev, next, EdgesOfPlan(e, prev), {}, {})
            && !Resolved(e, next, AfterBatch(e, prev, next, EdgesOfPlan(e, prev), {}, {}), s.overlay, s.caller)
  {
    var e, prev, next := Language(s), Stack(s, s.calls, true), Stack(s, s.calls, false);
    LanguageIsRegular(s);
    StackIsFit(s, s.calls, true);
    StackIsFit(s, s.calls, false);
    RevertOverlooks(s);
    CallIsWritten(s);
    Files(s, s.calls, true, s.caller);
    NewEdgeIsOwned(e, prev, AllKeys(prev), CallEdge(s));
    UntakenExact(e, prev, next, EdgesOfPlan(e, prev), {}, {}, Key(s.overlay, s.caller));
    TakenIs(e, prev, next, {}, Key(s.overlay, s.caller));
    AfterResolvingIs(e, next, Surviving(e, EdgesOfPlan(e, prev), next), Taken(e, prev, next, {}) - {}, CallEdge(s));
  }

  // ----- the base's caller no longer calls

  lemma QuietOverlooks(s: Scene)
    requires IsScene(s)
    ensures var e, prev, next := Language(s), Stack(s, s.calls, false), Stack(s, s.quiet, false);
            && FileIn(e, next, s.overlay, s.caller) == Some(CallerAt(s, s.quiet))
            && Overlooked(e, prev, next, {}, Key(s.overlay, s.caller))
  {
    var e, prev, next, f := Language(s), Stack(s, s.calls, false), Stack(s, s.quiet, false), CallerAt(s, s.quiet);
    Files(s, s.calls, false, s.caller);
    Files(s, s.quiet, false, s.caller);
    NothingFull(s, s.calls, false, s.quiet);
    assert !Considered(e, prev, next, s.overlay, f);
    TakenExact(e, prev, next, {}, s.overlay, f);
  }

  lemma EndsStay(s: Scene, sha: string, both: bool)
    requires IsScene(s) && sha != ""
    ensures NodeExists(Language(s), Stack(s, sha, both), CallEdge(s).from)
    ensures NodeExists(Language(s), Stack(s, sha, both), CallEdge(s).to)
  {
    assert Named(s.main).id == s.main && Named(s.called).id == s.called;
  }

  /** Once the base's caller no longer calls the batch leaves the overlay's view with the call. */
  lemma QuietKeepsEdge(s: Scene)
    requires IsScene(s)
    ensures var e, prev, next := Language(s), Stack(s, s.calls, false), Stack(s, s.quiet, false);
            && Regular(e) && IsFit(e, prev) && IsFit(e, next)
            && CallEdge(s) in AfterBatch(e, prev, next, EdgesOfPlan(e, prev), {}, {})
            && EdgeShown(next, s.overlay, CallEdge(s)) && !IsRight(e, next, CallEdge(s))
  {
    var e, prev, next, g := Language(s), Stack(s, s.calls, false), Stack(s, s.quiet, false), CallEdge(s);
    LanguageIsRegular(s);
    StackIsFit(s, s.calls, false);
    StackIsFit(s, s.quiet, false);
    QuietOverlooks(s);
    CallIsWritten(s);
    EndsStay(s, s.quiet, false);
    ShownPath(e, prev, s.overlay, s.caller);
    NewEdgeIsOwned(e, prev, AllKeys(prev), g);
    TakenIs(e, prev, next, {}, Key(s.overlay, s.caller));
    AfterResolvingIs(e, next, Surviving(e, EdgesOfPlan(e, prev), next), Taken(e, prev, next, {}) - {}, g);
    QuietShows(s);
  }

  lemma QuietShows(s: Scene)
    requires IsScene(s)
    ensures EdgeShown(Stack(s, s.quiet, false), s.overlay, CallEdge(s))
  {
    var p := Stack(s, s.quiet, false);
    Chains(s, s.quiet, false);
    ShownInTwo(p, s.base, s.overlay, s.caller);
    ShownInTwo(p, s.base, s.overlay, s.callee);
  }

  // ----- an edge kept out of sight

  /** The books after one more batch, which carries nothing. */
  ghost predicate IsNext(s: Scene, b: Books, p: Plan, after: Books) { after == Book(Language(s), b, Round(p, {})) }

  /** The graph is exact, nothing is carried, and the overlay holds the edge. */
  ghost predicate HoldsCall(s: Scene, b: Books) {
    IsBalanced(Language(s), b) && b.pending == {} && b.lost == {} && CallEdge(s) in b.edges
  }

  /** No two selections of the scene agree. */
  lemma AllDiffer(s: Scene, sha: string, both: bool, sha': string, both': bool)
    requires IsScene(s) && sha != "" && sha' != "" && (sha != sha' || both != both')
    ensures !IsNothing(EMPTY_PLAN, Stack(s, sha, both))
    ensures !IsNothing(Stack(s, sha, both), Stack(s, sha', both'))
  {
    EmptyDiff(EMPTY_PLAN, Stack(s, sha, both));
    EmptyDiff(Stack(s, sha, both), Stack(s, sha', both'));
    CallersDiffer(s, sha, both, sha', both');
  }

  lemma CallersDiffer(s: Scene, sha: string, both: bool, sha': string, both': bool)
    requires IsScene(s) && (sha != sha' || both != both')
    ensures !Agree(EMPTY_PLAN, Stack(s, sha, both)) && !Agree(Stack(s, sha, both), Stack(s, sha', both'))
  {
    var p, q, k, m := Stack(s, sha, both), Stack(s, sha', both'), Key(s.base, s.caller), Key(s.overlay, s.caller);
    assert Holds(p, k) && FileOf(p, k).sha == sha && Holds(q, k) && FileOf(q, k).sha == sha';
    assert (Holds(p, m) <==> both) && (Holds(q, m) <==> both');
  }

  /** From nothing the first batch writes the edge. */
  lemma FirstHoldsCall(s: Scene, b: Books)
    requires IsScene(s) && IsNext(s, EMPTY_BOOKS, Stack(s, s.calls, false), b)
    ensures b.plan == Stack(s, s.calls, false) && HoldsCall(s, b)
  {
    var e, p := Language(s), Stack(s, s.calls, false);
    LanguageIsRegular(s);
    StackIsFit(s, s.calls, false);
    AllDiffer(s, s.calls, false, s.calls, true);
    FirstIsExact(e, p, {});
    CallIsWritten(s);
    HasWanted(e, b, s.overlay, s.caller);
  }

  /** While the overlay has its own caller it shows no file of the base. */
  lemma NothingLower(s: Scene, prev: Plan, sha: string, k: Key)
    requires IsScene(s) && sha != ""
    ensures !Overlooked(Language(s), prev, Stack(s, sha, true), {}, k)
  {
    Files(s, sha, true, k.path);
  }

  /** So the overlay's edge from the base's caller stays, out of sight. */
  lemma HiddenStays(s: Scene, b: Books, sha: string, after: Books)
    requires IsScene(s) && sha != "" && HoldsCall(s, b) && IsNext(s, b, Stack(s, sha, true), after)
    requires !IsNothing(b.plan, Stack(s, sha, true))
    ensures after.plan == Stack(s, sha, true) && HoldsCall(s, after)
    ensures forall g :: g in after.edges && IsFromCaller(s, g) ==> g in b.edges
  {
    var e, next := Language(s), Stack(s, sha, true);
    LanguageIsRegular(s);
    StackIsFit(s, sha, true);
    RoundIsBalanced(e, b, Round(next, {}));
    forall k ensures k !in LostAfter(e, b.plan, next, b.edges, {}, {}) { NothingLower(s, b.plan, sha, k); }
    Files(s, sha, true, s.caller);
    EndsStay(s, sha, true);
    forall g | IsFromCaller(s, g)
      ensures g in AfterBatch(e, b.plan, next, b.edges, {}, {}) <==> g in Surviving(e, b.edges, next)
    {
      AfterResolvingIs(e, next, Surviving(e, b.edges, next), Taken(e, b.plan, next, {}) - {}, g);
    }
    assert IsFromCaller(s, CallEdge(s));
  }

  /** An edge of the overlay from the base's caller. */
  predicate IsFromCaller(s: Scene, g: Edge) {
    g.layer == s.overlay && g.from.layer == s.base && g.from.path == s.caller
  }

  lemma QuietUntaken(s: Scene)
    requires IsScene(s)
    ensures var e, prev, next := Language(s), Stack(s, s.quiet, true), Stack(s, s.quiet, false);
            && FileIn(e, next, s.overlay, s.caller) == Some(CallerAt(s, s.quiet))
            && !IsTaken(e, prev, next, {}, Key(s.overlay, s.caller))
  {
    var e, prev, next, f := Language(s), Stack(s, s.quiet, true), Stack(s, s.quiet, false), CallerAt(s, s.quiet);
    Files(s, s.quiet, false, s.caller);
    NothingFull(s, s.quiet, true, s.quiet);
    assert !Considered(e, prev, next, s.overlay, f);
    TakenExact(e, prev, next, {}, s.overlay, f);
  }

  /**
   * The overlay edits the caller, the base's caller stops calling under it,
   * and the edit is reverted: up to there every edge is exact, and then the
   * overlay shows the call of a caller that is to have no edge.
   */
  lemma HiddenEdgeComesBack(s: Scene, b0: Books, b1: Books, b2: Books, b3: Books)
    requires IsScene(s) && IsNext(s, EMPTY_BOOKS, Stack(s, s.calls, false), b0)
    requires IsNext(s, b0, Stack(s, s.calls, true), b1) && IsNext(s, b1, Stack(s, s.quiet, true), b2)
    requires IsNext(s, b2, Stack(s, s.quiet, false), b3)
    ensures b2.plan == Stack(s, s.quiet, true) && IsExactBut(Language(s), b2.plan, b2.edges, {})
    ensures var e, p := Language(s), Stack(s, s.quiet, false);
            && FileIn(e, p, s.overlay, s.caller) == Some(CallerAt(s, s.quiet)) && CallerAt(s, s.quiet).facts.refs == []
            && CallEdge(s) in b3.edges && EdgeShown(p, s.overlay, CallEdge(s)) && !IsRight(e, p, CallEdge(s))
  {
    FirstHoldsCall(s, b0);
    AllDiffer(s, s.calls, false, s.calls, true);
    HiddenStays(s, b0, s.calls, b1);
    AllDiffer(s, s.calls, true, s.quiet, true);
    HiddenStays(s, b1, s.quiet, b2);
    HiddenIsShown(s, b2, b3);
  }

  lemma HiddenIsShown(s: Scene, b: Books, after: Books)
    requires IsScene(s) && b.plan == Stack(s, s.quiet, true) && HoldsCall(s, b)
    requires IsNext(s, b, Stack(s, s.quiet, false), after)
    ensures var e, p, g := Language(s), Stack(s, s.quiet, false), CallEdge(s);
            && FileIn(e, p, s.overlay, s.caller) == Some(CallerAt(s, s.quiet))
            && g in after.edges && EdgeShown(p, s.overlay, g) && !IsRight(e, p, g)
  {
    var e, next := Language(s), Stack(s, s.quiet, false);
    LanguageIsRegular(s);
    AllDiffer(s, s.quiet, true, s.quiet, false);
    QuietUntaken(s);
    QuietShows(s);
    EndsStay(s, s.quiet, false);
    UntakenInBook(e, b, Stack(s, s.quiet, true), {}, Round(next, {}), Key(s.overlay, s.caller));
  }

  /**
   * And when the base's caller still calls, the edge that comes back is right:
   * the caller is overlooked and its edges are exact.
   */
  lemma HiddenEdgeIsKept(s: Scene, b0: Books, b1: Books, b2: Books)
    requires IsScene(s) && IsNext(s, EMPTY_BOOKS, Stack(s, s.calls, false), b0)
    requires IsNext(s, b0, Stack(s, s.calls, true), b1) && IsNext(s, b1, Stack(s, s.calls, false), b2)
    ensures Overlooked(Language(s), b1.plan, b2.plan, {}, Key(s.overlay, s.caller))
    ensures IsExact(Language(s), b2.plan, b2.edges, s.overlay, s.caller)
    ensures CallEdge(s) in EdgesOf(Language(s), b2.plan, s.overlay, CallerAt(s, s.calls))
  {
    var e, p0, p1, k := Language(s), Stack(s, s.calls, false), Stack(s, s.calls, true), Key(s.overlay, s.caller);
    FirstHoldsCall(s, b0);
    AllDiffer(s, s.calls, false, s.calls, true);
    HiddenStays(s, b0, s.calls, b1);
    AllDiffer(s, s.calls, true, s.calls, false);
    LanguageIsRegular(s);
    RevertOverlooks(s);
    CallIsWritten(s);
    HiddenIsKept(s, b0, b1);
    UntakenInBook(e, b1, p1, {}, Round(p0, {}), k);
  }

  lemma HiddenIsKept(s: Scene, b: Books, later: Books)
    requires IsScene(s) && HoldsCall(s, b) && b.plan == Stack(s, s.calls, false) && CallEdge(s) in later.edges
    requires forall g :: g in later.edges && IsFromCaller(s, g) ==> g in b.edges
    ensures IsKept(Language(s), Stack(s, s.calls, false), later.edges, Key(s.overlay, s.caller))
  {
    var e, p, f := Language(s), Stack(s, s.calls, false), CallerAt(s, s.calls);
    CallIsWritten(s);
    EndsStay(s, s.calls, false);
    KeptExact(e, p, later.edges, s.overlay, f);
    assert IsExact(e, p, b.edges, s.overlay, s.caller);
    forall g ensures Stays(e, p, later.edges, s.overlay, f, g) <==> Wants(e, p, s.overlay, f, g) {
      WantsIs(e, p, s.overlay, f, g);
      assert Wants(e, p, s.overlay, f, g) ==> g == CallEdge(s);
      if Stays(e, p, later.edges, s.overlay, f, g) { assert g in EdgesAt(b.edges, s.overlay, f); }
    }
  }
}
