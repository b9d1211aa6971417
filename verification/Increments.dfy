/**
 * Resolution of one batch (Resolve in codeindex/resolve.go): from the edges
 * of the plan before, the files the batch put, the dependents of the names
 * they define, and what earlier batches carried over.  Packages and scopes
 * are as before, and no import renames.
 */
module Increments {
  import opened Wrappers
  import opened Plans
  import opened Batches
  import opened Visibility
  import opened Edges
  import opened Inheritance
  import opened Resolving

  // ----- what a batch must resolve

  function ChangedAt(prev: Plan, next: Plan, l: LayerId): set<Path> {
    if l in next.layers then PutsOf(prev, next, l).Keys + RemovesOf(prev, next, l) else {}
  }

  /** The names any version of a layer's changed paths defines. */
  function NamesAt(e: Engine, prev: Plan, next: Plan, l: LayerId): set<string> {
    set path, n | path in ChangedAt(prev, next, l) && n in NamesIn(e, prev, path) + NamesIn(e, next, path) :: n
  }

  /** The names whose definitions changed in a layer or below it, before or after. */
  function AffectedNames(e: Engine, prev: Plan, next: Plan, l: LayerId): set<string> {
    set c, n | c in [l] + Ancestors(next, l) + Ancestors(prev, l) && n in NamesAt(e, prev, next, c) :: n
  }

  /** The files of a layer resolved completely: those put, or every one when its chain of parents moved. */
  function FullAt(prev: Plan, next: Plan, l: LayerId): set<Path> {
    if l !in next.layers then {}
    else set f | f in next.layers[l].files && !next.layers[l].files[f].deleted
                 && (f in PutsOf(prev, next, l) || ChainMoved(prev, next, l))
  }

  function LowerPuts(prev: Plan, next: Plan, l: LayerId): set<Path> {
    set a, f | a in Ancestors(next, l) && f in FullAt(prev, next, a) :: f
  }

  /** What the resolver takes up in a layer's view besides files to resolve completely. */
  predicate Considered(e: Engine, prev: Plan, next: Plan, l: LayerId, f: SourceFile) {
    && (f.path in LowerPuts(prev, next, l) || Mentions(e, f, AffectedNames(e, prev, next, l)))
    && (f.layer == l || Mentions(e, f, Shadow(e, prev, next, l)))
  }

  /** A file of the layer itself, in the version it holds, refers to one of names. */
  predicate LayerMentions(e: Engine, p: Plan, l: LayerId, names: set<string>) {
    l in p.layers && exists f :: f in p.layers[l].files && VersionMentions(e, p, Key(l, f), names)
  }

  predicate VersionMentions(e: Engine, p: Plan, k: Key, names: set<string>) {
    && Versioned(e, p, k)
    && exists ref :: ref in e.facts(k.path, FileOf(p, k)).value.refs && e.lower(ref.name) in names
  }

  function CarriedAt(pending: set<Key>, l: LayerId): set<Path> {
    set k | k in pending && k.layer == l :: k.path
  }

  /** A layer without files to resolve completely or carried is looked at only when something may depend on the batch. */
  predicate Needs(e: Engine, prev: Plan, next: Plan, l: LayerId) {
    var affected := AffectedNames(e, prev, next, l);
    || (Ancestors(next, l) != [] && Shadow(e, prev, next, l) != {} && (LowerPuts(prev, next, l) != {} || affected != {}))
    || (affected != {} && LayerMentions(e, next, l, affected))
  }

  predicate IsSkipped(e: Engine, prev: Plan, next: Plan, pending: set<Key>, l: LayerId) {
    FullAt(prev, next, l) == {} && CarriedAt(pending, l) == {} && !Needs(e, prev, next, l)
  }

  /** The files of a layer's view resolved within the budget. */
  function Dependents(e: Engine, prev: Plan, next: Plan, pending: set<Key>, l: LayerId): set<Path> {
    if IsSkipped(e, prev, next, pending, l) then {}
    else set path | path in AllPaths(next) && path !in FullAt(prev, next, l) && FileIn(e, next, l, path).Some?
                    && (path in CarriedAt(pending, l) || Considered(e, prev, next, l, FileIn(e, next, l, path).value))
  }

  /** The files a batch resolves at once, or carries to the next. */
  predicate IsTaken(e: Engine, prev: Plan, next: Plan, pending: set<Key>, k: Key) {
    k.layer in next.layers && (k.path in FullAt(prev, next, k.layer) || k.path in Dependents(e, prev, next, pending, k.layer))
  }

  /** l's view showed the same version of the file before, over the same chain. */
  predicate IsSteady(e: Engine, prev: Plan, next: Plan, l: LayerId, f: SourceFile) {
    l in prev.layers && !ChainMoved(prev, next, l) && FileIn(e, prev, l, f.path) == Some(f)
  }

  /**
   * What a batch does not resolve though it is not as before: a lower file
   * that came into a layer's view, in a version or over a chain the view did
   * not have, and is not taken.
   */
  predicate Overlooked(e: Engine, prev: Plan, next: Plan, pending: set<Key>, k: Key) {
    && !IsTaken(e, prev, next, pending, k) && k.layer in prev.layers && k.layer in next.layers
    && FileIn(e, next, k.layer, k.path).Some?
    && var f := FileIn(e, next, k.layer, k.path).value;
       f.layer != k.layer && !IsSteady(e, prev, next, k.layer, f)
  }

  // ----- what a batch leaves as it was

  /** Facts are a function of path and blob. */
  ghost predicate FactsBySha(e: Engine) {
    forall path, a, b :: SameFile(a, b) ==> e.facts(path, a) == e.facts(path, b)
  }

  ghost predicate NoRenames(e: Engine) {
    forall l, f, ref, t :: t in e.tries(l, f, ref) ==> t.renamed.None?
  }

  /** A layer's view in both plans, over the same chain. */
  ghost predicate SameChain(prev: Plan, next: Plan, l: LayerId) {
    && l in prev.layers && l in next.layers && Ancestors(prev, l) == Ancestors(next, l)
    && forall c :: c in Chain(next, l) ==> c in prev.layers && c in next.layers
  }

  ghost predicate Unchanged(prev: Plan, next: Plan, chain: seq<LayerId>, path: Path) {
    forall c :: c in chain ==> !IsChanged(prev, next, Key(c, path))
  }

  lemma {:induction false} SameTop(prev: Plan, next: Plan, chain: seq<LayerId>, path: Path)
    requires (forall c :: c in chain ==> c in next.layers) && Unchanged(prev, next, chain, path)
    ensures TopHolder(prev, chain, path) == TopHolder(next, chain, path)
    ensures Shown(prev, chain, path) == Shown(next, chain, path)
  {
    if chain != [] {
      assert chain[0] in chain && !IsChanged(prev, next, Key(chain[0], path));
      assert forall c :: c in chain[1..] ==> c in chain;
      SameTop(prev, next, chain[1..], path);
    }
  }

  /** Where no layer of the chain changed a path, both views have the same file there. */
  lemma SameFileIn(e: Engine, prev: Plan, next: Plan, l: LayerId, path: Path)
    requires FactsBySha(e) && SameChain(prev, next, l) && Unchanged(prev, next, Chain(next, l), path)
    ensures FileIn(e, prev, l, path) == FileIn(e, next, l, path)
  {
    var chain := Chain(next, l);
    SameTop(prev, next, chain, path);
    TopHolderIsFirst(next, chain, path);
    var a := Shown(next, chain, path);
    if a.Some? {
      assert a.value in chain && !IsChanged(prev, next, Key(a.value, path));
      assert Holds(next, Key(a.value, path));
    }
  }

  /** A name no layer of the chain affected has the same definitions in both plans. */
  lemma SameDefinitions(e: Engine, prev: Plan, next: Plan, l: LayerId, family: string, n: string)
    requires Lawful(e) && FactsBySha(e) && SameChain(prev, next, l)
    requires forall c :: c in Chain(next, l) ==> e.lower(n) !in NamesAt(e, prev, next, c)
    ensures Candidates(e, prev, l, family, n) == Candidates(e, next, l, family, n)
  {
    forall q: Path, s: Symbol | e.fold(s.name) == e.fold(n)
      ensures Defines(e, prev, l, q, s) <==> Defines(e, next, l, q, s)
      ensures Defines(e, prev, l, q, s) ==> FileIn(e, prev, l, q) == FileIn(e, next, l, q)
    {
      if Unchanged(prev, next, Chain(next, l), q) {
        SameFileIn(e, prev, next, l, q);
      } else {
        NotDefined(e, prev, next, l, q, s, n);
      }
    }
    CandidatesAgree(e, prev, next, l, family, n);
  }

  /** At a path some layer of the chain changed, no version defines an unaffected name. */
  lemma NotDefined(e: Engine, prev: Plan, next: Plan, l: LayerId, q: Path, s: Symbol, n: string)
    requires Lawful(e) && SameChain(prev, next, l) && e.fold(s.name) == e.fold(n)
    requires forall c :: c in Chain(next, l) ==> e.lower(n) !in NamesAt(e, prev, next, c)
    requires !Unchanged(prev, next, Chain(next, l), q)
    ensures !Defines(e, prev, l, q, s) && !Defines(e, next, l, q, s)
  {
    var c :| c in Chain(next, l) && IsChanged(prev, next, Key(c, q));
    ChangedPath(prev, next, c, q);
    assert e.lower(s.name) == e.lower(n);
    NamesAtChanged(e, prev, next, c, q, e.lower(n));
    if Defines(e, prev, l, q, s) { DefinedIsNamed(e, prev, l, q, s); }
    if Defines(e, next, l, q, s) { DefinedIsNamed(e, next, l, q, s); }
  }

  lemma ChangedPath(prev: Plan, next: Plan, c: LayerId, q: Path)
    requires c in next.layers && IsChanged(prev, next, Key(c, q))
    ensures q in ChangedAt(prev, next, c)
  {
  }

  lemma NamesAtChanged(e: Engine, prev: Plan, next: Plan, c: LayerId, q: Path, n: string)
    requires q in ChangedAt(prev, next, c)
    ensures n in NamesIn(e, prev, q) || n in NamesIn(e, next, q) ==> n in NamesAt(e, prev, next, c)
  {
    if n in NamesIn(e, prev, q) || n in NamesIn(e, next, q) {
      assert n in NamesIn(e, prev, q) + NamesIn(e, next, q);
    }
  }

  lemma CandidatesAgree(e: Engine, prev: Plan, next: Plan, l: LayerId, family: string, n: string)
    requires forall q: Path, s: Symbol :: e.fold(s.name) == e.fold(n) ==>
               && (Defines(e, prev, l, q, s) <==> Defines(e, next, l, q, s))
               && (Defines(e, prev, l, q, s) ==> FileIn(e, prev, l, q) == FileIn(e, next, l, q))
    ensures Candidates(e, prev, l, family, n) == Candidates(e, next, l, family, n)
  {
    CandidatesWithin(e, prev, next, l, family, n);
    CandidatesWithin(e, next, prev, l, family, n);
  }

  lemma CandidatesWithin(e: Engine, prev: Plan, next: Plan, l: LayerId, family: string, n: string)
    requires forall q: Path, s: Symbol :: e.fold(s.name) == e.fold(n) && Defines(e, prev, l, q, s) ==>
               FileIn(e, prev, l, q) == FileIn(e, next, l, q)
    ensures Candidates(e, prev, l, family, n) <= Candidates(e, next, l, family, n)
  {
    forall c | c in Candidates(e, prev, l, family, n) ensures c in Candidates(e, next, l, family, n) {
      var q, s :| q in AllPaths(prev) && FileIn(e, prev, l, q).Some?
        && FileIn(e, prev, l, q).value.facts.family == family
        && s in FileIn(e, prev, l, q).value.facts.symbols && e.fold(s.name) == e.fold(n)
        && c == Candidate(FileIn(e, prev, l, q).value, s);
      assert Defines(e, prev, l, q, s);
      ShownPath(e, next, l, q);
    }
  }

  lemma ShownPath(e: Engine, p: Plan, l: LayerId, path: Path)
    requires FileIn(e, p, l, path).Some?
    ensures path in AllPaths(p)
  {
    assert Holds(p, Key(FileIn(e, p, l, path).value.layer, path));
  }

  /** The same definitions resolve a reference the same way. */
  lemma {:induction false} SameWalkAfter(e: Engine, prev: Plan, next: Plan, l: LayerId, f: SourceFile, ref: Ref,
                                         tries: seq<Try>, fitting: bool)
    requires Candidates(e, prev, l, f.facts.family, ref.name) == Candidates(e, next, l, f.facts.family, ref.name)
    requires forall t :: t in tries ==> t.renamed.None?
    ensures WalkTries(e, prev, l, f, ref, tries, fitting) == WalkTries(e, next, l, f, ref, tries, fitting)
  {
    if tries != [] {
      SameWalkAfter(e, prev, next, l, f, ref, tries[1..], fitting);
      assert tries[0] in tries;
      assert Found(e, prev, l, f, ref, tries[0], fitting) == Found(e, next, l, f, ref, tries[0], fitting);
    }
  }

  lemma SameResolution(e: Engine, prev: Plan, next: Plan, l: LayerId, f: SourceFile, ref: Ref)
    requires Lawful(e) && FactsBySha(e) && NoRenames(e) && SameChain(prev, next, l)
    requires forall c :: c in Chain(next, l) ==> e.lower(ref.name) !in NamesAt(e, prev, next, c)
    ensures Resolve(e, prev, l, f, ref) == Resolve(e, next, l, f, ref)
  {
    var tries := e.tries(l, f, ref);
    SameDefinitions(e, prev, next, l, f.facts.family, ref.name);
    assert forall t :: t in tries ==> t.renamed.None?;
    SameWalkAfter(e, prev, next, l, f, ref, tries, true);
    SameWalkAfter(e, prev, next, l, f, ref, tries, false);
  }

  // ----- a file that needs no resolving

  /** The names a file refers to have the definitions they had, in its layer's view. */
  lemma NotAffected(e: Engine, prev: Plan, next: Plan, l: LayerId, f: SourceFile, ref: Ref)
    requires !Mentions(e, f, AffectedNames(e, prev, next, l)) && ref in f.facts.refs
    ensures forall c :: c in Chain(next, l) ==> e.lower(ref.name) !in NamesAt(e, prev, next, c)
  {
    forall c | c in Chain(next, l) ensures NamesAt(e, prev, next, c) <= AffectedNames(e, prev, next, l) {
      assert c in [l] + Ancestors(next, l) + Ancestors(prev, l);
    }
    assert e.lower(ref.name) !in AffectedNames(e, prev, next, l);
  }

  /** A file shown before and after in one version, naming nothing affected, keeps the edges of its layer. */
  lemma SameEdges(e: Engine, prev: Plan, next: Plan, l: LayerId, f: SourceFile)
    requires Lawful(e) && FactsBySha(e) && NoRenames(e)
    requires HasView(prev, l) && HasView(next, l) && SameChain(prev, next, l)
    requires FileIn(e, prev, l, f.path) == Some(f) && FileIn(e, next, l, f.path) == Some(f)
    requires f.layer != l ==> !IsChanged(prev, next, Key(f.layer, f.path))
    requires !Mentions(e, f, AffectedNames(e, prev, next, l))
    ensures EdgesOf(e, prev, l, f) == EdgesOf(e, next, l, f)
  {
    forall ref | ref in f.facts.refs ensures Written(e, prev, l, f, ref) == Written(e, next, l, f, ref) {
      SameWritten(e, prev, next, l, f, ref);
    }
  }

  lemma SameWritten(e: Engine, prev: Plan, next: Plan, l: LayerId, f: SourceFile, ref: Ref)
    requires Lawful(e) && FactsBySha(e) && NoRenames(e)
    requires HasView(prev, l) && HasView(next, l) && SameChain(prev, next, l)
    requires FileIn(e, prev, l, f.path) == Some(f) && FileIn(e, next, l, f.path) == Some(f)
    requires f.layer != l ==> !IsChanged(prev, next, Key(f.layer, f.path))
    requires !Mentions(e, f, AffectedNames(e, prev, next, l)) && ref in f.facts.refs
    ensures Written(e, prev, l, f, ref) == Written(e, next, l, f, ref)
  {
    NotAffected(e, prev, next, l, f, ref);
    SameResolution(e, prev, next, l, f, ref);
    if f.layer != l && Below(next, l).Some? {
      var b := Below(next, l).value;
      SameChainBelow(prev, next, l, b);
      SameParent(e, prev, next, l, b, f);
      var pf := ParentFile(e, next, l, f);
      if pf.Some? { SameResolution(e, prev, next, b, pf.value, ref); }
    }
  }

  lemma SameChainBelow(prev: Plan, next: Plan, l: LayerId, b: LayerId)
    requires HasView(prev, l) && HasView(next, l) && SameChain(prev, next, l) && Below(next, l) == Some(b)
    ensures SameChain(prev, next, b) && forall c :: c in Chain(next, b) ==> c in Chain(next, l)
  {
    BelowHasView(next, l);
    BelowHasView(prev, l);
    assert Chain(next, l)[1..] == Chain(next, b) && Chain(prev, l)[1..] == Chain(prev, b);
    assert Chain(next, b)[1..] == Ancestors(next, b) && Chain(prev, b)[1..] == Ancestors(prev, b);
    assert Chain(next, l)[1] == b;
  }

  lemma SameParent(e: Engine, prev: Plan, next: Plan, l: LayerId, b: LayerId, f: SourceFile)
    requires FactsBySha(e) && HasView(prev, l) && HasView(next, l) && SameChain(prev, next, l)
    requires Below(next, l) == Some(b) && f.layer != l && !IsChanged(prev, next, Key(f.layer, f.path))
    requires FileIn(e, prev, l, f.path) == Some(f) && FileIn(e, next, l, f.path) == Some(f)
    ensures FileIn(e, prev, b, f.path) == FileIn(e, next, b, f.path)
  {
    ShownFromBelow(prev, l, f.path, f.layer);
    ShownFromBelow(next, l, f.path, f.layer);
  }

  // ----- what the file writes leave of the edges

  predicate NodeExists(e: Engine, p: Plan, n: Node) {
    && Versioned(e, p, Key(n.layer, n.path))
    && exists s :: s in e.facts(n.path, FileOf(p, Key(n.layer, n.path))).value.symbols && s.id == n.id
  }

  /** The edges a batch's file writes leave: those of layers that stay, between definitions that stay. */
  function Surviving(e: Engine, edges: set<Edge>, next: Plan): set<Edge> {
    set g | g in edges && g.layer in next.layers && NodeExists(e, next, g.from) && NodeExists(e, next, g.to)
  }

  lemma ShownIsVersioned(e: Engine, p: Plan, l: LayerId, path: Path)
    requires FileIn(e, p, l, path).Some?
    ensures var f := FileIn(e, p, l, path).value; var k := Key(f.layer, path);
            f.path == path && Versioned(e, p, k) && e.facts(path, FileOf(p, k)) == Some(f.facts)
  {
  }

  /** Both ends of an edge to resolve to exist. */
  lemma EdgeExists(e: Engine, p: Plan, l: LayerId, f: SourceFile, g: Edge)
    requires Lawful(e) && Enclosed(e) && FileIn(e, p, l, f.path) == Some(f) && g in EdgesOf(e, p, l, f)
    ensures NodeExists(e, p, g.from) && NodeExists(e, p, g.to)
  {
    EdgeIsOf(e, p, l, f.path, g);
    ShownIsVersioned(e, p, l, f.path);
    var ref :| ref in f.facts.refs && Written(e, p, l, f, ref) == Some(g);
    TargetExists(e, p, l, f, ref);
  }

  lemma TargetExists(e: Engine, p: Plan, l: LayerId, f: SourceFile, ref: Ref)
    requires Lawful(e) && Resolve(e, p, l, f, ref).Some?
    ensures NodeExists(e, p, NodeOf(Resolve(e, p, l, f, ref).value))
  {
    var c := Resolve(e, p, l, f, ref).value;
    ResolvesToDefinition(e, p, l, f, ref);
    ResolvesToShown(e, p, l, f, ref);
    ResolvesToContent(e, p, l, f, ref);
    assert c.symbol in e.facts(c.file.path, FileOf(p, Key(c.file.layer, c.file.path))).value.symbols;
  }

  lemma ResolvesToContent(e: Engine, p: Plan, l: LayerId, f: SourceFile, ref: Ref)
    requires Lawful(e) && Resolve(e, p, l, f, ref).Some?
    ensures var c := Resolve(e, p, l, f, ref).value; Versioned(e, p, Key(c.file.layer, c.file.path))
  {
    var tries := e.tries(l, f, ref);
    if e.kindFiltered(ref.kind) && WalkTries(e, p, l, f, ref, tries, true).Some? {
      WalkFindsCandidate(e, p, l, f, ref, tries, true);
    } else {
      WalkFindsCandidate(e, p, l, f, ref, tries, false);
    }
    var c := Resolve(e, p, l, f, ref).value;
    var path :| FileIn(e, p, l, path) == Some(c.file) && c.file.path == path;
    ShownIsVersioned(e, p, l, path);
  }

  /** The edges a file is to have are kept where they were there. */
  lemma WantedSurvive(e: Engine, edges0: set<Edge>, next: Plan, l: LayerId, f: SourceFile)
    requires Lawful(e) && Enclosed(e) && l in next.layers && FileIn(e, next, l, f.path) == Some(f)
    ensures EdgesOf(e, next, l, f) <= Surviving(e, edges0, next) <==> EdgesOf(e, next, l, f) <= edges0
    ensures EdgesAt(edges0, l, f) == EdgesOf(e, next, l, f) ==>
              EdgesAt(Surviving(e, edges0, next), l, f) == EdgesOf(e, next, l, f)
  {
    forall g | g in EdgesOf(e, next, l, f) ensures g.layer == l && NodeExists(e, next, g.from) && NodeExists(e, next, g.to) {
      EdgeIsOf(e, next, l, f.path, g);
      EdgeExists(e, next, l, f, g);
    }
  }

  // ----- a file that is neither taken nor overlooked

  ghost predicate AllViews(p: Plan) { forall id :: id in p.layers ==> HasView(p, id) }

  /** What resolution takes as given of a family's resolver. */
  ghost predicate Regular(e: Engine) {
    Lawful(e) && FactsBySha(e) && NoRenames(e) && Enclosed(e)
  }

  lemma ChainIsHeld(p: Plan, l: LayerId)
    requires l in p.layers
    ensures forall c :: c in Chain(p, l) ==> c in p.layers
  {
    WalkInPlan(p, Parent(p, l), {l});
  }

  lemma UnmovedIsSame(prev: Plan, next: Plan, l: LayerId)
    requires l in prev.layers && l in next.layers && !ChainMoved(prev, next, l)
    ensures SameChain(prev, next, l)
  {
    ChainIsHeld(prev, l);
    ChainIsHeld(next, l);
  }

  /** One version, shown before and after. */
  lemma SameVersion(e: Engine, prev: Plan, next: Plan, l: LayerId, f: SourceFile)
    requires FactsBySha(e) && FileIn(e, next, l, f.path) == Some(f)
    requires !IsChanged(prev, next, Key(f.layer, f.path)) && Shown(prev, Chain(prev, l), f.path) == Some(f.layer)
    ensures FileIn(e, prev, l, f.path) == Some(f)
  {
    var k := Key(f.layer, f.path);
    assert Holds(next, k) && Holds(prev, k) && SameFile(FileOf(prev, k), FileOf(next, k));
  }

  /** A layer's own file that is not resolved completely is one the layer had, over the same chain. */
  lemma OwnFileStays(e: Engine, prev: Plan, next: Plan, l: LayerId, f: SourceFile)
    requires FileIn(e, next, l, f.path) == Some(f) && f.layer == l && l in next.layers && f.path !in FullAt(prev, next, l)
    ensures l in prev.layers && !ChainMoved(prev, next, l) && !IsChanged(prev, next, Key(l, f.path))
    ensures Shown(prev, Chain(prev, l), f.path) == Some(l)
  {
    var k := Key(l, f.path);
    assert Holds(next, k) && !FileOf(next, k).deleted;
    assert f.path !in PutsOf(prev, next, l);
    assert Holds(prev, k) && !FileOf(prev, k).deleted;
    assert Chain(prev, l)[0] == l;
  }

  /** A lower file no batch put is as it was. */
  lemma LowerFileStays(e: Engine, prev: Plan, next: Plan, l: LayerId, f: SourceFile)
    requires l in next.layers && FileIn(e, next, l, f.path) == Some(f) && f.layer != l
    requires f.path !in LowerPuts(prev, next, l)
    ensures !IsChanged(prev, next, Key(f.layer, f.path))
  {
    var a := f.layer;
    TopHolderIsFirst(next, Chain(next, l), f.path);
    assert a in Ancestors(next, l);
    WalkInPlan(next, Parent(next, l), {l});
    assert f.path !in FullAt(prev, next, a);
    assert f.path !in PutsOf(prev, next, a);
  }

  /** A new layer has no shadow but the names it changed. */
  lemma NewLayerShadow(e: Engine, prev: Plan, next: Plan, l: LayerId, f: SourceFile)
    requires l in next.layers && l !in prev.layers && Mentions(e, f, Shadow(e, prev, next, l))
    ensures Mentions(e, f, AffectedNames(e, prev, next, l))
  {
    forall n | n in Shadow(e, prev, next, l) ensures n in AffectedNames(e, prev, next, l) {
      var path :| path in PathsAt(prev, l) + PathsAt(next, l) && n in NamesIn(e, prev, path) + NamesIn(e, next, path);
      assert path in PutsOf(prev, next, l);
      assert path in ChangedAt(prev, next, l);
      NamesAtChanged(e, prev, next, l, path, n);
    }
  }

  /** Skipping a layer skips no lower file that would be considered, and no file of its own that names what changed. */
  lemma TakenExact(e: Engine, prev: Plan, next: Plan, pending: set<Key>, l: LayerId, f: SourceFile)
    requires l in next.layers && FileIn(e, next, l, f.path) == Some(f)
    ensures f.layer != l || Mentions(e, f, AffectedNames(e, prev, next, l)) ==>
              (IsTaken(e, prev, next, pending, Key(l, f.path)) <==>
               || Key(l, f.path) in pending || f.path in FullAt(prev, next, l) || Considered(e, prev, next, l, f))
    ensures IsTaken(e, prev, next, pending, Key(l, f.path)) ==>
              Key(l, f.path) in pending || f.path in FullAt(prev, next, l) || Considered(e, prev, next, l, f)
    ensures Key(l, f.path) in pending || f.path in FullAt(prev, next, l) ==> IsTaken(e, prev, next, pending, Key(l, f.path))
  {
    assert Key(l, f.path) in pending <==> f.path in CarriedAt(pending, l);
    ShownPath(e, next, l, f.path);
    if IsSkipped(e, prev, next, pending, l) {
      SkippedNeedsNothing(e, prev, next, l, f);
    }
  }

  /** Why a file shown in a view is not taken: it names nothing affected, or it is a lower file out of the layer's shadow. */
  lemma WhyUntaken(e: Engine, prev: Plan, next: Plan, pending: set<Key>, l: LayerId, f: SourceFile)
    requires l in next.layers && FileIn(e, next, l, f.path) == Some(f) && !IsTaken(e, prev, next, pending, Key(l, f.path))
    ensures Key(l, f.path) !in pending && f.path !in FullAt(prev, next, l)
    ensures f.layer == l ==> !Mentions(e, f, AffectedNames(e, prev, next, l))
    ensures f.layer != l && Mentions(e, f, Shadow(e, prev, next, l)) ==>
              f.path !in LowerPuts(prev, next, l) && !Mentions(e, f, AffectedNames(e, prev, next, l))
  {
    TakenExact(e, prev, next, pending, l, f);
  }

  /** The files a batch overlooks are those its search for dependents does not reach. */
  lemma OverlookedExact(e: Engine, prev: Plan, next: Plan, pending: set<Key>, l: LayerId, f: SourceFile)
    requires l in prev.layers && l in next.layers && FileIn(e, next, l, f.path) == Some(f) && f.layer != l
    ensures Overlooked(e, prev, next, pending, Key(l, f.path)) <==>
            && !IsSteady(e, prev, next, l, f) && Key(l, f.path) !in pending
            && (|| !Mentions(e, f, Shadow(e, prev, next, l))
                || (f.path !in LowerPuts(prev, next, l) && !Mentions(e, f, AffectedNames(e, prev, next, l))))
  {
    TakenExact(e, prev, next, pending, l, f);
    assert f.path !in FullAt(prev, next, l) by { LowerIsNotFull(e, prev, next, l, f); }
  }

  lemma LowerIsNotFull(e: Engine, prev: Plan, next: Plan, l: LayerId, f: SourceFile)
    requires FileIn(e, next, l, f.path) == Some(f) && f.layer != l
    ensures f.path !in FullAt(prev, next, l)
  {
    assert Chain(next, l)[0] == l;
  }

  lemma SkippedNeedsNothing(e: Engine, prev: Plan, next: Plan, l: LayerId, f: SourceFile)
    requires l in next.layers && FileIn(e, next, l, f.path) == Some(f) && !Needs(e, prev, next, l)
    ensures f.layer == l ==> !Mentions(e, f, AffectedNames(e, prev, next, l))
    ensures f.layer != l && Mentions(e, f, Shadow(e, prev, next, l)) ==>
              LowerPuts(prev, next, l) == {} && AffectedNames(e, prev, next, l) == {}
  {
    var affected := AffectedNames(e, prev, next, l);
    ShownIsVersioned(e, next, l, f.path);
    TopHolderIsFirst(next, Chain(next, l), f.path);
    if f.layer == l {
      assert Mentions(e, f, affected) ==> VersionMentions(e, next, Key(l, f.path), affected);
    } else {
      assert Ancestors(next, l) != [];
    }
  }

  lemma SkippedHasNone(e: Engine, prev: Plan, p: Plan, l: LayerId, f: SourceFile)
    requires Lawful(e) && StableScopes(e, p) && HasView(p, l) && FileIn(e, p, l, f.path) == Some(f)
    requires f.layer != l && !Mentions(e, f, Shadow(e, prev, p, l))
    ensures EdgesOf(e, p, l, f) == {}
  {
    ShownFromBelow(p, l, f.path, f.layer);
    forall ref | ref in f.facts.refs ensures Written(e, p, l, f, ref).None? {
      SkipIsSound(e, prev, p, l, f, ref);
    }
  }

  /** The shadow is of both plans alike. */
  lemma ShadowOfBoth(e: Engine, prev: Plan, next: Plan, l: LayerId)
    ensures Shadow(e, prev, next, l) == Shadow(e, next, prev, l)
  {
    assert PathsAt(prev, l) + PathsAt(next, l) == PathsAt(next, l) + PathsAt(prev, l);
    assert forall path :: NamesIn(e, prev, path) + NamesIn(e, next, path) == NamesIn(e, next, path) + NamesIn(e, prev, path);
  }

  /** A file neither taken nor overlooked is to have the edges it was to have. */
  lemma SteadyWants(e: Engine, prev: Plan, next: Plan, pending: set<Key>, l: LayerId, f: SourceFile)
    requires Regular(e) && StableScopes(e, prev) && StableScopes(e, next)
    requires HasView(prev, l) && HasView(next, l) && l in next.layers
    requires FileIn(e, next, l, f.path) == Some(f) && IsSteady(e, prev, next, l, f)
    requires !IsTaken(e, prev, next, pending, Key(l, f.path))
    ensures EdgesOf(e, prev, l, f) == EdgesOf(e, next, l, f)
  {
    WhyUntaken(e, prev, next, pending, l, f);
    if f.layer != l && !Mentions(e, f, Shadow(e, prev, next, l)) {
      SkippedHasNone(e, prev, next, l, f);
      ShadowOfBoth(e, prev, next, l);
      SkippedHasNone(e, next, prev, l, f);
    } else {
      if f.layer != l { LowerFileStays(e, prev, next, l, f); }
      UnmovedIsSame(prev, next, l);
      SameEdges(e, prev, next, l, f);
    }
  }

  /** In a layer there was not, what is not taken is a lower file that is to have no edge. */
  lemma NewLayerWantsNone(e: Engine, prev: Plan, next: Plan, pending: set<Key>, l: LayerId, f: SourceFile)
    requires Regular(e) && StableScopes(e, next) && HasView(next, l) && l in next.layers && l !in prev.layers
    requires FileIn(e, next, l, f.path) == Some(f) && !IsTaken(e, prev, next, pending, Key(l, f.path))
    ensures EdgesOf(e, next, l, f) == {}
  {
    WhyUntaken(e, prev, next, pending, l, f);
    if f.layer == l { OwnFileStays(e, prev, next, l, f); }
    if Mentions(e, f, Shadow(e, prev, next, l)) { NewLayerShadow(e, prev, next, l, f); }
    SkippedHasNone(e, prev, next, l, f);
  }

  /** Own files that are not taken are steady. */
  lemma OwnIsSteady(e: Engine, prev: Plan, next: Plan, pending: set<Key>, l: LayerId, f: SourceFile)
    requires FactsBySha(e) && l in next.layers && FileIn(e, next, l, f.path) == Some(f) && f.layer == l
    requires !IsTaken(e, prev, next, pending, Key(l, f.path))
    ensures IsSteady(e, prev, next, l, f)
  {
    OwnFileStays(e, prev, next, l, f);
    SameVersion(e, prev, next, l, f);
  }

  ghost predicate InLayersOf(edges: set<Edge>, p: Plan) { forall g :: g in edges ==> g.layer in p.layers }

  /** A file neither taken nor overlooked keeps its edges exactly. */
  lemma Untouched(e: Engine, prev: Plan, next: Plan, edges0: set<Edge>, pending: set<Key>, l: LayerId, path: Path)
    requires Regular(e) && StableScopes(e, prev) && StableScopes(e, next)
    requires AllViews(prev) && HasView(next, l) && l in next.layers && InLayersOf(edges0, prev)
    requires !IsTaken(e, prev, next, pending, Key(l, path)) && !Overlooked(e, prev, next, pending, Key(l, path))
    requires l in prev.layers ==> IsExact(e, prev, edges0, l, path)
    ensures IsExact(e, next, Surviving(e, edges0, next), l, path)
  {
    if FileIn(e, next, l, path).Some? {
      var f := FileIn(e, next, l, path).value;
      if l in prev.layers {
        if f.layer == l { OwnIsSteady(e, prev, next, pending, l, f); }
        SteadyWants(e, prev, next, pending, l, f);
      } else {
        NewLayerWantsNone(e, prev, next, pending, l, f);
        assert EdgesAt(edges0, l, f) == {};
      }
      WantedSurvive(e, edges0, next, l, f);
    }
  }

  // ----- the names and files a batch reaches

  /** A version at k, before or after, has content and defines the name up to case. */
  ghost predicate DefinesAt(e: Engine, prev: Plan, next: Plan, path: Path, n: string) {
    exists p, id, s :: (p == prev || p == next) && DefinesIn(e, p, Key(id, path), s, n)
  }

  predicate DefinesIn(e: Engine, p: Plan, k: Key, s: Symbol, n: string) {
    && Holds(p, k) && !FileOf(p, k).deleted && FileOf(p, k).sha != "" && e.facts(k.path, FileOf(p, k)).Some?
    && s in e.facts(k.path, FileOf(p, k)).value.symbols && e.lower(s.name) == n
  }

  lemma NamesInIs(e: Engine, prev: Plan, next: Plan, path: Path, n: string)
    ensures n in NamesIn(e, prev, path) + NamesIn(e, next, path) <==> DefinesAt(e, prev, next, path, n)
  {
    forall p | p == prev || p == next
      ensures n in NamesIn(e, p, path) <==> exists id, s :: DefinesIn(e, p, Key(id, path), s, n)
    {
      if n in NamesIn(e, p, path) {
        var id, s :| id in p.layers && Versioned(e, p, Key(id, path))
          && s in e.facts(path, FileOf(p, Key(id, path))).value.symbols && e.lower(s.name) == n;
        assert DefinesIn(e, p, Key(id, path), s, n);
      }
    }
  }

  /** A layer shadows what any version of a path it holds, before or after, defines. */
  lemma ShadowMeaning(e: Engine, prev: Plan, next: Plan, l: LayerId, n: string)
    ensures n in Shadow(e, prev, next, l) <==>
            exists path :: (Holds(prev, Key(l, path)) || Holds(next, Key(l, path))) && DefinesAt(e, prev, next, path, n)
  {
    forall path ensures n in NamesIn(e, prev, path) + NamesIn(e, next, path) <==> DefinesAt(e, prev, next, path, n) {
      NamesInIs(e, prev, next, path, n);
    }
    if path :| (Holds(prev, Key(l, path)) || Holds(next, Key(l, path))) && DefinesAt(e, prev, next, path, n) {
      assert path in PathsAt(prev, l) + PathsAt(next, l) && n in NamesIn(e, prev, path) + NamesIn(e, next, path);
    }
  }

  /** Affected in a layer is what any version of a path put or removed in it or below it, before or after, defines. */
  lemma AffectedMeaning(e: Engine, prev: Plan, next: Plan, l: LayerId, n: string)
    ensures n in AffectedNames(e, prev, next, l) <==>
            exists c, path ::
              && (c == l || c in Ancestors(next, l) || c in Ancestors(prev, l)) && c in next.layers
              && IsChanged(prev, next, Key(c, path)) && DefinesAt(e, prev, next, path, n)
  {
    forall path ensures n in NamesIn(e, prev, path) + NamesIn(e, next, path) <==> DefinesAt(e, prev, next, path, n) {
      NamesInIs(e, prev, next, path, n);
    }
    forall c ensures n in NamesAt(e, prev, next, c) <==>
              exists path :: c in next.layers && IsChanged(prev, next, Key(c, path)) && DefinesAt(e, prev, next, path, n)
    {
      if n in NamesAt(e, prev, next, c) {
        var path :| path in ChangedAt(prev, next, c) && n in NamesIn(e, prev, path) + NamesIn(e, next, path);
        assert IsChanged(prev, next, Key(c, path));
      }
      if path :| c in next.layers && IsChanged(prev, next, Key(c, path)) && DefinesAt(e, prev, next, path, n) {
        ChangedPath(prev, next, c, path);
        NamesAtChanged(e, prev, next, c, path, n);
      }
    }
    AffectedIs(e, prev, next, l, n);
  }

  lemma AffectedIs(e: Engine, prev: Plan, next: Plan, l: LayerId, n: string)
    ensures n in AffectedNames(e, prev, next, l) <==>
            exists c :: (c == l || c in Ancestors(next, l) || c in Ancestors(prev, l)) && n in NamesAt(e, prev, next, c)
  {
    forall c ensures c in [l] + Ancestors(next, l) + Ancestors(prev, l) <==>
                     c == l || c in Ancestors(next, l) || c in Ancestors(prev, l) { }
  }

  /** A layer's own files resolved anew: those put, and all when its chain of parents moved. */
  lemma FullMeaning(prev: Plan, next: Plan, l: LayerId, path: Path)
    ensures path in FullAt(prev, next, l) <==>
            && Holds(next, Key(l, path)) && !FileOf(next, Key(l, path)).deleted
            && (IsPut(prev, next, Key(l, path)) || (l in prev.layers && Ancestors(next, l) != Ancestors(prev, l)))
    ensures path in LowerPuts(prev, next, l) <==> exists a :: a in Ancestors(next, l) && path in FullAt(prev, next, a)
  {
  }
}
