/**
 * Nothing is lost by storing only differences: every reference a layer's view
 * resolves has a visible edge to that definition, in the layer or below it,
 * even though files that mention no shadowed name are skipped.
 */
module Inheritance {
  import opened Wrappers
  import opened Plans
  import opened Visibility
  import opened Edges

  // ----- the view below

  function Below(p: Plan, l: LayerId): Option<LayerId> {
    if Ancestors(p, l) == [] then None else Some(Ancestors(p, l)[0])
  }

  /** The layer below a viewable layer has a view, and it is the rest of the chain. */
  lemma BelowHasView(p: Plan, l: LayerId)
    requires HasView(p, l) && Below(p, l).Some?
    ensures var b := Below(p, l).value;
            HasView(p, b) && Chain(p, l) == [l] + Chain(p, b) && |Chain(p, b)| < |Chain(p, l)|
  {
    var b := Below(p, l).value;
    WalkFromSelf(p, l);
    ChainOrder(p, l, 1, 1);
    WalkSuffix(p, l, {}, 1);
    assert Chain(p, l)[1..] == Ancestors(p, l) && Chain(p, l)[2..] == Ancestors(p, l)[1..];
    assert Chain(p, b) == Ancestors(p, l);
    assert {} + {l} == {l};
    assert Grounded(p, b, {l});
    GroundedForgets(p, b, {l}, {});
  }

  lemma {:induction false} GroundedForgets(p: Plan, cur: LayerId, seen: set<LayerId>, fewer: set<LayerId>)
    requires Grounded(p, cur, seen) && fewer <= seen
    ensures Grounded(p, cur, fewer)
    decreases p.layers.Keys - seen
  {
    if cur != "" { GroundedForgets(p, Parent(p, cur), seen + {cur}, fewer + {cur}); }
  }

  /** What a layer does not hold, its view shows as the view below does. */
  lemma ShownBelow(p: Plan, l: LayerId, path: Path)
    requires HasView(p, l) && Below(p, l).Some? && !Holds(p, Key(l, path))
    ensures Shown(p, Chain(p, l), path) == Shown(p, Chain(p, Below(p, l).value), path)
  {
    BelowHasView(p, l);
    assert Chain(p, l)[1..] == Chain(p, Below(p, l).value);
  }

  /** A shown version from a lower layer means the layer itself holds nothing at the path. */
  lemma ShownFromBelow(p: Plan, l: LayerId, path: Path, a: LayerId)
    requires HasView(p, l) && Shown(p, Chain(p, l), path) == Some(a) && a != l
    ensures !Holds(p, Key(l, path)) && Below(p, l).Some?
    ensures Shown(p, Chain(p, Below(p, l).value), path) == Some(a)
  {
    assert Chain(p, l)[0] == l;
    assert Ancestors(p, l) == [] ==> Chain(p, l)[1..] == [] && TopHolder(p, [], path).None?;
    ShownBelow(p, l, path);
  }

  // ----- the shadow of a layer

  /** The file version at k has content and facts. */
  predicate Versioned(e: Engine, p: Plan, k: Key) {
    && Holds(p, k) && !FileOf(p, k).deleted && FileOf(p, k).sha != "" && e.facts(k.path, FileOf(p, k)).Some?
  }

  function NamesIn(e: Engine, p: Plan, path: Path): set<string> {
    set id, s | id in p.layers && Versioned(e, p, Key(id, path))
                && s in e.facts(path, FileOf(p, Key(id, path))).value.symbols :: e.lower(s.name)
  }

  function PathsAt(p: Plan, l: LayerId): set<Path> {
    if l in p.layers then p.layers[l].files.Keys else {}
  }

  /**
   * The names a layer can make its view resolve differently from the one
   * below: those defined by any version, before or after the batch, of the
   * paths it holds.
   */
  function Shadow(e: Engine, prev: Plan, next: Plan, l: LayerId): set<string> {
    set path, n | path in PathsAt(prev, l) + PathsAt(next, l) && n in NamesIn(e, prev, path) + NamesIn(e, next, path) :: n
  }

  predicate Mentions(e: Engine, f: SourceFile, names: set<string>) {
    exists ref :: ref in f.facts.refs && e.lower(ref.name) in names
  }

  // ----- skipping by shadow is sound

  /** Every file shown in both views has one package, and the file's references one list of tries, in both. */
  ghost predicate SameScope(e: Engine, p: Plan, l: LayerId, b: LayerId, f: SourceFile) {
    && (forall path :: e.package(l, path) == e.package(b, path))
    && (forall ref :: ref in f.facts.refs ==> e.tries(l, f, ref) == e.tries(b, f, ref))
    && (forall ref, t :: ref in f.facts.refs && t in e.tries(l, f, ref) ==> t.renamed.None?)
  }

  /** A name outside the shadow has the same definitions in the layer's view as in the view below. */
  lemma SameCandidates(e: Engine, prev: Plan, p: Plan, l: LayerId, family: string, n: string)
    requires Lawful(e) && HasView(p, l) && Below(p, l).Some?
    requires forall path :: e.package(l, path) == e.package(Below(p, l).value, path)
    requires e.lower(n) !in Shadow(e, prev, p, l)
    ensures Candidates(e, p, l, family, n) == Candidates(e, p, Below(p, l).value, family, n)
  {
    var b := Below(p, l).value;
    forall f: Path, s: Symbol | e.fold(s.name) == e.fold(n)
      ensures Defines(e, p, l, f, s) <==> Defines(e, p, b, f, s)
      ensures Defines(e, p, l, f, s) ==> FileIn(e, p, l, f) == FileIn(e, p, b, f)
    {
      if Holds(p, Key(l, f)) {
        ShadowedPath(e, prev, p, l, l, f, s, n);
        ShadowedPath(e, prev, p, l, b, f, s, n);
      } else {
        ShownBelow(p, l, f);
      }
    }
    forall c ensures c in Candidates(e, p, l, family, n) <==> c in Candidates(e, p, b, family, n) {
      if c in Candidates(e, p, l, family, n) {
        var f, s :| f in AllPaths(p) && FileIn(e, p, l, f).Some? && FileIn(e, p, l, f).value.facts.family == family
          && s in FileIn(e, p, l, f).value.facts.symbols && e.fold(s.name) == e.fold(n) && c == Candidate(FileIn(e, p, l, f).value, s);
        assert Defines(e, p, l, f, s);
      }
      if c in Candidates(e, p, b, family, n) {
        var f, s :| f in AllPaths(p) && FileIn(e, p, b, f).Some? && FileIn(e, p, b, f).value.facts.family == family
          && s in FileIn(e, p, b, f).value.facts.symbols && e.fold(s.name) == e.fold(n) && c == Candidate(FileIn(e, p, b, f).value, s);
        assert Defines(e, p, b, f, s);
      }
    }
  }

  predicate Defines(e: Engine, p: Plan, l: LayerId, path: Path, s: Symbol) {
    FileIn(e, p, l, path).Some? && s in FileIn(e, p, l, path).value.facts.symbols
  }

  /** At a path the layer holds, no version defines a name outside its shadow. */
  lemma ShadowedPath(e: Engine, prev: Plan, p: Plan, l: LayerId, v: LayerId, path: Path, s: Symbol, n: string)
    requires Lawful(e) && Holds(p, Key(l, path)) && e.lower(n) !in Shadow(e, prev, p, l) && e.fold(s.name) == e.fold(n)
    ensures !Defines(e, p, v, path, s)
  {
    assert path in PathsAt(p, l) && e.lower(s.name) == e.lower(n);
    if Defines(e, p, v, path, s) {
      DefinedIsNamed(e, p, v, path, s);
      NamedIsShadowed(e, prev, p, l, path, e.lower(n));
    }
  }

  lemma NamedIsShadowed(e: Engine, prev: Plan, p: Plan, l: LayerId, path: Path, n: string)
    requires path in PathsAt(p, l) && n in NamesIn(e, p, path)
    ensures n in Shadow(e, prev, p, l)
  {
    assert path in PathsAt(prev, l) + PathsAt(p, l) && n in NamesIn(e, prev, path) + NamesIn(e, p, path);
  }

  lemma DefinedIsNamed(e: Engine, p: Plan, v: LayerId, path: Path, s: Symbol)
    requires Defines(e, p, v, path, s)
    ensures e.lower(s.name) in NamesIn(e, p, path)
  {
    var a := Shown(p, Chain(p, v), path).value;
    assert Versioned(e, p, Key(a, path));
  }

  lemma {:induction false} SameWalk(e: Engine, p: Plan, l: LayerId, b: LayerId, f: SourceFile, ref: Ref,
                                    tries: seq<Try>, fitting: bool)
    requires Candidates(e, p, l, f.facts.family, ref.name) == Candidates(e, p, b, f.facts.family, ref.name)
    requires forall t :: t in tries ==> t.renamed.None?
    ensures WalkTries(e, p, l, f, ref, tries, fitting) == WalkTries(e, p, b, f, ref, tries, fitting)
  {
    if tries != [] {
      SameWalk(e, p, l, b, f, ref, tries[1..], fitting);
      assert tries[0] in tries;
      assert Found(e, p, l, f, ref, tries[0], fitting) == Found(e, p, b, f, ref, tries[0], fitting);
    }
  }

  /** A file of a lower layer that mentions no shadowed name resolves every reference as the view below does. */
  lemma SkipIsSound(e: Engine, prev: Plan, p: Plan, l: LayerId, f: SourceFile, ref: Ref)
    requires Lawful(e) && HasView(p, l) && FileIn(e, p, l, f.path) == Some(f) && f.layer != l
    requires Below(p, l).Some? && SameScope(e, p, l, Below(p, l).value, f)
    requires !Mentions(e, f, Shadow(e, prev, p, l)) && ref in f.facts.refs
    ensures FileIn(e, p, Below(p, l).value, f.path) == Some(f)
    ensures Resolve(e, p, l, f, ref) == Resolve(e, p, Below(p, l).value, f, ref)
    ensures Written(e, p, l, f, ref).None?
  {
    var b := Below(p, l).value;
    ShownFromBelow(p, l, f.path, f.layer);
    assert e.lower(ref.name) !in Shadow(e, prev, p, l);
    SameCandidates(e, prev, p, l, f.facts.family, ref.name);
    SameWalk(e, p, l, b, f, ref, e.tries(l, f, ref), true);
    SameWalk(e, p, l, b, f, ref, e.tries(l, f, ref), false);
  }

  // ----- inheritance is complete

  /** The graph has what resolveFile writes for the file in the layer, or the layer skips it by its shadow. */
  ghost predicate Covered(e: Engine, prev: Plan, p: Plan, edges: set<Edge>, l: LayerId, f: SourceFile) {
    || EdgesOf(e, p, l, f) <= edges
    || (&& f.layer != l && Below(p, l).Some? && SameScope(e, p, l, Below(p, l).value, f)
        && !Mentions(e, f, Shadow(e, prev, p, l)))
  }

  ghost predicate AllCovered(e: Engine, prev: Plan, p: Plan, edges: set<Edge>) {
    forall l, path :: HasView(p, l) && FileIn(e, p, l, path).Some? ==> Covered(e, prev, p, edges, l, FileIn(e, p, l, path).value)
  }

  /** So is the file at path in every view of a chain. */
  ghost predicate CoveredAlong(e: Engine, prev: Plan, p: Plan, edges: set<Edge>, chain: seq<LayerId>, path: Path) {
    forall c :: c in chain && HasView(p, c) && FileIn(e, p, c, path).Some? ==>
      Covered(e, prev, p, edges, c, FileIn(e, p, c, path).value)
  }

  /** A visible edge of the reference's type from its enclosing definition to the definition it resolves to. */
  ghost predicate HasEdge(e: Engine, p: Plan, edges: set<Edge>, l: LayerId, f: SourceFile, ref: Ref, c: Candidate) {
    exists g :: g in edges && EdgeShown(p, l, g) && g == EdgeFor(e, g.layer, f, ref, c)
  }

  /** The type of an edge does not depend on the package a view puts the definition's file in. */
  lemma SameEdge(e: Engine, l: LayerId, f: SourceFile, pf: SourceFile, ref: Ref, c: Candidate, was: Candidate)
    requires pf.facts == f.facts && pf.layer == f.layer && pf.path == f.path
    requires NodeOf(was) == NodeOf(c) && was.symbol == c.symbol
    ensures EdgeFor(e, l, f, ref, c) == EdgeFor(e, l, pf, ref, was)
  {
  }

  /** Ids are unique in a file, so a node names one symbol. */
  ghost predicate UniqueIds(e: Engine) {
    forall path, src, s, t ::
      (e.facts(path, src).Some? && s in e.facts(path, src).value.symbols
       && t in e.facts(path, src).value.symbols && s.id == t.id) ==> s == t
  }

  /** The symbol a resolved candidate names is one of its file's version in the plan. */
  lemma {:induction false} WalkSymbol(e: Engine, p: Plan, l: LayerId, f: SourceFile, ref: Ref, tries: seq<Try>,
                                      fitting: bool)
    requires Lawful(e) && WalkTries(e, p, l, f, ref, tries, fitting).Some?
    ensures IsDefinition(e, p, WalkTries(e, p, l, f, ref, tries, fitting).value)
  {
    var found := Found(e, p, l, f, ref, tries[0], fitting);
    if (fitting && tries[0].fallback) || found == {} {
      WalkSymbol(e, p, l, f, ref, tries[1..], fitting);
    } else {
      assert e.pick(ref.kind, found) in found;
    }
  }

  predicate IsDefinition(e: Engine, p: Plan, c: Candidate) {
    var k := Key(c.file.layer, c.file.path);
    && Holds(p, k) && e.facts(k.path, FileOf(p, k)).Some?
    && c.symbol in e.facts(k.path, FileOf(p, k)).value.symbols
  }

  lemma ResolvesToDefinition(e: Engine, p: Plan, l: LayerId, f: SourceFile, ref: Ref)
    requires Lawful(e) && Resolve(e, p, l, f, ref).Some?
    ensures IsDefinition(e, p, Resolve(e, p, l, f, ref).value)
  {
    var tries := e.tries(l, f, ref);
    if e.kindFiltered(ref.kind) && WalkTries(e, p, l, f, ref, tries, true).Some? {
      WalkSymbol(e, p, l, f, ref, tries, true);
    } else {
      WalkSymbol(e, p, l, f, ref, tries, false);
    }
  }

  /**
   * When a path's file is resolved or skipped by its shadow in every view of a
   * chain, each reference with an enclosing definition that the top view
   * resolves has a visible edge to exactly the definition it resolves to.
   */
  lemma {:induction false} EdgesComplete(e: Engine, prev: Plan, p: Plan, edges: set<Edge>, l: LayerId, f: SourceFile,
                                         ref: Ref)
    requires Lawful(e) && UniqueIds(e) && CoveredAlong(e, prev, p, edges, Chain(p, l), f.path) && HasView(p, l)
    requires FileIn(e, p, l, f.path) == Some(f) && ref in f.facts.refs && ref.enclosing != ""
    requires Resolve(e, p, l, f, ref).Some?
    ensures HasEdge(e, p, edges, l, f, ref, Resolve(e, p, l, f, ref).value)
    decreases |Chain(p, l)|
  {
    var c := Resolve(e, p, l, f, ref).value;
    ResolvesToShown(e, p, l, f, ref);
    assert Chain(p, l)[0] == l;
    assert Covered(e, prev, p, edges, l, f);
    if f.layer != l {
      ShownFromBelow(p, l, f.path, f.layer);
      if !(EdgesOf(e, p, l, f) <= edges) { SkipIsSound(e, prev, p, l, f, ref); }
    }
    if Inherits(e, p, l, f, ref, c) {
      InheritedEdge(e, prev, p, edges, l, f, ref, c);
    } else {
      OwnEdge(e, prev, p, edges, l, f, ref, c);
    }
  }

  lemma OwnEdge(e: Engine, prev: Plan, p: Plan, edges: set<Edge>, l: LayerId, f: SourceFile, ref: Ref, c: Candidate)
    requires FileIn(e, p, l, f.path) == Some(f) && ref in f.facts.refs && ref.enclosing != ""
    requires Resolve(e, p, l, f, ref) == Some(c) && NodeShown(p, l, NodeOf(c)) && !Inherits(e, p, l, f, ref, c)
    requires EdgesOf(e, p, l, f) <= edges
    ensures HasEdge(e, p, edges, l, f, ref, c)
  {
    var g := EdgeFor(e, l, f, ref, c);
    assert Written(e, p, l, f, ref) == Some(g);
    assert g in EdgesOf(e, p, l, f);
    assert Chain(p, l)[0] == l;
    assert EdgeShown(p, l, g);
  }

  lemma {:induction false} InheritedEdge(e: Engine, prev: Plan, p: Plan, edges: set<Edge>, l: LayerId, f: SourceFile,
                                         ref: Ref, c: Candidate)
    requires Lawful(e) && UniqueIds(e) && CoveredAlong(e, prev, p, edges, Chain(p, l), f.path) && HasView(p, l)
    requires FileIn(e, p, l, f.path) == Some(f) && ref in f.facts.refs && ref.enclosing != ""
    requires Resolve(e, p, l, f, ref) == Some(c) && NodeShown(p, l, NodeOf(c)) && Inherits(e, p, l, f, ref, c)
    ensures HasEdge(e, p, edges, l, f, ref, c)
    decreases |Chain(p, l)|, 0
  {
    ShownFromBelow(p, l, f.path, f.layer);
    BelowHasView(p, l);
    var b := Below(p, l).value;
    var pf := FileIn(e, p, b, f.path).value;
    var was := Resolve(e, p, b, pf, ref).value;
    ResolvesToDefinition(e, p, l, f, ref);
    ResolvesToDefinition(e, p, b, pf, ref);
    assert was.symbol == c.symbol;
    assert forall d :: d in Chain(p, b) ==> d in Chain(p, l);
    EdgesComplete(e, prev, p, edges, b, pf, ref);
    var g :| g in edges && EdgeShown(p, b, g) && g == EdgeFor(e, g.layer, pf, ref, was);
    SameEdge(e, g.layer, f, pf, ref, c, was);
    assert g.layer in Chain(p, l);
    assert EdgeShown(p, l, g);
  }
}
