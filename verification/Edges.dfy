/**
 * Per-layer edges (codeindex/resolve.go).  A layer stores the edges of its own
 * files, and of lower files only those its view resolves differently from the
 * view below; files that mention no name the layer defines or hides are not
 * resolved in it at all.
 *
 * A language family's resolver is a parameter: the package it gives a file in
 * a view, the tries it walks for a reference, and the pick among several
 * definitions.
 */
module Edges {
  import opened Wrappers
  import opened Plans
  import opened Visibility

  // ----- facts

  datatype Symbol = Symbol(id: string, name: string, qualName: string, kind: string, parent: string, exported: bool)

  /** A reference in a file; enclosing is the definition it occurs in, "" for none. */
  datatype Ref = Ref(name: string, qualifier: string, kind: string, enclosing: string, line: nat)

  datatype Facts = Facts(family: string, symbols: set<Symbol>, refs: seq<Ref>)

  /** A visible file as a view sees it: the layer its version comes from and its package there. */
  datatype SourceFile = SourceFile(path: Path, layer: LayerId, package: string, facts: Facts)

  datatype Candidate = Candidate(file: SourceFile, symbol: Symbol)

  datatype Node = Node(layer: LayerId, path: Path, id: string)

  function NodeOf(c: Candidate): Node { Node(c.file.layer, c.file.path, c.symbol.id) }

  /** One step of the walk: which definitions it keeps; renamed steps look under an import's original name. */
  datatype Try = Try(fallback: bool, keep: Candidate -> bool, renamed: Option<string>)

  datatype Engine = Engine(
    facts: (Path, FileSource) -> Option<Facts>,
    package: (LayerId, Path) -> string,
    tries: (LayerId, SourceFile, Ref) -> seq<Try>,
    pick: (string, set<Candidate>) -> Candidate,
    fits: (string, Symbol) -> bool,
    kindFiltered: string -> bool,
    fold: string -> string,
    lower: string -> string,
    edgeType: (Facts, Ref, Symbol) -> string)

  /** The pick is one of the definitions found, and folding never separates names that differ in case less. */
  ghost predicate Lawful(e: Engine) {
    && (forall kind, found :: found != {} ==> e.pick(kind, found) in found)
    && (forall a, b :: e.fold(a) == e.fold(b) ==> e.lower(a) == e.lower(b))
  }

  // ----- views

  function AllPaths(p: Plan): set<Path> {
    set id, f | id in p.layers && f in p.layers[id].files :: f
  }

  /** The file a layer's view resolves in at path: its shown version, when it has content and facts. */
  function FileIn(e: Engine, p: Plan, l: LayerId, path: Path): Option<SourceFile> {
    match Shown(p, Chain(p, l), path)
    case None => None
    case Some(a) =>
      if !Holds(p, Key(a, path)) || FileOf(p, Key(a, path)).sha == "" then None
      else
        match e.facts(path, FileOf(p, Key(a, path)))
        case None => None
        case Some(facts) => Some(SourceFile(path, a, e.package(l, path), facts))
  }

  /** The definitions of a family named n, up to folding, in a layer's view. */
  function Candidates(e: Engine, p: Plan, l: LayerId, family: string, n: string): set<Candidate> {
    set f, s | f in AllPaths(p) && FileIn(e, p, l, f).Some?
               && FileIn(e, p, l, f).value.facts.family == family
               && s in FileIn(e, p, l, f).value.facts.symbols && e.fold(s.name) == e.fold(n) ::
      Candidate(FileIn(e, p, l, f).value, s)
  }

  // ----- resolving one reference

  /** What one try finds; fitting tries keep only definitions of a fitting kind. */
  function Found(e: Engine, p: Plan, l: LayerId, f: SourceFile, ref: Ref, t: Try, fitting: bool): set<Candidate> {
    set c | c in Candidates(e, p, l, f.facts.family, if t.renamed.Some? then t.renamed.value else ref.name)
            && t.keep(c) && (fitting ==> e.fits(ref.kind, c.symbol))
  }

  /** The tries in order; the first that finds anything decides. */
  function WalkTries(e: Engine, p: Plan, l: LayerId, f: SourceFile, ref: Ref, tries: seq<Try>,
                     fitting: bool): Option<Candidate> {
    if tries == [] then None
    else
      var t := tries[0];
      var found := Found(e, p, l, f, ref, t, fitting);
      if (fitting && t.fallback) || found == {} then WalkTries(e, p, l, f, ref, tries[1..], fitting)
      else Some(e.pick(ref.kind, found))
  }

  /** A kind-filtered reference walks the tries for a fitting kind, without the fallbacks, and then for any kind. */
  function Resolve(e: Engine, p: Plan, l: LayerId, f: SourceFile, ref: Ref): Option<Candidate> {
    var tries := e.tries(l, f, ref);
    var fitting := if e.kindFiltered(ref.kind) then WalkTries(e, p, l, f, ref, tries, true) else None;
    if fitting.Some? then fitting else WalkTries(e, p, l, f, ref, tries, false)
  }

  lemma {:induction false} WalkFindsCandidate(e: Engine, p: Plan, l: LayerId, f: SourceFile, ref: Ref,
                                              tries: seq<Try>, fitting: bool)
    requires Lawful(e) && WalkTries(e, p, l, f, ref, tries, fitting).Some?
    ensures var c := WalkTries(e, p, l, f, ref, tries, fitting).value;
            exists path :: FileIn(e, p, l, path) == Some(c.file) && c.file.path == path
  {
    var found := Found(e, p, l, f, ref, tries[0], fitting);
    if (fitting && tries[0].fallback) || found == {} {
      WalkFindsCandidate(e, p, l, f, ref, tries[1..], fitting);
    } else {
      assert e.pick(ref.kind, found) in found;
    }
  }

  /** A reference resolves to a definition of a file the view shows. */
  lemma ResolvesToShown(e: Engine, p: Plan, l: LayerId, f: SourceFile, ref: Ref)
    requires Lawful(e) && Resolve(e, p, l, f, ref).Some?
    ensures NodeShown(p, l, NodeOf(Resolve(e, p, l, f, ref).value))
  {
    var tries := e.tries(l, f, ref);
    if e.kindFiltered(ref.kind) && WalkTries(e, p, l, f, ref, tries, true).Some? {
      WalkFindsCandidate(e, p, l, f, ref, tries, true);
    } else {
      WalkFindsCandidate(e, p, l, f, ref, tries, false);
    }
  }

  // ----- edges

  datatype Edge = Edge(layer: LayerId, typ: string, from: Node, to: Node)

  /** A symbol's node is visible when its file is. */
  predicate NodeShown(p: Plan, l: LayerId, n: Node) {
    Shown(p, Chain(p, l), n.path) == Some(n.layer)
  }

  predicate EdgeShown(p: Plan, l: LayerId, g: Edge) {
    g.layer in Chain(p, l) && NodeShown(p, l, g.from) && NodeShown(p, l, g.to)
  }

  function ParentFile(e: Engine, p: Plan, l: LayerId, f: SourceFile): Option<SourceFile> {
    if f.layer != l && Ancestors(p, l) != [] then FileIn(e, p, Ancestors(p, l)[0], f.path) else None
  }

  /** The layer below resolves the reference to the same node. */
  predicate Inherits(e: Engine, p: Plan, l: LayerId, f: SourceFile, ref: Ref, c: Candidate) {
    var pf := ParentFile(e, p, l, f);
    && pf.Some?
    && var was := Resolve(e, p, Ancestors(p, l)[0], pf.value, ref);
       was.Some? && NodeOf(was.value) == NodeOf(c)
  }

  function EdgeFor(e: Engine, l: LayerId, f: SourceFile, ref: Ref, c: Candidate): Edge {
    Edge(l, e.edgeType(f.facts, ref, c.symbol), Node(f.layer, f.path, ref.enclosing), NodeOf(c))
  }

  /** The edge resolveFile writes for a reference, if any. */
  function Written(e: Engine, p: Plan, l: LayerId, f: SourceFile, ref: Ref): Option<Edge> {
    if ref.enclosing == "" then None
    else
      match Resolve(e, p, l, f, ref)
      case None => None
      case Some(c) => if Inherits(e, p, l, f, ref, c) then None else Some(EdgeFor(e, l, f, ref, c))
  }

  function EdgesFor(e: Engine, p: Plan, l: LayerId, f: SourceFile, refs: seq<Ref>): set<Edge> {
    set ref | ref in refs && Written(e, p, l, f, ref).Some? :: Written(e, p, l, f, ref).value
  }

  function EdgesOf(e: Engine, p: Plan, l: LayerId, f: SourceFile): set<Edge> {
    EdgesFor(e, p, l, f, f.facts.refs)
  }

  lemma EdgesForMore(e: Engine, p: Plan, l: LayerId, f: SourceFile, refs: seq<Ref>, ref: Ref)
    ensures EdgesFor(e, p, l, f, refs + [ref]) ==
            EdgesFor(e, p, l, f, refs) + if Written(e, p, l, f, ref).Some? then {Written(e, p, l, f, ref).value} else {}
  {
    assert forall r :: r in refs + [ref] <==> r in refs || r == ref;
  }

  /** The edges that are not layer's from one of the nodes. */
  function Without(edges: set<Edge>, layer: LayerId, from: set<Node>): set<Edge> {
    set g | g in edges && !(g.layer == layer && g.from in from)
  }

  /** The graph's resolved edges; PutEdges replaces a layer's edges from some nodes. */
  class EdgeStore {
    var edges: set<Edge>

    constructor ()
      ensures edges == {}
    {
      edges := {};
    }

    method PutEdges(layer: LayerId, from: set<Node>, put: set<Edge>)
      modifies this
      ensures edges == Without(old(edges), layer, from) + put
    {
      edges := Without(edges, layer, from) + put;
    }

    /** The edges file writes leave. */
    method Keep(left: set<Edge>)
      modifies this
      ensures edges == left
    {
      edges := left;
    }
  }

  function SymbolNodes(f: SourceFile): set<Node> {
    set s | s in f.facts.symbols :: Node(f.layer, f.path, s.id)
  }

  /** Resolves a file's references in a layer's view and replaces the edges the layer holds from its symbols. */
  method ResolveFile(store: EdgeStore, e: Engine, p: Plan, l: LayerId, f: SourceFile)
    modifies store
    ensures store.edges == Without(old(store.edges), l, SymbolNodes(f))
                           + (if f.facts.symbols == {} then {} else EdgesOf(e, p, l, f))
  {
    if f.facts.symbols == {} {
      assert SymbolNodes(f) == {};
      assert Without(store.edges, l, {}) + {} == store.edges;
      return;
    }
    var edges: set<Edge> := {};
    for i := 0 to |f.facts.refs|
      invariant store.edges == old(store.edges)
      invariant edges == EdgesFor(e, p, l, f, f.facts.refs[..i])
    {
      var ref := f.facts.refs[i];
      assert f.facts.refs[..i + 1] == f.facts.refs[..i] + [ref];
      EdgesForMore(e, p, l, f, f.facts.refs[..i], ref);
      if ref.enclosing != "" {
        var t := Resolve(e, p, l, f, ref);
        if t.Some? && !Inherits(e, p, l, f, ref, t.value) {
          edges := edges + {EdgeFor(e, l, f, ref, t.value)};
        }
      }
    }
    assert f.facts.refs[..|f.facts.refs|] == f.facts.refs;
    store.PutEdges(l, SymbolNodes(f), edges);
  }
}
