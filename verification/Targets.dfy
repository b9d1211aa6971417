/**
 * Which definition a reference resolves to (resolve and pick in
 * codeindex/resolve.go): that of the first try that keeps any, among those of
 * a fitting kind first; and the edge a file is to have for it.
 */
module Targets {
  import opened Wrappers
  import opened Plans
  import opened Visibility
  import opened Edges
  import opened Inheritance
  import opened ExactEdges

  /** The name a try looks under: an import's original name, else the reference's. */
  predicate LooksUnder(ref: Ref, t: Try, name: string) {
    (t.renamed == Some(name)) || (t.renamed.None? && ref.name == name)
  }

  /** A try keeps a definition: one of the family, in a file the view has, of the name up to folding. */
  ghost predicate Keeps(e: Engine, p: Plan, l: LayerId, f: SourceFile, ref: Ref, t: Try, c: Candidate) {
    && FileIn(e, p, l, c.file.path) == Some(c.file) && c.file.facts.family == f.facts.family
    && c.symbol in c.file.facts.symbols
    && (exists name :: LooksUnder(ref, t, name) && e.fold(c.symbol.name) == e.fold(name))
    && t.keep(c)
  }

  /** What the i-th try may take: fitting, no fallback's, and of a fitting kind only. */
  ghost predicate Takes(e: Engine, p: Plan, l: LayerId, f: SourceFile, ref: Ref, i: nat, fitting: bool, c: Candidate) {
    && i < |e.tries(l, f, ref)| && Keeps(e, p, l, f, ref, e.tries(l, f, ref)[i], c)
    && (fitting ==> !e.tries(l, f, ref)[i].fallback && e.fits(ref.kind, c.symbol))
  }

  /** The first try that may take any definition, and all it may take. */
  ghost predicate IsFirst(e: Engine, p: Plan, l: LayerId, f: SourceFile, ref: Ref, fitting: bool, i: nat, found: set<Candidate>) {
    && found != {} && (forall c :: c in found <==> Takes(e, p, l, f, ref, i, fitting, c))
    && forall j: nat, c :: j < i ==> !Takes(e, p, l, f, ref, j, fitting, c)
  }

  ghost predicate TakesAny(e: Engine, p: Plan, l: LayerId, f: SourceFile, ref: Ref, fitting: bool) {
    exists i: nat, c :: Takes(e, p, l, f, ref, i, fitting, c)
  }

  /** r is the pick of what the first try that may take any may take. */
  ghost predicate IsPick(e: Engine, p: Plan, l: LayerId, f: SourceFile, ref: Ref, fitting: bool, r: Option<Candidate>) {
    exists i: nat, found :: IsFirst(e, p, l, f, ref, fitting, i, found) && r == Some(e.pick(ref.kind, found))
  }

  lemma PathOf(e: Engine, p: Plan, l: LayerId, path: Path)
    requires FileIn(e, p, l, path).Some?
    ensures FileIn(e, p, l, path).value.path == path && path in AllPaths(p)
  {
    assert Holds(p, Key(FileIn(e, p, l, path).value.layer, path));
  }

  lemma FoundIs(e: Engine, p: Plan, l: LayerId, f: SourceFile, ref: Ref, i: nat, fitting: bool, c: Candidate)
    requires i < |e.tries(l, f, ref)| && (fitting ==> !e.tries(l, f, ref)[i].fallback)
    ensures c in Found(e, p, l, f, ref, e.tries(l, f, ref)[i], fitting) <==> Takes(e, p, l, f, ref, i, fitting, c)
  {
    var t := e.tries(l, f, ref)[i];
    var name := if t.renamed.Some? then t.renamed.value else ref.name;
    assert LooksUnder(ref, t, name) && forall n :: LooksUnder(ref, t, n) ==> n == name;
    if c in Candidates(e, p, l, f.facts.family, name) {
      var path, s :| path in AllPaths(p) && FileIn(e, p, l, path).Some?
        && FileIn(e, p, l, path).value.facts.family == f.facts.family
        && s in FileIn(e, p, l, path).value.facts.symbols && e.fold(s.name) == e.fold(name)
        && c == Candidate(FileIn(e, p, l, path).value, s);
      PathOf(e, p, l, path);
    }
    if FileIn(e, p, l, c.file.path) == Some(c.file) { PathOf(e, p, l, c.file.path); }
  }

  /** The walk from the i-th try on, when none before may take any. */
  lemma {:induction false} WalkIsPick(e: Engine, p: Plan, l: LayerId, f: SourceFile, ref: Ref, fitting: bool, i: nat)
    requires i <= |e.tries(l, f, ref)|
    requires forall j: nat, c :: j < i ==> !Takes(e, p, l, f, ref, j, fitting, c)
    ensures var r := WalkTries(e, p, l, f, ref, e.tries(l, f, ref)[i..], fitting);
            if TakesAny(e, p, l, f, ref, fitting) then IsPick(e, p, l, f, ref, fitting, r) else r.None?
    decreases |e.tries(l, f, ref)| - i
  {
    var tries := e.tries(l, f, ref);
    if i < |tries| {
      var found := Found(e, p, l, f, ref, tries[i], fitting);
      assert tries[i..][0] == tries[i] && tries[i..][1..] == tries[i + 1..];
      if !(fitting && tries[i].fallback) {
        forall c ensures c in found <==> Takes(e, p, l, f, ref, i, fitting, c) { FoundIs(e, p, l, f, ref, i, fitting, c); }
      }
      if (fitting && tries[i].fallback) || found == {} {
        forall j: nat, c | j < i + 1 ensures !Takes(e, p, l, f, ref, j, fitting, c) { }
        WalkIsPick(e, p, l, f, ref, fitting, i + 1);
      } else {
        var c :| c in found;
        assert Takes(e, p, l, f, ref, i, fitting, c);
        assert IsFirst(e, p, l, f, ref, fitting, i, found);
      }
    }
  }

  /**
   * A reference of a filtered kind resolves to the pick of the fitting
   * definitions the first try keeps that keeps any, fallbacks apart; without
   * one, and a reference of another kind, to the pick of all the definitions
   * the first try keeps that keeps any; to none when no try keeps any.
   */
  lemma ResolveMeaning(e: Engine, p: Plan, l: LayerId, f: SourceFile, ref: Ref)
    ensures var r := Resolve(e, p, l, f, ref);
            if e.kindFiltered(ref.kind) && TakesAny(e, p, l, f, ref, true) then IsPick(e, p, l, f, ref, true, r)
            else if TakesAny(e, p, l, f, ref, false) then IsPick(e, p, l, f, ref, false, r)
            else r.None?
  {
    var tries := e.tries(l, f, ref);
    assert tries[0..] == tries;
    WalkIsPick(e, p, l, f, ref, true, 0);
    WalkIsPick(e, p, l, f, ref, false, 0);
  }

  /** So where a definition of a fitting kind is kept the target fits. */
  lemma ResolvesToFitting(e: Engine, p: Plan, l: LayerId, f: SourceFile, ref: Ref)
    requires Lawful(e) && e.kindFiltered(ref.kind) && TakesAny(e, p, l, f, ref, true)
    ensures Resolve(e, p, l, f, ref).Some? && e.fits(ref.kind, Resolve(e, p, l, f, ref).value.symbol)
  {
    ResolveMeaning(e, p, l, f, ref);
    var r := Resolve(e, p, l, f, ref);
    var i: nat, found :| IsFirst(e, p, l, f, ref, true, i, found) && r == Some(e.pick(ref.kind, found));
    assert r.value in found;
  }

  /** A view resolves in the versions it shows that have content and facts, each in the package the view gives it. */
  lemma FileInMeaning(e: Engine, p: Plan, l: LayerId, path: Path, f: SourceFile)
    ensures FileIn(e, p, l, path) == Some(f) <==>
            && Shown(p, Chain(p, l), path) == Some(f.layer) && Versioned(e, p, Key(f.layer, path))
            && f.path == path && f.package == e.package(l, path) && e.facts(path, FileOf(p, Key(f.layer, path))) == Some(f.facts)
  {
  }

  // ----- the edges a file is to have

  /** Some layer below has the file and resolves the reference to the same definition. */
  ghost predicate SameBelow(e: Engine, p: Plan, l: LayerId, f: SourceFile, ref: Ref, c: Candidate) {
    && f.layer != l && Ancestors(p, l) != []
    && exists pf, was :: FileIn(e, p, Ancestors(p, l)[0], f.path) == Some(pf)
         && Resolve(e, p, Ancestors(p, l)[0], pf, ref) == Some(was)
         && was.file.layer == c.file.layer && was.file.path == c.file.path && was.symbol.id == c.symbol.id
  }

  /** The edge from the definition a reference is in to the one it resolves to, of the type its language gives. */
  ghost predicate StandsFor(e: Engine, p: Plan, l: LayerId, f: SourceFile, ref: Ref, c: Candidate, g: Edge) {
    && ref in f.facts.refs && ref.enclosing != "" && Resolve(e, p, l, f, ref) == Some(c)
    && g.layer == l && g.typ == e.edgeType(f.facts, ref, c.symbol)
    && g.from.layer == f.layer && g.from.path == f.path && g.from.id == ref.enclosing
    && g.to.layer == c.file.layer && g.to.path == c.file.path && g.to.id == c.symbol.id
  }

  /** A file is to have in a layer exactly the edges for references the view below does not resolve alike. */
  lemma WantsMeaning(e: Engine, p: Plan, l: LayerId, f: SourceFile, g: Edge)
    ensures Wants(e, p, l, f, g) <==>
            exists ref, c :: StandsFor(e, p, l, f, ref, c, g) && !SameBelow(e, p, l, f, ref, c)
  {
    forall ref, c | Resolve(e, p, l, f, ref) == Some(c)
      ensures Inherits(e, p, l, f, ref, c) <==> SameBelow(e, p, l, f, ref, c)
    {
    }
    if ref :| ref in f.facts.refs && Written(e, p, l, f, ref) == Some(g) {
      assert StandsFor(e, p, l, f, ref, Resolve(e, p, l, f, ref).value, g);
    }
    if ref, c :| StandsFor(e, p, l, f, ref, c, g) && !SameBelow(e, p, l, f, ref, c) {
      assert Written(e, p, l, f, ref) == Some(g);
    }
  }

  /** And a reference has its edge in sight. */
  lemma HasEdgeMeaning(e: Engine, p: Plan, edges: set<Edge>, l: LayerId, f: SourceFile, ref: Ref, c: Candidate)
    ensures HasEdge(e, p, edges, l, f, ref, c) <==>
            exists g :: g in edges && EdgeShown(p, l, g) && g.typ == e.edgeType(f.facts, ref, c.symbol)
              && g.from == Node(f.layer, f.path, ref.enclosing) && g.to == Node(c.file.layer, c.file.path, c.symbol.id)
  {
    forall g: Edge ensures g == EdgeFor(e, g.layer, f, ref, c) <==>
              g.typ == e.edgeType(f.facts, ref, c.symbol)
              && g.from == Node(f.layer, f.path, ref.enclosing) && g.to == Node(c.file.layer, c.file.path, c.symbol.id)
    {
    }
  }
}
