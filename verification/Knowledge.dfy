/**
 * What source trees say about a path at their pushed commit (pushedKnowledge
 * and resolve in codeindex/layers.go).
 */
module Knowledge {
  import opened Plans
  import opened Orders
  import opened ChangeLog

  /** One path of a checkout: its blob, its git blob id in HEAD, and whether it is dirty or unpushed. */
  datatype Entry = Entry(sha: string, oid: string, size: int, mode: string, lang: string,
                         dirty: bool, unpushed: bool, session: string)

  datatype Worktree = Worktree(id: string, owner: string, github: bool, removed: bool, defaultBranch: string)

  datatype Tree = Tree(worktree: Worktree, state: TreeState, entries: map<Path, Entry>)

  /** The source trees' entries of one path; sampleBlob is keyed by git blob id and blob. */
  datatype PathKnowledge = PathKnowledge(oids: map<string, nat>, blobs: map<string, map<string, nat>>,
                                         sampleOid: map<string, Entry>, sampleBlob: map<(string, string), Entry>,
                                         absents: nat, unknown: nat)

  const NOTHING_KNOWN := PathKnowledge(map[], map[], map[], map[], 0, 0)

  function Count(m: map<string, nat>, k: string): nat {
    if k in m then m[k] else 0
  }

  function BlobsOf(k: PathKnowledge, oid: string): map<string, nat> {
    if oid in k.blobs then k.blobs[oid] else map[]
  }

  /** One more tree's entry of the path. */
  function Absorb(k: PathKnowledge, e: Entry): PathKnowledge {
    if e.unpushed then k.(unknown := k.unknown + 1)
    else if e.oid == "" then k.(absents := k.absents + 1)
    else
      var k1 := k.(oids := k.oids[e.oid := Count(k.oids, e.oid) + 1],
                   sampleOid := if e.oid in k.sampleOid then k.sampleOid else k.sampleOid[e.oid := e]);
      if e.dirty || e.sha == "" then k1
      else
        k1.(blobs := k.blobs[e.oid := BlobsOf(k, e.oid)[e.sha := Count(BlobsOf(k, e.oid), e.sha) + 1]],
            sampleBlob := if (e.oid, e.sha) in k.sampleBlob then k.sampleBlob else k.sampleBlob[(e.oid, e.sha) := e])
  }

  /** What the trees, in their order, say about p. */
  function Know(src: seq<Tree>, p: Path): PathKnowledge {
    if src == [] then NOTHING_KNOWN
    else
      var k, t := Know(src[..|src| - 1], p), src[|src| - 1];
      if p in t.entries then Absorb(k, t.entries[p]) else k
  }

  function KnownPaths(src: seq<Tree>): set<Path> {
    set t, p | t in src && p in t.entries :: p
  }

  /** The loops over trees and their entries compute Know at every path an entry names. */
  method PushedKnowledge(src: seq<Tree>) returns (know: map<Path, PathKnowledge>)
    ensures know.Keys == KnownPaths(src)
    ensures forall p :: p in know ==> know[p] == Know(src, p)
  {
    know := map[];
    var i := 0;
    while i < |src|
      invariant 0 <= i <= |src|
      invariant know.Keys == KnownPaths(src[..i])
      invariant forall p :: p in know ==> know[p] == Know(src[..i], p)
    {
      assert src[..i + 1] == src[..i] + [src[i]];
      var next := AbsorbTree(know, src[i].entries);
      forall p ensures Know(src[..i + 1], p) == if p in next then next[p] else NOTHING_KNOWN {
        assert src[..i + 1][..i] == src[..i];
        if p !in know { UnknownPath(src[..i], p); }
      }
      know := next;
      i := i + 1;
    }
    assert src[..|src|] == src;
  }

  method AbsorbTree(know0: map<Path, PathKnowledge>, entries: map<Path, Entry>) returns (know: map<Path, PathKnowledge>)
    ensures know.Keys == know0.Keys + entries.Keys
    ensures forall p :: p in know ==>
              var k := if p in know0 then know0[p] else NOTHING_KNOWN;
              know[p] == if p in entries then Absorb(k, entries[p]) else k
  {
    know := know0;
    var todo := entries.Keys;
    while todo != {}
      invariant todo <= entries.Keys && know.Keys == know0.Keys + (entries.Keys - todo)
      invariant forall p :: p in know ==>
                  var k := if p in know0 then know0[p] else NOTHING_KNOWN;
                  know[p] == if p in entries && p !in todo then Absorb(k, entries[p]) else k
      decreases todo
    {
      var p :| p in todo;
      know := know[p := Absorb(if p in know then know[p] else NOTHING_KNOWN, entries[p])];
      todo := todo - {p};
    }
  }

  lemma {:induction false} UnknownPath(src: seq<Tree>, p: Path)
    ensures p !in KnownPaths(src) <==> forall t :: t in src ==> p !in t.entries
    ensures p !in KnownPaths(src) ==> Know(src, p) == NOTHING_KNOWN
  {
    if src != [] {
      var rest := src[..|src| - 1];
      UnknownPath(rest, p);
      if p !in KnownPaths(src) {
        assert src[|src| - 1] in src;
        assert forall t :: t in rest ==> t in src;
      }
    }
  }

  // ----- the pushed version of a path

  datatype PushedState = Unknown | Present | Absent

  /** The most reported git blob id and, for it, the most sent blob. */
  ghost function Resolve(k: PathKnowledge): (PushedState, FileSource) {
    if k.oids != map[] then
      var oid := Best(k.oids);
      var sha := Best(BlobsOf(k, oid));
      var e := if sha != "" then SampleBlob(k, oid, sha) else SampleOid(k, oid);
      (Present, FileSource(sha, oid, e.lang, e.mode, if sha != "" then e.size else 0, "", false))
    else if k.unknown > 0 then (Unknown, TOMBSTONE)
    else (Absent, TOMBSTONE)
  }

  const NO_ENTRY := Entry("", "", 0, "", "", false, false, "")

  function SampleOid(k: PathKnowledge, oid: string): Entry {
    if oid in k.sampleOid then k.sampleOid[oid] else NO_ENTRY
  }

  function SampleBlob(k: PathKnowledge, oid: string, sha: string): Entry {
    if (oid, sha) in k.sampleBlob then k.sampleBlob[(oid, sha)] else NO_ENTRY
  }

  /** Counts in a knowledge are of at least one tree. */
  predicate Counted(k: PathKnowledge) {
    && (forall o :: o in k.oids ==> k.oids[o] > 0)
    && (forall o, s :: o in k.blobs && s in k.blobs[o] ==> k.blobs[o][s] > 0)
  }

  lemma {:induction false} KnowIsCounted(src: seq<Tree>, p: Path)
    ensures Counted(Know(src, p))
  {
    if src != [] { KnowIsCounted(src[..|src| - 1], p); }
  }

  method ComputeResolve(k: PathKnowledge) returns (st: PushedState, f: FileSource)
    requires Counted(k)
    ensures (st, f) == Resolve(k)
  {
    if k.oids != map[] {
      var oid := ArgMax(k.oids);
      BestUnique(k.oids, oid, Best(k.oids));
      var blobs := BlobsOf(k, oid);
      var sha := ArgMax(blobs);
      if blobs != map[] { BestUnique(blobs, sha, Best(blobs)); }
      var e := if sha != "" then SampleBlob(k, oid, sha) else SampleOid(k, oid);
      return Present, FileSource(sha, oid, e.lang, e.mode, if sha != "" then e.size else 0, "", false);
    }
    if k.unknown > 0 { return Unknown, TOMBSTONE; }
    return Absent, TOMBSTONE;
  }

  // ----- what it means

  /** The pushed version of t's path has git blob id oid. */
  predicate Reports(t: Tree, p: Path, oid: string) {
    p in t.entries && !t.entries[p].unpushed && oid != "" && t.entries[p].oid == oid
  }

  predicate IsUnpushed(t: Tree, p: Path) {
    p in t.entries && t.entries[p].unpushed
  }

  ghost predicate Reported(src: seq<Tree>, p: Path, oid: string) {
    exists t :: t in src && Reports(t, p, oid)
  }

  ghost predicate SomeUnpushed(src: seq<Tree>, p: Path) {
    exists t :: t in src && IsUnpushed(t, p)
  }

  /** The ids counted are the ids reported. */
  lemma {:induction false} CountedMeansReported(src: seq<Tree>, p: Path, oid: string)
    ensures oid in Know(src, p).oids <==> Reported(src, p, oid)
  {
    if src != [] {
      var rest, last := src[..|src| - 1], src[|src| - 1];
      CountedMeansReported(rest, p, oid);
      assert forall t :: t in src <==> t in rest || t == last;
      assert oid in Know(src, p).oids <==> oid in Know(rest, p).oids || Reports(last, p, oid);
    }
  }

  lemma {:induction false} UnknownMeansUnpushed(src: seq<Tree>, p: Path)
    ensures Know(src, p).unknown > 0 <==> SomeUnpushed(src, p)
  {
    if src != [] {
      var rest, last := src[..|src| - 1], src[|src| - 1];
      UnknownMeansUnpushed(rest, p);
      assert forall t :: t in src <==> t in rest || t == last;
      assert SomeUnpushed(src, p) <==> SomeUnpushed(rest, p) || IsUnpushed(last, p);
    }
  }

  /**
   * A path is present exactly when a tree reports its id, with an id some tree
   * reports; unknown when no tree does and one holds it unpushed.
   */
  lemma ResolveMeaning(src: seq<Tree>, p: Path)
    ensures var (st, f) := Resolve(Know(src, p));
            && (st.Present? <==> exists oid :: Reported(src, p, oid))
            && (st.Present? ==> Reported(src, p, f.oid) && !f.deleted)
            && (st.Unknown? <==> !st.Present? && SomeUnpushed(src, p))
  {
    var k := Know(src, p);
    UnknownMeansUnpushed(src, p);
    if k.oids != map[] {
      CountedMeansReported(src, p, Best(k.oids));
    } else {
      forall oid ensures !Reported(src, p, oid) { CountedMeansReported(src, p, oid); }
    }
  }

  /** When the trees agree on the id of p's pushed version, that is the id resolved. */
  lemma ResolveAgreed(src: seq<Tree>, p: Path, t: Tree, oid: string)
    requires t in src && Reports(t, p, oid)
    requires forall u, o :: u in src && Reports(u, p, o) ==> o == oid
    ensures Resolve(Know(src, p)).0.Present? && Resolve(Know(src, p)).1.oid == oid
  {
    ResolveMeaning(src, p);
  }
}
