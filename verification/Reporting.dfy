/**
 * The pushed version of a path, report by report (pushedKnowledge and resolve
 * in codeindex/layers.go): the git blob id most trees report, the blob most
 * clean trees sent for it, and the entry its language, mode and size are of.
 */
module Reporting {
  import opened Orders
  import opened Plans
  import opened Knowledge

  /** How many of the trees. */
  ghost function Tally(src: seq<Tree>, says: Tree -> bool): nat {
    if src == [] then 0 else Tally(src[..|src| - 1], says) + if says(src[|src| - 1]) then 1 else 0
  }

  /** t is the first of the trees that does. */
  ghost predicate IsFirst(src: seq<Tree>, says: Tree -> bool, t: Tree) {
    exists i :: 0 <= i < |src| && src[i] == t && says(t) && forall j :: 0 <= j < i ==> !says(src[j])
  }

  /** A clean tree sent blob sha for the path's git blob id. */
  predicate Sends(t: Tree, p: Path, oid: string, sha: string) {
    Reports(t, p, oid) && !t.entries[p].dirty && t.entries[p].sha == sha && sha != ""
  }

  ghost function Reporters(p: Path, oid: string): Tree -> bool { (t: Tree) => Reports(t, p, oid) }

  ghost function Senders(p: Path, oid: string, sha: string): Tree -> bool { (t: Tree) => Sends(t, p, oid, sha) }

  ghost predicate KnowsOid(src: seq<Tree>, p: Path, oid: string) {
    var k, says := Know(src, p), Reporters(p, oid);
    && Count(k.oids, oid) == Tally(src, says) && (oid in k.oids <==> Tally(src, says) > 0)
    && (oid in k.oids ==> oid in k.sampleOid)
    && (oid in k.sampleOid ==> exists t :: IsFirst(src, says, t) && k.sampleOid[oid] == t.entries[p])
  }

  ghost predicate KnowsBlob(src: seq<Tree>, p: Path, oid: string, sha: string) {
    var k, says := Know(src, p), Senders(p, oid, sha);
    && Count(BlobsOf(k, oid), sha) == Tally(src, says) && (sha in BlobsOf(k, oid) <==> Tally(src, says) > 0)
    && (sha in BlobsOf(k, oid) ==> (oid, sha) in k.sampleBlob)
    && ((oid, sha) in k.sampleBlob ==> exists t :: IsFirst(src, says, t) && k.sampleBlob[(oid, sha)] == t.entries[p])
  }

  lemma FirstKept(src: seq<Tree>, says: Tree -> bool, t: Tree)
    requires src != [] && IsFirst(src[..|src| - 1], says, t)
    ensures IsFirst(src, says, t)
  {
    var pre := src[..|src| - 1];
    var i :| 0 <= i < |pre| && pre[i] == t && says(t) && forall j :: 0 <= j < i ==> !says(pre[j]);
    assert src[i] == t && forall j :: 0 <= j < i ==> src[j] == pre[j];
  }

  lemma {:induction false} FirstIsLast(src: seq<Tree>, says: Tree -> bool)
    requires src != [] && Tally(src[..|src| - 1], says) == 0 && says(src[|src| - 1])
    ensures IsFirst(src, says, src[|src| - 1])
  {
    var n := |src| - 1;
    NoneSays(src[..n], says);
    assert forall j :: 0 <= j < n ==> src[..n][j] == src[j];
  }

  lemma {:induction false} NoneSays(src: seq<Tree>, says: Tree -> bool)
    ensures Tally(src, says) == 0 <==> forall j :: 0 <= j < |src| ==> !says(src[j])
  {
    if src != [] {
      var n := |src| - 1;
      NoneSays(src[..n], says);
      assert forall j :: 0 <= j < n ==> src[..n][j] == src[j];
    }
  }

  /** What is counted is how many trees report it, and a sample is the first of them. */
  lemma {:induction false} OidsAreReports(src: seq<Tree>, p: Path, oid: string)
    ensures KnowsOid(src, p, oid)
  {
    if src != [] {
      var n, says := |src| - 1, Reporters(p, oid);
      OidsAreReports(src[..n], p, oid);
      if oid in Know(src[..n], p).sampleOid {
        var t :| IsFirst(src[..n], says, t) && Know(src[..n], p).sampleOid[oid] == t.entries[p];
        FirstKept(src, says, t);
      } else if says(src[n]) {
        FirstIsLast(src, says);
      }
    }
  }

  lemma {:induction false} BlobsAreSent(src: seq<Tree>, p: Path, oid: string, sha: string)
    ensures KnowsBlob(src, p, oid, sha)
  {
    if src != [] {
      var n, says := |src| - 1, Senders(p, oid, sha);
      BlobsAreSent(src[..n], p, oid, sha);
      if (oid, sha) in Know(src[..n], p).sampleBlob {
        var t :| IsFirst(src[..n], says, t) && Know(src[..n], p).sampleBlob[(oid, sha)] == t.entries[p];
        FirstKept(src, says, t);
      } else if says(src[n]) {
        FirstIsLast(src, says);
      }
    }
  }

  /** The most said of some things: more than any other, or as much and the smallest. */
  ghost predicate IsMost(best: string, count: string -> nat) {
    count(best) > 0 && forall o :: o != best ==> count(o) < count(best) || (count(o) == count(best) && StrLess(best, o))
  }

  ghost function OidCount(src: seq<Tree>, p: Path): string -> nat { (oid: string) => Tally(src, Reporters(p, oid)) }

  ghost function BlobCount(src: seq<Tree>, p: Path, oid: string): string -> nat {
    (sha: string) => Tally(src, Senders(p, oid, sha))
  }

  lemma BestIsMost(m: map<string, nat>, count: string -> nat)
    requires m != map[] && forall o :: Count(m, o) == count(o) && (o in m <==> count(o) > 0)
    ensures IsMost(Best(m), count)
  {
    var b := Best(m);
    forall o | o != b ensures count(o) < count(b) || (count(o) == count(b) && StrLess(b, o)) { StrTotal(o, b); }
  }

  /** The path's pushed version: the id most reported, the blob most sent for it, and the entry they are first in. */
  ghost predicate IsPushedFile(src: seq<Tree>, p: Path, f: FileSource) {
    && IsMost(f.oid, OidCount(src, p)) && f.session == "" && !f.deleted
    && if exists sha :: Tally(src, Senders(p, f.oid, sha)) > 0
       then
         && IsMost(f.sha, BlobCount(src, p, f.oid))
         && exists t :: IsFirst(src, Senders(p, f.oid, f.sha), t)
              && f.lang == t.entries[p].lang && f.mode == t.entries[p].mode && f.size == t.entries[p].size
       else
         && f.sha == "" && f.size == 0
         && exists t :: IsFirst(src, Reporters(p, f.oid), t) && f.lang == t.entries[p].lang && f.mode == t.entries[p].mode
  }

  /**
   * A path is present when some tree reports an id for it, then as just said;
   * else its pushed version is unknown when a tree has it unpushed, and else
   * it is absent.
   */
  lemma PushedFileMeaning(src: seq<Tree>, p: Path)
    ensures var (st, f) := Resolve(Know(src, p));
            if exists oid :: Reported(src, p, oid) then st == Present && IsPushedFile(src, p, f)
            else if SomeUnpushed(src, p) then st == Unknown else st == Absent
  {
    ResolveMeaning(src, p);
    var k := Know(src, p);
    if k.oids != map[] {
      var count := OidCount(src, p);
      forall oid ensures KnowsOid(src, p, oid) && Count(k.oids, oid) == count(oid) && (oid in k.oids <==> count(oid) > 0) {
        OidsAreReports(src, p, oid);
      }
      BestIsMost(k.oids, OidCount(src, p));
      PushedBlob(src, p, Best(k.oids));
    }
  }

  lemma PushedBlob(src: seq<Tree>, p: Path, oid: string)
    requires oid in Know(src, p).oids && KnowsOid(src, p, oid) && Know(src, p).oids != map[] && oid == Best(Know(src, p).oids)
    requires IsMost(oid, OidCount(src, p))
    ensures IsPushedFile(src, p, Resolve(Know(src, p)).1)
  {
    var k := Know(src, p);
    var blobs := BlobsOf(k, oid);
    BlobsCounted(src, p, oid);
    if blobs == map[] {
      NotSent(src, p, oid);
    } else {
      var sha := Best(blobs);
      BestIsMost(blobs, BlobCount(src, p, oid));
      BlobsAreSent(src, p, oid, sha);
      NoEmptyBlob(src, p, oid);
    }
  }

  lemma NotSent(src: seq<Tree>, p: Path, oid: string)
    requires BlobsOf(Know(src, p), oid) == map[]
    ensures !exists sha :: Tally(src, Senders(p, oid, sha)) > 0
  {
    forall sha ensures Tally(src, Senders(p, oid, sha)) == 0 { BlobsAreSent(src, p, oid, sha); }
  }

  lemma BlobsCounted(src: seq<Tree>, p: Path, oid: string)
    ensures var blobs, count := BlobsOf(Know(src, p), oid), BlobCount(src, p, oid);
            forall sha :: Count(blobs, sha) == count(sha) && (sha in blobs <==> count(sha) > 0)
  {
    forall sha
      ensures var blobs, count := BlobsOf(Know(src, p), oid), BlobCount(src, p, oid);
              Count(blobs, sha) == count(sha) && (sha in blobs <==> count(sha) > 0)
    {
      BlobsAreSent(src, p, oid, sha);
    }
  }

  lemma {:induction false} NoEmptyBlob(src: seq<Tree>, p: Path, oid: string)
    ensures Tally(src, Senders(p, oid, "")) == 0
  {
    NoneSays(src, Senders(p, oid, ""));
  }
}
