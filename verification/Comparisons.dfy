/**
 * Turning a GitHub comparison into one change of a stored tree, against the
 * full import it stands for (entries, importBranch and applyCompare in
 * ghsync/code.go).
 */
module Comparisons {
  import opened Wrappers

  type Path = string

  /** A blob or submodule of a tree at a commit. */
  datatype GitFile = GitFile(mode: string, oid: string)

  type GitTree = map<Path, GitFile>

  datatype ChangeKind = Removed | Renamed | Same | Upserted

  /** One file of a comparison; previous is set for a rename. */
  datatype FileChange = FileChange(kind: ChangeKind, name: Path, previous: Path, oid: string)

  datatype Comparison = Comparison(ahead: bool, truncated: bool, files: seq<FileChange>)

  /** What the sync sees: the filters of stored paths, the trees at commits, GitHub's comparisons. */
  datatype Config = Config(
    keeps: (Path, string) -> bool,
    validPath: Path -> bool,
    validRef: string -> bool,
    validOid: string -> bool,
    tree: string -> GitTree,
    compare: (string, string) -> Option<Comparison>)

  /** The paths, modes and git blob ids a full import stores: those the filters keep. */
  function Import(cfg: Config, t: GitTree): GitTree {
    map p | p in t && cfg.keeps(p, t[p].oid) :: t[p]
  }

  // ----- the change a comparison makes

  function IsUpsert(f: FileChange): bool { f.kind.Renamed? || f.kind.Upserted? }

  function UpsertPaths(files: seq<FileChange>): set<Path> {
    set f | f in files && IsUpsert(f) :: f.name
  }

  /** The paths a comparison takes away, before a later upsert brings one back. */
  function GonePaths(files: seq<FileChange>): set<Path> {
    (set f | f in files && f.kind.Removed? :: f.name) + (set f | f in files && f.kind.Renamed? :: f.previous)
  }

  predicate Touches(files: seq<FileChange>, p: Path) {
    p in UpsertPaths(files) || p in GonePaths(files)
  }

  /** The id the last upsert of p gives. */
  function LastOid(files: seq<FileChange>, p: Path): string
    requires p in UpsertPaths(files)
  {
    var n := |files| - 1;
    CollectMore(files[..n], files[n]);
    assert files == files[..n] + [files[n]];
    if IsUpsert(files[n]) && files[n].name == p then files[n].oid else LastOid(files[..n], p)
  }

  /** Every upserted path is in the tree under the id the comparison last gives it; otherwise a full import is needed. */
  predicate Matches(files: seq<FileChange>, t: GitTree) {
    forall p :: p in UpsertPaths(files) ==> p in t && t[p].oid == LastOid(files, p)
  }

  datatype TreeChange = TreeChange(upserts: GitTree, deletes: set<Path>)

  /** The kept upserts, and deletes of what is gone or left out unless it is upserted too. */
  function ChangeOf(cfg: Config, files: seq<FileChange>, t: GitTree): TreeChange
    requires Matches(files, t)
  {
    var upserts := map p | p in UpsertPaths(files) && p in t && cfg.keeps(p, t[p].oid) :: t[p];
    TreeChange(upserts, set p | p in GonePaths(files) + UpsertPaths(files) && cfg.validPath(p) && p !in upserts)
  }

  function ApplyChange(stored: GitTree, c: TreeChange): GitTree {
    (stored - c.deletes) + c.upserts
  }

  /** The loop over a comparison's files; None when the comparison cannot be applied as is. */
  method BuildChange(cfg: Config, files: seq<FileChange>, t: GitTree) returns (c: Option<TreeChange>)
    ensures c.Some? <==> Matches(files, t)
    ensures c.Some? ==> c.value == ChangeOf(cfg, files, t)
  {
    var gone, oids := CollectFiles(files);
    var todo := oids.Keys;
    while todo != {}
      invariant todo <= oids.Keys
      invariant forall p :: p in oids.Keys - todo ==> p in t && t[p].oid == oids[p]
      decreases todo
    {
      var p :| p in todo;
      if p !in t || t[p].oid != oids[p] {
        assert !Matches(files, t);
        return None;
      }
      todo := todo - {p};
    }
    var kept := map p | p in oids.Keys && cfg.keeps(p, t[p].oid) :: t[p];
    var deletes := set p | p in gone + oids.Keys && cfg.validPath(p) && p !in kept;
    assert kept == ChangeOf(cfg, files, t).upserts;
    c := Some(TreeChange(kept, deletes));
  }

  /** What the comparison takes away, and the id it gives each upserted path, the last one winning. */
  method CollectFiles(files: seq<FileChange>) returns (gone: set<Path>, oids: map<Path, string>)
    ensures gone == GonePaths(files) && oids.Keys == UpsertPaths(files)
    ensures forall p :: p in oids ==> oids[p] == LastOid(files, p)
  {
    gone, oids := {}, map[];
    for i := 0 to |files|
      invariant gone == GonePaths(files[..i]) && oids.Keys == UpsertPaths(files[..i])
      invariant forall p :: p in oids ==> oids[p] == LastOid(files[..i], p)
    {
      var f := files[i];
      CollectMore(files[..i], f);
      LastOidMore(files[..i], f);
      assert files[..i + 1] == files[..i] + [f];
      match f.kind {
        case Removed => gone := gone + {f.name};
        case Renamed => gone, oids := gone + {f.previous}, oids[f.name := f.oid];
        case Same =>
        case Upserted => oids := oids[f.name := f.oid];
      }
    }
    assert files[..|files|] == files;
  }

  lemma LastOidMore(files: seq<FileChange>, f: FileChange)
    ensures forall p :: p in UpsertPaths(files + [f]) ==>
              && ((IsUpsert(f) && f.name == p) || p in UpsertPaths(files))
              && LastOid(files + [f], p) == if IsUpsert(f) && f.name == p then f.oid else LastOid(files, p)
  {
    CollectMore(files, f);
    assert (files + [f])[..|files|] == files;
  }

  lemma CollectMore(files: seq<FileChange>, f: FileChange)
    ensures UpsertPaths(files + [f]) == UpsertPaths(files) + if IsUpsert(f) then {f.name} else {}
    ensures GonePaths(files + [f]) ==
            GonePaths(files) + (if f.kind.Removed? then {f.name} else {}) + if f.kind.Renamed? then {f.previous} else {}
  {
    assert forall g :: g in files + [f] <==> g in files || g == f;
  }

  /** The i-th file is a rename or an upsert, the last to name its path. */
  predicate NamesLast(files: seq<FileChange>, i: nat) {
    && i < |files| && (files[i].kind == Renamed || files[i].kind == Upserted)
    && forall j :: i < j < |files| && files[j].name == files[i].name ==> files[j].kind == Removed || files[j].kind == Same
  }

  lemma {:induction false} LastOidIsLast(files: seq<FileChange>, p: Path)
    requires p in UpsertPaths(files)
    ensures exists i: nat :: NamesLast(files, i) && files[i].name == p && LastOid(files, p) == files[i].oid
    ensures forall i: nat :: NamesLast(files, i) && files[i].name == p ==> LastOid(files, p) == files[i].oid
  {
    var n := |files| - 1;
    CollectMore(files[..n], files[n]);
    assert files == files[..n] + [files[n]];
    if IsUpsert(files[n]) && files[n].name == p {
      assert NamesLast(files, n);
    } else {
      LastOidIsLast(files[..n], p);
      forall i: nat | i < n && files[i].name == p ensures NamesLast(files, i) <==> NamesLast(files[..n], i) { }
    }
  }

  /** A file of the comparison takes the path away, or writes it. */
  predicate Lists(f: FileChange, p: Path) {
    (f.name == p && f.kind != Same) || (f.previous == p && f.kind == Renamed)
  }

  /** A comparison can be applied when the commit has each path under the last id given for it. */
  lemma MatchesExact(files: seq<FileChange>, t: GitTree)
    ensures Matches(files, t) <==> forall i: nat :: NamesLast(files, i) ==> files[i].name in t && t[files[i].name].oid == files[i].oid
  {
    forall i: nat | NamesLast(files, i) ensures files[i].name in UpsertPaths(files) { assert files[i] in files; }
    forall p | p in UpsertPaths(files)
      ensures exists i: nat :: NamesLast(files, i) && files[i].name == p && LastOid(files, p) == files[i].oid
      ensures forall i: nat :: NamesLast(files, i) && files[i].name == p ==> LastOid(files, p) == files[i].oid
    {
      LastOidIsLast(files, p);
    }
  }

  /** Then it writes the paths it renames to or upserts that are kept, and deletes the others it lists that can be stored. */
  lemma ChangeMeaning(cfg: Config, files: seq<FileChange>, t: GitTree, p: Path)
    requires Matches(files, t)
    ensures var c := ChangeOf(cfg, files, t);
            && (p in c.upserts <==>
                  p in t && cfg.keeps(p, t[p].oid)
                  && exists f :: f in files && f.name == p && (f.kind == Renamed || f.kind == Upserted))
            && (p in c.upserts ==> c.upserts[p] == t[p])
            && (p in c.deletes <==> cfg.validPath(p) && p !in c.upserts && exists f :: f in files && Lists(f, p))
  {
    if p in GonePaths(files) + UpsertPaths(files) {
      var f :| f in files && ((f.kind.Removed? && f.name == p) || (f.kind.Renamed? && f.previous == p) || (IsUpsert(f) && f.name == p));
      assert Lists(f, p);
    }
  }

  // ----- what a comparison promises

  /**
   * The comparison of two trees: outside its files they agree, and a path its
   * files take away without upserting is not in the second.  A rename swap
   * lists each path once as a name and once as a previous name.
   */
  ghost predicate Describes(files: seq<FileChange>, before: GitTree, after: GitTree) {
    && Matches(files, after)
    && (forall p :: !Touches(files, p) ==> (p in before <==> p in after) && (p in before ==> before[p] == after[p]))
    && (forall p :: p in GonePaths(files) && p !in UpsertPaths(files) ==> p !in after)
  }

  /** Only storable paths are kept. */
  ghost predicate KeepsValid(cfg: Config) {
    forall p, oid :: cfg.keeps(p, oid) ==> cfg.validPath(p)
  }

  predicate Agree(a: GitTree, b: GitTree, p: Path) {
    (p in a <==> p in b) && (p in a ==> a[p] == b[p])
  }

  lemma SameTree(a: GitTree, b: GitTree)
    ensures a == b <==> forall p :: Agree(a, b, p)
  {
    if forall p :: Agree(a, b, p) {
      forall p ensures p in a <==> p in b { assert Agree(a, b, p); }
      forall p | p in a ensures a[p] == b[p] { assert Agree(a, b, p); }
    }
  }

  /**
   * Applying a comparison to any stored tree gives the full import of the new
   * commit exactly when the stored tree already has, outside the comparison's
   * files, what the full import of the old commit has.
   */
  lemma CompareExact(cfg: Config, files: seq<FileChange>, before: GitTree, after: GitTree, stored: GitTree)
    requires KeepsValid(cfg) && Describes(files, before, after)
    requires forall p :: p in stored ==> cfg.validPath(p)
    ensures ApplyChange(stored, ChangeOf(cfg, files, after)) == Import(cfg, after)
            <==> forall p :: !Touches(files, p) ==> Agree(stored, Import(cfg, before), p)
  {
    var result := ApplyChange(stored, ChangeOf(cfg, files, after));
    SameTree(result, Import(cfg, after));
    forall p
      ensures Agree(result, Import(cfg, after), p) <==> (!Touches(files, p) ==> Agree(stored, Import(cfg, before), p))
    {
      ComparePath(cfg, files, before, after, stored, p);
    }
  }

  lemma ComparePath(cfg: Config, files: seq<FileChange>, before: GitTree, after: GitTree, stored: GitTree, p: Path)
    requires KeepsValid(cfg) && Describes(files, before, after)
    requires p in stored ==> cfg.validPath(p)
    ensures Agree(ApplyChange(stored, ChangeOf(cfg, files, after)), Import(cfg, after), p)
            <==> (!Touches(files, p) ==> Agree(stored, Import(cfg, before), p))
  {
    if p in UpsertPaths(files) {
      var f :| f in files && IsUpsert(f) && f.name == p;
      assert p in after;
    }
  }

  /** On the stored import of the old commit, an applied comparison is the full import of the new one. */
  lemma CompareIsImport(cfg: Config, files: seq<FileChange>, before: GitTree, after: GitTree)
    requires KeepsValid(cfg) && Describes(files, before, after)
    ensures ApplyChange(Import(cfg, before), ChangeOf(cfg, files, after)) == Import(cfg, after)
  {
    CompareExact(cfg, files, before, after, Import(cfg, before));
  }

  /** A comparison applied again, to the tree it led to, changes nothing. */
  lemma RedeliveryIsHarmless(cfg: Config, files: seq<FileChange>, before: GitTree, after: GitTree)
    requires KeepsValid(cfg) && Describes(files, before, after)
    ensures ApplyChange(Import(cfg, after), ChangeOf(cfg, files, after)) == Import(cfg, after)
  {
    forall p | !Touches(files, p) ensures Agree(Import(cfg, after), Import(cfg, before), p) {
    }
    CompareExact(cfg, files, before, after, Import(cfg, after));
  }

  /**
   * A head that lags behind its tree is not made good by a comparison from
   * it: a stored file the old and the new commit both lack stays.
   */
  lemma StaleHeadDiverges(cfg: Config, p: Path, f: GitFile)
    requires KeepsValid(cfg) && cfg.keeps(p, f.oid)
    ensures Describes([], map[], map[])
    ensures var stored := Import(cfg, map[p := f]);
            ApplyChange(stored, ChangeOf(cfg, [], map[])) != Import(cfg, map[])
  {
    var stored := Import(cfg, map[p := f]);
    assert p in stored && p !in Import(cfg, map[]);
    assert !Touches([], p) && !Agree(stored, Import(cfg, map[]), p);
    CompareExact(cfg, [], map[], map[], stored);
  }
}
