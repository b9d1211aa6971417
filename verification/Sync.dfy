/**
 * One repository's sync (ghsync/code.go): pushes in any order, duplicated or
 * lost, deletes, reconciles, and heads recovered from the change log.
 */
module Sync {
  import opened Wrappers
  import opened Comparisons

  /**
   * A change of the GitHub worktree in the log; no ref is a worktree
   * tombstone, an empty head with nothing upserted a ref tombstone.
   */
  datatype LogEntry = LogEntry(ref: string, head: string, full: bool, empty: bool)

  const WORKTREE_TOMBSTONE := LogEntry("", "", true, true)

  /** The heads after one more change. */
  function SeedOne(heads: map<string, string>, c: LogEntry): map<string, string> {
    if c.ref == "" then map[]
    else if IsRefTombstone(c) then heads - {c.ref}
    else heads[c.ref := c.head]
  }

  /** The heads the log's last word gives each branch. */
  function SeedHeads(log: seq<LogEntry>): map<string, string> {
    if log == [] then map[] else SeedOne(SeedHeads(log[..|log| - 1]), log[|log| - 1])
  }

  method ComputeSeedHeads(log: seq<LogEntry>) returns (heads: map<string, string>)
    ensures heads == SeedHeads(log)
  {
    heads := map[];
    for i := 0 to |log|
      invariant heads == SeedHeads(log[..i])
    {
      assert log[..i + 1][..i] == log[..i];
      var c := log[i];
      if c.ref == "" {
        heads := map[];
      } else if IsRefTombstone(c) {
        heads := heads - {c.ref};
      } else {
        heads := heads[c.ref := c.head];
      }
    }
    assert log[..|log|] == log;
  }

  predicate IsRefTombstone(c: LogEntry) { c.head == "" && c.full && c.empty }

  /** The log's last word on a branch is the commit at i: no change of it or of the whole worktree follows. */
  ghost predicate LastWord(log: seq<LogEntry>, b: string, i: int) {
    && 0 <= i < |log| && log[i].ref == b && !(log[i].head == "" && log[i].full && log[i].empty)
    && forall j :: i < j < |log| ==> log[j].ref != b && log[j].ref != ""
  }

  /** A branch gets a head back exactly when the log's last word on it is a commit, and then that commit. */
  lemma {:induction false} SeedIsLastWord(log: seq<LogEntry>, b: string)
    requires b != ""
    ensures b in SeedHeads(log) <==> exists i :: LastWord(log, b, i)
    ensures forall i :: LastWord(log, b, i) ==> SeedHeads(log)[b] == log[i].head
  {
    if log != [] {
      var n := |log| - 1;
      var pre, c := log[..n], log[n];
      SeedIsLastWord(pre, b);
      assert pre + [c] == log;
      if c.ref != "" && c.ref != b {
        forall i ensures LastWord(log, b, i) <==> LastWord(pre, b, i) { WordIsKept(pre, c, b, i); }
      } else {
        assert LastWord(log, b, n) <==> c.ref == b && !IsRefTombstone(c);
      }
    }
  }

  lemma WordIsKept(pre: seq<LogEntry>, c: LogEntry, b: string, i: int)
    requires c.ref != b && c.ref != ""
    ensures LastWord(pre + [c], b, i) <==> LastWord(pre, b, i)
  {
    var log := pre + [c];
    if LastWord(log, b, i) {
      assert i != |pre|;
      forall j | i < j < |pre| ensures pre[j].ref != b && pre[j].ref != "" { assert log[j] == pre[j]; }
    }
  }

  lemma SeedHeadsMore(log: seq<LogEntry>, c: LogEntry)
    ensures SeedHeads(log + [c]) == SeedOne(SeedHeads(log), c)
  {
    assert (log + [c])[..|log|] == log;
  }

  datatype Push = Push(branch: string, before: string, after: string, forced: bool)

  /** A payload's all-zero commit, or none. */
  predicate ZeroSha(s: string) {
    forall i :: 0 <= i < |s| ==> s[i] == '0'
  }

  // ----- what stays true

  predicate IsImport(cfg: Config, trees: map<string, GitTree>, branch: string, h: string) {
    branch in trees && trees[branch] == Import(cfg, cfg.tree(h))
  }

  /** Each head is the commit whose full import its branch's stored tree is. */
  ghost predicate Match(cfg: Config, heads: map<string, string>, trees: map<string, GitTree>) {
    forall b :: b in heads && heads[b] != "" ==> IsImport(cfg, trees, b, heads[b])
  }

  /** Every known head, and every head the log would give back, matches its tree. */
  ghost predicate Faithful(cfg: Config, heads: map<string, string>, trees: map<string, GitTree>, log: seq<LogEntry>) {
    Match(cfg, heads, trees) && Match(cfg, SeedHeads(log), trees)
  }

  /** Tree, log and head moved together to the import of a commit. */
  lemma CommitKeeps(cfg: Config, heads: map<string, string>, trees: map<string, GitTree>, log: seq<LogEntry>,
                    c: LogEntry)
    requires Faithful(cfg, heads, trees, log) && c.head != "" && c.ref != ""
    ensures Faithful(cfg, heads[c.ref := c.head], trees[c.ref := Import(cfg, cfg.tree(c.head))], log + [c])
  {
    SeedHeadsMore(log, c);
  }

  lemma DeleteKeeps(cfg: Config, heads: map<string, string>, trees: map<string, GitTree>, log: seq<LogEntry>,
                    branch: string)
    requires Faithful(cfg, heads, trees, log) && branch != ""
    ensures Faithful(cfg, heads - {branch}, trees - {branch}, log + [LogEntry(branch, "", true, true)])
  {
    SeedHeadsMore(log, LogEntry(branch, "", true, true));
  }

  /** A worktree removed from the store leaves the heads right exactly when no branch has one. */
  lemma RemovalExact(cfg: Config, heads: map<string, string>, log: seq<LogEntry>)
    ensures Faithful(cfg, heads, map[], log + [WORKTREE_TOMBSTONE]) <==> forall b :: b in heads ==> heads[b] == ""
  {
    SeedHeadsMore(log, WORKTREE_TOMBSTONE);
    if b :| b in heads && heads[b] != "" { assert !IsImport(cfg, map[], b, heads[b]); }
  }

  /** Heads known, then those the log gives back for the branches without one. */
  function Seeded(heads: map<string, string>, seeds: map<string, string>): map<string, string> {
    map b | b in heads.Keys + seeds.Keys :: if b in heads && (heads[b] != "" || b !in seeds) then heads[b] else seeds[b]
  }

  method Recover(heads0: map<string, string>, seeds: map<string, string>) returns (heads: map<string, string>)
    ensures heads == Seeded(heads0, seeds)
  {
    heads := heads0;
    var todo := seeds.Keys;
    while todo != {}
      invariant todo <= seeds.Keys && heads.Keys == heads0.Keys + (seeds.Keys - todo)
      invariant forall b :: b in heads ==>
                  heads[b] == if b in heads0 && (heads0[b] != "" || b !in seeds || b in todo) then heads0[b] else seeds[b]
      decreases todo
    {
      var b :| b in todo;
      if b !in heads || heads[b] == "" { heads := heads[b := seeds[b]]; }
      todo := todo - {b};
    }
  }

  lemma SeededKeeps(cfg: Config, heads: map<string, string>, trees: map<string, GitTree>, seeds: map<string, string>)
    requires Match(cfg, heads, trees) && Match(cfg, seeds, trees)
    ensures Match(cfg, Seeded(heads, seeds), trees)
  {
  }

  /** A branch's head: its own when it has one, else what the log says of it last when no state was stored. */
  ghost predicate IsSeeded(heads: map<string, string>, stored: bool, log: seq<LogEntry>, branches: set<string>, b: string,
                           head: Option<string>) {
    if b in heads && heads[b] != "" then head == Some(heads[b])
    else if !stored && exists i :: LastWord(log, b, i) then exists i :: LastWord(log, b, i) && head == Some(log[i].head)
    else head == if b in heads || b in branches then Some("") else None
  }

  lemma SeededIs(heads: map<string, string>, stored: bool, log: seq<LogEntry>, branches: set<string>)
    ensures var known := Known(heads, branches);
            var r := if stored then known else Seeded(known, SeedHeads(log));
            forall b :: b != "" ==> IsSeeded(heads, stored, log, branches, b, if b in r then Some(r[b]) else None)
  {
    forall b | b != ""
      ensures b in SeedHeads(log) <==> exists i :: LastWord(log, b, i)
      ensures forall i :: LastWord(log, b, i) ==> SeedHeads(log)[b] == log[i].head
    {
      SeedIsLastWord(log, b);
    }
  }

  /** GitHub's ahead comparisons describe the trees, no commit or ref is "", and only storable paths are kept. */
  ghost predicate Honest(cfg: Config) {
    && KeepsValid(cfg)
    && (forall c :: cfg.validOid(c) ==> c != "") && (forall r :: cfg.validRef(r) ==> r != "")
    && forall before, after :: Whole(cfg.compare(before, after), cfg.tree(after)) ==>
         Describes(cfg.compare(before, after).value.files, cfg.tree(before), cfg.tree(after))
  }

  /** A comparison that is whole and ahead, and gives every path the id the commit has it under. */
  predicate Whole(cmp: Option<Comparison>, after: GitTree) {
    cmp.Some? && !cmp.value.truncated && cmp.value.ahead && Matches(cmp.value.files, after)
  }

  /** GitHub's comparison is whole and ahead, and the commit has each path under the id last given for it. */
  ghost predicate Comparable(cfg: Config, push: Push) {
    var cmp := cfg.compare(push.before, push.after);
    && cmp.Some? && !cmp.value.truncated && cmp.value.ahead
    && forall i: nat :: NamesLast(cmp.value.files, i) ==>
         && cmp.value.files[i].name in cfg.tree(push.after)
         && cfg.tree(push.after)[cmp.value.files[i].name].oid == cmp.value.files[i].oid
  }

  /** No commit: nothing but zeros. */
  predicate IsZero(s: string) { !exists i :: 0 <= i < |s| && s[i] != '0' }

  predicate OneMoreEntry(before: seq<LogEntry>, log: seq<LogEntry>, branch: string, head: string, full: bool) {
    && |log| == |before| + 1 && log[..|before|] == before
    && log[|before|].ref == branch && log[|before|].head == head && log[|before|].full == full
  }

  predicate Storable(cfg: Config, branch: string, commit: string) {
    cfg.validRef(branch) && cfg.validOid(commit)
  }

  /** The store and state of one repository; a head is "" for a branch seen but never imported. */
  class Repo {
    const cfg: Config
    var heads: map<string, string>
    var stateStored: bool
    var trees: map<string, GitTree>
    var log: seq<LogEntry>

    constructor (cfg: Config)
      ensures this.cfg == cfg && heads == map[] && !stateStored && trees == map[] && log == []
    {
      this.cfg := cfg;
      heads, stateStored, trees, log := map[], false, map[], [];
    }

    ghost predicate Valid()
      reads this
    {
      Honest(cfg) && Faithful(cfg, heads, trees, log)
    }

    function HeadOf(branch: string): string
      reads this
    {
      if branch in heads then heads[branch] else ""
    }

    /** branch is stored as the full import of commit h, and the state says so. */
    ghost predicate At(branch: string, h: string)
      reads this
    {
      HeadOf(branch) == h && IsImport(cfg, trees, branch, h)
    }

    /** A lost state: what the log knows of heads is recovered before any head is compared. */
    method Seed()
      requires Valid()
      modifies `heads
      ensures Valid() && heads == if stateStored then old(heads) else Seeded(old(heads), SeedHeads(log))
    {
      if stateStored { return; }
      var seeds := ComputeSeedHeads(log);
      SeededKeeps(cfg, heads, trees, seeds);
      heads := Recover(heads, seeds);
    }

    /** The state is gone; the store is not. */
    method LoseState()
      requires Valid()
      modifies `heads, `stateStored
      ensures Valid() && heads == map[] && !stateStored
    {
      heads, stateStored := map[], false;
    }

    /** The worktree is removed from the store, its state gone with it. */
    method Forget()
      requires Valid()
      modifies `heads, `stateStored, `trees, `log
      ensures Valid() && heads == map[] && !stateStored && trees == map[] && SeedHeads(log) == map[]
    {
      RemovalExact(cfg, map[], log);
      SeedHeadsMore(log, WORKTREE_TOMBSTONE);
      heads, stateStored, trees := map[], false, map[];
      log := log + [WORKTREE_TOMBSTONE];
    }

    /** The state of a branch, added without a head when unknown. */
    method Know(branch: string)
      requires Valid()
      modifies `heads
      ensures Valid() && heads == Known(old(heads), {branch})
    {
      if branch !in heads { heads := heads[branch := ""]; }
    }

    /** Tree, log and head move together. */
    method Commit(branch: string, head: string, t: GitTree, full: bool, empty: bool)
      requires Valid() && t == Import(cfg, cfg.tree(head)) && head != "" && branch != ""
      modifies `heads, `stateStored, `trees, `log
      ensures Valid() && At(branch, head) && stateStored
      ensures heads == old(heads)[branch := head] && trees == old(trees)[branch := t]
      ensures log == old(log) + [LogEntry(branch, head, full, empty)]
    {
      CommitKeeps(cfg, heads, trees, log, LogEntry(branch, head, full, empty));
      trees := trees[branch := t];
      log := log + [LogEntry(branch, head, full, empty)];
      heads := heads[branch := head];
      stateStored := true;
    }

    /** The full import; a branch or commit that cannot be stored is skipped. */
    method ImportBranch(branch: string, commit: string)
      requires Valid()
      modifies `heads, `stateStored, `trees, `log
      ensures Valid()
      ensures Storable(cfg, branch, commit) ==>
                && At(branch, commit) && stateStored
                && heads == old(heads)[branch := commit] && trees == old(trees)[branch := trees[branch]]
                && log == old(log) + [LogEntry(branch, commit, true, trees[branch] == map[])]
      ensures !Storable(cfg, branch, commit) ==>
                heads == old(heads) && trees == old(trees) && stateStored == old(stateStored) && log == old(log)
    {
      if !cfg.validRef(branch) || !cfg.validOid(commit) { return; }
      var t := Import(cfg, cfg.tree(commit));
      Commit(branch, commit, t, true, t == map[]);
    }

    /** The heads an allowed run compares: those the log gives back too, when none were stored. */
    function SeededNow(branches: set<string>): (r: map<string, string>)
      reads this
      ensures forall b :: b != "" ==> IsSeeded(heads, stateStored, log, branches, b, if b in r then Some(r[b]) else None)
    {
      SeededIs(heads, stateStored, log, branches);
      var known := Known(heads, branches);
      if stateStored then known else Seeded(known, SeedHeads(log))
    }

    /** A push under the before-tip rule: the comparison when the stored head is its before, else the full import. */
    method SyncPush(push: Push, allowed: bool)
      requires Valid()
      modifies `heads, `stateStored, `trees, `log
      ensures Valid() && stateStored
      ensures !allowed ==> trees == old(trees) && heads == Known(old(heads), {push.branch})
      ensures allowed && Storable(cfg, push.branch, push.after) ==> At(push.branch, push.after)
      ensures trees - {push.branch} == old(trees) - {push.branch}
      ensures !Storable(cfg, push.branch, push.after) ==> trees == old(trees)
      // nothing is written when the head is there already or cannot be stored
      ensures allowed ==>
                var known := old(SeededNow({push.branch}));
                if known[push.branch] == push.after || !Storable(cfg, push.branch, push.after) then log == old(log)
                else OneMoreEntry(old(log), log, push.branch, push.after,
                                  push.forced || known[push.branch] != push.before || IsZero(push.before) || !Comparable(cfg, push))
      ensures !allowed ==> log == old(log)
      ensures allowed ==> heads - {push.branch} == old(SeededNow({push.branch})) - {push.branch}
    {
      Know(push.branch);
      if allowed {
        Seed();
        if HeadOf(push.branch) != push.after { SyncTo(push); }
      }
      stateStored := true;
    }

    /** Not forced, and from the head stored, which is no zero commit. */
    predicate GoesOn(push: Push)
      reads this
    {
      !push.forced && HeadOf(push.branch) == push.before && !IsZero(push.before)
    }

    method SyncTo(push: Push)
      requires Valid()
      modifies `heads, `stateStored, `trees, `log
      ensures Valid()
      ensures Storable(cfg, push.branch, push.after) ==> At(push.branch, push.after)
      ensures !Storable(cfg, push.branch, push.after) ==> trees == old(trees)
      ensures trees - {push.branch} == old(trees) - {push.branch} && heads - {push.branch} == old(heads) - {push.branch}
      // one change, a full import unless the push goes on from the stored head and its comparison can be applied
      ensures if Storable(cfg, push.branch, push.after)
              then OneMoreEntry(old(log), log, push.branch, push.after, !old(GoesOn(push)) || !Comparable(cfg, push))
              else log == old(log)
    {
      if !push.forced && !ZeroSha(push.before) && HeadOf(push.branch) == push.before
         && cfg.validRef(push.branch) && cfg.validOid(push.after)
      {
        var done := ApplyCompare(push);
        if done { return; }
      }
      ImportBranch(push.branch, push.after);
    }

    /** Writes a comparison as one change; false, and nothing written, when it needs a full import. */
    method ApplyCompare(push: Push) returns (done: bool)
      requires Valid() && push.before != "" && HeadOf(push.branch) == push.before
      requires Storable(cfg, push.branch, push.after)
      modifies `heads, `stateStored, `trees, `log
      ensures Valid()
      ensures done <==> Comparable(cfg, push)
      ensures done ==> OneMoreEntry(old(log), log, push.branch, push.after, false)
      ensures done ==> && At(push.branch, push.after) && trees == old(trees)[push.branch := trees[push.branch]]
                       && heads == old(heads)[push.branch := push.after]
      ensures !done ==> heads == old(heads) && trees == old(trees) && log == old(log) && stateStored == old(stateStored)
    {
      var cmp := cfg.compare(push.before, push.after);
      if cmp.None? || cmp.value.truncated || !cmp.value.ahead { return false; }
      var after := cfg.tree(push.after);
      MatchesExact(cmp.value.files, after);
      var c := BuildChange(cfg, cmp.value.files, after);
      if c.None? { return false; }
      assert IsImport(cfg, trees, push.branch, push.before);
      CompareIsImport(cfg, cmp.value.files, cfg.tree(push.before), after);
      Commit(push.branch, push.after, ApplyChange(trees[push.branch], c.value), false, c.value.upserts == map[]);
      done := true;
    }

    /** A branch created, or a pull request opened from it: its tip, when it still has one, is brought in. */
    method SyncTip(branch: string, tip: Option<string>, allowed: bool)
      requires Valid()
      modifies `heads, `stateStored, `trees, `log
      ensures Valid() && stateStored
      ensures !allowed ==> trees == old(trees) && heads == Known(old(heads), {branch})
      ensures allowed && tip.Some? && Storable(cfg, branch, tip.value) ==> At(branch, tip.value)
      ensures trees - {branch} == old(trees) - {branch}
      ensures tip.None? || !Storable(cfg, branch, tip.value) ==> trees == old(trees)
      ensures allowed ==> heads - {branch} == old(SeededNow({branch})) - {branch}
    {
      Know(branch);
      if allowed {
        Seed();
        if tip.Some? { ImportTip(branch, tip.value); }
      }
      stateStored := true;
    }

    method ImportTip(branch: string, tip: string)
      requires Valid()
      modifies `heads, `stateStored, `trees, `log
      ensures Valid()
      ensures if Storable(cfg, branch, tip) then At(branch, tip) else trees == old(trees)
      ensures trees - {branch} == old(trees) - {branch} && heads - {branch} == old(heads) - {branch}
    {
      if HeadOf(branch) != tip { ImportBranch(branch, tip); }
    }

    /** A deleted branch loses its tree and its state; one the state does not know is left alone. */
    method DeleteBranch(branch: string)
      requires Valid()
      modifies `heads, `stateStored, `trees, `log
      ensures Valid()
      ensures heads == old(heads) - {branch}
      ensures trees == if old(HeadOf(branch)) != "" && cfg.validRef(branch) then old(trees) - {branch} else old(trees)
    {
      if branch !in heads { return; }
      if heads[branch] != "" && cfg.validRef(branch) {
        DeleteKeeps(cfg, heads, trees, log, branch);
        trees := trees - {branch};
        log := log + [LogEntry(branch, "", true, true)];
      }
      heads := heads - {branch};
      stateStored := true;
    }

    /** Each of the branches GitHub still has, brought to its tip. */
    method ImportActive(tips: map<string, string>, branches: set<string>)
      requires Valid()
      modifies `heads, `stateStored, `trees, `log
      ensures Valid() && AtTips(tips, branches)
      ensures heads.Keys <= old(heads.Keys) + tips.Keys && Apart(branches * tips.Keys, old(heads), heads, old(trees), trees)
    {
      var todo := branches;
      while todo != {}
        invariant todo <= branches && Valid() && AtTips(tips, branches - todo)
        invariant heads.Keys <= old(heads.Keys) + tips.Keys
        invariant Apart(branches * tips.Keys, old(heads), heads, old(trees), trees)
        decreases todo
      {
        var b :| b in todo;
        if b in tips && HeadOf(b) != tips[b] { ImportBranch(b, tips[b]); }
        todo := todo - {b};
      }
    }

    ghost predicate AtTips(tips: map<string, string>, branches: set<string>)
      reads this
    {
      forall b :: b in branches && b in tips && Storable(cfg, b, tips[b]) ==> At(b, tips[b])
    }

    /**
     * The reconcile, of one branch when only names it: nothing without a tip
     * of the default branch; else the active branches are brought to their
     * tips where code is allowed, and, unless it is of one branch, branches
     * gone from GitHub are deleted.
     */
    method SyncBranches(tips: map<string, string>, defaultBranch: string, allowed: bool, active: set<string>, only: string)
      requires Valid()
      modifies `heads, `stateStored, `trees, `log
      ensures Valid() && stateStored
      // an empty repository: nothing to import yet
      ensures defaultBranch !in tips || tips[defaultBranch] == "" ==> heads == old(heads) && trees == old(trees)
      // each active branch, or the one asked for, ends at its tip
      ensures defaultBranch in tips && tips[defaultBranch] != "" && allowed ==>
                forall b :: b in active && (only == "" || only == b) && b in tips && Storable(cfg, b, tips[b]) ==> At(b, tips[b])
      // every other branch GitHub has keeps its tree, and its head as known or recovered
      ensures forall b :: b in tips && !(allowed && b in active && (only == "" || only == b)) ==> SameTreeAt(b, old(trees), trees)
      ensures defaultBranch in tips && tips[defaultBranch] != "" ==>
                forall b :: b in tips && !(allowed && b in active && (only == "" || only == b)) ==>
                  SameHeadAt(b, if allowed then old(SeededNow(tips.Keys)) else Known(old(heads), tips.Keys), heads)
      // a full run deletes the branches GitHub lost, a run of one branch none
      ensures defaultBranch in tips && tips[defaultBranch] != "" && only == "" ==> heads.Keys <= tips.Keys
      ensures defaultBranch in tips && tips[defaultBranch] != "" && only == "" ==>
                forall b :: b !in tips ==>
                  IsDeleted(cfg, b, if allowed then old(SeededNow(tips.Keys)) else old(heads), old(trees), trees)
      ensures only != "" ==> forall b :: b !in tips ==> SameTreeAt(b, old(trees), trees)
    {
      if !HasTip(tips, defaultBranch) {
        stateStored := true;
        return;
      }
      ghost var known := if allowed then SeededNow(tips.Keys) else Known(heads, tips.Keys);
      ghost var brought := if allowed then Chosen(active, only) * tips.Keys else {};
      assert forall b :: b in brought <==> allowed && b in active && (only == "" || only == b) && b in tips;
      BringIn(tips, allowed, Chosen(active, only));
      if only == "" {
        ghost var had, mid := heads, trees;
        DeleteGone(tips, brought);
        AfterDelete(cfg, tips, brought, known, had, heads, old(trees), mid, trees);
        assert !allowed ==> forall b :: b !in tips ==> (HasHead(known, b) <==> HasHead(old(heads), b));
      }
      stateStored := true;
    }

    /** Every branch with a tip is known, and the chosen ones are brought to theirs where code is allowed. */
    method BringIn(tips: map<string, string>, allowed: bool, chosen: set<string>)
      requires Valid()
      modifies `heads, `stateStored, `trees, `log
      ensures Valid() && AtTips(tips, if allowed then chosen * tips.Keys else {})
      ensures Apart(if allowed then chosen * tips.Keys else {},
                    if allowed then old(SeededNow(tips.Keys)) else Known(old(heads), tips.Keys), heads, old(trees), trees)
      ensures !allowed ==> heads == Known(old(heads), tips.Keys) && trees == old(trees)
    {
      KnowAll(tips.Keys);
      if allowed {
        Seed();
        ImportActive(tips, chosen);
      }
    }

    method KnowAll(branches: set<string>)
      requires Valid()
      modifies `heads
      ensures Valid() && heads == Known(old(heads), branches)
    {
      heads := Known(heads, branches);
    }

    /** Every branch the state knows and GitHub has not is deleted. */
    method DeleteGone(tips: map<string, string>, ghost atTips: set<string>)
      requires Valid() && AtTips(tips, atTips)
      modifies `heads, `stateStored, `trees, `log
      ensures Valid() && AtTips(tips, atTips) && heads.Keys <= tips.Keys
      ensures AreDeleted(cfg, tips.Keys, old(heads), heads, old(trees), trees)
    {
      var gone := heads.Keys - tips.Keys;
      NoneKnown(cfg, tips.Keys + gone, heads, trees);
      while gone != {}
        invariant Valid() && AtTips(tips, atTips)
        invariant gone !! tips.Keys && heads.Keys <= tips.Keys + gone
        invariant AreDeleted(cfg, tips.Keys + gone, old(heads), heads, old(trees), trees)
        decreases gone
      {
        var b :| b in gone;
        DeletedOne(cfg, tips.Keys + gone, old(heads), heads, old(trees), trees, b,
                   if HasHead(heads, b) && cfg.validRef(b) then trees - {b} else trees);
        DeleteBranch(b);
        assert tips.Keys + gone - {b} == tips.Keys + (gone - {b});
        gone := gone - {b};
      }
    }
  }

  /** The heads, with the branches that have no state yet added without one. */
  function Known(heads: map<string, string>, branches: set<string>): map<string, string> {
    map b | b in heads.Keys + branches :: if b in heads then heads[b] else ""
  }

  predicate HasTip(tips: map<string, string>, branch: string) {
    branch in tips && tips[branch] != ""
  }

  function Chosen(active: set<string>, only: string): set<string> {
    if only == "" then active else active * {only}
  }

  predicate HasHead(heads: map<string, string>, b: string) { b in heads && heads[b] != "" }

  predicate SameHeadAt(b: string, before: map<string, string>, after: map<string, string>) {
    (b in before <==> b in after) && (b in before ==> after[b] == before[b])
  }

  predicate SameTreeAt(b: string, before: map<string, GitTree>, after: map<string, GitTree>) {
    (b in before <==> b in after) && (b in before ==> after[b] == before[b])
  }

  /** Outside branches nothing changed. */
  ghost predicate Apart(branches: set<string>, heads0: map<string, string>, heads: map<string, string>,
                        trees0: map<string, GitTree>, trees: map<string, GitTree>) {
    forall b :: b !in branches ==> SameTreeAt(b, trees0, trees) && SameHeadAt(b, heads0, heads)
  }

  /** A branch GitHub lost has no tree left when it had a head, and else the tree it had. */
  predicate IsDeleted(cfg: Config, b: string, heads0: map<string, string>, trees0: map<string, GitTree>, trees: map<string, GitTree>) {
    if HasHead(heads0, b) && cfg.validRef(b) then b !in trees else SameTreeAt(b, trees0, trees)
  }

  /** All branches but those left were deleted. */
  ghost predicate AreDeleted(cfg: Config, left: set<string>, heads0: map<string, string>, heads: map<string, string>,
                             trees0: map<string, GitTree>, trees: map<string, GitTree>) {
    && (forall b :: b in left ==> SameTreeAt(b, trees0, trees) && SameHeadAt(b, heads0, heads))
    && (forall b :: b !in left ==> IsDeleted(cfg, b, heads0, trees0, trees))
  }

  /** Importing some branches and then deleting those gone leaves every other as it was. */
  lemma AfterDelete(cfg: Config, tips: map<string, string>, brought: set<string>, known: map<string, string>,
                    had: map<string, string>, heads: map<string, string>, trees0: map<string, GitTree>,
                    mid: map<string, GitTree>, trees: map<string, GitTree>)
    requires Apart(brought, known, had, trees0, mid) && brought <= tips.Keys
    requires AreDeleted(cfg, tips.Keys, had, heads, mid, trees)
    ensures forall b :: b in tips && b !in brought ==> SameTreeAt(b, trees0, trees) && SameHeadAt(b, known, heads)
    ensures forall b :: b !in tips ==> IsDeleted(cfg, b, known, trees0, trees)
  {
    forall b | b in tips && b !in brought ensures SameTreeAt(b, trees0, trees) && SameHeadAt(b, known, heads) {
      assert b in tips.Keys;
    }
    forall b | b !in tips ensures IsDeleted(cfg, b, known, trees0, trees) {
      assert b !in tips.Keys && b !in brought;
      assert SameTreeAt(b, trees0, mid) && SameHeadAt(b, known, had);
    }
  }

  lemma NoneKnown(cfg: Config, left: set<string>, heads: map<string, string>, trees: map<string, GitTree>)
    requires heads.Keys <= left
    ensures AreDeleted(cfg, left, heads, heads, trees, trees)
  {
  }

  lemma DeletedOne(cfg: Config, left: set<string>, heads0: map<string, string>, heads: map<string, string>,
                   trees0: map<string, GitTree>, trees: map<string, GitTree>, b: string, trees1: map<string, GitTree>)
    requires AreDeleted(cfg, left, heads0, heads, trees0, trees) && b in left
    requires trees1 == if HasHead(heads, b) && cfg.validRef(b) then trees - {b} else trees
    ensures AreDeleted(cfg, left - {b}, heads0, heads - {b}, trees0, trees1)
  {
  }

  /** What can happen to a repository, in any order and any number of times. */
  datatype Event =
    | Pushed(push: Push, allowed: bool)
    | Opened(branch: string, tip: Option<string>, allowed: bool)
    | Deleted(branch: string)
    | Reconciled(tips: map<string, string>, defaultBranch: string, allowed: bool, active: set<string>, only: string)
    | StateLost
    | Forgotten

  /** Any delivery of any events leaves every stored head the commit its branch's tree is the import of. */
  method Deliver(repo: Repo, events: seq<Event>)
    requires repo.Valid()
    modifies repo
    ensures repo.Valid()
  {
    for i := 0 to |events|
      invariant repo.Valid()
    {
      match events[i] {
        case Pushed(push, allowed) => repo.SyncPush(push, allowed);
        case Opened(branch, tip, allowed) => repo.SyncTip(branch, tip, allowed);
        case Deleted(branch) => repo.DeleteBranch(branch);
        case Reconciled(tips, default, allowed, active, only) => repo.SyncBranches(tips, default, allowed, active, only);
        case StateLost => repo.LoseState();
        case Forgotten => repo.Forget();
      }
    }
  }
}
