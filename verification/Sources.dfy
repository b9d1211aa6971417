/**
 * What a selection takes from the project's trees, field by field (Select,
 * defaultBranch, baseSources and resolve in codeindex/layers.go): the trees,
 * the branch and the commit of the base, each layer's node and sources, and
 * the blob of each pushed path.
 */
module Sources {
  import opened Wrappers
  import opened Orders
  import opened Plans
  import opened Knowledge
  import opened Trees
  import opened Selection
  import opened Checkouts
  import opened Visibility
  import LayerIds

  // ----- the trees

  /** Trees of removed worktrees and empty ones are left out; the rest come by worktree, then ref. */
  lemma LiveMeaning(trees: seq<Tree>, t: Tree)
    requires DistinctKeys(trees)
    ensures t in LiveTrees(trees) <==>
            t in trees && !t.worktree.removed && t.worktree.id != "" && t.state.ref != "" && t.entries != map[]
    ensures var live := LiveTrees(trees);
            forall i, j :: 0 <= i < j < |live| ==>
              || StrLess(live[i].worktree.id, live[j].worktree.id)
              || (live[i].worktree.id == live[j].worktree.id && StrLess(live[i].state.ref, live[j].state.ref))
  {
    FilterDistinct(trees, Live);
    SortedIsSorted(Filter(trees, Live));
  }

  // ----- the branch the base follows

  /** The i-th tree is the first of its worktree to report a default branch. */
  predicate IsBallot(live: seq<Tree>, i: nat, branch: string) {
    && i < |live| && live[i].worktree.defaultBranch == branch && branch != ""
    && forall j :: 0 <= j < i && live[j].worktree.id == live[i].worktree.id ==> live[j].worktree.defaultBranch == ""
  }

  function Ballots(live: seq<Tree>, branch: string): set<nat> {
    set i | 0 <= i < |live| && IsBallot(live, i, branch)
  }

  lemma {:induction false} VotesAreBallots(live: seq<Tree>, branch: string)
    ensures Count(Trees.Votes(live), branch) == |Ballots(live, branch)|
    ensures branch in Trees.Votes(live) <==> Ballots(live, branch) != {}
  {
    if live != [] {
      VotesAreBallots(live[..|live| - 1], branch);
      OneMoreBallot(live, branch);
      OneMoreVote(live, branch);
    }
  }

  lemma OneMoreBallot(live: seq<Tree>, branch: string)
    requires live != []
    ensures var n := |live| - 1;
            && n !in Ballots(live[..n], branch)
            && Ballots(live, branch) == Ballots(live[..n], branch) + if IsBallot(live, n, branch) then {n} else {}
  {
    var n := |live| - 1;
    forall i: nat | i < n ensures IsBallot(live, i, branch) <==> IsBallot(live[..n], i, branch) { }
  }

  lemma OneMoreVote(live: seq<Tree>, branch: string)
    requires live != []
    ensures var pre, n := Trees.Votes(live[..|live| - 1]), |live| - 1;
            && Count(Trees.Votes(live), branch) == Count(pre, branch) + (if IsBallot(live, n, branch) then 1 else 0)
            && (branch in Trees.Votes(live) <==> branch in pre || IsBallot(live, n, branch))
  {
    var n := |live| - 1;
    VoterIsBefore(live[..n], live[n].worktree.id);
    assert IsBallot(live, n, branch) <==>
      live[n].worktree.defaultBranch == branch && branch != "" && live[n].worktree.id !in Voters(live[..n]);
  }

  lemma VoterIsBefore(pre: seq<Tree>, id: string)
    ensures id in Voters(pre) <==> exists j :: 0 <= j < |pre| && pre[j].worktree.id == id && pre[j].worktree.defaultBranch != ""
  {
  }

  /** A GitHub tree that reports a default branch, none before it does. */
  predicate IsGitHubWord(live: seq<Tree>, i: nat) {
    && i < |live| && live[i].worktree.github && live[i].worktree.defaultBranch != ""
    && forall j :: 0 <= j < i ==> !(live[j].worktree.github && live[j].worktree.defaultBranch != "")
  }

  lemma {:induction false} GitHubWord(live: seq<Tree>)
    ensures GitHubDefault(live) == "" ==> forall i: nat :: !IsGitHubWord(live, i)
    ensures GitHubDefault(live) != "" ==>
              exists i: nat :: IsGitHubWord(live, i) && GitHubDefault(live) == live[i].worktree.defaultBranch
  {
    if live != [] {
      GitHubWord(live[1..]);
      if live[0].worktree.github && live[0].worktree.defaultBranch != "" {
        assert IsGitHubWord(live, 0);
      } else {
        forall i: nat | 0 < i ensures IsGitHubWord(live, i) <==> IsGitHubWord(live[1..], i - 1) {
          if i < |live| {
            assert live[1..][i - 1] == live[i];
            assert IsGitHubWord(live[1..], i - 1) ==> forall j :: 0 < j < i ==> live[1..][j - 1] == live[j];
          }
        }
        if GitHubDefault(live) != "" {
          var i: nat :| IsGitHubWord(live[1..], i) && GitHubDefault(live) == live[1..][i].worktree.defaultBranch;
          assert IsGitHubWord(live, i + 1);
        }
      }
    }
  }

  /**
   * The base follows what the first GitHub tree to report a default branch
   * reports; without one the branch most worktrees report, the smallest on a
   * tie; none when none reports one.
   */
  lemma DefaultBranchMeaning(live: seq<Tree>)
    ensures var def := DefaultBranch(live);
            && (forall i: nat :: IsGitHubWord(live, i) ==> def == live[i].worktree.defaultBranch)
            && ((forall i: nat :: !IsGitHubWord(live, i)) ==>
                  && (def == "" <==> forall b :: Ballots(live, b) == {})
                  && forall b :: b != def && Ballots(live, b) != {} ==>
                       || |Ballots(live, b)| < |Ballots(live, def)|
                       || (|Ballots(live, b)| == |Ballots(live, def)| && StrLess(def, b)))
  {
    GitHubWord(live);
    var votes, def := Trees.Votes(live), DefaultBranch(live);
    forall b ensures Count(votes, b) == |Ballots(live, b)| && (b in votes <==> Ballots(live, b) != {}) {
      VotesAreBallots(live, b);
    }
    assert Ballots(live, "") == {};
    forall b | b != def ensures StrLess(b, def) || StrLess(def, b) { StrTotal(b, def); }
  }

  // ----- the base

  /** commit is where the tree's clean, pushed entries are: its upstream, else a GitHub tree's head. */
  predicate IsAt(t: Tree, commit: string) {
    && commit != ""
    && (t.state.upstream == commit || (t.state.upstream == "" && t.worktree.github && t.state.head == commit))
  }

  lemma AtIs(t: Tree, commit: string)
    ensures IsAt(t, commit) <==> commit != "" && PushedCommit(t) == commit
  {
  }

  /** A tree on ref with a pushed commit. */
  ghost predicate IsPushed(live: seq<Tree>, ref: string, t: Tree) {
    t in live && t.state.ref == ref && exists commit :: IsAt(t, commit)
  }

  /** A tree the base may be built from: the GitHub worktree's where there is one. */
  ghost predicate MayBeBase(live: seq<Tree>, ref: string, t: Tree) {
    IsPushed(live, ref, t) && (t.worktree.github || forall u :: IsPushed(live, ref, u) ==> !u.worktree.github)
  }

  lemma CandidatesAre(live: seq<Tree>, ref: string, t: Tree)
    ensures t in Candidates(live, ref) <==> MayBeBase(live, ref, t)
  {
    forall u ensures IsPushed(live, ref, u) <==> u in live && u.state.ref == ref && PushedCommit(u) != "" {
      AtIs(u, PushedCommit(u));
      if IsPushed(live, ref, u) { var c :| IsAt(u, c); AtIs(u, c); }
    }
    var gh := Filter(live, u => Trees.Candidate(u, ref, true));
    forall u ensures u in gh <==> IsPushed(live, ref, u) && u.worktree.github { }
    assert gh != [] ==> gh[0] in gh;
  }

  /** best's upstream was seen last of the two, then its last change was, then its worktree id is no greater. */
  predicate IsNoNewer(t: Tree, best: Tree) {
    || t.state.upstreamSeq < best.state.upstreamSeq
    || (t.state.upstreamSeq == best.state.upstreamSeq
        && (|| t.state.lastSeq < best.state.lastSeq
            || (t.state.lastSeq == best.state.lastSeq && !StrLess(t.worktree.id, best.worktree.id))))
  }

  lemma NewestMeaning(cands: seq<Tree>)
    requires cands != []
    ensures Newest(cands) in cands && forall t :: t in cands ==> IsNoNewer(t, Newest(cands))
  {
    NewestIsNewest(cands);
    forall t | t in cands ensures IsNoNewer(t, Newest(cands)) { assert !Newer(t, Newest(cands)); }
  }

  /** The base is at the commit of the candidate whose upstream was seen last. */
  ghost predicate IsBaseOf(live: seq<Tree>, def: string, best: Tree, layer: Layer, src: seq<Tree>) {
    && MayBeBase(live, def, best) && (forall t :: MayBeBase(live, def, t) ==> IsNoNewer(t, best))
    && IsAt(best, layer.commit) && layer == Layer("base", BaseKind, "", "", def, layer.commit)
    && forall t :: t in src <==>
         if best.worktree.github then t == best else MayBeBase(live, def, t) && IsAt(t, layer.commit)
  }

  lemma BaseMeaning(live: seq<Tree>)
    ensures var def := DefaultBranch(live);
            && (LayerIds.BASE in SelectLive(live).layers <==> def != "" && exists t :: MayBeBase(live, def, t))
            && (LayerIds.BASE in SelectLive(live).layers ==>
                  exists best :: IsBaseOf(live, def, best, SelectLive(live).layers[LayerIds.BASE].layer, BaseSrc(live)))
  {
    var def := DefaultBranch(live);
    var cands := Candidates(live, def);
    forall t ensures t in cands <==> MayBeBase(live, def, t) { CandidatesAre(live, def, t); }
    BaseSourcesAgree(live, def);
    BaseIsThere(live);
    if HasBase(live) {
      BaseIsSelected(live);
      NewestMeaning(cands);
      BestIsBase(live, def, Newest(cands));
    } else {
      assert cands != [] ==> cands[0] in cands;
    }
  }

  lemma BaseIsThere(live: seq<Tree>)
    ensures LayerIds.BASE in SelectLive(live).layers <==> HasBase(live)
  {
    BaseIdParses();
    if LayerIds.BASE in SelectLive(live).layers && !HasBase(live) {
      if t :| t in live && HasBranch(t, DefaultBranch(live)) && BranchId(t) == LayerIds.BASE {
        IdsDiffer(t);
      } else {
        var t :| t in live && HasOverlay(t) && OverlayId(t) == LayerIds.BASE;
        OverlayIdParses(t);
      }
    }
  }

  lemma IdsDiffer(t: Tree)
    ensures BranchId(t) != LayerIds.BASE
  {
    assert |LayerIds.BRANCH_PREFIX| > |LayerIds.BASE|;
  }

  lemma BestIsBase(live: seq<Tree>, def: string, best: Tree)
    requires HasBase(live) && def == DefaultBranch(live) && Candidates(live, def) != [] && best == Newest(Candidates(live, def))
    requires forall t :: t in Candidates(live, def) <==> MayBeBase(live, def, t)
    requires forall t :: t in Candidates(live, def) ==> IsNoNewer(t, best)
    ensures IsBaseOf(live, def, best, BaseLayer(live).layer, BaseSrc(live))
  {
    forall t ensures IsAt(t, PushedCommit(best)) <==> PushedCommit(best) != "" && PushedCommit(t) == PushedCommit(best) {
      AtIs(t, PushedCommit(best));
    }
    assert best in Candidates(live, def);
    var c :| IsAt(best, c);
    AtIs(best, c);
  }

  // ----- the branch layers

  /** A tree on a pushed branch other than the default, whose layer's id is accepted. */
  ghost predicate IsBranchTree(live: seq<Tree>, t: Tree, commit: string) {
    && t in live && (DefaultBranch(live) == "" || t.state.ref != DefaultBranch(live)) && IsAt(t, commit)
    && LayerIds.Parse(LayerIds.Print(LayerIds.BranchName(t.state.ref, commit))).Some?
  }

  lemma BranchTreeIs(live: seq<Tree>, t: Tree, commit: string)
    ensures IsBranchTree(live, t, commit) <==> t in live && HasBranch(t, DefaultBranch(live)) && commit == PushedCommit(t)
  {
    AtIs(t, commit);
  }

  /** A client tree whose overlay's id is accepted. */
  predicate IsOverlayTree(live: seq<Tree>, t: Tree) {
    && t in live && !t.worktree.github
    && LayerIds.Parse(LayerIds.Print(LayerIds.WorktreeName(t.worktree.id, t.state.ref))).Some?
  }

  /** A selection's layers: the base, one for each pushed branch and commit a tree is on, one for each client tree. */
  lemma LayersMeaning(live: seq<Tree>, id: LayerId)
    ensures id in SelectLive(live).layers <==>
            || (id == "base" && HasBase(live))
            || (exists t, commit :: IsBranchTree(live, t, commit) && id == LayerIds.Print(LayerIds.BranchName(t.state.ref, commit)))
            || (exists t :: IsOverlayTree(live, t) && id == LayerIds.Print(LayerIds.WorktreeName(t.worktree.id, t.state.ref)))
  {
    forall t, commit ensures IsBranchTree(live, t, commit) <==>
                             t in live && HasBranch(t, DefaultBranch(live)) && commit == PushedCommit(t)
    {
      BranchTreeIs(live, t, commit);
    }
    if t :| t in live && HasBranch(t, DefaultBranch(live)) && id == BranchId(t) {
      assert IsBranchTree(live, t, PushedCommit(t));
    }
    if t :| t in live && HasOverlay(t) && id == OverlayId(t) { assert IsOverlayTree(live, t); }
  }

  /** A tree a branch layer may be built from: the GitHub worktree's where there is one. */
  ghost predicate MayBeBranch(live: seq<Tree>, ref: string, commit: string, t: Tree) {
    && OnCommit(live, ref, commit, t)
    && (t.worktree.github || forall u :: OnCommit(live, ref, commit, u) ==> !u.worktree.github)
  }

  predicate OnCommit(live: seq<Tree>, ref: string, commit: string, t: Tree) {
    t in live && t.state.ref == ref && IsAt(t, commit)
  }

  lemma BranchSourcesAre(live: seq<Tree>, ref: string, commit: string, t: Tree)
    requires commit != "" && (DefaultBranch(live) == "" || ref != DefaultBranch(live))
    ensures t in BranchSources(Group(live, DefaultBranch(live), ref, commit)) <==> MayBeBranch(live, ref, commit, t)
  {
    var group := Group(live, DefaultBranch(live), ref, commit);
    forall u ensures u in group <==> OnCommit(live, ref, commit, u) { AtIs(u, commit); }
    var gh := Filter(group, (u: Tree) => u.worktree.github);
    assert gh != [] ==> gh[0] in gh;
  }

  /** Sources are in the order of the trees, by worktree and ref. */
  lemma {:induction false} FilterSorted(ts: seq<Tree>, keep: Tree -> bool)
    requires StrictlySorted(ts)
    ensures StrictlySorted(Filter(ts, keep))
  {
    if ts != [] {
      var pre, last := ts[..|ts| - 1], ts[|ts| - 1];
      FilterSorted(pre, keep);
      var r := Filter(pre, keep);
      forall i | 0 <= i < |r| ensures TreeLess(r[i], last) {
        assert r[i] in r;
        var m :| 0 <= m < |pre| && pre[m] == r[i];
        assert ts[m] == r[i];
      }
    }
  }

  /** The files of a plan's base. */
  ghost function BaseOf(p: Plan): map<Path, FileSource> {
    if LayerIds.BASE in p.layers then p.layers[LayerIds.BASE].files else map[]
  }

  /** What a path's sources say against the base: their file where it differs, a tombstone where they lack it. */
  ghost predicate IsDifference(base: map<Path, FileSource>, src: seq<Tree>, files: map<Path, FileSource>, path: Path) {
    var (st, f) := Resolve(Know(src, path));
    && (path in files <==> (st.Present? && (path !in base || base[path].oid != f.oid)) || (st.Absent? && path in base))
    && (path in files ==> files[path] == if st.Present? then f else TOMBSTONE)
  }

  lemma DifferenceIs(base: map<Path, FileSource>, src: seq<Tree>, path: Path)
    ensures IsDifference(base, src, BranchFiles(base, src), path)
  {
    ResolveMeaning(src, path);
    UnknownPath(src, path);
  }

  /** A branch layer: its node, and at each path what its sources say against the base. */
  ghost predicate IsBranchOf(p: Plan, live: seq<Tree>, ref: string, commit: string, lp: LayerPlan) {
    && lp.layer == Layer(LayerIds.Print(LayerIds.BranchName(ref, commit)), BranchKind,
                         if LayerIds.BASE in p.layers then LayerIds.BASE else "", "", ref, commit)
    && exists src :: IsDifferenceOf(BaseOf(p), live, ref, commit, src, lp.files)
  }

  /** By the trees that may be sources, in order. */
  ghost predicate IsDifferenceOf(base: map<Path, FileSource>, live: seq<Tree>, ref: string, commit: string, src: seq<Tree>,
                                 files: map<Path, FileSource>) {
    && StrictlySorted(src) && (forall t :: t in src <==> MayBeBranch(live, ref, commit, t))
    && forall path :: IsDifference(base, src, files, path)
  }

  lemma BranchMeaning(live: seq<Tree>, t: Tree, commit: string)
    requires Canonical(live) && IsBranchTree(live, t, commit)
    ensures var p, id := SelectLive(live), LayerIds.Print(LayerIds.BranchName(t.state.ref, commit));
            id in p.layers && IsBranchOf(p, live, t.state.ref, commit, p.layers[id])
  {
    BranchTreeIs(live, t, commit);
    BranchIsSelected(live, t);
    BaseIsThere(live);
    BaseOfIs(live);
    BranchDiffers(live, t.state.ref, commit);
  }

  lemma BaseOfIs(live: seq<Tree>)
    ensures BaseOf(SelectLive(live)) == BaseFiles(BaseSrc(live))
  {
    BaseIsThere(live);
    if HasBase(live) { BaseIsSelected(live); } else { NoBaseFiles(live); }
  }

  lemma BranchDiffers(live: seq<Tree>, ref: string, commit: string)
    requires StrictlySorted(live) && commit != "" && (DefaultBranch(live) == "" || ref != DefaultBranch(live))
    ensures exists src :: IsDifferenceOf(BaseFiles(BaseSrc(live)), live, ref, commit, src, BranchFilesOf(live, ref, commit))
  {
    var base, src := BaseFiles(BaseSrc(live)), BranchSources(Group(live, DefaultBranch(live), ref, commit));
    forall u ensures u in src <==> MayBeBranch(live, ref, commit, u) { BranchSourcesAre(live, ref, commit, u); }
    SourcesSorted(live, DefaultBranch(live), ref, commit);
    forall path ensures IsDifference(base, src, BranchFilesOf(live, ref, commit), path) { DifferenceIs(base, src, path); }
    assert IsDifferenceOf(base, live, ref, commit, src, BranchFilesOf(live, ref, commit));
  }

  lemma NoBaseFiles(live: seq<Tree>)
    requires !HasBase(live)
    ensures BaseFiles(BaseSrc(live)) == map[]
  {
    forall p ensures p !in BaseFiles(BaseSrc(live)) { UnknownPath([], p); }
  }

  lemma SourcesSorted(live: seq<Tree>, def: string, ref: string, commit: string)
    requires StrictlySorted(live)
    ensures StrictlySorted(BranchSources(Group(live, def, ref, commit)))
  {
    FilterSorted(live, (t: Tree) => OnBranch(t, def) && t.state.ref == ref && PushedCommit(t) == commit);
    FilterSorted(Group(live, def, ref, commit), (t: Tree) => t.worktree.github);
  }

  /** The base holds at each path what its sources say there. */
  lemma BaseFilesMeaning(live: seq<Tree>, path: Path)
    requires LayerIds.BASE in SelectLive(live).layers
    ensures var (st, f) := Resolve(Know(BaseSrc(live), path));
            var files := SelectLive(live).layers[LayerIds.BASE].files;
            && (path in files <==> st.Present?) && (path in files ==> files[path] == f)
  {
    BaseIsThere(live);
    BaseIsSelected(live);
    ResolveMeaning(BaseSrc(live), path);
    UnknownPath(BaseSrc(live), path);
  }

  lemma BaseSourcesSorted(live: seq<Tree>)
    requires StrictlySorted(live)
    ensures StrictlySorted(BaseSrc(live))
  {
    var def := DefaultBranch(live);
    FilterSorted(live, t => Trees.Candidate(t, def, true));
    FilterSorted(live, t => Trees.Candidate(t, def, false));
    if HasBase(live) {
      var commit := PushedCommit(Newest(Candidates(live, def)));
      FilterSorted(Candidates(live, def), t => PushedCommit(t) == commit);
    }
  }

  // ----- the overlays

  /** The layer an overlay sits on: its pushed branch's if there is one, else the base if there is one. */
  ghost predicate IsParent(live: seq<Tree>, t: Tree, parent: LayerId) {
    if exists commit :: IsBranchTree(live, t, commit)
    then exists commit :: IsBranchTree(live, t, commit) && parent == LayerIds.Print(LayerIds.BranchName(t.state.ref, commit))
    else parent == if LayerIds.BASE in SelectLive(live).layers then LayerIds.BASE else ""
  }

  ghost function ShownBelow(p: Plan, parent: LayerId, path: Path): Option<FileSource> {
    if parent == "" then None else ShownFile(p, Chain(p, parent), path)
  }

  /** At a path: the entry itself when it is dirty or unpushed, a tombstone for a file below the checkout lacks. */
  ghost predicate IsSessionFile(t: Tree, below: Option<FileSource>, files: map<Path, FileSource>, path: Path) {
    if path in t.entries then
      var e := t.entries[path];
      && (path in files <==> e.dirty || e.unpushed)
      && (path in files ==> files[path] == FileSource(e.sha, e.oid, e.lang, e.mode, e.size, e.session, false))
    else (path in files <==> below.Some?) && (path in files ==> files[path] == FileSource("", "", "", "", 0, "", true))
  }

  ghost predicate IsOverlayOf(live: seq<Tree>, t: Tree, parent: LayerId, lp: LayerPlan) {
    && IsParent(live, t, parent)
    && lp.layer == Layer(LayerIds.Print(LayerIds.WorktreeName(t.worktree.id, t.state.ref)), WorktreeKind, parent,
                         if t.worktree.owner == "" then t.state.owner else t.worktree.owner, t.state.ref, t.state.head)
    && forall path :: IsSessionFile(t, ShownBelow(SelectLive(live), parent, path), lp.files, path)
  }

  lemma OverlayMeaning(live: seq<Tree>, t: Tree)
    requires Canonical(live) && IsOverlayTree(live, t)
    ensures var p, id := SelectLive(live), LayerIds.Print(LayerIds.WorktreeName(t.worktree.id, t.state.ref));
            id in p.layers && exists parent :: IsOverlayOf(live, t, parent, p.layers[id])
  {
    OverlayIsSelected(live, t);
    ParentIs(live, t);
    var parent := OverlayParent(live, t);
    forall path ensures IsSessionFile(t, ShownBelow(SelectLive(live), parent, path), OverlayFiles(t, Below(live, t)), path) {
      BelowIsShown(live, t, path);
    }
    assert IsOverlayOf(live, t, parent, OverlayLayer(live, t));
  }

  lemma ParentIs(live: seq<Tree>, t: Tree)
    requires t in live
    ensures IsParent(live, t, OverlayParent(live, t))
  {
    BaseIsThere(live);
    forall commit ensures IsBranchTree(live, t, commit) <==> HasBranch(t, DefaultBranch(live)) && commit == PushedCommit(t) {
      BranchTreeIs(live, t, commit);
    }
  }

  lemma BelowIsShown(live: seq<Tree>, t: Tree, path: Path)
    requires Canonical(live) && t in live
    ensures ShownBelow(SelectLive(live), OverlayParent(live, t), path) == Lookup(Below(live, t), path)
  {
    if HasBranch(t, DefaultBranch(live)) {
      BranchChain(live, t);
      BranchShows(live, t, path);
    } else if HasBase(live) {
      BaseIsSelected(live);
      BaseShows(live, path);
      assert Chain(SelectLive(live), LayerIds.BASE) == BaseChain(live);
    } else {
      NoBaseFiles(live);
    }
  }
}
