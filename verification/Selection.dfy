/**
 * Choosing layer sources (Select in codeindex/layers.go): the base, a layer
 * per pushed branch, an overlay per client tree.
 */
module Selection {
  import opened Wrappers
  import opened Plans
  import opened Knowledge
  import opened Trees
  import LayerIds

  // ----- the files of each layer

  /** The paths the base's sources resolve present. */
  ghost function BaseFiles(src: seq<Tree>): map<Path, FileSource> {
    map p | p in KnownPaths(src) && Resolve(Know(src, p)).0.Present? :: Resolve(Know(src, p)).1
  }

  /** What a branch layer holds at p, if anything: its file where it differs from the base's, else a tombstone. */
  ghost function BranchFileAt(base: map<Path, FileSource>, src: seq<Tree>, p: Path): Option<FileSource> {
    if p in KnownPaths(src) then
      var (st, f) := Resolve(Know(src, p));
      if st.Present? && (p !in base || base[p].oid != f.oid) then Some(f)
      else if st.Absent? && p in base then Some(TOMBSTONE)
      else None
    else if p in base then Some(TOMBSTONE)
    else None
  }

  ghost function BranchFiles(base: map<Path, FileSource>, src: seq<Tree>): map<Path, FileSource> {
    map p | p in KnownPaths(src) + base.Keys && BranchFileAt(base, src, p).Some? :: BranchFileAt(base, src, p).value
  }

  /** The files visible when upper sits on lower. */
  function Stack(lower: map<Path, FileSource>, upper: map<Path, FileSource>): map<Path, FileSource> {
    map p | p in lower.Keys + upper.Keys && (if p in upper then !upper[p].deleted else true) ::
      if p in upper then upper[p] else lower[p]
  }

  function Local(e: Entry): FileSource {
    FileSource(e.sha, e.oid, e.lang, e.mode, e.size, e.session, false)
  }

  /** An overlay holds its tree's dirty and unpushed entries and a tombstone for what the checkout lacks below. */
  function OverlayFiles(t: Tree, below: map<Path, FileSource>): map<Path, FileSource> {
    map p | p in t.entries.Keys + below.Keys &&
            (if p in t.entries then t.entries[p].dirty || t.entries[p].unpushed else true) ::
      if p in t.entries then Local(t.entries[p]) else TOMBSTONE
  }

  // ----- the layers

  ghost function BaseSrc(live: seq<Tree>): seq<Tree> { BaseSources(live, DefaultBranch(live)) }

  ghost predicate HasBase(live: seq<Tree>) { BaseSrc(live) != [] }

  ghost function BaseLayer(live: seq<Tree>): LayerPlan {
    var def := DefaultBranch(live);
    LayerPlan(Layer(LayerIds.BASE, BaseKind, "", "", def, BaseCommit(live, def)), BaseFiles(BaseSrc(live)))
  }

  ghost function BaseId(live: seq<Tree>): LayerId {
    if HasBase(live) then LayerIds.BASE else ""
  }

  /** A tree on a pushed branch other than the default. */
  predicate OnBranch(t: Tree, def: string) {
    (def == "" || t.state.ref != def) && PushedCommit(t) != ""
  }

  function Group(live: seq<Tree>, def: string, ref: string, commit: string): seq<Tree> {
    Filter(live, (t: Tree) => OnBranch(t, def) && t.state.ref == ref && PushedCommit(t) == commit)
  }

  /** The GitHub tree alone when it is one of the group. */
  function BranchSources(group: seq<Tree>): seq<Tree> {
    var gh := Filter(group, (t: Tree) => t.worktree.github);
    if gh != [] then gh else group
  }

  function BranchId(t: Tree): LayerId {
    LayerIds.Print(LayerIds.BranchName(t.state.ref, PushedCommit(t)))
  }

  predicate HasBranch(t: Tree, def: string) {
    OnBranch(t, def) && LayerIds.Parse(BranchId(t)).Some?
  }

  ghost function BranchFilesOf(live: seq<Tree>, ref: string, commit: string): map<Path, FileSource> {
    BranchFiles(BaseFiles(BaseSrc(live)), BranchSources(Group(live, DefaultBranch(live), ref, commit)))
  }

  ghost function BranchLayer(live: seq<Tree>, ref: string, commit: string): LayerPlan {
    LayerPlan(Layer(LayerIds.Print(LayerIds.BranchName(ref, commit)), BranchKind, BaseId(live), "", ref, commit),
              BranchFilesOf(live, ref, commit))
  }

  function OverlayId(t: Tree): LayerId {
    LayerIds.Print(LayerIds.WorktreeName(t.worktree.id, t.state.ref))
  }

  predicate HasOverlay(t: Tree) {
    !t.worktree.github && LayerIds.Parse(OverlayId(t)).Some?
  }

  /** The layer an overlay sits on: its pushed branch's, else the base. */
  ghost function OverlayParent(live: seq<Tree>, t: Tree): LayerId {
    if HasBranch(t, DefaultBranch(live)) then BranchId(t) else BaseId(live)
  }

  /** The files visible below an overlay. */
  ghost function Below(live: seq<Tree>, t: Tree): map<Path, FileSource> {
    var base := BaseFiles(BaseSrc(live));
    if HasBranch(t, DefaultBranch(live)) then Stack(base, BranchFilesOf(live, t.state.ref, PushedCommit(t))) else base
  }

  ghost function OverlayLayer(live: seq<Tree>, t: Tree): LayerPlan {
    LayerPlan(Layer(OverlayId(t), WorktreeKind, OverlayParent(live, t),
                    if t.worktree.owner != "" then t.worktree.owner else t.state.owner, t.state.ref, t.state.head),
              OverlayFiles(t, Below(live, t)))
  }

  // ----- the plan

  ghost function SelectedIds(live: seq<Tree>): set<LayerId> {
    (if HasBase(live) then {LayerIds.BASE} else {})
    + (set t | t in live && HasBranch(t, DefaultBranch(live)) :: BranchId(t))
    + (set t | t in live && HasOverlay(t) :: OverlayId(t))
  }

  function TreeNamed(live: seq<Tree>, worktree: string, ref: string): Option<Tree> {
    if live == [] then None
    else if live[0].worktree.id == worktree && live[0].state.ref == ref then Some(live[0])
    else TreeNamed(live[1..], worktree, ref)
  }

  const NO_LAYER := LayerPlan(Layer("", BaseKind, "", "", "", ""), map[])

  /** The layer a selection files under an id. */
  ghost function LayerNamed(live: seq<Tree>, id: LayerId): LayerPlan {
    match LayerIds.Parse(id)
    case Some(BaseName) => BaseLayer(live)
    case Some(BranchName(ref, commit)) => BranchLayer(live, ref, commit)
    case Some(WorktreeName(worktree, ref)) =>
      (match TreeNamed(live, worktree, ref)
       case Some(t) => OverlayLayer(live, t)
       case None => NO_LAYER)
    case None => NO_LAYER
  }

  ghost function SelectLive(live: seq<Tree>): Plan {
    Plan(DefaultBranch(live), map id | id in SelectedIds(live) :: LayerNamed(live, id))
  }

  /** The selection of a project's trees. */
  ghost function Selected(trees: seq<Tree>): Plan {
    SelectLive(LiveTrees(trees))
  }

  /** Commits are hex in the source; all selection needs is that none holds an '@'. */
  predicate CleanCommits(ts: seq<Tree>) {
    forall t :: t in ts ==> '@' !in PushedCommit(t)
  }

  /** Any order of the same trees selects the same plan. */
  lemma SelectedUnordered(a: seq<Tree>, b: seq<Tree>)
    requires DistinctKeys(a) && DistinctKeys(b)
    requires forall t :: t in a <==> t in b
    ensures Selected(a) == Selected(b)
  {
    LiveTreesUnordered(a, b);
  }

  // ----- ids name their layers

  /** An accepted branch id names its own ref and commit. */
  lemma BranchIdParses(t: Tree)
    requires '@' !in PushedCommit(t) && LayerIds.Parse(BranchId(t)).Some?
    ensures LayerIds.Parse(BranchId(t)) == Some(LayerIds.BranchName(t.state.ref, PushedCommit(t)))
  {
    LayerIds.ParseBranch(t.state.ref, PushedCommit(t));
  }

  /** An accepted overlay id names its own worktree and ref. */
  lemma OverlayIdParses(t: Tree)
    requires LayerIds.Parse(OverlayId(t)).Some?
    ensures LayerIds.Parse(OverlayId(t)) == Some(LayerIds.WorktreeName(t.worktree.id, t.state.ref))
  {
    LayerIds.ParseWorktree(t.worktree.id, t.state.ref);
  }

  lemma BaseIdParses()
    ensures LayerIds.Parse(LayerIds.BASE) == Some(LayerIds.BaseName)
  {
  }

  lemma {:induction false} TreeNamedFinds(live: seq<Tree>, t: Tree)
    requires t in live && StrictlySorted(live)
    ensures TreeNamed(live, t.worktree.id, t.state.ref) == Some(t)
  {
    if live[0] == t {
    } else {
      assert live == [live[0]] + live[1..];
      var m :| 0 <= m < |live| && live[m] == t;
      TreeTotal(live[0], live[m]);
      TreeNamedFinds(live[1..], t);
    }
  }

  /** The layers of a plan, by the tree they are made for. */
  lemma BranchIsSelected(live: seq<Tree>, t: Tree)
    requires CleanCommits(live) && t in live && HasBranch(t, DefaultBranch(live))
    ensures BranchId(t) in SelectLive(live).layers
    ensures SelectLive(live).layers[BranchId(t)] == BranchLayer(live, t.state.ref, PushedCommit(t))
  {
    BranchIdParses(t);
  }

  lemma OverlayIsSelected(live: seq<Tree>, t: Tree)
    requires StrictlySorted(live) && t in live && HasOverlay(t)
    ensures OverlayId(t) in SelectLive(live).layers
    ensures SelectLive(live).layers[OverlayId(t)] == OverlayLayer(live, t)
  {
    OverlayIdParses(t);
    TreeNamedFinds(live, t);
  }

  lemma BaseIsSelected(live: seq<Tree>)
    requires HasBase(live)
    ensures LayerIds.BASE in SelectLive(live).layers
    ensures SelectLive(live).layers[LayerIds.BASE] == BaseLayer(live)
  {
    BaseIdParses();
  }
}
