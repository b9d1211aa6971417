# Verification of the mind-palace code-graph indexer

The indexer of mind-palace keeps one graph per project up to date with the
trees of many worktrees. A *selection* turns those trees into stacked layers
(the base, pushed branches, session overlays). A *batch* writes the difference
of two selections to the graph and maintains, for every file, the list of
higher layers that hide it, so that a read decides visibility with a flat
filter. This project models that machine in Dafny and proves what it is for:

- **Convergence.** Whatever the history of batches, the graph ends as a
  rebuild from the last selection would write it, every `hiddenBy` list
  included (`Applier.HistoryIsRebuild`). One batch ends on its target exactly
  when the lists it does not touch were right before
  (`Convergence.BatchExact`), and it is never refused on the way.
- **Crashes.** After batches cut anywhere, each to a target of its own, a
  complete batch settles the graph exactly when every file it leaves alone was
  left with that target's list (`Attempts.RetriesExact`); a graph is safe for
  any next target exactly when it is settled on what it holds
  (`Attempts.SafeForAnyTarget`). With one target throughout, a batch is made
  good by the first try that completes, provided every kept file it does not
  rewrite has the right list or lies below a changed file of its path
  (`Attempts.RetriesSettle`); that condition is exact for a cut after the layer
  puts (`Crashes.RetryAfterPuts`) and follows when no surviving layer's chain
  of parents moves (`Crashes.UnmovedIsRecoverable`).
- **Visibility.** The flat filter on `hiddenBy` shows exactly what walking the
  chain of parents shows, one file per path at most
  (`Visibility.FastVisibility`, `Reads.GraphShowsStack`). Together with the two
  results around it: after any history of batches a session reads exactly its
  checkout, idle overlays left out or not (`Sessions.SessionReadsExact`).
- **Selection.** The plan does not depend on the order of the trees. Each part
  of it is pinned to the trees field by field: the branch and commit of the base
  (`Sources.DefaultBranchMeaning`, `Sources.BaseMeaning`), each layer's node and
  sources, and the blob of each pushed path (`Reporting.PushedFileMeaning`). A
  branch layer is the exact minimal difference from the base; an overlay's view
  is the session's checkout, under a condition that is exact.
- **Edges.** A reference resolves to the pick of what the first try that keeps
  anything keeps, definitions of a fitting kind before others
  (`Targets.ResolveMeaning`). Though a layer stores only the edges that differ
  from the view below, every reference of every view has its edge, and skipping
  files by the shadow of names loses nothing. A batch replaces exactly the edges
  of the files it takes and does not carry; what it carries is what did not fit the
  budget (`Resolutions.ResolveBatch`), and carried work drains
  (`Draining.CarriedDrains`). After any sequence of batches the graph holds
  exactly the edges that the last batch to resolve their source wrote and whose
  ends stayed (`EdgeHistories.HistoryEdges`), and a file that is not carried
  has wrong edges if and only if it is lost: some batch overlooked it and none
  took it since, and what file writes leave it is not what it is to have
  (`EdgeHistories.HistoryIsExact`). From exact edges, whatever else the graph
  holds, a batch leaves exact edges if and only if those of each file it
  overlooks are kept (`EdgeHistories.BatchExactIff`).
- **The change log.** Under any interleaving of workers, keep-alives, expiries
  and failures, a current lease keeps everyone else out (`Turns.LeaseKept`), a
  cursor is saved only under the latest lease, and what is stored is the log's
  last word on each tree up to the stored position (`Turns.StoredStates`).
- **GitHub sync.** Pushes in any order, repeated or lost, with deletes,
  reconciles and lost state, leave each branch's tree the import of its stored
  head; an applied comparison equals the full import exactly when the stored
  tree was right outside the comparison's files.
- **Algorithms.** Printing and parsing of layer ids, the consistency hash and
  check, the chunk splitter, the sweeps over nested definitions, the parse
  cache and the trimming of reports.

Code that changes state step by step is a class or a method with loops
(`Graphs.Graph`, `Applier`, `Selecting`, `Cursors.MemCursors`, `Sync.Repo`,
`Edges.EdgeStore`, `Caches.MemoryCache`, `Chunks`, `Sweeps`, `Reports`), proved
against functions and predicates about which the lemmas speak. The several
workers of the change log are a transition system (`Turns`).

Parameters stand for what the model does not look into: a clock is an `int`,
the SHA-256 is any collision-free function, a language family's resolver, its
package keys and its scopes are fields of `Edges.Engine`, GitHub's trees are a
function from commits to trees, and content filters a predicate on paths and
blobs.

## Where the code and its documentation disagree

The model follows the code.

- `mind-palace/codeindex/apply.go:24-33` says a batch stopped part way is
  finished by the next turn, whose difference holds what is left. Two things
  break this. When a surviving layer moved to another parent, the put of its
  node makes the next turn see no move, and the `hiddenBy` lists below it stay
  as the old chains had them: `MovedOverlay` gives a scene in which an overlay
  then shows two files of one path however often the move is tried again. And
  when the next turn selects another target, because the edit to be written is
  gone or the trees changed, the lists the interrupted batch wrote stay
  wherever the new batch affects nothing: `RevertedEdit` gives a scene in which
  an overlay loses a base file to an edit that was reverted. The consistency
  check passes both graphs (`Checks.CheckMissesLists`,
  `Checks.CheckMissesRevert`).
- `mind-palace/codeindex/resolve.go:67-79` says each layer's edges cover the
  references its view resolves differently from the layer below. After a batch
  they may not, and may hold edges for references that are gone. A lower file
  that comes into a layer's view, in a new version, from under what hid it or
  because the layer moved, is resolved there only when it names a definition
  the layer shadows and was put or names one that changed
  (`Increments.OverlookedExact`). Overlooked, its edges are right if and only if
  those the layer still holds from it, whose target stays, are those it is to
  have (`Overlooks.KeptExact`): for a file out of the layer's shadow, none
  (`Overlooks.UnmentionedExact`); for one the layer moved over, shown in the
  same version before, when it was to have the same edges before
  (`Overlooks.MovedExact`). A file that was hidden may get back the edges of
  the time before; in a graph that was rebuilt meanwhile it is right if and
  only if it is to have none (`Overlooks.UnhiddenInPlan`). The scenes:
  - an overlay's version of a caller is reverted, and from rebuilt edges the
    overlay lacks the call from the base's (`EdgeScenes.RevertLosesEdge`), while
    a graph that was not rebuilt still has it (`EdgeScenes.HiddenEdgeIsKept`);
  - the base's caller no longer calls, and the overlay keeps the call
    (`EdgeScenes.QuietKeepsEdge`);
  - it stops calling while the overlay has its own version, every edge being
    exact, and the call comes back when that is reverted
    (`EdgeScenes.HiddenEdgeComesBack`);
  - an overlay moves over a branch, and lacks the call from the base to the
    branch's definition (`MovedEdges.MoveLosesEdge`).
- `mind-palace/ghsync/code.go:104-107` says stale state costs only full
  imports. A stored head older than its tree lets a comparison be applied to
  the wrong tree and a deleted file stays (`Comparisons.StaleHeadDiverges`);
  recovering heads from the log before any comparison is what prevents it.
- `mind-palace/collect/collect.go:113-117` says every section keeps its
  heading and short ones stay whole, and that a report is cut at the limit when
  its headings alone exceed it. The code cuts it as soon as no state of the
  halving fits, with all bodies short but still there: a 9-byte heading over a
  20-byte body is broken off at a limit of 10 (`Headings.HeadingFitsYetCut`).
  `Headings.UnbrokenExact` says exactly when a report is kept whole.

## Model

| member | source | states |
|---|---|---|
| LayerIds.PrintOfParse | mind-palace/codegraph/view.go:139-180 | every accepted layer id is the canonical spelling of a well-formed name |
| LayerIds.ParseOfPrint | mind-palace/codegraph/view.go:114-180 | a name survives printing then parsing exactly when it is well formed |
| LayerIds.PrintInjective | mind-palace/codegraph/view.go:120-150 | distinct well-formed base, branch and worktree names have distinct ids |
| LayerIds.MalformedNamesCollide | mind-palace/codegraph/view.go:120-124 | a commit holding '@' prints the id of another ref and commit, for any ref |
| Plans.ComputeAncestors | mind-palace/codeindex/apply.go:411-425 | the loop ends on every plan, cyclic ones included, with the chain of parents nearest first |
| Plans.AncestorsMeaning | mind-palace/codeindex/apply.go:411-425 | that chain is the parent, its parent and so on, and ends at a layer with none, one the plan does not hold or one met before |
| Plans.IndexPlan | mind-palace/codeindex/apply.go:395-409 | the index answers, for every two layers, whether one is below the other |
| Plans.ComputeHiddenBy | mind-palace/codeindex/apply.go:436-449 | from the index, exactly the layers above that hold the path |
| Plans.Diff | mind-palace/codeindex/layers.go:526-564 | the difference names each new, changed or moved layer with exactly its changed and vanished paths, and each layer dropped |
| Plans.EmptyDiff | mind-palace/codeindex/layers.go:517-564 | the difference is empty if and only if the plans agree on layers, nodes and compared file fields |
| Visibility.View | mind-palace/codeindex/layers.go:105-126 | a view exists if and only if the chain of parents reaches a bottom layer without a missing layer, a cycle or a malformed id; it is that chain, lowest first |
| Visibility.BuildView | mind-palace/codeindex/resolve.go:566-587 | the resolver's table holds exactly the paths whose highest holder in the chain is no tombstone, each with that holder |
| Visibility.FastVisibility | mind-palace/codegraph/view.go:85-106 | under computed hiddenBy lists a file passes the flat filter if and only if it is what walking the chain top-down shows |
| Visibility.OneFilePerPath | mind-palace/codegraph/view.go:85-106 | two files of one path visible in one view are in the same layer |
| Graphs.Graph.PutLayer | mind-palace/codegraph/graph.go:73-74 | the contract of the write: what is refused and the whole new state |
| Graphs.Graph.ApplyFile | mind-palace/codegraph/graph.go:81-89 | a file is replaced, a hiddenBy list not given is kept, an unknown layer refused |
| Graphs.Graph.RemoveFile | mind-palace/codegraph/graph.go:90-93 | a file goes, other layers' lists stay, a missing file is no error |
| Graphs.Graph.SetHidden | mind-palace/codegraph/graph.go:94-96 | one list is replaced, a missing file refused |
| Graphs.Graph.DropLayer | mind-palace/codegraph/graph.go:102-105 | a layer goes with its files and its id leaves every hiddenBy list |
| Graphs.PlanFromGraphHolds | mind-palace/codeindex/service.go:418-445 | what is read back of a graph has its nodes and its files and follows the ref of its base |
| Graphs.SettledUnique | mind-palace/codeindex/service.go:422-445 | a plan with its hiddenBy lists determines the graph |
| Batches.AfterHides | mind-palace/codeindex/apply.go:107-120 | a pass of hiddenBy writes changes those lists and nothing else |
| Batches.AfterFiles | mind-palace/codeindex/apply.go:122-140 | puts and removes bring the listed paths to the target and leave every other file alone |
| Batches.AfterDrops | mind-palace/codeindex/service.go:408-416 | drops remove the layers and their ids from every remaining list |
| Convergence.AfterBatch | mind-palace/codeindex/service.go:393-416 | after a whole batch the graph holds the target, each list right where the batch wrote it, else the old list less the dropped ids |
| Convergence.BatchExact | mind-palace/codeindex/apply.go:64-142 | a batch ends settled on its target if and only if every list it leaves alone was right but for dropped ids |
| Convergence.UnaffectedIsRight | mind-palace/codeindex/apply.go:70-105 | the affected set is complete: outside it only dropping layers changes a hiddenBy list |
| Convergence.BatchSettles | mind-palace/codeindex/service.go:393-416 | a batch takes a graph from settled on one plan to settled on the next, for any two plans |
| Convergence.NeverRefused | mind-palace/codegraph/graph.go:73-107 | no write of a batch is refused, at whatever point of it |
| Applier.FindAffected | mind-palace/codeindex/apply.go:70-105 | the loops collect exactly the keys below a layer whose change or move at the path matters |
| Applier.FindPending | mind-palace/codeindex/apply.go:107-114 | exactly the affected files that stay in place |
| Applier.Hide | mind-palace/codeindex/apply.go:107-120 | the pass writes each pending file's new list and nothing else |
| Applier.WriteFiles | mind-palace/codeindex/apply.go:122-142 | every changed path is brought to the target, with its list |
| Applier.WriteBatch | mind-palace/codeindex/service.go:393-416 | what write does is a batch of the two plans: nodes lowest first, lists, files, drops highest first |
| Applier.Turn | mind-palace/codeindex/service.go:235-308 | from any graph, one an interrupted turn left included, a turn ends holding its last selection, and settled on it if the graph was settled |
| Applier.Rebuild | mind-palace/codeindex/lifecycle.go:295-336 | dropping the graph and writing the selection settles it, whatever the graph held |
| Applier.HistorySettles | mind-palace/codeindex/service.go:235-308 | every history of batches settles the graph on its last plan |
| Applier.HistoryIsRebuild | mind-palace/codeindex/lifecycle.go:28-31 | every history of batches leaves the very graph a rebuild from the last plan writes |
| Reads.GraphShowsStack | mind-palace/codeindex/resolve.go:566-587 | reading a settled graph through the filter is reading the stack of the plan |
| Reads.ParentsAlwaysPresent | mind-palace/codeindex/service.go:393-416 | at every point of every batch, each layer node's parent is in the graph |
| Sessions.SessionReadsExact | mind-palace/codeindex/layers.go:182-302 | after any history of batches ending on the selection of some trees, overlays without files left out or not, a session reads its checkout at a path if and only if what lies below a clean pushed entry is that entry's id |
| Sessions.SessionReadsCheckout | mind-palace/codeindex/layers.go:182-302 | so with sources that agree and one that reports the entry |
| Crashes.CutStaysRecoverable | mind-palace/codeindex/apply.go:24-33 | a recoverable batch stopped after any prefix of its writes leaves a graph from which the same target is still recoverable |
| Crashes.RetryAfterPuts | mind-palace/codeindex/apply.go:24-33 | cut after the layer puts, the retry settles the graph if and only if the batch was recoverable |
| Crashes.UnmovedIsRecoverable | mind-palace/codeindex/apply.go:70-105 | a batch that moves no surviving layer's chain is recoverable |
| Attempts.ListAfterWrites | mind-palace/codeindex/apply.go:107-140 | after any part of a batch each file has its list of the target if the part wrote it, else its old one less the ids dropped |
| Attempts.RetriesExact | mind-palace/codeindex/service.go:260-308 | after attempts to any targets, each cut anywhere, a complete batch settles the graph if and only if every file it leaves alone was left with its target's list |
| Attempts.OtherTargetExact | mind-palace/codeindex/apply.go:24-33 | the same for one interrupted batch and a complete one to another target |
| Attempts.LeftIsOfPrev | mind-palace/codeindex/apply.go:70-105 | that is, if and only if it was left with its list of the plan read back, dropped ids aside |
| Attempts.SettledExact | mind-palace/codeindex/service.go:260-308 | after any attempts the graph is settled on what it holds if and only if each file's last list written is its list there |
| Attempts.SafeForAnyTarget | mind-palace/codeindex/apply.go:24-33 | every next batch, whatever its target, settles a graph if and only if the graph is settled on what it holds |
| Attempts.RetriesSettle | mind-palace/codeindex/apply.go:24-33 | after any number of attempts at one target cut anywhere, the first complete one settles a recoverable graph on it |
| RevertedEdit.RevertExact | mind-palace/codeindex/apply.go:107-120 | a batch cut among its hides whose target is reverted is made good if and only if no list it wrote differs from the one before; there is nothing to write back |
| RevertedEdit.RevertHides | mind-palace/codeindex/apply.go:107-120 | cut after its hides and reverted, a batch leaves each file it was to hide as it was to be hidden |
| RevertedEdit.SessionExists | mind-palace/codeindex/apply.go:24-33 | the scene of a reverted edit exists |
| RevertedEdit.RevertedEditHidesBase | mind-palace/codeindex/apply.go:24-33 | in it the overlay's view loses the base's file to an edit that is not there |
| MovedOverlay.SceneExists | mind-palace/codeindex/apply.go:24-33 | the scene of a moving overlay is made of valid plans |
| MovedOverlay.MoveIsNotRecoverable | mind-palace/codeindex/apply.go:24-33 | the move of that overlay is not recoverable |
| MovedOverlay.NodeMovesAreLost | mind-palace/codeindex/apply.go:70-105 | a batch that only moves nodes, cut after its puts, leaves the lists of the old chains, dropped ids aside, however often its target is tried again, cut or complete |
| MovedOverlay.MovedOverlayShowsTwoFiles | mind-palace/codeindex/apply.go:24-33 | the overlay then shows two files of one path however often the move is tried again |
| Orders.ArgMax | mind-palace/codeindex/layers.go:441-451 | over any order of the keys, the unique most counted string, the smallest on a tie |
| Orders.StrTotal | mind-palace/codeindex/layers.go:441-451 | the string order behind every tie break is total and strict |
| Orders.StrLessMeaning | mind-palace/codeindex/layers.go:441-451 | one string comes before another if and only if it ends or has the smaller byte where they first part |
| Knowledge.PushedKnowledge | mind-palace/codeindex/layers.go:380-418 | the loops over sources and entries count, per path, what the sources report |
| Knowledge.ResolveMeaning | mind-palace/codeindex/layers.go:419-439 | a path is present if and only if a source reports its id, with an id reported; unknown if and only if none does and one holds it unpushed |
| Knowledge.ResolveAgreed | mind-palace/codeindex/layers.go:419-439 | sources that agree on an id resolve to it |
| Reporting.OidsAreReports | mind-palace/codeindex/layers.go:380-417 | an id is counted as often as trees report it, and its sample is the first tree's entry |
| Reporting.BlobsAreSent | mind-palace/codeindex/layers.go:380-417 | a blob is counted as often as clean trees sent it for the id, and its sample is the first one's entry |
| Reporting.PushedFileMeaning | mind-palace/codeindex/layers.go:418-439 | a present path has the id most trees report and the blob most clean trees sent for it, the smallest on a tie, with language, mode and size of the first entry that has them |
| Trees.LiveTreesUnordered | mind-palace/codeindex/layers.go:182-200 | the trees selection works on do not depend on the order they come in |
| Sources.LiveMeaning | mind-palace/codeindex/layers.go:182-193 | exactly the trees of worktrees not removed that have a ref and an entry, by worktree and ref |
| Sources.DefaultBranchMeaning | mind-palace/codeindex/layers.go:304-323 | the base follows the first GitHub tree's word, else the branch most worktrees report, the smallest on a tie, none when none reports one |
| Trees.NewestIsNewest | mind-palace/codeindex/layers.go:169-177 | the scan picks a candidate none is newer than, newer being a strict total order on one ref |
| Sources.NewestMeaning | mind-palace/codeindex/layers.go:169-177 | that candidate has the largest upstreamSeq of all, among those the largest last change, among those the smallest worktree id |
| Trees.BaseSourcesAgree | mind-palace/codeindex/layers.go:325-359 | the base's sources are trees of the default branch at one pushed commit |
| Selection.SelectedUnordered | mind-palace/codeindex/layers.go:182-302 | any order of the same trees selects the same plan |
| Sources.LayersMeaning | mind-palace/codeindex/layers.go:197-302 | a selection has a layer for the base, for each accepted ref and commit a tree is pushed on off the default branch, and for each client tree with an accepted id, and no other |
| Sources.BaseMeaning | mind-palace/codeindex/layers.go:325-359 | there is a base if and only if some tree on the default branch has a pushed commit; it is at the commit of the one whose upstream was seen last, GitHub's before clients', and its sources are that tree alone or all clients at that commit |
| Sources.BaseSourcesSorted | mind-palace/codeindex/layers.go:325-359 | the base's sources come by worktree and ref, which is what first means among them |
| Sources.BaseFilesMeaning | mind-palace/codeindex/layers.go:197-215 | the base holds at each path what its sources say is there |
| Sources.BranchMeaning | mind-palace/codeindex/layers.go:217-259 | a branch layer's node, its sources (GitHub's tree if it is on the commit, else every tree on it) and its file at each path: theirs where it differs from the base's, a tombstone where they lack it |
| Sources.OverlayMeaning | mind-palace/codeindex/layers.go:261-302 | an overlay's node, parent and owner, and its file at each path: the entry itself if dirty or unpushed, a tombstone for what is shown below and not in the checkout |
| Selecting.Select | mind-palace/codeindex/layers.go:182-302 | the loops of Select, over maps met in any order, compute that plan |
| Checkouts.SelectedIsValid | mind-palace/codeindex/layers.go:182-302 | every selection is a plan batches accept, each layer on one of a lower kind |
| Checkouts.BranchIsExact | mind-palace/codeindex/layers.go:229-259 | over the base a path is visible if and only if the sources resolve it present, or unknown with the base having it; no file repeats the base's id, no tombstone covers nothing |
| Checkouts.OverlayIsExact | mind-palace/codeindex/layers.go:260-302 | an overlay shows a checkout's path as the checkout has it if and only if what lies below a clean pushed entry is that entry's id |
| Checkouts.CheckoutReconstructed | mind-palace/codeindex/layers.go:182-302 | with sources that agree and one that reports the entry, the overlay's view is the checkout at every path |
| Idle.DropIdleOverlays | mind-palace/codeindex/lifecycle.go:67-91 | left out are exactly the overlays without files of worktrees with no activity in the idle period, and none when it is not positive |
| Idle.OtherLayersStay | mind-palace/codeindex/lifecycle.go:67-70 | leaving out empty overlays changes no other layer's chain, files or hiddenBy lists |
| Idle.ViewStays | mind-palace/codeindex/lifecycle.go:67-70 | and every layer left in has its view, showing what it showed |
| Hashes.StreamInjective | mind-palace/codeindex/lifecycle.go:93-111 | the bytes hashed tell any two lists of NUL-free records apart, whatever their lengths |
| Hashes.NulCollides | mind-palace/codeindex/lifecycle.go:93-111 | with a NUL in a field they do not |
| Hashes.FilesHash | mind-palace/codeindex/lifecycle.go:96-111 | sorting by path and hashing gives the hash of the one sorted list of the files |
| Hashes.HashTellsFiles | mind-palace/codeindex/lifecycle.go:93-111 | two layers' hashes are equal if and only if Diff would find nothing to write |
| Checks.CompareLayers | mind-palace/codeindex/lifecycle.go:444-475 | the graph is found consistent if and only if the difference to write is empty, each layer's check right by itself |
| Checks.ConsistentHolds | mind-palace/codeindex/lifecycle.go:396-440 | the difference from the graph read back is empty if and only if the graph holds the selection's nodes and files |
| Checks.Check | mind-palace/codeindex/lifecycle.go:396-442 | a graph behind its log or consistent is not written; a repaired one holds the selection, and is settled if and only if the lists left alone were right |
| Checks.CheckMissesLists | mind-palace/codeindex/lifecycle.go:444-475 | the check passes a graph whose hiddenBy lists an interrupted move left wrong |
| Checks.CheckMissesRevert | mind-palace/codeindex/lifecycle.go:444-475 | and one whose lists an interrupted and reverted edit left wrong |
| ChangeLog.ConsumeAll | mind-palace/codeindex/service.go:260-340 | consuming changes one by one is the fold, and a tree not reported touched is as before |
| ChangeLog.AliveIsKnown | mind-palace/codeindex/service.go:310-340 | a tree is in the state if and only if the log changed it after its worktree's last tombstone |
| ChangeLog.UpstreamSeqIsRunStart | mind-palace/codeindex/service.go:310-340 | a tree's upstreamSeq is the first change of the current unbroken run of its upstream |
| ChangeLog.StateIsLastWord | mind-palace/codeindex/service.go:310-340 | a tree's head and position are those of the log's last change of it, its owner the last one named since the worktree's last tombstone |
| Cursors.MemCursors.Acquire | mind-palace/codeindex/cursor.go:141-162 | refused if and only if the lease has a token, has not expired and is another holder's; else a fresh token until now and ttl; other projects untouched |
| Cursors.MemCursors.Save | mind-palace/codeindex/cursor.go:164-195 | stored only under the current token before expiry, the lease then until now and ttl when ttl is positive; else nothing changes |
| Cursors.MemCursors.Release | mind-palace/codeindex/cursor.go:197-208 | a current lease is given up; releasing a lost one changes nothing |
| Turns.NextInv | mind-palace/codeindex/lifecycle.go:113-250 | every step keeps the stored cursor, and each turn's, the fold of the log up to its position |
| Turns.RunInv | mind-palace/codeindex/service.go:235-308 | so does every run, from any start |
| Turns.OneSaver | mind-palace/codeindex/cursor.go:164-195 | of any number of open turns at most one can save |
| Turns.NeverBack | mind-palace/codeindex/lifecycle.go:188-212 | without a delete the stored cursor never goes back |
| Turns.SaveUnderLatestLease | mind-palace/codeindex/cursor.go:141-207 | a save succeeds only for the turn that the latest granted acquire began, before its lease expires |
| Turns.StoredUpstreams | mind-palace/codeindex/service.go:260-340 | in every run the upstreams stored are the first changes of their current runs |
| Turns.StoredStates | mind-palace/codeindex/service.go:260-340 | in every run the states stored are the last words of the log up to the stored position on exactly the trees alive there |
| Turns.LeaseKept | mind-palace/codeindex/cursor.go:141-207 | in every run a current lease keeps its token and holder through every step but its holder's acquire, the end of its turn and a delete, and only a save of its turn moves its expiry |
| Turns.AcquireExact | mind-palace/codeindex/cursor.go:141-162 | in every run an acquire is granted if and only if no one else's lease is current, and starts from the stored cursor |
| Turns.ReadMeaning | mind-palace/codeindex/service.go:260-285 | the changes read are those after the position, in order, as many as there are up to the limit |
| Turns.ReadExact | mind-palace/codeindex/service.go:260-299 | a turn reads on from what it has read and not saved, else from its cursor, no more than the limit, and its state is then the fold up to there |
| Turns.SaveExact | mind-palace/codeindex/lifecycle.go:178-212 | a save stores what was read and a keep-alive the cursor as it stands, if and only if the lease is current; else the turn is over and nothing is stored |
| Edges.ResolveFile | mind-palace/codeindex/resolve.go:1285-1367 | the layer's edges from the file's symbols become those that differ from the view below, every other edge stays |
| Edges.ResolvesToShown | mind-palace/codeindex/resolve.go:763-856 | a reference resolves to a definition in a file the view shows |
| Targets.ResolveMeaning | mind-palace/codeindex/resolve.go:833-856 | for a filtered kind the target is the pick of the fitting definitions the first try keeps that keeps any, fallbacks apart; else of all the first try keeps that keeps any; none if and only if no try keeps one |
| Targets.ResolvesToFitting | mind-palace/codeindex/resolve.go:833-856 | where a definition of a fitting kind is kept, the target is of a fitting kind |
| Targets.FileInMeaning | mind-palace/codeindex/resolve.go:566-587 | a view resolves in exactly the versions it shows that have content and facts |
| Targets.WantsMeaning | mind-palace/codeindex/resolve.go:1285-1367 | a file's edges in a layer run from the definition around each reference to the one it resolves to, with its language's type, where the view below has the file and resolves it otherwise or not at all, or has not the file |
| Inheritance.SkipIsSound | mind-palace/codeindex/resolve.go:431-496 | a lower file that mentions no shadowed name resolves every reference as below and would store no edge |
| Inheritance.EdgesComplete | mind-palace/codeindex/resolve.go:285-385 | when every visible file is resolved or soundly skipped, each resolved reference of each view has a visible edge to exactly its target |
| Targets.HasEdgeMeaning | mind-palace/codeindex/resolve.go:285-385 | the edge a reference has is from the definition around it to its target, of its language's type, and in sight |
| Resolving.ResolveWithin | mind-palace/codeindex/resolve.go:364-383 | exactly the files in front that fit the budget, at least one, become resolved; the rest are carried in order, what is left of the budget and every other edge is given |
| Resolving.FitExact | mind-palace/codeindex/resolve.go:364-383 | as many files fit as have no more references in all than the budget, and the first in any case |
| Resolving.ResolveLayer | mind-palace/codeindex/resolve.go:431-496 | after a layer is resolved from nothing each file of its view is resolved or soundly skipped, other layers' work intact |
| Resolving.ResolveAll | mind-palace/codeindex/resolve.go:192-385 | resolving every layer from nothing leaves every reference of every view with its edge |
| Increments.SameDefinitions | mind-palace/codeindex/resolve.go:431-486 | a name no layer of a chain affected has the same definitions in the plan before and after |
| Increments.SameEdges | mind-palace/codeindex/resolve.go:1285-1367 | a file shown before and after in one version, naming nothing affected, has the same edges |
| Increments.ShadowMeaning | mind-palace/codeindex/resolve.go:465-486 | a layer shadows exactly the names any version, before or after, of a path it holds defines |
| Increments.AffectedMeaning | mind-palace/codeindex/resolve.go:271-291 | affected in a layer are exactly the names any version of a path put or removed in it or below it defines |
| Increments.FullMeaning | mind-palace/codeindex/resolve.go:213-241 | resolved completely are a layer's files put, or all when its chain of parents moved |
| Increments.TakenExact | mind-palace/codeindex/resolve.go:300-363 | a lower file is taken up if and only if it is carried, or put below or naming a changed definition and naming a shadowed one; skipping a layer skips none of these and no own file naming a changed definition |
| Increments.OverlookedExact | mind-palace/codeindex/resolve.go:336-363 | exactly which files that came into a layer's view a batch does not reach: unhidden, moved over or put, and out of its shadow or naming no changed definition |
| Increments.SteadyWants | mind-palace/codeindex/resolve.go:300-363 | a file shown before in the same version over the same chain, and not taken, is to have the edges it was to have |
| Increments.NewLayerWantsNone | mind-palace/codeindex/resolve.go:336-363 | in a new layer what is not taken is to have no edge |
| Increments.Untouched | mind-palace/codeindex/resolve.go:192-385 | a file neither taken nor overlooked keeps exactly its edges through a batch's file writes |
| Resolutions.LeftShrinks | mind-palace/codeindex/resolve.go:364-383 | of a layer's dependents at least one is resolved, and all when their references fit the budget |
| Resolutions.ResolveLayerBatch | mind-palace/codeindex/resolve.go:284-383 | a layer's changed files and the dependents that fit, in order of path, get exactly their edges, every other edge stays |
| Resolutions.ResolveBatch | mind-palace/codeindex/resolve.go:192-385 | the edges after a batch are those before with exactly the taken files that are not carried resolved; what is carried is what did not fit, layers in the plan's order and files in order of path, never all dependents of a layer, none when all references fit |
| Draining.CarriedShrinks | mind-palace/codeindex/resolve.go:364-383 | in one batch a layer comes to carry none, or fewer files than it carried and got |
| Draining.CarriedDrains | mind-palace/codeindex/resolve.go:70-77 | over any batches: after as many that write anything as a layer carried at first and got since, it has carried nothing at some point |
| ExactEdges.LayeredHasView | mind-palace/codeindex/layers.go:105-126 | every layer of a layered plan has a view, over layers of lower kinds |
| ExactEdges.ReferenceHasEdge | mind-palace/codeindex/resolve.go:67-79 | where edges are exact each resolved reference of a view has a visible edge to exactly its target |
| ExactEdges.EdgeIsRight | mind-palace/codeindex/resolve.go:67-79 | and each visible edge stands for a reference of its file that its layer's view resolves to its target |
| ExactEdges.PlanIsExact | mind-palace/codeindex/resolve.go:67-79 | the edges a plan's views resolve to, and no others, are exact |
| EdgeHistories.BatchTells | mind-palace/codeindex/resolve.go:192-385 | from any edges, of the files a batch does not carry those it loses have wrong edges after it and all others exactly theirs |
| EdgeHistories.DropsCommute | mind-palace/codeindex/service.go:393-416 | dropping layers after the resolution, as the source does, leaves the edges that dropping them before would |
| EdgeHistories.NothingTells | mind-palace/codeindex/service.go:393-396 | a selection that changes nothing is neither written nor resolved, and right and wrong edges stay so |
| EdgeHistories.ResolveRound | mind-palace/codeindex/resolve.go:168-175 | file writes then resolution are one step of a history, with what is carried and lost |
| EdgeHistories.HistoryIsExact | mind-palace/codeindex/resolve.go:192-385 | after any sequence of batches, of the files not carried the lost ones have wrong edges and all others exactly theirs |
| EdgeHistories.HistoryFromEmpty | mind-palace/codeindex/resolve.go:192-385 | from an empty graph, all edges but of what is carried are exact if and only if nothing else is lost |
| EdgeHistories.HistoryEdges | mind-palace/codeindex/resolve.go:192-385 | which edges the graph holds after any sequence of batches, from the plans and what was carried alone: those the last batch to resolve their source wrote, ends and layer in place since |
| EdgeHistories.ExactByHistory | mind-palace/codeindex/resolve.go:67-79 | so a file's edges are exact after a history if and only if those last written for it are the ones it resolves to |
| EdgeHistories.UntakenExact | mind-palace/codeindex/resolve.go:67-79 | after a batch a file it does not take has its edges if and only if it had them, and no others if and only if those that stay are they |
| EdgeHistories.BatchExactIff | mind-palace/codeindex/resolve.go:67-79 | from any edges that are exact but for what was carried, a batch leaves edges exact but for what it carries if and only if the edges of each file it overlooks are kept |
| Overlooks.KeptExact | mind-palace/codegraph/graph.go:81-89 | a file's edges are kept if and only if those the layer holds from its symbols, with a target that stays, are those its references are to have |
| Overlooks.UnmentionedExact | mind-palace/codeindex/resolve.go:336-363 | for a lower file out of the layer's shadow: if and only if none stays |
| Overlooks.MovedExact | mind-palace/codeindex/resolve.go:336-363 | for a file shown before in the same version, from any exact edges: if and only if it is to have what it was to have, but for edges whose target went |
| Overlooks.MovedUnmentioned | mind-palace/codeindex/resolve.go:336-363 | out of the layer's shadow such a file is right |
| Overlooks.UnhiddenInPlan | mind-palace/codeindex/resolve.go:336-363 | in a graph with the edges of its plan alone, a version not shown before is right if and only if its layer resolves no reference of it its own way |
| Overlooks.UnmentionedInPlan | mind-palace/codeindex/resolve.go:336-363 | there a file out of the layer's shadow is right if and only if no edge of the version shown before stays |
| EdgeScenes.SceneExists | mind-palace/codegraph/view.go:114-180 | the scene's layers have well-formed ids |
| EdgeScenes.RevertLosesEdge | mind-palace/codeindex/resolve.go:67-79 | an overlay's caller is reverted: its view resolves the base's call to its own callee and from rebuilt edges the batch leaves no such edge |
| EdgeScenes.QuietKeepsEdge | mind-palace/codeindex/resolve.go:67-79 | the base's caller stops calling: the overlay's view still shows the call |
| EdgeScenes.HiddenEdgeComesBack | mind-palace/codegraph/graph.go:81-89 | four batches from an empty graph: edges are exact after three, and the fourth reverts the overlay's caller and shows a call of a file that has none |
| EdgeScenes.HiddenEdgeIsKept | mind-palace/codegraph/graph.go:81-89 | three batches: the reverted caller is overlooked and has exactly its edges, from before it was hidden |
| MovedEdges.SceneExists | mind-palace/codegraph/view.go:114-180 | the scene's layers have well-formed ids |
| MovedEdges.MoveLosesEdge | mind-palace/codeindex/resolve.go:67-79 | an overlay moves over a branch in the graph, a base file shown in one version before and after resolves its call to the branch's definition there, and from any exact edges the batch leaves no such edge |
| Comparisons.BuildChange | mind-palace/ghsync/code.go:721-777 | a comparison is applied if and only if the commit's tree has each upserted path under the id last given for it |
| Comparisons.MatchesExact | mind-palace/ghsync/code.go:721-777 | by index: each rename and upsert that is the last of its path names a path the commit has under the id given there |
| Comparisons.ChangeMeaning | mind-palace/ghsync/code.go:721-777 | written are the kept paths renamed to or upserted; deleted every other storable path the comparison lists, previous names included |
| Comparisons.CompareExact | mind-palace/ghsync/code.go:721-777 | the result equals a full import if and only if the stored tree was the old import outside the comparison's files, rename swaps included |
| Comparisons.CompareIsImport | mind-palace/ghsync/code.go:721-777 | on the import of its before commit, a comparison gives the import of its after commit |
| Comparisons.RedeliveryIsHarmless | mind-palace/ghsync/code.go:691-777 | a comparison applied to the tree it led to changes nothing |
| Comparisons.StaleHeadDiverges | mind-palace/ghsync/code.go:104-107 | a comparison from a head older than the stored tree can leave a file no commit has |
| Sync.ComputeSeedHeads | mind-palace/ghsync/code.go:383-417 | the loop recovers the heads the log gives back, tombstones of refs and of the worktree included |
| Sync.SeedIsLastWord | mind-palace/ghsync/code.go:383-417 | a branch gets a head back if and only if the log's last word on it is a commit, and then that commit |
| Sync.RemovalExact | mind-palace/ghsync/code.go:399-400 | a worktree removed from the store leaves the heads right if and only if no branch has one |
| Sync.Repo.SyncPush | mind-palace/ghsync/code.go:672-719 | whatever was stored, an allowed push that can be stored brings its branch to its commit by one change, a comparison if and only if it is not forced, goes on from the head stored or recovered and GitHub's comparison can be applied, else a full import; other trees untouched, any other push leaves every tree; the state is saved |
| Sync.Repo.ApplyCompare | mind-palace/ghsync/code.go:721-777 | either the branch moves to the commit's full import or nothing is written |
| Sync.Repo.SyncTip | mind-palace/ghsync/service.go:230-297 | a branch created or opened is brought to its tip where allowed, other trees untouched |
| Sync.Repo.DeleteBranch | mind-palace/ghsync/code.go:846-866 | the branch's head and tree go, the others stay |
| Sync.Repo.SyncBranches | mind-palace/ghsync/code.go:870-940 | without a tip of the default branch nothing changes; else each active branch, or the one asked for, ends at its tip where code is allowed, every other branch GitHub has keeps its tree and its known or recovered head, and a full run deletes exactly those GitHub lost |
| Sync.Deliver | mind-palace/ghsync/code.go:640-940 | after any events in any order each stored head is the commit its branch's tree is the import of |
| Texts.NewLineIndex | mind-palace/codeparse/text.go:77-92 | the index lists exactly the line starts |
| Texts.RuneLengthMeaning | mind-palace/codeparse/chunk.go:76-81 | runes are the byte sequences of section 4 of RFC 3629 |
| Texts.SplitUtf8 | mind-palace/codeparse/chunk.go:71-80 | valid UTF-8 cut at a rune start is valid on both sides |
| Chunks.FindCut | mind-palace/codeparse/chunk.go:66-81 | the furthest preferred boundary that fits, else the furthest line start, else the furthest rune start or one byte |
| Chunks.SplitSpan | mind-palace/codeparse/chunk.go:52-92 | the loop ends with parts that start, end and follow each other as splitSpan promises |
| Chunks.PartsTile | mind-palace/codeparse/chunk.go:52-92 | the parts with the newlines left out at cuts put back are the span |
| Chunks.PartsAreBounded | mind-palace/codeparse/chunk.go:52-65 | no part's text exceeds a chunk, or its prefix and the least room |
| Chunks.WholeExact | mind-palace/codeparse/chunk.go:52-65 | a span is one part if and only if it fits a chunk |
| Chunks.CutMeaning | mind-palace/codeparse/chunk.go:52-92 | a part is cut only where more is left than its room, what the signature leaves of a chunk and at least 256 bytes, and at the best place within it |
| Chunks.PartsAreUtf8 | mind-palace/codeparse/chunk.go:76-81 | on valid UTF-8 no part splits a rune |
| Sweeps.DropDuplicates | mind-palace/codeparse/extract.go:819-829 | each definition two patterns matched is kept once, as first matched, in order |
| Sweeps.SetContainers | mind-palace/codeparse/extract.go:830-842 | the sweep gives each definition the last-sorted one strictly containing it, or none |
| Sweeps.ContainerIsInnermost | mind-palace/codeparse/extract.go:830-842 | a non-empty definition's container lies inside every other one that contains it |
| Sweeps.SetEnclosing | mind-palace/codeparse/extract.go:1262-1282 | the sweep gives each reference the last-sorted definition around it, or none |
| Sweeps.EnclosingIsInnermost | mind-palace/codeparse/extract.go:1235-1282 | that definition lies inside every other one around the reference |
| Recency.HeldByDistance | mind-palace/codeparse/cache.go:83-142 | a key is held if and only if it was written and fewer others than the capacity were used since its last use |
| Recency.HeldCount | mind-palace/codeparse/cache.go:97-100 | as many keys are held as were written, up to the capacity |
| Caches.MemoryCache.Get | mind-palace/codeparse/cache.go:102-117 | a hit, exactly for a held key, returns what was last written; list and map stay in bijection |
| Caches.MemoryCache.Put | mind-palace/codeparse/cache.go:120-142 | the cache holds what its history says after every write, evictions included |
| Reports.Capped | mind-palace/collect/collect.go:113-149 | ends on every report with at most max bytes: the first longest body is halved at a line break and marked only while the report is too long and a long body is left, then the rest is cut off |
| Reports.RenderMeaning | mind-palace/collect/collect.go:97-112 | a report is its sections in order with a blank line between |
| Reports.BlockMeaning | mind-palace/collect/collect.go:97-112 | each its heading and its body without the newlines at the end, and nothing else left out |
| Reports.FittingIsWhole | mind-palace/collect/collect.go:121-125 | a report that fits is returned untouched |
| Reports.TrimmingShortens | mind-palace/collect/collect.go:113-117 | whatever is trimmed keeps every name and every short body, a cut body begins as it did, and no body longer than a cut one stays whole |
| Reports.CutMakesProgress | mind-palace/collect/collect.go:126-144 | each cut lowers the bytes of the bodies or, at equal bytes, the number of unmarked ones |
| Reports.CutNeedNotShorten | mind-palace/collect/collect.go:126-144 | an unmarked body cut without a line break stays as long as it was if and only if it has 27 or 28 bytes |
| Reports.ShortReportIsCutAtMax | mind-palace/collect/collect.go:113-149 | a report of short bodies is returned whole if it fits, else cut at max wherever that falls |
| Headings.UnbrokenExact | mind-palace/collect/collect.go:113-149 | a report of any bodies comes out unbroken if and only if some state it passes through, halved to the end, fits |
| Headings.TrailExists | mind-palace/collect/collect.go:126-144 | every report can be halved to the end |
| Headings.UnbrokenKeepsHeadings | mind-palace/collect/collect.go:113-117 | unbroken, it has every heading and its short bodies whole |
| Headings.FloorSuffices | mind-palace/collect/collect.go:113-117 | a limit with room for every heading and the short ends of the bodies keeps every heading |
| Headings.FloorMeaning | mind-palace/collect/collect.go:113-117 | that limit is 9 bytes and the name for each heading, 2 between sections and at most 26 of each body |
| Headings.LeastLimit | mind-palace/collect/collect.go:113-149 | when no long body ends in a newline, a report comes out unbroken if and only if its fully halved form fits |
| Headings.ShortKeptExact | mind-palace/collect/collect.go:113-117 | a report of short bodies keeps its headings if and only if it fits whole |
| Headings.HeadingFitsYetCut | mind-palace/collect/collect.go:113-117 | a heading that fits is lost over a short body |

## Left out

- Graphs.Graph.ApplyFile: does not model symbols, chunks, packages and structural edges of a file, nor path validation; a stored file is its blob, git blob id, tombstone flag and hiddenBy list, the fields selections compare.
- Graphs.Graph.RemoveFile: leaves out the symbols, chunks and edges that go with the file.
- Graphs.Graph.DropLayer: leaves out the symbols, chunks, packages and edges that go with the layer.
- Checks.Check: does not take the lease, which is part of `Turns`.
- Plans.ComputeHiddenBy: gives a set where the source gives a sorted list.
- Plans.Diff: plans and file lists are maps, as their keys are unique and the lists sorted; the order of a difference's layers appears only where batches write by rank.
- Crashes.CutStaysRecoverable: speaks of the target the batch had; other targets are the subject of `Attempts`.
- Applier.Turn: backend errors and cancelled contexts are cuts (`Crashes`), not error values; parsing, redaction and the retries of a parse are left out.
- Turns.NextInv: tokens are a counter where the source draws them at random; graph writes are no steps of this system, since a lease fences cursor saves and not graph writes.
- Resolving.ResolveLayer: resolves a layer from nothing; the work of one batch is `Resolutions.ResolveLayerBatch`.
- Resolving.ResolveAll: resolves every layer from nothing; one batch is `Resolutions.ResolveBatch`.
- Resolutions.ResolveBatch: a run that fails and keeps its work is left out, as are packages and scopes that change without their names and imports that rename; what file writes remove of the edges is given, as the edges of endpoints that stay.
- Edges.ResolveFile: the language families, the ranking of candidates and scopes are parameters of the engine with the dependence the source documents; an edge's confidence, count and line and refused edge writes are left out.
- Inheritance.SkipIsSound: package keys and scopes are the same in both views and imports rename nothing.
- Sync.Repo.SyncPush: content filtering, redaction, submodules and truncated tree listings are behind a fixed predicate on paths and blobs; tree commit and state save are one step; the branch policy and the inactive mark are the `allowed` flag.
- Sync.Deliver: a worktree removed from the store while its sync state is kept is no event, since heads would be left without trees (`Sync.RemovalExact`).
- Sweeps.SetContainers: sorting is the library's and enters as a precondition; receivers, qualified names and ids are left out.
- Sweeps.SetEnclosing: references come in order of position; dropping duplicate references is left out.
- Chunks.SplitSpan: which boundaries are preferred, gap chunks and text windows are left out.
- Caches.MemoryCache.Get: copies of facts are values; the mutex is left out, and so is the resolver's own cache of the same shape.
- Idle.DropIdleOverlays: a worktree's last activity is given rather than computed from its sessions.
- MongoDB and FalkorDB adapters: the in-memory cursor store and the documented graph contract stand for them.
- Queries of the graph (search, outlines, relations, limits): they only read what the visibility results are about.
- HTTP, webhooks, command line, configuration, hooks and documents: flag wiring and input or output.
