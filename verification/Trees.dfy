/**
 * The live trees of a project in canonical order, the branch the base follows
 * and the trees it is built from (codeindex/layers.go).
 */
module Trees {
  import opened Orders
  import opened Knowledge

  /** Removed worktrees and empty trees are ignored. */
  predicate Live(t: Tree) {
    !t.worktree.removed && t.worktree.id != "" && t.state.ref != "" && t.entries != map[]
  }

  predicate SameKey(a: Tree, b: Tree) {
    a.worktree.id == b.worktree.id && a.state.ref == b.state.ref
  }

  /** By worktree, then ref. */
  predicate TreeLess(a: Tree, b: Tree) {
    StrLess(a.worktree.id, b.worktree.id)
    || (a.worktree.id == b.worktree.id && StrLess(a.state.ref, b.state.ref))
  }

  predicate DistinctKeys(ts: seq<Tree>) {
    forall i, j :: 0 <= i < j < |ts| ==> !SameKey(ts[i], ts[j])
  }

  predicate StrictlySorted(ts: seq<Tree>) {
    forall i, j :: 0 <= i < j < |ts| ==> TreeLess(ts[i], ts[j])
  }

  function Filter(ts: seq<Tree>, keep: Tree -> bool): (r: seq<Tree>)
    ensures forall t :: t in r <==> t in ts && keep(t)
  {
    if ts == [] then []
    else
      var rest := Filter(ts[..|ts| - 1], keep);
      if keep(ts[|ts| - 1]) then rest + [ts[|ts| - 1]] else rest
  }

  function Insert(t: Tree, ts: seq<Tree>): (r: seq<Tree>)
    ensures forall u :: u in r <==> u == t || u in ts
  {
    if ts == [] || TreeLess(t, ts[0]) then [t] + ts else [ts[0]] + Insert(t, ts[1..])
  }

  function Sorted(ts: seq<Tree>): (r: seq<Tree>)
    ensures forall u :: u in r <==> u in ts
  {
    if ts == [] then [] else Insert(ts[0], Sorted(ts[1..]))
  }

  /** The trees selection works on. */
  function LiveTrees(trees: seq<Tree>): seq<Tree> {
    Sorted(Filter(trees, Live))
  }

  lemma TreeTotal(a: Tree, b: Tree)
    ensures TreeLess(a, b) || TreeLess(b, a) || SameKey(a, b)
    ensures !(TreeLess(a, b) && TreeLess(b, a))
    ensures SameKey(a, b) ==> !TreeLess(a, b)
  {
    StrTotal(a.worktree.id, b.worktree.id);
    StrTotal(a.state.ref, b.state.ref);
  }

  lemma TreeTransitive(a: Tree, b: Tree, c: Tree)
    requires TreeLess(a, b) && TreeLess(b, c)
    ensures TreeLess(a, c)
  {
    StrTotal(a.worktree.id, a.worktree.id);
    if a.worktree.id != b.worktree.id && b.worktree.id != c.worktree.id {
      StrTransitive(a.worktree.id, b.worktree.id, c.worktree.id);
    }
    if a.worktree.id == b.worktree.id == c.worktree.id {
      StrTransitive(a.state.ref, b.state.ref, c.state.ref);
    }
  }

  lemma {:induction false} InsertSorted(t: Tree, ts: seq<Tree>)
    requires StrictlySorted(ts) && forall u :: u in ts ==> !SameKey(t, u)
    ensures StrictlySorted(Insert(t, ts))
  {
    if ts == [] {
    } else if TreeLess(t, ts[0]) {
      forall i | 0 < i < |ts| ensures TreeLess(t, ts[i]) { TreeTransitive(t, ts[0], ts[i]); }
    } else {
      TreeTotal(t, ts[0]);
      assert ts[0] in ts;
      assert TreeLess(ts[0], t);
      assert forall u :: u in ts[1..] ==> u in ts;
      InsertSorted(t, ts[1..]);
      var r := Insert(t, ts[1..]);
      forall j | 0 <= j < |r| ensures TreeLess(ts[0], r[j]) {
        assert r[j] in r;
        if r[j] != t {
          var m :| 0 <= m < |ts[1..]| && ts[1..][m] == r[j];
          assert ts[1..][m] == ts[m + 1];
        }
      }
    }
  }

  lemma {:induction false} SortedIsSorted(ts: seq<Tree>)
    requires DistinctKeys(ts)
    ensures StrictlySorted(Sorted(ts))
  {
    if ts != [] {
      SortedIsSorted(ts[1..]);
      forall u | u in Sorted(ts[1..]) ensures !SameKey(ts[0], u) {
        var m :| 0 <= m < |ts[1..]| && ts[1..][m] == u;
        assert ts[m + 1] == u;
      }
      InsertSorted(ts[0], Sorted(ts[1..]));
    }
  }

  lemma {:induction false} FilterDistinct(ts: seq<Tree>, keep: Tree -> bool)
    requires DistinctKeys(ts)
    ensures DistinctKeys(Filter(ts, keep))
  {
    if ts != [] {
      var pre, last := ts[..|ts| - 1], ts[|ts| - 1];
      FilterDistinct(pre, keep);
      forall u | u in Filter(pre, keep) ensures !SameKey(u, last) {
        var m :| 0 <= m < |pre| && pre[m] == u;
        assert ts[m] == u;
      }
    }
  }

  /** A strictly sorted list is determined by its elements. */
  lemma {:induction false} SortedUnique(a: seq<Tree>, b: seq<Tree>)
    requires StrictlySorted(a) && StrictlySorted(b)
    requires forall t :: t in a <==> t in b
    ensures a == b
  {
    assert a != [] ==> a[0] in b;
    assert b != [] ==> b[0] in a;
    if a != [] {
      SmallestFirst(a, b);
      forall t ensures t in a[1..] <==> t in b[1..] {
        TailMembers(a, t);
        TailMembers(b, t);
      }
      SortedUnique(a[1..], b[1..]);
      assert a == [a[0]] + a[1..] && b == [b[0]] + b[1..];
    }
  }

  lemma SmallestFirst(a: seq<Tree>, b: seq<Tree>)
    requires StrictlySorted(a) && StrictlySorted(b) && a != [] && b != []
    requires forall t :: t in a <==> t in b
    ensures a[0] == b[0]
  {
    assert a[0] in b && b[0] in a;
    var i :| 0 <= i < |a| && a[i] == b[0];
    var j :| 0 <= j < |b| && b[j] == a[0];
    TreeTotal(a[0], b[0]);
  }

  lemma TailMembers(a: seq<Tree>, t: Tree)
    requires StrictlySorted(a) && a != []
    ensures t in a[1..] <==> t in a && t != a[0]
  {
    if t in a[1..] {
      var m :| 0 <= m < |a[1..]| && a[1..][m] == t;
      assert TreeLess(a[0], a[m + 1]);
      TreeTotal(a[0], a[0]);
    }
    assert a == [a[0]] + a[1..];
  }

  /** The trees selection works on do not depend on the order they come in. */
  lemma LiveTreesUnordered(a: seq<Tree>, b: seq<Tree>)
    requires DistinctKeys(a) && DistinctKeys(b)
    requires forall t :: t in a <==> t in b
    ensures LiveTrees(a) == LiveTrees(b)
  {
    FilterDistinct(a, Live);
    FilterDistinct(b, Live);
    SortedIsSorted(Filter(a, Live));
    SortedIsSorted(Filter(b, Live));
    SortedUnique(LiveTrees(a), LiveTrees(b));
  }

  // ----- the branch the base follows

  /** The commit a tree's clean, pushed entries are at. */
  function PushedCommit(t: Tree): string {
    if t.state.upstream != "" then t.state.upstream
    else if t.worktree.github then t.state.head
    else ""
  }

  /** The first GitHub tree's default branch. */
  function GitHubDefault(live: seq<Tree>): string {
    if live == [] then ""
    else if live[0].worktree.github && live[0].worktree.defaultBranch != "" then live[0].worktree.defaultBranch
    else GitHubDefault(live[1..])
  }

  /** The worktrees of live that report a default branch, each once. */
  function Voters(live: seq<Tree>): set<string> {
    set t | t in live && t.worktree.defaultBranch != "" :: t.worktree.id
  }

  /** One vote per worktree, that of its first tree reporting a branch. */
  function Votes(live: seq<Tree>): map<string, nat> {
    if live == [] then map[]
    else
      var pre, t := live[..|live| - 1], live[|live| - 1];
      if t.worktree.defaultBranch == "" || t.worktree.id in Voters(pre) then Votes(pre)
      else Votes(pre)[t.worktree.defaultBranch := Count(Votes(pre), t.worktree.defaultBranch) + 1]
  }

  ghost function DefaultBranch(live: seq<Tree>): string {
    if GitHubDefault(live) != "" then GitHubDefault(live) else Best(Votes(live))
  }

  lemma {:induction false} VotesCounted(live: seq<Tree>)
    ensures forall b :: b in Votes(live) ==> Votes(live)[b] > 0
  {
    if live != [] { VotesCounted(live[..|live| - 1]); }
  }

  method ComputeDefaultBranch(live: seq<Tree>) returns (def: string)
    ensures def == DefaultBranch(live)
  {
    def := "";
    var i := 0;
    while i < |live|
      invariant 0 <= i <= |live| && def == ""
      invariant GitHubDefault(live) == GitHubDefault(live[i..])
    {
      if live[i].worktree.github && live[i].worktree.defaultBranch != "" {
        return live[i].worktree.defaultBranch;
      }
      assert live[i..][1..] == live[i + 1..];
      i := i + 1;
    }
    var votes: map<string, nat> := map[];
    var seen: set<string> := {};
    i := 0;
    while i < |live|
      invariant 0 <= i <= |live|
      invariant votes == Votes(live[..i]) && seen == Voters(live[..i])
    {
      var t := live[i];
      assert live[..i + 1] == live[..i] + [t];
      if t.worktree.id !in seen && t.worktree.defaultBranch != "" {
        votes := votes[t.worktree.defaultBranch := Count(votes, t.worktree.defaultBranch) + 1];
        seen := seen + {t.worktree.id};
      }
      i := i + 1;
    }
    assert live[..|live|] == live;
    VotesCounted(live);
    def := ArgMax(votes);
    if votes != map[] { BestUnique(votes, def, Best(votes)); }
  }

  // ----- the trees the base is built from

  /** a's upstream was seen after b's, then its last change was, then its worktree id is smaller. */
  predicate Newer(a: Tree, b: Tree) {
    if a.state.upstreamSeq != b.state.upstreamSeq then a.state.upstreamSeq > b.state.upstreamSeq
    else if a.state.lastSeq != b.state.lastSeq then a.state.lastSeq > b.state.lastSeq
    else StrLess(a.worktree.id, b.worktree.id)
  }

  predicate Candidate(t: Tree, def: string, github: bool) {
    t.state.ref == def && PushedCommit(t) != "" && t.worktree.github == github
  }

  function Candidates(live: seq<Tree>, def: string): seq<Tree> {
    var gh := Filter(live, t => Candidate(t, def, true));
    if gh != [] then gh else Filter(live, t => Candidate(t, def, false))
  }

  /** The scan for the newest candidate, one tree at a time. */
  function Newest(cands: seq<Tree>): (t: Tree)
    requires cands != []
    ensures t in cands
  {
    var last := cands[|cands| - 1];
    if |cands| == 1 then last
    else
      var best := Newest(cands[..|cands| - 1]);
      if Newer(last, best) then last else best
  }

  lemma NewerTransitive(a: Tree, b: Tree, c: Tree)
    requires Newer(a, b) && Newer(b, c)
    ensures Newer(a, c)
  {
    if StrLess(a.worktree.id, b.worktree.id) && StrLess(b.worktree.id, c.worktree.id) {
      StrTransitive(a.worktree.id, b.worktree.id, c.worktree.id);
    }
  }

  lemma NewerTotal(a: Tree, b: Tree)
    ensures !(Newer(a, b) && Newer(b, a))
    ensures Newer(a, b) || Newer(b, a) || a.worktree.id == b.worktree.id
  {
    StrTotal(a.worktree.id, b.worktree.id);
  }

  /** No candidate is newer than the one the scan picks: on one ref Newer is a strict total order. */
  lemma {:induction false} NewestIsNewest(cands: seq<Tree>)
    requires cands != []
    ensures forall t :: t in cands ==> !Newer(t, Newest(cands))
  {
    var pre, last := cands[..|cands| - 1], cands[|cands| - 1];
    forall t | t in cands ensures !Newer(t, Newest(cands)) {
      NewerTotal(t, Newest(cands));
      NewerTotal(t, t);
      if |cands| > 1 {
        NewestIsNewest(pre);
        assert t in pre || t == last;
        if t in pre && Newer(last, Newest(pre)) && Newer(t, last) {
          NewerTransitive(t, last, Newest(pre));
        }
      }
    }
  }

  /** The base's source trees: the newest GitHub tree alone, else every client tree at the newest's commit. */
  function BaseSources(live: seq<Tree>, def: string): seq<Tree> {
    var cands := Candidates(live, def);
    if def == "" || cands == [] then []
    else if Newest(cands).worktree.github then [Newest(cands)]
    else
      var commit := PushedCommit(Newest(cands));
      Filter(cands, t => PushedCommit(t) == commit)
  }

  function BaseCommit(live: seq<Tree>, def: string): string {
    if def == "" || Candidates(live, def) == [] then "" else PushedCommit(Newest(Candidates(live, def)))
  }

  lemma BaseSourcesAgree(live: seq<Tree>, def: string)
    ensures forall t :: t in BaseSources(live, def) ==>
              && t in live && t.state.ref == def && def != "" && PushedCommit(t) == BaseCommit(live, def)
    ensures BaseSources(live, def) == [] <==> (def == "" || Candidates(live, def) == [])
  {
    if def != "" && Candidates(live, def) != [] {
      var best := Newest(Candidates(live, def));
      assert best in Candidates(live, def);
      if !best.worktree.github { assert best in BaseSources(live, def); }
    }
  }

  method ComputeNewest(cands: seq<Tree>) returns (best: Tree)
    requires cands != []
    ensures best == Newest(cands)
  {
    best := cands[0];
    var i := 1;
    while i < |cands|
      invariant 1 <= i <= |cands| && best == Newest(cands[..i])
    {
      assert cands[..i + 1][..i] == cands[..i];
      if Newer(cands[i], best) { best := cands[i]; }
      i := i + 1;
    }
    assert cands[..|cands|] == cands;
  }
}
