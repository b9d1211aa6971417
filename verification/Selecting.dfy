/** Select, loop by loop, against the selection it computes (codeindex/layers.go). */
module Selecting {
  import opened Wrappers
  import opened Plans
  import opened Knowledge
  import opened Trees
  import opened Selection
  import opened Checkouts
  import LayerIds

  method ComputeBaseFiles(src: seq<Tree>) returns (files: map<Path, FileSource>)
    ensures files == BaseFiles(src)
  {
    files := map[];
    var know := PushedKnowledge(src);
    var todo := know.Keys;
    while todo != {}
      invariant todo <= know.Keys
      invariant files.Keys <= know.Keys - todo
      invariant forall p :: p in know && p !in todo ==> Lookup(files, p) == Lookup(BaseFiles(src), p)
      decreases todo
    {
      var p :| p in todo;
      KnowIsCounted(src, p);
      var st, f := ComputeResolve(know[p]);
      if st.Present? { files := files[p := f]; }
      todo := todo - {p};
    }
    forall p ensures Lookup(files, p) == Lookup(BaseFiles(src), p) {
    }
    SameLookups(files, BaseFiles(src));
  }

  lemma SameLookups(a: map<Path, FileSource>, b: map<Path, FileSource>)
    requires forall p :: Lookup(a, p) == Lookup(b, p)
    ensures a == b
  {
    forall p ensures p in a <==> p in b { assert Lookup(a, p) == Lookup(b, p); }
    forall p | p in a ensures a[p] == b[p] { assert Lookup(a, p) == Lookup(b, p); }
  }

  method ComputeBranchFiles(base: map<Path, FileSource>, src: seq<Tree>) returns (files: map<Path, FileSource>)
    ensures files == BranchFiles(base, src)
  {
    files := map[];
    var know := PushedKnowledge(src);
    var todo := know.Keys;
    while todo != {}
      invariant todo <= know.Keys && files.Keys <= know.Keys - todo
      invariant forall p :: p in know && p !in todo ==> Lookup(files, p) == BranchFileAt(base, src, p)
      decreases todo
    {
      var p :| p in todo;
      KnowIsCounted(src, p);
      var st, f := ComputeResolve(know[p]);
      if st.Present? && (p !in base || base[p].oid != f.oid) {
        files := files[p := f];
      } else if st.Absent? && p in base {
        files := files[p := TOMBSTONE];
      }
      todo := todo - {p};
    }
    var rest := base.Keys;
    while rest != {}
      invariant rest <= base.Keys && files.Keys <= know.Keys + (base.Keys - rest)
      invariant forall p :: p in know || p in base.Keys - rest ==> Lookup(files, p) == BranchFileAt(base, src, p)
      decreases rest
    {
      var p :| p in rest;
      if p !in know { files := files[p := TOMBSTONE]; }
      rest := rest - {p};
    }
    forall p ensures Lookup(files, p) == Lookup(BranchFiles(base, src), p) {
    }
    SameLookups(files, BranchFiles(base, src));
  }

  method ComputeStack(lower: map<Path, FileSource>, upper: map<Path, FileSource>) returns (out: map<Path, FileSource>)
    ensures out == Stack(lower, upper)
  {
    out := lower;
    var todo := upper.Keys;
    while todo != {}
      invariant todo <= upper.Keys
      invariant forall p :: Lookup(out, p) == if p in todo then Lookup(lower, p) else Lookup(Stack(lower, upper), p)
      decreases todo
    {
      var p :| p in todo;
      if upper[p].deleted { out := out - {p}; } else { out := out[p := upper[p]]; }
      todo := todo - {p};
    }
    SameLookups(out, Stack(lower, upper));
  }

  method ComputeOverlayFiles(t: Tree, below: map<Path, FileSource>) returns (files: map<Path, FileSource>)
    ensures files == OverlayFiles(t, below)
  {
    files := map[];
    var todo := t.entries.Keys;
    while todo != {}
      invariant todo <= t.entries.Keys && files.Keys <= t.entries.Keys - todo
      invariant forall p :: p in t.entries && p !in todo ==> Lookup(files, p) == Lookup(OverlayFiles(t, below), p)
      decreases todo
    {
      var p :| p in todo;
      var e := t.entries[p];
      if e.dirty || e.unpushed { files := files[p := Local(e)]; }
      todo := todo - {p};
    }
    var rest := below.Keys;
    while rest != {}
      invariant rest <= below.Keys && files.Keys <= t.entries.Keys + (below.Keys - rest)
      invariant forall p :: p in t.entries || p in below.Keys - rest ==> Lookup(files, p) == Lookup(OverlayFiles(t, below), p)
      decreases rest
    {
      var p :| p in rest;
      if p !in t.entries { files := files[p := TOMBSTONE]; }
      rest := rest - {p};
    }
    forall p ensures Lookup(files, p) == Lookup(OverlayFiles(t, below), p) {
    }
    SameLookups(files, OverlayFiles(t, below));
  }

  /** The trees of one pushed branch, by ref and commit. */
  method GroupTrees(live: seq<Tree>, def: string) returns (groups: map<(string, string), seq<Tree>>)
    ensures forall r, c :: (r, c) in groups <==> exists t :: t in live && OnBranch(t, def) && t.state.ref == r && PushedCommit(t) == c
    ensures forall r, c :: (r, c) in groups ==> groups[(r, c)] == Group(live, def, r, c)
  {
    groups := map[];
    var i := 0;
    while i < |live|
      invariant 0 <= i <= |live|
      invariant forall r, c :: (r, c) in groups <==>
                  exists t :: t in live[..i] && OnBranch(t, def) && t.state.ref == r && PushedCommit(t) == c
      invariant forall r, c :: (r, c) in groups ==> groups[(r, c)] == Group(live[..i], def, r, c)
    {
      var t := live[i];
      assert live[..i + 1] == live[..i] + [t] && live[..i + 1][..i] == live[..i];
      if OnBranch(t, def) {
        var k := (t.state.ref, PushedCommit(t));
        if k !in groups { NoGroup(live[..i], def, k.0, k.1); }
        groups := groups[k := (if k in groups then groups[k] else []) + [t]];
      }
      i := i + 1;
    }
    assert live[..|live|] == live;
  }

  lemma {:induction false} NoGroup(live: seq<Tree>, def: string, ref: string, commit: string)
    requires forall t :: t in live ==> !(OnBranch(t, def) && t.state.ref == ref && PushedCommit(t) == commit)
    ensures Group(live, def, ref, commit) == []
  {
    if live != [] { NoGroup(live[..|live| - 1], def, ref, commit); }
  }

  /** The layers of the selection filed under ids. */
  ghost predicate Files(live: seq<Tree>, layers: map<LayerId, LayerPlan>, ids: set<LayerId>) {
    layers.Keys == ids && forall id :: id in ids ==> layers[id] == LayerNamed(live, id)
  }

  lemma FilesMore(live: seq<Tree>, layers: map<LayerId, LayerPlan>, ids: set<LayerId>, id: LayerId)
    requires Files(live, layers, ids)
    ensures Files(live, layers[id := LayerNamed(live, id)], ids + {id})
  {
  }

  /** A project's trees, in any order, to its layers. */
  method Select(trees: seq<Tree>) returns (plan: Plan)
    requires DistinctKeys(trees) && CleanCommits(trees)
    ensures plan == Selected(trees)
  {
    var live := LiveTrees(trees);
    LiveIsCanonical(trees);
    var def := ComputeDefaultBranch(live);
    var layers, base := SelectBase(live, def);
    var parentBase := if LayerIds.BASE in layers then LayerIds.BASE else "";
    var visibleOn;
    layers, visibleOn := SelectBranches(live, def, parentBase, base, layers);
    layers := SelectOverlays(live, def, parentBase, base, visibleOn, layers);
    plan := Plan(def, layers);
  }

  method SelectBase(live: seq<Tree>, def: string)
    returns (layers: map<LayerId, LayerPlan>, base: map<Path, FileSource>)
    requires def == DefaultBranch(live)
    ensures base == BaseFiles(BaseSrc(live))
    ensures Files(live, layers, if HasBase(live) then {LayerIds.BASE} else {})
  {
    layers, base := map[], map[];
    var cands := Candidates(live, def);
    BaseSourcesAgree(live, def);
    BaseIdParses();
    if def == "" || cands == [] { return; }
    var best := ComputeNewest(cands);
    var commit := PushedCommit(best);
    var src := if best.worktree.github then [best] else Filter(cands, t => PushedCommit(t) == commit);
    base := ComputeBaseFiles(src);
    layers := map[LayerIds.BASE := LayerPlan(Layer(LayerIds.BASE, BaseKind, "", "", def, commit), base)];
  }

  /** The branch layers' ids, by ref and commit. */
  function NamedId(k: (string, string)): LayerId {
    LayerIds.Print(LayerIds.BranchName(k.0, k.1))
  }

  ghost function BranchIds(keys: set<(string, string)>): set<LayerId> {
    set k | k in keys && LayerIds.Parse(NamedId(k)).Some? :: NamedId(k)
  }

  /** The files visible on a branch layer, named by its id. */
  ghost function VisibleAt(live: seq<Tree>, id: LayerId): map<Path, FileSource> {
    Stack(BaseFiles(BaseSrc(live)), LayerNamed(live, id).files)
  }

  ghost predicate Visibles(live: seq<Tree>, visibleOn: map<LayerId, map<Path, FileSource>>, ids: set<LayerId>) {
    visibleOn.Keys == ids && forall id :: id in ids ==> visibleOn[id] == VisibleAt(live, id)
  }

  lemma VisiblesMore(live: seq<Tree>, visibleOn: map<LayerId, map<Path, FileSource>>, ids: set<LayerId>, id: LayerId)
    requires Visibles(live, visibleOn, ids)
    ensures Visibles(live, visibleOn[id := VisibleAt(live, id)], ids + {id})
  {
  }

  method SelectBranches(live: seq<Tree>, def: string, parentBase: LayerId, base: map<Path, FileSource>,
                        layers0: map<LayerId, LayerPlan>)
    returns (layers: map<LayerId, LayerPlan>, visibleOn: map<LayerId, map<Path, FileSource>>)
    requires Canonical(live) && def == DefaultBranch(live) && base == BaseFiles(BaseSrc(live)) && parentBase == BaseId(live)
    requires Files(live, layers0, layers0.Keys)
    ensures Files(live, layers, layers0.Keys + BranchLayerIds(live, def))
    ensures Visibles(live, visibleOn, BranchLayerIds(live, def))
  {
    var groups := GroupTrees(live, def);
    layers, visibleOn := layers0, map[];
    var todo := groups.Keys;
    ghost var done: set<(string, string)> := {};
    assert layers0.Keys + BranchIds(done) == layers0.Keys;
    while todo != {}
      invariant done + todo == groups.Keys
      invariant Files(live, layers, layers0.Keys + BranchIds(done)) && Visibles(live, visibleOn, BranchIds(done))
      decreases todo
    {
      var k :| k in todo;
      GroupKeyIsClean(live, def, groups.Keys, k);
      layers, visibleOn := AddBranch(live, parentBase, base, groups[(k.0, k.1)], k, layers, visibleOn, layers0.Keys, done);
      done, todo := done + {k}, todo - {k};
    }
    BranchKeysAreTrees(live, def, done);
  }

  /** One group's layer, when its id is accepted, and the files visible on it. */
  method AddBranch(live: seq<Tree>, parentBase: LayerId, base: map<Path, FileSource>, group: seq<Tree>,
                   k: (string, string), layers0: map<LayerId, LayerPlan>, visibleOn0: map<LayerId, map<Path, FileSource>>,
                   ghost before: set<LayerId>, ghost done: set<(string, string)>)
    returns (layers: map<LayerId, LayerPlan>, visibleOn: map<LayerId, map<Path, FileSource>>)
    requires base == BaseFiles(BaseSrc(live)) && parentBase == BaseId(live)
    requires group == Group(live, DefaultBranch(live), k.0, k.1)
    requires LayerIds.Parse(NamedId(k)).Some? ==> LayerIds.Parse(NamedId(k)) == Some(LayerIds.BranchName(k.0, k.1))
    requires Files(live, layers0, before + BranchIds(done)) && Visibles(live, visibleOn0, BranchIds(done))
    ensures Files(live, layers, before + BranchIds(done + {k})) && Visibles(live, visibleOn, BranchIds(done + {k}))
  {
    layers, visibleOn := layers0, visibleOn0;
    var id := NamedId(k);
    BranchIdsMore(before, done, k, id);
    if LayerIds.Parse(id).None? { return; }
    var lp, visible := SelectBranch(live, parentBase, base, group, k, id);
    FilesMore(live, layers, before + BranchIds(done), id);
    VisiblesMore(live, visibleOn, BranchIds(done), id);
    layers := layers[id := lp];
    visibleOn := visibleOn[id := visible];
  }

  method SelectBranch(live: seq<Tree>, parentBase: LayerId, base: map<Path, FileSource>, group: seq<Tree>,
                      k: (string, string), id: LayerId)
    returns (lp: LayerPlan, visible: map<Path, FileSource>)
    requires base == BaseFiles(BaseSrc(live)) && parentBase == BaseId(live)
    requires group == Group(live, DefaultBranch(live), k.0, k.1)
    requires id == NamedId(k) && LayerIds.Parse(id) == Some(LayerIds.BranchName(k.0, k.1))
    ensures lp == LayerNamed(live, id) && visible == VisibleAt(live, id)
  {
    var files := ComputeBranchFiles(base, BranchSources(group));
    visible := ComputeStack(base, files);
    lp := LayerPlan(Layer(id, BranchKind, parentBase, "", k.0, k.1), files);
  }

  lemma GroupKeyIsClean(live: seq<Tree>, def: string, keys: set<(string, string)>, k: (string, string))
    requires CleanCommits(live) && k in keys
    requires forall r, c :: (r, c) in keys ==> exists t :: t in live && OnBranch(t, def) && t.state.ref == r && PushedCommit(t) == c
    ensures '@' !in k.1
    ensures LayerIds.Parse(NamedId(k)).Some? ==> LayerIds.Parse(NamedId(k)) == Some(LayerIds.BranchName(k.0, k.1))
  {
    assert (k.0, k.1) in keys;
    LayerIds.ParseBranch(k.0, k.1);
  }

  lemma BranchIdsMore(before: set<LayerId>, done: set<(string, string)>, k: (string, string), id: LayerId)
    requires id == NamedId(k)
    ensures LayerIds.Parse(id).None? ==> BranchIds(done + {k}) == BranchIds(done)
    ensures LayerIds.Parse(id).Some? ==>
              && BranchIds(done + {k}) == BranchIds(done) + {id}
              && before + BranchIds(done + {k}) == before + BranchIds(done) + {id}
  {
  }

  function BranchLayerIds(live: seq<Tree>, def: string): set<LayerId> {
    set t | t in live && HasBranch(t, def) :: BranchId(t)
  }

  lemma BranchKeysAreTrees(live: seq<Tree>, def: string, keys: set<(string, string)>)
    requires forall r, c :: (r, c) in keys <==> exists t :: t in live && OnBranch(t, def) && t.state.ref == r && PushedCommit(t) == c
    ensures BranchIds(keys) == BranchLayerIds(live, def)
  {
    forall id | id in BranchIds(keys) ensures exists t :: t in live && HasBranch(t, def) && BranchId(t) == id {
      var k :| k in keys && LayerIds.Parse(NamedId(k)).Some? && NamedId(k) == id;
      assert (k.0, k.1) in keys;
      var t :| t in live && OnBranch(t, def) && t.state.ref == k.0 && PushedCommit(t) == k.1;
    }
    forall t | t in live && HasBranch(t, def) ensures BranchId(t) in BranchIds(keys) {
      assert BranchId(t) == NamedId((t.state.ref, PushedCommit(t)));
    }
  }

  method SelectOverlays(live: seq<Tree>, def: string, parentBase: LayerId, base: map<Path, FileSource>,
                        visibleOn: map<LayerId, map<Path, FileSource>>, layers0: map<LayerId, LayerPlan>)
    returns (layers: map<LayerId, LayerPlan>)
    requires Canonical(live) && def == DefaultBranch(live) && base == BaseFiles(BaseSrc(live)) && parentBase == BaseId(live)
    requires Files(live, layers0, layers0.Keys)
    requires Visibles(live, visibleOn, BranchLayerIds(live, def))
    ensures Files(live, layers, layers0.Keys + OverlayIds(live))
  {
    layers := layers0;
    var i := 0;
    assert layers0.Keys + OverlayIds(live[..0]) == layers0.Keys;
    while i < |live|
      invariant 0 <= i <= |live|
      invariant Files(live, layers, layers0.Keys + OverlayIds(live[..i]))
    {
      assert live[..i + 1] == live[..i] + [live[i]];
      layers := AddOverlay(live, def, parentBase, base, visibleOn, live[i], layers, layers0.Keys, live[..i]);
      i := i + 1;
    }
    assert live[..|live|] == live;
  }

  method AddOverlay(live: seq<Tree>, def: string, parentBase: LayerId, base: map<Path, FileSource>,
                    visibleOn: map<LayerId, map<Path, FileSource>>, t: Tree, layers0: map<LayerId, LayerPlan>,
                    ghost before: set<LayerId>, ghost done: seq<Tree>)
    returns (layers: map<LayerId, LayerPlan>)
    requires Canonical(live) && def == DefaultBranch(live) && base == BaseFiles(BaseSrc(live)) && parentBase == BaseId(live)
    requires Visibles(live, visibleOn, BranchLayerIds(live, def)) && t in live
    requires Files(live, layers0, before + OverlayIds(done))
    ensures Files(live, layers, before + OverlayIds(done + [t]))
  {
    layers := layers0;
    OverlayIdsMore(done, t);
    if HasOverlay(t) {
      var lp := MakeOverlay(live, def, parentBase, base, visibleOn, t);
      OverlayIsSelected(live, t);
      FilesMore(live, layers, before + OverlayIds(done), OverlayId(t));
      assert before + OverlayIds(done) + {OverlayId(t)} == before + (OverlayIds(done) + {OverlayId(t)});
      layers := layers[OverlayId(t) := lp];
    } else {
      assert OverlayIds(done) + {} == OverlayIds(done);
    }
  }

  function OverlayIds(ts: seq<Tree>): set<LayerId> {
    set t | t in ts && HasOverlay(t) :: OverlayId(t)
  }

  lemma OverlayIdsMore(ts: seq<Tree>, t: Tree)
    ensures OverlayIds(ts + [t]) == OverlayIds(ts) + if HasOverlay(t) then {OverlayId(t)} else {}
  {
    assert forall u :: u in ts + [t] <==> u in ts || u == t;
  }

  method MakeOverlay(live: seq<Tree>, def: string, parentBase: LayerId, base: map<Path, FileSource>,
                     visibleOn: map<LayerId, map<Path, FileSource>>, t: Tree)
    returns (lp: LayerPlan)
    requires def == DefaultBranch(live) && base == BaseFiles(BaseSrc(live)) && parentBase == BaseId(live)
    requires t in live && HasOverlay(t)
    requires Visibles(live, visibleOn, BranchLayerIds(live, def)) && CleanCommits(live)
    ensures lp == OverlayLayer(live, t)
  {
    var parent, below := parentBase, base;
    if def == "" || t.state.ref != def {
      if PushedCommit(t) != "" && BranchId(t) in visibleOn {
        AcceptedSomewhere(live, def, t);
        BranchIdParses(t);
        parent, below := BranchId(t), visibleOn[BranchId(t)];
      }
    }
    var files := ComputeOverlayFiles(t, below);
    var owner := if t.worktree.owner != "" then t.worktree.owner else t.state.owner;
    lp := LayerPlan(Layer(OverlayId(t), WorktreeKind, parent, owner, t.state.ref, t.state.head), files);
  }

  /** A branch id some tree's layer was accepted under is accepted for every tree that prints it. */
  lemma AcceptedSomewhere(live: seq<Tree>, def: string, t: Tree)
    requires BranchId(t) in BranchLayerIds(live, def)
    requires OnBranch(t, def)
    ensures HasBranch(t, def)
  {
  }
}
