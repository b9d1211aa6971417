/** The consistency check (compareLayers and Check in codeindex/lifecycle.go). */
module Checks {
  import opened Wrappers
  import opened Plans
  import opened Graphs
  import opened Batches
  import opened Convergence
  import opened Applier
  import opened Attempts
  import opened MovedOverlay
  import opened RevertedEdit
  import opened Hashes

  /** One layer, as selected and as the graph has it; either side is empty without the layer. */
  datatype LayerCheck = LayerCheck(files: nat, hash: string, graphFiles: nat, graphHash: string, node: bool, ok: bool)

  /** Both have the layer, with the same node and the same files. */
  ghost predicate LayerAgrees(want: Plan, have: Plan, id: LayerId) {
    && id in want.layers && id in have.layers
    && want.layers[id].layer == have.layers[id].layer
    && SameFiles(want.layers[id].files, have.layers[id].files)
  }

  ghost predicate NulFreePlan(p: Plan) {
    forall id :: id in p.layers ==> NulFree(p.layers[id].files)
  }

  method CheckLayer(hash: Hash, want: Plan, have: Plan, id: LayerId) returns (c: LayerCheck)
    requires CollisionFree(hash) && NulFreePlan(want) && NulFreePlan(have)
    ensures c.ok <==> LayerAgrees(want, have, id)
    ensures id in want.layers ==> c.files == |want.layers[id].files| && IsFilesHash(hash, want.layers[id].files, c.hash)
    ensures id in have.layers ==> c.graphFiles == |have.layers[id].files| && IsFilesHash(hash, have.layers[id].files, c.graphHash)
    ensures c.node <==> id in want.layers && id in have.layers && want.layers[id].layer == have.layers[id].layer
  {
    c := LayerCheck(0, "", 0, "", false, false);
    if id in want.layers {
      var h := FilesHash(hash, want.layers[id].files);
      c := c.(files := |want.layers[id].files|, hash := h);
    }
    if id in have.layers {
      var h := FilesHash(hash, have.layers[id].files);
      c := c.(graphFiles := |have.layers[id].files|, graphHash := h);
    }
    c := c.(node := id in want.layers && id in have.layers && want.layers[id].layer == have.layers[id].layer);
    c := c.(ok := c.node && c.files == c.graphFiles && c.hash == c.graphHash);
    if c.node {
      HashTellsFiles(hash, want.layers[id].files, have.layers[id].files, c.hash, c.graphHash);
      if c.hash == c.graphHash { SameCount(want.layers[id].files, have.layers[id].files); }
    }
  }

  lemma SameCount(a: map<Path, FileSource>, b: map<Path, FileSource>)
    requires a.Keys == b.Keys
    ensures |a| == |b|
  {
    assert |a| == |a.Keys| && |b| == |b.Keys|;
  }

  /** A hash per layer finds the graph consistent exactly when the difference to write is empty. */
  method CompareLayers(hash: Hash, want: Plan, have: Plan) returns (checks: map<LayerId, LayerCheck>, ok: bool)
    requires CollisionFree(hash) && NulFreePlan(want) && NulFreePlan(have)
    ensures checks.Keys == want.layers.Keys + have.layers.Keys
    ensures AreChecks(want, have, checks)
    ensures ok <==> EmptyDelta(DiffOf(have, want))
  {
    checks, ok := map[], true;
    var all := want.layers.Keys + have.layers.Keys;
    var todo := all;
    while todo != {}
      invariant todo <= all && checks.Keys == all - todo && AreChecks(want, have, checks)
      invariant ok <==> AllOk(checks)
      decreases todo
    {
      var id :| id in todo;
      var c := CheckLayer(hash, want, have, id);
      OneMoreCheck(want, have, checks, id, c);
      ok := ok && c.ok;
      checks, todo := checks[id := c], todo - {id};
    }
    AgreeByLayer(want, have);
    assert AllOk(checks) <==> forall id :: id in all ==> LayerAgrees(want, have, id);
  }

  ghost predicate AllOk(checks: map<LayerId, LayerCheck>) { forall id :: id in checks ==> checks[id].ok }

  lemma OneMoreCheck(want: Plan, have: Plan, checks: map<LayerId, LayerCheck>, id: LayerId, c: LayerCheck)
    requires AreChecks(want, have, checks) && id !in checks && (c.ok <==> LayerAgrees(want, have, id))
    ensures AreChecks(want, have, checks[id := c]) && (AllOk(checks[id := c]) <==> AllOk(checks) && c.ok)
  {
    var checks1 := checks[id := c];
    assert checks1[id] == c && forall j :: j in checks ==> checks1[j] == checks[j];
  }

  ghost predicate AreChecks(want: Plan, have: Plan, checks: map<LayerId, LayerCheck>) {
    forall id :: id in checks ==> (checks[id].ok <==> LayerAgrees(want, have, id))
  }

  lemma AgreeByLayer(want: Plan, have: Plan)
    ensures EmptyDelta(DiffOf(have, want)) <==>
            forall id :: id in want.layers.Keys + have.layers.Keys ==> LayerAgrees(want, have, id)
  {
    EmptyDiff(have, want);
    if Agree(have, want) {
      forall id | id in want.layers.Keys + have.layers.Keys ensures LayerAgrees(want, have, id) {
        AgreesAt(want, have, id);
      }
    }
    if forall id :: id in want.layers.Keys + have.layers.Keys ==> LayerAgrees(want, have, id) {
      LayersMakeAgree(want, have);
    }
  }

  lemma AgreesAt(want: Plan, have: Plan, id: LayerId)
    requires Agree(have, want) && id in want.layers
    ensures LayerAgrees(want, have, id)
  {
    var a, b := want.layers[id].files, have.layers[id].files;
    forall p ensures p in a <==> p in b {
      assert Holds(want, Key(id, p)) <==> Holds(have, Key(id, p));
    }
    forall p | p in a ensures SameFile(a[p], b[p]) {
      assert Holds(want, Key(id, p));
      assert SameFile(FileOf(have, Key(id, p)), FileOf(want, Key(id, p)));
    }
  }

  lemma LayersMakeAgree(want: Plan, have: Plan)
    requires forall id :: id in want.layers.Keys + have.layers.Keys ==> LayerAgrees(want, have, id)
    ensures Agree(have, want)
  {
    forall id ensures id in want.layers <==> id in have.layers {
      assert id in want.layers.Keys + have.layers.Keys ==> LayerAgrees(want, have, id);
    }
    forall id | id in want.layers ensures have.layers[id].layer == want.layers[id].layer {
      assert LayerAgrees(want, have, id);
    }
    forall k: Key | k.layer in want.layers
      ensures Holds(have, k) <==> Holds(want, k)
      ensures Holds(want, k) ==> SameFile(FileOf(have, k), FileOf(want, k))
    {
      assert LayerAgrees(want, have, k.layer);
    }
  }

  // ----- against the graph

  /** Consistent means the graph holds the selection's nodes and files. */
  lemma ConsistentHolds(g: GraphState, want: Plan)
    ensures EmptyDelta(DiffOf(PlanFromGraph(g), want)) <==> HoldsPlan(g, want)
  {
    EmptyDiff(PlanFromGraph(g), want);
    PlanFromGraphHolds(g);
    AgreeIsHolds(g, PlanFromGraph(g), want);
  }

  lemma AgreeIsHolds(g: GraphState, have: Plan, want: Plan)
    requires HoldsPlan(g, have)
    ensures Agree(have, want) <==> HoldsPlan(g, want)
  {
  }

  /**
   * The check, with repair, unless the log has changes past the cursor.  It
   * compares nodes and files and no hiddenBy list: a consistent graph is left
   * alone whatever its lists say, and a repaired one is settled exactly when
   * the lists the repair does not touch were right.
   */
  method Check(g: Graph, hash: Hash, want: Plan, pending: bool, repair: bool)
    returns (consistent: bool, repaired: bool, err: Option<GraphError>, ghost have: Plan)
    requires CollisionFree(hash) && ValidPlan(want) && NulFreePlan(want) && NulFreePlan(PlanFromGraph(g.state))
    modifies g
    ensures err.None? && have == PlanFromGraph(old(g.state)) && HoldsPlan(old(g.state), have)
    ensures consistent <==> !pending && HoldsPlan(old(g.state), want)
    ensures repaired <==> !pending && repair && !consistent
    ensures !repaired ==> g.state == old(g.state)
    ensures repaired ==> HoldsPlan(g.state, want) && (Settled(g.state, want) <==> Ready(old(g.state), have, want))
  {
    var read := PlanFromGraph(g.state);
    have, consistent, repaired, err := read, false, false, None;
    PlanFromGraphHolds(g.state);
    if pending { return; }
    ConsistentHolds(g.state, want);
    var checks;
    checks, consistent := CompareLayers(hash, want, read);
    if consistent || !repair { return; }
    ghost var g0 := g.state;
    ghost var b;
    err, b := WriteBatch(g, read, want);
    AfterBatch(g0, read, want, b);
    BatchExact(g0, read, want, b);
    repaired := true;
  }

  /**
   * The check cannot see what an interrupted move of an overlay leaves: its
   * view shows two files of one path, and nothing is to be repaired.
   */
  lemma CheckMissesLists(s: Scene, g: GraphState, b: Batch, tries: seq<Attempt>)
    requires Proper(s) && Settled(g, Stacked(s, false))
    requires IsBatch(Stacked(s, false), Stacked(s, true), b)
    requires Attempted(Run(g, b.puts), tries) && forall t :: t in tries ==> t.target == Stacked(s, true)
    ensures var h := AfterAll(Run(g, b.puts), tries);
            EmptyDelta(DiffOf(PlanFromGraph(h), Stacked(s, true))) && !Settled(h, Stacked(s, true))
  {
    MovedOverlayShowsTwoFiles(s, g, b, tries);
    ConsistentHolds(AfterAll(Run(g, b.puts), tries), Stacked(s, true));
  }

  /** Nor what an interrupted edit leaves when it is reverted: the overlay's view has lost the base's file. */
  lemma CheckMissesRevert(s: Session, g: GraphState, b: Batch, n: nat, prev1: Plan, back: Batch)
    requires IsSession(s) && Settled(g, Plain(s)) && IsBatch(Plain(s), Edited(s), b) && n == |b.puts| + |b.hides|
    requires HoldsPlan(Cut(g, b, n), prev1) && IsBatch(prev1, Plain(s), back)
    ensures var h := Run(Cut(g, b, n), All(back));
            EmptyDelta(DiffOf(PlanFromGraph(h), Plain(s))) && !Settled(h, Plain(s)) && LosesBase(s, h)
  {
    RevertedEditHidesBase(s, g, b, n, prev1, back);
    ConsistentHolds(Run(Cut(g, b, n), All(back)), Plain(s));
  }
}
