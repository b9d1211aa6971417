/**
 * Interrupted batches whose target is tried again.  A turn that stops after
 * any prefix of a batch's writes leaves the graph as it is; the next turn
 * reads it back as its previous plan and selects anew.  Here it selects the
 * same target; Attempts has the turns that select another.
 */
module Crashes {
  import opened Plans
  import opened Graphs
  import opened Batches
  import opened Convergence

  /** A change at k's path, pending in the batch, sits above k's layer in the target. */
  ghost predicate Refreshed(prev: Plan, next: Plan, k: Key) {
    exists l :: IsChanged(prev, next, Key(l, k.path)) && k.layer in Ancestors(next, l)
  }

  /**
   * What a batch needs to survive interruption: every file it does not write
   * has the right list already, or lies below a changed file of its path in
   * the target.  A layer that only moved to another parent is no such change.
   */
  ghost predicate Recoverable(g: GraphState, prev: Plan, next: Plan)
    requires HoldsPlan(g, prev)
  {
    forall k :: Kept(prev, next, k) ==> RightAfterDrops(g, prev, next, k) || Refreshed(prev, next, k)
  }

  /** Recoverable, for the plan the next turn reads back from the graph. */
  ghost predicate Resumable(g: GraphState, next: Plan) {
    HoldsPlan(g, PlanFromGraph(g)) && Recoverable(g, PlanFromGraph(g), next)
  }

  lemma RecoverableIsReady(g: GraphState, prev: Plan, next: Plan)
    requires ValidPlan(next) && HoldsPlan(g, prev) && Recoverable(g, prev, next)
    ensures Ready(g, prev, next)
  {
    forall k | Kept(prev, next, k) && Refreshed(prev, next, k) ensures Affected(prev, next, k) {
      var l :| IsChanged(prev, next, Key(l, k.path)) && k.layer in Ancestors(next, l);
      assert Touches(prev, next, l, k.path) && BelowEither(prev, next, k.layer, l);
    }
  }

  /** The plan read back from a cut holds the same files wherever the cut graph has the same. */
  lemma ReadBack(g: GraphState, h: GraphState, prev: Plan, prev1: Plan, next: Plan, k: Key)
    requires HoldsPlan(g, prev)
    requires Has(h, k) <==> Has(g, k)
    requires Has(g, k) ==> At(h, k).(hidden := {}) == At(g, k).(hidden := {})
    requires HoldsPlan(h, prev1)
    ensures IsChanged(prev1, next, k) ==> IsChanged(prev, next, k)
    ensures IsChanged(prev, next, k) ==> IsChanged(prev1, next, k)
    ensures Kept(prev1, next, k) <==> Kept(prev, next, k)
  {
    if Has(g, k) {
      assert SameAs(At(h, k), FileOf(prev, k));
    }
  }

  /** h has g's files, some of them with the target's list. */
  ghost predicate HidesSome(g: GraphState, h: GraphState, next: Plan) {
    && (forall k :: Has(h, k) <==> Has(g, k))
    && (forall k :: Has(g, k) ==> At(h, k) == At(g, k) || At(h, k) == At(g, k).(hidden := HiddenBy(next, k)))
  }

  /** Before any file is written, a cut keeps every pending change and spoils no list. */
  lemma EarlyCut(g: GraphState, h: GraphState, prev: Plan, prev1: Plan, next: Plan)
    requires HoldsPlan(g, prev) && Recoverable(g, prev, next) && HidesSome(g, h, next)
    requires g.Keys <= h.Keys <= g.Keys + next.layers.Keys
    requires HoldsPlan(h, prev1)
    ensures Recoverable(h, prev1, next)
  {
    assert Dropped(prev1, next) == Dropped(prev, next);
    forall k | Kept(prev1, next, k)
      ensures RightAfterDrops(h, prev1, next, k) || Refreshed(prev1, next, k)
    {
      EarlyCutFile(g, h, prev, prev1, next, k);
    }
  }

  lemma EarlyCutResumes(g: GraphState, h: GraphState, prev: Plan, next: Plan)
    requires HoldsPlan(g, prev) && Recoverable(g, prev, next) && HidesSome(g, h, next)
    requires g.Keys <= h.Keys <= g.Keys + next.layers.Keys
    ensures Resumable(h, next)
  {
    PlanFromGraphHolds(h);
    EarlyCut(g, h, prev, PlanFromGraph(h), next);
  }

  lemma EarlyCutFile(g: GraphState, h: GraphState, prev: Plan, prev1: Plan, next: Plan, k: Key)
    requires HoldsPlan(g, prev) && HoldsPlan(h, prev1) && HidesSome(g, h, next)
    requires Dropped(prev1, next) == Dropped(prev, next)
    requires Kept(prev, next, k) ==> RightAfterDrops(g, prev, next, k) || Refreshed(prev, next, k)
    requires Kept(prev1, next, k)
    ensures RightAfterDrops(h, prev1, next, k) || Refreshed(prev1, next, k)
  {
    ReadBack(g, h, prev, prev1, next, k);
    assert HiddenBy(next, k) - Dropped(prev, next) == HiddenBy(next, k);
    if Refreshed(prev, next, k) {
      var l :| IsChanged(prev, next, Key(l, k.path)) && k.layer in Ancestors(next, l);
      ReadBack(g, h, prev, prev1, next, Key(l, k.path));
    }
  }

  /** f has the target's list, or is the file g had at k with the hides and some of the drops done. */
  ghost predicate RightOrUntouched(g: GraphState, prev: Plan, next: Plan, gone: set<LayerId>, k: Key, f: GraphFile) {
    || f.hidden == HiddenBy(next, k)
    || (Has(g, k) && f == At(g, k).(hidden := HiddenThen(g, prev, next, k) - gone))
  }

  /** The graph once the hides are done: every layer but those gone, every file of next right or untouched. */
  ghost predicate IsLate(g: GraphState, h: GraphState, prev: Plan, next: Plan, gone: set<LayerId>) {
    && gone <= Dropped(prev, next) && h.Keys == (g.Keys + next.layers.Keys) - gone
    && forall k :: Holds(next, k) && Has(h, k) ==> RightOrUntouched(g, prev, next, gone, k, At(h, k))
  }

  lemma LateCut(g: GraphState, h: GraphState, prev: Plan, prev1: Plan, next: Plan, gone: set<LayerId>)
    requires HoldsPlan(g, prev) && Ready(g, prev, next) && HoldsPlan(h, prev1) && IsLate(g, h, prev, next, gone)
    ensures Recoverable(h, prev1, next)
  {
    assert Dropped(prev1, next) == Dropped(prev, next) - gone;
    forall k | Kept(prev1, next, k) ensures RightAfterDrops(h, prev1, next, k) {
      assert SameAs(At(h, k), FileOf(next, k));
      LateCutFile(g, prev, next, gone, k, At(h, k));
    }
  }

  lemma LateCutResumes(g: GraphState, h: GraphState, prev: Plan, next: Plan, gone: set<LayerId>)
    requires HoldsPlan(g, prev) && Ready(g, prev, next) && IsLate(g, h, prev, next, gone)
    ensures Resumable(h, next)
  {
    PlanFromGraphHolds(h);
    LateCut(g, h, prev, PlanFromGraph(h), next, gone);
  }

  lemma LateCutFile(g: GraphState, prev: Plan, next: Plan, gone: set<LayerId>, k: Key, f: GraphFile)
    requires HoldsPlan(g, prev) && Ready(g, prev, next) && gone <= Dropped(prev, next)
    requires Holds(next, k) && SameAs(f, FileOf(next, k))
    requires RightOrUntouched(g, prev, next, gone, k, f)
    ensures f.hidden - (Dropped(prev, next) - gone) == HiddenBy(next, k)
  {
    if f.hidden == HiddenBy(next, k) || Pending(prev, next, k) {
      assert HiddenBy(next, k) !! Dropped(prev, next);
    } else {
      assert Kept(prev, next, k) && !Affected(prev, next, k);
      assert RightAfterDrops(g, prev, next, k);
      assert f.hidden - (Dropped(prev, next) - gone) == At(g, k).hidden - Dropped(prev, next);
    }
  }

  /** Being recoverable survives stopping after any number of writes. */
  lemma CutStaysRecoverable(g: GraphState, prev: Plan, next: Plan, b: Batch, n: nat)
    requires ValidPlan(next) && HoldsPlan(g, prev) && IsBatch(prev, next, b) && n <= |All(b)|
    requires Recoverable(g, prev, next)
    ensures Resumable(Cut(g, b, n), next)
  {
    RecoverableIsReady(g, prev, next);
    if n <= |b.puts| {
      CutInPuts(g, prev, next, b, n);
    } else if n <= |b.puts| + |b.hides| {
      CutInHides(g, prev, next, b, n, n - |b.puts|);
    } else if n <= |b.puts| + |b.hides| + |b.files| {
      CutInFiles(g, prev, next, b, n, n - |b.puts| - |b.hides|);
    } else {
      CutInDrops(g, prev, next, b, n, n - |b.puts| - |b.hides| - |b.files|);
    }
  }

  lemma CutInPuts(g: GraphState, prev: Plan, next: Plan, b: Batch, n: nat)
    requires ValidPlan(next) && HoldsPlan(g, prev) && IsBatch(prev, next, b) && n <= |b.puts|
    requires Recoverable(g, prev, next)
    ensures Resumable(Cut(g, b, n), next)
  {
    CutInFirst(g, b, n);
    MidPuts(g, prev, next, b, n);
    EarlyCutResumes(g, Cut(g, b, n), prev, next);
  }

  lemma CutInHides(g: GraphState, prev: Plan, next: Plan, b: Batch, n: nat, m: nat)
    requires ValidPlan(next) && HoldsPlan(g, prev) && IsBatch(prev, next, b)
    requires n == |b.puts| + m && m <= |b.hides|
    requires Recoverable(g, prev, next)
    ensures Resumable(Cut(g, b, n), next)
  {
    CutInSecond(g, b, n, m);
    MidHides(g, prev, next, b, m);
    EarlyCutResumes(g, Cut(g, b, n), prev, next);
  }

  lemma CutInFiles(g: GraphState, prev: Plan, next: Plan, b: Batch, n: nat, m: nat)
    requires ValidPlan(next) && HoldsPlan(g, prev) && IsBatch(prev, next, b)
    requires n == |b.puts| + |b.hides| + m && m <= |b.files|
    requires Ready(g, prev, next)
    ensures Resumable(Cut(g, b, n), next)
  {
    CutInThird(g, b, n, m);
    FilesRightOrUntouched(g, prev, next, b, m);
    LateCutResumes(g, Cut(g, b, n), prev, next, {});
  }

  lemma FilesRightOrUntouched(g: GraphState, prev: Plan, next: Plan, b: Batch, m: nat)
    requires ValidPlan(next) && HoldsPlan(g, prev) && IsBatch(prev, next, b) && m <= |b.files|
    ensures IsLate(g, Run(Run(Run(g, b.puts), b.hides), b.files[..m]), prev, next, {})
  {
    var h := Run(Run(Run(g, b.puts), b.hides), b.files[..m]);
    MidFiles(g, prev, next, b, m);
    forall k | Holds(next, k) && Has(h, k) ensures RightOrUntouched(g, prev, next, {}, k, At(h, k)) {
      if FileWrite(next, k) !in b.files[..m] { assert HiddenThen(g, prev, next, k) - {} == HiddenThen(g, prev, next, k); }
    }
  }

  lemma DropsRightOrUntouched(g: GraphState, prev: Plan, next: Plan, b: Batch, m: nat)
    requires ValidPlan(next) && HoldsPlan(g, prev) && IsBatch(prev, next, b) && m <= |b.drops|
    ensures IsLate(g, Run(AfterThree(g, b), b.drops[..m]), prev, next, DropIds(b.drops[..m]))
  {
    var h := Run(AfterThree(g, b), b.drops[..m]);
    MidDrops(g, prev, next, b, m);
    forall k | Holds(next, k) && Has(h, k) ensures RightOrUntouched(g, prev, next, DropIds(b.drops[..m]), k, At(h, k)) {
      MidDropsFile(g, prev, next, b, m, k);
    }
  }

  lemma CutInDrops(g: GraphState, prev: Plan, next: Plan, b: Batch, n: nat, m: nat)
    requires ValidPlan(next) && HoldsPlan(g, prev) && IsBatch(prev, next, b)
    requires n == |b.puts| + |b.hides| + |b.files| + m && m <= |b.drops|
    requires Ready(g, prev, next)
    ensures Resumable(Cut(g, b, n), next)
  {
    CutInFourth(g, b, n, m);
    DropsRightOrUntouched(g, prev, next, b, m);
    LateCutResumes(g, Cut(g, b, n), prev, next, DropIds(b.drops[..m]));
  }

  // ----- the condition is exact

  /** Parents of the plan's layers are layers of the plan. */
  predicate Closed(p: Plan) {
    forall id :: id in p.layers && p.layers[id].layer.parent != "" ==> p.layers[id].layer.parent in p.layers
  }

  /** Chains of a closed plan stay its own in a plan that adds other layers to it. */
  lemma {:induction false} WalkInLarger(p: Plan, q: Plan, cur: LayerId, seen: set<LayerId>)
    requires Closed(p) && p.layers.Keys <= q.layers.Keys && (cur == "" || cur in p.layers)
    requires forall id :: id in p.layers ==> q.layers[id].layer == p.layers[id].layer
    ensures Walk(q, cur, seen) == Walk(p, cur, seen)
    decreases p.layers.Keys - seen
  {
    if cur != "" && cur !in seen { WalkInLarger(p, q, Parent(p, cur), seen + {cur}); }
  }

  /**
   * Cut right after its layer puts, a batch is finished by its retry exactly
   * when it is recoverable: the moved parents are in the graph by then, so the
   * retry sees no chain move and rewrites only what lies below changed files.
   */
  lemma RetryAfterPuts(g: GraphState, prev: Plan, next: Plan, b: Batch, retry: Batch)
    requires ValidPlan(next) && Closed(next) && HoldsPlan(g, prev) && IsBatch(prev, next, b)
    requires IsBatch(PlanFromGraph(Run(g, b.puts)), next, retry)
    ensures Settled(Run(Run(g, b.puts), All(retry)), next) <==> Recoverable(g, prev, next)
  {
    var h := Run(g, b.puts);
    var prev1 := PlanFromGraph(h);
    PlanFromGraphHolds(h);
    BatchExact(h, prev1, next, retry);
    CutAfterPuts(g, prev, next, b);
    forall k ensures Kept(prev1, next, k) <==> Kept(prev, next, k)
             ensures Affected(prev1, next, k) <==> Refreshed(prev, next, k)
    {
      ReadBack(g, h, prev, prev1, next, k);
      AffectedAfterPuts(g, prev, next, b, k);
    }
    ReadyIsRecoverable(g, h, prev, prev1, next);
  }

  /** Over the same files, ready for the plan read back is recoverable for the plan before. */
  lemma ReadyIsRecoverable(g: GraphState, h: GraphState, prev: Plan, prev1: Plan, next: Plan)
    requires HoldsPlan(g, prev) && HoldsPlan(h, prev1) && h.Keys == g.Keys + next.layers.Keys
    requires forall k :: Has(g, k) ==> Has(h, k) && At(h, k) == At(g, k)
    requires forall k :: Kept(prev1, next, k) <==> Kept(prev, next, k)
    requires forall k :: Affected(prev1, next, k) <==> Refreshed(prev, next, k)
    ensures Ready(h, prev1, next) <==> Recoverable(g, prev, next)
  {
    assert Dropped(prev1, next) == Dropped(prev, next);
    forall k | Kept(prev, next, k)
      ensures RightAfterDrops(h, prev1, next, k) <==> RightAfterDrops(g, prev, next, k)
    {
    }
  }

  /** Right after the puts every layer of the target has its target node, over untouched files. */
  lemma CutAfterPuts(g: GraphState, prev: Plan, next: Plan, b: Batch)
    requires ValidPlan(next) && HoldsPlan(g, prev) && IsBatch(prev, next, b)
    ensures var h := Run(g, b.puts);
            && h.Keys == g.Keys + next.layers.Keys
            && (forall id :: id in next.layers ==> h[id].node == next.layers[id].layer)
            && (forall k :: Has(h, k) <==> Has(g, k))
            && (forall k :: Has(g, k) ==> At(h, k) == At(g, k))
  {
    assert b.hides[..0] == [];
    MidHides(g, prev, next, b, 0);
  }

  lemma AffectedAfterPuts(g: GraphState, prev: Plan, next: Plan, b: Batch, k: Key)
    requires ValidPlan(next) && Closed(next) && HoldsPlan(g, prev) && IsBatch(prev, next, b)
    ensures Affected(PlanFromGraph(Run(g, b.puts)), next, k) <==> Refreshed(prev, next, k)
  {
    var h := Run(g, b.puts);
    var prev1 := PlanFromGraph(h);
    PlanFromGraphHolds(h);
    if Refreshed(prev, next, k) {
      var l :| IsChanged(prev, next, Key(l, k.path)) && k.layer in Ancestors(next, l);
      LayerAfterPuts(g, prev, prev1, next, b, Key(l, k.path));
      assert Touches(prev1, next, l, k.path) && BelowEither(prev1, next, k.layer, l);
    }
    if Affected(prev1, next, k) {
      var l :| l in next.layers && Touches(prev1, next, l, k.path) && BelowEither(prev1, next, k.layer, l);
      LayerAfterPuts(g, prev, prev1, next, b, Key(l, k.path));
      assert IsChanged(prev, next, Key(l, k.path)) && k.layer in Ancestors(next, l);
    }
  }

  /** Right after the puts a layer of the target has its target chain and its pending changes. */
  lemma LayerAfterPuts(g: GraphState, prev: Plan, prev1: Plan, next: Plan, b: Batch, at: Key)
    requires ValidPlan(next) && Closed(next) && HoldsPlan(g, prev) && IsBatch(prev, next, b)
    requires HoldsPlan(Run(g, b.puts), prev1) && at.layer in next.layers
    ensures Ancestors(prev1, at.layer) == Ancestors(next, at.layer)
    ensures IsChanged(prev1, next, at) <==> IsChanged(prev, next, at)
  {
    CutAfterPuts(g, prev, next, b);
    WalkInLarger(next, prev1, Parent(next, at.layer), {at.layer});
    ReadBack(g, Run(g, b.puts), prev, prev1, next, at);
  }

  /** A batch that moves no surviving layer's chain is recoverable from a settled graph. */
  lemma UnmovedIsRecoverable(g: GraphState, prev: Plan, next: Plan)
    requires ValidPlan(next) && Settled(g, prev)
    requires forall l :: !ChainMoved(prev, next, l)
    ensures Recoverable(g, prev, next)
  {
    forall k | Kept(prev, next, k) && !RightAfterDrops(g, prev, next, k) ensures Refreshed(prev, next, k) {
      if !Affected(prev, next, k) { UnaffectedIsRight(prev, next, k); }
      var l :| l in next.layers && Touches(prev, next, l, k.path) && BelowEither(prev, next, k.layer, l);
      assert !ChainMoved(prev, next, l);
      assert IsChanged(prev, next, Key(l, k.path));
    }
  }
}
