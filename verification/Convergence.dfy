/**
 * Where a batch ends.  From any graph, whatever its hiddenBy lists, a batch
 * ends on its target exactly when the lists it does not rewrite were right
 * already; from a graph settled on the batch's previous plan they always are.
 */
module Convergence {
  import opened Plans
  import opened Graphs
  import opened Batches

  /** A file of both plans the batch does not write. */
  predicate Kept(prev: Plan, next: Plan, k: Key) {
    Holds(prev, k) && Holds(next, k) && !IsChanged(prev, next, k)
  }

  function Dropped(prev: Plan, next: Plan): set<LayerId> {
    prev.layers.Keys - next.layers.Keys
  }

  /** k's list in g is next's once the dropped layers' ids are out of it. */
  predicate RightAfterDrops(g: GraphState, prev: Plan, next: Plan, k: Key)
    requires Has(g, k)
  {
    At(g, k).hidden - Dropped(prev, next) == HiddenBy(next, k)
  }

  /** Every hiddenBy list the batch from prev to next leaves alone is right. */
  ghost predicate Ready(g: GraphState, prev: Plan, next: Plan)
    requires HoldsPlan(g, prev)
  {
    forall k :: Kept(prev, next, k) && !Affected(prev, next, k) ==> RightAfterDrops(g, prev, next, k)
  }

  // ----- the graph after the first, second and third list, and at the end

  /** After any part of the layer puts: some layers next adds, empty, and every file as before. */
  lemma MidPuts(g: GraphState, prev: Plan, next: Plan, b: Batch, n: nat)
    requires ValidPlan(next) && HoldsPlan(g, prev) && IsBatch(prev, next, b) && n <= |b.puts|
    ensures var h := Run(g, b.puts[..n]);
            && h.Keys == g.Keys + PutIds(b.puts[..n]) && PutIds(b.puts[..n]) <= next.layers.Keys
            && (forall id :: id in h ==> h[id].node == if id in PutIds(b.puts[..n]) then next.layers[id].layer else g[id].node)
            && (forall k :: Has(h, k) <==> Has(g, k))
            && (forall k :: Has(h, k) ==> At(h, k) == At(g, k))
  {
    AfterPuts(g, next, b.puts[..n]);
  }

  lemma AllPutIds(prev: Plan, next: Plan, b: Batch)
    requires ValidPlan(next) && IsBatch(prev, next, b)
    ensures PutIds(b.puts) == set id | id in next.layers && InDelta(prev, next, id)
  {
    forall id | id in next.layers && InDelta(prev, next, id) ensures id in PutIds(b.puts) {
      assert PutLayer(next.layers[id].layer) in b.puts;
    }
  }

  /** After all the puts: next's nodes over prev's leftovers, every file as before. */
  lemma PutsDone(g: GraphState, prev: Plan, next: Plan, b: Batch)
    requires ValidPlan(next) && HoldsPlan(g, prev) && IsBatch(prev, next, b)
    ensures var h := Run(g, b.puts);
            && h.Keys == g.Keys + next.layers.Keys
            && (forall id :: id in h ==> h[id].node == if id in next.layers then next.layers[id].layer else g[id].node)
            && (forall k :: Has(h, k) <==> Has(g, k))
            && (forall k :: Has(g, k) ==> At(h, k) == At(g, k))
  {
    assert b.puts[..|b.puts|] == b.puts;
    MidPuts(g, prev, next, b, |b.puts|);
    AllPutIds(prev, next, b);
    forall id | id in next.layers && !InDelta(prev, next, id)
      ensures id in g && g[id].node == next.layers[id].layer
    {
    }
  }

  lemma HidesAreHeld(g: GraphState, prev: Plan, next: Plan, b: Batch)
    requires HoldsPlan(g, prev) && IsHideList(prev, next, b.hides)
    ensures forall w :: w in b.hides ==> w.SetHidden? && Has(g, w.key) && w.hidden == HiddenBy(next, w.key)
  {
  }

  /** After all the puts and part of the hides. */
  lemma MidHides(g: GraphState, prev: Plan, next: Plan, b: Batch, n: nat)
    requires ValidPlan(next) && HoldsPlan(g, prev) && IsBatch(prev, next, b) && n <= |b.hides|
    ensures var h := Run(Run(g, b.puts), b.hides[..n]);
            && h.Keys == g.Keys + next.layers.Keys
            && (forall id :: id in h ==> h[id].node == if id in next.layers then next.layers[id].layer else g[id].node)
            && (forall k :: Has(h, k) <==> Has(g, k))
            && (forall k :: Has(g, k) ==>
                  At(h, k) == if SetHidden(k, HiddenBy(next, k)) in b.hides[..n]
                              then At(g, k).(hidden := HiddenBy(next, k)) else At(g, k))
  {
    PutsDone(g, prev, next, b);
    HidesAreHeld(g, prev, next, b);
    forall w | w in b.hides[..n] ensures w in b.hides { }
    AfterHides(Run(g, b.puts), next, b.hides[..n]);
  }

  /** The list a kept file has once the hides are done. */
  ghost function HiddenThen(g: GraphState, prev: Plan, next: Plan, k: Key): set<LayerId>
    requires Has(g, k)
  {
    if Pending(prev, next, k) then HiddenBy(next, k) else At(g, k).hidden
  }

  /** After all the puts and hides and part of the files. */
  lemma MidFiles(g: GraphState, prev: Plan, next: Plan, b: Batch, n: nat)
    requires ValidPlan(next) && HoldsPlan(g, prev) && IsBatch(prev, next, b) && n <= |b.files|
    ensures var h := Run(Run(Run(g, b.puts), b.hides), b.files[..n]);
            && h.Keys == g.Keys + next.layers.Keys
            && (forall id :: id in h ==> h[id].node == if id in next.layers then next.layers[id].layer else g[id].node)
            && (forall k :: Has(h, k) <==> if FileWrite(next, k) in b.files[..n] then Holds(next, k) else Has(g, k))
            && (forall k :: Has(h, k) ==>
                  At(h, k) == if FileWrite(next, k) in b.files[..n] then Stored(FileOf(next, k), HiddenBy(next, k))
                              else At(g, k).(hidden := HiddenThen(g, prev, next, k)))
  {
    assert b.hides[..|b.hides|] == b.hides;
    MidHides(g, prev, next, b, |b.hides|);
    var m := Run(Run(g, b.puts), b.hides);
    forall w | w in b.files[..n] ensures w == FileWrite(next, KeyOf(w)) && KeyOf(w).layer in m {
      assert w in b.files;
    }
    AfterFiles(m, next, b.files[..n]);
    forall k | Has(g, k) ensures At(m, k) == At(g, k).(hidden := HiddenThen(g, prev, next, k)) {
      if SetHidden(k, HiddenBy(next, k)) in b.hides {
        assert SetHidden(k, HiddenBy(next, k)).key == k;
      }
    }
  }

  /** A whole file list is the changed keys. */
  lemma AllFileWrites(prev: Plan, next: Plan, b: Batch, k: Key)
    requires IsBatch(prev, next, b)
    ensures FileWrite(next, k) in b.files <==> IsChanged(prev, next, k)
  {
    assert KeyOf(FileWrite(next, k)) == k;
  }

  /** The drops of any part of the drop list are layers prev alone has. */
  lemma PartOfDrops(prev: Plan, next: Plan, b: Batch, n: nat)
    requires IsBatch(prev, next, b) && n <= |b.drops|
    ensures forall w :: w in b.drops[..n] ==> w.DropLayer?
    ensures DropIds(b.drops[..n]) <= Dropped(prev, next)
    ensures n == |b.drops| ==> DropIds(b.drops[..n]) == Dropped(prev, next)
  {
    forall w | w in b.drops[..n] ensures w.DropLayer? && w.layer in Dropped(prev, next) { assert w in b.drops; }
    if n == |b.drops| {
      assert b.drops[..n] == b.drops;
      forall id | id in Dropped(prev, next) ensures id in DropIds(b.drops) { assert DropLayer(id) in b.drops; }
    }
  }

  ghost function AfterThree(g: GraphState, b: Batch): GraphState {
    Run(Run(Run(g, b.puts), b.hides), b.files)
  }

  /** After the puts, hides and files: next's layers over prev's leftovers, next's files. */
  lemma ThreeDone(g: GraphState, prev: Plan, next: Plan, b: Batch)
    requires ValidPlan(next) && HoldsPlan(g, prev) && IsBatch(prev, next, b)
    ensures var m := AfterThree(g, b);
            && m.Keys == g.Keys + next.layers.Keys
            && (forall id :: id in m ==> m[id].node == if id in next.layers then next.layers[id].layer else g[id].node)
            && (forall k: Key :: k.layer in next.layers ==> (Has(m, k) <==> Holds(next, k)))
            && (forall k :: Holds(next, k) ==>
                  At(m, k) == if IsChanged(prev, next, k) then Stored(FileOf(next, k), HiddenBy(next, k))
                              else At(g, k).(hidden := HiddenThen(g, prev, next, k)))
  {
    assert b.files[..|b.files|] == b.files;
    MidFiles(g, prev, next, b, |b.files|);
    forall k ensures FileWrite(next, k) in b.files <==> IsChanged(prev, next, k) { AllFileWrites(prev, next, b, k); }
  }

  /** After part of the drops: files and nodes are next's, lists as HiddenThen says less the ids gone. */
  lemma MidDrops(g: GraphState, prev: Plan, next: Plan, b: Batch, n: nat)
    requires ValidPlan(next) && HoldsPlan(g, prev) && IsBatch(prev, next, b) && n <= |b.drops|
    ensures var h := Run(AfterThree(g, b), b.drops[..n]);
            var gone := DropIds(b.drops[..n]);
            && gone <= Dropped(prev, next)
            && h.Keys == (g.Keys + next.layers.Keys) - gone
            && (forall id :: id in h ==> h[id].node == if id in next.layers then next.layers[id].layer else g[id].node)
            && (forall k: Key :: k.layer in next.layers ==> (Has(h, k) <==> Holds(next, k)))
  {
    ThreeDone(g, prev, next, b);
    PartOfDrops(prev, next, b, n);
    AfterDrops(AfterThree(g, b), b.drops[..n]);
  }

  lemma MidDropsFile(g: GraphState, prev: Plan, next: Plan, b: Batch, n: nat, k: Key)
    requires ValidPlan(next) && HoldsPlan(g, prev) && IsBatch(prev, next, b) && n <= |b.drops|
    requires Holds(next, k)
    ensures var h := Run(AfterThree(g, b), b.drops[..n]);
            && Has(h, k) && SameAs(At(h, k), FileOf(next, k))
            && At(h, k).hidden == if IsChanged(prev, next, k) then HiddenBy(next, k)
                                  else HiddenThen(g, prev, next, k) - DropIds(b.drops[..n])
  {
    FileBeforeDrops(g, prev, next, b, k);
    PartOfDrops(prev, next, b, n);
    AfterDrops(AfterThree(g, b), b.drops[..n]);
    assert HiddenBy(next, k) - DropIds(b.drops[..n]) == HiddenBy(next, k);
  }

  lemma FileBeforeDrops(g: GraphState, prev: Plan, next: Plan, b: Batch, k: Key)
    requires ValidPlan(next) && HoldsPlan(g, prev) && IsBatch(prev, next, b) && Holds(next, k)
    ensures var m := AfterThree(g, b);
            && Has(m, k) && SameAs(At(m, k), FileOf(next, k))
            && (!IsChanged(prev, next, k) ==> Has(g, k))
            && At(m, k).hidden == if IsChanged(prev, next, k) then HiddenBy(next, k) else HiddenThen(g, prev, next, k)
  {
    ThreeDone(g, prev, next, b);
    if !IsChanged(prev, next, k) { assert SameAs(At(g, k), FileOf(prev, k)); }
  }

  /** What the whole batch leaves: next's layers and files, and lists right wherever the batch wrote them. */
  lemma AfterBatch(g: GraphState, prev: Plan, next: Plan, b: Batch)
    requires ValidPlan(next) && HoldsPlan(g, prev) && IsBatch(prev, next, b)
    ensures var h := Run(g, All(b));
            && HoldsPlan(h, next)
            && (forall k :: Holds(next, k) ==>
                  At(h, k).hidden == if Kept(prev, next, k) && !Affected(prev, next, k)
                                     then At(g, k).hidden - Dropped(prev, next) else HiddenBy(next, k))
  {
    RunAll(g, b);
    var n := |b.drops|;
    assert b.drops[..n] == b.drops;
    MidDrops(g, prev, next, b, n);
    PartOfDrops(prev, next, b, n);
    var h := Run(g, All(b));
    assert h == Run(AfterThree(g, b), b.drops[..n]);
    forall k | Holds(next, k)
      ensures SameAs(At(h, k), FileOf(next, k))
      ensures At(h, k).hidden == if Kept(prev, next, k) && !Affected(prev, next, k)
                                 then At(g, k).hidden - Dropped(prev, next) else HiddenBy(next, k)
    {
      MidDropsFile(g, prev, next, b, n, k);
      assert HiddenBy(next, k) - Dropped(prev, next) == HiddenBy(next, k);
    }
  }

  lemma RunAll(g: GraphState, b: Batch)
    ensures Run(g, All(b)) == Run(AfterThree(g, b), b.drops)
  {
    RunConcat(g, b.puts + b.hides + b.files, b.drops);
    RunConcat(g, b.puts + b.hides, b.files);
    RunConcat(g, b.puts, b.hides);
  }

  /** A batch settles the graph on its target exactly when the lists it leaves alone are right. */
  lemma BatchExact(g: GraphState, prev: Plan, next: Plan, b: Batch)
    requires ValidPlan(next) && HoldsPlan(g, prev) && IsBatch(prev, next, b)
    ensures Settled(Run(g, All(b)), next) <==> Ready(g, prev, next)
  {
    AfterBatch(g, prev, next, b);
    var h := Run(g, All(b));
    forall k | Holds(next, k)
      ensures At(h, k).hidden == HiddenBy(next, k) <==>
              (Kept(prev, next, k) && !Affected(prev, next, k) ==> RightAfterDrops(g, prev, next, k))
    {
    }
  }

  // ----- the affected set is complete

  /** Outside the affected set, dropping layers is the only way a hiddenBy list changes. */
  lemma UnaffectedIsRight(prev: Plan, next: Plan, k: Key)
    requires Kept(prev, next, k) && !Affected(prev, next, k)
    ensures HiddenBy(prev, k) - Dropped(prev, next) == HiddenBy(next, k)
  {
    forall h ensures h in HiddenBy(prev, k) - Dropped(prev, next) <==> h in HiddenBy(next, k) {
      if h in next.layers && (h in HiddenBy(prev, k) || h in HiddenBy(next, k)) {
        assert BelowEither(prev, next, k.layer, h);
        assert !Touches(prev, next, h, k.path);
        assert !IsChanged(prev, next, Key(h, k.path));
      }
    }
  }

  /** A graph settled on the plan a batch starts from is ready for it. */
  lemma SettledIsReady(g: GraphState, prev: Plan, next: Plan)
    requires Settled(g, prev)
    ensures Ready(g, prev, next)
  {
    forall k | Kept(prev, next, k) && !Affected(prev, next, k) ensures RightAfterDrops(g, prev, next, k) {
      UnaffectedIsRight(prev, next, k);
    }
  }

  /** The batch of two plans takes a graph settled on the first to one settled on the second. */
  lemma BatchSettles(g: GraphState, prev: Plan, next: Plan, b: Batch)
    requires ValidPlan(next) && Settled(g, prev) && IsBatch(prev, next, b)
    ensures Settled(Run(g, All(b)), next)
  {
    SettledIsReady(g, prev, next);
    BatchExact(g, prev, next, b);
  }

  // ----- a batch cut short

  /** The graph a batch leaves when it stops after n writes. */
  ghost function Cut(g: GraphState, b: Batch, n: nat): GraphState
    requires n <= |All(b)|
  {
    Run(g, All(b)[..n])
  }

  lemma CutInFirst(g: GraphState, b: Batch, n: nat)
    requires n <= |b.puts|
    ensures Cut(g, b, n) == Run(g, b.puts[..n])
  {
    assert All(b)[..n] == b.puts[..n];
  }

  lemma CutInSecond(g: GraphState, b: Batch, n: nat, m: nat)
    requires n == |b.puts| + m && m <= |b.hides|
    ensures Cut(g, b, n) == Run(Run(g, b.puts), b.hides[..m])
  {
    CutOfTwo(g, b.puts, b.hides, n);
    assert All(b)[..n] == (b.puts + b.hides)[..n];
  }

  lemma CutInThird(g: GraphState, b: Batch, n: nat, m: nat)
    requires n == |b.puts| + |b.hides| + m && m <= |b.files|
    ensures Cut(g, b, n) == Run(Run(Run(g, b.puts), b.hides), b.files[..m])
  {
    RunConcat(g, b.puts, b.hides);
    CutOfTwo(g, b.puts + b.hides, b.files, n);
    assert All(b)[..n] == (b.puts + b.hides + b.files)[..n];
  }

  lemma CutInFourth(g: GraphState, b: Batch, n: nat, m: nat)
    requires n == |b.puts| + |b.hides| + |b.files| + m && m <= |b.drops|
    ensures Cut(g, b, n) == Run(AfterThree(g, b), b.drops[..m])
  {
    RunConcat(g, b.puts, b.hides);
    RunConcat(g, b.puts + b.hides, b.files);
    CutOfTwo(g, b.puts + b.hides + b.files, b.drops, n);
  }

  lemma CutOfTwo(g: GraphState, xs: seq<Write>, ys: seq<Write>, n: nat)
    requires n <= |xs + ys|
    ensures n <= |xs| ==> (xs + ys)[..n] == xs[..n]
    ensures |xs| <= n ==> Run(g, (xs + ys)[..n]) == Run(Run(g, xs), ys[..n - |xs|])
  {
    if |xs| <= n {
      assert (xs + ys)[..n] == xs + ys[..n - |xs|];
      RunConcat(g, xs, ys[..n - |xs|]);
    }
  }

  // ----- every write of a batch is accepted

  lemma NeverRefused(g: GraphState, prev: Plan, next: Plan, b: Batch, n: nat)
    requires ValidPlan(next) && HoldsPlan(g, prev) && IsBatch(prev, next, b) && n < |All(b)|
    ensures Refuses(Cut(g, b, n), All(b)[n]).None?
  {
    var p, q, r := |b.puts|, |b.hides|, |b.files|;
    if n < p {
      assert All(b)[n] == b.puts[n] && b.puts[n] in b.puts;
    } else if n < p + q {
      HideAccepted(g, prev, next, b, n, n - p);
    } else if n < p + q + r {
      FileAccepted(g, prev, next, b, n, n - p - q);
    } else {
      assert All(b)[n] == b.drops[n - p - q - r] && b.drops[n - p - q - r] in b.drops;
    }
  }

  lemma HideAccepted(g: GraphState, prev: Plan, next: Plan, b: Batch, n: nat, m: nat)
    requires ValidPlan(next) && HoldsPlan(g, prev) && IsBatch(prev, next, b)
    requires n == |b.puts| + m && m < |b.hides|
    ensures Refuses(Cut(g, b, n), All(b)[n]).None?
  {
    HidesAreThere(g, prev, next, b, m);
    WriteInSecond(g, b, n, m);
  }

  lemma WriteInSecond(g: GraphState, b: Batch, n: nat, m: nat)
    requires n == |b.puts| + m && m < |b.hides|
    ensures Cut(g, b, n) == Run(Run(g, b.puts), b.hides[..m]) && All(b)[n] == b.hides[m]
  {
    CutInSecond(g, b, n, m);
  }

  lemma WriteInThird(g: GraphState, b: Batch, n: nat, m: nat)
    requires n == |b.puts| + |b.hides| + m && m < |b.files|
    ensures Cut(g, b, n) == Run(Run(Run(g, b.puts), b.hides), b.files[..m]) && All(b)[n] == b.files[m]
  {
    CutInThird(g, b, n, m);
  }

  lemma HidesAreThere(g: GraphState, prev: Plan, next: Plan, b: Batch, m: nat)
    requires ValidPlan(next) && HoldsPlan(g, prev) && IsBatch(prev, next, b) && m < |b.hides|
    ensures Refuses(Run(Run(g, b.puts), b.hides[..m]), b.hides[m]).None?
  {
    MidHides(g, prev, next, b, m);
    assert b.hides[m] in b.hides;
    assert Has(g, b.hides[m].key);
  }

  lemma FileAccepted(g: GraphState, prev: Plan, next: Plan, b: Batch, n: nat, m: nat)
    requires ValidPlan(next) && HoldsPlan(g, prev) && IsBatch(prev, next, b)
    requires n == |b.puts| + |b.hides| + m && m < |b.files|
    ensures Refuses(Cut(g, b, n), All(b)[n]).None?
  {
    FileLayersAreThere(g, prev, next, b, m);
    WriteInThird(g, b, n, m);
  }

  lemma FileLayersAreThere(g: GraphState, prev: Plan, next: Plan, b: Batch, m: nat)
    requires ValidPlan(next) && HoldsPlan(g, prev) && IsBatch(prev, next, b) && m < |b.files|
    ensures Refuses(Run(Run(Run(g, b.puts), b.hides), b.files[..m]), b.files[m]).None?
  {
    MidFiles(g, prev, next, b, m);
    assert b.files[m] in b.files;
  }
}
