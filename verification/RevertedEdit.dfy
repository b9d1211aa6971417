/**
 * Where a changed target breaks crash recovery: a batch is cut among its
 * hides, and the next selection is the one before it again, because the edit
 * it was to write is gone.  No chain of parents moves.
 */
module RevertedEdit {
  import opened Wrappers
  import opened Plans
  import opened Graphs
  import opened Batches
  import opened Convergence
  import opened Attempts
  import opened Reads
  import opened Visibility
  import opened MovedOverlay
  import Applier

  /** a has no layer prev lacks and moves none: only files differ. */
  ghost predicate OnlyFilesDiffer(prev: Plan, a: Plan) {
    forall id :: id in a.layers ==> id in prev.layers && a.layers[id].layer == prev.layers[id].layer
  }

  /** h has g's nodes and files, and lists those of a's where the hides up to m wrote them. */
  ghost predicate IsHidden(g: GraphState, a: Plan, hides: seq<Write>, h: GraphState) {
    && h.Keys == g.Keys
    && (forall id :: id in h ==> h[id].node == g[id].node)
    && (forall k :: Has(h, k) <==> Has(g, k))
    && (forall k :: Has(g, k) ==>
          At(h, k) == if SetHidden(k, HiddenBy(a, k)) in hides then At(g, k).(hidden := HiddenBy(a, k)) else At(g, k))
  }

  lemma CutAmongHides(g: GraphState, prev: Plan, a: Plan, b: Batch, n: nat, m: nat)
    requires ValidPlan(a) && HoldsPlan(g, prev) && IsBatch(prev, a, b) && OnlyFilesDiffer(prev, a)
    requires n == |b.puts| + m && m <= |b.hides|
    ensures IsHidden(g, a, b.hides[..m], Cut(g, b, n))
  {
    CutInSecond(g, b, n, m);
    MidHides(g, prev, a, b, m);
  }

  lemma HoldsAsBefore(g: GraphState, prev: Plan, a: Plan, hides: seq<Write>, h: GraphState, prev1: Plan)
    requires HoldsPlan(g, prev) && IsHidden(g, a, hides, h)
    ensures HoldsPlan(h, prev)
    ensures HoldsPlan(h, prev1) ==> Agree(prev1, prev)
  {
  }

  /** Nothing is to be written: the plan read back and the target agree. */
  lemma NothingAffected(prev1: Plan, prev: Plan, k: Key)
    requires Agree(prev1, prev)
    ensures !Affected(prev1, prev, k)
    ensures Kept(prev1, prev, k) <==> Holds(prev, k)
  {
    forall l | l in prev.layers ensures !Touches(prev1, prev, l, k.path) {
      Applier.SameChains(prev1, prev, Parent(prev, l), {l});
    }
  }

  /** A batch with nothing to write settles the graph exactly when it is settled. */
  lemma NothingMakesGood(h: GraphState, prev1: Plan, prev: Plan, back: Batch)
    requires ValidPlan(prev) && HoldsPlan(h, prev1) && Agree(prev1, prev) && IsBatch(prev1, prev, back)
    ensures Settled(Run(h, All(back)), prev) <==> forall k :: Holds(prev, k) ==> ListIn(h, k) == HiddenBy(prev, k)
  {
    BatchExact(h, prev1, prev, back);
    assert Dropped(prev1, prev) == {};
    forall k ensures !Affected(prev1, prev, k) && (Kept(prev1, prev, k) <==> Holds(prev, k)) {
      NothingAffected(prev1, prev, k);
    }
    assert forall k :: Holds(prev, k) ==> Has(h, k);
  }

  /**
   * Cut among its hides and reverted, a batch is made good if and only if no
   * list it wrote differs from the one before; the graph reads back as what it
   * held, so the complete batch back has nothing to write.
   */
  lemma RevertExact(g: GraphState, prev: Plan, a: Plan, b: Batch, n: nat, prev1: Plan, back: Batch)
    requires ValidPlan(prev) && ValidPlan(a) && Settled(g, prev) && IsBatch(prev, a, b) && OnlyFilesDiffer(prev, a)
    requires |b.puts| <= n <= |b.puts| + |b.hides|
    requires HoldsPlan(Cut(g, b, n), prev1) && IsBatch(prev1, prev, back)
    ensures EmptyDelta(DiffOf(prev1, prev))
    ensures Settled(Run(Cut(g, b, n), All(back)), prev) <==>
            forall k :: SetHidden(k, HiddenBy(a, k)) in b.hides[..n - |b.puts|] ==> HiddenBy(a, k) == HiddenBy(prev, k)
  {
    var h, m := Cut(g, b, n), n - |b.puts|;
    CutAmongHides(g, prev, a, b, n, m);
    HoldsAsBefore(g, prev, a, b.hides[..m], h, prev1);
    EmptyDiff(prev1, prev);
    NothingMakesGood(h, prev1, prev, back);
    HidesAreOfPrev(prev, a, b, m);
    ListsAfterHides(g, prev, a, b.hides[..m], h);
  }

  lemma HidesAreOfPrev(prev: Plan, a: Plan, b: Batch, m: nat)
    requires IsBatch(prev, a, b) && m <= |b.hides|
    ensures forall w :: w in b.hides[..m] ==> w.SetHidden? && Holds(prev, w.key)
  {
    forall w | w in b.hides[..m] ensures w.SetHidden? && Holds(prev, w.key) { assert w in b.hides; }
  }

  lemma ListsAfterHides(g: GraphState, prev: Plan, a: Plan, hides: seq<Write>, h: GraphState)
    requires Settled(g, prev) && IsHidden(g, a, hides, h)
    requires forall w :: w in hides ==> w.SetHidden? && Holds(prev, w.key)
    ensures (forall k :: Holds(prev, k) ==> ListIn(h, k) == HiddenBy(prev, k)) <==>
            forall k :: SetHidden(k, HiddenBy(a, k)) in hides ==> HiddenBy(a, k) == HiddenBy(prev, k)
  {
    forall k | SetHidden(k, HiddenBy(a, k)) in hides ensures Holds(prev, k) {
      assert SetHidden(k, HiddenBy(a, k)).key == k;
    }
    assert forall k :: Holds(prev, k) ==> Has(g, k) && At(g, k).hidden == HiddenBy(prev, k);
  }

  /** Every list written before the cut stays: the graph holds prev with lists of a. */
  lemma RevertKeepsLists(g: GraphState, prev: Plan, a: Plan, b: Batch, n: nat, prev1: Plan, back: Batch, k: Key)
    requires ValidPlan(prev) && ValidPlan(a) && HoldsPlan(g, prev) && IsBatch(prev, a, b) && OnlyFilesDiffer(prev, a)
    requires |b.puts| <= n <= |b.puts| + |b.hides|
    requires HoldsPlan(Cut(g, b, n), prev1) && IsBatch(prev1, prev, back)
    requires SetHidden(k, HiddenBy(a, k)) in b.hides[..n - |b.puts|]
    ensures var h := Run(Cut(g, b, n), All(back)); HoldsPlan(h, prev) && ListIn(h, k) == HiddenBy(a, k)
  {
    var c, m := Cut(g, b, n), n - |b.puts|;
    CutAmongHides(g, prev, a, b, n, m);
    HoldsAsBefore(g, prev, a, b.hides[..m], c, prev1);
    HidesAreOfPrev(prev, a, b, m);
    assert SetHidden(k, HiddenBy(a, k)).key == k;
    NothingRewrites(c, prev1, prev, back, k);
  }

  lemma NothingRewrites(c: GraphState, prev1: Plan, prev: Plan, back: Batch, k: Key)
    requires ValidPlan(prev) && HoldsPlan(c, prev1) && Agree(prev1, prev) && IsBatch(prev1, prev, back) && Holds(prev, k)
    ensures HoldsPlan(Run(c, All(back)), prev) && ListIn(Run(c, All(back)), k) == ListIn(c, k)
  {
    NothingAffected(prev1, prev, k);
    AfterBatch(c, prev1, prev, back);
    assert Dropped(prev1, prev) == {};
  }

  // ----- an edit of a base file, reverted

  /** A base that holds a path as pushed, and a session's overlay that may hold it edited. */
  datatype Session = Session(base: LayerId, overlay: LayerId, path: Path, pushed: string, edited: string)

  function BaseNodeOf(s: Session): Layer { Layer(s.base, BaseKind, "", "", "", "") }

  function OverlayNodeOf(s: Session): Layer { Layer(s.overlay, WorktreeKind, s.base, "", "", "") }

  function Plain(s: Session): Plan {
    Plan("", map[s.base := LayerPlan(BaseNodeOf(s), map[s.path := Blob(s.pushed)]),
                 s.overlay := LayerPlan(OverlayNodeOf(s), map[])])
  }

  function Edited(s: Session): Plan {
    Plan("", map[s.base := LayerPlan(BaseNodeOf(s), map[s.path := Blob(s.pushed)]),
                 s.overlay := LayerPlan(OverlayNodeOf(s), map[s.path := Blob(s.edited)])])
  }

  predicate IsSession(s: Session) {
    s.base != s.overlay && s.base != "" && s.overlay != "" && ValidLayer(BaseNodeOf(s)) && ValidLayer(OverlayNodeOf(s))
  }

  lemma SessionExists(path: Path, pushed: string, edited: string)
    ensures IsSession(Session("base", "wt:w:f", path, pushed, edited))
  {
    OverlayParses();
    assert |"base"| == 4 && |"wt:w:f"| == 6;
  }

  lemma PlansAreValid(s: Session)
    requires IsSession(s)
    ensures ValidPlan(Plain(s)) && ValidPlan(Edited(s)) && OnlyFilesDiffer(Plain(s), Edited(s))
  {
    TwoLayers(Plain(s), s.base, s.overlay);
    TwoLayers(Edited(s), s.base, s.overlay);
  }

  lemma TwoLayers(p: Plan, a: LayerId, b: LayerId)
    requires p.layers.Keys == {a, b}
    requires p.layers[a].layer.id == a && ValidLayer(p.layers[a].layer)
    requires p.layers[b].layer.id == b && ValidLayer(p.layers[b].layer)
    requires forall id, f :: id in p.layers && f in p.layers[id].files ==> !p.layers[id].files[f].deleted
    ensures ValidPlan(p)
  {
  }

  lemma OverlayOnBase(s: Session, p: Plan)
    requires IsSession(s) && p.layers.Keys == {s.base, s.overlay}
    requires p.layers[s.base].layer == BaseNodeOf(s) && p.layers[s.overlay].layer == OverlayNodeOf(s)
    ensures Ancestors(p, s.base) == [] && Ancestors(p, s.overlay) == [s.base]
  {
    assert Parent(p, s.base) == "" && Parent(p, s.overlay) == s.base;
    assert Walk(p, s.base, {s.overlay}) == [s.base] + Walk(p, "", {s.overlay} + {s.base});
  }

  /** The edit hides the base's file; without it nothing does. */
  lemma EditHides(s: Session)
    requires IsSession(s)
    ensures HiddenBy(Edited(s), Key(s.base, s.path)) == {s.overlay}
    ensures HiddenBy(Plain(s), Key(s.base, s.path)) == {}
    ensures Pending(Plain(s), Edited(s), Key(s.base, s.path))
  {
    var prev, a, k := Plain(s), Edited(s), Key(s.base, s.path);
    OverlayOnBase(s, prev);
    OverlayOnBase(s, a);
    assert IsChanged(prev, a, Key(s.overlay, s.path));
    assert Touches(prev, a, s.overlay, k.path) && BelowEither(prev, a, k.layer, s.overlay);
    assert !IsChanged(prev, a, k);
  }

  /**
   * The session's view loses the base's file: it stays hidden by an overlay
   * that does not hold it, and since the graph reads back as the selection
   * there is nothing to write.
   */
  lemma RevertedEditHidesBase(s: Session, g: GraphState, b: Batch, n: nat, prev1: Plan, back: Batch)
    requires IsSession(s) && Settled(g, Plain(s)) && IsBatch(Plain(s), Edited(s), b) && n == |b.puts| + |b.hides|
    requires HoldsPlan(Cut(g, b, n), prev1) && IsBatch(prev1, Plain(s), back)
    ensures var h := Run(Cut(g, b, n), All(back));
            && HoldsPlan(h, Plain(s)) && !Settled(h, Plain(s)) && EmptyDelta(DiffOf(prev1, Plain(s)))
            && LosesBase(s, h)
  {
    PlansAreValid(s);
    EditHides(s);
    RevertHides(g, Plain(s), Edited(s), b, n, prev1, back, Key(s.base, s.path));
    OverlayViewShowsNone(s, Run(Cut(g, b, n), All(back)));
  }

  /** The overlay's chain shows the base's file, and reading h through the overlay's view shows no file of the path. */
  ghost predicate LosesBase(s: Session, h: GraphState) {
    var chain := Chain(Plain(s), s.overlay);
    && Shown(Plain(s), chain, s.path) == Some(s.base)
    && forall a :: !Visible(h, Reverse(chain), Key(a, s.path))
  }

  /** Cut after its hides and reverted, a batch leaves each file it was to hide as it was to be hidden. */
  lemma RevertHides(g: GraphState, prev: Plan, a: Plan, b: Batch, n: nat, prev1: Plan, back: Batch, k: Key)
    requires ValidPlan(prev) && ValidPlan(a) && HoldsPlan(g, prev) && IsBatch(prev, a, b) && OnlyFilesDiffer(prev, a)
    requires n == |b.puts| + |b.hides| && HoldsPlan(Cut(g, b, n), prev1) && IsBatch(prev1, prev, back)
    requires Pending(prev, a, k) && HiddenBy(a, k) != HiddenBy(prev, k)
    ensures var h := Run(Cut(g, b, n), All(back)); HoldsPlan(h, prev) && ListIn(h, k) == HiddenBy(a, k) && !Settled(h, prev)
    ensures EmptyDelta(DiffOf(prev1, prev))
  {
    var hides := b.hides[..n - |b.puts|];
    assert hides == b.hides;
    AllHidesHave(prev, a, b.hides, k);
    RevertKeepsLists(g, prev, a, b, n, prev1, back, k);
    RevertReadsBack(g, prev, a, b, n, prev1);
  }

  lemma AllHidesHave(prev: Plan, a: Plan, hides: seq<Write>, k: Key)
    requires IsHideList(prev, a, hides) && Pending(prev, a, k)
    ensures SetHidden(k, HiddenBy(a, k)) in hides && Holds(prev, k)
  {
  }

  lemma RevertReadsBack(g: GraphState, prev: Plan, a: Plan, b: Batch, n: nat, prev1: Plan)
    requires ValidPlan(a) && HoldsPlan(g, prev) && IsBatch(prev, a, b) && OnlyFilesDiffer(prev, a)
    requires |b.puts| <= n <= |b.puts| + |b.hides| && HoldsPlan(Cut(g, b, n), prev1)
    ensures EmptyDelta(DiffOf(prev1, prev))
  {
    CutAmongHides(g, prev, a, b, n, n - |b.puts|);
    HoldsAsBefore(g, prev, a, b.hides[..n - |b.puts|], Cut(g, b, n), prev1);
    EmptyDiff(prev1, prev);
  }

  lemma OverlayViewShowsNone(s: Session, h: GraphState)
    requires IsSession(s) && HoldsPlan(h, Plain(s)) && ListIn(h, Key(s.base, s.path)) == {s.overlay}
    ensures LosesBase(s, h)
  {
    var p := Plain(s);
    OverlayOnBase(s, p);
    ViewOfTwo(p, s.base, s.overlay, s.path);
    forall a ensures !Visible(h, Reverse(Chain(p, s.overlay)), Key(a, s.path)) {
      if Has(h, Key(a, s.path)) { assert a == s.base; }
    }
  }

  lemma ViewOfTwo(p: Plan, base: LayerId, overlay: LayerId, path: Path)
    requires Ancestors(p, overlay) == [base] && !Holds(p, Key(overlay, path)) && Holds(p, Key(base, path))
    requires !FileOf(p, Key(base, path)).deleted
    ensures Shown(p, Chain(p, overlay), path) == Some(base) && overlay in Reverse(Chain(p, overlay))
  {
    var chain := Chain(p, overlay);
    assert chain == [overlay, base] && chain[1..] == [base];
    assert TopHolder(p, [base], path) == Some(base);
    ReverseMembers(chain);
  }
}
