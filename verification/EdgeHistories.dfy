/**
 * Edges over any sequence of batches: which files have exactly the edges they
 * resolve to, and, from the plans and what was carried alone, which edges the
 * graph holds.
 */
module EdgeHistories {
  import opened Plans
  import opened Edges
  import opened Resolving
  import opened Increments
  import opened Resolutions
  import opened ExactEdges
  import Applier

  // ----- one batch

  /** The edges after a batch: its file writes, then its resolution. */
  function AfterBatch(e: Engine, prev: Plan, next: Plan, edges: set<Edge>, pending: set<Key>, leftover: set<Key>): set<Edge> {
    AfterResolving(e, next, Surviving(e, edges, next), Taken(e, prev, next, pending) - leftover)
  }

  /** It is the same when dropped layers take their edges only after the resolution. */
  lemma DropsCommute(e: Engine, prev: Plan, next: Plan, edges: set<Edge>, pending: set<Key>, leftover: set<Key>)
    requires Lawful(e) && Enclosed(e) && ValidPlan(next) && Layered(next)
    ensures AfterBatch(e, prev, next, edges, pending, leftover)
            == Surviving(e, AfterResolving(e, next, edges, Taken(e, prev, next, pending) - leftover), next)
  {
    var done := Taken(e, prev, next, pending) - leftover;
    forall k | k in done ensures k.layer in next.layers { TakenIs(e, prev, next, pending, k); }
    PlanIsHeld(e, next, done);
    forall g ensures g in AfterBatch(e, prev, next, edges, pending, leftover) <==>
                     g in Surviving(e, AfterResolving(e, next, edges, done), next)
    {
      AfterResolvingIs(e, next, edges, done, g);
      AfterResolvingIs(e, next, Surviving(e, edges, next), done, g);
    }
  }

  /** What a batch's file writes leave of a file's edges is what the next plan gives it. */
  ghost predicate IsKept(e: Engine, next: Plan, edges: set<Edge>, k: Key) {
    IsExact(e, next, Surviving(e, edges, next), k.layer, k.path)
  }

  /** A file not taken has exactly its edges after a batch when the file writes leave it them, and has all when it had all. */
  lemma UntakenExact(e: Engine, prev: Plan, next: Plan, edges: set<Edge>, pending: set<Key>, leftover: set<Key>, k: Key)
    requires Lawful(e) && Enclosed(e) && !IsTaken(e, prev, next, pending, k) && k.layer in next.layers
    requires FileIn(e, next, k.layer, k.path).Some?
    ensures var after := AfterBatch(e, prev, next, edges, pending, leftover);
            && (Resolved(e, next, after, k.layer, k.path) <==>
                EdgesOf(e, next, k.layer, FileIn(e, next, k.layer, k.path).value) <= edges)
            && (IsExact(e, next, after, k.layer, k.path) <==> IsKept(e, next, edges, k))
  {
    TakenIs(e, prev, next, pending, k);
    OthersStay(e, next, Surviving(e, edges, next), Taken(e, prev, next, pending) - leftover, k.layer, k.path);
    WantedSurvive(e, edges, next, k.layer, FileIn(e, next, k.layer, k.path).value);
  }

  /** A plan batches accept, lower files having one scope in a view and below it. */
  ghost predicate IsFit(e: Engine, p: Plan) { ValidPlan(p) && Layered(p) && StableScopes(e, p) }

  /** Of the files that are not pending, lost are those whose edges are not exact. */
  ghost predicate Tells(e: Engine, p: Plan, edges: set<Edge>, pending: set<Key>, lost: set<Key>) {
    && AreHeld(e, p, edges)
    && forall l, path :: l in p.layers && Key(l, path) !in pending ==>
         (IsExact(e, p, edges, l, path) <==> Key(l, path) !in lost)
  }

  /** A file a batch overlooks, or has not taken since one did, whose edges are not kept. */
  ghost predicate IsLost(e: Engine, prev: Plan, next: Plan, edges: set<Edge>, pending: set<Key>, lost: set<Key>, k: Key) {
    && !IsTaken(e, prev, next, pending, k) && (Overlooked(e, prev, next, pending, k) || k in lost)
    && !IsKept(e, next, edges, k)
  }

  ghost function LostAfter(e: Engine, prev: Plan, next: Plan, edges: set<Edge>, pending: set<Key>, lost: set<Key>): set<Key> {
    set k | k in AllKeys(next) && IsLost(e, prev, next, edges, pending, lost, k)
  }

  /** From any edges, what a batch neither carries nor loses is exact after it, and what it loses is not. */
  lemma BatchTells(e: Engine, prev: Plan, next: Plan, edges: set<Edge>, pending: set<Key>, lost: set<Key>, leftover: set<Key>)
    requires Regular(e) && IsFit(e, prev) && IsFit(e, next) && Tells(e, prev, edges, pending, lost)
    ensures Tells(e, next, AfterBatch(e, prev, next, edges, pending, leftover), leftover,
                  LostAfter(e, prev, next, edges, pending, lost))
  {
    var done := Taken(e, prev, next, pending) - leftover;
    var mid := Surviving(e, edges, next);
    forall k | k in done ensures k.layer in next.layers { TakenIs(e, prev, next, pending, k); }
    PlanIsHeld(e, next, done);
    forall g | g in AfterResolving(e, next, mid, done) ensures IsHeld(e, next, g) { }
    forall l, path | l in next.layers && Key(l, path) !in leftover
      ensures IsExact(e, next, AfterBatch(e, prev, next, edges, pending, leftover), l, path)
              <==> Key(l, path) !in LostAfter(e, prev, next, edges, pending, lost)
    {
      if FileIn(e, next, l, path).Some? {
        BatchTellsAt(e, prev, next, edges, pending, lost, leftover, l, path);
      }
    }
  }

  lemma BatchTellsAt(e: Engine, prev: Plan, next: Plan, edges: set<Edge>, pending: set<Key>, lost: set<Key>,
                     leftover: set<Key>, l: LayerId, path: Path)
    requires Regular(e) && IsFit(e, prev) && IsFit(e, next) && Tells(e, prev, edges, pending, lost)
    requires l in next.layers && FileIn(e, next, l, path).Some? && Key(l, path) !in leftover
    ensures IsExact(e, next, AfterBatch(e, prev, next, edges, pending, leftover), l, path)
            <==> Key(l, path) !in LostAfter(e, prev, next, edges, pending, lost)
  {
    var k := Key(l, path);
    ShownPath(e, next, l, path);
    TakenIs(e, prev, next, pending, k);
    if IsTaken(e, prev, next, pending, k) {
      DoneIsExact(e, next, Surviving(e, edges, next), Taken(e, prev, next, pending) - leftover, l, path);
    } else {
      UntakenExact(e, prev, next, edges, pending, leftover, k);
      if !Overlooked(e, prev, next, pending, k) && k !in lost {
        LayeredHasViews(prev);
        LayeredHasViews(next);
        WhyUntaken(e, prev, next, pending, l, FileIn(e, next, l, path).value);
        Untouched(e, prev, next, edges, pending, l, path);
      }
    }
  }

  /**
   * From exact edges, whatever else the graph holds, a batch leaves exact
   * edges but for what it carries if and only if the edges of each file it
   * overlooks are kept.
   */
  lemma BatchExactIff(e: Engine, prev: Plan, next: Plan, edges: set<Edge>, pending: set<Key>, leftover: set<Key>)
    requires Regular(e) && IsFit(e, prev) && IsFit(e, next) && IsExactBut(e, prev, edges, pending)
    requires leftover <= Taken(e, prev, next, pending)
    ensures IsExactBut(e, next, AfterBatch(e, prev, next, edges, pending, leftover), leftover)
            <==> forall k :: Overlooked(e, prev, next, pending, k) ==> IsKept(e, next, edges, k)
  {
    BatchTells(e, prev, next, edges, pending, {}, leftover);
    var lost := LostAfter(e, prev, next, edges, pending, {});
    forall k ensures k in lost <==> Overlooked(e, prev, next, pending, k) && !IsKept(e, next, edges, k) {
      if Overlooked(e, prev, next, pending, k) { ShownPath(e, next, k.layer, k.path); }
    }
    forall k | k in lost ensures k !in leftover { TakenIs(e, prev, next, pending, k); }
    forall k | k in lost ensures k.layer in next.layers && k == Key(k.layer, k.path) { }
  }

  // ----- a batch with nothing to write

  /** The plans agree, so nothing is written and nothing resolved. */
  predicate IsNothing(prev: Plan, next: Plan) { EmptyDelta(DiffOf(prev, next)) }

  lemma NothingKeepsChains(e: Engine, prev: Plan, next: Plan)
    requires Agree(prev, next)
    ensures forall l :: l in next.layers ==> SameChain(prev, next, l)
    ensures forall l :: ChangedAt(prev, next, l) == {}
    ensures forall k :: !IsChanged(prev, next, k)
  {
    forall l | l in next.layers ensures SameChain(prev, next, l) {
      Applier.SameChains(prev, next, Parent(next, l), {l});
      ChainIsHeld(next, l);
    }
  }

  lemma NothingKeepsNodes(e: Engine, prev: Plan, next: Plan, edges: set<Edge>)
    requires FactsBySha(e) && Agree(prev, next) && AreHeld(e, prev, edges)
    ensures AreHeld(e, next, edges)
  {
    forall g | g in edges ensures IsHeld(e, next, g) {
      assert IsHeld(e, prev, g);
      SameNode(e, prev, next, g.from);
      SameNode(e, prev, next, g.to);
    }
  }

  lemma SameNode(e: Engine, prev: Plan, next: Plan, n: Node)
    requires FactsBySha(e) && Agree(prev, next) && NodeExists(e, prev, n)
    ensures NodeExists(e, next, n)
  {
    var k := Key(n.layer, n.path);
    assert SameFile(FileOf(prev, k), FileOf(next, k));
  }

  lemma NothingChanges(e: Engine, prev: Plan, next: Plan, edges: set<Edge>, l: LayerId, path: Path)
    requires Regular(e) && IsFit(e, prev) && IsFit(e, next) && Agree(prev, next) && l in next.layers
    ensures IsExact(e, prev, edges, l, path) <==> IsExact(e, next, edges, l, path)
  {
    NothingKeepsChains(e, prev, next);
    SameFileIn(e, prev, next, l, path);
    if FileIn(e, next, l, path).Some? {
      var f := FileIn(e, next, l, path).value;
      LayeredHasView(prev, l);
      LayeredHasView(next, l);
      assert AffectedNames(e, prev, next, l) == {};
      SameEdges(e, prev, next, l, f);
    }
  }

  lemma NothingTells(e: Engine, prev: Plan, next: Plan, edges: set<Edge>, pending: set<Key>, lost: set<Key>)
    requires Regular(e) && IsFit(e, prev) && IsFit(e, next) && IsNothing(prev, next) && Tells(e, prev, edges, pending, lost)
    ensures Tells(e, next, edges, pending, lost)
  {
    EmptyDiff(prev, next);
    NothingKeepsNodes(e, prev, next, edges);
    forall l, path | l in next.layers
      ensures IsExact(e, prev, edges, l, path) <==> IsExact(e, next, edges, l, path)
    {
      NothingChanges(e, prev, next, edges, l, path);
    }
  }

  // ----- any sequence of batches

  /** A batch and what it carries if it writes anything. */
  datatype Round = Round(next: Plan, leftover: set<Key>)

  /** What a project's edges come to: the plan, its edges, what is carried and what is lost. */
  datatype Books = Books(plan: Plan, edges: set<Edge>, pending: set<Key>, lost: set<Key>)

  ghost function Book(e: Engine, b: Books, r: Round): Books {
    if IsNothing(b.plan, r.next) then b.(plan := r.next)
    else
      Books(r.next, AfterBatch(e, b.plan, r.next, b.edges, b.pending, r.leftover), r.leftover,
            LostAfter(e, b.plan, r.next, b.edges, b.pending, b.lost))
  }

  ghost function BookAll(e: Engine, b: Books, rounds: seq<Round>): Books
    decreases |rounds|
  {
    if rounds == [] then b else BookAll(e, Book(e, b, rounds[0]), rounds[1..])
  }

  lemma {:induction false} BookOneMore(e: Engine, b: Books, rounds: seq<Round>, r: Round)
    ensures BookAll(e, b, rounds + [r]) == Book(e, BookAll(e, b, rounds), r)
    decreases |rounds|
  {
    if rounds == [] {
      assert (rounds + [r])[1..] == [];
    } else {
      assert (rounds + [r])[1..] == rounds[1..] + [r];
      BookOneMore(e, Book(e, b, rounds[0]), rounds[1..], r);
    }
  }

  ghost predicate IsBalanced(e: Engine, b: Books) {
    IsFit(e, b.plan) && Tells(e, b.plan, b.edges, b.pending, b.lost)
  }

  const EMPTY_BOOKS := Books(EMPTY_PLAN, {}, {}, {})

  lemma EmptyIsBalanced(e: Engine)
    ensures IsBalanced(e, EMPTY_BOOKS)
  {
  }

  lemma RoundIsBalanced(e: Engine, b: Books, r: Round)
    requires Regular(e) && IsBalanced(e, b) && IsFit(e, r.next)
    ensures IsBalanced(e, Book(e, b, r))
  {
    if IsNothing(b.plan, r.next) {
      NothingTells(e, b.plan, r.next, b.edges, b.pending, b.lost);
    } else {
      BatchTells(e, b.plan, r.next, b.edges, b.pending, b.lost, r.leftover);
    }
  }

  /** In the first batch nothing is lost. */
  lemma FirstIsExact(e: Engine, p: Plan, leftover: set<Key>)
    requires Regular(e) && IsFit(e, p) && !IsNothing(EMPTY_PLAN, p)
    ensures var b := Book(e, EMPTY_BOOKS, Round(p, leftover));
            b.plan == p && b.pending == leftover && b.lost == {} && IsBalanced(e, b)
  {
    EmptyIsBalanced(e);
    RoundIsBalanced(e, EMPTY_BOOKS, Round(p, leftover));
    assert forall k :: !Overlooked(e, EMPTY_PLAN, p, {}, k);
  }

  /** What a batch does not take: its edges are exact when they are kept, and each one stays while its ends do. */
  lemma UntakenInBook(e: Engine, b: Books, prev: Plan, pending: set<Key>, r: Round, k: Key)
    requires Lawful(e) && Enclosed(e) && b.plan == prev && b.pending == pending
    requires !IsNothing(prev, r.next) && k.layer in r.next.layers
    requires !IsTaken(e, prev, r.next, pending, k) && FileIn(e, r.next, k.layer, k.path).Some?
    ensures IsExact(e, r.next, Book(e, b, r).edges, k.layer, k.path) <==> IsKept(e, r.next, b.edges, k)
    ensures forall g :: (g in b.edges && g.layer == k.layer && g.from.path == k.path
                         && NodeExists(e, r.next, g.from) && NodeExists(e, r.next, g.to)) ==> g in Book(e, b, r).edges
  {
    UntakenExact(e, b.plan, r.next, b.edges, b.pending, r.leftover, k);
    TakenIs(e, b.plan, r.next, b.pending, k);
    forall g: Edge | g.layer == k.layer && g.from.path == k.path
      ensures g in Book(e, b, r).edges <==> g in Surviving(e, b.edges, r.next)
    {
      AfterResolvingIs(e, r.next, Surviving(e, b.edges, r.next), Taken(e, b.plan, r.next, b.pending) - r.leftover, g);
    }
  }

  /** In a balanced graph a file neither carried nor lost has the edges it is to have. */
  lemma HasWanted(e: Engine, b: Books, l: LayerId, path: Path)
    requires IsBalanced(e, b) && l in b.plan.layers && Key(l, path) !in b.pending + b.lost
    requires FileIn(e, b.plan, l, path).Some?
    ensures var f := FileIn(e, b.plan, l, path).value; EdgesAt(b.edges, l, f) == EdgesOf(e, b.plan, l, f)
  {
    assert IsExact(e, b.plan, b.edges, l, path);
  }

  /**
   * After any sequence of batches, of the files not carried those that are
   * lost have wrong edges and all others exactly the edges they resolve to.
   */
  lemma {:induction false} HistoryIsExact(e: Engine, b: Books, rounds: seq<Round>)
    requires Regular(e) && IsBalanced(e, b) && forall r :: r in rounds ==> IsFit(e, r.next)
    ensures IsBalanced(e, BookAll(e, b, rounds))
    decreases |rounds|
  {
    if rounds != [] {
      var r := rounds[0];
      assert r in rounds && forall x :: x in rounds[1..] ==> x in rounds;
      RoundIsBalanced(e, b, r);
      HistoryIsExact(e, Book(e, b, r), rounds[1..]);
    }
  }

  /** From an empty graph, all edges but of what is carried are exact if and only if none of the rest is lost. */
  lemma HistoryFromEmpty(e: Engine, rounds: seq<Round>)
    requires Regular(e) && forall r :: r in rounds ==> IsFit(e, r.next)
    ensures var b := BookAll(e, EMPTY_BOOKS, rounds);
            IsExactBut(e, b.plan, b.edges, b.pending) <==>
            forall k :: k in b.lost && k.layer in b.plan.layers ==> k in b.pending
  {
    EmptyIsBalanced(e);
    HistoryIsExact(e, EMPTY_BOOKS, rounds);
    var b := BookAll(e, EMPTY_BOOKS, rounds);
    forall k | k in b.lost && k.layer in b.plan.layers && k !in b.pending
      ensures !IsExact(e, b.plan, b.edges, k.layer, k.path)
    {
      assert k == Key(k.layer, k.path);
    }
  }

  /** One selection: its file writes, then its resolution; nothing at all for one that changes nothing. */
  method ResolveRound(store: EdgeStore, e: Engine, prev: Plan, next: Plan, pending: set<Key>, ghost lost: set<Key>, maxRefs: int)
    returns (leftover: set<Key>, ghost lostNow: set<Key>)
    requires Regular(e) && IsFit(e, next) && IsBalanced(e, Books(prev, store.edges, pending, lost))
    modifies store
    ensures !IsNothing(prev, next) ==> IsLeftover(e, prev, next, pending, maxRefs, leftover)
    ensures Books(next, store.edges, leftover, lostNow)
            == Book(e, Books(prev, old(store.edges), pending, lost), Round(next, leftover))
    ensures IsBalanced(e, Books(next, store.edges, leftover, lostNow))
  {
    RoundIsBalanced(e, Books(prev, store.edges, pending, lost), Round(next, pending));
    if IsNothing(prev, next) { return pending, lost; }
    ghost var edges := store.edges;
    store.Keep(Surviving(e, store.edges, next));
    leftover := ResolveBatch(store, e, prev, next, pending, maxRefs);
    lostNow := LostAfter(e, prev, next, edges, pending, lost);
    RoundIsBalanced(e, Books(prev, edges, pending, lost), Round(next, leftover));
  }

  // ----- the edges a history leaves

  function PlanBefore(p: Plan, rounds: seq<Round>, i: nat): Plan
    requires i <= |rounds|
  {
    if i == 0 then p else rounds[i - 1].next
  }

  /** What is carried into the i-th batch. */
  function CarriedInto(p: Plan, pending: set<Key>, rounds: seq<Round>, i: nat): set<Key>
    requires i <= |rounds|
  {
    if i == 0 then pending
    else if IsNothing(PlanBefore(p, rounds, i - 1), rounds[i - 1].next) then CarriedInto(p, pending, rounds, i - 1)
    else rounds[i - 1].leftover
  }

  /** The files the i-th batch resolves. */
  function ResolvedBy(e: Engine, p: Plan, pending: set<Key>, rounds: seq<Round>, i: nat): set<Key>
    requires i < |rounds|
  {
    var prev := PlanBefore(p, rounds, i);
    if IsNothing(prev, rounds[i].next) then {}
    else Taken(e, prev, rounds[i].next, CarriedInto(p, pending, rounds, i)) - rounds[i].leftover
  }

  /** The i-th batch writes the edge. */
  predicate WritesEdge(e: Engine, p: Plan, pending: set<Key>, rounds: seq<Round>, i: nat, g: Edge)
    requires i < |rounds|
  {
    g in EdgesOfAll(e, rounds[i].next, ResolvedBy(e, p, pending, rounds, i))
  }

  /** It leaves the edge alone: its layer and both ends stay, and the file it is from is not resolved in the layer. */
  predicate LeavesEdge(e: Engine, p: Plan, pending: set<Key>, rounds: seq<Round>, i: nat, g: Edge)
    requires i < |rounds|
  {
    IsNothing(PlanBefore(p, rounds, i), rounds[i].next) ||
    (&& g.layer in rounds[i].next.layers
     && NodeExists(e, rounds[i].next, g.from) && NodeExists(e, rounds[i].next, g.to)
     && !IsOwned(e, rounds[i].next, ResolvedBy(e, p, pending, rounds, i), g))
  }

  /** Of the first n steps some one writes and all after it leave alone. */
  ghost predicate IsLast(writes: nat -> bool, leaves: nat -> bool, n: nat) {
    exists i: nat :: i < n && writes(i) && AllLeave(leaves, i + 1, n)
  }

  ghost predicate AllLeave(leaves: nat -> bool, i: nat, n: nat) {
    forall j: nat :: i <= j < n ==> leaves(j)
  }

  lemma AllOneMore(leaves: nat -> bool, i: nat, n: nat)
    requires i <= n
    ensures AllLeave(leaves, i, n + 1) <==> AllLeave(leaves, i, n) && leaves(n)
  {
    if AllLeave(leaves, i, n + 1) { assert leaves(n); }
  }

  lemma LastOneMore(writes: nat -> bool, leaves: nat -> bool, n: nat)
    ensures IsLast(writes, leaves, n + 1) <==> writes(n) || (IsLast(writes, leaves, n) && leaves(n))
  {
    if writes(n) { assert AllLeave(leaves, n + 1, n + 1); }
    if IsLast(writes, leaves, n) && leaves(n) {
      var i: nat :| i < n && writes(i) && AllLeave(leaves, i + 1, n);
      assert AllLeave(leaves, i + 1, n + 1);
    }
    if IsLast(writes, leaves, n + 1) && !writes(n) {
      var i: nat :| i < n + 1 && writes(i) && AllLeave(leaves, i + 1, n + 1);
      assert AllLeave(leaves, i + 1, n) && leaves(n);
    }
  }

  ghost function Writes(e: Engine, p: Plan, pending: set<Key>, rounds: seq<Round>, g: Edge): nat -> bool {
    (i: nat) => i < |rounds| && WritesEdge(e, p, pending, rounds, i, g)
  }

  ghost function Leaves(e: Engine, p: Plan, pending: set<Key>, rounds: seq<Round>, g: Edge): nat -> bool {
    (i: nat) => i < |rounds| && LeavesEdge(e, p, pending, rounds, i, g)
  }

  /** Of the first n batches the last to resolve the edge's source wrote it, and its ends stayed. */
  ghost predicate IsLastWritten(e: Engine, p: Plan, pending: set<Key>, rounds: seq<Round>, n: nat, g: Edge) {
    IsLast(Writes(e, p, pending, rounds, g), Leaves(e, p, pending, rounds, g), n)
  }

  lemma BookSteps(e: Engine, b: Books, rounds: seq<Round>, n: nat)
    requires n < |rounds|
    ensures BookAll(e, b, rounds[..n + 1]) == Book(e, BookAll(e, b, rounds[..n]), rounds[n])
  {
    assert rounds[..n + 1] == rounds[..n] + [rounds[n]];
    BookOneMore(e, b, rounds[..n], rounds[n]);
  }

  lemma PlansBefore(e: Engine, b: Books, rounds: seq<Round>, n: nat)
    requires n <= |rounds|
    ensures BookAll(e, b, rounds[..n]).plan == PlanBefore(b.plan, rounds, n)
  {
    if n > 0 {
      var m := n - 1;
      BookSteps(e, b, rounds, m);
      BookCarries(e, BookAll(e, b, rounds[..m]), rounds[m]);
      assert rounds[..m + 1] == rounds[..n];
    } else {
      assert rounds[..0] == [];
    }
  }

  lemma {:induction false} BooksBefore(e: Engine, b: Books, rounds: seq<Round>, n: nat)
    requires n <= |rounds|
    ensures BookAll(e, b, rounds[..n]).pending == CarriedInto(b.plan, b.pending, rounds, n)
  {
    if n > 0 {
      var m := n - 1;
      BooksBefore(e, b, rounds, m);
      PlansBefore(e, b, rounds, m);
      BookSteps(e, b, rounds, m);
      BookCarries(e, BookAll(e, b, rounds[..m]), rounds[m]);
      assert rounds[..m + 1] == rounds[..n];
    } else {
      assert rounds[..0] == [];
    }
  }

  lemma BookCarries(e: Engine, b: Books, r: Round)
    ensures Book(e, b, r).plan == r.next
    ensures Book(e, b, r).pending == if IsNothing(b.plan, r.next) then b.pending else r.leftover
  {
  }

  lemma EdgeStep(e: Engine, b: Books, rounds: seq<Round>, n: nat, g: Edge)
    requires n < |rounds|
    ensures g in BookAll(e, b, rounds[..n + 1]).edges <==>
            || WritesEdge(e, b.plan, b.pending, rounds, n, g)
            || (g in BookAll(e, b, rounds[..n]).edges && LeavesEdge(e, b.plan, b.pending, rounds, n, g))
  {
    BookSteps(e, b, rounds, n);
    PlansBefore(e, b, rounds, n);
    BooksBefore(e, b, rounds, n);
  }

  /**
   * After any sequence of batches the graph holds exactly the edges that the
   * last batch to resolve their source wrote and whose ends stayed since.
   */
  lemma {:induction false} HistoryEdges(e: Engine, b: Books, rounds: seq<Round>, n: nat, g: Edge)
    requires n <= |rounds|
    ensures g in BookAll(e, b, rounds[..n]).edges <==>
            || (g in b.edges && AllLeave(Leaves(e, b.plan, b.pending, rounds, g), 0, n))
            || IsLastWritten(e, b.plan, b.pending, rounds, n, g)
  {
    if n > 0 {
      var m := n - 1;
      HistoryEdges(e, b, rounds, m, g);
      EdgeStep(e, b, rounds, m, g);
      AllOneMore(Leaves(e, b.plan, b.pending, rounds, g), 0, m);
      LastOneMore(Writes(e, b.plan, b.pending, rounds, g), Leaves(e, b.plan, b.pending, rounds, g), m);
    }
  }

  /**
   * So from the plans and what was carried alone: a file's edges are exact
   * after a history if and only if those last written for it are the ones it
   * resolves to.
   */
  lemma ExactByHistory(e: Engine, rounds: seq<Round>, l: LayerId, path: Path)
    requires Enclosed(e) && rounds != [] && FileIn(e, rounds[|rounds| - 1].next, l, path).Some?
    ensures var p := rounds[|rounds| - 1].next;
            var f := FileIn(e, p, l, path).value;
            IsExact(e, p, BookAll(e, EMPTY_BOOKS, rounds).edges, l, path) <==>
            forall g: Edge :: g.layer == l && g.from in SymbolNodes(f) ==>
              (IsLastWritten(e, EMPTY_PLAN, {}, rounds, |rounds|, g) <==> g in EdgesOf(e, p, l, f))
  {
    var p := rounds[|rounds| - 1].next;
    var f := FileIn(e, p, l, path).value;
    var edges := BookAll(e, EMPTY_BOOKS, rounds).edges;
    forall g ensures g in edges <==> IsLastWritten(e, EMPTY_PLAN, {}, rounds, |rounds|, g) {
      assert rounds[..|rounds|] == rounds;
      HistoryEdges(e, EMPTY_BOOKS, rounds, |rounds|, g);
    }
    forall g | g in EdgesOf(e, p, l, f) ensures g.layer == l && g.from in SymbolNodes(f) {
      EdgeIsOf(e, p, l, path, g);
    }
  }
}
