/**
 * Runs of interrupted and complete batches, each to a target of its own.  A
 * failed turn saves no cursor and the next one selects from the trees as they
 * are by then, so what it writes may be another plan; a list an interrupted
 * batch wrote for its target stays when no later batch affects it.
 */
module Attempts {
  import opened Plans
  import opened Graphs
  import opened Batches
  import opened Convergence
  import opened Crashes

  // ----- the list of one file after any part of a batch

  /** A write a batch to target makes. */
  predicate IsWriteTo(target: Plan, w: Write) {
    match w
    case PutLayer(_) => true
    case SetHidden(k, hidden) => hidden == HiddenBy(target, k)
    case RemoveFile(k) => !Holds(target, k)
    case ApplyFile(k, _, _) => Holds(target, k) && w == FileWrite(target, k)
    case DropLayer(id) => id !in target.layers
  }

  /** The writes give k its list of the target. */
  predicate Relisted(target: Plan, ws: seq<Write>, k: Key) {
    SetHidden(k, HiddenBy(target, k)) in ws || (Holds(target, k) && FileWrite(target, k) in ws)
  }

  /** The list k has after the writes, when it had list before. */
  function ListAfter(list: set<LayerId>, target: Plan, ws: seq<Write>, k: Key): set<LayerId> {
    (if Relisted(target, ws, k) then HiddenBy(target, k) else list) - DropIds(ws)
  }

  function ListIn(g: GraphState, k: Key): set<LayerId> {
    if Has(g, k) then At(g, k).hidden else {}
  }

  /** Whatever part of a batch is done, each file has its list of the target if relisted, else its old one, less the ids dropped. */
  lemma {:induction false} ListAfterWrites(g: GraphState, target: Plan, ws: seq<Write>, k: Key)
    requires forall w :: w in ws ==> IsWriteTo(target, w)
    ensures Has(Run(g, ws), k) ==> At(Run(g, ws), k).hidden == ListAfter(ListIn(g, k), target, ws, k)
    ensures Has(Run(g, ws), k) ==> Has(g, k) || Relisted(target, ws, k)
  {
    if ws == [] {
    } else {
      var pre, w := ws[..|ws| - 1], ws[|ws| - 1];
      assert ws == pre + [w];
      ListAfterWrites(g, target, pre, k);
      ListAfterWrite(Run(g, pre), target, w, k);
      ListAfterBoth(ListIn(g, k), target, pre, w, k);
    }
  }

  lemma ListAfterWrite(m: GraphState, target: Plan, w: Write, k: Key)
    requires IsWriteTo(target, w)
    ensures Has(Step(m, w), k) ==> At(Step(m, w), k).hidden == ListAfter(ListIn(m, k), target, [w], k)
    ensures Has(Step(m, w), k) ==> Has(m, k) || Relisted(target, [w], k)
  {
  }

  lemma ListAfterBoth(list: set<LayerId>, target: Plan, pre: seq<Write>, w: Write, k: Key)
    requires IsWriteTo(target, w) && forall v :: v in pre ==> IsWriteTo(target, v)
    ensures Relisted(target, pre + [w], k) <==> Relisted(target, pre, k) || Relisted(target, [w], k)
    ensures Relisted(target, [w], k) ==> ListAfter(list, target, pre + [w], k) == HiddenBy(target, k)
    ensures ListAfter(ListAfter(list, target, pre, k), target, [w], k) == ListAfter(list, target, pre + [w], k)
  {
    assert forall v :: v in pre + [w] <==> v in pre || v == w;
    assert DropIds(pre + [w]) == DropIds(pre) + DropIds([w]);
    assert HiddenBy(target, k) !! DropIds(pre + [w]);
  }

  lemma BatchWritesTo(prev: Plan, target: Plan, b: Batch, n: nat)
    requires IsBatch(prev, target, b) && n <= |All(b)|
    ensures forall w :: w in All(b)[..n] ==> IsWriteTo(target, w)
  {
    forall w | w in All(b)[..n] ensures IsWriteTo(target, w) {
      assert w in All(b);
      assert w in b.puts || w in b.hides || w in b.files || w in b.drops;
    }
  }

  // ----- one attempt after another

  /** A batch to a target of its own, from a plan the graph holds, and where it stopped. */
  datatype Attempt = Attempt(prev: Plan, target: Plan, batch: Batch, writes: nat)

  function Done(t: Attempt): seq<Write>
    requires t.writes <= |All(t.batch)|
  {
    All(t.batch)[..t.writes]
  }

  /** t is a batch from what g holds. */
  ghost predicate IsAttempt(g: GraphState, t: Attempt) {
    && t.writes <= |All(t.batch)|
    && ValidPlan(t.target) && HoldsPlan(g, t.prev) && IsBatch(t.prev, t.target, t.batch)
  }

  /** Each attempt starts from the graph the one before it left. */
  ghost predicate Attempted(g: GraphState, tries: seq<Attempt>)
    decreases |tries|
  {
    tries == [] || (IsAttempt(g, tries[0]) && Attempted(Run(g, Done(tries[0])), tries[1..]))
  }

  ghost function AfterAll(g: GraphState, tries: seq<Attempt>): GraphState
    requires Attempted(g, tries)
    decreases |tries|
  {
    if tries == [] then g else AfterAll(Run(g, Done(tries[0])), tries[1..])
  }

  /** The list the attempts leave a file: its list of the last target it was relisted for, less the ids dropped since. */
  function Left(list: set<LayerId>, tries: seq<Attempt>, k: Key): set<LayerId>
    requires forall t :: t in tries ==> t.writes <= |All(t.batch)|
    decreases |tries|
  {
    if tries == [] then list else Left(ListAfter(list, tries[0].target, Done(tries[0]), k), tries[1..], k)
  }

  lemma {:induction false} AttemptedWrites(g: GraphState, tries: seq<Attempt>)
    requires Attempted(g, tries)
    ensures forall t :: t in tries ==> t.writes <= |All(t.batch)|
    decreases |tries|
  {
    if tries != [] {
      AttemptedWrites(Run(g, Done(tries[0])), tries[1..]);
      assert tries == [tries[0]] + tries[1..];
    }
  }

  lemma {:induction false} LeftAfterAll(g: GraphState, tries: seq<Attempt>, k: Key, list: set<LayerId>)
    requires Attempted(g, tries) && (Has(g, k) ==> list == At(g, k).hidden)
    ensures forall t :: t in tries ==> t.writes <= |All(t.batch)|
    ensures Has(AfterAll(g, tries), k) ==> At(AfterAll(g, tries), k).hidden == Left(list, tries, k)
    decreases |tries|
  {
    AttemptedWrites(g, tries);
    if tries != [] {
      var t := tries[0];
      var h := Run(g, Done(t));
      BatchWritesTo(t.prev, t.target, t.batch, t.writes);
      ListAfterWrites(g, t.target, Done(t), k);
      LeftAfterAll(h, tries[1..], k, ListAfter(list, t.target, Done(t), k));
    }
  }

  lemma {:induction false} OneMoreAttempt(g: GraphState, tries: seq<Attempt>, t: Attempt)
    requires Attempted(g, tries) && IsAttempt(AfterAll(g, tries), t)
    ensures Attempted(g, tries + [t]) && AfterAll(g, tries + [t]) == Run(AfterAll(g, tries), Done(t))
    decreases |tries|
  {
    if tries == [] {
      FirstAttempt(g, t, []);
    } else {
      OneMoreAttempt(Run(g, Done(tries[0])), tries[1..], t);
      FirstAttempt(g, tries[0], tries[1..] + [t]);
      assert tries + [t] == [tries[0]] + (tries[1..] + [t]);
    }
  }

  lemma FirstAttempt(g: GraphState, t: Attempt, rest: seq<Attempt>)
    requires IsAttempt(g, t) && Attempted(Run(g, Done(t)), rest)
    ensures Attempted(g, [t] + rest) && AfterAll(g, [t] + rest) == AfterAll(Run(g, Done(t)), rest)
  {
    assert ([t] + rest)[1..] == rest;
  }

  /** After any attempts, a graph is settled on what it holds exactly when each file's list is its list of that plan. */
  lemma SettledExact(g: GraphState, tries: seq<Attempt>, p: Plan)
    requires Attempted(g, tries) && HoldsPlan(AfterAll(g, tries), p)
    ensures forall t :: t in tries ==> t.writes <= |All(t.batch)|
    ensures Settled(AfterAll(g, tries), p) <==> forall k :: Holds(p, k) ==> Left(ListIn(g, k), tries, k) == HiddenBy(p, k)
  {
    var h := AfterAll(g, tries);
    AttemptedWrites(g, tries);
    forall k | Has(h, k) ensures At(h, k).hidden == Left(ListIn(g, k), tries, k) {
      LeftAfterAll(g, tries, k, ListIn(g, k));
    }
  }

  /** What a graph has for a file the attempts leave in it. */
  ghost predicate LeftRight(g: GraphState, tries: seq<Attempt>, prev: Plan, next: Plan)
    requires forall t :: t in tries ==> t.writes <= |All(t.batch)|
  {
    forall k :: Kept(prev, next, k) && !Affected(prev, next, k) ==>
      Left(ListIn(g, k), tries, k) - Dropped(prev, next) == HiddenBy(next, k)
  }

  /**
   * After any attempts to any targets, each cut anywhere, a complete batch
   * settles the graph on its own target exactly when every file it leaves
   * alone was left with that target's list, dropped ids aside: the list of
   * the last target the file was relisted for.
   */
  lemma RetriesExact(g: GraphState, tries: seq<Attempt>, prev: Plan, next: Plan, last: Batch)
    requires Attempted(g, tries) && HoldsPlan(AfterAll(g, tries), prev)
    requires ValidPlan(next) && IsBatch(prev, next, last)
    ensures forall t :: t in tries ==> t.writes <= |All(t.batch)|
    ensures Settled(Run(AfterAll(g, tries), All(last)), next) <==> LeftRight(g, tries, prev, next)
  {
    var h := AfterAll(g, tries);
    AttemptedWrites(g, tries);
    BatchExact(h, prev, next, last);
    forall k | Has(h, k) ensures At(h, k).hidden == Left(ListIn(g, k), tries, k) {
      LeftAfterAll(g, tries, k, ListIn(g, k));
    }
    assert forall k :: Kept(prev, next, k) ==> Has(h, k);
  }

  /** One interrupted batch to a, then a complete one to c. */
  lemma OtherTargetExact(g: GraphState, prev: Plan, a: Plan, b: Batch, n: nat, prev1: Plan, c: Plan, last: Batch)
    requires ValidPlan(a) && HoldsPlan(g, prev) && IsBatch(prev, a, b) && n <= |All(b)|
    requires ValidPlan(c) && HoldsPlan(Cut(g, b, n), prev1) && IsBatch(prev1, c, last)
    ensures var ws := All(b)[..n];
            Settled(Run(Cut(g, b, n), All(last)), c) <==>
            forall k :: Kept(prev1, c, k) && !Affected(prev1, c, k) ==>
              (if Relisted(a, ws, k) then HiddenBy(a, k) else ListIn(g, k)) - DropIds(ws) - Dropped(prev1, c) == HiddenBy(c, k)
  {
    BatchExact(Cut(g, b, n), prev1, c, last);
    ListsAfterCut(g, prev, a, b, n);
    assert forall k :: Kept(prev1, c, k) ==> Has(Cut(g, b, n), k);
  }

  lemma ListsAfterCut(g: GraphState, prev: Plan, a: Plan, b: Batch, n: nat)
    requires IsBatch(prev, a, b) && n <= |All(b)|
    ensures var h := Cut(g, b, n);
            forall k :: Has(h, k) ==> At(h, k).hidden == ListAfter(ListIn(g, k), a, All(b)[..n], k)
  {
    BatchWritesTo(prev, a, b, n);
    forall k ensures var h := Cut(g, b, n); Has(h, k) ==> At(h, k).hidden == ListAfter(ListIn(g, k), a, All(b)[..n], k) {
      ListAfterWrites(g, a, All(b)[..n], k);
    }
  }

  // ----- targets that differ

  /** What g holds and lists is what the next batch's previous plan says, so far as the batch leaves it alone. */
  lemma LeftIsOfPrev(g: GraphState, tries: seq<Attempt>, prev: Plan, next: Plan)
    requires Attempted(g, tries)
    ensures forall t :: t in tries ==> t.writes <= |All(t.batch)|
    ensures LeftRight(g, tries, prev, next) <==>
            forall k :: Kept(prev, next, k) && !Affected(prev, next, k) ==>
              Left(ListIn(g, k), tries, k) - Dropped(prev, next) == HiddenBy(prev, k) - Dropped(prev, next)
  {
    AttemptedWrites(g, tries);
    forall k | Kept(prev, next, k) && !Affected(prev, next, k)
      ensures HiddenBy(prev, k) - Dropped(prev, next) == HiddenBy(next, k)
    {
      UnaffectedIsRight(prev, next, k);
    }
  }

  /** A graph is settled by every next batch, whatever its target, exactly when it is settled on what it holds. */
  lemma SafeForAnyTarget(h: GraphState, prev: Plan)
    requires HoldsPlan(h, prev) && ValidPlan(prev)
    ensures (forall next, last :: ValidPlan(next) && IsBatch(prev, next, last) ==> Settled(Run(h, All(last)), next))
            <==> Settled(h, prev)
  {
    if Settled(h, prev) {
      forall next, last | ValidPlan(next) && IsBatch(prev, next, last) ensures Settled(Run(h, All(last)), next) {
        BatchSettles(h, prev, next, last);
      }
    }
    if forall next, last :: ValidPlan(next) && IsBatch(prev, next, last) ==> Settled(Run(h, All(last)), next) {
      var none := Batch([], [], [], []);
      NoBatch(prev);
      assert Settled(Run(h, All(none)), prev);
      assert All(none) == [];
    }
  }

  /** A target that differs in nothing takes no writes. */
  lemma NoBatch(p: Plan)
    ensures IsBatch(p, p, Batch([], [], [], []))
  {
    forall id | id in p.layers ensures !InDelta(p, p, id) {
      assert PutsOf(p, p, id) == map[] && RemovesOf(p, p, id) == {};
    }
    forall k ensures !Affected(p, p, k) {
    }
  }

  /** However often a recoverable batch is cut short, wherever, the first attempt at its target to complete settles the graph. */
  lemma {:induction false} RetriesSettle(g: GraphState, next: Plan, tries: seq<Attempt>, last: Batch)
    requires ValidPlan(next) && Resumable(g, next) && Attempted(g, tries)
    requires forall t :: t in tries ==> t.target == next
    requires IsBatch(PlanFromGraph(AfterAll(g, tries)), next, last)
    ensures Settled(Run(AfterAll(g, tries), All(last)), next)
    decreases |tries|
  {
    if tries == [] {
      RecoverableIsReady(g, PlanFromGraph(g), next);
      BatchExact(g, PlanFromGraph(g), next, last);
    } else {
      var t := tries[0];
      assert t in tries;
      ResumableFrom(g, t.prev, next);
      CutStaysRecoverable(g, t.prev, next, t.batch, t.writes);
      RetriesSettle(Run(g, Done(t)), next, tries[1..], last);
    }
  }

  /** Whatever plan the graph holds, it is as recoverable as the plan read back. */
  lemma ResumableFrom(g: GraphState, prev: Plan, next: Plan)
    requires Resumable(g, next) && HoldsPlan(g, prev)
    ensures Recoverable(g, prev, next)
  {
    var back := PlanFromGraph(g);
    forall k | Kept(prev, next, k) ensures RightAfterDrops(g, prev, next, k) || Refreshed(prev, next, k) {
      ReadBack(g, g, prev, back, next, k);
      if Refreshed(back, next, k) {
        var l :| IsChanged(back, next, Key(l, k.path)) && k.layer in Ancestors(next, l);
        ReadBack(g, g, prev, back, next, Key(l, k.path));
      }
    }
  }
}
