/**
 * Carried work drains (Resolve in codeindex/resolve.go): a layer that carries
 * files resolves one of them, or a new dependent instead, in every batch that
 * writes anything.
 */
module Draining {
  import opened Plans
  import opened Edges
  import opened Increments
  import opened Resolutions
  import opened EdgeHistories

  lemma {:induction false} SubsetSize<T>(a: set<T>, b: set<T>)
    requires a <= b
    ensures |a| <= |b| && (a != b ==> |a| < |b|)
    decreases b
  {
    if a != {} {
      var x :| x in a;
      SubsetSize(a - {x}, b - {x});
      assert a == (a - {x}) + {x} && b == (b - {x}) + {x};
    } else if b != {} {
      var x :| x in b;
      assert |b| >= 1;
    }
  }

  /** The dependents of a layer that no batch before had carried. */
  function NewAt(e: Engine, prev: Plan, next: Plan, pending: set<Key>, l: LayerId): set<Path> {
    Dependents(e, prev, next, pending, l) - CarriedAt(pending, l)
  }

  /** In one batch a layer comes to carry none, or fewer than it carried and got. */
  lemma CarriedShrinks(e: Engine, prev: Plan, next: Plan, pending: set<Key>, maxRefs: int, leftover: set<Key>, l: LayerId)
    requires IsLeftover(e, prev, next, pending, maxRefs, leftover)
    ensures CarriedAt(leftover, l) == {} ||
            |CarriedAt(leftover, l)| < |CarriedAt(pending, l)| + |NewAt(e, prev, next, pending, l)|
  {
    var deps, left := Dependents(e, prev, next, pending, l), CarriedAt(leftover, l);
    if left != {} {
      LeftAreDependents(e, prev, next, pending, leftover, l);
      SubsetSize(left, deps);
      SubsetSize(deps, CarriedAt(pending, l) + NewAt(e, prev, next, pending, l));
    }
  }

  lemma LeftAreDependents(e: Engine, prev: Plan, next: Plan, pending: set<Key>, leftover: set<Key>, l: LayerId)
    requires leftover <= DependentKeys(e, prev, next, pending, next.layers.Keys) && CarriedAt(leftover, l) != {}
    requires AllProgress(e, prev, next, pending, leftover, next.layers.Keys)
    ensures CarriedAt(leftover, l) <= Dependents(e, prev, next, pending, l)
    ensures CarriedAt(leftover, l) != Dependents(e, prev, next, pending, l)
  {
    forall path | path in CarriedAt(leftover, l)
      ensures l in next.layers && path in Dependents(e, prev, next, pending, l)
    {
      assert Key(l, path) in leftover;
    }
    var d :| d in CarriedAt(leftover, l);
    assert Progresses(e, prev, next, pending, leftover, l);
    var p :| p in Dependents(e, prev, next, pending, l) && Key(l, p) !in leftover;
    assert p !in CarriedAt(leftover, l);
  }

  // ----- over many batches

  /** Each batch that writes anything carries what its budget left. */
  ghost predicate AreRuns(e: Engine, p: Plan, pending: set<Key>, rounds: seq<Round>, maxRefs: int) {
    forall i :: 0 <= i < |rounds| ==> IsRunAt(e, p, pending, rounds, maxRefs, i)
  }

  ghost predicate IsRunAt(e: Engine, p: Plan, pending: set<Key>, rounds: seq<Round>, maxRefs: int, i: nat)
    requires i < |rounds|
  {
    var prev, next := PlanBefore(p, rounds, i), rounds[i].next;
    !IsNothing(prev, next) ==> IsLeftover(e, prev, next, CarriedInto(p, pending, rounds, i), maxRefs, rounds[i].leftover)
  }

  /** How many of the first n batches write anything. */
  function Writing(p: Plan, rounds: seq<Round>, n: nat): nat
    requires n <= |rounds|
  {
    if n == 0 then 0
    else Writing(p, rounds, n - 1) + if IsNothing(PlanBefore(p, rounds, n - 1), rounds[n - 1].next) then 0 else 1
  }

  /** How many dependents they found in a layer besides those carried. */
  function Arrived(e: Engine, p: Plan, pending: set<Key>, rounds: seq<Round>, l: LayerId, n: nat): nat
    requires n <= |rounds|
  {
    if n == 0 then 0
    else
      var prev, next := PlanBefore(p, rounds, n - 1), rounds[n - 1].next;
      Arrived(e, p, pending, rounds, l, n - 1) +
      if IsNothing(prev, next) then 0 else |NewAt(e, prev, next, CarriedInto(p, pending, rounds, n - 1), l)|
  }

  function CarriedFor(p: Plan, pending: set<Key>, rounds: seq<Round>, l: LayerId, i: nat): set<Path>
    requires i <= |rounds|
  {
    CarriedAt(CarriedInto(p, pending, rounds, i), l)
  }

  predicate AlwaysCarries(p: Plan, pending: set<Key>, rounds: seq<Round>, l: LayerId, n: nat)
    requires n <= |rounds|
  {
    CarriedFor(p, pending, rounds, l, n) != {} && (n > 0 ==> AlwaysCarries(p, pending, rounds, l, n - 1))
  }

  lemma {:induction false} ElseDrained(p: Plan, pending: set<Key>, rounds: seq<Round>, l: LayerId, n: nat) returns (i: nat)
    requires n <= |rounds| && !AlwaysCarries(p, pending, rounds, l, n)
    ensures i <= n && CarriedFor(p, pending, rounds, l, i) == {}
  {
    i := n;
    if CarriedFor(p, pending, rounds, l, n) != {} { i := ElseDrained(p, pending, rounds, l, n - 1); }
  }

  lemma CarriesBefore(p: Plan, pending: set<Key>, rounds: seq<Round>, l: LayerId, m: nat)
    requires m < |rounds| && AlwaysCarries(p, pending, rounds, l, m + 1)
    ensures AlwaysCarries(p, pending, rounds, l, m) && CarriedFor(p, pending, rounds, l, m + 1) != {}
  {
  }

  lemma NoneYet(e: Engine, p: Plan, pending: set<Key>, rounds: seq<Round>, l: LayerId)
    ensures CarriedFor(p, pending, rounds, l, 0) == CarriedAt(pending, l)
    ensures Writing(p, rounds, 0) == 0 && Arrived(e, p, pending, rounds, l, 0) == 0
  {
  }

  /** What a layer carries and the batches that wrote anything are no more than it carried at first and got. */
  predicate IsBound(e: Engine, p: Plan, pending: set<Key>, rounds: seq<Round>, l: LayerId, n: nat)
    requires n <= |rounds|
  {
    |CarriedFor(p, pending, rounds, l, n)| + Writing(p, rounds, n)
    <= |CarriedAt(pending, l)| + Arrived(e, p, pending, rounds, l, n)
  }

  lemma BoundKept(e: Engine, p: Plan, pending: set<Key>, rounds: seq<Round>, maxRefs: int, l: LayerId, m: nat)
    requires m < |rounds| && AreRuns(e, p, pending, rounds, maxRefs) && CarriedFor(p, pending, rounds, l, m + 1) != {}
    requires IsBound(e, p, pending, rounds, l, m)
    ensures IsBound(e, p, pending, rounds, l, m + 1)
  {
    CarriedStep(e, p, pending, rounds, maxRefs, l, m);
  }

  /** While a layer carries files, each batch that writes anything takes one off what it carried and got. */
  lemma {:induction false} CarriedBound(e: Engine, p: Plan, pending: set<Key>, rounds: seq<Round>, maxRefs: int,
                                        l: LayerId, n: nat)
    requires n <= |rounds| && AreRuns(e, p, pending, rounds, maxRefs)
    requires AlwaysCarries(p, pending, rounds, l, n)
    ensures IsBound(e, p, pending, rounds, l, n)
  {
    if n > 0 {
      var m := n - 1;
      CarriesBefore(p, pending, rounds, l, m);
      CarriedBound(e, p, pending, rounds, maxRefs, l, m);
      BoundKept(e, p, pending, rounds, maxRefs, l, m);
    } else {
      NoneYet(e, p, pending, rounds, l);
    }
  }

  lemma CarriedStep(e: Engine, p: Plan, pending: set<Key>, rounds: seq<Round>, maxRefs: int, l: LayerId, i: nat)
    requires i < |rounds| && AreRuns(e, p, pending, rounds, maxRefs) && CarriedFor(p, pending, rounds, l, i + 1) != {}
    ensures |CarriedFor(p, pending, rounds, l, i + 1)| + Writing(p, rounds, i + 1) - Writing(p, rounds, i)
            <= |CarriedFor(p, pending, rounds, l, i)|
               + Arrived(e, p, pending, rounds, l, i + 1) - Arrived(e, p, pending, rounds, l, i)
  {
    var prev, next := PlanBefore(p, rounds, i), rounds[i].next;
    assert IsRunAt(e, p, pending, rounds, maxRefs, i);
    if !IsNothing(prev, next) {
      CarriedShrinks(e, prev, next, CarriedInto(p, pending, rounds, i), maxRefs, rounds[i].leftover, l);
    }
  }

  /**
   * So after as many batches that write anything as a layer carried at first
   * and got since, it has carried nothing at some point.
   */
  lemma CarriedDrains(e: Engine, p: Plan, pending: set<Key>, rounds: seq<Round>, maxRefs: int, l: LayerId)
    requires AreRuns(e, p, pending, rounds, maxRefs)
    requires |CarriedAt(pending, l)| + Arrived(e, p, pending, rounds, l, |rounds|) <= Writing(p, rounds, |rounds|)
    ensures exists i :: 0 <= i <= |rounds| && CarriedFor(p, pending, rounds, l, i) == {}
  {
    if AlwaysCarries(p, pending, rounds, l, |rounds|) {
      CarriedBound(e, p, pending, rounds, maxRefs, l, |rounds|);
    } else {
      var i := ElseDrained(p, pending, rounds, l, |rounds|);
    }
  }
}
