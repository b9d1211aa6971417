/** The stack sweeps over nested definitions (resolveDefs and resolveRefs in codeparse/extract.go). */
module Sweeps {
  /** A definition: its node's bytes [start, end), where its name is, and when it was matched. */
  datatype Def = Def(start: nat, end: nat, nameAt: nat, order: nat)

  predicate SameDef(a: Def, b: Def) { a.start == b.start && a.end == b.end && a.nameAt == b.nameAt }

  /** Source order: by start, the longer first, then by name and by order of matching. */
  predicate NotAfter(a: Def, b: Def) {
    if a.start != b.start then a.start < b.start
    else if a.end != b.end then a.end > b.end
    else if a.nameAt != b.nameAt then a.nameAt < b.nameAt
    else a.order <= b.order
  }

  ghost predicate Sorted(defs: seq<Def>) {
    forall i, j :: 0 <= i < j < |defs| ==> NotAfter(defs[i], defs[j])
  }

  /** The spans are those of syntax tree nodes: two are apart or one is inside the other. */
  ghost predicate Nested(defs: seq<Def>) {
    && (forall i :: 0 <= i < |defs| ==> defs[i].start <= defs[i].end)
    && forall i, j :: 0 <= i < j < |defs| ==>
         Apart(defs[i], defs[j]) || Contains(defs[i], defs[j]) || Contains(defs[j], defs[i])
  }

  predicate Apart(a: Def, b: Def) { a.end <= b.start || b.end <= a.start }

  predicate Contains(a: Def, b: Def) { a.start <= b.start && b.end <= a.end }

  predicate StrictlyContains(a: Def, b: Def) {
    Contains(a, b) && (a.start != b.start || a.end != b.end)
  }

  // ----- duplicates

  ghost predicate Distinct(defs: seq<Def>) {
    forall i, j :: 0 <= i < j < |defs| ==> !SameDef(defs[i], defs[j])
  }

  /** What DropDuplicates keeps of a definition: the earliest match of the same. */
  ghost predicate Kept(defs: seq<Def>, d: Def) {
    exists e :: e in defs && SameDef(e, d) && e.order <= d.order
  }

  /** What DropDuplicates has of the first i definitions. */
  ghost predicate Deduplicated(all: seq<Def>, i: nat, defs: seq<Def>)
    requires i <= |all|
  {
    && Sorted(defs) && Distinct(defs)
    && (forall e :: e in defs ==> e in all[..i])
    && (forall d :: d in all[..i] ==> Kept(defs, d))
    && (i > 0 ==> defs != [] && SameDef(defs[|defs| - 1], all[i - 1]))
  }

  /** A definition two patterns matched is kept once, as it was matched first. */
  method DropDuplicates(all: seq<Def>) returns (defs: seq<Def>)
    requires Sorted(all)
    ensures Sorted(defs) && Distinct(defs)
    ensures (forall e :: e in defs ==> e in all) && forall d :: d in all ==> Kept(defs, d)
  {
    defs := [];
    for i := 0 to |all|
      invariant Deduplicated(all, i, defs)
    {
      if defs != [] && SameDef(defs[|defs| - 1], all[i]) {
        Skip(all, i, defs);
      } else {
        OneMore(all, i, defs);
        defs := defs + [all[i]];
      }
    }
    assert all[..|all|] == all;
  }

  lemma Skip(all: seq<Def>, i: nat, defs: seq<Def>)
    requires Sorted(all) && i < |all| && Deduplicated(all, i, defs)
    requires defs != [] && SameDef(defs[|defs| - 1], all[i])
    ensures Deduplicated(all, i + 1, defs)
  {
    var p := defs[|defs| - 1];
    assert all[..i + 1] == all[..i] + [all[i]];
    assert p in all[..i];
    assert p in defs && NotAfter(p, all[i]);
  }

  lemma NotSameSince(a: Def, b: Def, d: Def)
    requires (a == b || NotAfter(a, b)) && NotAfter(b, d) && !SameDef(b, d)
    ensures NotAfter(a, d) && !SameDef(a, d)
  {
  }

  lemma OneMore(all: seq<Def>, i: nat, defs: seq<Def>)
    requires Sorted(all) && i < |all| && Deduplicated(all, i, defs)
    requires defs != [] ==> !SameDef(defs[|defs| - 1], all[i])
    ensures Deduplicated(all, i + 1, defs + [all[i]])
  {
    assert all[..i + 1] == all[..i] + [all[i]];
    forall j | 0 <= j < |defs| ensures NotAfter(defs[j], all[i]) && !SameDef(defs[j], all[i]) {
      assert defs[j] in all[..i] && defs[|defs| - 1] in all[..i];
      NotSameSince(defs[j], defs[|defs| - 1], all[i]);
    }
    forall x | x in all[..i + 1] ensures Kept(defs + [all[i]], x) {
      StillKept(defs, all[i], x);
    }
  }

  lemma StillKept(defs: seq<Def>, d: Def, x: Def)
    requires x == d || Kept(defs, x)
    ensures Kept(defs + [d], x)
  {
    assert d in defs + [d];
    if x != d {
      var e :| e in defs && SameDef(e, x) && e.order <= x.order;
      assert e in defs + [d];
    }
  }

  // ----- containers

  /** The last of the definitions before i that strictly contain it; -1 without one. */
  ghost predicate IsContainer(defs: seq<Def>, i: nat, c: int)
    requires i < |defs|
  {
    && -1 <= c < i
    && (c >= 0 ==> StrictlyContains(defs[c], defs[i]))
    && forall j :: c < j < |defs| ==> !StrictlyContains(defs[j], defs[i])
  }

  /** stack holds indices below i, rising. */
  ghost predicate Rising(stack: seq<nat>, i: nat) {
    (forall a :: 0 <= a < |stack| ==> stack[a] < i) && forall a, b :: 0 <= a < b < |stack| ==> stack[a] < stack[b]
  }

  /** For whatever comes at i or later, no definition before i matters more than those on the stack. */
  ghost predicate Enough(defs: seq<Def>, stack: seq<nat>, i: nat)
    requires i <= |defs| && Rising(stack, i)
  {
    forall j, m :: 0 <= j < i <= m < |defs| && StrictlyContains(defs[j], defs[m]) ==> Covered(defs, stack, j, defs[m])
  }

  ghost predicate Covered(defs: seq<Def>, stack: seq<nat>, j: nat, d: Def)
  {
    exists k :: k in stack && j <= k < |defs| && StrictlyContains(defs[k], d)
  }

  /** A definition off the stack at i is not missed: what it contains later, i contains. */
  lemma PoppedIsReplaced(defs: seq<Def>, t: nat, i: nat, m: nat)
    requires Sorted(defs) && Nested(defs) && t < i < m < |defs|
    requires !StrictlyContains(defs[t], defs[i]) && StrictlyContains(defs[t], defs[m])
    ensures StrictlyContains(defs[i], defs[m])
  {
    assert NotAfter(defs[t], defs[i]) && NotAfter(defs[i], defs[m]);
    assert Apart(defs[t], defs[i]) || Contains(defs[t], defs[i]) || Contains(defs[i], defs[t]);
  }

  lemma StillEnough(defs: seq<Def>, stack: seq<nat>, n: nat, i: nat)
    requires Sorted(defs) && Nested(defs) && i < |defs| && Rising(stack, i) && Enough(defs, stack, i) && n <= |stack|
    requires forall a :: n <= a < |stack| ==> !StrictlyContains(defs[stack[a]], defs[i])
    ensures Rising(stack[..n] + [i], i + 1) && Enough(defs, stack[..n] + [i], i + 1)
  {
    var stack1 := stack[..n] + [i];
    assert stack1[n] == i;
    forall j, m | 0 <= j < i + 1 <= m < |defs| && StrictlyContains(defs[j], defs[m]) ensures Covered(defs, stack1, j, defs[m]) {
      if j < i { StillCovered(defs, stack, n, i, j, m); }
    }
  }

  lemma StillCovered(defs: seq<Def>, stack: seq<nat>, n: nat, i: nat, j: nat, m: nat)
    requires Sorted(defs) && Nested(defs) && j < i < m < |defs| && n <= |stack|
    requires forall a :: 0 <= a < |stack| ==> stack[a] < i
    requires forall a :: n <= a < |stack| ==> !StrictlyContains(defs[stack[a]], defs[i])
    requires Covered(defs, stack, j, defs[m])
    ensures Covered(defs, stack[..n] + [i], j, defs[m])
  {
    var stack1 := stack[..n] + [i];
    assert stack1[n] == i;
    var k :| k in stack && j <= k < |defs| && StrictlyContains(defs[k], defs[m]);
    var a :| 0 <= a < |stack| && stack[a] == k;
    if a < n {
      assert stack1[a] == k;
    } else {
      PoppedIsReplaced(defs, k, i, m);
    }
  }

  /** The top of what is left on the stack is the container. */
  lemma TopIsContainer(defs: seq<Def>, stack: seq<nat>, n: nat, i: nat)
    requires Sorted(defs) && i < |defs| && Rising(stack, i) && Enough(defs, stack, i) && n <= |stack|
    requires forall a :: n <= a < |stack| ==> !StrictlyContains(defs[stack[a]], defs[i])
    requires n > 0 ==> StrictlyContains(defs[stack[n - 1]], defs[i])
    ensures IsContainer(defs, i, if n > 0 then stack[n - 1] else -1)
  {
    forall j | i < j < |defs| ensures !StrictlyContains(defs[j], defs[i]) {
      assert NotAfter(defs[i], defs[j]);
    }
    forall j | 0 <= j < i && StrictlyContains(defs[j], defs[i]) ensures n > 0 && j <= stack[n - 1] {
      var k :| k in stack && j <= k < |defs| && StrictlyContains(defs[k], defs[i]);
      var a :| 0 <= a < |stack| && stack[a] == k;
    }
  }

  /** How much of the stack is left at i. */
  method Popped(defs: seq<Def>, stack: seq<nat>, i: nat) returns (n: nat)
    requires i < |defs| && Rising(stack, i)
    ensures n <= |stack| && (n > 0 ==> StrictlyContains(defs[stack[n - 1]], defs[i]))
    ensures forall a :: n <= a < |stack| ==> !StrictlyContains(defs[stack[a]], defs[i])
  {
    n := |stack|;
    while n > 0 && !StrictlyContains(defs[stack[n - 1]], defs[i])
      invariant n <= |stack|
      invariant forall a :: n <= a < |stack| ==> !StrictlyContains(defs[stack[a]], defs[i])
    {
      n := n - 1;
    }
  }

  /** One sweep finds every definition's container. */
  method SetContainers(defs: seq<Def>, container: array<int>)
    requires Sorted(defs) && Nested(defs) && container.Length == |defs|
    modifies container
    ensures forall i :: 0 <= i < |defs| ==> IsContainer(defs, i, container[i])
  {
    var stack: seq<nat> := [];
    for i := 0 to |defs|
      invariant Rising(stack, i) && Enough(defs, stack, i)
      invariant forall k :: 0 <= k < i ==> IsContainer(defs, k, container[k])
    {
      var n := Popped(defs, stack, i);
      TopIsContainer(defs, stack, n, i);
      StillEnough(defs, stack, n, i);
      container[i] := if n > 0 then stack[n - 1] else -1;
      stack := stack[..n] + [i];
    }
  }

  /** A container is the innermost: it lies inside every other definition that strictly contains a non-empty one. */
  lemma ContainerIsInnermost(defs: seq<Def>, i: nat, c: int, j: nat)
    requires Sorted(defs) && Nested(defs) && i < |defs| && IsContainer(defs, i, c)
    requires j < |defs| && StrictlyContains(defs[j], defs[i]) && defs[i].start < defs[i].end
    ensures j <= c && Contains(defs[j], defs[c])
  {
    if j < c { assert NotAfter(defs[j], defs[c]); }
  }

  // ----- references

  predicate Encloses(d: Def, at: nat) { d.start <= at < d.end }

  /** The last of the definitions whose span holds at; -1 without one. */
  ghost predicate IsEnclosing(defs: seq<Def>, at: nat, e: int) {
    && -1 <= e < |defs|
    && (e >= 0 ==> Encloses(defs[e], at))
    && forall j :: e < j < |defs| ==> !Encloses(defs[j], at)
  }

  /** Of the definitions before di, those off the stack end by at. */
  ghost predicate OthersEnded(defs: seq<Def>, stack: seq<nat>, di: nat, at: nat)
    requires di <= |defs|
  {
    forall j :: 0 <= j < di && j !in stack ==> defs[j].end <= at
  }

  ghost predicate StartsRise(defs: seq<Def>) {
    forall i, j :: 0 <= i < j < |defs| ==> defs[i].start <= defs[j].start
  }

  /** The stack without the definitions at its top that end by at. */
  method Unended(defs: seq<Def>, stack: seq<nat>, di: nat, at: nat) returns (left: seq<nat>)
    requires di <= |defs| && Rising(stack, di) && OthersEnded(defs, stack, di, at)
    ensures Rising(left, di) && OthersEnded(defs, left, di, at)
    ensures left != [] ==> defs[left[|left| - 1]].end > at
  {
    left := stack;
    while left != [] && defs[left[|left| - 1]].end <= at
      invariant Rising(left, di) && OthersEnded(defs, left, di, at)
      decreases |left|
    {
      var top := left[|left| - 1];
      assert left == left[..|left| - 1] + [top];
      left := left[..|left| - 1];
    }
  }

  lemma TopEncloses(defs: seq<Def>, stack: seq<nat>, di: nat, at: nat)
    requires di <= |defs| && Rising(stack, di) && OthersEnded(defs, stack, di, at)
    requires forall j :: 0 <= j < |defs| ==> (j < di <==> defs[j].start <= at)
    requires stack != [] ==> defs[stack[|stack| - 1]].end > at
    ensures IsEnclosing(defs, at, if stack == [] then -1 else stack[|stack| - 1])
  {
    var e := if stack == [] then -1 else stack[|stack| - 1] as int;
    forall j | j in stack ensures j <= e {
      var a :| 0 <= a < |stack| && stack[a] == j;
    }
  }

  /** The definitions that start by at go on the stack, those that end before the next starts come off. */
  method PushStarted(defs: seq<Def>, stack0: seq<nat>, di0: nat, last: nat, at: nat) returns (stack: seq<nat>, di: nat)
    requires StartsRise(defs) && di0 <= |defs| && Rising(stack0, di0) && OthersEnded(defs, stack0, di0, last) && last <= at
    requires forall j :: 0 <= j < di0 ==> defs[j].start <= at
    ensures di <= |defs| && Rising(stack, di) && OthersEnded(defs, stack, di, at)
    ensures forall j :: 0 <= j < |defs| ==> (j < di <==> defs[j].start <= at)
  {
    stack, di := stack0, di0;
    while di < |defs| && defs[di].start <= at
      invariant di0 <= di <= |defs| && Rising(stack, di) && OthersEnded(defs, stack, di, at)
      invariant forall j :: 0 <= j < di ==> defs[j].start <= at
    {
      stack := UnendedBy(defs, stack, di, defs[di].start, at);
      ghost var was := stack;
      stack := stack + [di];
      assert forall j :: j in was ==> j in stack;
      assert stack[|was|] == di;
      di := di + 1;
    }
  }

  method UnendedBy(defs: seq<Def>, stack: seq<nat>, di: nat, limit: nat, at: nat) returns (left: seq<nat>)
    requires di <= |defs| && Rising(stack, di) && OthersEnded(defs, stack, di, at) && limit <= at
    ensures Rising(left, di) && OthersEnded(defs, left, di, at)
  {
    left := stack;
    while left != [] && defs[left[|left| - 1]].end <= limit
      invariant Rising(left, di) && OthersEnded(defs, left, di, at)
      decreases |left|
    {
      assert left == left[..|left| - 1] + [left[|left| - 1]];
      left := left[..|left| - 1];
    }
  }

  /** One sweep over references in source order finds what encloses each. */
  method SetEnclosing(defs: seq<Def>, ats: seq<nat>, enclosing: array<int>)
    requires StartsRise(defs) && enclosing.Length == |ats|
    requires forall i, j :: 0 <= i < j < |ats| ==> ats[i] <= ats[j]
    modifies enclosing
    ensures forall i :: 0 <= i < |ats| ==> IsEnclosing(defs, ats[i], enclosing[i])
  {
    var stack: seq<nat>, di := [], 0;
    for i := 0 to |ats|
      invariant 0 <= di <= |defs| && Rising(stack, di) && OthersEnded(defs, stack, di, if i > 0 then ats[i - 1] else 0)
      invariant forall j :: 0 <= j < di ==> i > 0 && defs[j].start <= ats[i - 1]
      invariant forall k :: 0 <= k < i ==> IsEnclosing(defs, ats[k], enclosing[k])
    {
      var at := ats[i];
      stack, di := PushStarted(defs, stack, di, if i > 0 then ats[i - 1] else 0, at);
      stack := Unended(defs, stack, di, at);
      TopEncloses(defs, stack, di, at);
      enclosing[i] := if stack == [] then -1 else stack[|stack| - 1];
    }
  }

  /** What encloses a reference is the innermost definition around it. */
  lemma EnclosingIsInnermost(defs: seq<Def>, at: nat, e: int, j: nat)
    requires Sorted(defs) && Nested(defs) && IsEnclosing(defs, at, e) && j < |defs| && Encloses(defs[j], at)
    ensures j <= e && Contains(defs[j], defs[e])
  {
    if j < e { assert NotAfter(defs[j], defs[e]); }
  }
}
