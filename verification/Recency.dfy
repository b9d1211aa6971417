/** What a least-recently-used cache of a given capacity holds, by its history of reads and writes. */
module Recency {
  import opened Wrappers

  /** A parse: the content's hash and the version of the facts. */
  datatype Key = Key(sha256: string, version: string)

  datatype Op<F> = Get(key: Key) | Put(key: Key, facts: F)

  /** Where k first is in s. */
  function Position<T(==)>(s: seq<T>, x: T): (p: nat)
    requires x in s
    ensures p < |s| && s[p] == x && x !in s[..p]
  {
    if s[0] == x then 0
    else
      assert forall j :: 0 < j < |s| ==> s[1..][j - 1] == s[j];
      1 + Position(s[1..], x)
  }

  function Without<T(==)>(s: seq<T>, x: T): seq<T> {
    if x in s then s[..Position(s, x)] + s[Position(s, x) + 1..] else s
  }

  /** The key a use moves to the front. */
  function Use(recent: seq<Key>, k: Key): seq<Key> { [k] + Without(recent, k) }

  /** Of the keys by their last use, those a capacity keeps; zero or less keeps all. */
  function Held(max: int, recent: seq<Key>): seq<Key> {
    if max <= 0 || |recent| <= max then recent else recent[..max]
  }

  /** An operation uses its key when it writes it or finds it. */
  predicate IsUse<F>(max: int, recent: seq<Key>, op: Op<F>) {
    op.Put? || op.key in Held(max, recent)
  }

  /** Every key written, the last used first. */
  function Recent<F>(max: int, ops: seq<Op<F>>): seq<Key> {
    if ops == [] then []
    else
      var recent := Recent(max, ops[..|ops| - 1]);
      var op := ops[|ops| - 1];
      if IsUse(max, recent, op) then Use(recent, op.key) else recent
  }

  function Contents<F>(max: int, ops: seq<Op<F>>): seq<Key> { Held(max, Recent(max, ops)) }

  /** What was last written under k. */
  function LastPut<F>(ops: seq<Op<F>>, k: Key): Option<F> {
    if ops == [] then None
    else
      var op := ops[|ops| - 1];
      if op.Put? && op.key == k then Some(op.facts) else LastPut(ops[..|ops| - 1], k)
  }

  /** The other keys used since k last was. */
  function UsedSince<F>(max: int, ops: seq<Op<F>>, k: Key): set<Key> {
    if ops == [] then {}
    else
      var before := ops[..|ops| - 1];
      var op := ops[|ops| - 1];
      if !IsUse(max, Recent(max, before), op) then UsedSince(max, before, k)
      else if op.key == k then {}
      else UsedSince(max, before, k) + {op.key}
  }

  // ----- a use and what is held

  ghost predicate Unrepeated<T>(s: seq<T>) { forall i, j :: 0 <= i < j < |s| ==> s[i] != s[j] }

  function Elements<T>(s: seq<T>): set<T> { set x | x in s }

  lemma WithoutIs<T>(s: seq<T>, x: T)
    requires Unrepeated(s)
    ensures Unrepeated(Without(s, x)) && x !in Without(s, x)
    ensures forall y :: y in Without(s, x) <==> y in s && y != x
  {
    if x in s {
      var p := Position(s, x);
      var t := Without(s, x);
      forall y | y in s && y != x ensures y in t {
        var j :| 0 <= j < |s| && s[j] == y;
        assert t[if j < p then j else j - 1] == y;
      }
    }
  }

  lemma UseIs(recent: seq<Key>, k: Key)
    requires Unrepeated(recent)
    ensures Unrepeated(Use(recent, k)) && forall y :: y in Use(recent, k) <==> y in recent || y == k
  {
    WithoutIs(recent, k);
    assert Use(recent, k)[0] == k;
    forall y | y in recent ensures y in Use(recent, k) {
      if y != k { assert y in Without(recent, k); }
    }
  }

  /** A use of what is held keeps the same keys, k in front. */
  lemma UseOfHeld(max: int, recent: seq<Key>, k: Key)
    requires k in Held(max, recent)
    ensures Held(max, Use(recent, k)) == Use(Held(max, recent), k)
  {
    var held := Held(max, recent);
    var p := Position(held, k);
    assert recent[p] == k && recent[..p] == held[..p];
    SamePosition(recent, k, p);
  }

  lemma SamePosition<T>(s: seq<T>, x: T, p: nat)
    requires p < |s| && s[p] == x && x !in s[..p]
    ensures x in s && Position(s, x) == p
  {
    var q := Position(s, x);
    assert forall j :: 0 <= j < q ==> s[j] in s[..q];
    assert forall j :: 0 <= j < p ==> s[j] in s[..p];
  }

  /** A use of what is not held puts it in front; the last is left out beyond the capacity. */
  lemma UseOfOther(max: int, recent: seq<Key>, k: Key)
    requires k !in Held(max, recent)
    ensures Held(max, Use(recent, k)) == Held(max, [k] + Held(max, recent))
  {
    if k in recent {
      var held := Held(max, recent);
      assert forall j :: 0 <= j < |held| ==> recent[j] in held;
    }
  }

  // ----- what is held, without the list

  lemma {:induction false} RecentIs<F>(max: int, ops: seq<Op<F>>, k: Key)
    ensures Unrepeated(Recent(max, ops))
    ensures k in Recent(max, ops) <==> LastPut(ops, k).Some?
  {
    if ops != [] {
      var before := ops[..|ops| - 1];
      RecentIs(max, before, k);
      UseIs(Recent(max, before), ops[|ops| - 1].key);
    }
  }

  lemma {:induction false} AheadIsUsedSince<F>(max: int, ops: seq<Op<F>>, k: Key)
    requires k in Recent(max, ops)
    ensures Elements(Recent(max, ops)[..Position(Recent(max, ops), k)]) == UsedSince(max, ops, k)
  {
    var before := ops[..|ops| - 1];
    var op := ops[|ops| - 1];
    var recent := Recent(max, before);
    RecentIs(max, before, k);
    if !IsUse(max, recent, op) {
      AheadIsUsedSince(max, before, k);
    } else if op.key == k {
      SamePosition(Use(recent, k), k, 0);
    } else {
      UseIs(recent, op.key);
      AheadIsUsedSince(max, before, k);
      AheadAfterUse(recent, op.key, k);
    }
  }

  lemma AheadAfterUse(recent: seq<Key>, x: Key, k: Key)
    requires Unrepeated(recent) && k in recent && x != k
    ensures k in Use(recent, x)
    ensures Elements(Use(recent, x)[..Position(Use(recent, x), k)]) == Elements(recent[..Position(recent, k)]) + {x}
  {
    var p := Position(recent, k);
    if x in recent && Position(recent, x) < p {
      AheadWithout(recent, x, k);
    } else {
      MovedFromBehind(recent, x, p);
      AheadIs(recent, x, k, recent[..p], p + 1);
    }
  }

  lemma AheadWithout(recent: seq<Key>, x: Key, k: Key)
    requires Unrepeated(recent) && k in recent && x in recent && Position(recent, x) < Position(recent, k)
    ensures k in Use(recent, x)
    ensures Elements(Use(recent, x)[..Position(Use(recent, x), k)]) == Elements(recent[..Position(recent, k)]) + {x}
  {
    var q, p := Position(recent, x), Position(recent, k);
    MovedFromAhead(recent, x, q, p);
    AheadIs(recent, x, k, recent[..q] + recent[q + 1..p], p);
    ElementsAround(recent, q, p);
  }

  lemma ElementsAround(recent: seq<Key>, q: nat, p: nat)
    requires q < p <= |recent|
    ensures Elements(recent[..p]) == Elements(recent[..q] + recent[q + 1..p]) + {recent[q]}
  {
    assert recent[..p] == recent[..q] + [recent[q]] + recent[q + 1..p];
  }

  lemma MovedFromAhead(recent: seq<Key>, x: Key, q: nat, p: nat)
    requires x in recent && Position(recent, x) == q < p < |recent|
    ensures p < |Use(recent, x)| && Use(recent, x)[p] == recent[p]
    ensures Use(recent, x)[..p] == [x] + (recent[..q] + recent[q + 1..p])
  {
    var ahead, behind := [x] + (recent[..q] + recent[q + 1..p]), recent[p..];
    CutOut(recent, q, p);
    assert Use(recent, x) == ahead + behind;
    assert |ahead| == p && (ahead + behind)[..p] == ahead && (ahead + behind)[p] == behind[0];
  }

  lemma CutOut<T>(s: seq<T>, q: nat, p: nat)
    requires q < p <= |s|
    ensures s[..q] + s[q + 1..] == (s[..q] + s[q + 1..p]) + s[p..]
  {
    assert s[q + 1..] == s[q + 1..p] + s[p..];
  }

  lemma MovedFromBehind(recent: seq<Key>, x: Key, p: nat)
    requires p < |recent| && recent[p] != x && (x in recent ==> p < Position(recent, x))
    ensures p + 1 < |Use(recent, x)| && Use(recent, x)[p + 1] == recent[p]
    ensures Use(recent, x)[..p + 1] == [x] + recent[..p]
  {
  }

  lemma AheadIs(recent: seq<Key>, x: Key, k: Key, others: seq<Key>, n: nat)
    requires x != k && k !in others && n == |others| + 1 && n < |Use(recent, x)|
    requires Use(recent, x)[..n] == [x] + others && Use(recent, x)[n] == k
    ensures k in Use(recent, x)
    ensures Elements(Use(recent, x)[..Position(Use(recent, x), k)]) == Elements(others) + {x}
  {
    SamePosition(Use(recent, x), k, n);
  }

  lemma {:induction false} SizeOf<T>(s: seq<T>)
    requires Unrepeated(s)
    ensures |Elements(s)| == |s|
  {
    if s != [] {
      SizeOf(s[1..]);
      assert Elements(s) == Elements(s[1..]) + {s[0]};
    }
  }

  /** A key is held when it was written and fewer others than the capacity were used since its last use. */
  lemma HeldByDistance<F>(max: int, ops: seq<Op<F>>, k: Key)
    ensures k in Contents(max, ops) <==> LastPut(ops, k).Some? && (max <= 0 || |UsedSince(max, ops, k)| < max)
  {
    var recent := Recent(max, ops);
    RecentIs(max, ops, k);
    if k in recent {
      var p := Position(recent, k);
      AheadIsUsedSince(max, ops, k);
      SizeOf(recent[..p]);
      if p < max < |recent| { assert recent[..max][p] == k; }
    }
  }

  /** The keys ever written. */
  function Written<F>(ops: seq<Op<F>>): set<Key> { set i | 0 <= i < |ops| && ops[i].Put? :: ops[i].key }

  lemma {:induction false} WrittenIsPut<F>(ops: seq<Op<F>>, k: Key)
    ensures k in Written(ops) <==> LastPut(ops, k).Some?
  {
    if ops != [] {
      var n := |ops| - 1;
      WrittenIsPut(ops[..n], k);
      assert ops == ops[..n] + [ops[n]];
    }
  }

  /** As many are held as were written, up to the capacity. */
  lemma HeldCount<F>(max: int, ops: seq<Op<F>>)
    ensures |Contents(max, ops)| == if max > 0 && |Written(ops)| > max then max else |Written(ops)|
  {
    var recent := Recent(max, ops);
    forall k ensures k in recent <==> k in Written(ops) {
      RecentIs(max, ops, k);
      WrittenIsPut(ops, k);
    }
    RecentIs(max, ops, Key("", ""));
    SizeOf(recent);
    assert Elements(recent) == Written(ops);
  }
}
