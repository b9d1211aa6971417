/** The parse cache: a list of elements in order of use and a map to them (codeparse/cache.go). */
module Caches {
  import opened Wrappers
  import opened Recency

  /** A list element: the entry it holds. */
  class Element<F> {
    const key: Key
    var facts: F

    constructor (key: Key, facts: F)
      ensures this.key == key && this.facts == facts
    {
      this.key, this.facts := key, facts;
    }
  }

  predicate IsHex(c: char) { '0' <= c <= '9' || 'a' <= c <= 'f' }

  predicate IsValidKey(k: Key) {
    |k.sha256| == 64 && k.version != "" && forall i :: 0 <= i < 64 ==> IsHex(k.sha256[i])
  }

  datatype Lookup<F> = InvalidKey | Miss | Hit(facts: F)

  function Keys<F>(order: seq<Element<F>>): seq<Key> {
    seq(|order|, i requires 0 <= i < |order| => order[i].key)
  }

  /** What one operation does to the contents, and to what was last written. */
  lemma ReadKeeps<F>(max: int, ops: seq<Op<F>>, k: Key)
    ensures var held := Contents(max, ops);
            Contents(max, ops + [Op.Get(k)]) == if k in held then Use(held, k) else held
    ensures forall j :: LastPut(ops + [Op.Get(k)], j) == LastPut(ops, j)
  {
    var ops1 := ops + [Op<F>.Get(k)];
    assert ops1[..|ops1| - 1] == ops;
    if k in Contents(max, ops) { UseOfHeld(max, Recent(max, ops), k); }
  }

  lemma WriteKeeps<F>(max: int, ops: seq<Op<F>>, k: Key, facts: F)
    ensures var held := Contents(max, ops);
            Contents(max, ops + [Op.Put(k, facts)]) == if k in held then Use(held, k) else Held(max, [k] + held)
    ensures forall j :: LastPut(ops + [Op.Put(k, facts)], j) == if j == k then Some(facts) else LastPut(ops, j)
  {
    var ops1 := ops + [Op.Put(k, facts)];
    assert ops1[..|ops1| - 1] == ops;
    if k in Contents(max, ops) { UseOfHeld(max, Recent(max, ops), k); } else { UseOfOther(max, Recent(max, ops), k); }
  }

  lemma KeyOf<F>(order: seq<Element<F>>, k: Key)
    ensures k in Keys(order) <==> exists e :: e in order && e.key == k
  {
    var ks := Keys(order);
    if k in ks {
      var i :| 0 <= i < |ks| && ks[i] == k;
      assert order[i] in order;
    }
    if e :| e in order && e.key == k {
      var i :| 0 <= i < |order| && order[i] == e;
      assert ks[i] == k;
    }
  }

  /** One element per key: taking an element out takes its key out. */
  lemma KeysWithout<F>(order: seq<Element<F>>, e: Element<F>)
    requires e in order && forall x, y :: x in order && y in order && x.key == y.key ==> x == y
    ensures Keys(Without(order, e)) == Without(Keys(order), e.key)
  {
    var p := Position(order, e);
    assert forall j :: 0 <= j < p ==> order[j] in order[..p];
    KeysBut(order, p);
    SamePosition(Keys(order), e.key, p);
  }

  lemma KeysBut<F>(order: seq<Element<F>>, p: nat)
    requires p < |order|
    requires forall j :: 0 <= j < p ==> order[j].key != order[p].key
    ensures Keys(order)[p] == order[p].key && order[p].key !in Keys(order)[..p]
    ensures Keys(order[..p] + order[p + 1..]) == Keys(order)[..p] + Keys(order)[p + 1..]
  {
  }

  class MemoryCache<F> {
    const max: int
    /** The most recently used first. */
    var order: seq<Element<F>>
    var entries: map<Key, Element<F>>
    /** Every read and write so far, those refused left out. */
    ghost var ops: seq<Op<F>>

    ghost predicate Linked()
      reads this
    {
      && (forall k :: k in entries ==> entries[k] in order && entries[k].key == k)
      && (forall e :: e in order ==> e.key in entries && entries[e.key] == e)
      && Unrepeated(order)
    }

    /** The list and the map hold the same elements, the most recently used, each as it was last written. */
    ghost predicate Valid()
      reads this, order
    {
      && Linked()
      && Keys(order) == Contents(max, ops)
      && forall e :: e in order ==> LastPut(ops, e.key) == Some(e.facts)
    }

    constructor (max: int)
      ensures Valid() && this.max == max && ops == [] && order == []
    {
      this.max := max;
      order, entries, ops := [], map[], [];
    }

    /** A hit returns what was last written and becomes the most recent; a miss changes nothing. */
    method Get(key: Key) returns (r: Lookup<F>)
      requires Valid()
      modifies this
      ensures Valid()
      ensures !IsValidKey(key) ==> r == InvalidKey && ops == old(ops)
      ensures IsValidKey(key) ==>
                && ops == old(ops) + [Op.Get(key)]
                && r == (if key in Contents(max, old(ops)) then Hit(LastPut(old(ops), key).value) else Miss)
    {
      if !IsValidKey(key) { return InvalidKey; }
      KeyOf(order, key);
      ReadKeeps(max, ops, key);
      if key !in entries {
        r := Miss;
      } else {
        r := Hit(entries[key].facts);
        MoveToFront(entries[key]);
      }
      ops := ops + [Op.Get(key)];
    }

    /** The written entry becomes the most recent; the least recent ones go beyond the capacity. */
    method Put(key: Key, facts: F) returns (ok: bool)
      requires Valid()
      modifies this, order
      ensures Valid() && ok == IsValidKey(key)
      ensures ops == if ok then old(ops) + [Op.Put(key, facts)] else old(ops)
    {
      ok := IsValidKey(key);
      if !ok { return; }
      if key in entries {
        Rewrite(key, facts);
      } else {
        Insert(key, facts);
      }
    }

    method Rewrite(key: Key, facts: F)
      requires Valid() && key in entries
      modifies this`order, this`ops, order
      ensures Valid() && ops == old(ops) + [Op.Put(key, facts)]
    {
      KeyOf(order, key);
      WriteKeeps(max, ops, key, facts);
      entries[key].facts := facts;
      MoveToFront(entries[key]);
      ops := ops + [Op.Put(key, facts)];
    }

    method Insert(key: Key, facts: F)
      requires Valid() && key !in entries
      modifies this
      ensures Valid() && ops == old(ops) + [Op.Put(key, facts)]
    {
      KeyOf(order, key);
      WriteKeeps(max, ops, key, facts);
      ghost var was := order;
      PushFront(key, facts);
      ghost var pushed := order;
      assert Keys(pushed) == [key] + Keys(was);
      Evict();
      assert Keys(order) == Held(max, Keys(pushed));
      assert forall e :: e in order ==> e in pushed;
      ops := ops + [Op.Put(key, facts)];
    }

    method MoveToFront(e: Element<F>)
      requires Linked() && e in order
      modifies this`order
      ensures Linked() && forall x :: x in order <==> x in old(order)
      ensures Keys(order) == Use(old(Keys(order)), e.key)
    {
      ghost var was := order;
      WithoutIs(was, e);
      KeysWithout(was, e);
      order := [e] + Without(order, e);
      assert order[0] == e;
      forall x | x in was ensures x in order {
        if x != e { assert x in Without(was, e); }
      }
    }

    method PushFront(key: Key, facts: F)
      requires Linked() && key !in entries
      modifies this`order, this`entries
      ensures Linked() && order != [] && order[1..] == old(order)
      ensures fresh(order[0]) && order[0].key == key && order[0].facts == facts
    {
      var e := new Element(key, facts);
      order := [e] + order;
      entries := entries[key := e];
      assert order[0] == e;
      assert forall x :: x in old(order) ==> x in order;
    }

    method Evict()
      requires Linked()
      modifies this`order, this`entries
      ensures Linked()
      ensures order == if max > 0 && |old(order)| > max then old(order)[..max] else old(order)
    {
      while max > 0 && |order| > max
        invariant Linked() && order <= old(order) && (order == old(order) || (max > 0 && |order| >= max))
        decreases |order|
      {
        DropLast();
      }
    }

    method DropLast()
      requires Linked() && order != []
      modifies this`order, this`entries
      ensures Linked() && order == old(order)[..|old(order)| - 1]
    {
      var oldest := order[|order| - 1];
      ghost var was := order;
      order := order[..|order| - 1];
      entries := entries - {oldest.key};
      forall k | k in entries ensures entries[k] in order {
        var i :| 0 <= i < |was| && was[i] == entries[k];
        assert order[i] == entries[k];
      }
    }
  }
}
