/** Byte-wise string order, and the sorting it makes canonical. */
module Orders {

  /** a sorts before b: the first differing character decides, a prefix comes first. */
  predicate StrLess(a: string, b: string) {
    b != "" && (a == "" || a[0] < b[0] || (a[0] == b[0] && StrLess(a[1..], b[1..])))
  }

  lemma {:induction false} StrTotal(a: string, b: string)
    ensures StrLess(a, b) || StrLess(b, a) || a == b
    ensures !(StrLess(a, b) && StrLess(b, a))
    ensures !StrLess(a, a)
  {
    if a != "" && b != "" && a[0] == b[0] {
      StrTotal(a[1..], b[1..]);
      assert a == [a[0]] + a[1..] && b == [b[0]] + b[1..];
    }
    if a != "" { StrTotal(a[1..], a[1..]); }
  }

  /** The strings differ first at i, or a ends there. */
  predicate PartsAt(a: string, b: string, i: nat) {
    i <= |a| && i < |b| && a[..i] == b[..i] && (i == |a| || a[i] < b[i])
  }

  lemma {:induction false} StrLessMeaning(a: string, b: string)
    ensures StrLess(a, b) <==> exists i: nat :: PartsAt(a, b, i)
  {
    if a == "" || b == "" || a[0] != b[0] {
      if StrLess(a, b) { assert PartsAt(a, b, 0); }
      if i: nat :| PartsAt(a, b, i) { assert i > 0 ==> a[..i][0] == b[..i][0]; }
    } else {
      StrLessMeaning(a[1..], b[1..]);
      if i: nat :| PartsAt(a[1..], b[1..], i) {
        assert a[..i + 1] == [a[0]] + a[1..][..i] && b[..i + 1] == [b[0]] + b[1..][..i];
        assert PartsAt(a, b, i + 1);
      }
      if i: nat :| PartsAt(a, b, i) {
        assert i > 0;
        assert a[1..][..i - 1] == a[..i][1..] && b[1..][..i - 1] == b[..i][1..];
        assert PartsAt(a[1..], b[1..], i - 1);
      }
    }
  }

  lemma {:induction false} StrTransitive(a: string, b: string, c: string)
    requires StrLess(a, b) && StrLess(b, c)
    ensures StrLess(a, c)
  {
    if a != "" && a[0] == b[0] && b[0] == c[0] { StrTransitive(a[1..], b[1..], c[1..]); }
  }

  // ----- the most counted string

  /** b's count is the largest, and b the smallest string that has it. */
  ghost predicate IsBest(m: map<string, nat>, b: string) {
    b in m && forall k :: k in m ==> m[k] < m[b] || (m[k] == m[b] && !StrLess(k, b))
  }

  lemma BestUnique(m: map<string, nat>, a: string, b: string)
    requires IsBest(m, a) && IsBest(m, b)
    ensures a == b
  {
    StrTotal(a, b);
  }

  /** The key with the largest count, the smallest on a tie, "" for an empty map; keys met in any order. */
  method ArgMax(m: map<string, nat>) returns (best: string)
    requires forall k :: k in m ==> m[k] > 0
    ensures m == map[] ==> best == ""
    ensures m != map[] ==> IsBest(m, best)
  {
    best := "";
    var n := 0;
    var todo := m.Keys;
    while todo != {}
      invariant todo <= m.Keys
      invariant todo == m.Keys ==> best == "" && n == 0
      invariant todo != m.Keys ==> best in m && best !in todo && n == m[best]
      invariant forall k :: k in m.Keys - todo ==> m[k] < n || (m[k] == n && !StrLess(k, best))
      decreases todo
    {
      var k :| k in todo;
      forall j | j in m.Keys - todo && StrLess(k, best) && StrLess(j, k) ensures StrLess(j, best) {
        StrTransitive(j, k, best);
      }
      StrTotal(k, best);
      StrTotal(k, k);
      if m[k] > n || (m[k] == n && StrLess(k, best)) {
        best, n := k, m[k];
      }
      todo := todo - {k};
    }
  }

  lemma {:induction false} BestExists(m: map<string, nat>)
    requires m != map[]
    ensures exists b :: IsBest(m, b)
  {
    var k :| k in m;
    var rest := m - {k};
    if rest == map[] {
      assert forall j :: j in m && j != k ==> j in rest;
      StrTotal(k, k);
      assert IsBest(m, k);
    } else {
      BestExists(rest);
      var b :| IsBest(rest, b);
      StrTotal(k, b);
      StrTotal(k, k);
      var w := if m[k] > m[b] || (m[k] == m[b] && StrLess(k, b)) then k else b;
      forall j | j in m ensures m[j] < m[w] || (m[j] == m[w] && !StrLess(j, w)) {
        if j != k {
          assert rest[j] < rest[b] || (rest[j] == rest[b] && !StrLess(j, b));
          if StrLess(j, k) && StrLess(k, b) { StrTransitive(j, k, b); }
        }
      }
      assert IsBest(m, w);
    }
  }

  /** What ArgMax returns, whatever order it meets the keys in. */
  ghost function Best(m: map<string, nat>): (b: string)
    ensures m == map[] ==> b == ""
    ensures m != map[] ==> IsBest(m, b)
  {
    if m == map[] then ""
    else
      BestExists(m);
      var b :| IsBest(m, b);
      b
  }
}
