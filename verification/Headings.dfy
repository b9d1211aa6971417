/**
 * When a capped report keeps its headings (Report.Capped in
 * collect/collect.go): exactly, by the lengths the report passes through as
 * its bodies are halved to the end.
 */
module Headings {
  import opened Texts
  import opened Reports

  // ----- the one way a report is halved

  lemma HalvedOnce(body: Bytes, b: Bytes, c: Bytes)
    requires IsHalved(body, b) && IsHalved(body, c)
    ensures b == c
  {
    var half := Unmark(body)[..|Unmark(body)| / 2];
    var x :| AtLineBreak(half, x) && b == x + MARK;
    var y :| AtLineBreak(half, y) && c == y + MARK;
    assert x == half[..|x|] && y == half[..|y|];
  }

  lemma HalvingOnce(a: seq<Section>, b: seq<Section>, c: seq<Section>)
    requires IsHalving(a, b) && IsHalving(a, c)
    ensures b == c
  {
    var k, x :| IsLongest(a, k) && IsHalved(a[k].body, x) && b == a[k := a[k].(body := x)];
    var j, y :| IsLongest(a, j) && IsHalved(a[j].body, y) && c == a[j := a[j].(body := y)];
    assert k == j;
    HalvedOnce(a[k].body, x, y);
  }

  predicate AllShort(sections: seq<Section>) { forall s :: s in sections ==> |s.body| <= SHORT }

  /** The report halved to the end, whatever its length. */
  ghost predicate IsTrail(sections: seq<Section>, trail: seq<seq<Section>>) {
    && trail != [] && trail[0] == sections && AllShort(trail[|trail| - 1])
    && forall i :: 0 <= i < |trail| - 1 ==> IsHalving(trail[i], trail[i + 1])
  }

  lemma ShortIsNotHalved(a: seq<Section>, b: seq<Section>)
    requires AllShort(a)
    ensures !IsHalving(a, b)
  {
    forall k | 0 <= k < |a| ensures !IsLongest(a, k) { assert a[k] in a; }
  }

  /** Trimming follows the trail until the report fits. */
  lemma {:induction false} TrimmingIsOnTrail(sections: seq<Section>, max: int, run: seq<seq<Section>>,
                                             trail: seq<seq<Section>>, i: nat)
    requires IsTrimming(sections, max, run) && IsTrail(sections, trail) && i < |run|
    ensures i < |trail| && run[i] == trail[i]
    ensures forall j :: 0 <= j < i ==> |Render(trail[j])| > max
  {
    if i > 0 {
      TrimmingIsOnTrail(sections, max, run, trail, i - 1);
      assert IsStep(max, run[i - 1], run[i]);
      NextOnTrail(sections, trail, i, run[i]);
    }
  }

  lemma NextOnTrail(sections: seq<Section>, trail: seq<seq<Section>>, i: nat, b: seq<Section>)
    requires IsTrail(sections, trail) && 0 < i <= |trail| && IsHalving(trail[i - 1], b)
    ensures i < |trail| && b == trail[i]
  {
    if i == |trail| {
      ShortIsNotHalved(trail[i - 1], b);
    } else {
      assert IsHalving(trail[i - 1], trail[i]);
      HalvingOnce(trail[i - 1], b, trail[i]);
    }
  }

  // ----- when the headings are kept

  /** The report comes out unbroken: as trimming left it, not cut off. */
  ghost predicate IsUnbroken(sections: seq<Section>, max: int, out: Bytes) {
    exists run :: IsTrimming(sections, max, run) && |Render(run[|run| - 1])| <= max && out == Render(run[|run| - 1])
  }

  /** Unbroken, a report has every heading, its short bodies whole, and long ones whole or begun. */
  lemma UnbrokenKeepsHeadings(sections: seq<Section>, max: int, out: Bytes)
    requires IsUnbroken(sections, max, out)
    ensures exists cut :: IsShortened(sections, cut) && out == Render(cut)
  {
    var run :| IsTrimming(sections, max, run) && |Render(run[|run| - 1])| <= max && out == Render(run[|run| - 1]);
    TrimmingShortens(sections, max, run, |run| - 1);
  }

  /** A limit leaves the report unbroken exactly when some state on its trail fits. */
  lemma UnbrokenExact(sections: seq<Section>, max: int, out: Bytes, trail: seq<seq<Section>>)
    requires max > 0 && IsTrail(sections, trail) && IsCapped(sections, max, out)
    ensures IsUnbroken(sections, max, out) <==> exists i :: 0 <= i < |trail| && |Render(trail[i])| <= max
  {
    var run :| IsTrimming(sections, max, run) && Fits(run[|run| - 1], max, out);
    var n := |run| - 1;
    TrimmingIsOnTrail(sections, max, run, trail, n);
    if IsUnbroken(sections, max, out) {
      var other :| IsTrimming(sections, max, other) && |Render(other[|other| - 1])| <= max && out == Render(other[|other| - 1]);
      TrimmingIsOnTrail(sections, max, other, trail, |other| - 1);
    }
    if i :| 0 <= i < |trail| && |Render(trail[i])| <= max {
      assert i >= n;
      if |Render(run[n])| > max {
        assert AllShort(trail[n]);
        if n < |trail| - 1 {
          assert IsHalving(trail[n], trail[n + 1]);
          ShortIsNotHalved(trail[n], trail[n + 1]);
        }
      }
    }
  }

  // ----- every report has a trail

  lemma LineBreakExists(half: Bytes)
    ensures exists keep :: AtLineBreak(half, keep)
  {
    var nl := |half| - 1;
    while nl > 0 && half[nl] != NL
      invariant -1 <= nl < |half|
      invariant forall j :: nl < j < |half| && j > 0 ==> half[j] != NL
    {
      nl := nl - 1;
    }
    assert AtLineBreak(half, if nl > 0 then half[..nl] else half);
  }

  lemma LongestExists(sections: seq<Section>)
    requires !AllShort(sections)
    ensures exists k :: IsLongest(sections, k)
  {
    var k :| 0 <= k < |sections| && |sections[k].body| > SHORT;
    var i := 0;
    while i < |sections|
      invariant 0 <= i <= |sections| && 0 <= k < |sections| && |sections[k].body| > SHORT
      invariant forall j :: 0 <= j < i ==> |sections[j].body| <= |sections[k].body|
      invariant forall j :: 0 <= j < i && j < k ==> |sections[j].body| < |sections[k].body|
    {
      if |sections[i].body| > |sections[k].body| || (|sections[i].body| == |sections[k].body| && i < k) { k := i; }
      i := i + 1;
    }
    assert IsLongest(sections, k);
  }

  lemma HalvingExists(a: seq<Section>)
    requires !AllShort(a)
    ensures exists b :: IsHalving(a, b)
  {
    LongestExists(a);
    var k :| IsLongest(a, k);
    var half := Unmark(a[k].body)[..|Unmark(a[k].body)| / 2];
    LineBreakExists(half);
    var keep :| AtLineBreak(half, keep);
    assert IsHalved(a[k].body, keep + MARK);
    assert IsHalving(a, a[k := a[k].(body := keep + MARK)]);
  }

  lemma HalvingMakesProgress(a: seq<Section>, b: seq<Section>)
    requires IsHalving(a, b)
    ensures TotalBytes(b) < TotalBytes(a) || (TotalBytes(b) == TotalBytes(a) && Unmarked(b) < Unmarked(a))
  {
    var k, body :| IsLongest(a, k) && IsHalved(a[k].body, body) && b == a[k := a[k].(body := body)];
    HalvedIsCut(a[k].body, body);
    CutMakesProgress(a, k, body);
  }

  lemma {:induction false} TrailExists(sections: seq<Section>)
    ensures exists trail :: IsTrail(sections, trail)
    decreases TotalBytes(sections), Unmarked(sections)
  {
    if AllShort(sections) {
      assert IsTrail(sections, [sections]);
    } else {
      HalvingExists(sections);
      var next :| IsHalving(sections, next);
      HalvingMakesProgress(sections, next);
      TrailExists(next);
      var rest :| IsTrail(next, rest);
      LongerTrail(sections, next, rest);
    }
  }

  lemma LongerTrail(sections: seq<Section>, next: seq<Section>, rest: seq<seq<Section>>)
    requires IsHalving(sections, next) && IsTrail(next, rest)
    ensures IsTrail(sections, [sections] + rest)
  {
    var trail := [sections] + rest;
    forall i | 0 <= i < |trail| - 1 ensures IsHalving(trail[i], trail[i + 1]) {
      if i > 0 { assert IsHalving(rest[i - 1], rest[i]); }
    }
  }

  // ----- limits that suffice, and the least one

  /** The bytes of a heading: "=== ", the name, " ===" and its line end. */
  function HeadingBytes(s: Section): nat { |OPENING| + |s.name| + |CLOSING| }

  function Shorter(b: Bytes): nat { if |b| < SHORT then |b| else SHORT }

  /** Every heading, the blank lines between and no body longer than a short one. */
  function Floor(sections: seq<Section>): nat {
    if sections == [] then 0
    else
      var n := |sections| - 1;
      Floor(sections[..n]) + (if n > 0 then |BLANK_LINE| else 0) + HeadingBytes(sections[n]) + Shorter(sections[n].body)
  }

  function NameBytes(sections: seq<Section>): nat {
    if sections == [] then 0 else |sections[0].name| + NameBytes(sections[1..])
  }

  function ShortBytes(sections: seq<Section>): nat {
    if sections == [] then 0
    else (if |sections[0].body| > 26 then 26 else |sections[0].body|) + ShortBytes(sections[1..])
  }

  /** That is 9 bytes and the name for each heading, 2 between sections, and at most 26 of each body. */
  lemma {:induction false} FloorMeaning(sections: seq<Section>, n: nat)
    requires n <= |sections|
    ensures Floor(sections[..n]) == NameBytes(sections[..n]) + ShortBytes(sections[..n]) + (if n == 0 then 0 else 11 * n - 2)
  {
    if n > 0 {
      FloorMeaning(sections, n - 1);
      assert sections[..n][..n - 1] == sections[..n - 1] && sections[..n] == sections[..n - 1] + [sections[n - 1]];
      OneMoreSection(sections[..n - 1], sections[n - 1]);
    }
  }

  lemma {:induction false} OneMoreSection(sections: seq<Section>, s: Section)
    ensures NameBytes(sections + [s]) == NameBytes(sections) + |s.name|
    ensures ShortBytes(sections + [s]) == ShortBytes(sections) + if |s.body| > 26 then 26 else |s.body|
  {
    if sections != [] {
      OneMoreSection(sections[1..], s);
      assert (sections + [s])[1..] == sections[1..] + [s];
    } else {
      assert (sections + [s])[1..] == [];
    }
  }

  lemma {:induction false} TrimIsPrefix(b: Bytes)
    ensures TrimNewlines(b) <= b
  {
    if b != [] && b[|b| - 1] == NL { TrimIsPrefix(b[..|b| - 1]); }
  }

  lemma {:induction false} ShortFitsFloor(sections: seq<Section>, cut: seq<Section>, n: nat)
    requires |cut| == |sections| && n <= |cut| && AllShort(cut)
    requires forall i :: 0 <= i < |cut| ==> IsWholeOrCut(sections[i], cut[i])
    ensures |Render(cut[..n])| <= Floor(sections[..n])
  {
    if n > 0 {
      ShortFitsFloor(sections, cut, n - 1);
      assert cut[..n][..n - 1] == cut[..n - 1] && sections[..n][..n - 1] == sections[..n - 1];
      TrimIsPrefix(cut[n - 1].body);
      assert cut[n - 1] in cut && IsWholeOrCut(sections[n - 1], cut[n - 1]);
    }
  }

  /** A limit with room for every heading and the short ends of the bodies keeps every heading. */
  lemma FloorSuffices(sections: seq<Section>, max: int, out: Bytes)
    requires max > 0 && Floor(sections) <= max && IsCapped(sections, max, out)
    ensures IsUnbroken(sections, max, out)
    ensures exists cut :: IsShortened(sections, cut) && out == Render(cut)
  {
    var run :| IsTrimming(sections, max, run) && Fits(run[|run| - 1], max, out);
    var cut := run[|run| - 1];
    TrimmingShortens(sections, max, run, |run| - 1);
    if AllShort(cut) {
      ShortFitsFloor(sections, cut, |cut|);
      assert cut[..|cut|] == cut && sections[..|cut|] == sections;
    }
    UnbrokenKeepsHeadings(sections, max, out);
  }

  /** No long body ends in a newline. */
  ghost predicate IsTidy(sections: seq<Section>) {
    forall i :: 0 <= i < |sections| && |sections[i].body| > SHORT ==> sections[i].body[|sections[i].body| - 1] != NL
  }

  lemma {:induction false} RenderReplaced(sections: seq<Section>, k: nat, s: Section)
    requires k < |sections|
    ensures |Render(sections[k := s])| == |Render(sections)| - |Block(sections[k])| + |Block(s)|
  {
    var n := |sections| - 1;
    var changed := sections[k := s];
    if k < n {
      RenderReplaced(sections[..n], k, s);
      assert changed[..n] == sections[..n][k := s];
    } else {
      assert changed[..n] == sections[..n];
    }
  }

  lemma HalvedShrinks(sections: seq<Section>, next: seq<Section>)
    requires IsTidy(sections) && IsHalving(sections, next)
    ensures IsTidy(next) && |Render(next)| <= |Render(sections)|
  {
    var k, body :| IsLongest(sections, k) && IsHalved(sections[k].body, body)
                   && next == sections[k := sections[k].(body := body)];
    HalvedIsCut(sections[k].body, body);
    BlockShrinks(sections[k], body);
    RenderReplaced(sections, k, sections[k].(body := body));
    TidyReplaced(sections, k, body);
  }

  lemma TidyReplaced(sections: seq<Section>, k: nat, b: Bytes)
    requires IsTidy(sections) && k < |sections| && b != [] && b[|b| - 1] != NL
    ensures IsTidy(sections[k := sections[k].(body := b)])
  {
  }

  lemma BlockShrinks(s: Section, b: Bytes)
    requires IsCut(s.body, b) && s.body[|s.body| - 1] != NL
    ensures |Block(s.(body := b))| <= |Block(s)| && b != [] && b[|b| - 1] != NL
  {
    CutDecreases(s.body, b);
    CutEndsInMark(s.body, b);
  }

  lemma CutEndsInMark(orig: Bytes, b: Bytes)
    requires IsCut(orig, b)
    ensures b != [] && b[|b| - 1] != NL
  {
    var p :| p <= Unmark(orig) && 2 * |p| <= |Unmark(orig)| && b == p + MARK;
    assert b[|b| - 1] == MARK[|MARK| - 1];
  }

  lemma {:induction false} TrailShrinks(sections: seq<Section>, trail: seq<seq<Section>>, i: nat, j: nat)
    requires IsTrail(sections, trail) && IsTidy(sections) && i <= j < |trail|
    ensures IsTidy(trail[j]) && |Render(trail[j])| <= |Render(trail[i])|
    decreases j, j - i
  {
    if j > 0 {
      TrailShrinks(sections, trail, 0, j - 1);
      assert IsHalving(trail[j - 1], trail[j]);
      HalvedShrinks(trail[j - 1], trail[j]);
      if i < j { TrailShrinks(sections, trail, i, j - 1); }
    }
  }

  /** When no long body ends in a newline the least limit is the length of the report halved to the end. */
  lemma LeastLimit(sections: seq<Section>, max: int, out: Bytes, trail: seq<seq<Section>>)
    requires max > 0 && IsTidy(sections) && IsTrail(sections, trail) && IsCapped(sections, max, out)
    ensures IsUnbroken(sections, max, out) <==> |Render(trail[|trail| - 1])| <= max
  {
    UnbrokenExact(sections, max, out, trail);
    if i :| 0 <= i < |trail| && |Render(trail[i])| <= max {
      TrailShrinks(sections, trail, i, |trail| - 1);
    }
  }

  // ----- headings that fit and are lost

  /** A report of short bodies keeps its headings exactly when it fits whole, whatever its headings alone come to. */
  lemma ShortKeptExact(sections: seq<Section>, max: int, out: Bytes)
    requires max > 0 && AllShort(sections) && IsCapped(sections, max, out)
    ensures (exists cut :: IsShortened(sections, cut) && out == Render(cut)) <==> |Render(sections)| <= max
  {
    ShortReportIsCutAtMax(sections, max, out);
    if cut :| IsShortened(sections, cut) && out == Render(cut) {
      ShortMeansWhole(sections, cut);
    }
    if |Render(sections)| <= max {
      assert forall j :: 0 <= j < |sections| ==> IsWholeOrCut(sections[j], sections[j]);
      assert IsShortened(sections, sections);
    }
  }

  /** A heading of 9 bytes fits in 10, and yet over a body of 20 bytes the report is broken off. */
  lemma HeadingFitsYetCut(body: Bytes, out: Bytes)
    requires |body| == 20 && body[19] != NL && IsCapped([Section([], body)], 10, out)
    ensures |Render([Section([], [])])| == 9 && |out| == 10
    ensures !exists cut :: IsShortened([Section([], body)], cut) && out == Render(cut)
  {
    var sections, bare := [Section([], body)], [Section([], [])];
    assert Render(sections[..0]) == [] && Render(bare[..0]) == [];
    assert |Render(sections)| == 29;
    ShortReportIsCutAtMax(sections, 10, out);
    ShortKeptExact(sections, 10, out);
  }
}
