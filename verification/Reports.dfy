/** Rendering a report within a byte limit (Report.String and Report.Capped in collect/collect.go). */
module Reports {
  import opened Texts

  datatype Section = Section(name: Bytes, body: Bytes)

  /** "… (trimmed)" in UTF-8. */
  const TRIMMED: Bytes := [0xE2, 0x80, 0xA6, 0x20, 0x28, 0x74, 0x72, 0x69, 0x6D, 0x6D, 0x65, 0x64, 0x29]
  const MARK: Bytes := [NL] + TRIMMED
  /** No body this short is cut. */
  const SHORT := 2 * |TRIMMED|

  const BLANK_LINE: Bytes := [NL, NL]
  /** "=== " and " ===" with its line end. */
  const OPENING: Bytes := [0x3D, 0x3D, 0x3D, 0x20]
  const CLOSING: Bytes := [0x20, 0x3D, 0x3D, 0x3D, NL]

  // ----- rendering

  function TrimNewlines(b: Bytes): Bytes {
    if b != [] && b[|b| - 1] == NL then TrimNewlines(b[..|b| - 1]) else b
  }

  function Block(s: Section): Bytes { OPENING + s.name + CLOSING + TrimNewlines(s.body) }

  function Render(sections: seq<Section>): Bytes {
    if sections == [] then []
    else
      var n := |sections| - 1;
      Render(sections[..n]) + (if n > 0 then BLANK_LINE else []) + Block(sections[n])
  }

  /** The newlines at the end go, and nothing else. */
  lemma {:induction false} TrimMeaning(b: Bytes)
    ensures var r := TrimNewlines(b);
            && r <= b && (r != [] ==> r[|r| - 1] != NL)
            && forall i :: |r| <= i < |b| ==> b[i] == NL
  {
    if b != [] && b[|b| - 1] == NL { TrimMeaning(b[..|b| - 1]); }
  }

  /** A heading of the name, and on the next line the body without the newlines at its end. */
  lemma BlockMeaning(s: Section)
    ensures exists body :: body <= s.body && (body != [] ==> body[|body| - 1] != NL)
              && (forall i :: |body| <= i < |s.body| ==> s.body[i] == NL)
              && Block(s) == [0x3D, 0x3D, 0x3D, 0x20] + s.name + [0x20, 0x3D, 0x3D, 0x3D, 0x0A] + body
  {
    TrimMeaning(s.body);
  }

  /** A report is its sections in order, a blank line between each and the next. */
  lemma RenderMeaning(sections: seq<Section>, n: nat)
    requires n <= |sections|
    ensures Render(sections[..n]) ==
            if n == 0 then [] else Render(sections[..n - 1]) + (if n == 1 then [] else [0x0A, 0x0A]) + Block(sections[n - 1])
  {
    if n > 0 { assert sections[..n][..n - 1] == sections[..n - 1]; }
  }

  method String(sections: seq<Section>) returns (out: Bytes)
    ensures out == Render(sections)
  {
    out := [];
    for i := 0 to |sections|
      invariant out == Render(sections[..i])
    {
      assert sections[..i + 1][..i] == sections[..i];
      if i > 0 { out := out + BLANK_LINE; }
      out := out + Block(sections[i]);
    }
    assert sections[..|sections|] == sections;
  }

  // ----- cutting one body

  predicate IsMarked(b: Bytes) { |b| >= |MARK| && b[|b| - |MARK|..] == MARK }

  /** A body without the mark of an earlier cut. */
  function Unmark(b: Bytes): Bytes { if IsMarked(b) then b[..|b| - |MARK|] else b }

  lemma UnmarkMarked(p: Bytes)
    ensures IsMarked(p + MARK) && Unmark(p + MARK) == p
  {
    var b := p + MARK;
    assert b[|b| - |MARK|..] == MARK && b[..|b| - |MARK|] == p;
  }

  /** b is the long body orig cut to a beginning of it, at most half, and marked. */
  ghost predicate IsCut(orig: Bytes, b: Bytes) {
    |orig| > SHORT && exists p :: p <= Unmark(orig) && 2 * |p| <= |Unmark(orig)| && b == p + MARK
  }

  lemma CutIsNotWhole(orig: Bytes, b: Bytes)
    requires IsCut(orig, b)
    ensures b != orig
  {
    var p :| p <= Unmark(orig) && 2 * |p| <= |Unmark(orig)| && b == p + MARK;
    UnmarkMarked(p);
    assert Unmark(b) == p;
  }

  /** Cutting a cut body once more is cutting the body. */
  lemma CutAgain(orig: Bytes, b: Bytes, c: Bytes)
    requires IsCut(orig, b) && IsCut(b, c)
    ensures IsCut(orig, c)
  {
    var p :| p <= Unmark(orig) && 2 * |p| <= |Unmark(orig)| && b == p + MARK;
    UnmarkMarked(p);
    var q :| q <= Unmark(b) && 2 * |q| <= |Unmark(b)| && c == q + MARK;
    assert q <= Unmark(orig);
  }

  /** A cut never makes a body longer, and one it does not make shorter it marks for the first time. */
  lemma CutDecreases(orig: Bytes, b: Bytes)
    requires IsCut(orig, b)
    ensures |b| < |orig| || (|b| == |orig| && !IsMarked(orig) && IsMarked(b))
  {
    var p :| p <= Unmark(orig) && 2 * |p| <= |Unmark(orig)| && b == p + MARK;
    UnmarkMarked(p);
  }

  /** half up to its last line break; all of it when it has none past its first byte. */
  ghost predicate AtLineBreak(half: Bytes, keep: Bytes) {
    && keep <= half
    && (forall j :: |keep| < j < |half| ==> half[j] != NL)
    && (keep != half ==> |keep| > 0 && half[|keep|] == NL)
    && (keep == half ==> forall j :: 0 < j < |half| ==> half[j] != NL)
  }

  /** b is body, its mark off, cut to half at a line break and marked. */
  ghost predicate IsHalved(body: Bytes, b: Bytes) {
    exists keep :: AtLineBreak(Unmark(body)[..|Unmark(body)| / 2], keep) && b == keep + MARK
  }

  lemma HalvedIsCut(body: Bytes, b: Bytes)
    requires |body| > SHORT && IsHalved(body, b)
    ensures IsCut(body, b)
  {
    var keep :| AtLineBreak(Unmark(body)[..|Unmark(body)| / 2], keep) && b == keep + MARK;
    assert keep <= Unmark(body);
  }

  method Shorten(body: Bytes) returns (b: Bytes)
    requires |body| > SHORT
    ensures IsHalved(body, b)
  {
    var full := Unmark(body);
    var half := full[..|full| / 2];
    var nl := |half| - 1;
    while nl > 0 && half[nl] != NL
      invariant -1 <= nl < |half|
      invariant forall j :: nl < j < |half| && j > 0 ==> half[j] != NL
    {
      nl := nl - 1;
    }
    var keep := if nl > 0 then half[..nl] else half;
    b := keep + MARK;
  }

  // ----- cutting a report

  /** Which body to cut: the first of the longest; none (-1) when all are short. */
  method Longest(sections: seq<Section>) returns (longest: int)
    ensures longest == -1 ==> forall s :: s in sections ==> |s.body| <= SHORT
    ensures longest != -1 ==> IsLongest(sections, longest)
  {
    longest := -1;
    for i := 0 to |sections|
      invariant longest == -1 ==> forall s :: s in sections[..i] ==> |s.body| <= SHORT
      invariant longest != -1 ==> 0 <= longest < i && IsLongest(sections[..i], longest)
    {
      assert sections[..i + 1] == sections[..i] + [sections[i]];
      if |sections[i].body| > SHORT && (longest < 0 || |sections[i].body| > |sections[longest].body|) {
        longest := i;
      }
    }
    assert sections[..|sections|] == sections;
  }

  ghost predicate IsLongest(sections: seq<Section>, k: int) {
    && 0 <= k < |sections| && |sections[k].body| > SHORT
    && (forall i :: 0 <= i < |sections| ==> |sections[i].body| <= |sections[k].body|)
    && (forall i :: 0 <= i < k ==> |sections[i].body| < |sections[k].body|)
  }

  /**
   * What cutting makes of a report: every name is kept, a body is whole or
   * cut, and none longer than one that is cut stays whole.
   */
  ghost predicate IsShortened(sections: seq<Section>, cut: seq<Section>) {
    && |cut| == |sections|
    && (forall i :: 0 <= i < |cut| ==> IsWholeOrCut(sections[i], cut[i]))
    && forall i, j :: 0 <= i < |cut| && 0 <= j < |cut| && cut[i] != sections[i] && cut[j] == sections[j] ==>
         |sections[j].body| <= |sections[i].body|
  }

  ghost predicate IsWholeOrCut(s: Section, c: Section) {
    c == s || (c.name == s.name && IsCut(s.body, c.body))
  }

  /** Cutting the longest body keeps this. */
  lemma ShortenedOnce(sections: seq<Section>, cut: seq<Section>, k: nat, b: Bytes)
    requires IsShortened(sections, cut) && IsLongest(cut, k) && IsCut(cut[k].body, b)
    ensures IsShortened(sections, cut[k := cut[k].(body := b)])
  {
    assert IsWholeOrCut(sections[k], cut[k]);
    if cut[k] != sections[k] {
      CutAgain(sections[k].body, cut[k].body, b);
    }
    CutIsNotWhole(sections[k].body, b);
    var cut1 := cut[k := cut[k].(body := b)];
    forall i | 0 <= i < |cut1| ensures IsWholeOrCut(sections[i], cut1[i]) {
      assert IsWholeOrCut(sections[i], cut[i]);
    }
    forall i, j | 0 <= i < |cut1| && 0 <= j < |cut1| && cut1[i] != sections[i] && cut1[j] == sections[j]
      ensures |sections[j].body| <= |sections[i].body|
    {
      assert j != k && cut[j] == sections[j];
    }
  }

  // ----- why the loop ends

  function TotalBytes(sections: seq<Section>): nat {
    if sections == [] then 0 else |sections[0].body| + TotalBytes(sections[1..])
  }

  function Unmarked(sections: seq<Section>): nat {
    if sections == [] then 0 else (if IsMarked(sections[0].body) then 0 else 1) + Unmarked(sections[1..])
  }

  lemma {:induction false} Replaced(sections: seq<Section>, k: nat, s: Section)
    requires k < |sections|
    ensures TotalBytes(sections[k := s]) == TotalBytes(sections) - |sections[k].body| + |s.body|
    ensures Unmarked(sections[k := s]) + (if IsMarked(sections[k].body) then 0 else 1)
         == Unmarked(sections) + (if IsMarked(s.body) then 0 else 1)
  {
    if k == 0 {
      assert sections[k := s][1..] == sections[1..];
    } else {
      Replaced(sections[1..], k - 1, s);
      assert sections[k := s][1..] == sections[1..][k - 1 := s];
    }
  }

  /** A cut makes the bodies shorter in all, or leaves their length and marks one more. */
  lemma CutMakesProgress(cut: seq<Section>, k: nat, b: Bytes)
    requires k < |cut| && IsCut(cut[k].body, b)
    ensures var cut1 := cut[k := cut[k].(body := b)];
            TotalBytes(cut1) < TotalBytes(cut) || (TotalBytes(cut1) == TotalBytes(cut) && Unmarked(cut1) < Unmarked(cut))
  {
    CutDecreases(cut[k].body, b);
    Replaced(cut, k, cut[k].(body := b));
  }

  /** The length of the bodies alone is no such measure: a cut can leave a body of 27 or 28 bytes as long as it was. */
  lemma CutNeedNotShorten(p: Bytes, b: Bytes)
    requires SHORT < |p| && !IsMarked(p) && b == p[..|p| / 2] + MARK
    ensures IsCut(p, b) && (|b| == |p| <==> |p| <= SHORT + 2)
  {
    var half := p[..|p| / 2];
    assert half <= Unmark(p) && b == half + MARK;
  }

  // ----- the whole report

  /** The first longest body is halved. */
  ghost predicate IsHalving(a: seq<Section>, b: seq<Section>) {
    exists k, body :: IsLongest(a, k) && IsHalved(a[k].body, body) && b == a[k := a[k].(body := body)]
  }

  /** A cut, made while the report is too long. */
  ghost predicate IsStep(max: int, a: seq<Section>, b: seq<Section>) {
    |Render(a)| > max && IsHalving(a, b)
  }

  /** The report after each cut, none made once it fits. */
  ghost predicate IsTrimming(sections: seq<Section>, max: int, run: seq<seq<Section>>) {
    run != [] && run[0] == sections && forall i :: 0 <= i < |run| - 1 ==> IsStep(max, run[i], run[i + 1])
  }

  /** All of a report that fits; of one that is too long with all its bodies short, the first max bytes. */
  ghost predicate Fits(cut: seq<Section>, max: int, out: Bytes) {
    if |Render(cut)| <= max then out == Render(cut)
    else max > 0 && out == Render(cut)[..max] && forall s :: s in cut ==> |s.body| <= SHORT
  }

  /** What Capped returns: the report trimmed until it fits or nothing is left to trim. */
  ghost predicate IsCapped(sections: seq<Section>, max: int, out: Bytes) {
    exists run :: IsTrimming(sections, max, run) && Fits(run[|run| - 1], max, out)
  }

  method Capped(sections: seq<Section>, max: int) returns (out: Bytes)
    ensures max <= 0 ==> out == Render(sections)
    ensures max > 0 ==> IsCapped(sections, max, out) && |out| <= max
  {
    out := String(sections);
    if max <= 0 { return; }
    var cut := sections;
    ghost var run := [sections];
    while |out| > max
      invariant out == Render(cut) && IsTrimming(sections, max, run) && run[|run| - 1] == cut
      decreases TotalBytes(cut), Unmarked(cut)
    {
      var k := Longest(cut);
      if k == -1 { break; }
      var b := Shorten(cut[k].body);
      HalvedIsCut(cut[k].body, b);
      CutMakesProgress(cut, k, b);
      ghost var cut0 := cut;
      cut := cut[k := cut[k].(body := b)];
      assert IsHalving(cut0, cut);
      TrimMore(sections, max, run, cut);
      run := run + [cut];
      out := String(cut);
    }
    if |out| > max { out := out[..max]; }
    assert Fits(run[|run| - 1], max, out);
  }

  lemma TrimMore(sections: seq<Section>, max: int, run: seq<seq<Section>>, cut: seq<Section>)
    requires IsTrimming(sections, max, run) && IsStep(max, run[|run| - 1], cut)
    ensures IsTrimming(sections, max, run + [cut])
  {
  }

  /** Whatever is trimmed keeps its names and short bodies, and no body longer than a cut one stays whole. */
  lemma {:induction false} TrimmingShortens(sections: seq<Section>, max: int, run: seq<seq<Section>>, i: nat)
    requires IsTrimming(sections, max, run) && i < |run|
    ensures IsShortened(sections, run[i])
  {
    if i > 0 {
      TrimmingShortens(sections, max, run, i - 1);
      var a := run[i - 1];
      assert IsStep(max, a, run[i]);
      var k, body :| IsLongest(a, k) && IsHalved(a[k].body, body) && run[i] == a[k := a[k].(body := body)];
      HalvedIsCut(a[k].body, body);
      ShortenedOnce(sections, a, k, body);
    } else {
      assert forall j :: 0 <= j < |sections| ==> IsWholeOrCut(sections[j], sections[j]);
    }
  }

  /** A report that fits is not trimmed. */
  lemma FittingIsWhole(sections: seq<Section>, max: int, out: Bytes)
    requires IsCapped(sections, max, out) && |Render(sections)| <= max
    ensures out == Render(sections)
  {
    var run :| IsTrimming(sections, max, run) && Fits(run[|run| - 1], max, out);
    assert |run| > 1 ==> IsStep(max, run[0], run[1]);
  }

  lemma ShortMeansWhole(sections: seq<Section>, cut: seq<Section>)
    requires IsShortened(sections, cut) && forall s :: s in sections ==> |s.body| <= SHORT
    ensures cut == sections
  {
    forall i | 0 <= i < |cut| ensures cut[i] == sections[i] {
      assert IsWholeOrCut(sections[i], cut[i]) && sections[i] in sections;
    }
  }

  /**
   * Short bodies are never cut for the headings' sake: whenever headings and
   * short bodies together are too long the report is cut at max, wherever
   * that falls, though its headings alone may fit.
   */
  lemma ShortReportIsCutAtMax(sections: seq<Section>, max: int, out: Bytes)
    requires max > 0 && forall s :: s in sections ==> |s.body| <= SHORT
    ensures IsCapped(sections, max, out) <==>
            out == if |Render(sections)| <= max then Render(sections) else Render(sections)[..max]
  {
    if IsCapped(sections, max, out) {
      var run :| IsTrimming(sections, max, run) && Fits(run[|run| - 1], max, out);
      TrimmingShortens(sections, max, run, |run| - 1);
      ShortMeansWhole(sections, run[|run| - 1]);
    }
    if out == if |Render(sections)| <= max then Render(sections) else Render(sections)[..max] {
      assert IsTrimming(sections, max, [sections]) && Fits([sections][0], max, out);
    }
  }
}
