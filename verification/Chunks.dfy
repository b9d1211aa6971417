/** Cutting a span of code into parts (splitSpan in codeparse/chunk.go). */
module Chunks {
  import opened Texts

  const MAX_CHUNK_BYTES := 6000
  const MIN_PART_BYTES := 256

  /** The file's bytes [start, end) and the text they are retrieved as. */
  datatype Span = Span(start: nat, end: nat, text: Bytes)

  /** What a part's text starts with: the signature, from the second part on. */
  function Before(k: nat, prefix: Bytes): Bytes { if k == 0 then [] else prefix }

  function Room(pre: Bytes): nat {
    if MAX_CHUNK_BYTES - |pre| > MIN_PART_BYTES then MAX_CHUNK_BYTES - |pre| else MIN_PART_BYTES
  }

  predicate IsPart(src: Bytes, k: nat, prefix: Bytes, p: Span) {
    p.start <= p.end <= |src| && p.text == Before(k, prefix) + src[p.start..p.end]
  }

  /** A part is followed where it ends, or past the newline left out there. */
  predicate Joined(src: Bytes, e: nat, s: nat) {
    e <= s <= |src| && (s == e || (s == e + 1 && src[e] == NL))
  }

  /** Every cut is a line start of the file. */
  ghost predicate CutsAtLines(src: Bytes, cuts: seq<nat>) {
    (forall i, j :: 0 <= i < j < |cuts| ==> cuts[i] <= cuts[j]) && forall c :: c in cuts ==> IsLineStart(src, c)
  }

  /**
   * The place to cut after s: the furthest of cuts that fits; else the
   * furthest line start that fits; else the furthest rune start within the
   * limit, or failing that the next byte.
   */
  ghost predicate IsBestCut(src: Bytes, cuts: seq<nat>, s: nat, limit: nat, c: nat)
    requires limit < |src|
  {
    && s < c <= limit
    && if exists d :: d in cuts && s < d <= limit
       then c in cuts && forall d :: d in cuts && d <= limit ==> d <= c
       else if exists d :: s < d <= limit && IsLineStart(src, d)
       then IsLineStart(src, c) && forall d :: c < d <= limit ==> !IsLineStart(src, d)
       else (c == s + 1 || RuneStart(src[c])) && forall d :: c < d <= limit ==> !RuneStart(src[d])
  }

  method FindCut(src: Bytes, starts: seq<nat>, cuts: seq<nat>, s: nat, limit: nat) returns (c: nat)
    requires IsLineIndex(src, starts) && CutsAtLines(src, cuts) && s < limit < |src|
    ensures IsBestCut(src, cuts, s, limit, c)
  {
    var n := CountUpTo(cuts, limit);
    if n > 0 && cuts[n - 1] > s {
      assert cuts[n - 1] in cuts;
      return cuts[n - 1];
    }
    assert forall d :: d in cuts && d <= limit ==> d <= s;
    var i := Line(starts, limit);
    forall d | d in starts && d <= limit ensures d <= starts[i] {
      var j :| 0 <= j < |starts| && starts[j] == d;
    }
    if starts[i] > s {
      assert starts[i] in starts;
      return starts[i];
    }
    c := limit;
    while c > s + 1 && !RuneStart(src[c])
      invariant s < c <= limit
      invariant forall d :: c < d <= limit ==> !RuneStart(src[d])
    {
      c := c - 1;
    }
  }

  /** Part k is cut at next, the best place within its room, its newline left out. */
  ghost predicate CutAt(src: Bytes, cuts: seq<nat>, prefix: Bytes, end: nat, k: nat, p: Span, next: nat) {
    && p.start + Room(Before(k, prefix)) < end <= |src|
    && IsBestCut(src, cuts, p.start, p.start + Room(Before(k, prefix)), next)
    && Joined(src, p.end, next)
    && (next == p.end <==> src[next - 1] != NL)
  }

  /** parts cover [start, s), each cut at the best place. */
  ghost predicate PartsSoFar(src: Bytes, cuts: seq<nat>, prefix: Bytes, start: nat, end: nat, parts: seq<Span>,
                             s: nat) {
    && start <= s <= end <= |src|
    && (forall k :: 0 <= k < |parts| ==> IsPart(src, k, prefix, parts[k]))
    && (forall k :: 0 <= k < |parts| ==> CutAt(src, cuts, prefix, end, k, parts[k], NextStart(parts, k, s)))
    && NextStart(parts, -1, s) == start
  }

  /** Where the part after part k starts: the next one's start, s after the last. */
  function NextStart(parts: seq<Span>, k: int, s: nat): nat {
    if -1 <= k < |parts| - 1 then parts[k + 1].start else s
  }

  lemma OneMorePart(src: Bytes, cuts: seq<nat>, prefix: Bytes, start: nat, end: nat, parts: seq<Span>, s: nat,
                    p: Span, next: nat)
    requires PartsSoFar(src, cuts, prefix, start, end, parts, s) && p.start == s && s <= next <= end
    requires IsPart(src, |parts|, prefix, p) && CutAt(src, cuts, prefix, end, |parts|, p, next)
    ensures PartsSoFar(src, cuts, prefix, start, end, parts + [p], next)
  {
    forall k: nat | k <= |parts|
      ensures IsPart(src, k, prefix, (parts + [p])[k])
      ensures CutAt(src, cuts, prefix, end, k, (parts + [p])[k], NextStart(parts + [p], k, next))
    {
      OneMoreCut(src, cuts, prefix, start, end, parts, s, p, next, k);
    }
    NextStays(parts, -1, s, p, next);
  }

  lemma OneMoreCut(src: Bytes, cuts: seq<nat>, prefix: Bytes, start: nat, end: nat, parts: seq<Span>, s: nat,
                   p: Span, next: nat, k: nat)
    requires PartsSoFar(src, cuts, prefix, start, end, parts, s) && p.start == s && k <= |parts|
    requires IsPart(src, |parts|, prefix, p) && CutAt(src, cuts, prefix, end, |parts|, p, next)
    ensures IsPart(src, k, prefix, (parts + [p])[k])
    ensures CutAt(src, cuts, prefix, end, k, (parts + [p])[k], NextStart(parts + [p], k, next))
  {
    if k < |parts| { NextStays(parts, k, s, p, next); }
  }

  lemma NextStays(parts: seq<Span>, k: int, s: nat, p: Span, next: nat)
    requires -1 <= k < |parts| && p.start == s
    ensures NextStart(parts + [p], k, next) == NextStart(parts, k, s) && (k >= 0 ==> (parts + [p])[k] == parts[k])
  {
  }

  /** Part k, which starts at s, and where the one after it starts. */
  method NextPart(src: Bytes, starts: seq<nat>, end: nat, cuts: seq<nat>, prefix: Bytes, k: nat, s: nat)
    returns (p: Span, c: nat)
    requires IsLineIndex(src, starts) && CutsAtLines(src, cuts) && s + Room(Before(k, prefix)) < end <= |src|
    ensures p.start == s < c <= end && IsPart(src, k, prefix, p) && CutAt(src, cuts, prefix, end, k, p, c)
  {
    var pre := Before(k, prefix);
    c := FindCut(src, starts, cuts, s, s + Room(pre));
    var e := c;
    if src[e - 1] == NL { e := e - 1; }
    p := Span(s, e, pre + src[s..e]);
  }

  /** Parts end where FindCut says; the last runs to end. */
  method SplitSpan(src: Bytes, starts: seq<nat>, start: nat, end: nat, cuts: seq<nat>,
                   prefix: Bytes) returns (parts: seq<Span>)
    requires IsLineIndex(src, starts) && CutsAtLines(src, cuts) && start <= end <= |src|
    ensures AreParts(src, cuts, prefix, start, end, parts)
  {
    parts := [];
    var s := start;
    while end - s > Room(Before(|parts|, prefix))
      invariant PartsSoFar(src, cuts, prefix, start, end, parts, s)
      decreases end - s
    {
      var p, c := NextPart(src, starts, end, cuts, prefix, |parts|, s);
      OneMorePart(src, cuts, prefix, start, end, parts, s, p, c);
      parts, s := parts + [p], c;
    }
    LastPart(src, cuts, prefix, start, end, parts, s);
    parts := parts + [Span(s, end, Before(|parts|, prefix) + src[s..end])];
  }

  lemma LastPart(src: Bytes, cuts: seq<nat>, prefix: Bytes, start: nat, end: nat, parts: seq<Span>, s: nat)
    requires PartsSoFar(src, cuts, prefix, start, end, parts, s) && end - s <= Room(Before(|parts|, prefix))
    ensures AreParts(src, cuts, prefix, start, end, parts + [Span(s, end, Before(|parts|, prefix) + src[s..end])])
  {
    var last := Span(s, end, Before(|parts|, prefix) + src[s..end]);
    var parts1 := parts + [last];
    forall k | 0 <= k < |parts1| - 1 ensures CutAt(src, cuts, prefix, end, k, parts1[k], parts1[k + 1].start) {
      assert parts1[k + 1].start == NextStart(parts, k, s);
    }
    assert parts1[0].start == NextStart(parts, -1, s);
  }

  // ----- what the parts are

  /** The parts of a span: the whole of it, cut where SplitSpan cuts. */
  ghost predicate AreParts(src: Bytes, cuts: seq<nat>, prefix: Bytes, start: nat, end: nat, parts: seq<Span>) {
    && start <= end <= |src|
    && parts != [] && parts[0].start == start && parts[|parts| - 1].end == end
    && end - parts[|parts| - 1].start <= Room(Before(|parts| - 1, prefix))
    && (forall k :: 0 <= k < |parts| ==> IsPart(src, k, prefix, parts[k]))
    && (forall k :: 0 <= k < |parts| - 1 ==> CutAt(src, cuts, prefix, end, k, parts[k], parts[k + 1].start))
  }

  /** The texts of the first n parts without their prefixes, each newline left out at a cut put back. */
  function Rejoin(parts: seq<Span>, prefix: Bytes, n: nat): Bytes
    requires n <= |parts|
  {
    if n == 0 then []
    else
      var p := parts[n - 1];
      var body := if |Before(n - 1, prefix)| <= |p.text| then p.text[|Before(n - 1, prefix)|..] else [];
      Rejoin(parts, prefix, n - 1) + body + if n < |parts| && parts[n].start > p.end then [NL] else []
  }

  /** Nothing is lost: the parts rejoined are the span. */
  lemma {:induction false} RejoinPrefix(src: Bytes, cuts: seq<nat>, prefix: Bytes, start: nat, end: nat,
                                        parts: seq<Span>, n: nat)
    requires AreParts(src, cuts, prefix, start, end, parts) && n <= |parts|
    ensures var upTo := if n < |parts| then parts[n].start else end;
            start <= upTo <= |src| && Rejoin(parts, prefix, n) == src[start..upTo]
  {
    if n > 0 {
      RejoinPrefix(src, cuts, prefix, start, end, parts, n - 1);
      var p := parts[n - 1];
      assert IsPart(src, n - 1, prefix, p);
      PartBody(src, n - 1, prefix, p);
      if n < |parts| {
        assert CutAt(src, cuts, prefix, end, n - 1, p, parts[n].start);
        Slices(src, start, p.start, p.end, parts[n].start);
      } else {
        Slices(src, start, p.start, p.end, p.end);
      }
    }
  }

  lemma PartBody(src: Bytes, k: nat, prefix: Bytes, p: Span)
    requires IsPart(src, k, prefix, p)
    ensures p.text[|Before(k, prefix)|..] == src[p.start..p.end]
  {
  }

  lemma Slices(src: Bytes, start: nat, a: nat, e: nat, next: nat)
    requires start <= a <= e <= |src| && Joined(src, e, next)
    ensures src[start..a] + src[a..e] + (if next > e then [NL] else []) == src[start..next]
  {
  }

  /** No part's text is longer than a chunk may be, or than its signature and the least room. */
  lemma PartsAreBounded(src: Bytes, cuts: seq<nat>, prefix: Bytes, start: nat, end: nat, parts: seq<Span>, k: nat)
    requires AreParts(src, cuts, prefix, start, end, parts) && k < |parts|
    ensures |parts[k].text| <= MAX_CHUNK_BYTES || |parts[k].text| <= |Before(k, prefix)| + MIN_PART_BYTES
  {
    assert IsPart(src, k, prefix, parts[k]);
    if k < |parts| - 1 { assert CutAt(src, cuts, prefix, end, k, parts[k], parts[k + 1].start); }
  }

  /** A span that fits a chunk is one part; a longer one is cut. */
  lemma WholeExact(src: Bytes, cuts: seq<nat>, prefix: Bytes, start: nat, end: nat, parts: seq<Span>)
    requires AreParts(src, cuts, prefix, start, end, parts)
    ensures |parts| == 1 <==> end - start <= 6000
  {
    if |parts| > 1 { assert CutAt(src, cuts, prefix, end, 0, parts[0], parts[1].start); }
  }

  /**
   * A part is cut only where what is left exceeds its room, which is what the
   * signature leaves of a chunk and at least 256 bytes; and it ends at the
   * best place within that room, without the newline there.
   */
  lemma CutMeaning(src: Bytes, cuts: seq<nat>, prefix: Bytes, start: nat, end: nat, parts: seq<Span>, k: nat)
    requires AreParts(src, cuts, prefix, start, end, parts) && k < |parts| - 1
    ensures var p, next := parts[k], parts[k + 1].start;
            var pre := if k == 0 then 0 else |prefix|;
            var room := if pre + 256 < 6000 then 6000 - pre else 256;
            && p.start + room < end <= |src| && IsBestCut(src, cuts, p.start, p.start + room, next)
            && p.end == (if src[next - 1] == NL then next - 1 else next)
            && p.text == (if k == 0 then [] else prefix) + src[p.start..p.end]
  {
    assert CutAt(src, cuts, prefix, end, k, parts[k], parts[k + 1].start);
    assert IsPart(src, k, prefix, parts[k]);
  }

  lemma PartsTile(src: Bytes, cuts: seq<nat>, prefix: Bytes, start: nat, end: nat, parts: seq<Span>)
    requires AreParts(src, cuts, prefix, start, end, parts)
    ensures Rejoin(parts, prefix, |parts|) == src[start..end]
  {
    RejoinPrefix(src, cuts, prefix, start, end, parts, |parts|);
  }

  /** In valid text the best cut starts a rune. */
  lemma CutStartsRune(src: Bytes, cuts: seq<nat>, s: nat, end: nat, limit: nat, c: nat)
    requires end <= |src| && s + 4 <= limit < end && Utf8(src[s..end])
    requires CutsAtLines(src, cuts) && IsBestCut(src, cuts, s, limit, c)
    ensures RuneStart(src[c])
  {
    var t := src[s..end];
    if IsLineStart(src, c) {
      assert t[c - 1 - s] == NL;
      RuneAfterNewline(t, c - 1 - s);
      assert t[c - s] == src[c];
    } else {
      RuneStartNear(t, limit - s);
      var d :| limit - s - 3 <= d <= limit - s && RuneStart(t[d]);
      assert src[s + d] == t[d];
    }
  }

  /** On valid UTF-8 no part splits a rune: every part's bytes, and all that follows each cut, are valid. */
  lemma {:induction false} PartsAreUtf8(src: Bytes, cuts: seq<nat>, prefix: Bytes, start: nat, end: nat,
                                        parts: seq<Span>, k: nat)
    requires AreParts(src, cuts, prefix, start, end, parts) && k < |parts|
    requires CutsAtLines(src, cuts) && Utf8(src[start..end])
    ensures parts[k].start <= end && Utf8(src[parts[k].start..end])
    ensures Utf8(src[parts[k].start..parts[k].end])
  {
    if k > 0 {
      PartsAreUtf8(src, cuts, prefix, start, end, parts, k - 1);
      CutIsUtf8(src, cuts, prefix, end, k - 1, parts[k - 1], parts[k].start);
    }
    assert IsPart(src, k, prefix, parts[k]);
    if k < |parts| - 1 {
      CutIsUtf8(src, cuts, prefix, end, k, parts[k], parts[k + 1].start);
    }
  }

  lemma CutIsUtf8(src: Bytes, cuts: seq<nat>, prefix: Bytes, end: nat, k: nat, p: Span, next: nat)
    requires CutAt(src, cuts, prefix, end, k, p, next) && CutsAtLines(src, cuts) && p.start <= p.end
    requires Utf8(src[p.start..end])
    ensures Utf8(src[next..end]) && Utf8(src[p.start..p.end])
  {
    CutStartsRune(src, cuts, p.start, end, p.start + Room(Before(k, prefix)), next);
    HalvesAreUtf8(src, p.start, next, end);
    if next > p.end { HalvesAreUtf8(src, p.start, p.end, next); }
  }

  lemma HalvesAreUtf8(src: Bytes, a: nat, b: nat, c: nat)
    requires a <= b < c <= |src| && Utf8(src[a..c]) && RuneStart(src[b])
    ensures Utf8(src[a..b]) && Utf8(src[b..c])
  {
    var t := src[a..c];
    SplitUtf8(t, b - a);
    assert t[b - a..] == src[b..c];
    assert t[..b - a] == src[a..b];
  }
}
