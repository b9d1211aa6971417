/** Bytes, line starts and UTF-8 (codeparse/text.go; section 4 of RFC 3629). */
module Texts {
  type byte = x: int | 0 <= x < 256
  type Bytes = seq<byte>

  const NL: byte := 10

  // ----- lines

  /** The first line starts at 0, every other just past a newline that is not the last byte. */
  predicate IsLineStart(src: Bytes, i: int) {
    i == 0 || (0 < i < |src| && src[i - 1] == NL)
  }

  /** starts lists the line starts of src, in order. */
  ghost predicate IsLineIndex(src: Bytes, starts: seq<nat>) {
    && starts != [] && starts[0] == 0
    && (forall i, j :: 0 <= i < j < |starts| ==> starts[i] < starts[j])
    && (forall i :: i in starts <==> IsLineStart(src, i))
  }

  method NewLineIndex(src: Bytes) returns (starts: seq<nat>)
    ensures IsLineIndex(src, starts)
  {
    starts := [0];
    for i := 0 to |src|
      invariant starts != [] && starts[0] == 0
      invariant forall a, b :: 0 <= a < b < |starts| ==> starts[a] < starts[b]
      invariant forall a :: 0 <= a < |starts| ==> starts[a] <= i
      invariant forall s :: s in starts <==> s <= i && IsLineStart(src, s)
    {
      if src[i] == NL && i + 1 < |src| {
        starts := starts + [i + 1];
      }
    }
  }

  /** How many of xs, sorted, are at most v. */
  method CountUpTo(xs: seq<nat>, v: int) returns (n: nat)
    requires forall i, j :: 0 <= i < j < |xs| ==> xs[i] <= xs[j]
    ensures n <= |xs| && (forall i :: 0 <= i < n ==> xs[i] <= v) && forall i :: n <= i < |xs| ==> xs[i] > v
  {
    var lo, hi := 0, |xs|;
    while lo < hi
      invariant 0 <= lo <= hi <= |xs|
      invariant forall i :: 0 <= i < lo ==> xs[i] <= v
      invariant forall i :: hi <= i < |xs| ==> xs[i] > v
    {
      var mid := (lo + hi) / 2;
      if xs[mid] > v { hi := mid; } else { lo := mid + 1; }
    }
    n := lo;
  }

  /** The 0-based line holding offset. */
  method Line(starts: seq<nat>, offset: nat) returns (i: nat)
    requires starts != [] && starts[0] == 0 && forall a, b :: 0 <= a < b < |starts| ==> starts[a] < starts[b]
    ensures i < |starts| && starts[i] <= offset && (i + 1 < |starts| ==> offset < starts[i + 1])
  {
    var n := CountUpTo(starts, offset);
    assert n > 0;
    i := n - 1;
  }

  // ----- UTF-8

  predicate IsContinuation(b: byte) { 0x80 <= b < 0xC0 }

  predicate RuneStart(b: byte) { !IsContinuation(b) }

  /** The second byte a lead byte allows. */
  predicate SecondByte(lead: byte, b: byte) {
    IsContinuation(b)
    && (lead == 0xE0 ==> b >= 0xA0) && (lead == 0xED ==> b < 0xA0)
    && (lead == 0xF0 ==> b >= 0x90) && (lead == 0xF4 ==> b < 0x90)
  }

  function LeadLength(lead: byte): nat {
    if lead < 0x80 then 1
    else if 0xC2 <= lead < 0xE0 then 2
    else if 0xE0 <= lead < 0xF0 then 3
    else if 0xF0 <= lead < 0xF5 then 4
    else 0
  }

  /** The length of the rune s starts with, 0 when it starts with none. */
  function RuneLength(s: Bytes): (n: nat)
    ensures n <= 4 && n <= |s|
    ensures n > 0 ==> RuneStart(s[0]) && forall i :: 0 < i < n ==> IsContinuation(s[i])
  {
    if s == [] then 0
    else
      var n := LeadLength(s[0]);
      if n == 0 || n > |s| || (n > 1 && !SecondByte(s[0], s[1])) || (exists i :: 1 < i < n && !IsContinuation(s[i])) then 0
      else n
  }

  predicate Tail(s: Bytes, i: nat) { i < |s| && 0x80 <= s[i] <= 0xBF }

  predicate In(s: Bytes, i: nat, low: int, high: int) { i < |s| && low <= s[i] <= high }

  /** The runes of section 4 of RFC 3629: UTF8-1 to UTF8-4. */
  lemma RuneLengthMeaning(s: Bytes)
    ensures RuneLength(s) == 1 <==> In(s, 0, 0x00, 0x7F)
    ensures RuneLength(s) == 2 <==> In(s, 0, 0xC2, 0xDF) && Tail(s, 1)
    ensures RuneLength(s) == 3 <==>
            && Tail(s, 2)
            && (|| (In(s, 0, 0xE0, 0xE0) && In(s, 1, 0xA0, 0xBF)) || (In(s, 0, 0xE1, 0xEC) && Tail(s, 1))
                || (In(s, 0, 0xED, 0xED) && In(s, 1, 0x80, 0x9F)) || (In(s, 0, 0xEE, 0xEF) && Tail(s, 1)))
    ensures RuneLength(s) == 4 <==>
            && Tail(s, 2) && Tail(s, 3)
            && (|| (In(s, 0, 0xF0, 0xF0) && In(s, 1, 0x90, 0xBF)) || (In(s, 0, 0xF1, 0xF3) && Tail(s, 1))
                || (In(s, 0, 0xF4, 0xF4) && In(s, 1, 0x80, 0x8F)))
  {
  }

  predicate Utf8(s: Bytes) {
    s == [] || (RuneLength(s) > 0 && Utf8(s[RuneLength(s)..]))
  }

  /** A rune is read off its own bytes, whatever follows. */
  lemma RuneLengthPrefix(s: Bytes, c: nat)
    requires RuneLength(s) > 0 && RuneLength(s) <= c <= |s|
    ensures RuneLength(s[..c]) == RuneLength(s)
  {
  }

  /** Valid text cut where a rune starts is valid on both sides. */
  lemma {:induction false} SplitUtf8(s: Bytes, c: nat)
    requires Utf8(s) && c <= |s| && (c == |s| || RuneStart(s[c]))
    ensures Utf8(s[..c]) && Utf8(s[c..])
  {
    if c == 0 {
      assert s[c..] == s && s[..c] == [];
    } else {
      var n := RuneLength(s);
      assert n <= c;
      SplitUtf8(s[n..], c - n);
      RuneLengthPrefix(s, c);
      assert s[..c][n..] == s[n..][..c - n];
      assert s[c..] == s[n..][c - n..];
    }
  }

  /** Of any four bytes in a row one starts a rune. */
  lemma {:induction false} RuneStartNear(s: Bytes, m: nat)
    requires Utf8(s) && 4 <= m < |s|
    ensures exists c :: m - 3 <= c <= m && RuneStart(s[c])
  {
    var n := RuneLength(s);
    if m - n >= 4 {
      RuneStartNear(s[n..], m - n);
      var c :| m - n - 3 <= c <= m - n && RuneStart(s[n..][c]);
      assert s[c + n] == s[n..][c];
    } else {
      assert RuneLength(s[n..]) > 0;
      assert s[n..][0] == s[n] && RuneStart(s[n]);
    }
  }

  /** After a newline a rune starts. */
  lemma RuneAfterNewline(s: Bytes, i: nat)
    requires Utf8(s) && i + 1 < |s| && s[i] == NL
    ensures RuneStart(s[i + 1])
  {
    SplitUtf8(s, i);
    var t := s[i..];
    assert t[0] == NL && RuneLength(t) == 1;
    assert Utf8(t[1..]) && t[1..][0] == s[i + 1];
  }
}
