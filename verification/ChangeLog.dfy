/**
 * A project's change log and the tree states folded from it (consume in
 * codeindex/service.go).
 */
module ChangeLog {

  datatype TreeKey = TreeKey(worktree: string, ref: string)

  /** One change of a (worktree, ref) tree; an empty ref is the worktree's tombstone. */
  datatype Change = Change(seqNo: nat, owner: string, worktree: string, ref: string, head: string, upstream: string)

  /** The log's latest word on one tree. */
  datatype TreeState = TreeState(ref: string, owner: string, head: string, upstream: string,
                                 upstreamSeq: nat, lastSeq: nat)

  type States = map<TreeKey, TreeState>

  function KeyOf(ch: Change): TreeKey { TreeKey(ch.worktree, ch.ref) }

  predicate IsTombstone(ch: Change, worktree: string) { ch.ref == "" && ch.worktree == worktree }

  predicate IsChangeOf(ch: Change, k: TreeKey) { ch.ref != "" && ch.ref == k.ref && ch.worktree == k.worktree }

  /** One change folded into the states: a tombstone removes the worktree's trees. */
  function Consume(state: States, ch: Change): States {
    if ch.ref == "" then map k | k in state && k.worktree != ch.worktree :: state[k]
    else
      var k := KeyOf(ch);
      var t := if k in state then state[k] else TreeState(ch.ref, "", "", "", 0, 0);
      var moved := ch.upstream != t.upstream || t.upstreamSeq == 0;
      state[k := TreeState(ch.ref, if ch.owner != "" then ch.owner else t.owner, ch.head,
                           if moved then ch.upstream else t.upstream,
                           if moved then ch.seqNo else t.upstreamSeq, ch.seqNo)]
  }

  function FoldFrom(state: States, log: seq<Change>): States {
    if log == [] then state else Consume(FoldFrom(state, log[..|log| - 1]), log[|log| - 1])
  }

  function Fold(log: seq<Change>): States { FoldFrom(map[], log) }

  /** Positions start at 1 and increase. */
  predicate Increasing(log: seq<Change>) {
    && (forall i :: 0 <= i < |log| ==> log[i].seqNo >= 1)
    && (forall i, j :: 0 <= i < j < |log| ==> log[i].seqNo < log[j].seqNo)
  }

  lemma {:induction false} FoldFromConcat(state: States, a: seq<Change>, b: seq<Change>)
    ensures FoldFrom(state, a + b) == FoldFrom(FoldFrom(state, a), b)
  {
    if b == [] {
      assert a + b == a;
    } else {
      assert (a + b)[..|a + b| - 1] == a + b[..|b| - 1];
      FoldFromConcat(state, a, b[..|b| - 1]);
    }
  }

  /** One change, and the trees it touched. */
  method ConsumeChange(state0: States, ch: Change) returns (state: States, touched: set<TreeKey>)
    ensures state == Consume(state0, ch)
    ensures touched == if ch.ref == "" then set k | k in state0 && k.worktree == ch.worktree else {KeyOf(ch)}
    ensures forall k :: k !in touched ==> (k in state <==> k in state0) && (k in state ==> state[k] == state0[k])
  {
    state, touched := state0, {};
    if ch.ref == "" {
      var todo := state0.Keys;
      while todo != {}
        invariant todo <= state0.Keys
        invariant touched == set k | k in state0.Keys - todo && k.worktree == ch.worktree
        invariant state == state0 - touched
        decreases todo
      {
        var k :| k in todo;
        if k.worktree == ch.worktree {
          state := state - {k};
          touched := touched + {k};
        }
        todo := todo - {k};
      }
      assert state == Consume(state0, ch);
      return;
    }
    var k := KeyOf(ch);
    var t := if k in state then state[k] else TreeState(ch.ref, "", "", "", 0, 0);
    if ch.owner != "" { t := t.(owner := ch.owner); }
    t := t.(ref := ch.ref, head := ch.head);
    if ch.upstream != t.upstream || t.upstreamSeq == 0 {
      t := t.(upstream := ch.upstream, upstreamSeq := ch.seqNo);
    }
    state := state[k := t.(lastSeq := ch.seqNo)];
    touched := {k};
  }

  method ConsumeAll(state0: States, changes: seq<Change>) returns (state: States, touched: set<TreeKey>)
    ensures state == FoldFrom(state0, changes)
    ensures forall k :: k !in touched ==> (k in state <==> k in state0) && (k in state ==> state[k] == state0[k])
  {
    state, touched := state0, {};
    for i := 0 to |changes|
      invariant state == FoldFrom(state0, changes[..i])
      invariant forall k :: k !in touched ==> (k in state <==> k in state0) && (k in state ==> state[k] == state0[k])
    {
      assert changes[..i + 1][..i] == changes[..i];
      var more;
      state, more := ConsumeChange(state, changes[i]);
      touched := touched + more;
    }
    assert changes[..|changes|] == changes;
  }

  // ----- what a tree's upstreamSeq means

  /** Since position u the log says nothing of k but changes with u's upstream. */
  predicate Unbroken(log: seq<Change>, k: TreeKey, u: nat)
    requires u < |log|
  {
    forall i :: u < i < |log| ==>
      !IsTombstone(log[i], k.worktree) && (IsChangeOf(log[i], k) ==> log[i].upstream == log[u].upstream)
  }

  /** Every earlier change of k with u's upstream is cut off from u by another upstream or a tombstone. */
  predicate FirstOfRun(log: seq<Change>, k: TreeKey, u: nat)
    requires u < |log|
  {
    forall i :: 0 <= i < u && IsChangeOf(log[i], k) && log[i].upstream == log[u].upstream ==>
      exists j :: i < j < u && Breaks(log[j], k, log[u].upstream)
  }

  predicate Breaks(ch: Change, k: TreeKey, upstream: string) {
    IsTombstone(ch, k.worktree) || (IsChangeOf(ch, k) && ch.upstream != upstream)
  }

  /** u is where k's state says its upstream was first seen, and its last change is the log's last of k. */
  predicate IsWord(log: seq<Change>, k: TreeKey, t: TreeState, u: nat)
    requires u < |log|
  {
    && IsChangeOf(log[u], k) && log[u].upstream == t.upstream && log[u].seqNo == t.upstreamSeq
    && Unbroken(log, k, u) && FirstOfRun(log, k, u)
  }

  /** t's upstream was first seen at the start of the current unbroken run of it. */
  ghost predicate HasWord(log: seq<Change>, k: TreeKey, t: TreeState) {
    exists u :: 0 <= u < |log| && IsWord(log, k, t, u)
  }

  /** A tree is known while the log has a change of it after its worktree's last tombstone. */
  predicate Alive(log: seq<Change>, k: TreeKey) {
    exists i :: 0 <= i < |log| && IsChangeOf(log[i], k)
      && forall j :: i < j < |log| ==> !IsTombstone(log[j], k.worktree)
  }

  /** upstreamSeq is the first change of the current unbroken run of its upstream. */
  lemma {:induction false} UpstreamSeqIsRunStart(log: seq<Change>, k: TreeKey)
    requires Increasing(log) && k in Fold(log)
    ensures HasWord(log, k, Fold(log)[k])
    ensures Fold(log)[k].upstreamSeq >= 1
  {
    var n := |log| - 1;
    var pre, ch := log[..n], log[n];
    assert pre + [ch] == log;
    if k in Fold(pre) && (!IsChangeOf(ch, k) || ch.upstream == Fold(pre)[k].upstream) {
      UpstreamSeqIsRunStart(pre, k);
      var u :| 0 <= u < |pre| && IsWord(pre, k, Fold(pre)[k], u);
      WordKept(pre, ch, k, u);
    } else if k in Fold(pre) {
      UpstreamSeqIsRunStart(pre, k);
      NewUpstreamStartsRun(log, k);
    } else {
      NewTreeStartsRun(log, k);
    }
  }

  lemma NewUpstreamStartsRun(log: seq<Change>, k: TreeKey)
    requires Increasing(log) && log != [] && IsChangeOf(log[|log| - 1], k)
    requires var pre := log[..|log| - 1];
             && k in Fold(pre) && HasWord(pre, k, Fold(pre)[k]) && log[|log| - 1].upstream != Fold(pre)[k].upstream
    ensures k in Fold(log) && HasWord(log, k, Fold(log)[k]) && Fold(log)[k].upstreamSeq >= 1
  {
    var n := |log| - 1;
    var pre := log[..n];
    var u :| 0 <= u < |pre| && IsWord(pre, k, Fold(pre)[k], u);
    assert log[u] == pre[u];
    RunBrokenByUpstream(log, k, u);
    assert IsWord(log, k, Fold(log)[k], n);
  }

  lemma NewTreeStartsRun(log: seq<Change>, k: TreeKey)
    requires Increasing(log) && log != [] && IsChangeOf(log[|log| - 1], k) && k !in Fold(log[..|log| - 1])
    ensures k in Fold(log) && HasWord(log, k, Fold(log)[k]) && Fold(log)[k].upstreamSeq >= 1
  {
    var n := |log| - 1;
    AliveIsKnown(log[..n], k);
    RunBrokenByTombstone(log, k);
    assert IsWord(log, k, Fold(log)[k], n);
  }

  /** A change that is another tree's, or repeats the upstream, leaves the run as it was. */
  lemma WordKept(pre: seq<Change>, ch: Change, k: TreeKey, u: nat)
    requires k in Fold(pre) && u < |pre| && IsWord(pre, k, Fold(pre)[k], u)
    requires Fold(pre)[k].upstreamSeq >= 1
    requires !IsTombstone(ch, k.worktree)
    requires IsChangeOf(ch, k) ==> ch.upstream == Fold(pre)[k].upstream
    ensures var log := pre + [ch];
            k in Fold(log) && IsWord(log, k, Fold(log)[k], u)
  {
    var log := pre + [ch];
    assert log[..|pre|] == pre;
    forall i | 0 <= i < u && IsChangeOf(log[i], k) && log[i].upstream == log[u].upstream
      ensures exists j :: i < j < u && Breaks(log[j], k, log[u].upstream)
    {
      assert log[i] == pre[i] && log[u] == pre[u];
      var j :| i < j < u && Breaks(pre[j], k, pre[u].upstream);
      assert log[j] == pre[j];
    }
  }

  lemma RunBrokenByUpstream(log: seq<Change>, k: TreeKey, u: nat)
    requires |log| > 0 && u < |log| - 1
    requires IsChangeOf(log[u], k) && log[u].upstream != log[|log| - 1].upstream
    requires Unbroken(log[..|log| - 1], k, u)
    ensures FirstOfRun(log, k, |log| - 1)
  {
    var n := |log| - 1;
    assert forall m :: 0 <= m < n ==> log[..n][m] == log[m];
    forall i | 0 <= i < n && IsChangeOf(log[i], k) && log[i].upstream == log[n].upstream
      ensures exists j :: i < j < n && Breaks(log[j], k, log[n].upstream)
    {
      assert Breaks(log[u], k, log[n].upstream);
    }
  }

  lemma RunBrokenByTombstone(log: seq<Change>, k: TreeKey)
    requires |log| > 0 && !Alive(log[..|log| - 1], k)
    ensures FirstOfRun(log, k, |log| - 1)
  {
    var n := |log| - 1;
    var pre := log[..n];
    forall i | 0 <= i < n && IsChangeOf(log[i], k)
      ensures exists j :: i < j < n && Breaks(log[j], k, log[n].upstream)
    {
      assert pre[i] == log[i];
      var j :| i < j < |pre| && IsTombstone(pre[j], k.worktree);
      assert log[j] == pre[j] && Breaks(log[j], k, log[n].upstream);
    }
  }

  lemma {:induction false} AliveIsKnown(log: seq<Change>, k: TreeKey)
    ensures Alive(log, k) <==> k in Fold(log)
  {
    if log != [] {
      var n := |log| - 1;
      var pre, ch := log[..n], log[n];
      AliveIsKnown(pre, k);
      if Alive(log, k) && !IsChangeOf(ch, k) {
        var i :| 0 <= i < |log| && IsChangeOf(log[i], k) && forall j :: i < j < |log| ==> !IsTombstone(log[j], k.worktree);
        assert i < n && pre[i] == log[i];
        assert forall j :: i < j < |pre| ==> pre[j] == log[j];
        assert Alive(pre, k);
        assert !IsTombstone(log[n], k.worktree);
      }
      if k in Fold(log) {
        if IsChangeOf(ch, k) {
          assert IsChangeOf(log[n], k);
        } else {
          var i :| 0 <= i < |pre| && IsChangeOf(pre[i], k) && forall j :: i < j < |pre| ==> !IsTombstone(pre[j], k.worktree);
          assert log[i] == pre[i];
          forall j | i < j < |log| ensures !IsTombstone(log[j], k.worktree) {
            if j < n { assert log[j] == pre[j]; }
          }
        }
      }
    }
  }

  // ----- what else the states say

  /** The i-th change is the log's last of the tree. */
  predicate IsLastOf(log: seq<Change>, k: TreeKey, i: nat) {
    i < |log| && IsChangeOf(log[i], k) && forall j :: i < j < |log| ==> !IsChangeOf(log[j], k)
  }

  /** The i-th change is the last of the tree that names an owner, and no tombstone of its worktree follows. */
  predicate NamesOwner(log: seq<Change>, k: TreeKey, i: nat) {
    && i < |log| && IsChangeOf(log[i], k) && log[i].owner != ""
    && forall j :: i < j < |log| ==> !IsTombstone(log[j], k.worktree) && (IsChangeOf(log[j], k) ==> log[j].owner == "")
  }

  /** Head and position are the last change's, the owner is the last one named since the worktree's last tombstone. */
  ghost predicate IsLastWord(log: seq<Change>, k: TreeKey, t: TreeState) {
    && (exists i: nat :: IsLastOf(log, k, i) && t.head == log[i].head && t.lastSeq == log[i].seqNo && t.ref == k.ref)
    && OwnerIs(log, k, t.owner)
  }

  ghost predicate OwnerIs(log: seq<Change>, k: TreeKey, owner: string) {
    if exists i: nat :: NamesOwner(log, k, i) then exists i: nat :: NamesOwner(log, k, i) && owner == log[i].owner
    else owner == ""
  }

  lemma {:induction false} StateIsLastWord(log: seq<Change>, k: TreeKey)
    requires k in Fold(log)
    ensures IsLastWord(log, k, Fold(log)[k])
  {
    var n := |log| - 1;
    var pre, ch := log[..n], log[n];
    assert pre + [ch] == log;
    if k in Fold(pre) { StateIsLastWord(pre, k); } else { NoOwnerYet(pre, k); }
    if IsChangeOf(ch, k) {
      assert k == KeyOf(ch);
      assert IsLastOf(log, k, n);
      OwnerAfter(pre, ch, k, if k in Fold(pre) then Fold(pre)[k].owner else "");
    } else {
      var i: nat :| IsLastOf(pre, k, i) && Fold(pre)[k].head == pre[i].head && Fold(pre)[k].lastSeq == pre[i].seqNo
                    && Fold(pre)[k].ref == k.ref;
      assert IsLastOf(log, k, i);
      OwnerAfter(pre, ch, k, Fold(pre)[k].owner);
    }
  }

  /** One change more names the owner, or leaves the owner there is. */
  lemma OwnerAfter(pre: seq<Change>, ch: Change, k: TreeKey, owner: string)
    requires !IsTombstone(ch, k.worktree) && OwnerIs(pre, k, owner)
    ensures OwnerIs(pre + [ch], k, if IsChangeOf(ch, k) && ch.owner != "" then ch.owner else owner)
  {
    var log := pre + [ch];
    assert log[|pre|] == ch && forall j :: 0 <= j < |pre| ==> log[j] == pre[j];
    if IsChangeOf(ch, k) && ch.owner != "" {
      assert NamesOwner(log, k, |pre|);
    } else {
      forall i: nat ensures NamesOwner(log, k, i) <==> NamesOwner(pre, k, i) { }
    }
  }

  lemma NoOwnerYet(pre: seq<Change>, k: TreeKey)
    requires k !in Fold(pre)
    ensures OwnerIs(pre, k, "")
  {
    AliveIsKnown(pre, k);
  }
}
