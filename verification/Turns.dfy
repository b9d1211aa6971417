/**
 * Workers, leases and the change log as a transition system (turn in
 * codeindex/service.go, lifecycleTurn in codeindex/lifecycle.go): any
 * interleaving of turns, keep-alives, expiries, failures and deletes on one
 * project.
 */
module Turns {
  import opened Wrappers
  import opened ChangeLog
  import opened Cursors

  // ----- positions in the log

  /** How many changes the log has up to position n. */
  function Pos(log: seq<Change>, n: nat): (p: nat)
    ensures p <= |log|
  {
    if log == [] then 0 else if log[|log| - 1].seqNo <= n then |log| else Pos(log[..|log| - 1], n)
  }

  function LastSeq(log: seq<Change>): nat {
    if log == [] then 0 else log[|log| - 1].seqNo
  }

  /** The first limit changes after position n. */
  function ChangesAfter(log: seq<Change>, n: nat, limit: nat): seq<Change> {
    var p := Pos(log, n);
    log[p..if p + limit < |log| then p + limit else |log|]
  }

  /** The cursor is a position of the log and the fold of every change up to it. */
  predicate AtCursor(log: seq<Change>, c: Cursor) {
    c.seqNo <= LastSeq(log) && c.trees == Fold(log[..Pos(log, c.seqNo)])
  }

  lemma {:induction false} PosSplits(log: seq<Change>, n: nat)
    requires Increasing(log)
    ensures forall i :: 0 <= i < |log| ==> (log[i].seqNo <= n <==> i < Pos(log, n))
  {
    if log != [] && log[|log| - 1].seqNo > n {
      var pre := log[..|log| - 1];
      assert forall i :: 0 <= i < |pre| ==> pre[i] == log[i];
      PosSplits(pre, n);
    }
  }

  /** The position of the last change read is past the changes before and all that was read. */
  lemma ReadPosition(log: seq<Change>, n: nat, limit: nat)
    requires Increasing(log) && ChangesAfter(log, n, limit) != []
    ensures var chs := ChangesAfter(log, n, limit);
            var last := chs[|chs| - 1].seqNo;
            && n < last <= LastSeq(log) && Pos(log, n) + |chs| <= |log| && Pos(log, last) == Pos(log, n) + |chs|
            && log[Pos(log, n)..Pos(log, last)] == chs && |chs| <= limit
  {
    var p, chs := Pos(log, n), ChangesAfter(log, n, limit);
    assert chs[|chs| - 1] == log[p + |chs| - 1];
    PosSplits(log, n);
    PosOfChange(log, p + |chs| - 1);
  }

  /** Folding the changes read after a cursor gives the cursor of the last one. */
  lemma ReadAdvances(log: seq<Change>, c: Cursor, limit: nat)
    requires Increasing(log) && AtCursor(log, c) && ChangesAfter(log, c.seqNo, limit) != []
    ensures var chs := ChangesAfter(log, c.seqNo, limit);
            var c1 := Cursor(chs[|chs| - 1].seqNo, FoldFrom(c.trees, chs));
            AtCursor(log, c1) && c1.seqNo > c.seqNo
  {
    var p, chs := Pos(log, c.seqNo), ChangesAfter(log, c.seqNo, limit);
    ReadPosition(log, c.seqNo, limit);
    FoldOn(log, p, p + |chs|);
  }

  lemma FoldOn(log: seq<Change>, p: nat, q: nat)
    requires p <= q <= |log|
    ensures Fold(log[..q]) == FoldFrom(Fold(log[..p]), log[p..q])
  {
    assert log[..q] == log[..p] + log[p..q];
    FoldFromConcat(map[], log[..p], log[p..q]);
  }

  lemma PosOfChange(log: seq<Change>, i: nat)
    requires Increasing(log) && i < |log|
    ensures Pos(log, log[i].seqNo) == i + 1 && log[i].seqNo <= LastSeq(log)
  {
    PosSplits(log, log[i].seqNo);
    if i + 1 < |log| { assert log[i].seqNo < log[i + 1].seqNo; }
  }

  lemma AppendKeepsCursor(log: seq<Change>, ch: Change, c: Cursor)
    requires AtCursor(log, c) && ch.seqNo > LastSeq(log)
    ensures AtCursor(log + [ch], c)
  {
    assert (log + [ch])[..|log|] == log;
    assert (log + [ch])[..Pos(log, c.seqNo)] == log[..Pos(log, c.seqNo)];
  }

  /** What is read are the changes after the position, in order: as many as there are, up to the limit. */
  lemma ReadMeaning(log: seq<Change>, n: nat, limit: nat)
    requires Increasing(log)
    ensures exists p: nat :: IsReadAt(log, n, limit, p, ChangesAfter(log, n, limit))
  {
    PosSplits(log, n);
    assert IsReadAt(log, n, limit, Pos(log, n), ChangesAfter(log, n, limit));
  }

  ghost predicate IsReadAt(log: seq<Change>, n: nat, limit: nat, p: nat, chs: seq<Change>) {
    && p + |chs| <= |log| && chs == log[p..p + |chs|]
    && (forall i :: 0 <= i < |log| ==> (i < p <==> log[i].seqNo <= n))
    && |chs| <= limit && (|chs| == limit || p + |chs| == |log|)
  }

  // ----- the system

  /** A worker's turn: its lease's token, the cursor last acquired or saved, and the batch's cursor to save. */
  datatype Turn = Turn(token: Token, cur: Cursor, work: Option<Cursor>)

  datatype State = State(now: int, doc: Option<Doc>, nextToken: Token, log: seq<Change>, turns: map<nat, Turn>)

  datatype Step =
    | Tick(d: nat)
    | Append(ch: Change)
    | Acquire(w: nat, holder: string, ttl: int)
    | Read(w: nat, limit: nat)
    | SaveWork(w: nat, ttl: int)
    | KeepAlive(w: nat, ttl: int)
    | End(w: nat)
    | Fail(w: nat)
    | Delete

  function Base(t: Turn): Cursor {
    if t.work.Some? then t.work.value else t.cur
  }

  predicate Enabled(s: State, step: Step) {
    match step
    case Tick(_) => true
    case Append(ch) => ch.seqNo > LastSeq(s.log)
    case Acquire(w, holder, ttl) => w !in s.turns && holder != "" && ttl > 0
    case Read(w, limit) => w in s.turns && ChangesAfter(s.log, Base(s.turns[w]).seqNo, limit) != []
    case SaveWork(w, _) => w in s.turns && s.turns[w].work.Some?
    case KeepAlive(w, _) => w in s.turns
    case End(w) => w in s.turns
    case Fail(w) => w in s.turns
    case Delete => true
  }

  function DocOrNew(s: State): Doc {
    if s.doc.Some? then s.doc.value else NEW_DOC
  }

  predicate Granted(s: State, step: Step) {
    step.Acquire? && MayAcquire(DocOrNew(s), step.holder, s.now)
  }

  /** w saves c under its lease; a lost lease ends the turn. */
  function Save(s: State, w: nat, c: Cursor, work: Option<Cursor>, ttl: int): State
    requires w in s.turns
  {
    var t := s.turns[w];
    if IsCurrent(s.doc, t.token, s.now)
    then s.(doc := Some(Saved(s.doc.value, c, s.now, ttl)), turns := s.turns[w := Turn(t.token, c, work)])
    else s.(turns := s.turns - {w})
  }

  function Next(s: State, step: Step): State
    requires Enabled(s, step)
  {
    match step
    case Tick(d) => s.(now := s.now + d)
    case Append(ch) => s.(log := s.log + [ch])
    case Acquire(w, holder, ttl) =>
      if Granted(s, step)
      then s.(doc := Some(Acquired(DocOrNew(s), holder, s.nextToken, s.now + ttl)), nextToken := s.nextToken + 1,
              turns := s.turns[w := Turn(s.nextToken, DocOrNew(s).cursor, None)])
      else s.(doc := Some(DocOrNew(s)))
    case Read(w, limit) =>
      var t := s.turns[w];
      var chs := ChangesAfter(s.log, Base(t).seqNo, limit);
      s.(turns := s.turns[w := t.(work := Some(Cursor(chs[|chs| - 1].seqNo, FoldFrom(Base(t).trees, chs))))])
    case SaveWork(w, ttl) => Save(s, w, s.turns[w].work.value, None, ttl)
    case KeepAlive(w, ttl) => Save(s, w, s.turns[w].cur, s.turns[w].work, ttl)
    case End(w) =>
      s.(doc := if IsCurrent(s.doc, s.turns[w].token, s.now) then Some(s.doc.value.(lease := NO_LEASE)) else s.doc,
         turns := s.turns - {w})
    case Fail(w) => s.(turns := s.turns - {w})
    case Delete => s.(doc := None)
  }

  predicate Init(s: State) {
    s.doc.None? && s.turns == map[] && s.nextToken == 1 && Increasing(s.log)
  }

  // ----- the invariant

  /** A turn under the document's token has the document's cursor, and its batch goes past it. */
  predicate TurnInv(s: State, t: Turn) {
    && 1 <= t.token < s.nextToken
    && AtCursor(s.log, t.cur)
    && (t.work.Some? ==> AtCursor(s.log, t.work.value) && t.work.value.seqNo > t.cur.seqNo)
    && (s.doc.Some? && s.doc.value.lease.token == t.token ==> s.doc.value.cursor == t.cur)
  }

  predicate Inv(s: State) {
    && Increasing(s.log) && s.nextToken >= 1
    && (s.doc.Some? ==> AtCursor(s.log, s.doc.value.cursor) && s.doc.value.lease.token < s.nextToken)
    && (forall w :: w in s.turns ==> TurnInv(s, s.turns[w]))
    && (forall v, w :: v in s.turns && w in s.turns && v != w ==> s.turns[v].token != s.turns[w].token)
  }

  lemma StartIsAtCursor(log: seq<Change>)
    requires Increasing(log)
    ensures AtCursor(log, START)
  {
    PosSplits(log, 0);
    assert |log| > 0 ==> log[0].seqNo >= 1;
  }

  /** Every step keeps the invariant: the stored cursor is always the fold of the log up to it. */
  lemma NextInv(s: State, step: Step)
    requires Inv(s) && Enabled(s, step)
    ensures Inv(Next(s, step))
  {
    assert (step.SaveWork? || step.KeepAlive?) ==> TurnInv(s, s.turns[step.w]);
    match step
    case Tick(_) =>
    case Append(ch) => AppendInv(s, ch);
    case Acquire(w, holder, ttl) => AcquireInv(s, w, holder, ttl);
    case Read(w, limit) => ReadInv(s, w, limit);
    case SaveWork(w, ttl) => SaveInv(s, w, s.turns[w].work.value, None, ttl);
    case KeepAlive(w, ttl) => SaveInv(s, w, s.turns[w].cur, s.turns[w].work, ttl);
    case End(w) => EndInv(s, w);
    case Fail(_) =>
    case Delete =>
  }

  lemma AcquireInv(s: State, w: nat, holder: string, ttl: int)
    requires Inv(s) && Enabled(s, Acquire(w, holder, ttl))
    ensures Inv(Next(s, Acquire(w, holder, ttl)))
  {
    StartIsAtCursor(s.log);
  }

  lemma ReadInv(s: State, w: nat, limit: nat)
    requires Inv(s) && Enabled(s, Read(w, limit))
    ensures Inv(Next(s, Read(w, limit)))
  {
    assert TurnInv(s, s.turns[w]);
    ReadAdvances(s.log, Base(s.turns[w]), limit);
    var s1 := Next(s, Read(w, limit));
    assert s1.turns.Keys == s.turns.Keys;
    forall v | v in s1.turns ensures TurnInv(s1, s1.turns[v]) && s1.turns[v].token == s.turns[v].token {
      assert TurnInv(s, s.turns[v]);
    }
  }

  lemma SaveInv(s: State, w: nat, c: Cursor, work: Option<Cursor>, ttl: int)
    requires Inv(s) && w in s.turns && AtCursor(s.log, c)
    requires work.Some? ==> AtCursor(s.log, work.value) && work.value.seqNo > c.seqNo
    ensures Inv(Save(s, w, c, work, ttl))
  {
    assert TurnInv(s, s.turns[w]);
  }

  lemma EndInv(s: State, w: nat)
    requires Inv(s) && w in s.turns
    ensures Inv(Next(s, End(w)))
  {
  }

  lemma AppendInv(s: State, ch: Change)
    requires Inv(s) && ch.seqNo > LastSeq(s.log)
    ensures Inv(s.(log := s.log + [ch]))
  {
    if s.doc.Some? { AppendKeepsCursor(s.log, ch, s.doc.value.cursor); }
    forall w | w in s.turns ensures TurnInv(s.(log := s.log + [ch]), s.turns[w]) {
      AppendKeepsCursor(s.log, ch, s.turns[w].cur);
      if s.turns[w].work.Some? { AppendKeepsCursor(s.log, ch, s.turns[w].work.value); }
    }
  }

  /** However many turns are open on a project, at most one of them can save. */
  lemma OneSaver(s: State, v: nat, w: nat)
    requires Inv(s) && v in s.turns && w in s.turns
    requires IsCurrent(s.doc, s.turns[v].token, s.now) && IsCurrent(s.doc, s.turns[w].token, s.now)
    ensures v == w
  {
  }

  // ----- whole runs

  ghost predicate IsRun(states: seq<State>, steps: seq<Step>) {
    && |states| == |steps| + 1 && Init(states[0])
    && forall i :: 0 <= i < |steps| ==> Enabled(states[i], steps[i]) && states[i + 1] == Next(states[i], steps[i])
  }

  lemma {:induction false} RunInv(states: seq<State>, steps: seq<Step>, i: nat)
    requires IsRun(states, steps) && i < |states|
    ensures Inv(states[i])
  {
    if i > 0 {
      RunInv(states, steps, i - 1);
      NextInv(states[i - 1], steps[i - 1]);
    }
  }

  /** Without a Delete the stored cursor never goes back, and neither does the document go away. */
  lemma {:induction false} NeverBack(states: seq<State>, steps: seq<Step>, i: nat, j: nat)
    requires IsRun(states, steps) && i <= j < |states|
    requires forall m :: i <= m < j ==> !steps[m].Delete?
    requires states[i].doc.Some?
    ensures states[j].doc.Some? && states[i].doc.value.cursor.seqNo <= states[j].doc.value.cursor.seqNo
  {
    if i < j {
      NeverBack(states, steps, i, j - 1);
      RunInv(states, steps, j - 1);
      var s, step := states[j - 1], steps[j - 1];
      if step.SaveWork? || step.KeepAlive? { assert TurnInv(s, s.turns[step.w]); }
    }
  }

  /** Step j is the last granted acquire before i, it issued tok, and nothing deleted the document since. */
  ghost predicate LatestGrant(states: seq<State>, steps: seq<Step>, i: nat, j: nat, tok: Token)
    requires IsRun(states, steps) && j < i <= |steps|
  {
    && Granted(states[j], steps[j]) && states[j].nextToken == tok
    && forall m :: j < m < i ==> !Granted(states[m], steps[m]) && !steps[m].Delete?
  }

  lemma {:induction false} TokensGrow(states: seq<State>, steps: seq<Step>, i: nat, j: nat)
    requires IsRun(states, steps) && i <= j < |states|
    ensures states[i].nextToken <= states[j].nextToken
    ensures i < j && Granted(states[i], steps[i]) ==> states[i].nextToken < states[j].nextToken
  {
    if i < j { TokensGrow(states, steps, i, j - 1); }
  }

  /** A document's token was issued by the latest granted acquire. */
  lemma {:induction false} TokenOrigin(states: seq<State>, steps: seq<Step>, i: nat)
    requires IsRun(states, steps) && i < |states|
    requires states[i].doc.Some? && states[i].doc.value.lease.token != 0
    ensures exists j :: 0 <= j < i && LatestGrant(states, steps, i, j, states[i].doc.value.lease.token)
  {
    if i > 0 {
      var s, step := states[i - 1], steps[i - 1];
      if Granted(s, step) {
        assert LatestGrant(states, steps, i, i - 1, states[i].doc.value.lease.token);
      } else {
        assert s.doc.Some? && s.doc.value.lease.token == states[i].doc.value.lease.token;
        TokenOrigin(states, steps, i - 1);
        var j :| 0 <= j < i - 1 && LatestGrant(states, steps, i - 1, j, s.doc.value.lease.token);
        assert LatestGrant(states, steps, i, j, states[i].doc.value.lease.token);
      }
    }
  }

  /** A turn's token was issued by the turn's own acquire. */
  lemma {:induction false} TurnOrigin(states: seq<State>, steps: seq<Step>, i: nat, w: nat)
    requires IsRun(states, steps) && i < |states| && w in states[i].turns
    ensures exists j :: 0 <= j < i && Granted(states[j], steps[j]) && steps[j].w == w
              && states[j].nextToken == states[i].turns[w].token
  {
    if i > 0 {
      var s, step := states[i - 1], steps[i - 1];
      if Granted(s, step) && step.w == w {
      } else {
        TurnOrigin(states, steps, i - 1, w);
      }
    }
  }

  /**
   * Token fencing: a save, of a batch or a keep-alive's, succeeds only for the
   * turn the project's latest granted acquire began, before its lease expires.
   */
  lemma SaveUnderLatestLease(states: seq<State>, steps: seq<Step>, i: nat, w: nat)
    requires IsRun(states, steps) && i < |steps|
    requires (steps[i].SaveWork? || steps[i].KeepAlive?) && steps[i].w == w
    requires w in Next(states[i], steps[i]).turns
    ensures states[i].now < states[i].doc.value.lease.until
    ensures exists j :: 0 <= j < i && LatestGrant(states, steps, i, j, states[i].turns[w].token) && steps[j].w == w
  {
    var tok := states[i].turns[w].token;
    assert IsCurrent(states[i].doc, tok, states[i].now);
    TokenOrigin(states, steps, i);
    TurnOrigin(states, steps, i, w);
    var j :| 0 <= j < i && LatestGrant(states, steps, i, j, tok);
    var m :| 0 <= m < i && Granted(states[m], steps[m]) && steps[m].w == w && states[m].nextToken == tok;
    if m < j { TokensGrow(states, steps, m, j); }
    assert j == m;
  }

  /** Whatever the interleaving, the upstreams stored are the first changes of their current runs. */
  lemma StoredUpstreams(states: seq<State>, steps: seq<Step>, i: nat, k: TreeKey)
    requires IsRun(states, steps) && i < |states| && states[i].doc.Some?
    requires k in states[i].doc.value.cursor.trees
    ensures var c := states[i].doc.value.cursor;
            var log := states[i].log[..Pos(states[i].log, c.seqNo)];
            HasWord(log, k, c.trees[k])
  {
    RunInv(states, steps, i);
    var c := states[i].doc.value.cursor;
    var log := states[i].log[..Pos(states[i].log, c.seqNo)];
    assert Increasing(log) && c.trees == Fold(log);
    UpstreamSeqIsRunStart(log, k);
  }

  /** And the states stored are the last words of the log up to the stored position on the trees alive there. */
  lemma StoredStates(states: seq<State>, steps: seq<Step>, i: nat, k: TreeKey)
    requires IsRun(states, steps) && i < |states| && states[i].doc.Some?
    ensures var c := states[i].doc.value.cursor;
            var log := states[i].log[..Pos(states[i].log, c.seqNo)];
            && (k in c.trees <==> Alive(log, k)) && (k in c.trees ==> IsLastWord(log, k, c.trees[k]))
            && forall j :: 0 <= j < |states[i].log| ==> (j < |log| <==> states[i].log[j].seqNo <= c.seqNo)
  {
    RunInv(states, steps, i);
    var c := states[i].doc.value.cursor;
    var log := states[i].log[..Pos(states[i].log, c.seqNo)];
    AliveIsKnown(log, k);
    if k in c.trees { StateIsLastWord(log, k); }
    PosSplits(states[i].log, c.seqNo);
  }

  /**
   * A current lease keeps others out: through any step it keeps its token and
   * holder, unless the step is its own holder's acquire, the end of its turn,
   * or a delete; and only a save of its turn changes when it expires.
   */
  lemma LeaseKept(states: seq<State>, steps: seq<Step>, i: nat)
    requires IsRun(states, steps) && i < |steps|
    requires states[i].doc.Some? && states[i].doc.value.lease.token != 0 && states[i].now < states[i].doc.value.lease.until
    ensures var s, step, lease := states[i], steps[i], states[i].doc.value.lease;
            || (step.Acquire? && step.holder == lease.holder)
            || (step.End? && step.w in s.turns && s.turns[step.w].token == lease.token)
            || step.Delete?
            || (&& states[i + 1].doc.Some? && states[i + 1].doc.value.lease.token == lease.token
                && states[i + 1].doc.value.lease.holder == lease.holder
                && (states[i + 1].doc.value.lease.until == lease.until
                    || (&& (step.SaveWork? || step.KeepAlive?) && step.w in s.turns && s.turns[step.w].token == lease.token
                        && step.ttl > 0 && states[i + 1].doc.value.lease.until == s.now + step.ttl)))
  {
  }

  /** An acquire is granted exactly when no one else's lease is current, and then to expire after its ttl. */
  lemma AcquireExact(states: seq<State>, steps: seq<Step>, i: nat)
    requires IsRun(states, steps) && i < |steps| && steps[i].Acquire?
    ensures var s, step, s1 := states[i], steps[i], states[i + 1];
            if s.doc.Some? && s.doc.value.lease.token != 0 && s.now < s.doc.value.lease.until && s.doc.value.lease.holder != step.holder
            then s1.turns == s.turns && s1.doc == s.doc
            else
              && step.w in s1.turns && s1.turns[step.w].token == s.nextToken && s1.turns[step.w].work.None?
              && s1.doc.Some? && s1.doc.value.lease == Lease(step.holder, s.nextToken, s.now + step.ttl)
              && s1.doc.value.cursor == (if s.doc.Some? then s.doc.value.cursor else START)
              && s1.turns[step.w].cur == s1.doc.value.cursor
  {
  }

  /** A turn reads on from what it has read and not saved, else from its cursor, and folds in all it reads. */
  lemma ReadExact(s: State, w: nat, limit: nat)
    requires Inv(s) && Enabled(s, Read(w, limit))
    ensures var t, t1 := s.turns[w], Next(s, Read(w, limit)).turns[w];
            var from := if t.work.Some? then t.work.value else t.cur;
            && Next(s, Read(w, limit)).doc == s.doc && t1.cur == t.cur && t1.token == t.token && t1.work.Some?
            && from.seqNo < t1.work.value.seqNo && AtCursor(s.log, t1.work.value)
            && Pos(s.log, t1.work.value.seqNo) <= Pos(s.log, from.seqNo) + limit
  {
    assert TurnInv(s, s.turns[w]);
    ReadAdvances(s.log, Base(s.turns[w]), limit);
    ReadPosition(s.log, Base(s.turns[w]).seqNo, limit);
  }

  /** A save stores what was read, and a keep-alive the cursor as it stands, under a current lease; else the turn is over. */
  lemma SaveExact(states: seq<State>, steps: seq<Step>, i: nat)
    requires IsRun(states, steps) && i < |steps| && (steps[i].SaveWork? || steps[i].KeepAlive?)
    ensures var s, s1, w := states[i], states[i + 1], steps[i].w;
            && w in s.turns
            && if s.doc.Some? && s.doc.value.lease.token == s.turns[w].token && s.doc.value.lease.token != 0
                  && s.now < s.doc.value.lease.until
               then
                 && s1.doc.Some? && w in s1.turns && s1.turns[w].cur == s1.doc.value.cursor
                 && (steps[i].SaveWork? ==> s.turns[w].work == Some(s1.doc.value.cursor) && s1.turns[w].work.None?)
                 && (steps[i].KeepAlive? ==> s.turns[w].cur == s1.doc.value.cursor && s1.turns[w].work == s.turns[w].work)
               else s1.doc == s.doc && w !in s1.turns
  {
  }
}
