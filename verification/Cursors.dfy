/**
 * The cursor store (codeindex/cursor.go): one cursor and one lease per
 * project, a lease current only for its token and until it expires.  Tokens
 * are random in the source; here each is the next of a counter, and 0 stands
 * for the empty token of a released lease.
 */
module Cursors {
  import opened Wrappers
  import opened ChangeLog

  datatype Cursor = Cursor(seqNo: nat, trees: States)

  const START := Cursor(0, map[])

  type Token = nat

  datatype Lease = Lease(holder: string, token: Token, until: int)

  const NO_LEASE := Lease("", 0, 0)

  datatype Doc = Doc(cursor: Cursor, lease: Lease)

  const NEW_DOC := Doc(START, NO_LEASE)

  datatype CursorError = BadRequest | Leased | LeaseLost

  // ----- one project's document

  predicate IsHeld(d: Doc, now: int) {
    d.lease.token != 0 && now < d.lease.until
  }

  /** Another holder's current lease keeps the project; the same holder may take a fresh one. */
  predicate MayAcquire(d: Doc, holder: string, now: int) {
    !(IsHeld(d, now) && d.lease.holder != holder)
  }

  /** The lease of this token is the document's and has not expired. */
  predicate IsCurrent(d: Option<Doc>, token: Token, now: int) {
    d.Some? && d.value.lease.token == token && IsHeld(d.value, now)
  }

  function Acquired(d: Doc, holder: string, token: Token, until: int): Doc {
    d.(lease := Lease(holder, token, until))
  }

  function Saved(d: Doc, c: Cursor, now: int, ttl: int): Doc {
    Doc(c, if ttl > 0 then d.lease.(until := now + ttl) else d.lease)
  }

  // ----- the store

  class MemCursors {
    var docs: map<string, Doc>
    var nextToken: Token

    /** Every token handed out is smaller than the next one. */
    ghost predicate Valid()
      reads this
    {
      nextToken >= 1 && forall p :: p in docs ==> docs[p].lease.token < nextToken
    }

    ghost function DocOf(p: string): Option<Doc>
      reads this
    {
      if p in docs then Some(docs[p]) else None
    }

    constructor ()
      ensures Valid() && docs == map[]
    {
      docs, nextToken := map[], 1;
    }

    /** The lease for holder until now+ttl and the project's cursor, a fresh document's for a new project. */
    method Acquire(project: string, holder: string, ttl: int, now: int)
      returns (err: Option<CursorError>, lease: Lease, cursor: Cursor)
      requires Valid()
      modifies this
      ensures Valid() && nextToken >= old(nextToken)
      ensures forall p :: p != project ==> DocOf(p) == old(DocOf(p))
      ensures var d := old(if project in docs then docs[project] else NEW_DOC);
              if project == "" || holder == "" || ttl <= 0
              then err == Some(BadRequest) && docs == old(docs)
              else if d.lease.token != 0 && now < d.lease.until && d.lease.holder != holder
              then err == Some(Leased) && DocOf(project) == Some(d)
              else && err.None? && lease == Lease(holder, old(nextToken), now + ttl) && cursor == d.cursor
                   && DocOf(project) == Some(Doc(d.cursor, lease)) && nextToken == old(nextToken) + 1
      ensures err == Some(Leased) <==>
                && project != "" && holder != "" && ttl > 0
                && !old(MayAcquire(if project in docs then docs[project] else NEW_DOC, holder, now))
    {
      lease, cursor := NO_LEASE, START;
      if project == "" || holder == "" || ttl <= 0 { return Some(BadRequest), lease, cursor; }
      if project !in docs { docs := docs[project := NEW_DOC]; }
      var d := docs[project];
      if d.lease.token != 0 && now < d.lease.until && d.lease.holder != holder { return Some(Leased), lease, cursor; }
      lease := Lease(holder, nextToken, now + ttl);
      nextToken := nextToken + 1;
      docs := docs[project := Doc(d.cursor, lease)];
      err, cursor := None, d.cursor;
    }

    /** Stores c and extends the lease, under a current lease only. */
    method Save(project: string, l: Lease, c: Cursor, ttl: int, now: int)
      returns (err: Option<CursorError>, lease: Lease)
      requires Valid()
      modifies `docs
      ensures Valid()
      ensures forall p :: p != project ==> DocOf(p) == old(DocOf(p))
      ensures var d := old(DocOf(project));
              if d.Some? && d.value.lease.token != 0 && d.value.lease.token == l.token && now < d.value.lease.until
              then && err.None? && DocOf(project) == Some(Doc(c, lease))
                   && lease == Lease(d.value.lease.holder, l.token, if ttl > 0 then now + ttl else d.value.lease.until)
              else err == Some(LeaseLost) && docs == old(docs)
    {
      lease := NO_LEASE;
      if project !in docs || docs[project].lease.token == 0 || docs[project].lease.token != l.token
         || now >= docs[project].lease.until
      {
        return Some(LeaseLost), lease;
      }
      docs := docs[project := Saved(docs[project], c, now, ttl)];
      err, lease := None, docs[project].lease;
    }

    /** Gives a current lease up; releasing a lost one changes nothing. */
    method Release(project: string, l: Lease, now: int)
      requires Valid()
      modifies `docs
      ensures Valid()
      ensures forall p :: p != project ==> DocOf(p) == old(DocOf(p))
      ensures var d := old(DocOf(project));
              DocOf(project) == if d.Some? && d.value.lease.token != 0 && d.value.lease.token == l.token && now < d.value.lease.until
                                then Some(Doc(d.value.cursor, Lease("", 0, 0))) else d
    {
      if project in docs && docs[project].lease.token != 0 && docs[project].lease.token == l.token
         && now < docs[project].lease.until
      {
        docs := docs[project := docs[project].(lease := NO_LEASE)];
      }
    }

    method Delete(project: string)
      requires Valid()
      modifies `docs
      ensures Valid()
      ensures forall p :: p != project ==> DocOf(p) == old(DocOf(p))
      ensures DocOf(project) == None
    {
      docs := docs - {project};
    }
  }
}
