/**
 * Layer ids (codegraph/view.go): a layer is named "base",
 * "branch:<ref>@<commit>" or "wt:<worktree>:<ref>".  A ref may hold '@', so a
 * branch id is split at its last '@'; no part may hold ':', so an overlay's id
 * is split at the first ':' after its prefix.
 */
module LayerIds {
  import opened Wrappers

  datatype LayerName =
    | BaseName
    | BranchName(ref: string, commit: string)
    | WorktreeName(worktree: string, wref: string)

  const BASE: string := "base"
  const BRANCH_PREFIX: string := "branch:"
  const WORKTREE_PREFIX: string := "wt:"

  function Print(l: LayerName): string {
    match l
    case BaseName => BASE
    case BranchName(ref, commit) => BRANCH_PREFIX + ref + "@" + commit
    case WorktreeName(worktree, ref) => WORKTREE_PREFIX + worktree + ":" + ref
  }

  function Parse(id: string): Option<LayerName> {
    if id == BASE then Some(BaseName)
    else if BRANCH_PREFIX <= id then
      var rest := id[|BRANCH_PREFIX|..];
      var at := LastIndex(rest, '@');
      if at <= 0 || at == |rest| - 1 then None
      else
        var ref, commit := rest[..at], rest[at + 1..];
        if ':' in ref || ':' in commit || '@' in commit then None else Some(BranchName(ref, commit))
    else if WORKTREE_PREFIX <= id then
      var rest := id[|WORKTREE_PREFIX|..];
      var at := FirstIndex(rest, ':');
      if at < 0 then None
      else
        var worktree, ref := rest[..at], rest[at + 1..];
        if worktree == "" || ref == "" || ':' in ref then None else Some(WorktreeName(worktree, ref))
    else None
  }

  /** The names ids are made of: no empty part, no ':', no '@' in a commit. */
  predicate WellFormed(l: LayerName) {
    match l
    case BaseName => true
    case BranchName(ref, commit) =>
      ref != "" && commit != "" && ':' !in ref && ':' !in commit && '@' !in commit
    case WorktreeName(worktree, ref) =>
      worktree != "" && ref != "" && ':' !in worktree && ':' !in ref
  }

  function LastIndex(s: string, c: char): (i: int)
    ensures -1 <= i < |s|
    ensures i >= 0 ==> s[i] == c
    ensures forall j :: i < j < |s| ==> s[j] != c
  {
    if s == "" then -1
    else if s[|s| - 1] == c then |s| - 1
    else LastIndex(s[..|s| - 1], c)
  }

  function FirstIndex(s: string, c: char): (i: int)
    ensures -1 <= i < |s|
    ensures i >= 0 ==> s[i] == c && forall j :: 0 <= j < i ==> s[j] != c
    ensures i < 0 ==> c !in s
  {
    if s == "" then -1
    else if s[0] == c then 0
    else
      var i := FirstIndex(s[1..], c);
      if i < 0 then -1 else i + 1
  }

  /** Every accepted id is the canonical spelling of what it parses to. */
  lemma PrintOfParse(id: string)
    requires Parse(id).Some?
    ensures Print(Parse(id).value) == id
    ensures WellFormed(Parse(id).value)
  {
    if id == BASE {
    } else if BRANCH_PREFIX <= id {
      PrintOfBranch(id);
    } else {
      PrintOfWorktree(id);
    }
  }

  lemma PrintOfBranch(id: string)
    requires id != BASE && BRANCH_PREFIX <= id && Parse(id).Some?
    ensures Print(Parse(id).value) == id && WellFormed(Parse(id).value)
  {
    var rest := id[|BRANCH_PREFIX|..];
    var at := LastIndex(rest, '@');
    assert rest == rest[..at] + "@" + rest[at + 1..];
    assert id == BRANCH_PREFIX + rest;
  }

  lemma PrintOfWorktree(id: string)
    requires id != BASE && !(BRANCH_PREFIX <= id) && Parse(id).Some?
    ensures Print(Parse(id).value) == id && WellFormed(Parse(id).value)
  {
    var rest := id[|WORKTREE_PREFIX|..];
    var at := FirstIndex(rest, ':');
    assert rest == rest[..at] + ":" + rest[at + 1..];
    assert id == WORKTREE_PREFIX + rest;
    assert ':' !in rest[..at];
  }

  /** A name survives printing and parsing exactly when it is well formed. */
  lemma ParseOfPrint(l: LayerName)
    ensures Parse(Print(l)) == Some(l) <==> WellFormed(l)
  {
    if Parse(Print(l)) == Some(l) { PrintOfParse(Print(l)); }
    if WellFormed(l) {
      match l
      case BaseName =>
      case BranchName(ref, commit) => ParseBranch(ref, commit);
      case WorktreeName(worktree, ref) => ParseWorktree(worktree, ref);
    }
  }

  /** A branch id whose commit holds no '@' is accepted exactly for a well-formed name. */
  lemma ParseBranch(ref: string, commit: string)
    requires '@' !in commit
    ensures var l := BranchName(ref, commit); Parse(Print(l)) == if WellFormed(l) then Some(l) else None
  {
    var rest := ref + "@" + commit;
    var id := BRANCH_PREFIX + rest;
    assert Print(BranchName(ref, commit)) == id;
    assert id[1] == 'r';
    assert id[|BRANCH_PREFIX|..] == rest;
    SplitsAtLast(ref, commit);
  }

  /** A worktree id is accepted exactly for a well-formed name. */
  lemma ParseWorktree(worktree: string, ref: string)
    ensures var l := WorktreeName(worktree, ref); Parse(Print(l)) == if WellFormed(l) then Some(l) else None
  {
    var rest := worktree + ":" + ref;
    var id := WORKTREE_PREFIX + rest;
    assert Print(WorktreeName(worktree, ref)) == id;
    assert id[0] == 'w' && BRANCH_PREFIX[0] == 'b' && BASE[0] == 'b';
    assert id[|WORKTREE_PREFIX|..] == rest;
    if ':' in worktree {
      var at := FirstIndex(rest, ':');
      var i :| 0 <= i < |worktree| && worktree[i] == ':';
      assert rest[i] == ':' && at <= i;
      assert rest[at + 1..][|worktree| - at - 1] == rest[|worktree|] == ':';
    } else {
      SplitsAtFirst(worktree, ref);
    }
  }

  /** A join at a character, taken apart. */
  lemma JoinParts(a: string, c: char, b: string)
    ensures var s := a + [c] + b; s[..|a|] == a && s[|a|] == c && s[|a| + 1..] == b
  {
  }

  lemma SplitsAtLast(ref: string, commit: string)
    requires '@' !in commit
    ensures LastIndex(ref + "@" + commit, '@') == |ref|
    ensures (ref + "@" + commit)[..|ref|] == ref && (ref + "@" + commit)[|ref| + 1..] == commit
  {
    JoinParts(ref, '@', commit);
    LastIs(ref + ['@'] + commit, '@', |ref|, commit);
  }

  lemma LastIs(s: string, c: char, i: nat, rest: string)
    requires i < |s| && s[i] == c && s[i + 1..] == rest && c !in rest
    ensures LastIndex(s, c) == i
  {
    forall j | i < j < |s| ensures s[j] != c {
      assert s[j] == rest[j - i - 1];
    }
  }

  lemma SplitsAtFirst(worktree: string, ref: string)
    requires ':' !in worktree
    ensures FirstIndex(worktree + ":" + ref, ':') == |worktree|
    ensures (worktree + ":" + ref)[..|worktree|] == worktree && (worktree + ":" + ref)[|worktree| + 1..] == ref
  {
    JoinParts(worktree, ':', ref);
    FirstIs(worktree + [':'] + ref, ':', |worktree|, worktree);
  }

  lemma FirstIs(s: string, c: char, i: nat, before: string)
    requires i < |s| && s[i] == c && s[..i] == before && c !in before
    ensures FirstIndex(s, c) == i
  {
    forall j | 0 <= j < i ensures s[j] != c {
      assert s[j] == before[j];
    }
  }

  /** Distinct well-formed names have distinct ids. */
  lemma PrintInjective(a: LayerName, b: LayerName)
    requires WellFormed(a) && WellFormed(b) && Print(a) == Print(b)
    ensures a == b
  {
    ParseOfPrint(a);
    ParseOfPrint(b);
  }

  /** Without WellFormed, printing collides: a commit holding '@' gives part of itself to the ref. */
  lemma MalformedNamesCollide(ref: string, x: string, y: string)
    ensures Print(BranchName(ref, x + "@" + y)) == Print(BranchName(ref + "@" + x, y))
    ensures WellFormed(BranchName(ref + "@" + x, y)) ==>
              Parse(Print(BranchName(ref, x + "@" + y))) == Some(BranchName(ref + "@" + x, y))
  {
    assert ref + "@" + (x + "@" + y) == (ref + "@" + x) + "@" + y;
    assert BRANCH_PREFIX + ref + "@" + (x + "@" + y) == BRANCH_PREFIX + (ref + "@" + (x + "@" + y));
    assert BRANCH_PREFIX + (ref + "@" + x) + "@" + y == BRANCH_PREFIX + ((ref + "@" + x) + "@" + y);
    ParseOfPrint(BranchName(ref + "@" + x, y));
  }
}
