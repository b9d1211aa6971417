/** The consistency hash of a layer's files (FilesHash in codeindex/lifecycle.go), for any hash function. */
module Hashes {
  import opened Orders
  import opened Plans

  type Hash = string -> string

  const NUL: char := '\0'

  /** What the hash reads of a file: the fields Diff compares. */
  datatype Row = Row(path: Path, sha: string, oid: string, deleted: bool)

  function RowOf(path: Path, f: FileSource): Row { Row(path, f.sha, f.oid, f.deleted) }

  /** No field holds the byte that ends fields. */
  predicate IsNulFree(r: Row) { NUL !in r.path && NUL !in r.sha && NUL !in r.oid }

  ghost predicate NulFree(files: map<Path, FileSource>) {
    forall p :: p in files ==> IsNulFree(RowOf(p, files[p]))
  }

  // ----- the files in order of path

  ghost predicate InOrder(rows: seq<Row>) {
    forall i, j :: 0 <= i < j < |rows| ==> StrLess(rows[i].path, rows[j].path)
  }

  ghost predicate IsListing(files: map<Path, FileSource>, rows: seq<Row>) {
    InOrder(rows) && Lists(files, rows)
  }

  ghost predicate Lists(files: map<Path, FileSource>, rows: seq<Row>) {
    && (forall r :: r in rows ==> r.path in files && r == RowOf(r.path, files[r.path]))
    && (forall p :: p in files ==> RowOf(p, files[p]) in rows)
  }

  /** There is one sorted list of a set of rows. */
  lemma {:induction false} OneListing(a: seq<Row>, b: seq<Row>)
    requires InOrder(a) && InOrder(b) && forall r :: r in a <==> r in b
    ensures a == b
  {
    NoMembers(a);
    NoMembers(b);
    if a != [] {
      FirstIsLeast(a, b[0]);
      FirstIsLeast(b, a[0]);
      StrTotal(a[0].path, b[0].path);
      TailMembers(a);
      TailMembers(b);
      OneListing(a[1..], b[1..]);
    }
  }

  lemma NoMembers(a: seq<Row>)
    ensures a == [] <==> forall x :: x !in a
    ensures a != [] ==> a[0] in a
  {
    if a != [] { assert a[0] in a; }
  }

  lemma FirstIsLeast(a: seq<Row>, r: Row)
    requires InOrder(a) && r in a
    ensures a[0] == r || StrLess(a[0].path, r.path)
  {
  }

  lemma TailMembers(a: seq<Row>)
    requires InOrder(a) && a != []
    ensures InOrder(a[1..]) && forall r :: r in a[1..] <==> r in a && r != a[0]
  {
    StrTotal(a[0].path, a[0].path);
    assert a == [a[0]] + a[1..];
  }

  /** A row whose path rows do not have goes where it belongs. */
  method Insert(rows: seq<Row>, r: Row) returns (out: seq<Row>)
    requires InOrder(rows) && forall x :: x in rows ==> x.path != r.path
    ensures InOrder(out) && forall x :: x in out <==> x in rows || x == r
  {
    var i := |rows|;
    while i > 0 && StrLess(r.path, rows[i - 1].path)
      invariant 0 <= i <= |rows|
      invariant forall j :: i <= j < |rows| ==> StrLess(r.path, rows[j].path)
    {
      i := i - 1;
    }
    if i > 0 { StrTotal(r.path, rows[i - 1].path); }
    InsertedInOrder(rows, r, i);
    out := rows[..i] + [r] + rows[i..];
    assert rows == rows[..i] + rows[i..];
  }

  lemma InsertedInOrder(rows: seq<Row>, r: Row, i: nat)
    requires InOrder(rows) && i <= |rows|
    requires forall j :: i <= j < |rows| ==> StrLess(r.path, rows[j].path)
    requires i > 0 ==> StrLess(rows[i - 1].path, r.path)
    ensures InOrder(rows[..i] + [r] + rows[i..])
  {
    forall j | 0 <= j < i ensures StrLess(rows[j].path, r.path) {
      if j < i - 1 { StrTransitive(rows[j].path, rows[i - 1].path, r.path); }
    }
  }

  method List(files: map<Path, FileSource>) returns (rows: seq<Row>)
    ensures IsListing(files, rows)
  {
    rows := [];
    var todo := files.Keys;
    while todo != {}
      invariant todo <= files.Keys && InOrder(rows)
      invariant forall r :: r in rows <==> r.path in files.Keys - todo && r == RowOf(r.path, files[r.path])
      decreases todo
    {
      var p :| p in todo;
      rows := Insert(rows, RowOf(p, files[p]));
      todo := todo - {p};
    }
  }

  // ----- the bytes hashed

  function Field(x: string, rest: string): string { x + [NUL] + rest }

  function Flag(deleted: bool, rest: string): string { (if deleted then "true\n" else "false\n") + rest }

  function Stream(rows: seq<Row>): string {
    if rows == [] then ""
    else
      var r := rows[0];
      Field(r.path, Field(r.sha, Field(r.oid, Flag(r.deleted, Stream(rows[1..])))))
  }

  lemma FieldEnds(x: string, y: string, r: string, s: string)
    requires NUL !in x && NUL !in y && Field(x, r) == Field(y, s)
    ensures x == y && r == s
  {
    var t := Field(x, r);
    assert t[|x|] == NUL && t[|y|] == NUL;
    assert forall j :: 0 <= j < |x| ==> t[j] == x[j];
    assert forall j :: 0 <= j < |y| ==> t[j] == y[j];
    assert x == t[..|x|] && y == t[..|y|];
    assert r == t[|x| + 1..] && s == t[|y| + 1..];
  }

  lemma FlagEnds(a: bool, b: bool, r: string, s: string)
    requires Flag(a, r) == Flag(b, s)
    ensures a == b && r == s
  {
    var t := Flag(a, r);
    assert t[0] == (if a then 't' else 'f') && t[0] == (if b then 't' else 'f');
    assert r == t[if a then 5 else 6..] && s == t[if b then 5 else 6..];
  }

  /** Lists of NUL-free rows are told apart by their bytes, whatever their lengths. */
  lemma {:induction false} StreamInjective(a: seq<Row>, b: seq<Row>)
    requires (forall r :: r in a ==> IsNulFree(r)) && forall r :: r in b ==> IsNulFree(r)
    requires Stream(a) == Stream(b)
    ensures a == b
  {
    if a != [] && b != [] {
      var x, y := a[0], b[0];
      assert IsNulFree(x) && IsNulFree(y);
      var d, e := Flag(x.deleted, Stream(a[1..])), Flag(y.deleted, Stream(b[1..]));
      FieldEnds(x.path, y.path, Field(x.sha, Field(x.oid, d)), Field(y.sha, Field(y.oid, e)));
      FieldEnds(x.sha, y.sha, Field(x.oid, d), Field(y.oid, e));
      FieldEnds(x.oid, y.oid, d, e);
      FlagEnds(x.deleted, y.deleted, Stream(a[1..]), Stream(b[1..]));
      StreamInjective(a[1..], b[1..]);
    }
  }

  /** A NUL in a field would let two lists of files hash alike. */
  lemma NulCollides()
    ensures Stream([Row("a" + [NUL], "", "", false)]) == Stream([Row("a", "", [NUL], false)])
  {
    var a, b := Row("a" + [NUL], "", "", false), Row("a", "", [NUL], false);
    assert Stream([a][1..]) == "" && Stream([b][1..]) == "";
    var end := Flag(false, "");
    assert Field("", Field("", end)) == [NUL, NUL] + end;
    assert Field("", Field([NUL], end)) == [NUL, NUL, NUL] + end;
    assert Field(a.path, [NUL, NUL] + end) == Field(b.path, [NUL, NUL, NUL] + end);
  }

  // ----- the hash

  ghost predicate CollisionFree(hash: Hash) {
    forall x, y :: hash(x) == hash(y) ==> x == y
  }

  ghost predicate IsFilesHash(hash: Hash, files: map<Path, FileSource>, h: string) {
    exists rows :: IsListing(files, rows) && h == hash(Stream(rows))
  }

  method FilesHash(hash: Hash, files: map<Path, FileSource>) returns (h: string)
    ensures IsFilesHash(hash, files, h)
  {
    var rows := List(files);
    var out := "";
    for i := 0 to |rows|
      invariant out + Stream(rows[i..]) == Stream(rows)
    {
      StreamFrom(out, rows, i);
      var r := rows[i];
      out := out + r.path + [NUL] + r.sha + [NUL] + r.oid + [NUL] + if r.deleted then "true\n" else "false\n";
    }
    assert rows[|rows|..] == [];
    assert out + "" == out;
    h := hash(out);
  }

  lemma StreamFrom(out: string, rows: seq<Row>, i: nat)
    requires i < |rows|
    ensures var r := rows[i];
            out + r.path + [NUL] + r.sha + [NUL] + r.oid + [NUL] + (if r.deleted then "true\n" else "false\n") + Stream(rows[i + 1..])
            == out + Stream(rows[i..])
  {
    Appended(out, rows[i], Stream(rows[i + 1..]));
    assert rows[i..][1..] == rows[i + 1..];
  }

  lemma Appended(out: string, r: Row, rest: string)
    ensures out + r.path + [NUL] + r.sha + [NUL] + r.oid + [NUL] + (if r.deleted then "true\n" else "false\n") + rest
         == out + Field(r.path, Field(r.sha, Field(r.oid, Flag(r.deleted, rest))))
  {
  }

  ghost predicate SameFiles(a: map<Path, FileSource>, b: map<Path, FileSource>) {
    a.Keys == b.Keys && forall p :: p in a ==> SameFile(a[p], b[p])
  }

  /** The hashes are equal exactly when Diff would find nothing to write. */
  lemma HashTellsFiles(hash: Hash, a: map<Path, FileSource>, b: map<Path, FileSource>, ha: string, hb: string)
    requires CollisionFree(hash) && NulFree(a) && NulFree(b)
    requires IsFilesHash(hash, a, ha) && IsFilesHash(hash, b, hb)
    ensures ha == hb <==> SameFiles(a, b)
  {
    var ra :| IsListing(a, ra) && ha == hash(Stream(ra));
    var rb :| IsListing(b, rb) && hb == hash(Stream(rb));
    forall r | r in ra ensures IsNulFree(r) { assert IsNulFree(RowOf(r.path, a[r.path])); }
    forall r | r in rb ensures IsNulFree(r) { assert IsNulFree(RowOf(r.path, b[r.path])); }
    if ha == hb {
      StreamInjective(ra, rb);
      SameListing(a, b, ra);
    }
    if SameFiles(a, b) { ListedAlike(a, b, ra, rb); }
  }

  lemma SameListing(a: map<Path, FileSource>, b: map<Path, FileSource>, rows: seq<Row>)
    requires Lists(a, rows) && Lists(b, rows)
    ensures SameFiles(a, b)
  {
    forall p | p in a ensures p in b && SameFile(a[p], b[p]) { assert RowOf(p, a[p]) in rows; }
    forall p | p in b ensures p in a { assert RowOf(p, b[p]) in rows; }
  }

  lemma ListedAlike(a: map<Path, FileSource>, b: map<Path, FileSource>, ra: seq<Row>, rb: seq<Row>)
    requires IsListing(a, ra) && IsListing(b, rb) && SameFiles(a, b)
    ensures ra == rb
  {
    ListedIn(a, b, ra, rb);
    ListedIn(b, a, rb, ra);
    OneListing(ra, rb);
  }

  lemma ListedIn(a: map<Path, FileSource>, b: map<Path, FileSource>, ra: seq<Row>, rb: seq<Row>)
    requires Lists(a, ra) && Lists(b, rb) && SameFiles(a, b)
    ensures forall r :: r in ra ==> r in rb
  {
    forall r | r in ra ensures r in rb {
      ListedAt(a, b, rb, r.path);
    }
  }

  lemma ListedAt(a: map<Path, FileSource>, b: map<Path, FileSource>, rb: seq<Row>, p: Path)
    requires Lists(b, rb) && SameFiles(a, b) && p in a
    ensures RowOf(p, a[p]) in rb
  {
    assert RowOf(p, a[p]) == RowOf(p, b[p]);
  }
}
