/**
 * What a read sees (codegraph/view.go, Plan.View in codeindex/layers.go and
 * buildView in codeindex/resolve.go).  The simple meaning walks a layer's
 * chain top-down and takes the first holder of a path; the fast one filters
 * files by their layer and their hiddenBy list.
 */
module Visibility {
  import opened Wrappers
  import opened Plans
  import LayerIds

  // ----- views

  /** A layer and the layers below it, highest first. */
  function Chain(p: Plan, id: LayerId): seq<LayerId> {
    [id] + Ancestors(p, id)
  }

  /** Following Parent from cur reaches a bottom layer: no missing layer, none of seen, none twice. */
  predicate Grounded(p: Plan, cur: LayerId, seen: set<LayerId>)
    decreases p.layers.Keys - seen
  {
    cur == "" || (cur in p.layers && cur !in seen && Grounded(p, Parent(p, cur), seen + {cur}))
  }

  /** The layers a view can be built for. */
  predicate HasView(p: Plan, id: LayerId) {
    id != "" && Grounded(p, id, {}) && forall c :: c in Chain(p, id) ==> LayerIds.Parse(c).Some?
  }

  function Reverse<T>(s: seq<T>): (r: seq<T>)
    ensures |r| == |s| && forall i :: 0 <= i < |s| ==> r[i] == s[|s| - 1 - i]
  {
    if s == [] then [] else Reverse(s[1..]) + [s[0]]
  }

  /** The view of a layer, lowest first; None for a missing layer, a cycle or a malformed id. */
  method View(p: Plan, id: LayerId) returns (v: Option<seq<LayerId>>)
    ensures v.Some? <==> HasView(p, id)
    ensures v.Some? ==> v.value == Reverse(Chain(p, id))
  {
    var chain: seq<LayerId> := [];
    var cur := id;
    ghost var seen := {};
    while cur != ""
      invariant seen == set c | c in chain
      invariant seen <= p.layers.Keys
      invariant Grounded(p, id, {}) <==> Grounded(p, cur, seen)
      invariant chain + Walk(p, cur, seen) == Walk(p, id, {})
      decreases p.layers.Keys - seen
    {
      if cur !in p.layers || cur in chain { return None; }
      chain := chain + [cur];
      seen := seen + {cur};
      cur := Parent(p, cur);
    }
    if chain == [] { return None; }
    WalkFromSelf(p, id);
    var parse := AllParse(chain);
    v := if parse then Some(Reverse(chain)) else None;
  }

  method AllParse(ids: seq<LayerId>) returns (ok: bool)
    ensures ok <==> forall c :: c in ids ==> LayerIds.Parse(c).Some?
  {
    for i := 0 to |ids|
      invariant forall j :: 0 <= j < i ==> LayerIds.Parse(ids[j]).Some?
    {
      if LayerIds.Parse(ids[i]).None? { return false; }
    }
    ok := true;
  }

  lemma WalkFromSelf(p: Plan, id: LayerId)
    requires id != "" && id in p.layers
    ensures Walk(p, id, {}) == Chain(p, id)
  {
    assert {} + {id} == {id};
  }

  // ----- the simple meaning: the highest holder of a path

  function TopHolder(p: Plan, chain: seq<LayerId>, path: Path): Option<LayerId> {
    if chain == [] then None
    else if Holds(p, Key(chain[0], path)) then Some(chain[0])
    else TopHolder(p, chain[1..], path)
  }

  lemma {:induction false} TopHolderIsFirst(p: Plan, chain: seq<LayerId>, path: Path)
    ensures match TopHolder(p, chain, path)
            case None => forall i :: 0 <= i < |chain| ==> !Holds(p, Key(chain[i], path))
            case Some(a) => exists i :: 0 <= i < |chain| && chain[i] == a && Holds(p, Key(a, path))
                              && forall j :: 0 <= j < i ==> !Holds(p, Key(chain[j], path))
  {
    if chain != [] && !Holds(p, Key(chain[0], path)) {
      TopHolderIsFirst(p, chain[1..], path);
      match TopHolder(p, chain[1..], path)
      case None =>
        forall i | 0 <= i < |chain| ensures !Holds(p, Key(chain[i], path)) {
          if i > 0 { assert chain[i] == chain[1..][i - 1]; }
        }
      case Some(a) =>
        var i :| 0 <= i < |chain[1..]| && chain[1..][i] == a && Holds(p, Key(a, path))
          && forall j :: 0 <= j < i ==> !Holds(p, Key(chain[1..][j], path));
        forall j | 0 <= j < i + 1 ensures !Holds(p, Key(chain[j], path)) {
          if j > 0 { assert chain[j] == chain[1..][j - 1]; }
        }
        assert chain[i + 1] == a;
    }
  }

  /** The layer whose version of path a stack shows: its highest holder, unless that is a tombstone. */
  function Shown(p: Plan, chain: seq<LayerId>, path: Path): Option<LayerId> {
    match TopHolder(p, chain, path)
    case Some(a) => if Holds(p, Key(a, path)) && !FileOf(p, Key(a, path)).deleted then Some(a) else None
    case None => None
  }

  /** A visible file and the layer its version comes from. */
  datatype Sighting = Sighting(layer: LayerId, file: FileSource)

  /** seen and visible record what a chain shows. */
  ghost predicate Built(p: Plan, chain: seq<LayerId>, seen: set<Path>, visible: map<Path, Sighting>) {
    && (forall f :: f in seen <==> TopHolder(p, chain, f).Some?)
    && (forall f :: f in visible <==> Shown(p, chain, f).Some?)
    && (forall f :: f in visible ==> Shows(p, chain, f, visible[f]))
  }

  predicate Shows(p: Plan, chain: seq<LayerId>, f: Path, s: Sighting) {
    Shown(p, chain, f) == Some(s.layer) && Holds(p, Key(s.layer, f)) && s.file == FileOf(p, Key(s.layer, f))
  }

  /** The files of a view and the layers they come from, read off the chain top-down. */
  method BuildView(p: Plan, id: LayerId) returns (visible: map<Path, Sighting>)
    requires id in p.layers
    ensures forall f :: f in visible <==> Shown(p, Chain(p, id), f).Some?
    ensures forall f :: f in visible ==> Shows(p, Chain(p, id), f, visible[f])
  {
    var chain := ComputeAncestors(p, id);
    chain := [id] + chain;
    visible := map[];
    var seen: set<Path> := {};
    var i := 0;
    while i < |chain|
      invariant 0 <= i <= |chain|
      invariant Built(p, chain[..i], seen, visible)
    {
      assert chain[..i + 1] == chain[..i] + [chain[i]];
      var seen1, visible1 := AddLayer(FilesAt(p, chain[i]), chain[i], seen, visible);
      BuiltNext(p, chain[i], seen, visible, visible1, chain[..i]);
      seen, visible := seen1, visible1;
      i := i + 1;
    }
    assert chain[..|chain|] == Chain(p, id);
  }

  /** A path the walk meets here first, with a file rather than a tombstone. */
  predicate Adds(files: map<Path, FileSource>, seen: set<Path>, f: Path) {
    f in files && f !in seen && !files[f].deleted
  }

  /** visible is visible0 with the layer's files at the paths outside todo not seen above. */
  ghost predicate Added(files: map<Path, FileSource>, layer: LayerId, seen: set<Path>, todo: set<Path>,
                        visible0: map<Path, Sighting>, visible: map<Path, Sighting>) {
    forall q ::
      if q !in todo && Adds(files, seen, q) then q in visible && visible[q] == Sighting(layer, files[q])
      else (q in visible <==> q in visible0) && (q in visible ==> visible[q] == visible0[q])
  }

  method AddLayer(files: map<Path, FileSource>, layer: LayerId, seen0: set<Path>, visible0: map<Path, Sighting>)
    returns (seen: set<Path>, visible: map<Path, Sighting>)
    ensures seen == seen0 + files.Keys
    ensures Added(files, layer, seen0, {}, visible0, visible)
  {
    seen, visible := seen0, visible0;
    var todo := files.Keys;
    while todo != {}
      invariant todo <= files.Keys && seen == seen0 + (files.Keys - todo)
      invariant Added(files, layer, seen0, todo, visible0, visible)
      decreases todo
    {
      var f :| f in todo;
      if f !in seen {
        seen := seen + {f};
        if !files[f].deleted { visible := visible[f := Sighting(layer, files[f])]; }
      }
      todo := todo - {f};
    }
  }

  function FilesAt(p: Plan, layer: LayerId): map<Path, FileSource> {
    if layer in p.layers then p.layers[layer].files else map[]
  }

  /** One more layer below a built chain adds its files at unseen paths. */
  lemma BuiltNext(p: Plan, layer: LayerId, seen: set<Path>, visible0: map<Path, Sighting>,
                  visible: map<Path, Sighting>, chain: seq<LayerId>)
    requires Built(p, chain, seen, visible0)
    requires Added(FilesAt(p, layer), layer, seen, {}, visible0, visible)
    ensures Built(p, chain + [layer], seen + FilesAt(p, layer).Keys, visible)
  {
    var files := FilesAt(p, layer);
    forall f
      ensures f in seen + files.Keys <==> TopHolder(p, chain + [layer], f).Some?
      ensures f in visible <==> Shown(p, chain + [layer], f).Some?
      ensures f in visible ==> Shows(p, chain + [layer], f, visible[f])
    {
      TopHolderAppend(p, chain, layer, f);
      assert f in files <==> Holds(p, Key(layer, f));
      assert !Adds(files, seen, f) ==> (f in visible <==> f in visible0);
    }
  }

  lemma {:induction false} TopHolderAppend(p: Plan, chain: seq<LayerId>, a: LayerId, path: Path)
    ensures TopHolder(p, chain + [a], path) ==
              if TopHolder(p, chain, path).Some? then TopHolder(p, chain, path)
              else if Holds(p, Key(a, path)) then Some(a) else None
  {
    if chain != [] {
      assert (chain + [a])[1..] == chain[1..] + [a];
      TopHolderAppend(p, chain[1..], a, path);
    } else {
      assert chain + [a] == [a];
    }
  }

  // ----- the fast form: a flat filter on layer and hiddenBy

  predicate FileVisible(view: seq<LayerId>, layer: LayerId, deleted: bool, hidden: set<LayerId>) {
    !deleted && layer in view && forall h :: h in hidden ==> h !in view
  }

  /** Below a grounded layer the walk does not depend on what was seen above it. */
  lemma {:induction false} WalkForgets(p: Plan, cur: LayerId, seen: set<LayerId>, fewer: set<LayerId>)
    requires Grounded(p, cur, seen) && fewer <= seen
    ensures Walk(p, cur, fewer) == Walk(p, cur, seen)
    decreases p.layers.Keys - seen
  {
    if cur != "" { WalkForgets(p, Parent(p, cur), seen + {cur}, fewer + {cur}); }
  }

  /** In a grounded walk, what lies below a layer of it is the rest of the walk. */
  lemma {:induction false} WalkSuffix(p: Plan, cur: LayerId, seen: set<LayerId>, i: nat)
    requires Grounded(p, cur, seen) && i < |Walk(p, cur, seen)|
    ensures var w := Walk(p, cur, seen); Ancestors(p, w[i]) == w[i + 1..] && w[i] !in seen
    decreases p.layers.Keys - seen
  {
    WalkForgets(p, Parent(p, cur), seen + {cur}, {cur});
    if i > 0 { WalkSuffix(p, Parent(p, cur), seen + {cur}, i - 1); }
  }

  /** Position j of a chain is below position i exactly when it comes later. */
  lemma ChainOrder(p: Plan, id: LayerId, i: nat, j: nat)
    requires HasView(p, id) && i < |Chain(p, id)| && j < |Chain(p, id)|
    ensures Chain(p, id)[i] in p.layers
    ensures Chain(p, id)[j] in Ancestors(p, Chain(p, id)[i]) <==> i < j
    ensures Chain(p, id)[i] == Chain(p, id)[j] <==> i == j
  {
    var c := Chain(p, id);
    WalkFromSelf(p, id);
    WalkSuffix(p, id, {}, i);
    WalkSuffix(p, id, {}, j);
    WalkInPlan(p, id, {});
    if i < j { assert c[j] == c[i + 1..][j - i - 1]; WalkAvoids(p, Parent(p, c[i]), {c[i]}); }
    if j < i { assert c[i] == c[j + 1..][i - j - 1]; WalkAvoids(p, Parent(p, c[j]), {c[j]}); }
    if c[j] in Ancestors(p, c[i]) {
      var m :| 0 <= m < |c[i + 1..]| && c[i + 1..][m] == c[j];
      var k := i + 1 + m;
      assert c[k] == c[j];
      WalkSuffix(p, id, {}, k);
      if k != j { assert |c[k + 1..]| != |c[j + 1..]|; }
    }
    WalkAvoids(p, Parent(p, c[i]), {c[i]});
  }

  lemma {:induction false} WalkInPlan(p: Plan, cur: LayerId, seen: set<LayerId>)
    ensures forall c :: c in Walk(p, cur, seen) ==> c in p.layers && c != ""
    decreases p.layers.Keys - seen
  {
    if !(cur == "" || cur in seen || cur !in p.layers) { WalkInPlan(p, Parent(p, cur), seen + {cur}); }
  }

  lemma {:induction false} WalkAvoids(p: Plan, cur: LayerId, seen: set<LayerId>)
    ensures forall c :: c in Walk(p, cur, seen) ==> c !in seen
    decreases p.layers.Keys - seen
  {
    if !(cur == "" || cur in seen || cur !in p.layers) { WalkAvoids(p, Parent(p, cur), seen + {cur}); }
  }

  /**
   * The flat filter refines the stack: under the hiddenBy lists of the plan, a
   * file is visible in a layer's view exactly when it is the one the chain shows.
   */
  lemma FastVisibility(p: Plan, id: LayerId, k: Key)
    requires HasView(p, id) && Holds(p, k)
    ensures FileVisible(Reverse(Chain(p, id)), k.layer, FileOf(p, k).deleted, HiddenBy(p, k))
            <==> Shown(p, Chain(p, id), k.path) == Some(k.layer)
  {
    var c := Chain(p, id);
    ReverseMembers(c);
    TopHolderIsFirst(p, c, k.path);
    assert k == Key(k.layer, k.path);
    if k.layer in c {
      var i :| 0 <= i < |c| && c[i] == k.layer;
      HiddenFromAbove(p, id, k, i);
      var top := TopHolder(p, c, k.path).value;
      var t :| 0 <= t < |c| && c[t] == top && Holds(p, Key(top, k.path))
        && forall j :: 0 <= j < t ==> !Holds(p, Key(c[j], k.path));
      ChainOrder(p, id, t, i);
    }
  }

  /** In a chain, the layers that hide a file are the holders above it. */
  lemma HiddenFromAbove(p: Plan, id: LayerId, k: Key, i: nat)
    requires HasView(p, id) && i < |Chain(p, id)| && Chain(p, id)[i] == k.layer
    ensures var c := Chain(p, id);
            forall j :: 0 <= j < |c| ==> (c[j] in HiddenBy(p, k) <==> j < i && Holds(p, Key(c[j], k.path)))
  {
    var c := Chain(p, id);
    forall j | 0 <= j < |c| ensures c[j] in HiddenBy(p, k) <==> j < i && Holds(p, Key(c[j], k.path)) {
      ChainOrder(p, id, j, i);
    }
  }

  lemma {:induction false} ReverseMembers<T>(s: seq<T>)
    ensures forall x :: x in Reverse(s) <==> x in s
  {
    if s != [] { ReverseMembers(s[1..]); }
  }

  /** A view shows at most one file of a path, and it is the one BuildView picks. */
  lemma OneFilePerPath(p: Plan, id: LayerId, a: LayerId, b: LayerId, path: Path)
    requires HasView(p, id) && Holds(p, Key(a, path)) && Holds(p, Key(b, path))
    requires FileVisible(Reverse(Chain(p, id)), a, FileOf(p, Key(a, path)).deleted, HiddenBy(p, Key(a, path)))
    requires FileVisible(Reverse(Chain(p, id)), b, FileOf(p, Key(b, path)).deleted, HiddenBy(p, Key(b, path)))
    ensures a == b
  {
    FastVisibility(p, id, Key(a, path));
    FastVisibility(p, id, Key(b, path));
  }
}
