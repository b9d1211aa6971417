/**
 * The writes of a batch and what they leave (write in codeindex/service.go,
 * FileApplier.Apply in codeindex/apply.go): the batch of two plans as four
 * lists of writes, the state of one file after any prefix of them, and the
 * exact condition under which a batch ends on its target.
 */
module Batches {
  import opened Wrappers
  import opened Plans
  import opened Graphs

  /** A batch's writes: layer nodes, hiddenBy updates, files, dropped layers. */
  datatype Batch = Batch(puts: seq<Write>, hides: seq<Write>, files: seq<Write>, drops: seq<Write>)

  function All(b: Batch): seq<Write> {
    b.puts + b.hides + b.files + b.drops
  }

  // ----- what a batch must contain

  /** id sits below layer l through Parent, in either plan. */
  predicate BelowEither(prev: Plan, next: Plan, id: LayerId, l: LayerId) {
    id in Ancestors(next, l) || id in Ancestors(prev, l)
  }

  /** l is in both plans with other layers below it. */
  predicate ChainMoved(prev: Plan, next: Plan, l: LayerId) {
    l in next.layers && l in prev.layers && Ancestors(next, l) != Ancestors(prev, l)
  }

  /** A layer whose change at a path can change the hiddenBy lists below it. */
  predicate Touches(prev: Plan, next: Plan, l: LayerId, path: Path) {
    || IsChanged(prev, next, Key(l, path))
    || (ChainMoved(prev, next, l) && (Holds(next, Key(l, path)) || Holds(prev, Key(l, path))))
  }

  /** A layer the batch touches at k's path sits above k's layer, before or after. */
  ghost predicate Affected(prev: Plan, next: Plan, k: Key) {
    exists l :: l in next.layers && Touches(prev, next, l, k.path) && BelowEither(prev, next, k.layer, l)
  }

  /** The files that stay in place and get a new hiddenBy list. */
  ghost predicate Pending(prev: Plan, next: Plan, k: Key) {
    Affected(prev, next, k) && !IsChanged(prev, next, k) && Holds(next, k) && Holds(prev, k)
  }

  ghost predicate IsPutList(prev: Plan, next: Plan, ws: seq<Write>) {
    && (forall w :: w in ws ==> w.PutLayer? && InDelta(prev, next, w.node.id) && w.node == next.layers[w.node.id].layer)
    && (forall id :: id in next.layers && InDelta(prev, next, id) ==> PutLayer(next.layers[id].layer) in ws)
    // lower layers first
    && (forall i, j :: 0 <= i < j < |ws| ==> Rank(PutNode(ws[i]).kind) <= Rank(PutNode(ws[j]).kind))
  }

  function PutNode(w: Write): Layer {
    if w.PutLayer? then w.node else Layer("", BaseKind, "", "", "", "")
  }

  ghost predicate IsHideList(prev: Plan, next: Plan, ws: seq<Write>) {
    && (forall w :: w in ws ==> w.SetHidden? && Pending(prev, next, w.key) && w.hidden == HiddenBy(next, w.key))
    && (forall k :: Pending(prev, next, k) ==> SetHidden(k, HiddenBy(next, k)) in ws)
  }

  /** The write that brings a changed path to next. */
  function FileWrite(next: Plan, k: Key): Write {
    if Holds(next, k) then ApplyFile(k, FileOf(next, k), Some(HiddenBy(next, k))) else RemoveFile(k)
  }

  function KeyOf(w: Write): Key {
    match w
    case SetHidden(k, _) => k
    case RemoveFile(k) => k
    case ApplyFile(k, _, _) => k
    case _ => Key("", "")
  }

  ghost predicate IsFileList(prev: Plan, next: Plan, ws: seq<Write>) {
    && (forall w :: w in ws ==> IsChanged(prev, next, KeyOf(w)) && w == FileWrite(next, KeyOf(w)))
    && (forall k :: IsChanged(prev, next, k) ==> FileWrite(next, k) in ws)
  }

  ghost predicate IsDropList(prev: Plan, next: Plan, ws: seq<Write>) {
    && (forall w :: w in ws ==> w.DropLayer? && w.layer in prev.layers && w.layer !in next.layers)
    && (forall id :: id in prev.layers && id !in next.layers ==> DropLayer(id) in ws)
    // higher layers first
    && (forall i, j :: 0 <= i < j < |ws| ==> KindAt(prev, ws[i]) >= KindAt(prev, ws[j]))
  }

  function KindAt(p: Plan, w: Write): nat {
    if w.DropLayer? && w.layer in p.layers then Rank(p.layers[w.layer].layer.kind) else 0
  }

  ghost predicate IsBatch(prev: Plan, next: Plan, b: Batch) {
    && IsPutList(prev, next, b.puts)
    && IsHideList(prev, next, b.hides)
    && IsFileList(prev, next, b.files)
    && IsDropList(prev, next, b.drops)
  }

  // ----- one list at a time

  function PutIds(ws: seq<Write>): set<LayerId> {
    set w | w in ws && w.PutLayer? :: w.node.id
  }

  /** Putting layer nodes replaces those nodes, adds empty layers and leaves every file alone. */
  lemma {:induction false} AfterPuts(g: GraphState, next: Plan, ws: seq<Write>)
    requires ValidPlan(next)
    requires forall w :: w in ws ==> w.PutLayer? && w.node.id in next.layers && w.node == next.layers[w.node.id].layer
    ensures var h := Run(g, ws);
            && h.Keys == g.Keys + PutIds(ws)
            && (forall id :: id in h ==> h[id].node == if id in PutIds(ws) then next.layers[id].layer else g[id].node)
            && (forall id :: id in h ==> h[id].files == if id in g then g[id].files else map[])
  {
    if ws == [] {
    } else {
      var pre, w := ws[..|ws| - 1], ws[|ws| - 1];
      AfterPuts(g, next, pre);
      assert ws == pre + [w];
      assert PutIds(ws) == PutIds(pre) + {w.node.id};
      assert Refuses(Run(g, pre), w).None?;
    }
  }

  /** Hiding replaces the hiddenBy of the listed keys and nothing else. */
  lemma {:induction false} AfterHides(g: GraphState, next: Plan, ws: seq<Write>)
    requires forall w :: w in ws ==> w.SetHidden? && Has(g, w.key) && w.hidden == HiddenBy(next, w.key)
    ensures var h := Run(g, ws);
            && h.Keys == g.Keys
            && (forall id :: id in h ==> h[id].node == g[id].node)
            && (forall k :: Has(h, k) <==> Has(g, k))
            && (forall k :: Has(g, k) ==>
                  At(h, k) == if SetHidden(k, HiddenBy(next, k)) in ws then At(g, k).(hidden := HiddenBy(next, k)) else At(g, k))
  {
    if ws == [] {
    } else {
      var pre, w := ws[..|ws| - 1], ws[|ws| - 1];
      assert ws == pre + [w] && Has(g, w.key);
      AfterHides(g, next, pre);
      var m := Run(g, pre);
      assert w in ws && Has(m, w.key);
      forall k | Has(g, k)
        ensures At(Run(g, ws), k) ==
                if SetHidden(k, HiddenBy(next, k)) in ws then At(g, k).(hidden := HiddenBy(next, k)) else At(g, k)
      {
        if k == w.key {
          assert SetHidden(k, HiddenBy(next, k)) == w;
        } else {
          assert k.layer != w.key.layer || k.path != w.key.path;
          assert SetHidden(k, HiddenBy(next, k)) != w;
        }
      }
    }
  }

  /** File writes bring the listed keys to next and leave the others alone. */
  lemma {:induction false} AfterFiles(g: GraphState, next: Plan, ws: seq<Write>)
    requires forall w :: w in ws ==> w == FileWrite(next, KeyOf(w)) && KeyOf(w).layer in g
    ensures var h := Run(g, ws);
            && h.Keys == g.Keys
            && (forall id :: id in h ==> h[id].node == g[id].node)
            && (forall k :: Has(h, k) <==> if FileWrite(next, k) in ws then Holds(next, k) else Has(g, k))
            && (forall k :: Has(h, k) ==>
                  At(h, k) == if FileWrite(next, k) in ws then Stored(FileOf(next, k), HiddenBy(next, k)) else At(g, k))
  {
    if ws == [] {
    } else {
      var pre, w := ws[..|ws| - 1], ws[|ws| - 1];
      AfterFiles(g, next, pre);
      assert ws == pre + [w];
      var m := Run(g, pre);
      forall k ensures FileWrite(next, k) == w <==> k == KeyOf(w) {
        assert KeyOf(FileWrite(next, k)) == k;
      }
      FileStep(m, next, KeyOf(w));
    }
  }

  lemma FileStep(g: GraphState, next: Plan, at: Key)
    requires at.layer in g
    ensures var h := Step(g, FileWrite(next, at));
            && h.Keys == g.Keys
            && (forall id :: id in h ==> h[id].node == g[id].node)
            && (forall k :: k != at ==> (Has(h, k) <==> Has(g, k)))
            && (Has(h, at) <==> Holds(next, at))
            && (forall k :: k != at && Has(g, k) ==> At(h, k) == At(g, k))
            && (Holds(next, at) ==> At(h, at) == Stored(FileOf(next, at), HiddenBy(next, at)))
  {
    forall k: Key | k != at ensures k.layer != at.layer || k.path != at.path { }
  }

  function DropIds(ws: seq<Write>): set<LayerId> {
    set w | w in ws && w.DropLayer? :: w.layer
  }

  /** Dropping removes the layers and their ids from every hiddenBy list. */
  lemma {:induction false} AfterDrops(g: GraphState, ws: seq<Write>)
    requires forall w :: w in ws ==> w.DropLayer?
    ensures var h := Run(g, ws);
            && h.Keys == g.Keys - DropIds(ws)
            && (forall id :: id in h ==> h[id].node == g[id].node)
            && (forall k :: Has(h, k) <==> Has(g, k) && k.layer !in DropIds(ws))
            && (forall k :: Has(h, k) ==> At(h, k) == At(g, k).(hidden := At(g, k).hidden - DropIds(ws)))
  {
    if ws == [] {
    } else {
      var pre, w := ws[..|ws| - 1], ws[|ws| - 1];
      AfterDrops(g, pre);
      assert ws == pre + [w];
      assert DropIds(ws) == DropIds(pre) + {w.layer};
      var m, h := Run(g, pre), Run(g, ws);
      assert h.Keys == m.Keys - {w.layer};
      forall k | Has(h, k) ensures At(h, k) == At(g, k).(hidden := At(g, k).hidden - DropIds(ws)) {
        assert At(h, k) == Unhide(At(m, k), w.layer);
        assert At(g, k).hidden - DropIds(pre) - {w.layer} == At(g, k).hidden - DropIds(ws);
      }
    }
  }
}
