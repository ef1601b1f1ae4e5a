// The bookkeeping of the World's three kinds of intrusive lists, as values: for
// each kind a table of the links and counters the World keeps (links, heads,
// ends, counts), a ghost picture of the lists themselves, the predicate tying the
// two together, and the table each list operation of World.cs produces.
//
// Readings of the source taken throughout:
//  - the per-layer Lists (_renderFirst, _renderLast, _layerCount) are tables keyed
//    by layer, and a missing entry reads as null or 0;
//  - a Dictionary read of a missing key reads as "no entry", and a head set to
//    null is no entry at all (so the key that removeType leaves behind once a type
//    empties behaves as an absent key);
//  - a List written at index Count appends.
module Lists {
  import opened Common
  import opened Chains
  import opened Entities
  import PX

  /** How many entities of class `c` the list `s` holds. */
  function ClassTally(ents: map<EntId, Entity>, s: seq<EntId>, c: string): (n: nat)
    ensures n <= |s|
  {
    if s == [] then 0
    else (if s[0] in ents && ents[s[0]].cls == c then 1 else 0) + ClassTally(ents, s[1..], c)
  }

  /** Taking one element out of a list lowers the tally of its class by one. */
  lemma {:induction false} TallyCut(ents: map<EntId, Entity>, s: seq<EntId>, i: nat, c: string)
    requires i < |s|
    ensures ClassTally(ents, s, c) ==
            ClassTally(ents, Cut(s, i), c) + (if s[i] in ents && ents[s[i]].cls == c then 1 else 0)
  {
    if i == 0 {
      assert Cut(s, 0) == s[1..];
    } else {
      TallyCut(ents, s[1..], i - 1, c);
      assert Cut(s, i) == [s[0]] + Cut(s[1..], i - 1);
      assert Cut(s, i)[1..] == Cut(s[1..], i - 1);
    }
  }

  /** The tally depends only on the classes of the listed entities. */
  lemma {:induction false} TallyFrame(a: map<EntId, Entity>, b: map<EntId, Entity>, s: seq<EntId>, c: string)
    requires forall k :: 0 <= k < |s| ==> s[k] in a && s[k] in b && a[s[k]].cls == b[s[k]].cls
    ensures ClassTally(a, s, c) == ClassTally(b, s, c)
  {
    if s != [] {
      TallyFrame(a, b, s[1..], c);
    }
  }

  /** Counting a class per push keeps the class table equal to the tally. */
  lemma TallyPush(cc: map<string, nat>, ents: map<EntId, Entity>, s: seq<EntId>, e: EntId)
    requires e in ents && Tallied(cc, ents, s)
    ensures Tallied(cc[ents[e].cls := Count(cc, ents[e].cls) + 1], ents, [e] + s)
  {
    assert ([e] + s)[1..] == s;
    forall c ensures Count(cc[ents[e].cls := Count(cc, ents[e].cls) + 1], c) == ClassTally(ents, [e] + s, c) {
      assert Count(cc, c) == ClassTally(ents, s, c);
    }
  }

  /** Uncounting a class per removal keeps the class table equal to the tally, and the
      count being lowered is never already zero. */
  lemma TallyDrop(cc: map<string, nat>, ents: map<EntId, Entity>, s: seq<EntId>, i: nat)
    requires i < |s| && s[i] in ents && Tallied(cc, ents, s)
    ensures Count(cc, ents[s[i]].cls) >= 1
    ensures Tallied(cc[ents[s[i]].cls := Count(cc, ents[s[i]].cls) - 1], ents, Cut(s, i))
  {
    var cls := ents[s[i]].cls;
    TallyCut(ents, s, i, cls);
    assert Count(cc, cls) == ClassTally(ents, s, cls);
    forall c ensures Count(cc[cls := Count(cc, cls) - 1], c) == ClassTally(ents, Cut(s, i), c) {
      TallyCut(ents, s, i, c);
      assert Count(cc, c) == ClassTally(ents, s, c);
    }
  }

  /** Every listed handle refers to a held entity. */
  ghost predicate Within(ents: map<EntId, Entity>, s: seq<EntId>)
  {
    forall k :: 0 <= k < |s| ==> s[k] in ents
  }

  /** The class table counts the classes of the listed entities. */
  ghost predicate Tallied(cc: map<string, nat>, ents: map<EntId, Entity>, s: seq<EntId>)
  {
    forall c {:trigger Count(cc, c)} :: Count(cc, c) == ClassTally(ents, s, c)
  }

  /** What the World keeps for its update list: the `_updatePrev`/`_updateNext` links,
      `_updateFirst`, `_count` and `_classCount`. */
  datatype UpdateTable = UpdateTable(lk: LinkMap, first: Option<EntId>, count: nat, classCount: map<string, nat>)

  const NoUpdates: UpdateTable := UpdateTable(map[], None, 0, map[])

  /** The update list `s` is threaded through the links, headed by `first`, of length
      `count`, and `classCount` counts its classes. */
  ghost predicate UpdateOK(ents: map<EntId, Entity>, s: seq<EntId>, u: UpdateTable)
  {
    Linked(u.lk, s) && u.first == Head(s) && u.count == |s| && Within(ents, s) && Tallied(u.classCount, ents, s)
  }

  /** World.addUpdate: `e` becomes the head, and it and its class are counted once more
      (a class not yet in the table starts from zero). */
  function UpdateAdd(u: UpdateTable, e: EntId, cls: string): UpdateTable
  {
    UpdateTable(PushFront(u.lk, e, u.first), Some(e), u.count + 1, u.classCount[cls := Count(u.classCount, cls) + 1])
  }

  /** World.removeUpdate: the head moves on if `e` was the head, `e` is unlinked, and it
      and its class are counted once less. */
  function UpdateRemove(u: UpdateTable, e: EntId, cls: string): UpdateTable
    requires u.count >= 1 && Count(u.classCount, cls) >= 1
  {
    UpdateTable(Unlink(u.lk, e), if u.first == Some(e) then At(u.lk, e).next else u.first,
                u.count - 1, u.classCount[cls := Count(u.classCount, cls) - 1])
  }

  /** addUpdate keeps the table in step with the list, which gains `e` at its head. */
  lemma UpdatePush(ents: map<EntId, Entity>, s: seq<EntId>, u: UpdateTable, e: EntId)
    requires UpdateOK(ents, s, u) && e in ents && e !in s
    ensures UpdateOK(ents, [e] + s, UpdateAdd(u, e, ents[e].cls))
  {
    PushFrontLinked(u.lk, s, e);
    TallyPush(u.classCount, ents, s, e);
    assert Within(ents, [e] + s);
  }

  /** removeUpdate keeps the table in step with the list, which loses `e`; the counts it
      lowers are never already zero. */
  lemma UpdateDrop(ents: map<EntId, Entity>, s: seq<EntId>, u: UpdateTable, e: EntId)
    requires UpdateOK(ents, s, u) && e in s
    ensures e in ents && u.count >= 1 && Count(u.classCount, ents[e].cls) >= 1
    ensures UpdateOK(ents, Cut(s, IndexOf(s, e)), UpdateRemove(u, e, ents[e].cls))
  {
    var i := IndexOf(s, e) as nat;
    TallyDrop(u.classCount, ents, s, i);
    var t, v := Cut(s, i), UpdateRemove(u, e, ents[e].cls);
    assert Linked(v.lk, t) by {
      UnlinkLinked(u.lk, s, i);
    }
    assert v.first == Head(t) by {
      assert At(u.lk, e) == Expected(s, i);
      DistinctIndexOf(s, 0);
    }
    assert Within(ents, t);
  }

  /** Each list of a family is headed by its entry in `first`. */
  ghost predicate Heads<K(!new)>(first: map<K, EntId>, lists: map<K, seq<EntId>>)
  {
    first.Keys == lists.Keys && forall k :: k in lists && lists[k] != [] ==> first[k] == lists[k][0]
  }

  /** Each list of a family is ended by its entry in `last`. */
  ghost predicate Lasts<K(!new)>(last: map<K, EntId>, lists: map<K, seq<EntId>>)
  {
    last.Keys == lists.Keys && forall k :: k in lists && lists[k] != [] ==> last[k] == lists[k][|lists[k]| - 1]
  }

  /** Each list of a family is counted by its entry in `counts` (a missing entry is 0). */
  ghost predicate Counted<K(!new)>(counts: map<K, nat>, lists: map<K, seq<EntId>>)
  {
    forall k {:trigger Count(counts, k)} :: Count(counts, k) == |Chain(lists, k)|
  }

  /** A push makes the pushed entity the head; the old head, if any, was the entry. */
  lemma HeadsPush<K(!new)>(first: map<K, EntId>, lists: map<K, seq<EntId>>, k: K, x: EntId)
    requires Heads(first, lists) && (k in lists ==> lists[k] != [])
    ensures Head(Chain(lists, k)) == if k in first then Some(first[k]) else None
    ensures Heads(first[k := x], Pushed(lists, k, x))
  {
  }

  /** A push leaves the end of a non-empty list alone and ends a new list (`opening`) at `x`. */
  lemma LastsPush<K(!new)>(last: map<K, EntId>, lists: map<K, seq<EntId>>, k: K, x: EntId, opening: bool)
    requires Lasts(last, lists) && (k in lists ==> lists[k] != []) && opening == (k !in lists)
    ensures Lasts(if opening then last[k := x] else last, Pushed(lists, k, x))
  {
    var r := Pushed(lists, k, x);
    if k in lists {
      assert r[k][|r[k]| - 1] == lists[k][|lists[k]| - 1];
    }
  }

  /** A push counts one more entity under its key. */
  lemma CountedPush<K(!new)>(counts: map<K, nat>, lists: map<K, seq<EntId>>, k: K, x: EntId)
    requires Counted(counts, lists)
    ensures Counted(counts[k := Count(counts, k) + 1], Pushed(lists, k, x))
  {
    var c2, r := counts[k := Count(counts, k) + 1], Pushed(lists, k, x);
    forall j ensures Count(c2, j) == |Chain(r, j)| {
      assert Count(counts, j) == |Chain(lists, j)|;
    }
  }

  /** After an unlink the head moves to the successor if `x` was the head; a list left
      empty loses its entry. `p` is the link `x` had. */
  lemma HeadsDrop<K(!new)>(first: map<K, EntId>, lists: map<K, seq<EntId>>, k: K, x: EntId, p: Links)
    requires Heads(first, lists) && k in lists && x in lists[k]
    requires p == Expected(lists[k], IndexOf(lists[k], x) as nat)
    ensures Heads(if p.prev.None? then (if p.next.Some? then first[k := p.next.value] else first - {k}) else first,
                  Dropped(lists, k, x))
  {
    var s := lists[k];
    var i := IndexOf(s, x) as nat;
    if |s| > 1 {
      var t := Cut(s, i);
      assert Dropped(lists, k, x) == lists[k := t];
      if i == 0 {
        assert t[0] == s[1];
      } else {
        assert t[0] == s[0] == first[k];
        assert first[k := first[k]] == first;
      }
    }
  }

  /** After an unlink the end moves to the predecessor if `x` was the end; a list left
      empty loses its entry. */
  lemma LastsDrop<K(!new)>(last: map<K, EntId>, lists: map<K, seq<EntId>>, k: K, x: EntId, p: Links)
    requires Lasts(last, lists) && k in lists && x in lists[k]
    requires p == Expected(lists[k], IndexOf(lists[k], x) as nat)
    ensures Lasts(if p.next.None? then (if p.prev.Some? then last[k := p.prev.value] else last - {k}) else last,
                  Dropped(lists, k, x))
  {
    var s := lists[k];
    var i := IndexOf(s, x) as nat;
    if |s| > 1 {
      var t := Cut(s, i);
      assert Dropped(lists, k, x) == lists[k := t];
      if i == |s| - 1 {
        assert t[|t| - 1] == s[|s| - 2];
      } else {
        assert t[|t| - 1] == s[|s| - 1] == last[k];
        assert last[k := last[k]] == last;
      }
    }
  }

  /** An unlink counts one entity less under its key, which held at least one. */
  lemma CountedDrop<K(!new)>(counts: map<K, nat>, lists: map<K, seq<EntId>>, k: K, x: EntId)
    requires Counted(counts, lists) && k in lists && x in lists[k]
    ensures Count(counts, k) == |lists[k]| >= 1
    ensures Counted(counts[k := Count(counts, k) - 1], Dropped(lists, k, x))
  {
    var s := lists[k];
    assert Count(counts, k) == |s|;
    var c2, r := counts[k := Count(counts, k) - 1], Dropped(lists, k, x);
    forall j ensures Count(c2, j) == |Chain(r, j)| {
      assert Count(counts, j) == |Chain(lists, j)|;
    }
  }

  /** The render lists hold entities of their own layer. */
  ghost predicate LayerKeyed(ents: map<EntId, Entity>, lists: map<int, seq<EntId>>)
  {
    forall l, x :: l in lists && x in lists[l] ==> x in ents && ents[x].layer == l
  }

  /** The layer list names each layer with a render list once, and is sorted unless a
      sort is pending. */
  ghost predicate LayerOrder(layers: seq<int>, lists: map<int, seq<EntId>>, sortPending: bool)
  {
    Distinct(layers) && (forall l :: l in layers <==> l in lists) && (!sortPending ==> PX.Sorted(layers))
  }

  /** What the World keeps for its render lists: the `_renderPrev`/`_renderNext` links,
      `_renderFirst` and `_renderLast` per layer, `_layerList`, `_layerCount` and
      `_layerSort`. */
  datatype RenderTable = RenderTable(lk: LinkMap, first: map<int, EntId>, last: map<int, EntId>,
                                     layers: seq<int>, counts: map<int, nat>, sortPending: bool)

  const NoRender: RenderTable := RenderTable(map[], map[], map[], [], map[], false)

  /** The render lists, one per layer: entities of that layer, headed by `first`, ended
      by `last`, counted by `counts`, with `layers` naming the layers. */
  ghost predicate RenderOK(ents: map<EntId, Entity>, lists: map<int, seq<EntId>>, r: RenderTable)
  {
    Family(r.lk, lists) && LayerKeyed(ents, lists) && Heads(r.first, lists) && Lasts(r.last, lists) &&
    Counted(r.counts, lists) && LayerOrder(r.layers, lists, r.sortPending)
  }

  lemma LayerKeyedPush(ents: map<EntId, Entity>, lists: map<int, seq<EntId>>, x: EntId)
    requires LayerKeyed(ents, lists) && x in ents
    ensures LayerKeyed(ents, Pushed(lists, ents[x].layer, x))
  {
  }

  /** Dropping an entity from a layer-keyed family leaves it layer-keyed. */
  lemma LayerKeyedDrop(ents: map<EntId, Entity>, lists: map<int, seq<EntId>>, l: int, x: EntId)
    requires LayerKeyed(ents, lists) && l in lists && x in lists[l]
    ensures LayerKeyed(ents, Dropped(lists, l, x))
  {
    var r := Dropped(lists, l, x);
    forall k, y | k in r && y in r[k] ensures y in ents && ents[y].layer == k {
      if k == l {
        var s := lists[l];
        var c := Cut(s, IndexOf(s, x));
        assert r[k] == c;
        var j :| 0 <= j < |c| && c[j] == y;
        assert y == s[j] || y == s[j + 1];
      }
    }
  }

  /** Opening a layer (`opening`) appends it to the layer list and makes a sort pending. */
  lemma LayerOrderPush(layers: seq<int>, lists: map<int, seq<EntId>>, sortPending: bool, l: int, x: EntId, opening: bool)
    requires LayerOrder(layers, lists, sortPending) && opening == (l !in lists)
    ensures LayerOrder(if opening then layers + [l] else layers, Pushed(lists, l, x), opening || sortPending)
  {
    if opening {
      assert l !in layers;
    }
  }

  /** Emptying a layer takes it out of the layer list; the moved entry makes a sort
      pending when anything is left to sort. */
  lemma LayerOrderDrop(layers: seq<int>, lists: map<int, seq<EntId>>, sortPending: bool, l: int, x: EntId,
                       emptied: bool)
    requires LayerOrder(layers, lists, sortPending) && l in lists && x in lists[l]
    requires emptied == (|lists[l]| == 1)
    ensures l in layers
    ensures LayerOrder(if emptied then DropLayer(layers, l) else layers, Dropped(lists, l, x),
                       (emptied && |layers| > 1) || sortPending)
  {
    if emptied {
      DropLayerSpec(layers, l);
    }
  }

  /** World.addRender: `e` heads the list of layer `l`. A layer with no list is opened:
      it is ended by `e`, appended to the layer list, and a sort becomes pending. */
  function RenderAdd(r: RenderTable, e: EntId, l: int): RenderTable
  {
    var opening := l !in r.first;
    RenderTable(PushFront(r.lk, e, if opening then None else Some(r.first[l])),
                r.first[l := e],
                if opening then r.last[l := e] else r.last,
                if opening then r.layers + [l] else r.layers,
                r.counts[l := if opening then 1 else Count(r.counts, l) + 1],
                opening || r.sortPending)
  }

  /** World.removeRender: `e` leaves the list of layer `l`, whose ends move past it. A
      layer left empty leaves the layer list (its slot taken by the last entry, which
      makes a sort pending when something is left to sort). */
  function RenderRemove(r: RenderTable, e: EntId, l: int): RenderTable
    requires l in r.layers && Count(r.counts, l) >= 1
  {
    var p := At(r.lk, e);
    var emptied := p.prev.None? && p.next.None?;
    RenderTable(Unlink(r.lk, e),
                if p.prev.None? then (if p.next.Some? then r.first[l := p.next.value] else r.first - {l}) else r.first,
                if p.next.None? then (if p.prev.Some? then r.last[l := p.prev.value] else r.last - {l}) else r.last,
                if emptied then DropLayer(r.layers, l) else r.layers,
                r.counts[l := Count(r.counts, l) - 1],
                (emptied && |r.layers| > 1) || r.sortPending)
  }

  /** addRender keeps the table in step with the lists: `e` heads its layer's list. */
  lemma RenderPush(ents: map<EntId, Entity>, lists: map<int, seq<EntId>>, r: RenderTable, e: EntId)
    requires RenderOK(ents, lists, r) && e in ents && Outside(lists, e)
    ensures RenderOK(ents, Pushed(lists, ents[e].layer, e), RenderAdd(r, e, ents[e].layer))
  {
    var l := ents[e].layer;
    assert l in r.first <==> l in lists;
    assert l in lists ==> lists[l] != [];
    assert Count(r.counts, l) == |Chain(lists, l)|;
    HeadsPush(r.first, lists, l, e);
    LastsPush(r.last, lists, l, e, l !in r.first);
    CountedPush(r.counts, lists, l, e);
    LayerKeyedPush(ents, lists, e);
    LayerOrderPush(r.layers, lists, r.sortPending, l, e, l !in r.first);
    LayersDisjoint(ents, lists);
    FamilyPush(r.lk, lists, l, e);
  }

  /** removeRender keeps the table in step with the lists: `e` leaves its layer's list,
      and the count it lowers is never already zero. */
  lemma RenderDrop(ents: map<EntId, Entity>, lists: map<int, seq<EntId>>, r: RenderTable, e: EntId)
    requires RenderOK(ents, lists, r) && e in ents && ents[e].layer in lists && e in lists[ents[e].layer]
    ensures ents[e].layer in r.layers && Count(r.counts, ents[e].layer) >= 1
    ensures RenderOK(ents, Dropped(lists, ents[e].layer, e), RenderRemove(r, e, ents[e].layer))
  {
    var l := ents[e].layer;
    var s := lists[l];
    var i := IndexOf(s, e) as nat;
    assert At(r.lk, e) == Expected(s, i) by {
      assert Linked(r.lk, s);
    }
    RenderDropEnds(lists, r, l, e);
    LayerKeyedDrop(ents, lists, l, e);
    LayersDisjoint(ents, lists);
    FamilyDrop(r.lk, lists, l, e);
  }

  /** The ends, counts and layer list after removeRender. */
  lemma RenderDropEnds(lists: map<int, seq<EntId>>, r: RenderTable, l: int, e: EntId)
    requires Heads(r.first, lists) && Lasts(r.last, lists) && Counted(r.counts, lists)
    requires LayerOrder(r.layers, lists, r.sortPending)
    requires l in lists && e in lists[l] && At(r.lk, e) == Expected(lists[l], IndexOf(lists[l], e) as nat)
    ensures l in r.layers && Count(r.counts, l) >= 1
    ensures var d, r2 := Dropped(lists, l, e), RenderRemove(r, e, l);
            Heads(r2.first, d) && Lasts(r2.last, d) && Counted(r2.counts, d) &&
            LayerOrder(r2.layers, d, r2.sortPending)
  {
    var p := At(r.lk, e);
    assert (p.prev.None? && p.next.None?) == (|lists[l]| == 1);
    CountedDrop(r.counts, lists, l, e);
    LayerOrderDrop(r.layers, lists, r.sortPending, l, e, p.prev.None? && p.next.None?);
    HeadsDrop(r.first, lists, l, e, p);
    LastsDrop(r.last, lists, l, e, p);
  }

  /** The type lists hold entities of their own type. */
  ghost predicate TypeKeyed(ents: map<EntId, Entity>, lists: map<string, seq<EntId>>)
  {
    forall t, x :: t in lists && x in lists[t] ==> x in ents && ents[x].typ == Some(t)
  }

  /** What the World keeps for its type lists: the `_typePrev`/`_typeNext` links,
      `_typeFirst` and `_typeCount`. */
  datatype TypeTable = TypeTable(lk: LinkMap, first: map<string, EntId>, counts: map<string, nat>)

  const NoTypes: TypeTable := TypeTable(map[], map[], map[])

  /** The type lists, one per type: entities of that type, headed by `first` and counted
      by `counts`. */
  ghost predicate TypeOK(ents: map<EntId, Entity>, lists: map<string, seq<EntId>>, t: TypeTable)
  {
    Family(t.lk, lists) && TypeKeyed(ents, lists) && Heads(t.first, lists) && Counted(t.counts, lists)
  }

  lemma TypeKeyedPush(ents: map<EntId, Entity>, lists: map<string, seq<EntId>>, x: EntId)
    requires TypeKeyed(ents, lists) && x in ents && ents[x].typ.Some?
    ensures TypeKeyed(ents, Pushed(lists, ents[x].typ.value, x))
  {
  }

  /** Dropping an entity from a type-keyed family leaves it type-keyed. */
  lemma TypeKeyedDrop(ents: map<EntId, Entity>, lists: map<string, seq<EntId>>, t: string, x: EntId)
    requires TypeKeyed(ents, lists) && t in lists && x in lists[t]
    ensures TypeKeyed(ents, Dropped(lists, t, x))
  {
    var r := Dropped(lists, t, x);
    forall k, y | k in r && y in r[k] ensures y in ents && ents[y].typ == Some(k) {
      if k == t {
        var s := lists[t];
        var c := Cut(s, IndexOf(s, x));
        assert r[k] == c;
        var j :| 0 <= j < |c| && c[j] == y;
        assert y == s[j] || y == s[j + 1];
      }
    }
  }

  /** World.addType: `e` heads the list of type `ty`; a type with a head counts one
      more, a new type starts at one. */
  function TypeAdd(t: TypeTable, e: EntId, ty: string): TypeTable
  {
    var present := ty in t.first;
    TypeTable(PushFront(t.lk, e, if present then Some(t.first[ty]) else None),
              t.first[ty := e],
              t.counts[ty := if present then Count(t.counts, ty) + 1 else 1])
  }

  /** World.removeType: the head moves on if `e` was the head (a type left empty has no
      head entry), `e` is unlinked and the type counts one less. */
  function TypeRemove(t: TypeTable, e: EntId, ty: string): TypeTable
    requires ty in t.first && Count(t.counts, ty) >= 1
  {
    var p := At(t.lk, e);
    TypeTable(Unlink(t.lk, e),
              if t.first[ty] == e then (if p.next.Some? then t.first[ty := p.next.value] else t.first - {ty}) else t.first,
              t.counts[ty := Count(t.counts, ty) - 1])
  }

  /** addType keeps the table in step with the lists: `e` heads its type's list. */
  lemma TypePush(ents: map<EntId, Entity>, lists: map<string, seq<EntId>>, t: TypeTable, e: EntId)
    requires TypeOK(ents, lists, t) && e in ents && ents[e].typ.Some? && Outside(lists, e)
    ensures TypeOK(ents, Pushed(lists, ents[e].typ.value, e), TypeAdd(t, e, ents[e].typ.value))
  {
    var ty := ents[e].typ.value;
    assert ty in t.first <==> ty in lists;
    assert ty in lists ==> lists[ty] != [];
    assert Count(t.counts, ty) == |Chain(lists, ty)|;
    HeadsPush(t.first, lists, ty, e);
    CountedPush(t.counts, lists, ty, e);
    TypeKeyedPush(ents, lists, e);
    TypesDisjoint(ents, lists);
    FamilyPush(t.lk, lists, ty, e);
  }

  /** removeType keeps the table in step with the lists: `e` leaves its type's list, and
      the count it lowers is never already zero. */
  lemma TypeDrop(ents: map<EntId, Entity>, lists: map<string, seq<EntId>>, t: TypeTable, e: EntId)
    requires TypeOK(ents, lists, t) && e in ents && ents[e].typ.Some?
    requires ents[e].typ.value in lists && e in lists[ents[e].typ.value]
    ensures ents[e].typ.value in t.first && Count(t.counts, ents[e].typ.value) >= 1
    ensures TypeOK(ents, Dropped(lists, ents[e].typ.value, e), TypeRemove(t, e, ents[e].typ.value))
  {
    var ty, p := ents[e].typ.value, At(t.lk, e);
    var s := lists[ty];
    var i := IndexOf(s, e) as nat;
    assert p == Expected(s, i) by {
      assert Linked(t.lk, s);
    }
    assert t.first[ty] == s[0];
    assert (t.first[ty] == e) == p.prev.None? by {
      DistinctIndexOf(s, 0);
    }
    HeadsDrop(t.first, lists, ty, e, p);
    CountedDrop(t.counts, lists, ty, e);
    TypeKeyedDrop(ents, lists, ty, e);
    TypesDisjoint(ents, lists);
    FamilyDrop(t.lk, lists, ty, e);
  }

  /** Lists keyed by each entity's layer cannot share an entity. */
  lemma LayersDisjoint(ents: map<EntId, Entity>, lists: map<int, seq<EntId>>)
    requires LayerKeyed(ents, lists)
    ensures Disjoint(lists)
  {
    forall k1, k2, x | k1 in lists && k2 in lists && x in lists[k1] && x in lists[k2] ensures k1 == k2 {
      assert ents[x].layer == k1 && ents[x].layer == k2;
    }
  }

  /** Lists keyed by each entity's type cannot share an entity. */
  lemma TypesDisjoint(ents: map<EntId, Entity>, lists: map<string, seq<EntId>>)
    requires TypeKeyed(ents, lists)
    ensures Disjoint(lists)
  {
    forall k1, k2, x | k1 in lists && k2 in lists && x in lists[k1] && x in lists[k2] ensures k1 == k2 {
      assert ents[x].typ == Some(k1) && ents[x].typ == Some(k2);
    }
  }

  /** The per-entity balance between the two queues: `a` pending adds, `r` pending
      removes. An entity is in exactly one of four states. */
  predicate BalanceOf(e: Entity, a: nat, r: nat, id: nat)
  {
    if e.world == Some(id) then (if e.added then r == a else a == r + 1)
    else (if e.added then r == a + 1 else a == r)
  }

  ghost predicate Balanced(ents: map<EntId, Entity>, aq: seq<EntId>, rq: seq<EntId>, id: nat)
  {
    forall x :: x in ents ==> BalanceOf(ents[x], multiset(aq)[x], multiset(rq)[x], id)
  }

  /** The layer list after a layer empties: the last entry takes the emptied layer's
      slot and the list shrinks by one. */
  function DropLayer(layers: seq<int>, l: int): (r: seq<int>)
    requires l in layers
    ensures |r| == |layers| - 1
  {
    if |layers| > 1 then layers[IndexOf(layers, l) := layers[|layers| - 1]][..|layers| - 1]
    else layers[..|layers| - 1]
  }

  lemma DropLayerSpec(layers: seq<int>, l: int)
    requires l in layers && Distinct(layers)
    ensures Distinct(DropLayer(layers, l))
    ensures forall y :: y in DropLayer(layers, l) <==> y in layers && y != l
  {
    var r, n, i := DropLayer(layers, l), |layers|, IndexOf(layers, l);
    if n > 1 {
      var w := layers[i := layers[n - 1]];
      assert r == w[..n - 1];
      forall p, q | 0 <= p < q < |r| ensures r[p] != r[q] {
        if p == i { assert r[p] == layers[n - 1] && r[q] == layers[q]; }
        else if q == i { assert r[p] == layers[p] && r[q] == layers[n - 1]; }
        else { assert r[p] == layers[p] && r[q] == layers[q]; }
      }
      forall y ensures y in r <==> y in layers && y != l {
        if y in layers && y != l {
          var k :| 0 <= k < n && layers[k] == y;
          if k == n - 1 { if i < n - 1 { assert r[i] == y; } }
          else { assert k != i; assert r[k] == y; }
        }
        if y in r {
          var k :| 0 <= k < |r| && r[k] == y;
          if k == i { assert y == layers[n - 1]; assert i != n - 1; } else { assert y == layers[k]; }
        }
      }
    }
  }

  /** A sort keeps the entries and their distinctness. */
  lemma SortKeeps(layers: seq<int>)
    requires Distinct(layers)
    ensures Distinct(PX.SortAscending(layers))
    ensures forall y :: y in PX.SortAscending(layers) <==> y in layers
  {
    var r := PX.SortAscending(layers);
    forall y ensures y in r <==> y in layers {
      assert y in r <==> y in multiset(r);
      assert y in layers <==> y in multiset(layers);
    }
    forall p, q | 0 <= p < q < |r| ensures r[p] != r[q] {
      if r[p] == r[q] {
        DistinctCount(layers, r[p]);
        RepeatCount(r, p, q);
      }
    }
  }

  /** A value occurring at two positions is counted at least twice. */
  lemma RepeatCount<T>(s: seq<T>, p: nat, q: nat)
    requires p < q < |s| && s[p] == s[q]
    ensures multiset(s)[s[p]] >= 2
  {
    assert s == s[..q] + [s[q]] + s[q + 1..];
    assert s[..q][p] == s[p];
    assert multiset(s[..q])[s[p]] >= 1;
  }

  lemma {:induction false} DistinctCount<T>(s: seq<T>, v: T)
    requires Distinct(s)
    ensures multiset(s)[v] <= 1
  {
    if s != [] {
      assert s == [s[0]] + s[1..];
      DistinctCount(s[1..], v);
      if s[0] == v { assert v !in s[1..]; }
    }
  }


  /** The sort updateLists runs when one is pending: the layer list is sorted ascending
      when it has more than one entry, and nothing is pending any more. */
  function RenderSort(r: RenderTable): RenderTable
  {
    if r.sortPending then r.(layers := if |r.layers| > 1 then PX.SortAscending(r.layers) else r.layers, sortPending := false)
    else r
  }

  /** After the sort the layer list is sorted, and still names each layer once. */
  lemma RenderSorted(ents: map<EntId, Entity>, lists: map<int, seq<EntId>>, r: RenderTable)
    requires RenderOK(ents, lists, r)
    ensures RenderOK(ents, lists, RenderSort(r))
    ensures PX.Sorted(RenderSort(r).layers) && !RenderSort(r).sortPending
  {
    if r.sortPending && |r.layers| > 1 {
      SortKeeps(r.layers);
    }
  }

  /** World.bringToFront on the table: `e`, which has a predecessor, is pulled out and
      placed in front of the head of layer `l`; if it was the end, its predecessor
      becomes the end. */
  function ToFront(r: RenderTable, e: EntId, l: int): RenderTable
    requires l in r.first && At(r.lk, e).prev.Some?
  {
    var p := At(r.lk, e);
    r.(lk := LinkBefore(Unlink(r.lk, e), e, r.first[l]),
       first := r.first[l := e],
       last := if p.next.None? then r.last[l := p.prev.value] else r.last)
  }

  /** World.sendToBack on the table: `e`, which has a successor, is pulled out and placed
      behind the end of layer `l`; if it was the head, its successor becomes the head. */
  function ToBack(r: RenderTable, e: EntId, l: int): RenderTable
    requires l in r.last && At(r.lk, e).next.Some?
  {
    var p := At(r.lk, e);
    r.(lk := LinkAfter(Unlink(r.lk, e), e, r.last[l]),
       first := if p.prev.None? then r.first[l := p.next.value] else r.first,
       last := r.last[l := e])
  }

  /** World.bringForward on the table: `e` is pulled out and placed in front of its
      predecessor `a`; `e` becomes the head if `a` was, and `a` the end if `e` was. */
  function Forward(r: RenderTable, e: EntId, l: int): RenderTable
    requires At(r.lk, e).prev.Some?
  {
    var p := At(r.lk, e);
    var a := p.prev.value;
    r.(lk := LinkBefore(Unlink(r.lk, e), e, a),
       first := if At(r.lk, a).prev.None? then r.first[l := e] else r.first,
       last := if p.next.None? then r.last[l := a] else r.last)
  }

  /** World.sendBackward on the table: `e` is pulled out and placed behind its successor
      `b`; `b` becomes the head if `e` was, and `e` the end if `b` was. */
  function Backward(r: RenderTable, e: EntId, l: int): RenderTable
    requires At(r.lk, e).next.Some?
  {
    var p := At(r.lk, e);
    var b := p.next.value;
    r.(lk := LinkAfter(Unlink(r.lk, e), e, b),
       first := if p.prev.None? then r.first[l := b] else r.first,
       last := if At(r.lk, b).next.None? then r.last[l := e] else r.last)
  }

  /** A list of a disjoint family relinked in place leaves the family well formed, as
      long as no entity off that list had its links touched. */
  lemma FamilyReorder<K>(lk: LinkMap, lists: map<K, seq<EntId>>, key: K, t: seq<EntId>, lk2: LinkMap)
    requires Family(lk, lists) && Disjoint(lists) && key in lists
    requires t != [] && Linked(lk2, t)
    requires forall y :: y !in lists[key] ==> At(lk2, y) == At(lk, y)
    ensures Family(lk2, lists[key := t])
  {
    var n := lists[key := t];
    forall k | k in n ensures n[k] != [] && Linked(lk2, n[k]) {
      if k != key {
        forall j | 0 <= j < |n[k]| ensures At(lk2, n[k][j]) == At(lk, n[k][j]) {
          assert n[k][j] in lists[k];
        }
        LinkedFrame(lk, lk2, n[k]);
      }
    }
  }

  /** Replacing a list by one with the same entities and length keeps the family keyed
      by layer and counted. */
  lemma KeyedReorder(ents: map<EntId, Entity>, lists: map<int, seq<EntId>>, counts: map<int, nat>, l: int, t: seq<EntId>)
    requires LayerKeyed(ents, lists) && Counted(counts, lists) && l in lists
    requires |t| == |lists[l]| && forall y :: y in t ==> y in lists[l]
    ensures LayerKeyed(ents, lists[l := t]) && Counted(counts, lists[l := t])
  {
    var n := lists[l := t];
    forall k, x | k in n && x in n[k] ensures x in ents && ents[x].layer == k {
      if k == l { assert x in lists[l]; }
    }
    forall k ensures Count(counts, k) == |Chain(n, k)| {
      assert Count(counts, k) == |Chain(lists, k)|;
    }
  }

  /** A layer's list rearranged in place: same entities, relinked, ends recorded, no
      other entity's links touched. The table stays in step with the lists. */
  lemma RenderReorder(ents: map<EntId, Entity>, lists: map<int, seq<EntId>>, r: RenderTable,
                      l: int, t: seq<EntId>, r2: RenderTable)
    requires RenderOK(ents, lists, r) && l in lists
    requires Rearranged(r, l, lists[l], t, r2)
    ensures RenderOK(ents, lists[l := t], r2)
  {
    LayersDisjoint(ents, lists);
    FamilyReorder(r.lk, lists, l, t, r2.lk);
    KeyedReorder(ents, lists, r.counts, l, t);
    HeadsReorder(r.first, lists, l, t);
    LastsReorder(r.last, lists, l, t);
    assert LayerOrder(r.layers, lists, r.sortPending);
  }

  lemma HeadsReorder<K(!new)>(first: map<K, EntId>, lists: map<K, seq<EntId>>, k: K, t: seq<EntId>)
    requires Heads(first, lists) && k in lists && t != []
    ensures Heads(first[k := t[0]], lists[k := t])
  {
  }

  lemma LastsReorder<K(!new)>(last: map<K, EntId>, lists: map<K, seq<EntId>>, k: K, t: seq<EntId>)
    requires Lasts(last, lists) && k in lists && t != []
    ensures Lasts(last[k := t[|t| - 1]], lists[k := t])
  {
  }

  /** What RenderReorder asks of a move: the layer's list `s` rearranged into `t`, with
      the same entities, relinked, the ends recorded and nothing else touched. */
  ghost predicate Rearranged(r: RenderTable, l: int, s: seq<EntId>, t: seq<EntId>, r2: RenderTable)
  {
    t != [] && Linked(r2.lk, t) && |t| == |s| && (forall y :: y in t ==> y in s) &&
    (forall y :: y !in s ==> At(r2.lk, y) == At(r.lk, y)) &&
    r2.first == r.first[l := t[0]] && r2.last == r.last[l := t[|t| - 1]] &&
    r2.layers == r.layers && r2.counts == r.counts && r2.sortPending == r.sortPending
  }

  /** bringToFront on a layer's list whose ends the table records. */
  lemma FrontCore(r: RenderTable, l: int, s: seq<EntId>, i: nat)
    requires Linked(r.lk, s) && 0 < i < |s|
    requires l in r.first && r.first[l] == s[0] && l in r.last && r.last[l] == s[|s| - 1]
    ensures At(r.lk, s[i]).prev.Some?
    ensures Rearranged(r, l, s, [s[i]] + Cut(s, i), ToFront(r, s[i], l))
  {
    var e, c := s[i], Cut(s, i);
    assert At(r.lk, e) == Expected(s, i);
    MovedBefore(r.lk, s, i, 0);
    assert c[..0] + [e] + c[0..] == [e] + c;
    var t := [e] + c;
    assert t[|t| - 1] == c[|c| - 1];
    if i == |s| - 1 {
      assert c[i - 1] == s[i - 1];
    } else {
      assert c[|c| - 1] == s[|s| - 1];
    }
  }

  /** sendToBack on a layer's list whose ends the table records. */
  lemma BackCore(r: RenderTable, l: int, s: seq<EntId>, i: nat)
    requires Linked(r.lk, s) && i < |s| - 1
    requires l in r.first && r.first[l] == s[0] && l in r.last && r.last[l] == s[|s| - 1]
    ensures At(r.lk, s[i]).next.Some?
    ensures Rearranged(r, l, s, Cut(s, i) + [s[i]], ToBack(r, s[i], l))
  {
    var e, c := s[i], Cut(s, i);
    assert At(r.lk, e) == Expected(s, i);
    MovedAfter(r.lk, s, i, |c| - 1);
    assert c[..|c|] + [e] + c[|c|..] == c + [e];
    var t := c + [e];
    assert t[0] == c[0];
    if i == 0 {
      assert c[0] == s[1];
    } else {
      assert c[0] == s[0];
    }
  }

  /** bringForward on a layer's list whose ends the table records. */
  lemma ForwardCore(r: RenderTable, l: int, s: seq<EntId>, i: nat)
    requires Linked(r.lk, s) && 0 < i < |s|
    requires l in r.first && r.first[l] == s[0] && l in r.last && r.last[l] == s[|s| - 1]
    ensures At(r.lk, s[i]).prev.Some?
    ensures Rearranged(r, l, s, s[..i - 1] + [s[i], s[i - 1]] + s[i + 1..], Forward(r, s[i], l))
  {
    var e, c := s[i], Cut(s, i);
    assert At(r.lk, e) == Expected(s, i) && At(r.lk, s[i - 1]) == Expected(s, i - 1);
    MovedBefore(r.lk, s, i, i - 1);
    var t := s[..i - 1] + [e, s[i - 1]] + s[i + 1..];
    SwapForward(s, i);
    var r2 := Forward(r, e, l);
    assert r2.first == r.first[l := t[0]] by {
      if i == 1 {
        assert t[0] == e;
      } else {
        assert t[0] == s[0];
      }
    }
    assert r2.last == r.last[l := t[|t| - 1]] by {
      if i == |s| - 1 {
        assert t[|t| - 1] == s[i - 1];
      } else {
        assert t[|t| - 1] == s[|s| - 1];
      }
    }
  }

  /** Swapping two neighbours loses no element. */
  lemma SwapMembers(s: seq<EntId>, j: nat)
    requires j + 1 < |s|
    ensures forall y :: y in s ==> y in s[..j] + [s[j + 1], s[j]] + s[j + 2..]
  {
    var q := s[..j] + [s[j + 1], s[j]] + s[j + 2..];
    forall y | y in s ensures y in q {
      var k :| 0 <= k < |s| && s[k] == y;
      if k < j { assert q[k] == y; }
      else if k == j { assert q[j + 1] == y; }
      else if k == j + 1 { assert q[j] == y; }
      else { assert q[k] == y; }
    }
  }

  lemma SwapForward(s: seq<EntId>, i: nat)
    requires 0 < i < |s|
    ensures Cut(s, i)[..i - 1] + [s[i]] + Cut(s, i)[i - 1..] == s[..i - 1] + [s[i], s[i - 1]] + s[i + 1..]
  {
  }

  /** sendBackward on a layer's list whose ends the table records. */
  lemma BackwardCore(r: RenderTable, l: int, s: seq<EntId>, i: nat)
    requires Linked(r.lk, s) && i < |s| - 1
    requires l in r.first && r.first[l] == s[0] && l in r.last && r.last[l] == s[|s| - 1]
    ensures At(r.lk, s[i]).next.Some?
    ensures Rearranged(r, l, s, s[..i] + [s[i + 1], s[i]] + s[i + 2..], Backward(r, s[i], l))
  {
    var e, c := s[i], Cut(s, i);
    assert At(r.lk, e) == Expected(s, i) && At(r.lk, s[i + 1]) == Expected(s, i + 1);
    MovedAfter(r.lk, s, i, i);
    var t := c[..i + 1] + [e] + c[i + 1..];
    assert t == s[..i] + [s[i + 1], e] + s[i + 2..];
    assert t[0] == if i == 0 then s[1] else s[0];
    assert t[|t| - 1] == if i + 1 == |s| - 1 then e else s[|s| - 1];
  }

  /** The position of a listed entity, and the links it carries there. */
  lemma Placed(ents: map<EntId, Entity>, lists: map<int, seq<EntId>>, r: RenderTable, e: EntId)
    requires RenderOK(ents, lists, r) && e in ents && ents[e].layer in lists && e in lists[ents[e].layer]
    ensures var l, s := ents[e].layer, lists[ents[e].layer];
            var i := IndexOf(s, e);
            0 <= i < |s| && s[i] == e && Linked(r.lk, s) && At(r.lk, e) == Expected(s, i) &&
            l in r.first && r.first[l] == s[0] && l in r.last && r.last[l] == s[|s| - 1]
  {
    var s := lists[ents[e].layer];
    assert Linked(r.lk, s);
  }
}
