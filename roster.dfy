// Which entities are committed to the World, and how the three kinds of lists and
// their tables hang together around that: a committed entity (`_added`) is on the
// update list, on the render list of its layer and, when it has a type, on the list
// of its type; no other entity is on any list or holds a non-null render or type
// link. The lemmas here carry the whole picture across the steps of updateLists and
// the layer and type setters.
module Roster {
  import opened Common
  import opened Chains
  import opened Entities
  import opened Lists

  /** The membership half of the picture. */
  ghost predicate Enrolled(ents: map<EntId, Entity>, U: seq<EntId>, R: map<int, seq<EntId>>, T: map<string, seq<EntId>>)
  {
    (forall x :: x in ents ==> (ents[x].added <==> x in U)) &&
    (forall x :: x in ents && ents[x].added ==> ents[x].layer in R && x in R[ents[x].layer]) &&
    (forall x :: x in ents && ents[x].added && ents[x].typ.Some? ==>
       ents[x].typ.value in T && x in T[ents[x].typ.value]) &&
    (forall l, x :: l in R && x in R[l] ==> x in ents && ents[x].added) &&
    (forall ty, x :: ty in T && x in T[ty] ==> x in ents && ents[x].added)
  }

  /** Only committed entities hold render links. */
  ghost predicate RenderLoose(ents: map<EntId, Entity>, lk: LinkMap)
  {
    forall x :: At(lk, x) != Loose ==> x in ents && ents[x].added
  }

  /** Only committed entities with a type hold type links. */
  ghost predicate TypeLoose(ents: map<EntId, Entity>, lk: LinkMap)
  {
    forall x :: At(lk, x) != Loose ==> x in ents && ents[x].added && ents[x].typ.Some?
  }

  /** The whole picture: each table in step with its lists, and the lists holding the
      committed entities. */
  ghost predicate ListsOK(ents: map<EntId, Entity>, U: seq<EntId>, R: map<int, seq<EntId>>, T: map<string, seq<EntId>>,
                          u: UpdateTable, r: RenderTable, t: TypeTable)
  {
    UpdateOK(ents, U, u) && RenderOK(ents, R, r) && TypeOK(ents, T, t) && Enrolled(ents, U, R, T) &&
    RenderLoose(ents, r.lk) && TypeLoose(ents, t.lk)
  }

  /** The fields the lists depend on. */
  predicate SameListing(a: Entity, b: Entity)
  {
    a.cls == b.cls && a.layer == b.layer && a.typ == b.typ && a.added == b.added
  }

  /** `b` differs from `a` only in fields the lists do not depend on, and in entities
      that are not committed and not yet held by `a`. */
  ghost predicate Keeps(a: map<EntId, Entity>, b: map<EntId, Entity>)
  {
    (forall x :: x in a ==> x in b && SameListing(a[x], b[x])) &&
    (forall x :: x in b && x !in a ==> !b[x].added)
  }

  /** Nothing the lists depend on changed: the picture still holds. */
  lemma ListsKept(a: map<EntId, Entity>, b: map<EntId, Entity>, U: seq<EntId>, R: map<int, seq<EntId>>,
                  T: map<string, seq<EntId>>, u: UpdateTable, r: RenderTable, t: TypeTable)
    requires ListsOK(a, U, R, T, u, r, t) && Keeps(a, b)
    ensures ListsOK(b, U, R, T, u, r, t)
  {
    UpdateFrame(a, b, U, u);
    RenderFrame(a, b, R, r);
    TypeFrame(a, b, T, t);
    EnrolledKept(a, b, U, R, T);
    LooseKept(a, b, r.lk, t.lk);
  }

  /** The update table read against entities whose classes are those of `a`. */
  lemma UpdateFrame(a: map<EntId, Entity>, b: map<EntId, Entity>, s: seq<EntId>, u: UpdateTable)
    requires UpdateOK(a, s, u)
    requires forall x :: x in a ==> x in b && b[x].cls == a[x].cls
    ensures UpdateOK(b, s, u)
  {
    forall c ensures Count(u.classCount, c) == ClassTally(b, s, c) {
      assert Count(u.classCount, c) == ClassTally(a, s, c);
      TallyFrame(a, b, s, c);
    }
  }

  /** The render table read against entities whose listed ones keep their layers. */
  lemma RenderFrame(a: map<EntId, Entity>, b: map<EntId, Entity>, R: map<int, seq<EntId>>, r: RenderTable)
    requires RenderOK(a, R, r)
    requires forall x :: x in a ==> x in b && b[x].layer == a[x].layer
    ensures RenderOK(b, R, r)
  {
    assert LayerKeyed(a, R);
  }

  /** The type table read against entities whose listed ones keep their types. */
  lemma TypeFrame(a: map<EntId, Entity>, b: map<EntId, Entity>, T: map<string, seq<EntId>>, t: TypeTable)
    requires TypeOK(a, T, t)
    requires forall x :: x in a ==> x in b && b[x].typ == a[x].typ
    ensures TypeOK(b, T, t)
  {
    assert TypeKeyed(a, T);
  }

  lemma EnrolledKept(a: map<EntId, Entity>, b: map<EntId, Entity>, U: seq<EntId>, R: map<int, seq<EntId>>,
                     T: map<string, seq<EntId>>)
    requires Enrolled(a, U, R, T) && Keeps(a, b) && forall x :: x in U ==> x in a
    ensures Enrolled(b, U, R, T)
  {
  }

  lemma LooseKept(a: map<EntId, Entity>, b: map<EntId, Entity>, rl: LinkMap, tl: LinkMap)
    requires RenderLoose(a, rl) && TypeLoose(a, tl) && Keeps(a, b)
    ensures RenderLoose(b, rl) && TypeLoose(b, tl)
  {
  }

  /** The committed entity `e` taken off every list (updateLists' removal of it, with
      `e` left as `x2`: no longer committed, its listing fields unchanged): the tables
      the four removal helpers leave are in step with the lists without `e`. The counts
      they lower are never already zero. */
  lemma Unlisted(ents: map<EntId, Entity>, U: seq<EntId>, R: map<int, seq<EntId>>, T: map<string, seq<EntId>>,
                 u: UpdateTable, r: RenderTable, t: TypeTable, e: EntId, x2: Entity)
    requires ListsOK(ents, U, R, T, u, r, t) && e in ents && ents[e].added
    requires x2.cls == ents[e].cls && x2.layer == ents[e].layer && x2.typ == ents[e].typ && !x2.added
    ensures e in U && x2.layer in R && e in R[x2.layer]
    ensures x2.typ.Some? ==> x2.typ.value in T && e in T[x2.typ.value]
    ensures u.count >= 1 && Count(u.classCount, x2.cls) >= 1
    ensures x2.layer in r.layers && Count(r.counts, x2.layer) >= 1
    ensures x2.typ.Some? ==> x2.typ.value in t.first && Count(t.counts, x2.typ.value) >= 1
    ensures ListsOK(ents[e := x2], Cut(U, IndexOf(U, e)), Dropped(R, x2.layer, e),
                    if x2.typ.Some? then Dropped(T, x2.typ.value, e) else T,
                    UpdateRemove(u, e, x2.cls), RenderRemove(r, e, x2.layer),
                    if x2.typ.Some? then TypeRemove(t, e, x2.typ.value) else t)
  {
    UnlistedUpdate(ents, U, R, T, u, r, t, e, x2);
    UnlistedRender(ents, U, R, T, u, r, t, e, x2);
    UnlistedType(ents, U, R, T, u, r, t, e, x2);
    UnlistedLoose(ents, U, R, T, u, r, t, e, x2);
    EnrolledUnlisted(ents, U, R, T, e, x2);
  }

  lemma UnlistedUpdate(ents: map<EntId, Entity>, U: seq<EntId>, R: map<int, seq<EntId>>, T: map<string, seq<EntId>>,
                       u: UpdateTable, r: RenderTable, t: TypeTable, e: EntId, x2: Entity)
    requires UpdateOK(ents, U, u) && Enrolled(ents, U, R, T) && e in ents && ents[e].added
    requires x2.cls == ents[e].cls && x2.layer == ents[e].layer && x2.typ == ents[e].typ && !x2.added
    ensures e in U && u.count >= 1 && Count(u.classCount, x2.cls) >= 1
    ensures UpdateOK(ents[e := x2], Cut(U, IndexOf(U, e)), UpdateRemove(u, e, x2.cls))
  {
    UpdateDrop(ents, U, u, e);
    UpdateFrame(ents, ents[e := x2], Cut(U, IndexOf(U, e)), UpdateRemove(u, e, x2.cls));
  }

  lemma UnlistedRender(ents: map<EntId, Entity>, U: seq<EntId>, R: map<int, seq<EntId>>, T: map<string, seq<EntId>>,
                       u: UpdateTable, r: RenderTable, t: TypeTable, e: EntId, x2: Entity)
    requires RenderOK(ents, R, r) && Enrolled(ents, U, R, T) && e in ents && ents[e].added
    requires x2.cls == ents[e].cls && x2.layer == ents[e].layer && x2.typ == ents[e].typ && !x2.added
    ensures x2.layer in R && e in R[x2.layer]
    ensures x2.layer in r.layers && Count(r.counts, x2.layer) >= 1
    ensures RenderOK(ents[e := x2], Dropped(R, x2.layer, e), RenderRemove(r, e, x2.layer))
  {
    RenderDrop(ents, R, r, e);
    RenderFrame(ents, ents[e := x2], Dropped(R, x2.layer, e), RenderRemove(r, e, x2.layer));
  }

  lemma UnlistedType(ents: map<EntId, Entity>, U: seq<EntId>, R: map<int, seq<EntId>>, T: map<string, seq<EntId>>,
                     u: UpdateTable, r: RenderTable, t: TypeTable, e: EntId, x2: Entity)
    requires TypeOK(ents, T, t) && Enrolled(ents, U, R, T) && e in ents && ents[e].added
    requires x2.cls == ents[e].cls && x2.layer == ents[e].layer && x2.typ == ents[e].typ && !x2.added
    ensures x2.typ.Some? ==> x2.typ.value in T && e in T[x2.typ.value]
    ensures x2.typ.Some? ==> x2.typ.value in t.first && Count(t.counts, x2.typ.value) >= 1
    ensures TypeOK(ents[e := x2], if x2.typ.Some? then Dropped(T, x2.typ.value, e) else T,
                   if x2.typ.Some? then TypeRemove(t, e, x2.typ.value) else t)
  {
    if x2.typ.Some? {
      var ty := x2.typ.value;
      TypeDrop(ents, T, t, e);
      TypeFrame(ents, ents[e := x2], Dropped(T, ty, e), TypeRemove(t, e, ty));
    } else {
      TypeFrame(ents, ents[e := x2], T, t);
    }
  }

  lemma UnlistedLoose(ents: map<EntId, Entity>, U: seq<EntId>, R: map<int, seq<EntId>>, T: map<string, seq<EntId>>,
                      u: UpdateTable, r: RenderTable, t: TypeTable, e: EntId, x2: Entity)
    requires ListsOK(ents, U, R, T, u, r, t) && e in ents && ents[e].added
    requires x2.cls == ents[e].cls && x2.layer == ents[e].layer && x2.typ == ents[e].typ && !x2.added
    ensures RenderLoose(ents[e := x2], Unlink(r.lk, e))
    ensures TypeLoose(ents[e := x2], if x2.typ.Some? then Unlink(t.lk, e) else t.lk)
  {
    var l := x2.layer;
    assert Linked(r.lk, R[l]);
    UnlinkTouches(r.lk, R[l], e);
    RenderLooseAfter(ents, x2, R[l], r.lk, Unlink(r.lk, e), e);
    if x2.typ.Some? {
      var ty := x2.typ.value;
      assert Linked(t.lk, T[ty]);
      UnlinkTouches(t.lk, T[ty], e);
      TypeLooseAfter(ents, x2, T[ty], t.lk, Unlink(t.lk, e), e);
    } else {
      TypeLooseAfter(ents, x2, [], t.lk, t.lk, e);
    }
  }

  /** The render links after `e` leaves a list `rs` of committed entities. */
  lemma RenderLooseAfter(ents: map<EntId, Entity>, x2: Entity, rs: seq<EntId>, rl: LinkMap, rl2: LinkMap, e: EntId)
    requires RenderLoose(ents, rl) && e in ents
    requires forall y :: y in rs ==> y in ents && ents[y].added
    requires forall y :: At(rl2, y) != Loose ==> y != e && (y in rs || At(rl, y) != Loose)
    ensures RenderLoose(ents[e := x2], rl2)
  {
  }

  /** The type links after `e` leaves a list `ts` of committed, typed entities. */
  lemma TypeLooseAfter(ents: map<EntId, Entity>, x2: Entity, ts: seq<EntId>, tl: LinkMap, tl2: LinkMap, e: EntId)
    requires TypeLoose(ents, tl) && e in ents
    requires forall y :: y in ts ==> y in ents && ents[y].added && ents[y].typ.Some?
    requires forall y :: At(tl2, y) != Loose ==> y != e && (y in ts || At(tl, y) != Loose)
    ensures TypeLoose(ents[e := x2], tl2)
  {
  }

  lemma EnrolledUnlisted(ents: map<EntId, Entity>, U: seq<EntId>, R: map<int, seq<EntId>>, T: map<string, seq<EntId>>,
                         e: EntId, x2: Entity)
    requires Enrolled(ents, U, R, T) && Distinct(U) && LayerKeyed(ents, R) && TypeKeyed(ents, T)
    requires e in ents && ents[e].added
    requires x2.layer == ents[e].layer && x2.typ == ents[e].typ && !x2.added
    requires Distinct(R[x2.layer]) && (x2.typ.Some? ==> Distinct(T[x2.typ.value]))
    ensures Enrolled(ents[e := x2], Cut(U, IndexOf(U, e)), Dropped(R, x2.layer, e),
                     if x2.typ.Some? then Dropped(T, x2.typ.value, e) else T)
  {
    var T2 := if x2.typ.Some? then Dropped(T, x2.typ.value, e) else T;
    DistinctCut(U, IndexOf(U, e) as nat);
    DroppedMembers(R, x2.layer, e);
    LayerOut(ents, R, Dropped(R, x2.layer, e), e);
    if x2.typ.Some? {
      DroppedMembers(T, x2.typ.value, e);
      TypeOut(ents, T, T2, e);
    } else {
      forall ty, y: nat | ty in T && y in T[ty] ensures y != e {
      }
    }
    EnrolledWithout(ents, U, R, T, Cut(U, IndexOf(U, e)), Dropped(R, x2.layer, e), T2, e, x2);
  }

  lemma LayerOut(ents: map<EntId, Entity>, R: map<int, seq<EntId>>, R2: map<int, seq<EntId>>, e: EntId)
    requires LayerKeyed(ents, R) && e in ents
    requires forall k, y: nat :: k in R2 && y in R2[k] <==> k in R && y in R[k] && (k != ents[e].layer || y != e)
    ensures forall k, y: nat :: k in R2 && y in R2[k] <==> k in R && y in R[k] && y != e
  {
  }

  lemma TypeOut(ents: map<EntId, Entity>, T: map<string, seq<EntId>>, T2: map<string, seq<EntId>>, e: EntId)
    requires TypeKeyed(ents, T) && e in ents && ents[e].typ.Some?
    requires forall k, y: nat :: k in T2 && y in T2[k] <==> k in T && y in T[k] && (k != ents[e].typ.value || y != e)
    ensures forall k, y: nat :: k in T2 && y in T2[k] <==> k in T && y in T[k] && y != e
  {
  }

  /** The membership picture with `e` gone from every list and no longer committed. */
  lemma EnrolledWithout(ents: map<EntId, Entity>, U: seq<EntId>, R: map<int, seq<EntId>>, T: map<string, seq<EntId>>,
                        U2: seq<EntId>, R2: map<int, seq<EntId>>, T2: map<string, seq<EntId>>, e: EntId, x2: Entity)
    requires Enrolled(ents, U, R, T) && e in ents
    requires x2.layer == ents[e].layer && x2.typ == ents[e].typ && !x2.added
    requires forall y :: y in U2 <==> y in U && y != e
    requires forall k, y: nat :: k in R2 && y in R2[k] <==> k in R && y in R[k] && y != e
    requires forall k, y: nat :: k in T2 && y in T2[k] <==> k in T && y in T[k] && y != e
    ensures Enrolled(ents[e := x2], U2, R2, T2)
  {
  }

  /** The uncommitted entity `e` put on every list (updateLists' addition of it, with
      `e` left as `x2`: committed, its listing fields unchanged): the tables the three
      addition helpers leave are in step with the lists headed by `e`. */
  lemma Enlisted(ents: map<EntId, Entity>, U: seq<EntId>, R: map<int, seq<EntId>>, T: map<string, seq<EntId>>,
                 u: UpdateTable, r: RenderTable, t: TypeTable, e: EntId, x2: Entity)
    requires ListsOK(ents, U, R, T, u, r, t) && e in ents && !ents[e].added
    requires x2.cls == ents[e].cls && x2.layer == ents[e].layer && x2.typ == ents[e].typ && x2.added
    ensures e !in U && Outside(R, e) && Outside(T, e)
    ensures ListsOK(ents[e := x2], [e] + U, Pushed(R, x2.layer, e),
                    if x2.typ.Some? then Pushed(T, x2.typ.value, e) else T,
                    UpdateAdd(u, e, x2.cls), RenderAdd(r, e, x2.layer),
                    if x2.typ.Some? then TypeAdd(t, e, x2.typ.value) else t)
  {
    EnlistedUpdate(ents, U, R, T, u, e, x2);
    EnlistedRender(ents, U, R, T, r, e, x2);
    EnlistedType(ents, U, R, T, t, e, x2);
    EnlistedLoose(ents, U, R, T, r, t, e, x2);
    EnrolledEnlisted(ents, U, R, T, e, x2);
  }

  lemma EnlistedUpdate(ents: map<EntId, Entity>, U: seq<EntId>, R: map<int, seq<EntId>>, T: map<string, seq<EntId>>,
                       u: UpdateTable, e: EntId, x2: Entity)
    requires UpdateOK(ents, U, u) && Enrolled(ents, U, R, T) && e in ents && !ents[e].added
    requires x2.cls == ents[e].cls
    ensures e !in U
    ensures UpdateOK(ents[e := x2], [e] + U, UpdateAdd(u, e, x2.cls))
  {
    UpdatePush(ents, U, u, e);
    UpdateFrame(ents, ents[e := x2], [e] + U, UpdateAdd(u, e, x2.cls));
  }

  lemma EnlistedRender(ents: map<EntId, Entity>, U: seq<EntId>, R: map<int, seq<EntId>>, T: map<string, seq<EntId>>,
                       r: RenderTable, e: EntId, x2: Entity)
    requires RenderOK(ents, R, r) && Enrolled(ents, U, R, T) && e in ents && !ents[e].added
    requires x2.layer == ents[e].layer
    ensures Outside(R, e)
    ensures RenderOK(ents[e := x2], Pushed(R, x2.layer, e), RenderAdd(r, e, x2.layer))
  {
    RenderPush(ents, R, r, e);
    RenderFrame(ents, ents[e := x2], Pushed(R, x2.layer, e), RenderAdd(r, e, x2.layer));
  }

  lemma EnlistedType(ents: map<EntId, Entity>, U: seq<EntId>, R: map<int, seq<EntId>>, T: map<string, seq<EntId>>,
                     t: TypeTable, e: EntId, x2: Entity)
    requires TypeOK(ents, T, t) && Enrolled(ents, U, R, T) && e in ents && !ents[e].added
    requires x2.typ == ents[e].typ
    ensures Outside(T, e)
    ensures TypeOK(ents[e := x2], if x2.typ.Some? then Pushed(T, x2.typ.value, e) else T,
                   if x2.typ.Some? then TypeAdd(t, e, x2.typ.value) else t)
  {
    if x2.typ.Some? {
      TypePush(ents, T, t, e);
      TypeFrame(ents, ents[e := x2], Pushed(T, x2.typ.value, e), TypeAdd(t, e, x2.typ.value));
    } else {
      TypeFrame(ents, ents[e := x2], T, t);
    }
  }

  lemma EnlistedLoose(ents: map<EntId, Entity>, U: seq<EntId>, R: map<int, seq<EntId>>, T: map<string, seq<EntId>>,
                      r: RenderTable, t: TypeTable, e: EntId, x2: Entity)
    requires RenderOK(ents, R, r) && TypeOK(ents, T, t) && Enrolled(ents, U, R, T)
    requires RenderLoose(ents, r.lk) && TypeLoose(ents, t.lk) && e in ents && !ents[e].added
    requires x2.layer == ents[e].layer && x2.typ == ents[e].typ && x2.added
    ensures RenderLoose(ents[e := x2], RenderAdd(r, e, x2.layer).lk)
    ensures TypeLoose(ents[e := x2], if x2.typ.Some? then TypeAdd(t, e, x2.typ.value).lk else t.lk)
  {
    EnlistedRenderLoose(ents, U, R, T, r, e, x2);
    EnlistedTypeLoose(ents, U, R, T, t, e, x2);
  }

  lemma EnlistedRenderLoose(ents: map<EntId, Entity>, U: seq<EntId>, R: map<int, seq<EntId>>, T: map<string, seq<EntId>>,
                            r: RenderTable, e: EntId, x2: Entity)
    requires RenderOK(ents, R, r) && Enrolled(ents, U, R, T)
    requires RenderLoose(ents, r.lk) && e in ents && !ents[e].added
    requires x2.layer == ents[e].layer && x2.added
    ensures RenderLoose(ents[e := x2], RenderAdd(r, e, x2.layer).lk)
  {
    var l := x2.layer;
    var s := Chain(R, l);
    assert Linked(r.lk, s);
    assert (if l !in r.first then None else Some(r.first[l])) == Head(s);
    PushTouches(r.lk, s, e);
    RenderLooseWith(ents, x2, s, r.lk, RenderAdd(r, e, l).lk, e);
  }

  lemma EnlistedTypeLoose(ents: map<EntId, Entity>, U: seq<EntId>, R: map<int, seq<EntId>>, T: map<string, seq<EntId>>,
                          t: TypeTable, e: EntId, x2: Entity)
    requires TypeOK(ents, T, t) && Enrolled(ents, U, R, T)
    requires TypeLoose(ents, t.lk) && e in ents && !ents[e].added
    requires x2.typ == ents[e].typ && x2.added
    ensures TypeLoose(ents[e := x2], if x2.typ.Some? then TypeAdd(t, e, x2.typ.value).lk else t.lk)
  {
    if x2.typ.Some? {
      var ty := x2.typ.value;
      var q := Chain(T, ty);
      assert Linked(t.lk, q);
      assert (if ty in t.first then Some(t.first[ty]) else None) == Head(q);
      PushTouches(t.lk, q, e);
      TypeLooseWith(ents, x2, q, t.lk, TypeAdd(t, e, ty).lk, e);
    } else {
      TypeLooseWith(ents, x2, [], t.lk, t.lk, e);
    }
  }

  /** The render links after committed `e` joins a list `rs` of committed entities. */
  lemma RenderLooseWith(ents: map<EntId, Entity>, x2: Entity, rs: seq<EntId>, rl: LinkMap, rl2: LinkMap, e: EntId)
    requires RenderLoose(ents, rl) && e in ents && !ents[e].added && x2.added
    requires forall y :: y in rs ==> y in ents && ents[y].added
    requires forall y :: At(rl2, y) != Loose ==> y == e || y in rs || At(rl, y) != Loose
    ensures RenderLoose(ents[e := x2], rl2)
  {
  }

  /** The type links after committed, typed `e` joins a list `ts` of committed, typed
      entities. */
  lemma TypeLooseWith(ents: map<EntId, Entity>, x2: Entity, ts: seq<EntId>, tl: LinkMap, tl2: LinkMap, e: EntId)
    requires TypeLoose(ents, tl) && e in ents && !ents[e].added && x2.added && (tl2 != tl ==> x2.typ.Some?)
    requires forall y :: y in ts ==> y in ents && ents[y].added && ents[y].typ.Some?
    requires forall y :: At(tl2, y) != Loose ==> (y == e && tl2 != tl) || y in ts || At(tl, y) != Loose
    ensures TypeLoose(ents[e := x2], tl2)
  {
  }

  lemma EnrolledEnlisted(ents: map<EntId, Entity>, U: seq<EntId>, R: map<int, seq<EntId>>, T: map<string, seq<EntId>>,
                         e: EntId, x2: Entity)
    requires Enrolled(ents, U, R, T) && e in ents && !ents[e].added
    requires x2.layer == ents[e].layer && x2.typ == ents[e].typ && x2.added
    ensures Enrolled(ents[e := x2], [e] + U, Pushed(R, x2.layer, e),
                     if x2.typ.Some? then Pushed(T, x2.typ.value, e) else T)
  {
    var T2 := if x2.typ.Some? then Pushed(T, x2.typ.value, e) else T;
    PushedMembers(R, x2.layer, e);
    if x2.typ.Some? {
      PushedMembers(T, x2.typ.value, e);
    }
    EnrolledWith(ents, U, R, T, [e] + U, Pushed(R, x2.layer, e), T2, e, x2);
  }

  /** The membership picture with `e` committed and put on its lists. */
  lemma EnrolledWith(ents: map<EntId, Entity>, U: seq<EntId>, R: map<int, seq<EntId>>, T: map<string, seq<EntId>>,
                     U2: seq<EntId>, R2: map<int, seq<EntId>>, T2: map<string, seq<EntId>>, e: EntId, x2: Entity)
    requires Enrolled(ents, U, R, T) && e in ents
    requires x2.layer == ents[e].layer && x2.typ == ents[e].typ && x2.added
    requires forall y :: y in U2 <==> y in U || y == e
    requires forall k, y :: k in R && y in R[k] ==> k in R2 && y in R2[k]
    requires forall k, y :: k in R2 && y in R2[k] ==> (k in R && y in R[k]) || y == e
    requires x2.layer in R2 && e in R2[x2.layer]
    requires forall k, y :: k in T && y in T[k] ==> k in T2 && y in T2[k]
    requires forall k, y :: k in T2 && y in T2[k] ==> (k in T && y in T[k]) || y == e
    requires x2.typ.Some? ==> x2.typ.value in T2 && e in T2[x2.typ.value]
    ensures Enrolled(ents[e := x2], U2, R2, T2)
  {
  }

  /** The layer setter on a committed entity: removeRender, the new layer, addRender.
      The entity leaves its old layer's list and heads the new layer's list; the
      other tables are untouched. */
  lemma Relayered(ents: map<EntId, Entity>, U: seq<EntId>, R: map<int, seq<EntId>>, T: map<string, seq<EntId>>,
                  u: UpdateTable, r: RenderTable, t: TypeTable, e: EntId, l2: int)
    requires ListsOK(ents, U, R, T, u, r, t) && e in ents && ents[e].added
    ensures ents[e].layer in R && e in R[ents[e].layer]
    ensures ents[e].layer in r.layers && Count(r.counts, ents[e].layer) >= 1
    ensures ListsOK(ents[e := ents[e].(layer := l2)], U, Pushed(Dropped(R, ents[e].layer, e), l2, e), T,
                    u, RenderAdd(RenderRemove(r, e, ents[e].layer), e, l2), t)
  {
    RelayerRender(ents, U, R, T, r, e, l2);
    RelayerFrame(ents, U, T, u, t, e, l2);
    RelayerEnrolled(ents, U, R, T, e, l2);
    RelayerLoose(ents, U, R, T, r, t, e, l2);
  }

  lemma RelayerFrame(ents: map<EntId, Entity>, U: seq<EntId>, T: map<string, seq<EntId>>,
                     u: UpdateTable, t: TypeTable, e: EntId, l2: int)
    requires UpdateOK(ents, U, u) && TypeOK(ents, T, t) && e in ents
    ensures UpdateOK(ents[e := ents[e].(layer := l2)], U, u) && TypeOK(ents[e := ents[e].(layer := l2)], T, t)
  {
    UpdateFrame(ents, ents[e := ents[e].(layer := l2)], U, u);
    TypeFrame(ents, ents[e := ents[e].(layer := l2)], T, t);
  }

  lemma RelayerRender(ents: map<EntId, Entity>, U: seq<EntId>, R: map<int, seq<EntId>>, T: map<string, seq<EntId>>,
                      r: RenderTable, e: EntId, l2: int)
    requires RenderOK(ents, R, r) && Enrolled(ents, U, R, T) && e in ents && ents[e].added
    ensures ents[e].layer in R && e in R[ents[e].layer]
    ensures ents[e].layer in r.layers && Count(r.counts, ents[e].layer) >= 1
    ensures RenderOK(ents[e := ents[e].(layer := l2)], Pushed(Dropped(R, ents[e].layer, e), l2, e),
                     RenderAdd(RenderRemove(r, e, ents[e].layer), e, l2))
  {
    var l := ents[e].layer;
    var x2 := ents[e].(layer := l2);
    RenderDrop(ents, R, r, e);
    var R1, r1 := Dropped(R, l, e), RenderRemove(r, e, l);
    assert Distinct(R[l]);
    DroppedMembers(R, l, e);
    LayerOut(ents, R, R1, e);
    RenderAway(ents, R1, r1, e, x2);
    RenderPush(ents[e := x2], R1, r1, e);
  }

  /** An entity on none of the render lists may change its layer. */
  lemma RenderAway(ents: map<EntId, Entity>, R: map<int, seq<EntId>>, r: RenderTable, e: EntId, x2: Entity)
    requires RenderOK(ents, R, r) && forall k, y: nat :: k in R && y in R[k] ==> y != e
    ensures RenderOK(ents[e := x2], R, r)
  {
    assert LayerKeyed(ents[e := x2], R);
  }

  lemma RelayerEnrolled(ents: map<EntId, Entity>, U: seq<EntId>, R: map<int, seq<EntId>>, T: map<string, seq<EntId>>,
                        e: EntId, l2: int)
    requires Enrolled(ents, U, R, T) && LayerKeyed(ents, R) && e in ents && ents[e].added
    requires Distinct(R[ents[e].layer])
    ensures Enrolled(ents[e := ents[e].(layer := l2)], U, Pushed(Dropped(R, ents[e].layer, e), l2, e), T)
  {
    var l := ents[e].layer;
    var R1 := Dropped(R, l, e);
    DroppedMembers(R, l, e);
    LayerOut(ents, R, R1, e);
    PushedMembers(R1, l2, e);
    RelayerMembers(ents, U, R, T, Pushed(R1, l2, e), e, l2);
  }

  lemma RelayerMembers(ents: map<EntId, Entity>, U: seq<EntId>, R: map<int, seq<EntId>>, T: map<string, seq<EntId>>,
                       R2: map<int, seq<EntId>>, e: EntId, l2: int)
    requires Enrolled(ents, U, R, T) && e in ents && ents[e].added
    requires forall k, y :: k in R2 && y in R2[k] ==> (k in R && y in R[k]) || y == e
    requires forall k, y :: k in R && y in R[k] && y != e ==> k in R2 && y in R2[k]
    requires l2 in R2 && e in R2[l2]
    ensures Enrolled(ents[e := ents[e].(layer := l2)], U, R2, T)
  {
  }

  lemma RelayerLoose(ents: map<EntId, Entity>, U: seq<EntId>, R: map<int, seq<EntId>>, T: map<string, seq<EntId>>,
                     r: RenderTable, t: TypeTable, e: EntId, l2: int)
    requires RenderOK(ents, R, r) && Enrolled(ents, U, R, T) && e in ents && ents[e].added
    requires RenderLoose(ents, r.lk) && TypeLoose(ents, t.lk)
    ensures ents[e].layer in r.layers && Count(r.counts, ents[e].layer) >= 1
    ensures RenderLoose(ents[e := ents[e].(layer := l2)], RenderAdd(RenderRemove(r, e, ents[e].layer), e, l2).lk)
    ensures TypeLoose(ents[e := ents[e].(layer := l2)], t.lk)
  {
    var l := ents[e].layer;
    var x2 := ents[e].(layer := l2);
    RenderDrop(ents, R, r, e);
    var R1, r1 := Dropped(R, l, e), RenderRemove(r, e, l);
    assert Linked(r.lk, R[l]);
    UnlinkTouches(r.lk, R[l], e);
    RenderLooseAfter(ents, ents[e], R[l], r.lk, r1.lk, e);
    assert ents[e := ents[e]] == ents;
    var s := Chain(R1, l2);
    assert Linked(r1.lk, s);
    assert (if l2 !in r1.first then None else Some(r1.first[l2])) == Head(s);
    RelayerChain(ents, U, R, T, e, l2);
    PushTouches(r1.lk, s, e);
    RelayerRenderLoose(ents, x2, s, r1.lk, RenderAdd(r1, e, l2).lk, e);
    TypeLooseMoved(ents, t.lk, e, x2);
  }

  /** The list an entity joins when it changes layer holds committed entities other
      than itself. */
  lemma RelayerChain(ents: map<EntId, Entity>, U: seq<EntId>, R: map<int, seq<EntId>>, T: map<string, seq<EntId>>,
                     e: EntId, l2: int)
    requires Enrolled(ents, U, R, T) && LayerKeyed(ents, R) && e in ents && ents[e].added
    requires Distinct(R[ents[e].layer])
    ensures forall y :: y in Chain(Dropped(R, ents[e].layer, e), l2) ==> y != e && y in ents && ents[y].added
  {
    var l := ents[e].layer;
    DroppedMembers(R, l, e);
    forall y | y in Chain(Dropped(R, l, e), l2) ensures y != e && y in ents && ents[y].added {
      assert l2 in Dropped(R, l, e);
    }
  }

  /** The type links do not depend on the layer. */
  lemma TypeLooseMoved(ents: map<EntId, Entity>, tl: LinkMap, e: EntId, x2: Entity)
    requires TypeLoose(ents, tl) && e in ents && x2.added == ents[e].added && x2.typ == ents[e].typ
    ensures TypeLoose(ents[e := x2], tl)
  {
  }

  lemma RelayerRenderLoose(ents: map<EntId, Entity>, x2: Entity, rs: seq<EntId>, rl: LinkMap, rl2: LinkMap, e: EntId)
    requires RenderLoose(ents, rl) && e in ents && x2.added
    requires forall y :: y in rs ==> y in ents && ents[y].added
    requires forall y :: At(rl2, y) != Loose ==> y == e || y in rs || At(rl, y) != Loose
    ensures RenderLoose(ents[e := x2], rl2)
  {
  }

  /** The first half of the type setter on a committed, typed entity: removeType. Seen
      with the entity's type already cleared, the picture holds with the entity off its
      type's list. */
  lemma Detyped(ents: map<EntId, Entity>, U: seq<EntId>, R: map<int, seq<EntId>>, T: map<string, seq<EntId>>,
                u: UpdateTable, r: RenderTable, t: TypeTable, e: EntId)
    requires ListsOK(ents, U, R, T, u, r, t) && e in ents && ents[e].added && ents[e].typ.Some?
    ensures ents[e].typ.value in T && e in T[ents[e].typ.value]
    ensures ents[e].typ.value in t.first && Count(t.counts, ents[e].typ.value) >= 1
    ensures ListsOK(ents[e := ents[e].(typ := None)], U, R, Dropped(T, ents[e].typ.value, e),
                    u, r, TypeRemove(t, e, ents[e].typ.value))
  {
    DetypedType(ents, U, R, T, t, e);
    DetypedFrame(ents, U, R, u, r, e);
    DetypedEnrolled(ents, U, R, T, e);
    DetypedLoose(ents, U, R, T, r, t, e);
  }

  lemma DetypedType(ents: map<EntId, Entity>, U: seq<EntId>, R: map<int, seq<EntId>>, T: map<string, seq<EntId>>,
                    t: TypeTable, e: EntId)
    requires TypeOK(ents, T, t) && Enrolled(ents, U, R, T) && e in ents && ents[e].added && ents[e].typ.Some?
    ensures ents[e].typ.value in T && e in T[ents[e].typ.value]
    ensures ents[e].typ.value in t.first && Count(t.counts, ents[e].typ.value) >= 1
    ensures TypeOK(ents[e := ents[e].(typ := None)], Dropped(T, ents[e].typ.value, e), TypeRemove(t, e, ents[e].typ.value))
  {
    var ty := ents[e].typ.value;
    TypeDrop(ents, T, t, e);
    assert Distinct(T[ty]);
    DroppedMembers(T, ty, e);
    TypeOut(ents, T, Dropped(T, ty, e), e);
    TypeAway(ents, Dropped(T, ty, e), TypeRemove(t, e, ty), e, ents[e].(typ := None));
  }

  /** An entity on none of the type lists may change its type. */
  lemma TypeAway(ents: map<EntId, Entity>, T: map<string, seq<EntId>>, t: TypeTable, e: EntId, x2: Entity)
    requires TypeOK(ents, T, t) && forall k, y: nat :: k in T && y in T[k] ==> y != e
    ensures TypeOK(ents[e := x2], T, t)
  {
    assert TypeKeyed(ents[e := x2], T);
  }

  lemma DetypedFrame(ents: map<EntId, Entity>, U: seq<EntId>, R: map<int, seq<EntId>>,
                     u: UpdateTable, r: RenderTable, e: EntId)
    requires UpdateOK(ents, U, u) && RenderOK(ents, R, r) && e in ents
    ensures UpdateOK(ents[e := ents[e].(typ := None)], U, u) && RenderOK(ents[e := ents[e].(typ := None)], R, r)
  {
    UpdateFrame(ents, ents[e := ents[e].(typ := None)], U, u);
    RenderFrame(ents, ents[e := ents[e].(typ := None)], R, r);
  }

  lemma DetypedEnrolled(ents: map<EntId, Entity>, U: seq<EntId>, R: map<int, seq<EntId>>, T: map<string, seq<EntId>>,
                        e: EntId)
    requires Enrolled(ents, U, R, T) && TypeKeyed(ents, T) && e in ents && ents[e].added && ents[e].typ.Some?
    requires Distinct(T[ents[e].typ.value])
    ensures Enrolled(ents[e := ents[e].(typ := None)], U, R, Dropped(T, ents[e].typ.value, e))
  {
    var ty := ents[e].typ.value;
    DroppedMembers(T, ty, e);
    TypeOut(ents, T, Dropped(T, ty, e), e);
    DetypedMembers(ents, U, R, T, Dropped(T, ty, e), e);
  }

  lemma DetypedMembers(ents: map<EntId, Entity>, U: seq<EntId>, R: map<int, seq<EntId>>, T: map<string, seq<EntId>>,
                       T2: map<string, seq<EntId>>, e: EntId)
    requires Enrolled(ents, U, R, T) && e in ents && ents[e].added
    requires forall k, y :: k in T2 && y in T2[k] ==> k in T && y in T[k]
    requires forall k, y :: k in T && y in T[k] && y != e ==> k in T2 && y in T2[k]
    ensures Enrolled(ents[e := ents[e].(typ := None)], U, R, T2)
  {
  }

  lemma DetypedLoose(ents: map<EntId, Entity>, U: seq<EntId>, R: map<int, seq<EntId>>, T: map<string, seq<EntId>>,
                     r: RenderTable, t: TypeTable, e: EntId)
    requires TypeOK(ents, T, t) && Enrolled(ents, U, R, T) && e in ents && ents[e].added && ents[e].typ.Some?
    requires RenderLoose(ents, r.lk) && TypeLoose(ents, t.lk)
    ensures RenderLoose(ents[e := ents[e].(typ := None)], r.lk)
    ensures TypeLoose(ents[e := ents[e].(typ := None)], Unlink(t.lk, e))
  {
    var ty := ents[e].typ.value;
    assert Linked(t.lk, T[ty]);
    UnlinkTouches(t.lk, T[ty], e);
    TypeLooseAfter(ents, ents[e].(typ := None), T[ty], t.lk, Unlink(t.lk, e), e);
  }

  /** The second half of the type setter on a committed entity with no type: its new
      type set, addType makes it the head of that type's list. */
  lemma Typed(ents: map<EntId, Entity>, U: seq<EntId>, R: map<int, seq<EntId>>, T: map<string, seq<EntId>>,
              u: UpdateTable, r: RenderTable, t: TypeTable, e: EntId, ty: string)
    requires ListsOK(ents, U, R, T, u, r, t) && e in ents && ents[e].added && ents[e].typ.None?
    ensures Outside(T, e)
    ensures ListsOK(ents[e := ents[e].(typ := Some(ty))], U, R, Pushed(T, ty, e), u, r, TypeAdd(t, e, ty))
  {
    TypedType(ents, U, R, T, t, e, ty);
    TypedFrame(ents, U, R, u, r, e, ty);
    TypedEnrolled(ents, U, R, T, e, ty);
    TypedLoose(ents, U, R, T, r, t, e, ty);
  }

  lemma TypedType(ents: map<EntId, Entity>, U: seq<EntId>, R: map<int, seq<EntId>>, T: map<string, seq<EntId>>,
                  t: TypeTable, e: EntId, ty: string)
    requires TypeOK(ents, T, t) && e in ents && ents[e].typ.None?
    ensures Outside(T, e)
    ensures TypeOK(ents[e := ents[e].(typ := Some(ty))], Pushed(T, ty, e), TypeAdd(t, e, ty))
  {
    var b := ents[e := ents[e].(typ := Some(ty))];
    assert TypeKeyed(ents, T);
    TypeAway(ents, T, t, e, b[e]);
    TypePush(b, T, t, e);
  }

  lemma TypedFrame(ents: map<EntId, Entity>, U: seq<EntId>, R: map<int, seq<EntId>>,
                   u: UpdateTable, r: RenderTable, e: EntId, ty: string)
    requires UpdateOK(ents, U, u) && RenderOK(ents, R, r) && e in ents
    ensures UpdateOK(ents[e := ents[e].(typ := Some(ty))], U, u) && RenderOK(ents[e := ents[e].(typ := Some(ty))], R, r)
  {
    UpdateFrame(ents, ents[e := ents[e].(typ := Some(ty))], U, u);
    RenderFrame(ents, ents[e := ents[e].(typ := Some(ty))], R, r);
  }

  lemma TypedEnrolled(ents: map<EntId, Entity>, U: seq<EntId>, R: map<int, seq<EntId>>, T: map<string, seq<EntId>>,
                      e: EntId, ty: string)
    requires Enrolled(ents, U, R, T) && e in ents && ents[e].added
    ensures Enrolled(ents[e := ents[e].(typ := Some(ty))], U, R, Pushed(T, ty, e))
  {
    PushedMembers(T, ty, e);
    TypedMembers(ents, U, R, T, Pushed(T, ty, e), e, ty);
  }

  lemma TypedMembers(ents: map<EntId, Entity>, U: seq<EntId>, R: map<int, seq<EntId>>, T: map<string, seq<EntId>>,
                     T2: map<string, seq<EntId>>, e: EntId, ty: string)
    requires Enrolled(ents, U, R, T) && e in ents && ents[e].added
    requires forall k, y :: k in T2 && y in T2[k] ==> (k in T && y in T[k]) || y == e
    requires forall k, y :: k in T && y in T[k] ==> k in T2 && y in T2[k]
    requires ty in T2 && e in T2[ty]
    ensures Enrolled(ents[e := ents[e].(typ := Some(ty))], U, R, T2)
  {
  }

  lemma TypedLoose(ents: map<EntId, Entity>, U: seq<EntId>, R: map<int, seq<EntId>>, T: map<string, seq<EntId>>,
                   r: RenderTable, t: TypeTable, e: EntId, ty: string)
    requires TypeOK(ents, T, t) && Enrolled(ents, U, R, T) && e in ents && ents[e].added && ents[e].typ.None?
    requires RenderLoose(ents, r.lk) && TypeLoose(ents, t.lk)
    ensures RenderLoose(ents[e := ents[e].(typ := Some(ty))], r.lk)
    ensures TypeLoose(ents[e := ents[e].(typ := Some(ty))], TypeAdd(t, e, ty).lk)
  {
    var q := Chain(T, ty);
    assert Linked(t.lk, q);
    assert (if ty in t.first then Some(t.first[ty]) else None) == Head(q);
    assert TypeKeyed(ents, T);
    PushTouches(t.lk, q, e);
    TypedTypeLoose(ents, ents[e].(typ := Some(ty)), q, t.lk, TypeAdd(t, e, ty).lk, e);
  }

  lemma TypedTypeLoose(ents: map<EntId, Entity>, x2: Entity, ts: seq<EntId>, tl: LinkMap, tl2: LinkMap, e: EntId)
    requires TypeLoose(ents, tl) && e in ents && x2.added && x2.typ.Some?
    requires forall y :: y in ts ==> y in ents && ents[y].added && ents[y].typ.Some?
    requires forall y :: At(tl2, y) != Loose ==> y == e || y in ts || At(tl, y) != Loose
    ensures TypeLoose(ents[e := x2], tl2)
  {
  }

  /** A layer's list rearranged in place with the same entities: the whole picture
      still holds. */
  lemma Reordered(ents: map<EntId, Entity>, U: seq<EntId>, R: map<int, seq<EntId>>, T: map<string, seq<EntId>>,
                  u: UpdateTable, r: RenderTable, t: TypeTable, l: int, q: seq<EntId>, r2: RenderTable)
    requires ListsOK(ents, U, R, T, u, r, t) && l in R
    requires Rearranged(r, l, R[l], q, r2) && forall y :: y in R[l] ==> y in q
    ensures ListsOK(ents, U, R[l := q], T, u, r2, t)
  {
    RenderReorder(ents, R, r, l, q, r2);
    ReorderedEnrolled(ents, U, R, T, l, q);
    ReorderedLoose(ents, U, R, T, r, l, q, r2);
  }

  lemma ReorderedEnrolled(ents: map<EntId, Entity>, U: seq<EntId>, R: map<int, seq<EntId>>, T: map<string, seq<EntId>>,
                          l: int, q: seq<EntId>)
    requires Enrolled(ents, U, R, T) && l in R && forall y :: y in q <==> y in R[l]
    ensures Enrolled(ents, U, R[l := q], T)
  {
  }

  lemma ReorderedLoose(ents: map<EntId, Entity>, U: seq<EntId>, R: map<int, seq<EntId>>, T: map<string, seq<EntId>>,
                       r: RenderTable, l: int, q: seq<EntId>, r2: RenderTable)
    requires Enrolled(ents, U, R, T) && RenderLoose(ents, r.lk) && l in R
    requires forall y :: y !in R[l] ==> At(r2.lk, y) == At(r.lk, y)
    ensures RenderLoose(ents, r2.lk)
  {
  }

  /** Where the z-order moves start: an entity holding a render link is committed and
      on the list of its layer. */
  lemma Listed(ents: map<EntId, Entity>, U: seq<EntId>, R: map<int, seq<EntId>>, T: map<string, seq<EntId>>,
               u: UpdateTable, r: RenderTable, t: TypeTable, e: EntId)
    requires ListsOK(ents, U, R, T, u, r, t) && At(r.lk, e) != Loose
    ensures e in ents && ents[e].added && ents[e].layer in R && e in R[ents[e].layer]
  {
  }

  /** bringToFront: the layer keeps its entities, with `e` moved to the front; the
      whole picture still holds. */
  lemma ToFrontListed(ents: map<EntId, Entity>, U: seq<EntId>, R: map<int, seq<EntId>>, T: map<string, seq<EntId>>,
                      u: UpdateTable, r: RenderTable, t: TypeTable, e: EntId)
    requires ListsOK(ents, U, R, T, u, r, t) && At(r.lk, e).prev.Some?
    ensures e in ents && ents[e].layer in R && e in R[ents[e].layer] && ents[e].layer in r.first
    ensures IndexOf(R[ents[e].layer], e) > 0
    ensures var s := R[ents[e].layer];
            ListsOK(ents, U, R[ents[e].layer := [e] + Cut(s, IndexOf(s, e))], T, u, ToFront(r, e, ents[e].layer), t)
  {
    Listed(ents, U, R, T, u, r, t, e);
    FrontPlan(ents, R, r, e);
    var s := R[ents[e].layer];
    Reordered(ents, U, R, T, u, r, t, ents[e].layer, [e] + Cut(s, IndexOf(s, e)), ToFront(r, e, ents[e].layer));
  }

  lemma FrontPlan(ents: map<EntId, Entity>, R: map<int, seq<EntId>>, r: RenderTable, e: EntId)
    requires RenderOK(ents, R, r) && e in ents && ents[e].layer in R && e in R[ents[e].layer]
    requires At(r.lk, e).prev.Some?
    ensures var l, s := ents[e].layer, R[ents[e].layer];
            var i := IndexOf(s, e);
            l in r.first && i > 0 && Rearranged(r, l, s, [e] + Cut(s, i), ToFront(r, e, l)) &&
            forall y :: y in s ==> y in [e] + Cut(s, i)
  {
    Placed(ents, R, r, e);
    var l, s := ents[e].layer, R[ents[e].layer];
    var i := IndexOf(s, e) as nat;
    FrontCore(r, l, s, i);
    DistinctCut(s, i);
  }

  /** sendToBack: the layer keeps its entities, with `e` moved to the back. */
  lemma ToBackListed(ents: map<EntId, Entity>, U: seq<EntId>, R: map<int, seq<EntId>>, T: map<string, seq<EntId>>,
                     u: UpdateTable, r: RenderTable, t: TypeTable, e: EntId)
    requires ListsOK(ents, U, R, T, u, r, t) && At(r.lk, e).next.Some?
    ensures e in ents && ents[e].layer in R && e in R[ents[e].layer] && ents[e].layer in r.last
    ensures IndexOf(R[ents[e].layer], e) < |R[ents[e].layer]| - 1
    ensures var s := R[ents[e].layer];
            ListsOK(ents, U, R[ents[e].layer := Cut(s, IndexOf(s, e)) + [e]], T, u, ToBack(r, e, ents[e].layer), t)
  {
    Listed(ents, U, R, T, u, r, t, e);
    BackPlan(ents, R, r, e);
    var s := R[ents[e].layer];
    Reordered(ents, U, R, T, u, r, t, ents[e].layer, Cut(s, IndexOf(s, e)) + [e], ToBack(r, e, ents[e].layer));
  }

  lemma BackPlan(ents: map<EntId, Entity>, R: map<int, seq<EntId>>, r: RenderTable, e: EntId)
    requires RenderOK(ents, R, r) && e in ents && ents[e].layer in R && e in R[ents[e].layer]
    requires At(r.lk, e).next.Some?
    ensures var l, s := ents[e].layer, R[ents[e].layer];
            var i := IndexOf(s, e);
            l in r.last && i < |s| - 1 && Rearranged(r, l, s, Cut(s, i) + [e], ToBack(r, e, l)) &&
            forall y :: y in s ==> y in Cut(s, i) + [e]
  {
    Placed(ents, R, r, e);
    var l, s := ents[e].layer, R[ents[e].layer];
    var i := IndexOf(s, e) as nat;
    BackCore(r, l, s, i);
    DistinctCut(s, i);
  }

  /** bringForward: the layer keeps its entities, with `e` swapped with its predecessor. */
  lemma ForwardListed(ents: map<EntId, Entity>, U: seq<EntId>, R: map<int, seq<EntId>>, T: map<string, seq<EntId>>,
                      u: UpdateTable, r: RenderTable, t: TypeTable, e: EntId)
    requires ListsOK(ents, U, R, T, u, r, t) && At(r.lk, e).prev.Some?
    ensures e in ents && ents[e].layer in R && e in R[ents[e].layer]
    ensures IndexOf(R[ents[e].layer], e) > 0
    ensures var s := R[ents[e].layer];
            var i := IndexOf(s, e);
            ListsOK(ents, U, R[ents[e].layer := s[..i - 1] + [e, s[i - 1]] + s[i + 1..]], T, u, Forward(r, e, ents[e].layer), t)
  {
    Listed(ents, U, R, T, u, r, t, e);
    ForwardPlan(ents, R, r, e);
    var l := ents[e].layer;
    var s := R[l];
    var i := IndexOf(s, e);
    var q := s[..i - 1] + [e, s[i - 1]] + s[i + 1..];
    assert Rearranged(r, l, R[l], q, Forward(r, e, l)) && forall y :: y in R[l] ==> y in q;
    Reordered(ents, U, R, T, u, r, t, l, q, Forward(r, e, l));
  }

  lemma ForwardPlan(ents: map<EntId, Entity>, R: map<int, seq<EntId>>, r: RenderTable, e: EntId)
    requires RenderOK(ents, R, r) && e in ents && ents[e].layer in R && e in R[ents[e].layer]
    requires At(r.lk, e).prev.Some?
    ensures var l, s := ents[e].layer, R[ents[e].layer];
            var i := IndexOf(s, e);
            i > 0 && Rearranged(r, l, s, s[..i - 1] + [e, s[i - 1]] + s[i + 1..], Forward(r, e, l)) &&
            forall y :: y in s ==> y in s[..i - 1] + [e, s[i - 1]] + s[i + 1..]
  {
    Placed(ents, R, r, e);
    var l, s := ents[e].layer, R[ents[e].layer];
    var i := IndexOf(s, e) as nat;
    ForwardCore(r, l, s, i);
    SwapMembers(s, i - 1);
  }

  /** sendBackward: the layer keeps its entities, with `e` swapped with its successor. */
  lemma BackwardListed(ents: map<EntId, Entity>, U: seq<EntId>, R: map<int, seq<EntId>>, T: map<string, seq<EntId>>,
                       u: UpdateTable, r: RenderTable, t: TypeTable, e: EntId)
    requires ListsOK(ents, U, R, T, u, r, t) && At(r.lk, e).next.Some?
    ensures e in ents && ents[e].layer in R && e in R[ents[e].layer]
    ensures IndexOf(R[ents[e].layer], e) < |R[ents[e].layer]| - 1
    ensures var s := R[ents[e].layer];
            var i := IndexOf(s, e);
            ListsOK(ents, U, R[ents[e].layer := s[..i] + [s[i + 1], e] + s[i + 2..]], T, u, Backward(r, e, ents[e].layer), t)
  {
    Listed(ents, U, R, T, u, r, t, e);
    BackwardPlan(ents, R, r, e);
    var l := ents[e].layer;
    var s := R[l];
    var i := IndexOf(s, e);
    var q := s[..i] + [s[i + 1], e] + s[i + 2..];
    assert Rearranged(r, l, R[l], q, Backward(r, e, l)) && forall y :: y in R[l] ==> y in q;
    Reordered(ents, U, R, T, u, r, t, l, q, Backward(r, e, l));
  }

  lemma BackwardPlan(ents: map<EntId, Entity>, R: map<int, seq<EntId>>, r: RenderTable, e: EntId)
    requires RenderOK(ents, R, r) && e in ents && ents[e].layer in R && e in R[ents[e].layer]
    requires At(r.lk, e).next.Some?
    ensures var l, s := ents[e].layer, R[ents[e].layer];
            var i := IndexOf(s, e);
            i < |s| - 1 && Rearranged(r, l, s, s[..i] + [s[i + 1], e] + s[i + 2..], Backward(r, e, l)) &&
            forall y :: y in s ==> y in s[..i] + [s[i + 1], e] + s[i + 2..]
  {
    Placed(ents, R, r, e);
    var l, s := ents[e].layer, R[ents[e].layer];
    var i := IndexOf(s, e) as nat;
    BackwardCore(r, l, s, i);
    SwapMembers(s, i);
  }
}
