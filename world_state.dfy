// The World's state as one value, the invariant it keeps, and one lemma per step
// that changes it: each step the World's methods take is shown here to carry a
// good state to a good state.
module WorldState {
  import opened Common
  import opened Chains
  import opened Entities
  import Masks
  import opened Lists
  import opened Roster
  import opened Probes
  import opened WorldModel
  import PX

  /** Everything a World holds: the entity arena and its next free handle, the mask
      table, the two queues, the three list tables, the recycling stash, and the ghost
      order of the update, render and type lists. */
  datatype State = State(
    ents: map<EntId, Entity>, nextEnt: nat,
    masks: map<nat, Masks.Mask>, nextMask: nat,
    addQ: seq<EntId>, removeQ: seq<EntId>,
    updates: UpdateTable, render: RenderTable, types: TypeTable,
    recycled: Stash,
    U: seq<EntId>, R: map<int, seq<EntId>>, T: map<string, seq<EntId>>)

  /** Every entity of the arena has a handle below `nextEnt`, and is in this World or
      in none. */
  ghost predicate Closed(ents: map<EntId, Entity>, nextEnt: nat, id: nat)
  {
    forall x :: x in ents ==> x < nextEnt && (ents[x].world.None? || ents[x].world == Some(id))
  }

  /** The queues hold entities of the arena, in balance with their `world` and `added`
      fields. */
  ghost predicate Queued(ents: map<EntId, Entity>, aq: seq<EntId>, rq: seq<EntId>, id: nat)
  {
    (forall k :: 0 <= k < |aq| ==> aq[k] in ents) && (forall k :: 0 <= k < |rq| ==> rq[k] in ents) &&
    Balanced(ents, aq, rq, id)
  }

  /** The World invariant. */
  ghost predicate Good(s: State, id: nat)
  {
    Closed(s.ents, s.nextEnt, id) && ListsOK(s.ents, s.U, s.R, s.T, s.updates, s.render, s.types) &&
    Queued(s.ents, s.addQ, s.removeQ, id) && MasksOK(s.ents, s.masks) &&
    (forall m :: m in s.masks ==> m < s.nextMask) && StashOK(s.ents, s.recycled)
  }

  /** The empty World. */
  const Empty: State := State(map[], 0, map[], 0, [], [], NoUpdates, NoRender, NoTypes, NoStash, [], map[], map[])

  lemma EmptyGood(id: nat)
    ensures Good(Empty, id)
  {
  }

  /** The parts of the invariant outside the lists survive a change of records that
      keeps the handles, worlds, commitments and masks. */
  lemma SideFrame(ents: map<EntId, Entity>, ents2: map<EntId, Entity>, nextEnt: nat, aq: seq<EntId>, rq: seq<EntId>,
                  masks: map<nat, Masks.Mask>, st: Stash, id: nat)
    requires Closed(ents, nextEnt, id) && Queued(ents, aq, rq, id) && MasksOK(ents, masks) && StashOK(ents, st)
    requires ents2.Keys == ents.Keys
    requires forall x :: x in ents ==> ents2[x].world == ents[x].world && ents2[x].added == ents[x].added &&
                                       ents2[x].mask == ents[x].mask
    ensures Closed(ents2, nextEnt, id) && Queued(ents2, aq, rq, id) && MasksOK(ents2, masks) && StashOK(ents2, st)
  {
    forall x | x in ents2 ensures BalanceOf(ents2[x], multiset(aq)[x], multiset(rq)[x], id) {
      assert BalanceOf(ents[x], multiset(aq)[x], multiset(rq)[x], id);
    }
  }

  /** A state whose arena changes only in fields the lists, queues and masks do not
      read stays good. */
  lemma RecordsGood(s: State, id: nat, ents2: map<EntId, Entity>)
    requires Good(s, id)
    requires ents2.Keys == s.ents.Keys
    requires forall x :: x in s.ents ==> SameListing(s.ents[x], ents2[x]) && ents2[x].world == s.ents[x].world &&
                                         ents2[x].mask == s.ents[x].mask
    ensures Good(s.(ents := ents2), id)
  {
    ListsKept(s.ents, ents2, s.U, s.R, s.T, s.updates, s.render, s.types);
    SideFrame(s.ents, ents2, s.nextEnt, s.addQ, s.removeQ, s.masks, s.recycled, id);
  }

  /** The parts of the invariant outside the lists and queues survive a change of
      records that keeps the handles and masks and leaves every entity in this World
      or in none. */
  lemma Reworlded(ents: map<EntId, Entity>, ents2: map<EntId, Entity>, nextEnt: nat,
                  masks: map<nat, Masks.Mask>, st: Stash, id: nat)
    requires Closed(ents, nextEnt, id) && MasksOK(ents, masks) && StashOK(ents, st)
    requires ents2.Keys == ents.Keys
    requires forall x :: x in ents ==> ents2[x].mask == ents[x].mask && (ents2[x].world.None? || ents2[x].world == Some(id))
    ensures Closed(ents2, nextEnt, id) && MasksOK(ents2, masks) && StashOK(ents2, st)
  {
  }

  /** The queue balance reads only `world` and `added`. */
  lemma Rebalanced(ents: map<EntId, Entity>, ents2: map<EntId, Entity>, aq: seq<EntId>, rq: seq<EntId>, id: nat)
    requires Queued(ents, aq, rq, id) && ents2.Keys == ents.Keys
    requires forall x :: x in ents ==> ents2[x].world == ents[x].world && ents2[x].added == ents[x].added
    ensures Queued(ents2, aq, rq, id)
  {
    forall x | x in ents2 ensures BalanceOf(ents2[x], multiset(aq)[x], multiset(rq)[x], id) {
      assert BalanceOf(ents[x], multiset(aq)[x], multiset(rq)[x], id);
    }
  }

  /** A fresh entity at the next free handle is in no queue and holds no mask. */
  lemma FreshSide(ents: map<EntId, Entity>, nextEnt: nat, aq: seq<EntId>, rq: seq<EntId>,
                  masks: map<nat, Masks.Mask>, st: Stash, id: nat, cls: string)
    requires Closed(ents, nextEnt, id) && Queued(ents, aq, rq, id) && MasksOK(ents, masks) && StashOK(ents, st)
    ensures nextEnt !in ents
    ensures var ents2 := ents[nextEnt := NewEntity(cls)];
            Closed(ents2, nextEnt + 1, id) && Queued(ents2, aq, rq, id) && MasksOK(ents2, masks) && StashOK(ents2, st)
  {
    var e := nextEnt;
    var ents2 := ents[e := NewEntity(cls)];
    assert e !in aq && e !in rq;
    forall x | x in ents2 ensures BalanceOf(ents2[x], multiset(aq)[x], multiset(rq)[x], id) {
      if x != e { assert BalanceOf(ents[x], multiset(aq)[x], multiset(rq)[x], id); }
    }
  }

  /** A fresh uncommitted entity leaves the lists' picture alone. */
  lemma FreshKeeps(ents: map<EntId, Entity>, e: EntId, cls: string)
    requires e !in ents
    ensures Keeps(ents, ents[e := NewEntity(cls)])
  {
  }

  /** `new C()`: a fresh entity, in no World, at the next free handle. */
  lemma ConstructGood(s: State, id: nat, cls: string)
    requires Good(s, id)
    ensures s.nextEnt !in s.ents
    ensures Good(s.(ents := s.ents[s.nextEnt := NewEntity(cls)], nextEnt := s.nextEnt + 1), id)
  {
    FreshSide(s.ents, s.nextEnt, s.addQ, s.removeQ, s.masks, s.recycled, id, cls);
    FreshKeeps(s.ents, s.nextEnt, cls);
    ListsKept(s.ents, s.ents[s.nextEnt := NewEntity(cls)], s.U, s.R, s.T, s.updates, s.render, s.types);
  }

  /** World.add keeps the parts of the invariant outside the lists. */
  lemma AddSide(ents: map<EntId, Entity>, nextEnt: nat, aq: seq<EntId>, rq: seq<EntId>,
                masks: map<nat, Masks.Mask>, st: Stash, id: nat, e: EntId)
    requires Closed(ents, nextEnt, id) && Queued(ents, aq, rq, id) && MasksOK(ents, masks) && StashOK(ents, st)
    requires e in ents && ents[e].world.None?
    ensures var ents2 := ents[e := ents[e].(world := Some(id))];
            Closed(ents2, nextEnt, id) && Queued(ents2, aq + [e], rq, id) && MasksOK(ents2, masks) && StashOK(ents2, st)
  {
    var ents2 := ents[e := ents[e].(world := Some(id))];
    AddBalance(ents, aq, rq, id, e);
    Reworlded(ents, ents2, nextEnt, masks, st, id);
    forall k | 0 <= k < |aq + [e]| ensures (aq + [e])[k] in ents2 {
      if k < |aq| { assert (aq + [e])[k] == aq[k]; }
    }
  }

  /** A change of one entity's World leaves the lists' picture alone. */
  lemma WorldKeeps(ents: map<EntId, Entity>, e: EntId, w: Option<nat>)
    requires e in ents
    ensures Keeps(ents, ents[e := ents[e].(world := w)])
  {
  }

  /** World.add on an entity in no World. */
  lemma AddGood(s: State, id: nat, e: EntId)
    requires Good(s, id) && e in s.ents && s.ents[e].world.None?
    ensures Good(s.(ents := s.ents[e := s.ents[e].(world := Some(id))], addQ := s.addQ + [e]), id)
  {
    AddSide(s.ents, s.nextEnt, s.addQ, s.removeQ, s.masks, s.recycled, id, e);
    WorldKeeps(s.ents, e, Some(id));
    ListsKept(s.ents, s.ents[e := s.ents[e].(world := Some(id))], s.U, s.R, s.T, s.updates, s.render, s.types);
  }

  /** World.remove keeps the parts of the invariant outside the lists. */
  lemma RemoveSide(ents: map<EntId, Entity>, nextEnt: nat, aq: seq<EntId>, rq: seq<EntId>,
                   masks: map<nat, Masks.Mask>, st: Stash, id: nat, e: EntId)
    requires Closed(ents, nextEnt, id) && Queued(ents, aq, rq, id) && MasksOK(ents, masks) && StashOK(ents, st)
    requires e in ents && ents[e].world == Some(id)
    ensures var ents2 := ents[e := ents[e].(world := None)];
            Closed(ents2, nextEnt, id) && Queued(ents2, aq, rq + [e], id) && MasksOK(ents2, masks) && StashOK(ents2, st)
  {
    var ents2 := ents[e := ents[e].(world := None)];
    RemoveBalance(ents, aq, rq, id, e);
    Reworlded(ents, ents2, nextEnt, masks, st, id);
    forall k | 0 <= k < |rq + [e]| ensures (rq + [e])[k] in ents2 {
      if k < |rq| { assert (rq + [e])[k] == rq[k]; }
    }
  }

  /** World.remove on an entity of this World. */
  lemma RemoveGood(s: State, id: nat, e: EntId)
    requires Good(s, id) && e in s.ents && s.ents[e].world == Some(id)
    ensures Good(s.(ents := s.ents[e := s.ents[e].(world := None)], removeQ := s.removeQ + [e]), id)
  {
    RemoveSide(s.ents, s.nextEnt, s.addQ, s.removeQ, s.masks, s.recycled, id, e);
    WorldKeeps(s.ents, e, None);
    ListsKept(s.ents, s.ents[e := s.ents[e].(world := None)], s.U, s.R, s.T, s.updates, s.render, s.types);
  }

  /** The intended removeAll queues only entities it lists. */
  lemma RemoveAllQueues(ents: map<EntId, Entity>, rq: seq<EntId>, id: nat, s: seq<EntId>)
    requires forall k :: 0 <= k < |rq| ==> rq[k] in ents
    requires forall k :: 0 <= k < |s| ==> s[k] in ents
    ensures var p := RemoveAllFixed(ents, rq, s, id);
            forall k :: 0 <= k < |p.1| ==> p.1[k] in ents
  {
    var p := RemoveAllFixed(ents, rq, s, id);
    forall k | 0 <= k < |p.1| ensures p.1[k] in ents {
      if k < |rq| { assert p.1[k] == p.1[..|rq|][k]; }
    }
  }

  /** The intended removeAll changes only worlds, clearing them. */
  lemma RemoveAllKeeps(ents: map<EntId, Entity>, aq: seq<EntId>, rq: seq<EntId>, id: nat, s: seq<EntId>)
    requires Balanced(ents, aq, rq, id)
    requires forall k :: 0 <= k < |s| ==> s[k] in ents
    ensures var p := RemoveAllFixed(ents, rq, s, id);
            Balanced(p.0, aq, p.1, id) && Keeps(ents, p.0) &&
            forall x :: x in ents ==> p.0[x].mask == ents[x].mask && (p.0[x].world.None? || p.0[x].world == ents[x].world)
  {
    RemoveAllFixedBalance(ents, aq, rq, s, id);
  }

  /** The intended removeAll keeps the parts of the invariant outside the lists. */
  lemma RemoveAllSide(ents: map<EntId, Entity>, nextEnt: nat, aq: seq<EntId>, rq: seq<EntId>,
                      masks: map<nat, Masks.Mask>, st: Stash, id: nat, s: seq<EntId>)
    requires Closed(ents, nextEnt, id) && Queued(ents, aq, rq, id) && MasksOK(ents, masks) && StashOK(ents, st)
    requires forall k :: 0 <= k < |s| ==> s[k] in ents
    ensures var p := RemoveAllFixed(ents, rq, s, id);
            Closed(p.0, nextEnt, id) && Queued(p.0, aq, p.1, id) && MasksOK(p.0, masks) && StashOK(p.0, st) &&
            Keeps(ents, p.0) && forall x :: x in s ==> p.0[x].world.None?
  {
    var p := RemoveAllFixed(ents, rq, s, id);
    RemoveAllKeeps(ents, aq, rq, id, s);
    RemoveAllQueues(ents, rq, id, s);
    RemoveAllFixedBalance(ents, aq, rq, s, id);
    Reworlded(ents, p.0, nextEnt, masks, st, id);
  }

  /** World.removeAll as intended: each entity of the update list ends outside the
      World, and the state stays good. */
  lemma RemoveAllGood(s: State, id: nat, ents: map<EntId, Entity>, rq: seq<EntId>)
    requires Good(s, id)
    requires (ents, rq) == RemoveAllFixed(s.ents, s.removeQ, s.U, id)
    ensures Good(s.(ents := ents, removeQ := rq), id) && forall x :: x in s.U ==> ents[x].world.None?
  {
    assert forall k :: 0 <= k < |s.U| ==> s.U[k] in s.ents;
    var p := RemoveAllFixed(s.ents, s.removeQ, s.U, id);
    RemoveAllSide(s.ents, s.nextEnt, s.addQ, s.removeQ, s.masks, s.recycled, id, s.U);
    ListsKept(s.ents, p.0, s.U, s.R, s.T, s.updates, s.render, s.types);
  }

  // ---------------------------------------------------------------- updateLists

  /** The remove pass, patched case: the head of the remove queue is uncommitted and
      queued for addition, and is taken off the add queue. */
  lemma CancelGood(s: State, id: nat)
    requires Good(s, id) && s.removeQ != [] && !s.ents[s.removeQ[0]].added && s.removeQ[0] in s.addQ
    ensures Good(s.(addQ := Cut(s.addQ, IndexOf(s.addQ, s.removeQ[0])), removeQ := s.removeQ[1..]), id)
  {
    CancelQueued(s.ents, s.addQ, s.removeQ, id);
  }

  lemma CancelQueued(ents: map<EntId, Entity>, aq: seq<EntId>, rq: seq<EntId>, id: nat)
    requires Queued(ents, aq, rq, id) && rq != [] && !ents[rq[0]].added && rq[0] in aq
    ensures Queued(ents, Cut(aq, IndexOf(aq, rq[0])), rq[1..], id)
  {
    CancelBalance(ents, aq, rq, id);
    var aq2 := Cut(aq, IndexOf(aq, rq[0]));
    forall k | 0 <= k < |aq2| ensures aq2[k] in ents {
      if k < IndexOf(aq, rq[0]) { assert aq2[k] == aq[k]; } else { assert aq2[k] == aq[k + 1]; }
    }
    forall k | 0 <= k < |rq[1..]| ensures rq[1..][k] in ents {
      assert rq[1..][k] == rq[k + 1];
    }
  }

  /** The entity the remove pass leaves: uncommitted, and with its tweens cleared when
      it clears them automatically. */
  function Retired(x: Entity): (r: Entity)
    ensures !r.added && r.cls == x.cls && r.layer == x.layer && r.typ == x.typ && r.world == x.world
    ensures r.mask == x.mask && r.hasTweens == (x.hasTweens && !x.autoClear)
    ensures r.(hasTweens := x.hasTweens, added := x.added) == x
  {
    x.(added := false, hasTweens := if x.autoClear && x.hasTweens then false else x.hasTweens)
  }

  /** What taking `e` off its lists needs: it is on each of them, and the counts it
      lowers are not already zero. */
  ghost predicate RetireOK(s: State, e: EntId)
  {
    s.removeQ != [] && e in s.ents && e in s.U &&
    s.updates.count >= 1 && Count(s.updates.classCount, s.ents[e].cls) >= 1 &&
    s.ents[e].layer in s.R && e in s.R[s.ents[e].layer] &&
    s.ents[e].layer in s.render.layers && Count(s.render.counts, s.ents[e].layer) >= 1 &&
    (s.ents[e].typ.Some? ==>
       s.ents[e].typ.value in s.T && e in s.T[s.ents[e].typ.value] &&
       s.ents[e].typ.value in s.types.first && Count(s.types.counts, s.ents[e].typ.value) >= 1)
  }

  /** The state after the remove pass takes the committed entity `e` off its lists:
      removeUpdate, removeRender, and removeType when it has a type. */
  ghost function Retire(s: State, e: EntId): State
    requires RetireOK(s, e)
  {
    var x := s.ents[e];
    s.(ents := s.ents[e := Retired(x)], removeQ := s.removeQ[1..],
       updates := UpdateRemove(s.updates, e, x.cls), render := RenderRemove(s.render, e, x.layer),
       types := if x.typ.Some? then TypeRemove(s.types, e, x.typ.value) else s.types,
       U := Cut(s.U, IndexOf(s.U, e)), R := Dropped(s.R, x.layer, e),
       T := if x.typ.Some? then Dropped(s.T, x.typ.value, e) else s.T)
  }

  lemma RetireQueued(ents: map<EntId, Entity>, aq: seq<EntId>, rq: seq<EntId>, id: nat)
    requires Queued(ents, aq, rq, id) && rq != [] && (ents[rq[0]].added || rq[0] !in aq)
    ensures ents[rq[0]].added
    ensures Queued(ents[rq[0] := Retired(ents[rq[0]])], aq, rq[1..], id)
  {
    var e := rq[0];
    RetireBalance(ents, aq, rq, id);
    forall k | 0 <= k < |rq[1..]| ensures rq[1..][k] in ents {
      assert rq[1..][k] == rq[k + 1];
    }
    Rebalanced(ents[e := ents[e].(added := false)], ents[e := Retired(ents[e])], aq, rq[1..], id);
  }

  /** The remove pass keeps the parts of the invariant outside the lists. */
  lemma RetireSide(ents: map<EntId, Entity>, nextEnt: nat, aq: seq<EntId>, rq: seq<EntId>,
                   masks: map<nat, Masks.Mask>, st: Stash, id: nat)
    requires Closed(ents, nextEnt, id) && Queued(ents, aq, rq, id) && MasksOK(ents, masks) && StashOK(ents, st)
    requires rq != [] && (ents[rq[0]].added || rq[0] !in aq)
    ensures ents[rq[0]].added
    ensures var ents2 := ents[rq[0] := Retired(ents[rq[0]])];
            Closed(ents2, nextEnt, id) && Queued(ents2, aq, rq[1..], id) && MasksOK(ents2, masks) && StashOK(ents2, st)
  {
    RetireQueued(ents, aq, rq, id);
    Reworlded(ents, ents[rq[0] := Retired(ents[rq[0]])], nextEnt, masks, st, id);
  }

  /** The remove pass, ordinary case: the head of the remove queue is committed, and
      taking it off its lists keeps the state good. */
  lemma RetireGood(s: State, id: nat)
    requires Good(s, id) && s.removeQ != [] && (s.ents[s.removeQ[0]].added || s.removeQ[0] !in s.addQ)
    ensures var e := s.removeQ[0];
            s.ents[e].added && RetireOK(s, e) && Good(Retire(s, e), id)
  {
    var e := s.removeQ[0];
    RetireSide(s.ents, s.nextEnt, s.addQ, s.removeQ, s.masks, s.recycled, id);
    var x2 := Retired(s.ents[e]);
    Unlisted(s.ents, s.U, s.R, s.T, s.updates, s.render, s.types, e, x2);
  }

  /** The state after the add pass commits `e`: addUpdate, addRender, and addType when
      it has a type. */
  ghost function Commit(s: State, e: EntId): State
    requires e in s.ents && s.addQ != []
  {
    var x := s.ents[e].(added := true);
    s.(ents := s.ents[e := x], addQ := s.addQ[1..],
       updates := UpdateAdd(s.updates, e, x.cls), render := RenderAdd(s.render, e, x.layer),
       types := if x.typ.Some? then TypeAdd(s.types, e, x.typ.value) else s.types,
       U := [e] + s.U, R := Pushed(s.R, x.layer, e),
       T := if x.typ.Some? then Pushed(s.T, x.typ.value, e) else s.T)
  }

  lemma CommitQueued(ents: map<EntId, Entity>, aq: seq<EntId>, id: nat)
    requires Queued(ents, aq, [], id) && aq != []
    ensures aq[0] in ents && ents[aq[0]].world == Some(id) && !ents[aq[0]].added
    ensures Queued(ents[aq[0] := ents[aq[0]].(added := true)], aq[1..], [], id)
  {
    CommitBalance(ents, aq, id);
    forall k | 0 <= k < |aq[1..]| ensures aq[1..][k] in ents {
      assert aq[1..][k] == aq[k + 1];
    }
  }

  /** The add pass keeps the parts of the invariant outside the lists. */
  lemma CommitSide(ents: map<EntId, Entity>, nextEnt: nat, aq: seq<EntId>,
                   masks: map<nat, Masks.Mask>, st: Stash, id: nat)
    requires Closed(ents, nextEnt, id) && Queued(ents, aq, [], id) && MasksOK(ents, masks) && StashOK(ents, st)
    requires aq != []
    ensures aq[0] in ents && ents[aq[0]].world == Some(id) && !ents[aq[0]].added
    ensures var ents2 := ents[aq[0] := ents[aq[0]].(added := true)];
            Closed(ents2, nextEnt, id) && Queued(ents2, aq[1..], [], id) && MasksOK(ents2, masks) && StashOK(ents2, st)
  {
    CommitQueued(ents, aq, id);
    Reworlded(ents, ents[aq[0] := ents[aq[0]].(added := true)], nextEnt, masks, st, id);
  }

  /** The add pass: once the remove queue is empty, the head of the add queue is an
      uncommitted entity of this World, and committing it keeps the state good. */
  lemma CommitGood(s: State, id: nat)
    requires Good(s, id) && s.removeQ == [] && s.addQ != []
    ensures s.addQ[0] in s.ents && s.ents[s.addQ[0]].world == Some(id) && !s.ents[s.addQ[0]].added
    ensures Good(Commit(s, s.addQ[0]), id)
  {
    var e := s.addQ[0];
    CommitSide(s.ents, s.nextEnt, s.addQ, s.masks, s.recycled, id);
    Enlisted(s.ents, s.U, s.R, s.T, s.updates, s.render, s.types, e, s.ents[e].(added := true));
  }

  /** The sort at the end of updateLists. */
  lemma SortGood(s: State, id: nat)
    requires Good(s, id)
    ensures Good(s.(render := RenderSort(s.render)), id)
    ensures PX.Sorted(RenderSort(s.render).layers) && !RenderSort(s.render).sortPending
  {
    RenderSorted(s.ents, s.R, s.render);
  }

  /** With both queues empty, the committed entities are exactly those in this World,
      and they are exactly the entities of the update list. */
  lemma SettledGood(s: State, id: nat)
    requires Good(s, id) && s.addQ == [] && s.removeQ == []
    ensures forall x :: x in s.ents ==> (s.ents[x].added <==> s.ents[x].world == Some(id))
    ensures forall x :: x in s.U <==> x in s.ents && s.ents[x].world == Some(id)
  {
    SettledBalance(s.ents, id);
  }

  // ---------------------------------------------------------------- updateLists as a whole

  /** The patched case of the remove pass: the entity leaves the add queue instead. */
  function Cancel(s: State): State
    requires s.removeQ != [] && s.removeQ[0] in s.addQ
  {
    s.(addQ := Cut(s.addQ, IndexOf(s.addQ, s.removeQ[0])), removeQ := s.removeQ[1..])
  }

  /** The calls the remove pass makes on a committed entity `x` it takes off the lists. */
  function RetireHooks(x: Entity, e: EntId): (r: seq<Hook>)
    ensures Removed(e) in r && (TweensCleared(e) in r <==> x.autoClear && x.hasTweens)
  {
    [Removed(e)] + (if x.autoClear && x.hasTweens then [TweensCleared(e)] else [])
  }

  /** The remove pass of updateLists: the remove queue in order, each entry either taken
      off the add queue or taken off its lists; the state and the calls made. */
  ghost function RemovePass(s: State, id: nat): (r: (State, seq<Hook>))
    requires Good(s, id)
    ensures r.0.removeQ == []
    decreases |s.removeQ|
  {
    if s.removeQ == [] then (s, [])
    else
      var e := s.removeQ[0];
      if !s.ents[e].added && e in s.addQ then
        CancelGood(s, id);
        RemovePass(Cancel(s), id)
      else
        RetireGood(s, id);
        var p := RemovePass(Retire(s, e), id);
        (p.0, RetireHooks(s.ents[e], e) + p.1)
  }

  /** The add pass of updateLists: the add queue in order, each entry committed to its
      lists and told it was added. */
  ghost function AddPass(s: State, id: nat): (r: (State, seq<Hook>))
    requires Good(s, id) && s.removeQ == []
    ensures r.0.addQ == [] && r.0.removeQ == []
    decreases |s.addQ|
  {
    if s.addQ == [] then (s, [])
    else
      var e := s.addQ[0];
      CommitGood(s, id);
      var p := AddPass(Commit(s, e), id);
      (p.0, [Added(e)] + p.1)
  }

  /** The remove pass keeps the invariant. */
  lemma {:induction false} RemovePassGood(s: State, id: nat)
    requires Good(s, id)
    ensures Good(RemovePass(s, id).0, id)
    decreases |s.removeQ|
  {
    if s.removeQ != [] {
      var e := s.removeQ[0];
      if !s.ents[e].added && e in s.addQ {
        CancelGood(s, id);
        RemovePassGood(Cancel(s), id);
      } else {
        RetireGood(s, id);
        RemovePassGood(Retire(s, e), id);
      }
    }
  }

  /** The add pass keeps the invariant. */
  lemma {:induction false} AddPassGood(s: State, id: nat)
    requires Good(s, id) && s.removeQ == []
    ensures Good(AddPass(s, id).0, id)
    decreases |s.addQ|
  {
    if s.addQ != [] {
      CommitGood(s, id);
      AddPassGood(Commit(s, s.addQ[0]), id);
    }
  }

  /** updateLists: the remove pass, the add pass, then the pending layer sort. */
  ghost function UpdateLists(s: State, id: nat): (r: (State, seq<Hook>))
    requires Good(s, id)
    ensures Good(r.0, id) && r.0.addQ == [] && r.0.removeQ == []
    ensures PX.Sorted(r.0.render.layers) && !r.0.render.sortPending
  {
    var a := RemovePass(s, id);
    RemovePassGood(s, id);
    var b := AddPass(a.0, id);
    AddPassGood(a.0, id);
    SortGood(b.0, id);
    (b.0.(render := RenderSort(b.0.render)), a.1 + b.1)
  }

  /** After updateLists the committed entities are exactly those whose World is this
      one, and they are exactly the entities on the update list. */
  lemma UpdateListsSettles(s: State, id: nat)
    requires Good(s, id)
    ensures var r := UpdateLists(s, id).0;
            (forall x :: x in r.ents ==> (r.ents[x].added <==> r.ents[x].world == Some(id))) &&
            (forall x :: x in r.U <==> x in r.ents && r.ents[x].world == Some(id))
  {
    SettledGood(UpdateLists(s, id).0, id);
  }

  /** `b` holds the entities of `a`, differing at most in commitment and, when `tweens`,
      in the tween list. */
  ghost predicate Reflagged(a: map<EntId, Entity>, b: map<EntId, Entity>, tweens: bool)
  {
    b.Keys == a.Keys &&
    forall x :: x in a ==> b[x] == a[x].(added := b[x].added, hasTweens := if tweens then b[x].hasTweens else a[x].hasTweens)
  }

  lemma ReflaggedChain(a: map<EntId, Entity>, b: map<EntId, Entity>, c: map<EntId, Entity>, tweens: bool)
    requires Reflagged(a, b, tweens) && Reflagged(b, c, tweens)
    ensures Reflagged(a, c, tweens)
  {
  }

  lemma ReflaggedOne(a: map<EntId, Entity>, e: EntId, x2: Entity, tweens: bool)
    requires e in a && x2 == a[e].(added := x2.added, hasTweens := if tweens then x2.hasTweens else a[e].hasTweens)
    ensures Reflagged(a, a[e := x2], tweens)
  {
  }

  /** One step of the remove pass, as far as the records go. */
  lemma RemoveStepEnts(s: State, id: nat)
    requires Good(s, id) && s.removeQ != []
    ensures var e := s.removeQ[0];
            if !s.ents[e].added && e in s.addQ then Good(Cancel(s), id) && Cancel(s).ents == s.ents && Cancel(s).removeQ == s.removeQ[1..]
            else RetireOK(s, e) && Good(Retire(s, e), id) && Reflagged(s.ents, Retire(s, e).ents, true) && Retire(s, e).removeQ == s.removeQ[1..]
  {
    var e := s.removeQ[0];
    if !s.ents[e].added && e in s.addQ {
      CancelGood(s, id);
    } else {
      RetireGood(s, id);
      ReflaggedOne(s.ents, e, Retired(s.ents[e]), true);
    }
  }

  /** The remove pass changes no entity's World or any field but `added` and the tween
      list. */
  lemma {:induction false} RemovePassFrame(s: State, id: nat)
    requires Good(s, id)
    ensures Reflagged(s.ents, RemovePass(s, id).0.ents, true)
    decreases |s.removeQ|
  {
    if s.removeQ != [] {
      var e := s.removeQ[0];
      RemoveStepEnts(s, id);
      if !s.ents[e].added && e in s.addQ {
        RemovePassFrame(Cancel(s), id);
      } else {
        RemovePassFrame(Retire(s, e), id);
        ReflaggedChain(s.ents, Retire(s, e).ents, RemovePass(s, id).0.ents, true);
      }
    }
  }

  /** The hooks of the remove pass: those of its first step, then those of the rest. */
  lemma RemovePassUnfold(s: State, id: nat)
    requires Good(s, id) && s.removeQ != []
    ensures var e := s.removeQ[0];
            if !s.ents[e].added && e in s.addQ then Good(Cancel(s), id) && RemovePass(s, id) == RemovePass(Cancel(s), id)
            else RetireOK(s, e) && Good(Retire(s, e), id) &&
                 RemovePass(s, id) == (RemovePass(Retire(s, e), id).0, RetireHooks(s.ents[e], e) + RemovePass(Retire(s, e), id).1)
  {
    RemoveStepEnts(s, id);
  }

  /** Calls to `removed` and `clearTweens` only, on entities of `q`. */
  ghost predicate RemovalHooks(hs: seq<Hook>, q: seq<EntId>)
  {
    forall h :: h in hs ==> (h.Removed? || h.TweensCleared?) && h.e in q
  }

  lemma RemovalHooksJoin(head: seq<Hook>, tail: seq<Hook>, q: seq<EntId>)
    requires q != [] && RemovalHooks(tail, q[1..])
    requires head == [] || exists x :: head == RetireHooks(x, q[0])
    ensures RemovalHooks(head + tail, q)
  {
    forall h | h in head + tail ensures (h.Removed? || h.TweensCleared?) && h.e in q {
      if h in tail {
        assert h.e in q[1..];
      }
    }
  }

  /** The remove pass calls only `removed` and `clearTweens`, on entities it was asked
      to remove. */
  lemma {:induction false} RemovePassHooks(s: State, id: nat)
    requires Good(s, id)
    ensures RemovalHooks(RemovePass(s, id).1, s.removeQ)
    decreases |s.removeQ|
  {
    if s.removeQ != [] {
      var e := s.removeQ[0];
      RemovePassUnfold(s, id);
      if !s.ents[e].added && e in s.addQ {
        RemovePassHooks(Cancel(s), id);
        RemovalHooksJoin([], RemovePass(Cancel(s), id).1, s.removeQ);
      } else {
        RemovePassHooks(Retire(s, e), id);
        RemovalHooksJoin(RetireHooks(s.ents[e], e), RemovePass(Retire(s, e), id).1, s.removeQ);
      }
    }
  }

  /** The add pass changes no field but `added`. */
  lemma {:induction false} AddPassFrame(s: State, id: nat)
    requires Good(s, id) && s.removeQ == []
    ensures Reflagged(s.ents, AddPass(s, id).0.ents, false)
    decreases |s.addQ|
  {
    if s.addQ != [] {
      var e := s.addQ[0];
      CommitGood(s, id);
      ReflaggedOne(s.ents, e, s.ents[e].(added := true), false);
      AddPassFrame(Commit(s, e), id);
      ReflaggedChain(s.ents, Commit(s, e).ents, AddPass(s, id).0.ents, false);
    }
  }

  /** The hooks of the add pass: `added` for its first entity, then those of the rest. */
  lemma AddPassUnfold(s: State, id: nat)
    requires Good(s, id) && s.removeQ == [] && s.addQ != []
    ensures Good(Commit(s, s.addQ[0]), id) && Commit(s, s.addQ[0]).addQ == s.addQ[1..] && Commit(s, s.addQ[0]).removeQ == []
    ensures AddPass(s, id) == (AddPass(Commit(s, s.addQ[0]), id).0, [Added(s.addQ[0])] + AddPass(Commit(s, s.addQ[0]), id).1)
  {
    CommitGood(s, id);
  }

  /** The add pass tells each entity of the add queue, in queue order, that it was
      added, and makes no other call. */
  lemma {:induction false} AddPassHooks(s: State, id: nat)
    requires Good(s, id) && s.removeQ == []
    ensures |AddPass(s, id).1| == |s.addQ| && forall k :: 0 <= k < |s.addQ| ==> AddPass(s, id).1[k] == Added(s.addQ[k])
    decreases |s.addQ|
  {
    if s.addQ != [] {
      AddPassUnfold(s, id);
      var rest := Commit(s, s.addQ[0]);
      AddPassHooks(rest, id);
      AddedCons(AddPass(s, id).1, AddPass(rest, id).1, s.addQ);
    }
  }

  /** Prepending the first entity's `added` call to the calls of the rest of the
      queue gives one `added` call per queued entity, in order. */
  lemma AddedCons(h: seq<Hook>, rest: seq<Hook>, q: seq<EntId>)
    requires q != [] && h == [Added(q[0])] + rest
    requires |rest| == |q| - 1 && forall k :: 0 <= k < |q| - 1 ==> rest[k] == Added(q[1..][k])
    ensures |h| == |q| && forall k :: 0 <= k < |q| ==> h[k] == Added(q[k])
  {
    forall k | 0 <= k < |q| ensures h[k] == Added(q[k]) {
      if k > 0 { assert h[k] == rest[k - 1] && q[1..][k - 1] == q[k]; }
    }
  }

  /** updateLists changes no entity's World, class, layer, type, position, flags,
      graphic or mask: only commitment and the tween list. */
  lemma UpdateListsFrame(s: State, id: nat)
    requires Good(s, id)
    ensures Reflagged(s.ents, UpdateLists(s, id).0.ents, true)
  {
    RemovePassFrame(s, id);
    RemovePassGood(s, id);
    AddPassFrame(RemovePass(s, id).0, id);
    ReflaggedChain(s.ents, RemovePass(s, id).0.ents, UpdateLists(s, id).0.ents, true);
  }

  /** A walk of the update list from `_updateFirst` along `_updateNext` visits the
      update list in order. */
  lemma UpdateWalk(s: State, id: nat)
    requires Good(s, id)
    ensures s.updates.first == Head(s.U) && Linked(s.updates.lk, s.U)
    ensures forall k :: 0 <= k < |s.U| ==> s.U[k] in s.ents
  {
  }
}
