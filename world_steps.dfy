// The World operations outside updateLists, as steps on WorldState.State: for each,
// the state it leaves and a lemma that it keeps the World invariant. The recycling
// stash, the z-order moves, the layer, type and mask setters and the Hitbox setters
// change a few fields each; the queries and the two walks change nothing and read
// the lists through the facts collected here.
module WorldSteps {
  import opened Common
  import opened Chains
  import opened Entities
  import Masks
  import opened Lists
  import opened Roster
  import opened Probes
  import opened WorldModel
  import opened WorldState

  /** A change to the mask table or the stash alone keeps the World good when the new
      table and stash are in order. */
  lemma SideSwap(s: State, id: nat, masks: map<nat, Masks.Mask>, nextMask: nat, st: Stash)
    requires Good(s, id) && MasksOK(s.ents, masks) && (forall m :: m in masks ==> m < nextMask)
    requires StashOK(s.ents, st)
    ensures Good(s.(masks := masks, nextMask := nextMask, recycled := st), id)
  {
  }

  /** A change to the arena and the lists alone keeps the World good when the lists are
      in order over the new arena and each entity keeps its world, flag and mask. */
  lemma ListsSwap(s: State, id: nat, s2: State)
    requires Good(s, id)
    requires s2.nextEnt == s.nextEnt && s2.addQ == s.addQ && s2.removeQ == s.removeQ
    requires s2.masks == s.masks && s2.nextMask == s.nextMask && s2.recycled == s.recycled
    requires s2.ents.Keys == s.ents.Keys
    requires forall x :: x in s.ents ==>
               s2.ents[x].world == s.ents[x].world && s2.ents[x].added == s.ents[x].added &&
               s2.ents[x].mask == s.ents[x].mask
    requires ListsOK(s2.ents, s2.U, s2.R, s2.T, s2.updates, s2.render, s2.types)
    ensures Good(s2, id)
  {
    SideFrame(s.ents, s2.ents, s.nextEnt, s.addQ, s.removeQ, s.masks, s.recycled, id);
  }

  /** The same for a change of one entity that keeps its world, flag and mask. */
  lemma OneSwap(s: State, id: nat, e: EntId, x2: Entity, U: seq<EntId>, R: map<int, seq<EntId>>,
                T: map<string, seq<EntId>>, u: UpdateTable, r: RenderTable, t: TypeTable)
    requires Good(s, id) && e in s.ents
    requires x2.world == s.ents[e].world && x2.added == s.ents[e].added && x2.mask == s.ents[e].mask
    requires ListsOK(s.ents[e := x2], U, R, T, u, r, t)
    ensures Good(s.(ents := s.ents[e := x2], U := U, R := R, T := T, updates := u, render := r, types := t), id)
  {
    OneSides(s.ents, e, x2, s.nextEnt, s.addQ, s.removeQ, s.masks, s.recycled, id);
    Assemble(s.(ents := s.ents[e := x2], U := U, R := R, T := T, updates := u, render := r, types := t), id);
  }

  lemma OneSides(ents: map<EntId, Entity>, e: EntId, x2: Entity, nextEnt: nat, aq: seq<EntId>, rq: seq<EntId>,
                 masks: map<nat, Masks.Mask>, st: Stash, id: nat)
    requires Closed(ents, nextEnt, id) && Queued(ents, aq, rq, id) && MasksOK(ents, masks) && StashOK(ents, st)
    requires e in ents && x2.world == ents[e].world && x2.added == ents[e].added && x2.mask == ents[e].mask
    ensures Closed(ents[e := x2], nextEnt, id) && Queued(ents[e := x2], aq, rq, id)
    ensures MasksOK(ents[e := x2], masks) && StashOK(ents[e := x2], st)
  {
    SideFrame(ents, ents[e := x2], nextEnt, aq, rq, masks, st, id);
  }

  /** The World invariant from its parts. */
  lemma Assemble(s: State, id: nat)
    requires Closed(s.ents, s.nextEnt, id) && ListsOK(s.ents, s.U, s.R, s.T, s.updates, s.render, s.types)
    requires Queued(s.ents, s.addQ, s.removeQ, id) && MasksOK(s.ents, s.masks)
    requires (forall m :: m in s.masks ==> m < s.nextMask) && StashOK(s.ents, s.recycled)
    ensures Good(s, id)
  {
  }

  // ---------------------------------------------------------------- recycling

  /** create's stash step keeps the World good, and hands out an entity of the arena. */
  lemma PopGood(s: State, id: nat, cls: string)
    requires Good(s, id)
    ensures var p := Pop(s.recycled, cls);
            (p.0.Some? ==> p.0.value in s.ents) && Good(s.(recycled := p.1), id)
  {
    var st := Pop(s.recycled, cls).1;
    PopOK(s.ents, s.recycled, cls);
    SideSwap(s, id, s.masks, s.nextMask, st);
    assert s.(masks := s.masks, nextMask := s.nextMask, recycled := st) == s.(recycled := st);
  }

  lemma PopOK(ents: map<EntId, Entity>, st: Stash, cls: string)
    requires StashOK(ents, st)
    ensures var p := Pop(st, cls); (p.0.Some? ==> p.0.value in ents) && StashOK(ents, p.1)
  {
  }

  /** recycle's stash step keeps the World good. */
  lemma PushGood(s: State, id: nat, e: EntId)
    requires Good(s, id) && e in s.ents
    ensures Good(s.(recycled := Push(s.recycled, s.ents[e].cls, e)), id)
  {
    var st := Push(s.recycled, s.ents[e].cls, e);
    PushOK(s.ents, s.recycled, s.ents[e].cls, e);
    SideSwap(s, id, s.masks, s.nextMask, st);
    assert s.(masks := s.masks, nextMask := s.nextMask, recycled := st) == s.(recycled := st);
  }

  lemma PushOK(ents: map<EntId, Entity>, st: Stash, cls: string, e: EntId)
    requires StashOK(ents, st) && e in ents
    ensures StashOK(ents, Push(st, cls, e))
  {
  }

  /** What clearRecycled leaves: the class has no stash, and the links of the entities
      it walked are cleared. */
  function Cleared(st: Stash, cls: string): (r: Stash)
    ensures cls !in r.heads && forall c :: c != cls ==> (c in r.heads <==> c in st.heads)
  {
    Stash(st.heads - {cls}, Strip(st.next, Top(st, cls)))
  }

  lemma ClearedGood(s: State, id: nat, cls: string)
    requires Good(s, id)
    ensures Good(s.(recycled := Cleared(s.recycled, cls)), id)
  {
    var st := Cleared(s.recycled, cls);
    ClearedOK(s.ents, s.recycled, cls);
    SideSwap(s, id, s.masks, s.nextMask, st);
    assert s.(masks := s.masks, nextMask := s.nextMask, recycled := st) == s.(recycled := st);
  }

  lemma ClearedOK(ents: map<EntId, Entity>, st: Stash, cls: string)
    requires StashOK(ents, st)
    ensures StashOK(ents, Cleared(st, cls))
  {
    StripSub(st.next, Top(st, cls));
  }

  /** clearRecycled on a class whose stash is the stack `s`: the class loses its head,
      the stack's entities lose their links, and every other class keeps its stack. */
  lemma ClearedMeaning(st: Stash, cls: string, s: seq<EntId>)
    requires Stacked(st, cls, s)
    ensures cls !in Cleared(st, cls).heads
    ensures Cleared(st, cls).next == st.next - (set x | x in s)
    ensures forall c, q :: c != cls && Stacked(st, c, q) && (forall x :: x in q ==> x !in s) ==>
              Stacked(Cleared(st, cls), c, q)
  {
    if s != [] {
      StripStack(st.next, s);
    }
    forall c, q | c != cls && Stacked(st, c, q) && (forall x :: x in q ==> x !in s)
      ensures Stacked(Cleared(st, cls), c, q)
    {
      if q != [] {
        var r := Cleared(st, cls);
        assert q[|q| - 1] !in r.next;
        forall i | 0 <= i < |q| - 1 ensures q[i] in r.next && r.next[q[i]] == q[i + 1] {
          assert q[i] in q;
        }
      }
    }
  }

  /** World.add's effect: an entity in no World joins the add queue with this World as
      its own; an entity in a World is left alone. */
  ghost function Joined(s: State, id: nat, e: EntId): State
    requires e in s.ents
  {
    if s.ents[e].world.Some? then s
    else s.(ents := s.ents[e := s.ents[e].(world := Some(id))], addQ := s.addQ + [e])
  }

  // ---------------------------------------------------------------- z-order moves

  /** The list of `e`'s layer after bringToFront. */
  function Fronted(q: seq<EntId>, e: EntId): seq<EntId>
    requires e in q
  {
    [e] + Cut(q, IndexOf(q, e))
  }

  /** The list of `e`'s layer after sendToBack. */
  function Backed(q: seq<EntId>, e: EntId): seq<EntId>
    requires e in q
  {
    Cut(q, IndexOf(q, e)) + [e]
  }

  /** The list of `e`'s layer after bringForward: `e` swapped with its predecessor. */
  function Forwarded(q: seq<EntId>, e: EntId): seq<EntId>
    requires e in q && IndexOf(q, e) > 0
  {
    var i := IndexOf(q, e);
    q[..i - 1] + [e, q[i - 1]] + q[i + 1..]
  }

  /** The list of `e`'s layer after sendBackward: `e` swapped with its successor. */
  function Backwarded(q: seq<EntId>, e: EntId): seq<EntId>
    requires e in q && IndexOf(q, e) < |q| - 1
  {
    var i := IndexOf(q, e);
    q[..i] + [q[i + 1], e] + q[i + 2..]
  }

  /** An entity with a render predecessor is listed, not at the head of its layer. */
  lemma FrontGood(s: State, id: nat, e: EntId)
    requires Good(s, id) && At(s.render.lk, e).prev.Some?
    ensures e in s.ents && s.ents[e].layer in s.R && e in s.R[s.ents[e].layer] && s.ents[e].layer in s.render.first
    ensures IndexOf(s.R[s.ents[e].layer], e) > 0
    ensures var l := s.ents[e].layer;
            Good(s.(render := ToFront(s.render, e, l), R := s.R[l := Fronted(s.R[l], e)]), id)
  {
    ToFrontListed(s.ents, s.U, s.R, s.T, s.updates, s.render, s.types, e);
  }

  lemma BackGood(s: State, id: nat, e: EntId)
    requires Good(s, id) && At(s.render.lk, e).next.Some?
    ensures e in s.ents && s.ents[e].layer in s.R && e in s.R[s.ents[e].layer] && s.ents[e].layer in s.render.last
    ensures IndexOf(s.R[s.ents[e].layer], e) < |s.R[s.ents[e].layer]| - 1
    ensures var l := s.ents[e].layer;
            Good(s.(render := ToBack(s.render, e, l), R := s.R[l := Backed(s.R[l], e)]), id)
  {
    ToBackListed(s.ents, s.U, s.R, s.T, s.updates, s.render, s.types, e);
  }

  lemma ForwardGood(s: State, id: nat, e: EntId)
    requires Good(s, id) && At(s.render.lk, e).prev.Some?
    ensures e in s.ents && s.ents[e].layer in s.R && e in s.R[s.ents[e].layer]
    ensures IndexOf(s.R[s.ents[e].layer], e) > 0
    ensures var l := s.ents[e].layer;
            Good(s.(render := Forward(s.render, e, l), R := s.R[l := Forwarded(s.R[l], e)]), id)
  {
    ForwardListed(s.ents, s.U, s.R, s.T, s.updates, s.render, s.types, e);
  }

  lemma BackwardGood(s: State, id: nat, e: EntId)
    requires Good(s, id) && At(s.render.lk, e).next.Some?
    ensures e in s.ents && s.ents[e].layer in s.R && e in s.R[s.ents[e].layer]
    ensures IndexOf(s.R[s.ents[e].layer], e) < |s.R[s.ents[e].layer]| - 1
    ensures var l := s.ents[e].layer;
            Good(s.(render := Backward(s.render, e, l), R := s.R[l := Backwarded(s.R[l], e)]), id)
  {
    BackwardListed(s.ents, s.U, s.R, s.T, s.updates, s.render, s.types, e);
  }

  /** Each move keeps the layer's entities, and puts `e` where its name says. */
  lemma FrontedKeeps(q: seq<EntId>, e: EntId)
    requires e in q
    ensures multiset(Fronted(q, e)) == multiset(q) && Fronted(q, e)[0] == e
  {
    var i := IndexOf(q, e);
    assert q == q[..i] + [e] + q[i + 1..];
  }

  lemma BackedKeeps(q: seq<EntId>, e: EntId)
    requires e in q
    ensures multiset(Backed(q, e)) == multiset(q) && Backed(q, e)[|q| - 1] == e
  {
    var i := IndexOf(q, e);
    assert q == q[..i] + [e] + q[i + 1..];
  }

  lemma ForwardedKeeps(q: seq<EntId>, e: EntId)
    requires e in q && IndexOf(q, e) > 0
    ensures multiset(Forwarded(q, e)) == multiset(q) && Forwarded(q, e)[IndexOf(q, e) - 1] == e
  {
    var i := IndexOf(q, e);
    var a, c := q[..i - 1], q[i + 1..];
    SplitPair(q, i - 1);
    assert q == a + [q[i - 1], e] + c;
    assert Forwarded(q, e) == a + [e, q[i - 1]] + c;
    SwapKeeps(a, q[i - 1], e, c);
    assert (a + [e, q[i - 1]] + c)[i - 1] == e;
  }

  lemma BackwardedKeeps(q: seq<EntId>, e: EntId)
    requires e in q && IndexOf(q, e) < |q| - 1
    ensures multiset(Backwarded(q, e)) == multiset(q) && Backwarded(q, e)[IndexOf(q, e) + 1] == e
  {
    var i := IndexOf(q, e);
    var a, c := q[..i], q[i + 2..];
    SplitPair(q, i);
    assert q == a + [e, q[i + 1]] + c;
    assert Backwarded(q, e) == a + [q[i + 1], e] + c;
    SwapKeeps(a, e, q[i + 1], c);
    assert (a + [q[i + 1], e] + c)[i + 1] == e;
  }

  lemma SplitPair(q: seq<EntId>, i: nat)
    requires i + 1 < |q|
    ensures q == q[..i] + [q[i], q[i + 1]] + q[i + 2..]
  {
    assert q[..i + 2] == q[..i] + [q[i], q[i + 1]];
    assert q == q[..i + 2] + q[i + 2..];
  }

  lemma SwapKeeps(a: seq<EntId>, x: EntId, y: EntId, c: seq<EntId>)
    ensures multiset(a + [y, x] + c) == multiset(a + [x, y] + c)
  {
    calc {
      multiset(a + [y, x] + c);
      multiset(a) + multiset([y, x]) + multiset(c);
      multiset(a) + multiset([x, y]) + multiset(c);
      multiset(a + [x, y] + c);
    }
  }

  // ---------------------------------------------------------------- setters

  /** The layer setter on a committed entity: off the old layer's list, at the head of
      the new one. */
  ghost function Relayer(s: State, e: EntId, l2: int): State
    requires e in s.ents && s.ents[e].layer in s.R && e in s.R[s.ents[e].layer]
    requires s.ents[e].layer in s.render.layers && Count(s.render.counts, s.ents[e].layer) >= 1
  {
    var l := s.ents[e].layer;
    s.(ents := s.ents[e := s.ents[e].(layer := l2)], R := Pushed(Dropped(s.R, l, e), l2, e),
       render := RenderAdd(RenderRemove(s.render, e, l), e, l2))
  }

  lemma RelayerGood(s: State, id: nat, e: EntId, l2: int)
    requires Good(s, id) && e in s.ents && s.ents[e].added
    ensures s.ents[e].layer in s.R && e in s.R[s.ents[e].layer]
    ensures s.ents[e].layer in s.render.layers && Count(s.render.counts, s.ents[e].layer) >= 1
    ensures Good(Relayer(s, e, l2), id)
  {
    Relayered(s.ents, s.U, s.R, s.T, s.updates, s.render, s.types, e, l2);
    var l := s.ents[e].layer;
    OneSwap(s, id, e, s.ents[e].(layer := l2), s.U, Pushed(Dropped(s.R, l, e), l2, e), s.T, s.updates,
            RenderAdd(RenderRemove(s.render, e, l), e, l2), s.types);
  }

  /** The first half of the type setter on a committed entity with a type: removeType,
      with the type cleared. */
  ghost function Detype(s: State, e: EntId): State
    requires e in s.ents && s.ents[e].typ.Some? && s.ents[e].typ.value in s.T && e in s.T[s.ents[e].typ.value]
    requires s.ents[e].typ.value in s.types.first && Count(s.types.counts, s.ents[e].typ.value) >= 1
  {
    var ty := s.ents[e].typ.value;
    s.(ents := s.ents[e := s.ents[e].(typ := None)], T := Dropped(s.T, ty, e), types := TypeRemove(s.types, e, ty))
  }

  lemma DetypeGood(s: State, id: nat, e: EntId)
    requires Good(s, id) && e in s.ents && s.ents[e].added && s.ents[e].typ.Some?
    ensures s.ents[e].typ.value in s.T && e in s.T[s.ents[e].typ.value]
    ensures s.ents[e].typ.value in s.types.first && Count(s.types.counts, s.ents[e].typ.value) >= 1
    ensures Good(Detype(s, e), id)
  {
    Detyped(s.ents, s.U, s.R, s.T, s.updates, s.render, s.types, e);
    var ty := s.ents[e].typ.value;
    OneSwap(s, id, e, s.ents[e].(typ := None), s.U, s.R, Dropped(s.T, ty, e), s.updates, s.render,
            TypeRemove(s.types, e, ty));
  }

  /** The second half of the type setter on a committed entity: the new type set, and
      addType. */
  ghost function Entype(s: State, e: EntId, ty: string): State
    requires e in s.ents
  {
    s.(ents := s.ents[e := s.ents[e].(typ := Some(ty))], T := Pushed(s.T, ty, e), types := TypeAdd(s.types, e, ty))
  }

  lemma EntypeGood(s: State, id: nat, e: EntId, ty: string)
    requires Good(s, id) && e in s.ents && s.ents[e].added && s.ents[e].typ.None?
    ensures Good(Entype(s, e, ty), id)
  {
    Typed(s.ents, s.U, s.R, s.T, s.updates, s.render, s.types, e, ty);
    OneSwap(s, id, e, s.ents[e].(typ := Some(ty)), s.U, s.R, Pushed(s.T, ty, e), s.updates, s.render,
            TypeAdd(s.types, e, ty));
  }

  /** An uncommitted entity is on no list: its layer and type may change freely. */
  lemma LooseListsOK(ents: map<EntId, Entity>, U: seq<EntId>, R: map<int, seq<EntId>>, T: map<string, seq<EntId>>,
                     u: UpdateTable, r: RenderTable, t: TypeTable, e: EntId, x2: Entity)
    requires ListsOK(ents, U, R, T, u, r, t) && e in ents && !ents[e].added && !x2.added && x2.cls == ents[e].cls
    ensures ListsOK(ents[e := x2], U, R, T, u, r, t)
  {
    UpdateFrame(ents, ents[e := x2], U, u);
    RenderAway(ents, R, r, e, x2);
    TypeAway(ents, T, t, e, x2);
    LooseEnrolled(ents, U, R, T, e, x2);
    LooseLinks(ents, r.lk, t.lk, e, x2);
  }

  lemma LooseEnrolled(ents: map<EntId, Entity>, U: seq<EntId>, R: map<int, seq<EntId>>, T: map<string, seq<EntId>>,
                      e: EntId, x2: Entity)
    requires Enrolled(ents, U, R, T) && e in ents && !ents[e].added && !x2.added
    ensures Enrolled(ents[e := x2], U, R, T)
  {
  }

  lemma LooseLinks(ents: map<EntId, Entity>, rl: LinkMap, tl: LinkMap, e: EntId, x2: Entity)
    requires RenderLoose(ents, rl) && TypeLoose(ents, tl) && e in ents && !ents[e].added
    ensures RenderLoose(ents[e := x2], rl) && TypeLoose(ents[e := x2], tl)
  {
  }

  lemma LooseGood(s: State, id: nat, e: EntId, x2: Entity)
    requires Good(s, id) && e in s.ents && !s.ents[e].added
    requires x2.cls == s.ents[e].cls && !x2.added && x2.world == s.ents[e].world && x2.mask == s.ents[e].mask
    ensures Good(s.(ents := s.ents[e := x2]), id)
  {
    LooseListsOK(s.ents, s.U, s.R, s.T, s.updates, s.render, s.types, e, x2);
    OneSwap(s, id, e, x2, s.U, s.R, s.T, s.updates, s.render, s.types);
  }

  /** A change to an entity's placing fields (position, origin, size) or flags that
      leaves its listing, world and mask alone keeps the World good. */
  lemma PlacedGood(s: State, id: nat, e: EntId, x2: Entity)
    requires Good(s, id) && e in s.ents
    requires SameListing(s.ents[e], x2) && x2.world == s.ents[e].world && x2.mask == s.ents[e].mask
    ensures Good(s.(ents := s.ents[e := x2]), id)
  {
    PlacedKeeps(s.ents, e, x2);
    ListsKept(s.ents, s.ents[e := x2], s.U, s.R, s.T, s.updates, s.render, s.types);
    OneSwap(s, id, e, x2, s.U, s.R, s.T, s.updates, s.render, s.types);
  }

  lemma PlacedKeeps(ents: map<EntId, Entity>, e: EntId, x2: Entity)
    requires e in ents && SameListing(ents[e], x2)
    ensures Keeps(ents, ents[e := x2])
  {
  }

  // ---------------------------------------------------------------- masks

  /** A new mask object, in no entity and with no parent, at the next free handle. */
  lemma NewMaskGood(s: State, id: nat, m: Masks.Mask)
    requires Good(s, id) && Masks.WellFormed(m) && m.parent.None?
    ensures s.nextMask !in s.masks
    ensures Good(s.(masks := s.masks[s.nextMask := m], nextMask := s.nextMask + 1), id)
  {
    var ms := s.masks[s.nextMask := m];
    assert MasksOK(s.ents, ms);
    SideSwap(s, id, ms, s.nextMask + 1, s.recycled);
    assert s.(masks := ms, nextMask := s.nextMask + 1, recycled := s.recycled) == s.(masks := ms, nextMask := s.nextMask + 1);
  }

  /** Re-parenting a mask of the table, to an entity of the arena or to none. */
  lemma ParentGood(s: State, id: nat, m: nat, p: Option<EntId>)
    requires Good(s, id) && m in s.masks && (p.Some? ==> p.value in s.ents)
    ensures Good(s.(masks := s.masks[m := s.masks[m].(parent := p)]), id)
  {
    var ms := s.masks[m := s.masks[m].(parent := p)];
    ParentOK(s.ents, s.masks, m, p);
    SideSwap(s, id, ms, s.nextMask, s.recycled);
    assert s.(masks := ms, nextMask := s.nextMask, recycled := s.recycled) == s.(masks := ms);
  }

  lemma ParentOK(ents: map<EntId, Entity>, masks: map<nat, Masks.Mask>, m: nat, p: Option<EntId>)
    requires MasksOK(ents, masks) && m in masks && (p.Some? ==> p.value in ents)
    ensures MasksOK(ents, masks[m := masks[m].(parent := p)])
  {
  }

  /** A new box for a Hitbox of the table. */
  lemma BoxGood(s: State, id: nat, m: nat, x: int, y: int, w: int, h: int)
    requires Good(s, id) && m in s.masks && s.masks[m].cls == Masks.HitboxClass
    ensures Good(s.(masks := s.masks[m := Masks.WithBox(s.masks[m], x, y, w, h)]), id)
  {
    var ms := s.masks[m := Masks.WithBox(s.masks[m], x, y, w, h)];
    assert MasksOK(s.ents, ms);
    SideSwap(s, id, ms, s.nextMask, s.recycled);
    assert s.(masks := ms, nextMask := s.nextMask, recycled := s.recycled) == s.(masks := ms);
  }

  /** An entity takes a mask of the table, or none. */
  lemma HoldGood(s: State, id: nat, e: EntId, m: Option<nat>)
    requires Good(s, id) && e in s.ents && (m.Some? ==> m.value in s.masks)
    ensures Good(s.(ents := s.ents[e := s.ents[e].(mask := m)]), id)
  {
    var ents2 := s.ents[e := s.ents[e].(mask := m)];
    HeldKeeps(s.ents, e, m);
    ListsKept(s.ents, ents2, s.U, s.R, s.T, s.updates, s.render, s.types);
    HeldSides(s.ents, e, m, s.nextEnt, s.addQ, s.removeQ, s.masks, s.recycled, id);
    HeldGood(s, id, ents2);
  }

  lemma HeldKeeps(ents: map<EntId, Entity>, e: EntId, m: Option<nat>)
    requires e in ents
    ensures Keeps(ents, ents[e := ents[e].(mask := m)])
  {
  }

  lemma HeldSides(ents: map<EntId, Entity>, e: EntId, m: Option<nat>, nextEnt: nat, aq: seq<EntId>, rq: seq<EntId>,
                  masks: map<nat, Masks.Mask>, st: Stash, id: nat)
    requires Closed(ents, nextEnt, id) && Queued(ents, aq, rq, id) && MasksOK(ents, masks) && StashOK(ents, st)
    requires e in ents && (m.Some? ==> m.value in masks)
    ensures var ents2 := ents[e := ents[e].(mask := m)];
            Closed(ents2, nextEnt, id) && Queued(ents2, aq, rq, id) && MasksOK(ents2, masks) && StashOK(ents2, st)
  {
    Rebalanced(ents, ents[e := ents[e].(mask := m)], aq, rq, id);
  }

  lemma HeldGood(s: State, id: nat, ents2: map<EntId, Entity>)
    requires Good(s, id) && Closed(ents2, s.nextEnt, id) && ListsOK(ents2, s.U, s.R, s.T, s.updates, s.render, s.types)
    requires Queued(ents2, s.addQ, s.removeQ, id) && MasksOK(ents2, s.masks) && StashOK(ents2, s.recycled)
    ensures Good(s.(ents := ents2), id)
  {
  }

  // ---------------------------------------------------------------- reading the lists

  /** What the walks along a type list rely on: the list is linked, headed by the
      type's entry, and holds entities of the arena. */
  lemma TypeWalk(s: State, id: nat, ty: string)
    requires Good(s, id)
    ensures Linked(s.types.lk, Chain(s.T, ty))
    ensures (if ty in s.types.first then Some(s.types.first[ty]) else None) == Head(Chain(s.T, ty))
    ensures forall k :: 0 <= k < |Chain(s.T, ty)| ==> Chain(s.T, ty)[k] in s.ents
    ensures MasksOK(s.ents, s.masks)
  {
    var q := Chain(s.T, ty);
    if ty in s.T {
      assert forall k :: 0 <= k < |q| ==> q[k] in s.T[ty];
    }
  }

  /** What the render walk relies on: each layer of the layer list has a linked list,
      ended by the layer's entry, of entities of the arena. */
  lemma RenderWalk(s: State, id: nat)
    requires Good(s, id)
    ensures forall l :: l in s.render.layers ==> l in s.R && l in s.render.last && Linked(s.render.lk, s.R[l])
    ensures forall l :: l in s.render.layers ==> Tail(s.R[l]) == Some(s.render.last[l])
    ensures forall l, k :: l in s.R && 0 <= k < |s.R[l]| ==> s.R[l][k] in s.ents
  {
  }

  /** Where an entity's render links put it: a committed entity sits at its index in
      its layer's list, an uncommitted one has no links. */
  lemma PlacedAt(s: State, id: nat, e: EntId)
    requires Good(s, id) && e in s.ents
    ensures s.ents[e].added ==> s.ents[e].layer in s.R && e in s.R[s.ents[e].layer] &&
                                Distinct(s.R[s.ents[e].layer]) &&
                                At(s.render.lk, e) == Expected(s.R[s.ents[e].layer], IndexOf(s.R[s.ents[e].layer], e))
    ensures !s.ents[e].added ==> At(s.render.lk, e) == Loose
  {
    if s.ents[e].added {
      Placed(s.ents, s.R, s.render, e);
    }
  }

  /** What the update-list accessors read: `_count` and `_classCount`. */
  lemma UpdateTables(s: State, id: nat, c: string)
    requires Good(s, id)
    ensures s.updates.count == |s.U| && s.updates.first == Head(s.U)
    ensures Count(s.updates.classCount, c) == ClassTally(s.ents, s.U, c)
  {
  }

  /** What the type accessors read for type `ty`. */
  lemma TypeTables(s: State, id: nat, ty: string)
    requires Good(s, id)
    ensures Count(s.types.counts, ty) == |Chain(s.T, ty)|
    ensures (if ty in s.types.first then Some(s.types.first[ty]) else None) == Head(Chain(s.T, ty))
    ensures s.T.Keys <= s.types.counts.Keys
  {
    forall k | k in s.T ensures k in s.types.counts {
      assert Count(s.types.counts, k) == |Chain(s.T, k)|;
    }
  }

  /** What the layer accessors read for layer `l`. */
  lemma LayerTables(s: State, id: nat, l: int)
    requires Good(s, id)
    ensures Count(s.render.counts, l) == |Chain(s.R, l)|
    ensures (if l in s.render.first then Some(s.render.first[l]) else None) == Head(Chain(s.R, l))
    ensures (if l in s.render.last then Some(s.render.last[l]) else None) == Tail(Chain(s.R, l))
    ensures l in s.render.layers <==> l in s.R
  {
    assert Count(s.render.counts, l) == |Chain(s.R, l)|;
  }

  /** The layer list names each layer that has entities once, is sorted unless a sort is
      pending, and is empty exactly when the World has no committed entity. */
  lemma LayerList(s: State, id: nat)
    requires Good(s, id)
    ensures Distinct(s.render.layers) && (forall l :: l in s.render.layers <==> l in s.R)
    ensures !s.render.sortPending ==> PX.Sorted(s.render.layers)
    ensures s.U == [] <==> s.render.layers == []
  {
    if s.U != [] {
      var x := s.U[0];
      assert x in s.ents && s.ents[x].added;
      assert s.ents[x].layer in s.R;
      assert s.ents[x].layer in s.render.layers;
    }
    if s.render.layers != [] {
      var l := s.render.layers[0];
      assert l in s.R && s.R[l] != [];
      var x := s.R[l][0];
      assert x in s.ents && s.ents[x].added;
      assert x in s.U;
    }
  }

  /** A World with no committed entity has an empty list for every type and layer. */
  lemma EmptyWorld(s: State, id: nat, ty: string, l: int)
    requires Good(s, id)
    ensures s.U == [] ==> Chain(s.T, ty) == [] && Chain(s.R, l) == []
  {
    if ty in s.T {
      var x := s.T[ty][0];
      assert x in s.ents && s.ents[x].added;
    }
    if l in s.R {
      var x := s.R[l][0];
      assert x in s.ents && s.ents[x].added;
    }
  }

  /** What the depth accessors read: in a World with committed entities, the ends of
      the layer list are layers with entities whose lists render visits first and last,
      and once the list is sorted they are the greatest and the least layer. */
  lemma LayerEnds(s: State, id: nat)
    requires Good(s, id)
    ensures s.updates.first.None? <==> s.U == []
    ensures s.U != [] ==> |s.render.layers| > 0
    ensures s.U != [] ==>
              var far, near := s.render.layers[|s.render.layers| - 1], s.render.layers[0];
              var d := Drawn(s.R, s.render.layers, 0);
              far in s.R && near in s.R && far in s.render.last && near in s.render.first &&
              Tail(s.R[far]) == Some(s.render.last[far]) && Head(s.R[near]) == Some(s.render.first[near]) &&
              d != [] && d[0] == s.render.last[far] && d[|d| - 1] == s.render.first[near] &&
              (!s.render.sortPending ==> forall l :: l in s.R ==> near <= l <= far)
  {
    LayerList(s, id);
    UpdateHead(s, id);
    if s.U != [] {
      var n := |s.render.layers|;
      var far, near := s.render.layers[n - 1], s.render.layers[0];
      LayerTables(s, id, far);
      LayerTables(s, id, near);
      LayersFilled(s, id);
      EndsOf(s.R, s.render, far, near);
    }
  }

  /** The update list has a head exactly when the World has a committed entity. */
  lemma UpdateHead(s: State, id: nat)
    requires Good(s, id)
    ensures s.updates.first.None? <==> s.U == []
  {
  }

  /** Every layer the World lists has an entity. */
  lemma LayersFilled(s: State, id: nat)
    requires Good(s, id)
    ensures forall l :: l in s.R ==> s.R[l] != []
  {
  }

  /** LayerEnds on the render table alone. */
  lemma EndsOf(R: map<int, seq<EntId>>, r: RenderTable, far: int, near: int)
    requires |r.layers| > 0 && far == r.layers[|r.layers| - 1] && near == r.layers[0]
    requires forall l :: l in r.layers <==> l in R
    requires forall l :: l in R ==> R[l] != []
    requires !r.sortPending ==> PX.Sorted(r.layers)
    requires (if far in r.last then Some(r.last[far]) else None) == Tail(Chain(R, far))
    requires (if near in r.first then Some(r.first[near]) else None) == Head(Chain(R, near))
    ensures var d := Drawn(R, r.layers, 0);
            far in R && near in R && far in r.last && near in r.first &&
            Tail(R[far]) == Some(r.last[far]) && Head(R[near]) == Some(r.first[near]) &&
            d != [] && d[0] == r.last[far] && d[|d| - 1] == r.first[near] &&
            (!r.sortPending ==> forall l :: l in R ==> near <= l <= far)
  {
    var n := |r.layers|;
    assert r.layers[n - 1] in r.layers && r.layers[0] in r.layers;
    forall k | 0 <= k < n ensures r.layers[k] in R && R[r.layers[k]] != [] {
      var l := r.layers[k];
      assert l in r.layers;
      assert l in R;
    }
    DrawnEnds(R, r.layers, 0);
    if !r.sortPending {
      forall l | l in R ensures near <= l <= far {
        var k :| 0 <= k < n && r.layers[k] == l;
      }
    }
  }

  /** The layer list has one entry per layer with entities. */
  lemma LayerCard(s: State, id: nat)
    requires Good(s, id)
    ensures |s.render.layers| == |s.R.Keys|
  {
    LayerList(s, id);
    DistinctCard(s.render.layers);
    var ks := set x | x in s.render.layers;
    forall x ensures x in ks <==> x in s.R.Keys {
      assert x in ks <==> x in s.render.layers;
    }
    assert ks == s.R.Keys;
  }

  /** A list without repeats has as many distinct elements as entries. */
  lemma {:induction false} DistinctCard(q: seq<int>)
    requires Distinct(q)
    ensures |set x | x in q| == |q|
  {
    if q != [] {
      var t := q[1..];
      assert Distinct(t) by {
        forall i, j | 0 <= i < j < |t| ensures t[i] != t[j] { assert t[i] == q[i + 1] && t[j] == q[j + 1]; }
      }
      DistinctCard(t);
      assert (set x | x in q) == {q[0]} + (set x | x in t);
      assert q[0] !in t by {
        forall i | 0 <= i < |t| ensures t[i] != q[0] { assert t[i] == q[i + 1]; }
      }
    }
  }
}
