// Entity.cs, the operations that reach into a World: the collision queries, which
// walk a type list of the World the engine is showing (`PX._world`), and the layer,
// type and mask setters and the hitbox helpers, which change the entity's record and
// keep its World's lists in step. An entity is a handle into the arena of the World
// `w` passed in. A collision query moves the entity to the queried position while it
// tests and moves it back before returning; when a mask test throws, the move back
// never happens.
module EntityOps {
  import opened Common
  import opened Chains
  import opened Geometry
  import opened Entities
  import Masks
  import opened Lists
  import opened Roster
  import opened Scans
  import opened Probes
  import opened WorldState
  import opened WorldSteps
  import opened Worlds
  import MaskOps

  /** The entity moved to (x, y). */
  function Moved(e: Entity, x: int, y: int): (r: Entity)
    ensures BoundsOf(r) == BoundsAt(e, x, y) && r.(x := e.x, y := e.y) == e
  {
    e.(x := x, y := y)
  }

  /** The World after a query that moved `self` to (x, y): as before when the query
      returned, with `self` left at (x, y) when a test threw. */
  ghost function After(s: State, self: EntId, x: int, y: int, thrown: bool): State
    requires self in s.ents
  {
    if thrown then s.(ents := s.ents[self := Moved(s.ents[self], x, y)]) else s
  }

  /** A query that throws leaves the World good. */
  lemma AfterGood(s: State, id: nat, self: EntId, x: int, y: int, thrown: bool)
    requires Good(s, id) && self in s.ents
    ensures Good(After(s, self, x, y, thrown), id)
  {
    PlacedGood(s, id, self, Moved(s.ents[self], x, y));
  }

  // ---------------------------------------------------------------- collide

  /** What the collision queries read: the mask table is sound and every entity on a
      type list is in the arena. */
  ghost predicate Queryable(s: State)
  {
    MasksOK(s.ents, s.masks) && forall t, o :: t in s.T && o in s.T[t] ==> o in s.ents
  }

  lemma GoodQueryable(s: State, id: nat)
    requires Good(s, id)
    ensures Queryable(s)
  {
  }

  lemma ListedChain(s: State, ty: string)
    requires Queryable(s)
    ensures forall k :: 0 <= k < |Chain(s.T, ty)| ==> Chain(s.T, ty)[k] in s.ents
  {
    forall k | 0 <= k < |Chain(s.T, ty)| ensures Chain(s.T, ty)[k] in s.ents {
      assert Chain(s.T, ty)[k] in s.T[ty];
    }
  }

  /** Entity.collide(type, x, y): nothing for an entity that is not collidable;
      otherwise the first entity of the type's list that passes the candidate test with
      `self` at (x, y). */
  ghost function CollideOf(s: State, self: EntId, ty: string, x: int, y: int): Result<Option<EntId>>
    requires self in s.ents && Queryable(s)
  {
    ListedChain(s, ty);
    if !s.ents[self].collidable then Ok(None)
    else Scan(Chain(s.T, ty), CollideTest(s.ents, s.masks, self, x, y))
  }

  /** The test collide applies, once masks are attached: another collidable entity
      whose hitbox and collision box both overlap `self`'s at (x, y). */
  ghost predicate Hits(ents: map<EntId, Entity>, masks: map<nat, Masks.Mask>, self: EntId, x: int, y: int, o: EntId)
    requires self in ents && o in ents && MasksOK(ents, masks)
  {
    Overlap(HitRect(BoundsAt(ents[self], x, y)), HitRect(BoundsOf(ents[o]))) && ents[o].collidable && o != self &&
    Overlap(Area(ents, masks, self, BoundsAt(ents[self], x, y)), Area(ents, masks, o, BoundsOf(ents[o])))
  }

  /** What collide finds when every mask is attached to its holder: never a fault; an
      entity of the type's list that passes Hits, every earlier entity of the list
      failing it; and nothing exactly when no entity of the list passes it (or `self`
      is not collidable). */
  lemma CollideMeaning(s: State, self: EntId, ty: string, x: int, y: int)
    requires self in s.ents && Queryable(s) && Attached(s.ents, s.masks)
    ensures forall k :: 0 <= k < |Chain(s.T, ty)| ==> Chain(s.T, ty)[k] in s.ents
    ensures CollideOf(s, self, ty, x, y).Ok?
    ensures CollideOf(s, self, ty, x, y) == Ok(None) <==>
              !s.ents[self].collidable ||
              forall k :: 0 <= k < |Chain(s.T, ty)| ==> !Hits(s.ents, s.masks, self, x, y, Chain(s.T, ty)[k])
    ensures CollideOf(s, self, ty, x, y).Ok? && CollideOf(s, self, ty, x, y).value.Some? ==>
              exists k :: 0 <= k < |Chain(s.T, ty)| && CollideOf(s, self, ty, x, y).value.value == Chain(s.T, ty)[k] &&
                          Hits(s.ents, s.masks, self, x, y, Chain(s.T, ty)[k]) &&
                          forall j :: 0 <= j < k ==> !Hits(s.ents, s.masks, self, x, y, Chain(s.T, ty)[j])
  {
    ListedChain(s, ty);
    if s.ents[self].collidable {
      var c := Chain(s.T, ty);
      var test := CollideTest(s.ents, s.masks, self, x, y);
      forall k | 0 <= k < |c| ensures test(c[k]) == Ok(Hits(s.ents, s.masks, self, x, y, c[k])) {
        CollideProbeMeaning(s.ents, s.masks, self, x, y, c[k]);
      }
      ScanFirst(c, test);
    }
  }

  /** Entity.collide. */
  method Collide(w: World, self: EntId, ty: string, x: int, y: int) returns (res: Result<Option<EntId>>)
    requires w.Valid() && self in w.ents
    modifies w
    ensures w.Valid() && old(Queryable(w.St()))
    ensures res == CollideOf(old(w.St()), self, ty, x, y)
    ensures w.St() == After(old(w.St()), self, x, y, res.Err?)
  {
    GoodQueryable(w.St(), w.id);
    TypeWalk(w.St(), w.id, ty);
    if !w.ents[self].collidable || ty !in w.types.first {
      return Ok(None);
    }
    res := w.FindType(ty, CollideTest(w.ents, w.masks, self, x, y));
    if res.Err? {
      AfterGood(w.St(), w.id, self, x, y, true);
      w.Place(self, Moved(w.ents[self], x, y));
    }
  }

  /** Entity.collideTypes: collide for each type in turn, stopping at the first that
      finds an entity or throws. */
  ghost function CollideTypesOf(s: State, self: EntId, types: seq<string>, x: int, y: int): Result<Option<EntId>>
    requires self in s.ents && Queryable(s)
    decreases |types|
  {
    if types == [] then Ok(None)
    else
      var r := CollideOf(s, self, types[0], x, y);
      if r != Ok(None) then r else CollideTypesOf(s, self, types[1..], x, y)
  }

  /** collideTypes finds nothing exactly when collide finds nothing for every type;
      otherwise it answers as collide does for the first type that finds something. */
  lemma {:induction false} CollideTypesFirst(s: State, self: EntId, types: seq<string>, x: int, y: int)
    requires self in s.ents && Queryable(s)
    ensures CollideTypesOf(s, self, types, x, y) == Ok(None) <==>
              forall k :: 0 <= k < |types| ==> CollideOf(s, self, types[k], x, y) == Ok(None)
    ensures CollideTypesOf(s, self, types, x, y) != Ok(None) ==>
              exists k :: 0 <= k < |types| && CollideTypesOf(s, self, types, x, y) == CollideOf(s, self, types[k], x, y) &&
                          forall j :: 0 <= j < k ==> CollideOf(s, self, types[j], x, y) == Ok(None)
    decreases |types|
  {
    if types != [] {
      var rest := types[1..];
      CollideTypesFirst(s, self, rest, x, y);
      assert forall k :: 1 <= k < |types| ==> rest[k - 1] == types[k];
      if CollideTypesOf(s, self, types, x, y) != Ok(None) && CollideOf(s, self, types[0], x, y) == Ok(None) {
        var k :| 0 <= k < |rest| && CollideTypesOf(s, self, rest, x, y) == CollideOf(s, self, rest[k], x, y) &&
                 forall j :: 0 <= j < k ==> CollideOf(s, self, rest[j], x, y) == Ok(None);
        assert CollideTypesOf(s, self, types, x, y) == CollideOf(s, self, types[k + 1], x, y);
      }
    }
  }

  /** Entity.collideTypes. */
  method CollideTypes(w: World, self: EntId, types: seq<string>, x: int, y: int) returns (res: Result<Option<EntId>>)
    requires w.Valid() && self in w.ents
    modifies w
    ensures w.Valid() && old(Queryable(w.St()))
    ensures res == CollideTypesOf(old(w.St()), self, types, x, y)
    ensures w.St() == After(old(w.St()), self, x, y, res.Err?)
  {
    ghost var s0 := w.St();
    GoodQueryable(s0, w.id);
    var i := 0;
    while i < |types|
      invariant 0 <= i <= |types| && w.St() == s0 && w.Valid()
      invariant CollideTypesOf(s0, self, types, x, y) == CollideTypesOf(s0, self, types[i..], x, y)
    {
      assert types[i..][1..] == types[i + 1..];
      var r := Collide(w, self, types[i], x, y);
      if r != Ok(None) {
        return r;
      }
      i := i + 1;
    }
    return Ok(None);
  }

  // ---------------------------------------------------------------- collideWith, collideRect, collidePoint

  /** Entity.collideWith: `o` when it passes collideWith's test with `self` at (x, y),
      nothing when it does not, the test's fault when it throws. */
  method CollideWith(w: World, self: EntId, o: EntId, x: int, y: int) returns (res: Result<Option<EntId>>)
    requires w.Valid() && self in w.ents && o in w.ents
    modifies w
    ensures w.Valid() && old(MasksOK(w.ents, w.masks))
    ensures res == Settle(o, WithProbe(old(w.ents), old(w.masks), self, x, y, o))
    ensures w.St() == After(old(w.St()), self, x, y, res.Err?)
  {
    var v := WithProbe(w.ents, w.masks, self, x, y, o);
    res := Settle(o, v);
    if res.Err? {
      AfterGood(w.St(), w.id, self, x, y, true);
      w.Place(self, Moved(w.ents[self], x, y));
    }
  }

  /** Entity.collideRect: whether the entity, placed at (x, y), overlaps the rectangle
      (edges touching count for the box, the mask test follows for a masked entity). */
  method CollideRect(w: World, e: EntId, x: int, y: int, r: Rect) returns (res: Result<bool>)
    requires w.Valid() && e in w.ents
    modifies w
    ensures w.Valid() && old(MasksOK(w.ents, w.masks))
    ensures res == RectProbe(old(w.ents), old(w.masks), e, x, y, r)
    ensures w.St() == After(old(w.St()), e, x, y, res.Err?)
  {
    res := RectProbe(w.ents, w.masks, e, x, y, r);
    if res.Err? {
      AfterGood(w.St(), w.id, e, x, y, true);
      w.Place(e, Moved(w.ents[e], x, y));
    }
  }

  /** Entity.collidePoint: whether the entity, placed at (x, y), holds the point. */
  method CollidePoint(w: World, e: EntId, x: int, y: int, px: int, py: int) returns (res: Result<bool>)
    requires w.Valid() && e in w.ents
    modifies w
    ensures w.Valid() && old(MasksOK(w.ents, w.masks))
    ensures res == PointProbe(old(w.ents), old(w.masks), e, x, y, px, py)
    ensures w.St() == After(old(w.St()), e, x, y, res.Err?)
  {
    res := PointProbe(w.ents, w.masks, e, x, y, px, py);
    if res.Err? {
      AfterGood(w.St(), w.id, e, x, y, true);
      w.Place(e, Moved(w.ents[e], x, y));
    }
  }

  // ---------------------------------------------------------------- collideInto

  /** Entity.collideInto(type, x, y, list): every entity of the type's list that passes
      collide's test, in list order, up to a test that throws; nothing for an entity
      that is not collidable. */
  ghost function CollideIntoOf(s: State, self: EntId, ty: string, x: int, y: int): Gathered
    requires self in s.ents && Queryable(s)
  {
    ListedChain(s, ty);
    if !s.ents[self].collidable then Gathered([], None)
    else Gather(Chain(s.T, ty), CollideTest(s.ents, s.masks, self, x, y))
  }

  /** With attached masks collideInto gathers exactly the entities of the type's list
      that pass Hits. */
  lemma CollideIntoMeaning(s: State, self: EntId, ty: string, x: int, y: int)
    requires self in s.ents && Queryable(s) && Attached(s.ents, s.masks)
    ensures CollideIntoOf(s, self, ty, x, y).fault.None?
    ensures forall o :: o in CollideIntoOf(s, self, ty, x, y).items <==>
              s.ents[self].collidable && o in Chain(s.T, ty) && o in s.ents && Hits(s.ents, s.masks, self, x, y, o)
  {
    ListedChain(s, ty);
    if s.ents[self].collidable {
      var c := Chain(s.T, ty);
      var test := CollideTest(s.ents, s.masks, self, x, y);
      forall k | 0 <= k < |c| ensures test(c[k]) == Ok(Hits(s.ents, s.masks, self, x, y, c[k])) {
        CollideProbeMeaning(s.ents, s.masks, self, x, y, c[k]);
      }
      GatherMeaning(c, test);
    }
  }

  /** Entity.collideInto, appending to the list it is given. */
  method CollideInto(w: World, self: EntId, ty: string, x: int, y: int, items: seq<EntId>)
    returns (out: seq<EntId>, fault: Option<Fault>)
    requires w.Valid() && self in w.ents
    modifies w
    ensures w.Valid() && old(Queryable(w.St()))
    ensures out == items + CollideIntoOf(old(w.St()), self, ty, x, y).items
    ensures fault == CollideIntoOf(old(w.St()), self, ty, x, y).fault
    ensures w.St() == After(old(w.St()), self, x, y, fault.Some?)
  {
    GoodQueryable(w.St(), w.id);
    TypeWalk(w.St(), w.id, ty);
    if !w.ents[self].collidable || ty !in w.types.first {
      return items, None;
    }
    var g := w.GatherType(ty, CollideTest(w.ents, w.masks, self, x, y));
    out, fault := items + g.items, g.fault;
    if fault.Some? {
      AfterGood(w.St(), w.id, self, x, y, true);
      w.Place(self, Moved(w.ents[self], x, y));
    }
  }

  /** Entity.collideTypesInto: collideInto for each type in turn, up to one that
      throws. */
  ghost function CollideTypesIntoOf(s: State, self: EntId, types: seq<string>, x: int, y: int): Gathered
    requires self in s.ents && Queryable(s)
    decreases |types|
  {
    if types == [] then Gathered([], None)
    else
      var g := CollideIntoOf(s, self, types[0], x, y);
      if g.fault.Some? then g
      else
        var rest := CollideTypesIntoOf(s, self, types[1..], x, y);
        Gathered(g.items + rest.items, rest.fault)
  }

  /** With attached masks collideTypesInto gathers exactly the entities of the listed
      types' lists that pass Hits. */
  lemma {:induction false} CollideTypesIntoMeaning(s: State, self: EntId, types: seq<string>, x: int, y: int)
    requires self in s.ents && Queryable(s) && Attached(s.ents, s.masks)
    ensures CollideTypesIntoOf(s, self, types, x, y).fault.None?
    ensures forall o :: o in CollideTypesIntoOf(s, self, types, x, y).items <==> Listed(s, self, types, x, y, o)
    decreases |types|
  {
    if types != [] {
      var rest := types[1..];
      CollideIntoMeaning(s, self, types[0], x, y);
      CollideTypesIntoMeaning(s, self, rest, x, y);
      forall o ensures Listed(s, self, types, x, y, o) <==> Listed(s, self, [types[0]], x, y, o) || Listed(s, self, rest, x, y, o) {
        ListedSplit(s, self, types, x, y, o);
      }
    }
  }

  /** `o` is on the list of one of `types` and passes Hits. */
  ghost predicate Listed(s: State, self: EntId, types: seq<string>, x: int, y: int, o: EntId)
    requires self in s.ents && Queryable(s)
  {
    s.ents[self].collidable && o in s.ents &&
    (exists k :: 0 <= k < |types| && o in Chain(s.T, types[k])) && Hits(s.ents, s.masks, self, x, y, o)
  }

  lemma ListedSplit(s: State, self: EntId, types: seq<string>, x: int, y: int, o: EntId)
    requires self in s.ents && Queryable(s) && types != []
    ensures Listed(s, self, types, x, y, o) <==> Listed(s, self, [types[0]], x, y, o) || Listed(s, self, types[1..], x, y, o)
  {
    if Listed(s, self, types, x, y, o) {
      var k :| 0 <= k < |types| && o in Chain(s.T, types[k]);
      if k > 0 {
        assert types[1..][k - 1] == types[k];
      } else {
        assert [types[0]][0] == types[k];
      }
    }
    if Listed(s, self, types[1..], x, y, o) {
      var k :| 0 <= k < |types[1..]| && o in Chain(s.T, types[1..][k]);
      assert types[k + 1] == types[1..][k];
    }
  }

  /** Entity.collideTypesInto. */
  method CollideTypesInto(w: World, self: EntId, types: seq<string>, x: int, y: int, items: seq<EntId>)
    returns (out: seq<EntId>, fault: Option<Fault>)
    requires w.Valid() && self in w.ents
    modifies w
    ensures w.Valid() && old(Queryable(w.St()))
    ensures out == items + CollideTypesIntoOf(old(w.St()), self, types, x, y).items
    ensures fault == CollideTypesIntoOf(old(w.St()), self, types, x, y).fault
    ensures w.St() == After(old(w.St()), self, x, y, fault.Some?)
  {
    ghost var s0 := w.St();
    GoodQueryable(s0, w.id);
    ghost var all := CollideTypesIntoOf(s0, self, types, x, y);
    out, fault := items, None;
    var i := 0;
    while i < |types|
      invariant 0 <= i <= |types| && w.St() == s0 && w.Valid() && fault.None?
      invariant items + all.items == out + CollideTypesIntoOf(s0, self, types[i..], x, y).items
      invariant all.fault == CollideTypesIntoOf(s0, self, types[i..], x, y).fault
    {
      TypesIntoStep(s0, self, types, i, x, y);
      ghost var g := CollideIntoOf(s0, self, types[i], x, y);
      ghost var rest := CollideTypesIntoOf(s0, self, types[i + 1..], x, y);
      ghost var before := out;
      out, fault := CollideInto(w, self, types[i], x, y, out);
      if fault.Some? {
        return;
      }
      AppendAssoc(before, g.items, rest.items);
      i := i + 1;
    }
    assert types[i..] == [];
    AppendEmpty(out);
  }

  /** One step of collideTypesInto's walk over `types[i..]`. */
  lemma TypesIntoStep(s: State, self: EntId, types: seq<string>, i: nat, x: int, y: int)
    requires self in s.ents && Queryable(s) && i < |types|
    ensures var g := CollideIntoOf(s, self, types[i], x, y);
            var rest := CollideTypesIntoOf(s, self, types[i + 1..], x, y);
            CollideTypesIntoOf(s, self, types[i..], x, y) ==
              if g.fault.Some? then g else Gathered(g.items + rest.items, rest.fault)
  {
    assert types[i..][1..] == types[i + 1..];
  }

  // ---------------------------------------------------------------- setters

  /** What the layer setter needs to take a committed entity off its layer's list: it
      is on that list, and the layer is listed and counted. */
  ghost predicate Relayable(s: State, e: EntId)
  {
    e in s.ents &&
    (s.ents[e].added ==> s.ents[e].layer in s.R && e in s.R[s.ents[e].layer] &&
                         s.ents[e].layer in s.render.layers && Count(s.render.counts, s.ents[e].layer) >= 1)
  }

  /** The layer setter: no change for the same layer; a free change for an entity not
      committed to a World; otherwise the entity moves from its old layer's render list
      to the head of the new one's, and an entity committed but already removed from its
      World (no World to call) throws. */
  ghost function LayerSet(s: State, e: EntId, l2: int): (r: Result<State>)
    requires Relayable(s, e)
    ensures r.Err? <==> s.ents[e].layer != l2 && s.ents[e].added && s.ents[e].world.None?
    ensures r.Err? ==> r.fault == NullReference
    ensures r.Ok? ==> r.value.ents == s.ents[e := s.ents[e].(layer := l2)]
    ensures r.Ok? && s.ents[e].added && s.ents[e].layer != l2 ==> Chain(r.value.R, l2) != [] && Chain(r.value.R, l2)[0] == e
    ensures r.Ok? && !s.ents[e].added ==> r.value == s.(ents := r.value.ents)
  {
    var x := s.ents[e];
    if x.layer == l2 then
      assert s.ents[e := x.(layer := l2)] == s.ents;
      Ok(s)
    else if !x.added then Ok(s.(ents := s.ents[e := x.(layer := l2)]))
    else if x.world.None? then Err(NullReference)
    else Ok(Relayer(s, e, l2))
  }

  /** The layer setter keeps the World good. */
  lemma LayerSetGood(s: State, id: nat, e: EntId, l2: int)
    requires Good(s, id) && e in s.ents
    ensures Relayable(s, e)
    ensures LayerSet(s, e, l2).Ok? ==> Good(LayerSet(s, e, l2).value, id)
  {
    var x := s.ents[e];
    if x.added {
      RelayerGood(s, id, e, l2);
    } else if x.layer != l2 {
      LooseGood(s, id, e, x.(layer := l2));
    }
  }

  /** After the layer setter a committed entity is on the render list of its new layer
      and of no other. */
  lemma LayerSetAlone(s: State, id: nat, e: EntId, l2: int)
    requires Good(s, id) && e in s.ents && s.ents[e].added && s.ents[e].world.Some?
    ensures Relayable(s, e) && LayerSet(s, e, l2).Ok?
    ensures var R2 := LayerSet(s, e, l2).value.R; l2 in R2 && e in R2[l2] && forall l :: l in R2 && l != l2 ==> e !in R2[l]
  {
    LayerSetGood(s, id, e, l2);
    var s2 := LayerSet(s, e, l2).value;
    Placed(s2, id, e);
    forall l | l in s2.R && l != l2 ensures e !in s2.R[l] {
      OneLayer(s2, id, e, l);
    }
  }

  /** A committed entity is on the render list of its own layer. */
  lemma Placed(s: State, id: nat, e: EntId)
    requires Good(s, id) && e in s.ents && s.ents[e].added
    ensures s.ents[e].layer in s.R && e in s.R[s.ents[e].layer]
  {
  }

  /** A committed entity is on the render list of its own layer only. */
  lemma OneLayer(s: State, id: nat, e: EntId, l: int)
    requires Good(s, id) && e in s.ents && l in s.R && l != s.ents[e].layer
    ensures e !in s.R[l]
  {
    assert LayerKeyed(s.ents, s.R);
  }

  /** Entity.layer = l2. */
  method SetLayer(w: World, e: EntId, l2: int) returns (fault: Option<Fault>)
    requires w.Valid() && e in w.ents
    modifies w
    ensures w.Valid() && old(Relayable(w.St(), e))
    ensures LayerSet(old(w.St()), e, l2) == if fault.Some? then Err(fault.value) else Ok(w.St())
    ensures fault.Some? ==> w.St() == old(w.St())
  {
    LayerSetGood(w.St(), w.id, e, l2);
    var x := w.ents[e];
    if x.layer == l2 {
      return None;
    }
    if !x.added {
      w.Place(e, x.(layer := l2));
      return None;
    }
    if x.world.None? {
      return Some(NullReference);
    }
    ghost var s0 := w.St();
    w.RemoveRender(e);
    w.Place(e, w.ents[e].(layer := l2));
    w.AddRender(e);
    assert w.St() == Relayer(s0, e, l2);
    fault := None;
  }

  /** What the type setter needs to take a committed entity off its type's list. */
  ghost predicate Retypable(s: State, e: EntId)
  {
    e in s.ents &&
    (s.ents[e].added && s.ents[e].typ.Some? ==>
       s.ents[e].typ.value in s.T && e in s.T[s.ents[e].typ.value] &&
       s.ents[e].typ.value in s.types.first && Count(s.types.counts, s.ents[e].typ.value) >= 1)
  }

  /** The type setter: no change for the same type; a free change for an entity not
      committed to a World; otherwise the entity leaves its old type's list, if any,
      and heads the new type's, if any. An entity committed but already removed from
      its World throws at the first list it would change. */
  ghost function TypeSet(s: State, e: EntId, ty: Option<string>): (r: Result<State>)
    requires Retypable(s, e)
    ensures r.Err? <==> s.ents[e].typ != ty && s.ents[e].added && s.ents[e].world.None?
    ensures r.Err? ==> r.fault == NullReference
    ensures r.Ok? ==> r.value.ents == s.ents[e := s.ents[e].(typ := ty)]
    ensures r.Ok? && s.ents[e].added && ty.Some? && s.ents[e].typ != ty ==>
              Chain(r.value.T, ty.value) != [] && Chain(r.value.T, ty.value)[0] == e
    ensures r.Ok? && !s.ents[e].added ==> r.value == s.(ents := r.value.ents)
  {
    var x := s.ents[e];
    if x.typ == ty then
      assert s.ents[e := x.(typ := ty)] == s.ents;
      Ok(s)
    else if !x.added then Ok(s.(ents := s.ents[e := x.(typ := ty)]))
    else if x.world.None? then Err(NullReference)
    else Ok(Retype(s, e, ty))
  }

  /** The type setter as written, on the path that throws: an entity with no type
      takes the new one before the World it no longer has is asked to list it, so the
      throw leaves the record changed; one with a type throws before any write. */
  ghost function TypeSetAsWritten(s: State, e: EntId, ty: Option<string>): (r: (State, Option<Fault>))
    requires Retypable(s, e)
    ensures r.1.Some? <==> TypeSet(s, e, ty).Err?
    ensures r.1.None? ==> r.0 == TypeSet(s, e, ty).value
    ensures r.1.Some? && s.ents[e].typ.Some? ==> r.0 == s
    ensures r.1.Some? && s.ents[e].typ.None? ==> r.0 == s.(ents := s.ents[e := s.ents[e].(typ := ty)])
  {
    var x := s.ents[e];
    match TypeSet(s, e, ty)
    case Ok(s2) => (s2, None)
    case Err(f) =>
      if x.typ.None? then (s.(ents := s.ents[e := x.(typ := ty)]), Some(f)) else (s, Some(f))
  }

  /** The partial write breaks the World invariant: the entity is still committed and
      now has a type, but is on no type list, so the World's later removeType for it
      finds no list to take it off. */
  lemma TypeSetStrays(s: State, id: nat, e: EntId, t: string)
    requires Good(s, id) && e in s.ents && s.ents[e].added && s.ents[e].world.None? && s.ents[e].typ.None?
    ensures TypeSetAsWritten(s, e, Some(t)).1 == Some(NullReference)
    ensures !Good(TypeSetAsWritten(s, e, Some(t)).0, id)
  {
    var s2 := TypeSetAsWritten(s, e, Some(t)).0;
    assert s2.ents[e].typ == Some(t) && s2.ents[e].added && s2.T == s.T;
    assert t !in s.T || e !in s.T[t];
    if Good(s2, id) {
      assert false;
    }
  }

  /** The type setter's change to a committed entity in a World: off its old type's
      list, if any, then at the head of the new type's, if any. */
  ghost function Retype(s: State, e: EntId, ty: Option<string>): (r: State)
    requires Retypable(s, e) && s.ents[e].added
    ensures r.ents == s.ents[e := s.ents[e].(typ := ty)]
    ensures ty.Some? ==> Chain(r.T, ty.value) != [] && Chain(r.T, ty.value)[0] == e
  {
    var s1 := Untype(s, e);
    if ty.Some? then
      Rewritten(s.ents, e, s.ents[e].(typ := None), s.ents[e].(typ := ty));
      Entype(s1, e, ty.value)
    else
      s1
  }

  /** The first half of Retype: a committed entity leaves its type's list, if any. */
  ghost function Untype(s: State, e: EntId): (r: State)
    requires Retypable(s, e) && s.ents[e].added
    ensures r.ents == s.ents[e := s.ents[e].(typ := None)]
  {
    if s.ents[e].typ.Some? then Detype(s, e)
    else
      Untyped(s.ents, e);
      s
  }

  /** Clearing the type of an untyped record changes nothing. */
  lemma Untyped(ents: map<EntId, Entity>, e: EntId)
    requires e in ents && ents[e].typ.None?
    ensures ents[e := ents[e].(typ := None)] == ents
  {
  }

  /** A record written twice keeps the second value. */
  lemma Rewritten(ents: map<EntId, Entity>, e: EntId, a: Entity, b: Entity)
    ensures ents[e := a][e := b] == ents[e := b]
  {
  }

  /** The type setter keeps the World good. */
  lemma TypeSetGood(s: State, id: nat, e: EntId, ty: Option<string>)
    requires Good(s, id) && e in s.ents
    ensures Retypable(s, e)
    ensures TypeSet(s, e, ty).Ok? ==> Good(TypeSet(s, e, ty).value, id)
  {
    var x := s.ents[e];
    if x.added && x.typ.Some? {
      DetypeGood(s, id, e);
    }
    if x.typ != ty && x.added && x.world.Some? {
      var s1 := Untype(s, e);
      if ty.Some? {
        EntypeGood(s1, id, e, ty.value);
      }
      assert TypeSet(s, e, ty).value == Retype(s, e, ty);
    } else if x.typ != ty && !x.added {
      LooseGood(s, id, e, x.(typ := ty));
    }
  }

  /** After the type setter a committed entity is on the list of its new type, if it
      has one, and on no other type's list. */
  lemma TypeSetAlone(s: State, id: nat, e: EntId, ty: Option<string>)
    requires Good(s, id) && e in s.ents && s.ents[e].added && s.ents[e].world.Some?
    ensures Retypable(s, e) && TypeSet(s, e, ty).Ok?
    ensures var T2 := TypeSet(s, e, ty).value.T;
            (ty.Some? ==> ty.value in T2 && e in T2[ty.value]) && forall t :: t in T2 && Some(t) != ty ==> e !in T2[t]
  {
    TypeSetGood(s, id, e, ty);
    var s2 := TypeSet(s, e, ty).value;
    if ty.Some? {
      Typed(s2, id, e);
    }
    forall t | t in s2.T && Some(t) != ty ensures e !in s2.T[t] {
      OneType(s2, id, e, t);
    }
  }

  /** A committed entity with a type is on its type's list. */
  lemma Typed(s: State, id: nat, e: EntId)
    requires Good(s, id) && e in s.ents && s.ents[e].added && s.ents[e].typ.Some?
    ensures s.ents[e].typ.value in s.T && e in s.T[s.ents[e].typ.value]
  {
  }

  /** An entity is on the list of its own type only. */
  lemma OneType(s: State, id: nat, e: EntId, t: string)
    requires Good(s, id) && e in s.ents && t in s.T && s.ents[e].typ != Some(t)
    ensures e !in s.T[t]
  {
    assert TypeKeyed(s.ents, s.T);
  }

  /** Entity.type = ty. */
  method SetType(w: World, e: EntId, ty: Option<string>) returns (fault: Option<Fault>)
    requires w.Valid() && e in w.ents
    modifies w
    ensures w.Valid() && old(Retypable(w.St(), e))
    ensures TypeSet(old(w.St()), e, ty) == if fault.Some? then Err(fault.value) else Ok(w.St())
    ensures fault.Some? ==> w.St() == old(w.St())
  {
    TypeSetGood(w.St(), w.id, e, ty);
    var x := w.ents[e];
    if x.typ == ty {
      return None;
    }
    if !x.added {
      w.Place(e, x.(typ := ty));
      return None;
    }
    if x.world.None? {
      return Some(NullReference);
    }
    ghost var s0 := w.St();
    if x.typ.Some? {
      w.RemoveType(e);
      w.Place(e, w.ents[e].(typ := None));
      assert w.St() == Detype(s0, e);
    }
    ghost var s1 := w.St();
    if ty.Some? {
      w.Place(e, w.ents[e].(typ := ty));
      w.AddType(e);
      assert w.St() == Entype(s1, e, ty.value);
    }
    fault := None;
  }

  /** The mask setter: no change for the same mask; otherwise the old mask, if any, is
      assigned to no parent, the entity takes the new one, and the new one, if any, is
      assigned to the entity (a Hitbox refitting it). */
  ghost function MaskSet(s: State, e: EntId, m: Option<nat>): (r: State)
    requires e in s.ents && MasksOK(s.ents, s.masks) && (m.Some? ==> m.value in s.masks)
    ensures r.ents.Keys == s.ents.Keys && r.masks.Keys == s.masks.Keys && MasksOK(r.ents, r.masks)
  {
    var held := s.ents[e].mask;
    if held == m then s
    else
      var s1 := if held.Some? then MaskOps.AssignOf(s, held.value, None) else s;
      HoldOK(s1.ents, s1.masks, e, m);
      var s2 := s1.(ents := s1.ents[e := s1.ents[e].(mask := m)]);
      if m.Some? then MaskOps.AssignOf(s2, m.value, Some(e)) else s2
  }

  /** An entity may take any mask of the World without breaking the mask table. */
  lemma HoldOK(ents: map<EntId, Entity>, masks: map<nat, Masks.Mask>, e: EntId, m: Option<nat>)
    requires e in ents && MasksOK(ents, masks) && (m.Some? ==> m.value in masks)
    ensures MasksOK(ents[e := ents[e].(mask := m)], masks) && ents[e := ents[e].(mask := m)].Keys == ents.Keys
  {
  }

  /** The mask setter keeps the World good. */
  lemma MaskSetGood(s: State, id: nat, e: EntId, m: Option<nat>)
    requires Good(s, id) && e in s.ents && (m.Some? ==> m.value in s.masks)
    ensures Good(MaskSet(s, e, m), id)
  {
    var held := s.ents[e].mask;
    if held != m {
      var s1 := if held.Some? then MaskOps.AssignOf(s, held.value, None) else s;
      if held.Some? {
        MaskOps.AssignGood(s, id, held.value, None);
      }
      HoldGood(s1, id, e, m);
      var s2 := s1.(ents := s1.ents[e := s1.ents[e].(mask := m)]);
      if m.Some? {
        MaskOps.AssignGood(s2, id, m.value, Some(e));
      }
    }
  }

  /** After the mask setter the entity holds `m`, `m` has the entity as its parent, the
      mask it held before has none, and an entity given a Hitbox has the Hitbox's box
      as its own hitbox. */
  lemma MaskSetMeaning(s: State, e: EntId, m: Option<nat>)
    requires e in s.ents && MasksOK(s.ents, s.masks) && (m.Some? ==> m.value in s.masks) && s.ents[e].mask != m
    ensures var s2 := MaskSet(s, e, m);
            s2.ents[e].mask == m &&
            (m.Some? ==> s2.masks[m.value].parent == Some(e)) &&
            (s.ents[e].mask.Some? ==> s2.masks[s.ents[e].mask.value].parent.None?) &&
            (m.Some? && s.masks[m.value].shape.Box? ==>
               HitRect(BoundsOf(s2.ents[e])) == Masks.MaskRect(s2.masks[m.value], BoundsOf(s2.ents[e])))
  {
    var held := s.ents[e].mask;
    var s1 := if held.Some? then MaskOps.AssignOf(s, held.value, None) else s;
    var s2 := s1.(ents := s1.ents[e := s1.ents[e].(mask := m)]);
    if m.Some? {
      MaskOps.AssignedParent(s2, m.value, e);
    }
  }

  /** Entity.mask = m. */
  method SetMask(w: World, e: EntId, m: Option<nat>)
    requires w.Valid() && e in w.ents && (m.Some? ==> m.value in w.masks)
    modifies w
    ensures w.Valid() && old(MasksOK(w.ents, w.masks)) && w.St() == MaskSet(old(w.St()), e, m)
  {
    MaskSetGood(w.St(), w.id, e, m);
    var held := w.ents[e].mask;
    if held == m {
      return;
    }
    if held.Some? {
      MaskOps.AssignTo(w, held.value, None);
    }
    HoldGood(w.St(), w.id, e, m);
    w.Place(e, w.ents[e].(mask := m));
    if m.Some? {
      MaskOps.AssignTo(w, m.value, Some(e));
    }
  }

  /** Entity.setHitbox. */
  method SetHitbox(w: World, e: EntId, width: int, height: int, originX: int, originY: int)
    requires w.Valid() && e in w.ents
    modifies w
    ensures w.Valid()
    ensures w.St() == old(w.St()).(ents := old(w.ents)[e := Entities.SetHitbox(old(w.ents[e]), width, height, originX, originY)])
  {
    PlacedGood(w.St(), w.id, e, Entities.SetHitbox(w.ents[e], width, height, originX, originY));
    w.Place(e, Entities.SetHitbox(w.ents[e], width, height, originX, originY));
  }

  /** Entity.centerOrigin. */
  method CenterOrigin(w: World, e: EntId)
    requires w.Valid() && e in w.ents
    modifies w
    ensures w.Valid()
    ensures w.St() == old(w.St()).(ents := old(w.ents)[e := Entities.CenterOrigin(old(w.ents[e]))])
  {
    PlacedGood(w.St(), w.id, e, Entities.CenterOrigin(w.ents[e]));
    w.Place(e, Entities.CenterOrigin(w.ents[e]));
  }
}
