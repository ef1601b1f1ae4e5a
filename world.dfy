// World.cs: the container of entities. The World owns an arena of entity records
// (`ents`), the masks they hold, the add and remove queues, the three kinds of
// intrusive lists with their tables, and the recycling stash. Ghost sequences name
// the order of each list; WorldState.Good ties them to the tables.
//
// Where the C# port writes a List at index Count the model appends, where it reads a
// Dictionary or List entry that is missing it reads "no entry" (null, or a count of
// zero), the lists indexed by layer number are maps, and a type whose list has
// emptied has no head entry (so re-adding it starts a new list). These are the
// readings the code was written for, carried over from ActionScript.
module Worlds {
  import opened Common
  import opened Chains
  import opened Geometry
  import opened Entities
  import Masks
  import opened Lists
  import opened Roster
  import opened Scans
  import opened Probes
  import opened WorldModel
  import opened WorldState
  import opened WorldSteps
  import PX

  class World {
    const id: nat
    var ents: map<EntId, Entity>
    var nextEnt: nat
    var masks: map<nat, Masks.Mask>
    var nextMask: nat
    var addQ: seq<EntId>      // _add
    var removeQ: seq<EntId>   // _remove
    var updates: UpdateTable  // _updateFirst, _count, _classCount and the update links
    var render: RenderTable   // _renderFirst, _renderLast, _layerList, _layerCount, _layerSort
    var types: TypeTable      // _typeFirst, _typeCount and the type links
    var recycled: Stash       // _recycled and the recycle links
    ghost var U: seq<EntId>
    ghost var R: map<int, seq<EntId>>
    ghost var T: map<string, seq<EntId>>

    /** Everything the World holds, as one value. */
    ghost function St(): State
      reads this
    {
      State(ents, nextEnt, masks, nextMask, addQ, removeQ, updates, render, types, recycled, U, R, T)
    }

    ghost predicate Valid()
      reads this
    {
      Good(St(), id)
    }

    constructor(id: nat)
      ensures Valid() && this.id == id && St() == Empty
    {
      this.id := id;
      ents, nextEnt, masks, nextMask := map[], 0, map[], 0;
      addQ, removeQ := [], [];
      updates, render, types, recycled := NoUpdates, NoRender, NoTypes, NoStash;
      U, R, T := [], map[], map[];
      EmptyGood(id);
    }

    /** `new C()` for an entity class: a fresh entity outside every World. */
    method Construct(cls: string) returns (e: EntId)
      requires Valid()
      modifies this
      ensures Valid() && e == old(nextEnt) && e !in old(ents)
      ensures St() == old(St()).(ents := old(ents)[e := NewEntity(cls)], nextEnt := e + 1)
    {
      ConstructGood(St(), id, cls);
      e := Enter(cls);
    }

    /** World.add: an entity in no World joins the add queue, and this becomes its World
        at once; an entity already in a World is left alone. */
    method Add(e: EntId) returns (r: EntId)
      requires Valid() && e in ents
      modifies this
      ensures Valid() && r == e
      ensures St() == if old(ents[e].world).Some? then old(St())
                      else old(St()).(ents := old(ents)[e := old(ents[e]).(world := Some(id))], addQ := old(addQ) + [e])
    {
      r := e;
      if ents[e].world.Some? {
        return;
      }
      AddGood(St(), id, e);
      Enqueue(e);
    }

    /** World.remove: an entity of this World joins the remove queue and leaves the
        World at once; any other entity is left alone. */
    method Remove(e: EntId) returns (r: EntId)
      requires Valid() && e in ents
      modifies this
      ensures Valid() && r == e
      ensures St() == if old(ents[e].world) != Some(id) then old(St())
                      else old(St()).(ents := old(ents)[e := old(ents[e]).(world := None)], removeQ := old(removeQ) + [e])
    {
      r := e;
      if ents[e].world != Some(id) {
        return;
      }
      RemoveGood(St(), id, e);
      Dequeue(e);
    }

    /** World.removeAll, as intended: remove for each entity of the update list, so each
        entity still in this World is queued once and leaves it. (As written, the loop
        queues every listed entity; see WorldModel.RemoveAllAsWritten.) */
    method RemoveAll()
      requires Valid()
      modifies this
      ensures Valid() && forall x :: x in U ==> ents[x].world.None?
      ensures (ents, removeQ) == RemoveAllFixed(old(ents), old(removeQ), old(U), id)
      ensures St() == old(St()).(ents := ents, removeQ := removeQ)
    {
      ghost var s0 := St();
      UpdateWalk(s0, id);
      RemoveAllLoop();
      RemoveAllGood(s0, id, ents, removeQ);
    }

    /** The walk of removeAll over the update list, queueing each entity that is in
        this World. */
    method RemoveAllLoop()
      requires updates.first == Head(U) && Linked(updates.lk, U)
      requires forall k :: 0 <= k < |U| ==> U[k] in ents
      modifies this
      ensures (ents, removeQ) == RemoveAllFixed(old(ents), old(removeQ), old(U), id)
      ensures St() == old(St()).(ents := ents, removeQ := removeQ)
    {
      ghost var s0 := St();
      var cur := updates.first;
      ghost var k := 0;
      while cur.Some?
        invariant St() == s0.(ents := ents, removeQ := removeQ)
        invariant 0 <= k <= |U| && cur == (if k < |U| then Some(U[k]) else None)
        invariant (ents, removeQ) == RemoveAllFixed(s0.ents, s0.removeQ, U[..k], id)
        decreases |U| - k
      {
        var e := cur.value;
        RemoveAllFixedStep(s0.ents, s0.removeQ, U, id, k);
        if ents[e].world == Some(id) {
          Dequeue(e);
        }
        assert At(updates.lk, U[k]) == Expected(U, k);
        cur := At(updates.lk, e).next;
        k := k + 1;
      }
      TakeAll(U);
    }

    /** World.updateLists: the remove pass, the add pass and the pending layer sort, as
        WorldState.UpdateLists states them, with the calls made into entities. */
    method UpdateLists() returns (hooks: seq<Hook>)
      requires Valid()
      modifies this
      ensures Valid() && (St(), hooks) == WorldState.UpdateLists(old(St()), id)
    {
      var removed := RemovePassLoop();
      var added := AddPassLoop();
      SortGood(St(), id);
      SortLayers();
      hooks := removed + added;
    }

    /** The remove pass of updateLists: the remove queue in order, each entry taken off
        the add queue when it was never committed, and otherwise taken off its lists. */
    method RemovePassLoop() returns (hooks: seq<Hook>)
      requires Valid()
      modifies this
      ensures Valid() && (St(), hooks) == RemovePass(old(St()), id)
    {
      ghost var s0 := St();
      hooks := [];
      while removeQ != []
        invariant Valid()
        invariant RemovePass(s0, id).0 == RemovePass(St(), id).0
        invariant RemovePass(s0, id).1 == hooks + RemovePass(St(), id).1
        decreases |removeQ|
      {
        ghost var s := St();
        var e := removeQ[0];
        RemovePassUnfold(s, id);
        var x := ents[e];
        if !x.added && e in addQ {
          CancelHead();
        } else {
          RetireHead();
          AppendAssoc(hooks, RetireHooks(x, e), RemovePass(St(), id).1);
          hooks := hooks + RetireHooks(x, e);
        }
      }
      assert RemovePass(St(), id) == (St(), []);
      AppendEmpty(hooks);
    }

    /** The add pass of updateLists: the add queue in order, each entry committed to its
        lists. */
    method AddPassLoop() returns (hooks: seq<Hook>)
      requires Valid() && removeQ == []
      modifies this
      ensures Valid() && (St(), hooks) == AddPass(old(St()), id)
    {
      ghost var s0 := St();
      hooks := [];
      while addQ != []
        invariant Valid() && removeQ == []
        invariant AddPass(s0, id).0 == AddPass(St(), id).0
        invariant AddPass(s0, id).1 == hooks + AddPass(St(), id).1
        decreases |addQ|
      {
        var e := addQ[0];
        AddPassUnfold(St(), id);
        CommitHead();
        AppendAssoc(hooks, [Added(e)], AddPass(St(), id).1);
        hooks := hooks + [Added(e)];
      }
      assert AddPass(St(), id) == (St(), []);
      AppendEmpty(hooks);
    }

    // ---------------------------------------------------------------- recycling

    /** World.create: the top of the class's stash when there is one, its link cleared,
        otherwise a new entity; then World.add when asked. */
    method Create(cls: string, addToWorld: bool) returns (e: EntId)
      requires Valid()
      modifies this
      ensures Valid()
      ensures var p := Pop(old(recycled), cls);
              var s1 := if p.0.Some? then old(St()).(recycled := p.1)
                        else old(St()).(ents := old(ents)[old(nextEnt) := NewEntity(cls)], nextEnt := old(nextEnt) + 1);
              e == (if p.0.Some? then p.0.value else old(nextEnt)) && e in s1.ents &&
              St() == if addToWorld then Joined(s1, id, e) else s1
    {
      PopGood(St(), id, cls);
      var o := TakeRecycled(cls);
      if o.Some? {
        e := o.value;
      } else {
        e := Construct(cls);
      }
      if addToWorld {
        e := Add(e);
      }
    }

    /** World.recycle: an entity of this World goes on top of its class's stash and is
        removed; any other entity is left alone. */
    method Recycle(e: EntId) returns (r: EntId)
      requires Valid() && e in ents
      modifies this
      ensures Valid() && r == e
      ensures St() == if old(ents[e].world) != Some(id) then old(St())
                      else old(St()).(recycled := Push(old(recycled), old(ents[e].cls), e),
                                      ents := old(ents)[e := old(ents[e]).(world := None)],
                                      removeQ := old(removeQ) + [e])
    {
      r := e;
      if ents[e].world != Some(id) {
        return;
      }
      PushGood(St(), id, e);
      PutRecycled(e);
      r := Remove(e);
    }

    /** World.clearRecycled: clears the link of each entity on the class's stash, then
        drops the class's entry. */
    method ClearRecycled(cls: string)
      requires Valid()
      modifies this
      ensures Valid() && St() == old(St()).(recycled := Cleared(old(recycled), cls))
    {
      ClearedGood(St(), id, cls);
      UnlinkRecycled(Top(recycled, cls));
      DropRecycled(cls);
    }

    /** The loop of clearRecycled: from `start`, follow and clear each recycle link. */
    method UnlinkRecycled(start: Option<EntId>)
      modifies this
      ensures St() == old(St()).(recycled := old(recycled).(next := Strip(old(recycled.next), start)))
    {
      ghost var s0 := St();
      var cur := start;
      while cur.Some?
        invariant St() == s0.(recycled := s0.recycled.(next := recycled.next))
        invariant Strip(recycled.next, cur) == Strip(s0.recycled.next, start)
        decreases |recycled.next|, if cur.Some? then 1 else 0
      {
        var x := cur.value;
        var n := if x in recycled.next then Some(recycled.next[x]) else None;
        recycled := recycled.(next := recycled.next - {x});
        cur := n;
      }
    }

    // ---------------------------------------------------------------- z-order

    /** World.bringToFront: an entity of this World with a predecessor in its layer
        moves to the head of the layer; otherwise nothing changes and the answer is
        false. */
    method BringToFront(e: EntId) returns (r: bool)
      requires Valid() && e in ents
      modifies this
      ensures Valid()
      ensures r <==> old(ents[e].world) == Some(id) && old(At(render.lk, e)).prev.Some?
      ensures !r ==> St() == old(St())
      ensures r ==> var l := old(ents[e].layer);
                    l in old(R) && e in old(R)[l] && l in old(render.first) &&
                    St() == old(St()).(render := ToFront(old(render), e, l), R := old(R)[l := Fronted(old(R)[l], e)])
    {
      if ents[e].world != Some(id) || At(render.lk, e).prev.None? {
        return false;
      }
      FrontGood(St(), id, e);
      var l := ents[e].layer;
      Reorder(ToFront(render, e, l), R[l := Fronted(R[l], e)]);
      return true;
    }

    /** World.sendToBack: an entity of this World with a successor in its layer moves to
        the end of the layer; otherwise nothing changes and the answer is false. */
    method SendToBack(e: EntId) returns (r: bool)
      requires Valid() && e in ents
      modifies this
      ensures Valid()
      ensures r <==> old(ents[e].world) == Some(id) && old(At(render.lk, e)).next.Some?
      ensures !r ==> St() == old(St())
      ensures r ==> var l := old(ents[e].layer);
                    l in old(R) && e in old(R)[l] && l in old(render.last) &&
                    St() == old(St()).(render := ToBack(old(render), e, l), R := old(R)[l := Backed(old(R)[l], e)])
    {
      if ents[e].world != Some(id) || At(render.lk, e).next.None? {
        return false;
      }
      BackGood(St(), id, e);
      var l := ents[e].layer;
      Reorder(ToBack(render, e, l), R[l := Backed(R[l], e)]);
      return true;
    }

    /** World.bringForward: an entity of this World with a predecessor swaps places with
        it; otherwise nothing changes and the answer is false. */
    method BringForward(e: EntId) returns (r: bool)
      requires Valid() && e in ents
      modifies this
      ensures Valid()
      ensures r <==> old(ents[e].world) == Some(id) && old(At(render.lk, e)).prev.Some?
      ensures !r ==> St() == old(St())
      ensures r ==> var l := old(ents[e].layer);
                    l in old(R) && e in old(R)[l] && IndexOf(old(R)[l], e) > 0 &&
                    St() == old(St()).(render := Forward(old(render), e, l), R := old(R)[l := Forwarded(old(R)[l], e)])
    {
      if ents[e].world != Some(id) || At(render.lk, e).prev.None? {
        return false;
      }
      ForwardGood(St(), id, e);
      var l := ents[e].layer;
      Reorder(Forward(render, e, l), R[l := Forwarded(R[l], e)]);
      return true;
    }

    /** World.sendBackward: an entity of this World with a successor swaps places with
        it; otherwise nothing changes and the answer is false. */
    method SendBackward(e: EntId) returns (r: bool)
      requires Valid() && e in ents
      modifies this
      ensures Valid()
      ensures r <==> old(ents[e].world) == Some(id) && old(At(render.lk, e)).next.Some?
      ensures !r ==> St() == old(St())
      ensures r ==> var l := old(ents[e].layer);
                    l in old(R) && e in old(R)[l] && IndexOf(old(R)[l], e) < |old(R)[l]| - 1 &&
                    St() == old(St()).(render := Backward(old(render), e, l), R := old(R)[l := Backwarded(old(R)[l], e)])
    {
      if ents[e].world != Some(id) || At(render.lk, e).next.None? {
        return false;
      }
      BackwardGood(St(), id, e);
      var l := ents[e].layer;
      Reorder(Backward(render, e, l), R[l := Backwarded(R[l], e)]);
      return true;
    }

    /** World.isAtFront: the entity has no render predecessor. A committed entity is at
        the front exactly when it heads its layer; an uncommitted one always is. */
    method IsAtFront(e: EntId) returns (r: bool)
      requires Valid() && e in ents
      ensures ents[e].added ==> ents[e].layer in R && R[ents[e].layer] != [] && (r <==> R[ents[e].layer][0] == e)
      ensures !ents[e].added ==> r
    {
      PlacedAt(St(), id, e);
      r := At(render.lk, e).prev.None?;
    }

    /** World.isAtBack: the entity has no render successor. A committed entity is at the
        back exactly when it ends its layer; an uncommitted one always is. */
    method IsAtBack(e: EntId) returns (r: bool)
      requires Valid() && e in ents
      ensures ents[e].added ==> ents[e].layer in R && R[ents[e].layer] != [] &&
                                (r <==> R[ents[e].layer][|R[ents[e].layer]| - 1] == e)
      ensures !ents[e].added ==> r
    {
      PlacedAt(St(), id, e);
      r := At(render.lk, e).next.None?;
    }

    // ---------------------------------------------------------------- queries on a type

    /** World.collideRect: the first entity of the type's list whose collideRect, at its
        own position, meets the rectangle; None when none does. */
    method CollideRect(ty: string, rect: Rect) returns (res: Result<Option<EntId>>)
      requires Valid()
      ensures res == Scan(Chain(T, ty), RectTest(ents, masks, rect))
    {
      TypeWalk(St(), id, ty);
      res := FindType(ty, RectTest(ents, masks, rect));
    }

    /** World.collidePoint: the first entity of the type's list whose collidePoint, at
        its own position, holds the point; None when none does. */
    method CollidePoint(ty: string, px: int, py: int) returns (res: Result<Option<EntId>>)
      requires Valid()
      ensures res == Scan(Chain(T, ty), PointTest(ents, masks, px, py))
    {
      TypeWalk(St(), id, ty);
      res := FindType(ty, PointTest(ents, masks, px, py));
    }

    /** World.collideRectInto: a List gains every entity of the type that meets the
        rectangle, in list order; an array overflows at the first one; any other target
        is a usage error. */
    method CollideRectInto(ty: string, rect: Rect, into: Into) returns (out: Into, fault: Option<Fault>)
      requires Valid()
      ensures (out, fault) == HitsInto(into, Chain(T, ty), RectTest(ents, masks, rect))
    {
      TypeWalk(St(), id, ty);
      out, fault := TypeInto(ty, RectTest(ents, masks, rect), into);
    }

    /** World.collidePointInto, as collideRectInto with a point. */
    method CollidePointInto(ty: string, px: int, py: int, into: Into) returns (out: Into, fault: Option<Fault>)
      requires Valid()
      ensures (out, fault) == HitsInto(into, Chain(T, ty), PointTest(ents, masks, px, py))
    {
      TypeWalk(St(), id, ty);
      out, fault := TypeInto(ty, PointTest(ents, masks, px, py), into);
    }

    /** The body shared by the Into queries. */
    method TypeInto(ty: string, test: nat --> Result<bool>, into: Into) returns (out: Into, fault: Option<Fault>)
      requires Linked(types.lk, Chain(T, ty))
      requires (if ty in types.first then Some(types.first[ty]) else None) == Head(Chain(T, ty))
      requires forall k :: 0 <= k < |Chain(T, ty)| ==> test.requires(Chain(T, ty)[k])
      ensures (out, fault) == HitsInto(into, Chain(T, ty), test)
    {
      match into {
        case ArrayOf(_) =>
          var r := FindType(ty, test);
          out := into;
          fault := match r
            case Err(f) => Some(f)
            case Ok(v) => if v.Some? then Some(IndexOutOfRange) else None;
        case ListOf(items) =>
          var g := GatherType(ty, test);
          out, fault := ListOf(items + g.items), g.fault;
        case Other =>
          out, fault := into, Some(UsageError);
      }
    }

    /** World.nearestToRect: the earliest entity of the type's list at the least
        squareRects distance from the rectangle, None for an empty list. */
    method NearestToRect(ty: string, x: int, y: int, w: int, h: int) returns (r: Option<EntId>)
      requires Valid()
      ensures r == Nearest(Chain(T, ty), Gauged(ents, ToRect(x, y, w, h)))
    {
      r := NearestBy(ty, ToRect(x, y, w, h));
    }

    /** World.nearestToEntity: with hitboxes, nearestToRect of the entity's hitbox;
        otherwise the earliest entity of the type's list whose position is closest to
        the entity's corner (position less origin). */
    method NearestToEntity(ty: string, e: EntId, useHitboxes: bool) returns (r: Option<EntId>)
      requires Valid() && e in ents
      ensures TypeListed(ty) && r == Nearest(Chain(T, ty), Gauged(ents, EntityGauge(ents[e], useHitboxes)))
    {
      r := NearestBy(ty, EntityGauge(ents[e], useHitboxes));
    }

    /** World.nearestToPoint: the earliest entity of the type's list closest to the
        point, by squarePointRect to its hitbox or by its position. */
    method NearestToPoint(ty: string, x: int, y: int, useHitboxes: bool) returns (r: Option<EntId>)
      requires Valid()
      ensures r == Nearest(Chain(T, ty), Gauged(ents, if useHitboxes then PointToBox(x, y) else ToPoint(x, y)))
    {
      r := NearestBy(ty, if useHitboxes then PointToBox(x, y) else ToPoint(x, y));
    }

    /** The entities of the type's list are entities of the arena. */
    ghost predicate TypeListed(ty: string)
      reads this
    {
      forall k :: 0 <= k < |Chain(T, ty)| ==> Chain(T, ty)[k] in ents
    }

    /** The walk shared by the nearest* queries. */
    method NearestBy(ty: string, g: Gauge) returns (r: Option<EntId>)
      requires Valid()
      ensures TypeListed(ty) && r == Nearest(Chain(T, ty), Gauged(ents, g))
    {
      TypeWalk(St(), id, ty);
      r := NearestType(ty, g);
    }

    /** World.getType: a List gains the type's entities in list order; an array
        overflows unless the type has none; any other target is a usage error. */
    method GetType(ty: string, into: Into) returns (out: Into, fault: Option<Fault>)
      requires Valid()
      ensures (out, fault) == AllInto(into, Chain(T, ty))
    {
      TypeWalk(St(), id, ty);
      match into {
        case ArrayOf(_) =>
          out := into;
          fault := if ty in types.first then Some(IndexOutOfRange) else None;
        case ListOf(items) =>
          var s := TypeEntities(ty);
          out, fault := ListOf(items + s), None;
        case Other =>
          out, fault := into, Some(UsageError);
      }
    }

    /** World.getAll: as getType over the update list. */
    method GetAll(into: Into) returns (out: Into, fault: Option<Fault>)
      requires Valid()
      ensures (out, fault) == AllInto(into, U)
    {
      UpdateWalk(St(), id);
      match into {
        case ArrayOf(_) =>
          out := into;
          fault := if updates.first.Some? then Some(IndexOutOfRange) else None;
        case ListOf(items) =>
          var s := UpdateEntities();
          out, fault := ListOf(items + s), None;
        case Other =>
          out, fault := into, Some(UsageError);
      }
    }

    // ---------------------------------------------------------------- walks

    /** A walk of the type list from `_typeFirst` along `_typeNext`, stopping at the first
        entity the test does not answer no for. */
    method FindType(ty: string, test: nat --> Result<bool>) returns (res: Result<Option<EntId>>)
      requires Linked(types.lk, Chain(T, ty))
      requires (if ty in types.first then Some(types.first[ty]) else None) == Head(Chain(T, ty))
      requires forall k :: 0 <= k < |Chain(T, ty)| ==> test.requires(Chain(T, ty)[k])
      ensures res == Scan(Chain(T, ty), test)
    {
      ghost var s := Chain(T, ty);
      var cur := if ty in types.first then Some(types.first[ty]) else None;
      ghost var k := 0;
      while cur.Some?
        invariant 0 <= k <= |s| && cur == (if k < |s| then Some(s[k]) else None)
        invariant Scan(s[..k], test) == Ok(None)
        decreases |s| - k
      {
        var x := cur.value;
        ScanStep(s, test, k);
        var v := test(x);
        if v != Ok(false) {
          ScanSettled(s, test, k + 1);
          return Settle(x, v);
        }
        assert At(types.lk, s[k]) == Expected(s, k);
        cur := At(types.lk, x).next;
        k := k + 1;
      }
      TakeAll(s);
      return Ok(None);
    }

    /** A walk of the whole type list collecting the entities the test accepts, stopping
        at a failing test. */
    method GatherType(ty: string, test: nat --> Result<bool>) returns (g: Gathered)
      requires Linked(types.lk, Chain(T, ty))
      requires (if ty in types.first then Some(types.first[ty]) else None) == Head(Chain(T, ty))
      requires forall k :: 0 <= k < |Chain(T, ty)| ==> test.requires(Chain(T, ty)[k])
      ensures g == Gather(Chain(T, ty), test)
    {
      ghost var s := Chain(T, ty);
      var cur := if ty in types.first then Some(types.first[ty]) else None;
      ghost var k := 0;
      g := Gathered([], None);
      while cur.Some?
        invariant 0 <= k <= |s| && cur == (if k < |s| then Some(s[k]) else None)
        invariant g == Gather(s[..k], test) && g.fault.None?
        decreases |s| - k
      {
        var x := cur.value;
        GatherStep(s, test, k);
        var v := test(x);
        if v.Err? {
          g := g.(fault := Some(v.fault));
          GatherSettled(s, test, k + 1);
          return;
        }
        if v.value {
          g := g.(items := g.items + [x]);
        }
        assert At(types.lk, s[k]) == Expected(s, k);
        cur := At(types.lk, x).next;
        k := k + 1;
      }
      TakeAll(s);
    }

    /** The walk of the nearest* queries: keep the entity whose distance is strictly
        below the best so far (none kept stands for float.MaxValue). */
    method NearestType(ty: string, g: Gauge) returns (near: Option<EntId>)
      requires Linked(types.lk, Chain(T, ty))
      requires (if ty in types.first then Some(types.first[ty]) else None) == Head(Chain(T, ty))
      requires forall k :: 0 <= k < |Chain(T, ty)| ==> Chain(T, ty)[k] in ents
      ensures near == Nearest(Chain(T, ty), Gauged(ents, g))
    {
      ghost var s := Chain(T, ty);
      ghost var dist := Gauged(ents, g);
      var cur := if ty in types.first then Some(types.first[ty]) else None;
      ghost var k := 0;
      near := None;
      var nearDist := 0;
      while cur.Some?
        invariant 0 <= k <= |s| && cur == (if k < |s| then Some(s[k]) else None)
        invariant near == Nearest(s[..k], dist)
        invariant near.Some? ==> near.value in ents && nearDist == Measure(g, ents[near.value])
        decreases |s| - k
      {
        var x := cur.value;
        NearestStep(s, dist, k);
        var d := Measure(g, ents[x]);
        if near.None? || d < nearDist {
          near, nearDist := Some(x), d;
        }
        assert At(types.lk, s[k]) == Expected(s, k);
        cur := At(types.lk, x).next;
        k := k + 1;
      }
      TakeAll(s);
    }

    /** The walk of getType: the type's list, in order. */
    method TypeEntities(ty: string) returns (out: seq<EntId>)
      requires Linked(types.lk, Chain(T, ty))
      requires (if ty in types.first then Some(types.first[ty]) else None) == Head(Chain(T, ty))
      ensures out == Chain(T, ty)
    {
      ghost var s := Chain(T, ty);
      var cur := if ty in types.first then Some(types.first[ty]) else None;
      out := [];
      while cur.Some?
        invariant |out| <= |s| && out == s[..|out|]
        invariant cur == (if |out| < |s| then Some(s[|out|]) else None)
        decreases |s| - |out|
      {
        assert At(types.lk, s[|out|]) == Expected(s, |out|);
        out := out + [cur.value];
        cur := At(types.lk, cur.value).next;
      }
      TakeAll(s);
    }

    /** The walk of getAll: the update list, in order. */
    method UpdateEntities() returns (out: seq<EntId>)
      requires Linked(updates.lk, U) && updates.first == Head(U)
      ensures out == U
    {
      var cur := updates.first;
      out := [];
      while cur.Some?
        invariant |out| <= |U| && out == U[..|out|]
        invariant cur == (if |out| < |U| then Some(U[|out|]) else None)
        decreases |U| - |out|
      {
        assert At(updates.lk, U[|out|]) == Expected(U, |out|);
        out := out + [cur.value];
        cur := At(updates.lk, cur.value).next;
      }
      TakeAll(U);
    }

    // ---------------------------------------------------------------- accessors

    /** World.count: `_count` is the length of the update list. */
    function EntityCount(): (r: nat)
      reads this
      requires Valid()
      ensures r == |U|
    {
      UpdateTables(St(), id, "");
      updates.count
    }

    /** World.typeCount: `_typeCount[type]` is the length of the type's list (zero for
        a type never added). */
    function TypeCount(ty: string): (r: nat)
      reads this
      requires Valid()
      ensures r == |Chain(T, ty)|
    {
      TypeTables(St(), id, ty);
      Count(types.counts, ty)
    }

    /** World.classCount: `_classCount[name]` is the number of entities of the class on
        the update list. */
    function ClassCount(name: string): (r: nat)
      reads this
      requires Valid()
      ensures r == ClassTally(ents, U, name)
    {
      UpdateTables(St(), id, name);
      Count(updates.classCount, name)
    }

    /** World.layerCount: `_layerCount[layer]` is the length of the layer's list. */
    function LayerCount(l: int): (r: nat)
      reads this
      requires Valid()
      ensures r == |Chain(R, l)|
    {
      LayerTables(St(), id, l);
      Count(render.counts, l)
    }

    /** World.first: the head of the update list. */
    function First(): (r: Option<EntId>)
      reads this
      requires Valid()
      ensures r == Head(U)
    {
      UpdateTables(St(), id, "");
      updates.first
    }

    /** World.layers: the length of the layer list, which is the number of layers that
        have entities. */
    function Layers(): (r: nat)
      reads this
      requires Valid()
      ensures r == |R.Keys|
    {
      LayerCard(St(), id);
      |render.layers|
    }

    /** World.typeFirst: None for an empty World, else `_typeFirst[type]`; either way
        the head of the type's list. */
    function TypeFirst(ty: string): (r: Option<EntId>)
      reads this
      requires Valid()
      ensures r == Head(Chain(T, ty))
    {
      UpdateTables(St(), id, "");
      TypeTables(St(), id, ty);
      EmptyWorld(St(), id, ty, 0);
      if updates.first.None? then None
      else if ty in types.first then Some(types.first[ty]) else None
    }

    /** World.layerFirst: None for an empty World, else `_renderFirst[layer]`; either
        way the head of the layer's list. */
    function LayerFirst(l: int): (r: Option<EntId>)
      reads this
      requires Valid()
      ensures r == Head(Chain(R, l))
    {
      UpdateTables(St(), id, "");
      LayerTables(St(), id, l);
      EmptyWorld(St(), id, "", l);
      if updates.first.None? then None
      else if l in render.first then Some(render.first[l]) else None
    }

    /** World.layerLast: None for an empty World, else `_renderLast[layer]`; either way
        the end of the layer's list. */
    function LayerLast(l: int): (r: Option<EntId>)
      reads this
      requires Valid()
      ensures r == Tail(Chain(R, l))
    {
      UpdateTables(St(), id, "");
      LayerTables(St(), id, l);
      EmptyWorld(St(), id, "", l);
      if updates.first.None? then None
      else if l in render.last then Some(render.last[l]) else None
    }

    /** World.layerFarthest: 0 for an empty World, else the last entry of the layer
        list: the layer render draws first, the greatest of them once the list is sorted. */
    function LayerFarthest(): (r: int)
      reads this
      requires Valid()
      ensures U == [] ==> r == 0
      ensures U != [] ==> r in R && (!render.sortPending ==> forall l :: l in R ==> l <= r)
      ensures U != [] ==> var d := Drawn(R, render.layers, 0); d != [] && d[0] in R[r]
    {
      LayerEnds(St(), id);
      if updates.first.None? then 0 else render.layers[|render.layers| - 1]
    }

    /** World.layerNearest: 0 for an empty World, else the first entry of the layer
        list: the layer render draws last, the least of them once the list is sorted. */
    function LayerNearest(): (r: int)
      reads this
      requires Valid()
      ensures U == [] ==> r == 0
      ensures U != [] ==> r in R && (!render.sortPending ==> forall l :: l in R ==> r <= l)
      ensures U != [] ==> var d := Drawn(R, render.layers, 0); d != [] && d[|d| - 1] in R[r]
    {
      LayerEnds(St(), id);
      if updates.first.None? then 0 else render.layers[0]
    }

    /** World.farthest: None for an empty World, else the end of the farthest layer,
        which is the entity render draws first. */
    function FarthestEntity(): (r: Option<EntId>)
      reads this
      requires Valid()
      ensures r.None? <==> U == []
      ensures r.Some? ==> LayerFarthest() in R && r == Tail(R[LayerFarthest()])
      ensures r.Some? ==> var d := Drawn(R, render.layers, 0); d != [] && r.value == d[0]
    {
      LayerEnds(St(), id);
      if updates.first.None? then None else Some(render.last[render.layers[|render.layers| - 1]])
    }

    /** World.nearest: None for an empty World, else the head of the nearest layer,
        which is the entity render draws last. */
    function NearestEntity(): (r: Option<EntId>)
      reads this
      requires Valid()
      ensures r.None? <==> U == []
      ensures r.Some? ==> LayerNearest() in R && r == Head(R[LayerNearest()])
      ensures r.Some? ==> var d := Drawn(R, render.layers, 0); d != [] && r.value == d[|d| - 1]
    {
      LayerEnds(St(), id);
      if updates.first.None? then None else Some(render.first[render.layers[0]])
    }

    /** World.uniqueTypes: the number of keys of `_typeCount`, which counts every type
        that has entities (and a type whose list emptied, whose key stays). */
    function UniqueTypes(): (r: nat)
      reads this
      requires Valid()
      ensures |T.Keys| <= r
    {
      TypeTables(St(), id, "");
      SubsetCard(T.Keys, types.counts.Keys);
      |types.counts.Keys|
    }

    // ---------------------------------------------------------------- the passes

    /** World.update: along the update list, each active entity updates its tweens (when
        it has any) and itself, and each entity's active graphic updates. */
    method Update() returns (hooks: seq<Hook>)
      requires Valid()
      ensures hooks == UpdateCalls(ents, U)
    {
      UpdateWalk(St(), id);
      hooks := UpdateWalkCalls();
    }

    /** The loop of update, from `_updateFirst` along `_updateNext`. */
    method UpdateWalkCalls() returns (hooks: seq<Hook>)
      requires updates.first == Head(U) && Linked(updates.lk, U)
      requires forall k :: 0 <= k < |U| ==> U[k] in ents
      ensures hooks == UpdateCalls(ents, U)
    {
      var cur := updates.first;
      ghost var k := 0;
      hooks := [];
      while cur.Some?
        invariant 0 <= k <= |U| && cur == (if k < |U| then Some(U[k]) else None)
        invariant hooks == UpdateCalls(ents, U[..k])
        decreases |U| - k
      {
        var e := cur.value;
        UpdateCallsStep(ents, U, k);
        var x := ents[e];
        var calls := [];
        if x.active {
          if x.hasTweens {
            calls := [TweensUpdated(e)];
          }
          calls := calls + [Updated(e)];
        }
        if x.graphic.Some? && x.graphic.value.active {
          calls := calls + [GraphicUpdated(e)];
        }
        assert calls == UpdateStep(x, e);
        hooks := hooks + calls;
        assert At(updates.lk, U[k]) == Expected(U, k);
        cur := At(updates.lk, e).next;
        k := k + 1;
      }
      TakeAll(U);
    }

    /** The entities render visits are entities of the arena. */
    ghost predicate DrawnListed()
      reads this
    {
      forall k :: 0 <= k < |Drawn(R, render.layers, 0)| ==> Drawn(R, render.layers, 0)[k] in ents
    }

    /** World.render: from the last layer of the layer list to the first, each layer
        from its end to its head, every visible entity renders. */
    method Render() returns (hooks: seq<Hook>)
      requires Valid()
      ensures DrawnListed() && hooks == Shown(ents, Drawn(R, render.layers, 0))
    {
      RenderWalk(St(), id);
      hooks := RenderLayers();
    }

    /** The outer loop of render, over the layer list from its end. */
    method RenderLayers() returns (hooks: seq<Hook>)
      requires forall l :: l in render.layers ==> l in R && l in render.last && Linked(render.lk, R[l])
      requires forall l :: l in render.layers ==> Tail(R[l]) == Some(render.last[l])
      requires forall l, k :: l in R && 0 <= k < |R[l]| ==> R[l][k] in ents
      ensures DrawnListed() && hooks == Shown(ents, Drawn(R, render.layers, 0))
    {
      DrawnWithin(ents, R, render.layers, 0);
      var i := |render.layers|;
      hooks := [];
      while i > 0
        invariant 0 <= i <= |render.layers|
        invariant forall k :: 0 <= k < |Drawn(R, render.layers, i)| ==> Drawn(R, render.layers, i)[k] in ents
        invariant hooks == Shown(ents, Drawn(R, render.layers, i))
        decreases i
      {
        i := i - 1;
        var l := render.layers[i];
        var hs := RenderLayer(l);
        DrawnStep(ents, R, render.layers, i);
        hooks := hooks + hs;
      }
    }

    /** The inner loop of render: one layer from `_renderLast` along `_renderPrev`. */
    method RenderLayer(l: int) returns (hooks: seq<Hook>)
      requires l in R && l in render.last && Linked(render.lk, R[l]) && Tail(R[l]) == Some(render.last[l])
      requires forall k :: 0 <= k < |R[l]| ==> R[l][k] in ents
      ensures forall k :: 0 <= k < |Backwards(R[l])| ==> Backwards(R[l])[k] in ents
      ensures hooks == Shown(ents, Backwards(R[l]))
    {
      ghost var q := R[l];
      ghost var b := Backwards(q);
      var cur := Some(render.last[l]);
      ghost var m := 0;
      hooks := [];
      while cur.Some?
        invariant 0 <= m <= |b| && cur == (if m < |b| then Some(b[m]) else None)
        invariant hooks == Shown(ents, b[..m])
        decreases |b| - m
      {
        var e := cur.value;
        ShownStep(ents, b, m);
        if ents[e].visible {
          hooks := hooks + [Rendered(e)];
        }
        assert At(render.lk, q[|q| - 1 - m]) == Expected(q, |q| - 1 - m);
        cur := At(render.lk, e).prev;
        m := m + 1;
      }
      TakeAll(b);
    }

    // ---------------------------------------------------------------- single steps
    // Each step assigns the fields one group of statements of the source changes, asks
    // only what its expressions need, and gives the new state as a function of the old;
    // the methods above pair it with the WorldState lemma that keeps the invariant.

    method Enter(cls: string) returns (e: EntId)
      modifies this
      ensures e == old(nextEnt) && St() == old(St()).(ents := old(ents)[e := NewEntity(cls)], nextEnt := e + 1)
    {
      e := nextEnt;
      ents, nextEnt := ents[e := NewEntity(cls)], nextEnt + 1;
    }

    method Enqueue(e: EntId)
      requires e in ents
      modifies this
      ensures St() == old(St()).(ents := old(ents)[e := old(ents[e]).(world := Some(id))], addQ := old(addQ) + [e])
    {
      addQ, ents := addQ + [e], ents[e := ents[e].(world := Some(id))];
    }

    method Dequeue(e: EntId)
      requires e in ents
      modifies this
      ensures St() == old(St()).(ents := old(ents)[e := old(ents[e]).(world := None)], removeQ := old(removeQ) + [e])
    {
      removeQ, ents := removeQ + [e], ents[e := ents[e].(world := None)];
    }

    method CancelHead()
      requires removeQ != [] && removeQ[0] in addQ
      modifies this
      ensures St() == Cancel(old(St()))
    {
      addQ, removeQ := Cut(addQ, IndexOf(addQ, removeQ[0])), removeQ[1..];
    }

    /** The remove pass on a committed entity: it is marked uncommitted (its tweens
        cleared when it clears them automatically) and leaves the head of the queue,
        then removeUpdate, removeRender, and removeType when it has a type. */
    method RetireHead()
      requires removeQ != [] && RetireOK(St(), removeQ[0])
      modifies this
      ensures St() == Retire(old(St()), old(removeQ[0]))
    {
      var e := removeQ[0];
      var x := ents[e];
      ents, removeQ := ents[e := Retired(x)], removeQ[1..];
      RemoveUpdate(e);
      RemoveRender(e);
      if x.typ.Some? {
        RemoveType(e);
      }
    }

    /** The add pass on the head of the add queue: it is marked committed and leaves the
        queue, then addUpdate, addRender, and addType when it has a type. */
    method CommitHead()
      requires addQ != [] && addQ[0] in ents
      modifies this
      ensures St() == Commit(old(St()), old(addQ[0]))
    {
      var e := addQ[0];
      ents, addQ := ents[e := ents[e].(added := true)], addQ[1..];
      AddUpdate(e);
      AddRender(e);
      if ents[e].typ.Some? {
        AddType(e);
      }
    }

    /** World.addUpdate. */
    method AddUpdate(e: EntId)
      requires e in ents
      modifies this
      ensures St() == old(St()).(updates := UpdateAdd(old(updates), e, old(ents[e].cls)), U := [e] + old(U))
    {
      updates, U := UpdateAdd(updates, e, ents[e].cls), [e] + U;
    }

    /** World.removeUpdate. */
    method RemoveUpdate(e: EntId)
      requires e in ents && e in U && updates.count >= 1 && Count(updates.classCount, ents[e].cls) >= 1
      modifies this
      ensures St() == old(St()).(updates := UpdateRemove(old(updates), e, old(ents[e].cls)), U := Cut(old(U), IndexOf(old(U), e)))
    {
      updates, U := UpdateRemove(updates, e, ents[e].cls), Cut(U, IndexOf(U, e));
    }

    /** World.addRender. */
    method AddRender(e: EntId)
      requires e in ents
      modifies this
      ensures St() == old(St()).(render := RenderAdd(old(render), e, old(ents[e].layer)), R := Pushed(old(R), old(ents[e].layer), e))
    {
      render, R := RenderAdd(render, e, ents[e].layer), Pushed(R, ents[e].layer, e);
    }

    /** World.removeRender. */
    method RemoveRender(e: EntId)
      requires e in ents && ents[e].layer in R && e in R[ents[e].layer]
      requires ents[e].layer in render.layers && Count(render.counts, ents[e].layer) >= 1
      modifies this
      ensures St() == old(St()).(render := RenderRemove(old(render), e, old(ents[e].layer)), R := Dropped(old(R), old(ents[e].layer), e))
    {
      render, R := RenderRemove(render, e, ents[e].layer), Dropped(R, ents[e].layer, e);
    }

    /** World.addType. */
    method AddType(e: EntId)
      requires e in ents && ents[e].typ.Some?
      modifies this
      ensures var ty := old(ents[e].typ.value);
              St() == old(St()).(types := TypeAdd(old(types), e, ty), T := Pushed(old(T), ty, e))
    {
      var ty := ents[e].typ.value;
      types, T := TypeAdd(types, e, ty), Pushed(T, ty, e);
    }

    /** World.removeType. */
    method RemoveType(e: EntId)
      requires e in ents && ents[e].typ.Some? && ents[e].typ.value in T && e in T[ents[e].typ.value]
      requires ents[e].typ.value in types.first && Count(types.counts, ents[e].typ.value) >= 1
      modifies this
      ensures var ty := old(ents[e].typ.value);
              St() == old(St()).(types := TypeRemove(old(types), e, ty), T := Dropped(old(T), ty, e))
    {
      var ty := ents[e].typ.value;
      types, T := TypeRemove(types, e, ty), Dropped(T, ty, e);
    }

    method TakeRecycled(cls: string) returns (o: Option<EntId>)
      modifies this
      ensures var p := Pop(old(recycled), cls); o == p.0 && St() == old(St()).(recycled := p.1)
    {
      var p := Pop(recycled, cls);
      o, recycled := p.0, p.1;
    }

    method PutRecycled(e: EntId)
      requires e in ents
      modifies this
      ensures St() == old(St()).(recycled := Push(old(recycled), old(ents[e].cls), e))
    {
      recycled := Push(recycled, ents[e].cls, e);
    }

    method DropRecycled(cls: string)
      modifies this
      ensures St() == old(St()).(recycled := old(recycled).(heads := old(recycled.heads) - {cls}))
    {
      recycled := recycled.(heads := recycled.heads - {cls});
    }

    /** The relinking of one of the z-order moves. */
    method Reorder(r2: RenderTable, ghost R2: map<int, seq<EntId>>)
      modifies this
      ensures St() == old(St()).(render := r2, R := R2)
    {
      render, R := r2, R2;
    }

    /** A new record for entity `e`, in one of the entity's own field writes. */
    method Place(e: EntId, x2: Entity)
      modifies this
      ensures St() == old(St()).(ents := old(ents)[e := x2])
    {
      ents := ents[e := x2];
    }

    /** A new value for the mask object `m`. */
    method PutMask(m: nat, mk: Masks.Mask)
      modifies this
      ensures St() == old(St()).(masks := old(masks)[m := mk])
    {
      masks := masks[m := mk];
    }

    /** `new Mask()` or `new Hitbox(...)`: the object at the next free mask handle. */
    method AddMask(mk: Masks.Mask) returns (m: nat)
      modifies this
      ensures m == old(nextMask) && St() == old(St()).(masks := old(masks)[m := mk], nextMask := m + 1)
    {
      m := nextMask;
      masks, nextMask := masks[m := mk], nextMask + 1;
    }

    method SortLayers()
      modifies this
      ensures St() == old(St()).(render := RenderSort(old(render)))
    {
      render := RenderSort(render);
    }
  }
}
