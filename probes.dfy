// The per-candidate tests of the collision queries (Entity.collide, collideWith,
// collideRect, collidePoint, collideInto and the World queries built on them), and
// the distances the nearest-entity queries rank by. A mask reads the fields of its
// parent entity, which need not be the entity holding it (a mask handed to a second
// entity is re-parented without leaving the first), and a mask with no parent makes
// its resolver dereference null.
module Probes {
  import opened Common
  import opened Geometry
  import opened Entities
  import Masks
  import Distances

  /** The mask table: every mask an entity holds is in it, every mask is as a
      constructor left it, and a mask's parent is an entity of the arena. */
  ghost predicate MasksOK(ents: map<EntId, Entity>, masks: map<nat, Masks.Mask>)
  {
    (forall x :: x in ents && ents[x].mask.Some? ==> ents[x].mask.value in masks) &&
    (forall m :: m in masks ==> Masks.WellFormed(masks[m])) &&
    (forall m :: m in masks && masks[m].parent.Some? ==> masks[m].parent.value in ents)
  }

  /** Every mask held by an entity has that entity as its parent (the usual case, but
      not an invariant of the engine). */
  ghost predicate Attached(ents: map<EntId, Entity>, masks: map<nat, Masks.Mask>)
  {
    forall x :: x in ents && ents[x].mask.Some? && ents[x].mask.value in masks ==>
      masks[ents[x].mask.value].parent == Some(x)
  }

  /** The fields of entity `o` while `self` is moved to (x, y). */
  function Where(ents: map<EntId, Entity>, self: EntId, x: int, y: int, o: EntId): Bounds
    requires o in ents
  {
    if o == self then BoundsAt(ents[o], x, y) else BoundsOf(ents[o])
  }

  /** The fields of the parent a resolver of `m` reads; no parent is a null dereference. */
  function ParentAt(ents: map<EntId, Entity>, self: EntId, x: int, y: int, m: Masks.Mask): (r: Result<Bounds>)
    requires m.parent.Some? ==> m.parent.value in ents
    ensures r.Err? <==> m.parent.None?
    ensures r.Err? ==> r.fault == NullReference
  {
    match m.parent
    case None => Err(NullReference)
    case Some(p) => Ok(Where(ents, self, x, y, p))
  }

  /** Mask.collide between two masks whose parents' fields are `ab` and `bb`: every
      resolver reads both parents. */
  function MaskHit(a: Masks.Mask, ab: Result<Bounds>, b: Masks.Mask, bb: Result<Bounds>): (r: Result<bool>)
    requires Masks.WellFormed(a) && Masks.WellFormed(b)
    ensures r.Ok? <==> ab.Ok? && bb.Ok?
    ensures r.Ok? ==> r.value == Overlap(Masks.MaskRect(a, ab.value), Masks.MaskRect(b, bb.value))
    ensures r.Err? ==> r.fault == (if ab.Err? then ab.fault else bb.fault)
  {
    if ab.Err? then Err(ab.fault)
    else if bb.Err? then Err(bb.fault)
    else Ok(Masks.Collide(a, ab.value, b, bb.value))
  }

  /** The mask half of collide and collideWith, once the boxes overlap: with no mask of
      its own, `self` passes when `o` has no mask or `o`'s mask accepts `self`'s HITBOX;
      with a mask, that mask is asked about `o`'s mask, or `o`'s HITBOX. */
  function MaskStep(ents: map<EntId, Entity>, masks: map<nat, Masks.Mask>, self: EntId, x: int, y: int,
                    o: EntId): (r: Result<bool>)
    requires self in ents && o in ents && MasksOK(ents, masks)
    ensures r.Err? ==> r.fault == NullReference
  {
    var sm, om := ents[self].mask, ents[o].mask;
    if sm.None? then
      if om.None? then Ok(true)
      else
        var m := masks[om.value];
        MaskHit(m, ParentAt(ents, self, x, y, m), HitboxMask(self), ParentAt(ents, self, x, y, HitboxMask(self)))
    else
      var m := masks[sm.value];
      var other := if om.Some? then masks[om.value] else HitboxMask(o);
      MaskHit(m, ParentAt(ents, self, x, y, m), other, ParentAt(ents, self, x, y, other))
  }

  /** One candidate of Entity.collide, with `self` at (x, y): a strictly overlapping
      box, a collidable candidate other than `self`, then the mask step. */
  function CollideProbe(ents: map<EntId, Entity>, masks: map<nat, Masks.Mask>, self: EntId, x: int, y: int,
                        o: EntId): Result<bool>
    requires self in ents && o in ents && MasksOK(ents, masks)
  {
    if Overlap(HitRect(BoundsAt(ents[self], x, y)), HitRect(BoundsOf(ents[o]))) && ents[o].collidable && o != self
    then MaskStep(ents, masks, self, x, y, o)
    else Ok(false)
  }

  /** Entity.collideWith's test: both collidable and strictly overlapping boxes, then the
      mask step. `o` may be `self`, which is then also at (x, y). */
  function WithProbe(ents: map<EntId, Entity>, masks: map<nat, Masks.Mask>, self: EntId, x: int, y: int,
                     o: EntId): Result<bool>
    requires self in ents && o in ents && MasksOK(ents, masks)
  {
    if Overlap(HitRect(BoundsAt(ents[self], x, y)), HitRect(Where(ents, self, x, y, o))) &&
       ents[self].collidable && ents[o].collidable
    then MaskStep(ents, masks, self, x, y, o)
    else Ok(false)
  }

  /** Entity.collideRect with `e` at (x, y): the box test with touching edges counting,
      then, for a masked entity, its mask against the HITBOX of a scratch entity laid
      over the rectangle. */
  function RectProbe(ents: map<EntId, Entity>, masks: map<nat, Masks.Mask>, e: EntId, x: int, y: int,
                     r: Rect): Result<bool>
    requires e in ents && MasksOK(ents, masks)
  {
    if !Touch(HitRect(BoundsAt(ents[e], x, y)), r) then Ok(false)
    else match ents[e].mask
      case None => Ok(true)
      case Some(m) => MaskHit(masks[m], ParentAt(ents, e, x, y, masks[m]), Masks.NewMask(), Ok(ScratchBounds(r)))
  }

  /** Entity.collidePoint with `e` at (x, y): the half-open box test, then, for a masked
      entity, its mask against a 1x1 scratch box at the point. */
  function PointProbe(ents: map<EntId, Entity>, masks: map<nat, Masks.Mask>, e: EntId, x: int, y: int,
                      px: int, py: int): Result<bool>
    requires e in ents && MasksOK(ents, masks)
  {
    if !HasPoint(HitRect(BoundsAt(ents[e], x, y)), px, py) then Ok(false)
    else match ents[e].mask
      case None => Ok(true)
      case Some(m) =>
        MaskHit(masks[m], ParentAt(ents, e, x, y, masks[m]), Masks.NewMask(), Ok(ScratchBounds(Rect(px, py, 1, 1))))
  }

  /** The box an entity collides with when its fields are `b`: its mask's box, or its
      hitbox when it has no mask. */
  function Area(ents: map<EntId, Entity>, masks: map<nat, Masks.Mask>, e: EntId, b: Bounds): Rect
    requires e in ents && MasksOK(ents, masks)
  {
    match ents[e].mask
    case None => HitRect(b)
    case Some(m) => Masks.MaskRect(masks[m], b)
  }

  /** With attached masks, collide accepts a candidate exactly when it is another
      collidable entity whose hitbox strictly overlaps `self`'s at (x, y), and whose
      collision box overlaps `self`'s. */
  lemma CollideProbeMeaning(ents: map<EntId, Entity>, masks: map<nat, Masks.Mask>, self: EntId, x: int, y: int,
                            o: EntId)
    requires self in ents && o in ents && MasksOK(ents, masks) && Attached(ents, masks)
    ensures CollideProbe(ents, masks, self, x, y, o) ==
            Ok(Overlap(HitRect(BoundsAt(ents[self], x, y)), HitRect(BoundsOf(ents[o]))) && ents[o].collidable &&
               o != self &&
               Overlap(Area(ents, masks, self, BoundsAt(ents[self], x, y)), Area(ents, masks, o, BoundsOf(ents[o]))))
  {
    if o != self {
      MaskStepMeaning(ents, masks, self, x, y, o);
    }
  }

  /** With attached masks, collideWith accepts `o` exactly when both are collidable and
      both their hitboxes and their collision boxes overlap, `self` standing at (x, y). */
  lemma WithProbeMeaning(ents: map<EntId, Entity>, masks: map<nat, Masks.Mask>, self: EntId, x: int, y: int,
                         o: EntId)
    requires self in ents && o in ents && MasksOK(ents, masks) && Attached(ents, masks)
    ensures WithProbe(ents, masks, self, x, y, o) ==
            Ok(Overlap(HitRect(BoundsAt(ents[self], x, y)), HitRect(Where(ents, self, x, y, o))) &&
               ents[self].collidable && ents[o].collidable &&
               Overlap(Area(ents, masks, self, BoundsAt(ents[self], x, y)),
                       Area(ents, masks, o, Where(ents, self, x, y, o))))
  {
    MaskStepMeaning(ents, masks, self, x, y, o);
  }

  lemma MaskStepMeaning(ents: map<EntId, Entity>, masks: map<nat, Masks.Mask>, self: EntId, x: int, y: int,
                        o: EntId)
    requires self in ents && o in ents && MasksOK(ents, masks) && Attached(ents, masks)
    ensures MaskStep(ents, masks, self, x, y, o) ==
            Ok(Overlap(Area(ents, masks, self, BoundsAt(ents[self], x, y)),
                       Area(ents, masks, o, Where(ents, self, x, y, o))) ||
               (ents[self].mask.None? && ents[o].mask.None?))
  {
    var sb, ob := BoundsAt(ents[self], x, y), Where(ents, self, x, y, o);
    if ents[self].mask.None? && ents[o].mask.Some? {
      OverlapSymmetric(Area(ents, masks, self, sb), Area(ents, masks, o, ob));
    }
  }

  /** With an attached mask (or none), collideRect is the inclusive box test, and for a
      masked entity also a strict overlap of the mask's box with the rectangle. */
  lemma RectProbeMeaning(ents: map<EntId, Entity>, masks: map<nat, Masks.Mask>, e: EntId, x: int, y: int, r: Rect)
    requires e in ents && MasksOK(ents, masks) && Attached(ents, masks)
    ensures ents[e].mask.None? ==> RectProbe(ents, masks, e, x, y, r) == Ok(Touch(HitRect(BoundsAt(ents[e], x, y)), r))
    ensures ents[e].mask.Some? ==>
              RectProbe(ents, masks, e, x, y, r) ==
              Ok(Touch(HitRect(BoundsAt(ents[e], x, y)), r) && Overlap(Area(ents, masks, e, BoundsAt(ents[e], x, y)), r))
  {
  }

  /** With an attached mask (or none), collidePoint is the half-open box test, and for a
      masked entity also the point lying in the mask's box. */
  lemma PointProbeMeaning(ents: map<EntId, Entity>, masks: map<nat, Masks.Mask>, e: EntId, x: int, y: int,
                          px: int, py: int)
    requires e in ents && MasksOK(ents, masks) && Attached(ents, masks)
    ensures ents[e].mask.None? ==>
              PointProbe(ents, masks, e, x, y, px, py) == Ok(HasPoint(HitRect(BoundsAt(ents[e], x, y)), px, py))
    ensures ents[e].mask.Some? ==>
              PointProbe(ents, masks, e, x, y, px, py) ==
              Ok(HasPoint(HitRect(BoundsAt(ents[e], x, y)), px, py) &&
                 HasPoint(Area(ents, masks, e, BoundsAt(ents[e], x, y)), px, py))
  {
    if ents[e].mask.Some? {
      PointIsUnitOverlap(Area(ents, masks, e, BoundsAt(ents[e], x, y)), px, py);
    }
  }

  /** A mask handed from one entity to a second and then taken off the second has no
      parent, yet the first still holds it: once the first's box test passes, its
      collideRect dereferences null. */
  lemma DetachedMaskFaults(ents: map<EntId, Entity>, masks: map<nat, Masks.Mask>, e: EntId, x: int, y: int, r: Rect)
    requires e in ents && MasksOK(ents, masks) && ents[e].mask.Some?
    requires masks[ents[e].mask.value].parent.None? && Touch(HitRect(BoundsAt(ents[e], x, y)), r)
    ensures RectProbe(ents, masks, e, x, y, r) == Err(NullReference)
  {
  }

  /** The candidate tests as arrows over the arena, for the walks of module Scans. */
  function CollideTest(ents: map<EntId, Entity>, masks: map<nat, Masks.Mask>, self: EntId, x: int, y: int)
    : (t: nat --> Result<bool>)
    requires self in ents && MasksOK(ents, masks)
    ensures forall o :: o in ents ==> t.requires(o) && t(o) == CollideProbe(ents, masks, self, x, y, o)
  {
    o requires o in ents => CollideProbe(ents, masks, self, x, y, o)
  }

  /** World.collideRect tests each candidate at its own position. */
  function RectTest(ents: map<EntId, Entity>, masks: map<nat, Masks.Mask>, r: Rect): (t: nat --> Result<bool>)
    requires MasksOK(ents, masks)
    ensures forall o :: o in ents ==> t.requires(o) && t(o) == RectProbe(ents, masks, o, ents[o].x, ents[o].y, r)
  {
    o requires o in ents => RectProbe(ents, masks, o, ents[o].x, ents[o].y, r)
  }

  function PointTest(ents: map<EntId, Entity>, masks: map<nat, Masks.Mask>, px: int, py: int)
    : (t: nat --> Result<bool>)
    requires MasksOK(ents, masks)
    ensures forall o :: o in ents ==> t.requires(o) && t(o) == PointProbe(ents, masks, o, ents[o].x, ents[o].y, px, py)
  {
    o requires o in ents => PointProbe(ents, masks, o, ents[o].x, ents[o].y, px, py)
  }

  // ---------------------------------------------------------------- nearest

  /** What a nearest* query measures a candidate against: a rectangle (squareRects to
      the candidate's hitbox), a point (squared distance to the candidate's position),
      or a point against the candidate's hitbox (squarePointRect). */
  datatype Gauge = ToRect(x: int, y: int, w: int, h: int) | ToPoint(x: int, y: int) | PointToBox(x: int, y: int)

  /** nearestToEntity's gauge for entity `x`: its hitbox, or its corner (position
      less origin) as a point. */
  function EntityGauge(x: Entity, useHitboxes: bool): (g: Gauge)
    ensures useHitboxes ==> g == ToRect(x.x - x.originX, x.y - x.originY, x.width, x.height)
    ensures !useHitboxes ==> g == ToPoint(x.x - x.originX, x.y - x.originY)
  {
    var cx, cy := x.x - x.originX, x.y - x.originY;
    if useHitboxes then ToRect(cx, cy, x.width, x.height) else ToPoint(cx, cy)
  }

  function Measure(g: Gauge, o: Entity): int
  {
    match g
    case ToRect(x, y, w, h) => Distances.SquareRects(x, y, w, h, o.x - o.originX, o.y - o.originY, o.width, o.height)
    case ToPoint(x, y) => Distances.SquarePoints(x, y, o.x, o.y)
    case PointToBox(x, y) => Distances.SquarePointRect(x, y, o.x - o.originX, o.y - o.originY, o.width, o.height)
  }

  /** The distance function a gauge gives a walk over entities of the arena. */
  function Gauged(ents: map<EntId, Entity>, g: Gauge): (d: nat --> int)
    ensures forall o :: o in ents ==> d.requires(o) && d(o) == Measure(g, ents[o])
  {
    o requires o in ents => Measure(g, ents[o])
  }
}
