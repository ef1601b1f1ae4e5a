// Entity records. An entity's data fields are a value held in the World's arena;
// its list links live in the World's link tables. This module holds the parts of
// Entity.cs that only compute on one entity: where its hitbox lies, and the hitbox
// helpers setHitbox and centerOrigin.
module Entities {
  import opened Common
  import opened Geometry
  import Masks

  type EntId = nat

  /** The parts of a Graphic that the world loop consults. */
  datatype Graphic = Graphic(active: bool, visible: bool)

  /** An entity's data fields: class name, position and hitbox, the Tweener flags it
      inherits (`active`, `autoClear`, and whether its tween list is non-empty), its
      graphic and mask (a handle into the World's mask table), and the bookkeeping the
      World keeps on it (`world`, `added`, `typ`, `layer`). */
  datatype Entity = Entity(
    cls: string,
    x: int, y: int, width: int, height: int, originX: int, originY: int,
    active: bool, visible: bool, collidable: bool,
    autoClear: bool, hasTweens: bool,
    graphic: Option<Graphic>,
    mask: Option<nat>,
    world: Option<nat>,
    added: bool,
    typ: Option<string>,
    layer: int)

  /** A freshly constructed entity of class `cls`, as the field initialisers of Entity
      and Tweener leave it. */
  function NewEntity(cls: string): (e: Entity)
    ensures e.cls == cls && e.world.None? && !e.added && e.typ.None? && e.layer == 0
    ensures e.visible && e.collidable && !e.active && e.mask.None? && e.graphic.None?
    ensures e.x == 0 && e.y == 0 && e.width == 0 && e.height == 0
  {
    Entity(cls, 0, 0, 0, 0, 0, 0, false, true, true, false, false, None, None, None, false, None, 0)
  }

  /** The fields that place the entity's hitbox, with the entity moved to (x, y). */
  function BoundsAt(e: Entity, x: int, y: int): Bounds
  {
    Bounds(x, y, e.originX, e.originY, e.width, e.height)
  }

  function BoundsOf(e: Entity): Bounds
  {
    BoundsAt(e, e.x, e.y)
  }

  /** The plain Mask every entity carries as its HITBOX, attached to that entity. */
  function HitboxMask(self: EntId): (m: Masks.Mask)
    ensures Masks.WellFormed(m) && m.cls == Masks.MaskClass && m.parent == Some(self)
  {
    Masks.NewMask().(parent := Some(self))
  }

  /** The scratch entity the box tests place over the queried rectangle: its fields
      are the rectangle, with a zero origin. */
  function ScratchBounds(r: Rect): (b: Bounds)
    ensures HitRect(b) == r
  {
    Bounds(r.left, r.top, 0, 0, r.width, r.height)
  }

  /** Entity.setHitbox: exactly the size and origin change. */
  function SetHitbox(e: Entity, width: int, height: int, originX: int, originY: int): (r: Entity)
    ensures r.width == width && r.height == height && r.originX == originX && r.originY == originY
    ensures r.(width := e.width, height := e.height, originX := e.originX, originY := e.originY) == e
    ensures HitRect(BoundsOf(r)) == Rect(e.x - originX, e.y - originY, width, height)
  {
    e.(width := width, height := height, originX := originX, originY := originY)
  }

  /** C#'s `/` on int: the quotient truncated toward zero. */
  function Quot(a: int, b: int): int
    requires b > 0
  {
    if a >= 0 then a / b else -((-a) / b)
  }

  /** Entity.centerOrigin: the origin moves to half the size, halves truncated toward
      zero, so the origin is never further from zero than half the size. */
  function CenterOrigin(e: Entity): (r: Entity)
    ensures r.(originX := e.originX, originY := e.originY) == e
    ensures -1 <= e.width - 2 * r.originX <= 1 && -1 <= e.height - 2 * r.originY <= 1
    ensures r.originX * e.width >= 0 && r.originY * e.height >= 0
  {
    e.(originX := Quot(e.width, 2), originY := Quot(e.height, 2))
  }

  /** Truncation, not flooring: an odd negative width is halved toward zero. */
  lemma CenterOriginTruncates(e: Entity)
    requires e.width == -5 && e.height == 7
    ensures CenterOrigin(e).originX == -2 && CenterOrigin(e).originY == 3
  {
  }
}
