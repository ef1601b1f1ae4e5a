// Collision masks (Mask and masks/Hitbox): a per-instance dispatch table from
// the other mask's class name to a resolver, and the resolvers themselves.
// A mask refers to its parent entity by handle; the parent's placing fields are
// passed in as Bounds by the caller, who resolves the handle.
module Masks {
  import opened Common
  import opened Geometry

  const MaskClass: string := "PunkX.Mask"
  const HitboxClass: string := "PunkX.masks.Hitbox"
  const MasklistClass: string := "PunkX.masks.Masklist"

  /** The collision delegates a table can hold. */
  datatype Resolver =
    | MaskVsMask        // Mask.collideMask: parent hitbox against the other parent's hitbox
    | MasklistForward   // Mask.collideMasklist: hands the test to the Masklist
    | HitboxVsMask      // Hitbox.collideMask: own offset box against the other parent's hitbox
    | HitboxVsHitbox    // Hitbox.collideHitbox: own offset box against the other's offset box

  /** A plain Mask has no geometry of its own; a Hitbox has an offset and a size. */
  datatype Shape = Plain | Box(x: int, y: int, width: int, height: int)

  datatype Mask = Mask(cls: string, check: map<string, Resolver>, parent: Option<nat>, shape: Shape)

  /** The table the Mask constructor fills. */
  function BaseTable(): map<string, Resolver>
  {
    map[MaskClass := MaskVsMask, MasklistClass := MasklistForward]
  }

  /** The table after the Hitbox constructor has run on top of the Mask constructor. */
  function HitboxTable(): map<string, Resolver>
  {
    BaseTable()[MaskClass := HitboxVsMask][HitboxClass := HitboxVsHitbox]
  }

  /** new Mask(): resolvers for plain masks and mask lists only, no parent. */
  function NewMask(): (m: Mask)
    ensures m.cls == MaskClass && m.parent == None && m.shape == Plain
    ensures m.check.Keys == {MaskClass, MasklistClass}
    ensures m.check[MaskClass] == MaskVsMask && HitboxClass !in m.check
  {
    Mask(MaskClass, BaseTable(), None, Plain)
  }

  /** new Hitbox(width, height, x, y): the Mask table with the plain-mask entry
      replaced by the Hitbox resolver and a Hitbox entry added. */
  function NewHitbox(width: int, height: int, x: int, y: int): (m: Mask)
    ensures m.cls == HitboxClass && m.parent == None && m.shape == Box(x, y, width, height)
    ensures m.check.Keys == {MaskClass, MasklistClass, HitboxClass}
    ensures m.check[MaskClass] == HitboxVsMask && m.check[HitboxClass] == HitboxVsHitbox
    ensures m.check[MasklistClass] == MasklistForward
  {
    Mask(HitboxClass, HitboxTable(), None, Box(x, y, width, height))
  }

  /** A Hitbox built with the constructor's default arguments. */
  function DefaultHitbox(): (m: Mask)
    ensures m.shape == Box(0, 0, 1, 1)
  {
    NewHitbox(1, 1, 0, 0)
  }

  /** A mask as one of the two constructors leaves it, up to its parent and box. */
  ghost predicate WellFormed(m: Mask)
  {
    (m.cls == MaskClass && m.shape.Plain? && m.check == BaseTable()) ||
    (m.cls == HitboxClass && m.shape.Box? && m.check == HitboxTable())
  }

  /** The box a mask occupies when its parent's fields are `b`: the parent's hitbox
      for a plain mask, the offset box for a Hitbox. */
  function MaskRect(m: Mask, b: Bounds): (r: Rect)
    ensures m.shape.Plain? ==> r == HitRect(b)
    ensures m.shape.Box? ==> r.left == b.x + m.shape.x && r.top == b.y + m.shape.y
    ensures m.shape.Box? ==> r.width == m.shape.width && r.height == m.shape.height
  {
    match m.shape
    case Plain => HitRect(b)
    case Box(x, y, w, h) => Rect(b.x + x, b.y + y, w, h)
  }

  /** Runs one resolver of `self` (parent fields `sb`) against `other` (parent fields `ob`). */
  function Apply(r: Resolver, self: Mask, sb: Bounds, other: Mask, ob: Bounds): bool
    requires r != MasklistForward
  {
    match r
    case MaskVsMask => Overlap(HitRect(sb), HitRect(ob))
    case HitboxVsMask => Overlap(MaskRect(self, sb), HitRect(ob))
    case HitboxVsHitbox => Overlap(MaskRect(self, sb), MaskRect(other, ob))
  }

  /** Mask.collide: the receiver's resolver for the other's class if it has one, else the
      other's resolver for the receiver's class, else no collision. A class missing from a
      table reads as "no resolver". For two well-formed masks the answer is exactly whether
      their boxes overlap, whichever resolver answers. */
  function Collide(a: Mask, ab: Bounds, b: Mask, bb: Bounds): (r: bool)
    requires WellFormed(a) && WellFormed(b)
    ensures r == Overlap(MaskRect(a, ab), MaskRect(b, bb))
  {
    if b.cls in a.check then Apply(a.check[b.cls], a, ab, b, bb)
    else if a.cls in b.check then Apply(b.check[a.cls], b, bb, a, ab)
    else false
  }

  /** Mask.collide as written: `_check[mask._class]` is a Dictionary read, which throws
      when the receiver has no resolver for the other's class, so the fall-back to the
      other's table is never reached. (Entries are never null.) */
  function CollideAsWritten(a: Mask, ab: Bounds, b: Mask, bb: Bounds): (r: Result<bool>)
    requires WellFormed(a) && WellFormed(b)
    ensures r.Ok? <==> b.cls in a.check
    ensures r.Ok? ==> r.value == Collide(a, ab, b, bb)
  {
    if b.cls in a.check then Ok(Apply(a.check[b.cls], a, ab, b, bb)) else Err(KeyNotFound)
  }

  /** A plain Mask asked about a Hitbox throws instead of letting the Hitbox answer,
      whether or not the boxes overlap; the intended test answers with the overlap. */
  lemma PlainAgainstHitboxThrows(a: Mask, ab: Bounds, b: Mask, bb: Bounds)
    requires WellFormed(a) && WellFormed(b) && a.cls == MaskClass && b.cls == HitboxClass
    ensures CollideAsWritten(a, ab, b, bb) == Err(KeyNotFound)
    ensures Collide(a, ab, b, bb) == Overlap(HitRect(ab), MaskRect(b, bb))
  {
    OverlapSymmetric(HitRect(ab), MaskRect(b, bb));
  }

  /** Which mask asks does not matter. */
  lemma CollideSymmetric(a: Mask, ab: Bounds, b: Mask, bb: Bounds)
    requires WellFormed(a) && WellFormed(b)
    ensures Collide(a, ab, b, bb) == Collide(b, bb, a, ab)
  {
    OverlapSymmetric(MaskRect(a, ab), MaskRect(b, bb));
  }

  /** A plain mask asked about a Hitbox has no resolver for it and defers to the
      Hitbox's table; the answer is the Hitbox's offset box against the parent's hitbox. */
  lemma PlainDefersToHitbox(a: Mask, ab: Bounds, b: Mask, bb: Bounds)
    requires WellFormed(a) && WellFormed(b) && a.cls == MaskClass && b.cls == HitboxClass
    ensures HitboxClass !in a.check && b.check[MaskClass] == HitboxVsMask
    ensures Collide(a, ab, b, bb) == Apply(HitboxVsMask, b, bb, a, ab)
  {
  }

  /** Hitbox.update (outside a mask list): the parent takes the negated offset as its
      origin and the box's size as its size. A plain mask's update changes nothing. */
  function AfterUpdate(m: Mask, b: Bounds): (r: Bounds)
    ensures r.x == b.x && r.y == b.y
    ensures m.shape.Plain? ==> r == b
  {
    match m.shape
    case Plain => b
    case Box(x, y, w, h) => b.(originX := -x, originY := -y, width := w, height := h)
  }

  /** Once update has run, the parent's own hitbox is the Hitbox's offset box, so the
      Hitbox resolver and the plain resolver agree against any other parent. */
  lemma UpdatedHitboxAgrees(m: Mask, b: Bounds, ob: Bounds)
    requires WellFormed(m) && m.cls == HitboxClass
    ensures HitRect(AfterUpdate(m, b)) == MaskRect(m, b)
    ensures Apply(HitboxVsMask, m, b, NewMask(), ob) ==
            Apply(MaskVsMask, NewMask(), AfterUpdate(m, b), NewMask(), ob)
  {
  }

  /** Changing a Hitbox's box keeps it well formed. */
  function WithBox(m: Mask, x: int, y: int, width: int, height: int): (r: Mask)
    requires WellFormed(m) && m.cls == HitboxClass
    ensures WellFormed(r) && r.parent == m.parent
    ensures r.shape == Box(x, y, width, height)
  {
    m.(shape := Box(x, y, width, height))
  }
}
