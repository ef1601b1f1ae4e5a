// Mask.cs and masks/Hitbox.cs, the operations that change state: the two
// constructors, assignTo, update, and the four Hitbox setters. The mask objects live
// in the World's mask table and their parents in its arena, so each operation takes
// the World `w` that holds them. Every mask here is outside a mask list (`list` is
// null), which is how an entity's mask setter leaves it.
module MaskOps {
  import opened Common
  import opened Geometry
  import opened Entities
  import Masks
  import opened Probes
  import opened WorldState
  import opened WorldSteps
  import opened Worlds

  /** Hitbox.update on the parent's record: the parent's origin becomes the negated
      offset and its size the box's size, so its own hitbox is the mask's box. A plain
      mask's update leaves the record alone. */
  function Fitted(x: Entity, m: Masks.Mask): (r: Entity)
    ensures BoundsOf(r) == Masks.AfterUpdate(m, BoundsOf(x))
    ensures r.(originX := x.originX, originY := x.originY, width := x.width, height := x.height) == x
    ensures m.shape.Box? ==> HitRect(BoundsOf(r)) == Masks.MaskRect(m, BoundsOf(x))
  {
    match m.shape
    case Plain => x
    case Box(ox, oy, ow, oh) => x.(originX := -ox, originY := -oy, width := ow, height := oh)
  }

  /** Mask.update and Hitbox.update on the mask `m`: a plain mask does nothing; a
      Hitbox refits its parent, and dereferences null when it has none. */
  ghost function UpdateOf(s: State, m: nat): (r: Result<State>)
    requires m in s.masks && MasksOK(s.ents, s.masks)
    ensures r.Err? <==> s.masks[m].shape.Box? && s.masks[m].parent.None?
    ensures r.Err? ==> r.fault == NullReference
    ensures r.Ok? ==> r.value.masks == s.masks && r.value.ents.Keys == s.ents.Keys && MasksOK(r.value.ents, r.value.masks)
  {
    var mk := s.masks[m];
    if mk.shape.Plain? then Ok(s)
    else match mk.parent
      case None => Err(NullReference)
      case Some(p) => Ok(s.(ents := s.ents[p := Fitted(s.ents[p], mk)]))
  }

  /** update keeps the World good. */
  lemma UpdateGood(s: State, id: nat, m: nat)
    requires Good(s, id) && m in s.masks && UpdateOf(s, m).Ok?
    ensures Good(UpdateOf(s, m).value, id)
  {
    var mk := s.masks[m];
    if mk.shape.Box? {
      PlacedGood(s, id, mk.parent.value, Fitted(s.ents[mk.parent.value], mk));
    }
  }

  /** Mask.assignTo: the new parent is recorded, and a mask given a parent updates it. */
  ghost function AssignOf(s: State, m: nat, p: Option<EntId>): (r: State)
    requires m in s.masks && MasksOK(s.ents, s.masks) && (p.Some? ==> p.value in s.ents)
    ensures r.ents.Keys == s.ents.Keys && r.masks == s.masks[m := s.masks[m].(parent := p)]
    ensures MasksOK(r.ents, r.masks)
  {
    var s1 := s.(masks := s.masks[m := s.masks[m].(parent := p)]);
    if p.Some? then UpdateOf(s1, m).value else s1
  }

  /** assignTo keeps the World good. */
  lemma AssignGood(s: State, id: nat, m: nat, p: Option<EntId>)
    requires Good(s, id) && m in s.masks && (p.Some? ==> p.value in s.ents)
    ensures Good(AssignOf(s, m, p), id)
  {
    ParentGood(s, id, m, p);
    if p.Some? {
      UpdateGood(s.(masks := s.masks[m := s.masks[m].(parent := p)]), id, m);
    }
  }

  /** assignTo(e) refits `e` to a Hitbox and leaves it alone for a plain mask; no
      other record changes. */
  lemma AssignedParent(s: State, m: nat, e: EntId)
    requires m in s.masks && MasksOK(s.ents, s.masks) && e in s.ents
    ensures AssignOf(s, m, Some(e)).ents == s.ents[e := Fitted(s.ents[e], s.masks[m])]
  {
    if s.masks[m].shape.Plain? {
      assert s.ents[e := Fitted(s.ents[e], s.masks[m])] == s.ents;
    }
  }

  /** The Hitbox setters: a value equal to the current one changes nothing (and does
      not update the parent); otherwise the box changes and, when the Hitbox has a
      parent, the parent is refitted. */
  ghost function ReboxOf(s: State, m: nat, ox: int, oy: int, ow: int, oh: int): (r: State)
    requires m in s.masks && MasksOK(s.ents, s.masks) && s.masks[m].cls == Masks.HitboxClass
    ensures r.ents.Keys == s.ents.Keys && r.masks.Keys == s.masks.Keys && MasksOK(r.ents, r.masks)
  {
    if s.masks[m].shape == Masks.Box(ox, oy, ow, oh) then s
    else
      var s1 := s.(masks := s.masks[m := Masks.WithBox(s.masks[m], ox, oy, ow, oh)]);
      if s1.masks[m].parent.Some? then UpdateOf(s1, m).value else s1
  }

  /** The Hitbox setters keep the World good. */
  lemma ReboxGood(s: State, id: nat, m: nat, ox: int, oy: int, ow: int, oh: int)
    requires Good(s, id) && m in s.masks && s.masks[m].cls == Masks.HitboxClass
    ensures Good(ReboxOf(s, m, ox, oy, ow, oh), id)
  {
    if s.masks[m].shape != Masks.Box(ox, oy, ow, oh) {
      BoxGood(s, id, m, ox, oy, ow, oh);
      var s1 := s.(masks := s.masks[m := Masks.WithBox(s.masks[m], ox, oy, ow, oh)]);
      if s1.masks[m].parent.Some? {
        UpdateGood(s1, id, m);
      }
    }
  }

  /** A changed box of a Hitbox with a parent is the parent's new hitbox; a changed box
      of a Hitbox with no parent touches no entity. */
  lemma ReboxFits(s: State, m: nat, ox: int, oy: int, ow: int, oh: int)
    requires m in s.masks && MasksOK(s.ents, s.masks) && s.masks[m].cls == Masks.HitboxClass
    requires s.masks[m].shape != Masks.Box(ox, oy, ow, oh)
    ensures var r := ReboxOf(s, m, ox, oy, ow, oh);
            r.masks == s.masks[m := Masks.WithBox(s.masks[m], ox, oy, ow, oh)] &&
            match s.masks[m].parent
            case None => r.ents == s.ents
            case Some(p) =>
              r.ents == s.ents[p := r.ents[p]] &&
              HitRect(BoundsOf(r.ents[p])) == Rect(s.ents[p].x + ox, s.ents[p].y + oy, ow, oh)
  {
  }

  /** `new Mask()`: a plain mask with no parent, at the next free handle. */
  method NewMask(w: World) returns (m: nat)
    requires w.Valid()
    modifies w
    ensures w.Valid() && m == old(w.nextMask) && m !in old(w.masks)
    ensures w.St() == old(w.St()).(masks := old(w.masks)[m := Masks.NewMask()], nextMask := m + 1)
  {
    NewMaskGood(w.St(), w.id, Masks.NewMask());
    m := w.AddMask(Masks.NewMask());
  }

  /** `new Hitbox(width, height, x, y)`: a Hitbox with no parent, at the next free
      handle. */
  method NewHitbox(w: World, width: int, height: int, x: int, y: int) returns (m: nat)
    requires w.Valid()
    modifies w
    ensures w.Valid() && m == old(w.nextMask) && m !in old(w.masks)
    ensures w.St() == old(w.St()).(masks := old(w.masks)[m := Masks.NewHitbox(width, height, x, y)], nextMask := m + 1)
  {
    NewMaskGood(w.St(), w.id, Masks.NewHitbox(width, height, x, y));
    m := w.AddMask(Masks.NewHitbox(width, height, x, y));
  }

  /** Mask.update, Hitbox.update. */
  method Update(w: World, m: nat) returns (fault: Option<Fault>)
    requires w.Valid() && m in w.masks
    modifies w
    ensures w.Valid()
    ensures UpdateOf(old(w.St()), m) == if fault.Some? then Err(fault.value) else Ok(w.St())
    ensures fault.Some? ==> w.St() == old(w.St())
  {
    var mk := w.masks[m];
    if mk.shape.Plain? {
      return None;
    }
    if mk.parent.None? {
      return Some(NullReference);
    }
    var p := mk.parent.value;
    UpdateGood(w.St(), w.id, m);
    w.Place(p, Fitted(w.ents[p], mk));
    fault := None;
  }

  /** Mask.assignTo. */
  method AssignTo(w: World, m: nat, p: Option<EntId>)
    requires w.Valid() && m in w.masks && (p.Some? ==> p.value in w.ents)
    modifies w
    ensures w.Valid() && w.St() == AssignOf(old(w.St()), m, p)
  {
    AssignGood(w.St(), w.id, m, p);
    ParentGood(w.St(), w.id, m, p);
    w.PutMask(m, w.masks[m].(parent := p));
    if p.Some? {
      var f := Update(w, m);
    }
  }

  /** The body shared by the four Hitbox setters. */
  method Rebox(w: World, m: nat, ox: int, oy: int, ow: int, oh: int)
    requires w.Valid() && m in w.masks && w.masks[m].cls == Masks.HitboxClass
    modifies w
    ensures w.Valid() && w.St() == ReboxOf(old(w.St()), m, ox, oy, ow, oh)
  {
    if w.masks[m].shape == Masks.Box(ox, oy, ow, oh) {
      return;
    }
    BoxGood(w.St(), w.id, m, ox, oy, ow, oh);
    w.PutMask(m, Masks.WithBox(w.masks[m], ox, oy, ow, oh));
    if w.masks[m].parent.Some? {
      var f := Update(w, m);
    }
  }

  /** Hitbox.x = value. */
  method SetX(w: World, m: nat, value: int)
    requires w.Valid() && m in w.masks && w.masks[m].cls == Masks.HitboxClass
    modifies w
    ensures w.Valid()
    ensures w.St() == ReboxOf(old(w.St()), m, value, old(w.masks[m].shape.y), old(w.masks[m].shape.width),
                              old(w.masks[m].shape.height))
  {
    var b := w.masks[m].shape;
    Rebox(w, m, value, b.y, b.width, b.height);
  }

  /** Hitbox.y = value. */
  method SetY(w: World, m: nat, value: int)
    requires w.Valid() && m in w.masks && w.masks[m].cls == Masks.HitboxClass
    modifies w
    ensures w.Valid()
    ensures w.St() == ReboxOf(old(w.St()), m, old(w.masks[m].shape.x), value, old(w.masks[m].shape.width),
                              old(w.masks[m].shape.height))
  {
    var b := w.masks[m].shape;
    Rebox(w, m, b.x, value, b.width, b.height);
  }

  /** Hitbox.width = value. */
  method SetWidth(w: World, m: nat, value: int)
    requires w.Valid() && m in w.masks && w.masks[m].cls == Masks.HitboxClass
    modifies w
    ensures w.Valid()
    ensures w.St() == ReboxOf(old(w.St()), m, old(w.masks[m].shape.x), old(w.masks[m].shape.y), value,
                              old(w.masks[m].shape.height))
  {
    var b := w.masks[m].shape;
    Rebox(w, m, b.x, b.y, value, b.height);
  }

  /** Hitbox.height = value. */
  method SetHeight(w: World, m: nat, value: int)
    requires w.Valid() && m in w.masks && w.masks[m].cls == Masks.HitboxClass
    modifies w
    ensures w.Valid()
    ensures w.St() == ReboxOf(old(w.St()), m, old(w.masks[m].shape.x), old(w.masks[m].shape.y),
                              old(w.masks[m].shape.width), value)
  {
    var b := w.masks[m].shape;
    Rebox(w, m, b.x, b.y, b.width, value);
  }
}
