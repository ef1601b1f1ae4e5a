// Axis-aligned boxes and the three edge conventions the collision code uses:
// strict overlap (entity against entity and mask against mask), inclusive
// overlap (Entity.collideRect) and half-open containment (Entity.collidePoint).
module Geometry {

  /** A box by its left/top corner and its size. */
  datatype Rect = Rect(left: int, top: int, width: int, height: int)

  /** The fields of an entity that place its hitbox: position, origin, size. */
  datatype Bounds = Bounds(x: int, y: int, originX: int, originY: int, width: int, height: int)

  /** The hitbox of an entity whose fields are `b`: its corner is (x - originX, y - originY). */
  function HitRect(b: Bounds): (r: Rect)
    ensures r.width == b.width && r.height == b.height
    ensures r.left + b.originX == b.x && r.top + b.originY == b.y
  {
    Rect(b.x - b.originX, b.y - b.originY, b.width, b.height)
  }

  /** Boxes overlap with a positive area in common; touching edges do not count. */
  predicate Overlap(a: Rect, b: Rect)
  {
    a.left + a.width > b.left && a.top + a.height > b.top &&
    a.left < b.left + b.width && a.top < b.top + b.height
  }

  /** Boxes overlap or touch: edges that meet count as a hit. */
  predicate Touch(a: Rect, b: Rect)
  {
    a.left + a.width >= b.left && a.top + a.height >= b.top &&
    a.left <= b.left + b.width && a.top <= b.top + b.height
  }

  /** The point lies in the box, left/top edges included, right/bottom excluded. */
  predicate HasPoint(a: Rect, px: int, py: int)
  {
    px >= a.left && py >= a.top && px < a.left + a.width && py < a.top + a.height
  }

  lemma OverlapSymmetric(a: Rect, b: Rect)
    ensures Overlap(a, b) <==> Overlap(b, a)
  {
  }

  lemma TouchSymmetric(a: Rect, b: Rect)
    ensures Touch(a, b) <==> Touch(b, a)
  {
  }

  /** Strict overlap implies touching; the converse fails on shared edges. */
  lemma OverlapIsTouch(a: Rect, b: Rect)
    ensures Overlap(a, b) ==> Touch(a, b)
    ensures Touch(Rect(0, 0, 10, 10), Rect(10, 0, 5, 5)) && !Overlap(Rect(0, 0, 10, 10), Rect(10, 0, 5, 5))
  {
  }

  /** A point is in a box exactly when the 1x1 box at that point overlaps it. */
  lemma PointIsUnitOverlap(a: Rect, px: int, py: int)
    ensures HasPoint(a, px, py) <==> Overlap(a, Rect(px, py, 1, 1))
  {
  }

  /** The two conventions on a concrete case: a 10x10 box at the origin touches the
      rectangle (5, 5, 10, 10) and the edge-sharing (10, 0, 5, 5) but not (20, 20, 5, 5);
      it holds its corner (0, 0) but not the point (10, 0) on its right edge. */
  lemma EdgeConventions()
    ensures Touch(Rect(0, 0, 10, 10), Rect(5, 5, 10, 10)) && Touch(Rect(0, 0, 10, 10), Rect(10, 0, 5, 5))
    ensures !Touch(Rect(0, 0, 10, 10), Rect(20, 20, 5, 5))
    ensures HasPoint(Rect(0, 0, 10, 10), 0, 0) && !HasPoint(Rect(0, 0, 10, 10), 10, 0)
  {
  }
}
