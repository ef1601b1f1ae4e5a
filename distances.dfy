// The squared distances the World's nearest-entity queries rank candidates by
// (squareRects, squarePoints, squarePointRect), written case by case as World.cs
// does, and proved equal to a plain gap formula: the squared length of the gap
// between the two shapes along each axis.
module Distances {

  /** World.squarePoints. */
  function SquarePoints(x1: int, y1: int, x2: int, y2: int): (d: int)
    ensures d >= 0
    ensures d == 0 <==> x1 == x2 && y1 == y2
  {
    (x1 - x2) * (x1 - x2) + (y1 - y2) * (y1 - y2)
  }

  /** World.squareRects: zero when the rectangles overlap on both axes, the squared gap
      along one axis when they overlap on the other, and the squared distance between
      the nearest corners otherwise. */
  function SquareRects(x1: int, y1: int, w1: int, h1: int, x2: int, y2: int, w2: int, h2: int): int
  {
    if x1 < x2 + w2 && x2 < x1 + w1 then
      if y1 < y2 + h2 && y2 < y1 + h1 then 0
      else if y1 > y2 then (y1 - (y2 + h2)) * (y1 - (y2 + h2))
      else (y2 - (y1 + h1)) * (y2 - (y1 + h1))
    else if y1 < y2 + h2 && y2 < y1 + h1 then
      if x1 > x2 then (x1 - (x2 + w2)) * (x1 - (x2 + w2))
      else (x2 - (x1 + w1)) * (x2 - (x1 + w1))
    else if x1 > x2 then
      if y1 > y2 then SquarePoints(x1, y1, x2 + w2, y2 + h2)
      else SquarePoints(x1, y1 + h1, x2 + w2, y2)
    else if y1 > y2 then SquarePoints(x1 + w1, y1, x2, y2 + h2)
    else SquarePoints(x1 + w1, y1 + h1, x2, y2)
  }

  /** World.squarePointRect: zero when the point lies in the rectangle, edges
      included; otherwise the squared distance to the nearest edge or corner. */
  function SquarePointRect(px: int, py: int, rx: int, ry: int, rw: int, rh: int): int
  {
    if px >= rx && px <= rx + rw then
      if py >= ry && py <= ry + rh then 0
      else if py > ry then (py - (ry + rh)) * (py - (ry + rh))
      else (ry - py) * (ry - py)
    else if py >= ry && py <= ry + rh then
      if px > rx then (px - (rx + rw)) * (px - (rx + rw))
      else (rx - px) * (rx - px)
    else if px > rx then
      if py > ry then SquarePoints(px, py, rx + rw, ry + rh)
      else SquarePoints(px, py, rx + rw, ry)
    else if py > ry then SquarePoints(px, py, rx, ry + rh)
    else SquarePoints(px, py, rx, ry)
  }

  /** The gap between the spans [a1, a1 + w1] and [a2, a2 + w2] on one axis: zero when
      they overlap, otherwise from the end of the one on the left to the start of the
      other. */
  function Gap(a1: int, w1: int, a2: int, w2: int): int
  {
    if a1 < a2 + w2 && a2 < a1 + w1 then 0
    else if a1 > a2 then a1 - (a2 + w2)
    else a2 - (a1 + w1)
  }

  /** The gap between the point `p` and the span [a, a + w], ends included. */
  function PointGap(p: int, a: int, w: int): int
  {
    if p >= a && p <= a + w then 0
    else if p > a then p - (a + w)
    else a - p
  }

  /** squareRects is the sum of the squared gaps on the two axes, for any sizes. */
  lemma SquareRectsIsGaps(x1: int, y1: int, w1: int, h1: int, x2: int, y2: int, w2: int, h2: int)
    ensures SquareRects(x1, y1, w1, h1, x2, y2, w2, h2) ==
            Gap(x1, w1, x2, w2) * Gap(x1, w1, x2, w2) + Gap(y1, h1, y2, h2) * Gap(y1, h1, y2, h2)
  {
  }

  /** For rectangles with positive sizes the gap is never negative, is zero exactly when
      the closed spans meet, and does not depend on which span is named first. */
  lemma GapMeaning(a1: int, w1: int, a2: int, w2: int)
    requires w1 > 0 && w2 > 0
    ensures Gap(a1, w1, a2, w2) >= 0
    ensures Gap(a1, w1, a2, w2) == 0 <==> a1 <= a2 + w2 && a2 <= a1 + w1
    ensures Gap(a1, w1, a2, w2) == Gap(a2, w2, a1, w1)
  {
  }

  /** For rectangles with positive sizes, squareRects is zero exactly when the closed
      rectangles meet (overlap or share an edge), and it is symmetric. */
  lemma SquareRectsMeaning(x1: int, y1: int, w1: int, h1: int, x2: int, y2: int, w2: int, h2: int)
    requires w1 > 0 && h1 > 0 && w2 > 0 && h2 > 0
    ensures SquareRects(x1, y1, w1, h1, x2, y2, w2, h2) >= 0
    ensures SquareRects(x1, y1, w1, h1, x2, y2, w2, h2) == 0 <==>
              x1 <= x2 + w2 && x2 <= x1 + w1 && y1 <= y2 + h2 && y2 <= y1 + h1
    ensures SquareRects(x1, y1, w1, h1, x2, y2, w2, h2) == SquareRects(x2, y2, w2, h2, x1, y1, w1, h1)
  {
    SquareRectsIsGaps(x1, y1, w1, h1, x2, y2, w2, h2);
    SquareRectsIsGaps(x2, y2, w2, h2, x1, y1, w1, h1);
    GapMeaning(x1, w1, x2, w2);
    GapMeaning(y1, h1, y2, h2);
    var gx, gy := Gap(x1, w1, x2, w2), Gap(y1, h1, y2, h2);
    assert gx * gx >= 0 && gy * gy >= 0;
    assert gx * gx == 0 <==> gx == 0;
    assert gy * gy == 0 <==> gy == 0;
  }

  /** squarePointRect is the sum of the squared gaps between the point and the
      rectangle's spans, for any sizes. */
  lemma SquarePointRectIsGaps(px: int, py: int, rx: int, ry: int, rw: int, rh: int)
    ensures SquarePointRect(px, py, rx, ry, rw, rh) ==
            PointGap(px, rx, rw) * PointGap(px, rx, rw) + PointGap(py, ry, rh) * PointGap(py, ry, rh)
  {
  }

  /** For a rectangle of non-negative size, squarePointRect is never negative, and is
      zero exactly when the point lies in the rectangle, edges included. */
  lemma SquarePointRectMeaning(px: int, py: int, rx: int, ry: int, rw: int, rh: int)
    requires rw >= 0 && rh >= 0
    ensures SquarePointRect(px, py, rx, ry, rw, rh) >= 0
    ensures SquarePointRect(px, py, rx, ry, rw, rh) == 0 <==>
              rx <= px <= rx + rw && ry <= py <= ry + rh
  {
    SquarePointRectIsGaps(px, py, rx, ry, rw, rh);
    var gx, gy := PointGap(px, rx, rw), PointGap(py, ry, rh);
    assert gx * gx >= 0 && gy * gy >= 0;
    assert gx * gx == 0 <==> gx == 0;
    assert gy * gy == 0 <==> gy == 0;
  }

  /** Degenerate rectangles show the positive-size condition is needed: with a
      rectangle of height zero at the same y as another, the distance depends on which
      rectangle is named first (64 one way and 89 the other; 0 one way and 25 the other
      when they also share their x span). */
  lemma SquareRectsDegenerate()
    ensures SquareRects(0, 0, 2, 0, 10, 0, 2, 5) == 64
    ensures SquareRects(10, 0, 2, 5, 0, 0, 2, 0) == 89
    ensures SquareRects(0, 0, 2, 0, 0, 0, 2, 5) == 0
    ensures SquareRects(0, 0, 2, 5, 0, 0, 2, 0) == 25
  {
  }
}
