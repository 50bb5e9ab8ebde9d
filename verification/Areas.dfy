/** Screen rectangles with inclusive corners, as LVGL keeps them, and what is drawn in them. */
module Areas {
  import opened Integers

  type Colour = int

  /** A view's scale and origin. */
  datatype View = View(s: real, ox: real, oy: real)

  datatype Area = Area(x1: int, y1: int, x2: int, y2: int) {
    predicate Empty() { x1 > x2 || y1 > y2 }

    predicate Has(x: int, y: int) { x1 <= x <= x2 && y1 <= y <= y2 }

    predicate Covers(a: Area) { a.Empty() || (x1 <= a.x1 && y1 <= a.y1 && a.x2 <= x2 && a.y2 <= y2) }

    /** The formula as it is, for an empty area too. */
    function Size(): int { (x2 - x1 + 1) * (y2 - y1 + 1) }

    function Grow(r: int): Area { Area(x1 - r, y1 - r, x2 + r, y2 + r) }
  }

  const NO_AREA := Area(0, 0, -1, -1)

  /** The smallest area that covers both. */
  function Union(d: Area, a: Area): (u: Area)
    ensures u.Covers(d) && u.Covers(a)
    ensures forall w: Area :: w.Covers(d) && w.Covers(a) ==> w.Covers(u)
    ensures u.Empty() <==> d.Empty() && a.Empty()
  {
    if a.Empty() then d
    else if d.Empty() then a
    else Area(Min(d.x1, a.x1), Min(d.y1, a.y1), Max(d.x2, a.x2), Max(d.y2, a.y2))
  }

  lemma CoversHas(u: Area, a: Area, x: int, y: int)
    requires u.Covers(a) && a.Has(x, y)
    ensures u.Has(x, y)
  {
  }
}
