/**
 * pygame's integer `Rect`, restricted to positive sizes, and the two
 * relations the collision engine asks of it: overlap (`colliderect`, which
 * `pg.sprite.collide_rect` and `pg.sprite.spritecollide` use) and
 * containment (`Rect.contains`).
 */
module Rects {

  /** A strictly positive length: every sprite of the scene has a positive width and height. */
  type Pos = n: int | n > 0 witness 1

  /** An integer 2D vector; screen coordinates, so y grows downwards. */
  datatype Vec = Vec(x: int, y: int)

  function Minus(p: Vec, q: Vec): Vec {
    Vec(p.x - q.x, p.y - q.y)
  }

  datatype Rect = Rect(x: int, y: int, w: Pos, h: Pos) {

    function Left(): int { x }
    function Top(): int { y }
    function Right(): int { x + w }
    function Bottom(): int { y + h }

    /** `rect.center`: pygame halves the size with floor division. */
    function Center(): Vec { Vec(x + w / 2, y + h / 2) }

    function TopLeft(): Vec { Vec(x, y) }
    function TopRight(): Vec { Vec(x + w, y) }
    function BottomRight(): Vec { Vec(x + w, y + h) }
    function BottomLeft(): Vec { Vec(x, y + h) }

    /** `rect.bottom = v`: moves the rectangle vertically, keeping its size. */
    function WithBottom(v: int): (r: Rect)
      ensures r.Bottom() == v && r.x == x && r.w == w && r.h == h
    {
      this.(y := v - h)
    }

    /** `rect.top = v` */
    function WithTop(v: int): (r: Rect)
      ensures r.Top() == v && r.x == x && r.w == w && r.h == h
    {
      this.(y := v)
    }

    /** `rect.left = v` */
    function WithLeft(v: int): (r: Rect)
      ensures r.Left() == v && r.y == y && r.w == w && r.h == h
    {
      this.(x := v)
    }

    /** `rect.right = v` */
    function WithRight(v: int): (r: Rect)
      ensures r.Right() == v && r.y == y && r.w == w && r.h == h
    {
      this.(x := v - w)
    }
  }

  /** `a.colliderect(b)` for positive sizes: the open interiors intersect on both axes. */
  predicate Overlap(a: Rect, b: Rect) {
    a.Left() < b.Right() && b.Left() < a.Right() &&
    a.Top() < b.Bottom() && b.Top() < a.Bottom()
  }

  /** `outer.contains(inner)` for positive sizes: inclusive on every edge. */
  predicate Contains(outer: Rect, inner: Rect) {
    outer.Left() <= inner.Left() && inner.Right() <= outer.Right() &&
    outer.Top() <= inner.Top() && inner.Bottom() <= outer.Bottom()
  }
}
