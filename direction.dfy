/**
 * The side classifier (`_checkCollisionDirection`).
 *
 * The source measures, with `Vector2.angle_to(...) % 360`, the angle from a
 * reference spoke (the vector from the static rectangle's top-left corner to
 * its centre) to each of the four corner-to-centre spokes and to the vector
 * from the moving rectangle's centre to the static centre, and compares
 * those angles. Here the same comparisons are decided exactly on integers:
 * which half-turn an angle falls in is the sign of a cross product (with a
 * dot product for the two directions on the reference line), and two angles
 * in the same half-turn are ordered by the sign of the cross product of
 * their vectors.
 */
module Direction {
  import opened Wrappers
  import opened Rects

  /** The side of the moving rectangle that hit the static one. */
  datatype Side = Bottom | Left | Top | Right

  function Cross(u: Vec, v: Vec): int { u.x * v.y - u.y * v.x }
  function Dot(u: Vec, v: Vec): int { u.x * v.x + u.y * v.y }

  /**
   * The direction `atan2` gives a vector: `atan2(0, 0)` is 0, so the zero
   * vector has the heading of (1, 0).
   */
  function Heading(v: Vec): (r: Vec)
    ensures r != Vec(0, 0)
  {
    if v == Vec(0, 0) then Vec(1, 0) else v
  }

  /** `v` points the same way as `u`: the angle between them is 0. */
  predicate SameHeading(u: Vec, v: Vec) {
    Cross(u, v) == 0 && Dot(u, v) > 0
  }

  /** The angle from `r` to `v`, taken mod 360, lies in [0, 180). */
  predicate InHalf(r: Vec, v: Vec) {
    Cross(r, v) > 0 || SameHeading(r, v)
  }

  /** 0 when the angle from `o` to `v`, taken mod 360, lies in [0, 180); 1 when it lies in [180, 360). */
  function HalfTurn(o: Vec, v: Vec): int {
    if InHalf(o, v) then 0 else 1
  }

  /** `o.angle_to(u) % 360 < o.angle_to(v) % 360`, for non-zero `o`, `u` and `v`. */
  predicate AngleLess(o: Vec, u: Vec, v: Vec) {
    HalfTurn(o, u) < HalfTurn(o, v) ||
    (HalfTurn(o, u) == HalfTurn(o, v) && Cross(u, v) > 0)
  }

  /** The four spokes, from each corner of `s` to its centre, in the order top-left, top-right, bottom-right, bottom-left. */
  function Spoke00(s: Rect): Vec { Heading(Minus(s.Center(), s.TopLeft())) }
  function Spoke10(s: Rect): Vec { Heading(Minus(s.Center(), s.TopRight())) }
  function Spoke11(s: Rect): Vec { Heading(Minus(s.Center(), s.BottomRight())) }
  function Spoke01(s: Rect): Vec { Heading(Minus(s.Center(), s.BottomLeft())) }

  /** The vector from the moving rectangle's centre to the static one's. */
  function Displacement(m: Rect, s: Rect): (d: Vec)
    ensures NonZero(d)
    ensures m.Center() != s.Center() ==> d == Minus(s.Center(), m.Center())
  {
    Heading(Minus(s.Center(), m.Center()))
  }

  /**
   * Which side of `m` struck `s`: the sector, between two consecutive spokes,
   * that strictly contains the displacement. `None` when the rectangles do
   * not overlap, or when the displacement lies exactly on a spoke.
   */
  function Classify(m: Rect, s: Rect): (r: Option<Side>)
    ensures !Overlap(m, s) ==> r == None
  {
    if !Overlap(m, s) then None
    else
      var o := Spoke00(s);
      var d := Displacement(m, s);
      if AngleLess(o, o, d) && AngleLess(o, d, Spoke10(s)) then Some(Bottom)
      else if AngleLess(o, Spoke10(s), d) && AngleLess(o, d, Spoke11(s)) then Some(Left)
      else if AngleLess(o, Spoke11(s), d) && AngleLess(o, d, Spoke01(s)) then Some(Top)
      else if AngleLess(o, Spoke01(s), d) then Some(Right)
      else None
  }

  // ---------------------------------------------------------------------
  // Sign facts for products, which the solver does not find on its own.

  lemma MulPos(x: int, y: int)
    requires x > 0 && y > 0
    ensures x * y > 0
  {
  }

  lemma MulNonneg(x: int, y: int)
    requires x >= 0 && y >= 0
    ensures x * y >= 0
  {
  }

  /** The spokes of `s` in terms of its half sizes: `a = w / 2`, `b = h / 2`, `a' = w - a`, `b' = h - b`. */
  lemma SpokeCoordinates(s: Rect)
    ensures Minus(s.Center(), s.TopLeft()) == Vec(s.w / 2, s.h / 2)
    ensures Minus(s.Center(), s.TopRight()) == Vec(-(s.w - s.w / 2), s.h / 2)
    ensures Minus(s.Center(), s.BottomRight()) == Vec(-(s.w - s.w / 2), -(s.h - s.h / 2))
    ensures Minus(s.Center(), s.BottomLeft()) == Vec(s.w / 2, -(s.h - s.h / 2))
    ensures 0 <= s.w / 2 < s.w - s.w / 2 + 1 && s.w - s.w / 2 >= 1
    ensures 0 <= s.h / 2 < s.h - s.h / 2 + 1 && s.h - s.h / 2 >= 1
    ensures s.w / 2 == 0 ==> s.w == 1
    ensures s.h / 2 == 0 ==> s.h == 1
  {
  }

  // ---------------------------------------------------------------------
  // The comparison of angles is a strict order on headings.

  predicate NonZero(v: Vec) { v != Vec(0, 0) }

  function Neg(v: Vec): Vec { Vec(-v.x, -v.y) }

  function Sign(n: int): int { if n > 0 then 1 else if n < 0 then -1 else 0 }

  /** Three vectors in the plane are linearly dependent. */
  lemma ThreeVectors(o: Vec, u: Vec, v: Vec, w: Vec)
    ensures Cross(u, w) * Cross(o, v) == Cross(u, v) * Cross(o, w) + Cross(v, w) * Cross(o, u)
  {
  }

  /** `v` written in the basis `u`, `u` turned a quarter. */
  lemma Rebase(u: Vec, v: Vec, p: Vec)
    ensures Dot(u, u) * Cross(p, v) == Dot(u, v) * Cross(p, u) + Cross(u, v) * Dot(p, u)
    ensures Dot(u, u) * Dot(p, v) == Dot(u, v) * Dot(p, u) - Cross(u, v) * Cross(p, u)
  {
  }

  lemma DotSelf(v: Vec)
    requires NonZero(v)
    ensures Dot(v, v) > 0
  {
    if v.x != 0 {
      MulPos(if v.x > 0 then v.x else -v.x, if v.x > 0 then v.x else -v.x);
    } else {
      MulPos(if v.y > 0 then v.y else -v.y, if v.y > 0 then v.y else -v.y);
    }
    MulNonneg(if v.x > 0 then v.x else -v.x, if v.x > 0 then v.x else -v.x);
    MulNonneg(if v.y > 0 then v.y else -v.y, if v.y > 0 then v.y else -v.y);
  }

  /** Scaling by a positive factor keeps the sign. */
  lemma ScaledSign(k: int, a: int, m: int, c: int)
    requires k > 0 && k * a == m * c
    ensures Sign(a) == Sign(m) * Sign(c)
  {
    if a > 0 { MulPos(k, a); } else if a < 0 { MulPos(k, -a); }
    if m > 0 && c > 0 { MulPos(m, c); }
    if m > 0 && c < 0 { MulPos(m, -c); }
    if m < 0 && c > 0 { MulPos(-m, c); }
    if m < 0 && c < 0 { MulPos(-m, -c); }
  }

  /** A non-zero vector is never both parallel and perpendicular to another. */
  lemma ParallelOrNot(u: Vec, v: Vec)
    requires NonZero(u) && NonZero(v)
    ensures Cross(u, v) != 0 || Dot(u, v) != 0
  {
    if Cross(u, v) == 0 && Dot(u, v) == 0 {
      DotSelf(u);
      Rebase(u, v, Vec(1, 0));
      Rebase(u, v, Vec(0, 1));
      ScaledSign(Dot(u, u), v.y, Dot(u, v), Cross(Vec(1, 0), u));
      ScaledSign(Dot(u, u), -v.x, Dot(u, v), Cross(Vec(0, 1), u));
      assert false;
    }
  }

  /** Every non-zero vector lies in one of the two half-turns counted from `o`. */
  lemma OtherHalf(o: Vec, v: Vec)
    requires NonZero(o) && NonZero(v) && !InHalf(o, v)
    ensures Cross(Neg(o), v) > 0 || SameHeading(Neg(o), v)
  {
    ParallelOrNot(o, v);
  }

  /** Two vectors with the same heading compare alike with any third. */
  lemma SameHeadingSigns(u: Vec, u2: Vec, p: Vec)
    requires NonZero(u) && SameHeading(u, u2)
    ensures Sign(Cross(p, u2)) == Sign(Cross(p, u))
    ensures Sign(Dot(p, u2)) == Sign(Dot(p, u))
  {
    DotSelf(u);
    Rebase(u, u2, p);
    ScaledSign(Dot(u, u), Cross(p, u2), Dot(u, u2), Cross(p, u));
    ScaledSign(Dot(u, u), Dot(p, u2), Dot(u, u2), Dot(p, u));
  }

  /** Replacing a vector by one with the same heading changes no comparison. */
  lemma Substitute(o: Vec, x: Vec, u: Vec, u2: Vec)
    requires NonZero(o) && NonZero(u) && SameHeading(u, u2)
    ensures HalfTurn(o, u) == HalfTurn(o, u2)
    ensures AngleLess(o, x, u) <==> AngleLess(o, x, u2)
    ensures AngleLess(o, u, x) <==> AngleLess(o, u2, x)
  {
    SameHeadingSigns(u, u2, o);
    SameHeadingSigns(u, u2, x);
  }

  /** Within one half-turn, the cross product orders vectors transitively. */
  lemma OrderInHalf(r: Vec, u: Vec, v: Vec, w: Vec)
    requires NonZero(r) && InHalf(r, u) && InHalf(r, v) && InHalf(r, w)
    requires Cross(u, v) > 0 && Cross(v, w) > 0
    ensures Cross(u, w) > 0
  {
    if Cross(r, v) <= 0 {
      SameHeadingSigns(r, v, u);
      assert false;
    }
    if Cross(r, w) <= 0 {
      SameHeadingSigns(r, w, v);
      assert false;
    }
    ThreeVectors(r, u, v, w);
    MulPos(Cross(u, v), Cross(r, w));
    MulNonneg(Cross(v, w), Cross(r, u));
    if Cross(u, w) <= 0 {
      MulNonneg(-Cross(u, w), Cross(r, v));
      assert false;
    }
  }

  /** The comparison of angles is transitive. */
  lemma AngleLessTrans(o: Vec, u: Vec, v: Vec, w: Vec)
    requires NonZero(o) && NonZero(u) && NonZero(v) && NonZero(w)
    requires AngleLess(o, u, v) && AngleLess(o, v, w)
    ensures AngleLess(o, u, w)
  {
    if HalfTurn(o, u) == HalfTurn(o, w) {
      if HalfTurn(o, u) == 0 {
        OrderInHalf(o, u, v, w);
      } else {
        OtherHalf(o, u);
        OtherHalf(o, v);
        OtherHalf(o, w);
        OrderInHalf(Neg(o), u, v, w);
      }
    }
  }

  /** The comparison is a strict order: never both ways. */
  lemma AngleLessAsym(o: Vec, u: Vec, v: Vec)
    requires AngleLess(o, u, v)
    ensures !AngleLess(o, v, u)
  {
    assert Cross(v, u) == -Cross(u, v);
  }

  /** Any two headings compare one way or the other, unless they are equal. */
  lemma AngleTotal(o: Vec, u: Vec, v: Vec)
    requires NonZero(o) && NonZero(u) && NonZero(v)
    ensures AngleLess(o, u, v) || AngleLess(o, v, u) || SameHeading(u, v)
  {
    if HalfTurn(o, u) == HalfTurn(o, v) && Cross(u, v) == 0 && Dot(u, v) <= 0 {
      ParallelOrNot(u, v);
      var r := if HalfTurn(o, u) == 0 then o else Neg(o);
      if HalfTurn(o, u) == 1 {
        OtherHalf(o, u);
        OtherHalf(o, v);
      }
      DotSelf(u);
      Rebase(u, v, r);
      ScaledSign(Dot(u, u), Cross(r, v), Dot(u, v), Cross(r, u));
      ScaledSign(Dot(u, u), Dot(r, v), Dot(u, v), Dot(r, u));
      assert false;
    }
  }

  /**
   * A vector strictly inside the cone from `p` to `q`, narrower than a
   * half-turn, lies in the half-turn that holds both ends.
   */
  lemma ConeInHalf(r: Vec, p: Vec, q: Vec, d: Vec)
    requires NonZero(r) && InHalf(r, p) && InHalf(r, q)
    requires Cross(p, q) > 0 && Cross(p, d) > 0 && Cross(d, q) > 0
    ensures Cross(r, d) > 0
  {
    if Cross(r, q) <= 0 {
      SameHeadingSigns(r, q, p);
      assert false;
    }
    ThreeVectors(r, p, d, q);
    MulPos(Cross(p, d), Cross(r, q));
    MulNonneg(Cross(d, q), Cross(r, p));
    if Cross(r, d) <= 0 {
      MulNonneg(Cross(p, q), -Cross(r, d));
      assert false;
    }
  }

  /** A vector strictly inside a cone narrower than a half-turn compares between its ends. */
  lemma ConeBetween(o: Vec, p: Vec, q: Vec, d: Vec)
    requires NonZero(o) && NonZero(p) && NonZero(q) && NonZero(d)
    requires AngleLess(o, p, q) && Cross(p, q) > 0
    requires Cross(p, d) > 0 && Cross(d, q) > 0
    ensures AngleLess(o, p, d) && AngleLess(o, d, q)
  {
    if HalfTurn(o, p) == HalfTurn(o, q) {
      if HalfTurn(o, p) == 0 {
        ConeInHalf(o, p, q, d);
      } else {
        OtherHalf(o, p);
        OtherHalf(o, q);
        ConeInHalf(Neg(o), p, q, d);
      }
    }
  }

  // ---------------------------------------------------------------------
  // Approach from one side: the centre of the mover lies beyond one edge
  // of the static rectangle and strictly within its span along the other axis.

  /**
   * The displacement `(a - p, b + q)` of a mover whose centre is `q > 0` above
   * the top edge and `p` right of the left corner, `0 < p < a + a'`, lies
   * strictly between the top-left spoke `(a, b)` and the top-right spoke `(-a', b)`.
   */
  lemma BetweenTopSpokes(a: int, b: int, a2: int, p: int, q: int)
    requires a >= 1 && b >= 0 && a2 >= 1 && 0 < p < a + a2 && q > 0
    ensures var o, d := Vec(a, b), Vec(a - p, b + q);
      AngleLess(o, o, d) && AngleLess(o, d, Vec(-a2, b))
  {
    var o, d, t := Vec(a, b), Vec(a - p, b + q), Vec(-a2, b);
    DotSelf(o);
    assert HalfTurn(o, o) == 0;
    TopConeProducts(a, b, a2, p, q);
    assert Cross(o, d) > 0;
    if b > 0 {
      assert Cross(o, t) > 0 && Cross(d, t) > 0;
    } else {
      assert Cross(o, t) == 0 && Dot(o, t) < 0;
    }
  }

  /** The products behind `BetweenTopSpokes`, written as the cross and dot products expand. */
  lemma TopConeProducts(a: int, b: int, a2: int, p: int, q: int)
    requires a >= 1 && b >= 0 && a2 >= 1 && 0 < p < a + a2 && q > 0
    ensures a * (b + q) - b * (a - p) > 0
    ensures b > 0 ==> a * b - b * -a2 > 0
    ensures b > 0 ==> (a - p) * b - (b + q) * -a2 > 0
    ensures b == 0 ==> a * b - b * -a2 == 0 && a * -a2 + b * b < 0
  {
    MulPos(a, q);
    MulNonneg(b, p);
    MulPos(a, a2);
    if b > 0 {
      MulPos(b, a + a2);
      MulNonneg(b, a + a2 - p);
      MulPos(a2, q);
    }
  }

  lemma ApproachFromAbove(m: Rect, s: Rect)
    requires Overlap(m, s)
    requires m.Center().y < s.Top() && s.Left() < m.Center().x < s.Right()
    ensures Classify(m, s) == Some(Bottom)
  {
    SpokeCoordinates(s);
    var a, b, a2 := s.w / 2, s.h / 2, s.w - s.w / 2;
    var p, q := m.Center().x - s.Left(), s.Top() - m.Center().y;
    assert Minus(s.Center(), m.Center()) == Vec(a - p, b + q);
    BetweenTopSpokes(a, b, a2, p, q);
  }

  /** The four spokes of a rectangle with half sizes `a <= a'` and `b <= b'` (`a'`, `b'` positive). */
  predicate SpokesOf(s: Rect, a: int, b: int, a2: int, b2: int) {
    0 <= a <= a2 && a2 >= 1 && 0 <= b <= b2 && b2 >= 1 &&
    Spoke00(s) == Heading(Vec(a, b)) && Spoke10(s) == Vec(-a2, b) &&
    Spoke11(s) == Vec(-a2, -b2) && Spoke01(s) == Vec(a, -b2)
  }

  lemma HalfSizes(s: Rect)
    ensures SpokesOf(s, s.w / 2, s.h / 2, s.w - s.w / 2, s.h - s.h / 2)
  {
    SpokeCoordinates(s);
  }

  lemma AdjacentSpokes(a: int, b: int, a2: int, b2: int)
    requires 0 <= a && a2 >= 1 && 0 <= b && b2 >= 1
    ensures Cross(Vec(-a2, b), Vec(-a2, -b2)) > 0 && Cross(Vec(-a2, -b2), Vec(a, -b2)) > 0
  {
    var t10, t11, t01 := Vec(-a2, b), Vec(-a2, -b2), Vec(a, -b2);
    assert Cross(t10, t11) > 0 by {
      MulPos(a2, b2);
      MulNonneg(a2, b);
      assert Cross(t10, t11) == a2 * b2 + a2 * b;
    }
    assert Cross(t11, t01) > 0 by {
      MulPos(a2, b2);
      MulNonneg(a, b2);
      assert Cross(t11, t01) == a2 * b2 + a * b2;
    }
  }

  /** The bottom-left spoke is at least a half-turn past the top-left one. */
  lemma LastSpokeHalf(a: int, b: int, b2: int)
    requires 0 <= a && 0 <= b && b2 >= 1
    ensures HalfTurn(Heading(Vec(a, b)), Vec(a, -b2)) == 1
  {
    var o, t01 := Heading(Vec(a, b)), Vec(a, -b2);
    if a == 0 && b == 0 {
      assert o == Vec(1, 0) && Cross(o, t01) == -b2;
    } else if a == 0 {
      MulPos(b, b2);
      assert o == Vec(0, b) && Cross(o, t01) == 0 && Dot(o, t01) == -(b * b2);
    } else {
      MulPos(a, b + b2);
      assert o == Vec(a, b) && Cross(o, t01) == -(a * (b + b2));
    }
  }

  /**
   * The top-right spoke is less than a half-turn past the top-left one,
   * unless the height is 1 (`b = 0`): then it and the bottom-right spoke
   * are both at least a half-turn past.
   */
  lemma TopRightSpokeHalf(a: int, b: int, a2: int, b2: int)
    requires 0 <= a && a2 >= 1 && 0 <= b && b2 >= 1
    ensures var o := Heading(Vec(a, b));
      (b > 0 ==> Cross(o, Vec(-a2, b)) > 0) &&
      (b == 0 ==> HalfTurn(o, Vec(-a2, b)) == 1 && HalfTurn(o, Vec(-a2, -b2)) == 1)
  {
    var o, t10, t11 := Heading(Vec(a, b)), Vec(-a2, b), Vec(-a2, -b2);
    if b > 0 {
      if a == 0 {
        MulPos(b, a2);
        assert o == Vec(0, b) && Cross(o, t10) == b * a2;
      } else {
        MulPos(b, a + a2);
        assert o == Vec(a, b) && Cross(o, t10) == b * (a + a2);
      }
    } else if a == 0 {
      assert o == Vec(1, 0) && Cross(o, t10) == 0 && Dot(o, t10) == -a2;
      assert Cross(o, t11) == -b2;
    } else {
      MulPos(a, a2);
      MulPos(a, b2);
      assert o == Vec(a, 0) && Cross(o, t10) == 0 && Dot(o, t10) == -(a * a2);
      assert Cross(o, t11) == -(a * b2);
    }
  }

  lemma SpokeOrderAt(a: int, b: int, a2: int, b2: int)
    requires 0 <= a <= a2 && a2 >= 1 && 0 <= b <= b2 && b2 >= 1
    ensures var o, t10, t11, t01 := Heading(Vec(a, b)), Vec(-a2, b), Vec(-a2, -b2), Vec(a, -b2);
      AngleLess(o, o, t10) && AngleLess(o, t10, t11) && AngleLess(o, t11, t01) &&
      HalfTurn(o, t01) == 1 && Cross(t10, t11) > 0 && Cross(t11, t01) > 0
  {
    var o, t10, t11, t01 := Heading(Vec(a, b)), Vec(-a2, b), Vec(-a2, -b2), Vec(a, -b2);
    AdjacentSpokes(a, b, a2, b2);
    LastSpokeHalf(a, b, b2);
    TopRightSpokeHalf(a, b, a2, b2);
    DotSelf(o);
    assert HalfTurn(o, o) == 0;
    assert AngleLess(o, o, t10);
    assert AngleLess(o, t10, t11);
    assert AngleLess(o, t11, t01);
  }

  /**
   * The four spokes, measured from the top-left one, come in strictly
   * increasing angle, and the sectors of the left and top sides are
   * narrower than a half-turn. Holds for every positive size, including
   * the width or height 1 for which a spoke is axis-aligned or zero.
   */
  lemma SpokesInOrder(s: Rect)
    ensures var o := Spoke00(s);
      AngleLess(o, o, Spoke10(s)) && AngleLess(o, Spoke10(s), Spoke11(s)) &&
      AngleLess(o, Spoke11(s), Spoke01(s)) && HalfTurn(o, Spoke01(s)) == 1
    ensures Cross(Spoke10(s), Spoke11(s)) > 0 && Cross(Spoke11(s), Spoke01(s)) > 0
  {
    HalfSizes(s);
    SpokeOrderAt(s.w / 2, s.h / 2, s.w - s.w / 2, s.h - s.h / 2);
  }

  /** The displacement of a mover `p` right of the right edge and `q` below the top edge lies inside the left sector's cone. */
  lemma RightConeCrosses(b: int, a2: int, b2: int, p: int, q: int)
    requires a2 >= 1 && 0 <= b && b2 >= 1 && p > 0 && 0 < q < b + b2
    ensures var d := Vec(-(a2 + p), b - q);
      Cross(Vec(-a2, b), d) > 0 && Cross(d, Vec(-a2, -b2)) > 0
  {
    var d := Vec(-(a2 + p), b - q);
    MulPos(a2, q);
    MulNonneg(b, p);
    assert Cross(Vec(-a2, b), d) == a2 * q + b * p;
    MulPos(a2, b + b2 - q);
    MulNonneg(p, b2);
    assert Cross(d, Vec(-a2, -b2)) == a2 * (b + b2 - q) + p * b2;
  }

  lemma BetweenRightSpokes(a: int, b: int, a2: int, b2: int, p: int, q: int)
    requires 0 <= a <= a2 && a2 >= 1 && 0 <= b <= b2 && b2 >= 1 && p > 0 && 0 < q < b + b2
    ensures var o, d := Heading(Vec(a, b)), Vec(-(a2 + p), b - q);
      AngleLess(o, Vec(-a2, b), d) && AngleLess(o, d, Vec(-a2, -b2))
  {
    SpokeOrderAt(a, b, a2, b2);
    RightConeCrosses(b, a2, b2, p, q);
    ConeBetween(Heading(Vec(a, b)), Vec(-a2, b), Vec(-a2, -b2), Vec(-(a2 + p), b - q));
  }

  /** The displacement of a mover `q` below the bottom edge and `p` right of the left edge lies inside the top sector's cone. */
  lemma BottomConeCrosses(a: int, a2: int, b2: int, p: int, q: int)
    requires 0 <= a && a2 >= 1 && b2 >= 1 && 0 < p < a + a2 && q > 0
    ensures var d := Vec(a - p, -(b2 + q));
      Cross(Vec(-a2, -b2), d) > 0 && Cross(d, Vec(a, -b2)) > 0
  {
    var d := Vec(a - p, -(b2 + q));
    MulPos(b2, a + a2 - p);
    MulPos(a2, q);
    assert Cross(Vec(-a2, -b2), d) == b2 * (a + a2 - p) + a2 * q;
    MulPos(p, b2);
    MulNonneg(a, q);
    assert Cross(d, Vec(a, -b2)) == p * b2 + a * q;
  }

  lemma BetweenBottomSpokes(a: int, b: int, a2: int, b2: int, p: int, q: int)
    requires 0 <= a <= a2 && a2 >= 1 && 0 <= b <= b2 && b2 >= 1 && 0 < p < a + a2 && q > 0
    ensures var o, d := Heading(Vec(a, b)), Vec(a - p, -(b2 + q));
      AngleLess(o, Vec(-a2, -b2), d) && AngleLess(o, d, Vec(a, -b2)) && AngleLess(o, Vec(-a2, b), d)
  {
    var o, d := Heading(Vec(a, b)), Vec(a - p, -(b2 + q));
    SpokeOrderAt(a, b, a2, b2);
    BottomConeCrosses(a, a2, b2, p, q);
    ConeBetween(o, Vec(-a2, -b2), Vec(a, -b2), d);
    AngleLessTrans(o, Vec(-a2, b), Vec(-a2, -b2), d);
  }

  /** The displacement of a mover `p` left of the left edge and `q` below the top edge is past the last spoke. */
  lemma LeftOfLastSpoke(a: int, b: int, b2: int, p: int, q: int)
    requires 0 <= a && 0 <= b && b2 >= 1 && p > 0 && 0 < q < b + b2
    ensures var o, d := Heading(Vec(a, b)), Vec(a + p, b - q);
      Cross(Vec(a, -b2), d) > 0 && HalfTurn(o, d) == 1
  {
    var o, d := Heading(Vec(a, b)), Vec(a + p, b - q);
    MulNonneg(a, b + b2 - q);
    MulPos(b2, p);
    assert Cross(Vec(a, -b2), d) == a * (b + b2 - q) + b2 * p;
    if a == 0 && b == 0 {
      assert o == Vec(1, 0) && Cross(o, d) == -q;
    } else {
      MulNonneg(a, q);
      MulNonneg(b, p);
      if a > 0 { MulPos(a, q); } else { MulPos(b, p); }
      assert o == Vec(a, b) && Cross(o, d) == -(a * q) - b * p;
    }
  }

  lemma BeyondLastSpoke(a: int, b: int, a2: int, b2: int, p: int, q: int)
    requires 0 <= a <= a2 && a2 >= 1 && 0 <= b <= b2 && b2 >= 1 && p > 0 && 0 < q < b + b2
    ensures var o, d := Heading(Vec(a, b)), Vec(a + p, b - q);
      AngleLess(o, Vec(a, -b2), d) && AngleLess(o, Vec(-a2, -b2), d) && AngleLess(o, Vec(-a2, b), d)
  {
    var o, d := Heading(Vec(a, b)), Vec(a + p, b - q);
    var t10, t11, t01 := Vec(-a2, b), Vec(-a2, -b2), Vec(a, -b2);
    SpokeOrderAt(a, b, a2, b2);
    LeftOfLastSpoke(a, b, b2, p, q);
    assert AngleLess(o, t01, d);
    AngleLessTrans(o, t10, t11, t01);
    AngleLessTrans(o, t10, t01, d);
    AngleLessTrans(o, t11, t01, d);
  }

  /** Approaching from the right of the right edge: the mover's left side hits. */
  lemma ApproachFromRight(m: Rect, s: Rect)
    requires Overlap(m, s)
    requires m.Center().x > s.Right() && s.Top() < m.Center().y < s.Bottom()
    ensures Classify(m, s) == Some(Left)
  {
    HalfSizes(s);
    var a, b, a2, b2 := s.w / 2, s.h / 2, s.w - s.w / 2, s.h - s.h / 2;
    var p, q := m.Center().x - s.Right(), m.Center().y - s.Top();
    assert Displacement(m, s) == Vec(-(a2 + p), b - q);
    BetweenRightSpokes(a, b, a2, b2, p, q);
  }

  /** Approaching from below the bottom edge: the mover's top side hits. */
  lemma ApproachFromBelow(m: Rect, s: Rect)
    requires Overlap(m, s)
    requires m.Center().y > s.Bottom() && s.Left() < m.Center().x < s.Right()
    ensures Classify(m, s) == Some(Top)
  {
    HalfSizes(s);
    var a, b, a2, b2 := s.w / 2, s.h / 2, s.w - s.w / 2, s.h - s.h / 2;
    var p, q := m.Center().x - s.Left(), m.Center().y - s.Bottom();
    var o, d := Spoke00(s), Displacement(m, s);
    assert d == Vec(a - p, -(b2 + q));
    BetweenBottomSpokes(a, b, a2, b2, p, q);
    AngleLessAsym(o, Spoke10(s), d);
    AngleLessAsym(o, Spoke11(s), d);
  }

  /** Approaching from the left of the left edge: the mover's right side hits. */
  lemma ApproachFromLeft(m: Rect, s: Rect)
    requires Overlap(m, s)
    requires m.Center().x < s.Left() && s.Top() < m.Center().y < s.Bottom()
    ensures Classify(m, s) == Some(Right)
  {
    HalfSizes(s);
    var a, b, a2, b2 := s.w / 2, s.h / 2, s.w - s.w / 2, s.h - s.h / 2;
    var p, q := s.Left() - m.Center().x, m.Center().y - s.Top();
    assert Displacement(m, s) == Vec(a + p, b - q);
    BeyondLastSpoke(a, b, a2, b2, p, q);
  }

  /**
   * For overlapping rectangles the classifier gives no side exactly when the
   * displacement points along one of the four spokes: the four strict
   * comparisons leave out the sector boundaries and nothing else.
   */
  lemma ClassifyNoneIff(m: Rect, s: Rect)
    requires Overlap(m, s)
    ensures Classify(m, s) == None <==>
      SameHeading(Spoke00(s), Displacement(m, s)) || SameHeading(Spoke10(s), Displacement(m, s)) ||
      SameHeading(Spoke11(s), Displacement(m, s)) || SameHeading(Spoke01(s), Displacement(m, s))
  {
    SpokesInOrder(s);
    var o, t10, t11, t01, d := Spoke00(s), Spoke10(s), Spoke11(s), Spoke01(s), Displacement(m, s);
    AngleLessTrans(o, t10, t11, t01);
    AngleLessTrans(o, o, t10, t11);
    AngleLessTrans(o, o, t11, t01);
    if SameHeading(o, d) || SameHeading(t10, d) || SameHeading(t11, d) || SameHeading(t01, d) {
      OnSpokeNoSector(o, t10, t11, t01, d);
    } else {
      OffSpokeSomeSector(o, t10, t11, t01, d);
    }
  }

  /** A mover whose centre sits on the static rectangle's top-left corner lies on a spoke and gets no side. */
  lemma CornerUnclassified(m: Rect, s: Rect)
    requires Overlap(m, s) && m.Center() == s.TopLeft()
    ensures Classify(m, s) == None
  {
    var o := Spoke00(s);
    assert Displacement(m, s) == o by {
      assert Minus(s.Center(), m.Center()) == Minus(s.Center(), s.TopLeft());
    }
    DotSelf(o);
    assert SameHeading(o, Displacement(m, s));
    ClassifyNoneIff(m, s);
  }

  /** The four spokes in the order the classifier tests them, all non-zero. */
  predicate SpokeOrder(o: Vec, t10: Vec, t11: Vec, t01: Vec) {
    NonZero(o) && NonZero(t10) && NonZero(t11) && NonZero(t01) &&
    AngleLess(o, o, t10) && AngleLess(o, o, t11) && AngleLess(o, o, t01) &&
    AngleLess(o, t10, t11) && AngleLess(o, t10, t01) && AngleLess(o, t11, t01)
  }

  /** Some sector strictly contains `d`. */
  predicate InSomeSector(o: Vec, t10: Vec, t11: Vec, t01: Vec, d: Vec) {
    (AngleLess(o, o, d) && AngleLess(o, d, t10)) || (AngleLess(o, t10, d) && AngleLess(o, d, t11)) ||
    (AngleLess(o, t11, d) && AngleLess(o, d, t01)) || AngleLess(o, t01, d)
  }

  /** A displacement along a spoke lies strictly inside no sector. */
  lemma OnSpokeNoSector(o: Vec, t10: Vec, t11: Vec, t01: Vec, d: Vec)
    requires SpokeOrder(o, t10, t11, t01) && NonZero(d)
    requires SameHeading(o, d) || SameHeading(t10, d) || SameHeading(t11, d) || SameHeading(t01, d)
    ensures !InSomeSector(o, t10, t11, t01, d)
  {
    var x := if SameHeading(o, d) then o else if SameHeading(t10, d) then t10
             else if SameHeading(t11, d) then t11 else t01;
    Substitute(o, o, x, d);
    Substitute(o, t10, x, d);
    Substitute(o, t11, x, d);
    Substitute(o, t01, x, d);
  }

  /** A displacement along no spoke lies strictly inside some sector. */
  lemma OffSpokeSomeSector(o: Vec, t10: Vec, t11: Vec, t01: Vec, d: Vec)
    requires SpokeOrder(o, t10, t11, t01) && NonZero(d)
    requires !(SameHeading(o, d) || SameHeading(t10, d) || SameHeading(t11, d) || SameHeading(t01, d))
    ensures InSomeSector(o, t10, t11, t01, d)
  {
    AngleTotal(o, o, d);
    AngleTotal(o, d, t10);
    AngleTotal(o, d, t11);
    AngleTotal(o, d, t01);
  }

  /**
   * Concentric rectangles: the displacement is the zero vector, whose
   * `atan2` heading is that of (1, 0), so the mover's right side is
   * reported (when the static rectangle is at least 2 high; at height 1
   * the top-left spoke itself points along (1, 0) and no side is reported).
   */
  lemma ConcentricHitsRight(m: Rect, s: Rect)
    requires m.Center() == s.Center() && s.h >= 2
    ensures Classify(m, s) == Some(Right)
  {
    HalfSizes(s);
    var a, b, a2, b2 := s.w / 2, s.h / 2, s.w - s.w / 2, s.h - s.h / 2;
    var o, d := Spoke00(s), Displacement(m, s);
    var t10, t11, t01 := Vec(-a2, b), Vec(-a2, -b2), Vec(a, -b2);
    assert Overlap(m, s);
    assert d == Vec(1, 0) && o == Vec(a, b) && b >= 1;
    SpokeOrderAt(a, b, a2, b2);
    assert Cross(t01, d) == b2 && Cross(o, d) == -b;
    assert AngleLess(o, t01, d);
    AngleLessTrans(o, t10, t11, t01);
    AngleLessTrans(o, t10, t01, d);
    AngleLessTrans(o, t11, t01, d);
  }
}
