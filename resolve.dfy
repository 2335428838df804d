/**
 * What the resolvers do to one player, on a value snapshot of the fields
 * they read and write: `rect`, `physics.velocity` and `isOnGround`.
 *
 * Both `_resolveBasicCollision` and the directional-platform pass compute
 * the hit list once, from the rectangle the player has when the pass
 * reaches it, and then walk it in group order, classifying every hit
 * against the rectangle as it has been corrected so far.
 */
module Resolve {
  import opened Wrappers
  import opened Rects
  import opened Direction

  /** The part of a player the resolvers read and write. */
  datatype Body = Body(rect: Rect, velX: int, velY: int, onGround: bool)

  /** A moving platform: its rectangle and the displacement it makes this frame. */
  datatype MovingPlatform = MovingPlatform(rect: Rect, dx: int, dy: int)

  /** How far below a one-way platform's top the player's bottom may be and still be lifted onto it. */
  const OneWayTolerance := 30

  function Abs(n: int): int { if n < 0 then -n else n }

  /**
   * `pg.sprite.spritecollide(sprite, group, False)`: the members of the group
   * that overlap `r`, in group order.
   */
  function Hits(r: Rect, group: seq<Rect>): (hs: seq<Rect>)
    ensures |hs| <= |group|
    ensures forall h :: h in hs ==> h in group && Overlap(r, h)
    ensures forall g :: g in group && Overlap(r, g) ==> g in hs
  {
    if group == [] then []
    else
      var last := group[|group| - 1];
      Hits(r, group[..|group| - 1]) + (if Overlap(r, last) then [last] else [])
  }

  /** `r` overlaps some member of the group. */
  predicate TouchesAny(r: Rect, group: seq<Rect>) {
    exists g :: g in group && Overlap(r, g)
  }

  /** There are hits exactly when something in the group overlaps `r`. */
  lemma HitsNonEmptyIff(r: Rect, group: seq<Rect>)
    ensures Hits(r, group) != [] <==> TouchesAny(r, group)
  {
    var hs := Hits(r, group);
    if hs != [] {
      assert hs[0] in hs;
    }
  }

  // ---------------------------------------------------------------------
  // `_resolveBasicCollision`

  /**
   * One iteration of the loop over the hits: classify against the current
   * rectangle and snap the struck side flush against the obstacle.
   */
  function BasicStep(b: Body, wall: Rect): (r: Body)
    ensures r.rect.w == b.rect.w && r.rect.h == b.rect.h
    ensures Classify(b.rect, wall) == None ==> r == b
    ensures Classify(b.rect, wall) == Some(Bottom) ==>
      r == b.(rect := r.rect, velY := 0, onGround := true) &&
      r.rect.Bottom() == wall.Top() && r.rect.x == b.rect.x
    ensures Classify(b.rect, wall) == Some(Left) ==>
      r == b.(rect := r.rect, velX := 0) && r.rect.Left() == wall.Right() && r.rect.y == b.rect.y
    ensures Classify(b.rect, wall) == Some(Top) ==>
      r == b.(rect := r.rect, velY := 0) && r.rect.Top() == wall.Bottom() && r.rect.x == b.rect.x
    ensures Classify(b.rect, wall) == Some(Right) ==>
      r == b.(rect := r.rect, velX := 0) && r.rect.Right() == wall.Left() && r.rect.y == b.rect.y
  {
    match Classify(b.rect, wall)
    case Some(Bottom) => b.(rect := b.rect.WithBottom(wall.Top()), velY := 0, onGround := true)
    case Some(Left) => b.(rect := b.rect.WithLeft(wall.Right()), velX := 0)
    case Some(Top) => b.(rect := b.rect.WithTop(wall.Bottom()), velY := 0)
    case Some(Right) => b.(rect := b.rect.WithRight(wall.Left()), velX := 0)
    case None => b
  }

  /**
   * The loop over a hit list, first to last. Sizes never change, each
   * velocity component is either kept or zeroed, and a player once on the
   * ground stays on the ground.
   */
  function BasicFold(b: Body, hits: seq<Rect>): (r: Body)
    ensures r.rect.w == b.rect.w && r.rect.h == b.rect.h
    ensures r.velX == b.velX || r.velX == 0
    ensures r.velY == b.velY || r.velY == 0
    ensures b.onGround ==> r.onGround
    decreases |hits|
  {
    if hits == [] then b
    else BasicStep(BasicFold(b, hits[..|hits| - 1]), hits[|hits| - 1])
  }

  /** `_resolveBasicCollision(moving, group)` on the moving player's snapshot. */
  function ResolveBasic(b: Body, group: seq<Rect>): (r: Body)
    ensures r.rect.w == b.rect.w && r.rect.h == b.rect.h
    ensures (r.velX == b.velX || r.velX == 0) && (r.velY == b.velY || r.velY == 0)
    ensures b.onGround ==> r.onGround
  {
    BasicFold(b, Hits(b.rect, group))
  }

  /** A correction leaves the mover flush against the obstacle, so no longer overlapping it. */
  lemma BasicStepSeparates(b: Body, wall: Rect)
    requires Classify(b.rect, wall) != None
    ensures !Overlap(BasicStep(b, wall).rect, wall)
  {
    match Classify(b.rect, wall)
    case Some(Bottom) =>
    case Some(Left) =>
    case Some(Top) =>
    case Some(Right) =>
  }

  /**
   * Resolving the same obstacle twice is resolving it once: after a
   * correction the pair no longer overlaps, and an unclassified pair stays
   * unclassified.
   */
  lemma ResolveBasicIdempotent(b: Body, wall: Rect)
    ensures ResolveBasic(ResolveBasic(b, [wall]), [wall]) == ResolveBasic(b, [wall])
  {
    assert [wall][..0] == [];
    var once := ResolveBasic(b, [wall]);
    if Overlap(b.rect, wall) {
      assert Hits(b.rect, [wall]) == [wall];
      assert once == BasicStep(b, wall) by {
        assert BasicFold(b, [wall]) == BasicStep(BasicFold(b, []), wall);
      }
      if Classify(b.rect, wall) != None {
        BasicStepSeparates(b, wall);
        assert Hits(once.rect, [wall]) == [];
      } else {
        assert once == b;
      }
    } else {
      assert Hits(b.rect, [wall]) == [];
    }
  }

  /** A player that overlaps nothing in the group is left exactly as it was. */
  lemma ResolveBasicNoHit(b: Body, group: seq<Rect>)
    requires forall g :: g in group ==> !Overlap(b.rect, g)
    ensures ResolveBasic(b, group) == b
  {
    HitsNonEmptyIff(b.rect, group);
  }

  /**
   * A player whose centre is above an obstacle's top edge, within its
   * width, and which overlaps it, lands on it: its bottom is snapped onto
   * the obstacle's top, its vertical velocity is zeroed and it is on the
   * ground, with its horizontal position and velocity kept.
   */
  lemma LandsOnTop(b: Body, wall: Rect)
    requires Overlap(b.rect, wall)
    requires b.rect.Center().y < wall.Top() && wall.Left() < b.rect.Center().x < wall.Right()
    ensures var r := ResolveBasic(b, [wall]);
      r.rect.Bottom() == wall.Top() && r.rect.x == b.rect.x && r.velY == 0 && r.onGround && r.velX == b.velX
  {
    ApproachFromAbove(b.rect, wall);
    assert [wall][..0] == [];
    assert Hits(b.rect, [wall]) == [wall];
    assert BasicFold(b, [wall]) == BasicStep(BasicFold(b, []), wall);
  }

  /**
   * A mover whose centre sits exactly on an obstacle's top-left corner lies
   * on a spoke, gets no side, and is left overlapping the obstacle: the pass
   * does not always keep the mover out of what it hits.
   */
  lemma ResolveBasicCornerStays(b: Body, s: Rect)
    requires Overlap(b.rect, s) && b.rect.Center() == s.TopLeft()
    ensures ResolveBasic(b, [s]) == b && Overlap(ResolveBasic(b, [s]).rect, s)
  {
    CornerUnclassified(b.rect, s);
    assert [s][..0] == [];
    assert Hits(b.rect, [s]) == [s];
    assert BasicFold(b, [s]) == BasicStep(BasicFold(b, []), s);
  }

  /**
   * A mover squeezed between a floor and a ceiling whose gap is less than the
   * mover's height h but more than h/2 rounded up, with its centre strictly
   * within both widths and the floor listed first in the group, ends
   * overlapping the floor and clear of the ceiling: the floor lifts it into
   * the ceiling, and the ceiling's correction then pushes it back down into
   * the floor. (For instance a 10 by 10 mover at (0, 0) between a floor whose
   * top is at 8 and a ceiling whose bottom is at 1.)
   */
  lemma ResolveBasicSqueezed(b: Body, floor: Rect, ceiling: Rect)
    requires Overlap(b.rect, floor) && Overlap(b.rect, ceiling)
    requires b.rect.Center().y < floor.Top() && floor.Left() < b.rect.Center().x < floor.Right()
    requires ceiling.Left() < b.rect.Center().x < ceiling.Right()
    requires ceiling.Top() < floor.Top() && ceiling.Bottom() < floor.Bottom()
    requires var lifted := b.rect.WithBottom(floor.Top()); lifted.Top() < ceiling.Bottom() < lifted.Center().y
    ensures Overlap(ResolveBasic(b, [floor, ceiling]).rect, floor)
    ensures !Overlap(ResolveBasic(b, [floor, ceiling]).rect, ceiling)
  {
    var hs := [floor, ceiling];
    assert hs[..1] == [floor] && [floor][..0] == [];
    assert Hits(b.rect, hs) == hs;
    assert BasicFold(b, hs) == BasicStep(BasicStep(b, floor), ceiling) by {
      assert BasicFold(b, [floor]) == BasicStep(BasicFold(b, []), floor);
    }
    ApproachFromAbove(b.rect, floor);
    var b1 := BasicStep(b, floor);
    assert b1.rect == b.rect.WithBottom(floor.Top());
    ApproachFromBelow(b1.rect, ceiling);
  }

  /**
   * The same squeeze with the ceiling listed first ends the other way round:
   * the ceiling pushes the mover down into the floor, and the floor's
   * correction lifts it back into the ceiling, so it ends overlapping the
   * ceiling and clear of the floor. (The configuration above is an instance:
   * there, the group's order alone decides which obstacle the mover ends in.)
   */
  lemma ResolveBasicSqueezedCeilingFirst(b: Body, floor: Rect, ceiling: Rect)
    requires Overlap(b.rect, floor) && Overlap(b.rect, ceiling)
    requires b.rect.Center().y > ceiling.Bottom() && ceiling.Left() < b.rect.Center().x < ceiling.Right()
    requires floor.Left() < b.rect.Center().x < floor.Right()
    requires ceiling.Top() < floor.Top()
    requires var lowered := b.rect.WithTop(ceiling.Bottom()); lowered.Center().y < floor.Top() < lowered.Bottom()
    ensures Overlap(ResolveBasic(b, [ceiling, floor]).rect, ceiling)
    ensures !Overlap(ResolveBasic(b, [ceiling, floor]).rect, floor)
  {
    var hs := [ceiling, floor];
    assert hs[..1] == [ceiling] && [ceiling][..0] == [];
    assert Hits(b.rect, hs) == hs;
    assert BasicFold(b, hs) == BasicStep(BasicStep(b, ceiling), floor) by {
      assert BasicFold(b, [ceiling]) == BasicStep(BasicFold(b, []), ceiling);
    }
    ApproachFromBelow(b.rect, ceiling);
    var b1 := BasicStep(b, ceiling);
    assert b1.rect == b.rect.WithTop(ceiling.Bottom());
    ApproachFromAbove(b1.rect, floor);
  }

  // ---------------------------------------------------------------------
  // Directional (one-way) platforms

  /** The player's bottom lies within the tolerance band around the platform's top. */
  predicate WithinTolerance(r: Rect, platform: Rect) {
    Abs(r.Bottom() - platform.Top()) < OneWayTolerance
  }

  /**
   * One hit of the directional-platform pass: only a `bottom` classification
   * within the tolerance band acts; it lifts the player onto the platform,
   * sets it on the ground and stops downward motion, keeping upward motion.
   */
  function OneWayStep(b: Body, platform: Rect): (r: Body)
    ensures Classify(b.rect, platform) == Some(Bottom) && WithinTolerance(b.rect, platform) ==>
      r == b.(rect := r.rect, onGround := true, velY := if b.velY > 0 then 0 else b.velY) &&
      r.rect.Bottom() == platform.Top() && r.rect.x == b.rect.x &&
      r.rect.w == b.rect.w && r.rect.h == b.rect.h
    ensures !(Classify(b.rect, platform) == Some(Bottom) && WithinTolerance(b.rect, platform)) ==> r == b
  {
    if Classify(b.rect, platform) == Some(Bottom) && WithinTolerance(b.rect, platform) then
      b.(rect := b.rect.WithBottom(platform.Top()), onGround := true,
         velY := if b.velY > 0 then 0 else b.velY)
    else b
  }

  /** One step never moves the player sideways, and lifts it by less than the tolerance. */
  lemma OneWayStepLifts(b: Body, platform: Rect)
    ensures var r := OneWayStep(b, platform);
      r.rect.x == b.rect.x && r.velX == b.velX &&
      b.rect.y - OneWayTolerance < r.rect.y <= b.rect.y
  {
    if Classify(b.rect, platform) == Some(Bottom) && WithinTolerance(b.rect, platform) {
      assert Overlap(b.rect, platform);
    }
  }

  /**
   * The loop over the one-way hits. Horizontal position, horizontal
   * velocity and size never change, the player only ever moves up, and
   * vertical velocity is either kept or, when it was downward, zeroed: a
   * player jumping up through the platforms keeps its speed.
   */
  function OneWayFold(b: Body, hits: seq<Rect>): (r: Body)
    ensures r.rect.x == b.rect.x && r.rect.w == b.rect.w && r.rect.h == b.rect.h
    ensures r.velX == b.velX && r.rect.y <= b.rect.y
    ensures r.velY == b.velY || (b.velY > 0 && r.velY == 0)
    ensures b.onGround ==> r.onGround
    decreases |hits|
  {
    if hits == [] then b
    else
      var prev := OneWayFold(b, hits[..|hits| - 1]);
      OneWayStepLifts(prev, hits[|hits| - 1]);
      OneWayStep(prev, hits[|hits| - 1])
  }

  /** The directional-platform pass on one player. */
  function ResolveOneWay(b: Body, platforms: seq<Rect>): (r: Body)
    ensures r.rect.x == b.rect.x && r.rect.w == b.rect.w && r.rect.h == b.rect.h && r.rect.y <= b.rect.y
    ensures r.velX == b.velX && (r.velY == b.velY || (b.velY > 0 && r.velY == 0))
    ensures b.onGround ==> r.onGround
  {
    OneWayFold(b, Hits(b.rect, platforms))
  }

  /** A platform reached from below, or from too far below its top, leaves a single hit unchanged. */
  lemma OneWayIgnoresOutsideBand(b: Body, platform: Rect)
    requires Classify(b.rect, platform) != Some(Bottom) || !WithinTolerance(b.rect, platform)
    ensures ResolveOneWay(b, [platform]) == b
  {
    assert [platform][..0] == [];
    if Overlap(b.rect, platform) {
      assert Hits(b.rect, [platform]) == [platform];
      assert OneWayFold(b, [platform]) == OneWayStep(OneWayFold(b, []), platform);
    } else {
      assert Hits(b.rect, [platform]) == [];
    }
  }

  // ---------------------------------------------------------------------
  // Moving platforms

  /** The rectangles of the moving platforms, which the basic resolver treats as solid. */
  function PlatformRects(mps: seq<MovingPlatform>): (rs: seq<Rect>)
    ensures |rs| == |mps| && forall i :: 0 <= i < |mps| ==> rs[i] == mps[i].rect
  {
    if mps == [] then [] else PlatformRects(mps[..|mps| - 1]) + [mps[|mps| - 1].rect]
  }

  /** `spritecollide` over the moving platforms: those overlapping `r`, in group order. */
  function PlatformHits(r: Rect, mps: seq<MovingPlatform>): (hs: seq<MovingPlatform>)
    ensures |hs| <= |mps|
  {
    if mps == [] then []
    else
      var last := mps[|mps| - 1];
      PlatformHits(r, mps[..|mps| - 1]) + (if Overlap(r, last.rect) then [last] else [])
  }

  /** The moving-platform hits are the platforms whose rectangles `Hits` finds, in the same order. */
  lemma {:induction false} PlatformHitsAreHits(r: Rect, mps: seq<MovingPlatform>)
    ensures PlatformRects(PlatformHits(r, mps)) == Hits(r, PlatformRects(mps))
  {
    if mps != [] {
      var init, last := mps[..|mps| - 1], mps[|mps| - 1];
      PlatformHitsAreHits(r, init);
      var rs := PlatformRects(mps);
      assert rs[..|rs| - 1] == PlatformRects(init);
      var extra := if Overlap(r, last.rect) then [last] else [];
      var hs := PlatformHits(r, init);
      assert PlatformRects(hs + extra) == PlatformRects(hs) + PlatformRects(extra);
    }
  }

  /** The moving-platform hits are exactly the platforms overlapping `r`. */
  lemma {:induction false} PlatformHitsMembers(r: Rect, mps: seq<MovingPlatform>)
    ensures forall h :: h in PlatformHits(r, mps) <==> h in mps && Overlap(r, h.rect)
  {
    if mps != [] {
      var init := mps[..|mps| - 1];
      PlatformHitsMembers(r, init);
      assert mps == init + [mps[|mps| - 1]];
    }
  }

  /** The sum of the platforms' `(dx, dy)`. */
  function SumDisplacement(hs: seq<MovingPlatform>): Vec {
    if hs == [] then Vec(0, 0)
    else
      var rest := SumDisplacement(hs[..|hs| - 1]);
      Vec(rest.x + hs[|hs| - 1].dx, rest.y + hs[|hs| - 1].dy)
  }

  /**
   * The displacement a player at `r` is carried by: the sum of `(dx, dy)`
   * over every moving platform it overlaps.
   */
  function Carry(r: Rect, mps: seq<MovingPlatform>): Vec {
    SumDisplacement(PlatformHits(r, mps))
  }

  /** A player touching no moving platform is not carried. */
  lemma NoContactNoCarry(r: Rect, mps: seq<MovingPlatform>)
    requires forall i :: 0 <= i < |mps| ==> !Overlap(r, mps[i].rect)
    ensures Carry(r, mps) == Vec(0, 0)
  {
    NoPlatformHits(r, mps);
  }

  /**
   * A player touching exactly one moving platform is carried by exactly
   * that platform's displacement.
   */
  lemma {:induction false} CarryByOnlyHit(r: Rect, mps: seq<MovingPlatform>, k: nat)
    requires k < |mps| && Overlap(r, mps[k].rect)
    requires forall i :: 0 <= i < |mps| && i != k ==> !Overlap(r, mps[i].rect)
    ensures PlatformHits(r, mps) == [mps[k]]
    ensures Carry(r, mps) == Vec(mps[k].dx, mps[k].dy)
  {
    var init := mps[..|mps| - 1];
    assert forall i :: 0 <= i < |init| ==> init[i] == mps[i];
    if k == |mps| - 1 {
      assert PlatformHits(r, init) == [] by {
        NoPlatformHits(r, init);
      }
    } else {
      CarryByOnlyHit(r, init, k);
    }
    assert [mps[k]][..0] == [];
    assert SumDisplacement([mps[k]]) == Vec(mps[k].dx, mps[k].dy);
  }

  lemma {:induction false} NoPlatformHits(r: Rect, mps: seq<MovingPlatform>)
    requires forall i :: 0 <= i < |mps| ==> !Overlap(r, mps[i].rect)
    ensures PlatformHits(r, mps) == []
  {
    if mps != [] {
      NoPlatformHits(r, mps[..|mps| - 1]);
    }
  }
}
