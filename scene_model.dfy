/**
 * The collision engine's passes over a whole scene, as functions on a value
 * snapshot of everything they read and write: the players, the obstacle
 * groups, the scene's size, the messages sent to the scene and the audio
 * cue. `Frame` is one call of `update`, `HandleEvent` one call of
 * `eventHandler`.
 */
module SceneModel {
  import opened Wrappers
  import opened Rects
  import opened Direction
  import opened Resolve

  datatype Switch = Switch(rect: Rect, isOn: bool)
  datatype Door = Door(rect: Rect, isClosed: bool)

  /** What `messageScene` is called with: `("death", player.num)` or `("complete")`. */
  datatype Message = Death(num: int) | Complete

  /**
   * A player as the engine sees it: its number, its co-op jump key, its body,
   * and the two accumulators that `physics.addDisplacementX/Y("platform", ...)`
   * and `physics.addVelocityX/Y("collision", ...)` add to.
   */
  datatype PlayerState = PlayerState(num: int, coopJumpKey: int, body: Body, disp: Vec, impulse: Vec)

  datatype World = World(
    players: seq<PlayerState>,
    walls: seq<Rect>,
    sPlatforms: seq<Rect>,
    dPlatforms: seq<Rect>,
    mPlatforms: seq<MovingPlatform>,
    switches: seq<Switch>,
    doors: seq<Door>,
    spikes: seq<Rect>,
    bosses: seq<Rect>,
    width: nat,
    height: nat,
    sent: seq<Message>,
    explosionCue: bool)

  /** A key press, or any other input event. */
  datatype Event = KeyDown(key: int) | OtherEvent

  /** `pg.K_RETURN` */
  const KeyReturn := 13
  /** The speed `eventHandler` passes to `resolvePlayerCollisions`. */
  const CoopExplosionSpeed := 30
  /** How far beyond the scene a player may go before it has fallen out. */
  const BoundaryMargin := 1000

  function MapPlayers(ps: seq<PlayerState>, f: PlayerState -> PlayerState): (r: seq<PlayerState>)
    ensures |r| == |ps| && forall i :: 0 <= i < |ps| ==> r[i] == f(ps[i])
  {
    seq(|ps|, i requires 0 <= i < |ps| => f(ps[i]))
  }

  /** The players are the same players, in the same order; only their bodies may differ. */
  predicate OnlyBodiesChange(ps: seq<PlayerState>, qs: seq<PlayerState>) {
    |qs| == |ps| && forall i :: 0 <= i < |ps| ==> qs[i] == ps[i].(body := qs[i].body)
  }

  /** Only the players' bodies and platform displacements may differ. */
  predicate OnlyBodiesAndCarryChange(ps: seq<PlayerState>, qs: seq<PlayerState>) {
    |qs| == |ps| && forall i :: 0 <= i < |ps| ==> qs[i] == ps[i].(body := qs[i].body, disp := qs[i].disp)
  }

  /** Only the players' collision impulses may differ. */
  predicate OnlyImpulsesChange(ps: seq<PlayerState>, qs: seq<PlayerState>) {
    |qs| == |ps| && forall i :: 0 <= i < |ps| ==> qs[i] == ps[i].(impulse := qs[i].impulse)
  }

  // ---------------------------------------------------------------------
  // Solid obstacles and platforms

  /** `resolveWallCollisions` */
  function WallPass(w: World): (r: World)
    ensures r == w.(players := r.players) && OnlyBodiesChange(w.players, r.players)
  {
    w.(players := MapPlayers(w.players, (p: PlayerState) => p.(body := ResolveBasic(p.body, w.walls))))
  }

  /** `resolveSPlatformCollisions` */
  function SPlatformPass(w: World): (r: World)
    ensures r == w.(players := r.players) && OnlyBodiesChange(w.players, r.players)
  {
    w.(players := MapPlayers(w.players, (p: PlayerState) => p.(body := ResolveBasic(p.body, w.sPlatforms))))
  }

  /** `resolveDPlatformCollisions` */
  function DPlatformPass(w: World): (r: World)
    ensures r == w.(players := r.players) && OnlyBodiesChange(w.players, r.players)
  {
    w.(players := MapPlayers(w.players, (p: PlayerState) => p.(body := ResolveOneWay(p.body, w.dPlatforms))))
  }

  /**
   * `resolveMPlatformCollisions`: the hits are taken before the basic
   * resolver runs, so the carry is that of the rectangle the player had
   * when the pass reached it.
   */
  function MovingPlayer(p: PlayerState, mps: seq<MovingPlatform>): (r: PlayerState)
    ensures r == p.(body := r.body, disp := r.disp)
    ensures r.body.rect.w == p.body.rect.w && r.body.rect.h == p.body.rect.h
  {
    var c := Carry(p.body.rect, mps);
    p.(body := ResolveBasic(p.body, PlatformRects(mps)), disp := Vec(p.disp.x + c.x, p.disp.y + c.y))
  }

  /**
   * A player overlapping exactly one moving platform is carried by that
   * platform's `(dx, dy)`, even when the solid correction then moves it
   * off the platform; nothing but its body and displacement changes.
   */
  lemma MovingPlayerCarriedBeforeCorrection(p: PlayerState, mps: seq<MovingPlatform>, k: nat)
    requires k < |mps| && Overlap(p.body.rect, mps[k].rect)
    requires forall i :: 0 <= i < |mps| && i != k ==> !Overlap(p.body.rect, mps[i].rect)
    ensures var r := MovingPlayer(p, mps);
      r.disp == Vec(p.disp.x + mps[k].dx, p.disp.y + mps[k].dy) &&
      r == p.(body := r.body, disp := r.disp)
  {
    CarryByOnlyHit(p.body.rect, mps, k);
  }

  /** `resolveMPlatformCollisions` */
  function MPlatformPass(w: World): (r: World)
    ensures r == w.(players := r.players) && OnlyBodiesAndCarryChange(w.players, r.players)
  {
    w.(players := MapPlayers(w.players, (p: PlayerState) => MovingPlayer(p, w.mPlatforms)))
  }

  // ---------------------------------------------------------------------
  // Switches

  predicate Moving(b: Body) { b.velX != 0 || b.velY != 0 }

  /**
   * The inner loop of `resolveSwitchCollisions` for one switch: every
   * player that overlaps it while moving turns it off.
   */
  function TurnOffs(s: Switch, ps: seq<PlayerState>): (r: Switch)
    ensures r.rect == s.rect
    ensures r.isOn <==> s.isOn && forall i :: 0 <= i < |ps| ==> !(Overlap(ps[i].body.rect, s.rect) && Moving(ps[i].body))
  {
    if ps == [] then s
    else
      var prev := TurnOffs(s, ps[..|ps| - 1]);
      var p := ps[|ps| - 1];
      if Overlap(p.body.rect, s.rect) && Moving(p.body) then prev.(isOn := false) else prev
  }

  /** Only the switches that are on when the pass starts are looked at. */
  function SwitchAfter(s: Switch, ps: seq<PlayerState>): Switch {
    if s.isOn then TurnOffs(s, ps) else s
  }

  /** `resolveSwitchCollisions` */
  function SwitchPass(w: World): (r: World)
    ensures r == w.(switches := r.switches) && |r.switches| == |w.switches|
    ensures forall i :: 0 <= i < |w.switches| ==>
      r.switches[i].rect == w.switches[i].rect && (r.switches[i].isOn ==> w.switches[i].isOn)
  {
    w.(switches := seq(|w.switches|, i requires 0 <= i < |w.switches| => SwitchAfter(w.switches[i], w.players)))
  }

  /**
   * An on switch is turned off exactly when some player overlaps it with a
   * non-zero velocity; an off switch stays off; no switch moves.
   */
  lemma SwitchPassIff(w: World, i: int)
    requires 0 <= i < |w.switches|
    ensures |SwitchPass(w).switches| == |w.switches|
    ensures SwitchPass(w).switches[i].rect == w.switches[i].rect
    ensures SwitchPass(w).switches[i].isOn <==>
      w.switches[i].isOn &&
      forall k :: 0 <= k < |w.players| ==> !(Overlap(w.players[k].body.rect, w.switches[i].rect) && Moving(w.players[k].body))
  {
  }

  // ---------------------------------------------------------------------
  // Messages to the scene

  /**
   * `resolveSpikeCollisions` and `resolveBossCollisions`: one death per
   * player, in player order, for each player overlapping some hazard.
   */
  function HazardDeaths(ps: seq<PlayerState>, hazards: seq<Rect>): (ms: seq<Message>)
    ensures |ms| <= |ps| && Complete !in ms
  {
    if ps == [] then []
    else HazardDeaths(ps[..|ps| - 1], hazards) + HazardDeath(ps[|ps| - 1], hazards)
  }

  /** What one player adds: its death when it has hit a hazard. */
  function HazardDeath(p: PlayerState, hazards: seq<Rect>): seq<Message> {
    if TouchesAny(p.body.rect, hazards) then [Death(p.num)] else []
  }

  /** Player `n` is reported dead exactly when some player numbered `n` touches a hazard. */
  lemma HazardDeathsIff(ps: seq<PlayerState>, hazards: seq<Rect>, n: int)
    ensures Death(n) in HazardDeaths(ps, hazards) <==>
      exists i :: 0 <= i < |ps| && ps[i].num == n && TouchesAny(ps[i].body.rect, hazards)
  {
    if Death(n) in HazardDeaths(ps, hazards) {
      var i := HazardDeathsSound(ps, hazards, n);
    }
    if exists i :: 0 <= i < |ps| && ps[i].num == n && TouchesAny(ps[i].body.rect, hazards) {
      var i :| 0 <= i < |ps| && ps[i].num == n && TouchesAny(ps[i].body.rect, hazards);
      HazardDeathsComplete(ps, hazards, i);
    }
  }

  /** Every reported death names a player that touches a hazard. */
  lemma {:induction false} HazardDeathsSound(ps: seq<PlayerState>, hazards: seq<Rect>, n: int) returns (i: int)
    requires Death(n) in HazardDeaths(ps, hazards)
    ensures 0 <= i < |ps| && ps[i].num == n && TouchesAny(ps[i].body.rect, hazards)
  {
    HazardDeathsLast(ps, hazards, n);
    var init := ps[..|ps| - 1];
    if Death(n) in HazardDeaths(init, hazards) {
      i := HazardDeathsSound(init, hazards, n);
      assert ps[i] == init[i];
    } else {
      i := |ps| - 1;
    }
  }

  /** Every player touching a hazard is reported dead. */
  lemma {:induction false} HazardDeathsComplete(ps: seq<PlayerState>, hazards: seq<Rect>, i: int)
    requires 0 <= i < |ps| && TouchesAny(ps[i].body.rect, hazards)
    ensures Death(ps[i].num) in HazardDeaths(ps, hazards)
  {
    var init, n := ps[..|ps| - 1], ps[i].num;
    HazardDeathsLast(ps, hazards, n);
    if i < |init| {
      assert init[i] == ps[i];
      HazardDeathsComplete(init, hazards, i);
      assert Death(n) in HazardDeaths(init, hazards);
    } else {
      assert ps[|ps| - 1] == ps[i];
    }
  }

  /** The last player is reported dead exactly when it touches a hazard. */
  lemma HazardDeathsLast(ps: seq<PlayerState>, hazards: seq<Rect>, n: int)
    requires ps != []
    ensures Death(n) in HazardDeaths(ps, hazards) <==>
      Death(n) in HazardDeaths(ps[..|ps| - 1], hazards) ||
      (ps[|ps| - 1].num == n && TouchesAny(ps[|ps| - 1].body.rect, hazards))
  {
  }

  /** Adding a player to the end adds at most its own death. */
  lemma HazardDeathsStep(ps: seq<PlayerState>, i: int, hazards: seq<Rect>)
    requires 0 <= i < |ps|
    ensures HazardDeaths(ps[..i + 1], hazards) == HazardDeaths(ps[..i], hazards) + HazardDeath(ps[i], hazards)
  {
    assert ps[..i + 1][..i] == ps[..i];
  }

  function SpikePass(w: World): (r: World)
    ensures r == w.(sent := r.sent) && w.sent <= r.sent && Complete !in r.sent[|w.sent|..]
  {
    w.(sent := w.sent + HazardDeaths(w.players, w.spikes))
  }

  function BossPass(w: World): (r: World)
    ensures r == w.(sent := r.sent) && w.sent <= r.sent && Complete !in r.sent[|w.sent|..]
  {
    w.(sent := w.sent + HazardDeaths(w.players, w.bosses))
  }

  /** `pg.Rect(-1000, -1000, w+2000, h+2000)` from the scene's size. */
  function Boundary(w: World): Rect {
    Rect(-BoundaryMargin, -BoundaryMargin, w.width + 2 * BoundaryMargin, w.height + 2 * BoundaryMargin)
  }

  /** `resolveBoundaryCollision`: one death per player not contained in the boundary. */
  function BoundaryDeaths(ps: seq<PlayerState>, boundary: Rect): (ms: seq<Message>)
    ensures |ms| <= |ps| && Complete !in ms
  {
    if ps == [] then []
    else BoundaryDeaths(ps[..|ps| - 1], boundary) + BoundaryDeath(ps[|ps| - 1], boundary)
  }

  /** What one player adds: its death when it is not inside the boundary. */
  function BoundaryDeath(p: PlayerState, boundary: Rect): seq<Message> {
    if !Contains(boundary, p.body.rect) then [Death(p.num)] else []
  }

  /** Player `n` is reported dead exactly when some player numbered `n` is not inside the boundary. */
  lemma {:induction false} BoundaryDeathsIff(ps: seq<PlayerState>, boundary: Rect, n: int)
    ensures Death(n) in BoundaryDeaths(ps, boundary) <==>
      exists i :: 0 <= i < |ps| && ps[i].num == n && !Contains(boundary, ps[i].body.rect)
  {
    if ps != [] {
      var init, p := ps[..|ps| - 1], ps[|ps| - 1];
      BoundaryDeathsIff(init, boundary, n);
      assert forall i :: 0 <= i < |init| ==> init[i] == ps[i];
    }
  }

  /** Adding a player to the end adds at most its own death. */
  lemma BoundaryDeathsStep(ps: seq<PlayerState>, i: int, boundary: Rect)
    requires 0 <= i < |ps|
    ensures BoundaryDeaths(ps[..i + 1], boundary) == BoundaryDeaths(ps[..i], boundary) + BoundaryDeath(ps[i], boundary)
  {
    assert ps[..i + 1][..i] == ps[..i];
  }

  function BoundaryPass(w: World): (r: World)
    ensures r == w.(sent := r.sent) && w.sent <= r.sent && Complete !in r.sent[|w.sent|..]
  {
    w.(sent := w.sent + BoundaryDeaths(w.players, Boundary(w)))
  }

  /**
   * A player anywhere inside `Rect(0, 0, w, h)` is inside the boundary, which
   * is anchored at (-1000, -1000) whatever the scene rectangle's position.
   */
  lemma InsideSceneSurvives(w: World)
    requires forall i :: 0 <= i < |w.players| ==>
      var r := w.players[i].body.rect;
      0 <= r.Left() && r.Right() <= w.width && 0 <= r.Top() && r.Bottom() <= w.height
    ensures BoundaryPass(w).sent == w.sent
  {
    assert BoundaryDeaths(w.players, Boundary(w)) == [] by {
      AllContainedNoDeaths(w.players, Boundary(w));
    }
  }

  lemma {:induction false} AllContainedNoDeaths(ps: seq<PlayerState>, boundary: Rect)
    requires forall i :: 0 <= i < |ps| ==> Contains(boundary, ps[i].body.rect)
    ensures BoundaryDeaths(ps, boundary) == []
  {
    if ps != [] {
      AllContainedNoDeaths(ps[..|ps| - 1], boundary);
    }
  }

  /** A player lying entirely outside the boundary is reported dead. */
  lemma OutsideBoundaryDies(w: World, i: int)
    requires 0 <= i < |w.players| && !Overlap(Boundary(w), w.players[i].body.rect)
    ensures Death(w.players[i].num) in BoundaryPass(w).sent
  {
    var r := w.players[i].body.rect;
    assert !Contains(Boundary(w), r);
    BoundaryDeathsIff(w.players, Boundary(w), w.players[i].num);
  }

  /** The rectangles of the doors. */
  function DoorRects(ds: seq<Door>): (rs: seq<Rect>)
    ensures |rs| == |ds| && forall i :: 0 <= i < |ds| ==> rs[i] == ds[i].rect
  {
    seq(|ds|, i requires 0 <= i < |ds| => ds[i].rect)
  }

  /** `[d for d in self.scene.doors if d.isClosed]` is empty. */
  predicate AllDoorsOpen(ds: seq<Door>) {
    forall i :: 0 <= i < |ds| ==> !ds[i].isClosed
  }

  /** The players overlapping at least one door, in player order. */
  function OnDoor(ps: seq<PlayerState>, ds: seq<Door>): (on: seq<PlayerState>)
    ensures |on| <= |ps|
    ensures forall p :: p in on <==> p in ps && exists i :: 0 <= i < |ds| && Overlap(p.body.rect, ds[i].rect)
  {
    if ps == [] then []
    else
      var p := ps[|ps| - 1];
      OnDoor(ps[..|ps| - 1], ds) +
        (if exists i :: 0 <= i < |ds| && Overlap(p.body.rect, ds[i].rect) then [p] else [])
  }

  /**
   * `resolveDoorCollisions`: for each player, `complete` when it overlaps a
   * door and no door is closed. Any closed door silences every player; with
   * all doors open there is one message per player on a door.
   */
  function DoorCompletions(ps: seq<PlayerState>, ds: seq<Door>): (ms: seq<Message>)
    ensures !AllDoorsOpen(ds) ==> ms == []
    ensures forall m :: m in ms ==> m == Complete
  {
    if ps == [] then []
    else DoorCompletions(ps[..|ps| - 1], ds) + DoorCompletion(ps[|ps| - 1], ds)
  }

  /** What one player adds: `complete` when it is on a door and every door is open. */
  function DoorCompletion(p: PlayerState, ds: seq<Door>): seq<Message> {
    if TouchesAny(p.body.rect, DoorRects(ds)) && AllDoorsOpen(ds) then [Complete] else []
  }

  /** With every door open, there is one `complete` per player on a door. */
  lemma {:induction false} DoorCompletionsCount(ps: seq<PlayerState>, ds: seq<Door>)
    requires AllDoorsOpen(ds)
    ensures |DoorCompletions(ps, ds)| == |OnDoor(ps, ds)|
  {
    if ps != [] {
      var p := ps[|ps| - 1];
      DoorCompletionsCount(ps[..|ps| - 1], ds);
      assert TouchesAny(p.body.rect, DoorRects(ds)) <==> exists i :: 0 <= i < |ds| && Overlap(p.body.rect, ds[i].rect) by {
        if TouchesAny(p.body.rect, DoorRects(ds)) {
          var h :| h in DoorRects(ds) && Overlap(p.body.rect, h);
          var i :| 0 <= i < |ds| && DoorRects(ds)[i] == h;
        }
        if i :| 0 <= i < |ds| && Overlap(p.body.rect, ds[i].rect) {
          assert DoorRects(ds)[i] in DoorRects(ds);
        }
      }
    }
  }

  /** Adding a player to the end adds at most one `complete`. */
  lemma DoorCompletionsStep(ps: seq<PlayerState>, i: int, ds: seq<Door>)
    requires 0 <= i < |ps|
    ensures DoorCompletions(ps[..i + 1], ds) == DoorCompletions(ps[..i], ds) + DoorCompletion(ps[i], ds)
  {
    assert ps[..i + 1][..i] == ps[..i];
  }

  function DoorPass(w: World): (r: World)
    ensures r == w.(sent := r.sent) && w.sent <= r.sent
    ensures !AllDoorsOpen(w.doors) ==> r == w
  {
    w.(sent := w.sent + DoorCompletions(w.players, w.doors))
  }

  // ---------------------------------------------------------------------
  // The co-op explosion

  /**
   * `resolvePlayerCollisions(speed)`: with exactly two overlapping players,
   * both get an upward impulse of `speed`, and they are pushed apart
   * horizontally, the first player towards the negative side unless the
   * second is not strictly to its right. Anything else changes nothing.
   */
  function ExplosionPass(w: World, speed: int): (r: World)
    ensures r == w.(players := r.players) && OnlyImpulsesChange(w.players, r.players)
  {
    if |w.players| == 2 && Overlap(w.players[0].body.rect, w.players[1].body.rect) then
      var p1, p2 := w.players[0], w.players[1];
      var push := if p2.body.rect.x > p1.body.rect.x then -speed else speed;
      w.(players := [p1.(impulse := Vec(p1.impulse.x + push, p1.impulse.y - speed)),
                     p2.(impulse := Vec(p2.impulse.x - push, p2.impulse.y - speed))])
    else w
  }

  /**
   * The explosion gives both players the same upward impulse and opposite
   * horizontal ones, pushing the right-hand player (the second one when
   * strictly to the right, else the first) to the right; nothing else
   * about them changes.
   */
  lemma ExplosionPushesApart(w: World, speed: int)
    requires |w.players| == 2 && Overlap(w.players[0].body.rect, w.players[1].body.rect)
    ensures var r := ExplosionPass(w, speed);
      var p1, p2, q1, q2 := w.players[0], w.players[1], r.players[0], r.players[1];
      var d1, d2 := q1.impulse.x - p1.impulse.x, q2.impulse.x - p2.impulse.x;
      |r.players| == 2 &&
      q1.impulse.y == p1.impulse.y - speed && q2.impulse.y == p2.impulse.y - speed &&
      d1 + d2 == 0 &&
      (p2.body.rect.x > p1.body.rect.x ==> d2 == speed) &&
      (p2.body.rect.x <= p1.body.rect.x ==> d1 == speed) &&
      q1 == p1.(impulse := q1.impulse) && q2 == p2.(impulse := q2.impulse)
  {
  }

  /** The explosion written out for a given pair of players. */
  lemma ExplosionOfPair(w: World, speed: int, q1: PlayerState, q2: PlayerState, push: int)
    requires w.players == [q1, q2] && Overlap(q1.body.rect, q2.body.rect)
    requires push == if q2.body.rect.x > q1.body.rect.x then -speed else speed
    ensures ExplosionPass(w, speed) == w.(players := [q1.(impulse := Vec(q1.impulse.x + push, q1.impulse.y - speed)),
                                                      q2.(impulse := Vec(q2.impulse.x - push, q2.impulse.y - speed))])
  {
  }

  /** Without exactly two overlapping players the explosion does nothing, and raises nothing. */
  lemma ExplosionNeedsTwoOverlapping(w: World, speed: int)
    requires |w.players| != 2 || !Overlap(w.players[0].body.rect, w.players[1].body.rect)
    ensures ExplosionPass(w, speed) == w
  {
  }

  // ---------------------------------------------------------------------
  // `eventHandler` and `update`

  /** The co-op jump applies: exactly two players, and the key is one of theirs. */
  predicate CoopJump(w: World, key: int) {
    |w.players| == 2 && (key == w.players[0].coopJumpKey || key == w.players[1].coopJumpKey)
  }

  /**
   * `eventHandler`: on a key press, Return resolves the doors; then, if
   * there are exactly two players (the unpacking raises `ValueError`
   * otherwise, which is swallowed) and the key is either player's co-op
   * jump key, the explosion is resolved and the audio cue is set, whether
   * or not the players overlap.
   */
  function HandleEvent(w: World, e: Event): (r: World)
    ensures r == w.(players := r.players, sent := r.sent, explosionCue := r.explosionCue)
    ensures w.sent <= r.sent && (w.explosionCue ==> r.explosionCue)
  {
    match e
    case OtherEvent => w
    case KeyDown(key) =>
      var w1 := if key == KeyReturn then DoorPass(w) else w;
      if CoopJump(w1, key) then
        ExplosionPass(w1, CoopExplosionSpeed).(explosionCue := true)
      else w1
  }

  /**
   * An event sends messages only through Return (the door pass), sets the
   * audio cue exactly on a co-op jump, touches the players only on a co-op
   * jump, and changes nothing else; any event but a key press is ignored.
   */
  lemma HandleEventEffect(w: World, e: Event)
    ensures e.OtherEvent? ==> HandleEvent(w, e) == w
    ensures e.KeyDown? ==>
      var r := HandleEvent(w, e);
      r.sent == w.sent + (if e.key == KeyReturn then DoorCompletions(w.players, w.doors) else []) &&
      (r.explosionCue <==> w.explosionCue || CoopJump(w, e.key)) &&
      r.players == (if CoopJump(w, e.key) then ExplosionPass(w, CoopExplosionSpeed).players else w.players) &&
      r == w.(players := r.players, sent := r.sent, explosionCue := r.explosionCue)
  {
    if e.KeyDown? {
      var w1 := if e.key == KeyReturn then DoorPass(w) else w;
      assert w1 == w.(sent := w1.sent);
      assert CoopJump(w1, e.key) == CoopJump(w, e.key);
      if e.key != KeyReturn {
        assert w.sent + [] == w.sent;
      }
    }
  }

  /**
   * Pressing Return while every door is open and some player overlaps a
   * door completes the level.
   */
  lemma ReturnOnOpenDoorCompletes(w: World, i: int, j: int)
    requires AllDoorsOpen(w.doors)
    requires 0 <= i < |w.players| && 0 <= j < |w.doors| && Overlap(w.players[i].body.rect, w.doors[j].rect)
    ensures Complete in HandleEvent(w, KeyDown(KeyReturn)).sent
  {
    HandleEventEffect(w, KeyDown(KeyReturn));
    DoorCompletionsCount(w.players, w.doors);
    assert w.players[i] in OnDoor(w.players, w.doors);
    var ms := DoorCompletions(w.players, w.doors);
    assert ms[0] in ms;
    assert ms[0] in w.sent + ms;
  }

  /** The first half of `update`: the passes that move players and switch switches. */
  function Settle(w: World): World {
    MPlatformPass(DPlatformPass(SPlatformPass(SwitchPass(WallPass(w)))))
  }

  /** The second half of `update`: the passes that report deaths. */
  function Report(w: World): World {
    BoundaryPass(BossPass(SpikePass(w)))
  }

  /** `update`: the per-frame passes in their fixed order. */
  function Frame(w: World): (r: World)
    ensures r == w.(players := r.players, switches := r.switches, sent := r.sent)
    ensures |r.players| == |w.players| && |r.switches| == |w.switches| && w.sent <= r.sent
  {
    Report(Settle(w))
  }

  /** The state of one player after a frame: walls, static, one-way and moving platforms, in that order. */
  function FramePlayer(p: PlayerState, w: World): PlayerState {
    var b1 := ResolveBasic(p.body, w.walls);
    var b2 := ResolveBasic(b1, w.sPlatforms);
    var b3 := ResolveOneWay(b2, w.dPlatforms);
    MovingPlayer(p.(body := b3), w.mPlatforms)
  }

  /**
   * A frame resolves each player through the solid groups in priority
   * order: walls, static platforms, one-way platforms, moving platforms.
   */
  lemma FramePlayers(w: World)
    ensures |Frame(w).players| == |w.players|
    ensures forall i :: 0 <= i < |w.players| ==> Frame(w).players[i] == FramePlayer(w.players[i], w)
  {
    var w1 := WallPass(w);
    var w2 := SwitchPass(w1);
    var w3 := SPlatformPass(w2);
    var w4 := DPlatformPass(w3);
    var w5 := MPlatformPass(w4);
    assert Frame(w).players == w5.players by {
      assert SpikePass(w5).players == w5.players;
      assert BossPass(SpikePass(w5)).players == w5.players;
    }
    assert w2.players == w1.players;
    assert w4.mPlatforms == w.mPlatforms && w3.dPlatforms == w.dPlatforms && w2.sPlatforms == w.sPlatforms;
    forall i | 0 <= i < |w.players|
      ensures Frame(w).players[i] == FramePlayer(w.players[i], w)
    {
      var p := w.players[i];
      var b1 := ResolveBasic(p.body, w.walls);
      var b2 := ResolveBasic(b1, w.sPlatforms);
      var b3 := ResolveOneWay(b2, w.dPlatforms);
      assert w1.players[i] == p.(body := b1);
      assert w3.players[i] == p.(body := b2);
      assert w4.players[i] == p.(body := b3);
      assert w5.players[i] == MovingPlayer(p.(body := b3), w.mPlatforms);
    }
  }

  /**
   * A frame sends, after what was already sent, the spike deaths, then the
   * boss deaths, then the boundary deaths, all judged on the players' final
   * positions; it never sends `complete`.
   */
  lemma FrameMessages(w: World)
    ensures var r := Frame(w);
      r.sent == w.sent + HazardDeaths(r.players, w.spikes) + HazardDeaths(r.players, w.bosses) +
                BoundaryDeaths(r.players, Boundary(w)) &&
      Complete !in r.sent[|w.sent|..]
  {
    var v := Settle(w);
    assert Frame(w) == Report(v);
    SettleKeepsReportInputs(w);
    ReportSent(v);
  }

  /** The first half of a frame leaves the log and everything the second half reads, but the players, alone. */
  lemma SettleKeepsReportInputs(w: World)
    ensures var v := Settle(w);
      v.sent == w.sent && v.spikes == w.spikes && v.bosses == w.bosses && Boundary(v) == Boundary(w)
  {
  }

  /** The reporting passes keep the players and append their deaths, in order. */
  lemma ReportSent(v: World)
    ensures var ms1, ms2, ms3 := HazardDeaths(v.players, v.spikes), HazardDeaths(v.players, v.bosses), BoundaryDeaths(v.players, Boundary(v));
      var r := Report(v);
      r.players == v.players && r.sent == v.sent + ms1 + ms2 + ms3 && r.sent[|v.sent|..] == ms1 + ms2 + ms3 &&
      Complete !in ms1 + ms2 + ms3
  {
    var ms1, ms2, ms3 := HazardDeaths(v.players, v.spikes), HazardDeaths(v.players, v.bosses), BoundaryDeaths(v.players, Boundary(v));
    var v7 := BossPass(SpikePass(v));
    assert v7.players == v.players && v7.sent == v.sent + ms1 + ms2;
    assert Boundary(v7) == Boundary(v);
    assert Report(v).sent == v.sent + ms1 + ms2 + ms3;
  }

  /** The reporting passes change nothing but the log. */
  lemma ReportKeepsAllButLog(v: World)
    ensures Report(v) == v.(sent := Report(v).sent)
  {
    var v6 := SpikePass(v);
    assert v6 == v.(sent := v6.sent);
    var v7 := BossPass(v6);
    assert v7 == v.(sent := v7.sent);
    assert Boundary(v7) == Boundary(v);
  }

  /**
   * A frame lets the switches see the positions left by the walls, and
   * leaves the obstacle groups, the scene's size and the audio cue alone.
   */
  lemma FrameKeepsScene(w: World)
    ensures var r := Frame(w);
      var w5 := Settle(w);
      w5 == w.(players := w5.players, switches := w5.switches) &&
      r.switches == SwitchPass(WallPass(w)).switches &&
      r == w.(players := r.players, switches := r.switches, sent := r.sent)
  {
    var w2 := SwitchPass(WallPass(w));
    var w5 := Settle(w);
    assert w5 == w.(players := w5.players, switches := w2.switches);
    ReportKeepsAllButLog(w5);
  }

  /** A frame never turns a switch on, nor moves one. */
  lemma FrameSwitchesOnlyTurnOff(w: World, i: int)
    requires 0 <= i < |w.switches|
    ensures |Frame(w).switches| == |w.switches|
    ensures Frame(w).switches[i].rect == w.switches[i].rect
    ensures Frame(w).switches[i].isOn ==> w.switches[i].isOn
  {
    FrameKeepsScene(w);
    SwitchPassIff(WallPass(w), i);
  }
}
