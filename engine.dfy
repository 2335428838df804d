/**
 * The collision engine as the game runs it: players are objects whose
 * rectangle, velocity, ground flag and physics accumulators the resolvers
 * update in place, the scene holds the obstacle groups, and the engine
 * keeps the log of messages it has sent to the scene.
 *
 * Every pass method is proved against its `SceneModel` function
 * (`ResolveWallCollisions` against `WallPass`, `EventHandler` against
 * `HandleEvent`, `Update` against `Frame`, and so on): the snapshot of the
 * state after the call is that function applied to the snapshot before it.
 * The per-player and per-hit methods are proved against the `Resolve` and
 * `SceneModel` step functions they carry out.
 */
module Engine {
  import opened Wrappers
  import opened Rects
  import opened Direction
  import opened Resolve
  import opened SceneModel

  /**
   * A player sprite: the fields the engine touches. `physics` is reduced to
   * the velocity and the two accumulators the engine adds to.
   */
  class Player {
    const num: int
    const coopJumpKey: int
    var rect: Rect
    var velX: int
    var velY: int
    var isOnGround: bool
    var dispX: int
    var dispY: int
    var impulseX: int
    var impulseY: int

    constructor (num: int, coopJumpKey: int, rect: Rect)
      ensures State() == PlayerState(num, coopJumpKey, Body(rect, 0, 0, false), Vec(0, 0), Vec(0, 0))
    {
      this.num := num;
      this.coopJumpKey := coopJumpKey;
      this.rect := rect;
      velX, velY, isOnGround := 0, 0, false;
      dispX, dispY, impulseX, impulseY := 0, 0, 0, 0;
    }

    function Motion(): Body
      reads this
    {
      Body(rect, velX, velY, isOnGround)
    }

    function State(): PlayerState
      reads this
    {
      PlayerState(num, coopJumpKey, Motion(), Vec(dispX, dispY), Vec(impulseX, impulseY))
    }

    /** `physics.addDisplacementX("platform", d)` */
    method AddDisplacementX(d: int)
      modifies this
      ensures State() == old(State()).(disp := Vec(old(dispX) + d, old(dispY)))
    {
      dispX := dispX + d;
    }

    /** `physics.addDisplacementY("platform", d)` */
    method AddDisplacementY(d: int)
      modifies this
      ensures State() == old(State()).(disp := Vec(old(dispX), old(dispY) + d))
    {
      dispY := dispY + d;
    }

    /** `physics.addVelocityX("collision", v)` */
    method AddVelocityX(v: int)
      modifies this
      ensures State() == old(State()).(impulse := Vec(old(impulseX) + v, old(impulseY)))
    {
      impulseX := impulseX + v;
    }

    /** `physics.addVelocityY("collision", v)` */
    method AddVelocityY(v: int)
      modifies this
      ensures State() == old(State()).(impulse := Vec(old(impulseX), old(impulseY) + v))
    {
      impulseY := impulseY + v;
    }
  }

  /** The value snapshot of a list of players. */
  function States(ps: seq<Player>): (r: seq<PlayerState>)
    reads ps
    ensures |r| == |ps| && forall i :: 0 <= i < |ps| ==> r[i] == ps[i].State()
  {
    seq(|ps|, i reads ps requires 0 <= i < |ps| => ps[i].State())
  }

  /**
   * The level the engine works on. Only the switches change during play
   * (they are turned off); the other groups are fixed when the level is
   * built.
   */
  class Scene {
    const players: seq<Player>
    const walls: seq<Rect>
    const sPlatforms: seq<Rect>
    const dPlatforms: seq<Rect>
    const mPlatforms: seq<MovingPlatform>
    var switches: seq<Switch>
    const doors: seq<Door>
    const spikes: seq<Rect>
    const bosses: seq<Rect>
    const width: nat
    const height: nat

    constructor (players: seq<Player>, walls: seq<Rect>, sPlatforms: seq<Rect>, dPlatforms: seq<Rect>,
                 mPlatforms: seq<MovingPlatform>, switches: seq<Switch>, doors: seq<Door>,
                 spikes: seq<Rect>, bosses: seq<Rect>, width: nat, height: nat)
      ensures this.players == players && this.walls == walls && this.sPlatforms == sPlatforms
      ensures this.dPlatforms == dPlatforms && this.mPlatforms == mPlatforms && this.switches == switches
      ensures this.doors == doors && this.spikes == spikes && this.bosses == bosses
      ensures this.width == width && this.height == height
    {
      this.players, this.walls, this.sPlatforms, this.dPlatforms := players, walls, sPlatforms, dPlatforms;
      this.mPlatforms, this.switches, this.doors := mPlatforms, switches, doors;
      this.spikes, this.bosses, this.width, this.height := spikes, bosses, width, height;
    }

    /** `switch.turnOff()` on the `i`-th switch. */
    method TurnOff(i: nat)
      requires i < |switches|
      modifies this
      ensures switches == old(switches)[i := old(switches)[i].(isOn := false)]
    {
      switches := switches[i := switches[i].(isOn := false)];
    }
  }

  class CollisionEngine {
    const scene: Scene
    /** Every `messageScene` call so far, in order. */
    var sent: seq<Message>
    /** Set when `audio.state` is set to `"explosion"`. */
    var explosionCue: bool

    /** No player object is listed twice. */
    ghost predicate Valid() {
      forall i, j :: 0 <= i < j < |scene.players| ==> scene.players[i] != scene.players[j]
    }

    constructor (scene: Scene)
      requires forall i, j :: 0 <= i < j < |scene.players| ==> scene.players[i] != scene.players[j]
      ensures this.scene == scene && sent == [] && !explosionCue
      ensures Valid()
    {
      this.scene := scene;
      sent := [];
      explosionCue := false;
    }

    function Snapshot(): World
      reads this, scene, scene.players
    {
      World(States(scene.players), scene.walls, scene.sPlatforms, scene.dPlatforms, scene.mPlatforms,
            scene.switches, scene.doors, scene.spikes, scene.bosses, scene.width, scene.height,
            sent, explosionCue)
    }

    // -------------------------------------------------------------------
    // Resolving one player

    /**
     * `_resolveBasicCollision(moving, group)`: take the hits once, then
     * classify each against the rectangle corrected so far and snap the
     * struck side flush.
     */
    static method ResolveBasicCollision(moving: Player, group: seq<Rect>)
      modifies moving
      ensures moving.State() == old(moving.State()).(body := ResolveBasic(old(moving.Motion()), group))
    {
      var b0 := moving.Motion();
      var hits := Hits(moving.rect, group);
      var i := 0;
      while i < |hits|
        invariant 0 <= i <= |hits|
        invariant moving.State() == old(moving.State()).(body := BasicFold(b0, hits[..i]))
      {
        assert hits[..i + 1][..i] == hits[..i];
        SnapAgainst(moving, hits[i]);
        i := i + 1;
      }
      assert hits[..|hits|] == hits;
    }

    /** One iteration of `_resolveBasicCollision`: snap the struck side flush against `wall`. */
    static method SnapAgainst(moving: Player, wall: Rect)
      modifies moving
      ensures moving.State() == old(moving.State()).(body := BasicStep(old(moving.Motion()), wall))
    {
      match Classify(moving.rect, wall) {
      case Some(Bottom) =>
        moving.rect := moving.rect.WithBottom(wall.Top());
        moving.velY := 0;
        moving.isOnGround := true;
      case Some(Left) =>
        moving.rect := moving.rect.WithLeft(wall.Right());
        moving.velX := 0;
      case Some(Top) =>
        moving.rect := moving.rect.WithTop(wall.Bottom());
        moving.velY := 0;
      case Some(Right) =>
        moving.rect := moving.rect.WithRight(wall.Left());
        moving.velX := 0;
      case None =>
      }
    }

    // -------------------------------------------------------------------
    // The passes of `update`

    /** `resolveWallCollisions` */
    method ResolveWallCollisions()
      requires Valid()
      modifies scene.players
      ensures Snapshot() == WallPass(old(Snapshot()))
    {
      ghost var before := Snapshot();
      ResolveBasicForAll(scene.walls, before.players);
      assert Snapshot().players == WallPass(before).players;
    }

    /** The loop of `resolveWallCollisions` and `resolveSPlatformCollisions` over the players. */
    method ResolveBasicForAll(group: seq<Rect>, ghost ss: seq<PlayerState>)
      requires Valid() && ss == States(scene.players)
      modifies scene.players
      ensures forall k :: 0 <= k < |ss| ==>
        scene.players[k].State() == ss[k].(body := ResolveBasic(ss[k].body, group))
    {
      var ps := scene.players;
      var i := 0;
      while i < |ps|
        invariant 0 <= i <= |ps|
        invariant forall k :: 0 <= k < i ==> ps[k].State() == ss[k].(body := ResolveBasic(ss[k].body, group))
        invariant forall k :: i <= k < |ps| ==> ps[k].State() == ss[k]
      {
        ResolveBasicCollision(ps[i], group);
        i := i + 1;
      }
    }

    /** `resolveSPlatformCollisions` */
    method ResolveSPlatformCollisions()
      requires Valid()
      modifies scene.players
      ensures Snapshot() == SPlatformPass(old(Snapshot()))
    {
      ghost var before := Snapshot();
      ResolveBasicForAll(scene.sPlatforms, before.players);
      assert Snapshot().players == SPlatformPass(before).players;
    }

    /**
     * The body of `resolveDPlatformCollisions` for one player: for each hit
     * classified `bottom` whose top is within the tolerance of the player's
     * bottom, lift the player onto it, set it on the ground and stop it
     * falling.
     */
    static method ResolveDPlatformsFor(player: Player, platforms: seq<Rect>)
      modifies player
      ensures player.State() == old(player.State()).(body := ResolveOneWay(old(player.Motion()), platforms))
    {
      var b0 := player.Motion();
      var hits := Hits(player.rect, platforms);
      var j := 0;
      while j < |hits|
        invariant 0 <= j <= |hits|
        invariant player.State() == old(player.State()).(body := OneWayFold(b0, hits[..j]))
      {
        assert hits[..j + 1][..j] == hits[..j];
        LiftOnto(player, hits[j]);
        j := j + 1;
      }
      assert hits[..|hits|] == hits;
    }

    /**
     * One iteration of `resolveDPlatformCollisions`: a hit struck from above
     * within the tolerance lifts the player onto its top.
     */
    static method LiftOnto(player: Player, platform: Rect)
      modifies player
      ensures player.State() == old(player.State()).(body := OneWayStep(old(player.Motion()), platform))
    {
      var direction := Classify(player.rect, platform);
      if direction == Some(Bottom) {
        var tol := Abs(player.rect.Bottom() - platform.Top());
        if tol < OneWayTolerance {
          player.rect := player.rect.WithBottom(platform.Top());
          player.isOnGround := true;
          if player.velY > 0 {
            player.velY := 0;
          }
        }
      }
    }

    /** `resolveDPlatformCollisions` */
    method ResolveDPlatformCollisions()
      requires Valid()
      modifies scene.players
      ensures Snapshot() == DPlatformPass(old(Snapshot()))
    {
      ghost var before := Snapshot();
      ghost var after := DPlatformPass(before).players;
      ResolveDPlatformsForAll(before.players, after);
      assert Snapshot().players == after;
    }

    /**
     * The loop of `resolveDPlatformCollisions` over the players: player `k`
     * ends in state `ts[k]`, its body resolved against the one-way platforms.
     */
    method ResolveDPlatformsForAll(ghost ss: seq<PlayerState>, ghost ts: seq<PlayerState>)
      requires Valid() && ss == States(scene.players) && |ts| == |ss|
      requires forall k :: 0 <= k < |ss| ==> ts[k] == ss[k].(body := ResolveOneWay(ss[k].body, scene.dPlatforms))
      modifies scene.players
      ensures forall k :: 0 <= k < |ss| ==> scene.players[k].State() == ts[k]
    {
      var ps := scene.players;
      var i := 0;
      while i < |ps|
        invariant 0 <= i <= |ps|
        invariant forall k :: 0 <= k < i ==> ps[k].State() == ts[k]
        invariant forall k :: i <= k < |ps| ==> ps[k].State() == ss[k]
      {
        ResolveDPlatformsFor(ps[i], scene.dPlatforms);
        assert ps[i].State() == ts[i];
        i := i + 1;
      }
    }

    /**
     * The body of `resolveMPlatformCollisions` for one player: take the
     * hits, resolve the platforms as solid, then add every hit platform's
     * displacement.
     */
    static method ResolveMPlatformsFor(player: Player, mps: seq<MovingPlatform>)
      modifies player
      ensures player.State() == MovingPlayer(old(player.State()), mps)
    {
      ghost var p0 := player.State();
      var hits := PlatformHits(player.rect, mps);
      ResolveBasicCollision(player, PlatformRects(mps));
      var j := 0;
      while j < |hits|
        invariant 0 <= j <= |hits|
        invariant player.State() == p0.(body := ResolveBasic(p0.body, PlatformRects(mps)),
          disp := Vec(p0.disp.x + SumDisplacement(hits[..j]).x, p0.disp.y + SumDisplacement(hits[..j]).y))
      {
        assert hits[..j + 1][..j] == hits[..j];
        player.AddDisplacementX(hits[j].dx);
        player.AddDisplacementY(hits[j].dy);
        j := j + 1;
      }
      assert hits[..|hits|] == hits;
    }

    /** `resolveMPlatformCollisions` */
    method ResolveMPlatformCollisions()
      requires Valid()
      modifies scene.players
      ensures Snapshot() == MPlatformPass(old(Snapshot()))
    {
      ghost var before := Snapshot();
      ghost var after := MPlatformPass(before).players;
      ResolveMPlatformsForAll(before.players, after);
      assert Snapshot().players == after;
    }

    /**
     * The loop of `resolveMPlatformCollisions` over the players: player `k`
     * ends in state `ts[k]`, its state moved by the platforms.
     */
    method ResolveMPlatformsForAll(ghost ss: seq<PlayerState>, ghost ts: seq<PlayerState>)
      requires Valid() && ss == States(scene.players) && |ts| == |ss|
      requires forall k :: 0 <= k < |ss| ==> ts[k] == MovingPlayer(ss[k], scene.mPlatforms)
      modifies scene.players
      ensures forall k :: 0 <= k < |ss| ==> scene.players[k].State() == ts[k]
    {
      var ps := scene.players;
      var i := 0;
      while i < |ps|
        invariant 0 <= i <= |ps|
        invariant forall k :: 0 <= k < i ==> ps[k].State() == ts[k]
        invariant forall k :: i <= k < |ps| ==> ps[k].State() == ss[k]
      {
        ResolveMPlatformsFor(ps[i], scene.mPlatforms);
        assert ps[i].State() == ts[i];
        i := i + 1;
      }
    }

    /**
     * `resolveSwitchCollisions`: every switch that is on is turned off by
     * each player overlapping it with a non-zero velocity. A switch is only
     * changed in its own iteration, so testing `isOn` as the loop reaches it
     * is the same as filtering the switches that are on beforehand.
     */
    method ResolveSwitchCollisions()
      modifies scene
      ensures Snapshot() == SwitchPass(old(Snapshot()))
    {
      ghost var before := Snapshot();
      var i := 0;
      while i < |scene.switches|
        invariant 0 <= i <= |scene.switches| && |scene.switches| == |before.switches|
        invariant forall k :: 0 <= k < i ==> scene.switches[k] == SwitchAfter(before.switches[k], before.players)
        invariant forall k :: i <= k < |scene.switches| ==> scene.switches[k] == before.switches[k]
      {
        if scene.switches[i].isOn {
          TurnOffByPlayers(i, before.players);
        }
        i := i + 1;
      }
      assert Snapshot().switches == SwitchPass(before).switches;
    }

    /** The inner loop of `resolveSwitchCollisions` for the `i`-th switch, over the players. */
    method TurnOffByPlayers(i: nat, ghost ss: seq<PlayerState>)
      requires i < |scene.switches| && ss == States(scene.players)
      modifies scene
      ensures scene.switches == old(scene.switches)[i := TurnOffs(old(scene.switches)[i], ss)]
    {
      var ps := scene.players;
      ghost var sw := scene.switches;
      var j := 0;
      while j < |ps|
        invariant 0 <= j <= |ps|
        invariant scene.switches == sw[i := TurnOffs(sw[i], ss[..j])]
      {
        assert ss[..j + 1][..j] == ss[..j];
        var player := ps[j];
        if Overlap(player.rect, scene.switches[i].rect) {
          if player.velX != 0 || player.velY != 0 {
            scene.TurnOff(i);
          }
        }
        j := j + 1;
      }
      assert ss[..|ps|] == ss;
    }

    /** `messageScene(...)`: the message is added to the log. */
    method MessageScene(m: Message)
      modifies this
      ensures sent == old(sent) + [m] && explosionCue == old(explosionCue)
    {
      sent := sent + [m];
    }

    /** `resolveDoorCollisions` */
    method ResolveDoorCollisions()
      modifies this
      ensures Snapshot() == DoorPass(old(Snapshot()))
    {
      ghost var before := Snapshot();
      var ps := scene.players;
      var i := 0;
      while i < |ps|
        invariant 0 <= i <= |ps|
        invariant sent == before.sent + DoorCompletions(before.players[..i], scene.doors)
        invariant explosionCue == before.explosionCue
      {
        DoorCompletionsStep(before.players, i, scene.doors);
        ReportIfOnOpenDoor(ps[i]);
        i := i + 1;
      }
      assert before.players[..|ps|] == before.players;
    }

    /**
     * One iteration of `resolveDoorCollisions`: `complete` when the player
     * overlaps a door and the list of closed doors is empty.
     */
    method ReportIfOnOpenDoor(player: Player)
      modifies this
      ensures sent == old(sent) + DoorCompletion(player.State(), scene.doors) && explosionCue == old(explosionCue)
    {
      var doorRects := DoorRects(scene.doors);
      var hits := Hits(player.rect, doorRects);
      HitsNonEmptyIff(player.rect, doorRects);
      var doorsOpen := AllDoorsOpen(scene.doors);
      if hits != [] && doorsOpen {
        MessageScene(Complete);
      }
    }

    /**
     * The loop shared by `resolveSpikeCollisions` and
     * `resolveBossCollisions`: a death message for each player that touches
     * a hazard, in player order.
     */
    method ReportHazardDeaths(hazards: seq<Rect>, ghost ss: seq<PlayerState>)
      requires ss == States(scene.players)
      modifies this
      ensures sent == old(sent) + HazardDeaths(ss, hazards) && explosionCue == old(explosionCue)
    {
      var ps := scene.players;
      var i := 0;
      while i < |ps|
        invariant 0 <= i <= |ps|
        invariant sent == old(sent) + HazardDeaths(ss[..i], hazards)
        invariant explosionCue == old(explosionCue)
      {
        HazardDeathsStep(ss, i, hazards);
        ReportIfHit(ps[i], hazards);
        i := i + 1;
      }
      assert ss[..|ps|] == ss;
    }

    /** One iteration of the hazard loops: `if hits: self.messageScene("death", player.num)`. */
    method ReportIfHit(player: Player, hazards: seq<Rect>)
      modifies this
      ensures sent == old(sent) + HazardDeath(player.State(), hazards) && explosionCue == old(explosionCue)
    {
      var hits := Hits(player.rect, hazards);
      HitsNonEmptyIff(player.rect, hazards);
      if hits != [] {
        MessageScene(Death(player.num));
      }
    }

    /** `resolveSpikeCollisions` */
    method ResolveSpikeCollisions()
      modifies this
      ensures Snapshot() == SpikePass(old(Snapshot()))
    {
      ReportHazardDeaths(scene.spikes, States(scene.players));
    }

    /** `resolveBossCollisions` */
    method ResolveBossCollisions()
      modifies this
      ensures Snapshot() == BossPass(old(Snapshot()))
    {
      ReportHazardDeaths(scene.bosses, States(scene.players));
    }

    /** `resolveBoundaryCollision` */
    method ResolveBoundaryCollision()
      modifies this
      ensures Snapshot() == BoundaryPass(old(Snapshot()))
    {
      var boundary := Rect(-BoundaryMargin, -BoundaryMargin,
                           scene.width + 2 * BoundaryMargin, scene.height + 2 * BoundaryMargin);
      ReportBoundaryDeaths(boundary, States(scene.players));
    }

    /** The loop of `resolveBoundaryCollision`: a death for each player the boundary does not contain, in player order. */
    method ReportBoundaryDeaths(boundary: Rect, ghost ss: seq<PlayerState>)
      requires ss == States(scene.players)
      modifies this
      ensures sent == old(sent) + BoundaryDeaths(ss, boundary) && explosionCue == old(explosionCue)
    {
      var ps := scene.players;
      var i := 0;
      while i < |ps|
        invariant 0 <= i <= |ps|
        invariant sent == old(sent) + BoundaryDeaths(ss[..i], boundary)
        invariant explosionCue == old(explosionCue)
      {
        BoundaryDeathsStep(ss, i, boundary);
        ghost var step := BoundaryDeath(ss[i], boundary);
        assert ps[i].State() == ss[i];
        ReportIfOutside(ps[i], boundary);
        assert sent == old(sent) + BoundaryDeaths(ss[..i], boundary) + step;
        i := i + 1;
      }
      assert ss[..|ps|] == ss;
    }

    /** One iteration of `resolveBoundaryCollision`: a death when the boundary does not contain the player. */
    method ReportIfOutside(player: Player, boundary: Rect)
      modifies this
      ensures sent == old(sent) + BoundaryDeath(player.State(), boundary) && explosionCue == old(explosionCue)
    {
      if !Contains(boundary, player.rect) {
        MessageScene(Death(player.num));
      }
    }

    /** `resolvePlayerCollisions(explosionSpeed)` */
    method ResolvePlayerCollisions(explosionSpeed: int)
      requires Valid()
      modifies scene.players
      ensures Snapshot() == ExplosionPass(old(Snapshot()), explosionSpeed)
    {
      ghost var before := Snapshot();
      if |scene.players| == 2 {
        var p1, p2 := scene.players[0], scene.players[1];
        if Overlap(p1.rect, p2.rect) {
          ghost var q1, q2 := p1.State(), p2.State();
          ghost var push := if p2.rect.x > p1.rect.x then -explosionSpeed else explosionSpeed;
          p1.AddVelocityY(-explosionSpeed);
          p2.AddVelocityY(-explosionSpeed);
          if p2.rect.x > p1.rect.x {
            p1.AddVelocityX(-explosionSpeed);
            p2.AddVelocityX(explosionSpeed);
          } else {
            p1.AddVelocityX(explosionSpeed);
            p2.AddVelocityX(-explosionSpeed);
          }
          assert p1.State() == q1.(impulse := Vec(q1.impulse.x + push, q1.impulse.y - explosionSpeed));
          assert p2.State() == q2.(impulse := Vec(q2.impulse.x - push, q2.impulse.y - explosionSpeed));
          assert Snapshot().players == [p1.State(), p2.State()];
          assert before.players == [q1, q2];
          ExplosionOfPair(before, explosionSpeed, q1, q2, push);
        } else {
          assert Snapshot() == ExplosionPass(before, explosionSpeed);
        }
      } else {
        assert Snapshot() == ExplosionPass(before, explosionSpeed);
      }
    }

    // -------------------------------------------------------------------
    // The engine's two entry points

    /** `eventHandler(event)` */
    method EventHandler(e: Event)
      requires Valid()
      modifies this, scene.players
      ensures Snapshot() == HandleEvent(old(Snapshot()), e)
    {
      if e.KeyDown? {
        if e.key == KeyReturn {
          ResolveDoorCollisions();
        }
        if |scene.players| == 2 {
          var p1, p2 := scene.players[0], scene.players[1];
          if e.key == p1.coopJumpKey || e.key == p2.coopJumpKey {
            ResolvePlayerCollisions(CoopExplosionSpeed);
            explosionCue := true;
          }
        }
      }
    }

    /** `update()` */
    method Update()
      requires Valid()
      modifies this, scene, scene.players
      ensures Snapshot() == Frame(old(Snapshot()))
    {
      ResolveWallCollisions();
      ResolveSwitchCollisions();
      ResolveSPlatformCollisions();
      ResolveDPlatformCollisions();
      ResolveMPlatformCollisions();
      ResolveSpikeCollisions();
      ResolveBossCollisions();
      ResolveBoundaryCollision();
    }
  }
}
