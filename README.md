# Collision engine of a two-player platformer, in Dafny

This project models `collision.py`, the collision engine of a pygame
platformer. The game has two cooperating players. Once per frame, `update`
resolves each player against the level's obstacle groups in a fixed order:

1. walls;
2. switches;
3. static platforms;
4. one-way ("directional") platforms;
5. moving platforms;
6. spikes;
7. bosses;
8. the level boundary.

A key press (`eventHandler`) can complete the level at a door, or fire the
co-op "explosion" that pushes two overlapping players apart.

The model has five modules, plus `Wrappers` (`wrappers.dfy`), which holds
the `Option` that the side classifier returns:

- `Rects` (`rects.dfy`): pygame's integer `Rect` with positive sizes. Its
  centre is computed with floor division. It provides the two relations the
  engine uses: `Overlap` is `colliderect`, strict on every edge, and
  `Contains` is `Rect.contains`, inclusive.
- `Direction` (`direction.dfy`): the side classifier
  `_checkCollisionDirection`.
  - The source compares `Vector2.angle_to(...) % 360` angles, measured from
    the static rectangle's top-left spoke.
  - The model decides the same comparisons exactly on integers. The
    half-turn an angle falls in is the sign of a cross product; a dot
    product settles the two directions on the reference line. Two angles in
    the same half-turn are ordered by the sign of their cross product.
  - `atan2(0, 0) = 0`, so a zero vector has the heading of `(1, 0)`.
  - The lemmas show that this comparison is a strict total order on
    headings, and that the four spokes come in the order the classifier
    expects. They also show which side each approach produces, and exactly
    when the classifier returns no side.
- `Resolve` (`resolve.dfy`): what the resolvers do to one player, as
  functions on a value `Body`:
  - `_resolveBasicCollision`;
  - the one-way platform step, with its 30-unit tolerance;
  - the carry of the moving platforms.
- `SceneModel` (`scene_model.dfy`): the whole-scene passes, as functions on a
  `World` snapshot. `Frame` is one `update` and `HandleEvent` is one
  `eventHandler` call. `messageScene` calls are recorded in a log of
  `Death(num)` and `Complete` messages. The audio state is a boolean cue.
- `Engine` (`engine.dfy`): the engine as the game runs it.
  - `Player` is a class whose `rect`, velocity, ground flag and physics
    accumulators are updated in place.
  - `Scene` holds the groups; only its switches change.
  - `CollisionEngine` keeps the message log.
  - Each pass method is proved against its `SceneModel` function: the
    snapshot after the call is that function applied to the snapshot before
    it. The pairs are `ResolveWallCollisions`/`WallPass`,
    `ResolveSwitchCollisions`/`SwitchPass`,
    `ResolveSPlatformCollisions`/`SPlatformPass`,
    `ResolveDPlatformCollisions`/`DPlatformPass`,
    `ResolveMPlatformCollisions`/`MPlatformPass`,
    `ResolveSpikeCollisions`/`SpikePass`, `ResolveBossCollisions`/`BossPass`,
    `ResolveBoundaryCollision`/`BoundaryPass`,
    `ResolveDoorCollisions`/`DoorPass`,
    `ResolvePlayerCollisions`/`ExplosionPass`, `EventHandler`/`HandleEvent`
    and `Update`/`Frame`. The lemmas about these functions therefore hold
    for the imperative engine.
  - The per-player and per-hit methods are proved against step functions:
    `ResolveBasicCollision` against `ResolveBasic`, `SnapAgainst` against
    `BasicStep`, `ResolveDPlatformsFor` against `ResolveOneWay`, `LiftOnto`
    against `OneWayStep`, `ResolveMPlatformsFor` against `MovingPlayer`,
    and `TurnOffByPlayers` against `TurnOffs`.

Facts about the code that its comments do not say:

- **Sector boundaries get no side.** The docstring of
  `_checkCollisionDirection` (collision.py:221) names four results. Its four
  tests (collision.py:256-259) are strict on both sides, though, so a
  displacement that lies exactly along a spoke passes none of them and the
  function returns `None` (`ClassifyNoneIff`).
- **So "no side" happens for overlapping rectangles**, exactly on the
  spokes. For example, a mover whose centre sits on the obstacle's top-left
  corner is not classified (`CornerUnclassified`).
- **The resolver can leave a player inside an obstacle.** The docstring of
  `_resolveBasicCollision` (collision.py:185-186) says the moving object
  cannot pass through the group. Each single correction does separate the
  pair (`BasicStepSeparates`), but the pass as a whole does not keep the
  mover out:
  - a mover whose centre is on a spoke is not corrected by that obstacle
    (`ClassifyNoneIff` with `BasicStep`); resolved against that obstacle
    alone, a mover centred on its top-left corner stays overlapping it
    (`ResolveBasicCornerStays`);
  - the hits are taken once, before any correction (collision.py:192). So
    a mover squeezed between a floor and a ceiling can end inside one of
    them. When the gap is less than the mover's height h but more than
    ⌈h/2⌉, and the mover's centre lies strictly within both widths, it ends
    inside whichever of the two comes first in the group. With the floor
    first, the floor lifts it into the ceiling and the ceiling pushes it
    back into the floor (`ResolveBasicSqueezed`). With the ceiling first,
    the ceiling pushes it into the floor and the floor lifts it back into
    the ceiling (`ResolveBasicSqueezedCeilingFirst`). Outside these
    conditions the second correction may act sideways instead, and the
    mover can end clear of both. The two lemmas' rows under "## Model" give their exact
    conditions.
- **The explosion sound needs no overlap.** collision.py:38-40 set the
  audio state to `"explosion"` whenever the key is a co-op jump key, even
  when `resolvePlayerCollisions` finds the players apart and pushes nothing
  (`HandleEventEffect`).

## Model

| member | source | states |
|---|---|---|
| Rects.Rect.WithBottom | collision.py:198 | assigning `rect.bottom` moves the rectangle vertically so that its bottom is the value given, keeping x and the size |
| Rects.Rect.WithLeft | collision.py:203 | assigning `rect.left` moves the rectangle horizontally so that its left edge is the value given, keeping y and the size |
| Rects.Rect.WithTop | collision.py:207 | assigning `rect.top` moves the rectangle vertically so that its top is the value given, keeping x and the size |
| Rects.Rect.WithRight | collision.py:211 | assigning `rect.right` moves the rectangle horizontally so that its right edge is the value given, keeping y and the size |
| Direction.Classify | collision.py:223 | rectangles that do not overlap get no side |
| Direction.AngleLess | collision.py:247-259 | the comparison `o.angle_to(u) % 360 < o.angle_to(v) % 360` on integers: an angle in the first half-turn from `o` is below one in the second, and two in the same half-turn are ordered by the sign of their cross product |
| Direction.Displacement | collision.py:253 | the vector `(x − u, y − v)` from the mover's centre to the static centre; it is never zero, because coincident centres take the heading `(1, 0)` that `atan2(0, 0) = 0` gives |
| Direction.SpokesInOrder | collision.py:237-250 | for every positive size, the four spokes measured from the top-left spoke come in strictly increasing angle, with the bottom-left spoke at least a half-turn round. So the four tests describe four consecutive sectors bottom, left, top, right |
| Direction.AngleLessTrans | collision.py:247-254 | the `angle_to % 360` comparison is transitive |
| Direction.AngleLessAsym | collision.py:247-254 | the comparison never holds both ways |
| Direction.AngleTotal | collision.py:247-254 | any two headings compare one way or the other unless they are the same heading |
| Direction.Substitute | collision.py:247-254 | replacing a vector by one of the same heading changes no comparison, so only directions matter |
| Direction.ApproachFromAbove | collision.py:253-262 | a mover that overlaps, with its centre above the static top edge and strictly within its width, is classified `bottom` |
| Direction.ApproachFromRight | collision.py:253-264 | a mover that overlaps, with its centre right of the right edge and strictly within the height, is classified `left` |
| Direction.ApproachFromBelow | collision.py:253-266 | a mover that overlaps, with its centre below the bottom edge and strictly within the width, is classified `top` |
| Direction.ApproachFromLeft | collision.py:253-268 | a mover that overlaps, with its centre left of the left edge and strictly within the height, is classified `right` |
| Direction.ConcentricHitsRight | collision.py:253-268 | with coincident centres (zero displacement, heading (1,0)) and a static height of at least 2, the side is `right` |
| Direction.ClassifyNoneIff | collision.py:256-268 | for overlapping rectangles, the classifier returns no side if and only if the displacement points exactly along one of the four spokes |
| Direction.OnSpokeNoSector | collision.py:256-259 | a displacement along a spoke satisfies none of the four strict sector tests |
| Direction.OffSpokeSomeSector | collision.py:256-259 | a displacement along no spoke satisfies one of the four sector tests |
| Direction.CornerUnclassified | collision.py:256-259 | a mover whose centre is on the static rectangle's top-left corner gets no side, because its displacement lies along the first spoke |
| Resolve.Hits | collision.py:192 | `spritecollide` returns only members of the group that overlap the rectangle, and every member that does, with no more entries than the group |
| Resolve.HitsNonEmptyIff | collision.py:192 | the hit list is non-empty exactly when some member of the group overlaps |
| Resolve.ResolveBasic | collision.py:183-212 | `_resolveBasicCollision` on one player: the size is kept, each velocity component is kept or zeroed, and a player on the ground stays on the ground |
| Resolve.BasicStep | collision.py:194-212 | `bottom`: bottom onto the obstacle's top, vertical velocity 0, on the ground. `left`: left onto its right, horizontal velocity 0. `top`: top onto its bottom, vertical velocity 0. `right`: right onto its left, horizontal velocity 0. No side: unchanged. Sizes and everything else are kept |
| Resolve.BasicFold | collision.py:192-212 | walking the hit list never changes the size, only keeps or zeroes each velocity component, and never clears the on-ground flag |
| Resolve.BasicStepSeparates | collision.py:197-212 | after a correction the mover no longer overlaps the obstacle |
| Resolve.ResolveBasicIdempotent | collision.py:183-212 | resolving against the same obstacle again right after resolving it changes nothing |
| Resolve.ResolveBasicNoHit | collision.py:192-194 | a mover that overlaps nothing in the group is left exactly as it was |
| Resolve.LandsOnTop | collision.py:197-200 | a mover overlapping from above lands: bottom on the obstacle's top, vertical velocity 0, on the ground, x and horizontal velocity kept |
| Resolve.ResolveBasicCornerStays | collision.py:183-212 | resolved against one obstacle alone, a mover whose centre is on that obstacle's top-left corner is not corrected and stays overlapping it, so the docstring's "cannot pass through" (collision.py:186) fails |
| Resolve.ResolveBasicSqueezed | collision.py:192-212 | with the hits taken once and the group listed floor first: a mover overlapping both, with its centre above the floor's top and strictly within both widths, the ceiling's top and bottom above the floor's, and whose lifted position still overlaps the ceiling with the ceiling's bottom above its centre (⌈h/2⌉ < gap < h), ends overlapping the floor and clear of the ceiling |
| Resolve.ResolveBasicSqueezedCeilingFirst | collision.py:192-212 | the same squeeze with the group listed ceiling first: a mover overlapping both, with its centre below the ceiling's bottom and strictly within both widths, the ceiling's top above the floor's, and whose pushed-down position still overlaps the floor with the floor's top below its centre, ends overlapping the ceiling and clear of the floor |
| Resolve.OneWayStep | collision.py:104-114 | only a `bottom` classification with \|bottom − top\| < 30 acts. It snaps the bottom onto the platform's top, sets on-ground, zeroes a downward (positive) vertical velocity and keeps an upward one. Anything else leaves the player unchanged |
| Resolve.OneWayStepLifts | collision.py:106-109 | a one-way step never moves the player sideways or changes its horizontal velocity, and moves it up by less than the tolerance, never down |
| Resolve.OneWayFold | collision.py:102-114 | across all one-way hits, x, size and horizontal velocity are kept. The player only moves up. The vertical velocity is kept, or zeroed when it was downward. The on-ground flag is never cleared |
| Resolve.OneWayIgnoresOutsideBand | collision.py:106-108 | a platform not classified `bottom`, or beyond the tolerance, leaves the player unchanged |
| Resolve.ResolveOneWay | collision.py:100-114 | the one-way pass on one player: x, size and horizontal velocity are kept, the player only moves up, a downward velocity is kept or zeroed, and a player on the ground stays there |
| Resolve.PlatformRects | collision.py:122 | the moving platforms, seen as solid rectangles, in order |
| Resolve.PlatformHits | collision.py:121 | no more hits than moving platforms |
| Resolve.PlatformHitsMembers | collision.py:121 | a moving platform is a hit exactly when it overlaps the player's rectangle |
| Resolve.PlatformHitsAreHits | collision.py:121-122 | the moving platforms hit are those whose rectangles `Hits` finds among the platform rectangles, in the same order, so the carry and the solid correction see the same platforms |
| Resolve.NoContactNoCarry | collision.py:124-126 | a player touching no moving platform gains no displacement |
| Resolve.CarryByOnlyHit | collision.py:121-126 | a player touching exactly one moving platform has that one hit and gains exactly its `(dx, dy)` |
| Resolve.NoPlatformHits | collision.py:121 | no overlap gives no hits |
| Resolve.Carry | collision.py:121-126 | the displacement a player gains: the sum of `(dx, dy)` over the moving platforms it overlaps, taken before the correction |
| SceneModel.WallPass | collision.py:82-87 | `resolveWallCollisions` on the snapshot: only the players' bodies change; numbers, keys, accumulators, groups, switches and log are kept |
| SceneModel.SPlatformPass | collision.py:89-94 | `resolveSPlatformCollisions` on the snapshot: only the players' bodies change |
| SceneModel.DPlatformPass | collision.py:96-114 | `resolveDPlatformCollisions` on the snapshot: only the players' bodies change |
| SceneModel.MovingPlayer | collision.py:120-126 | one player through the moving platforms: only its body and displacement change, and its size is kept |
| SceneModel.MPlatformPass | collision.py:116-126 | `resolveMPlatformCollisions` on the snapshot: only the players' bodies and displacements change |
| SceneModel.MovingPlayerCarriedBeforeCorrection | collision.py:120-126 | the carry is judged on the rectangle before the solid correction: a player on exactly one moving platform gains that platform's `(dx, dy)` whatever the correction does. Only its body and displacement change |
| SceneModel.TurnOffs | collision.py:135-139 | for one switch, the switch stays on if and only if it was on and no player overlaps it with non-zero velocity. It never moves |
| SceneModel.SwitchPass | collision.py:128-139 | `resolveSwitchCollisions` on the snapshot: only the switches change; none moves and none is turned on |
| SceneModel.SwitchPassIff | collision.py:132-139 | after the switch pass, a switch is on if and only if it was on and no moving player overlaps it. Off switches stay off, positions are unchanged, and the number of switches is kept |
| SceneModel.HazardDeaths | collision.py:156-170 | at most one message per player, and never `complete` |
| SceneModel.HazardDeathsIff | collision.py:156-160 | `death(n)` is sent if and only if some player numbered `n` overlaps a hazard |
| SceneModel.HazardDeathsSound | collision.py:158-160 | every death sent names a player that overlaps a hazard |
| SceneModel.HazardDeathsComplete | collision.py:158-160 | every player overlapping a hazard is reported dead |
| SceneModel.HazardDeathsStep | collision.py:156-160 | each player adds its own death, if any, after those of the players before it |
| SceneModel.SpikePass | collision.py:152-160 | `resolveSpikeCollisions` on the snapshot: only the log changes, by appending messages none of which is `complete` |
| SceneModel.BossPass | collision.py:162-170 | `resolveBossCollisions` on the snapshot: only the log changes, by appending messages none of which is `complete` |
| SceneModel.BoundaryDeaths | collision.py:172-181 | at most one message per player, and never `complete` |
| SceneModel.BoundaryDeathsIff | collision.py:176-181 | `death(n)` is sent if and only if some player numbered `n` is not contained in `Rect(-1000, -1000, w+2000, h+2000)` |
| SceneModel.BoundaryDeathsStep | collision.py:179-181 | each player adds its own death, if any, after those of the players before it |
| SceneModel.BoundaryPass | collision.py:172-181 | `resolveBoundaryCollision` on the snapshot: only the log changes, by appending messages none of which is `complete` |
| SceneModel.InsideSceneSurvives | collision.py:176-181 | if every player lies inside `Rect(0, 0, w, h)` (the boundary is anchored at (-1000, -1000) whatever the scene rectangle's position), the boundary pass sends nothing |
| SceneModel.AllContainedNoDeaths | collision.py:179-181 | if the boundary contains every player, no death is sent |
| SceneModel.OutsideBoundaryDies | collision.py:176-181 | a player lying entirely outside the boundary is reported dead by its number |
| SceneModel.OnDoor | collision.py:145-147 | the players overlapping at least one door, and only those |
| SceneModel.DoorCompletions | collision.py:145-150 | any closed door silences every player; every message sent is `complete` |
| SceneModel.DoorCompletionsCount | collision.py:145-150 | with every door open, exactly one `complete` is sent per player that overlaps a door |
| SceneModel.DoorCompletionsStep | collision.py:145-150 | each player adds its own `complete`, if any, after those of the players before it |
| SceneModel.DoorPass | collision.py:141-150 | `resolveDoorCollisions` on the snapshot: only the log changes, by appending; with any door closed nothing changes |
| SceneModel.ExplosionPass | collision.py:58-80 | `resolvePlayerCollisions(speed)` on the snapshot: only the players' collision impulses change |
| SceneModel.ExplosionPushesApart | collision.py:65-77 | two overlapping players both get vertical impulse −speed and opposite horizontal impulses. The second player gets +speed when strictly to the right of the first; otherwise, equal x included, the first player gets +speed. Nothing else about them changes |
| SceneModel.ExplosionNeedsTwoOverlapping | collision.py:65-80 | without exactly two overlapping players the explosion changes nothing and raises nothing |
| SceneModel.HandleEvent | collision.py:28-42 | `eventHandler` on the snapshot: only the players, the log and the audio cue change; the log only grows and a set cue stays set |
| SceneModel.HandleEventEffect | collision.py:29-42 | any event but a key press is ignored. On a key press, messages are sent only by Return, through the door pass. The sound cue is set exactly when there are two players and the key is one of their co-op keys, even if they do not overlap. Players change only in that case. Nothing else changes |
| SceneModel.ReturnOnOpenDoorCompletes | collision.py:30-32 | pressing Return while every door is open and some player overlaps a door sends `complete` |
| SceneModel.Frame | collision.py:44-56 | `update` on the snapshot: only the players, the switches and the log change; the players and switches keep their number and the log only grows |
| SceneModel.FramePlayers | collision.py:44-50 | a frame resolves each player, in priority order, against walls, then static, then one-way, then moving platforms |
| SceneModel.FrameMessages | collision.py:44-54 | a frame appends the spike deaths, then the boss deaths, then the boundary deaths, all judged on the players' final positions, and never sends `complete` |
| SceneModel.ReportKeepsAllButLog | collision.py:52-54 | the three death passes change nothing but the log: players, switches, groups and the sound cue are as they were |
| SceneModel.ReportSent | collision.py:52-54 | the three death passes append the spike deaths, then the boss deaths, then the boundary deaths to the log, and none of the appended messages is `complete` |
| SceneModel.FrameKeepsScene | collision.py:44-54 | a frame changes only the players, the switches and the log. The switches see the positions left by the walls |
| SceneModel.FrameSwitchesOnlyTurnOff | collision.py:45-46 | a frame never turns a switch on, nor moves one |
| Engine.Player.AddDisplacementX | collision.py:125 | adds `dx` to the player's horizontal displacement accumulator, nothing else |
| Engine.Player.AddDisplacementY | collision.py:126 | adds `dy` to the vertical displacement accumulator, nothing else |
| Engine.Player.AddVelocityX | collision.py:72-77 | adds to the horizontal impulse accumulator, nothing else |
| Engine.Player.AddVelocityY | collision.py:68-69 | adds to the vertical impulse accumulator, nothing else |
| Engine.Scene.TurnOff | collision.py:139 | turns off that one switch and changes no other switch |
| Engine.CollisionEngine.constructor | collision.py:18-24 | the engine keeps the scene it is given and starts with an empty log and no explosion cue; given a scene that lists no player object twice, it starts `Valid`, as every player-moving method requires |
| Engine.CollisionEngine.ResolveBasicCollision | collision.py:183-212 | the in-place loop leaves the mover in the state `ResolveBasic` computes from its state before the call |
| Engine.CollisionEngine.SnapAgainst | collision.py:197-212 | one hit snaps the struck side flush as `BasicStep` does: bottom sets on the ground and stops vertical motion, left and right stop horizontal motion, top stops vertical motion, no side changes nothing |
| Engine.CollisionEngine.ResolveBasicForAll | collision.py:86-87 | every player, in turn, ends in the state `ResolveBasic` computes from its own state before the loop; each player's resolution leaves the others untouched |
| Engine.CollisionEngine.ResolveWallCollisions | collision.py:82-87 | the scene after the call is `WallPass` of the scene before it |
| Engine.CollisionEngine.ResolveSPlatformCollisions | collision.py:89-94 | the scene after the call is `SPlatformPass` of the scene before it |
| Engine.CollisionEngine.ResolveDPlatformsFor | collision.py:102-114 | one player's one-way loop leaves it in the state `ResolveOneWay` computes |
| Engine.CollisionEngine.LiftOnto | collision.py:104-114 | one hit struck from above within the tolerance lifts the player onto the platform as `OneWayStep` does; any other hit changes nothing |
| Engine.CollisionEngine.ResolveDPlatformsForAll | collision.py:100-114 | every player ends in the state the one-way pass computes from its own state before the loop (given as `ts`) |
| Engine.CollisionEngine.ResolveDPlatformCollisions | collision.py:96-114 | the scene after the call is `DPlatformPass` of the scene before it |
| Engine.CollisionEngine.ResolveMPlatformsFor | collision.py:121-126 | one player's moving-platform step leaves it in the state `MovingPlayer` computes: solid correction, plus the carry of the hits taken before it |
| Engine.CollisionEngine.ResolveMPlatformCollisions | collision.py:116-126 | the scene after the call is `MPlatformPass` of the scene before it |
| Engine.CollisionEngine.ResolveMPlatformsForAll | collision.py:120-126 | every player ends in the state `MovingPlayer` computes from its own state before the loop (given as `ts`) |
| Engine.CollisionEngine.ResolveSwitchCollisions | collision.py:128-139 | the scene after the call is `SwitchPass` of the scene before it |
| Engine.CollisionEngine.TurnOffByPlayers | collision.py:135-139 | one switch ends as `TurnOffs` of the players computes (off exactly when it was off or some player overlaps it moving); no other switch changes |
| Engine.CollisionEngine.MessageScene | collision.py:150 | a message sent is appended to the log |
| Engine.CollisionEngine.ResolveDoorCollisions | collision.py:141-150 | the scene after the call is `DoorPass` of the scene before it |
| Engine.CollisionEngine.ReportIfOnOpenDoor | collision.py:147-150 | one player adds `complete` to the log exactly when it overlaps a door and no door is closed |
| Engine.CollisionEngine.ReportHazardDeaths | collision.py:156-160 | the hazard loop appends `HazardDeaths` of the players' states to the log |
| Engine.CollisionEngine.ReportIfHit | collision.py:158-160 | one player adds its death to the log exactly when it overlaps a hazard |
| Engine.CollisionEngine.ResolveSpikeCollisions | collision.py:152-160 | the scene after the call is `SpikePass` of the scene before it |
| Engine.CollisionEngine.ResolveBossCollisions | collision.py:162-170 | the scene after the call is `BossPass` of the scene before it |
| Engine.CollisionEngine.ResolveBoundaryCollision | collision.py:172-181 | the scene after the call is `BoundaryPass` of the scene before it |
| Engine.CollisionEngine.ReportBoundaryDeaths | collision.py:179-181 | the boundary loop appends `BoundaryDeaths` of the players' states to the log |
| Engine.CollisionEngine.ReportIfOutside | collision.py:180-181 | one player adds its death to the log exactly when the boundary does not contain it |
| Engine.CollisionEngine.ResolvePlayerCollisions | collision.py:58-80 | the scene after the call is `ExplosionPass` of the scene before it |
| Engine.CollisionEngine.EventHandler | collision.py:29-42 | the scene after the call is `HandleEvent` of the scene before it |
| Engine.CollisionEngine.Update | collision.py:44-56 | the scene after the call is `Frame` of the scene before it: the eight passes in their fixed order |

## Left out

- Floating point: `Vector2.angle_to` and `% 360` are decided exactly on integers. Float rounding could reorder headings that differ by less than the rounding error; this is not modelled.
- Audio: `AudioComponent`, the sound resource and `audio.update()` are audio I/O. Setting `audio.state = "explosion"` is a boolean cue.
- `messageScene` internals and the scene's reaction to the messages are not shown. Calls are modelled as a log of `Death(num)` and `Complete`.
- `physics` internals are not shown:
  - `addVelocityX/Y` and `addDisplacementX/Y` are modelled as accumulators that the calls add to;
  - `physics.velocity` is a pair of integers, so its float values and the `!= 0` test on floats are not modelled.
- Missing key binding: a player whose `keybinds` lacks `"coop_jump"` raises `KeyError`, which the `except ValueError` does not catch. Every player is modelled with a co-op key.
- Integer range: pygame's `Rect` stores C `int` coordinates and sizes and refuses values outside that range. Here rectangles and the moving platforms' `dx`/`dy` are unbounded integers, so a level that would overflow pygame's rectangles is not modelled.
- Rectangle sizes: pygame's behaviour for zero or negative sizes is not modelled; every rectangle has a positive width and height.
- `switch.turnOff()` internals are not shown; it is modelled as setting `isOn` to false.
- Aliasing between scene entities: switches and doors are values, not shared sprites. So a switch listed twice, or one sprite in two groups, is not modelled. The obstacle groups are fixed during a frame; only the switches change.
- Engine.CollisionEngine.constructor: requires that no player object is listed twice in the scene, so that the engine starts `Valid`; a scene listing one player twice is not modelled.
- Engine.CollisionEngine.ResolveWallCollisions: requires that no player object is listed twice in the scene (`Valid`), since the pass is proved player by player; a scene listing one player twice is not modelled.
- Engine.CollisionEngine.ResolveSPlatformCollisions: requires that no player object is listed twice in the scene (`Valid`), since the pass is proved player by player; a scene listing one player twice is not modelled.
- Engine.CollisionEngine.ResolveDPlatformCollisions: requires that no player object is listed twice in the scene (`Valid`), since the pass is proved player by player; a scene listing one player twice is not modelled.
- Engine.CollisionEngine.ResolveMPlatformCollisions: requires that no player object is listed twice in the scene (`Valid`), since the pass is proved player by player; a scene listing one player twice is not modelled.
- Engine.CollisionEngine.ResolveBasicForAll: requires that no player object is listed twice in the scene (`Valid`), since the pass is proved player by player; a scene listing one player twice is not modelled.
- Engine.CollisionEngine.ResolveDPlatformsForAll: requires that no player object is listed twice in the scene (`Valid`), since the pass is proved player by player; a scene listing one player twice is not modelled.
- Engine.CollisionEngine.ResolveMPlatformsForAll: requires that no player object is listed twice in the scene (`Valid`), since the pass is proved player by player; a scene listing one player twice is not modelled.
- Engine.CollisionEngine.ResolvePlayerCollisions: requires that no player object is listed twice in the scene (`Valid`), since the pass is proved player by player; a scene listing one player twice is not modelled.
- Engine.CollisionEngine.EventHandler: requires that no player object is listed twice in the scene (`Valid`), since the pass is proved player by player; a scene listing one player twice is not modelled.
- Engine.CollisionEngine.Update: requires that no player object is listed twice in the scene (`Valid`), since the pass is proved player by player; a scene listing one player twice is not modelled.
- Scene size: `scene.rect.size` is two natural numbers; the rest of the scene's rectangle is not used by the engine.
- Events: pygame event objects become `KeyDown(key)` or `OtherEvent`, and `pg.K_RETURN` is its key code 13.
- `__str__` and the `GameObject` base class are not part of this model.
