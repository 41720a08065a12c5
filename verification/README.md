# Rail-shooter game state, modelled in Dafny

This project models the game-state core of an endless VR rail shooter
(`src/main.js`). The player rig moves steadily towards negative z. The ground
streams in as square chunks ahead of the rig and is recycled behind it.
Controllers charge a shot by holding select; releasing fires a physics
projectile whose size and launch velocity depend on the charge. Every frame,
projectiles that leave an envelope around the rig are removed.

The rendering library and the physics engine are opaque here. A chunk is
modelled by its integer `zIndex`, a projectile by a body id plus the position
the engine reported for it this frame, and a controller by an opaque key.
JavaScript doubles are idealised as exact Dafny `real`s, and `Math.floor` is
`.Floor`. Wall-clock timestamps are integer milliseconds passed in as
parameters. The frame delta, the aim direction and the read-back positions
are parameters too.

Modules, one per component:

- `Settings`: the configuration constants the core reads.
- `Seqs`: the order-preserving `Filter`, and `SpliceOut`, the back-to-front
  splice loop proved equal to it.
- `Chunks`: chunk indices, start-up, the streaming update and its window invariant.
- `Charge`: the per-controller charge map and the power formula.
- `Launch`: radius, force and velocity of a shot.
- `Projectiles`: the per-frame cleanup filter.
- `Game`: the rig advance, the frame tick for chunks, and select-end.
- `Options` and `Vectors`: small value types.

## Behaviour worth knowing

- An update spawns at most one chunk. A crossing of more than one chunk in
  a single update therefore leaves a gap. `Chunks.JumpLeavesGap` shows this:
  from the start-up state, a rig at z = -250 (index 2) yields the indices
  `[0, 1, 2, 3, 4, 6]`: index 5 is not created by that update. The window invariant
  is proved under the condition that the index rises by at most one per
  update (`Chunks.UpdateKeepsWindow`). `Game.RunKeepsSteady` shows that this
  condition holds whenever no frame lasts longer than chunkSize / speed
  (about 16.7 s). Distinct indices hold for frames of any length
  (`Game.RunKeepsDistinct`).
- Launch power is capped at 1 but has no lower clamp. A release timestamped
  before its press (`Date.now()` is not monotonic) gives a negative power,
  and with it a radius below half the base radius and a force below
  `minForce`. `Charge.Power` states that the power is non-negative exactly
  when the release is not earlier than the press.

## Model

| member | source | states |
|---|---|---|
| Chunks.ZPos | src/main.js:250 | a chunk's z position divided by -chunkSize gives back its index; it lies ahead of the origin (z < 0) exactly for positive indices |
| Chunks.CurrentIndex | src/main.js:316 | the current index c places the rig in the chunk span ZPos(c+1) < z <= ZPos(c) |
| Chunks.CurrentIndexUnique | src/main.js:316 | c is the current index exactly when z lies in (ZPos(c+1), ZPos(c)]; a rig at a chunk's zPos is in that chunk |
| Chunks.InitChunks | src/main.js:309-313 | start-up creates chunksVisible + chunkBufferBehind chunks, with indices -chunkBufferBehind .. chunksVisible-1 in ascending order, and lastChunkIndex 0 |
| Chunks.UpdateChunks | src/main.js:315-334 | nothing changes unless the current index exceeds lastChunkIndex; an effective update sets lastChunkIndex to the current index, so it strictly increases |
| Chunks.UpdateChunksInPlace | src/main.js:319-331 | the existence scan, the conditional push and the reverse splice loop compute the same state as the functional update |
| Chunks.UpdateKeepsOrder | src/main.js:319-331 | an effective update keeps the old chunks at or above the threshold in their old order, and can only append the spawn index |
| Chunks.UpdateRemovesExactly | src/main.js:319-331 | after an effective update an index is active iff it was active or is current+chunksVisible-1, and it is not below current-chunkBufferBehind |
| Chunks.UpdateKeepsDistinct | src/main.js:319-323 | no update makes two active chunks share an index |
| Chunks.UpdateKeepsWindow | src/main.js:316-332 | from the expected window, an update that raises the index by at most one leaves the expected window of the new index, with chunksVisible + chunkBufferBehind chunks |
| Chunks.JumpLeavesGap | src/main.js:318-332 | from start-up, a jump to index 2 gives [0,1,2,3,4,6]: index 5 is missing and the window invariant fails |
| Seqs.SpliceOut | src/main.js:326-331 | the back-to-front splice loop leaves exactly the order-preserving filter of the list |
| Seqs.Some | src/main.js:320 | the scan reports true iff some element satisfies the test |
| Charge.Power | src/main.js:209-210 | power never exceeds 1, is 1 once the hold reaches maxChargeTime, is hold/maxChargeTime below that, and is non-negative iff now >= start |
| Charge.PowerMonotone | src/main.js:410-412 | the charge level never decreases while the hold continues |
| Charge.HalfHoldIsHalfPower | src/main.js:210 | a 500 ms hold gives power 0.5 |
| Charge.BeginCharge | src/main.js:198-202 | select-start records now for the controller and leaves every other controller's entry as it was |
| Charge.BeginOverwrites | src/main.js:201 | a second select-start replaces the first; sessions never stack |
| Charge.EndCharge | src/main.js:204-224 | select-end fires iff the controller has an entry, with the power of that hold, and deletes only that entry; without an entry nothing changes |
| Charge.EndTwiceFiresOnce | src/main.js:207-215 | a second select-end right after the first fires nothing and changes nothing |
| Charge.BeginThenEnd | src/main.js:198-215 | press then release fires the power of that hold and leaves no entry for the controller |
| Charge.ChargeLevels | src/main.js:407-412 | every charging controller gets a level of at most 1, non-negative when the hold has not gone backwards in time |
| Charge.ReleaseFiresShownLevel | src/main.js:209-210 | the power a release fires equals the level shown for that controller at the same instant |
| Launch.Radius | src/main.js:347 | radius is half the base radius at power 0 and the full base radius at power 1, and stays between them for powers in [0,1] |
| Launch.ForceMagnitude | src/main.js:384 | force is minForce at power 0 and maxForce at power 1, and stays between them for powers in [0,1] |
| Launch.LaunchIsLinear | src/main.js:384 | radius and force are affine in power: a blend of powers gives the same blend of values |
| Launch.LaunchMonotone | src/main.js:347 | more power never gives a smaller radius or a smaller force |
| Launch.LaunchVelocity | src/main.js:386-387 | relative to the moving rig the velocity is the direction scaled by the force; x and y are unchanged by the rig's speed |
| Launch.RelativeSpeedIsForce | src/main.js:384-387 | for a unit aim direction, the squared speed relative to the rig equals the squared launch force (so the speed is the force's magnitude) |
| Launch.FireProjectile | src/main.js:338-394 | a shot starts at the controller's position with the configured mass, the radius Radius(power) for every power, and a velocity that is direction times force relative to the rig |
| Projectiles.Escaped | src/main.js:447-463 | a position that has not escaped lies inside the envelope y >= -10, rigZ-300 <= z <= rigZ+50 |
| Projectiles.EnvelopeMovesWithRig | src/main.js:447-448 | moving a position and the rig by the same z distance does not change whether it has escaped |
| Projectiles.Cleanup | src/main.js:447-471 | a projectile stays iff it has no motion state or its position has y >= -10 and rigZ-300 <= z <= rigZ+50; survivors come from the list |
| Projectiles.CleanupInPlace | src/main.js:450-471 | the reverse splice loop over the tracked projectiles computes the cleanup filter |
| Projectiles.FallenIsRemoved | src/main.js:463 | a projectile below y = -10 is removed whatever its z |
| Projectiles.CleanupKeepsOrder | src/main.js:450-468 | cleanup acts on each part of the list separately, so survivors keep their relative order |
| Projectiles.CleanupIdempotent | src/main.js:447-468 | a second cleanup against the same rig position removes nothing more |
| Game.AdvanceRig | src/main.js:424 | the rig moves by speed*dt towards -z, never backwards for dt >= 0 |
| Game.ShortFrameCrossesAtMostOne | src/main.js:424 | a frame with speed*dt <= chunkSize raises the current chunk index by zero or one |
| Game.Tick | src/main.js:423-437 | a frame advances the rig and then updates the chunks for the advanced position; lastChunkIndex never decreases, becomes the rig's current index on a crossing, and the chunks are untouched without one |
| Game.CurrentIndexMonotone | src/main.js:316 | moving towards -z never lowers the current chunk index |
| Game.RunTracksRig | src/main.js:316-332 | while frames are non-negative, lastChunkIndex stays equal to max(0, the rig's current index) |
| Game.ActiveWindowFollowsRig | src/main.js:402-441 | from start-up, over short frames, the active chunks are exactly the window around max(0, the rig's current index) |
| Game.InitialWorldSteady | src/main.js:119-121 | at start-up the rig at z = 5 is in chunk -1, behind lastChunkIndex 0, and the chunks are the expected window |
| Game.RunKeepsDistinct | src/main.js:319-331 | over any run of frames, of any length, no two active chunks share an index |
| Game.InitialWorldDistinct | src/main.js:309-313 | the start-up chunks have distinct indices |
| Game.TickKeepsSteady | src/main.js:423-437 | a short frame keeps the chunks equal to the expected window of lastChunkIndex |
| Game.RunKeepsSteady | src/main.js:402-441 | over any run of short frames the active chunks stay exactly the expected window, with chunksVisible + chunkBufferBehind distinct chunks |
| Game.OnSelectEnd | src/main.js:204-224 | select-end fires a projectile iff a charge is in progress, with the power of that hold, and removes only that controller's charge |
| Game.FullHoldFiresAtMaximum | src/main.js:209-212 | a hold of at least maxChargeTime fires at the full base radius and at maxForce relative to the rig |

## Left out

- Scene, mesh, grid, material, light and fog construction, and all `dispose` calls: these are rendering side effects. A chunk is its index and a projectile is a body id.
- The physics world: its setup, gravity, solver iterations, body construction, inertia, `stepSimulation`, and body removal belong to the foreign engine. The positions it reads back are inputs to `Projectiles.Cleanup`. A missing motion state is modelled as an absent position.
- The guard that skips physics before the world exists: start-up ordering always creates the world first.
- Copying the read-back position and rotation onto each projectile's mesh: this is visual only.
- The controller's world position and orientation, and turning the orientation into a normalised direction: these are foreign calls that use floating-point square roots. The origin and the aim direction are parameters.
- The ray colour blend and ray length scaling: these are visual only. `Charge.ChargeLevels` models the level they are driven by.
- `Date.now()` and `clock.getDelta()`: both are parameters.
- The asynchronous start-up and the animation-loop scheduler: `Game.Run` takes the sequence of frame deltas instead.
- VR controller discovery, controller models, the VR button and window resizing: these are device and UI plumbing.
- Moving the directional light with the rig: this is visual only.
- Projectile cleanup is not included in `Game.Tick`: its inputs come from the physics step. `Projectiles.Cleanup` takes the rig z after the advance.
- Floating-point rounding: all arithmetic is on exact reals.
