# Korge platformer: the player's movement core

This project models the player logic of the platformer scene `MyScene` in
ColstonBod-oy/korgee. Every fixed tick (60 Hz), the scene does three things:

- It reads the virtual controller's two analog axes.
- It turns the first axis outside the dead-zone into one movement intent
  (`updated`). A horizontal intent walks and a vertical intent climbs.
- It applies gravity: the speed is integrated through the probe-and-commit
  movers `tryMoveDeltaX` / `tryMoveDeltaY`, and the player stops and lands
  when both moves are refused.

The animation state is re-derived, by fixed priority jumping > climbing >
walking > idle, only when an intent is dispatched, a jump starts or a jump
ends; a tick with
no input and no landing leaves it as it was, even when the flags no longer
match it. Two more handlers act on the same state:

- the jump button, which adds an upward impulse when the vertical speed is
  almost zero and, when no jump was in progress, marks the jump and
  re-derives the animation state;
- a change of the horizontal axis, which runs `updated` in its mid-air form
  when the new value reads as zero (inside the dead-zone), and otherwise does
  nothing.

The model has five modules:

- `Geometry`: points in fixed-point milli-pixels.
- `Collisions`: the tile classifier `COLLISIONS`.
- `Movement`: every operation as a function of the state before the call
  (a `Motion` value). It also holds the invariant `Coherent`.
- `MovementLaws`: the properties, as lemmas.
- `SceneMain`: the class `PlayerScene`. It holds the scene's captured
  variables as fields and runs the same steps in place. Each method is proved
  to leave the object in exactly the state the matching `Movement` function
  computes. Each handler-level method (`Updated`, `OnJumpPressed`,
  `OnAxisXChanged`, `MoveCharacter`, `ApplyGravity`, `FixedUpdate`) is also
  proved to keep `Coherent`.

Units:

- Positions and speeds are integers in 1/1000 pixel. This makes every
  constant of the source exact: the probes at ±12, +14, +28.5, ±6 and +29
  pixels, the 2.0 and 0.7 pixel steps, and the 5.5 pixel jump.
- Analog axes are integers in hundredths of a full deflection. The source's
  `scale` of `1f` is `FULL_SCALE` = 100, and a step of
  `2.0 * scale` pixels is `20 * scale` milli-pixels.
- The cross-fade times 0.1 s and 0.3 s are 100 and 300 ms.

The environment is a value `Env` that the core reads and never changes. It
holds the collision-map lookup `getPixel`, the dead-zone test of
`normalizeAlmostZero(.075f)` and the test `isAlmostZero`. The gravity
increment `gravity * FREQ.timeSpan.seconds` is a parameter of each tick.

The model follows the code in one place where the code's behaviour is easy
to misread: the climbing flag is not recomputed every tick. Only a committed
ladder move sets it. Only a horizontal intent or the mid-air handler clears
it. A refused ladder move leaves it as it was. `NoInputKeepsClimbing` proves
that it survives any number of ticks without input.

## Model

| member | source | states |
|---|---|---|
| Collisions.ClassifierTable | src/commonMain/kotlin/main.kt:32-46 | the tile codes are OUTSIDE -1, EMPTY 0, DIRT 1, LADDER 2, STONE 3; solid holds exactly for OUTSIDE, DIRT and STONE, ladder exactly for LADDER |
| Collisions.SolidAndLadderExclusive | src/commonMain/kotlin/main.kt:39-45 | no tile code is both solid and a ladder |
| Collisions.DirectionIgnored | src/commonMain/kotlin/main.kt:39-45 | the direction argument never changes either classification |
| Movement.All | src/commonMain/kotlin/main.kt:144 | `all` over the probe list holds exactly when the test holds at every probe |
| Movement.TryMoveX | src/commonMain/kotlin/main.kt:123-150 | the move is committed iff no probe at pos+delta+(±12,+14) or pos+delta+(±12,+28.5) is solid; a committed move changes the position to exactly pos+delta and nothing else; a refused move changes nothing |
| Movement.TryMoveY | src/commonMain/kotlin/main.kt:154-169 | the move is committed iff both probes at pos+delta+(±6,+29) are ladders; a committed move changes the position to pos+delta and sets climbing, nothing else; a refused move changes nothing, climbing included |
| Movement.NamesDistinct | src/commonMain/kotlin/main.kt:171-173 | two animations have the same name exactly when they are the same animation, so the name comparison of `setState` is a comparison of states |
| Movement.SetState | src/commonMain/kotlin/main.kt:172-183 | afterwards the state is the requested one; only the state and the request log can change; the call changes nothing exactly when the state already has that name; otherwise exactly one transition with the given time is requested |
| Movement.Desired | src/commonMain/kotlin/main.kt:188-195 | the animation chosen is jumping iff jumping, climbing iff climbing and not jumping, walking iff walking and neither of the others, idle iff no flag is set; its time is 300 ms for idle and 100 ms otherwise |
| Movement.UpdateState | src/commonMain/kotlin/main.kt:188-195 | afterwards the state is the one the flags call for; nothing but the state and the log changes; a state that already matches is left alone |
| Movement.Steer | src/commonMain/kotlin/main.kt:198-214 | the movement part of `updated` never changes speed, jump, state or log; in mid-air it moves nothing and clears both walking and climbing |
| Movement.XProbeOffsets | src/commonMain/kotlin/main.kt:126-142 | the horizontal probe list is exactly the four corners 12 px to the left and right of the candidate position, 14 px and 28.5 px below it: four points, each at one of the corners, and each corner in the list |
| Movement.YProbeOffsets | src/commonMain/kotlin/main.kt:157-160 | the vertical probe list is exactly the two points 6 px to the left and right of the candidate position, 29 px below it: two points, each at one of them, and both in the list |
| Movement.XClearIsAll | src/commonMain/kotlin/main.kt:126-144 | the lambda-free test `XClear` is exactly the source's `all` over the probe list with "not solid" |
| Movement.YClearIsAll | src/commonMain/kotlin/main.kt:157-162 | the lambda-free test `YClear` is exactly the source's `all` over the probe list with "is a ladder" |
| Movement.Updated | src/commonMain/kotlin/main.kt:197-217 | the animation state afterwards is the one the new flags call for; speed and jump are untouched; the request log only grows (case laws in MovementLaws.UpdatedWalks, UpdatedClimbs, UpdatedMidAir) |
| Movement.Normalize | src/commonMain/kotlin/main.kt:262-263 | `normalizeAlmostZero`, here and in the axis handler at line 233: a reading is either kept or read as zero, and reads as zero exactly when it is inside the dead-zone or already zero |
| Movement.MoveCharacter | src/commonMain/kotlin/main.kt:261-309 | the tick's input step never touches speed or the jump and only grows the request log (laws in MovementLaws.DeadZoneInputIsIgnored, HorizontalOverridesVertical, MoveCharacterWalks, MoveCharacterClimbs) |
| Movement.ClimbOrFall | src/commonMain/kotlin/main.kt:313-316 | the first half of the gravity step changes no flag but climbing, and neither the animation state nor the log |
| Movement.Settle | src/commonMain/kotlin/main.kt:318-324 | the second half keeps walking, can only end a jump, leaves the speed as it was or zero, and only grows the log |
| Movement.ApplyGravity | src/commonMain/kotlin/main.kt:312-325 | the gravity step keeps walking, can only end a jump and only grows the log (case laws in MovementLaws.GravityCases) |
| Movement.Tick | src/commonMain/kotlin/main.kt:259-325 | a fixed tick never starts a jump and only grows the request log |
| Movement.Run | src/commonMain/kotlin/main.kt:259-325 | no run of fixed ticks starts a jump, and the request log of the start is a prefix of the log at the end |
| Movement.Jump | src/commonMain/kotlin/main.kt:220-228 | the jump handler never moves the player and never changes walking or climbing, and only grows the log (cases in MovementLaws.JumpFromGround, JumpInAirIgnored) |
| Movement.AxisXChanged | src/commonMain/kotlin/main.kt:232-243 | the axis handler never moves the player, changes no speed and no jump, and only grows the log (cases in MovementLaws.AxisXChangedCases) |
| MovementLaws.SetStateIdempotent | src/commonMain/kotlin/main.kt:172-183 | asking for the same animation twice is asking once, whatever the second time |
| MovementLaws.UpdateStateIdempotent | src/commonMain/kotlin/main.kt:188-195 | re-deriving the animation a second time changes nothing |
| MovementLaws.UpdateStateRequests | src/commonMain/kotlin/main.kt:172-195 | a transition is requested exactly when the derived animation differs from the current one, with that animation's cross-fade time |
| MovementLaws.AllFlagsShowJumping | src/commonMain/kotlin/main.kt:189-190 | with all three flags set the state becomes jumping, with 100 ms |
| MovementLaws.UpdatedWalks | src/commonMain/kotlin/main.kt:197-204 | with midAir false (which the fixed tick always passes, grounded or not) and left or right, the position moves by ±2.0·scale px when no probe is solid and stays otherwise; walking is set, climbing cleared, speed and jump untouched, and the animation matches the flags |
| MovementLaws.UpdatedClimbs | src/commonMain/kotlin/main.kt:205-209 | with midAir false and up or down but no horizontal intent, the position moves by ∓0.7·scale px (up is negative) when both probes are ladders and stays otherwise; walking is cleared, climbing is set by a taken step and otherwise kept |
| MovementLaws.UpdatedMidAir | src/commonMain/kotlin/main.kt:210-215 | in mid-air no move is attempted whatever the intent; both flags are cleared and `updateState` runs |
| MovementLaws.DeadZoneInputIsIgnored | src/commonMain/kotlin/main.kt:262-309 | when both axes read as zero no branch runs and the state is unchanged |
| MovementLaws.HorizontalOverridesVertical | src/commonMain/kotlin/main.kt:264-286 | when the horizontal axis is outside the dead-zone the vertical axis has no effect on the tick's input step |
| MovementLaws.MoveCharacterWalks | src/commonMain/kotlin/main.kt:264-286 | a horizontal axis at n hundredths walks by 20·n milli-px when clear and stays otherwise, with walking set and climbing cleared |
| MovementLaws.MoveCharacterClimbs | src/commonMain/kotlin/main.kt:288-308 | with the horizontal axis in the dead-zone, a vertical axis at n hundredths climbs by 7·n milli-px when both feet stay on a ladder and stays otherwise |
| MovementLaws.DeadZoneExtent | src/commonMain/kotlin/main.kt:262-263 | with the 0.075 dead-zone (`DeadZone75`), an axis reading is zeroed exactly when its magnitude is at most 7 hundredths, and a reading of 8 or more is kept unchanged; the axis handler at line 233 uses the same test |
| MovementLaws.FullLeftWalks | src/commonMain/kotlin/main.kt:262-272 | with the 0.075 dead-zone, a full-left deflection with clear corners moves the player exactly 2 px left, sets walking, clears climbing, and shows walking when not jumping |
| MovementLaws.FullUpClimbs | src/commonMain/kotlin/main.kt:262-295 | with the 0.075 dead-zone and the horizontal axis at rest, a full-up deflection with both feet on a ladder moves the player exactly 0.7 px up, sets climbing, clears walking, and shows climbing when not jumping |
| MovementLaws.OneIntentPerTick | src/commonMain/kotlin/main.kt:262-309 | the input step moves the player along one axis at most and never touches speed or the jump |
| MovementLaws.GravityCases | src/commonMain/kotlin/main.kt:312-325 | the whole gravity step case by case: a ladder move at the current speed suspends gravity; otherwise gravity is added; the speed is then tried horizontally and, only if that fails, on a ladder; when both fail the speed becomes zero and a jump in progress ends with the animation re-derived |
| MovementLaws.BlockedMovesStop | src/commonMain/kotlin/main.kt:318-324 | when all three moves are refused the player stays, the speed is zero and the jump is over |
| MovementLaws.JumpFromGround | src/commonMain/kotlin/main.kt:220-228 | with the vertical speed almost zero the press marks the jump, shows it, adds (0, −5.5) px to the speed and moves nothing; a transition is requested only when not already jumping |
| MovementLaws.JumpInAirIgnored | src/commonMain/kotlin/main.kt:221-222 | otherwise the press changes nothing |
| MovementLaws.JumpFromStandstill | src/commonMain/kotlin/main.kt:221-227 | with `isAlmostZero` true at zero, a player at zero speed (as landing leaves it, line 319) always jumps: the jump is marked and shown, and the speed becomes exactly (0, −5.5) px; the position is kept |
| MovementLaws.LandedCanJump | src/commonMain/kotlin/main.kt:318-324 | land then jump: when every move of the gravity step is refused, the jump ends with zero speed, and the next press starts a new jump with speed (0, −5.5) px |
| MovementLaws.AxisXChangedCases | src/commonMain/kotlin/main.kt:232-243 | a horizontal-axis change that reads as zero clears walking and climbing and moves nothing; any other change does nothing |
| MovementLaws.InitialCoherent | src/commonMain/kotlin/main.kt:50 | the starting state at (200, 150), still and idle, is coherent |
| MovementLaws.UpdateStateCoherent | src/commonMain/kotlin/main.kt:188-195 | re-deriving the animation restores `Coherent` from any flags |
| MovementLaws.TryMoveXCoherent | src/commonMain/kotlin/main.kt:123-150 | the horizontal mover keeps `Coherent` |
| MovementLaws.TryMoveYCoherent | src/commonMain/kotlin/main.kt:154-169 | the vertical mover keeps `Coherent` |
| MovementLaws.UpdatedCoherent | src/commonMain/kotlin/main.kt:197-217 | `updated` keeps `Coherent` |
| MovementLaws.MoveCharacterCoherent | src/commonMain/kotlin/main.kt:262-309 | the tick's input step keeps `Coherent` |
| MovementLaws.ApplyGravityCoherent | src/commonMain/kotlin/main.kt:312-325 | the gravity step keeps `Coherent` |
| MovementLaws.JumpCoherent | src/commonMain/kotlin/main.kt:220-228 | the jump handler keeps `Coherent` |
| MovementLaws.AxisXChangedCoherent | src/commonMain/kotlin/main.kt:232-243 | the axis handler keeps `Coherent` |
| MovementLaws.TickCoherent | src/commonMain/kotlin/main.kt:259-325 | one fixed tick keeps `Coherent` |
| MovementLaws.RunCoherent | src/commonMain/kotlin/main.kt:259-325 | any number of ticks keeps `Coherent` |
| MovementLaws.TickAtRest | src/commonMain/kotlin/main.kt:259-325 | a player standing still on solid ground, with no input, is left exactly as it was by a tick |
| MovementLaws.RunAtRest | src/commonMain/kotlin/main.kt:259-325 | the same holds for any number of ticks without input |
| MovementLaws.NoInputKeepsClimbing | src/commonMain/kotlin/main.kt:166 | once set, the climbing flag survives any number of ticks without input |
| SceneMain.PlayerScene.constructor | src/commonMain/kotlin/main.kt:50 | the scene starts at (200, 150), with zero speed, no flag set, idle, and coherent |
| SceneMain.PlayerScene.TryMoveDeltaX | src/commonMain/kotlin/main.kt:123-150 | the in-place mover returns and does exactly what `Movement.TryMoveX` describes, changing only the position |
| SceneMain.PlayerScene.TryMoveDeltaY | src/commonMain/kotlin/main.kt:154-169 | the in-place mover returns and does exactly what `Movement.TryMoveY` describes, changing only the position and climbing |
| SceneMain.PlayerScene.SetState | src/commonMain/kotlin/main.kt:172-183 | the state becomes the requested one; nothing changes when it already was; otherwise as `Movement.SetState` |
| SceneMain.PlayerScene.UpdateState | src/commonMain/kotlin/main.kt:188-195 | the state becomes the one the flags call for, as `Movement.UpdateState` |
| SceneMain.PlayerScene.Steer | src/commonMain/kotlin/main.kt:198-214 | the movement part of `updated` leaves the state `Movement.Steer` computes |
| SceneMain.PlayerScene.Updated | src/commonMain/kotlin/main.kt:197-217 | `updated` leaves the state `Movement.Updated` computes and keeps the object coherent |
| SceneMain.PlayerScene.OnJumpPressed | src/commonMain/kotlin/main.kt:220-228 | the jump handler never moves the player; on the ground it marks and shows the jump and adds the impulse; otherwise it changes nothing; it keeps the object coherent |
| SceneMain.PlayerScene.OnAxisXChanged | src/commonMain/kotlin/main.kt:232-243 | the axis handler moves nothing, changes no speed, and leaves the state `Movement.AxisXChanged` computes |
| SceneMain.PlayerScene.MoveCharacter | src/commonMain/kotlin/main.kt:261-309 | the tick's input step leaves the state `Movement.MoveCharacter` computes and keeps the object coherent |
| SceneMain.PlayerScene.ClimbOrFall | src/commonMain/kotlin/main.kt:313-316 | the first half of the gravity step, as `Movement.ClimbOrFall` |
| SceneMain.PlayerScene.Settle | src/commonMain/kotlin/main.kt:318-324 | the second half of the gravity step, as `Movement.Settle` |
| SceneMain.PlayerScene.ApplyGravity | src/commonMain/kotlin/main.kt:312-325 | the gravity step leaves the state `Movement.ApplyGravity` computes and keeps the object coherent |
| SceneMain.PlayerScene.FixedUpdate | src/commonMain/kotlin/main.kt:259-325 | one fixed tick, input then gravity, leaves the state `Movement.Tick` computes and keeps the object coherent |

## Left out

- Engine start-up: `main`, the `Korge(...)` window, `sceneContainer`, `onStageResized` and the help text. These are I/O and engine setup.
- Level and asset loading (`readLDTKWorldExt`, `createCollisionMaps`, `LDTKViewExt`, `readImageDataContainer`, `imageDataView`). These are library calls. Only the lookup `getPixel` stays, as a parameter.
- Camera follow (`createSize`, `currentRect` and the "update camera" block). It works in floating point and calls `Rectangle.getRectWithAnchorClamped`, a library function this model does not contain.
- The animator's tween and the `player.animation` assignment. They are modelled only as a log of requested transitions, each with its animation and time.
- `player.scaleX` (the facing flip) and `player.speed` (the animation playback speed). They are presentation only and never read by the movement logic.
- Registration of the virtual controller and its callbacks. The handlers are plain methods, and the tick takes a snapshot of the axes.
- `normalizeAlmostZero(.075f)` and `isAlmostZero`. These are library functions, so they are abstract tests in `Env`. `Normalize` keeps the visible behaviour of the first: a value in the dead-zone reads as zero, any other value is kept. Its threshold 0.075 is visible at lines 233 and 262-263; only its comparison (`<` or `<=`) is not, and on readings in hundredths that does not matter, since 7.5 is not a reading. `DeadZone75` states that dead-zone exactly (magnitude at most 7), and `DeadZoneExtent`, `FullLeftWalks` and `FullUpClimbs` take it as a precondition on `Env`. Of the second, the model uses only that it holds at exactly zero, which is true whatever the threshold. `JumpFromStandstill` and `LandedCanJump` take this as a precondition on `Env`.
- Floating point. All positions, speeds and scales are exact fixed-point integers, so rounding is not modelled.
- The gravity increment `gravity * FREQ.timeSpan.seconds` is a parameter of each tick. It is not computed from `gravity` and 60 Hz.
- `currentPlayerPos` and `player.pos`. The source always assigns them together, so they are one field, `pos`.
- The `@KeepOnReload` and `@ViewProperty` fields (`initZoom`, `zoom`, `gravity`) and `teleportInitialPos`. They are editor and hot-reload plumbing.
- The commented-out code (the zoom button, the mascot armature, the coordinate text).
