# Player controller of a top-down action game, in Dafny

This project models the per-frame player controller of a small 2D game built
on an entity-component-system engine. Two systems run every frame over the
player entity:

- the **keyboard system** remembers the old facing direction, turns the four
  arrow keys into a velocity with one component per axis in {-1, 0, 1},
  updates the facing direction, and runs the Idle / Walking / Attacking state
  machine. An attack installs a one-shot 0.25 s state timer; while that timer
  is present the state is not re-evaluated, and the timer is removed on the
  tick it finishes;
- the **animation system** picks a four-frame table from the state and the
  facing direction, freezes Idle on the table's first frame, and on each
  completion of the repeating 0.1 s animation timer either resets an
  out-of-table frame or moves one frame on, wrapping at the table's last entry.

Layout:

- `wrappers.dfy` (`Wrappers`): `Option`, for a component an entity may lack.
- `timing.dfy` (`Timing`): the engine timer the controller ticks. The engine
  is not part of this model's source; its tick rule is reconstructed here:
  time is added, a repeating timer keeps the remainder past whole periods, a
  one-shot timer stops at its duration and reports completion once.
- `sprites.dfy` (`Sprites`): directions, states, the frame tables of the
  walking and attacking atlases, and the 4 by 4 row-major loop that cuts the
  attacking atlas out of the sheet.
- `controller.dfy` (`Controller`): a snapshot `PlayerView` of the player's
  components; specification functions for one keyboard step, one animation
  step, the deferred commands and whole frames; the class `Player`, whose
  fields are the components and whose methods update them in place as the
  source does, each proved equal to its specification function; the two
  systems over a query of entities; and one frame of the game loop.
- `properties.dfy` (`ControllerProperties`): the rules the controller keeps,
  as lemmas over the specification functions, including an invariant that
  holds from spawn on and the whole life of one attack.

Modelling choices:

- Times are whole milliseconds; the frame's elapsed time is a parameter.
- Keyboard input is a parameter: the arrows held and whether Space went down
  this frame.
- The engine applies `Commands` after the systems have run. The keyboard
  system therefore returns the timer insertion or removal as a `Command`, and
  `RunFrame` applies it after the animation system. The removal or insertion
  is seen by the next frame's keyboard system.
- The two systems are registered without an ordering constraint; the model
  runs them in registration order, keyboard first.
- `ObjectDirection::new(d)` is not part of this model; the spawned player is
  taken to face `d` both currently and previously.
- The direction tests at src/player.rs:186-196 and :200-210 end in a fallback
  table `[0, 0, 0, 0]`. With four directions that fallback is unreachable, and
  the model has none.
- One might expect the frame index always to lie in the active table, and
  frame 3 of [0, 1, 2, 3] to be followed by 0. The code does neither, and the
  model follows the code. After a turn, the old frame
  stays on screen until the animation timer next finishes. The wrap test is
  "reaches or exceeds the last entry", so the last frame of a table is never
  shown (`LastFrameNeverShown`).

Behaviour the proofs make visible:

- The walking and attacking atlases both use frames 0..15 but order the
  directions differently. A switch from walking right to attacking up keeps
  the cursor running instead of restarting it (`AtlasSwitchKeepsCursor`).
- A state timer is inserted on the Space frame but first ticked on the next
  frame. The Space frame's own elapsed time does not count toward the 0.25 s
  (`AttackLifecycle`).

## Model

| member | source | states |
|---|---|---|
| `Timing.Tick` | src/player.rs:142-143 | ticking adds the elapsed time; it reports completion exactly when an unfinished timer reaches its duration; a repeating timer keeps the remainder below its period; a one-shot timer stops at its duration |
| `Timing.OneShotFinishesOnce` | src/player.rs:160 | a non-repeating timer reports completion on one tick only |
| `Sprites.AtlasFor` | src/player.rs:182-199 | the attacking atlas is used exactly in the Attacking state |
| `Sprites.FrameTable` | src/player.rs:182-212 | Idle and Walking get the walking table of the facing direction, Attacking the attacking one; every table is four consecutive frames starting on a row of the 16-frame atlas |
| `Sprites.WalkDirectionOf` | src/player.rs:6-9 | each of the frames 0..15 is in the walking table of exactly one direction, so the four walking tables are disjoint and cover 0..15 |
| `Sprites.AttackDirectionOf` | src/player.rs:11-14 | each of the frames 0..15 is in the attacking table of exactly one direction, so the four attacking tables are disjoint and cover 0..15 |
| `Sprites.TablesDisjoint` | src/player.rs:6-14 | within one atlas, the tables of two different directions share no frame |
| `Sprites.LastEntries` | src/player.rs:6-14 | a frame below 16 is the last entry of some table exactly when it is 3 modulo 4 |
| `Sprites.AttackAtlasRects` | src/player.rs:55-64 | the attacking atlas is 16 cells of 32 by 32, frame i at column i mod 4 and row i div 4, starting 128 pixels down |
| `Sprites.AttackCellsFit` | src/player.rs:51-64 | every attacking frame lies inside the 272 by 256 sheet, and each direction's attacking table is one row of four cells from left to right |
| `Controller.VelocityOf` | src/player.rs:118-135 | each velocity component is -1, 0 or 1; x is -1 exactly when Left is held and 1 exactly when Right but not Left is held; y likewise for Up over Down; the velocity is zero exactly when no arrow key is held |
| `Controller.NextFrame` | src/player.rs:222-231 | on a finished animation tick the frame moves one on exactly when it is one of the table's first two entries, and otherwise returns to the first entry; the result is one of the first three entries |
| `Controller.FirstIdle` | src/player.rs:216-219 | the place where the animation loop stops: every entity before it is not Idle, and the one at it is Idle |
| `Timing.NewTimer` | src/player.rs:87 | no contract; a timer that has not run: nothing elapsed, not finished (`Timer::from_seconds`, also at :160) |
| `Timing.JustFinished` | src/player.rs:143 | no contract; a tick reported at least one completion; when that happens is stated by `Timing.Tick` (also used at :222) |
| `Sprites.WalkTable` | src/player.rs:186-196 | no contract; the walking table of a direction; its shape and disjointness are stated by `Sprites.FrameTable`, `Sprites.WalkDirectionOf` and `Sprites.TablesDisjoint` |
| `Sprites.AttackTable` | src/player.rs:200-210 | no contract; the attacking table of a direction; its shape and disjointness are stated by `Sprites.FrameTable`, `Sprites.AttackDirectionOf` and `Sprites.TablesDisjoint` |
| `Controller.AttackTimer` | src/player.rs:160 | no contract; the one-shot 250 ms state timer; what it does is stated by `ControllerProperties.AttackFrame` and `ControllerProperties.AttackLifecycle` |
| `Controller.FacingAfter` | src/player.rs:118-135 | no contract; the facing direction by priority Up, Down, Left, Right; its rules are `ControllerProperties.FacingPriority` and `ControllerProperties.FacingAgreesWithVelocity`, and `Controller.Player.KeyboardTick` proves the source's sequence of writes equal to it |
| `Controller.KeyboardStep` | src/player.rs:115-161 | no contract; one keyboard tick on a snapshot; its rules are `ControllerProperties.KeyboardSnapshotsPrevious`, `ControllerProperties.TimerLocksState` and `ControllerProperties.FreeStateMachine` |
| `Controller.AnimateStep` | src/player.rs:181-232 | no contract; one animation tick on a snapshot; its rules are `ControllerProperties.IdleFreezes`, `ControllerProperties.CursorMovesOnlyOnFinish`, `ControllerProperties.TurnRestartsAnimation` and `ControllerProperties.AtlasSwitchKeepsCursor` |
| `Controller.ApplyCommand` | src/player.rs:145-160 | no contract; the deferred insertion or removal of the state timer; used by `ControllerProperties.AttackFrame` and `ControllerProperties.FreeFrame` |
| `Controller.Frame` | src/player.rs:36-38 | no contract; keyboard step, animation step, then the deferred command; its rules are `ControllerProperties.FrameKeepsInv`, `ControllerProperties.AttackFrame` and `ControllerProperties.FreeFrame` |
| `Controller.Run` | src/player.rs:36-38 | no contract; a sequence of frames; its rules are `ControllerProperties.RunKeepsInv`, `ControllerProperties.AttackHolds`, `ControllerProperties.AttackLifecycle` and `ControllerProperties.RunAppend` |
| `Controller.Spawned` | src/player.rs:82-89 | no contract; the player's components at spawn; `ControllerProperties.SpawnedInv` states that they satisfy the frame invariant |
| `Controller.Player.Spawn` | src/player.rs:82-89 | the spawned player is Idle, still, facing down, with no state timer, a repeating 0.1 s animation timer, the walking atlas and frame 0 |
| `Controller.Player.KeyboardTick` | src/player.rs:115-161 | the sequence of field writes in the source leaves the components and the command equal to the keyboard step: facing by priority Up, Down, Left, Right, else unchanged |
| `Controller.Player.AnimateTick` | src/player.rs:181-232 | the field writes leave the components equal to the animation step; the loop is told to stop exactly for an Idle entity |
| `Controller.Player.Apply` | src/player.rs:145-160 | the deferred command inserts or removes the state timer and changes nothing else |
| `Controller.KeyboardSystem` | src/player.rs:107-113 | the keyboard step is applied only when the query holds exactly one player; otherwise nothing changes and no command is left |
| `Controller.AnimateSystem` | src/player.rs:177-219 | entities up to and including the first Idle one are animated, those after it are left as they were |
| `Controller.RunFrame` | src/player.rs:36-38 | one frame is the keyboard system, then the animation system, then the deferred command |
| `ControllerProperties.KeyboardSnapshotsPrevious` | src/player.rs:115 | after a keyboard tick the previous direction is the facing direction held before it |
| `ControllerProperties.FacingPriority` | src/player.rs:118-135 | a held vertical key overrides a horizontal one, Left beats Right, Up beats Down, the new facing is always a held key's direction, and with no arrow held it is unchanged |
| `ControllerProperties.FacingAgreesWithVelocity` | src/player.rs:118-135 | while moving, the facing direction's unit vector agrees with the velocity on its axis, and it is vertical whenever the velocity has a vertical part |
| `ControllerProperties.RightHeldWalks` | src/player.rs:118-161 | holding Right from spawn gives Walking, facing right, velocity (1, 0); releasing it gives Idle still facing right |
| `ControllerProperties.TimerLocksState` | src/player.rs:141-148 | while a state timer is present the state is unchanged, no new timer is requested, and removal is requested exactly when the tick finishes the timer |
| `ControllerProperties.FreeStateMachine` | src/player.rs:149-161 | with no timer a Space press gives Attacking and a one-shot 250 ms timer; otherwise no command, never Attacking, and Idle exactly when no arrow is held |
| `ControllerProperties.IdleFreezes` | src/player.rs:216-219 | Idle shows the first frame of the walking table for its direction and leaves the animation timer untouched |
| `ControllerProperties.CursorMovesOnlyOnFinish` | src/player.rs:221-231 | Walking and Attacking tick the animation timer; the frame is unchanged unless the tick finishes it, and after a finishing tick it is one of the table's first three entries |
| `ControllerProperties.TurnRestartsAnimation` | src/player.rs:223-225 | after a turn within one atlas, the next finishing tick shows the first frame of the new direction's table |
| `ControllerProperties.AtlasSwitchKeepsCursor` | src/player.rs:224-227 | after a switch from walking right to attacking up, either of the first two walking-right frames is advanced by one on the next finishing tick, not reset |
| `ControllerProperties.SpawnedInv` | src/player.rs:82-89 | the spawned player satisfies the frame invariant |
| `ControllerProperties.FrameKeepsInv` | src/player.rs:115-231 | every frame keeps the invariant: velocity components in {-1, 0, 1}; a state timer only while Attacking and only as a running 250 ms one-shot; the animation timer a 100 ms repeating one; the frame below 16 and never a table's last entry; the atlas matching the state |
| `ControllerProperties.RunKeepsInv` | src/player.rs:115-231 | any sequence of frames keeps the invariant |
| `ControllerProperties.LastFrameNeverShown` | src/player.rs:227-230 | from spawn on, the frame index stays below 16 and is never 3 modulo 4, the last entry of every table |
| `ControllerProperties.TimerOnlyWhileAttacking` | src/player.rs:155-160 | from spawn on, a state timer is present only in the Attacking state |
| `ControllerProperties.AttackFrame` | src/player.rs:141-148 | a frame with a running attack timer stays Attacking; the timer is gone afterwards exactly when its elapsed time reaches 250 ms, and otherwise has counted the frame's time |
| `ControllerProperties.AttackHolds` | src/player.rs:141-148 | frames whose times add up to less than what is left of the timer keep the state Attacking and the same timer, whatever keys are pressed, so Space presses are dropped |
| `ControllerProperties.FreeFrame` | src/player.rs:149-161 | a frame without a timer installs the 250 ms timer exactly on a Space press, and otherwise ends Walking or Idle by whether an arrow is held |
| `ControllerProperties.AttackLifecycle` | src/player.rs:141-161 | after Space, the player attacks while less than 250 ms has been counted; the attack still shows on the frame the timer runs out, which removes the timer; the frame after that re-evaluates the state |

## Left out

- `Velocity` is the vector before `normalize_or_zero`; the engine stores the same vector scaled to unit length in floating point. Only whether it is zero matters to the controller, and normalising keeps that.
- Timer durations are whole milliseconds. The 0.1 s of the animation timer is a 32-bit float in the source, and its conversion rounding is not modelled. Pausing, and timers of zero duration, are not modelled; the controller uses neither.
- `Timing.Tick`: the times-finished counter is kept unbounded; the engine narrows it to 32 bits, which only matters for a tick spanning more than 2^32 animation periods.
- The spawn system's engine calls are not modelled: loading the texture, building the walking atlas with the engine's grid helper, registering the atlases, spawning the entity bundle. Only the components it gives the player (`Controller.Player.Spawn`) and the attacking atlas's rectangle loop (`Sprites.AttackAtlasRects`) are.
- Atlases are modelled by which of the two they are, not as texture handles.
- Engine scheduling is not modelled: query iteration order is the order of the sequence given to `AnimateSystem`. Deferred commands are applied once per frame, after both systems.
- The movement integration system (src/main.rs:59-69) is not modelled. It does floating-point position updates, and it reads a `speed` field that `Movable` (src/components.rs:8-10) does not declare.
- The attack-collision system (src/main.rs:71-94) is not modelled; it is a call into the engine's box-overlap test.
- Window, camera and asset bootstrapping (src/main.rs:24-57) is not modelled. Neither are the component declarations (src/components.rs) or the unused root-level player.rs, which has no logic.
