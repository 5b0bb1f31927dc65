# SnakeBounce movement controller in Dafny

This project models the movement logic of the SnakeBounce game: the
`Game1` class that moves a snake sprite across the screen once per
`Update`.

`Update` calls only the buffered handler, `CheckKeyboardInputBuffer`. We call
one run of it a *tick*. A tick does four things in order:

1. It chooses the speed: 5, or 7.5 while Space is held.
2. It chooses a candidate direction by a fixed key priority: Up, Down, Left,
   then Right. A key is skipped when its direction is the exact opposite of
   the last committed direction.
3. It adds the candidate to a FIFO queue. The candidate must be non-zero and
   the queue must hold fewer than `MAX_BUFFER_SIZE` (2) entries.
4. It commits the oldest queued entry as the new last direction, but only when
   more than one entry is queued. It then moves the position by the last
   direction times the speed, even when nothing was committed.

The two older, unbuffered handlers are modelled as displacement functions:
`CheckKeyboardInput` and the movement part of `CheckGamePadInput`.

Layout:

- `vectors.dfy` (module `Vectors`) stands in for the engine's `Vector2`.
  Directions are integer pairs. Positions and speeds are exact reals. Screen y
  grows downwards, so `UnitY` is "down".
- `input.dfy` (module `Input`) holds the key and gamepad snapshots, the speed
  rule and the candidate rule with its anti-reversal guard. It also holds the
  displacements of the two unbuffered handlers.
- `controller.dfy` (module `Controller`) holds the pure tick `Step` on a
  `State` value, runs of many ticks, and the lemmas about them. It also holds
  class `Controller`. Its fields `buffer`, `lastDirection` and `position` are
  updated in place. `Tick` is proved to produce exactly `Step` of the old
  fields.

Key and button states are parameters (`Keys`, `Pad`). The model does not poll
any devices.

The guard in step 2 compares the candidate with the last *committed*
direction. It does not look at the entry still waiting in the queue. So a
reversal can still reach the committed direction on consecutive ticks, as
`ReversalThroughBuffer` shows. From an empty queue while moving down, hold
Left, then Right, then Down. The second tick commits Left and the third
commits Right. The model keeps this behaviour as written.

## Model

| member | source | states |
|---|---|---|
| `Input.Speed` | Game1.cs:152-156 | The speed is 5 (`MOVEMENT_SPEED`) when Space is up and 7.5 (5 × 1.5) when it is held. It is always positive. |
| `Input.Candidate` | Game1.cs:158-173 | The candidate is either zero or a held axis direction. It is never the exact opposite of a non-zero last direction. |
| `Input.CandidatePicksFirst` | Game1.cs:158-173 | The candidate matches the reference definition of priority: it is the first of Up, Down, Left, Right that is held and not opposite the last direction. It is zero exactly when no such direction exists. |
| `Input.UpRejectedWhileMovingDown` | Game1.cs:158-161 | While moving down, a lone Up request gives a zero candidate. |
| `Input.KeyboardDirection` | Game1.cs:76-91 | The unbuffered direction is zero exactly when no direction key is held. Otherwise it is a held axis direction. |
| `Input.KeyboardPicksFirst` | Game1.cs:76-91 | `CheckKeyboardInput` picks the first held direction in the order Up, Right, Down, Left. |
| `Input.KeyboardDisplacement` | Game1.cs:70-91 | The unbuffered keyboard move changes exactly one coordinate by exactly the speed. It is zero exactly when no direction key is held. It is the speed times `KeyboardDirection`, so the sign follows the key that won the priority. |
| `Input.DPadDisplacement` | Game1.cs:120-143 | Each D-pad button contributes on its own. The displacement is the speed times the net pull on each axis (right minus left, down minus up). |
| `Input.PadDisplacement` | Game1.cs:100-144 | With the stick non-zero, the move is the stick times the speed with y negated. With the stick at rest, it is the speed times the D-pad's net pull. The speed comes from the A button. |
| `Input.DPadOppositesCancel` | Game1.cs:120-143 | With the stick at rest, holding both opposite buttons, or neither, leaves that coordinate unchanged. Up, Down, Left or Right alone moves its coordinate by exactly the speed in its own direction. |
| `Input.StickOverridesDPad` | Game1.cs:100-118 | A non-zero thumbstick makes the D-pad irrelevant. The move is the stick times the speed, with the y axis inverted. |
| `Controller.Offer` | Game1.cs:175-179 | The enqueue step either leaves the queue unchanged or appends the candidate at the back. It appends exactly when the candidate is non-zero and the queue holds fewer than `MAX_BUFFER_SIZE` entries. |
| `Controller.CommitLast` | Game1.cs:182-185 | With more than one entry queued, the new last direction followed by the remaining queue gives back the queue, so the oldest entry is committed. Otherwise the last direction is kept. |
| `Controller.CommitRest` | Game1.cs:182-185 | With more than one entry queued, exactly one entry leaves, from the front, and the rest keep their order. Otherwise the queue is unchanged. |
| `Controller.Step` | Game1.cs:147-187 | The value form of one tick. A queue within capacity ends with at most one entry. The new last direction is either the old one or the oldest of the queue with the candidate appended. |
| `Controller.OfferGuards` | Game1.cs:175-179 | The enqueue step adds at most the candidate. A zero candidate is never queued, and nothing is queued when the queue is full. A queue within capacity stays within capacity. |
| `Controller.StepBounded` | Game1.cs:176-185 | A tick that starts within capacity ends with at most one queued entry. A zero direction never enters the queue. |
| `Controller.StepFifo` | Game1.cs:176-185 | In one tick, the old queue plus what was enqueued equals what was committed plus the new queue. At most one entry is committed, and only when more than one is queued. It is the oldest entry. Without a commit, the last direction does not change. |
| `Controller.RunFifo` | Game1.cs:176-185 | Over any sequence of ticks, the starting queue plus every accepted direction equals every committed direction plus the final queue. Nothing is lost or reordered. |
| `Controller.InitInv` | Game1.cs:27-37 | The initial state satisfies `Inv`. |
| `Controller.StepPreservesInv` | Game1.cs:158-185 | Each tick keeps these facts: at most one entry is queued, the last direction is an axis unit, and every queued entry is an axis unit. |
| `Controller.RunPreservesInv` | Game1.cs:158-185 | That invariant holds after any number of ticks. |
| `Controller.AcceptsExactlyNonZero` | Game1.cs:176 | In a reachable state the capacity test never fires: a candidate is queued exactly when it is non-zero. |
| `Controller.ReachableFromInit` | Game1.cs:27-37 | After any run from the initial state: the queue holds at most one entry, the last direction is an axis unit, and the next non-zero candidate is queued. |
| `Controller.StepMoves` | Game1.cs:182-186 | The position moves by exactly the new last direction times the speed. Without a commit, that is the old direction (drift). |
| `Controller.StepNeverStops` | Game1.cs:186 | In a reachable state every tick changes exactly one coordinate, by exactly the speed. |
| `Controller.StepFromEmpty` | Game1.cs:176-185 | From an empty queue, a non-zero candidate is queued and nothing is committed. |
| `Controller.StepWithOneQueued` | Game1.cs:176-185 | With one entry waiting, a non-zero candidate commits that entry and takes its place. |
| `Controller.ReversalThroughBuffer` | Game1.cs:158-185 | From an empty queue while moving down, Left then Right then Down commits Left, then Right on the next tick. Consecutive commits can reverse. |
| `Controller.Controller.constructor` | Game1.cs:27-37 | The new controller has an empty queue, last direction down, position at the origin, and satisfies the invariant. |
| `Controller.Controller.Enqueue` | Game1.cs:178 | Appends the direction at the back of the queue. |
| `Controller.Controller.Dequeue` | Game1.cs:184 | Removes the front entry of a non-empty queue and returns it. The rest keep their order. |
| `Controller.Controller.Tick` | Game1.cs:147-187 | `CheckKeyboardInputBuffer` leaves the fields equal to `Step` of the old fields. It keeps the invariant, so the queue holds at most one entry afterwards. |
| `Controller.Controller.CheckKeyboardInput` | Game1.cs:68-92 | Adds the keyboard displacement to the position. Nothing else changes. |
| `Controller.Controller.CheckGamePadInput` | Game1.cs:94-145 | Adds the gamepad displacement to the position. Nothing else changes. |

## Left out

- Content loading and sprite creation (`LoadContent`, the texture atlas) are left out. They are content-pipeline I/O against a library that is not part of this model.
- Animation updates and drawing (`_snake.Update`, `_apple.Update`, `Draw`) are left out. They are presentation only. The apple is only drawn at a fixed spot and has no logic.
- The Back/Escape exit check and the polling of `Keyboard`, `GamePad` and `Input` are left out. Key and button states are parameters instead.
- Gamepad vibration (`SetVibration` and `StopVibration`) is left out. It is a haptics side effect through a foreign API.
- Float32 rounding of `Vector2` is left out. Positions, speeds and thumbstick values are exact reals, so long runs do not accumulate rounding error as the game does.
- Arena clamping, wall reflection, collision and respawn are not modelled: `Game1.cs` does not implement them, so nothing bounds the position and the apple never moves.
- Configurable buffering policies (anti-reversal off, committing from a single queued entry, stopping when nothing is committed) are not modelled. `Game1.cs` fixes one policy: anti-reversal on, commit only with two queued entries, and drift when nothing is committed.
- `Update` never calls the unbuffered handlers. They are modelled as separate operations and are not wired into `Tick`.
