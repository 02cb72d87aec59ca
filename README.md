# Pong game systems in Dafny

A model of the per-frame game logic of a small Pong game built on the Bevy
engine (`src/main.rs`). The game spawns two paddles and one ball at startup
and runs four systems every frame:

- **wall bounce** keeps the ball between the walls at `y = -360` and
  `y = 360`, and reflects its vertical velocity only if the ball is still
  heading into the wall it crossed;
- **paddle bounce** checks the ball against each paddle and, on overlap,
  negates the horizontal velocity only if the ball moves towards that
  paddle's side (left paddle: `vx < 0`, right paddle: `vx > 0`);
- **ball move** adds `velocity * min(0.2, dt)` to the ball's position;
- **paddle move** turns each player's two keys into a movement of +1, 0 or
  -1, moves the paddle by `128 * movement * dt` and clamps it into
  `[-360, 360]`.

The model has three modules:

- `Geometry` (`geometry.dfy`): 2-D vectors over the reals, `Abs`, `Min`,
  `Max`, Rust's `f32::clamp` and an axis-aligned box overlap test.
- `Pong` (`pong.dfy`): the entities as datatypes (`Side`, `Paddle`, `Ball`,
  `Keyboard`), the startup constants, and one pure step function per system
  applied to one entity (`WallBounce`, `BounceOff`/`BounceAll`, `BallMove`,
  `PaddleMove`). The lemmas beside them state what the systems guarantee.
- `Game` (`world.dfy`): the class `World`, which holds the ball and paddle
  entities in arrays. It has one method per system that loops over those
  arrays and updates them in place, as the game's entity queries do. Each
  method is proved to leave every entity equal to the step function applied
  to its old value, and to keep the world invariant `Valid`:
  - exactly one ball, of the startup size, with no zero velocity component;
  - the left and right paddles in their startup columns;
  - both paddles inside the field.

Positions, velocities and times are mathematical reals. The keyboard and the
frame time are parameters of the methods.

## Model

| member | source | states |
|---|---|---|
| `Geometry.Clamp` | src/main.rs:101 | the result lies in `[lo, hi]`; an in-range value is kept; a value below `lo` becomes `lo` and one above `hi` becomes `hi` |
| `Pong.WallBounce` | src/main.rs:119-132 | afterwards `y` is in `[-360, 360]` whatever it was before; `x`, `vx` and the size are unchanged and `abs(vy)` is kept; a ball below the bottom wall ends on it with `vy >= 0`, one above the top wall ends on it with `vy <= 0`; an in-field ball is unchanged |
| `Pong.WallBounceIdempotent` | src/main.rs:119-132 | applying the wall bounce a second time changes nothing |
| `Pong.WallBounceReflects` | src/main.rs:120-131 | a ball with `vy != 0` pushed past a wall leaves it heading back into the field: `vy == abs(vy) > 0` at the bottom, `vy == -abs(vy) < 0` at the top |
| `Pong.BounceOff` | src/main.rs:141-154 | against one paddle: position, size and `vy` are unchanged and `abs(vx)` is kept; with no overlap the ball is unchanged; on overlap with a left paddle `vx` becomes `abs(vx)` (negated only if it was negative), with a right paddle `-abs(vx)` (negated only if it was positive) |
| `Pong.BounceOffIdempotent` | src/main.rs:142-153 | checking the same paddle twice gives the same ball as checking it once, so a ball that stays inside a paddle is not flipped back |
| `Pong.BounceAll` | src/main.rs:140-155 | the ball checked against every paddle in turn (the inner loop over the paddle query); over any sequence of paddles it keeps position, size and `vy`, and keeps `abs(vx)`: the paddle bounce only ever negates `vx` |
| `Pong.BounceAllNoContact` | src/main.rs:140-155 | a ball that overlaps no paddle is unchanged by the paddle bounce |
| `Pong.BounceAllSingleContact` | src/main.rs:140-155 | a ball that overlaps exactly one paddle gets that paddle's bounce, wherever that paddle stands in the iteration order |
| `Pong.SetupPaddlesExclusive` | src/main.rs:50-72 | with the startup sizes (8x8 ball, 30x120 paddles) and columns (x = -512 and x = 512), no ball can overlap both paddles at once |
| `Pong.SetupPaddleBounce` | src/main.rs:135-157 | in the game as set up, the paddle bounce equals the bounce off the one paddle the ball may touch, and running it twice changes nothing more |
| `Pong.Elapsed` | src/main.rs:109 | the integrated time is at most 0.2 s, equals `dt` when `dt <= 0.2`, equals 0.2 when `dt >= 0.2`, and is non-negative when `dt` is |
| `Pong.BallMove` | src/main.rs:109-112 | velocity and size are unchanged; for `0 <= dt <= 0.2` the ball moves by exactly `v * dt`; for `dt >= 0.2` it moves by exactly `v * 0.2` |
| `Pong.BallMoveBounded` | src/main.rs:109-112 | for `dt >= 0`, the displacement on each axis is at most `abs(v) * 0.2`, in the direction of the velocity |
| `Pong.BallMoveExamples` | src/main.rs:109-112 | at `v = (128, 0)`: a 0.1 s frame moves the ball 12.8 units; 0.5 s and 1 s frames both move it 25.6 units |
| `Pong.Movement` | src/main.rs:81-99 | movement is +1 exactly when only the side's up key is held, -1 exactly when only its down key is held, and 0 exactly when both or neither are held |
| `Pong.PaddleMove` | src/main.rs:100-101 | afterwards `y` is in `[-360, 360]`; side, `x` and size are unchanged; with movement 0 an in-field paddle stays put; driven up it ends at `min(360, y + 128 dt)`; driven down at `max(-360, y - 128 dt)` |
| `Pong.DriveUp` | src/main.rs:100-101 | holding only the up key over frames `dts` moves an in-field paddle to `min(360, y + 128 * sum(dts))` |
| `Pong.DriveDown` | src/main.rs:100-101 | holding only the down key over frames `dts` moves an in-field paddle to `max(-360, y - 128 * sum(dts))` |
| `Pong.DriveIdle` | src/main.rs:100-101 | holding both keys or neither leaves an in-field paddle where it is, over any number of frames |
| `Pong.HeldUpSaturates` | src/main.rs:100-101 | a paddle driven up never moves down and never passes 360; once the frame times add up to the remaining distance it sits at exactly 360 |
| `Game.StepPaddle` | src/main.rs:80-101 | the loop body for one paddle: it builds the movement with `+=`/`-=` from the side's keys, moves and clamps, and the result equals `PaddleMove` |
| `Game.World.constructor` | src/main.rs:49-72 | startup: one ball at the centre with velocity (128, 128) and size 8x8; a left paddle at x = -512 and a right paddle at x = 512, both 30x120 at y = 0; the world is `Valid` |
| `Game.World.WallBounceSystem` | src/main.rs:116-133 | every ball becomes `WallBounce` of its old value, so every ball ends in `[-360, 360]`; `Valid` is kept |
| `Game.World.PaddleBounceSystem` | src/main.rs:135-157 | every ball becomes `BounceAll` of its old value over the paddles in order; the ball equals the bounce off the single paddle it may touch; `Valid` is kept, so `vx` never becomes 0 |
| `Game.World.BallMoveSystem` | src/main.rs:105-114 | every ball becomes `BallMove` of its old value with the capped time; `Valid` is kept |
| `Game.World.PaddleMoveSystem` | src/main.rs:75-103 | every paddle becomes `PaddleMove` of its old value; `Valid` is kept, so both paddles stay in `[-360, 360]` in their columns |
| `Game.World.Frame` | src/main.rs:31-34 | one frame in registration order: the ball ends as `BallMove(BounceAll(WallBounce(old ball), old paddles), dt)`; each paddle ends as `PaddleMove` of its old value; `Valid` is kept |

## Left out

- Rendering, window mode, cameras, sprite materials and system registration in `main` and `setup` (src/main.rs:20-73) are engine set-up. Only the constants that `setup` gives the entities are modelled.
- The keyboard resource is modelled as four booleans: W, S, Up and Down held or not. The frame time is a real parameter `dt`. Nothing requires `dt >= 0`; the properties that need it say so.
- The engine's `collide` function is not part of this model. It is replaced by a strict axis-aligned box overlap test on centre ± size/2, and this is an assumption about that function. The side of the collision it reports is not used by the game, so it is not modelled.
- IEEE `f32` arithmetic is modelled over the reals. Rounding is not modelled, `0.2` is exact, and NaN and infinities cannot occur.
- The `z` coordinate of translations is never changed by the systems and is not modelled.
- Query iteration order is modelled as array index order. The engine promises no order. The order-free facts (the contract of `BounceAll`, `BounceAllNoContact`, `BounceAllSingleContact`) hold for any order. For two paddles overlapped at once, the result does depend on the order. No idempotence is claimed in that case.
- `Game.World.Frame` runs the systems in the order `main` registers them. The engine does not promise that order between systems.
- There is no scoring and no ball reset in this program, so none is modelled.
- The constants are those of this program: the field bound is 360, the paddle speed is 128 and the serve velocity is (128, 128). The ball's frame time is capped at 0.2 s, so a 0.5 s frame at `vx = 128` moves the ball 25.6 units (`Pong.BallMoveExamples`).
