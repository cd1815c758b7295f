# Pool table: rack, aiming, input gating and pockets

A Dafny model of the decision core of a small billiards scene (one Phaser
scene, `src/main.ts`). The model covers four pieces of logic that can be
stated exactly once the floating-point geometry and the physics engine are
taken as given inputs:

- **Rack** (`rack.dfy`, module `Rack`): the nested loop that lays fifteen
  numbered balls of radius 9 in a five-row triangle. Ball j of row i sits at
  x = 450 + 18 i, y = 190 - 9 i + 18 j. Its tint depends only on its running
  number n: ball 5 is dark, other even numbers are blue, odd numbers yellow.
- **Table and pockets** (`table.dfy`, module `Table`): the ball group as an
  ordered sequence, the table as built at scene start (rack, then the cue ball
  at (240, 190)), and the pocket rule. A pocketed cue ball is stopped and put
  back on its spot. Any other pocketed ball is removed.
- **Target acquisition** (`targeting.dfy`, module `Targeting`): the scan that
  picks the ball the cue ball would strike. It skips the cue ball and keeps
  balls whose centre is strictly closer than two radii to the hit line and
  whose nearest point lies on the hit segment. Among those it keeps the one
  nearest to the cue ball; ties go to the earliest ball in the group. Each
  ball's three geometric measurements are inputs (`Measure`).
- **Input and motion** (`controls.dfy`, module `Controls`): the pointer
  handlers and the per-tick rest detector as a state machine over a `Session`
  (motion flag, press flag, drag line, hit-line angle). Press and move are
  ignored while the table moves. Release acts only during a press. A tick sets
  the motion flag exactly when some ball is faster than 0.1. A shot's speed is
  the drag length times 0.1, given as its square.

`geometry.dfy` holds points, segments and squared lengths; `wrappers.dfy`
holds `Option`. Coordinates and distances are exact reals.

Behaviour of `src/main.ts` worth noting:
- Ties in target acquisition go to the first ball in iteration order.
- Pointer moves are gated by the motion flag, like presses.
- A release is not gated by the motion flag, only by the press flag.
- A move updates the drag's end point even when no press is in progress.

## Model

| member | source | states |
|---|---|---|
| Rack.Tint | src/main.ts:63 | the three tints partition the numbers: dark exactly for 5, blue exactly for even numbers, yellow exactly for the other odd numbers |
| Rack.Layout | src/main.ts:55-76 | laying the first `rows` rows gives Tri(rows) balls, numbered 1, 2, 3, ... in laying order |
| Rack.BuildRack | src/main.ts:54-77 | the outer loop produces exactly 15 balls, ball k numbered k + 1 with the tint of its number, equal to the row-by-row reference layout |
| Rack.LayRow | src/main.ts:58-76 | the inner loop for row i appends exactly the i + 1 reference balls of that row, top to bottom, and advances the running number past them |
| Rack.LayoutCell | src/main.ts:57-76 | ball j of row i is the element at index Tri(i) + j of the layout and has the reference number, position and tint |
| Rack.RackPlacement | src/main.ts:57-75 | ball (i, j) with 0 <= j <= i < 5 has number Tri(i) + j + 1 and sits at x = 450 + 18 i, y = 190 - 9 i + 18 j |
| Rack.RackTint | src/main.ts:63 | every laid ball carries the tint of its own number |
| Rack.DarkBallIsFive | src/main.ts:63 | exactly one rack ball is dark: ball 5, at (486, 190) on the apex line |
| Rack.RackBallsDoNotOverlap | src/main.ts:54-74 | any two distinct rack cells are at least one diameter (18) apart, so no two racked balls overlap |
| Table.InitialTableWellFormed | src/main.ts:53-91 | the starting group holds the 15 numbered object balls followed by the single cue ball at (240, 190) at rest; ids are unique and there is exactly one cue ball |
| Table.Pocket | src/main.ts:39-49 | a pocketed cue ball keeps its place in the group, is moved to (240, 190) and stopped; any other pocketed ball is removed with the order of the rest unchanged; an absent ball changes nothing |
| Table.PocketKeepsWellFormed | src/main.ts:42-48 | pocketing preserves unique ids and exactly one cue ball (the cue ball is never removed) and removes at most one ball |
| Targeting.SelectTarget | src/main.ts:162-201 | returns none exactly when no non-cue ball is within two radii of the hit line with its nearest point on the segment; otherwise returns the ball satisfying the selection rule, with that ball's own two distances recorded |
| Targeting.ChosenUnique | src/main.ts:192-199 | at most one ball satisfies the selection rule |
| Targeting.ChosenIsNearest | src/main.ts:166-201 | the chosen ball is not the cue ball and is no farther from the cue ball than any eligible ball |
| Targeting.TangentBallNotChosen | src/main.ts:193 | a ball exactly two radii from the hit line is never chosen |
| Targeting.CloserBallWins | src/main.ts:195-198 | of two eligible balls, the one farther from the cue ball is never chosen |
| Targeting.EarlierBallWinsTie | src/main.ts:195-198 | of two eligible balls at equal cue-ball distance, the later one in the group is never chosen |
| Targeting.ChordRadicandPositive | src/main.ts:205-212 | for the chosen ball, (2 radius)^2 minus the square of its hit-line distance is positive, so the contact chord's square root is defined |
| Controls.OnPointerDown | src/main.ts:118-126 | while moving a press changes nothing; otherwise it starts a press with a zero-length drag at the press point and leaves motion flag and aim unchanged |
| Controls.OnPointerMove | src/main.ts:128-160 | while moving a move changes nothing; otherwise the drag's end follows the pointer; the hit line is re-aimed exactly when no press is in progress |
| Controls.OnPointerUp | src/main.ts:227-244 | a release fires exactly when a press is in progress, then clears the press and raises the motion flag; the shot goes along the hit line with squared speed 0.01 times the squared drag length, which is non-negative; otherwise nothing changes |
| Controls.RestScan | src/main.ts:247-256 | the scan with early exit reports motion exactly when some ball's speed exceeds 0.1; a speed of exactly 0.1 counts as rest |
| Controls.OnTick | src/main.ts:247-256 | a tick sets the motion flag exactly when some speed exceeds 0.1 and leaves the rest of the session unchanged |
| Controls.TickRunsScan | src/main.ts:247-256 | the motion flag a tick sets is exactly the answer of the early-exit scan over the speeds |
| Controls.ShotSpeedSq | src/main.ts:236 | the squared shot speed is never negative, so it stands for a real speed |
| Controls.MotionGatesInput | src/main.ts:119-129 | while the table moves and no tick intervenes, no event changes drag or aim, the flag stays up, and at most one shot fires (only if a press was already in progress) |
| Controls.DragFollowsPointer | src/main.ts:128-134 | during a press, a run of moves followed by a release acts like a single drag from the press point to the last pointer position |
| Controls.ShotFromDrag | src/main.ts:118-136 | a gesture from rest (press at p, moves, release) fires exactly one shot, along the hit-line angle, with squared speed 0.01 times the squared drag from p to the last pointer position, and leaves the table moving |
| Controls.StillReleaseHasZeroSpeed | src/main.ts:122-125 | a press released without moving fires a shot of speed zero |
| Controls.PullBackForty | src/main.ts:236 | from scene start, a 40-unit pull-back from (240, 190) fires at speed 4 = 40 * 0.1 along angle 0 |
| Controls.SettledTickReenablesInput | src/main.ts:247-256 | a tick with every speed at most 0.1 clears the motion flag and the next press is accepted |
| Geometry.DegenerateLengthZero | src/main.ts:122-125 | a drag that starts where it ends has length zero |

## Left out

- Plane geometry is not computed. Nearest point on the hit line, segment membership, distances and angles are inputs: `Measure` per ball, and the angle carried by `PointerMove`.
- The contact-point formula is not modelled (src/main.ts:206-222). Only the positivity of its chord radicand is stated.
- The other radicand (cue-ball distance squared minus hit-line distance squared) is not shown non-negative. The measures are independent inputs here, so the model cannot relate them.
- Cue-sprite placement and angle (src/main.ts:93-96, 135-140, 153-155) are not modelled; they are rendering.
- The aim angle (src/main.ts:146-151) is not computed; each `PointerMove` carries the angle its hit line ends up with.
- That angle also absorbs the cut of the hit line to the contact point (src/main.ts:221-222), which the release then reads (src/main.ts:235). The cut distance is negative exactly when the chosen ball is closer than 18 to the cue ball, which turns the shot around by half a turn; at exactly 18 the line has zero length and its angle is 0. The model does not derive these cases.
- Visibility of cue, hit line and ghost ball is not modelled; it is rendering.
- Matter.js physics is not modelled: integration, friction, restitution and collision detection. Ball speeds enter as `Tick` data, and a pocket contact enters as a call to `Pocket`.
- Setting the cue ball's velocity from the shot (src/main.ts:238-242) is not modelled; the model stops at the `Shot` handed to the engine.
- Tilemap and aseprite loading, pocket rectangles, shadows, camera centring, the rack button with its scene restart, and the game configuration are not modelled (src/main.ts:12-37, 101-113, 259-274); they are I/O and UI.
- Geometry.DegenerateLengthZero: only one direction of "zero length iff degenerate" is stated. The converse needs a nonlinear real fact the solver does not close reliably.
- Controls.OnPointerUp: the shot speed is given as its square, 0.01 times the squared drag length, because square roots are not modelled.
- Speeds, distances and coordinates are exact reals, not IEEE doubles. The motion threshold 0.1 and the speed scale 0.1 are exact tenths, not the nearest doubles.
- Ball identity (`===` on game objects) is modelled by unique ids. The cue ball gets id 0 and the rack balls get their numbers.
- The infinite starting value of the shortest distance is modelled as "no ball kept yet".
