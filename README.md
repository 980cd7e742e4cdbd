# Ball-in-Box simulation core, in Dafny

This project models the simulation core of Ball-in-Box (`src/simulation`). A ball with a fixed radius sits in a rectangular box. It moves in sub-steps. At a wall it bounces: the position snaps exactly to the wall, and that speed component is reversed and damped by 0.95. After every sub-step that does not end the step early, rolling friction rescales the speed. Above magnitude 0.0001 the heading is kept and the magnitude drops by 0.0001. Below 0.0001 the heading reverses and the magnitude becomes 0.0001 - m. A ball at rest keeps its speed. A ball slower than 0.0001 is inactive; the simulator then notifies its observers and gives the ball a new random speed.

Modules:

- `Tuples` (`tuples.dfy`): the immutable pair `Tuple<T>`, as a datatype.
- `Balls` (`ball.dfy`): the class `Ball`, with its fields `speedX`, `speedY` and `position`. Also the speed guard of `setSpeed`, and the activity and direction predicates with their 0.0001 dead zone.
- `Boxes` (`box.dfy`): the class `Box`. It owns the ball, and its invariant is that the whole ball lies inside the box.
- `Movement` (`movement.dfy`): the class `MovementSimulator`. It holds:
  - the ordered observer registry and the notification trace;
  - the bounce and friction helpers;
  - the sub-step loop of `calculatePhysicalData`;
  - `startMovement` up to the thread launch;
  - one pass of the physics thread's loop (`Tick`).

The loop is specified by the pure function `Movement.Run`, and the method is proved to compute exactly `Run`'s result. Doubles are modelled as `real`. `Math.sqrt` becomes the simulator field `sqrt`, and the simulator invariant requires it to be a square root (`IsSqrt`). Comparisons against a square root are stated on squares, and `Balls.InactiveMatchesSqrt` proves that the two forms agree.

## Model

| member | source | states |
|---|---|---|
| Tuples.TupleAccessors | src/simulation/Tuple.java:25-46 | `getX` returns the first constructor argument and `getY` the second, and a pair is rebuilt from its accessors |
| Balls.GuardedSpeed | src/simulation/Ball.java:56-61 | the speed after `setSpeed` is the requested pair as a whole or the current pair as a whole, and it is in range iff the request is or the current speed was (both outcomes are stated by `SetSpeedGuard`) |
| Balls.Inactive | src/simulation/Ball.java:70-75 | an inactive speed is below 0.0001 on each axis; `InactiveMatchesSqrt` proves that it is the source's square-root test |
| Balls.SetSpeedGuard | src/simulation/Ball.java:56-61 | the guard yields the requested pair when both components are in [-1, 1], otherwise the current pair, and keeps an in-range speed in range |
| Balls.Ball.constructor | src/simulation/Ball.java:43-46 | a new ball has the given radius and position, speed (0, 0), and satisfies the speed-range invariant |
| Balls.Ball.SetSpeed | src/simulation/Ball.java:56-61 | both components are replaced when both are in [-1, 1], and otherwise neither is; the range invariant is preserved and the position is untouched |
| Balls.InactiveMatchesSqrt | src/simulation/Ball.java:70-75 | for any m >= 0 with m·m = \|vx\|² + \|vy\|², the test 0.0001 > m holds iff vx² + vy² < 0.0001² |
| Balls.DirectionDeadZone | src/simulation/Ball.java:83-115 | moving positive iff c > 0.0001, moving negative iff c < -0.0001; the two never both hold, and neither holds when \|c\| <= 0.0001 |
| Balls.InactiveHasNoDirection | src/simulation/Ball.java:70-115 | an inactive speed satisfies none of the four direction predicates |
| Balls.Ball.SetPosition | src/simulation/Ball.java:153-173 | the position is replaced as one pair, both getters then return exactly x and y, and the speed is untouched |
| Boxes.Inside | src/simulation/Box.java:183-185 | the placement guard can only hold in a box at least one ball diameter long and high |
| Boxes.InitialPlacementInside | src/simulation/Box.java:41-49 | the coordinates nextInt(length - 2r) + r and nextInt(height - 2r) + r lie in [r, length - r - 1] × [r, height - r - 1], so the whole ball is inside |
| Boxes.Box.constructor | src/simulation/Box.java:41-49 | a fresh ball with the given radius, at the placement above, at rest; the box invariant holds |
| Boxes.Box.SetBallSpeed | src/simulation/Box.java:58-60 | exactly `setSpeed`'s accept-or-reject behaviour; the position is untouched and the box invariant is preserved |
| Boxes.Box.PlaceBall | src/simulation/Box.java:182-188 | the ball moves to (x, y) iff the whole ball fits there, otherwise it keeps its previous position (no clamping); the speed is untouched and containment is preserved |
| Movement.MovementSimulator.constructor | src/simulation/MovementSimulator.java:55-59 | a fresh box, no observers, refresh time 10, not started; the simulator invariant holds |
| Movement.MovementSimulator.RegisterObserver | src/simulation/MovementSimulator.java:69-71 | the observer is appended at the end of the list |
| Movement.MovementSimulator.UnregisterObserver | src/simulation/MovementSimulator.java:80-82 | the list becomes `RemoveFirst` of the old list |
| Movement.RemoveFirst | src/simulation/MovementSimulator.java:80-82 | `observers.remove(observer)` makes the list one shorter iff the observer was registered, and it introduces no new observer; its exact effect is stated by `RemoveFirstAt`, `RemoveFirstAbsent` and `RemoveFirstMultiset` |
| Movement.RemoveFirstAbsent | src/simulation/MovementSimulator.java:80-82 | removing an observer that is not registered leaves the list unchanged |
| Movement.RemoveFirstAt | src/simulation/MovementSimulator.java:80-82 | removing a registered observer deletes exactly its first occurrence and keeps the others in order |
| Movement.RemoveFirstMultiset | src/simulation/MovementSimulator.java:80-82 | removal takes exactly one copy of the observer out of the registry, and only if it was there |
| Movement.Broadcast | src/simulation/MovementSimulator.java:140-154 | the callbacks of one for-each loop: one per registration, each carrying the loop's signal and a registered observer; `BroadcastInOrder` states the order |
| Movement.BroadcastInOrder | src/simulation/MovementSimulator.java:140-154 | a broadcast makes one callback per registration, in registration order |
| Movement.BroadcastAppend | src/simulation/MovementSimulator.java:140-154 | notifying one more observer appends its callback at the end |
| Movement.MovementSimulator.NotifyBallIsActive | src/simulation/MovementSimulator.java:140-144 | the trace grows by one `BallIsActive` callback per registered observer, in order |
| Movement.MovementSimulator.NotifyBallIsInactive | src/simulation/MovementSimulator.java:150-154 | the trace grows by one `BallIsInactive` callback per registered observer, in order |
| Movement.RandomSpeed | src/simulation/MovementSimulator.java:120-134 | the drawn magnitudes in [0, 1) become the components, with the drawn signs, and are always accepted by the guard |
| Movement.MovementSimulator.SetRandomBallSpeed | src/simulation/MovementSimulator.java:120-134 | the ball's speed becomes `RandomSpeed` of the draws; the position and the box invariant are kept |
| Movement.Inverted | src/simulation/MovementSimulator.java:160-174 | a reversed component has the opposite sign and magnitude 0.95 times the old one |
| Movement.InvertX | src/simulation/MovementSimulator.java:160-164 | the Y component is kept, and a speed in range has its X component reversed and damped, never growing |
| Movement.InvertY | src/simulation/MovementSimulator.java:170-174 | the X component is kept, and a speed in range has its Y component reversed and damped, never growing |
| Movement.InvertAccepted | src/simulation/MovementSimulator.java:160-174 | for a speed in range the guard never rejects an inversion: the axis becomes -0.95·v, the other axis is unchanged, and the speed stays in range |
| Movement.MovementSimulator.InvertAndSlowSpeedInXDirection | src/simulation/MovementSimulator.java:160-164 | the speed becomes (-0.95·vx, vy) when it was in range, through the guard in general; the position is kept |
| Movement.MovementSimulator.InvertAndSlowSpeedInYDirection | src/simulation/MovementSimulator.java:170-174 | the speed becomes (vx, -0.95·vy) when it was in range, through the guard in general; the position is kept |
| Movement.Friction | src/simulation/MovementSimulator.java:240-254 | rollingFriction at magnitude m, with the 0/0 case at m = 0 rejected by the guard; a speed in range stays in range. `FrictionUnderSqrt`, `FrictionRescales` and `FrictionBelowThreshold` state its effect |
| Movement.FrictionFactorBounds | src/simulation/MovementSimulator.java:248-252 | the factor (m - 0.0001)/m times m is m - 0.0001, and it lies strictly between 0 and 1 when m > 0.0001 |
| Movement.FrictionAccepted | src/simulation/MovementSimulator.java:240-254 | for a speed in range with magnitude m > 0, both rescaled components are in [-1, 1] |
| Movement.FrictionScaled | src/simulation/MovementSimulator.java:248-253 | when the rescaled components are in range, friction multiplies both components by (m - 0.0001)/m |
| Movement.FrictionMagnitude | src/simulation/MovementSimulator.java:244-252 | scaling by (m - 0.0001)/m turns squared magnitude m² into (m - 0.0001)² |
| Movement.FrictionRescales | src/simulation/MovementSimulator.java:240-254 | for a speed in range with magnitude m > 0, friction is never rejected: both components are scaled by one factor (m - 0.0001)/m, and the squared magnitude becomes (m - 0.0001)². For m > 0.0001 the factor lies in (0, 1), so the heading is kept and the magnitude drops by 0.0001 |
| Movement.FrictionFactorNegative | src/simulation/MovementSimulator.java:248-252 | for 0 < m < 0.0001 the factor (m - 0.0001)/m is negative |
| Movement.FrictionBelowThreshold | src/simulation/MovementSimulator.java:240-254 | for a speed in range with magnitude 0 < m < 0.0001, friction scales both components by one negative factor: the heading reverses and the magnitude becomes 0.0001 - m |
| Movement.FrictionReversalExample | src/simulation/MovementSimulator.java:240-254 | friction at magnitude 0.00005 turns speed (0.00003, 0.00004) into (-0.00003, -0.00004) |
| Movement.FrictionUnderSqrt | src/simulation/MovementSimulator.java:240-254 | with m the square root of the squared speed: a ball at rest keeps its speed. Any other speed in range is scaled by the one factor (m - 0.0001)/m to squared magnitude (m - 0.0001)², which keeps or reverses the heading as `FrictionRescales` and `FrictionBelowThreshold` state |
| Movement.MovementSimulator.RollingFriction | src/simulation/MovementSimulator.java:240-254 | the new speed is `Friction` of the old speed at its square-root magnitude; the position and the box invariant are kept |
| Movement.MovementSimulator.CollideInXDirection | src/simulation/MovementSimulator.java:195-207 | the X wall test on x + vx: on a low or high hit the X speed is inverted and the coordinate snaps to that wall; otherwise nothing changes and the coordinate is x + vx |
| Movement.MovementSimulator.CollideInYDirection | src/simulation/MovementSimulator.java:209-220 | the same test for Y against the height, using the speed the X test left |
| Movement.WallHit | src/simulation/MovementSimulator.java:197-219 | a low-wall hit needs the tentative coordinate below radius while moving negative (speed < -0.0001); a high-wall hit needs it above extent - radius while moving positive (speed > 0.0001); the low-wall condition always gives a hit, and the high-wall condition gives a high hit whenever the low-wall condition fails (the else-if order) |
| Movement.Snapped | src/simulation/MovementSimulator.java:197-222 | without a hit the coordinate is the tentative one; after a hit it is a wall coordinate in [radius, extent - radius] whenever the ball fits |
| Movement.SubStep | src/simulation/MovementSimulator.java:195-222 | one loop pass up to the early-return test, X first and then Y with the speed the X test left. Without a hit the position advances by exactly the speed and the speed is kept, and a speed in range stays in range; `SubStepWalls` states the hit cases |
| Movement.SubStepWalls | src/simulation/MovementSimulator.java:194-222 | within a sub-step, a low hit snaps exactly to radius and a high hit exactly to extent - radius, an axis without a hit advances by exactly its speed, a hit axis is reversed and damped, and the speed stays in range |
| Movement.InvertNoFaster | src/simulation/MovementSimulator.java:160-174 | an inversion of a speed in range never increases the squared speed |
| Movement.SubStepSlows | src/simulation/MovementSimulator.java:195-222 | a sub-step never increases the squared speed |
| Movement.SubStepHitOnWall | src/simulation/MovementSimulator.java:197-222 | a sub-step with a wall hit leaves the ball with a coordinate exactly on a wall (radius or extent - radius) |
| Movement.FrictionKeepsInactive | src/simulation/MovementSimulator.java:240-254 | friction at the square-root magnitude keeps an inactive ball inactive |
| Movement.Run | src/simulation/MovementSimulator.java:189-232 | an early return happens only at a sub-step i..refreshTime, and only while the ball is not inactive |
| Movement.TruncatedOnWall | src/simulation/MovementSimulator.java:192-226 | an early return needs a collision, and it happens at the sub-step whose wall hit leaves the ball active. After a hit that leaves the ball inactive, no later sub-step or friction makes it active again. So the returned position is on a wall, the ball "set next to the wall" |
| Movement.MovementSimulator.PendingTruncationOnWall | src/simulation/MovementSimulator.java:189-232 | from a valid simulator state, the calculation `calculatePhysicalData` performs returns early only with the ball on a wall |
| Movement.MovementSimulator.CalculatePhysicalData | src/simulation/MovementSimulator.java:189-232 | the returned location and the new speed are those of `Run`. On an early return at sub-step i the refresh time becomes i, with 1 <= i <= the old value; otherwise it is unchanged. The ball's stored position and the box invariant are kept. An early return lands on a wall, by `PendingTruncationOnWall` |
| Movement.MovementSimulator.StartMovement | src/simulation/MovementSimulator.java:270-276 | on the first call: active, saved refresh time 10, random speed, and one `BallIsActive` callback per observer. A later call changes nothing |
| Movement.MovementSimulator.Advance | src/simulation/MovementSimulator.java:280-289 | the speed becomes the computed one, the computed location is committed iff the ball fits there, and the simulator invariant (refresh time 10, containment) holds again |
| Movement.MovementSimulator.RelaunchIfInactive | src/simulation/MovementSimulator.java:290-300 | an inactive ball produces inactive callbacks, a random speed and active callbacks, in that order; an active ball and the trace are left alone; the position and the invariant are kept |
| Movement.MovementSimulator.Tick | src/simulation/MovementSimulator.java:279-301 | refresh time back to 10, containment and the simulator invariant preserved, and the computed location committed iff the ball fits there. If the ball is then inactive, observers get inactive callbacks, the speed is re-randomised, and they get active callbacks; otherwise the speed is the computed one and nobody is notified |

## Left out

- Threads: `startMovement` launches a thread whose loop runs until it is interrupted (src/simulation/MovementSimulator.java:277-304). The model has one pass of that loop (`Tick`) as a sequential method. It leaves out the `sleep` calls, the interrupt handling that clears `simulationIsActive`, and the loop condition.
- Synchronisation: the `synchronized` position accessors (src/simulation/Ball.java:153-173) exist for atomicity across threads. The model's position is a single pair field, replaced as a whole.
- Randomness: the `Random` and `Math.random` draws are parameters of the constructors, of `SetRandomBallSpeed`, of `StartMovement` and of `Tick`, and they are constrained to the draws' ranges. The random pause of 1 to 10 seconds is a sleep and is left out with the others.
- Box.constructor requires from its caller what `Random.nextInt` needs: a positive bound, that is `length > 2 * radius` and `height > 2 * radius`. A smaller box throws in the source, and that exception path is not modelled.
- Floating point: doubles are reals, so there is no rounding. `Math.sqrt` is an abstract square-root function. At magnitude 0, `rollingFriction` computes 0/0; the resulting NaN components fail `setSpeed`'s guard, so the speed is unchanged. `Movement.Friction` models exactly that outcome.
- Java `int` width: integers are unbounded; the radius, length and height of a real box are far below 2³¹.
- Observers: `BallStateObserver` (src/gui/BallStateObserver.java) and the `Simulation` interface (src/simulation/Simulation.java) hold no logic. Observers are natural-number identities, and a callback is recorded as an entry appended to `trace`.
- GUI: `src/gui/Field.java` and `src/gui/MainFrame.java` are Swing rendering and are not part of this model.
- Doc comments: where the comments on `setSpeed` and `isInactive` describe other behaviour, the model follows the code.
- The getters (`GetRadius`, `GetSpeedInXDirection`, `GetBallX`, `GetLength`, the `Moves*` and `BallMoves*` predicates and the like) are functions without contracts of their own. Their behaviour is stated by the predicates they return and by the setters' contracts.
- Structure: two bodies are split into methods. The loop body of `calculatePhysicalData` becomes one method per axis (`CollideInXDirection`, `CollideInYDirection`). The thread loop's pass becomes `Advance` followed by `RelaunchIfInactive`. Together they do what the inline code does.
