# Robot kinematic state and intent dispatch, in Dafny

This project models two sequential parts of the navigation core of a
robot-soccer control stack and proves properties of them.

- **The `Robot` record** (`src/thunderbots/software/ai/world/robot.cpp`). It holds
  a robot's id, position, velocity, orientation, angular velocity and the
  time of its last update. It has:
  - two constructors;
  - two guarded updates: the five-argument `updateState`, which refuses a
    timestamp older than the last one, and `updateState(const Robot &)`,
    which refuses data for a different robot;
  - `updateStateToPredictedState`, which extrapolates the state by the whole
    milliseconds elapsed and commits the result;
  - four read-only estimators;
  - `operator==`/`operator!=`, which ignore the timestamp.
- **The navigator's dispatcher** `RRTNav::getAssignedPrimitives`
  (`src/thunderbots/software/ai/navigator/rrt/rrt.cpp`). It walks the assigned
  intents in order and turns each Move intent into one Move primitive. It
  carries the intent's robot id, destination, final angle and final speed
  unchanged. Any other kind of intent ends the call.

Files:

- `geom.dfy`, module `Geom`: points, vectors and angles over `real`. The
  geometry library itself is not part of this model.
- `kinematics.dfy`, module `Kinematics`: the robot's state as a value
  (`RobotState`), the four estimators, `operator==`/`!=` (`Same`/`Differs`),
  and each update as a function from the old state to a `Transition`: the new
  state plus `Accepted` or `Rejected(reason)`. All the lemmas about the
  robot live here.
- `robot.dfy`, module `World`: the `Robot` class. Its fields are updated in
  place. Each update method is proved against its transition function.
  - Dafny has no overloading, so `updateState(const Robot &)` is called
    `UpdateStateFrom`.
  - The `const` estimators and `operator==` are functions of the robot's
    snapshot `State()`.
  - The one-line accessors are the class's readable fields.
- `navigator.dfy`, module `Navigator`: the `Intent` and `Primitive`
  datatypes, a recursive reference definition `Dispatch`, and the loop
  `GetAssignedPrimitives`, proved equal to it.

Modelling choices:

- **Errors.** Where the source calls `exit(1)`, the model returns a result
  and leaves the state unchanged. A robot update returns
  `Rejected(StaleTimestamp)` or `Rejected(MismatchedId)`. The dispatcher
  returns `UnrecognizedIntent(name)`, naming the first intent that is not a
  Move.
- **Time.** A `steady_clock` time point is an integer count of clock ticks,
  at 1,000,000 ticks per millisecond (nanoseconds, the tick of libstdc++'s
  `steady_clock`).
  - `duration_cast<milliseconds>` truncates. The difference is never
    negative at that point, so truncation is integer division
    (`MillisecondsBetween`).
  - Seconds are `ms / 1000` as a real.
- **Planar quantities.** They are reals.
  - `Point + Vector` is coordinate-wise addition.
  - `Angle + AngularVelocity * seconds` is real arithmetic, and the angle is
    not wrapped.
  - `velocity.norm(velocity.len() * s)` is `Stretched(velocity, s)`. With
    exact arithmetic it equals `velocity * s`. That assumes `norm` maps the
    zero vector to the zero vector.
  - `Geom.StretchedAlongRay` proves the meaning without a square root: the
    result is parallel to the velocity, points the same way for `s >= 0`,
    and its squared length is `s^2` times the velocity's.

Where the code and its design description differ, the model follows the code:

- The estimators do not reject a negative duration. The source's check for
  one has an empty body, so the model computes the projection for any
  duration.
- An unrecognised intent fails the whole batch, as the source's `exit(1)`
  does, not that intent alone.
- The orientation estimate is not wrapped into a canonical range.
- No path planner exists in the code. The dispatcher emits the intent's own
  destination.
- The obstacle lists the dispatcher builds from the world are never used. So
  `GetAssignedPrimitives` takes the world as a parameter that does not
  affect its result.

## Model

| member | source | states |
|---|---|---|
| World.Robot.AtRest | src/thunderbots/software/ai/world/robot.cpp:3-11 | The id-and-timestamp constructor puts the robot at the origin, at rest, at angle zero and angular velocity zero, with the given id and `lastUpdateTimestamp == timestamp`. |
| World.Robot.constructor | src/thunderbots/software/ai/world/robot.cpp:13-23 | The full constructor stores exactly the six given values. |
| World.Robot.UpdateState | src/thunderbots/software/ai/world/robot.cpp:25-43 | A timestamp older than the last update is refused with `StaleTimestamp` and nothing changes. Otherwise the four fields and the timestamp take the arguments. The id is kept and the timestamp never decreases. |
| World.Robot.UpdateStateFrom | src/thunderbots/software/ai/world/robot.cpp:45-60 | Data whose id differs is refused with `MismatchedId` before any change. Otherwise this is the five-argument update with the other robot's fields and timestamp; if accepted, the robot's whole state equals the other's. The id is kept and the timestamp never decreases. |
| World.Robot.UpdateStateToPredictedState | src/thunderbots/software/ai/world/robot.cpp:62-82 | A stale timestamp is refused and nothing changes. Otherwise position and orientation become the estimates over the whole milliseconds elapsed. Velocity and angular velocity are unchanged, the timestamp becomes the argument, the id is kept. |
| Kinematics.MillisecondsBetween | src/thunderbots/software/ai/world/robot.cpp:72-73 | The elapsed whole milliseconds are non-negative and truncate the difference: `ms` whole milliseconds fit in it, `ms + 1` do not. |
| Kinematics.UpdateContract | src/thunderbots/software/ai/world/robot.cpp:30-42 | The update is accepted if and only if the timestamp is not older than the last one. Rejection returns the old state unchanged. Acceptance sets every field but the id to the arguments and keeps the id. |
| Kinematics.UpdateIdempotent | src/thunderbots/software/ai/world/robot.cpp:30-42 | Repeating an accepted update is accepted and changes nothing further. |
| Kinematics.UpdateFromContract | src/thunderbots/software/ai/world/robot.cpp:47-59 | A mismatched id is refused with the state unchanged. A matching id gives exactly the five-argument update with the other robot's fields. The update is accepted if and only if the ids agree and the other timestamp is not older. |
| Kinematics.UpdateFromCopies | src/thunderbots/software/ai/world/robot.cpp:57-59 | After an accepted update from another robot's data, the state is that data, timestamp included, and compares equal to it. |
| Kinematics.UpdateFromSelf | src/thunderbots/software/ai/world/robot.cpp:45-59 | Updating a robot from its own state is accepted and leaves it unchanged. |
| Kinematics.EstimatesAtZero | src/thunderbots/software/ai/world/robot.cpp:99-183 | The velocity and angular-velocity estimates are the current values for every horizon. At horizon 0 the position and orientation estimates are the current ones. |
| Kinematics.PositionEstimateOnRay | src/thunderbots/software/ai/world/robot.cpp:112-115 | For a non-negative horizon, the position estimate lies on the ray from the position along the velocity, at a distance of the speed times the seconds ahead (stated with squared lengths). |
| Geom.StretchedAlongRay | src/thunderbots/software/ai/world/robot.cpp:115 | `v.norm(v.len() * s)` is parallel to `v`; its dot product with `v` is `s` times the squared length of `v`, so it points along `v` when `s >= 0`; its squared length is `s * s` times that of `v`; it is zero for `s = 0`. |
| Kinematics.OrientationEstimateIsLinear | src/thunderbots/software/ai/world/robot.cpp:157-160 | Extending the horizon by `ms2` advances the orientation estimate by exactly angular velocity times `ms2` seconds, with no wrapping. |
| Kinematics.UpdateToPredictedContract | src/thunderbots/software/ai/world/robot.cpp:64-81 | A stale timestamp is refused and the state is unchanged. Otherwise the horizon given to the estimators is non-negative and the operation is accepted. Position and orientation are the estimates, velocity and angular velocity are unchanged, the timestamp is the argument and the id is kept. |
| Kinematics.PredictionWithinOneMillisecond | src/thunderbots/software/ai/world/robot.cpp:72-81 | Less than one millisecond after the last update, a prediction only advances the timestamp, because the elapsed time truncates to 0 ms. |
| Kinematics.PredictionWithinOneMillisecondIsSame | src/thunderbots/software/ai/world/robot.cpp:72-81 | Such a prediction compares equal (`operator==`) to the state before it. |
| Kinematics.PredictionsCompose | src/thunderbots/software/ai/world/robot.cpp:72-81 | Two predictions in a row give the same result as one over the whole span, when the first span is a whole number of milliseconds. |
| Kinematics.MillisecondsAdd | src/thunderbots/software/ai/world/robot.cpp:72-73 | Truncated milliseconds add up across two spans when the first span is whole. |
| Kinematics.SubMillisecondPredictionsLag | src/thunderbots/software/ai/world/robot.cpp:72-73 | Without that condition they can differ. A robot moving at 1 m/s, predicted twice 0.6 ms apart, stays at the origin. One prediction over 1.2 ms moves it 0.001 m. |
| Kinematics.SameIgnoresOnlyTimestamp | src/thunderbots/software/ai/world/robot.cpp:185-196 | `operator==` holds exactly when the states agree after copying over the timestamp, that is, on every field but the timestamp. `operator!=` is its negation. |
| Kinematics.SameIsEquivalence | src/thunderbots/software/ai/world/robot.cpp:185-191 | `operator==` is reflexive, symmetric and transitive. |
| Kinematics.ApplyKeepsIdAndClock | src/thunderbots/software/ai/world/robot.cpp:30-81 | No update operation changes the id or moves the timestamp back. A rejected one changes nothing. An accepted one records its own timestamp. |
| Kinematics.RunKeepsIdAndClock | src/thunderbots/software/ai/world/robot.cpp:30-81 | Over any series of update calls, the id never changes and the timestamp is non-decreasing. |
| Kinematics.RunClockDominatesAccepted | src/thunderbots/software/ai/world/robot.cpp:30-81 | After any series of update calls, the final timestamp is at least the timestamp of every call in it that was accepted. |
| Navigator.GetAssignedPrimitives | src/thunderbots/software/ai/navigator/rrt/rrt.cpp:9-50 | The loop's result equals `Dispatch` of the intents and does not depend on the world. It succeeds if and only if every intent is a Move. It then has one primitive per intent, in order, each carrying its intent's four parameters. Otherwise it fails with the name of the first non-Move intent. |
| Navigator.DispatchMeaning | src/thunderbots/software/ai/navigator/rrt/rrt.cpp:16-46 | `Dispatch` succeeds exactly when every intent is a Move. It then yields, in order, exactly one primitive per intent with that intent's robot id, destination, final angle and final speed. Otherwise it fails naming the first intent that is not a Move. |
| Navigator.DispatchAtFirstUnrecognized | src/thunderbots/software/ai/navigator/rrt/rrt.cpp:40-46 | When intent `i` is the first that is not a Move, dispatch fails with its name. |
| Navigator.DispatchEmpty | src/thunderbots/software/ai/navigator/rrt/rrt.cpp:12-13 | An empty batch yields an empty list of primitives. |
| Navigator.DispatchAppend | src/thunderbots/software/ai/navigator/rrt/rrt.cpp:16-38 | Dispatching `a + b` fails with `a`'s error if `a` fails, and otherwise with `b`'s error if `b` fails. Otherwise it yields `a`'s primitives followed by `b`'s. |

## Left out

- `generate_friendly_obstacles`, `generate_enemy_obstacles` and `RobotObstacle`: their code is not part of this model, and the dispatcher never uses their results.
- `DynamicParameters::Navigator::default_avoid_dist`: a lookup in the configuration system, used only for those unused obstacle lists.
- `std::cerr` messages and `exit(1)`: process I/O and termination. They are replaced by the error results described above.
- The geometry library (`Point`, `Vector::norm`/`len`, `Angle`, `AngularVelocity`): its code is not part of this model. Floating-point rounding of `double` is not modelled; all planar quantities are exact reals.
- `std::chrono::steady_clock`: the clock itself is not modelled, and timestamps are unbounded integers. Overflow of the 64-bit tick count is not modelled.
- The dispatcher's `dynamic_cast` and dispatch by intent name: a datatype match replaces them. An intent of another class that reported the Move name would make the `dynamic_cast` throw; the model cannot express that case.
- `MovePrimitive`'s message constructor, `getParameterArray` and `getExtraBitArray` (`move_primitive.h`): wire serialisation whose code is not part of this model.
- The accessors `id()`, `position()`, `velocity()`, `orientation()`, `angularVelocity()` and `lastUpdateTimestamp()`: each returns one field, so they are the class's readable fields rather than separate members.
- A sampling-based path search: none exists in the code.
