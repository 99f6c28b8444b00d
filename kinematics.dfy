/** The kinematic state of one robot as a value: the record the `Robot`
    class of world/robot.cpp holds, its four `const` estimators, its equality,
    and each state-changing operation as a function from the old state to the
    new one. A rejected update yields the old state unchanged together with
    the reason, where the source terminates the process. */
module Kinematics {
  import opened Geom

  /** An `unsigned int` robot identifier. */
  type RobotId = x: int | 0 <= x < 0x1_0000_0000

  /** A `steady_clock` time point, counted in clock ticks from the clock's epoch. */
  type Timestamp = int

  /** `steady_clock` ticks in nanoseconds. */
  const TicksPerMillisecond: int := 1_000_000

  datatype RobotState = RobotState(
    id: RobotId,
    position: Point,
    velocity: Vector,
    orientation: Angle,
    angularVelocity: AngularVelocity,
    lastUpdateTimestamp: Timestamp)

  /** Why an update was refused. */
  datatype RobotError =
    | StaleTimestamp   // the update is older than the last one recorded
    | MismatchedId     // the data describes a different robot

  datatype Outcome = Accepted | Rejected(error: RobotError)

  /** The state after an operation, and whether the operation took effect. */
  datatype Transition = Transition(state: RobotState, outcome: Outcome)

  /** The state built by `Robot(id, timestamp)`: at the origin, at rest, facing angle zero. */
  function AtRest(id: RobotId, timestamp: Timestamp): RobotState
  {
    RobotState(id, Origin(), ZeroVector(), 0.0, 0.0, timestamp)
  }

  /** `duration_cast<milliseconds>(later - earlier)`: whole milliseconds,
      truncated. The difference is never negative here, so truncation toward
      zero and Dafny's Euclidean division agree. */
  function MillisecondsBetween(earlier: Timestamp, later: Timestamp): (ms: int)
    requires earlier <= later
    ensures 0 <= ms
    ensures ms * TicksPerMillisecond <= later - earlier < (ms + 1) * TicksPerMillisecond
  {
    (later - earlier) / TicksPerMillisecond
  }

  /** `duration_cast<duration<double>>(ms).count()`. */
  function Seconds(ms: int): real
  {
    ms as real / 1000.0
  }

  // The four estimators. None of them rejects a negative duration: the
  // source's check for one has an empty body.

  /** Constant-speed travel along the current direction of motion. */
  function EstimatePositionAtFutureTime(s: RobotState, ms: int): Point
  {
    Translate(s.position, Stretched(s.velocity, Seconds(ms)))
  }

  function EstimateVelocityAtFutureTime(s: RobotState, ms: int): Vector
  {
    s.velocity
  }

  /** Constant angular velocity; the sum is not wrapped into a canonical range. */
  function EstimateOrientationAtFutureTime(s: RobotState, ms: int): Angle
  {
    s.orientation + s.angularVelocity * Seconds(ms)
  }

  function EstimateAngularVelocityAtFutureTime(s: RobotState, ms: int): AngularVelocity
  {
    s.angularVelocity
  }

  /** `updateState(position, velocity, orientation, angularVelocity, timestamp)`. */
  function Update(s: RobotState, position: Point, velocity: Vector, orientation: Angle,
                  angularVelocity: AngularVelocity, timestamp: Timestamp): Transition
  {
    if timestamp < s.lastUpdateTimestamp then
      Transition(s, Rejected(StaleTimestamp))
    else
      Transition(RobotState(s.id, position, velocity, orientation, angularVelocity, timestamp), Accepted)
  }

  /** `updateState(const Robot &)`: the identity guard, then the five-argument update. */
  function UpdateFrom(s: RobotState, data: RobotState): Transition
  {
    if data.id != s.id then
      Transition(s, Rejected(MismatchedId))
    else
      Update(s, data.position, data.velocity, data.orientation, data.angularVelocity,
             data.lastUpdateTimestamp)
  }

  /** `updateStateToPredictedState(timestamp)`: extrapolate by the whole
      milliseconds elapsed and commit the estimate through `Update`. */
  function UpdateToPredicted(s: RobotState, timestamp: Timestamp): Transition
  {
    if timestamp < s.lastUpdateTimestamp then
      Transition(s, Rejected(StaleTimestamp))
    else
      var ms := MillisecondsBetween(s.lastUpdateTimestamp, timestamp);
      Update(s, EstimatePositionAtFutureTime(s, ms), EstimateVelocityAtFutureTime(s, ms),
             EstimateOrientationAtFutureTime(s, ms), EstimateAngularVelocityAtFutureTime(s, ms),
             timestamp)
  }

  /** `operator==`: every field but the timestamp. */
  predicate Same(a: RobotState, b: RobotState)
  {
    a.id == b.id && a.position == b.position && a.velocity == b.velocity &&
    a.orientation == b.orientation && a.angularVelocity == b.angularVelocity
  }

  /** `operator!=`. */
  predicate Differs(a: RobotState, b: RobotState)
  {
    !Same(a, b)
  }

  /** One call of a state-changing operation of `Robot`. */
  datatype Op =
    | SetState(position: Point, velocity: Vector, orientation: Angle,
               angularVelocity: AngularVelocity, timestamp: Timestamp)
    | CopyFrom(data: RobotState)
    | Predict(timestamp: Timestamp)

  /** The timestamp an operation records when it is accepted. */
  function Stamp(op: Op): Timestamp
  {
    match op
    case SetState(_, _, _, _, t) => t
    case CopyFrom(d) => d.lastUpdateTimestamp
    case Predict(t) => t
  }

  function Apply(s: RobotState, op: Op): Transition
  {
    match op
    case SetState(p, v, o, w, t) => Update(s, p, v, o, w, t)
    case CopyFrom(d) => UpdateFrom(s, d)
    case Predict(t) => UpdateToPredicted(s, t)
  }

  /** The state after a series of calls, each applied to the state the previous one left. */
  function Run(s: RobotState, ops: seq<Op>): RobotState
    decreases |ops|
  {
    if ops == [] then s else Run(Apply(s, ops[0]).state, ops[1..])
  }

  // ---------------------------------------------------------------------
  // The five-argument update

  /** A stale timestamp is refused and nothing changes; otherwise every field
      but the id takes the supplied value. */
  lemma UpdateContract(s: RobotState, p: Point, v: Vector, o: Angle, w: AngularVelocity, t: Timestamp)
    ensures Update(s, p, v, o, w, t).outcome.Accepted? <==> s.lastUpdateTimestamp <= t
    ensures t < s.lastUpdateTimestamp ==> Update(s, p, v, o, w, t) == Transition(s, Rejected(StaleTimestamp))
    ensures s.lastUpdateTimestamp <= t ==>
      var n := Update(s, p, v, o, w, t).state;
      n.id == s.id && n.position == p && n.velocity == v && n.orientation == o &&
      n.angularVelocity == w && n.lastUpdateTimestamp == t
  {
  }

  /** Repeating an accepted update changes nothing further. */
  lemma UpdateIdempotent(s: RobotState, p: Point, v: Vector, o: Angle, w: AngularVelocity, t: Timestamp)
    requires s.lastUpdateTimestamp <= t
    ensures var n := Update(s, p, v, o, w, t).state;
            Update(n, p, v, o, w, t) == Transition(n, Accepted)
  {
  }

  // ---------------------------------------------------------------------
  // The update from another robot's data

  /** Data for another robot is refused before anything else; data for the
      same robot is the five-argument update with that robot's fields. */
  lemma UpdateFromContract(s: RobotState, data: RobotState)
    ensures data.id != s.id ==> UpdateFrom(s, data) == Transition(s, Rejected(MismatchedId))
    ensures data.id == s.id ==>
      UpdateFrom(s, data) == Update(s, data.position, data.velocity, data.orientation,
                                    data.angularVelocity, data.lastUpdateTimestamp)
    ensures UpdateFrom(s, data).outcome.Accepted? <==>
      data.id == s.id && s.lastUpdateTimestamp <= data.lastUpdateTimestamp
  {
  }

  /** After an accepted update from `data` the robot is `data`, timestamp
      included, and so compares equal to it. */
  lemma UpdateFromCopies(s: RobotState, data: RobotState)
    requires UpdateFrom(s, data).outcome.Accepted?
    ensures UpdateFrom(s, data).state == data
    ensures Same(UpdateFrom(s, data).state, data)
  {
  }

  /** Updating a robot from its own state is accepted and changes nothing. */
  lemma UpdateFromSelf(s: RobotState)
    ensures UpdateFrom(s, s) == Transition(s, Accepted)
  {
  }

  // ---------------------------------------------------------------------
  // The estimators

  /** The velocity and angular-velocity estimators return the current values,
      whatever the horizon; at a horizon of zero the position and orientation
      estimates are the current ones too. */
  lemma EstimatesAtZero(s: RobotState)
    ensures EstimatePositionAtFutureTime(s, 0) == s.position
    ensures EstimateOrientationAtFutureTime(s, 0) == s.orientation
    ensures forall ms :: EstimateVelocityAtFutureTime(s, ms) == s.velocity
    ensures forall ms :: EstimateAngularVelocityAtFutureTime(s, ms) == s.angularVelocity
  {
  }

  /** The position estimate lies on the ray from the current position along
      the current velocity, at distance `|velocity| * seconds` (stated with
      squared lengths, since the model has no square root). */
  lemma PositionEstimateOnRay(s: RobotState, ms: int)
    requires 0 <= ms
    ensures var d := Displacement(s.position, EstimatePositionAtFutureTime(s, ms));
      && Cross(s.velocity, d) == 0.0
      && Dot(s.velocity, d) >= 0.0
      && LengthSquared(d) == Seconds(ms) * Seconds(ms) * LengthSquared(s.velocity)
  {
    var secs := Seconds(ms);
    var step := Stretched(s.velocity, secs);
    StretchedAlongRay(s.velocity, secs);
    DisplacementOfTranslate(s.position, step);
    assert secs >= 0.0;
    assert LengthSquared(s.velocity) >= 0.0;
    assert Dot(s.velocity, step) == secs * LengthSquared(s.velocity);
  }

  /** The orientation estimate advances by the angular velocity times the
      horizon, with no wrapping. */
  lemma OrientationEstimateIsLinear(s: RobotState, ms1: int, ms2: int)
    ensures EstimateOrientationAtFutureTime(s, ms1 + ms2) - EstimateOrientationAtFutureTime(s, ms1)
            == s.angularVelocity * Seconds(ms2)
  {
  }

  // ---------------------------------------------------------------------
  // The update to the predicted state

  /** A stale timestamp is refused and nothing changes. Otherwise the
      extrapolation horizon is the non-negative number of whole milliseconds
      elapsed, both rates are kept, and the timestamp becomes the argument. */
  lemma UpdateToPredictedContract(s: RobotState, t: Timestamp)
    ensures t < s.lastUpdateTimestamp ==> UpdateToPredicted(s, t) == Transition(s, Rejected(StaleTimestamp))
    ensures s.lastUpdateTimestamp <= t ==>
      var ms := MillisecondsBetween(s.lastUpdateTimestamp, t);
      var n := UpdateToPredicted(s, t);
      && n.outcome == Accepted
      && 0 <= ms
      && n.state.id == s.id
      && n.state.position == EstimatePositionAtFutureTime(s, ms)
      && n.state.velocity == s.velocity
      && n.state.orientation == EstimateOrientationAtFutureTime(s, ms)
      && n.state.angularVelocity == s.angularVelocity
      && n.state.lastUpdateTimestamp == t
  {
  }

  /** Less than a whole millisecond after the last update, a prediction moves
      nothing: only the timestamp advances. */
  lemma PredictionWithinOneMillisecond(s: RobotState, t: Timestamp)
    requires s.lastUpdateTimestamp <= t < s.lastUpdateTimestamp + TicksPerMillisecond
    ensures UpdateToPredicted(s, t) == Transition(s.(lastUpdateTimestamp := t), Accepted)
  {
    assert MillisecondsBetween(s.lastUpdateTimestamp, t) == 0;
    EstimatesAtZero(s);
  }

  /** Two predictions in a row agree with one prediction over the whole span,
      provided the first one ends on a whole millisecond. */
  lemma {:induction false} PredictionsCompose(s: RobotState, t1: Timestamp, t2: Timestamp)
    requires s.lastUpdateTimestamp <= t1 <= t2
    requires (t1 - s.lastUpdateTimestamp) % TicksPerMillisecond == 0
    ensures UpdateToPredicted(UpdateToPredicted(s, t1).state, t2) == UpdateToPredicted(s, t2)
  {
    var t0 := s.lastUpdateTimestamp;
    var m1 := MillisecondsBetween(t0, t1);
    var m2 := MillisecondsBetween(t1, t2);
    var m := MillisecondsBetween(t0, t2);
    MillisecondsAdd(t0, t1, t2);
    assert m == m1 + m2;
    var a, b := Seconds(m1), Seconds(m2);
    assert Seconds(m) == a + b;
    var v, w := s.velocity, s.angularVelocity;
    assert v.x * a + v.x * b == v.x * (a + b);
    assert v.y * a + v.y * b == v.y * (a + b);
    assert w * a + w * b == w * (a + b);
  }

  /** Whole milliseconds add up when the first span is a whole number of them. */
  lemma MillisecondsAdd(t0: Timestamp, t1: Timestamp, t2: Timestamp)
    requires t0 <= t1 <= t2
    requires (t1 - t0) % TicksPerMillisecond == 0
    ensures MillisecondsBetween(t0, t2)
            == MillisecondsBetween(t0, t1) + MillisecondsBetween(t1, t2)
  {
  }

  /** Without the whole-millisecond condition the two can differ: two
      predictions 0.6 ms apart leave a robot moving at 1 m/s where it was,
      while one prediction over the 1.2 ms span moves it by a millimetre. */
  lemma SubMillisecondPredictionsLag(s: RobotState)
    requires s == RobotState(0, Origin(), Vector(1.0, 0.0), 0.0, 0.0, 0)
    ensures UpdateToPredicted(UpdateToPredicted(s, 600_000).state, 1_200_000).state.position == Origin()
    ensures UpdateToPredicted(s, 1_200_000).state.position == Point(0.001, 0.0)
  {
    TwoShortPredictions(s);
    OneLongPrediction(s);
  }

  lemma TwoShortPredictions(s: RobotState)
    requires s == RobotState(0, Origin(), Vector(1.0, 0.0), 0.0, 0.0, 0)
    ensures UpdateToPredicted(UpdateToPredicted(s, 600_000).state, 1_200_000).state.position == Origin()
  {
  }

  lemma OneLongPrediction(s: RobotState)
    requires s == RobotState(0, Origin(), Vector(1.0, 0.0), 0.0, 0.0, 0)
    ensures UpdateToPredicted(s, 1_200_000).state.position == Point(0.001, 0.0)
  {
  }

  // ---------------------------------------------------------------------
  // Equality

  /** `operator==` is equality of everything but the timestamp, and `!=` is its negation. */
  lemma SameIgnoresOnlyTimestamp(a: RobotState, b: RobotState)
    ensures Same(a, b) <==> a.(lastUpdateTimestamp := b.lastUpdateTimestamp) == b
    ensures Differs(a, b) <==> !Same(a, b)
  {
  }

  /** `operator==` is an equivalence relation. */
  lemma SameIsEquivalence(a: RobotState, b: RobotState, c: RobotState)
    ensures Same(a, a)
    ensures Same(a, b) ==> Same(b, a)
    ensures Same(a, b) && Same(b, c) ==> Same(a, c)
  {
  }

  /** A prediction within one millisecond of the last update compares equal to the old state. */
  lemma PredictionWithinOneMillisecondIsSame(s: RobotState, t: Timestamp)
    requires s.lastUpdateTimestamp <= t < s.lastUpdateTimestamp + TicksPerMillisecond
    ensures Same(UpdateToPredicted(s, t).state, s)
  {
    PredictionWithinOneMillisecond(s, t);
  }

  // ---------------------------------------------------------------------
  // Across any series of calls

  /** No operation changes the id or moves the timestamp backwards, and a
      rejected one changes nothing. */
  lemma ApplyKeepsIdAndClock(s: RobotState, op: Op)
    ensures Apply(s, op).state.id == s.id
    ensures s.lastUpdateTimestamp <= Apply(s, op).state.lastUpdateTimestamp
    ensures Apply(s, op).outcome.Rejected? ==> Apply(s, op).state == s
    ensures Apply(s, op).outcome.Accepted? ==> Apply(s, op).state.lastUpdateTimestamp == Stamp(op)
  {
  }

  /** The id never changes and the timestamp never decreases, over any series of calls. */
  lemma {:induction false} RunKeepsIdAndClock(s: RobotState, ops: seq<Op>)
    ensures Run(s, ops).id == s.id
    ensures s.lastUpdateTimestamp <= Run(s, ops).lastUpdateTimestamp
    decreases |ops|
  {
    if ops != [] {
      ApplyKeepsIdAndClock(s, ops[0]);
      RunKeepsIdAndClock(Apply(s, ops[0]).state, ops[1..]);
    }
  }

  /** The final timestamp of a series is at least the timestamp of every call
      in it that was accepted. */
  lemma {:induction false} RunClockDominatesAccepted(s: RobotState, ops: seq<Op>, k: nat)
    requires k < |ops|
    requires Apply(Run(s, ops[..k]), ops[k]).outcome.Accepted?
    ensures Stamp(ops[k]) <= Run(s, ops).lastUpdateTimestamp
    decreases k
  {
    if k == 0 {
      assert ops[..0] == [];
      ApplyKeepsIdAndClock(s, ops[0]);
      RunKeepsIdAndClock(Apply(s, ops[0]).state, ops[1..]);
    } else {
      var n := Apply(s, ops[0]).state;
      assert ops[1..][..k - 1] == ops[..k][1..];
      assert Run(s, ops[..k]) == Run(n, ops[1..][..k - 1]);
      assert ops[1..][k - 1] == ops[k];
      RunClockDominatesAccepted(n, ops[1..], k - 1);
    }
  }
}
