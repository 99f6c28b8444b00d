/** The `Robot` record of world/robot.cpp: a mutable object whose update
    operations overwrite its kinematic fields in place behind their guards.
    Each operation is proved against the corresponding transition function
    of `Kinematics`; the `const` estimators and `operator==` are functions of
    the snapshot `State()`, so they cannot change the object. */
module World {
  import opened Geom
  import opened Kinematics

  class Robot {
    var id: RobotId
    var position: Point
    var velocity: Vector
    var orientation: Angle
    var angularVelocity: AngularVelocity
    var lastUpdateTimestamp: Timestamp

    /** The robot's fields as a value. */
    function State(): RobotState
      reads this
    {
      RobotState(id, position, velocity, orientation, angularVelocity, lastUpdateTimestamp)
    }

    /** `Robot(id, timestamp)`: a robot at the origin, at rest, facing angle zero. */
    constructor AtRest(id: RobotId, timestamp: Timestamp)
      ensures State() == Kinematics.AtRest(id, timestamp)
      ensures this.id == id && lastUpdateTimestamp == timestamp
      ensures position == Origin() && velocity == ZeroVector()
      ensures orientation == 0.0 && angularVelocity == 0.0
    {
      this.id := id;
      position := Origin();
      velocity := ZeroVector();
      orientation := 0.0;
      angularVelocity := 0.0;
      lastUpdateTimestamp := timestamp;
    }

    /** `Robot(id, position, velocity, orientation, angular_velocity, timestamp)`. */
    constructor (id: RobotId, position: Point, velocity: Vector, orientation: Angle,
                 angularVelocity: AngularVelocity, timestamp: Timestamp)
      ensures State() == RobotState(id, position, velocity, orientation, angularVelocity, timestamp)
    {
      this.id := id;
      this.position := position;
      this.velocity := velocity;
      this.orientation := orientation;
      this.angularVelocity := angularVelocity;
      lastUpdateTimestamp := timestamp;
    }

    /** `updateState(new_position, new_velocity, new_orientation,
        new_angular_velocity, timestamp)`: refused, with nothing changed, when
        the timestamp is older than the last update. */
    method UpdateState(newPosition: Point, newVelocity: Vector, newOrientation: Angle,
                       newAngularVelocity: AngularVelocity, timestamp: Timestamp)
      returns (outcome: Outcome)
      modifies this
      ensures Transition(State(), outcome)
              == Update(old(State()), newPosition, newVelocity, newOrientation, newAngularVelocity, timestamp)
      ensures outcome == Rejected(StaleTimestamp) <==> timestamp < old(lastUpdateTimestamp)
      ensures outcome.Rejected? ==> unchanged(this)
      ensures outcome.Accepted? ==>
        && position == newPosition && velocity == newVelocity
        && orientation == newOrientation && angularVelocity == newAngularVelocity
        && lastUpdateTimestamp == timestamp
      ensures id == old(id) && old(lastUpdateTimestamp) <= lastUpdateTimestamp
    {
      if timestamp < lastUpdateTimestamp {
        return Rejected(StaleTimestamp);
      }
      position := newPosition;
      velocity := newVelocity;
      orientation := newOrientation;
      angularVelocity := newAngularVelocity;
      lastUpdateTimestamp := timestamp;
      outcome := Accepted;
    }

    /** `updateState(const Robot &new_robot_data)`: refused, with nothing
        changed, when the data is for another robot; otherwise the
        five-argument update with the other robot's fields and timestamp.
        `newRobotData` may be this robot itself. */
    method UpdateStateFrom(newRobotData: Robot) returns (outcome: Outcome)
      modifies this
      ensures Transition(State(), outcome) == UpdateFrom(old(State()), old(newRobotData.State()))
      ensures outcome == Rejected(MismatchedId) <==> old(newRobotData.id) != old(id)
      ensures outcome.Rejected? ==> unchanged(this)
      ensures outcome.Accepted? ==> State() == old(newRobotData.State())
      ensures id == old(id) && old(lastUpdateTimestamp) <= lastUpdateTimestamp
    {
      if newRobotData.id != id {
        return Rejected(MismatchedId);
      }
      outcome := UpdateState(newRobotData.position, newRobotData.velocity, newRobotData.orientation,
                             newRobotData.angularVelocity, newRobotData.lastUpdateTimestamp);
    }

    /** `updateStateToPredictedState(timestamp)`: refused, with nothing
        changed, when the timestamp is older than the last update; otherwise
        the four estimates over the whole milliseconds elapsed become the new
        state at that timestamp. */
    method UpdateStateToPredictedState(timestamp: Timestamp) returns (outcome: Outcome)
      modifies this
      ensures Transition(State(), outcome) == UpdateToPredicted(old(State()), timestamp)
      ensures outcome.Accepted? <==> old(lastUpdateTimestamp) <= timestamp
      ensures outcome.Rejected? ==> unchanged(this)
      ensures outcome.Accepted? ==>
        var ms := MillisecondsBetween(old(lastUpdateTimestamp), timestamp);
        && position == EstimatePositionAtFutureTime(old(State()), ms)
        && orientation == EstimateOrientationAtFutureTime(old(State()), ms)
        && lastUpdateTimestamp == timestamp
      ensures velocity == old(velocity) && angularVelocity == old(angularVelocity)
      ensures id == old(id) && old(lastUpdateTimestamp) <= lastUpdateTimestamp
    {
      if timestamp < lastUpdateTimestamp {
        return Rejected(StaleTimestamp);
      }
      var millisecondsInFuture := (timestamp - lastUpdateTimestamp) / TicksPerMillisecond;
      var now := State();
      var newPosition := EstimatePositionAtFutureTime(now, millisecondsInFuture);
      var newVelocity := EstimateVelocityAtFutureTime(now, millisecondsInFuture);
      var newOrientation := EstimateOrientationAtFutureTime(now, millisecondsInFuture);
      var newAngularVelocity := EstimateAngularVelocityAtFutureTime(now, millisecondsInFuture);
      outcome := UpdateState(newPosition, newVelocity, newOrientation, newAngularVelocity, timestamp);
    }
  }
}
