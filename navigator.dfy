/** The navigator's dispatcher of navigator/rrt/rrt.cpp: it turns the intents
    assigned to the robots into primitives, in order, one Move primitive per
    Move intent. Any other kind of intent ends the whole call with an error,
    where the source terminates the process. */
module Navigator {
  import opened Geom
  import opened Kinematics

  /** The assigned intents. Only Move is recognised by the navigator; every
      other kind of intent is known by its name alone. */
  datatype Intent =
    | MoveIntent(robotId: RobotId, destination: Point, finalAngle: Angle, finalSpeed: real)
    | OtherIntent(name: string)

  /** A Move primitive: the robot to move, its destination, and the angle and
      speed it should have on arrival. */
  datatype Primitive = MovePrimitive(robotId: RobotId, destination: Point, finalAngle: Angle, finalSpeed: real)

  /** The friendly and enemy robots the navigator is given, read-only. */
  datatype WorldSnapshot = WorldSnapshot(friendlyTeam: seq<RobotState>, enemyTeam: seq<RobotState>)

  datatype Dispatched =
    | Primitives(primitives: seq<Primitive>)
    | UnrecognizedIntent(name: string)

  /** The primitive a Move intent becomes: its four parameters, unchanged. */
  function PrimitiveFor(intent: Intent): Primitive
    requires intent.MoveIntent?
  {
    MovePrimitive(intent.robotId, intent.destination, intent.finalAngle, intent.finalSpeed)
  }

  /** The outcome of dispatching `intents`, defined intent by intent from the
      front; `DispatchMeaning` says what it amounts to. */
  function Dispatch(intents: seq<Intent>): Dispatched
    decreases |intents|
  {
    if intents == [] then
      Primitives([])
    else
      match intents[0]
      case OtherIntent(name) => UnrecognizedIntent(name)
      case MoveIntent(_, _, _, _) =>
        match Dispatch(intents[1..])
        case Primitives(rest) => Primitives([PrimitiveFor(intents[0])] + rest)
        case UnrecognizedIntent(name) => UnrecognizedIntent(name)
  }

  /** Dispatch succeeds exactly when every intent is a Move, and then yields,
      in order, the primitive of each intent; otherwise it fails with the
      name of the first intent that is not a Move. */
  lemma {:induction false} DispatchMeaning(intents: seq<Intent>)
    ensures Dispatch(intents).Primitives? <==> forall k :: 0 <= k < |intents| ==> intents[k].MoveIntent?
    ensures Dispatch(intents).Primitives? ==>
      && |Dispatch(intents).primitives| == |intents|
      && forall k :: 0 <= k < |intents| ==>
           intents[k].MoveIntent? && Dispatch(intents).primitives[k] == PrimitiveFor(intents[k])
    ensures Dispatch(intents).UnrecognizedIntent? ==>
      exists k :: 0 <= k < |intents| && intents[k].OtherIntent? && Dispatch(intents).name == intents[k].name &&
        forall j :: 0 <= j < k ==> intents[j].MoveIntent?
    decreases |intents|
  {
    if intents != [] {
      var rest := intents[1..];
      DispatchMeaning(rest);
      assert forall k :: 1 <= k < |intents| ==> intents[k] == rest[k - 1];
      if intents[0].MoveIntent? && Dispatch(rest).UnrecognizedIntent? {
        var k :| 0 <= k < |rest| && rest[k].OtherIntent? && Dispatch(rest).name == rest[k].name &&
          forall j :: 0 <= j < k ==> rest[j].MoveIntent?;
        assert intents[k + 1] == rest[k];
        assert forall j :: 0 <= j < k + 1 ==> intents[j].MoveIntent? by {
          forall j | 0 <= j < k + 1 ensures intents[j].MoveIntent? {
            if j > 0 { assert intents[j] == rest[j - 1]; }
          }
        }
      }
    }
  }

  /** `RRTNav::getAssignedPrimitives(world, assignedIntents)`. The world is
      not consulted: the obstacle lists the source builds from it are never
      used, so the result is a function of the intents alone. */
  method GetAssignedPrimitives(world: WorldSnapshot, assignedIntents: seq<Intent>) returns (r: Dispatched)
    ensures r == Dispatch(assignedIntents)
    ensures r.Primitives? <==> forall k :: 0 <= k < |assignedIntents| ==> assignedIntents[k].MoveIntent?
    ensures r.Primitives? ==>
      && |r.primitives| == |assignedIntents|
      && forall k :: 0 <= k < |assignedIntents| ==>
           assignedIntents[k].MoveIntent? && r.primitives[k] == PrimitiveFor(assignedIntents[k])
    ensures r.UnrecognizedIntent? ==>
      exists k :: 0 <= k < |assignedIntents| && assignedIntents[k].OtherIntent? &&
        r.name == assignedIntents[k].name &&
        forall j :: 0 <= j < k ==> assignedIntents[j].MoveIntent?
  {
    var assignedPrimitives: seq<Primitive> := [];
    for i := 0 to |assignedIntents|
      invariant |assignedPrimitives| == i
      invariant forall k :: 0 <= k < i ==>
        assignedIntents[k].MoveIntent? && assignedPrimitives[k] == PrimitiveFor(assignedIntents[k])
    {
      match assignedIntents[i]
      case MoveIntent(robotId, destination, finalAngle, finalSpeed) =>
        assignedPrimitives := assignedPrimitives + [MovePrimitive(robotId, destination, finalAngle, finalSpeed)];
      case OtherIntent(name) =>
        r := UnrecognizedIntent(name);
        DispatchAtFirstUnrecognized(assignedIntents, i);
        DispatchMeaning(assignedIntents);
        return;
    }
    r := Primitives(assignedPrimitives);
    DispatchMeaning(assignedIntents);
  }

  /** Dispatch fails with the name of the first intent that is not a Move. */
  lemma {:induction false} DispatchAtFirstUnrecognized(intents: seq<Intent>, i: nat)
    requires i < |intents| && intents[i].OtherIntent?
    requires forall k :: 0 <= k < i ==> intents[k].MoveIntent?
    ensures Dispatch(intents) == UnrecognizedIntent(intents[i].name)
    decreases i
  {
    if i > 0 {
      assert forall k :: 0 <= k < i - 1 ==> intents[1..][k] == intents[k + 1];
      DispatchAtFirstUnrecognized(intents[1..], i - 1);
    }
  }

  /** An empty batch yields no primitives. */
  lemma DispatchEmpty()
    ensures Dispatch([]) == Primitives([])
  {
  }

  /** Dispatching a batch in two parts: the first part's error wins, then the
      second part's, and otherwise the primitives are concatenated. */
  lemma {:induction false} DispatchAppend(a: seq<Intent>, b: seq<Intent>)
    ensures Dispatch(a + b) ==
      match Dispatch(a)
      case UnrecognizedIntent(name) => UnrecognizedIntent(name)
      case Primitives(p) =>
        match Dispatch(b)
        case UnrecognizedIntent(name) => UnrecognizedIntent(name)
        case Primitives(q) => Primitives(p + q)
    decreases |a|
  {
    if a == [] {
      assert a + b == b;
    } else {
      assert (a + b)[0] == a[0];
      assert (a + b)[1..] == a[1..] + b;
      DispatchAppend(a[1..], b);
      match a[0]
      case OtherIntent(_) =>
      case MoveIntent(_, _, _, _) =>
        var r := Dispatch(a[1..]);
        var q := Dispatch(b);
        if r.Primitives? && q.Primitives? {
          assert [PrimitiveFor(a[0])] + (r.primitives + q.primitives)
              == ([PrimitiveFor(a[0])] + r.primitives) + q.primitives;
        }
    }
  }
}
