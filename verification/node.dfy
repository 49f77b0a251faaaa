/**
 * The node's two entry points: start-up (the `Arm_Controller` constructor
 * followed by `main`'s reset and gripper opening) and `object_pos_callback`,
 * which selects the bottle and runs the whole grasp inline.
 */
module Node {
  import opened Options
  import opened JointCommander
  import opened Transforms
  import opened Readiness
  import opened Detection
  import opened Lowering
  import opened Grasp

  /**
   * Start-up: wait for a subscriber and for the controllers, read the base
   * pose, record the initial joints, then reset the arm and open the gripper.
   */
  method Start(connections: seq<nat>, answers: seq<seq<ControllerStatus>>, polls: seq<Poll>)
    returns (c: Option<Controller>)
    ensures c.Some? ==>
      && (exists k :: 0 <= k < |connections| && connections[k] > 0)
      && (exists k :: 0 <= k <= |answers| && ReadyAfter(answers[..k]))
      && LookupTransform(polls).Some?
    ensures c.Some? ==>
      var base := LookupTransform(polls).value.pose;
      && c.value.joints == JointState(DefaultArm, GripperOpenAngle, base.x, base.y)
      && c.value.trace == [ArmCmd(DefaultArm), GripperCmd(GripperOpenAngle)]
    ensures c.None? ==>
      || (forall k :: 0 <= k < |connections| ==> connections[k] == 0)
      || (forall k :: 0 <= k <= |answers| ==> !ReadyAfter(answers[..k]))
      || LookupTransform(polls).None?
  {
    var subscriber := WaitForSubscriber(connections);
    if subscriber.None? {
      return None;
    }
    var ready := WaitForControllers(answers);
    if ready.None? {
      return None;
    }
    var base := LookupTransform(polls);
    if base.None? {
      return None;
    }
    var ac := Initial(base.value.pose.x, base.value.pose.y);
    ac := OpenGripper(ResetDefaultPos(ac));
    return Some(ac);
  }

  /**
   * `object_pos_callback`: select by name, and if the selection is a
   * bottle, run the grasp at the selection's position. `started` is the
   * object the grasp was started for.
   */
  method ObjectPosCallback(picked: DetectedObject, c: Controller, s: Snapshot, speed: real, polls: seq<Poll>)
    returns (picked': DetectedObject, r: Controller, started: Option<DetectedObject>, outcome: Option<GraspOutcome>)
    requires speed > 0.0
    ensures picked' == HandleSnapshot(picked, s).picked
    ensures started == HandleSnapshot(picked, s).grasp
    ensures started.Some? <==> outcome.Some?
    ensures started.None? ==> r == c
    ensures started.Some? ==>
      |r.trace| >= |c.trace| + 2 && r.trace[|c.trace|] == GripperCmd(GripperOpenAngle)
    // The grasp runs at the new selection's position: it completes exactly when the
    // readings at that position arrive, and then publishes the full sequence toward it,
    // lifting to the selection's height.
    ensures outcome.Some? ==>
      (outcome.value.AcUnbound? <==> ReachReads(picked'.x, picked'.y, polls).Some?)
    ensures outcome.Some? && outcome.value.AcUnbound? ==>
      var l := outcome.value.log;
      && r.trace == FullTrace(c, picked'.x, picked'.y, l)
      && l.reach.lifted == Current(Forward(c.joints.arm), l.lowering).(al := Abs(picked'.z - l.reach.readings.liftHand.z))
      && l.lowering == LoweringPoses(Forward(c.joints.arm), speed)
      && l.reach.readings == ReachReads(picked'.x, picked'.y, polls).value
      && r.joints == JointState(DefaultArm, GripperCloseAngle,
           AlignHandWithObject(l.reach.readings.alignHand, picked'.x, picked'.y).0,
           l.reach.readings.xMove.start.y)
    // A grasp still waiting for the polls has published exactly the commands of the steps it
    // reached, with the gripper opened and not closed.
    ensures outcome.Some? && outcome.value.Blocked? ==>
      && r.joints.hm == GripperOpenAngle
      && NoCloseSince(c.trace, r.trace)
      && r.trace == c.trace + [GripperCmd(GripperOpenAngle), ArmCmd(Forward(c.joints.arm))]
           + ArmCommands(LoweringPoses(Forward(c.joints.arm), speed))
           + ReachSoFar(Current(Forward(c.joints.arm), LoweringPoses(Forward(c.joints.arm), speed)),
                        picked'.x, picked'.y, picked'.z, polls)
  {
    var ok;
    picked', ok := GetObject(s, TargetName, picked);
    if !ok || picked'.name != TargetName {
      return picked', c, None, None;
    }
    var g;
    r, g := GrabObject(c, picked'.x, picked'.y, picked'.z, speed, polls);
    assert r.trace[..|c.trace| + 2][|c.trace|] == r.trace[|c.trace|];
    started, outcome := Some(picked'), Some(g);
  }
}
