/**
 * The joint commander of arm_controller.py: the last-commanded joint values
 * of the arm, the gripper and the omni base, and the command trace that
 * stands for the publishes on the arm, gripper and base topics.
 *
 * The joint values are updated optimistically: a command overwrites the
 * fields it names whether or not the hardware ever reaches them.
 */
module JointCommander {

  /** 90 degrees in radians, as the source writes it. */
  const Deg90: real := 1.5708
  /** The hand motor angles of `open_gripper` and `close_gripper`. */
  const GripperOpenAngle: real := 1.239
  const GripperCloseAngle: real := -0.105
  /** How many times one base command is published. */
  const BasePublishRepeats: nat := 10

  /** Python's `abs` on a float. */
  function Abs(x: real): (r: real)
    ensures r >= 0.0
    ensures r == x || r == -x
  {
    if x < 0.0 then -x else x
  }

  /** Python's `max` of two floats. */
  function Max(a: real, b: real): (r: real)
    ensures r >= a && r >= b
    ensures r == a || r == b
  {
    if a >= b then a else b
  }

  /** The five arm joints: lift, flex, roll, wrist flex, wrist roll. */
  datatype ArmPose = ArmPose(al: real, af: real, ar: real, wf: real, wr: real)

  /** One published trajectory command (joint names, velocities and durations are not modelled). */
  datatype Command =
    | ArmCmd(pose: ArmPose)
    | GripperCmd(hm: real)
    | BaseCmd(x: real, y: real)

  /** Last-commanded values: the arm, the hand motor joint and the base position. */
  datatype JointState = JointState(arm: ArmPose, hm: real, baseX: real, baseY: real)

  /** The controller's state: its joint record and every command it has published, oldest first. */
  datatype Controller = Controller(joints: JointState, trace: seq<Command>)

  /** The arm pose `reset_default_pos` commands. */
  const DefaultArm: ArmPose := ArmPose(0.0, 0.0, -Deg90, -Deg90, 0.0)

  /** The arm pose the constructor records before any command is sent. */
  const InitialArm: ArmPose := ArmPose(0.0, 0.0, Deg90, Deg90, 0.0)

  /** The hand is level when the wrist flex compensates the arm flex. */
  predicate Level(p: ArmPose)
  {
    p.wf == -(Deg90 - Abs(p.af))
  }

  /** The state right after construction: the base position comes from the first pose lookup. */
  function Initial(baseX: real, baseY: real): (c: Controller)
    ensures c.joints.arm == InitialArm && c.joints.hm == 0.0
    ensures c.joints.baseX == baseX && c.joints.baseY == baseY
    ensures c.trace == []
  {
    Controller(JointState(InitialArm, 0.0, baseX, baseY), [])
  }

  /** `move_arm`: overwrite the five arm joints and publish one arm command. */
  function MoveArm(c: Controller, p: ArmPose): (r: Controller)
    ensures r.joints.arm == p
    ensures r.joints.hm == c.joints.hm
    ensures r.joints.baseX == c.joints.baseX && r.joints.baseY == c.joints.baseY
    ensures r.trace == c.trace + [ArmCmd(p)]
  {
    Controller(c.joints.(arm := p), c.trace + [ArmCmd(p)])
  }

  /** `move_gripper`: overwrite the hand motor joint and publish one gripper command. */
  function MoveGripper(c: Controller, hm: real): (r: Controller)
    ensures r.joints.hm == hm
    ensures r.joints.arm == c.joints.arm
    ensures r.joints.baseX == c.joints.baseX && r.joints.baseY == c.joints.baseY
    ensures r.trace == c.trace + [GripperCmd(hm)]
  {
    Controller(c.joints.(hm := hm), c.trace + [GripperCmd(hm)])
  }

  /** The ten identical publishes of one base command. */
  function BaseBurst(x: real, y: real): (s: seq<Command>)
    ensures |s| == BasePublishRepeats
    ensures forall i :: 0 <= i < |s| ==> s[i] == BaseCmd(x, y)
  {
    seq(BasePublishRepeats, i => BaseCmd(x, y))
  }

  /** `move_base`: overwrite the base position and publish the same base command ten times. */
  function MoveBase(c: Controller, x: real, y: real): (r: Controller)
    ensures r.joints.baseX == x && r.joints.baseY == y
    ensures r.joints.arm == c.joints.arm && r.joints.hm == c.joints.hm
    ensures r.trace == c.trace + BaseBurst(x, y)
  {
    Controller(c.joints.(baseX := x, baseY := y), c.trace + BaseBurst(x, y))
  }

  /** `reset_default_pos`: the arm goes to the default pose whatever it was before. */
  function ResetDefaultPos(c: Controller): (r: Controller)
    ensures r.joints.arm == DefaultArm
    ensures r.joints.hm == c.joints.hm
    ensures r.joints.baseX == c.joints.baseX && r.joints.baseY == c.joints.baseY
    ensures r.trace == c.trace + [ArmCmd(DefaultArm)]
  {
    MoveArm(c, DefaultArm)
  }

  /** The arm pose `face_hand_forward` commands from `a`: roll 0, wrist flex -90 degrees, the rest kept. */
  function Forward(a: ArmPose): ArmPose
  {
    ArmPose(a.al, a.af, 0.0, -Deg90, a.wr)
  }

  /** `face_hand_forward`: roll to 0 and wrist flex to -90 degrees, keeping lift, flex and wrist roll. */
  function FaceHandForward(c: Controller): (r: Controller)
    ensures r.joints.arm == Forward(c.joints.arm)
    ensures r.joints.arm.ar == 0.0 && r.joints.arm.wf == -Deg90
    ensures r.joints.arm.al == c.joints.arm.al
    ensures r.joints.arm.af == c.joints.arm.af
    ensures r.joints.arm.wr == c.joints.arm.wr
    ensures r.joints.hm == c.joints.hm
    ensures r.joints.baseX == c.joints.baseX && r.joints.baseY == c.joints.baseY
    ensures r.trace == c.trace + [ArmCmd(r.joints.arm)]
  {
    MoveArm(c, Forward(c.joints.arm))
  }

  /** `open_gripper`. */
  function OpenGripper(c: Controller): (r: Controller)
    ensures r.joints.hm == GripperOpenAngle
    ensures r.joints.arm == c.joints.arm
    ensures r.joints.baseX == c.joints.baseX && r.joints.baseY == c.joints.baseY
    ensures r.trace == c.trace + [GripperCmd(GripperOpenAngle)]
  {
    MoveGripper(c, GripperOpenAngle)
  }

  /** `close_gripper`. */
  function CloseGripper(c: Controller): (r: Controller)
    ensures r.joints.hm == GripperCloseAngle
    ensures r.joints.arm == c.joints.arm
    ensures r.joints.baseX == c.joints.baseX && r.joints.baseY == c.joints.baseY
    ensures r.trace == c.trace + [GripperCmd(GripperCloseAngle)]
  {
    MoveGripper(c, GripperCloseAngle)
  }

  /**
   * `move_arm_lift`: the lift joint is set to the DISTANCE between the target
   * height and the hand's current height, so the sign of the difference is lost.
   */
  function MoveArmLift(c: Controller, currZ: real, targetZ: real): (r: Controller)
    ensures r.joints.arm.al >= 0.0
    ensures r.joints.arm.al == targetZ - currZ || r.joints.arm.al == currZ - targetZ
    ensures r.joints.arm.al == Abs(targetZ - currZ)
    ensures r.joints.arm == c.joints.arm.(al := r.joints.arm.al)
    ensures r.joints.hm == c.joints.hm
    ensures r.joints.baseX == c.joints.baseX && r.joints.baseY == c.joints.baseY
    ensures r.trace == c.trace + [ArmCmd(r.joints.arm)]
  {
    var lift := if currZ < targetZ then targetZ - currZ else currZ - targetZ;
    var a := c.joints.arm;
    MoveArm(c, ArmPose(lift, a.af, a.ar, a.wf, a.wr))
  }

  /** Two arm commands in a row leave only the second in the joint record. */
  lemma MoveArmLastWins(c: Controller, p: ArmPose, q: ArmPose)
    ensures MoveArm(MoveArm(c, p), q).joints == MoveArm(c, q).joints
  {
  }

  /** Resetting twice leaves the same joint record as resetting once; only one more identical command is published. */
  lemma ResetIdempotent(c: Controller)
    ensures ResetDefaultPos(ResetDefaultPos(c)).joints == ResetDefaultPos(c).joints
    ensures ResetDefaultPos(ResetDefaultPos(c)).trace == ResetDefaultPos(c).trace + [ArmCmd(DefaultArm)]
  {
  }

  /** Facing forward twice gives the same joint record as facing forward once. */
  lemma FaceHandForwardIdempotent(c: Controller)
    ensures FaceHandForward(FaceHandForward(c)).joints == FaceHandForward(c).joints
  {
  }

  /** Whatever the gripper was commanded before, only the last command is recorded. */
  lemma GripperLastWins(c: Controller)
    ensures CloseGripper(OpenGripper(c)).joints == CloseGripper(c).joints
    ensures OpenGripper(CloseGripper(c)).joints == OpenGripper(c).joints
  {
  }

  /** The lift target depends only on the distance to the target height: above and below give the same command. */
  lemma LiftSignLost(c: Controller, currZ: real, d: real)
    ensures MoveArmLift(c, currZ, currZ + d) == MoveArmLift(c, currZ, currZ - d)
  {
  }

  /** Moving the base twice leaves the second position in the joint record. */
  lemma MoveBaseLastWins(c: Controller, x1: real, y1: real, x2: real, y2: real)
    ensures MoveBase(MoveBase(c, x1, y1), x2, y2).joints == MoveBase(c, x2, y2).joints
    ensures |MoveBase(MoveBase(c, x1, y1), x2, y2).trace| == |c.trace| + 2 * BasePublishRepeats
  {
  }
}
