/**
 * `grab_obj_mode1`: open the gripper, face the hand forward, lower the arm
 * with the wrist in sync, lift to the object's height, align, drive the base
 * along y and then along x until each loop's read-back is within bound,
 * close the gripper and reset the arm.
 *
 * Every pose lookup reads from one poll stream, in call order. The sequence
 * ends in one of two ways: the stream runs out inside a lookup or a
 * convergence loop (the source would still be waiting there), or the last
 * line raises NameError because `ac` is not bound inside the method, so the
 * base is never sent back.
 */
module Grasp {
  import opened Options
  import opened JointCommander
  import opened Lowering
  import opened Transforms
  import opened Convergence

  /** `later` keeps `earlier` and adds no command that closes the gripper. */
  predicate NoCloseSince(earlier: seq<Command>, later: seq<Command>)
  {
    && |earlier| <= |later|
    && later[..|earlier|] == earlier
    && forall i :: |earlier| <= i < |later| ==> later[i] != GripperCmd(GripperCloseAngle)
  }

  lemma NoCloseSinceTrans(a: seq<Command>, b: seq<Command>, c: seq<Command>)
    requires NoCloseSince(a, b) && NoCloseSince(b, c)
    ensures NoCloseSince(a, c)
  {
  }

  /** The first three steps: open the gripper, face the hand forward, lower in sync. */
  method Prepare(c: Controller, speed: real) returns (r: Controller, lowering: seq<ArmPose>)
    requires speed > 0.0
    ensures lowering == LoweringPoses(Forward(c.joints.arm), speed)
    ensures r.trace == c.trace + [GripperCmd(GripperOpenAngle), ArmCmd(Forward(c.joints.arm))] + ArmCommands(lowering)
    ensures NoCloseSince(c.trace, r.trace)
    ensures r.joints == JointState(Current(Forward(c.joints.arm), lowering), GripperOpenAngle, c.joints.baseX, c.joints.baseY)
    // The lowering starts from the forward-facing pose: roll 0, lift and wrist roll kept, hand level.
    ensures forall i :: 0 <= i < |lowering| ==>
      && Level(lowering[i])
      && lowering[i].ar == 0.0
      && lowering[i].al == c.joints.arm.al
      && lowering[i].wr == c.joints.arm.wr
    ensures forall i :: 0 < i < |lowering| ==> lowering[i].af < lowering[i - 1].af
    ensures c.joints.arm.af > -Deg90 ==> r.joints.arm.af == -Deg90 && r.joints.arm.wf == 0.0
  {
    r := OpenGripper(c);
    r := FaceHandForward(r);
    r, lowering := LowerArmSyncWrist(r, speed);
    assert r.trace[..|c.trace|] == c.trace;
  }

  /** The base command for a move along `axis` from `start`: the other coordinate is kept. */
  function AxisGoal(axis: Axis, start: Vec3, target: real): (g: (real, real))
    ensures axis == AxisY ==> g == (start.x, target)
    ensures axis == AxisX ==> g == (target, start.y)
  {
    match axis
    case AxisY => (start.x, target)
    case AxisX => (target, start.y)
  }

  /** The coordinate of `start` the loop tests first: trans[1] for the y move, trans[0] for the x move. */
  function AxisStart(axis: Axis, start: Vec3): real
  {
    match axis
    case AxisY => start.y
    case AxisX => start.x
  }

  /** A finished axis move: the base pose before it, the value the loop exited on, the polls left. */
  datatype Drive = Drive(start: Vec3, exit: real, rest: seq<Poll>)

  /**
   * What one axis move reads from the polls: the base pose, then the loop's
   * exit. Both of the source's loops re-read trans[0], the x coordinate.
   * None while the lookup or the loop is still waiting.
   */
  function AxisMove(axis: Axis, target: real, polls: seq<Poll>): (d: Option<Drive>)
    ensures d.None? <==>
      || LookupTransform(polls).None?
      || Converge(AxisStart(axis, LookupTransform(polls).value.pose), target, AxisX,
                  LookupTransform(polls).value.rest).None?
    ensures d.Some? ==>
      && d.value.start == LookupTransform(polls).value.pose
      && WithinBound(d.value.exit, target)
      && Converge(AxisStart(axis, d.value.start), target, AxisX, LookupTransform(polls).value.rest)
           == Some(Converged(d.value.exit, d.value.rest))
  {
    match LookupTransform(polls)
    case None => None
    case Some(base) =>
      match Converge(AxisStart(axis, base.pose), target, AxisX, base.rest)
      case None => None
      case Some(done) => Some(Drive(base.pose, done.value, done.rest))
  }

  /**
   * One axis move: read the base pose, command the base to the target on
   * `axis`, then poll until the read-back is within bound. The base command
   * is published as soon as the pose is read, before the loop.
   */
  method DriveAxis(r0: Controller, axis: Axis, target: real, polls: seq<Poll>)
    returns (r: Controller, d: Option<Drive>)
    ensures d == AxisMove(axis, target, polls)
    ensures LookupTransform(polls).None? ==> r == r0
    ensures LookupTransform(polls).Some? ==>
      var g := AxisGoal(axis, LookupTransform(polls).value.pose, target);
      r == MoveBase(r0, g.0, g.1)
    ensures NoCloseSince(r0.trace, r.trace)
    ensures r.joints.arm == r0.joints.arm && r.joints.hm == r0.joints.hm
  {
    r := r0;
    var base := LookupTransform(polls);
    if base.None? {
      return r, None;
    }
    var start := base.value.pose;
    var g := AxisGoal(axis, start, target);
    r := MoveBase(r, g.0, g.1);
    var done := ConvergeAxis(AxisStart(axis, start), target, AxisX, base.value.rest);
    if done.None? {
      return r, None;
    }
    d := Some(Drive(start, done.value.value, done.value.rest));
  }

  /** The two axis moves, y first, the x move reading the polls the y loop left. */
  function BothMoves(alignedX: real, alignedY: real, polls: seq<Poll>): (m: Option<(Drive, Drive)>)
    ensures m.None? <==>
      || AxisMove(AxisY, alignedY, polls).None?
      || AxisMove(AxisX, alignedX, AxisMove(AxisY, alignedY, polls).value.rest).None?
    ensures m.Some? ==>
      var (y, x) := m.value;
      && y.start == LookupTransform(polls).value.pose
      && WithinBound(y.exit, alignedY)
      && LookupTransform(y.rest).Some?
      && x.start == LookupTransform(y.rest).value.pose
      && WithinBound(x.exit, alignedX)
  {
    match AxisMove(AxisY, alignedY, polls)
    case None => None
    case Some(y) =>
      match AxisMove(AxisX, alignedX, y.rest)
      case None => None
      case Some(x) => Some((y, x))
  }

  /**
   * The base commands the two axis moves publish, whether they finish or the
   * polls run out: each move's burst goes out as soon as its base pose is read.
   */
  function BaseCommands(alignedX: real, alignedY: real, polls: seq<Poll>): seq<Command>
  {
    match LookupTransform(polls)
    case None => []
    case Some(base) =>
      BaseBurst(base.pose.x, alignedY) +
        match AxisMove(AxisY, alignedY, polls)
        case None => []
        case Some(y) =>
          match LookupTransform(y.rest)
          case None => []
          case Some(next) => BaseBurst(alignedX, next.pose.y)
  }

  /**
   * The two axis moves, y first: the y move keeps the base's current x, the
   * x move keeps the y the base reports after the y loop has exited.
   */
  method DriveBoth(r0: Controller, alignedX: real, alignedY: real, polls: seq<Poll>)
    returns (r: Controller, moves: Option<(Drive, Drive)>)
    ensures moves == BothMoves(alignedX, alignedY, polls)
    // Every burst whose base pose was read has gone out, finished or not.
    ensures r.trace == r0.trace + BaseCommands(alignedX, alignedY, polls)
    ensures r.joints.arm == r0.joints.arm && r.joints.hm == r0.joints.hm
    ensures moves.None? ==> NoCloseSince(r0.trace, r.trace)
    ensures moves.Some? ==>
      var (y, x) := moves.value;
      && r.trace == r0.trace + BaseBurst(y.start.x, alignedY) + BaseBurst(alignedX, x.start.y)
      && r.joints == r0.joints.(baseX := alignedX, baseY := x.start.y)
  {
    var r1, yMove := DriveAxis(r0, AxisY, alignedY, polls);
    if yMove.None? {
      return r1, None;
    }
    var r2, xMove := DriveAxis(r1, AxisX, alignedX, yMove.value.rest);
    NoCloseSinceTrans(r0.trace, r1.trace, r2.trace);
    if xMove.None? {
      return r2, None;
    }
    assert AxisGoal(AxisY, yMove.value.start, alignedY) == (yMove.value.start.x, alignedY);
    assert AxisGoal(AxisX, xMove.value.start, alignedX) == (alignedX, xMove.value.start.y);
    return r2, Some((yMove.value, xMove.value));
  }

  /** The steps after the lowering, in terms of what they read from the polls. */
  datatype Readings = Readings(liftHand: Vec3, alignHand: Vec3, yMove: Drive, xMove: Drive)

  /**
   * What the steps after the lowering read, in call order: the hand pose for
   * the lift, the hand pose for the alignment, then the two axis moves
   * toward the aligned base target. None while any of them is still waiting.
   */
  function ReachReads(targetX: real, targetY: real, polls: seq<Poll>): (r: Option<Readings>)
    ensures r.None? <==>
      || LookupTransform(polls).None?
      || LookupTransform(LookupTransform(polls).value.rest).None?
      || (var offset := LookupTransform(LookupTransform(polls).value.rest).value;
          var aligned := AlignHandWithObject(offset.pose, targetX, targetY);
          BothMoves(aligned.0, aligned.1, offset.rest).None?)
    ensures r.Some? ==>
      var hand := LookupTransform(polls);
      var offset := LookupTransform(hand.value.rest);
      var aligned := AlignHandWithObject(r.value.alignHand, targetX, targetY);
      && r.value.liftHand == hand.value.pose
      && r.value.alignHand == offset.value.pose
      && r.value.yMove.start == LookupTransform(offset.value.rest).value.pose
      && LookupTransform(r.value.yMove.rest).Some?
      && r.value.xMove.start == LookupTransform(r.value.yMove.rest).value.pose
      && WithinBound(r.value.yMove.exit, aligned.1)
      && WithinBound(r.value.xMove.exit, aligned.0)
  {
    match LookupTransform(polls)
    case None => None
    case Some(hand) =>
      match LookupTransform(hand.rest)
      case None => None
      case Some(offset) =>
        var aligned := AlignHandWithObject(offset.pose, targetX, targetY);
        match BothMoves(aligned.0, aligned.1, offset.rest)
        case None => None
        case Some(m) => Some(Readings(hand.pose, offset.pose, m.0, m.1))
  }

  /** The last two steps that run: close the gripper, then reset the arm. */
  function CloseAndReset(c: Controller): (r: Controller)
    ensures r.trace == c.trace + [GripperCmd(GripperCloseAngle), ArmCmd(DefaultArm)]
    ensures r.joints == JointState(DefaultArm, GripperCloseAngle, c.joints.baseX, c.joints.baseY)
  {
    ResetDefaultPos(CloseGripper(c))
  }

  /** What the steps after the lowering read, and the arm pose after the lift. */
  datatype ReachLog = ReachLog(readings: Readings, lifted: ArmPose)

  /**
   * The commands the steps after the lowering publish before the polls run
   * out, from the arm pose `arm`: the lift once the hand pose is read, then
   * the base bursts once the alignment pose is read.
   */
  function ReachSoFar(arm: ArmPose, targetX: real, targetY: real, targetZ: real, polls: seq<Poll>): seq<Command>
  {
    match LookupTransform(polls)
    case None => []
    case Some(hand) =>
      [ArmCmd(arm.(al := Abs(targetZ - hand.pose.z)))] +
        match LookupTransform(hand.rest)
        case None => []
        case Some(offset) =>
          var aligned := AlignHandWithObject(offset.pose, targetX, targetY);
          BaseCommands(aligned.0, aligned.1, offset.rest)
  }

  /**
   * Lift to the object's height, align, drive along y then x, close the
   * gripper and reset the arm.
   */
  method Reach(r0: Controller, targetX: real, targetY: real, targetZ: real, polls: seq<Poll>)
    returns (r: Controller, log: Option<ReachLog>)
    ensures log.Some? <==> ReachReads(targetX, targetY, polls).Some?
    ensures log.None? ==> r.joints.hm == r0.joints.hm && NoCloseSince(r0.trace, r.trace)
    ensures log.None? ==> r.trace == r0.trace + ReachSoFar(r0.joints.arm, targetX, targetY, targetZ, polls)
    ensures log.Some? ==>
      var l := log.value;
      var aligned := AlignHandWithObject(l.readings.alignHand, targetX, targetY);
      && l.readings == ReachReads(targetX, targetY, polls).value
      && l.lifted == r0.joints.arm.(al := Abs(targetZ - l.readings.liftHand.z))
      && r.trace == r0.trace
           + [ArmCmd(l.lifted)]
           + BaseBurst(l.readings.yMove.start.x, aligned.1)
           + BaseBurst(aligned.0, l.readings.xMove.start.y)
           + [GripperCmd(GripperCloseAngle), ArmCmd(DefaultArm)]
      && r.joints == JointState(DefaultArm, GripperCloseAngle, aligned.0, l.readings.xMove.start.y)
  {
    var hand := LookupTransform(polls);
    if hand.None? {
      return r0, None;
    }
    var r1 := MoveArmLift(r0, hand.value.pose.z, targetZ);
    var lifted := r1.joints.arm;
    assert r1.trace[..|r0.trace|] == r0.trace;
    var offset := LookupTransform(hand.value.rest);
    if offset.None? {
      return r1, None;
    }
    var aligned := AlignHandWithObject(offset.value.pose, targetX, targetY);
    var r2, moves := DriveBoth(r1, aligned.0, aligned.1, offset.value.rest);
    if moves.None? {
      NoCloseSinceTrans(r0.trace, r1.trace, r2.trace);
      return r2, None;
    }
    r := CloseAndReset(r2);
    log := Some(ReachLog(Readings(hand.value.pose, offset.value.pose, moves.value.0, moves.value.1), lifted));
  }

  /** What a completed sequence read: the lowering poses and the rest. */
  datatype GraspLog = GraspLog(lowering: seq<ArmPose>, reach: ReachLog)

  datatype GraspOutcome =
    | Blocked
    | AcUnbound(log: GraspLog)

  /** The trace of a sequence that reached the last line, in order. */
  function FullTrace(c: Controller, targetX: real, targetY: real, l: GraspLog): seq<Command>
  {
    var aligned := AlignHandWithObject(l.reach.readings.alignHand, targetX, targetY);
    c.trace
      + [GripperCmd(GripperOpenAngle), ArmCmd(Forward(c.joints.arm))]
      + ArmCommands(l.lowering)
      + [ArmCmd(l.reach.lifted)]
      + BaseBurst(l.reach.readings.yMove.start.x, aligned.1)
      + BaseBurst(aligned.0, l.reach.readings.xMove.start.y)
      + [GripperCmd(GripperCloseAngle), ArmCmd(DefaultArm)]
  }

  method GrabObject(c: Controller, targetX: real, targetY: real, targetZ: real, speed: real, polls: seq<Poll>)
    returns (r: Controller, outcome: GraspOutcome)
    requires speed > 0.0
    // The gripper opens and the hand faces forward before anything else, whatever follows.
    ensures |r.trace| >= |c.trace| + 2
    ensures r.trace[..|c.trace| + 2] == c.trace + [GripperCmd(GripperOpenAngle), ArmCmd(Forward(c.joints.arm))]
    // The sequence is still waiting exactly when the polls run out inside a lookup or a loop;
    // then the gripper has not been closed.
    ensures outcome.Blocked? <==> ReachReads(targetX, targetY, polls).None?
    ensures outcome.Blocked? ==> r.joints.hm == GripperOpenAngle && NoCloseSince(c.trace, r.trace)
    ensures outcome.Blocked? ==>
      var lowering := LoweringPoses(Forward(c.joints.arm), speed);
      r.trace == c.trace + [GripperCmd(GripperOpenAngle), ArmCmd(Forward(c.joints.arm))] + ArmCommands(lowering)
        + ReachSoFar(Current(Forward(c.joints.arm), lowering), targetX, targetY, targetZ, polls)
    // A completed sequence: the lowering from the forward-facing pose, the lift from the pose it
    // ended in, the readings in call order, the commands in the fixed order, and the base left
    // at the x-move goal.
    ensures outcome.AcUnbound? ==>
      var l := outcome.log;
      var seen := l.reach.readings;
      var aligned := AlignHandWithObject(seen.alignHand, targetX, targetY);
      && l.lowering == LoweringPoses(Forward(c.joints.arm), speed)
      && seen == ReachReads(targetX, targetY, polls).value
      && l.reach.lifted == Current(Forward(c.joints.arm), l.lowering).(al := Abs(targetZ - seen.liftHand.z))
      && r.trace == FullTrace(c, targetX, targetY, l)
      && r.joints == JointState(DefaultArm, GripperCloseAngle, aligned.0, seen.xMove.start.y)
  {
    var r0, lowering := Prepare(c, speed);
    var head := c.trace + [GripperCmd(GripperOpenAngle), ArmCmd(Forward(c.joints.arm))];
    assert r0.trace[..|c.trace| + 2] == head;
    var reach;
    r, reach := Reach(r0, targetX, targetY, targetZ, polls);
    assert r.trace[..|r0.trace|] == r0.trace;
    assert r.trace[..|c.trace| + 2] == head by {
      assert r.trace[..|c.trace| + 2] == r.trace[..|r0.trace|][..|c.trace| + 2];
    }
    if reach.None? {
      NoCloseSinceTrans(c.trace, r0.trace, r.trace);
      return r, Blocked;
    }
    // `move_base(ac.base_x, ac.base_y)` raises NameError here: nothing more is published.
    outcome := AcUnbound(GraspLog(lowering, reach.value));
  }
}
