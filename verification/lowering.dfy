/**
 * `lower_arm_sync_wrist`: the arm flex joint descends toward -90 degrees in
 * fixed steps, clamped at -90 degrees, and each step recomputes the wrist
 * flex so that the hand stays level. Every step publishes a full arm command.
 */
module Lowering {
  import opened JointCommander

  /** The arm commands for a sequence of poses, in order. */
  function ArmCommands(steps: seq<ArmPose>): (cmds: seq<Command>)
    ensures |cmds| == |steps|
    ensures forall i :: 0 <= i < |steps| ==> cmds[i] == ArmCmd(steps[i])
  {
    if |steps| == 0 then [] else ArmCommands(steps[..|steps| - 1]) + [ArmCmd(steps[|steps| - 1])]
  }

  /** Appending one pose appends its command. */
  lemma ArmCommandsSnoc(steps: seq<ArmPose>, p: ArmPose)
    ensures ArmCommands(steps + [p]) == ArmCommands(steps) + [ArmCmd(p)]
  {
  }

  /** Integer measure of how many steps of size `speed` are left above -90 degrees. */
  function StepsLeft(af: real, speed: real): (n: int)
    requires speed > 0.0
    ensures n >= 0
  {
    if af > -Deg90 then ((af + Deg90) / speed).Floor + 1 else 0
  }

  /** One step lowers the measure, whether or not it is clamped. */
  lemma StepShrinks(af: real, speed: real)
    requires speed > 0.0 && af > -Deg90
    ensures StepsLeft(Max(af - speed, -Deg90), speed) < StepsLeft(af, speed)
  {
    var next := Max(af - speed, -Deg90);
    if next > -Deg90 {
      assert next == af - speed;
      calc {
        (next + Deg90) / speed;
        ((af + Deg90) - speed) / speed;
        (af + Deg90) / speed - speed / speed;
        (af + Deg90) / speed - 1.0;
      }
    }
  }

  /**
   * One iteration's pose: flex lowered by `speed` but not below -90 degrees,
   * wrist flex recomputed from the new flex, the other joints kept.
   */
  function NextPose(p: ArmPose, speed: real): (q: ArmPose)
    requires speed > 0.0 && p.af > -Deg90
    ensures Level(q)
    ensures -Deg90 <= q.af < p.af
    ensures q.al == p.al && q.ar == p.ar && q.wr == p.wr
    ensures q.af > -Deg90 ==> q.af == p.af - speed
    ensures q.af <= -Deg90 ==> q.af == -Deg90 && p.af - speed <= -Deg90
  {
    var af := Max(p.af - speed, -Deg90);
    ArmPose(p.al, af, p.ar, -(Deg90 - Abs(af)), p.wr)
  }

  /** The flex angle after `k` unclamped steps of size `speed` from `af0`. */
  function Grid(af0: real, speed: real, k: nat): real
  {
    if k == 0 then af0 else Grid(af0, speed, k - 1) - speed
  }

  /** `Grid` is af0 - k * speed. */
  lemma {:induction false} GridClosedForm(af0: real, speed: real, k: nat)
    ensures Grid(af0, speed, k) == af0 - k as real * speed
  {
    if k > 0 {
      GridClosedForm(af0, speed, k - 1);
      assert k as real * speed == (k - 1) as real * speed + speed;
    }
  }

  /** Starting one step lower is one step further along the same grid. */
  lemma {:induction false} GridShift(af0: real, speed: real, k: nat)
    ensures Grid(af0 - speed, speed, k) == Grid(af0, speed, k + 1)
  {
    if k > 0 {
      GridShift(af0, speed, k - 1);
    }
  }

  /**
   * The poses the loop commands from `p`, one iteration after another, until
   * the flex joint reaches -90 degrees.
   */
  function LoweringPoses(p: ArmPose, speed: real): (steps: seq<ArmPose>)
    requires speed > 0.0
    ensures |steps| == 0 <==> p.af <= -Deg90
    ensures |steps| > 0 ==> steps[0] == NextPose(p, speed)
    decreases StepsLeft(p.af, speed)
  {
    if p.af <= -Deg90 then []
    else
      StepShrinks(p.af, speed);
      [NextPose(p, speed)] + LoweringPoses(NextPose(p, speed), speed)
  }

  /** Lift, roll and wrist roll are kept, the hand is level and the flex joint is not below -90 degrees. */
  predicate StepOk(a0: ArmPose, p: ArmPose)
  {
    Level(p) && p.af >= -Deg90 && p.al == a0.al && p.ar == a0.ar && p.wr == a0.wr
  }

  /**
   * The shape of the lowering from `a0`: every pose keeps the hand level and
   * the other joints, the flex joint strictly descends along the grid
   * af - k * speed and the last pose is clamped to exactly -90 degrees, after
   * the least number of steps that reaches it.
   */
  lemma {:induction false} LoweringPosesShape(a0: ArmPose, speed: real)
    requires speed > 0.0
    ensures var s := LoweringPoses(a0, speed);
      && (forall i :: 0 <= i < |s| ==> StepOk(a0, s[i]))
      && (|s| > 0 ==> s[0].af < a0.af)
      && (forall i :: 0 < i < |s| ==> s[i].af < s[i - 1].af)
      && (forall i :: 0 <= i < |s| - 1 ==> s[i].af == Grid(a0.af, speed, i + 1))
      && (|s| > 0 ==> s[|s| - 1].af == -Deg90)
      && (|s| > 0 ==> Grid(a0.af, speed, |s| - 1) > -Deg90)
      && (|s| > 0 ==> Grid(a0.af, speed, |s|) <= -Deg90)
    decreases StepsLeft(a0.af, speed)
  {
    if a0.af > -Deg90 {
      StepShrinks(a0.af, speed);
      var q := NextPose(a0, speed);
      var t := LoweringPoses(q, speed);
      var s := LoweringPoses(a0, speed);
      LoweringPosesShape(q, speed);
      assert s == [q] + t;
      if |t| > 0 {
        assert q.af == a0.af - speed;
        forall i | 0 <= i <= |t|
          ensures Grid(q.af, speed, i) == Grid(a0.af, speed, i + 1)
        {
          GridShift(a0.af, speed, i);
        }
      }
    }
  }

  /** The pose the next iteration starts from. */
  function Current(a0: ArmPose, steps: seq<ArmPose>): ArmPose
  {
    if steps == [] then a0 else steps[|steps| - 1]
  }

  /** One more iteration moves one pose from the poses still to come to those commanded. */
  lemma LoweringPosesSnoc(a0: ArmPose, speed: real, steps: seq<ArmPose>)
    requires speed > 0.0 && Current(a0, steps).af > -Deg90
    requires steps + LoweringPoses(Current(a0, steps), speed) == LoweringPoses(a0, speed)
    ensures var q := NextPose(Current(a0, steps), speed);
      (steps + [q]) + LoweringPoses(Current(a0, steps + [q]), speed) == LoweringPoses(a0, speed)
  {
    var q := NextPose(Current(a0, steps), speed);
    assert Current(a0, steps + [q]) == q;
    assert LoweringPoses(Current(a0, steps), speed) == [q] + LoweringPoses(q, speed);
    assert (steps + [q]) + LoweringPoses(q, speed) == steps + ([q] + LoweringPoses(q, speed));
  }

  /**
   * The lowering loop. `steps` are the poses commanded, in order; with a
   * positive step size it terminates with the flex joint at -90 degrees.
   */
  method LowerArmSyncWrist(c: Controller, speed: real) returns (r: Controller, steps: seq<ArmPose>)
    requires speed > 0.0
    ensures steps == LoweringPoses(c.joints.arm, speed)
    ensures r.trace == c.trace + ArmCommands(steps)
    ensures r.joints.hm == c.joints.hm
    ensures r.joints.baseX == c.joints.baseX && r.joints.baseY == c.joints.baseY
    // Already at or below -90 degrees: nothing is published and nothing changes.
    ensures c.joints.arm.af <= -Deg90 ==> steps == [] && r == c
    // Otherwise the flex joint ends exactly at -90 degrees (wrist flex 0), on the last commanded pose.
    ensures c.joints.arm.af > -Deg90 ==> |steps| > 0 && r.joints.arm == steps[|steps| - 1]
    ensures c.joints.arm.af > -Deg90 ==> r.joints.arm.af == -Deg90 && r.joints.arm.wf == 0.0
    // Every step keeps the hand level, never goes below -90 degrees, and leaves lift, roll and wrist roll alone.
    ensures forall i :: 0 <= i < |steps| ==> StepOk(c.joints.arm, steps[i])
    // The flex joint strictly descends from step to step.
    ensures |steps| > 0 ==> steps[0].af < c.joints.arm.af
    ensures forall i :: 0 < i < |steps| ==> steps[i].af < steps[i - 1].af
    // Closed form: step k (from 1) is af - k * speed, except the last, which is clamped;
    // the number of steps is the least k with af - k * speed <= -90 degrees.
    ensures forall i :: 0 <= i < |steps| - 1 ==> steps[i].af == Grid(c.joints.arm.af, speed, i + 1)
    ensures |steps| > 0 ==> Grid(c.joints.arm.af, speed, |steps| - 1) > -Deg90
    ensures |steps| > 0 ==> Grid(c.joints.arm.af, speed, |steps|) <= -Deg90
  {
    r, steps := LoweringLoop(c, speed);
    LoweringPosesShape(c.joints.arm, speed);
  }

  /** The loop itself: it commands exactly `LoweringPoses` and stops at -90 degrees. */
  method LoweringLoop(c: Controller, speed: real) returns (r: Controller, steps: seq<ArmPose>)
    requires speed > 0.0
    ensures steps == LoweringPoses(c.joints.arm, speed)
    ensures r == Controller(c.joints.(arm := Current(c.joints.arm, steps)), c.trace + ArmCommands(steps))
  {
    var a0 := c.joints.arm;
    r := c;
    steps := [];
    while r.joints.arm.af > -Deg90
      invariant r == Controller(c.joints.(arm := Current(a0, steps)), c.trace + ArmCommands(steps))
      invariant steps + LoweringPoses(Current(a0, steps), speed) == LoweringPoses(a0, speed)
      decreases StepsLeft(r.joints.arm.af, speed)
    {
      StepShrinks(r.joints.arm.af, speed);
      var p := NextPose(r.joints.arm, speed);
      LoweringPosesSnoc(a0, speed, steps);
      ArmCommandsSnoc(steps, p);
      r := MoveArm(r, p);
      steps := steps + [p];
    }
  }
}
