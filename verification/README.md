# Grasp-motion sequencer of `arm_controller.py`, in Dafny

This project models the sequencing core of `object_manipulation_17s2/src/arm_controller.py`,
the ROS node that makes a mobile manipulator pick up a bottle. The model covers:

- the controller's last-commanded joint record: the five arm joints `al, af, ar, wf, wr`, the
  hand motor joint `hm` and the base position `base_x, base_y`;
- the commands that overwrite that record and publish a trajectory. A publish is an entry
  appended to a command trace, and `move_base` appends ten;
- the synchronised lowering of arm flex and wrist flex;
- the lift and alignment helpers;
- the retrying transform lookup and the two base-convergence loops;
- target selection from a detection snapshot and the callback that starts a grasp;
- the start-up waits for a subscriber and for the controllers;
- the full grasp sequence as an ordered command trace.

Floats are modelled as `real`. Each answer of the transform listener (a pose, or one of the
three recoverable lookup failures) is one element of an input stream, read in call order.
The source's loops are unbounded. Here they are bounded by that stream: when the stream ends
before a loop exits, the model reports that the node is still waiting (`None`, or the
outcome `Blocked`).

Modules, one file each: `Options`, `JointCommander` (joints.dfy), `Lowering`, `Transforms`,
`Convergence`, `Detection`, `Readiness`, `Grasp`, `Node`.

## Source behaviour the model keeps, and where it departs from the stated intent

- **The Y loop reads the x coordinate.** Line 272 stores `trans[0]` in `curr_y`. So the y-axis
  loop tests `trans[1]` once, before the loop, and afterwards re-reads the x coordinate. The
  model passes `AxisX` as the tracked axis for both loops. `Convergence.YLoopReadsX` shows the
  effect: the base stands at x = 2 with y already on its target 0.5, and the loop never exits,
  however many polls arrive.
- **The base is never sent home.** Line 302 uses `ac`, which is a local of `main` (line 316).
  Inside the method the name is unbound, so the call raises NameError after the arm reset.
  `Grasp.GrabObject` ends with outcome `AcUnbound` and no base command after the reset. The last
  commanded base position stays at the x-move goal. Even if `ac` did name this controller,
  lines 174-175 had already overwritten `base_x`/`base_y` at line 280, so it would not hold the
  pre-grasp pose either. The comment at lines 298-299 and the message at line 300 say the robot
  goes back to its original position; the arm is reset (line 301), but the base is never
  commanded back.
- **The lookup timeout cannot fire.** The `continue` at line 202 skips the elapsed-time check,
  so `lookup_transform` retries until it succeeds. It never returns `(0, 0, 0)`
  (`Transforms.LookupNeverTimesOut`). Line 193 sets `timeout = 5` and lines 203-205 would
  return `(0, 0, 0)` after it, but that code is unreachable; the model follows what runs.
- **Selection is the last match, and it sticks.** `get_object` overwrites the selection on
  every match, so the last bottle in the snapshot wins. The selection is never cleared, so once
  a bottle has been seen, a later snapshot without one starts another grasp at the old
  position (`Detection.StaleBottleRegrasped`).
- **The scan trusts `length`.** The scan runs over `range(0, length)` of the `Objects`
  message. A declared length beyond the detections raises IndexError. The selections already
  made are kept, and no grasp starts. The `myvis` message definition is not part of this model.
- **The lift loses its sign.** `move_arm_lift` commands `|target_z - curr_z|`
  (`JointCommander.LiftSignLost`).
- **The gripper is not waited for.** Its readiness flag starts `True` (line 61), so only the
  arm, omni-base and head controllers must be reported running.
- **Before the first reset, two joints record +90 degrees.** The constructor records
  `ar = wf = +DEG_90`, not the default pose's `-DEG_90`.

## Model

| member | source | states |
|---|---|---|
| `JointCommander.MoveArm` | object_manipulation_17s2/src/arm_controller.py:115-132 | the five arm joints become exactly the arguments; `hm`, `base_x`, `base_y` are unchanged; one arm command is appended |
| `JointCommander.MoveArmLastWins` | object_manipulation_17s2/src/arm_controller.py:126-130 | after two arm commands the joint record holds only the second |
| `JointCommander.MoveGripper` | object_manipulation_17s2/src/arm_controller.py:144-156 | only `hm` changes, to the argument; one gripper command is appended |
| `JointCommander.MoveBase` | object_manipulation_17s2/src/arm_controller.py:165-179 | only the base position changes; exactly ten identical base commands are appended after the unchanged old trace |
| `JointCommander.MoveBaseLastWins` | object_manipulation_17s2/src/arm_controller.py:174-179 | two base moves leave the second position and twenty publishes |
| `JointCommander.Initial` | object_manipulation_17s2/src/arm_controller.py:80-92 | the constructor records arm (0, 0, +90 degrees, +90 degrees, 0), `hm` 0, the looked-up base position, and publishes nothing |
| `JointCommander.ResetDefaultPos` | object_manipulation_17s2/src/arm_controller.py:97-98 | the arm becomes (0, 0, -90 degrees, -90 degrees, 0) whatever it was; gripper and base are untouched |
| `JointCommander.ResetIdempotent` | object_manipulation_17s2/src/arm_controller.py:97-98 | resetting twice gives the same joint record as resetting once; the second call only repeats the command |
| `JointCommander.FaceHandForward` | object_manipulation_17s2/src/arm_controller.py:102-103 | the arm becomes the forward-facing pose of the previous one: roll 0 and wrist flex -90 degrees, lift, flex and wrist roll kept; gripper and base untouched |
| `JointCommander.FaceHandForwardIdempotent` | object_manipulation_17s2/src/arm_controller.py:102-103 | facing forward twice leaves the same joint record as once |
| `JointCommander.GripperLastWins` | object_manipulation_17s2/src/arm_controller.py:153 | after opening then closing (or the reverse) only the last gripper angle is recorded |
| `JointCommander.OpenGripper` | object_manipulation_17s2/src/arm_controller.py:159-160 | `hm` becomes the open angle 1.239; the arm and the base position are untouched |
| `JointCommander.CloseGripper` | object_manipulation_17s2/src/arm_controller.py:162-163 | `hm` becomes the closed angle -0.105; the arm and the base position are untouched |
| `JointCommander.MoveArmLift` | object_manipulation_17s2/src/arm_controller.py:134-141 | lift becomes the distance to the target height, so it is never negative; flex, roll, wrist flex and wrist roll are unchanged |
| `JointCommander.LiftSignLost` | object_manipulation_17s2/src/arm_controller.py:137-140 | a target `d` above and a target `d` below the hand give the same command |
| `Lowering.NextPose` | object_manipulation_17s2/src/arm_controller.py:109-111 | one step lowers the flex by the speed, clamped at -90 degrees; the new wrist flex keeps the hand level |
| `Lowering.LoweringPoses` | object_manipulation_17s2/src/arm_controller.py:107-111 | the pose sequence the loop commands: empty exactly when the flex is already at or below -90 degrees, and otherwise starting with one step from the current pose |
| `Lowering.LoweringPosesShape` | object_manipulation_17s2/src/arm_controller.py:107-111 | every pose of the sequence keeps the hand level and the untouched joints, the flex strictly descends along af - k * speed, the last pose is at -90 degrees, and the count is the least k reaching it |
| `Lowering.LoweringLoop` | object_manipulation_17s2/src/arm_controller.py:107-111 | the `while` loop publishes exactly the `LoweringPoses` sequence, one arm command each, and leaves the arm at its last pose |
| `Lowering.LowerArmSyncWrist` | object_manipulation_17s2/src/arm_controller.py:107-112 | with a positive speed the loop ends and publishes exactly the poses of `LoweringPoses` from the starting arm. If the flex starts at or below -90 degrees, nothing is published and nothing changes. Otherwise every commanded pose keeps the hand level, stays at or above -90 degrees and keeps lift, roll and wrist roll. The flex strictly descends, step k is af - k * speed except the clamped last, the step count is the least k reaching -90 degrees, and the arm ends at flex -90 degrees with wrist flex 0 |
| `Lowering.GridClosedForm` | object_manipulation_17s2/src/arm_controller.py:109 | k unclamped steps from `af` reach af - k * speed |
| `Lowering.GridShift` | object_manipulation_17s2/src/arm_controller.py:109 | starting one step lower is the same as taking one more step |
| `Transforms.LookupTransform` | object_manipulation_17s2/src/arm_controller.py:190-207 | the lookup is still waiting exactly when every answer is a failure; a result consumes at least one answer |
| `Transforms.LookupReturnsFirstSuccess` | object_manipulation_17s2/src/arm_controller.py:196-202 | the result is the first successful answer, all earlier answers are failures, and the stream left is exactly what follows it |
| `Transforms.LookupAfterFailures` | object_manipulation_17s2/src/arm_controller.py:196-202 | any run of failures followed by a pose yields that pose and the polls after it |
| `Transforms.LookupNeverTimesOut` | object_manipulation_17s2/src/arm_controller.py:201-205 | no number of failures produces the `(0, 0, 0)` timeout answer |
| `Transforms.ThreeConnectivityFailuresThenSuccess` | object_manipulation_17s2/src/arm_controller.py:197-202 | three connectivity failures and then a pose return that pose |
| `Transforms.AlignHandWithObject` | object_manipulation_17s2/src/arm_controller.py:183-188 | the base target puts the hand at (target x - 0.07, target y), i.e. returns (tx - hx - 0.07, ty - hy) |
| `Convergence.Converge` | object_manipulation_17s2/src/arm_controller.py:270-284 | a loop exits only on a value within [target - 0.05, target + 0.05], consuming no more than the stream; a start value already in bound exits at once and consumes no poll |
| `Convergence.ConvergeWaitsIffNoExit` | object_manipulation_17s2/src/arm_controller.py:270-273 | from a start value out of bound, the loop is still waiting exactly when no answer in the stream is a pose whose read-back coordinate is within bound |
| `Convergence.ConvergeExitsOnFirstInBound` | object_manipulation_17s2/src/arm_controller.py:270-273 | from a start value out of bound, the loop exits on the first pose whose read-back is within bound: every earlier answer is a failure or out of bound, the exit value is that pose's coordinate, and the stream left is what follows it |
| `Convergence.ConvergeAxis` | object_manipulation_17s2/src/arm_controller.py:281-284 | the `while` loop exits exactly as `Converge` does, so only within bound, and without polling when the start value is in bound |
| `Convergence.NeverConverges` | object_manipulation_17s2/src/arm_controller.py:270-272 | a loop whose read-back stays out of bound never exits, for any stream |
| `Convergence.YLoopReadsX` | object_manipulation_17s2/src/arm_controller.py:272 | the y loop, re-reading x, spins for ever with the base at x = 2 and y on its target 0.5 |
| `Detection.LastMatchIndex` | object_manipulation_17s2/src/arm_controller.py:214-216 | the index of the last detection with the name, or none exactly when no detection has it |
| `Detection.Select` | object_manipulation_17s2/src/arm_controller.py:213-216 | with no match the previous selection is kept; otherwise the selection is a matching entry with no match after it |
| `Detection.GetObject` | object_manipulation_17s2/src/arm_controller.py:213-216 | the selection is the last match among the scanned entries, or the previous selection when none matches. An IndexError is raised exactly when `length` exceeds the detections |
| `Detection.SelectKeepsLastMatch` | object_manipulation_17s2/src/arm_controller.py:214-216 | with two bottles the later one is selected |
| `Detection.HandleSnapshot` | object_manipulation_17s2/src/arm_controller.py:304-312 | a grasp starts exactly when the scan reaches its end and either a bottle is among the scanned entries or the kept selection is already a bottle; the selection is the last scanned bottle, or the old selection when none was scanned; the grasp is at the selection |
| `Detection.StaleBottleRegrasped` | object_manipulation_17s2/src/arm_controller.py:305-308 | after a bottle was selected, a snapshot without one starts a grasp at the old bottle |
| `Detection.SingleBottleGrasped` | object_manipulation_17s2/src/arm_controller.py:304-312 | the snapshot {bottle, 1.0, 0.5, 0.3} starts one grasp at (1.0, 0.5, 0.3) |
| `Detection.NoBottleNoGrasp` | object_manipulation_17s2/src/arm_controller.py:304-308 | from the initial empty selection, a snapshot without a bottle starts no grasp |
| `Readiness.AbsorbStep` | object_manipulation_17s2/src/arm_controller.py:64-72 | folding one controller entry keeps each flag equal to "seen running so far" |
| `Readiness.WaitForControllers` | object_manipulation_17s2/src/arm_controller.py:58-77 | the wait ends at the first answer by which the arm, omni-base and head controllers have all been reported running, at any earlier time; if that never happens, it never ends |
| `Readiness.GripperNotAwaited` | object_manipulation_17s2/src/arm_controller.py:61 | an answer without the gripper controller is enough |
| `Readiness.WaitForSubscriber` | object_manipulation_17s2/src/arm_controller.py:48-49 | the wait ends at the first poll reporting a subscriber, and never if none does |
| `Grasp.Prepare` | object_manipulation_17s2/src/arm_controller.py:255-258 | open gripper, then face forward, then exactly the `LoweringPoses` sequence from the forward-facing pose, in that order. Every lowering pose keeps the hand level with roll 0 and the old lift and wrist roll, the flex descends, and the arm ends at flex -90 degrees with wrist flex 0; the gripper is open and the base untouched |
| `Grasp.AxisGoal` | object_manipulation_17s2/src/arm_controller.py:269-280 | the y move keeps the base's x, the x move keeps its y |
| `Grasp.AxisMove` | object_manipulation_17s2/src/arm_controller.py:266-284 | an axis move is still waiting exactly when the base lookup is, or when the loop started from the looked-up coordinate (y for the y move, x for the x move) never reads back x within bound; otherwise it starts at the looked-up pose and exits within bound where that loop does |
| `Grasp.DriveAxis` | object_manipulation_17s2/src/arm_controller.py:266-284 | one axis move reads what `AxisMove` says. Without a base pose nothing is published; once the pose is read, ten base commands toward the goal that keeps the other coordinate are published, whether or not the loop then exits. It never closes the gripper or moves the arm |
| `Grasp.BothMoves` | object_manipulation_17s2/src/arm_controller.py:264-284 | both moves are done exactly when the y move is and the x move, reading the polls the y loop left, is; the y move starts at the first base pose, the x move at the base pose read after the y loop, and both exit within bound |
| `Grasp.DriveBoth` | object_manipulation_17s2/src/arm_controller.py:264-284 | the moves are those of `BothMoves`. Every burst whose base pose was read is published, whether its loop then exits or not: the y burst toward (start x, aligned y), then the x burst toward (aligned x, y read after the y loop). Arm and gripper are untouched; when both moves are done the base record ends at the x-move goal |
| `Grasp.ReachReads` | object_manipulation_17s2/src/arm_controller.py:259-284 | the readings after the lowering are complete exactly when the lift lookup, the alignment lookup and both axis moves from the aligned target are; then the lift pose is the first answer, the alignment pose the second, the y move starts at the next base pose and the x move at the one after the y loop, both exiting within bound of the aligned target |
| `Grasp.CloseAndReset` | object_manipulation_17s2/src/arm_controller.py:296-301 | close then reset: gripper at -0.105, arm at the default pose, base untouched |
| `Grasp.Reach` | object_manipulation_17s2/src/arm_controller.py:259-302 | the lift uses the first pose read and lifts to the distance to the target height; alignment uses the second. The sequence completes exactly when `ReachReads` does; then the commands go lift, y burst, x burst, close, reset, the gripper closes only after both loops exited within bound, and the base record ends at the x-move goal. While waiting, exactly the commands of the steps reached are published (the lift once the hand pose is read, each burst once its base pose is read) and the gripper is not closed |
| `Grasp.GrabObject` | object_manipulation_17s2/src/arm_controller.py:255-302 | gripper opening and facing forward come first. The sequence is still waiting exactly when `ReachReads` is; then the gripper is open and not closed, and the trace is the opening, the lowering and exactly the later commands reached. A completed sequence lowers along `LoweringPoses` from the forward-facing pose, lifts from the pose the lowering ended in, publishes the full ordered trace and ends with NameError: the base is never sent back and stays at the x-move goal |
| `Node.Start` | object_manipulation_17s2/src/arm_controller.py:47-94 | start-up succeeds only after a subscriber, ready controllers and a base pose. `main`'s reset and gripper opening (lines 317-318) then leave the default arm, an open gripper, the looked-up base and exactly two commands |
| `Node.ObjectPosCallback` | object_manipulation_17s2/src/arm_controller.py:304-312 | the callback keeps the selection `get_object` makes and starts a grasp exactly when `HandleSnapshot` says so, with the gripper opening first; otherwise it changes nothing. The grasp runs at the new selection's x, y and z on the given polls: it completes exactly when `ReachReads` toward that position does, and then its readings are those, the full trace goes toward it, lowering from the forward-facing pose and lifting from the pose the lowering ended in, and the joint record ends at the default arm, the closed gripper and the x-move goal. While waiting, the trace holds exactly the commands reached and the gripper is open |

## Left out

- ROS publishers, subscribers, the service proxy and `tf.TransformListener` are foreign I/O. Their answers are input streams and their publishes are the command trace.
- Joint-name lists, velocities, effort and `time_from_start` in the trajectory messages carry no modelled behaviour.
- All `rospy.sleep` calls, including the fixed dwells of the grasp sequence, are timing only.
- `rospy.wait_for_service` (line 52) blocks until the service exists; only the answers of the service are modelled.
- `rospy.is_shutdown()` ending `lookup_transform` is covered by the end of the poll stream.
- `move_head` and `move_headxy` only publish constants or their arguments and touch no state.
- `print` logging, `objects_print`, `object_print` and the `object_x/y/z/name` accessors are left out; the accessors are plain field reads and are used inline.
- `base_z` (line 92) is stored but never read.
- `MAX_LIFT` and `MIN_LIFT` are never used.
- `main`'s targets from the command line (lines 319-321) are never used.
- The commented-out block at lines 287-294 is not modelled.
- `ARM_LOWERING_SPEED` is read from the command line (line 23); here it is the `speed` parameter.
- Lowering.LowerArmSyncWrist: requires `speed > 0`. With speed 0 or below and the flex starting above -90 degrees (the guard at line 108), the source loop never ends.
- Convergence.Converge: bounded by the poll stream. The source loops have no bound and would wait for convergence for ever.
- Convergence.ConvergeAxis: bounded by the poll stream, like `Converge`.
- Transforms.LookupTransform: bounded by the poll stream. The source retries for ever.
- Transforms.LookupTransform: its contract states only the waiting condition and that an answer is consumed; which answer is returned is stated separately by `Transforms.LookupReturnsFirstSuccess`.
- Float rounding is not modelled: all arithmetic is on reals, so the repeated subtraction in the lowering loop is exact.
- Reentrant delivery of `object_pos_callback` while a grasp is running is a concurrency concern outside this sequential model.
