/**
 * The start-up wait of the `Arm_Controller` constructor: first until the arm
 * command topic has a subscriber, then until the controller manager reports
 * the arm, base and head controllers running. The gripper flag starts set,
 * so the gripper controller is never waited for. Each query answer is one
 * element of an input stream; an exhausted stream means still waiting.
 */
module Readiness {
  import opened Options

  /** One entry of the controller manager's `list_controllers` answer. */
  datatype ControllerStatus = ControllerStatus(name: string, state: string)

  /** The four sticky flags: arm, gripper, omni base and head controller seen running. */
  datatype Flags = Flags(arm: bool, gripper: bool, omni: bool, head: bool)

  /** The gripper is assumed to work from the start. */
  const InitialFlags: Flags := Flags(false, true, false, false)

  predicate AllSet(f: Flags)
  {
    f.arm && f.gripper && f.omni && f.head
  }

  /** One controller entry sets the flag it is running for, and nothing else. */
  function Absorb(f: Flags, c: ControllerStatus): Flags
  {
    Flags(
      f.arm || (c.name == "arm_trajectory_controller" && c.state == "running"),
      f.gripper || (c.name == "gripper_controller" && c.state == "running"),
      f.omni || (c.name == "omni_base_controller" && c.state == "running"),
      f.head || (c.name == "head_trajectory_controller" && c.state == "running"))
  }

  /** Some answer among `answers` lists `name` as running. */
  predicate SeenRunning(answers: seq<seq<ControllerStatus>>, name: string)
  {
    exists i, j :: 0 <= i < |answers| && 0 <= j < |answers[i]| && answers[i][j] == ControllerStatus(name, "running")
  }

  /** What the flags mean after reading `answers`: each required controller was seen running in one of them. */
  predicate FlagsAfter(f: Flags, answers: seq<seq<ControllerStatus>>)
  {
    && (f.arm <==> SeenRunning(answers, "arm_trajectory_controller"))
    && f.gripper
    && (f.omni <==> SeenRunning(answers, "omni_base_controller"))
    && (f.head <==> SeenRunning(answers, "head_trajectory_controller"))
  }

  /** Ready after `answers`: the arm, base and head controllers have each been reported running. */
  predicate ReadyAfter(answers: seq<seq<ControllerStatus>>)
  {
    && SeenRunning(answers, "arm_trajectory_controller")
    && SeenRunning(answers, "omni_base_controller")
    && SeenRunning(answers, "head_trajectory_controller")
  }

  /** Folding one more controller entry into the flags. */
  lemma AbsorbStep(f: Flags, answers: seq<seq<ControllerStatus>>, cur: seq<ControllerStatus>, j: nat)
    requires j < |cur|
    requires FlagsAfter(f, answers + [cur[..j]])
    ensures FlagsAfter(Absorb(f, cur[j]), answers + [cur[..j + 1]])
  {
    var before := answers + [cur[..j]];
    var after := answers + [cur[..j + 1]];
    forall name | SeenRunning(after, name)
      ensures SeenRunning(before, name) || cur[j] == ControllerStatus(name, "running")
    {
      var i, k :| 0 <= i < |after| && 0 <= k < |after[i]| && after[i][k] == ControllerStatus(name, "running");
      if i < |answers| {
        assert before[i][k] == after[i][k];
      } else if k < j {
        assert before[i][k] == after[i][k];
      }
    }
    forall name | SeenRunning(before, name)
      ensures SeenRunning(after, name)
    {
      var i, k :| 0 <= i < |before| && 0 <= k < |before[i]| && before[i][k] == ControllerStatus(name, "running");
      assert after[i][k] == before[i][k];
    }
    assert after[|answers|][j] == cur[j];
  }

  /**
   * The readiness loop: `running` is recomputed from the flags after every
   * controller entry, so an empty answer leaves it false. The result is the
   * index of the answer after which the loop stops.
   */
  method WaitForControllers(answers: seq<seq<ControllerStatus>>) returns (r: Option<nat>)
    ensures r.Some? ==> r.value < |answers| && ReadyAfter(answers[..r.value + 1])
    ensures r.Some? ==> forall k :: 0 <= k <= r.value ==> !ReadyAfter(answers[..k])
    ensures r.None? ==> forall k :: 0 <= k <= |answers| ==> !ReadyAfter(answers[..k])
  {
    var running := false;
    var flags := InitialFlags;
    var n := 0;
    while !running
      invariant 0 <= n <= |answers|
      invariant FlagsAfter(flags, answers[..n])
      invariant running <==> AllSet(flags)
      invariant running ==> n > 0 && ReadyAfter(answers[..n])
      invariant forall k :: 0 <= k <= n - (if running then 1 else 0) ==> !ReadyAfter(answers[..k])
      decreases |answers| - n
    {
      if n == |answers| {
        return None;
      }
      var cur := answers[n];
      assert answers[..n] + [cur[..0]] == answers[..n] + [[]];
      EmptyAnswer(answers[..n]);
      var j := 0;
      while j < |cur|
        invariant 0 <= j <= |cur|
        invariant FlagsAfter(flags, answers[..n] + [cur[..j]])
        invariant j > 0 ==> (running <==> AllSet(flags))
        invariant j == 0 ==> !running
      {
        AbsorbStep(flags, answers[..n], cur, j);
        flags := Absorb(flags, cur[j]);
        running := AllSet(flags);
        j := j + 1;
      }
      assert cur[..|cur|] == cur;
      assert answers[..n] + [cur] == answers[..n + 1];
      if |cur| == 0 {
        EmptyAnswerKeepsFlags(answers[..n]);
      }
      n := n + 1;
    }
    r := Some(n - 1);
  }

  /** An empty answer adds nothing to what has been seen running. */
  lemma EmptyAnswer(answers: seq<seq<ControllerStatus>>)
    ensures forall name :: SeenRunning(answers + [[]], name) <==> SeenRunning(answers, name)
  {
    forall name | SeenRunning(answers + [[]], name)
      ensures SeenRunning(answers, name)
    {
      var i, k :| 0 <= i < |answers + [[]]| && 0 <= k < |(answers + [[]])[i]| && (answers + [[]])[i][k] == ControllerStatus(name, "running");
      assert answers[i][k] == ControllerStatus(name, "running");
    }
    forall name | SeenRunning(answers, name)
      ensures SeenRunning(answers + [[]], name)
    {
      var i, k :| 0 <= i < |answers| && 0 <= k < |answers[i]| && answers[i][k] == ControllerStatus(name, "running");
      assert (answers + [[]])[i][k] == answers[i][k];
    }
  }

  /** Flags that hold for `answers` still hold once an empty answer is appended. */
  lemma EmptyAnswerKeepsFlags(answers: seq<seq<ControllerStatus>>)
    ensures forall f :: FlagsAfter(f, answers + [[]]) <==> FlagsAfter(f, answers)
  {
    EmptyAnswer(answers);
  }

  /**
   * `while self.arm_pub.get_num_connections() == 0`: the index of the first
   * poll that reports a subscriber.
   */
  method WaitForSubscriber(connections: seq<nat>) returns (r: Option<nat>)
    ensures r.Some? ==> r.value < |connections| && connections[r.value] > 0
    ensures r.Some? ==> forall k :: 0 <= k < r.value ==> connections[k] == 0
    ensures r.None? <==> forall k :: 0 <= k < |connections| ==> connections[k] == 0
  {
    var n := 0;
    while n < |connections| && connections[n] == 0
      invariant 0 <= n <= |connections|
      invariant forall k :: 0 <= k < n ==> connections[k] == 0
    {
      n := n + 1;
    }
    r := if n < |connections| then Some(n) else None;
  }

  /** The gripper controller never has to be reported: readiness holds without it. */
  lemma GripperNotAwaited()
    ensures
      var answer := [ControllerStatus("arm_trajectory_controller", "running"),
                     ControllerStatus("omni_base_controller", "running"),
                     ControllerStatus("head_trajectory_controller", "running")];
      ReadyAfter([answer])
  {
    var answer := [ControllerStatus("arm_trajectory_controller", "running"),
                   ControllerStatus("omni_base_controller", "running"),
                   ControllerStatus("head_trajectory_controller", "running")];
    assert [answer][0][0] == ControllerStatus("arm_trajectory_controller", "running");
    assert [answer][0][1] == ControllerStatus("omni_base_controller", "running");
    assert [answer][0][2] == ControllerStatus("head_trajectory_controller", "running");
  }
}
