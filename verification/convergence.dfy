/**
 * The base-convergence loops of `grab_obj_mode1`: after a base command, the
 * true base pose is re-read until the tracked coordinate is within the error
 * bound of its target. The source's loops are unbounded; here each re-read
 * consumes a lookup from the poll stream, and an exhausted stream means the
 * loop is still spinning.
 */
module Convergence {
  import opened Options
  import opened Transforms

  /** The tolerance, in metres, of both axis loops. */
  const ErrorBound: real := 0.05

  /** Which coordinate of a looked-up translation a loop reads back. */
  datatype Axis = AxisX | AxisY

  function Component(p: Vec3, a: Axis): real
  {
    match a
    case AxisX => p.x
    case AxisY => p.y
  }

  /** The loop's exit test: not below target - bound and not above target + bound. */
  predicate WithinBound(v: real, target: real)
  {
    !(v < target - ErrorBound || v > target + ErrorBound)
  }

  /** The value the loop exited with and the polls left after it. */
  datatype Converged = Converged(value: real, rest: seq<Poll>)

  /** A successful answer whose tracked coordinate lets the loop exit. */
  predicate ExitsOn(p: Poll, target: real, track: Axis)
  {
    p.Found? && WithinBound(Component(p.pose, track), target)
  }

  /**
   * The loop as a function: `curr` is the value read before the loop, each
   * iteration replaces it by the `track` coordinate of a fresh lookup.
   */
  function Converge(curr: real, target: real, track: Axis, polls: seq<Poll>): (r: Option<Converged>)
    ensures r.Some? ==> WithinBound(r.value.value, target)
    ensures r.Some? ==> |r.value.rest| <= |polls|
    ensures WithinBound(curr, target) ==> r == Some(Converged(curr, polls))
    decreases |polls|
  {
    if WithinBound(curr, target) then Some(Converged(curr, polls))
    else match LookupTransform(polls)
      case None => None
      case Some(l) =>
        Converge(Component(l.pose, track), target, track, l.rest)
  }

  /** From a value out of bound, the loop consumes the stream one answer at a time. */
  lemma ConvergeStep(curr: real, target: real, track: Axis, polls: seq<Poll>)
    requires !WithinBound(curr, target) && |polls| > 0
    ensures polls[0].Found? ==>
      Converge(curr, target, track, polls) == Converge(Component(polls[0].pose, track), target, track, polls[1..])
    ensures polls[0].Failed? ==>
      Converge(curr, target, track, polls) == Converge(curr, target, track, polls[1..])
  {
  }

  /**
   * From a value out of bound, the loop is still waiting when the stream runs
   * out exactly when no answer in it brings the tracked coordinate within bound.
   */
  lemma {:induction false} ConvergeWaitsIffNoExit(curr: real, target: real, track: Axis, polls: seq<Poll>)
    requires !WithinBound(curr, target)
    ensures Converge(curr, target, track, polls).None? <==>
      forall i :: 0 <= i < |polls| ==> !ExitsOn(polls[i], target, track)
    decreases |polls|
  {
    if |polls| > 0 {
      ConvergeStep(curr, target, track, polls);
      var next := if polls[0].Found? then Component(polls[0].pose, track) else curr;
      if !WithinBound(next, target) {
        ConvergeWaitsIffNoExit(next, target, track, polls[1..]);
        assert forall i :: 0 < i < |polls| ==> polls[i] == polls[1..][i - 1];
      }
    } else {
      assert LookupTransform(polls) == None;
    }
  }

  /**
   * The loop's exit `c` is read from the first answer in `polls` that lets it
   * exit, and leaves the answers after that one unread.
   */
  predicate ExitsAt(polls: seq<Poll>, c: Converged, target: real, track: Axis)
  {
    var k := |polls| - |c.rest| - 1;
    && 0 <= k < |polls|
    && polls[k].Found?
    && c.value == Component(polls[k].pose, track)
    && c.rest == polls[k + 1..]
    && forall i :: 0 <= i < k ==> !ExitsOn(polls[i], target, track)
  }

  /** An answer that does not let the loop exit moves the exit one place on. */
  lemma {:induction false} ExitAfterSkipped(polls: seq<Poll>, c: Converged, target: real, track: Axis)
    requires |polls| > 0 && !ExitsOn(polls[0], target, track)
    requires ExitsAt(polls[1..], c, target, track)
    ensures ExitsAt(polls, c, target, track)
  {
    var k := |polls[1..]| - |c.rest| - 1;
    assert forall i :: 0 < i <= k + 1 ==> polls[i] == polls[1..][i - 1];
    assert polls[1..][k + 1..] == polls[k + 2..];
  }

  /**
   * From a value out of bound, a loop that exits does so on the first answer
   * that brings the tracked coordinate within bound, with the value read from
   * it, leaving the answers after it unread.
   */
  lemma {:induction false} ConvergeExitsOnFirstInBound(curr: real, target: real, track: Axis, polls: seq<Poll>)
    requires !WithinBound(curr, target)
    ensures
      var r := Converge(curr, target, track, polls);
      r.Some? ==> ExitsAt(polls, r.value, target, track)
    decreases |polls|
  {
    if |polls| > 0 {
      ConvergeStep(curr, target, track, polls);
      var next := if polls[0].Found? then Component(polls[0].pose, track) else curr;
      var r := Converge(next, target, track, polls[1..]);
      if !WithinBound(next, target) {
        ConvergeExitsOnFirstInBound(next, target, track, polls[1..]);
        if r.Some? {
          ExitAfterSkipped(polls, r.value, target, track);
        }
      } else {
        assert r == Some(Converged(next, polls[1..]));
      }
    } else {
      assert LookupTransform(polls) == None;
    }
  }

  /** The `while` loop itself, which exits exactly as `Converge` says. */
  method ConvergeAxis(curr0: real, target: real, track: Axis, polls: seq<Poll>) returns (r: Option<Converged>)
    ensures r == Converge(curr0, target, track, polls)
    ensures r.Some? ==> WithinBound(r.value.value, target)
    ensures WithinBound(curr0, target) ==> r == Some(Converged(curr0, polls))
  {
    var curr := curr0;
    var rest := polls;
    while curr < target - ErrorBound || curr > target + ErrorBound
      invariant Converge(curr, target, track, rest) == Converge(curr0, target, track, polls)
      decreases |rest|
    {
      var l := LookupTransform(rest);
      if l.None? {
        return None;
      }
      curr := Component(l.value.pose, track);
      rest := l.value.rest;
    }
    return Some(Converged(curr, rest));
  }

  /** Every pose in `polls` that the loop may read has the same value on the tracked axis. */
  predicate AllFoundOn(polls: seq<Poll>, track: Axis, v: real)
  {
    forall i :: 0 <= i < |polls| ==> polls[i].Found? ==> Component(polls[i].pose, track) == v
  }

  /**
   * A loop that reads back a coordinate staying out of bound never exits,
   * however many polls arrive.
   */
  lemma {:induction false} NeverConverges(curr: real, target: real, track: Axis, v: real, polls: seq<Poll>)
    requires !WithinBound(curr, target) && !WithinBound(v, target)
    requires AllFoundOn(polls, track, v)
    ensures Converge(curr, target, track, polls) == None
    decreases |polls|
  {
    var l := LookupTransform(polls);
    LookupReturnsFirstSuccess(polls);
    if l.Some? {
      var k := |polls| - |l.value.rest| - 1;
      assert polls[k] == Found(l.value.pose);
      assert forall i :: 0 <= i < |l.value.rest| ==> l.value.rest[i] == polls[k + 1 + i];
      NeverConverges(Component(l.value.pose, track), target, track, v, l.value.rest);
    }
  }

  /**
   * The Y-axis loop reads back `trans[0]`, the x coordinate: with the base
   * standing at x = 2 and the y coordinate already at its target 0.5, the
   * loop keeps polling for ever.
   */
  lemma YLoopReadsX(n: nat)
    ensures
      var atTarget := Found(Vec3(2.0, 0.5, 0.0));
      Converge(0.0, 0.5, AxisX, seq(n, i => atTarget)) == None
  {
    var atTarget := Found(Vec3(2.0, 0.5, 0.0));
    NeverConverges(0.0, 0.5, AxisX, 2.0, seq(n, i => atTarget));
  }
}
