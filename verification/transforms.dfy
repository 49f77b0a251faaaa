/**
 * `lookup_transform` and `align_hand_with_object`. The transform listener is
 * foreign I/O: every query it answers is one element of a poll stream, read
 * in order. A stream that ends before a successful answer stands for a query
 * that never succeeds.
 */
module Transforms {
  import opened Options

  /** The gap, in metres, left between the open gripper and the object along x. */
  const OpenGripperOffset: real := 0.07

  /** A translation (x, y, z), the `trans` list a lookup returns. */
  datatype Vec3 = Vec3(x: real, y: real, z: real)

  /** The three recoverable lookup failures the source catches. */
  datatype LookupError = LookupFailed | ConnectivityFailed | ExtrapolationFailed

  /** One answer of the transform listener. */
  datatype Poll = Found(pose: Vec3) | Failed(error: LookupError)

  /** A successful lookup and the polls left after it. */
  datatype Lookup = Lookup(pose: Vec3, rest: seq<Poll>)

  /** `n` failures of the given kind. */
  function Failures(n: nat, e: LookupError): (s: seq<Poll>)
    ensures |s| == n
    ensures forall i :: 0 <= i < n ==> s[i] == Failed(e)
  {
    if n == 0 then [] else [Failed(e)] + Failures(n - 1, e)
  }

  /**
   * `lookup_transform`: retry on every recoverable failure and return the
   * first successful answer. The `continue` in the exception handler skips the
   * elapsed-time check, so the timeout answer (0, 0, 0) is never produced.
   */
  function LookupTransform(polls: seq<Poll>): (r: Option<Lookup>)
    ensures r.None? <==> forall i :: 0 <= i < |polls| ==> polls[i].Failed?
    ensures r.Some? ==> |r.value.rest| < |polls|
    decreases |polls|
  {
    if |polls| == 0 then None
    else match polls[0]
      case Found(p) => Some(Lookup(p, polls[1..]))
      case Failed(_) => LookupTransform(polls[1..])
  }

  /**
   * A lookup returns the first successful answer, after failures only, and
   * leaves exactly the answers after it.
   */
  lemma {:induction false} LookupReturnsFirstSuccess(polls: seq<Poll>)
    ensures var r := LookupTransform(polls);
      r.Some? ==>
        var k := |polls| - |r.value.rest| - 1;
        && 0 <= k < |polls|
        && polls[k] == Found(r.value.pose)
        && r.value.rest == polls[k + 1..]
        && forall i :: 0 <= i < k ==> polls[i].Failed?
    decreases |polls|
  {
    if |polls| > 0 && polls[0].Failed? {
      LookupReturnsFirstSuccess(polls[1..]);
      var r := LookupTransform(polls[1..]);
      if r.Some? {
        var k := |polls[1..]| - |r.value.rest| - 1;
        assert forall i :: 0 < i <= k + 1 ==> polls[i] == polls[1..][i - 1];
        assert polls[1..][k + 1..] == polls[k + 2..];
      }
    }
  }

  /** Any run of failures followed by a success yields that success, never a fallback. */
  lemma {:induction false} LookupAfterFailures(fails: seq<Poll>, p: Vec3, rest: seq<Poll>)
    requires forall i :: 0 <= i < |fails| ==> fails[i].Failed?
    ensures LookupTransform(fails + [Found(p)] + rest) == Some(Lookup(p, rest))
    decreases |fails|
  {
    if |fails| > 0 {
      assert (fails + [Found(p)] + rest)[1..] == fails[1..] + [Found(p)] + rest;
      LookupAfterFailures(fails[1..], p, rest);
    } else {
      assert ([Found(p)] + rest)[1..] == rest;
    }
  }

  /** However many failures arrive, the lookup is still waiting: the timeout branch is dead. */
  lemma LookupNeverTimesOut(n: nat, e: LookupError)
    ensures LookupTransform(Failures(n, e)) == None
  {
  }

  /** Three connectivity failures followed by a success return the successful pose. */
  lemma ThreeConnectivityFailuresThenSuccess(p: Vec3)
    ensures LookupTransform(Failures(3, ConnectivityFailed) + [Found(p)]) == Some(Lookup(p, []))
  {
    LookupAfterFailures(Failures(3, ConnectivityFailed), p, []);
    assert Failures(3, ConnectivityFailed) + [Found(p)] + [] == Failures(3, ConnectivityFailed) + [Found(p)];
  }

  /**
   * `align_hand_with_object`: the base target that puts the hand, offset by
   * `hand` from the base, at the object, short by the gripper gap along x.
   */
  function AlignHandWithObject(hand: Vec3, targetX: real, targetY: real): (r: (real, real))
    ensures r.0 + hand.x == targetX - OpenGripperOffset
    ensures r.1 + hand.y == targetY
  {
    (targetX - hand.x - OpenGripperOffset, targetY - hand.y)
  }
}
