/**
 * `get_object` and the dispatch half of `object_pos_callback`: the selected
 * object is scanned for by name in the latest snapshot, and kept between
 * snapshots.
 */
module Detection {
  import opened Options

  /** The name the callback looks for. */
  const TargetName: string := "bottle"

  /** One detection: its name and its position in the map frame. */
  datatype DetectedObject = DetectedObject(name: string, x: real, y: real, z: real)

  /** A freshly constructed message: empty name, zero position. */
  const NoObject: DetectedObject := DetectedObject("", 0.0, 0.0, 0.0)

  /** An `Objects` message: the count it declares and the detections it carries. */
  datatype Snapshot = Snapshot(length: int, objects: seq<DetectedObject>)

  /** The index of the last detection called `name`, if any. */
  function LastMatchIndex(objs: seq<DetectedObject>, name: string): (r: Option<nat>)
    ensures r.None? <==> forall i :: 0 <= i < |objs| ==> objs[i].name != name
    ensures r.Some? ==> r.value < |objs| && objs[r.value].name == name
    ensures r.Some? ==> forall j :: r.value < j < |objs| ==> objs[j].name != name
    decreases |objs|
  {
    if |objs| == 0 then None
    else if objs[|objs| - 1].name == name then Some(|objs| - 1)
    else LastMatchIndex(objs[..|objs| - 1], name)
  }

  /** The selection after scanning `objs`: the last match, or the previous selection when none matches. */
  function Select(objs: seq<DetectedObject>, name: string, current: DetectedObject): (p: DetectedObject)
    ensures (forall i :: 0 <= i < |objs| ==> objs[i].name != name) ==> p == current
    ensures (exists i :: 0 <= i < |objs| && objs[i].name == name) ==>
      exists i :: 0 <= i < |objs| && p == objs[i] && p.name == name
        && forall j :: i < j < |objs| ==> objs[j].name != name
  {
    match LastMatchIndex(objs, name)
    case None => current
    case Some(i) => objs[i]
  }

  /** How many entries `range(0, length)` visits before indexing past the end, if it does. */
  function Scanned(s: Snapshot): nat
  {
    if s.length <= 0 then 0 else if s.length <= |s.objects| then s.length else |s.objects|
  }

  /**
   * `get_object`: scan indices 0 .. length - 1, overwriting the selection on
   * every match. `ok` is false when the declared length runs past the
   * detections, where the source raises IndexError after the updates made so far.
   */
  method GetObject(s: Snapshot, name: string, current: DetectedObject) returns (picked: DetectedObject, ok: bool)
    ensures ok <==> s.length <= |s.objects|
    ensures picked == Select(s.objects[..Scanned(s)], name, current)
    ensures picked == current || picked.name == name
    ensures (forall i :: 0 <= i < Scanned(s) ==> s.objects[i].name != name) ==> picked == current
  {
    picked := current;
    var xa := 0;
    while xa < s.length
      invariant 0 <= xa <= Scanned(s)
      invariant picked == Select(s.objects[..xa], name, current)
      invariant picked == current || picked.name == name
    {
      if xa >= |s.objects| {
        return picked, false;
      }
      if s.objects[xa].name == name {
        picked := s.objects[xa];
      }
      assert s.objects[..xa + 1][..xa] == s.objects[..xa];
      xa := xa + 1;
    }
    ok := true;
  }

  /** The callback's decision: the selection it keeps and the grasp it starts, if any. */
  datatype Dispatch = Dispatch(picked: DetectedObject, grasp: Option<DetectedObject>)

  /**
   * `object_pos_callback` up to the grasp: select, then grasp at the
   * selection's position if the selection is named `bottle`. An IndexError
   * ends the callback with the partial selection kept and no grasp.
   */
  function HandleSnapshot(picked: DetectedObject, s: Snapshot): (d: Dispatch)
    // A grasp starts exactly when the scan reaches its end and a bottle is selected,
    // whether found in this snapshot or kept from an earlier one.
    ensures d.grasp.Some? <==>
      && s.length <= |s.objects|
      && (picked.name == TargetName || exists i :: 0 <= i < Scanned(s) && s.objects[i].name == TargetName)
    // Without a bottle among the scanned entries the selection is unchanged.
    ensures (forall i :: 0 <= i < Scanned(s) ==> s.objects[i].name != TargetName) ==> d.picked == picked
    // Otherwise it is the last scanned bottle.
    ensures (exists i :: 0 <= i < Scanned(s) && s.objects[i].name == TargetName) ==>
      exists i :: 0 <= i < Scanned(s) && d.picked == s.objects[i] && d.picked.name == TargetName
        && forall j :: i < j < Scanned(s) ==> s.objects[j].name != TargetName
    ensures d.grasp.Some? ==> d.grasp.value == d.picked
  {
    var p := Select(s.objects[..Scanned(s)], TargetName, picked);
    if s.length <= |s.objects| && p.name == TargetName then Dispatch(p, Some(p)) else Dispatch(p, None)
  }

  /** With several matches the LAST one is selected. */
  lemma SelectKeepsLastMatch(a: DetectedObject, b: DetectedObject, others: seq<DetectedObject>, current: DetectedObject)
    requires a.name == TargetName && b.name == TargetName
    requires forall i :: 0 <= i < |others| ==> others[i].name != TargetName
    ensures Select([a] + others + [b], TargetName, current) == b
    ensures Select([a, b] + others, TargetName, current) == b
  {
    var s := [a, b] + others;
    assert s[1] == b;
    var r := LastMatchIndex(s, TargetName);
    assert r.Some? && r.value >= 1;
  }

  /**
   * Once a bottle has been selected, a later well-formed snapshot with no
   * bottle still starts a grasp, at the old bottle's position.
   */
  lemma StaleBottleRegrasped(picked: DetectedObject, s: Snapshot)
    requires picked.name == TargetName
    requires 0 <= s.length == |s.objects|
    requires forall i :: 0 <= i < |s.objects| ==> s.objects[i].name != TargetName
    ensures HandleSnapshot(picked, s).grasp == Some(picked)
  {
  }

  /** A snapshot holding a single bottle starts exactly one grasp, at the bottle's position. */
  lemma SingleBottleGrasped(picked: DetectedObject)
    ensures
      var bottle := DetectedObject("bottle", 1.0, 0.5, 0.3);
      HandleSnapshot(picked, Snapshot(1, [bottle])).grasp == Some(bottle)
  {
  }

  /** Before any bottle has been seen, a snapshot without one starts no grasp. */
  lemma NoBottleNoGrasp(s: Snapshot)
    requires 0 <= s.length == |s.objects|
    requires forall i :: 0 <= i < |s.objects| ==> s.objects[i].name != TargetName
    ensures HandleSnapshot(NoObject, s).grasp == None
  {
  }
}
