/** `PathPlanner`: the in-memory pose program. Poses are recorded from the
    robot, deleted by index, saved and loaded under a `.json` file name,
    listed from the programs directory, and executed one after another.
    File contents and directory listings are inputs; writing files and the
    MeshCat spheres are not modelled. */
module PathPlanner {
  import opened Wrappers
  import opened PyOps
  import opened Text
  import opened Sorting
  import opened Servo
  import P = ArctosPinocchio
  import C = ArctosController

  /** A JSON document as `json.load` returns it. */
  datatype Json =
    | JNull
    | JBool(b: bool)
    | JNum(x: real)
    | JStr(s: string)
    | JArray(items: seq<Json>)
    | JObject(fields: map<string, Json>)

  /** The recorded poses and the program file they belong to. */
  datatype Store = Store(filename: string, poses: seq<Json>)

  const Extension: string := ".json"
  const DefaultProgram: string := "default_program.json"

  /** A numeric list as JSON. */
  function NumberArray(xs: seq<real>): (j: Json)
    ensures j.JArray? && |j.items| == |xs|
    ensures forall i :: 0 <= i < |xs| ==> j.items[i] == JNum(xs[i])
  {
    JArray(seq(|xs|, i requires 0 <= i < |xs| => JNum(xs[i])))
  }

  // ---------------------------------------------------------------------------
  // file names

  /** The name with `.json` appended unless it already ends with it. */
  function NormaliseName(name: string): (r: string)
    ensures EndsWith(r, Extension)
    ensures EndsWith(name, Extension) ==> r == name
    ensures !EndsWith(name, Extension) ==> r == name + Extension
  {
    if EndsWith(name, Extension) then name
    else
      assert (name + Extension)[|name|..] == Extension;
      name + Extension
  }

  /** Normalising twice is normalising once. */
  lemma NormaliseIdempotent(name: string)
    ensures NormaliseName(NormaliseName(name)) == NormaliseName(name)
  {
  }

  /** The file name a save or load uses: a non-empty program name, normalised,
      replaces the current one; `None` or `""` keeps it. */
  function SelectFile(current: string, programName: Option<string>): (f: string)
    ensures programName.Some? && |programName.value| > 0 ==> f == NormaliseName(programName.value)
    ensures programName.None? || |programName.value| == 0 ==> f == current
  {
    if programName.Some? && |programName.value| > 0 then NormaliseName(programName.value) else current
  }

  // ---------------------------------------------------------------------------
  // save / load

  /** `save_program(program_name)`: the file name is switched first; then the
      poses are written, which succeeds or fails as the file system decides.
      The poses never change. */
  function SaveProgram(st: Store, programName: Option<string>, written: bool): (r: (Store, bool))
    ensures r.0 == Store(SelectFile(st.filename, programName), st.poses)
    ensures r.1 == written
  {
    (Store(SelectFile(st.filename, programName), st.poses), written)
  }

  /** What the program file held when it was opened. */
  datatype ProgramFile = Missing | Corrupt | Parsed(data: Json)

  /** The data has the shape of a program: a list of JSON objects. */
  predicate IsProgram(data: Json) {
    data.JArray? && forall i :: 0 <= i < |data.items| ==> data.items[i].JObject?
  }

  /** `load_program(program_name)`: after switching the file name, a list of
      objects replaces the poses and the load succeeds; any other content, a
      missing file or corrupt JSON empties the poses and the load fails. */
  function LoadProgram(st: Store, programName: Option<string>, file: ProgramFile): (r: (Store, bool))
    ensures r.0.filename == SelectFile(st.filename, programName)
    ensures r.1 <==> file.Parsed? && IsProgram(file.data)
    ensures r.1 ==> r.0.poses == file.data.items
    ensures !r.1 ==> r.0.poses == []
  {
    var name := SelectFile(st.filename, programName);
    match file
    case Parsed(data) =>
      if IsProgram(data) then (Store(name, data.items), true) else (Store(name, []), false)
    case _ => (Store(name, []), false)
  }

  /** `PathPlanner(filename)`: the given or default file name, and whatever
      loading that file yields. */
  function Init(filename: Option<string>, file: ProgramFile): (st: Store)
    ensures st.filename == filename.GetOr(DefaultProgram)
    ensures file.Parsed? && IsProgram(file.data) ==> st.poses == file.data.items
    ensures !(file.Parsed? && IsProgram(file.data)) ==> st.poses == []
  {
    LoadProgram(Store(filename.GetOr(DefaultProgram), []), None, file).0
  }

  /** Saving and then loading what was written restores the poses. */
  lemma SaveLoadRoundTrip(st: Store, name: string)
    requires forall i :: 0 <= i < |st.poses| ==> st.poses[i].JObject?
    ensures var saved := SaveProgram(st, Some(name), true).0;
            LoadProgram(saved, Some(name), Parsed(JArray(saved.poses))) == (saved, true)
  {
    var saved := SaveProgram(st, Some(name), true).0;
    if |name| > 0 {
      NormaliseIdempotent(name);
    }
  }

  // ---------------------------------------------------------------------------
  // listing

  /** The entries ending in `.json`, in their original order. */
  function ProgramFiles(entries: seq<string>): (r: seq<string>)
    ensures forall x :: multiset(r)[x] == if EndsWith(x, Extension) then multiset(entries)[x] else 0
  {
    if |entries| == 0 then []
    else
      assert entries == [entries[0]] + entries[1..];
      var rest := ProgramFiles(entries[1..]);
      if EndsWith(entries[0], Extension) then [entries[0]] + rest else rest
  }

  /** `get_available_programs()`: the `.json` entries of the directory in
      Python string order, or nothing when listing the directory fails. */
  function GetAvailablePrograms(listing: Option<seq<string>>): (r: seq<string>)
    ensures listing.None? ==> r == []
    ensures SortedBy(r, StrLe)
    ensures listing.Some? ==> forall x :: multiset(r)[x] == if EndsWith(x, Extension) then multiset(listing.value)[x] else 0
  {
    StrLeIsTotalPreorder();
    if listing.None? then [] else Sort(ProgramFiles(listing.value), StrLe)
  }

  // ---------------------------------------------------------------------------
  // editing

  /** `capture_pose(robot)`: one pose with the robot's current first six
      joints and end-effector position is appended. */
  function CapturePose(st: Store, robot: P.RobotState): (r: Store)
    ensures r.filename == st.filename
    ensures |r.poses| == |st.poses| + 1 && r.poses[..|st.poses|] == st.poses
    ensures r.poses[|st.poses|] == JObject(map["joints" := NumberArray(P.GetCurrentJointAngles(robot)),
                                               "cartesian" := NumberArray(robot.eePosition)])
  {
    var pose := JObject(map["joints" := NumberArray(P.GetCurrentJointAngles(robot)),
                            "cartesian" := NumberArray(robot.eePosition)]);
    st.(poses := st.poses + [pose])
  }

  /** `delete_pose(index)`: the pose at a valid index is removed and the
      others keep their order; any other index changes nothing. */
  function DeletePose(st: Store, index: int): (r: Store)
    ensures r.filename == st.filename
    ensures !(0 <= index < |st.poses|) ==> r == st
    ensures 0 <= index < |st.poses| ==>
              && |r.poses| == |st.poses| - 1
              && (forall i :: 0 <= i < index ==> r.poses[i] == st.poses[i])
              && (forall i :: index <= i < |r.poses| ==> r.poses[i] == st.poses[i + 1])
  {
    if 0 <= index < |st.poses| then st.(poses := st.poses[..index] + st.poses[index + 1..]) else st
  }

  /** Capturing a pose and deleting it again restores the program. */
  lemma CaptureThenDelete(st: Store, robot: P.RobotState)
    ensures DeletePose(CapturePose(st, robot), |st.poses|) == st
  {
    var c := CapturePose(st, robot);
    assert c.poses[..|st.poses|] + c.poses[|st.poses| + 1..] == st.poses;
  }

  // ---------------------------------------------------------------------------
  // execution

  /** A JSON number (or boolean, which numpy turns into 0 or 1) as a real. */
  function NumberOf(j: Json): Option<real> {
    match j
    case JNum(x) => Some(x)
    case JBool(b) => Some(if b then 1.0 else 0.0)
    case _ => None
  }

  /** `np.array(pose["joints"])` when that is a flat list of numbers; `None`
      when the key is missing or the value is anything else (the step then
      raises and the pose is skipped). */
  function JointsOf(pose: Json): (r: Option<seq<real>>)
    ensures r.Some? ==>
              && pose.JObject? && "joints" in pose.fields && pose.fields["joints"].JArray?
              && |r.value| == |pose.fields["joints"].items|
    ensures r.Some? ==> forall i :: 0 <= i < |r.value| ==> NumberOf(pose.fields["joints"].items[i]) == Some(r.value[i])
    ensures (&& pose.JObject? && "joints" in pose.fields && pose.fields["joints"].JArray?
             && forall i :: 0 <= i < |pose.fields["joints"].items| ==> NumberOf(pose.fields["joints"].items[i]).Some?)
            ==> r.Some?
  {
    if pose.JObject? && "joints" in pose.fields && pose.fields["joints"].JArray? then
      var items := pose.fields["joints"].items;
      if forall i :: 0 <= i < |items| ==> NumberOf(items[i]).Some? then
        Some(seq(|items|, i requires 0 <= i < |items| => NumberOf(items[i]).value))
      else None
    else None
  }

  /** Joint vectors shorter than the model are padded with zeros. */
  function PadTo(q: seq<real>, nq: nat): (r: seq<real>)
    ensures |q| < nq ==> |r| == nq
    ensures |q| >= nq ==> r == q
    ensures forall i :: 0 <= i < |q| ==> r[i] == q[i]
    ensures forall i :: |q| <= i < |r| ==> r[i] == 0.0
  {
    if |q| < nq then q + Zeros(nq - |q|) else q
  }

  /** The configuration pose `i` is executed with, if it is executed at all:
      its joints, zero-padded, when they pass the limit check. */
  function ExecutedConfig(pose: Json, nq: nat, lim: P.Limits): (r: Option<seq<real>>)
    requires P.ValidLimits(lim) && nq >= P.CheckedJoints
    ensures r.Some? <==> JointsOf(pose).Some? && P.CheckJointLimits(PadTo(JointsOf(pose).value, nq), lim)
    ensures r.Some? ==> r.value == PadTo(JointsOf(pose).value, nq)
  {
    match JointsOf(pose)
    case None => None
    case Some(q) => if P.CheckJointLimits(PadTo(q, nq), lim) then Some(PadTo(q, nq)) else None
  }

  /** The servo parameters `execute_path` hands to `move_to_angles`. */
  datatype Drive = Drive(speedScale: real, coupled: bool, ratios: seq<real>, servos: nat)

  /** The calls one `move_to_angles` outcome puts on the bus: the commanded
      axes followed by the wait, or nothing when the call raised (the
      exception skips the wait as well). */
  function MoveCalls(r: Result<seq<Option<Call>>, PyError>): (calls: seq<Call>)
    ensures r.Failure? ==> calls == []
    ensures r.Success? ==> |calls| > 0 && calls[|calls| - 1] == WaitForMotorsToStop
  {
    if r.Failure? then [] else Commanded(r.value) + [WaitForMotorsToStop]
  }

  /** The commands present in a per-axis slot list, in axis order. */
  function Commanded(slots: seq<Option<Call>>): (calls: seq<Call>)
    ensures forall c :: c in calls <==> Some(c) in slots
  {
    if |slots| == 0 then []
    else
      var rest := Commanded(slots[1..]);
      assert slots == [slots[0]] + slots[1..];
      if slots[0].Some? then [slots[0].value] + rest else rest
  }

  /** The move `execute_path` performs for a configuration it accepted: the
      first six joints at the default speed 500 and acceleration 150, with
      `move_to_angles` as written or, when `broadcast` holds, as intended. */
  function MoveFor(q: seq<real>, d: Drive, broadcast: bool): Result<seq<Option<Call>>, PyError> {
    var q6 := Prefix(q, 6);
    if broadcast then C.MoveToAnglesBroadcast(q6, C.Scalar(500.0), C.Scalar(150.0), d.speedScale, d.coupled, d.ratios, d.servos)
    else C.MoveToAngles(q6, C.Scalar(500.0), C.Scalar(150.0), d.speedScale, d.coupled, d.ratios, d.servos)
  }

  /** The configuration each pose of a program would be executed with. */
  function Accepted(poses: seq<Json>, nq: nat, lim: P.Limits): (acc: seq<Option<seq<real>>>)
    requires P.ValidLimits(lim) && nq >= P.CheckedJoints
    ensures |acc| == |poses|
    ensures forall k :: 0 <= k < |poses| ==> acc[k] == ExecutedConfig(poses[k], nq, lim)
    ensures forall k :: 0 <= k < |poses| && acc[k].Some? ==> |acc[k].value| >= nq
  {
    seq(|poses|, k requires 0 <= k < |poses| => ExecutedConfig(poses[k], nq, lim))
  }

  /** Which poses a run executes and the robot state it leaves. */
  datatype Visit = Visit(robot: P.RobotState, executed: seq<nat>)

  /** Poses `i..` in order: a pose whose configuration was rejected is
      skipped; an accepted one becomes the robot's configuration. */
  function VisitFrom(acc: seq<Option<seq<real>>>, i: nat, robot: P.RobotState): (v: Visit)
    requires i <= |acc|
    ensures forall j :: 0 <= j < |v.executed| ==> i <= v.executed[j] < |acc| && acc[v.executed[j]].Some?
    ensures forall a, b :: 0 <= a < b < |v.executed| ==> v.executed[a] < v.executed[b]
    ensures |v.executed| == 0 ==> v.robot == robot
    ensures v.robot.eePosition == robot.eePosition && v.robot.eeOrientation == robot.eeOrientation
    decreases |acc| - i
  {
    if i == |acc| then Visit(robot, [])
    else
      match acc[i]
      case None => VisitFrom(acc, i + 1, robot)
      case Some(q) =>
        var rest := VisitFrom(acc, i + 1, P.SetJointAnglesAnimated(robot, q));
        Visit(rest.robot, [i] + rest.executed)
  }

  /** A run executes exactly the poses from `i` on that were accepted. */
  lemma {:induction false} VisitExecutesAcceptedPoses(acc: seq<Option<seq<real>>>, i: nat, robot: P.RobotState)
    requires i <= |acc|
    ensures forall k :: k in VisitFrom(acc, i, robot).executed <==> i <= k < |acc| && acc[k].Some?
    decreases |acc| - i
  {
    if i < |acc| {
      match acc[i]
      case None =>
        VisitExecutesAcceptedPoses(acc, i + 1, robot);
      case Some(q) =>
        VisitExecutesAcceptedPoses(acc, i + 1, P.SetJointAnglesAnimated(robot, q));
    }
  }

  /** After a run the robot holds the configuration of the last pose executed. */
  lemma {:induction false} VisitEndsAtLastExecutedPose(acc: seq<Option<seq<real>>>, i: nat, robot: P.RobotState)
    requires i <= |acc|
    ensures var v := VisitFrom(acc, i, robot);
            |v.executed| > 0 ==> v.robot.q == acc[v.executed[|v.executed| - 1]].value
    decreases |acc| - i
  {
    if i < |acc| {
      match acc[i]
      case None =>
        VisitEndsAtLastExecutedPose(acc, i + 1, robot);
      case Some(q) =>
        var moved := P.SetJointAnglesAnimated(robot, q);
        var rest := VisitFrom(acc, i + 1, moved);
        VisitEndsAtLastExecutedPose(acc, i + 1, moved);
        var ks := [i] + rest.executed;
        if |rest.executed| == 0 {
          assert ks[|ks| - 1] == i;
        } else {
          assert ks[|ks| - 1] == rest.executed[|rest.executed| - 1];
        }
    }
  }

  /** Every index of `ks` names an accepted pose. */
  predicate AllAccepted(acc: seq<Option<seq<real>>>, ks: seq<nat>) {
    forall j :: 0 <= j < |ks| ==> ks[j] < |acc| && acc[ks[j]].Some?
  }

  /** The calls sent for the executed poses `ks`, in order. */
  function CallsFor(acc: seq<Option<seq<real>>>, ks: seq<nat>, d: Drive, broadcast: bool): seq<Call>
    requires AllAccepted(acc, ks)
  {
    if |ks| == 0 then []
    else MoveCalls(MoveFor(acc[ks[0]].value, d, broadcast)) + CallsFor(acc, ks[1..], d, broadcast)
  }

  /** The outcome of running a program: the robot state afterwards, the
      indices of the poses executed, and the calls sent. */
  datatype Run = Run(robot: P.RobotState, executed: seq<nat>, calls: seq<Call>)

  /** A whole program run with `move_to_angles` as written or broadcasting. */
  function RunProgram(poses: seq<Json>, robot: P.RobotState, nq: nat, lim: P.Limits, d: Drive, broadcast: bool): (r: Run)
    requires P.ValidLimits(lim) && nq >= P.CheckedJoints
    ensures forall k :: k in r.executed <==> 0 <= k < |poses| && ExecutedConfig(poses[k], nq, lim).Some?
    ensures forall a, b :: 0 <= a < b < |r.executed| ==> r.executed[a] < r.executed[b]
    ensures |r.executed| == 0 ==> r.robot == robot
    ensures |r.executed| > 0 ==>
              && r.executed[|r.executed| - 1] < |poses|
              && r.robot.q == ExecutedConfig(poses[r.executed[|r.executed| - 1]], nq, lim).value
    ensures r.robot.eePosition == robot.eePosition && r.robot.eeOrientation == robot.eeOrientation
    ensures |poses| == 0 ==> r == Run(robot, [], [])
  {
    var acc := Accepted(poses, nq, lim);
    VisitExecutesAcceptedPoses(acc, 0, robot);
    VisitEndsAtLastExecutedPose(acc, 0, robot);
    var v := VisitFrom(acc, 0, robot);
    Run(v.robot, v.executed, CallsFor(acc, v.executed, d, broadcast))
  }

  /** `execute_path(robot, Arctos)` as written: nothing happens for an empty
      program; otherwise every pose is tried in order, each accepted one is
      shown on the robot model and handed to `move_to_angles`, and the robot
      model ends at the last pose accepted. */
  function ExecutePath(st: Store, robot: P.RobotState, nq: nat, lim: P.Limits, d: Drive): (r: Run)
    requires P.ValidLimits(lim) && nq >= P.CheckedJoints
    ensures r.robot == RunProgram(st.poses, robot, nq, lim, d, false).robot
    ensures r.executed == RunProgram(st.poses, robot, nq, lim, d, false).executed
    ensures r.calls == []
  {
    var acc := Accepted(st.poses, nq, lim);
    ExecutePathSendsNothing(acc, VisitFrom(acc, 0, robot).executed, d);
    RunProgram(st.poses, robot, nq, lim, d, false)
  }

  /** `execute_path` with `move_to_angles` broadcasting its default speed and
      acceleration, as its callers assume: every executed pose is followed
      by one wait for the motors. */
  function ExecutePathBroadcast(st: Store, robot: P.RobotState, nq: nat, lim: P.Limits, d: Drive): (r: Run)
    requires P.ValidLimits(lim) && nq >= P.CheckedJoints
    ensures r.robot == RunProgram(st.poses, robot, nq, lim, d, false).robot
    ensures r.executed == RunProgram(st.poses, robot, nq, lim, d, false).executed
    ensures multiset(r.calls)[WaitForMotorsToStop] == |r.executed|
  {
    var acc := Accepted(st.poses, nq, lim);
    BroadcastPathWaitsPerPose(acc, VisitFrom(acc, 0, robot).executed, d);
    RunProgram(st.poses, robot, nq, lim, d, true)
  }

  /** As written, the path only ever moves the simulated robot: every
      `move_to_angles` call raises on the scalar defaults, so no servo call
      is made, not even the wait. */
  lemma {:induction false} ExecutePathSendsNothing(acc: seq<Option<seq<real>>>, ks: seq<nat>, d: Drive)
    requires AllAccepted(acc, ks)
    ensures CallsFor(acc, ks, d, false) == []
  {
    if |ks| > 0 {
      ExecutePathSendsNothing(acc, ks[1..], d);
    }
  }

  /** With broadcasting, every executed pose contributes exactly one wait. */
  lemma {:induction false} BroadcastPathWaitsPerPose(acc: seq<Option<seq<real>>>, ks: seq<nat>, d: Drive)
    requires AllAccepted(acc, ks)
    requires forall k :: 0 <= k < |acc| && acc[k].Some? ==> |acc[k].value| >= P.CheckedJoints
    ensures multiset(CallsFor(acc, ks, d, true))[WaitForMotorsToStop] == |ks|
  {
    if |ks| > 0 {
      BroadcastPathWaitsPerPose(acc, ks[1..], d);
      var m := MoveFor(acc[ks[0]].value, d, true);
      assert |Prefix(acc[ks[0]].value, 6)| == 6;
      assert m.Success?;
      assert WaitForMotorsToStop !in Commanded(m.value);
      var rest := CallsFor(acc, ks[1..], d, true);
      assert multiset(MoveCalls(m) + rest)[WaitForMotorsToStop] == 1 + multiset(rest)[WaitForMotorsToStop];
    }
  }
}
