/** The command side of the Cartesian speed controller
    (`src/core/speed_controller.py`): construction with clipped limits, the
    target pose, and the per-axis speed commands one control-loop pass
    emits, including the suppression of commands equal to the last one
    sent. The Jacobian pseudo-inverse that yields the joint velocities is
    a parameter, as are the thread, the lock and the loop pacing. */
module SpeedController {
  import opened Wrappers
  import opened PyOps
  import opened Servo
  import opened Sorting

  const MaxAcceleration: int := 255
  const MaxRpm: int := 3000
  const Joints: nat := 6

  /** `list(range(6))`. */
  const AllAxes: seq<int> := [0, 1, 2, 3, 4, 5]

  /** The controller's state: `default_acc`, `rpm_limit`, `active_axes`,
      `_target_pose`, and the last rpm and direction sent to each axis. */
  datatype Controller = Controller(
    defaultAcc: int,
    rpmLimit: int,
    activeAxes: seq<int>,
    target: seq<real>,
    lastRpm: seq<int>,
    lastDir: seq<Direction>)

  predicate Distinct(s: seq<int>) {
    forall a, b :: 0 <= a < b < |s| ==> s[a] != s[b]
  }

  /** Axes usable as indices into the six-entry per-axis records. */
  predicate AxesInRange(axes: seq<int>) {
    forall k :: 0 <= k < |axes| ==> 0 <= axes[k] < Joints
  }

  predicate Valid(c: Controller) {
    && 0 <= c.defaultAcc <= MaxAcceleration
    && 0 <= c.rpmLimit <= MaxRpm
    && SortedBy(c.activeAxes, IntLe)
    && |c.target| == Joints && |c.lastRpm| == Joints && |c.lastDir| == Joints
  }

  /** `int(np.clip(x, 0, hi))`. */
  function ClipToInt(x: real, hi: int): (n: int)
    requires 0 <= hi
    ensures 0 <= n <= hi
    ensures 0.0 <= x <= hi as real ==> n == Trunc(x)
    ensures x < 0.0 ==> n == 0
    ensures hi as real < x ==> n == hi
  {
    TruncOfInt(hi);
    TruncOfInt(0);
    Trunc(ClipReal(x, 0.0, hi as real))
  }

  /** `CartesianSpeedController.__init__`: the acceleration clipped to
      [0, 255], the rpm limit to [0, 3000], the active axes sorted (all six
      when none or an empty list is given), a zero target and every axis
      recorded as stopped counter-clockwise. */
  function New(defaultAcc: real, rpmLimit: real, activeAxes: Option<seq<int>>): (c: Controller)
    ensures Valid(c)
    ensures 0.0 <= defaultAcc <= 255.0 ==> c.defaultAcc == Trunc(defaultAcc)
    ensures 0.0 <= rpmLimit <= 3000.0 ==> c.rpmLimit == Trunc(rpmLimit)
    ensures activeAxes.Some? && |activeAxes.value| > 0 ==> multiset(c.activeAxes) == multiset(activeAxes.value)
    ensures activeAxes.None? || |activeAxes.value| == 0 ==> c.activeAxes == AllAxes
    ensures forall i :: 0 <= i < Joints ==> c.target[i] == 0.0 && c.lastRpm[i] == 0 && c.lastDir[i] == CCW
  {
    IntLeIsTotalPreorder();
    var axes := if activeAxes.Some? && |activeAxes.value| > 0 then Sort(activeAxes.value, IntLe) else AllAxes;
    Controller(ClipToInt(defaultAcc, MaxAcceleration), ClipToInt(rpmLimit, MaxRpm), axes,
               Zeros(Joints), seq(Joints, _ => 0), seq(Joints, _ => CCW))
  }

  /** The constructor's own defaults (acceleration 20, limit 3000, no axes
      given) are kept as they are, with all six axes active. */
  lemma DefaultConstruction()
    ensures var c := New(20.0, 3000.0, None);
            c.defaultAcc == 20 && c.rpmLimit == 3000 && c.activeAxes == AllAxes
  {
    TruncOfInt(20);
    TruncOfInt(3000);
  }

  /** A slice assignment `a[lo:hi] = part` of width `n`: the values when
      the lengths agree, one value broadcast over the slice, and
      `ValueError` for any other length. */
  function Fill(part: seq<real>, n: nat): (r: Option<seq<real>>)
    ensures r.Some? <==> |part| == n || |part| == 1
    ensures r.Some? ==> |r.value| == n
    ensures |part| == n ==> r == Some(part)
    ensures |part| == 1 && r.Some? ==> forall i :: 0 <= i < n ==> r.value[i] == part[0]
  {
    if |part| == n then Some(part)
    else if |part| == 1 then Some(seq(n, _ => part[0]))
    else None
  }

  /** A state change that may have raised part-way. */
  datatype Update = Update(state: Controller, error: Option<PyError>)

  /** `set_target_pose(xyz, rpy)`: slots 0-2 take `xyz` and slots 3-5 take
      `rpy`. The two assignments happen one after the other, so an `rpy` of
      the wrong length raises after `xyz` is already written. */
  function SetTargetPose(c: Controller, xyz: seq<real>, rpy: seq<real>): (u: Update)
    requires Valid(c)
    ensures Valid(u.state)
    ensures u.state.(target := c.target) == c
    ensures u.error.None? <==> (|xyz| == 3 || |xyz| == 1) && (|rpy| == 3 || |rpy| == 1)
    ensures |xyz| == 3 && |rpy| == 3 ==> u.state.target == xyz + rpy
    ensures Fill(xyz, 3).None? ==> u.state == c
    ensures Fill(xyz, 3).Some? ==> u.state.target[..3] == Fill(xyz, 3).value
    ensures Fill(rpy, 3).None? ==> u.state.target[3..] == c.target[3..]
  {
    match Fill(xyz, 3)
    case None => Update(c, Some(ValueError))
    case Some(x) =>
      var half := c.(target := x + c.target[3..]);
      match Fill(rpy, 3)
      case None => Update(half, Some(ValueError))
      case Some(y) => Update(c.(target := x + y), None)
  }

  /** A speed-mode command: magnitude and direction. */
  datatype Cmd = Cmd(rpm: int, dir: Direction)

  /** The motor-side rpm for a joint velocity `dq` (rad/s) through `ratio`. */
  function RawRpm(dq: real, ratio: real): real {
    dq / (2.0 * Pi) * 60.0 * Abs(ratio)
  }

  /** One axis's command: the rpm clipped to the limit, counter-clockwise
      when the clipped value is non-negative, and its magnitude truncated. */
  function Command(dq: real, ratio: real, limit: int): (cmd: Cmd)
    requires 0 <= limit
    ensures 0 <= cmd.rpm <= limit
  {
    var f := ClipReal(RawRpm(dq, ratio), -limit as real, limit as real);
    TruncOfInt(limit);
    Cmd(Trunc(Abs(f)), if f >= 0.0 then CCW else CW)
  }

  /** The command saturates at the limit and otherwise truncates the rpm;
      a non-negative joint velocity turns the motor counter-clockwise and a
      negative one, through a non-zero ratio under a positive limit,
      clockwise. */
  lemma CommandSaturates(dq: real, ratio: real, limit: int)
    requires 0 <= limit
    ensures var cmd := Command(dq, ratio, limit);
            && (Abs(RawRpm(dq, ratio)) <= limit as real ==> cmd.rpm == Trunc(Abs(RawRpm(dq, ratio))))
            && (Abs(RawRpm(dq, ratio)) >= limit as real ==> cmd.rpm == limit)
            && (0.0 <= dq ==> cmd.dir == CCW)
            && (dq < 0.0 && ratio != 0.0 && 0 < limit ==> cmd.dir == CW)
  {
    TruncOfInt(limit);
    var x := dq / (2.0 * Pi) * 60.0;
    assert 0.0 <= dq ==> 0.0 <= x;
    assert dq < 0.0 ==> x < 0.0;
    assert RawRpm(dq, ratio) == x * Abs(ratio);
    if dq < 0.0 && ratio != 0.0 {
      assert x * Abs(ratio) < 0.0;
    }
  }

  /** The commands of one pass, for `zip(active_axes, qdot_act)`. */
  function Commands(axes: seq<int>, qdot: seq<real>, ratios: seq<real>, limit: int): (cmds: seq<Cmd>)
    requires AxesInRange(axes) && |ratios| >= Joints && 0 <= limit
    ensures |cmds| == if |axes| <= |qdot| then |axes| else |qdot|
    ensures forall k :: 0 <= k < |cmds| ==> cmds[k] == Command(qdot[k], ratios[axes[k]], limit)
    ensures forall k :: 0 <= k < |cmds| ==> 0 <= cmds[k].rpm <= limit
  {
    var n := if |axes| <= |qdot| then |axes| else |qdot|;
    seq(n, k requires 0 <= k < n => Command(qdot[k], ratios[axes[k]], limit))
  }

  /** The per-axis records after a pass and the calls it made. */
  datatype Tick = Tick(lastRpm: seq<int>, lastDir: seq<Direction>, calls: seq<Call>)

  /** The sending loop of `_loop`: an axis whose command equals its record
      is skipped; otherwise the command is sent (a driver failure is only
      logged) and recorded. */
  function Emit(axes: seq<int>, cmds: seq<Cmd>, acc: int, rpm: seq<int>, dir: seq<Direction>): (t: Tick)
    requires AxesInRange(axes) && |cmds| <= |axes|
    requires |rpm| == Joints && |dir| == Joints
    ensures |t.lastRpm| == Joints && |t.lastDir| == Joints
    ensures forall j :: 0 <= j < Joints && j !in axes ==> t.lastRpm[j] == rpm[j] && t.lastDir[j] == dir[j]
    ensures forall c :: c in t.calls ==> c.RunSpeed? && c.axis in axes && Cmd(c.rpm, c.dir) in cmds && c.acc == acc as real
    decreases |cmds|
  {
    if |cmds| == 0 then Tick(rpm, dir, [])
    else
      var i := axes[0];
      var cmd := cmds[0];
      if cmd.rpm == rpm[i] && cmd.dir == dir[i] then
        Emit(axes[1..], cmds[1..], acc, rpm, dir)
      else
        var rest := Emit(axes[1..], cmds[1..], acc, rpm[i := cmd.rpm], dir[i := cmd.dir]);
        Tick(rest.lastRpm, rest.lastDir, [RunSpeed(i, cmd.dir, cmd.rpm, acc as real)] + rest.calls)
  }

  /** After a pass over distinct axes, each axis's record holds the command
      computed for it. */
  lemma {:induction false} EmitRecords(axes: seq<int>, cmds: seq<Cmd>, acc: int, rpm: seq<int>, dir: seq<Direction>)
    requires AxesInRange(axes) && Distinct(axes) && |cmds| <= |axes|
    requires |rpm| == Joints && |dir| == Joints
    ensures var t := Emit(axes, cmds, acc, rpm, dir);
            forall k :: 0 <= k < |cmds| ==> t.lastRpm[axes[k]] == cmds[k].rpm && t.lastDir[axes[k]] == cmds[k].dir
    decreases |cmds|
  {
    if |cmds| > 0 {
      var i := axes[0];
      var cmd := cmds[0];
      var same := cmd.rpm == rpm[i] && cmd.dir == dir[i];
      var rpm' := if same then rpm else rpm[i := cmd.rpm];
      var dir' := if same then dir else dir[i := cmd.dir];
      EmitRecords(axes[1..], cmds[1..], acc, rpm', dir');
      var t := Emit(axes, cmds, acc, rpm, dir);
      assert t == Emit(axes[1..], cmds[1..], acc, rpm', dir').(calls := t.calls);
      HeadNotInTail(axes);
      forall k | 1 <= k < |cmds|
        ensures t.lastRpm[axes[k]] == cmds[k].rpm && t.lastDir[axes[k]] == cmds[k].dir
      {
        assert axes[k] == axes[1..][k - 1] && cmds[k] == cmds[1..][k - 1];
      }
    }
  }

  lemma HeadNotInTail(axes: seq<int>)
    requires |axes| > 0 && Distinct(axes)
    ensures axes[0] !in axes[1..] && Distinct(axes[1..])
  {
    forall m | 0 <= m < |axes[1..]| ensures axes[1..][m] != axes[0] {
      assert axes[1..][m] == axes[m + 1];
    }
  }

  /** Over distinct axes, a call goes out for an axis exactly when its
      command differs from the record it had before the pass. */
  lemma {:induction false} EmitSendsChanges(axes: seq<int>, cmds: seq<Cmd>, acc: int, rpm: seq<int>, dir: seq<Direction>, k: int)
    requires AxesInRange(axes) && Distinct(axes) && |cmds| <= |axes|
    requires |rpm| == Joints && |dir| == Joints
    requires 0 <= k < |cmds|
    ensures RunSpeed(axes[k], cmds[k].dir, cmds[k].rpm, acc as real) in Emit(axes, cmds, acc, rpm, dir).calls
            <==> cmds[k] != Cmd(rpm[axes[k]], dir[axes[k]])
    decreases |cmds|
  {
    var i := axes[0];
    var cmd := cmds[0];
    var same := cmd.rpm == rpm[i] && cmd.dir == dir[i];
    var rpm' := if same then rpm else rpm[i := cmd.rpm];
    var dir' := if same then dir else dir[i := cmd.dir];
    var rest := Emit(axes[1..], cmds[1..], acc, rpm', dir');
    var t := Emit(axes, cmds, acc, rpm, dir);
    var head := if same then [] else [RunSpeed(i, cmd.dir, cmd.rpm, acc as real)];
    assert t.calls == head + rest.calls;
    HeadNotInTail(axes);
    if k == 0 {
      assert forall c :: c in rest.calls ==> c.axis != i;
    } else {
      EmitSendsChanges(axes[1..], cmds[1..], acc, rpm', dir', k - 1);
      var a := axes[k];
      assert a == axes[1..][k - 1] && cmds[k] == cmds[1..][k - 1];
      assert a != i;
      NotInHead(t.calls, head, rest.calls, RunSpeed(a, cmds[k].dir, cmds[k].rpm, acc as real));
    }
  }

  /** A call missing from a head of calls is among the calls exactly when
      it is among the rest. */
  lemma NotInHead(calls: seq<Call>, head: seq<Call>, rest: seq<Call>, x: Call)
    requires calls == head + rest && x !in head
    ensures x in calls <==> x in rest
  {
  }

  /** Running the same pass twice sends nothing the second time: every
      command already matches its record. */
  lemma EmitRepeatSendsNothing(axes: seq<int>, cmds: seq<Cmd>, acc: int, rpm: seq<int>, dir: seq<Direction>)
    requires AxesInRange(axes) && Distinct(axes) && |cmds| <= |axes|
    requires |rpm| == Joints && |dir| == Joints
    ensures var t := Emit(axes, cmds, acc, rpm, dir);
            Emit(axes, cmds, acc, t.lastRpm, t.lastDir) == t.(calls := [])
  {
    var t := Emit(axes, cmds, acc, rpm, dir);
    EmitRecords(axes, cmds, acc, rpm, dir);
    MatchingRecordsSendNothing(axes, cmds, acc, t.lastRpm, t.lastDir);
  }

  lemma {:induction false} MatchingRecordsSendNothing(axes: seq<int>, cmds: seq<Cmd>, acc: int, rpm: seq<int>, dir: seq<Direction>)
    requires AxesInRange(axes) && |cmds| <= |axes|
    requires |rpm| == Joints && |dir| == Joints
    requires forall k :: 0 <= k < |cmds| ==> cmds[k] == Cmd(rpm[axes[k]], dir[axes[k]])
    ensures Emit(axes, cmds, acc, rpm, dir) == Tick(rpm, dir, [])
    decreases |cmds|
  {
    if |cmds| > 0 {
      forall k | 0 <= k < |cmds[1..]|
        ensures cmds[1..][k] == Cmd(rpm[axes[1..][k]], dir[axes[1..][k]])
      {
        assert axes[1..][k] == axes[k + 1] && cmds[1..][k] == cmds[k + 1];
      }
      MatchingRecordsSendNothing(axes[1..], cmds[1..], acc, rpm, dir);
    }
  }

  /** One pass of `_loop` after the pose error and Jacobian: `None` stands
      for a singular Jacobian, which skips the pass. */
  function LoopStep(c: Controller, qdotAct: Option<seq<real>>, ratios: seq<real>): (r: (Controller, seq<Call>))
    requires Valid(c) && AxesInRange(c.activeAxes) && |ratios| >= Joints
    ensures Valid(r.0)
    ensures r.0.(lastRpm := c.lastRpm, lastDir := c.lastDir) == c
    ensures qdotAct.None? ==> r == (c, [])
    ensures forall call :: call in r.1 ==>
              call.RunSpeed? && call.axis in c.activeAxes && 0 <= call.rpm <= c.rpmLimit && call.acc == c.defaultAcc as real
  {
    match qdotAct
    case None => (c, [])
    case Some(qdot) =>
      var cmds := Commands(c.activeAxes, qdot, ratios, c.rpmLimit);
      var t := Emit(c.activeAxes, cmds, c.defaultAcc, c.lastRpm, c.lastDir);
      (c.(lastRpm := t.lastRpm, lastDir := t.lastDir), t.calls)
  }

  /** `qdot_full`: six zeros with each active joint's velocity written in,
      a later duplicate axis overwriting an earlier one. */
  function Scatter(full: seq<real>, axes: seq<int>, qdot: seq<real>): (r: seq<real>)
    requires |full| == Joints && AxesInRange(axes) && |qdot| == |axes|
    ensures |r| == Joints
    ensures forall j :: 0 <= j < Joints && j !in axes ==> r[j] == full[j]
    ensures forall k :: 0 <= k < |axes| && (forall m :: k < m < |axes| ==> axes[m] != axes[k]) ==> r[axes[k]] == qdot[k]
    decreases |axes|
  {
    if |axes| == 0 then full
    else
      var r := Scatter(full[axes[0] := qdot[0]], axes[1..], qdot[1..]);
      assert forall k :: 1 <= k < |axes| ==> axes[1..][k - 1] == axes[k] && qdot[1..][k - 1] == qdot[k];
      r
  }

  function QdotFull(axes: seq<int>, qdot: seq<real>): (r: seq<real>)
    requires AxesInRange(axes) && |qdot| == |axes|
    ensures |r| == Joints
    ensures forall j :: 0 <= j < Joints && j !in axes ==> r[j] == 0.0
    ensures Distinct(axes) ==> forall k :: 0 <= k < |axes| ==> r[axes[k]] == qdot[k]
  {
    Scatter(Zeros(Joints), axes, qdot)
  }

  /** The loop of `_send_zero_velocity`: an axis already at rpm 0 is
      skipped; any other gets a zero-speed counter-clockwise command and
      its rpm record is cleared. Directions are left as they were. */
  function ZeroFrom(axes: seq<int>, acc: int, rpm: seq<int>): (t: (seq<int>, seq<Call>))
    requires AxesInRange(axes) && |rpm| == Joints
    ensures |t.0| == Joints
    ensures forall j :: 0 <= j < Joints ==> t.0[j] == if j in axes then 0 else rpm[j]
    ensures forall c :: c in t.1 <==> exists j :: 0 <= j < Joints && j in axes && rpm[j] != 0 && c == RunSpeed(j, CCW, 0, acc as real)
    ensures (forall k :: 0 <= k < |axes| ==> rpm[axes[k]] == 0) ==> t == (rpm, [])
    decreases |axes|
  {
    if |axes| == 0 then (rpm, [])
    else
      var i := axes[0];
      assert forall j :: j in axes <==> j == i || j in axes[1..];
      if rpm[i] == 0 then ZeroFrom(axes[1..], acc, rpm)
      else
        var rest := ZeroFrom(axes[1..], acc, rpm[i := 0]);
        (rest.0, [RunSpeed(i, CCW, 0, acc as real)] + rest.1)
  }

  /** `_send_zero_velocity()` (also what `stop()` ends with). */
  function SendZeroVelocity(c: Controller): (r: (Controller, seq<Call>))
    requires Valid(c) && AxesInRange(c.activeAxes)
    ensures Valid(r.0)
    ensures r.0.(lastRpm := c.lastRpm) == c
    ensures forall j :: 0 <= j < Joints && j in c.activeAxes ==> r.0.lastRpm[j] == 0
    ensures forall j :: 0 <= j < Joints && j !in c.activeAxes ==> r.0.lastRpm[j] == c.lastRpm[j]
    ensures forall call :: call in r.1 <==>
              exists j :: 0 <= j < Joints && j in c.activeAxes && c.lastRpm[j] != 0 && call == RunSpeed(j, CCW, 0, c.defaultAcc as real)
    ensures (forall k :: 0 <= k < |c.activeAxes| ==> c.lastRpm[c.activeAxes[k]] == 0) ==> r == (c, [])
  {
    var t := ZeroFrom(c.activeAxes, c.defaultAcc, c.lastRpm);
    (c.(lastRpm := t.0), t.1)
  }

  /** Stopping twice sends nothing the second time. */
  lemma SendZeroVelocityTwice(c: Controller)
    requires Valid(c) && AxesInRange(c.activeAxes)
    ensures var once := SendZeroVelocity(c).0;
            SendZeroVelocity(once) == (once, [])
  {
  }
}
