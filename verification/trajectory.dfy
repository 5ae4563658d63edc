/** `TrajectoryPlanner`: smooth joint-space moves. A move is validated
    against the joint limits, per-joint speed and acceleration commands are
    derived from how far each joint travels, an eased trajectory between the
    two configurations is generated, and its waypoints are sent one after
    another, aborting at the first waypoint outside the limits. The cosine
    easing and `x ** 0.8` are function parameters with the properties the
    proofs rely on; threads and sleeps are not modelled. */
module TrajectoryPlanner {
  import opened Wrappers
  import opened PyOps
  import opened Servo
  import P = ArctosPinocchio
  import C = ArctosController

  const MaxJointSpeed: int := 3000
  const MaxJointAcceleration: int := 255
  const MinTrajSteps: int := 10
  const MaxTrajSteps: int := 75

  /** Boosts `move_linear_joints_smooth` applies to speeds and accelerations. */
  const SpeedBoost: real := 1.5
  const AccelBoost: real := 1.3

  /** Joint motion below this is not commanded. */
  const CommandThreshold: real := 0.0001

  /** `_validate_joint_angles`: the two configurations have the same length
      and the target is within the joint limits. */
  function ValidateJointAngles(current: seq<real>, target: seq<real>, lim: P.Limits): (ok: bool)
    requires P.ValidLimits(lim) && |current| >= P.CheckedJoints
    ensures ok <==> |target| == |current| && P.CheckJointLimits(target, lim)
  {
    if |target| != |current| then false
    else P.CheckJointLimits(target, lim)
  }

  // ---------------------------------------------------------------------------
  // speed factors, speeds, accelerations

  /** The largest element of a non-empty sequence. */
  function MaxOf(s: seq<real>): (m: real)
    requires |s| > 0
    ensures forall i :: 0 <= i < |s| ==> s[i] <= m
    ensures exists i :: 0 <= i < |s| && s[i] == m
  {
    if |s| == 1 then s[0]
    else
      var rest := MaxOf(s[1..]);
      assert forall i :: 1 <= i < |s| ==> s[i] == s[1..][i - 1];
      if s[0] >= rest then s[0] else rest
  }

  /** A stand-in for `x ** 0.8` on `[0, 1]`: it stays in `[0, 1]`. */
  ghost predicate UnitPower(pow: real -> real) {
    forall x :: 0.0 <= x <= 1.0 ==> 0.0 <= pow(x) <= 1.0
  }

  /** `_calculate_speed_factors`: each joint's travel relative to the largest
      travel (or to 1 when every joint is practically still), raised to the
      power 0.8 and floored at 0.5. */
  function SpeedFactors(deltas: seq<real>, pow: real -> real): (f: seq<real>)
    requires |deltas| > 0
    requires forall i :: 0 <= i < |deltas| ==> deltas[i] >= 0.0
    requires UnitPower(pow)
    ensures |f| == |deltas|
    ensures forall i :: 0 <= i < |f| ==> 0.5 <= f[i] <= 1.0
  {
    var m := MaxOf(deltas);
    var maxDelta := if m > 0.000001 then m else 1.0;
    seq(|deltas|, i requires 0 <= i < |deltas| => SpeedFactor(deltas[i], maxDelta, pow))
  }

  /** `max(pow(d / maxDelta), 0.5)` for a travel no larger than `maxDelta`. */
  function SpeedFactor(d: real, maxDelta: real, pow: real -> real): (f: real)
    requires 0.0 <= d <= maxDelta && maxDelta > 0.0
    requires UnitPower(pow)
    ensures 0.5 <= f <= 1.0
    ensures d == maxDelta && pow(1.0) == 1.0 ==> f == 1.0
  {
    var x := d / maxDelta;
    DivUnit(d, maxDelta);
    var p := pow(x);
    if p >= 0.5 then p else 0.5
  }

  /** The joint with the largest travel gets factor 1 when something moves. */
  lemma FastestJointAtFullSpeed(deltas: seq<real>, pow: real -> real, i: nat)
    requires |deltas| > 0 && i < |deltas|
    requires forall k :: 0 <= k < |deltas| ==> deltas[k] >= 0.0
    requires UnitPower(pow) && pow(1.0) == 1.0
    requires deltas[i] == MaxOf(deltas) && deltas[i] > 0.000001
    ensures SpeedFactors(deltas, pow)[i] == 1.0
  {
    var m := MaxOf(deltas);
    assert SpeedFactors(deltas, pow)[i] == SpeedFactor(deltas[i], m, pow);
  }

  /** A speed or acceleration argument: a number, a list of numbers, or
      something else (which falls back to the default). */
  datatype BaseArg = Number(x: real) | Numbers(xs: seq<real>) | Other

  /** `min(cap, int(x))`. */
  function Capped(x: real, cap: int): (r: int)
    ensures r <= cap
    ensures r == cap || r == Trunc(x)
    ensures Trunc(x) <= cap ==> r == Trunc(x)
    ensures 0.0 <= x && 0 <= cap ==> 0 <= r
  {
    if Trunc(x) < cap then Trunc(x) else cap
  }

  /** The base value joint `i` is scaled from: the number, the joint's list
      entry when the list has one entry per joint, otherwise the default. */
  function BaseFor(arg: BaseArg, n: nat, i: nat, default: real): real
    requires i < n
  {
    match arg
    case Number(x) => x
    case Numbers(xs) => if |xs| == n then xs[i] else default
    case Other => default
  }

  /** `_calculate_speeds`: `min(3000, int(base * 1.5 * factor))` per joint,
      whichever form the base speed takes; a malformed base uses 500. */
  function CalculateSpeeds(factors: seq<real>, base: BaseArg): (speeds: seq<int>)
    ensures |speeds| == |factors|
    ensures forall i :: 0 <= i < |speeds| ==> speeds[i] <= MaxJointSpeed
    ensures forall i :: 0 <= i < |speeds| ==>
              speeds[i] == Capped(BaseFor(base, |factors|, i, 500.0) * SpeedBoost * factors[i], MaxJointSpeed)
  {
    seq(|factors|, i requires 0 <= i < |factors| => JointSpeed(factors, base, i))
  }

  function JointSpeed(factors: seq<real>, base: BaseArg, i: nat): (s: int)
    requires i < |factors|
    ensures s == Capped(BaseFor(base, |factors|, i, 500.0) * SpeedBoost * factors[i], MaxJointSpeed)
  {
    Capped(BaseFor(base, |factors|, i, 500.0) * SpeedBoost * factors[i], MaxJointSpeed)
  }

  function JointAccel(factors: seq<real>, base: BaseArg, i: nat): (a: int)
    requires i < |factors|
    ensures base.Number? ==>
              a == Capped(Capped(base.x * AccelBoost, MaxJointAcceleration) as real * factors[i], MaxJointAcceleration)
    ensures !base.Number? ==>
              a == Capped(BaseFor(base, |factors|, i, 150.0) * AccelBoost * factors[i], MaxJointAcceleration)
  {
    if base.Number? then
      Capped(Capped(base.x * AccelBoost, MaxJointAcceleration) as real * factors[i], MaxJointAcceleration)
    else
      Capped(BaseFor(base, |factors|, i, 150.0) * AccelBoost * factors[i], MaxJointAcceleration)
  }

  /** `_calculate_accelerations`: `min(255, int(base * 1.3 * factor))` per
      joint, except that a single number is first boosted and capped on its
      own, `min(255, int(base * 1.3))`; a malformed base uses 150. */
  function CalculateAccelerations(factors: seq<real>, base: BaseArg): (accs: seq<int>)
    ensures |accs| == |factors|
    ensures forall i :: 0 <= i < |accs| ==> accs[i] <= MaxJointAcceleration
    ensures base.Number? ==> forall i :: 0 <= i < |accs| ==>
              accs[i] == Capped(Capped(base.x * AccelBoost, MaxJointAcceleration) as real * factors[i], MaxJointAcceleration)
    ensures !base.Number? ==> forall i :: 0 <= i < |accs| ==>
              accs[i] == Capped(BaseFor(base, |factors|, i, 150.0) * AccelBoost * factors[i], MaxJointAcceleration)
  {
    seq(|factors|, i requires 0 <= i < |factors| => JointAccel(factors, base, i))
  }

  /** With non-negative bases and factors in `[0.5, 1]`, every speed and
      acceleration is a valid servo argument. */
  lemma CommandsInServoRange(factors: seq<real>, speed: BaseArg, accel: BaseArg)
    requires forall i :: 0 <= i < |factors| ==> 0.5 <= factors[i] <= 1.0
    requires speed.Number? ==> speed.x >= 0.0
    requires speed.Numbers? ==> forall i :: 0 <= i < |speed.xs| ==> speed.xs[i] >= 0.0
    requires accel.Number? ==> accel.x >= 0.0
    requires accel.Numbers? ==> forall i :: 0 <= i < |accel.xs| ==> accel.xs[i] >= 0.0
    ensures forall i :: 0 <= i < |factors| ==> 0 <= CalculateSpeeds(factors, speed)[i] <= MaxJointSpeed
    ensures forall i :: 0 <= i < |factors| ==> 0 <= CalculateAccelerations(factors, accel)[i] <= MaxJointAcceleration
  {
    var n := |factors|;
    forall i | 0 <= i < n ensures 0 <= CalculateSpeeds(factors, speed)[i] {
      var b := BaseFor(speed, n, i, 500.0);
      assert b >= 0.0;
      assert b * SpeedBoost * factors[i] >= 0.0;
    }
    forall i | 0 <= i < n ensures 0 <= CalculateAccelerations(factors, accel)[i] {
      if accel.Number? {
        var s := Capped(accel.x * AccelBoost, MaxJointAcceleration);
        assert s >= 0;
        assert s as real * factors[i] >= 0.0;
      } else {
        var b := BaseFor(accel, n, i, 150.0);
        assert b >= 0.0;
        assert b * AccelBoost * factors[i] >= 0.0;
      }
    }
  }

  // ---------------------------------------------------------------------------
  // trajectory generation

  /** The largest per-joint distance between two configurations. */
  function MaxJointDelta(start: seq<real>, target: seq<real>): (m: real)
    requires |start| == |target| > 0
    ensures forall j :: 0 <= j < |start| ==> Abs(target[j] - start[j]) <= m
    ensures exists j :: 0 <= j < |start| && Abs(target[j] - start[j]) == m
    ensures m >= 0.0
  {
    var d := seq(|start|, j requires 0 <= j < |start| => Abs(target[j] - start[j]));
    assert forall j :: 0 <= j < |start| ==> d[j] == Abs(target[j] - start[j]);
    MaxOf(d)
  }

  /** A stand-in for the cosine easing `0.5 - 0.5 * cos(pi * x)`: it fixes 0
      and 1 and maps `[0, 1]` into itself. */
  ghost predicate Easing(ease: real -> real) {
    && ease(0.0) == 0.0
    && ease(1.0) == 1.0
    && forall x :: 0.0 <= x <= 1.0 ==> 0.0 <= ease(x) <= 1.0
  }

  /** The number of waypoints of a move whose largest joint travel is `m`:
      one per degree, at least 10 and at most 75. */
  function StepCount(m: real): (n: int)
    ensures MinTrajSteps <= n <= MaxTrajSteps
    ensures n == ClampInt(Ceil(m / Radians(1.0)), MinTrajSteps, MaxTrajSteps)
  {
    ClampInt(Ceil(m / Radians(1.0)), MinTrajSteps, MaxTrajSteps)
  }

  /** Waypoint `i` of `n`: `start * (1 - t) + target * t` with `t` the eased
      `i / (n - 1)`; the first is exactly `start` and the last exactly `target`. */
  function Waypoint(start: seq<real>, target: seq<real>, i: nat, n: nat, ease: real -> real): (w: seq<real>)
    requires |start| == |target| && n >= 2
    requires Easing(ease)
    ensures |w| == |start|
    ensures i == 0 ==> w == start
    ensures i == n - 1 ==> w == target
  {
    var x := i as real / (n - 1) as real;
    assert i == 0 ==> x == 0.0;
    assert i == n - 1 ==> x == 1.0;
    var t := ease(x);
    seq(|start|, j requires 0 <= j < |start| => start[j] * (1.0 - t) + target[j] * t)
  }

  /** Waypoints up to the last lie componentwise between start and target. */
  lemma WaypointBetween(start: seq<real>, target: seq<real>, i: nat, n: nat, ease: real -> real)
    requires |start| == |target| && n >= 2 && i < n
    requires Easing(ease)
    ensures forall j :: 0 <= j < |start| ==>
              P.Min(start[j], target[j]) <= Waypoint(start, target, i, n, ease)[j] <= P.Max(start[j], target[j])
  {
    var x := i as real / (n - 1) as real;
    DivUnit(i as real, (n - 1) as real);
    var t := ease(x);
    var w := Waypoint(start, target, i, n, ease);
    forall j | 0 <= j < |start| ensures P.Min(start[j], target[j]) <= w[j] <= P.Max(start[j], target[j]) {
      assert w[j] == (1.0 - t) * start[j] + t * target[j];
      P.ConvexBetween(start[j], target[j], t);
    }
  }

  /** `_generate_smooth_trajectory`: `[start, target]` for a move below 1e-6
      rad, otherwise `StepCount` eased waypoints from exactly `start` to
      exactly `target`. */
  function GenerateSmoothTrajectory(start: seq<real>, target: seq<real>, ease: real -> real): (traj: seq<seq<real>>)
    requires |start| == |target| > 0
    requires Easing(ease)
    ensures MaxJointDelta(start, target) < 0.000001 ==> traj == [start, target]
    ensures MaxJointDelta(start, target) >= 0.000001 ==>
              |traj| == StepCount(MaxJointDelta(start, target))
              && forall k :: 0 <= k < |traj| ==> traj[k] == Waypoint(start, target, k, |traj|, ease)
    ensures |traj| >= 2 && traj[0] == start && traj[|traj| - 1] == target
    ensures forall k :: 0 <= k < |traj| ==> |traj[k]| == |start|
  {
    var m := MaxJointDelta(start, target);
    if m < 0.000001 then [start, target]
    else
      var n := StepCount(m);
      var traj := seq(n, i requires 0 <= i < n => Waypoint(start, target, i, n, ease));
      assert forall k :: 0 <= k < n ==> traj[k] == Waypoint(start, target, k, n, ease);
      traj
  }

  /** Every waypoint lies componentwise between start and target. */
  lemma TrajectoryStaysBetween(start: seq<real>, target: seq<real>, ease: real -> real)
    requires |start| == |target| > 0
    requires Easing(ease)
    ensures var traj := GenerateSmoothTrajectory(start, target, ease);
            forall k, j :: 0 <= k < |traj| && 0 <= j < |start| ==>
              P.Min(start[j], target[j]) <= traj[k][j] <= P.Max(start[j], target[j])
  {
    var traj := GenerateSmoothTrajectory(start, target, ease);
    forall k | 0 <= k < |traj|
      ensures forall j :: 0 <= j < |start| ==> P.Min(start[j], target[j]) <= traj[k][j] <= P.Max(start[j], target[j])
    {
      if MaxJointDelta(start, target) >= 0.000001 {
        WaypointBetween(start, target, k, |traj|, ease);
      } else {
        forall j | 0 <= j < |start| ensures P.Min(start[j], target[j]) <= traj[k][j] <= P.Max(start[j], target[j]) {
          P.ConvexBetween(start[j], target[j], if k == 0 then 0.0 else 1.0);
        }
      }
    }
  }

  // ---------------------------------------------------------------------------
  // execution

  /** The encoder targets of a waypoint: its first six angles converted with
      the controller's ratios. */
  function EncoderValues(config: seq<real>, ratios: seq<real>): (enc: seq<int>)
    requires |ratios| >= |Prefix(config, 6)|
    ensures |enc| == |Prefix(config, 6)|
    ensures forall j :: 0 <= j < |enc| ==> enc[j] == C.AngleToEncoder(config[j], ratios[j])
  {
    var angles := Prefix(config, 6);
    seq(|angles|, j requires 0 <= j < |angles| => C.AngleToEncoder(angles[j], ratios[j]))
  }

  function Min3(a: nat, b: nat, c: nat): nat {
    if a <= b && a <= c then a else if b <= c then b else c
  }

  /** Joint `j` of a waypoint is commanded: it has a servo and travels more
      than 1e-4 rad over the whole move. */
  predicate Commanded(j: int, deltas: seq<real>, servos: nat)
    requires 0 <= j < |deltas|
  {
    j < servos && deltas[j] > CommandThreshold
  }

  /** `_move_joints_concurrently` from joint `j` on: one absolute move for
      every commanded joint among the first `min(len(enc), len(speeds),
      len(accs))`, in joint order. */
  function MoveJointsFrom(enc: seq<int>, speeds: seq<int>, accs: seq<int>, deltas: seq<real>, servos: nat, j: nat): (calls: seq<Call>)
    requires |deltas| >= Min3(|enc|, |speeds|, |accs|) && j <= Min3(|enc|, |speeds|, |accs|)
    ensures forall c :: c in calls ==>
              && c.RunAbsolute? && j <= c.axis < Min3(|enc|, |speeds|, |accs|)
              && Commanded(c.axis, deltas, servos)
              && c == RunAbsolute(c.axis, speeds[c.axis] as real, accs[c.axis] as real, enc[c.axis] as real)
    ensures forall k :: j <= k < Min3(|enc|, |speeds|, |accs|) && Commanded(k, deltas, servos) ==>
              RunAbsolute(k, speeds[k] as real, accs[k] as real, enc[k] as real) in calls
    ensures forall a, b :: 0 <= a < b < |calls| ==> calls[a].axis < calls[b].axis
    decreases Min3(|enc|, |speeds|, |accs|) - j
  {
    if j == Min3(|enc|, |speeds|, |accs|) then []
    else
      var rest := MoveJointsFrom(enc, speeds, accs, deltas, servos, j + 1);
      if Commanded(j, deltas, servos) then
        [RunAbsolute(j, speeds[j] as real, accs[j] as real, enc[j] as real)] + rest
      else rest
  }

  /** The commands sent for one waypoint. */
  function WaypointCommands(config: seq<real>, speeds: seq<int>, accs: seq<int>, deltas: seq<real>,
                            ratios: seq<real>, servos: nat): (calls: seq<Call>)
    requires |ratios| >= 6 && |deltas| >= 6
  {
    var enc := EncoderValues(config, ratios);
    MoveJointsFrom(enc, speeds, accs, deltas, servos, 0)
  }

  /** A waypoint's commands only move joints with a servo whose travel exceeds the threshold. */
  lemma OnlyMovingJointsCommanded(config: seq<real>, speeds: seq<int>, accs: seq<int>, deltas: seq<real>,
                                  ratios: seq<real>, servos: nat)
    requires |ratios| >= 6 && |deltas| >= 6
    ensures forall c :: c in WaypointCommands(config, speeds, accs, deltas, ratios, servos) ==>
              c.RunAbsolute? && 0 <= c.axis < 6 && c.axis < servos && deltas[c.axis] > CommandThreshold
  {
  }

  /** The commands of the first `n` waypoints, in order. */
  function SentThrough(configs: seq<seq<real>>, n: nat, speeds: seq<int>, accs: seq<int>, deltas: seq<real>,
                       ratios: seq<real>, servos: nat): (calls: seq<Call>)
    requires n <= |configs| && |ratios| >= 6 && |deltas| >= 6
  {
    if n == 0 then []
    else SentThrough(configs, n - 1, speeds, accs, deltas, ratios, servos)
         + WaypointCommands(configs[n - 1], speeds, accs, deltas, ratios, servos)
  }

  /** The first waypoint from `i` on that fails the limit check, if any. */
  function FirstInvalid(configs: seq<seq<real>>, i: nat, lim: P.Limits): (k: Option<nat>)
    requires P.ValidLimits(lim) && P.Checkable(configs) && i <= |configs|
    ensures k.None? <==> forall m :: i <= m < |configs| ==> P.CheckJointLimits(configs[m], lim)
    ensures k.Some? ==>
              && i <= k.value < |configs| && !P.CheckJointLimits(configs[k.value], lim)
              && forall m :: i <= m < k.value ==> P.CheckJointLimits(configs[m], lim)
    decreases |configs| - i
  {
    if i == |configs| then None
    else if !P.CheckJointLimits(configs[i], lim) then Some(i)
    else FirstInvalid(configs, i + 1, lim)
  }

  /** `_execute_joint_movement`: the waypoints in order, each checked against
      the limits and then sent. The first failing waypoint ends the
      execution with `false` and nothing from it or later waypoints is sent;
      if every waypoint passes the result is `true`. */
  method ExecuteJointMovement(configs: seq<seq<real>>, speeds: seq<int>, accs: seq<int>, deltas: seq<real>,
                              ratios: seq<real>, servos: nat, lim: P.Limits) returns (ok: bool, sent: seq<Call>)
    requires P.ValidLimits(lim) && P.Checkable(configs) && |ratios| >= 6 && |deltas| >= 6
    ensures ok <==> FirstInvalid(configs, 0, lim).None?
    ensures ok ==> sent == SentThrough(configs, |configs|, speeds, accs, deltas, ratios, servos)
    ensures !ok ==> sent == SentThrough(configs, FirstInvalid(configs, 0, lim).value, speeds, accs, deltas, ratios, servos)
  {
    sent := [];
    var i := 0;
    while i < |configs|
      invariant 0 <= i <= |configs|
      invariant FirstInvalid(configs, i, lim) == FirstInvalid(configs, 0, lim)
      invariant sent == SentThrough(configs, i, speeds, accs, deltas, ratios, servos)
    {
      if !P.CheckJointLimits(configs[i], lim) {
        return false, sent;
      }
      SentThroughStep(configs, i, speeds, accs, deltas, ratios, servos);
      sent := sent + WaypointCommands(configs[i], speeds, accs, deltas, ratios, servos);
      i := i + 1;
    }
    return true, sent;
  }

  lemma SentThroughStep(configs: seq<seq<real>>, i: nat, speeds: seq<int>, accs: seq<int>, deltas: seq<real>,
                        ratios: seq<real>, servos: nat)
    requires i < |configs| && |ratios| >= 6 && |deltas| >= 6
    ensures SentThrough(configs, i + 1, speeds, accs, deltas, ratios, servos)
            == SentThrough(configs, i, speeds, accs, deltas, ratios, servos) + WaypointCommands(configs[i], speeds, accs, deltas, ratios, servos)
  {
  }

  /** `np.abs(target - current)`: each joint's travel. */
  function JointTravel(current: seq<real>, target: seq<real>): (deltas: seq<real>)
    requires |current| == |target|
    ensures |deltas| == |current|
    ensures forall j :: 0 <= j < |deltas| ==> deltas[j] >= 0.0 && (deltas[j] == target[j] - current[j] || deltas[j] == current[j] - target[j])
  {
    seq(|current|, j requires 0 <= j < |current| => Abs(target[j] - current[j]))
  }

  /** How many waypoints `_execute_joint_movement` sends: all of them, or
      those before the first one the limit check refuses. */
  function SentCount(configs: seq<seq<real>>, lim: P.Limits): (n: nat)
    requires P.ValidLimits(lim) && P.Checkable(configs)
    ensures n <= |configs|
    ensures forall m :: 0 <= m < n ==> P.CheckJointLimits(configs[m], lim)
    ensures n < |configs| ==> !P.CheckJointLimits(configs[n], lim)
  {
    match FirstInvalid(configs, 0, lim)
    case None => |configs|
    case Some(k) => k
  }

  /** `move_linear_joints_smooth`: validate the target against the first six
      encoder joints, derive speeds and accelerations from each joint's
      travel, generate the trajectory, execute it, and always finish with a
      wait for the motors. A rejected target sends nothing. */
  method MoveLinearJointsSmooth(qEncoder: seq<real>, target: seq<real>, speed: BaseArg, accel: BaseArg,
                                ratios: seq<real>, servos: nat, lim: P.Limits,
                                ease: real -> real, pow: real -> real) returns (ok: bool, calls: seq<Call>)
    requires P.ValidLimits(lim) && |qEncoder| >= 6 && |ratios| >= 6
    requires Easing(ease) && UnitPower(pow)
    ensures !ValidateJointAngles(qEncoder[..6], target, lim) ==> !ok && calls == []
    ensures ValidateJointAngles(qEncoder[..6], target, lim) ==> |calls| > 0 && calls[|calls| - 1] == WaitForMotorsToStop
    ensures ok ==> ValidateJointAngles(qEncoder[..6], target, lim)
    ensures ok ==> forall k :: 0 <= k < |GenerateSmoothTrajectory(qEncoder[..6], target, ease)| ==>
              P.CheckJointLimits(GenerateSmoothTrajectory(qEncoder[..6], target, ease)[k], lim)
    ensures ok <==> ValidateJointAngles(qEncoder[..6], target, lim)
                    && FirstInvalid(GenerateSmoothTrajectory(qEncoder[..6], target, ease), 0, lim).None?
    ensures ValidateJointAngles(qEncoder[..6], target, lim) ==>
              var configs := GenerateSmoothTrajectory(qEncoder[..6], target, ease);
              var deltas := JointTravel(qEncoder[..6], target);
              var factors := SpeedFactors(deltas, pow);
              calls == SentThrough(configs, SentCount(configs, lim), CalculateSpeeds(factors, speed),
                                   CalculateAccelerations(factors, accel), deltas, ratios, servos)
                       + [WaitForMotorsToStop]
  {
    var current := qEncoder[..6];
    if !ValidateJointAngles(current, target, lim) {
      return false, [];
    }
    var deltas := JointTravel(current, target);
    var factors := SpeedFactors(deltas, pow);
    var speeds := CalculateSpeeds(factors, speed);
    var accs := CalculateAccelerations(factors, accel);
    var configs := GenerateSmoothTrajectory(current, target, ease);
    var sent;
    ok, sent := ExecuteJointMovement(configs, speeds, accs, deltas, ratios, servos, lim);
    calls := sent + [WaitForMotorsToStop];
  }
}
