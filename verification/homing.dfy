/** The homing and sleep routines (`src/core/homing.py`) as command plans.
    Each axis, from joint 6 down to joint 1, is driven to its home switch,
    then to a fixed raw position, and (when homing) declared the new zero.
    An exception on one axis is logged and the routine carries on with the
    next one. What the servo driver itself raises is a parameter: `faults`
    maps an axis to the number of its calls that go through before the
    driver raises. */
module Homing {
  import opened Wrappers
  import opened PyOps
  import opened Values
  import opened Servo
  import SM = SettingsManager

  /** `MOTOR_IDS`: the 1-based axes; axis `a` is `arctos.servos[a - 1]`. */
  const MotorIds: seq<int> := [1, 2, 3, 4, 5, 6]

  function Reverse<T>(s: seq<T>): (r: seq<T>)
    ensures |r| == |s|
    ensures forall i :: 0 <= i < |s| ==> r[i] == s[|s| - 1 - i]
  {
    if |s| == 0 then [] else Reverse(s[1..]) + [s[0]]
  }

  /** `HOMING_SEQUENCE = list(reversed(MOTOR_IDS))`. */
  const HomingSequence: seq<int> := Reverse(MotorIds)

  /** `ZERO_POSITIONS`, in raw units / 100. */
  const ZeroPositions: map<int, int> := map[1 := -1038, 2 := -3300, 3 := -2410, 4 := 0, 5 := 0, 6 := 0]

  /** `SLEEP_POSITIONS`, in raw units / 100. */
  const SleepPositions: map<int, int> := map[1 := 0, 2 := 0, 3 := 0, 4 := 0, 5 := 0, 6 := 0]

  /** `m.get(k, 0)` on a position table. */
  function Lookup(m: map<int, int>, k: int): int {
    if k in m then m[k] else 0
  }

  /** The settings keys the routines read. The acceleration key is
      `joint_acceleration`, singular, while the joints tab writes
      `joint_accelerations`. */
  const OffsetsKey: string := "homing_offsets"
  const SpeedsKey: string := "joint_speeds"
  const AccelerationsKey: string := "joint_acceleration"

  /** The three per-joint maps, as `settings_manager.get(key, {})` returns them. */
  datatype Config = Config(offsets: Value, speeds: Value, accels: Value)

  function ReadConfig(s: SM.Settings): (c: Config)
    ensures OffsetsKey !in s ==> c.offsets == Dict(map[])
    ensures SpeedsKey !in s ==> c.speeds == Dict(map[])
    ensures AccelerationsKey !in s ==> c.accels == Dict(map[])
    ensures OffsetsKey in s ==> c.offsets == s[OffsetsKey]
    ensures SpeedsKey in s ==> c.speeds == s[SpeedsKey]
    ensures AccelerationsKey in s ==> c.accels == s[AccelerationsKey]
  {
    Config(SM.Get(s, OffsetsKey, Dict(map[])), SM.Get(s, SpeedsKey, Dict(map[])), SM.Get(s, AccelerationsKey, Dict(map[])))
  }

  /** Which routine runs: `move_to_zero_pose` or `move_to_sleep_pose`. */
  datatype Routine = ToZero | ToSleep

  /** The raw target of axis `a`: the zero position plus the user offset
      (`offsets.get(a - 1, 0)`), or the sleep position, times 100. A
      non-dictionary offset map or a non-numeric offset raises. */
  function RawTarget(r: Routine, a: int, offsets: Value): (t: Result<real, PyError>)
    ensures r.ToSleep? ==> t == Success(Lookup(SleepPositions, a) as real * 100.0)
    ensures r.ToZero? && offsets.Dict? && a - 1 !in offsets.entries ==> t == Success(Lookup(ZeroPositions, a) as real * 100.0)
    ensures r.ToZero? && offsets.Dict? && a - 1 in offsets.entries && AsReal(offsets.entries[a - 1]).Some? ==>
              t == Success((Lookup(ZeroPositions, a) as real + AsReal(offsets.entries[a - 1]).value) * 100.0)
    ensures r.ToZero? && !offsets.Dict? ==> t.Failure?
  {
    match r
    case ToSleep => Success(Lookup(SleepPositions, a) as real * 100.0)
    case ToZero =>
      match DictGet(offsets, a - 1, Int(0))
      case Failure(e) => Failure(e)
      case Success(off) =>
        match AsReal(off)
        case None => Failure(TypeError)
        case Some(o) => Success((Lookup(ZeroPositions, a) as real + o) * 100.0)
  }

  /** The full command plan for axis `a`: go home, wait, absolute move,
      wait, and, when homing, declare the position zero. */
  function Plan(r: Routine, a: int, speed: real, accel: real, target: real): (p: seq<Call>)
    ensures |p| == if r.ToZero? then 5 else 4
    ensures p[0] == GoHome(a - 1) && p[1] == WaitForMotorsToStop
    ensures p[2] == RunAbsolute(a - 1, speed, accel, target) && p[3] == WaitForMotorsToStop
    ensures r.ToZero? ==> p[4] == SetAxisZero(a - 1)
  {
    [GoHome(a - 1), WaitForMotorsToStop, RunAbsolute(a - 1, speed, accel, target), WaitForMotorsToStop]
      + (if r.ToZero? then [SetAxisZero(a - 1)] else [])
  }

  /** What one axis did: the calls that went out, and whether it raised. */
  datatype Step = Step(calls: seq<Call>, raised: bool)

  /** Issue `plan`, unless the driver raises after `fault` of its calls. */
  function Issue(plan: seq<Call>, fault: Option<nat>): (st: Step)
    ensures st.raised <==> fault.Some? && fault.value < |plan|
    ensures st.calls <= plan
    ensures !st.raised ==> st.calls == plan
  {
    if fault.Some? && fault.value < |plan| then Step(plan[..fault.value], true) else Step(plan, false)
  }

  /** One pass of the loop body for axis `a`. The servo index, the offset
      and the two `dict.get` calls are evaluated before any call is made;
      a speed or acceleration that is not a number reaches the driver in
      the absolute move, after the homing run and its wait. */
  function AxisStep(r: Routine, a: int, servos: nat, cfg: Config, fault: Option<nat>): (st: Step)
    requires 1 <= a
    ensures a > servos ==> st == Step([], true)
    ensures forall c :: c in st.calls ==> c == WaitForMotorsToStop || c.axis == a - 1
    ensures |st.calls| <= 5
  {
    if a > servos then Step([], true)
    else
      match (RawTarget(r, a, cfg.offsets), DictGet(cfg.speeds, a - 1, Int(500)), DictGet(cfg.accels, a - 1, Int(150)))
      case (Success(target), Success(sp), Success(ac)) =>
        if AsReal(sp).Some? && AsReal(ac).Some? then
          Issue(Plan(r, a, AsReal(sp).value, AsReal(ac).value, target), fault)
        else
          Step(Issue([GoHome(a - 1), WaitForMotorsToStop], fault).calls, true)
      case _ => Step([], true)
  }

  /** The outcome of a routine: every call made, in order, and the axes
      whose step raised and was logged. */
  datatype Report = Report(calls: seq<Call>, failed: seq<int>)

  function FaultOf(faults: map<int, nat>, a: int): Option<nat> {
    if a in faults then Some(faults[a]) else None
  }

  /** The loop over `axes`, each step in its own `try`. */
  function Sweep(r: Routine, axes: seq<int>, servos: nat, cfg: Config, faults: map<int, nat>): (rep: Report)
    requires forall i :: 0 <= i < |axes| ==> 1 <= axes[i]
    ensures forall a :: a in rep.failed ==> a in axes
    ensures |rep.calls| <= 5 * |axes|
  {
    if |axes| == 0 then Report([], [])
    else
      var st := AxisStep(r, axes[0], servos, cfg, FaultOf(faults, axes[0]));
      var rest := Sweep(r, axes[1..], servos, cfg, faults);
      Report(st.calls + rest.calls, (if st.raised then [axes[0]] else []) + rest.failed)
  }

  /** `move_to_zero_pose(arctos, settings_manager)`. */
  function MoveToZeroPose(s: SM.Settings, servos: nat, faults: map<int, nat>): (rep: Report)
    ensures forall a :: a in rep.failed ==> 1 <= a <= 6
    ensures |rep.calls| <= 30
  {
    HomingSequenceVisitsEachAxisOnce();
    Sweep(ToZero, HomingSequence, servos, ReadConfig(s), faults)
  }

  /** `move_to_sleep_pose(arctos, settings_manager)`: the homing offsets are not read. */
  function MoveToSleepPose(s: SM.Settings, servos: nat, faults: map<int, nat>): (rep: Report)
    ensures forall a :: a in rep.failed ==> 1 <= a <= 6
    ensures |rep.calls| <= 24
  {
    HomingSequenceVisitsEachAxisOnce();
    SleepSweepBound(HomingSequence, servos, ReadConfig(s), faults);
    Sweep(ToSleep, HomingSequence, servos, ReadConfig(s), faults)
  }

  lemma {:induction false} SleepSweepBound(axes: seq<int>, servos: nat, cfg: Config, faults: map<int, nat>)
    requires forall i :: 0 <= i < |axes| ==> 1 <= axes[i]
    ensures |Sweep(ToSleep, axes, servos, cfg, faults).calls| <= 4 * |axes|
  {
    if |axes| > 0 {
      SleepSweepBound(axes[1..], servos, cfg, faults);
    }
  }

  /** The routines visit the axes 6, 5, 4, 3, 2, 1: each motor exactly once,
      in descending order. */
  lemma HomingSequenceVisitsEachAxisOnce()
    ensures |HomingSequence| == |MotorIds| == 6
    ensures forall i :: 0 <= i < 6 ==> HomingSequence[i] == 6 - i
    ensures forall a :: a in HomingSequence <==> a in MotorIds
    ensures forall i, j :: 0 <= i < j < 6 ==> HomingSequence[i] > HomingSequence[j]
  {
  }

  /** The three settings maps are dictionaries. */
  predicate Maps(cfg: Config) {
    cfg.offsets.Dict? && cfg.speeds.Dict? && cfg.accels.Dict?
  }

  /** The settings of axis `a` are well formed: the three maps are
      dictionaries and whatever entry exists for `a - 1` is a number. */
  predicate WellFormed(cfg: Config, a: int) {
    && Maps(cfg)
    && (a - 1 in cfg.offsets.entries ==> AsReal(cfg.offsets.entries[a - 1]).Some?)
    && (a - 1 in cfg.speeds.entries ==> AsReal(cfg.speeds.entries[a - 1]).Some?)
    && (a - 1 in cfg.accels.entries ==> AsReal(cfg.accels.entries[a - 1]).Some?)
  }

  /** `d.get(a - 1, default)` read as a number, for a well-formed map. */
  function Setting(d: Value, a: int, default: real): real
    requires d.Dict?
  {
    if a - 1 in d.entries && AsReal(d.entries[a - 1]).Some? then AsReal(d.entries[a - 1]).value else default
  }

  /** The raw zero target of a well-formed axis: (zero position + offset) * 100,
      with a missing offset read as 0. */
  function ZeroTarget(cfg: Config, a: int): real
    requires cfg.offsets.Dict?
  {
    (Lookup(ZeroPositions, a) as real + Setting(cfg.offsets, a, 0.0)) * 100.0
  }

  /** The target a well-formed axis is driven to by either routine. */
  function TargetOf(r: Routine, cfg: Config, a: int): real
    requires cfg.offsets.Dict?
  {
    if r.ToZero? then ZeroTarget(cfg, a) else Lookup(SleepPositions, a) as real * 100.0
  }

  /** The complete plan of a well-formed axis under routine `r`. */
  function FullPlan(r: Routine, cfg: Config, a: int): seq<Call>
    requires Maps(cfg)
  {
    Plan(r, a, Setting(cfg.speeds, a, 500.0), Setting(cfg.accels, a, 150.0), TargetOf(r, cfg, a))
  }

  /** A well-formed axis with a servo and no driver fault runs its whole plan. */
  lemma HealthyStep(r: Routine, a: int, servos: nat, cfg: Config)
    requires 1 <= a <= servos && WellFormed(cfg, a)
    ensures AxisStep(r, a, servos, cfg, None) == Step(FullPlan(r, cfg, a), false)
  {
  }

  /** A well-formed axis that has a servo and no driver fault is homed in
      full, whatever happens on the other axes: it goes home, moves to its
      zero target at its speed and acceleration (500 and 150 when unset),
      and is declared zero; and it is not among the failed axes. */
  lemma {:induction false} HealthyAxisIsHomed(axes: seq<int>, a: int, servos: nat, cfg: Config, faults: map<int, nat>)
    requires forall i :: 0 <= i < |axes| ==> 1 <= axes[i]
    requires a in axes && a <= servos && a !in faults && WellFormed(cfg, a)
    ensures var rep := Sweep(ToZero, axes, servos, cfg, faults);
            && GoHome(a - 1) in rep.calls
            && RunAbsolute(a - 1, Setting(cfg.speeds, a, 500.0), Setting(cfg.accels, a, 150.0), ZeroTarget(cfg, a)) in rep.calls
            && SetAxisZero(a - 1) in rep.calls
            && a !in rep.failed
  {
    var rest := Sweep(ToZero, axes[1..], servos, cfg, faults);
    if axes[0] == a {
      HealthyStep(ToZero, a, servos, cfg);
      var p := Plan(ToZero, a, Setting(cfg.speeds, a, 500.0), Setting(cfg.accels, a, 150.0), ZeroTarget(cfg, a));
      assert Sweep(ToZero, axes, servos, cfg, faults) == Report(p + rest.calls, rest.failed);
      if a in axes[1..] {
        HealthyAxisIsHomed(axes[1..], a, servos, cfg, faults);
      }
      assert p[0] in p && p[2] in p && p[4] in p;
    } else {
      assert a in axes[1..];
      HealthyAxisIsHomed(axes[1..], a, servos, cfg, faults);
    }
  }

  /** Reference: the complete plans of `axes`, one after another. */
  function FullPlans(r: Routine, cfg: Config, axes: seq<int>): seq<Call>
    requires Maps(cfg)
  {
    if |axes| == 0 then [] else FullPlan(r, cfg, axes[0]) + FullPlans(r, cfg, axes[1..])
  }

  /** Without faults, on well-formed settings and enough servos, a sweep
      issues exactly the complete plans of its axes, in order, and nothing fails. */
  lemma {:induction false} CleanSweep(r: Routine, axes: seq<int>, servos: nat, cfg: Config)
    requires Maps(cfg)
    requires forall i :: 0 <= i < |axes| ==> 1 <= axes[i] <= servos && WellFormed(cfg, axes[i])
    ensures Sweep(r, axes, servos, cfg, map[]) == Report(FullPlans(r, cfg, axes), [])
  {
    if |axes| > 0 {
      HealthyStep(r, axes[0], servos, cfg);
      CleanSweep(r, axes[1..], servos, cfg);
    }
  }

  /** With every axis well formed, six servos and no fault, homing issues
      the five-call plan of axis 6, then 5, and so on down to 1, and nothing fails. */
  lemma HomingWithoutFaults(s: SM.Settings, servos: nat)
    requires servos >= 6 && Maps(ReadConfig(s))
    requires forall a :: 1 <= a <= 6 ==> WellFormed(ReadConfig(s), a)
    ensures var cfg := ReadConfig(s);
            MoveToZeroPose(s, servos, map[])
            == Report(FullPlan(ToZero, cfg, 6) + (FullPlan(ToZero, cfg, 5) + (FullPlan(ToZero, cfg, 4)
                      + (FullPlan(ToZero, cfg, 3) + (FullPlan(ToZero, cfg, 2) + FullPlan(ToZero, cfg, 1))))), [])
  {
    CleanRoutine(ToZero, ReadConfig(s), servos);
  }

  /** Likewise the sleep routine issues the four-call plan of axis 6, then 5,
      down to 1, and nothing fails. */
  lemma SleepWithoutFaults(s: SM.Settings, servos: nat)
    requires servos >= 6 && Maps(ReadConfig(s))
    requires forall a :: 1 <= a <= 6 ==> WellFormed(ReadConfig(s), a)
    ensures var cfg := ReadConfig(s);
            MoveToSleepPose(s, servos, map[])
            == Report(FullPlan(ToSleep, cfg, 6) + (FullPlan(ToSleep, cfg, 5) + (FullPlan(ToSleep, cfg, 4)
                      + (FullPlan(ToSleep, cfg, 3) + (FullPlan(ToSleep, cfg, 2) + FullPlan(ToSleep, cfg, 1))))), [])
  {
    CleanRoutine(ToSleep, ReadConfig(s), servos);
  }

  /** The sweep over the homing sequence, on well-formed settings, without faults. */
  lemma CleanRoutine(r: Routine, cfg: Config, servos: nat)
    requires servos >= 6 && Maps(cfg)
    requires forall a :: 1 <= a <= 6 ==> WellFormed(cfg, a)
    ensures Sweep(r, HomingSequence, servos, cfg, map[])
            == Report(FullPlan(r, cfg, 6) + (FullPlan(r, cfg, 5) + (FullPlan(r, cfg, 4)
                      + (FullPlan(r, cfg, 3) + (FullPlan(r, cfg, 2) + FullPlan(r, cfg, 1))))), [])
  {
    HomingSequenceVisitsEachAxisOnce();
    forall i | 0 <= i < |HomingSequence|
      ensures 1 <= HomingSequence[i] <= servos && WellFormed(cfg, HomingSequence[i])
    {
      assert HomingSequence[i] == 6 - i;
    }
    CleanSweep(r, HomingSequence, servos, cfg);
    PlansOfSixToOne(r, cfg, HomingSequence);
  }

  lemma {:induction false} PlansOfSixToOne(r: Routine, cfg: Config, h: seq<int>)
    requires Maps(cfg) && |h| == 6 && forall i :: 0 <= i < 6 ==> h[i] == 6 - i
    ensures FullPlans(r, cfg, h)
            == FullPlan(r, cfg, 6) + (FullPlan(r, cfg, 5) + (FullPlan(r, cfg, 4)
               + (FullPlan(r, cfg, 3) + (FullPlan(r, cfg, 2) + FullPlan(r, cfg, 1)))))
  {
    var p1 := FullPlans(r, cfg, h[5..]);
    assert p1 == FullPlan(r, cfg, 1) by {
      assert h[5..][0] == 1 && h[5..][1..] == [];
      assert FullPlans(r, cfg, h[5..][1..]) == [];
      assert p1 == FullPlan(r, cfg, 1) + [];
    }
    var p2 := FullPlans(r, cfg, h[4..]);
    assert p2 == FullPlan(r, cfg, 2) + p1 by { assert h[4..][1..] == h[5..]; }
    var p3 := FullPlans(r, cfg, h[3..]);
    assert p3 == FullPlan(r, cfg, 3) + p2 by { assert h[3..][1..] == h[4..]; }
    var p4 := FullPlans(r, cfg, h[2..]);
    assert p4 == FullPlan(r, cfg, 4) + p3 by { assert h[2..][1..] == h[3..]; }
    var p5 := FullPlans(r, cfg, h[1..]);
    assert p5 == FullPlan(r, cfg, 5) + p4 by { assert h[1..][1..] == h[2..]; }
  }

  /** The sleep routine never declares a new zero, and every absolute move
      it makes goes to raw position 0. */
  lemma {:induction false} SleepNeverZeroes(axes: seq<int>, servos: nat, cfg: Config, faults: map<int, nat>)
    requires forall i :: 0 <= i < |axes| ==> 1 <= axes[i]
    ensures forall c :: c in Sweep(ToSleep, axes, servos, cfg, faults).calls ==> !c.SetAxisZero?
    ensures forall c :: c in Sweep(ToSleep, axes, servos, cfg, faults).calls && c.RunAbsolute? ==> c.position == 0.0
  {
    if |axes| > 0 {
      SleepNeverZeroes(axes[1..], servos, cfg, faults);
      SleepStep(axes[0], servos, cfg, FaultOf(faults, axes[0]));
    }
  }

  /** One sleep step neither zeroes nor moves anywhere but raw position 0. */
  lemma SleepStep(a: int, servos: nat, cfg: Config, fault: Option<nat>)
    requires 1 <= a
    ensures forall c :: c in AxisStep(ToSleep, a, servos, cfg, fault).calls ==> !c.SetAxisZero? && (c.RunAbsolute? ==> c.position == 0.0)
  {
    assert forall a :: Lookup(SleepPositions, a) == 0;
  }

  /** With no acceleration map, one step's absolute move uses 150. */
  lemma DefaultAccelerationStep(r: Routine, a: int, servos: nat, cfg: Config, fault: Option<nat>)
    requires 1 <= a && cfg.accels == Dict(map[])
    ensures forall c :: c in AxisStep(r, a, servos, cfg, fault).calls && c.RunAbsolute? ==> c.acc == 150.0
  {
    assert DictGet(cfg.accels, a - 1, Int(150)) == Success(Int(150));
  }

  /** Because the routine reads `joint_acceleration` while the joints tab
      stores `joint_accelerations`, accelerations saved from the UI never
      reach homing: every absolute move uses the default 150. */
  lemma {:induction false} SavedAccelerationsIgnored(axes: seq<int>, servos: nat, s: SM.Settings, faults: map<int, nat>)
    requires forall i :: 0 <= i < |axes| ==> 1 <= axes[i]
    requires AccelerationsKey !in s
    ensures forall c :: c in Sweep(ToZero, axes, servos, ReadConfig(s), faults).calls && c.RunAbsolute? ==> c.acc == 150.0
  {
    if |axes| > 0 {
      SavedAccelerationsIgnored(axes[1..], servos, s, faults);
      DefaultAccelerationStep(ToZero, axes[0], servos, ReadConfig(s), FaultOf(faults, axes[0]));
    }
  }
}
