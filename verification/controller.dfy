/** The joint-to-motor layer of `ArctosController`: signed gear ratios,
    conversion between joint radians and encoder counts, the per-joint
    command fan-out of `move_to_angles` (validation, speed and acceleration
    clamping, coupled B/C mixing), encoder readings with fallback, and the
    decision inside the safe emergency stop. CAN bus set-up, the thread pool
    and the servo driver itself are outside the model; servo calls are
    recorded as `Servo.Call` values, one slot per servo. */
module ArctosController {
  import opened Wrappers
  import opened PyOps
  import opened Values
  import opened Servo
  import SM = SettingsManager

  /** Encoder counts per motor revolution. */
  const EncoderResolution: real := 16384.0

  /** Gear ratios used when the settings do not provide any. */
  const DefaultRatios: seq<real> := [13.5, 150.0, 150.0, 48.0, 33.91, 33.91]

  /** Servo speed range in RPM and acceleration range accepted by the firmware. */
  const MaxSpeed: int := 3000
  const MaxAcceleration: int := 255

  /** RPM above which the safe emergency stop decelerates instead of stopping hard. */
  const HighRpm: int := 1000

  const JointCount: nat := 6

  // ---------------------------------------------------------------------------
  // gear ratios

  /** `directions.get(i, 1)`. */
  function DirectionOf(directions: map<int, real>, i: int): real {
    if i in directions then directions[i] else 1.0
  }

  /** `[gr * directions.get(i, 1) for i, gr in enumerate(base)]`: each ratio
      carries its joint's direction sign; joints without an entry keep their
      ratio, inverted joints get the negated ratio. */
  function SignedRatios(base: seq<real>, directions: map<int, real>): (r: seq<real>)
    ensures |r| == |base|
    ensures forall i :: 0 <= i < |r| ==> r[i] == base[i] * DirectionOf(directions, i)
    ensures forall i :: 0 <= i < |r| && i !in directions ==> r[i] == base[i]
    ensures forall i :: 0 <= i < |r| && i in directions && directions[i] == -1.0 ==> r[i] == -base[i]
  {
    seq(|base|, i requires 0 <= i < |base| => base[i] * DirectionOf(directions, i))
  }

  /** The direction table as numbers: `directions.get(i, 1)` for every ratio
      index. With no ratios nothing is looked up; otherwise a table without
      `.get` raises `AttributeError` at the first joint and an entry that is
      not a number is a `TypeError`. */
  function DirectionTable(directions: Value, n: nat): (r: Result<map<int, real>, PyError>)
    ensures r.Success? && n > 0 ==> directions.Dict?
    ensures r.Success? ==> forall i :: 0 <= i < n ==>
              DictGet(directions, i, Int(1)).Success? && AsReal(DictGet(directions, i, Int(1)).value) == Some(DirectionOf(r.value, i))
    ensures n == 0 ==> r.Success?
    ensures directions.Dict? ==>
              (r.Success? <==> forall i :: 0 <= i < n ==> AsReal(DictGet(directions, i, Int(1)).value).Some?)
    ensures r.Failure? ==> n > 0 && r.error == (if directions.Dict? then TypeError else AttributeError)
  {
    if n == 0 then Success(map[])
    else if !directions.Dict? then Failure(AttributeError)
    else DirectionsUpTo(directions, n)
  }

  /** The numbers `directions.get(i, 1)` for `i < n`, collected index by
      index; the first entry that is not a number is a `TypeError`. */
  function DirectionsUpTo(directions: Value, n: nat): (r: Result<map<int, real>, PyError>)
    requires directions.Dict?
    ensures r.Success? <==> forall i :: 0 <= i < n ==> AsReal(DictGet(directions, i, Int(1)).value).Some?
    ensures r.Success? ==> forall i :: 0 <= i < n ==>
              AsReal(DictGet(directions, i, Int(1)).value) == Some(DirectionOf(r.value, i))
    ensures r.Failure? ==> r.error == TypeError
  {
    if n == 0 then Success(map[])
    else
      match DirectionsUpTo(directions, n - 1)
      case Failure(e) => Failure(e)
      case Success(m) =>
        match AsReal(DictGet(directions, n - 1, Int(1)).value)
        case None => Failure(TypeError)
        case Some(x) =>
          assert forall i :: 0 <= i < n - 1 ==> DirectionOf(m[n - 1 := x], i) == DirectionOf(m, i);
          Success(m[n - 1 := x])
  }

  /** `base` is a list of numbers and, unless it is empty, `directions` is
      a dictionary whose `get(i, 1)` is a number for every index of it. */
  predicate Signable(base: Value, directions: Value) {
    && AsRealList(base).Some?
    && (|base.items| == 0 ||
        (directions.Dict? && forall i :: 0 <= i < |base.items| ==> AsReal(DictGet(directions, i, Int(1)).value).Some?))
  }

  /** `ratios` holds, index by index, the number in `base` times the
      number `directions.get(i, 1)`. */
  predicate SignedBy(base: Value, directions: Value, ratios: seq<real>) {
    && base.List? && |ratios| == |base.items|
    && forall i :: 0 <= i < |base.items| ==>
         && AsReal(base.items[i]).Some?
         && DictGet(directions, i, Int(1)).Success? && AsReal(DictGet(directions, i, Int(1)).value).Some?
         && ratios[i] == AsReal(base.items[i]).value * AsReal(DictGet(directions, i, Int(1)).value).value
  }

  /** `[gr * directions.get(i, 1) for i, gr in enumerate(base)]` on settings
      values. A base that is not a list cannot be enumerated (`TypeError`);
      an empty base gives no ratios whatever the directions are; otherwise
      a direction table without `.get` raises `AttributeError`, and a ratio
      or direction that is not a number is a `TypeError`. */
  function SignValues(base: Value, directions: Value): (r: Result<seq<real>, PyError>)
    ensures r.Success? <==> Signable(base, directions)
    ensures r.Success? ==> SignedBy(base, directions, r.value)
    ensures r.Failure? ==>
              r.error == (if base.List? && |base.items| > 0 && !directions.Dict? then AttributeError else TypeError)
  {
    if !base.List? then Failure(TypeError)
    else
      match DirectionTable(directions, |base.items|)
      case Failure(e) => Failure(e)
      case Success(t) =>
        match AsRealList(base)
        case None => Failure(TypeError)
        case Some(ratios) =>
          SignedEntries(base, ratios, directions, t);
          Success(SignedRatios(ratios, t))
  }

  /** Each signed ratio is the typed ratio times the number the settings
      hold for its joint (1 when absent). */
  lemma SignedEntries(base: Value, ratios: seq<real>, directions: Value, t: map<int, real>)
    requires AsRealList(base) == Some(ratios)
    requires DirectionTable(directions, |ratios|) == Success(t)
    ensures Signable(base, directions)
    ensures SignedBy(base, directions, SignedRatios(ratios, t))
  {
    SignedProducts(base, ratios, directions, t);
  }

  /** The product form of `SignedRatios`, entry by entry. */
  lemma SignedProducts(base: Value, ratios: seq<real>, directions: Value, t: map<int, real>)
    requires base.List? && |ratios| == |base.items|
    requires forall i :: 0 <= i < |ratios| ==> AsReal(base.items[i]) == Some(ratios[i])
    requires forall i :: 0 <= i < |ratios| ==>
               DictGet(directions, i, Int(1)).Success? && AsReal(DictGet(directions, i, Int(1)).value) == Some(DirectionOf(t, i))
    ensures SignedBy(base, directions, SignedRatios(ratios, t))
  {
  }

  /** `DefaultRatios` as a settings value. */
  function DefaultRatiosValue(): (v: Value)
    ensures AsRealList(v) == Some(DefaultRatios)
  {
    var v := List(seq(|DefaultRatios|, i requires 0 <= i < |DefaultRatios| => Real(DefaultRatios[i])));
    assert AsRealList(v).value == DefaultRatios;
    v
  }

  /** The base ratios `__init__` uses: the stored `gear_ratios` when a
      settings store is given, the built-in ratios otherwise. */
  function InitBase(settings: Option<SM.Settings>): Value {
    if settings.Some? then SM.Get(settings.value, "gear_ratios", DefaultRatiosValue()) else DefaultRatiosValue()
  }

  /** The directions `__init__` uses: the stored `joint_directions` when a
      settings store is given, all-positive otherwise. */
  function InitDirections(settings: Option<SM.Settings>): Value {
    if settings.Some? then SM.Get(settings.value, "joint_directions", JointDict(Int(1))) else JointDict(Int(1))
  }

  /** The ratio set-up of `__init__`: ratio `i` is base ratio `i` times
      `directions.get(i, 1)`, with the built-in ratios and all-positive
      directions as fallbacks. */
  function InitGearRatios(settings: Option<SM.Settings>): (r: Result<seq<real>, PyError>)
    ensures r.Success? <==> Signable(InitBase(settings), InitDirections(settings))
    ensures r.Success? ==> SignedBy(InitBase(settings), InitDirections(settings), r.value)
    ensures r.Failure? ==>
              r.error == (if InitBase(settings).List? && |InitBase(settings).items| > 0 && !InitDirections(settings).Dict?
                          then AttributeError else TypeError)
  {
    SignValues(InitBase(settings), InitDirections(settings))
  }

  /** Without stored ratios or directions, or with stored directions that
      are all positive and the built-in ratios, the set-up yields the
      built-in ratios. */
  lemma InitGearRatiosDefaults(settings: Option<SM.Settings>)
    ensures settings.None? ==> InitGearRatios(settings) == Success(DefaultRatios)
    ensures settings.Some? && "gear_ratios" !in settings.value && "joint_directions" !in settings.value
            ==> InitGearRatios(settings) == Success(DefaultRatios)
    ensures settings.Some? && SM.Get(settings.value, "joint_directions", JointDict(Int(1))) == JointDict(Int(1))
            && AsRealList(SM.Get(settings.value, "gear_ratios", DefaultRatiosValue())) == Some(DefaultRatios)
            ==> InitGearRatios(settings) == Success(DefaultRatios)
  {
    var base, dirs := InitBase(settings), InitDirections(settings);
    if dirs == JointDict(Int(1)) && AsRealList(base).Some? {
      UnitSignValues(base);
    }
  }

  /** All-positive directions keep a list of numbers as it is. */
  lemma UnitSignValues(base: Value)
    requires AsRealList(base).Some?
    ensures SignValues(base, JointDict(Int(1))) == Success(AsRealList(base).value)
  {
    var ratios := AsRealList(base).value;
    UnitDirectionTable(ratios);
  }

  /** All-positive directions give a table that leaves every ratio as it is. */
  lemma UnitDirectionTable(ratios: seq<real>)
    ensures DirectionTable(JointDict(Int(1)), |ratios|).Success?
    ensures SignedRatios(ratios, DirectionTable(JointDict(Int(1)), |ratios|).value) == ratios
  {
    var n := |ratios|;
    var dirs := JointDict(Int(1));
    forall i | 0 <= i < n ensures AsReal(DictGet(dirs, i, Int(1)).value) == Some(1.0) {
      assert DictGet(dirs, i, Int(1)).value == Int(1);
    }
    var t := DirectionTable(dirs, n).value;
    forall i | 0 <= i < n ensures DirectionOf(t, i) == 1.0 {
      assert AsReal(DictGet(dirs, i, Int(1)).value) == Some(DirectionOf(t, i));
    }
  }

  /** `set_gear_ratios(ratios, directions)`: recomputes the signed ratios the
      same way as `__init__`; without a direction table every sign is +1. */
  function SetGearRatios(ratios: seq<real>, directions: Option<map<int, real>>): (r: seq<real>)
    ensures |r| == |ratios|
    ensures directions.None? ==> r == ratios
    ensures directions.Some? ==> r == SignedRatios(ratios, directions.value)
  {
    SignedRatios(ratios, directions.GetOr(map[0 := 1.0, 1 := 1.0, 2 := 1.0, 3 := 1.0, 4 := 1.0, 5 := 1.0]))
  }

  /** Construction and `set_gear_ratios` sign ratios alike: when the
      stored ratios are numbers and the stored directions give a table, the
      controller starts with exactly the ratios `set_gear_ratios` would
      derive from them. */
  lemma InitAgreesWithSetGearRatios(settings: Option<SM.Settings>, ratios: seq<real>, t: map<int, real>)
    requires AsRealList(InitBase(settings)) == Some(ratios)
    requires DirectionTable(InitDirections(settings), |ratios|) == Success(t)
    ensures InitGearRatios(settings) == Success(SetGearRatios(ratios, Some(t)))
  {
    var base := InitBase(settings);
    assert base.List?;
    assert SignValues(base, InitDirections(settings)) == Success(SignedRatios(ratios, t));
  }

  // ---------------------------------------------------------------------------
  // radians <-> encoder counts

  /** The exact (untruncated) encoder position of a joint angle. */
  function ExactCounts(angle: real, ratio: real): real {
    angle / (2.0 * Pi) * EncoderResolution * ratio
  }

  /** `angle_to_encoder`: the exact count truncated toward zero, so it lies
      less than one count from the exact value and never exceeds it in
      magnitude. */
  function AngleToEncoder(angle: real, ratio: real): (e: int)
    ensures -1.0 < ExactCounts(angle, ratio) - e as real < 1.0
    ensures Abs(e as real) <= Abs(ExactCounts(angle, ratio))
  {
    TruncBounds(ExactCounts(angle, ratio));
    Trunc(ExactCounts(angle, ratio))
  }

  /** `encoder_to_angle`: the angle whose exact count is `e`. A zero ratio
      raises `ZeroDivisionError` in the source and is excluded here. */
  function EncoderToAngle(e: int, ratio: real): (angle: real)
    requires ratio != 0.0
    ensures ExactCounts(angle, ratio) == e as real
  {
    var angle := (e as real / (EncoderResolution * ratio)) * (2.0 * Pi);
    assert ExactCounts(angle, ratio) == e as real by {
      var q := e as real / (EncoderResolution * ratio);
      assert angle / (2.0 * Pi) == q;
      assert q * (EncoderResolution * ratio) == e as real;
    }
    angle
  }

  /** Counts -> radians -> counts is the identity. */
  lemma EncoderRoundTrip(e: int, ratio: real)
    requires ratio != 0.0
    ensures AngleToEncoder(EncoderToAngle(e, ratio), ratio) == e
  {
    TruncOfInt(e);
  }

  /** The angle of one encoder count at the given ratio. */
  function CountAngle(ratio: real): real
    requires ratio != 0.0
  {
    2.0 * Pi / (EncoderResolution * Abs(ratio))
  }

  lemma NegativeFactor(x: real, y: real)
    requires y > 0.0 && x * y < 0.0
    ensures x < 0.0
  {
  }

  /** If `|d * k| < 1` then `|d|` is below `1 / |k|`. */
  lemma ScaledBelowOne(d: real, k: real, c: real)
    requires k != 0.0
    requires -1.0 < d * k < 1.0
    requires c * Abs(k) == 1.0
    ensures Abs(d) < c
  {
    var ak := Abs(k);
    var x := d * ak;
    assert x == d * k || x == -(d * k) by {
      if k < 0.0 { NegatedFactor(d, k); }
    }
    BelowReciprocal(d, ak, c);
  }

  lemma NegatedFactor(d: real, k: real)
    ensures d * -k == -(d * k)
  {
  }

  /** `-1 < d * a < 1` with `c * a == 1` and `a > 0` bounds `d` by `c` on both sides. */
  lemma BelowReciprocal(d: real, a: real, c: real)
    requires a > 0.0 && c * a == 1.0 && -1.0 < d * a < 1.0
    ensures -c < d < c
  {
    DifferenceTimes(d, c, a);
    BelowByOne((d - c) * a, d * a, c * a);
    NegativeFactor(d - c, a);
    DifferenceTimes(-c, d, a);
    assert (-c) * a == -(c * a);
    BelowByOne((-c - d) * a, -(d * a), 1.0);
    NegativeFactor(-c - d, a);
  }

  lemma BelowByOne(p: real, q: real, r: real)
    requires p == q - r && q < 1.0 && r == 1.0
    ensures p < 0.0
  {
  }

  lemma DifferenceTimes(a: real, b: real, y: real)
    ensures (a - b) * y == a * y - b * y
  {
  }

  /** Radians -> counts -> radians loses less than one count's worth of angle. */
  lemma AngleRoundTrip(angle: real, ratio: real)
    requires ratio != 0.0
    ensures Abs(EncoderToAngle(AngleToEncoder(angle, ratio), ratio) - angle) < CountAngle(ratio)
  {
    var e := AngleToEncoder(angle, ratio);
    var back := EncoderToAngle(e, ratio);
    var k := EncoderResolution * ratio / (2.0 * Pi);
    assert ExactCounts(back, ratio) == back * k;
    assert ExactCounts(angle, ratio) == angle * k;
    var d := back - angle;
    assert d * k == e as real - ExactCounts(angle, ratio);
    assert Abs(k) == EncoderResolution * Abs(ratio) / (2.0 * Pi);
    assert CountAngle(ratio) * Abs(k) == 1.0;
    ScaledBelowOne(d, k, CountAngle(ratio));
  }

  // ---------------------------------------------------------------------------
  // move_to_angles

  /** A speed or acceleration argument: one number for every joint, or a list. */
  datatype Amount = Scalar(x: real) | PerJoint(xs: seq<real>)

  /** The encoder targets of `move_to_angles`: in coupled B/C mode axes 4 and 5
      receive `a4 + a5` and `a4 - a5`; the other axes keep their angle. */
  function CoupledTargets(angles: seq<real>, coupled: bool): (t: seq<real>)
    requires |angles| == JointCount
    ensures |t| == JointCount
    ensures forall i :: 0 <= i < 4 ==> t[i] == angles[i]
    ensures coupled ==> t[4] == angles[4] + angles[5] && t[5] == angles[4] - angles[5]
    ensures !coupled ==> t == angles
  {
    if coupled then angles[4 := angles[4] + angles[5]][5 := angles[4] - angles[5]] else angles
  }

  /** `c` is the command axis `i` is sent: speed `clamp(int(s * scale), 0, 3000)`,
      acceleration `clamp(int(a), 0, 255)`, and the encoder count of its target. */
  predicate IsAxisCommand(c: Call, i: int, target: real, s: real, a: real, speedScale: real, ratio: real) {
    && c.RunAbsolute? && c.axis == i
    && 0.0 <= c.speed <= MaxSpeed as real
    && 0.0 <= c.acc <= MaxAcceleration as real
    && c.speed == ClampInt(Trunc(s * speedScale), 0, MaxSpeed) as real
    && c.acc == ClampInt(Trunc(a), 0, MaxAcceleration) as real
    && c.position == AngleToEncoder(target, ratio) as real
  }

  /** `move_to_angles(angles, speeds=, acceleration=)` as written: one slot per
      axis holding the command its worker sends, if any. A list of the wrong
      length is a `ValueError` before anything is sent; a scalar speed or
      acceleration (including the default 500 / 150) is a `TypeError` because
      the code iterates over it. */
  function MoveToAngles(angles: seq<real>, speeds: Amount, accs: Amount, speedScale: real,
                        coupled: bool, ratios: seq<real>, servos: nat): (r: Result<seq<Option<Call>>, PyError>)
    ensures |angles| != JointCount ==> r == Failure(ValueError)
    ensures |angles| == JointCount && (speeds.Scalar? || accs.Scalar?) ==> r == Failure(TypeError)
    ensures r.Success? <==> |angles| == JointCount && speeds.PerJoint? && accs.PerJoint?
    ensures r.Success? ==> |r.value| == JointCount
    ensures r.Success? ==> forall i :: 0 <= i < JointCount ==>
              (r.value[i].Some? <==> i < |ratios| && i < |speeds.xs| && i < |accs.xs| && i < servos)
    ensures r.Success? ==> forall i :: 0 <= i < JointCount && r.value[i].Some? ==>
              IsAxisCommand(r.value[i].value, i, CoupledTargets(angles, coupled)[i],
                            speeds.xs[i], accs.xs[i], speedScale, ratios[i])
  {
    if |angles| != JointCount then Failure(ValueError)
    else if speeds.Scalar? || accs.Scalar? then Failure(TypeError)
    else Success(Dispatch(angles, speeds.xs, accs.xs, speedScale, coupled, ratios, servos))
  }

  /** The command of one axis worker, if the worker gets that far. */
  function AxisCommand(i: nat, target: real, speeds: seq<real>, accs: seq<real>, speedScale: real,
                       ratios: seq<real>, servos: nat): (c: Option<Call>)
    ensures c.Some? <==> i < |ratios| && i < |speeds| && i < |accs| && i < servos
    ensures c.Some? ==> IsAxisCommand(c.value, i, target, speeds[i], accs[i], speedScale, ratios[i])
  {
    if i < |ratios| && i < |speeds| && i < |accs| && i < servos then
      Some(RunAbsolute(i,
                       ClampInt(Trunc(speeds[i] * speedScale), 0, MaxSpeed) as real,
                       ClampInt(Trunc(accs[i]), 0, MaxAcceleration) as real,
                       AngleToEncoder(target, ratios[i]) as real))
    else None
  }

  /** The per-axis fan-out shared by `MoveToAngles` and `MoveToAnglesBroadcast`. */
  function Dispatch(angles: seq<real>, speeds: seq<real>, accs: seq<real>, speedScale: real,
                    coupled: bool, ratios: seq<real>, servos: nat): (slots: seq<Option<Call>>)
    requires |angles| == JointCount
    ensures |slots| == JointCount
    ensures forall i :: 0 <= i < JointCount ==>
              slots[i] == AxisCommand(i, CoupledTargets(angles, coupled)[i], speeds, accs, speedScale, ratios, servos)
  {
    var targets := CoupledTargets(angles, coupled);
    seq(JointCount, i requires 0 <= i < JointCount => AxisCommand(i, targets[i], speeds, accs, speedScale, ratios, servos))
  }

  /** `move_to_angles` as its docstring describes it: a scalar speed or
      acceleration applies to every joint. With six ratios and six servos
      every axis is commanded. */
  function MoveToAnglesBroadcast(angles: seq<real>, speeds: Amount, accs: Amount, speedScale: real,
                                 coupled: bool, ratios: seq<real>, servos: nat): (r: Result<seq<Option<Call>>, PyError>)
    ensures |angles| != JointCount ==> r == Failure(ValueError)
    ensures r.Success? <==> |angles| == JointCount
    ensures r.Success? ==> |r.value| == JointCount
    ensures r.Success? ==> forall i :: 0 <= i < JointCount && r.value[i].Some? ==>
              r.value[i].value.RunAbsolute? && r.value[i].value.axis == i
    ensures r.Success? && |ratios| >= JointCount && servos >= JointCount && |Broadcast(speeds)| >= JointCount
            && |Broadcast(accs)| >= JointCount ==>
              forall i :: 0 <= i < JointCount ==>
                r.value[i].Some? &&
                IsAxisCommand(r.value[i].value, i, CoupledTargets(angles, coupled)[i],
                              Broadcast(speeds)[i], Broadcast(accs)[i], speedScale, ratios[i])
  {
    if |angles| != JointCount then Failure(ValueError)
    else Success(Dispatch(angles, Broadcast(speeds), Broadcast(accs), speedScale, coupled, ratios, servos))
  }

  /** A scalar repeated for every joint, or the list as given. */
  function Broadcast(a: Amount): (xs: seq<real>)
    ensures a.Scalar? ==> |xs| == JointCount && forall i :: 0 <= i < JointCount ==> xs[i] == a.x
    ensures a.PerJoint? ==> xs == a.xs
  {
    if a.Scalar? then seq(JointCount, _ => a.x) else a.xs
  }

  /** Every caller of `move_to_angles` in the application passes the six joint
      angles and leaves speeds and accelerations at their scalar defaults:
      the call fails and no servo is commanded. The broadcasting version
      commands all six axes at 500 RPM (scaled) and acceleration 150. */
  lemma DefaultSpeedsNeverMove(angles: seq<real>, speedScale: real, coupled: bool, ratios: seq<real>, servos: nat)
    requires |angles| == JointCount
    ensures MoveToAngles(angles, Scalar(500.0), Scalar(150.0), speedScale, coupled, ratios, servos) == Failure(TypeError)
    ensures |ratios| >= JointCount && servos >= JointCount ==>
              var r := MoveToAnglesBroadcast(angles, Scalar(500.0), Scalar(150.0), speedScale, coupled, ratios, servos);
              r.Success? && forall i :: 0 <= i < JointCount ==> r.value[i].Some? && r.value[i].value.acc == 150.0
  {
  }

  // ---------------------------------------------------------------------------
  // encoder readings

  /** What `read_encoder_value_addition()` produced. */
  datatype EncoderRead = Count(value: int) | NoValue | Raised

  /** `_read_encoder_with_fallback`: the count, or 0 when the read returned
      `None` or raised. */
  function ReadEncoderWithFallback(r: EncoderRead): (e: int)
    ensures r.Count? ==> e == r.value
    ensures !r.Count? ==> e == 0
  {
    if r.Count? then r.value else 0
  }

  /** The first servo index from `k` on (below `n`) whose conversion fails:
      one past the ratio list (`IndexError`) or with a zero ratio
      (`ZeroDivisionError`); `n` when none fails. */
  function FirstBadRatio(ratios: seq<real>, n: nat, k: nat): (j: nat)
    requires k <= n
    ensures k <= j <= n
    ensures j == k || j <= |ratios|
    ensures forall i :: k <= i < j ==> ratios[i] != 0.0
    ensures j < n ==> j >= |ratios| || ratios[j] == 0.0
    decreases n - k
  {
    if k == n then n
    else if k >= |ratios| || ratios[k] == 0.0 then k
    else FirstBadRatio(ratios, n, k + 1)
  }

  /** `get_joint_angles`: one angle per servo, read with fallback and
      converted with that axis's ratio. The servos are converted in order,
      so the first servo without a ratio (`IndexError`) or with a zero ratio
      (`ZeroDivisionError`) decides the exception. */
  function GetJointAngles(readings: seq<EncoderRead>, ratios: seq<real>): (r: Result<seq<real>, PyError>)
    ensures r.Success? <==> |readings| <= |ratios| && forall i :: 0 <= i < |readings| ==> ratios[i] != 0.0
    ensures r == Failure(ZeroDivisionError) <==> exists i :: 0 <= i < |readings| && i < |ratios| && ratios[i] == 0.0
    ensures r == Failure(IndexError) <==> |readings| > |ratios| && forall i :: 0 <= i < |ratios| ==> ratios[i] != 0.0
    ensures r.Success? ==> |r.value| == |readings|
    ensures r.Success? ==> forall i :: 0 <= i < |readings| ==>
              ExactCounts(r.value[i], ratios[i]) == ReadEncoderWithFallback(readings[i]) as real
    ensures r.Success? ==> forall i :: 0 <= i < |readings| && !readings[i].Count? ==> r.value[i] == 0.0
  {
    var j := FirstBadRatio(ratios, |readings|, 0);
    if j < |readings| then
      Failure(if j >= |ratios| then IndexError else ZeroDivisionError)
    else
      Success(seq(|readings|, i requires 0 <= i < |readings| => EncoderToAngle(ReadEncoderWithFallback(readings[i]), ratios[i])))
  }

  // ---------------------------------------------------------------------------
  // emergency stop

  /** `emergency_stop`: every servo is sent the stop command, in order. */
  function EmergencyStop(servos: nat): (calls: seq<Call>)
    ensures |calls| == servos
    ensures forall i :: 0 <= i < servos ==> calls[i] == EmergencyStopMotor(i)
  {
    seq(servos, i => EmergencyStopMotor(i))
  }

  /** What `read_motor_speed()` produced: an RPM, or unknown (`None` or an exception). */
  datatype RpmRead = Rpm(value: int) | Unknown

  predicate HighRpmDetected(readings: seq<RpmRead>) {
    exists i :: 0 <= i < |readings| && readings[i].Rpm? && AbsInt(readings[i].value) > HighRpm
  }

  /** `safe_emergency_stop`: when some servo turns faster than 1000 RPM, every
      servo with a known speed is brought to zero speed at maximum
      acceleration, counter-clockwise if it was turning with positive RPM and
      clockwise otherwise, and servos with unknown speed are skipped;
      otherwise every servo receives the plain emergency stop. One slot per
      servo. */
  function SafeEmergencyStop(readings: seq<RpmRead>): (slots: seq<Option<Call>>)
    ensures |slots| == |readings|
    ensures HighRpmDetected(readings) ==> forall i :: 0 <= i < |readings| ==>
              (slots[i].Some? <==> readings[i].Rpm?)
              && (readings[i].Rpm? ==> slots[i] == Some(DecelerateToZero(i, if readings[i].value > 0 then CCW else CW)))
    ensures !HighRpmDetected(readings) ==> forall i :: 0 <= i < |readings| ==> slots[i] == Some(EmergencyStopMotor(i))
  {
    if HighRpmDetected(readings) then
      seq(|readings|, i requires 0 <= i < |readings| =>
        match readings[i]
        case Unknown => None
        case Rpm(v) => Some(DecelerateToZero(i, if v > 0 then CCW else CW)))
    else
      var plain := EmergencyStop(|readings|);
      seq(|readings|, i requires 0 <= i < |readings| => Some(plain[i]))
  }

  /** Both branches of the safe stop address every servo at most once, and
      never command a non-zero speed. */
  lemma SafeStopNeverAccelerates(readings: seq<RpmRead>, i: int)
    requires 0 <= i < |readings|
    requires SafeEmergencyStop(readings)[i].Some?
    ensures SafeEmergencyStop(readings)[i].value.DecelerateToZero? || SafeEmergencyStop(readings)[i].value.EmergencyStopMotor?
    ensures SafeEmergencyStop(readings)[i].value.axis == i
  {
  }
}
