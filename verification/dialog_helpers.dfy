/** The settings-page dialogs (`src/pages/settings/dialog_helpers.py`): the
    gear-ratio wizard, which turns a joint by what the current ratio says is
    a quarter turn and rescales the ratio by the angle actually measured,
    and the reset dialog, which writes a fixed set of defaults. The current
    ratio the wizard is given (`get_current_ratio(idx)`) is a parameter. */
module DialogHelpers {
  import opened Wrappers
  import opened PyOps
  import opened Values
  import opened Servo
  import SM = SettingsManager
  import C = ArctosController
  import H = Homing
  import HF = HandlerFactories

  // ---------------------------------------------------------------------------
  // gear-ratio wizard

  /** `int(r * encoder_resolution / 4)`: the counts of a quarter turn at ratio `r`. */
  function RotateTicks(r: real): (ticks: int)
    ensures r >= 0.0 ==> ticks >= 0 && ticks as real <= r * 4096.0 < ticks as real + 1.0
  {
    Trunc(r * C.EncoderResolution / 4.0)
  }

  /** The wizard's turn is the controller's own encoder count for a 90 degree
      joint angle at the same ratio. */
  lemma RotateIsQuarterTurn(r: real)
    ensures RotateTicks(r) == C.AngleToEncoder(Pi / 2.0, r)
  {
    assert C.ExactCounts(Pi / 2.0, r) == r * C.EncoderResolution / 4.0;
  }

  /** `_rotate`: the selected axis turns by the quarter-turn count at speed
      300 and acceleration 150. */
  function Rotate(selection: string, currentRatio: real, servos: nat): (r: Result<Call, PyError>)
    ensures r.Success? <==> HF.AxisIndex(selection).Success? && HF.ServoAt(servos, HF.AxisIndex(selection).value).Success?
    ensures r.Success? ==>
              r.value == RunRelative(HF.ServoAt(servos, HF.AxisIndex(selection).value).value, 300.0, 150.0, RotateTicks(currentRatio) as real)
  {
    match HF.AxisIndex(selection)
    case Failure(e) => Failure(e)
    case Success(idx) =>
      match HF.ServoAt(servos, idx)
      case Failure(e) => Failure(e)
      case Success(j) => Success(RunRelative(j, 300.0, 150.0, RotateTicks(currentRatio) as real))
  }

  /** `r_cur * 90 / float(meas)`. */
  function NewRatio(current: real, measured: real): (r: real)
    requires measured != 0.0
    ensures r * measured == current * 90.0
  {
    current * 90.0 / measured
  }

  /** A measured quarter turn leaves the ratio as it is. */
  lemma ExactTurnKeepsRatio(current: real)
    ensures NewRatio(current, 90.0) == current
  {
  }

  /** Overshooting lowers a positive ratio and undershooting raises it. */
  lemma RatioMovesAgainstError(current: real, measured: real)
    requires current > 0.0 && measured > 0.0
    ensures measured > 90.0 ==> NewRatio(current, measured) < current
    ensures measured < 90.0 ==> NewRatio(current, measured) > current
  {
    var r := NewRatio(current, measured);
    assert (current - r) * measured == current * (measured - 90.0);
    if measured > 90.0 {
      assert current * (measured - 90.0) > 0.0;
      PositiveFactor(current - r, measured, current * (measured - 90.0));
    } else if measured < 90.0 {
      assert current * (90.0 - measured) > 0.0;
      assert (r - current) * measured == current * (90.0 - measured);
      PositiveFactor(r - current, measured, current * (90.0 - measured));
    }
  }

  /** A product with a positive right factor is positive only when the left one is. */
  lemma PositiveFactor(x: real, m: real, y: real)
    requires m > 0.0 && x * m == y && y > 0.0
    ensures x > 0.0
  {
  }

  /** What pressing Save did: nothing (no measurement), an exception before
      anything was stored, or a new ratio and what storing it did. */
  datatype Saved = Ignored | Raised(error: PyError) | Recalibrated(ratio: real, applied: HF.Applied)

  /** `_save`: the axis is parsed first; an empty or zero measurement stops
      there; the new ratio replaces entry `idx` of the stored list and is
      passed on to the controller. A measurement given as text that reads as
      zero divides by zero. */
  function SaveRatio(s: SM.Settings, selection: string, measured: Value, current: real): (r: Saved)
    ensures HF.AxisIndex(selection).Failure? ==> r == Raised(HF.AxisIndex(selection).error)
    ensures HF.AxisIndex(selection).Success? && !Truthy(measured) ==> r.Ignored?
    ensures r.Recalibrated? ==> HF.AxisIndex(selection).Success? && Truthy(measured)
    ensures r.Recalibrated? ==> FloatOf(measured).Success? && FloatOf(measured).value != 0.0
    ensures r.Recalibrated? ==> r.ratio == NewRatio(current, FloatOf(measured).value)
    ensures r.Recalibrated? ==> r.applied == HF.StoreRatio(s, HF.AxisIndex(selection).value, r.ratio)
    ensures HF.AxisIndex(selection).Success? && Truthy(measured) && AsReal(measured).Some? ==> r.Recalibrated?
  {
    match HF.AxisIndex(selection)
    case Failure(e) => Raised(e)
    case Success(idx) =>
      if !Truthy(measured) then Ignored
      else match FloatOf(measured)
        case Failure(e) => Raised(e)
        case Success(m) =>
          SaveMeasured(s, idx, m, current)
  }

  /** The part of `_save` after parsing: a zero measurement divides by
      zero, any other gives the new ratio and stores it at `idx`. */
  function SaveMeasured(s: SM.Settings, idx: int, m: real, current: real): (r: Saved)
    ensures m == 0.0 ==> r == Raised(ZeroDivisionError)
    ensures m != 0.0 ==> r.Recalibrated? && r.ratio == NewRatio(current, m) && r.ratio * m == current * 90.0
    ensures r.Recalibrated? ==> r.applied == HF.StoreRatio(s, idx, r.ratio)
  {
    if m == 0.0 then Raised(ZeroDivisionError)
    else
      var x := NewRatio(current, m);
      Recalibrated(x, HF.StoreRatio(s, idx, x))
  }

  /** Without a stored ratio list the wizard computes the new ratio but
      cannot place it: `[][idx]` raises and nothing is stored. */
  lemma MissingRatioListRaises(s: SM.Settings, selection: string, measured: Value, current: real)
    requires HF.GearRatiosKey !in s
    ensures SaveRatio(s, selection, measured, current).Recalibrated? ==>
              && SaveRatio(s, selection, measured, current).applied.settings == s
              && SaveRatio(s, selection, measured, current).applied.outcome == Failure(IndexError)
  {
  }

  // ---------------------------------------------------------------------------
  // reset dialog

  /** `{i: v for i in range(6)}` as the dialog writes it. */
  function PerJoint(v: Value): Value {
    JointDict(v)
  }

  /** The keys and values the reset dialog writes, in order. */
  const ResetItems: seq<(string, Value)> := [
    ("theme", Str("Light")),
    ("joint_speeds", PerJoint(Int(500))),
    ("joint_acceleration", PerJoint(Int(150))),
    ("joint_directions", PerJoint(Int(1))),
    ("speed_scale", Real(1.0)),
    ("enable_live_joint_updates", Bool(false)),
    ("homing_offsets", PerJoint(Int(0))),
    ("gear_ratios", ResetRatios)
  ]

  /** `[13.5, 150, 150, 48, 33.91, 33.91]`: the controller's built-in ratios. */
  const ResetRatios: Value := List([Real(13.5), Int(150), Int(150), Int(48), Real(33.91), Real(33.91)])

  /** No item of `items` is written under `k`. */
  predicate Untouched(items: seq<(string, Value)>, k: string) {
    forall i :: 0 <= i < |items| ==> items[i].0 != k
  }

  /** `[settings_manager.set(k, v) for k, v in items]`. */
  function SetAll(s: SM.Settings, items: seq<(string, Value)>): (r: SM.Settings)
    ensures s.Keys <= r.Keys
    ensures forall k, d :: Untouched(items, k) ==> SM.Get(r, k, d) == SM.Get(s, k, d)
    decreases |items|
  {
    if |items| == 0 then s
    else
      assert forall k :: Untouched(items, k) ==> Untouched(items[1..], k) && k != items[0].0;
      SetAll(SM.Set(s, items[0].0, items[0].1), items[1..])
  }

  /** After setting every item, a key holds the last value written for it. */
  lemma {:induction false} SetAllLastWins(s: SM.Settings, items: seq<(string, Value)>, i: int)
    requires 0 <= i < |items|
    requires Untouched(items[i + 1..], items[i].0)
    ensures items[i].0 in SetAll(s, items)
    ensures SetAll(s, items)[items[i].0] == items[i].1
    decreases |items|
  {
    var s' := SM.Set(s, items[0].0, items[0].1);
    if i == 0 {
      assert items[1..] == items[i + 1..];
      assert SM.Get(SetAll(s', items[1..]), items[0].0, Null) == SM.Get(s', items[0].0, Null);
    } else {
      assert items[1..][i - 1 + 1..] == items[i + 1..];
      SetAllLastWins(s', items[1..], i - 1);
    }
  }

  /** The reset dialog's confirm action. */
  function Reset(s: SM.Settings): (r: SM.Settings)
    ensures forall k, d :: Untouched(ResetItems, k) ==> SM.Get(r, k, d) == SM.Get(s, k, d)
  {
    SetAll(s, ResetItems)
  }

  /** Every key the dialog writes holds its listed value. */
  lemma ResetWritesListedValues(s: SM.Settings, i: int)
    requires 0 <= i < |ResetItems|
    ensures ResetItems[i].0 in Reset(s)
    ensures Reset(s)[ResetItems[i].0] == ResetItems[i].1
  {
    SetAllLastWins(s, ResetItems, i);
  }

  /** The entries a reset leaves under the keys the controller and the
      homing routine read. */
  lemma ResetEntries(s: SM.Settings)
    ensures "joint_speeds" in Reset(s) && Reset(s)["joint_speeds"] == PerJoint(Int(500))
    ensures "joint_acceleration" in Reset(s) && Reset(s)["joint_acceleration"] == PerJoint(Int(150))
    ensures "joint_directions" in Reset(s) && Reset(s)["joint_directions"] == PerJoint(Int(1))
    ensures "homing_offsets" in Reset(s) && Reset(s)["homing_offsets"] == PerJoint(Int(0))
    ensures "gear_ratios" in Reset(s) && Reset(s)["gear_ratios"] == ResetRatios
  {
    ResetWritesListedValues(s, 1);
    ResetWritesListedValues(s, 2);
    ResetWritesListedValues(s, 3);
    ResetWritesListedValues(s, 6);
    ResetWritesListedValues(s, 7);
  }

  /** The ratio list the dialog writes reads as the controller's built-in ratios. */
  lemma ResetRatiosAreDefaults()
    ensures AsRealList(ResetRatios) == Some(C.DefaultRatios)
  {
    var items := ResetRatios.items;
    assert forall i :: 0 <= i < |items| ==> AsReal(items[i]).Some?;
    assert AsRealList(ResetRatios).value == C.DefaultRatios;
  }

  /** After a reset the controller starts from its built-in ratios with
      every joint's direction positive. */
  lemma ResetRestoresControllerRatios(s: SM.Settings)
    ensures C.InitGearRatios(Some(Reset(s))) == Success(C.DefaultRatios)
  {
    ResetEntries(s);
    ResetRatiosAreDefaults();
    C.InitGearRatiosDefaults(Some(Reset(s)));
  }

  /** After a reset the homing routine drives every axis to its factory
      zero position at speed 500 and acceleration 150. */
  lemma ResetHomesToFactoryZero(s: SM.Settings, a: int)
    requires 1 <= a <= 6
    ensures H.RawTarget(H.ToZero, a, H.ReadConfig(Reset(s)).offsets) == Success(H.Lookup(H.ZeroPositions, a) as real * 100.0)
    ensures DictGet(H.ReadConfig(Reset(s)).speeds, a - 1, Int(500)) == Success(Int(500))
    ensures DictGet(H.ReadConfig(Reset(s)).accels, a - 1, Int(150)) == Success(Int(150))
  {
    ResetEntries(s);
    ZeroOffsetsKeepFactoryZero(a);
  }

  /** A per-joint offset map of zeros leaves every axis at its factory zero. */
  lemma ZeroOffsetsKeepFactoryZero(a: int)
    requires 1 <= a <= 6
    ensures H.RawTarget(H.ToZero, a, PerJoint(Int(0))) == Success(H.Lookup(H.ZeroPositions, a) as real * 100.0)
  {
    assert AsReal(Int(0)) == Some(0.0);
  }

  /** The reset does not touch the acceleration key the calibration jog
      reads, so jogging keeps whatever accelerations were saved there. */
  lemma ResetKeepsJogAccelerations(s: SM.Settings, d: Value)
    ensures SM.Get(Reset(s), HF.JogAccelerationsKey, d) == SM.Get(s, HF.JogAccelerationsKey, d)
  {
    assert Untouched(ResetItems, HF.JogAccelerationsKey) by {
      forall i | 0 <= i < |ResetItems| ensures ResetItems[i].0 != HF.JogAccelerationsKey {
        assert |ResetItems[i].0| != |HF.JogAccelerationsKey|;
      }
    }
  }
}
